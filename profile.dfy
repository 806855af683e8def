/**
 * The profile page: the checks of the details form and of the password
 * form, and the requests each sends when its check passes.
 */
module Profile {
  import opened Wrappers
  import Text

  datatype ProfileForm = ProfileForm(name: string, email: string)
  datatype PasswordForm = PasswordForm(currentPassword: string, newPassword: string, confirmPassword: string)

  /** What is sent to change the password: the confirmation stays behind. */
  datatype PasswordChange = PasswordChange(currentPassword: string, newPassword: string)

  /** Both fields filled. */
  method ValidateProfileForm(f: ProfileForm) returns (errors: map<string, string>, valid: bool)
    ensures errors.Keys <= {"name", "email"}
    ensures "name" in errors <==> f.name == ""
    ensures "name" in errors ==> errors["name"] == "Name is required"
    ensures "email" in errors <==> f.email == ""
    ensures "email" in errors ==> errors["email"] == "Email is required"
    ensures valid <==> |errors| == 0
    ensures valid <==> f.name != "" && f.email != ""
  {
    errors := map[];
    if f.name == "" {
      errors := errors["name" := "Name is required"];
    }
    if f.email == "" {
      errors := errors["email" := "Email is required"];
    }
    valid := |errors| == 0;
    if !valid {
      assert exists k :: k in errors;
    }
  }

  predicate PasswordAcceptable(f: PasswordForm)
  {
    f.currentPassword != "" && Text.Utf16Length(f.newPassword) >= 6 && f.newPassword == f.confirmPassword
  }

  /** The checks in order. The length check follows the "required" check
      on the same field and applies to the empty password too, so a
      missing new password ends with the length message. */
  method ValidatePasswordForm(f: PasswordForm) returns (errors: map<string, string>, valid: bool)
    ensures errors.Keys <= {"currentPassword", "newPassword", "confirmPassword"}
    ensures "currentPassword" in errors <==> f.currentPassword == ""
    ensures "currentPassword" in errors ==> errors["currentPassword"] == "Current password is required"
    ensures "newPassword" in errors <==> Text.Utf16Length(f.newPassword) < 6
    ensures "newPassword" in errors ==> errors["newPassword"] == "Password must be at least 6 characters"
    ensures "confirmPassword" in errors <==> f.newPassword != f.confirmPassword
    ensures "confirmPassword" in errors ==> errors["confirmPassword"] == "Passwords do not match"
    ensures valid <==> |errors| == 0
    ensures valid <==> PasswordAcceptable(f)
  {
    var length := Text.Utf16Length(f.newPassword);
    errors := map[];
    if f.currentPassword == "" {
      errors := errors["currentPassword" := "Current password is required"];
    }
    if f.newPassword == "" {
      errors := errors["newPassword" := "New password is required"];
    }
    if length < 6 {
      errors := errors["newPassword" := "Password must be at least 6 characters"];
    }
    if f.newPassword != f.confirmPassword {
      errors := errors["confirmPassword" := "Passwords do not match"];
    }
    valid := |errors| == 0;
    if !valid {
      assert exists k :: k in errors;
    }
  }

  /** Submitting the details sends the whole form when both are filled. */
  method HandleProfileSubmit(f: ProfileForm) returns (request: Option<ProfileForm>)
    ensures request.Some? <==> f.name != "" && f.email != ""
    ensures request.Some? ==> request.value == f
  {
    var errors, valid := ValidateProfileForm(f);
    request := if valid then Some(f) else None;
  }

  /** Submitting the password form sends the current and the new password
      when the form is acceptable. */
  method HandlePasswordSubmit(f: PasswordForm) returns (request: Option<PasswordChange>)
    ensures request.Some? <==> PasswordAcceptable(f)
    ensures request.Some? ==> request.value == PasswordChange(f.currentPassword, f.newPassword)
  {
    var errors, valid := ValidatePasswordForm(f);
    request := if valid then Some(PasswordChange(f.currentPassword, f.newPassword)) else None;
  }
}
