/**
 * The sign-up form: the checks that fill the error map, and the
 * registration request sent when there is no error.
 */
module Signup {
  import opened Wrappers
  import Text

  datatype SignupForm = SignupForm(name: string, email: string, password: string, confirmPassword: string)

  /** What is sent to register: the confirmation stays behind. */
  datatype Registration = Registration(name: string, email: string, password: string)

  /** The form passes every check. */
  predicate Acceptable(f: SignupForm)
  {
    f.name != "" && f.email != "" && Text.Utf16Length(f.password) >= 6 && f.password == f.confirmPassword
  }

  /** The checks in order, each adding a message under its field; the
      length check comes last and so replaces the "required" message of a
      short password (an empty password is not checked for length). */
  method ValidateForm(f: SignupForm) returns (errors: map<string, string>, valid: bool)
    ensures errors.Keys <= {"name", "email", "password", "confirmPassword"}
    ensures "name" in errors <==> f.name == ""
    ensures "name" in errors ==> errors["name"] == "Name is required"
    ensures "email" in errors <==> f.email == ""
    ensures "email" in errors ==> errors["email"] == "Email is required"
    ensures "password" in errors <==> Text.Utf16Length(f.password) < 6
    ensures "password" in errors ==>
      (errors["password"] == if f.password == "" then "Password is required"
                             else "Password must be at least 6 characters")
    ensures "confirmPassword" in errors <==> f.password != f.confirmPassword
    ensures "confirmPassword" in errors ==> errors["confirmPassword"] == "Passwords do not match"
    ensures valid <==> |errors| == 0
    ensures valid <==> Acceptable(f)
  {
    var length := Text.Utf16Length(f.password);
    errors := map[];
    if f.name == "" {
      errors := errors["name" := "Name is required"];
    }
    assert errors == if f.name == "" then map["name" := "Name is required"] else map[];
    if f.email == "" {
      errors := errors["email" := "Email is required"];
    }
    assert "name" in errors <==> f.name == "";
    if f.password == "" {
      errors := errors["password" := "Password is required"];
    }
    if f.password != f.confirmPassword {
      errors := errors["confirmPassword" := "Passwords do not match"];
    }
    if f.password != "" && length < 6 {
      errors := errors["password" := "Password must be at least 6 characters"];
    }
    valid := |errors| == 0;
    if valid {
      assert errors == map[];
    } else {
      assert exists k :: k in errors;
    }
  }

  /** Three emoji are six UTF-16 code units, so they make a long enough
      password although they are only three characters. */
  lemma AstralPasswordAccepted()
    ensures Acceptable(SignupForm("n", "e", "\U{1F600}\U{1F600}\U{1F600}", "\U{1F600}\U{1F600}\U{1F600}"))
  {
    Text.Utf16LengthAstral("\U{1F600}\U{1F600}\U{1F600}");
  }

  /** Submitting registers with the name, email and password exactly when
      the form is acceptable. */
  method OnSubmit(f: SignupForm) returns (request: Option<Registration>)
    ensures request.Some? <==> Acceptable(f)
    ensures request.Some? ==> request.value == Registration(f.name, f.email, f.password)
  {
    var errors, valid := ValidateForm(f);
    if valid {
      request := Some(Registration(f.name, f.email, f.password));
    } else {
      request := None;
    }
  }
}
