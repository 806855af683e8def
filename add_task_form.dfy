/**
 * The new-task form: its initial contents, the field-by-field edits, the
 * title check, and the submission with an empty due date turned into
 * "no due date".
 */
module AddTaskForm {
  import opened Wrappers

  datatype FormData = FormData(title: string, description: string, dueDate: string,
                               priority: string, category: string)

  /** The inputs of the form, by name. */
  datatype Field = Title | Description | DueDate | Priority | Category

  /** What is handed on for creation. */
  datatype Submission = Submission(title: string, description: string, dueDate: Option<string>,
                                   priority: string, category: string)

  function InitialFormData(): (f: FormData)
    ensures f.priority == "medium" && f.category == "other"
    ensures f.title == "" && f.description == "" && f.dueDate == ""
  {
    FormData("", "", "", "medium", "other")
  }

  function Get(f: FormData, field: Field): string
  {
    match field
    case Title => f.title
    case Description => f.description
    case DueDate => f.dueDate
    case Priority => f.priority
    case Category => f.category
  }

  /** `{ ...formData, [name]: value }`. */
  function OnChange(f: FormData, field: Field, value: string): (r: FormData)
    ensures Get(r, field) == value
    ensures forall other :: other != field ==> Get(r, other) == Get(f, other)
  {
    match field
    case Title => f.(title := value)
    case Description => f.(description := value)
    case DueDate => f.(dueDate := value)
    case Priority => f.(priority := value)
    case Category => f.(category := value)
  }

  /** Only the title is checked. */
  method ValidateForm(f: FormData) returns (errors: map<string, string>, valid: bool)
    ensures errors.Keys <= {"title"}
    ensures "title" in errors <==> f.title == ""
    ensures "title" in errors ==> errors["title"] == "Title is required"
    ensures valid <==> |errors| == 0
    ensures valid <==> f.title != ""
  {
    errors := map[];
    if f.title == "" {
      errors := errors["title" := "Title is required"];
    }
    valid := |errors| == 0;
    if !valid {
      assert "title" in errors;
    }
  }

  /** `{ ...formData, dueDate: dueDate || null }`, handed on only with a
      title. */
  method HandleSubmit(f: FormData) returns (submitted: Option<Submission>)
    ensures submitted.Some? <==> f.title != ""
    ensures submitted.Some? ==>
      var s := submitted.value;
      s.title == f.title && s.description == f.description &&
      s.priority == f.priority && s.category == f.category &&
      (s.dueDate.None? <==> f.dueDate == "") &&
      (s.dueDate.Some? ==> s.dueDate.value == f.dueDate)
  {
    var errors, valid := ValidateForm(f);
    if valid {
      var due := if f.dueDate == "" then None else Some(f.dueDate);
      submitted := Some(Submission(f.title, f.description, due, f.priority, f.category));
    } else {
      submitted := None;
    }
  }
}
