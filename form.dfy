/** The entry form (`JournalForm`): two text fields, the per-field error
    messages it shows under them, and the three handlers that change them —
    typing into a field, validating, and submitting. */
module Form {
  import opened Text
  import opened Wrappers

  /** The form's `formData` state: the two field values. */
  datatype FormData = FormData(title: string, body: string)

  /** The `name` attribute of the form's two inputs. */
  datatype Field = Title | Body

  const EmptyForm := FormData("", "")
  const TitleRequired := "Title is required"
  const BodyRequired := "Body is required"

  /** `formData[name]`. */
  function Get(data: FormData, name: Field): string {
    match name
    case Title => data.title
    case Body => data.body
  }

  /** `{ ...formData, [name]: value }`: the named field takes the new value
      and the other field keeps its old one. */
  function WithField(data: FormData, name: Field, value: string): (r: FormData)
    ensures Get(r, name) == value
    ensures forall other :: other != name ==> Get(r, other) == Get(data, other)
  {
    match name
    case Title => data.(title := value)
    case Body => data.(body := value)
  }

  /** The error object `validateForm` builds from scratch: a key for each
      blank field, holding that field's message, and no other key. */
  function ValidationErrors(data: FormData): (errors: map<Field, string>)
    ensures Title in errors <==> IsBlank(data.title)
    ensures Body in errors <==> IsBlank(data.body)
    ensures Title in errors ==> errors[Title] == TitleRequired
    ensures Body in errors ==> errors[Body] == BodyRequired
  {
    var forTitle := if IsBlank(data.title) then map[Title := TitleRequired] else map[];
    if IsBlank(data.body) then forTitle[Body := BodyRequired] else forTitle
  }

  /** `validateForm`'s verdict, `Object.keys(newErrors).length === 0`, holds
      exactly when neither field is blank, i.e. when each field has a
      character outside white space. */
  lemma ValidIffFilled(data: FormData)
    ensures |ValidationErrors(data)| == 0 <==> !IsBlank(data.title) && !IsBlank(data.body)
    ensures |ValidationErrors(data)| == 0 <==>
      (exists i :: 0 <= i < |data.title| && !IsWhitespace(data.title[i])) &&
      (exists i :: 0 <= i < |data.body| && !IsWhitespace(data.body[i]))
  {
  }

  /** The JavaScript truthiness of `errors[name]`: a key holding a
      non-empty message. */
  predicate HasError(errors: map<Field, string>, name: Field) {
    name in errors && errors[name] != ""
  }

  class JournalForm {
    var formData: FormData
    var errors: map<Field, string>
    /** The entry being edited, or `None` for a new entry. */
    const initialData: Option<FormData>

    /** Mounting the form: empty fields and no errors, then the effect that
        copies `initialData`'s title and body in when there is one. */
    constructor(initialData: Option<FormData>)
      ensures this.initialData == initialData
      ensures formData == if initialData.Some? then initialData.value else EmptyForm
      ensures errors == map[]
    {
      this.initialData := initialData;
      formData := EmptyForm;
      errors := map[];
      if initialData.Some? {
        formData := FormData(initialData.value.title, initialData.value.body);
      }
    }

    /** `handleChange`: the named field takes the typed value, the other
        field is untouched, and a shown error on the named field is cleared
        by setting it to the empty string; every other error stays. */
    method HandleChange(name: Field, value: string)
      modifies this`formData, this`errors
      ensures formData == WithField(old(formData), name, value)
      ensures !HasError(errors, name)
      ensures errors == if HasError(old(errors), name) then old(errors)[name := ""] else old(errors)
    {
      formData := WithField(formData, name, value);
      if HasError(errors, name) {
        errors := errors[name := ""];
      }
    }

    /** `validateForm`: the errors are replaced wholesale by those of the
        current fields, so an error on a field that is now filled is gone;
        the verdict is true exactly when both fields are non-blank. */
    method ValidateForm() returns (ok: bool)
      modifies this`errors
      ensures errors == ValidationErrors(formData)
      ensures ok <==> !IsBlank(formData.title) && !IsBlank(formData.body)
    {
      var newErrors := ValidationErrors(formData);
      errors := newErrors;
      ok := |newErrors| == 0;
      ValidIffFilled(formData);
    }

    /** `handleSubmit`: the data goes to `onSubmit` (returned here) only when
        validation passes, and then the fields are reset for a new entry
        but kept for an edit; a failed validation leaves the fields alone. */
    method HandleSubmit() returns (submitted: Option<FormData>)
      modifies this`formData, this`errors
      ensures errors == ValidationErrors(old(formData))
      ensures submitted.Some? <==> !IsBlank(old(formData).title) && !IsBlank(old(formData).body)
      ensures submitted.Some? ==> submitted.value == old(formData)
      ensures formData == if submitted.Some? && initialData.None? then EmptyForm else old(formData)
    {
      var ok := ValidateForm();
      if ok {
        submitted := Some(formData);
        if initialData.None? {
          formData := EmptyForm;
        }
      } else {
        submitted := None;
      }
    }
  }
}
