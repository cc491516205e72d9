/** The user form: field edits and the submit guard. */
module UserFormView {
  import opened Wrappers

  const RequiredMessage := "Preencha todos os campos obrigatórios"
  const SubmitFallback := "Erro ao processar formulário"

  datatype FormData = FormData(name: string, email: string)

  datatype Field = Name | Email

  /** `Partial<UserCreate>`. */
  datatype InitialData = InitialData(name: Option<string>, email: Option<string>)

  function WithField(f: FormData, field: Field, value: string): (g: FormData)
    ensures field == Name ==> g.name == value && g.email == f.email
    ensures field == Email ==> g.email == value && g.name == f.name
  {
    match field
    case Name => f.(name := value)
    case Email => f.(email := value)
  }

  class UserForm {
    var formData: FormData
    var errors: map<string, string>

    constructor(initialData: Option<InitialData>)
      ensures initialData.None? ==> formData == FormData("", "")
      ensures initialData.Some? ==>
        formData == FormData(OrEmpty(initialData.value.name), OrEmpty(initialData.value.email))
      ensures errors == map[]
    {
      var d := if initialData.Some? then initialData.value else InitialData(None, None);
      formData := FormData(OrEmpty(d.name), OrEmpty(d.email));
      errors := map[];
    }

    /** An input edit changes the named field only. */
    method HandleChange(field: Field, value: string)
      modifies this
      ensures formData == WithField(old(formData), field, value)
      ensures errors == old(errors)
    {
      formData := WithField(formData, field, value);
    }

    /** Submit clears the errors, refuses an empty name or email, and
        otherwise calls `onSubmit`, whose rejection message becomes the
        general error. */
    method HandleSubmit(onSubmit: Outcome<()>) returns (submitted: bool)
      modifies this
      ensures formData == old(formData)
      ensures submitted <==> formData.name != "" && formData.email != ""
      ensures !submitted ==> errors == map["general" := RequiredMessage]
      ensures submitted && onSubmit.Resolved? ==> errors == map[]
      ensures submitted && onSubmit.Rejected? ==>
        errors == map["general" := MessageOf(onSubmit.reason, SubmitFallback)]
    {
      errors := map[];
      if formData.name == "" || formData.email == "" {
        errors := map["general" := RequiredMessage];
        return false;
      }
      submitted := true;
      if onSubmit.Rejected? {
        errors := map["general" := MessageOf(onSubmit.reason, SubmitFallback)];
      }
    }
  }
}
