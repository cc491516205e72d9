/** The contact form's state machine: field edits, CEP validation through
    the lookup service, and the submit gate. */
module ContactFormView {
  import opened Wrappers

  const RequiredMessage := "Preencha todos os campos obrigatórios"
  const CepMustBeValid := "CEP deve ser válido antes de salvar"
  const CepNotFound := "CEP não encontrado"
  const CepLookupError := "Erro ao buscar CEP"
  const SaveError := "Erro ao salvar contato"

  datatype FormData = FormData(
    name: string, email: string, phone: string, cep: string, street: string,
    number: string, district: string, city: string, state: string,
    complement: string, userId: Option<string>)

  /** The inputs of the form, by their `name` attribute. */
  datatype Field = Name | Email | Phone | Cep | Street | Number | District | City | State | Complement

  /** `Partial<Contact>`: any field may be absent; complement may be null. */
  datatype InitialData = InitialData(
    name: Option<string>, email: Option<string>, phone: Option<string>, cep: Option<string>,
    street: Option<string>, number: Option<string>, district: Option<string>,
    city: Option<string>, state: Option<string>, complement: Option<string>,
    userId: Option<string>)

  /** The lookup body as the client reads it: each field may be missing. */
  datatype CepData = CepData(
    logradouro: Option<string>, bairro: Option<string>, localidade: Option<string>,
    uf: Option<string>, erro: bool)

  /** The client's lookup request: a body, or a thrown fetch or JSON error. */
  datatype CepLookup = Fetched(data: CepData) | FetchFailed

  function FieldValue(f: FormData, field: Field): string
  {
    match field
    case Name => f.name
    case Email => f.email
    case Phone => f.phone
    case Cep => f.cep
    case Street => f.street
    case Number => f.number
    case District => f.district
    case City => f.city
    case State => f.state
    case Complement => f.complement
  }

  /** `{ ...prev, [name]: value }`. */
  function WithField(f: FormData, field: Field, value: string): (g: FormData)
    ensures g.userId == f.userId
  {
    match field
    case Name => f.(name := value)
    case Email => f.(email := value)
    case Phone => f.(phone := value)
    case Cep => f.(cep := value)
    case Street => f.(street := value)
    case Number => f.(number := value)
    case District => f.(district := value)
    case City => f.(city := value)
    case State => f.(state := value)
    case Complement => f.(complement := value)
  }

  /** Setting a field changes that field and no other. */
  lemma WithFieldChangesOnlyThatField(f: FormData, field: Field, value: string, other: Field)
    ensures FieldValue(WithField(f, field, value), other) == if other == field then value else FieldValue(f, other)
  {
  }

  /** The initial fields: each the initial value, or "" when it is absent. */
  function InitialFormData(initial: Option<InitialData>): (f: FormData)
    ensures initial.None? ==> forall field :: FieldValue(f, field) == ""
    ensures initial.None? ==> f.userId == None
    ensures initial.Some? ==>
      && f.name == OrEmpty(initial.value.name) && f.email == OrEmpty(initial.value.email)
      && f.phone == OrEmpty(initial.value.phone) && f.cep == OrEmpty(initial.value.cep)
      && f.street == OrEmpty(initial.value.street) && f.number == OrEmpty(initial.value.number)
      && f.district == OrEmpty(initial.value.district) && f.city == OrEmpty(initial.value.city)
      && f.state == OrEmpty(initial.value.state) && f.complement == OrEmpty(initial.value.complement)
      && f.userId == initial.value.userId
  {
    match initial
    case None => FormData("", "", "", "", "", "", "", "", "", "", None)
    case Some(d) =>
      FormData(OrEmpty(d.name), OrEmpty(d.email), OrEmpty(d.phone), OrEmpty(d.cep),
               OrEmpty(d.street), OrEmpty(d.number), OrEmpty(d.district), OrEmpty(d.city),
               OrEmpty(d.state), OrEmpty(d.complement), d.userId)
  }

  /** The five fields submit demands: name, email, phone, cep and number. */
  predicate RequiredFilled(f: FormData)
  {
    f.name != "" && f.email != "" && f.phone != "" && f.cep != "" && f.number != ""
  }

  class ContactForm {
    var formData: FormData
    var cepValidated: bool
    var errors: map<string, string>
    var loadingCep: bool

    /** A validated CEP is the current one and has 8 characters. */
    ghost predicate Consistent()
      reads this
    {
      cepValidated ==> |formData.cep| == 8
    }

    constructor(initialData: Option<InitialData>)
      ensures formData == InitialFormData(initialData)
      ensures !cepValidated && errors == map[] && !loadingCep
      ensures Consistent()
    {
      formData := InitialFormData(initialData);
      cepValidated := false;
      errors := map[];
      loadingCep := false;
    }

    /** An input edit. Any CEP edit invalidates the CEP; one that leaves it
        shorter than 8 characters also clears the address. */
    method HandleChange(field: Field, value: string)
      modifies this
      ensures field == Cep || old(Consistent()) ==> Consistent()
      ensures errors == old(errors) && loadingCep == old(loadingCep)
      ensures field == Cep ==> !cepValidated
      ensures field == Cep && |value| < 8 ==>
        formData == old(formData).(cep := value, street := "", district := "", city := "", state := "")
      ensures field == Cep && |value| >= 8 ==> formData == old(formData).(cep := value)
      ensures field != Cep ==> formData == WithField(old(formData), field, value) && cepValidated == old(cepValidated)
    {
      if field == Cep {
        cepValidated := false;
        if |value| < 8 {
          formData := formData.(cep := value, street := "", district := "", city := "", state := "");
          return;
        }
      }
      formData := WithField(formData, field, value);
    }

    /** What one completed lookup does to the form: a found CEP fills the
        address, clears the "cep" error and validates; an unknown CEP or a
        failed request records its error under "cep" and invalidates, leaving
        the fields alone. The loading flag ends cleared either way. */
    twostate predicate LookupApplied(fetch: CepLookup)
      reads this
    {
      && !loadingCep
      && (fetch.Fetched? && !fetch.data.erro ==>
            && formData == old(formData).(street := OrEmpty(fetch.data.logradouro),
                                          district := OrEmpty(fetch.data.bairro),
                                          city := OrEmpty(fetch.data.localidade),
                                          state := OrEmpty(fetch.data.uf))
            && errors == old(errors)["cep" := ""] && cepValidated)
      && (fetch.Fetched? && fetch.data.erro ==>
            formData == old(formData) && errors == old(errors)["cep" := CepNotFound] && !cepValidated)
      && (fetch.FetchFailed? ==>
            formData == old(formData) && errors == old(errors)["cep" := CepLookupError] && !cepValidated)
    }

    /** Looks the CEP up, but only when it has exactly 8 characters; any
        other CEP leaves the form as it was. */
    method ValidateCep(cep: string, fetch: CepLookup) returns (ghost requested: bool)
      modifies this
      ensures |cep| != 8 ==>
        && !requested && formData == old(formData) && cepValidated == old(cepValidated)
        && errors == old(errors) && loadingCep == old(loadingCep)
      ensures |cep| == 8 ==> requested && LookupApplied(fetch)
    {
      if |cep| != 8 {
        return false;
      }
      requested := true;
      loadingCep := true;
      match fetch {
        case Fetched(data) =>
          if data.erro {
            errors := errors["cep" := CepNotFound];
            cepValidated := false;
          } else {
            formData := formData.(street := OrEmpty(data.logradouro), district := OrEmpty(data.bairro),
                                  city := OrEmpty(data.localidade), state := OrEmpty(data.uf));
            errors := errors["cep" := ""];
            cepValidated := true;
          }
        case FetchFailed =>
          errors := errors["cep" := CepLookupError];
          cepValidated := false;
      }
      loadingCep := false;
    }

    /** The effect on `initialData`: an initial CEP of exactly 8 characters is
        looked up, as leaving the CEP input would. The CEP looked up is the
        initial one, not the field's, so the form stays consistent when the
        field still holds the initial CEP, as it does right after mounting. */
    method MountEffect(initialData: Option<InitialData>, fetch: CepLookup) returns (ghost requested: bool)
      modifies this
      ensures requested <==>
        initialData.Some? && initialData.value.cep.Some? && |initialData.value.cep.value| == 8
      ensures !requested ==>
        && formData == old(formData) && cepValidated == old(cepValidated)
        && errors == old(errors) && loadingCep == old(loadingCep)
      ensures requested ==> LookupApplied(fetch)
      ensures old(Consistent()) && (requested ==> old(formData.cep) == initialData.value.cep.value) ==>
        Consistent()
    {
      requested := false;
      if initialData.Some? && initialData.value.cep.Some? && |initialData.value.cep.value| == 8 {
        requested := ValidateCep(initialData.value.cep.value, fetch);
      }
    }

    /** Leaving the CEP input validates the current CEP. */
    method HandleCepBlur(fetch: CepLookup)
      modifies this
      ensures old(Consistent()) ==> Consistent()
      ensures |old(formData.cep)| != 8 ==>
        && formData == old(formData) && cepValidated == old(cepValidated)
        && errors == old(errors) && loadingCep == old(loadingCep)
      ensures |old(formData.cep)| == 8 ==> LookupApplied(fetch)
    {
      var _ := ValidateCep(formData.cep, fetch);
    }

    /** Submit: the required fields are checked first, then the CEP
        validation; only then is `onSubmit` called, and its failure is
        reported. `submitFails` says whether `onSubmit` rejects. The gate
        reads the flag only: after the effect validated an initial CEP the
        field no longer holds, the flag lets that field through. */
    method HandleSubmit(submitFails: bool) returns (submitted: bool)
      modifies this
      ensures old(Consistent()) ==> Consistent()
      ensures formData == old(formData) && cepValidated == old(cepValidated) && loadingCep == old(loadingCep)
      ensures submitted <==> RequiredFilled(formData) && cepValidated
      ensures old(Consistent()) && submitted ==> |formData.cep| == 8
      ensures !RequiredFilled(formData) ==> errors == map["general" := RequiredMessage]
      ensures RequiredFilled(formData) && !cepValidated ==> errors == map["general" := CepMustBeValid]
      ensures submitted && submitFails ==> errors == map["general" := SaveError]
      ensures submitted && !submitFails ==> errors == old(errors)
    {
      if !RequiredFilled(formData) {
        errors := map["general" := RequiredMessage];
        return false;
      }
      if !cepValidated {
        errors := map["general" := CepMustBeValid];
        return false;
      }
      submitted := true;
      if submitFails {
        errors := map["general" := SaveError];
      }
    }
  }

  /** Opening the form on an existing contact whose fields are all filled and
      whose CEP has 8 characters, then saving at once: the save goes through
      exactly when the mount lookup found the CEP. */
  method OpenAndSave(initial: InitialData, fetch: CepLookup, submitFails: bool) returns (submitted: bool)
    requires initial.cep.Some? && |initial.cep.value| == 8
    requires initial.name.Some? && initial.name.value != ""
    requires initial.email.Some? && initial.email.value != ""
    requires initial.phone.Some? && initial.phone.value != ""
    requires initial.number.Some? && initial.number.value != ""
    ensures submitted <==> fetch.Fetched? && !fetch.data.erro
  {
    var form := new ContactForm(Some(initial));
    var _ := form.MountEffect(Some(initial), fetch);
    submitted := form.HandleSubmit(submitFails);
  }

  /** Editing the CEP of an open form and then having the effect run again
      on the same initial contact (a refetch hands the form a new object):
      the effect validates the initial CEP, and the save goes through with
      the edited CEP, which was never looked up. */
  method EditThenRefetch(initial: InitialData, data: CepData, edited: string)
    returns (submitted: bool, savedCep: string)
    requires initial.cep.Some? && |initial.cep.value| == 8 && !data.erro
    requires initial.name.Some? && initial.name.value != ""
    requires initial.email.Some? && initial.email.value != ""
    requires initial.phone.Some? && initial.phone.value != ""
    requires initial.number.Some? && initial.number.value != ""
    requires edited != "" && |edited| != 8
    ensures submitted && savedCep == edited && |savedCep| != 8
  {
    var form := new ContactForm(Some(initial));
    form.HandleChange(Cep, edited);
    var _ := form.MountEffect(Some(initial), Fetched(data));
    submitted := form.HandleSubmit(false);
    savedCep := form.formData.cep;
  }
}
