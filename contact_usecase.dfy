/** The contact workflow: creation through four ordered, guarded steps, and
    pass-through listing, update and deletion. */
module ContactWorkflow {
  import opened Wrappers
  import opened Domain
  import ContactRepository
  import UserWorkflow
  import Text

  const UserNotFound := "User not found"
  const ContactAlreadyExists := "Contact already exists"
  const CepNotFound := "CEP não encontrado"
  const CepFailurePrefix := "Falha ao buscar CEP: "

  /** The steps of `create`, in the order they run. */
  datatype Step = FindUser | FindDuplicate | LookupCep | Insert

  /** Interprets the lookup service's answer: a body flagged `erro` is an
      unknown CEP; every failure is reported with the same prefix. */
  function GetAddressByCep(fetched: CepFetch): (r: Result<ViaCepResponse>)
    ensures r.Ok? <==> fetched.Response? && !fetched.data.erro
    ensures r.Ok? ==> r.value == fetched.data
    ensures r.Err? && fetched.Response? ==> r.message == CepFailurePrefix + CepNotFound
    ensures r.Err? && fetched.RequestFailed? ==> r.message == CepFailurePrefix + fetched.message
  {
    match fetched
    case Response(data) =>
      if data.erro then Err(CepFailurePrefix + CepNotFound) else Ok(data)
    case RequestFailed(message) => Err(CepFailurePrefix + message)
  }

  /** Every lookup failure message starts with the prefix. */
  lemma CepFailureHasPrefix(fetched: CepFetch)
    requires GetAddressByCep(fetched).Err?
    ensures Text.IsPrefix(CepFailurePrefix, GetAddressByCep(fetched).message)
  {
    var m := GetAddressByCep(fetched).message;
    assert m[..|CepFailurePrefix|] == CepFailurePrefix;
  }

  /** The row inserted for a request: caller fields, looked-up address, owner. */
  function NewContactData(input: ContactCreate, address: ViaCepResponse, owner: User): (d: ContactCreateData)
    ensures d.street == address.logradouro && d.district == address.bairro
    ensures d.city == address.localidade && d.state == address.uf
    ensures d.userId == owner.id
    ensures d.name == input.name && d.email == input.email && d.phone == input.phone
    ensures d.cep == input.cep && d.number == input.number && d.complement == input.complement
  {
    ContactCreateData(input.email, input.name, input.phone, input.cep, address.logradouro,
                      input.number, address.bairro, address.localidade, address.uf,
                      input.complement, owner.id)
  }

  /** What `updateContact` forwards to the store: id, name, email and phone,
      every other field left undefined. */
  function Forwarded(c: ContactUpdate): (f: ContactUpdate)
    ensures f.id == c.id && f.name == c.name && f.email == c.email && f.phone == c.phone
    ensures f.cep.None? && f.street.None? && f.number.None? && f.district.None?
    ensures f.city.None? && f.state.None? && f.complement.None?
  {
    ContactUpdate(c.id, c.name, c.email, c.phone, None, None, None, None, None, None, None)
  }

  /** Whatever update the caller passes, the stored address, CEP, number and
      complement survive it. */
  lemma ForwardedKeepsAddress(row: Contact, c: ContactUpdate)
    ensures var r := ContactRepository.Patched(row, Forwarded(c));
      && r.cep == row.cep && r.street == row.street && r.number == row.number
      && r.district == row.district && r.city == row.city && r.state == row.state
      && r.complement == row.complement
  {
  }

  class ContactUseCase {
    const contactRepository: ContactRepository.ContactsRepository
    const userRepository: UserWorkflow.UserRepository

    /** Both stores are the shared tables every use case works on. */
    constructor(contacts: ContactRepository.ContactsRepository, users: UserWorkflow.UserRepository)
      ensures contactRepository == contacts && userRepository == users
    {
      contactRepository := contacts;
      userRepository := users;
    }

    /** Creates a contact: the owner must exist, no contact of any owner may
        share the email or the phone, the CEP must resolve; only then is one
        row inserted. `steps` records the steps that ran. */
    method Create(input: ContactCreate, viaCep: string -> CepFetch)
      returns (r: Result<Contact>, ghost steps: seq<Step>)
      requires contactRepository.Valid()
      modifies contactRepository
      ensures contactRepository.Valid()
      ensures var owner := userRepository.FindByEmail(input.userEmail);
        owner.None? ==>
          && r == Err(UserNotFound) && steps == [FindUser]
          && contactRepository.rows == old(contactRepository.rows)
      ensures var owner := userRepository.FindByEmail(input.userEmail);
        owner.Some? && old(contactRepository.FindByEmailOrPhone(input.email, input.phone)).Some? ==>
          && r == Err(ContactAlreadyExists) && steps == [FindUser, FindDuplicate]
          && contactRepository.rows == old(contactRepository.rows)
      ensures var owner := userRepository.FindByEmail(input.userEmail);
        var address := GetAddressByCep(viaCep(input.cep));
        owner.Some? && old(contactRepository.FindByEmailOrPhone(input.email, input.phone)).None? && address.Err? ==>
          && r == Err(address.message) && steps == [FindUser, FindDuplicate, LookupCep]
          && contactRepository.rows == old(contactRepository.rows)
      ensures var owner := userRepository.FindByEmail(input.userEmail);
        var address := GetAddressByCep(viaCep(input.cep));
        owner.Some? && old(contactRepository.FindByEmailOrPhone(input.email, input.phone)).None? && address.Ok? ==>
          && r.Ok? && steps == [FindUser, FindDuplicate, LookupCep, Insert]
          && r.value == WithId(NewContactData(input, address.value, owner.value), r.value.id)
          && contactRepository.rows == old(contactRepository.rows) + [r.value]
          && forall i | 0 <= i < |old(contactRepository.rows)| :: old(contactRepository.rows)[i].id != r.value.id
    {
      steps := [FindUser];
      var user := userRepository.FindByEmail(input.userEmail);
      if user.None? {
        return Err(UserNotFound), steps;
      }

      steps := steps + [FindDuplicate];
      var contactExists := contactRepository.FindByEmailOrPhone(input.email, input.phone);
      if contactExists.Some? {
        return Err(ContactAlreadyExists), steps;
      }

      steps := steps + [LookupCep];
      var viaCEP := GetAddressByCep(viaCep(input.cep));
      if viaCEP.Err? {
        return Err(viaCEP.message), steps;
      }

      steps := steps + [Insert];
      var c := contactRepository.Create(NewContactData(input, viaCEP.value, user.value));
      r := Ok(c);
    }

    /** The contacts owned by the user with that email, or "User not found". */
    method ListAllContacts(userEmail: string) returns (r: Result<seq<Contact>>)
      ensures var owner := userRepository.FindByEmail(userEmail);
        && (r.Err? <==> owner.None?)
        && (r.Err? ==> r.message == UserNotFound)
        && (r.Ok? ==>
              && (forall i | 0 <= i < |r.value| :: r.value[i].userId == owner.value.id && r.value[i] in contactRepository.rows)
              && (forall i | 0 <= i < |contactRepository.rows| && contactRepository.rows[i].userId == owner.value.id ::
                    contactRepository.rows[i] in r.value))
    {
      var user := userRepository.FindByEmail(userEmail);
      if user.None? {
        return Err(UserNotFound);
      }
      var contacts := contactRepository.FindAllContacts(user.value.id);
      r := Ok(contacts);
    }

    /** Forwards only id, name, email and phone to the store. */
    method UpdateContact(c: ContactUpdate) returns (r: Result<Contact>)
      requires contactRepository.Valid()
      modifies contactRepository
      ensures contactRepository.Valid()
      ensures r.Err? <==> forall i | 0 <= i < |old(contactRepository.rows)| :: old(contactRepository.rows)[i].id != c.id
      ensures r.Err? ==> r.message == ContactRepository.RecordNotFound
      ensures r.Err? ==> contactRepository.rows == old(contactRepository.rows)
      ensures r.Ok? ==> exists k | 0 <= k < |old(contactRepository.rows)| ::
        && old(contactRepository.rows)[k].id == c.id
        && r.value == ContactRepository.Patched(old(contactRepository.rows)[k], Forwarded(c))
        && contactRepository.rows == old(contactRepository.rows)[k := r.value]
    {
      r := contactRepository.UpdateContact(Forwarded(c));
    }

    /** Returns the store's boolean unchanged; never fails. */
    method Delete(id: Id) returns (ok: bool)
      requires contactRepository.Valid()
      modifies contactRepository
      ensures contactRepository.Valid()
      ensures ok <==> exists k | 0 <= k < |old(contactRepository.rows)| :: old(contactRepository.rows)[k].id == id
      ensures contactRepository.rows == WithoutId(old(contactRepository.rows), id)
    {
      ok := contactRepository.Delete(id);
    }
  }
}
