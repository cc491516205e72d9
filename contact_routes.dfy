/** The contact HTTP routes: the declared request schemas (required keys, the
    CEP pattern), the `email`-header guard of POST and GET, the update
    argument PUT builds, and the replies of the four handlers. */
module ContactRoutes {
  import opened Wrappers
  import opened Domain
  import Text
  import ContactRepository
  import ContactWorkflow

  const HeaderError := "Cabeçalho 'email' ausente ou inválido"
  const BadRequest := 400
  /** Every success path of the four handlers replies with this status. */
  const SuccessStatus := 201

  /** The `email` request header: absent, one value, or repeated (an array). */
  datatype HeaderValue = Absent | Single(value: string) | Multiple(values: seq<string>)

  datatype Payload =
    | ErrorBody(error: string)
    | ContactPayload(contact: Contact)
    | ContactsPayload(contacts: seq<Contact>)
    | BoolPayload(flag: bool)

  /** A reply with a status, or a thrown error handed to `reply.send(error)`,
      whose status the framework's error handler picks. */
  datatype Reply = Reply(status: int, payload: Payload) | SentError(message: string)

  /** The declared header schema, which the framework applies before the
      handler runs: one `email` value, in the email format (`isEmail`). */
  predicate HeaderSchemaAccepts(h: HeaderValue, isEmail: string -> bool)
  {
    h.Single? && isEmail(h.value)
  }

  /** The handler's guard: a missing, empty or repeated header is refused. */
  function EmailHeader(h: HeaderValue): (r: Result<string>)
    ensures r.Ok? <==> h.Single? && h.value != ""
    ensures r.Ok? ==> r.value == h.value
    ensures r.Err? ==> r.message == HeaderError
  {
    if h.Single? && h.value != "" then Ok(h.value) else Err(HeaderError)
  }

  /** When the email format refuses the empty string, every header the schema
      lets through also passes the guard, so the guard's 400 is reached only
      by requests the schema would already have refused. The guard alone
      accepts non-empty values that are not emails. */
  lemma SchemaThenGuard(h: HeaderValue, isEmail: string -> bool)
    requires !isEmail("")
    ensures HeaderSchemaAccepts(h, isEmail) ==> EmailHeader(h).Ok? && EmailHeader(h).value == h.value
    ensures EmailHeader(h).Ok? && !isEmail(h.value) ==> !HeaderSchemaAccepts(h, isEmail)
  {
  }

  // ---- the CEP pattern ^\d{5}-?\d{3}$ ----

  /** Five digits, an optional '-', three digits, and nothing else. */
  predicate IsCep(s: string)
  {
    && |s| >= 5 && Text.AllDigits(s[..5])
    && var rest := if |s| > 5 && s[5] == '-' then s[6..] else s[5..];
       |rest| == 3 && Text.AllDigits(rest)
  }

  /** `s` splits into the pattern's three parts. */
  ghost predicate PatternParts(s: string, head: string, dash: string, tail: string)
  {
    && s == head + dash + tail
    && |head| == 5 && Text.AllDigits(head)
    && (dash == "" || dash == "-")
    && |tail| == 3 && Text.AllDigits(tail)
  }

  /** IsCep accepts exactly the strings the regular expression matches. */
  lemma IsCepMatchesPattern(s: string)
    ensures IsCep(s) <==> exists head, dash, tail :: PatternParts(s, head, dash, tail)
  {
    if IsCep(s) {
      if |s| > 5 && s[5] == '-' {
        assert s == s[..5] + "-" + s[6..];
        assert PatternParts(s, s[..5], "-", s[6..]);
      } else {
        assert s == s[..5] + "" + s[5..];
        assert PatternParts(s, s[..5], "", s[5..]);
      }
    }
    if exists head, dash, tail :: PatternParts(s, head, dash, tail) {
      var head, dash, tail :| PatternParts(s, head, dash, tail);
      assert s[..5] == head;
      if dash == "-" {
        assert s[5] == '-' && s[6..] == tail;
      } else {
        assert s[5..] == tail;
        assert |s| > 5 ==> s[5] == tail[0];
      }
    }
  }

  // ---- POST / ----

  /** The POST body as received: any key may be missing. */
  datatype RawCreateBody = RawCreateBody(
    name: Option<string>, email: Option<string>, phone: Option<string>,
    cep: Option<string>, number: Option<string>, complement: Option<string>)

  /** The POST body once the schema accepted it. */
  datatype CreateBody = CreateBody(
    name: string, email: string, phone: string, cep: string, number: string,
    complement: Option<string>)

  /** The POST schema: name, email, phone, cep and number are required,
      complement is optional, the cep follows the pattern and the email the
      email format. */
  function ValidateCreateBody(b: RawCreateBody, isEmail: string -> bool): (r: Option<CreateBody>)
    ensures r.Some? <==>
      && b.name.Some? && b.email.Some? && b.phone.Some? && b.cep.Some? && b.number.Some?
      && IsCep(b.cep.value) && isEmail(b.email.value)
    ensures r.Some? ==> r.value == CreateBody(b.name.value, b.email.value, b.phone.value,
                                              b.cep.value, b.number.value, b.complement)
  {
    if && b.name.Some? && b.email.Some? && b.phone.Some? && b.cep.Some? && b.number.Some?
       && IsCep(b.cep.value) && isEmail(b.email.value)
    then Some(CreateBody(b.name.value, b.email.value, b.phone.value, b.cep.value, b.number.value, b.complement))
    else None
  }

  /** Whether the complement is given never decides acceptance. */
  lemma ComplementOptional(b: RawCreateBody, isEmail: string -> bool)
    ensures ValidateCreateBody(b, isEmail).Some? == ValidateCreateBody(b.(complement := None), isEmail).Some?
  {
  }

  /** The workflow request POST builds: the body's fields and the header's email. */
  function CreateRequest(body: CreateBody, userEmail: string): (c: ContactCreate)
    ensures c.userEmail == userEmail
    ensures c.name == body.name && c.email == body.email && c.phone == body.phone
    ensures c.cep == body.cep && c.number == body.number && c.complement == body.complement
  {
    ContactCreate(body.email, body.name, body.phone, body.cep, body.number, body.complement, userEmail)
  }

  /** POST handler: header guard, then the workflow's create; 201 with the
      new contact on success, otherwise the workflow's error is sent. */
  method PostContact(uc: ContactWorkflow.ContactUseCase, header: HeaderValue, body: CreateBody,
                     viaCep: string -> CepFetch)
    returns (reply: Reply)
    requires uc.contactRepository.Valid()
    modifies uc.contactRepository
    ensures uc.contactRepository.Valid()
    ensures EmailHeader(header).Err? ==>
      && reply == Reply(BadRequest, ErrorBody(HeaderError))
      && uc.contactRepository.rows == old(uc.contactRepository.rows)
    ensures EmailHeader(header).Ok? && uc.userRepository.FindByEmail(header.value).None? ==>
      && reply == SentError(ContactWorkflow.UserNotFound)
      && uc.contactRepository.rows == old(uc.contactRepository.rows)
    ensures && EmailHeader(header).Ok? && uc.userRepository.FindByEmail(header.value).Some?
            && old(uc.contactRepository.FindByEmailOrPhone(body.email, body.phone)).Some? ==>
      && reply == SentError(ContactWorkflow.ContactAlreadyExists)
      && uc.contactRepository.rows == old(uc.contactRepository.rows)
    ensures var address := ContactWorkflow.GetAddressByCep(viaCep(body.cep));
      && EmailHeader(header).Ok? && uc.userRepository.FindByEmail(header.value).Some?
      && old(uc.contactRepository.FindByEmailOrPhone(body.email, body.phone)).None? && address.Err? ==>
      && reply == SentError(address.message)
      && uc.contactRepository.rows == old(uc.contactRepository.rows)
    ensures header.Single? ==>
      var owner := uc.userRepository.FindByEmail(header.value);
      var address := ContactWorkflow.GetAddressByCep(viaCep(body.cep));
      && EmailHeader(header).Ok? && owner.Some?
      && old(uc.contactRepository.FindByEmailOrPhone(body.email, body.phone)).None? && address.Ok? ==>
      && reply.Reply? && reply.status == SuccessStatus && reply.payload.ContactPayload?
      && reply.payload.contact == WithId(ContactWorkflow.NewContactData(CreateRequest(body, header.value), address.value, owner.value),
                                         reply.payload.contact.id)
      && uc.contactRepository.rows == old(uc.contactRepository.rows) + [reply.payload.contact]
      && forall i | 0 <= i < |old(uc.contactRepository.rows)| :: old(uc.contactRepository.rows)[i].id != reply.payload.contact.id
  {
    var emailUser := EmailHeader(header);
    if emailUser.Err? {
      return Reply(BadRequest, ErrorBody(HeaderError));
    }
    var data, _ := uc.Create(CreateRequest(body, emailUser.value), viaCep);
    if data.Ok? {
      reply := Reply(SuccessStatus, ContactPayload(data.value));
    } else {
      reply := SentError(data.message);
    }
  }

  // ---- GET / ----

  /** GET handler: header guard, then the owner's contacts with status 201. */
  method GetContacts(uc: ContactWorkflow.ContactUseCase, header: HeaderValue) returns (reply: Reply)
    ensures EmailHeader(header).Err? ==> reply == Reply(BadRequest, ErrorBody(HeaderError))
    ensures EmailHeader(header).Ok? && uc.userRepository.FindByEmail(header.value).None? ==>
      reply == SentError(ContactWorkflow.UserNotFound)
    ensures header.Single? ==>
      var owner := uc.userRepository.FindByEmail(header.value);
      EmailHeader(header).Ok? && owner.Some? ==>
      && reply.Reply? && reply.status == SuccessStatus && reply.payload.ContactsPayload?
      && (forall i | 0 <= i < |reply.payload.contacts| ::
            reply.payload.contacts[i].userId == owner.value.id
            && reply.payload.contacts[i] in uc.contactRepository.rows)
      && (forall i | 0 <= i < |uc.contactRepository.rows| && uc.contactRepository.rows[i].userId == owner.value.id ::
            uc.contactRepository.rows[i] in reply.payload.contacts)
  {
    var emailUser := EmailHeader(header);
    if emailUser.Err? {
      return Reply(BadRequest, ErrorBody(HeaderError));
    }
    var data := uc.ListAllContacts(emailUser.value);
    if data.Ok? {
      reply := Reply(SuccessStatus, ContactsPayload(data.value));
    } else {
      reply := SentError(data.message);
    }
  }

  // ---- PUT /:id ----

  /** The PUT body as received. */
  datatype RawUpdateBody = RawUpdateBody(
    name: Option<string>, email: Option<string>, phone: Option<string>,
    cep: Option<string>, number: Option<string>, complement: Option<string>)

  /** The PUT body once the schema accepted it. */
  datatype UpdateBody = UpdateBody(
    name: string, email: string, phone: string,
    cep: Option<string>, number: Option<string>, complement: Option<string>)

  /** The PUT schema: only name, email and phone are required; a cep, when
      given, follows the pattern; the email follows the email format. */
  function ValidateUpdateBody(b: RawUpdateBody, isEmail: string -> bool): (r: Option<UpdateBody>)
    ensures r.Some? <==>
      && b.name.Some? && b.email.Some? && b.phone.Some?
      && (b.cep.Some? ==> IsCep(b.cep.value)) && isEmail(b.email.value)
    ensures r.Some? ==> r.value == UpdateBody(b.name.value, b.email.value, b.phone.value,
                                              b.cep, b.number, b.complement)
  {
    if && b.name.Some? && b.email.Some? && b.phone.Some?
       && (b.cep.Some? ==> IsCep(b.cep.value)) && isEmail(b.email.value)
    then Some(UpdateBody(b.name.value, b.email.value, b.phone.value, b.cep, b.number, b.complement))
    else None
  }

  /** The update PUT builds: the path id, the body's fields, and the four
      address fields set to "". */
  function UpdateArgument(id: Id, body: UpdateBody): (u: ContactUpdate)
    ensures u.id == id && u.name == body.name && u.email == body.email && u.phone == body.phone
    ensures u.street == Some("") && u.district == Some("") && u.city == Some("") && u.state == Some("")
    ensures u.cep == body.cep && u.number == body.number
    ensures u.complement == if body.complement.Some? then Some(body.complement) else None
  {
    ContactUpdate(id, body.name, body.email, body.phone, body.cep, Some(""), body.number,
                  Some(""), Some(""), Some(""),
                  if body.complement.Some? then Some(body.complement) else None)
  }

  /** The blank address fields PUT builds never reach the store: after the
      workflow's update the stored address, CEP, number and complement are the
      old ones, and name, email and phone are the body's. */
  lemma BlankAddressNeverStored(row: Contact, id: Id, body: UpdateBody)
    ensures var r := ContactRepository.Patched(row, ContactWorkflow.Forwarded(UpdateArgument(id, body)));
      && r.street == row.street && r.district == row.district
      && r.city == row.city && r.state == row.state
      && r.cep == row.cep && r.number == row.number && r.complement == row.complement
      && r.name == body.name && r.email == body.email && r.phone == body.phone
  {
  }

  /** PUT handler: the workflow's update of the built argument; 201 with the
      stored row on success. */
  method PutContact(uc: ContactWorkflow.ContactUseCase, id: Id, body: UpdateBody) returns (reply: Reply)
    requires uc.contactRepository.Valid()
    modifies uc.contactRepository
    ensures uc.contactRepository.Valid()
    ensures reply.Reply? <==> exists k | 0 <= k < |old(uc.contactRepository.rows)| :: old(uc.contactRepository.rows)[k].id == id
    ensures reply.Reply? ==>
      && reply.status == SuccessStatus && reply.payload.ContactPayload?
      && reply.payload.contact.id == id && reply.payload.contact.name == body.name
      && reply.payload.contact.email == body.email && reply.payload.contact.phone == body.phone
    ensures reply.Reply? ==> exists k | 0 <= k < |old(uc.contactRepository.rows)| ::
      && old(uc.contactRepository.rows)[k].id == id
      && reply.payload.contact == ContactRepository.Patched(old(uc.contactRepository.rows)[k],
                                                            ContactWorkflow.Forwarded(UpdateArgument(id, body)))
      && uc.contactRepository.rows == old(uc.contactRepository.rows)[k := reply.payload.contact]
    ensures reply.SentError? ==> reply.message == ContactRepository.RecordNotFound
    ensures reply.SentError? ==> uc.contactRepository.rows == old(uc.contactRepository.rows)
  {
    var data := uc.UpdateContact(UpdateArgument(id, body));
    if data.Ok? {
      reply := Reply(SuccessStatus, ContactPayload(data.value));
    } else {
      reply := SentError(data.message);
    }
  }

  // ---- DELETE /:id ----

  /** DELETE handler: always 201, with the workflow's boolean as the body. */
  method DeleteContact(uc: ContactWorkflow.ContactUseCase, id: Id) returns (reply: Reply)
    requires uc.contactRepository.Valid()
    modifies uc.contactRepository
    ensures uc.contactRepository.Valid()
    ensures reply.Reply? && reply.status == SuccessStatus && reply.payload.BoolPayload?
    ensures reply.payload.flag <==> exists k | 0 <= k < |old(uc.contactRepository.rows)| :: old(uc.contactRepository.rows)[k].id == id
    ensures uc.contactRepository.rows == WithoutId(old(uc.contactRepository.rows), id)
  {
    var data := uc.Delete(id);
    reply := Reply(SuccessStatus, BoolPayload(data));
  }
}
