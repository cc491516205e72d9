/** The request validators declared with zod: the contact-creation object and
    the user creation and response objects. Zod's email check and
    `Date.parse` are passed in as predicates; a missing key is reported with
    zod's default "Required" message; values of a non-string JSON type are
    not modelled. */
module Schemas {
  import opened Wrappers

  /** One failed rule: the key it concerns and its message. */
  datatype Issue = Issue(path: string, message: string)

  const Required := "Required"

  /** Issues of a `z.string()` field refined by `ok`: at most one per field. */
  function FieldIssues(path: string, value: Option<string>, ok: string -> bool, message: string): (r: seq<Issue>)
    ensures |r| <= 1
    ensures r == [] <==> value.Some? && ok(value.value)
    ensures value.None? ==> r == [Issue(path, Required)]
    ensures value.Some? && !ok(value.value) ==> r == [Issue(path, message)]
  {
    if value.None? then [Issue(path, Required)]
    else if ok(value.value) then []
    else [Issue(path, message)]
  }

  function NonEmpty(s: string): bool { |s| >= 1 }

  function AtLeastEight(s: string): bool { |s| >= 8 }

  function AnyString(s: string): bool { true }

  // ---- ContactCreateSchema ----

  datatype ContactCreateInput = ContactCreateInput(
    name: Option<string>, email: Option<string>, phone: Option<string>, userEmail: Option<string>)

  /** All issues, in key order; every key is checked, the first failure does
      not stop the others. */
  function ContactCreateIssues(input: ContactCreateInput, isEmail: string -> bool): seq<Issue>
  {
    FieldIssues("name", input.name, NonEmpty, "Nome é obrigatório")
    + FieldIssues("email", input.email, isEmail, "Email inválido")
    + FieldIssues("phone", input.phone, AtLeastEight, "Telefone inválido")
    + FieldIssues("userEmail", input.userEmail, isEmail, "Email do usuário inválido")
  }

  predicate ContactCreateAccepts(input: ContactCreateInput, isEmail: string -> bool)
  {
    ContactCreateIssues(input, isEmail) == []
  }

  /** Accepted iff all four keys are present, the name is non-empty, the phone
      has at least 8 characters and both emails pass the email check. */
  lemma ContactCreateAcceptsIff(input: ContactCreateInput, isEmail: string -> bool)
    ensures ContactCreateAccepts(input, isEmail) <==>
      && input.name.Some? && |input.name.value| >= 1
      && input.email.Some? && isEmail(input.email.value)
      && input.phone.Some? && |input.phone.value| >= 8
      && input.userEmail.Some? && isEmail(input.userEmail.value)
  {
    var a := FieldIssues("name", input.name, NonEmpty, "Nome é obrigatório");
    var b := FieldIssues("email", input.email, isEmail, "Email inválido");
    var c := FieldIssues("phone", input.phone, AtLeastEight, "Telefone inválido");
    var d := FieldIssues("userEmail", input.userEmail, isEmail, "Email do usuário inválido");
    assert ContactCreateIssues(input, isEmail) == a + b + c + d;
    assert |a + b + c + d| == |a| + |b| + |c| + |d|;
  }

  /** An empty name is reported under "name" with the schema's message,
      whatever the other keys hold. */
  lemma EmptyContactNameReported(input: ContactCreateInput, isEmail: string -> bool)
    requires input.name == Some("")
    ensures ContactCreateIssues(input, isEmail)[0] == Issue("name", "Nome é obrigatório")
  {
  }

  // ---- UserCreateSchema and UserResponseSchema ----

  datatype UserCreateInput = UserCreateInput(name: Option<string>, email: Option<string>)

  function UserCreateIssues(input: UserCreateInput, isEmail: string -> bool): seq<Issue>
  {
    FieldIssues("name", input.name, NonEmpty, "Nome é obrigatório")
    + FieldIssues("email", input.email, isEmail, "Email inválido")
  }

  predicate UserCreateAccepts(input: UserCreateInput, isEmail: string -> bool)
  {
    UserCreateIssues(input, isEmail) == []
  }

  /** Accepted iff the name is present and non-empty and the email is present
      and passes the email check. */
  lemma UserCreateAcceptsIff(input: UserCreateInput, isEmail: string -> bool)
    ensures UserCreateAccepts(input, isEmail) <==>
      input.name.Some? && |input.name.value| >= 1 && input.email.Some? && isEmail(input.email.value)
  {
    var a := FieldIssues("name", input.name, NonEmpty, "Nome é obrigatório");
    var b := FieldIssues("email", input.email, isEmail, "Email inválido");
    assert |a + b| == |a| + |b|;
  }

  datatype UserResponseInput = UserResponseInput(
    name: Option<string>, email: Option<string>, id: Option<string>,
    createdAt: Option<string>, updatedAt: Option<string>)

  /** The create-schema part of a response. */
  function CreatePart(input: UserResponseInput): UserCreateInput
  {
    UserCreateInput(input.name, input.email)
  }

  /** The response schema extends the create schema with id and the two
      timestamps, each refined by the date parser. */
  function UserResponseIssues(input: UserResponseInput, isEmail: string -> bool, parsesAsDate: string -> bool): seq<Issue>
  {
    UserCreateIssues(CreatePart(input), isEmail)
    + FieldIssues("id", input.id, AnyString, "")
    + FieldIssues("createdAt", input.createdAt, parsesAsDate, "Data inválida")
    + FieldIssues("updatedAt", input.updatedAt, parsesAsDate, "Data inválida")
  }

  predicate UserResponseAccepts(input: UserResponseInput, isEmail: string -> bool, parsesAsDate: string -> bool)
  {
    UserResponseIssues(input, isEmail, parsesAsDate) == []
  }

  /** A response is accepted iff its create part is, id is present and both
      timestamps are present and parse as dates. */
  lemma UserResponseAcceptsIff(input: UserResponseInput, isEmail: string -> bool, parsesAsDate: string -> bool)
    ensures UserResponseAccepts(input, isEmail, parsesAsDate) <==>
      && UserCreateAccepts(CreatePart(input), isEmail)
      && input.id.Some?
      && input.createdAt.Some? && parsesAsDate(input.createdAt.value)
      && input.updatedAt.Some? && parsesAsDate(input.updatedAt.value)
  {
    var a := UserCreateIssues(CreatePart(input), isEmail);
    var b := FieldIssues("id", input.id, AnyString, "");
    var c := FieldIssues("createdAt", input.createdAt, parsesAsDate, "Data inválida");
    var d := FieldIssues("updatedAt", input.updatedAt, parsesAsDate, "Data inválida");
    assert UserResponseIssues(input, isEmail, parsesAsDate) == a + b + c + d;
    assert |a + b + c + d| == |a| + |b| + |c| + |d|;
  }
}
