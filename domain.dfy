/** The records exchanged by the backend and the frontend: the stored contact
    row, the arguments of contact creation and update, the user record and the
    postal-code (CEP) lookup response. */
module Domain {
  import opened Wrappers
  import Lists

  type Id = string

  /** A stored contact row. Every row is written by the repository's create,
      which sets all fields; `complement` may be null. */
  datatype Contact = Contact(
    id: Id,
    email: string,
    name: string,
    phone: string,
    cep: string,
    street: string,
    number: string,
    district: string,
    city: string,
    state: string,
    complement: Option<string>,
    userId: Id)

  /** What the repository's create receives: a row without its id. */
  datatype ContactCreateData = ContactCreateData(
    email: string,
    name: string,
    phone: string,
    cep: string,
    street: string,
    number: string,
    district: string,
    city: string,
    state: string,
    complement: Option<string>,
    userId: Id)

  /** What the contact workflow's create receives. */
  datatype ContactCreate = ContactCreate(
    email: string,
    name: string,
    phone: string,
    cep: string,
    number: string,
    complement: Option<string>,
    userEmail: string)

  /** The `Contact` argument of an update: id, name, email and phone are
      always given; `None` on the other fields stands for `undefined`, which
      leaves the stored column as it is. `complement` may also be set to null. */
  datatype ContactUpdate = ContactUpdate(
    id: Id,
    name: string,
    email: string,
    phone: string,
    cep: Option<string>,
    street: Option<string>,
    number: Option<string>,
    district: Option<string>,
    city: Option<string>,
    state: Option<string>,
    complement: Option<Option<string>>)

  /** A user; creation and update timestamps are not modelled. */
  datatype User = User(id: Id, name: string, email: string)

  /** The body of a postal-code lookup answer (ViaCEP). */
  datatype ViaCepResponse = ViaCepResponse(
    cep: string,
    logradouro: string,
    bairro: string,
    localidade: string,
    uf: string,
    erro: bool)

  /** The outcome of the HTTP call to the lookup service: a response body, or
      a thrown request error (network failure, non-success status) with its
      message. */
  datatype CepFetch = Response(data: ViaCepResponse) | RequestFailed(message: string)

  /** Stand-in for the database's id generation: the n-th generated id. Its
      length, n + 1, makes it differ from every id generated before it. */
  function GeneratedId(n: nat): (id: Id)
    ensures |id| == n + 1
  {
    seq(n + 1, _ => 'c')
  }

  /** No two contacts in the list share an id. */
  ghost predicate UniqueIds(rows: seq<Contact>)
  {
    forall i, j | 0 <= i < |rows| && 0 <= j < |rows| && i != j :: rows[i].id != rows[j].id
  }

  /** No two users in the list share an id. */
  ghost predicate UniqueUserIds(users: seq<User>)
  {
    forall i, j | 0 <= i < |users| && 0 <= j < |users| && i != j :: users[i].id != users[j].id
  }

  /** The row the repository stores for `data` under the id `id`. */
  function WithId(data: ContactCreateData, id: Id): (c: Contact)
    ensures c.id == id
  {
    Contact(id, data.email, data.name, data.phone, data.cep, data.street, data.number,
            data.district, data.city, data.state, data.complement, data.userId)
  }

  /** `rows.filter(c => c.id !== id)`: every row except those with that id. */
  function WithoutId(rows: seq<Contact>, id: Id): (r: seq<Contact>)
    ensures forall i | 0 <= i < |r| :: r[i].id != id && r[i] in rows
    ensures forall i | 0 <= i < |rows| && rows[i].id != id :: rows[i] in r
  {
    Lists.Filter(rows, (c: Contact) => c.id != id)
  }

  /** With unique ids, removing the rows with the id found at position k
      removes exactly that one row and keeps the others in order. */
  lemma WithoutUniqueId(rows: seq<Contact>, k: nat)
    requires UniqueIds(rows)
    requires k < |rows|
    ensures WithoutId(rows, rows[k].id) == rows[..k] + rows[k + 1..]
  {
    Lists.FilterDropsOne(rows, k, (c: Contact) => c.id != rows[k].id);
  }

  /** Without any row carrying the id, nothing is removed. */
  lemma WithoutAbsentId(rows: seq<Contact>, id: Id)
    requires forall i | 0 <= i < |rows| :: rows[i].id != id
    ensures WithoutId(rows, id) == rows
  {
    Lists.FilterAll(rows, (c: Contact) => c.id != id);
  }
}
