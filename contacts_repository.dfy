/** The contact store: an in-memory stand-in for the `contacts` table that
    the repository reads and changes in place. */
module ContactRepository {
  import opened Wrappers
  import opened Domain
  import Lists

  /** Message of the error the database client throws when the row to update
      does not exist. */
  const RecordNotFound := "Record to update not found."

  /** An optional new value for a column: `undefined` keeps the old one. */
  function Keep(update: Option<string>, current: string): string
  {
    if update.Some? then update.value else current
  }

  /** The row after the update `u`: name, email and phone are replaced, every
      other given field is replaced, every undefined field is kept; the id and
      the owner never change. */
  function Patched(row: Contact, u: ContactUpdate): (r: Contact)
    ensures r.id == row.id && r.userId == row.userId
    ensures r.name == u.name && r.email == u.email && r.phone == u.phone
    ensures u.cep.Some? ==> r.cep == u.cep.value
    ensures u.cep.None? ==> r.cep == row.cep
    ensures u.street.Some? ==> r.street == u.street.value
    ensures u.street.None? ==> r.street == row.street
    ensures u.number.Some? ==> r.number == u.number.value
    ensures u.number.None? ==> r.number == row.number
    ensures u.district.Some? ==> r.district == u.district.value
    ensures u.district.None? ==> r.district == row.district
    ensures u.city.Some? ==> r.city == u.city.value
    ensures u.city.None? ==> r.city == row.city
    ensures u.state.Some? ==> r.state == u.state.value
    ensures u.state.None? ==> r.state == row.state
    ensures u.complement.Some? ==> r.complement == u.complement.value
    ensures u.complement.None? ==> r.complement == row.complement
  {
    row.(name := u.name, email := u.email, phone := u.phone,
         cep := Keep(u.cep, row.cep), street := Keep(u.street, row.street),
         number := Keep(u.number, row.number), district := Keep(u.district, row.district),
         city := Keep(u.city, row.city), state := Keep(u.state, row.state),
         complement := if u.complement.Some? then u.complement.value else row.complement)
  }

  /** The first row, in table order, with that email or that phone. */
  function FirstWithEmailOrPhone(rows: seq<Contact>, email: string, phone: string): (r: Option<Contact>)
    ensures r.None? <==> forall i | 0 <= i < |rows| :: rows[i].email != email && rows[i].phone != phone
    ensures r.Some? ==> r.value in rows && (r.value.email == email || r.value.phone == phone)
    decreases |rows|
  {
    if rows == [] then None
    else if rows[0].email == email || rows[0].phone == phone then Some(rows[0])
    else FirstWithEmailOrPhone(rows[1..], email, phone)
  }

  /** Position of the row with that id, or -1. */
  function IndexOfId(rows: seq<Contact>, id: Id): (k: int)
    ensures -1 <= k < |rows|
    ensures k >= 0 ==> rows[k].id == id
    ensures k < 0 ==> forall i | 0 <= i < |rows| :: rows[i].id != id
    decreases |rows|
  {
    if rows == [] then -1
    else if rows[0].id == id then 0
    else var k := IndexOfId(rows[1..], id); if k < 0 then -1 else k + 1
  }

  class ContactsRepository {
    var rows: seq<Contact>
    var nextId: nat

    /** Row ids are unique and all shorter than the next generated id. */
    ghost predicate Valid()
      reads this
    {
      && UniqueIds(rows)
      && forall i | 0 <= i < |rows| :: |rows[i].id| <= nextId
    }

    constructor()
      ensures Valid() && rows == []
    {
      rows := [];
      nextId := 0;
    }

    /** Inserts one row holding `data` under a fresh id and returns it. */
    method Create(data: ContactCreateData) returns (c: Contact)
      requires Valid()
      modifies this
      ensures Valid()
      ensures c == WithId(data, GeneratedId(old(nextId)))
      ensures forall i | 0 <= i < |old(rows)| :: old(rows)[i].id != c.id
      ensures rows == old(rows) + [c]
    {
      c := WithId(data, GeneratedId(nextId));
      rows := rows + [c];
      nextId := nextId + 1;
    }

    /** A row with that email or that phone, of any owner, or null if none. */
    function FindByEmailOrPhone(email: string, phone: string): (r: Option<Contact>)
      reads this
      ensures r.None? <==> forall i | 0 <= i < |rows| :: rows[i].email != email && rows[i].phone != phone
      ensures r.Some? ==> r.value in rows && (r.value.email == email || r.value.phone == phone)
    {
      FirstWithEmailOrPhone(rows, email, phone)
    }

    /** All and only the rows owned by `userId`, in table order. */
    function FindAllContacts(userId: Id): (r: seq<Contact>)
      reads this
      ensures forall i | 0 <= i < |r| :: r[i].userId == userId && r[i] in rows
      ensures forall i | 0 <= i < |rows| && rows[i].userId == userId :: rows[i] in r
    {
      Lists.Filter(rows, (c: Contact) => c.userId == userId)
    }

    /** Updates the row with id `u.id` in place; fails, changing nothing, when
        there is none. */
    method UpdateContact(u: ContactUpdate) returns (r: Result<Contact>)
      requires Valid()
      modifies this
      ensures Valid() && nextId == old(nextId)
      ensures r.Err? <==> forall i | 0 <= i < |old(rows)| :: old(rows)[i].id != u.id
      ensures r.Err? ==> r.message == RecordNotFound && rows == old(rows)
      ensures r.Ok? ==> exists k | 0 <= k < |old(rows)| ::
        && old(rows)[k].id == u.id
        && r.value == Patched(old(rows)[k], u)
        && rows == old(rows)[k := r.value]
    {
      var k := IndexOfId(rows, u.id);
      if k < 0 {
        r := Err(RecordNotFound);
      } else {
        var updated := Patched(rows[k], u);
        rows := rows[k := updated];
        r := Ok(updated);
      }
    }

    /** Deletes the row with that id; reports false, instead of failing, when
        there is none. */
    method Delete(id: Id) returns (ok: bool)
      requires Valid()
      modifies this
      ensures Valid() && nextId == old(nextId)
      ensures ok <==> exists k | 0 <= k < |old(rows)| :: old(rows)[k].id == id
      ensures rows == WithoutId(old(rows), id)
      ensures ok ==> |rows| == |old(rows)| - 1
    {
      var k := IndexOfId(rows, id);
      if k < 0 {
        WithoutAbsentId(rows, id);
        ok := false;
      } else {
        WithoutUniqueId(rows, k);
        rows := rows[..k] + rows[k + 1..];
        ok := true;
      }
    }
  }
}
