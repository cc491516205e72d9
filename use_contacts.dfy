/** The client's contact list state (`useContacts`): the list, a loading
    flag and an error message, changed by fetch, create, update and delete.
    The API call of each handler is replaced by the outcome it resolves or
    rejects with, passed in as a parameter. */
module ContactsHook {
  import opened Wrappers
  import opened Domain
  import Lists

  const NotAuthenticated := "Usuário não autenticado"
  const FetchFallback := "Erro ao carregar contatos"
  const CreateFallback := "Erro ao criar contato"
  const UpdateFallback := "Erro ao atualizar contato"
  const DeleteFallback := "Erro ao deletar contato"

  /** `!!email`: a logged-in email is present and non-empty. */
  predicate LoggedIn(email: Option<string>)
  {
    email.Some? && email.value != ""
  }

  /** `prev.map(c => c.id === id ? updated : c)`. */
  function ReplacedById(list: seq<Contact>, id: Id, updated: Contact): (r: seq<Contact>)
    ensures |r| == |list|
    ensures forall i | 0 <= i < |list| :: r[i] == if list[i].id == id then updated else list[i]
  {
    seq(|list|, i requires 0 <= i < |list| => if list[i].id == id then updated else list[i])
  }

  /** Appending a contact whose id is new keeps the ids unique. */
  lemma AppendKeepsUniqueIds(list: seq<Contact>, c: Contact)
    requires UniqueIds(list)
    requires forall i | 0 <= i < |list| :: list[i].id != c.id
    ensures UniqueIds(list + [c])
  {
  }

  /** Replacing by id with a contact carrying that same id keeps the ids
      unique, and touches at most one element. */
  lemma ReplaceKeepsUniqueIds(list: seq<Contact>, id: Id, updated: Contact)
    requires UniqueIds(list)
    requires updated.id == id
    ensures UniqueIds(ReplacedById(list, id, updated))
    ensures forall i, j | 0 <= i < |list| && 0 <= j < |list| && i != j ::
      ReplacedById(list, id, updated)[i] == list[i] || ReplacedById(list, id, updated)[j] == list[j]
  {
  }

  /** Removing the rows with an id after replacing them by a contact with the
      same id is the same as removing them from the original list. */
  lemma {:induction false} RemoveAfterReplace(list: seq<Contact>, id: Id, updated: Contact)
    requires updated.id == id
    ensures WithoutId(ReplacedById(list, id, updated), id) == WithoutId(list, id)
    decreases |list|
  {
    if list != [] {
      var r := ReplacedById(list, id, updated);
      assert r[1..] == ReplacedById(list[1..], id, updated);
      RemoveAfterReplace(list[1..], id, updated);
      assert WithoutId(r, id) == Lists.Filter(r, (c: Contact) => c.id != id);
      assert WithoutId(list, id) == Lists.Filter(list, (c: Contact) => c.id != id);
      assert WithoutId(r[1..], id) == Lists.Filter(r[1..], (c: Contact) => c.id != id);
      assert WithoutId(list[1..], id) == Lists.Filter(list[1..], (c: Contact) => c.id != id);
    }
  }

  class ContactsState {
    var contacts: seq<Contact>
    var loading: bool
    var error: Option<string>
    /** The logged-in email the hook reads from the auth context. */
    const email: Option<string>

    constructor(email: Option<string>)
      ensures contacts == [] && !loading && error == None && this.email == email
    {
      contacts := [];
      loading := false;
      error := None;
      this.email := email;
    }

    /** Loads the list; without a logged-in email it empties the list and
        makes no request. */
    method FetchContacts(response: Outcome<seq<Contact>>) returns (ghost requested: bool)
      modifies this
      ensures !LoggedIn(email) ==>
        !requested && contacts == [] && loading == old(loading) && error == old(error)
      ensures LoggedIn(email) ==> requested && !loading
      ensures LoggedIn(email) && response.Resolved? ==> contacts == response.value && error == None
      ensures LoggedIn(email) && response.Rejected? ==>
        contacts == old(contacts) && error == Some(MessageOf(response.reason, FetchFallback))
    {
      if !LoggedIn(email) {
        contacts := [];
        return false;
      }
      requested := true;
      loading := true;
      error := None;
      match response {
        case Resolved(data) => contacts := data;
        case Rejected(err) => error := Some(MessageOf(err, FetchFallback));
      }
      loading := false;
    }

    /** Creates a contact; on success appends it at the end; on failure keeps
        the list, records the message and rethrows. */
    method CreateContact(response: Outcome<Contact>) returns (r: Outcome<Contact>)
      modifies this
      ensures !LoggedIn(email) ==>
        r == Rejected(ErrorValue(NotAuthenticated))
        && contacts == old(contacts) && loading == old(loading) && error == old(error)
      ensures LoggedIn(email) ==> r == response && !loading
      ensures LoggedIn(email) && response.Resolved? ==>
        contacts == old(contacts) + [response.value] && error == None
      ensures LoggedIn(email) && response.Rejected? ==>
        contacts == old(contacts) && error == Some(MessageOf(response.reason, CreateFallback))
    {
      if !LoggedIn(email) {
        return Rejected(ErrorValue(NotAuthenticated));
      }
      loading := true;
      error := None;
      match response {
        case Resolved(newContact) =>
          contacts := contacts + [newContact];
        case Rejected(err) =>
          error := Some(MessageOf(err, CreateFallback));
      }
      r := response;
      loading := false;
    }

    /** Updates a contact; on success replaces every element with that id. */
    method UpdateContact(id: Id, response: Outcome<Contact>) returns (r: Outcome<Contact>)
      modifies this
      ensures !LoggedIn(email) ==>
        r == Rejected(ErrorValue(NotAuthenticated))
        && contacts == old(contacts) && loading == old(loading) && error == old(error)
      ensures LoggedIn(email) ==> r == response && !loading
      ensures LoggedIn(email) && response.Resolved? ==>
        contacts == ReplacedById(old(contacts), id, response.value) && error == None
      ensures LoggedIn(email) && response.Rejected? ==>
        contacts == old(contacts) && error == Some(MessageOf(response.reason, UpdateFallback))
    {
      if !LoggedIn(email) {
        return Rejected(ErrorValue(NotAuthenticated));
      }
      loading := true;
      error := None;
      match response {
        case Resolved(updatedContact) =>
          contacts := ReplacedById(contacts, id, updatedContact);
        case Rejected(err) =>
          error := Some(MessageOf(err, UpdateFallback));
      }
      r := response;
      loading := false;
    }

    /** Deletes a contact; on success removes every element with that id and
        resolves with true. */
    method DeleteContact(id: Id, response: Outcome<()>) returns (r: Outcome<bool>)
      modifies this
      ensures !LoggedIn(email) ==>
        r == Rejected(ErrorValue(NotAuthenticated))
        && contacts == old(contacts) && loading == old(loading) && error == old(error)
      ensures LoggedIn(email) ==> !loading
      ensures LoggedIn(email) && response.Resolved? ==>
        r == Resolved(true) && contacts == WithoutId(old(contacts), id) && error == None
      ensures LoggedIn(email) && response.Rejected? ==>
        r == Rejected(response.reason)
        && contacts == old(contacts) && error == Some(MessageOf(response.reason, DeleteFallback))
    {
      if !LoggedIn(email) {
        return Rejected(ErrorValue(NotAuthenticated));
      }
      loading := true;
      error := None;
      match response {
        case Resolved(_) =>
          contacts := WithoutId(contacts, id);
          r := Resolved(true);
        case Rejected(err) =>
          error := Some(MessageOf(err, DeleteFallback));
          r := Rejected(err);
      }
      loading := false;
    }
  }
}
