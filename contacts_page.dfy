/** The contacts page: the search filter over the hook's list and the
    add-form toggle. */
module ContactsPageView {
  import opened Wrappers
  import opened Domain
  import Lists
  import Text
  import ContactsHook

  /** A contact matches the term when its lower-cased name or email includes
      the lower-cased term, or its phone includes the term as typed. */
  predicate Matches(c: Contact, term: string)
  {
    || Text.Contains(Text.ToLower(c.name), Text.ToLower(term))
    || Text.Contains(Text.ToLower(c.email), Text.ToLower(term))
    || Text.Contains(c.phone, term)
  }

  /** `contacts.filter(...)`: all and only the matching contacts. */
  function FilteredContacts(contacts: seq<Contact>, term: string): (r: seq<Contact>)
    ensures |r| <= |contacts|
    ensures forall i | 0 <= i < |r| :: Matches(r[i], term) && r[i] in contacts
    ensures forall i | 0 <= i < |contacts| && Matches(contacts[i], term) :: contacts[i] in r
  {
    Lists.Filter(contacts, (c: Contact) => Matches(c, term))
  }

  /** The filtered list keeps the contacts' order. */
  lemma FilterKeepsOrder(contacts: seq<Contact>, term: string)
    ensures Lists.IsSubsequence(FilteredContacts(contacts, term), contacts)
  {
    Lists.FilterIsSubsequence(contacts, (c: Contact) => Matches(c, term));
  }

  /** Filtering a list made of two runs filters each run in place. */
  lemma FilterSplitsOverRuns(a: seq<Contact>, b: seq<Contact>, term: string)
    ensures FilteredContacts(a + b, term) == FilteredContacts(a, term) + FilteredContacts(b, term)
  {
    Lists.FilterAppend(a, b, (c: Contact) => Matches(c, term));
  }

  /** An empty search keeps every contact. */
  lemma EmptyTermKeepsAll(contacts: seq<Contact>)
    ensures FilteredContacts(contacts, "") == contacts
  {
    assert Text.ToLower("") == "";
    forall i | 0 <= i < |contacts|
      ensures Matches(contacts[i], "")
    {
      Text.ContainsEmpty(contacts[i].phone);
    }
    Lists.FilterAll(contacts, (c: Contact) => Matches(c, ""));
  }

  class ContactsPage {
    var showAddForm: bool
    var searchTerm: string
    const hook: ContactsHook.ContactsState

    constructor(hook: ContactsHook.ContactsState)
      ensures !showAddForm && searchTerm == "" && this.hook == hook
    {
      showAddForm := false;
      searchTerm := "";
      this.hook := hook;
    }

    /** The contacts shown under the current search term. */
    function Shown(): (r: seq<Contact>)
      reads this, hook
      ensures |r| <= |hook.contacts|
      ensures searchTerm == "" ==> r == hook.contacts
    {
      EmptyTermKeepsAll(hook.contacts);
      FilteredContacts(hook.contacts, searchTerm)
    }

    method SetSearchTerm(term: string)
      modifies this
      ensures searchTerm == term && showAddForm == old(showAddForm)
    {
      searchTerm := term;
    }

    /** `?action=add` opens the add form, unless the auth state has loaded
        with nobody logged in: then the page redirects and opens nothing.
        `authLoading` is the auth context's loading flag. */
    method SearchParamsEffect(authLoading: bool, action: Option<string>)
      modifies this
      ensures !authLoading && !ContactsHook.LoggedIn(hook.email) ==> showAddForm == old(showAddForm)
      ensures authLoading || ContactsHook.LoggedIn(hook.email) ==>
        showAddForm == (old(showAddForm) || action == Some("add"))
      ensures searchTerm == old(searchTerm)
    {
      if !authLoading && !ContactsHook.LoggedIn(hook.email) {
        return;
      }
      if action == Some("add") {
        showAddForm := true;
      }
    }

    /** Creates through the hook; success closes the add form, a failure is
        swallowed and leaves it open. */
    method HandleCreateContact(response: Outcome<Contact>)
      modifies this, hook
      ensures searchTerm == old(searchTerm)
      ensures ContactsHook.LoggedIn(hook.email) && response.Resolved? ==>
        !showAddForm && hook.contacts == old(hook.contacts) + [response.value]
      ensures !(ContactsHook.LoggedIn(hook.email) && response.Resolved?) ==>
        showAddForm == old(showAddForm) && hook.contacts == old(hook.contacts)
    {
      var r := hook.CreateContact(response);
      if r.Resolved? {
        showAddForm := false;
      }
    }

    /** Updates through the hook and swallows a failure. */
    method HandleUpdateContact(id: Id, response: Outcome<Contact>)
      modifies hook
      ensures ContactsHook.LoggedIn(hook.email) && response.Resolved? ==>
        hook.contacts == ContactsHook.ReplacedById(old(hook.contacts), id, response.value)
      ensures !(ContactsHook.LoggedIn(hook.email) && response.Resolved?) ==>
        hook.contacts == old(hook.contacts)
    {
      var _ := hook.UpdateContact(id, response);
    }

    /** Deletes through the hook once the user confirms; a failure is
        swallowed. */
    method HandleDeleteContact(id: Id, confirmed: bool, response: Outcome<()>)
      modifies hook
      ensures confirmed && ContactsHook.LoggedIn(hook.email) && response.Resolved? ==>
        hook.contacts == WithoutId(old(hook.contacts), id)
      ensures !(confirmed && ContactsHook.LoggedIn(hook.email) && response.Resolved?) ==>
        hook.contacts == old(hook.contacts)
    {
      if confirmed {
        var _ := hook.DeleteContact(id, response);
      }
    }
  }
}
