/** The contact list: which row is being edited, and the avatar initials. */
module ContactListView {
  import opened Wrappers
  import opened Domain
  import Lists
  import Text

  /** `parts.map(n => n[0]).join('')`: the first character of each part;
      an empty part yields `undefined`, which joins as nothing. */
  function Initials(parts: seq<string>): (r: string)
    ensures |r| <= |parts|
    ensures forall i | 0 <= i < |r| :: exists k | 0 <= k < |parts| :: parts[k] != "" && r[i] == parts[k][0]
    decreases |parts|
  {
    if parts == [] then ""
    else
      var rest := Initials(parts[1..]);
      assert forall i | 0 <= i < |rest| :: exists k | 0 <= k < |parts| :: parts[k] != "" && rest[i] == parts[k][0] by {
        forall i | 0 <= i < |rest|
          ensures exists k | 0 <= k < |parts| :: parts[k] != "" && rest[i] == parts[k][0]
        {
          var k :| 0 <= k < |parts[1..]| && parts[1..][k] != "" && rest[i] == parts[1..][k][0];
          assert parts[k + 1] == parts[1..][k];
        }
      }
      (if parts[0] == "" then "" else [parts[0][0]]) + rest
  }

  /** Initials of two runs of parts are the initials of each, in order. */
  lemma {:induction false} InitialsAppend(a: seq<string>, b: seq<string>)
    ensures Initials(a + b) == Initials(a) + Initials(b)
    decreases |a|
  {
    if a == [] {
      assert a + b == b;
    } else {
      assert (a + b)[0] == a[0];
      assert (a + b)[1..] == a[1..] + b;
      InitialsAppend(a[1..], b);
    }
  }

  predicate NonEmpty(part: string)
  {
    part != ""
  }

  /** Empty parts contribute nothing: the initials are those of the
      non-empty parts, one character each. */
  lemma {:induction false} EmptyPartsContributeNothing(parts: seq<string>)
    ensures Initials(parts) == Initials(Lists.Filter(parts, NonEmpty))
    ensures |Initials(parts)| == |Lists.Filter(parts, NonEmpty)|
    decreases |parts|
  {
    if parts != [] {
      EmptyPartsContributeNothing(parts[1..]);
      var kept := Lists.Filter(parts, NonEmpty);
      if NonEmpty(parts[0]) {
        assert kept[0] == parts[0] && kept[1..] == Lists.Filter(parts[1..], NonEmpty);
      } else {
        assert kept == Lists.Filter(parts[1..], NonEmpty);
      }
    }
  }

  /** With no empty part, the initials are the parts' first characters,
      position by position. */
  lemma {:induction false} InitialsOfNonEmptyParts(parts: seq<string>)
    requires forall k | 0 <= k < |parts| :: parts[k] != ""
    ensures |Initials(parts)| == |parts|
    ensures forall i | 0 <= i < |parts| :: Initials(parts)[i] == parts[i][0]
    decreases |parts|
  {
    if parts != [] {
      var tail := parts[1..];
      InitialsOfNonEmptyParts(tail);
      var r := Initials(parts);
      assert r == [parts[0][0]] + Initials(tail);
      forall i | 1 <= i < |parts|
        ensures r[i] == parts[i][0]
      {
        assert r[i] == Initials(tail)[i - 1] && tail[i - 1] == parts[i];
      }
    }
  }

  /** `name.split(' ').map(n => n[0]).join('').toUpperCase()`: one character
      per non-empty space-separated part, in order, each the upper case of
      that part's first character. */
  function GetInitials(name: string): (r: string)
    ensures |r| <= |Text.Split(name, ' ')|
    ensures |r| == |Lists.Filter(Text.Split(name, ' '), NonEmpty)|
    ensures forall i | 0 <= i < |r| ::
      r[i] == Text.UpperChar(Lists.Filter(Text.Split(name, ' '), NonEmpty)[i][0])
  {
    var parts := Text.Split(name, ' ');
    var words := Lists.Filter(parts, NonEmpty);
    EmptyPartsContributeNothing(parts);
    InitialsOfNonEmptyParts(words);
    var r := Text.ToUpper(Initials(parts));
    assert forall i | 0 <= i < |r| :: r[i] == Text.UpperChar(words[i][0]);
    r
  }

  /** A one-word name has its upper-cased first letter as initials. */
  lemma OneWordInitials(name: string)
    requires name != "" && ' ' !in name
    ensures GetInitials(name) == [Text.UpperChar(name[0])]
  {
    Text.SplitWithoutSeparator(name, ' ');
    assert Initials([name]) == [name[0]] by {
      assert [name][1..] == [];
    }
  }

  /** A row is shown as a form exactly when its id is the one being edited. */
  predicate InEditMode(c: Contact, editingId: Option<Id>)
  {
    editingId == Some(c.id)
  }

  function RowsInEditMode(rows: seq<Contact>, editingId: Option<Id>): seq<Contact>
  {
    Lists.Filter(rows, (c: Contact) => InEditMode(c, editingId))
  }

  /** With distinct ids, once the first row is in edit mode no later row is. */
  lemma NoLaterRowInEditMode(rows: seq<Contact>, editingId: Option<Id>)
    requires UniqueIds(rows)
    requires rows != [] && InEditMode(rows[0], editingId)
    ensures RowsInEditMode(rows[1..], editingId) == []
  {
    var tail := rows[1..];
    forall k | 0 <= k < |tail|
      ensures !InEditMode(tail[k], editingId)
    {
      assert tail[k] == rows[k + 1];
    }
    Lists.FilterNone(tail, (c: Contact) => InEditMode(c, editingId));
  }

  /** With distinct ids, at most one row is in edit mode at a time. */
  lemma {:induction false} AtMostOneInEditMode(rows: seq<Contact>, editingId: Option<Id>)
    requires UniqueIds(rows)
    ensures |RowsInEditMode(rows, editingId)| <= 1
    decreases |rows|
  {
    if rows != [] {
      var tail := rows[1..];
      assert UniqueIds(tail) by {
        forall i, j | 0 <= i < |tail| && 0 <= j < |tail| && i != j
          ensures tail[i].id != tail[j].id
        {
          assert tail[i] == rows[i + 1] && tail[j] == rows[j + 1];
        }
      }
      AtMostOneInEditMode(tail, editingId);
      if InEditMode(rows[0], editingId) {
        NoLaterRowInEditMode(rows, editingId);
      }
    }
  }

  class ContactList {
    var editingId: Option<Id>

    constructor()
      ensures editingId == None
    {
      editingId := None;
    }

    method HandleEdit(id: Id)
      modifies this
      ensures editingId == Some(id)
    {
      editingId := Some(id);
    }

    method HandleCancelEdit()
      modifies this
      ensures editingId == None
    {
      editingId := None;
    }

    /** Saves the row being edited. Without an edited id (null or "") it does
        nothing; otherwise it calls `onUpdate` with that id and leaves edit
        mode, unless the call rejects, in which case edit mode stays and the
        rejection propagates. */
    method HandleUpdate(onUpdate: Outcome<()>) returns (calledWith: Option<Id>, r: Outcome<()>)
      modifies this
      ensures old(editingId).None? || old(editingId) == Some("") ==>
        calledWith == None && r == Resolved(()) && editingId == old(editingId)
      ensures old(editingId).Some? && old(editingId) != Some("") ==>
        calledWith == old(editingId) && r == onUpdate
      ensures calledWith.Some? && onUpdate.Resolved? ==> editingId == None
      ensures calledWith.Some? && onUpdate.Rejected? ==> editingId == old(editingId)
    {
      if editingId.None? || editingId == Some("") {
        return None, Resolved(());
      }
      calledWith := editingId;
      r := onUpdate;
      if onUpdate.Resolved? {
        editingId := None;
      }
    }
  }
}
