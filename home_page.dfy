/** The home page: greeting, first name, the recent-contacts panel and the
    statistics cards. */
module HomePageView {
  import opened Wrappers
  import opened Domain
  import Lists
  import Text

  /** `fullName.split(' ')[0]`, or null for a null or empty name: the text
      before the first space. */
  function GetFirstName(fullName: Option<string>): (r: Option<string>)
    ensures r.None? <==> fullName.None? || fullName.value == ""
    ensures r.Some? ==>
      && Text.IsPrefix(r.value, fullName.value)
      && ' ' !in r.value
      && (|r.value| < |fullName.value| ==> fullName.value[|r.value|] == ' ')
  {
    match fullName
    case None => None
    case Some(name) =>
      if name == "" then None
      else
        Text.FirstPartIsPrefix(name, ' ');
        Some(Text.Split(name, ' ')[0])
  }

  /** A name without spaces is its own first name. */
  lemma OneWordFirstName(name: string)
    requires name != "" && ' ' !in name
    ensures GetFirstName(Some(name)) == Some(name)
  {
    Text.SplitWithoutSeparator(name, ' ');
  }

  const Morning := "Bom dia"
  const Afternoon := "Boa tarde"
  const Evening := "Boa noite"

  /** The greeting for the local hour: before 12, before 18, otherwise. */
  function GetGreeting(hour: int): (g: string)
    ensures g == Morning <==> hour < 12
    ensures g == Afternoon <==> 12 <= hour < 18
    ensures g == Evening <==> 18 <= hour
  {
    if hour < 12 then Morning
    else if hour < 18 then Afternoon
    else Evening
  }

  function Min(a: int, b: int): int
  {
    if a <= b then a else b
  }

  /** `contacts.slice(-5).reverse()`: the last five contacts, newest first. */
  function RecentContacts(contacts: seq<Contact>): (r: seq<Contact>)
    ensures |r| == Min(5, |contacts|)
    ensures forall i | 0 <= i < |r| :: r[i] == contacts[|contacts| - 1 - i]
  {
    var tail := Lists.SliceFrom(contacts, -5);
    var r := Lists.Reverse(tail);
    assert forall i | 0 <= i < |tail| :: tail[i] == contacts[|contacts| - |tail| + i];
    r
  }

  /** The name in the greeting: the first name, or when that is missing or
      empty, the part of the email before the first '@'. */
  function GreetingName(name: Option<string>, email: string): (r: string)
    ensures GetFirstName(name).Some? && GetFirstName(name).value != "" ==> r == GetFirstName(name).value
    ensures !(GetFirstName(name).Some? && GetFirstName(name).value != "") ==>
      && Text.IsPrefix(r, email)
      && '@' !in r
      && (|r| < |email| ==> email[|r|] == '@')
  {
    var first := GetFirstName(name);
    if first.Some? && first.value != "" then first.value
    else
      Text.FirstPartIsPrefix(email, '@');
      Text.Split(email, '@')[0]
  }

  datatype Stats = Stats(totalContacts: nat, recentContacts: nat, contactsThisWeek: nat)

  /** The statistics for a non-empty list: every contact counts as this
      week's, since the week filter keeps everything. */
  function ComputeStats(contacts: seq<Contact>): (s: Stats)
    ensures s == Stats(|contacts|, Min(5, |contacts|), |contacts|)
  {
    Lists.FilterAll(contacts, (c: Contact) => true);
    Stats(|contacts|, |Lists.SliceFrom(contacts, -5)|, |Lists.Filter(contacts, (c: Contact) => true)|)
  }

  class HomePage {
    var stats: Stats

    constructor()
      ensures stats == Stats(0, 0, 0)
    {
      stats := Stats(0, 0, 0);
    }

    /** The effect on a new contact list: an empty list keeps the last stats. */
    method StatsEffect(contacts: seq<Contact>)
      modifies this
      ensures |contacts| > 0 ==> stats == Stats(|contacts|, Min(5, |contacts|), |contacts|)
      ensures |contacts| == 0 ==> stats == old(stats)
    {
      if |contacts| > 0 {
        stats := ComputeStats(contacts);
      }
    }
  }
}
