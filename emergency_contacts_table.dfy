/**
 * The searchable emergency-number table: the rows whose city or country
 * contains the search term, ignoring case, in table order, with '-' for a
 * number the city does not have.
 */
module EmergencyContactsTable {
  import opened Wrappers
  import Text
  import opened Sequences
  import opened EmergencyContacts

  /** The filter's condition: the lower-cased term occurs in the lower-cased city or country. */
  predicate Matches(contact: EmergencyContact, term: string) {
    Text.Contains(Text.Lower(contact.city), Text.Lower(term)) || Text.Contains(Text.Lower(contact.country), Text.Lower(term))
  }

  /** `filteredContacts`: the contacts that match `term`, in their order. */
  function FilterContacts(contacts: seq<EmergencyContact>, term: string): (r: seq<EmergencyContact>)
    ensures IsSubsequence(r, contacts)
    ensures forall i | 0 <= i < |r| :: Matches(r[i], term)
    ensures forall i | 0 <= i < |contacts| :: Matches(contacts[i], term) ==> contacts[i] in r
    // every matching entry is kept as often as it occurs, every other one dropped
    ensures forall c :: multiset(r)[c] == if Matches(c, term) then multiset(contacts)[c] else 0
  {
    if contacts == [] then []
    else
      var rest := FilterContacts(contacts[1..], term);
      assert forall i | 1 <= i < |contacts| :: contacts[i] == contacts[1..][i - 1];
      KeptCounts(contacts, rest, term);
      if Matches(contacts[0], term) then
        var r := [contacts[0]] + rest;
        assert r[1..] == rest;
        r
      else rest
  }

  /** The multiplicities of a filtered tail carry over to the whole list, with its head kept when it matches. */
  lemma KeptCounts(contacts: seq<EmergencyContact>, rest: seq<EmergencyContact>, term: string)
    requires contacts != []
    requires forall c :: multiset(rest)[c] == if Matches(c, term) then multiset(contacts[1..])[c] else 0
    ensures var r := if Matches(contacts[0], term) then [contacts[0]] + rest else rest;
      forall c :: multiset(r)[c] == if Matches(c, term) then multiset(contacts)[c] else 0
  {
    assert contacts == [contacts[0]] + contacts[1..];
  }

  /** An empty search shows the whole table, in order. */
  lemma {:induction false} EmptyTermKeepsAll(contacts: seq<EmergencyContact>)
    ensures FilterContacts(contacts, "") == contacts
  {
    if contacts != [] {
      Text.ContainsEmpty(Text.Lower(contacts[0].city));
      EmptyTermKeepsAll(contacts[1..]);
    }
  }

  /** `contact.touristPolice || '-'`: an absent or empty number shows as '-'. */
  function CellText(value: Option<string>): (r: string)
    ensures r != ""
    ensures r != "-" ==> value == Some(r)
    ensures value.Some? && value.value != "" ==> r == value.value
  {
    if value.Some? && value.value != "" then value.value else "-"
  }
}
