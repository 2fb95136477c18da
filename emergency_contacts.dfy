/**
 * The emergency numbers of the cities the service covers, and the lookup
 * of a city's entry by name, ignoring letter case.
 */
module EmergencyContacts {
  import opened Wrappers
  import Text

  datatype EmergencyContact = EmergencyContact(
    city: string,
    country: string,
    police: string,
    ambulance: string,
    fire: string,
    touristPolice: Option<string>,
    embassy: Option<string>,
    localHelpline: Option<string>)

  /** `emergencyContacts`, in order. */
  const Contacts: seq<EmergencyContact> := [
    EmergencyContact("New Delhi", "India", "100", "102", "101", Some("+91-11-2334-1111"), None, Some("1363 (Tourist Helpline)")),
    EmergencyContact("Mumbai", "India", "100", "102", "101", Some("+91-22-2262-0111"), None, Some("1363 (Tourist Helpline)")),
    EmergencyContact("Bangalore", "India", "100", "102", "101", Some("+91-80-2294-2555"), None, Some("1363 (Tourist Helpline)")),
    EmergencyContact("London", "United Kingdom", "999 or 112", "999 or 112", "999 or 112", Some("+44-20-7230-1212 (Met Police)"), None, None),
    EmergencyContact("Paris", "France", "17 or 112", "15 or 112", "18 or 112", Some("+33-1-53-71-53-71"), None, None),
    EmergencyContact("New York", "USA", "911", "911", "911", None, None, Some("311 (Non-emergency)")),
    EmergencyContact("Tokyo", "Japan", "110", "119", "119", Some("+81-3-3501-0110"), None, Some("+81-50-3816-2787 (Japan Visitor Hotline)")),
    EmergencyContact("Dubai", "UAE", "999", "998", "997", Some("901"), None, None),
    EmergencyContact("Singapore", "Singapore", "999", "995", "995", Some("1800-255-0000"), None, None),
    EmergencyContact("Barcelona", "Spain", "112", "112", "112", Some("+34-932-562-430"), None, None)
  ]

  /** The first entry of `contacts` whose lower-cased city is `key`. */
  function FindCity(contacts: seq<EmergencyContact>, key: string): (r: Option<EmergencyContact>)
    ensures r.None? <==> forall i | 0 <= i < |contacts| :: Text.Lower(contacts[i].city) != key
    ensures r.Some? ==> exists i | 0 <= i < |contacts| ::
      && contacts[i] == r.value && Text.Lower(contacts[i].city) == key
      && forall j | 0 <= j < i :: Text.Lower(contacts[j].city) != key
  {
    if contacts == [] then None
    else if Text.Lower(contacts[0].city) == key then Some(contacts[0])
    else
      var r := FindCity(contacts[1..], key);
      assert r.Some? ==> exists i | 0 <= i < |contacts| ::
        && contacts[i] == r.value && Text.Lower(contacts[i].city) == key
        && forall j | 0 <= j < i :: Text.Lower(contacts[j].city) != key
      by {
        if r.Some? {
          var i :| 0 <= i < |contacts| - 1 && contacts[1..][i] == r.value && Text.Lower(contacts[1..][i].city) == key
            && forall j | 0 <= j < i :: Text.Lower(contacts[1..][j].city) != key;
          assert contacts[i + 1] == r.value;
          forall j | 0 <= j < i + 1 ensures Text.Lower(contacts[j].city) != key {
            if j > 0 { assert contacts[j] == contacts[1..][j - 1]; }
          }
        }
      }
      r
  }

  /**
   * `getEmergencyContactsByCity`: the first entry whose city equals `city`
   * once both are lower-cased; `None` for a city the table does not have.
   */
  function ContactsByCity(city: string): (r: Option<EmergencyContact>)
    ensures r.Some? ==> r.value in Contacts && Text.Lower(r.value.city) == Text.Lower(city)
    ensures r.None? <==> forall i | 0 <= i < |Contacts| :: Text.Lower(Contacts[i].city) != Text.Lower(city)
  {
    FindCity(Contacts, Text.Lower(city))
  }

  /** The lookup ignores letter case. */
  lemma LookupIgnoresCase(city: string)
    ensures ContactsByCity(city) == ContactsByCity(Text.Lower(city))
  {
    Text.LowerIdempotent(city);
  }

  /** A string lower-cases to `t` when it does so letter by letter. */
  lemma LowersTo(s: string, t: string)
    requires |s| == |t| && forall k | 0 <= k < |s| :: Text.LowerChar(s[k]) == t[k]
    ensures Text.Lower(s) == t
  {
  }

  /** No two entries have the same city, even ignoring case, so at most one entry ever matches. */
  lemma CitiesDistinct(i: nat, j: nat)
    requires i < |Contacts| && j < |Contacts| && i != j
    ensures Text.Lower(Contacts[i].city) != Text.Lower(Contacts[j].city)
  {
    if i < j { OrderedCitiesDistinct(i, j); } else { OrderedCitiesDistinct(j, i); }
  }

  lemma OrderedCitiesDistinct(i: nat, j: nat)
    requires i < j < |Contacts|
    ensures Text.Lower(Contacts[i].city) != Text.Lower(Contacts[j].city)
  {
    var a, b := Contacts[i].city, Contacts[j].city;
    // the length or the first, third or fifth letter tells any two cities apart
    assert || |a| != |b|
           || Text.LowerChar(a[0]) != Text.LowerChar(b[0])
           || Text.LowerChar(a[2]) != Text.LowerChar(b[2])
           || Text.LowerChar(a[4]) != Text.LowerChar(b[4]);
  }

  /** Every city of the table is found under its own name, in any letter case. */
  lemma EveryCityFound(i: nat, query: string)
    requires i < |Contacts| && Text.Lower(query) == Text.Lower(Contacts[i].city)
    ensures ContactsByCity(query) == Some(Contacts[i])
  {
    var r := ContactsByCity(query);
    if r.Some? {
      var j :| 0 <= j < |Contacts| && Contacts[j] == r.value;
      if j != i {
        CitiesDistinct(i, j);
      }
    }
  }

  /** Matching is on the whole name, not a part of it: "Delhi" finds nothing... */
  lemma PartOfNameNotFound(query: string)
    requires query == "Delhi"
    ensures ContactsByCity(query) == None
  {
    LowersTo(query, "delhi");
    forall i | 0 <= i < |Contacts| ensures Text.Lower(Contacts[i].city) != "delhi" {
      var a := Contacts[i].city;
      assert |a| != 5 || Text.LowerChar(a[0]) != 'd' || Text.LowerChar(a[2]) != 'l';
    }
  }

  /** ...and "new delhi" finds New Delhi. */
  lemma WholeNameFound(query: string)
    requires query == "new delhi"
    ensures ContactsByCity(query) == Some(Contacts[0])
  {
    LowersTo(query, "new delhi");
    FirstCityLowered();
    EveryCityFound(0, query);
  }

  lemma FirstCityLowered()
    ensures Text.Lower(Contacts[0].city) == "new delhi"
  {
    var city := Contacts[0].city;
    assert city == "New Delhi";
    LowersTo(city, "new delhi");
  }
}
