/** The emission-factor table (MOCK_EMISSION_FACTORS with its SCOPES labels)
    and the three-tier lookup that maps a normalised activity name to an entry:
    exact key, then the first entry whose category occurs in the activity,
    then the `default` entry. */
module EmissionFactors {
  import opened Wrappers
  import opened JsString

  /** The three GHG-protocol scopes; the source uses their labels as strings. */
  datatype Scope = Scope1 | Scope2 | Scope3
  {
    function Label(): string {
      match this
      case Scope1 => "Scope 1: Direct Emissions"
      case Scope2 => "Scope 2: Indirect Emissions - Purchased Energy"
      case Scope3 => "Scope 3: Indirect Emissions - Value Chain"
    }
  }

  /** One emission factor: kg CO2e per `unit` of the activity. */
  datatype Entry = Entry(factor: real, unit: string, scope: Scope, category: string)
  {
    /** kg CO2e for `quantity` units, `quantity * factor`. */
    function Emissions(quantity: real): real {
      quantity * factor
    }
  }

  /** A table entry with its (lower-case) activity key. */
  datatype Keyed = Keyed(key: string, entry: Entry)

  function Keys(t: seq<Keyed>): (ks: seq<string>)
    ensures |ks| == |t| && forall i | 0 <= i < |t| :: ks[i] == t[i].key
  {
    seq(|t|, i requires 0 <= i < |t| => t[i].key)
  }

  /** Whether some entry is stored under `key`. */
  predicate HasKey(t: seq<Keyed>, key: string) {
    |t| > 0 && (t[0].key == key || HasKey(t[1..], key))
  }

  lemma {:induction false} HasKeyIff(t: seq<Keyed>, key: string)
    ensures HasKey(t, key) <==> exists i | 0 <= i < |t| :: t[i].key == key
  {
    if |t| > 0 {
      HasKeyIff(t[1..], key);
      if t[0].key != key && exists i | 0 <= i < |t| :: t[i].key == key {
        var i :| 0 <= i < |t| && t[i].key == key;
        assert t[1..][i - 1].key == key;
      }
    }
  }

  /** A table the lookup can work with: the fallback key `default` is present.
      Entries are searched in declaration order and the first entry with a key
      is the one found; the source's object literal has no repeated keys. */
  predicate WellFormed(t: seq<Keyed>) {
    HasKey(t, "default")
  }

  /** The factors the source ships with, in declaration order. */
  const MockEmissionFactors: seq<Keyed> := [
    Keyed("electricity", Entry(0.4, "kWh", Scope2, "Energy")),
    Keyed("natural gas", Entry(2.0, "therm", Scope1, "Energy")),
    Keyed("gasoline", Entry(2.3, "liter", Scope1, "Travel")),
    Keyed("diesel", Entry(2.7, "liter", Scope1, "Travel")),
    Keyed("flights", Entry(0.15, "km", Scope3, "Travel")),
    Keyed("hotel stays", Entry(25.0, "night", Scope3, "Travel")),
    Keyed("waste", Entry(0.5, "kg", Scope3, "Operations")),
    Keyed("water", Entry(0.3, "m3", Scope3, "Operations")),
    Keyed("commuting", Entry(0.12, "km", Scope3, "Travel")),
    Keyed("business travel - rail", Entry(0.04, "km", Scope3, "Travel")),
    Keyed("refrigerants", Entry(1500.0, "kg", Scope1, "Operations")),
    Keyed("office supplies", Entry(5.0, "item_bundle", Scope3, "Operations")),
    Keyed("cloud computing", Entry(0.05, "hour_cpu", Scope3, "Operations")),
    Keyed("default", Entry(1.0, "unit", Scope3, "Other"))
  ]

  /** The category names the shipped table uses. */
  const MockCategoryNames: set<string> := {"Energy", "Travel", "Operations", "Other"}

  /** Every entry of the shipped table is in one of the four categories. */
  lemma MockCategories(t: seq<Keyed>)
    requires t == MockEmissionFactors
    ensures forall i | 0 <= i < |t| :: t[i].entry.category in MockCategoryNames
  {
  }

  /** The shipped table has its fallback entry. */
  lemma MockWellFormed()
    ensures WellFormed(MockEmissionFactors)
  {
  }

  /** Property access `table[key]` on the object: the entry stored under `key`. */
  function Lookup(t: seq<Keyed>, key: string): (r: Option<Entry>)
    ensures r.None? <==> forall i | 0 <= i < |t| :: t[i].key != key
    ensures r.Some? ==> exists i | 0 <= i < |t| :: t[i] == Keyed(key, r.value)
                          && forall j | 0 <= j < i :: t[j].key != key
  {
    match IndexOf(Keys(t), key)
    case None => None
    case Some(i) => Some(t[i].entry)
  }

  /** The fallback entry, `table['default']`. */
  function DefaultEntry(t: seq<Keyed>): (e: Entry)
    requires WellFormed(t)
    ensures exists i | 0 <= i < |t| :: t[i] == Keyed("default", e)
  {
    HasKeyIff(t, "default");
    Lookup(t, "default").value
  }

  /** The second tier's test: the lower-cased category occurs in the activity. */
  predicate CategoryMatches(e: Entry, activity: string) {
    Includes(activity, ToLower(e.category))
  }

  /** Object.values(table).find(...) for the category test: the position of
      the first entry, in declaration order, whose category occurs in the activity. */
  function FirstCategoryMatch(t: seq<Keyed>, activity: string): (r: Option<nat>)
    ensures r.None? <==> forall i | 0 <= i < |t| :: !CategoryMatches(t[i].entry, activity)
    ensures r.Some? ==> && r.value < |t| && CategoryMatches(t[r.value].entry, activity)
                        && forall j | 0 <= j < r.value :: !CategoryMatches(t[j].entry, activity)
  {
    if |t| == 0 then None
    else if CategoryMatches(t[0].entry, activity) then Some(0)
    else match FirstCategoryMatch(t[1..], activity)
      case None => None
      case Some(k) => Some(k + 1)
  }

  /** The emission factor for a normalised (trimmed, lower-cased) activity. */
  function Resolve(t: seq<Keyed>, activity: string): (r: Entry)
    requires WellFormed(t)
    // the lookup is total: the answer is always one of the table's entries
    ensures exists i | 0 <= i < |t| :: t[i].entry == r
    // tier 1: an exact key wins
    ensures forall i | 0 <= i < |t| && t[i].key == activity
                       && (forall j | 0 <= j < i :: t[j].key != activity) :: r == t[i].entry
    // tier 2: otherwise the first entry whose category occurs in the activity
    ensures (forall i | 0 <= i < |t| :: t[i].key != activity) ==>
              forall i | 0 <= i < |t| && CategoryMatches(t[i].entry, activity)
                         && (forall j | 0 <= j < i :: !CategoryMatches(t[j].entry, activity)) ::
                r == t[i].entry
    // tier 3: otherwise the default entry
    ensures (forall i | 0 <= i < |t| :: t[i].key != activity && !CategoryMatches(t[i].entry, activity)) ==>
              r == DefaultEntry(t)
  {
    match Lookup(t, activity)
    case Some(e) => e
    case None =>
      match FirstCategoryMatch(t, activity)
      case Some(i) => t[i].entry
      case None => DefaultEntry(t)
  }

  /** A known key resolves to its own entry: electricity is 0.4 kg per kWh,
      scope 2, category Energy. */
  lemma ResolveElectricity()
    ensures Resolve(MockEmissionFactors, "electricity") == Entry(0.4, "kWh", Scope2, "Energy")
  {
    MockWellFormed();
  }
}
