/** Worked cases proved on the shipped factor table: the second and third
    lookup tiers on named activities, two skipped rows, and the gap between
    totalCO2e and the sum of the rounded record values.

    The helper lemmas take the literals as parameters fixed by a `requires`,
    which keeps the verifier from unfolding every function on them. */
module Scenarios {
  import opened Wrappers
  import opened JsString
  import opened JsNumber
  import opened EmissionFactors
  import opened Footprint
  import opened Grouping

  // --- General facts the scenarios use ---

  /** A text lacking a character of `sub` cannot contain `sub`. */
  lemma MissingCharNotIncluded(s: string, sub: string, c: char)
    requires c in sub && c !in s
    ensures !Includes(s, sub)
  {
    var k :| 0 <= k < |sub| && sub[k] == c;
    forall i | 0 <= i <= |s| - |sub|
      ensures !OccursAt(s, sub, i)
    {
      assert s[i..i + |sub|][k] == s[i + k];
    }
  }

  /** A key held only by the last entry is found there. */
  lemma LastKeyLookup(t: seq<Keyed>, key: string)
    requires |t| > 0 && t[|t| - 1].key == key
    requires forall j | 0 <= j < |t| - 1 :: t[j].key != key
    ensures Lookup(t, key) == Some(t[|t| - 1].entry)
  {
  }

  // --- The shipped table ---

  lemma DefaultOnlyLast(t: seq<Keyed>)
    requires t == MockEmissionFactors
    ensures forall j | 0 <= j < |t| - 1 :: t[j].key != "default"
  {
  }

  /** `default`, the last entry, is the shipped table's fallback. */
  lemma MockDefault()
    ensures DefaultEntry(MockEmissionFactors) == Entry(1.0, "unit", Scope3, "Other")
  {
    DefaultOnlyLast(MockEmissionFactors);
    LastKeyLookup(MockEmissionFactors, "default");
  }

  lemma LowerEnergy(s: string, n: string)
    requires s == "Energy" && n == "energy"
    ensures ToLower(s) == n
  {
    assert LowerChar('E') == 'e';
  }

  lemma LowerTravel(s: string, n: string)
    requires s == "Travel" && n == "travel"
    ensures ToLower(s) == n
  {
    assert LowerChar('T') == 't';
  }

  lemma LowerOperations(s: string, n: string)
    requires s == "Operations" && n == "operations"
    ensures ToLower(s) == n
  {
    assert LowerChar('O') == 'o';
  }

  lemma LowerOther(s: string, n: string)
    requires s == "Other" && n == "other"
    ensures ToLower(s) == n
  {
    assert LowerChar('O') == 'o';
  }

  /** The lower-cased categories the second tier looks for. */
  lemma LowerCategories()
    ensures ToLower("Energy") == "energy" && ToLower("Travel") == "travel"
    ensures ToLower("Operations") == "operations" && ToLower("Other") == "other"
  {
    LowerEnergy("Energy", "energy");
    LowerTravel("Travel", "travel");
    LowerOperations("Operations", "operations");
    LowerOther("Other", "other");
  }

  // --- Tier 2: "business travel - air" is no key, contains "travel" ---

  lemma TravelAirNoKey(t: seq<Keyed>, a: string)
    requires t == MockEmissionFactors && a == "business travel - air"
    ensures forall i | 0 <= i < |t| :: t[i].key != a
  {
  }

  lemma TravelInTravelAir(a: string, sub: string)
    requires a == "business travel - air" && sub == "travel"
    ensures Includes(a, sub)
  {
    assert OccursAt(a, sub, 9);
  }

  lemma EnergyNotInTravelAir(e: Entry, a: string)
    requires e.category == "Energy" && a == "business travel - air"
    ensures !CategoryMatches(e, a)
  {
    LowerEnergy(e.category, "energy");
    MissingCharNotIncluded(a, "energy", 'y');
  }

  lemma TravelInTravelAirEntry(e: Entry, a: string)
    requires e.category == "Travel" && a == "business travel - air"
    ensures CategoryMatches(e, a)
  {
    LowerTravel(e.category, "travel");
    TravelInTravelAir(a, "travel");
  }

  lemma TravelAirCategories(t: seq<Keyed>, a: string)
    requires t == MockEmissionFactors && a == "business travel - air"
    ensures forall j | 0 <= j < 2 :: !CategoryMatches(t[j].entry, a)
    ensures CategoryMatches(t[2].entry, a)
  {
    EnergyNotInTravelAir(t[0].entry, a);
    EnergyNotInTravelAir(t[1].entry, a);
    TravelInTravelAirEntry(t[2].entry, a);
  }

  /** An unknown activity that mentions travel takes the first Travel entry
      in declaration order, gasoline, whatever the activity really is. */
  lemma ResolveTravelFallback()
    ensures Resolve(MockEmissionFactors, "business travel - air") == Entry(2.3, "liter", Scope1, "Travel")
  {
    TravelAirNoKey(MockEmissionFactors, "business travel - air");
    TravelAirCategories(MockEmissionFactors, "business travel - air");
  }

  // --- Tier 3: "electricity usage" is no key and names no category ---

  lemma UsageNoKey(t: seq<Keyed>, a: string)
    requires t == MockEmissionFactors && a == "electricity usage"
    ensures forall i | 0 <= i < |t| :: t[i].key != a
  {
  }

  lemma UsageNamesNoCategory(a: string)
    requires a == "electricity usage"
    ensures !Includes(a, "energy") && !Includes(a, "travel")
    ensures !Includes(a, "operations") && !Includes(a, "other")
  {
    MissingCharNotIncluded(a, "energy", 'n');
    MissingCharNotIncluded(a, "travel", 'v');
    MissingCharNotIncluded(a, "operations", 'o');
    MissingCharNotIncluded(a, "other", 'o');
  }

  lemma UsageNoCategory(t: seq<Keyed>, a: string)
    requires t == MockEmissionFactors && a == "electricity usage"
    ensures forall i | 0 <= i < |t| :: !CategoryMatches(t[i].entry, a)
  {
    LowerCategories();
    UsageNamesNoCategory(a);
    MockCategories(t);
  }

  /** The first activity of the sample CSV, "Electricity Usage", is neither a
      key nor contains a category name, so it falls through to `default`:
      factor 1, Scope 3, category Other, not the electricity entry. */
  lemma ResolveElectricityUsage()
    ensures Resolve(MockEmissionFactors, "electricity usage") == Entry(1.0, "unit", Scope3, "Other")
  {
    UsageNoKey(MockEmissionFactors, "electricity usage");
    UsageNoCategory(MockEmissionFactors, "electricity usage");
    MockDefault();
  }

  // --- Skipped rows ---

  lemma ParseAbc(s: string)
    requires s == "abc"
    ensures ParseFloat(s) == None
  {
    TrimStartNoSpace(s);
    assert Unsigned(s) == s;
  }

  /** A quantity of `abc` is NaN, so the row is skipped. */
  lemma NonNumericQuantitySkipped(k: nat)
    ensures ProcessRow(MockEmissionFactors, Columns(0, 1, 2), k, ["Water", "abc", "m3"]).None?
  {
    var row := ["Water", "abc", "m3"];
    ParseAbc(row[1]);
    assert !Usable(Columns(0, 1, 2), row);
  }

  lemma TrimSpace(s: string)
    requires s == " "
    ensures Trim(s) == []
  {
    assert TrimStart(s) == TrimStart(s[1..]);
  }

  lemma BlankCells(row: seq<string>)
    requires |row| == 3 && row[0] == [] && row[1] == " " && row[2] == []
    ensures BlankRow(row)
  {
    TrimSpace(row[1]);
  }

  /** A row of empty and blank cells is skipped. */
  lemma BlankRowSkipped(k: nat)
    ensures ProcessRow(MockEmissionFactors, Columns(0, 1, 2), k, ["", " ", ""]).None?
  {
    BlankCells(["", " ", ""]);
  }

  // --- totalCO2e versus the rounded records ---

  lemma RoundTiny()
    ensures Round2(0.004) == 0.0 && Round2(0.008) == 0.01
  {
    assert Hundredths(0.004) == 0;
    assert Hundredths(0.008) == 1;
  }

  /** Two rows of 0.004 kg each are shown as 0 kg each, yet totalCO2e is
      0.01 kg: the total rounds the unrounded sum, not the sum of the
      rounded record values. */
  lemma TotalDiffersFromRecordSum()
    ensures var r := Record("item-0", "x", 0.004, "kg", Scope3, "Other", 0.0);
            var acc := [Accepted(0, r, 0.004), Accepted(1, r.(id := "item-1"), 0.004)];
            var e := Summary(acc);
            RoundedRecords(acc) && e.totalCO2e == 0.01 && Total(ScopeItems(e.detailed)) == 0.0
  {
    var r := Record("item-0", "x", 0.004, "kg", Scope3, "Other", 0.0);
    var acc := [Accepted(0, r, 0.004), Accepted(1, r.(id := "item-1"), 0.004)];
    RoundTiny();
    assert RawTotal(acc[1..][1..]) == 0.0;
    assert RawTotal(acc[1..]) == 0.004;
    assert RawTotal(acc) == 0.008;
    var items := ScopeItems(Records(acc));
    assert Total(items[1..][1..]) == 0.0;
    assert Total(items[1..]) == 0.0;
  }
}
