/** The computational body of `processEmissions`: from the parsed CSV table
    (header row first) to the emissions summary or one of the three errors it
    throws. */
module Footprint {
  import opened Wrappers
  import opened JsString
  import opened JsNumber
  import opened EmissionFactors
  import opened Grouping

  /** One accepted row (EmissionsDataItem). */
  datatype Record = Record(
    id: string,
    activity: string,
    quantity: real,
    unit: string,
    scope: Scope,
    category: string,
    co2e: real)

  /** The result handed to the dashboard (EmissionsData). */
  datatype EmissionsData = EmissionsData(
    totalCO2e: real,
    detailed: seq<Record>,
    byScope: seq<SummaryItem>,
    byCategory: seq<SummaryItem>)

  /** The errors processEmissions throws, each with the message it shows. */
  datatype Error = NoData | MissingColumns | NoValidActivities
  {
    function Message(): string {
      match this
      case NoData => "No data to process. Please upload a valid CSV."
      case MissingColumns => "CSV must contain 'Activity', 'Quantity', and 'Unit' columns."
      case NoValidActivities => "No valid emission activities found in the CSV data."
    }
  }

  /** Positions of the three required columns in the header row. */
  datatype Columns = Columns(activity: nat, quantity: nat, unit: nat)
  {
    /** `Math.max(activityIndex, quantityIndex, unitIndex) + 1`: the length a
        row needs for all three cells to exist. */
    function Width(): (w: nat)
      ensures activity < w && quantity < w && unit < w
      ensures w - 1 == activity || w - 1 == quantity || w - 1 == unit
    {
      var m := if activity < quantity then quantity else activity;
      (if m < unit then unit else m) + 1
    }
  }

  /** `h.trim().toLowerCase()`. */
  function Normalize(h: string): string {
    ToLower(Trim(h))
  }

  /** Lower-casing keeps the length, so a cell normalises to the empty string
      exactly when it is blank. */
  lemma NormalizedEmpty(h: string)
    ensures Normalize(h) == [] <==> Trim(h) == []
  {
  }

  function NormalizeAll(header: seq<string>): (ns: seq<string>)
    ensures |ns| == |header| && forall i | 0 <= i < |header| :: ns[i] == Normalize(header[i])
  {
    seq(|header|, i requires 0 <= i < |header| => Normalize(header[i]))
  }

  /** The cell at `i` is the first whose normalised text is `name`. */
  predicate FirstColumn(header: seq<string>, name: string, i: nat) {
    && i < |header| && Normalize(header[i]) == name
    && forall j | 0 <= j < i :: Normalize(header[j]) != name
  }

  /** Some header cell normalises to `name`. */
  predicate HasColumn(header: seq<string>, name: string) {
    exists i | 0 <= i < |header| :: Normalize(header[i]) == name
  }

  /** `headers.indexOf(name)` over the normalised header finds the first
      matching column, or reports that there is none. */
  lemma ColumnIndex(header: seq<string>, name: string)
    ensures IndexOf(NormalizeAll(header), name).None? <==> !HasColumn(header, name)
    ensures IndexOf(NormalizeAll(header), name).Some? ==>
              FirstColumn(header, name, IndexOf(NormalizeAll(header), name).value)
  {
    var ns := NormalizeAll(header);
    var r := IndexOf(ns, name);
    if HasColumn(header, name) {
      var i :| 0 <= i < |header| && Normalize(header[i]) == name;
      assert ns[i] == name;
    }
    if r.Some? {
      forall j | 0 <= j < r.value
        ensures Normalize(header[j]) != name
      {
        assert ns[j] != name;
      }
      assert ns[r.value] == name;
    }
  }

  /** Locates the activity, quantity and unit columns by name, in any order,
      ignoring case and surrounding white space; None when one is missing. */
  function FindColumns(header: seq<string>): (r: Option<Columns>)
    ensures r.None? <==> !HasColumn(header, "activity") || !HasColumn(header, "quantity")
                         || !HasColumn(header, "unit")
    ensures r.Some? ==> && FirstColumn(header, "activity", r.value.activity)
                        && FirstColumn(header, "quantity", r.value.quantity)
                        && FirstColumn(header, "unit", r.value.unit)
  {
    var ns := NormalizeAll(header);
    ColumnIndex(header, "activity");
    ColumnIndex(header, "quantity");
    ColumnIndex(header, "unit");
    match (IndexOf(ns, "activity"), IndexOf(ns, "quantity"), IndexOf(ns, "unit"))
    case (Some(a), Some(q), Some(u)) => Some(Columns(a, q, u))
    case _ => None
  }

  /** `row.every(cell => !cell || cell.trim() === "")`. */
  predicate BlankRow(row: seq<string>) {
    forall i | 0 <= i < |row| :: Trim(row[i]) == []
  }

  /** A row that survived the filter, with its position among the data rows
      and its unrounded emissions. */
  datatype Accepted = Accepted(index: nat, record: Record, raw: real)

  /** The `id` of the record made from data row `index`. */
  function ItemId(index: nat): string {
    "item-" + NatToString(index)
  }

  /** Distinct row positions give distinct ids. */
  lemma ItemIdInjective(i: nat, j: nat)
    ensures ItemId(i) == ItemId(j) <==> i == j
  {
    if ItemId(i) == ItemId(j) {
      assert NatToString(i) == ItemId(i)[5..];
      assert NatToString(j) == ItemId(j)[5..];
      NatToStringInjective(i, j);
    }
  }

  /** The row passes all five checks of the forEach callback: it is long
      enough, not blank, and has a non-blank activity, a quantity parseFloat
      accepts, and a non-blank unit. */
  predicate Usable(cols: Columns, row: seq<string>)
    // in terms of white space: all three cells exist, some cell and the
    // activity and unit cells hold something else, and the quantity parses
    ensures Usable(cols, row) <==>
              && cols.activity < |row| && cols.quantity < |row| && cols.unit < |row|
              && (exists i | 0 <= i < |row| :: !IsBlank(row[i]))
              && !IsBlank(row[cols.activity])
              && ParseFloat(row[cols.quantity]).Some?
              && !IsBlank(row[cols.unit])
  {
    BlankRowCells(row);
    && |row| >= cols.Width()
    && !BlankRow(row)
    && (TrimEmptyIffBlank(row[cols.activity]); Trim(row[cols.activity]) != [])
    && ParseFloat(row[cols.quantity]).Some?
    && (TrimEmptyIffBlank(row[cols.unit]); Trim(row[cols.unit]) != [])
  }

  /** A row is blank exactly when each of its cells is white space only. */
  lemma BlankRowCells(row: seq<string>)
    ensures BlankRow(row) <==> forall i | 0 <= i < |row| :: IsBlank(row[i])
  {
    forall i | 0 <= i < |row| {
      TrimEmptyIffBlank(row[i]);
    }
  }

  /** The body of the forEach callback for data row `index`. */
  function ProcessRow(t: seq<Keyed>, cols: Columns, index: nat, row: seq<string>): (r: Option<Accepted>)
    requires WellFormed(t)
    ensures r.Some? <==> Usable(cols, row)
    // where each field of the record comes from
    ensures r.Some? ==>
              var q := ParseFloat(row[cols.quantity]).value;
              var e := Resolve(t, Normalize(row[cols.activity]));
              && r.value.index == index
              && r.value.raw == e.Emissions(q)
              && r.value.record == Record(ItemId(index), row[cols.activity], q, row[cols.unit],
                                          e.scope, e.category, Round2(e.Emissions(q)))
  {
    if |row| < cols.Width() || BlankRow(row) then None
    else
      var activity := Normalize(row[cols.activity]);
      var quantity := ParseFloat(row[cols.quantity]);
      var unit := Normalize(row[cols.unit]);
      NormalizedEmpty(row[cols.activity]);
      NormalizedEmpty(row[cols.unit]);
      if activity == [] || quantity.None? || unit == [] then None
      else
        var e := Resolve(t, activity);
        var co2e := e.Emissions(quantity.value);
        Some(Accepted(index, Record(ItemId(index), row[cols.activity], quantity.value, row[cols.unit],
                                    e.scope, e.category, Round2(co2e)), co2e))
  }

  /** What the forEach callback does with each data row, by position. */
  function Outcomes(t: seq<Keyed>, cols: Columns, rows: seq<seq<string>>): (o: seq<Option<Accepted>>)
    requires WellFormed(t)
    ensures |o| == |rows| && forall k | 0 <= k < |rows| :: o[k] == ProcessRow(t, cols, k, rows[k])
  {
    seq(|rows|, k requires 0 <= k < |rows| => ProcessRow(t, cols, k, rows[k]))
  }

  /** Each outcome that is a row sits at that row's position. */
  predicate Indexed(outcomes: seq<Option<Accepted>>) {
    forall k | 0 <= k < |outcomes| && outcomes[k].Some? :: outcomes[k].value.index == k
  }

  /** Everything in `acc` is one of the accepted rows among the outcomes. */
  predicate KeptFrom(acc: seq<Accepted>, outcomes: seq<Option<Accepted>>) {
    forall i | 0 <= i < |acc| :: acc[i].index < |outcomes| && outcomes[acc[i].index] == Some(acc[i])
  }

  /** The rows of `acc` are in strictly increasing input order. */
  predicate InInputOrder(acc: seq<Accepted>) {
    forall i, j | 0 <= i < j < |acc| :: acc[i].index < acc[j].index
  }

  /** Every accepted row among the outcomes is in `acc`. */
  predicate KeepsAll(acc: seq<Accepted>, outcomes: seq<Option<Accepted>>) {
    forall k | 0 <= k < |outcomes| && outcomes[k].Some? :: exists i | 0 <= i < |acc| :: acc[i].index == k
  }

  /** The `push`es of the forEach: the accepted rows, in input order. */
  function Keep(outcomes: seq<Option<Accepted>>): (acc: seq<Accepted>)
    requires Indexed(outcomes)
    ensures KeptFrom(acc, outcomes) && InInputOrder(acc) && KeepsAll(acc, outcomes)
  {
    if |outcomes| == 0 then []
    else
      var n := |outcomes| - 1;
      assert Indexed(outcomes[..n]);
      var prev := Keep(outcomes[..n]);
      KeepStep(outcomes, prev);
      if outcomes[n].Some? then prev + [outcomes[n].value] else prev
  }

  /** One more outcome: a row is pushed, anything else leaves `acc` alone. */
  lemma KeepStep(outcomes: seq<Option<Accepted>>, prev: seq<Accepted>)
    requires |outcomes| > 0 && Indexed(outcomes)
    requires var n := |outcomes| - 1;
             KeptFrom(prev, outcomes[..n]) && InInputOrder(prev) && KeepsAll(prev, outcomes[..n])
    ensures var n := |outcomes| - 1;
            var acc := if outcomes[n].Some? then prev + [outcomes[n].value] else prev;
            KeptFrom(acc, outcomes) && InInputOrder(acc) && KeepsAll(acc, outcomes)
  {
    var n := |outcomes| - 1;
    var acc := if outcomes[n].Some? then prev + [outcomes[n].value] else prev;
    forall i | 0 <= i < |prev|
      ensures acc[i] == prev[i] && prev[i].index < n && outcomes[prev[i].index] == Some(prev[i])
    {
      assert outcomes[..n][prev[i].index] == outcomes[prev[i].index];
    }
    forall k | 0 <= k < |outcomes| && outcomes[k].Some?
      ensures exists i | 0 <= i < |acc| :: acc[i].index == k
    {
      if k < n {
        assert outcomes[..n][k] == outcomes[k];
        var i :| 0 <= i < |prev| && prev[i].index == k;
        assert acc[i].index == k;
      } else {
        assert acc[|prev|].index == k;
      }
    }
    assert KeptFrom(acc, outcomes);
  }

  /** The forEach over the data rows: the accepted rows, in input order. */
  function AcceptRows(t: seq<Keyed>, cols: Columns, rows: seq<seq<string>>): (acc: seq<Accepted>)
    requires WellFormed(t)
    ensures forall i | 0 <= i < |acc| ::
              acc[i].index < |rows| && ProcessRow(t, cols, acc[i].index, rows[acc[i].index]) == Some(acc[i])
    ensures forall i, j | 0 <= i < j < |acc| :: acc[i].index < acc[j].index
    ensures forall k | 0 <= k < |rows| && ProcessRow(t, cols, k, rows[k]).Some? ::
              exists i | 0 <= i < |acc| :: acc[i].index == k
  {
    Keep(Outcomes(t, cols, rows))
  }

  function Records(acc: seq<Accepted>): (rs: seq<Record>)
    ensures |rs| == |acc| && forall i | 0 <= i < |acc| :: rs[i] == acc[i].record
  {
    seq(|acc|, i requires 0 <= i < |acc| => acc[i].record)
  }

  /** `totalCO2e`: the sum of the unrounded per-row emissions. */
  function RawTotal(acc: seq<Accepted>): real {
    if |acc| == 0 then 0.0 else acc[0].raw + RawTotal(acc[1..])
  }

  /** The (scope label, co2e) pairs the byScope reduce folds. */
  function ScopeItems(rs: seq<Record>): (items: seq<SummaryItem>)
    ensures |items| == |rs|
    ensures forall i | 0 <= i < |rs| :: items[i] == SummaryItem(rs[i].scope.Label(), rs[i].co2e)
  {
    seq(|rs|, i requires 0 <= i < |rs| => SummaryItem(rs[i].scope.Label(), rs[i].co2e))
  }

  /** The (category, co2e) pairs the byCategory reduce folds. */
  function CategoryItems(rs: seq<Record>): (items: seq<SummaryItem>)
    ensures |items| == |rs|
    ensures forall i | 0 <= i < |rs| :: items[i] == SummaryItem(rs[i].category, rs[i].co2e)
  {
    seq(|rs|, i requires 0 <= i < |rs| => SummaryItem(rs[i].category, rs[i].co2e))
  }

  /** The object passed to setEmissionsData on success: the accepted
      records in order and their summaries by scope and by category. */
  function Summary(acc: seq<Accepted>): (e: EmissionsData)
    ensures |e.detailed| == |acc| && forall i | 0 <= i < |acc| :: e.detailed[i] == acc[i].record
    ensures SummaryOf(e.byScope, ScopeItems(e.detailed))
    ensures SummaryOf(e.byCategory, CategoryItems(e.detailed))
  {
    var rs := Records(acc);
    SummariesOf(rs);
    EmissionsData(Round2(RawTotal(acc)), rs, Summarize(ScopeItems(rs)), Summarize(CategoryItems(rs)))
  }

  lemma SummariesOf(rs: seq<Record>)
    ensures SummaryOf(Summarize(ScopeItems(rs)), ScopeItems(rs))
    ensures SummaryOf(Summarize(CategoryItems(rs)), CategoryItems(rs))
  {
    SummarizeSpec(ScopeItems(rs));
    SummarizeSpec(CategoryItems(rs));
  }

  /** processEmissions with an injected factor table. */
  function ProcessWith(t: seq<Keyed>, data: seq<seq<string>>): (r: Result<EmissionsData, Error>)
    requires WellFormed(t)
    ensures |data| == 0 ==> r == Failure(NoData)
    // a missing column fails before any data row is looked at
    ensures |data| > 0 && FindColumns(data[0]).None? ==> r == Failure(MissingColumns)
    // success always carries at least one record
    ensures r.Success? ==> |r.value.detailed| > 0
  {
    if |data| == 0 then Failure(NoData)
    else match FindColumns(data[0])
      case None => Failure(MissingColumns)
      case Some(cols) =>
        var acc := AcceptRows(t, cols, data[1..]);
        if |acc| == 0 then Failure(NoValidActivities) else Success(Summary(acc))
  }

  /** processEmissions with the factor table the source ships: whatever the
      CSV's activities are, every record and every byCategory entry is in one
      of the table's four categories. */
  function ProcessEmissions(data: seq<seq<string>>): (r: Result<EmissionsData, Error>)
    ensures r.Success? ==>
              forall i | 0 <= i < |r.value.detailed| :: r.value.detailed[i].category in MockCategoryNames
    ensures r.Success? ==>
              forall i | 0 <= i < |r.value.byCategory| :: r.value.byCategory[i].name in MockCategoryNames
  {
    MockWellFormed();
    MockCategories(MockEmissionFactors);
    CategoriesWithin(MockEmissionFactors, data, MockCategoryNames);
    ProcessWith(MockEmissionFactors, data)
  }

  /** When every entry of the table is in one of `names`, so is every record
      of a successful call and every byCategory entry. */
  lemma CategoriesWithin(t: seq<Keyed>, data: seq<seq<string>>, names: set<string>)
    requires WellFormed(t)
    requires forall i | 0 <= i < |t| :: t[i].entry.category in names
    ensures ProcessWith(t, data).Success? ==>
              var e := ProcessWith(t, data).value;
              && (forall i | 0 <= i < |e.detailed| :: e.detailed[i].category in names)
              && (forall i | 0 <= i < |e.byCategory| :: e.byCategory[i].name in names)
  {
    if ProcessWith(t, data).Success? {
      var e := ProcessWith(t, data).value;
      DetailedCategories(t, data, e, names);
      Summaries(t, data, e);
      SummaryNamesWithin(e.byCategory, e.detailed, names);
    }
  }

  lemma DetailedCategories(t: seq<Keyed>, data: seq<seq<string>>, e: EmissionsData, names: set<string>)
    requires WellFormed(t) && ProcessWith(t, data) == Success(e)
    requires forall i | 0 <= i < |t| :: t[i].entry.category in names
    ensures forall i | 0 <= i < |e.detailed| :: e.detailed[i].category in names
  {
    var cols, _ := SuccessUnfolds(t, data);
    var rows := data[1..];
    DetailedFromRows(t, data, cols, e);
    forall i | 0 <= i < |e.detailed|
      ensures e.detailed[i].category in names
    {
      RowCategoryWithin(t, cols, rows, e.detailed[i], names);
    }
  }

  lemma RowCategoryWithin(t: seq<Keyed>, cols: Columns, rows: seq<seq<string>>, r: Record, names: set<string>)
    requires FromSomeRow(t, cols, rows, r)
    requires forall i | 0 <= i < |t| :: t[i].entry.category in names
    ensures r.category in names
  {
    var k :| 0 <= k < |rows| && FromRow(t, cols, rows, r, k);
    PricedCategory(t, r);
  }

  /** A priced record carries the category of some table entry. */
  lemma PricedCategory(t: seq<Keyed>, r: Record)
    requires Priced(t, r)
    ensures exists j | 0 <= j < |t| :: t[j].entry.category == r.category
  {
    var _ := Resolve(t, Normalize(r.activity));
  }

  /** Each name of the category summary is some record's category. */
  lemma SummaryNamesWithin(s: seq<SummaryItem>, d: seq<Record>, names: set<string>)
    requires SummaryOf(s, CategoryItems(d))
    requires forall i | 0 <= i < |d| :: d[i].category in names
    ensures forall i | 0 <= i < |s| :: s[i].name in names
  {
    var items := CategoryItems(d);
    forall i | 0 <= i < |s|
      ensures s[i].name in names
    {
      assert Names(s)[i] == s[i].name;
      assert s[i].name in Names(items);
      var m :| 0 <= m < |items| && Names(items)[m] == s[i].name;
      assert items[m].name == d[m].category;
    }
  }

  /** Once the header is resolved, the call succeeds exactly when some data
      row is usable, and otherwise fails with NoValidActivities. */
  lemma OutcomeOfRows(t: seq<Keyed>, data: seq<seq<string>>)
    requires WellFormed(t)
    requires |data| > 0 && FindColumns(data[0]).Some?
    ensures var cols, rows := FindColumns(data[0]).value, data[1..];
            ProcessWith(t, data).Success? <==> exists k | 0 <= k < |rows| :: Usable(cols, rows[k])
    ensures ProcessWith(t, data).Failure? ==> ProcessWith(t, data).error == NoValidActivities
  {
    var cols, rows := FindColumns(data[0]).value, data[1..];
    var acc := AcceptRows(t, cols, rows);
    if |acc| > 0 {
      assert ProcessRow(t, cols, acc[0].index, rows[acc[0].index]).Some?;
    }
  }

  /** A successful call reports the records of the rows the forEach
      accepted, and the rounded sum of their unrounded emissions. */
  lemma SuccessUnfolds(t: seq<Keyed>, data: seq<seq<string>>) returns (cols: Columns, acc: seq<Accepted>)
    requires WellFormed(t)
    requires ProcessWith(t, data).Success?
    ensures |data| > 0 && FindColumns(data[0]) == Some(cols)
    ensures acc == AcceptRows(t, cols, data[1..])
    ensures ProcessWith(t, data).value.detailed == Records(acc)
    ensures ProcessWith(t, data).value.totalCO2e == Round2(RawTotal(acc))
    ensures ProcessWith(t, data).value.byScope == Summarize(ScopeItems(Records(acc)))
    ensures ProcessWith(t, data).value.byCategory == Summarize(CategoryItems(Records(acc)))
  {
    cols := FindColumns(data[0]).value;
    acc := AcceptRows(t, cols, data[1..]);
  }

  /** Records built from rows at increasing positions carry ids that are
      distinct and increase with the position they name. */
  lemma IdsFollowIndices(acc: seq<Accepted>)
    requires forall i, j | 0 <= i < j < |acc| :: acc[i].index < acc[j].index
    requires forall i | 0 <= i < |acc| :: acc[i].record.id == ItemId(acc[i].index)
    ensures forall i, j, k, l | 0 <= i < j < |acc| && acc[i].record.id == ItemId(k) && acc[j].record.id == ItemId(l) :: k < l
    ensures forall i, j | 0 <= i < j < |acc| :: acc[i].record.id != acc[j].record.id
  {
    forall i, j, k, l | 0 <= i < j < |acc| && acc[i].record.id == ItemId(k) && acc[j].record.id == ItemId(l)
      ensures k < l
    {
      ItemIdInjective(k, acc[i].index);
      ItemIdInjective(l, acc[j].index);
    }
    forall i, j | 0 <= i < j < |acc|
      ensures acc[i].record.id != acc[j].record.id
    {
      ItemIdInjective(acc[i].index, acc[j].index);
    }
  }

  /** Every record of the forEach comes from a usable row, and carries the
      id naming that row's position. */
  lemma RecordsFromRows(t: seq<Keyed>, cols: Columns, rows: seq<seq<string>>)
    requires WellFormed(t)
    ensures var acc := AcceptRows(t, cols, rows);
            forall i | 0 <= i < |acc| ::
              && acc[i].index < |rows|
              && acc[i].record.id == ItemId(acc[i].index)
              && Usable(cols, rows[acc[i].index])
              && ProcessRow(t, cols, acc[i].index, rows[acc[i].index]).value.record == acc[i].record
  {
    var acc := AcceptRows(t, cols, rows);
    forall i | 0 <= i < |acc|
      ensures acc[i].record.id == ItemId(acc[i].index)
    {
      var k := acc[i].index;
      assert ProcessRow(t, cols, k, rows[k]) == Some(acc[i]);
    }
  }

  /** No usable row is missing from the records. */
  lemma RowsInRecords(t: seq<Keyed>, cols: Columns, rows: seq<seq<string>>)
    requires WellFormed(t)
    ensures var acc := AcceptRows(t, cols, rows);
            forall k | 0 <= k < |rows| && Usable(cols, rows[k]) ::
              exists i | 0 <= i < |acc| :: acc[i].record.id == ItemId(k)
  {
    var acc := AcceptRows(t, cols, rows);
    RecordsFromRows(t, cols, rows);
    forall k | 0 <= k < |rows| && Usable(cols, rows[k])
      ensures exists i | 0 <= i < |acc| :: acc[i].record.id == ItemId(k)
    {
      assert ProcessRow(t, cols, k, rows[k]).Some?;
      var i :| 0 <= i < |acc| && acc[i].index == k;
      assert acc[i].record.id == ItemId(k);
    }
  }

  /** `r` carries the emissions its own activity and quantity imply: the
      scope and category of the factor the normalised activity resolves to,
      and the rounded product of quantity and factor. */
  ghost predicate Priced(t: seq<Keyed>, r: Record) {
    && WellFormed(t)
    && var e := Resolve(t, Normalize(r.activity));
       r.scope == e.scope && r.category == e.category && r.co2e == Round2(e.Emissions(r.quantity))
  }

  /** `r` is the record of the usable row at position k: its id is `item-k`,
      its activity and unit are the row's raw cells, its quantity is what
      parseFloat reads from the quantity cell, and it is priced. */
  ghost predicate FromRow(t: seq<Keyed>, cols: Columns, rows: seq<seq<string>>, r: Record, k: nat) {
    && k < |rows|
    && Usable(cols, rows[k])
    && r.id == ItemId(k)
    && r.activity == rows[k][cols.activity]
    && r.unit == rows[k][cols.unit]
    && ParseFloat(rows[k][cols.quantity]) == Some(r.quantity)
    && Priced(t, r)
  }

  /** `r` is the record of one of the usable rows. */
  ghost predicate FromSomeRow(t: seq<Keyed>, cols: Columns, rows: seq<seq<string>>, r: Record) {
    exists k | 0 <= k < |rows| :: FromRow(t, cols, rows, r, k)
  }

  /** A row the forEach accepts yields the record of that row. */
  lemma AcceptedFromRow(t: seq<Keyed>, cols: Columns, rows: seq<seq<string>>, k: nat, a: Accepted)
    requires WellFormed(t)
    requires k < |rows| && ProcessRow(t, cols, k, rows[k]) == Some(a)
    ensures FromRow(t, cols, rows, a.record, k)
  {
  }

  /** The i-th record of the forEach is the record of some usable row. */
  lemma AcceptedRecordFromRow(t: seq<Keyed>, cols: Columns, rows: seq<seq<string>>, i: nat)
    requires WellFormed(t)
    requires i < |AcceptRows(t, cols, rows)|
    ensures FromSomeRow(t, cols, rows, AcceptRows(t, cols, rows)[i].record)
  {
    var acc := AcceptRows(t, cols, rows);
    AcceptedFromRow(t, cols, rows, acc[i].index, acc[i]);
  }

  /** The records of the forEach come from its usable rows. */
  lemma RowRecordsSound(t: seq<Keyed>, cols: Columns, rows: seq<seq<string>>, d: seq<Record>)
    requires WellFormed(t)
    requires d == Records(AcceptRows(t, cols, rows))
    ensures forall i | 0 <= i < |d| :: FromSomeRow(t, cols, rows, d[i])
  {
    forall i | 0 <= i < |d|
      ensures FromSomeRow(t, cols, rows, d[i])
    {
      AcceptedRecordFromRow(t, cols, rows, i);
    }
  }

  /** The records' ids are distinct and follow the rows' input order. */
  lemma RowRecordsOrdered(t: seq<Keyed>, cols: Columns, rows: seq<seq<string>>, d: seq<Record>)
    requires WellFormed(t)
    requires d == Records(AcceptRows(t, cols, rows))
    ensures forall i, j, k, l | 0 <= i < j < |d| && d[i].id == ItemId(k) && d[j].id == ItemId(l) :: k < l
    ensures forall i, j | 0 <= i < j < |d| :: d[i].id != d[j].id
  {
    var acc := AcceptRows(t, cols, rows);
    RecordsFromRows(t, cols, rows);
    IdsFollowIndices(acc);
  }

  /** Every usable row has a record. */
  lemma RowRecordsComplete(t: seq<Keyed>, cols: Columns, rows: seq<seq<string>>, d: seq<Record>)
    requires WellFormed(t)
    requires d == Records(AcceptRows(t, cols, rows))
    ensures forall k | 0 <= k < |rows| && Usable(cols, rows[k]) :: exists i | 0 <= i < |d| :: d[i].id == ItemId(k)
  {
    RowsInRecords(t, cols, rows);
  }

  /** Each record of a successful call is what a usable data row under the
      resolved header produced, under the id `item-k` naming that row's
      position k. */
  lemma DetailedFromRows(t: seq<Keyed>, data: seq<seq<string>>, cols: Columns, e: EmissionsData)
    requires WellFormed(t)
    requires |data| > 0 && FindColumns(data[0]) == Some(cols)
    requires ProcessWith(t, data) == Success(e)
    ensures forall i | 0 <= i < |e.detailed| :: FromSomeRow(t, cols, data[1..], e.detailed[i])
  {
    var _, acc := SuccessUnfolds(t, data);
    RowRecordsSound(t, cols, data[1..], e.detailed);
  }

  /** The ids of a successful call are distinct and follow the data rows'
      order. */
  lemma DetailedInInputOrder(t: seq<Keyed>, data: seq<seq<string>>, e: EmissionsData)
    requires WellFormed(t)
    requires ProcessWith(t, data) == Success(e)
    ensures var d := e.detailed;
            forall i, j, k, l | 0 <= i < j < |d| && d[i].id == ItemId(k) && d[j].id == ItemId(l) :: k < l
    ensures var d := e.detailed;
            forall i, j | 0 <= i < j < |d| :: d[i].id != d[j].id
  {
    var cols, acc := SuccessUnfolds(t, data);
    RowRecordsOrdered(t, cols, data[1..], e.detailed);
  }

  /** A successful call leaves no usable data row under the resolved header
      out. */
  lemma DetailedComplete(t: seq<Keyed>, data: seq<seq<string>>, cols: Columns, e: EmissionsData)
    requires WellFormed(t)
    requires |data| > 0 && FindColumns(data[0]) == Some(cols)
    requires ProcessWith(t, data) == Success(e)
    ensures var rows, d := data[1..], e.detailed;
            forall k | 0 <= k < |rows| && Usable(cols, rows[k]) :: exists i | 0 <= i < |d| :: d[i].id == ItemId(k)
  {
    var _, acc := SuccessUnfolds(t, data);
    RowRecordsComplete(t, cols, data[1..], e.detailed);
  }

  /** Summaries built from a list of records describe it: one entry per
      distinct scope label or category, in first-seen order, each the rounded
      sum of its records' co2e; before rounding both add up to the same total. */
  lemma SummariesOfRecords(e: EmissionsData)
    requires e.byScope == Summarize(ScopeItems(e.detailed))
    requires e.byCategory == Summarize(CategoryItems(e.detailed))
    ensures SummaryOf(e.byScope, ScopeItems(e.detailed))
    ensures SummaryOf(e.byCategory, CategoryItems(e.detailed))
    ensures Total(Group(ScopeItems(e.detailed))) == Total(ScopeItems(e.detailed))
    ensures Total(Group(CategoryItems(e.detailed))) == Total(ScopeItems(e.detailed))
  {
    SummarizeSpec(ScopeItems(e.detailed));
    SummarizeSpec(CategoryItems(e.detailed));
    SameValuesSameTotal(ScopeItems(e.detailed), CategoryItems(e.detailed));
  }

  /** byScope and byCategory of a successful call are the summaries of its
      records' co2e by scope label and by category. */
  lemma Summaries(t: seq<Keyed>, data: seq<seq<string>>, e: EmissionsData)
    requires WellFormed(t)
    requires ProcessWith(t, data) == Success(e)
    ensures SummaryOf(e.byScope, ScopeItems(e.detailed))
    ensures SummaryOf(e.byCategory, CategoryItems(e.detailed))
    ensures Total(Group(ScopeItems(e.detailed))) == Total(ScopeItems(e.detailed))
    ensures Total(Group(CategoryItems(e.detailed))) == Total(ScopeItems(e.detailed))
  {
    var _, _ := SuccessUnfolds(t, data);
    SummariesOfRecords(e);
  }

  lemma {:induction false} SameValuesSameTotal(a: seq<SummaryItem>, b: seq<SummaryItem>)
    requires |a| == |b| && forall i | 0 <= i < |a| :: a[i].value == b[i].value
    ensures Total(a) == Total(b)
  {
    if |a| > 0 {
      SameValuesSameTotal(a[1..], b[1..]);
    }
  }

  /** Each record's co2e is its raw emissions rounded. */
  ghost predicate RoundedRecords(acc: seq<Accepted>) {
    forall i | 0 <= i < |acc| :: acc[i].record.co2e == Round2(acc[i].raw)
  }

  /** Summing rounded values drifts from the unrounded sum by at most half a
      hundredth per value. */
  lemma {:induction false} RoundingDrift(acc: seq<Accepted>)
    requires RoundedRecords(acc)
    ensures Abs(RawTotal(acc) - Total(ScopeItems(Records(acc)))) <= |acc| as real * 0.005
  {
    if |acc| > 0 {
      var items := ScopeItems(Records(acc));
      assert items[1..] == ScopeItems(Records(acc[1..]));
      RoundingDrift(acc[1..]);
      assert Abs(acc[0].raw - items[0].value) <= 0.005;
    }
  }

  /** The forEach rounds each record's co2e from its raw emissions. */
  lemma AcceptedRounded(t: seq<Keyed>, cols: Columns, rows: seq<seq<string>>)
    requires WellFormed(t)
    ensures RoundedRecords(AcceptRows(t, cols, rows))
  {
    var acc := AcceptRows(t, cols, rows);
    forall i | 0 <= i < |acc|
      ensures acc[i].record.co2e == Round2(acc[i].raw)
    {
      assert ProcessRow(t, cols, acc[i].index, rows[acc[i].index]) == Some(acc[i]);
    }
  }

  /** Rounding the unrounded sum adds at most half a hundredth more. */
  lemma RoundedTotalDrift(acc: seq<Accepted>, e: EmissionsData)
    requires RoundedRecords(acc)
    requires e.totalCO2e == Round2(RawTotal(acc)) && e.detailed == Records(acc)
    ensures Abs(e.totalCO2e - Total(ScopeItems(e.detailed))) <= (|e.detailed| + 1) as real * 0.005
  {
    RoundingDrift(acc);
  }

  /** totalCO2e rounds the sum of the unrounded emissions, so it can differ
      from the sum of the records' rounded co2e, by at most half a hundredth
      per record plus half a hundredth for the final rounding. */
  lemma TotalWithinRounding(t: seq<Keyed>, data: seq<seq<string>>, e: EmissionsData)
    requires WellFormed(t)
    requires ProcessWith(t, data) == Success(e)
    ensures Abs(e.totalCO2e - Total(ScopeItems(e.detailed))) <= (|e.detailed| + 1) as real * 0.005
  {
    var cols, acc := SuccessUnfolds(t, data);
    AcceptedRounded(t, cols, data[1..]);
    RoundedTotalDrift(acc, e);
  }
}
