/** The two `reduce` calls that fold the records into an object keyed by scope
    or by category, followed by `Object.entries(...).map(...)`: a list of
    (name, value) groups in first-seen order, each value rounded to two decimals. */
module Grouping {
  import opened Wrappers
  import opened JsString
  import opened JsNumber

  datatype SummaryItem = SummaryItem(name: string, value: real)

  function Names(items: seq<SummaryItem>): (ns: seq<string>)
    ensures |ns| == |items| && forall i | 0 <= i < |items| :: ns[i] == items[i].name
  {
    seq(|items|, i requires 0 <= i < |items| => items[i].name)
  }

  predicate Distinct(ns: seq<string>) {
    forall i, j | 0 <= i < j < |ns| :: ns[i] != ns[j]
  }

  /** The sum of all values. */
  function Total(items: seq<SummaryItem>): real {
    if |items| == 0 then 0.0 else items[0].value + Total(items[1..])
  }

  /** The sum of the values of the items called `name`. */
  function SumWhere(items: seq<SummaryItem>, name: string): real {
    if |items| == 0 then 0.0
    else (if items[0].name == name then items[0].value else 0.0) + SumWhere(items[1..], name)
  }

  /** Position of the first item called `name`; `name` must occur. */
  function FirstSeen(items: seq<SummaryItem>, name: string): (k: nat)
    requires name in Names(items)
    ensures k < |items| && items[k].name == name
    ensures forall j | 0 <= j < k :: items[j].name != name
  {
    IndexOf(Names(items), name).value
  }

  /** One reduce step, `acc[k] = (acc[k] || 0) + v`: an existing group keeps its
      place and grows by v, a new group is appended with value v. */
  function Add(acc: seq<SummaryItem>, k: string, v: real): (r: seq<SummaryItem>)
    requires Distinct(Names(acc))
    ensures Distinct(Names(r))
    ensures Names(r) == if k in Names(acc) then Names(acc) else Names(acc) + [k]
    ensures forall i | 0 <= i < |r| ::
              r[i].value == (if i < |acc| then acc[i].value else 0.0) + (if r[i].name == k then v else 0.0)
  {
    match IndexOf(Names(acc), k)
    case Some(i) =>
      var r := acc[i := SummaryItem(k, acc[i].value + v)];
      assert Names(r) == Names(acc);
      r
    case None =>
      var r := acc + [SummaryItem(k, v)];
      assert Names(r) == Names(acc) + [k];
      r
  }

  /** The reduce over all items, before rounding: one group per distinct name. */
  function Group(items: seq<SummaryItem>): (g: seq<SummaryItem>)
    ensures Distinct(Names(g))
  {
    if |items| == 0 then []
    else
      var last := items[|items| - 1];
      Add(Group(items[..|items| - 1]), last.name, last.value)
  }

  /** `Object.entries(acc).map(([name, value]) => ({ name, value: Round2(value) }))`. */
  function RoundValues(g: seq<SummaryItem>): (r: seq<SummaryItem>)
    ensures |r| == |g|
    ensures forall i | 0 <= i < |g| :: r[i] == SummaryItem(g[i].name, Round2(g[i].value))
  {
    seq(|g|, i requires 0 <= i < |g| => SummaryItem(g[i].name, Round2(g[i].value)))
  }

  /** The summary list the dashboard receives. */
  function Summarize(items: seq<SummaryItem>): seq<SummaryItem> {
    RoundValues(Group(items))
  }

  lemma NamesAppend(items: seq<SummaryItem>, x: SummaryItem)
    ensures Names(items + [x]) == Names(items) + [x.name]
  {
  }

  lemma {:induction false} SumWhereAppend(items: seq<SummaryItem>, x: SummaryItem, name: string)
    ensures SumWhere(items + [x], name) == SumWhere(items, name) + (if x.name == name then x.value else 0.0)
  {
    if |items| > 0 {
      assert (items + [x])[1..] == items[1..] + [x];
      SumWhereAppend(items[1..], x, name);
    }
  }

  lemma {:induction false} TotalAppend(items: seq<SummaryItem>, x: SummaryItem)
    ensures Total(items + [x]) == Total(items) + x.value
  {
    if |items| > 0 {
      assert (items + [x])[1..] == items[1..] + [x];
      TotalAppend(items[1..], x);
    }
  }

  lemma {:induction false} TotalUpdate(items: seq<SummaryItem>, i: nat, y: SummaryItem)
    requires i < |items|
    ensures Total(items[i := y]) == Total(items) - items[i].value + y.value
  {
    if i > 0 {
      assert items[i := y][1..] == items[1..][i - 1 := y];
      TotalUpdate(items[1..], i - 1, y);
    }
  }

  /** The two shapes of a reduce step: an update in place or an append. */
  lemma AddShape(acc: seq<SummaryItem>, k: string, v: real)
    requires Distinct(Names(acc))
    ensures match IndexOf(Names(acc), k)
            case Some(i) => i < |acc| && Add(acc, k, v) == acc[i := SummaryItem(k, acc[i].value + v)]
            case None => Add(acc, k, v) == acc + [SummaryItem(k, v)]
  {
  }

  /** Growing one item by v, or appending an item of value v, adds v to the total. */
  lemma TotalGrows(acc: seq<SummaryItem>, r: seq<SummaryItem>, i: nat, y: SummaryItem, v: real)
    requires || (i < |acc| && r == acc[i := y] && y.value == acc[i].value + v)
             || (i == |acc| && r == acc + [y] && y.value == v)
    ensures Total(r) == Total(acc) + v
  {
    if i < |acc| {
      TotalUpdate(acc, i, y);
    } else {
      TotalAppend(acc, y);
    }
  }

  /** Adding v to a group adds v to the grand total. */
  lemma TotalAdd(acc: seq<SummaryItem>, k: string, v: real)
    requires Distinct(Names(acc))
    ensures Total(Add(acc, k, v)) == Total(acc) + v
  {
    AddShape(acc, k, v);
    match IndexOf(Names(acc), k)
    case Some(i) =>
      TotalGrows(acc, Add(acc, k, v), i, SummaryItem(k, acc[i].value + v), v);
    case None =>
      TotalGrows(acc, Add(acc, k, v), |acc|, SummaryItem(k, v), v);
  }

  /** The groups are exactly the names that occur among the items. */
  lemma {:induction false} GroupNames(items: seq<SummaryItem>)
    ensures forall k :: k in Names(Group(items)) <==> k in Names(items)
  {
    if |items| > 0 {
      var prefix, last := items[..|items| - 1], items[|items| - 1];
      assert items == prefix + [last];
      NamesAppend(prefix, last);
      GroupNames(prefix);
    }
  }

  /** Each group's value is the sum of the values of the items with its name. */
  lemma {:induction false} GroupValues(items: seq<SummaryItem>)
    ensures forall i | 0 <= i < |Group(items)| ::
              Group(items)[i].value == SumWhere(items, Group(items)[i].name)
  {
    if |items| > 0 {
      var prefix, last := items[..|items| - 1], items[|items| - 1];
      assert items == prefix + [last];
      GroupValues(prefix);
      GroupNames(prefix);
      var g', g := Group(prefix), Group(items);
      forall i | 0 <= i < |g|
        ensures g[i].value == SumWhere(items, g[i].name)
      {
        SumWhereAppend(prefix, last, g[i].name);
        if i < |g'| {
          assert g[i].name == g'[i].name;
        } else {
          assert g[i].name == last.name && last.name !in Names(prefix);
          SumWhereAbsent(prefix, last.name);
        }
      }
    }
  }

  lemma {:induction false} SumWhereAbsent(items: seq<SummaryItem>, name: string)
    requires name !in Names(items)
    ensures SumWhere(items, name) == 0.0
  {
    if |items| > 0 {
      assert Names(items[1..]) == Names(items)[1..];
      SumWhereAbsent(items[1..], name);
    }
  }

  /** The names `ns` occur among the items, in the order of their first
      occurrence. */
  ghost predicate InFirstSeenOrder(ns: seq<string>, items: seq<SummaryItem>) {
    forall i, j | 0 <= i < j < |ns| ::
      ns[i] in Names(items) && ns[j] in Names(items) && FirstSeen(items, ns[i]) < FirstSeen(items, ns[j])
  }

  /** A name seen for the first time in the last item is first seen there. */
  lemma FirstSeenNew(items: seq<SummaryItem>, x: SummaryItem)
    requires x.name !in Names(items)
    ensures x.name in Names(items + [x])
    ensures FirstSeen(items + [x], x.name) == |items|
  {
    NamesAppend(items, x);
    assert Names(items + [x])[|items|] == x.name;
  }

  /** One reduce step keeps the groups in first-seen order: the names so far
      are in order for the items but the last, and the last item's name is
      appended only when it is new. */
  lemma OrderStep(items: seq<SummaryItem>, ns: seq<string>)
    requires |items| > 0
    requires forall n :: n in ns <==> n in Names(items[..|items| - 1])
    requires InFirstSeenOrder(ns, items[..|items| - 1])
    ensures var last := items[|items| - 1];
            InFirstSeenOrder(if last.name in ns then ns else ns + [last.name], items)
  {
    var prefix, last := items[..|items| - 1], items[|items| - 1];
    assert items == prefix + [last];
    var ns' := if last.name in ns then ns else ns + [last.name];
    forall n | n in Names(prefix)
      ensures n in Names(items) && FirstSeen(items, n) == FirstSeen(prefix, n)
    {
      FirstSeenAppend(prefix, last, n);
    }
    if last.name !in ns {
      FirstSeenNew(prefix, last);
    }
    forall i, j | 0 <= i < j < |ns'|
      ensures ns'[i] in Names(items) && ns'[j] in Names(items) && FirstSeen(items, ns'[i]) < FirstSeen(items, ns'[j])
    {
      assert ns'[i] == ns[i] && ns[i] in ns && ns[i] in Names(prefix);
      assert FirstSeen(items, ns[i]) == FirstSeen(prefix, ns[i]) < |prefix|;
      if j < |ns| {
        assert ns'[j] == ns[j] && ns[j] in ns && ns[j] in Names(prefix);
        assert FirstSeen(items, ns[j]) == FirstSeen(prefix, ns[j]);
      } else {
        assert ns'[j] == last.name && FirstSeen(items, last.name) == |prefix|;
      }
    }
    assert InFirstSeenOrder(ns', items);
  }

  /** Groups appear in the order their names are first seen among the items. */
  lemma {:induction false} GroupFirstSeenOrder(items: seq<SummaryItem>)
    ensures InFirstSeenOrder(Names(Group(items)), items)
  {
    if |items| > 0 {
      var prefix, last := items[..|items| - 1], items[|items| - 1];
      var g := Group(prefix);
      assert Group(items) == Add(g, last.name, last.value);
      GroupFirstSeenOrder(prefix);
      GroupNames(prefix);
      OrderStep(items, Names(g));
    }
  }

  lemma FirstSeenAppend(items: seq<SummaryItem>, x: SummaryItem, name: string)
    requires name in Names(items)
    ensures name in Names(items + [x])
    ensures FirstSeen(items + [x], name) == FirstSeen(items, name)
  {
    NamesAppend(items, x);
    var k := FirstSeen(items, name);
    assert (items + [x])[k] == items[k];
  }

  /** Grouping neither loses nor invents anything: the group values add up to
      the sum of all item values. */
  lemma {:induction false} GroupTotal(items: seq<SummaryItem>)
    ensures Total(Group(items)) == Total(items)
  {
    if |items| > 0 {
      var prefix, last := items[..|items| - 1], items[|items| - 1];
      var g := Group(prefix);
      assert Group(items) == Add(g, last.name, last.value);
      GroupTotal(prefix);
      TotalAdd(g, last.name, last.value);
      TotalLast(items);
    }
  }

  lemma TotalLast(items: seq<SummaryItem>)
    requires |items| > 0
    ensures Total(items) == Total(items[..|items| - 1]) + items[|items| - 1].value
  {
    var prefix, last := items[..|items| - 1], items[|items| - 1];
    assert items == prefix + [last];
    TotalAppend(prefix, last);
  }

  /** `s` is the summary of `items` the dashboard expects: one entry per
      distinct name, in first-seen order, holding the rounded sum of that
      name's values. */
  ghost predicate SummaryOf(s: seq<SummaryItem>, items: seq<SummaryItem>) {
    && Distinct(Names(s))
    && (forall k :: k in Names(s) <==> k in Names(items))
    && InFirstSeenOrder(Names(s), items)
    && (forall i | 0 <= i < |s| :: s[i].value == Round2(SumWhere(items, s[i].name)))
  }

  /** The reduce-then-entries pipeline produces that summary, and before
      rounding the group sums add up to the sum of all values. */
  lemma SummarizeSpec(items: seq<SummaryItem>)
    ensures SummaryOf(Summarize(items), items)
    ensures Total(Group(items)) == Total(items)
  {
    var g, s := Group(items), Summarize(items);
    assert Names(s) == Names(g);
    GroupNames(items);
    GroupFirstSeenOrder(items);
    GroupValues(items);
    GroupTotal(items);
  }
}
