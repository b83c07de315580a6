/**
 * The stacked bar chart of a ledger (`ExpenseChart`): one bar series per
 * entry, keyed `${category}_${idx}`, one data row per category, the bar
 * and legend colours, the rounded ends of the stack and the legend labels.
 */
module ExpenseChart {
  import opened Js
  import opened OrderedMap
  import opened Expenses
  import ExpenseUtils

  /** `COLORS`. */
  const Colors: seq<string> := [
    "#3b82f6", "#10b981", "#f59e0b", "#ef4444", "#8b5cf6",
    "#ec4899", "#06b6d4", "#f97316", "#6366f1", "#14b8a6"]

  // ---------------------------------------------------------------------
  // chartData

  /** One element of `chartData`. */
  datatype Summary = Summary(category: string, total: real)

  /** `chartData`: one summary per category, in key order, with the bucket's amount sum. */
  function ChartData(l: Ledger): (r: seq<Summary>)
    ensures |r| == |l|
    ensures forall i :: 0 <= i < |l| ==> r[i].category == l[i].key && r[i].total == Total(l[i].items)
  {
    seq(|l|, i requires 0 <= i < |l| => Summary(l[i].key, Total(l[i].items)))
  }

  function SumTotals(rows: seq<Summary>): real {
    if rows == [] then 0.0 else SumTotals(rows[..|rows| - 1]) + rows[|rows| - 1].total
  }

  lemma {:induction false} TotalAppend(a: seq<Entry>, b: seq<Entry>)
    ensures Total(a + b) == Total(a) + Total(b)
  {
    if b == [] {
      assert a + b == a;
    } else {
      var b' := b[..|b| - 1];
      assert (a + b)[..|a + b| - 1] == a + b';
      assert (a + b)[|a + b| - 1] == b[|b| - 1];
      TotalAppend(a, b');
    }
  }

  /** Relabelling entries keeps their amounts. */
  lemma {:induction false} TotalRelabel(es: seq<Entry>, c: string)
    ensures Total(ExpenseUtils.Relabel(es, c)) == Total(es)
  {
    if es != [] {
      var init := es[..|es| - 1];
      assert ExpenseUtils.Relabel(es, c)[..|es| - 1] == ExpenseUtils.Relabel(init, c);
      TotalRelabel(init, c);
    }
  }

  /** The category totals add up to the amount sum of the whole flat entry list. */
  lemma {:induction false} ChartTotalsSum(l: Ledger)
    ensures SumTotals(ChartData(l)) == Total(ExpenseUtils.FlatEntries(l))
  {
    if l != [] {
      var init := l[..|l| - 1];
      var last := l[|l| - 1];
      assert ChartData(l)[..|l| - 1] == ChartData(init);
      ChartTotalsSum(init);
      TotalAppend(ExpenseUtils.FlatEntries(init), ExpenseUtils.Relabel(last.items, last.key));
      TotalRelabel(last.items, last.key);
    }
  }

  // ---------------------------------------------------------------------
  // stackKeys

  /** `${category}_${idx}`. */
  function StackKey(category: string, idx: nat): string {
    category + "_" + NatToString(idx)
  }

  /**
   * The digits after the last `_` give the index back, and what precedes
   * that `_` the category: different entries never share a key.
   */
  lemma {:induction false} StackKeyInjective(c1: string, i1: nat, c2: string, i2: nat)
    requires StackKey(c1, i1) == StackKey(c2, i2)
    ensures c1 == c2 && i1 == i2
  {
    var s := StackKey(c1, i1);
    var d1, d2 := NatToString(i1), NatToString(i2);
    StackKeyShape(c1, i1);
    StackKeyShape(c2, i2);
    assert |c1| == |c2|;
    assert d1 == s[|c1| + 1..] == d2;
    NatToStringInjective(i1, i2);
    assert c1 == s[..|c1|] == c2;
  }

  /** The category, then `_`, then nothing but digits. */
  lemma {:induction false} StackKeyShape(category: string, idx: nat)
    ensures var s := StackKey(category, idx);
      |category| < |s| && s[|category|] == '_' && s[..|category|] == category &&
      s[|category| + 1..] == NatToString(idx) &&
      forall k :: |category| < k < |s| ==> IsDigit(s[k])
  {
    var s := StackKey(category, idx);
    var d := NatToString(idx);
    assert forall k :: |category| < k < |s| ==> s[k] == d[k - |category| - 1];
  }

  /** A stack key always contains `_`, so it never overwrites a row's `name` field. */
  lemma {:induction false} StackKeyIsNotName(category: string, idx: nat)
    ensures StackKey(category, idx) != "name"
  {
    var s := StackKey(category, idx);
    assert s[|category|] == '_';
    assert forall k :: 0 <= k < |"name"| ==> "name"[k] != '_';
  }

  /** The keys of one category's entries. */
  function BucketKeys(b: Bucket<Entry>): (r: seq<string>)
    ensures |r| == |b.items|
    ensures forall j :: 0 <= j < |b.items| ==> r[j] == StackKey(b.key, j)
  {
    seq(|b.items|, j requires 0 <= j < |b.items| => StackKey(b.key, j))
  }

  /** `stackKeys`: the keys of all entries, in category order and then index order. */
  function StackKeys(l: Ledger): (r: seq<string>)
    ensures |r| == EntryCount(l)
  {
    if l == [] then [] else StackKeys(l[..|l| - 1]) + BucketKeys(l[|l| - 1])
  }

  /** Entry `j` of bucket `i` has key `${key}_${j}` at its flat-list position. */
  lemma {:induction false} StackKeysAt(l: Ledger, i: nat, j: nat)
    requires i < |l| && j < |l[i].items|
    ensures EntryCount(l[..i]) + j < |StackKeys(l)|
    ensures StackKeys(l)[EntryCount(l[..i]) + j] == StackKey(l[i].key, j)
  {
    var init := l[..|l| - 1];
    if i == |l| - 1 {
      assert l[..i] == init;
    } else {
      assert l[..i] == init[..i];
      StackKeysAt(init, i, j);
    }
  }

  /** Every key of `StackKeys(l)` belongs to a category of `l`. */
  lemma {:induction false} StackKeysFrom(l: Ledger, p: nat)
    requires p < |StackKeys(l)|
    ensures exists i, j :: 0 <= i < |l| && 0 <= j && StackKeys(l)[p] == StackKey(l[i].key, j)
  {
    var init := l[..|l| - 1];
    if p < |StackKeys(init)| {
      StackKeysFrom(init, p);
      var i, j :| 0 <= i < |init| && 0 <= j && StackKeys(init)[p] == StackKey(init[i].key, j);
      assert StackKeys(l)[p] == StackKey(l[i].key, j);
    } else {
      var j := p - |StackKeys(init)|;
      assert StackKeys(l)[p] == StackKey(l[|l| - 1].key, j);
    }
  }

  /** With distinct category names, every entry gets a key of its own. */
  lemma {:induction false} StackKeysDistinct(l: Ledger)
    requires UniqueKeys(l)
    ensures forall p, q :: 0 <= p < q < |StackKeys(l)| ==> StackKeys(l)[p] != StackKeys(l)[q]
  {
    if l != [] {
      var init := l[..|l| - 1];
      var last := l[|l| - 1];
      StackKeysDistinct(init);
      var a, b := StackKeys(init), BucketKeys(last);
      forall p, q | 0 <= p < q < |a + b|
        ensures (a + b)[p] != (a + b)[q]
      {
        if q >= |a| {
          var j := q - |a|;
          if p >= |a| {
            if b[p - |a|] == b[j] {
              StackKeyInjective(last.key, p - |a|, last.key, j);
            }
          } else {
            StackKeysFrom(init, p);
            var i, k :| 0 <= i < |init| && 0 <= k && a[p] == StackKey(init[i].key, k);
            if a[p] == b[j] {
              StackKeyInjective(init[i].key, k, last.key, j);
            }
          }
        }
      }
    }
  }

  /** Keys of the first `j` entries of `b`, appended to `keys`. */
  method PushBucketKeys(keys: seq<string>, b: Bucket<Entry>) returns (r: seq<string>)
    ensures r == keys + BucketKeys(b)
  {
    r := keys;
    for j := 0 to |b.items|
      invariant r == keys + BucketKeys(b)[..j]
    {
      r := r + [StackKey(b.key, j)];
    }
  }

  /** The `forEach` pushes that build `stackKeys`. */
  method BuildStackKeys(expenses: Ledger) returns (stackKeys: seq<string>)
    ensures stackKeys == StackKeys(expenses)
  {
    stackKeys := [];
    for i := 0 to |expenses|
      invariant stackKeys == StackKeys(expenses[..i])
    {
      assert expenses[..i + 1][..i] == expenses[..i];
      stackKeys := PushBucketKeys(stackKeys, expenses[i]);
    }
    assert expenses[..|expenses|] == expenses;
  }

  // ---------------------------------------------------------------------
  // dataWithStacks

  /** A row of `dataWithStacks`: `name` and one numeric field per stack key. */
  datatype StackRow = StackRow(name: string, values: map<string, real>)

  /** The numeric fields of a category's row. */
  function RowValues(category: string, es: seq<Entry>): (r: map<string, real>)
  {
    if es == [] then map[]
    else RowValues(category, es[..|es| - 1])[StackKey(category, |es| - 1) := es[|es| - 1].amount]
  }

  /** A category's row maps exactly its entries' keys, each to that entry's amount. */
  lemma {:induction false} RowValuesAt(category: string, es: seq<Entry>)
    ensures forall j :: 0 <= j < |es| ==>
      StackKey(category, j) in RowValues(category, es) && RowValues(category, es)[StackKey(category, j)] == es[j].amount
    ensures forall key :: key in RowValues(category, es) ==>
      exists j :: 0 <= j < |es| && key == StackKey(category, j)
  {
    if es != [] {
      var init := es[..|es| - 1];
      var n := |es| - 1;
      RowValuesAt(category, init);
      forall j | 0 <= j < n
        ensures StackKey(category, j) != StackKey(category, n)
      {
        if StackKey(category, j) == StackKey(category, n) {
          StackKeyInjective(category, j, category, n);
        }
      }
    }
  }

  function StackRows(l: Ledger): (r: seq<StackRow>)
    ensures |r| == |l|
    ensures forall i :: 0 <= i < |l| ==> r[i].name == l[i].key
  {
    seq(|l|, i requires 0 <= i < |l| => StackRow(l[i].key, RowValues(l[i].key, l[i].items)))
  }

  /** `categoryData`: the row of one category, filled field by field. */
  method BuildRow(b: Bucket<Entry>) returns (row: StackRow)
    ensures row == StackRow(b.key, RowValues(b.key, b.items))
  {
    var values := map[];
    for j := 0 to |b.items|
      invariant values == RowValues(b.key, b.items[..j])
    {
      assert b.items[..j + 1][..j] == b.items[..j];
      values := values[StackKey(b.key, j) := b.items[j].amount];
    }
    assert b.items[..|b.items|] == b.items;
    row := StackRow(b.key, values);
  }

  /** The `forEach` that builds `dataWithStacks`, one row per category including empty ones. */
  method BuildDataWithStacks(expenses: Ledger) returns (dataWithStacks: seq<StackRow>)
    ensures dataWithStacks == StackRows(expenses)
  {
    dataWithStacks := [];
    for i := 0 to |expenses|
      invariant dataWithStacks == StackRows(expenses)[..i]
    {
      var row := BuildRow(expenses[i]);
      dataWithStacks := dataWithStacks + [row];
    }
  }

  /** Each row holds exactly the keys of its category's entries, each mapped to its amount. */
  lemma {:induction false} StackRowsContent(l: Ledger, i: nat)
    requires i < |l|
    ensures forall j :: 0 <= j < |l[i].items| ==>
      StackKey(l[i].key, j) in StackRows(l)[i].values &&
      StackRows(l)[i].values[StackKey(l[i].key, j)] == l[i].items[j].amount
    ensures forall key :: key in StackRows(l)[i].values ==>
      exists j :: 0 <= j < |l[i].items| && key == StackKey(l[i].key, j)
  {
    RowValuesAt(l[i].key, l[i].items);
  }

  // ---------------------------------------------------------------------
  // Colours, rounding and labels

  /** `COLORS[idx % COLORS.length]` for bar `idx`. */
  function BarColor(idx: nat): (c: string)
    ensures c in Colors
  {
    Colors[idx % |Colors|]
  }

  /** Bars ten apart share a colour. */
  lemma {:induction false} BarColorCycles(idx: nat)
    ensures BarColor(idx + |Colors|) == BarColor(idx)
  {
    assert (idx + 10) % 10 == idx % 10;
  }

  /** The legend items of one category: its name with each entry index. */
  function BucketSlots(b: Bucket<Entry>): (r: seq<(string, nat)>)
    ensures |r| == |b.items|
    ensures forall j :: 0 <= j < |b.items| ==> r[j] == (b.key, j)
  {
    seq(|b.items|, j requires 0 <= j < |b.items| => (b.key, j))
  }

  /** The `{ c, ci, ei }` items of the legend's `flatMap`, without the unused `ci`. */
  function Slots(l: Ledger): (r: seq<(string, nat)>)
    ensures |r| == EntryCount(l)
    ensures forall p :: 0 <= p < |r| ==> r[p].0 in Keys(l)
  {
    if l == [] then [] else Slots(l[..|l| - 1]) + BucketSlots(l[|l| - 1])
  }

  /** `findIndex`: the first position holding `x`, or -1. */
  function FindIndex<T(==)>(s: seq<T>, x: T): (r: int)
    ensures -1 <= r < |s|
    ensures r == -1 <==> x !in s
    ensures r >= 0 ==> s[r] == x && x !in s[..r]
  {
    if s == [] then -1
    else
      var prev := FindIndex(s[..|s| - 1], x);
      if prev >= 0 then prev
      else if s[|s| - 1] == x then |s| - 1
      else -1
  }

  lemma {:induction false} FindIndexAppend<T>(a: seq<T>, b: seq<T>, x: T)
    ensures FindIndex(a + b, x) == if x in a then FindIndex(a, x) else if x in b then |a| + FindIndex(b, x) else -1
  {
    if b == [] {
      assert a + b == a;
    } else {
      var b' := b[..|b| - 1];
      assert (a + b)[..|a + b| - 1] == a + b';
      assert (a + b)[|a + b| - 1] == b[|b| - 1];
      assert b == b' + [b[|b| - 1]];
      FindIndexAppend(a, b', x);
    }
  }

  /** The legend's index for entry `idx` of `category`. */
  function LegendIndex(l: Ledger, category: string, idx: nat): int {
    FindIndex(Slots(l), (category, idx))
  }

  /** The legend finds entry `j` of bucket `i` at that entry's flat-list position. */
  lemma {:induction false} LegendIndexAt(l: Ledger, i: nat, j: nat)
    requires UniqueKeys(l) && i < |l| && j < |l[i].items|
    ensures LegendIndex(l, l[i].key, j) == EntryCount(l[..i]) + j
  {
    var init := l[..|l| - 1];
    var tail := BucketSlots(l[|l| - 1]);
    var x := (l[i].key, j);
    FindIndexAppend(Slots(init), tail, x);
    if i == |l| - 1 {
      assert l[..i] == init;
      assert tail[j] == x;
      assert x !in tail[..j];
    } else {
      assert l[..i] == init[..i];
      LegendIndexAt(init, i, j);
    }
  }

  /**
   * The legend dot's colour. A pair the legend does not find gives index -1,
   * and `COLORS[-1 % 10]` is undefined in JavaScript.
   */
  function LegendColor(l: Ledger, category: string, idx: nat): (r: Option<string>)
    ensures r.Some? <==> (category, idx) in Slots(l)
  {
    var k := LegendIndex(l, category, idx);
    if k >= 0 then Some(Colors[k % |Colors|]) else None
  }

  /**
   * The legend dot of entry `j` of bucket `i` has the colour of the bar
   * drawn for that entry's stack key.
   */
  lemma {:induction false} LegendMatchesBar(l: Ledger, i: nat, j: nat)
    requires UniqueKeys(l) && i < |l| && j < |l[i].items|
    ensures var p := EntryCount(l[..i]) + j;
      p < |StackKeys(l)| && StackKeys(l)[p] == StackKey(l[i].key, j) &&
      LegendColor(l, l[i].key, j) == Some(BarColor(p))
  {
    LegendIndexAt(l, i, j);
    StackKeysAt(l, i, j);
  }

  /** The corner rounding a bar gets: the first bar on top, the last one on the bottom. */
  datatype Radius = TopRounded | BottomRounded | Square

  function BarRadius(idx: nat, count: nat): (r: Radius)
    ensures r == TopRounded <==> idx == 0
    ensures r == BottomRounded <==> idx != 0 && idx == count - 1
  {
    if idx == 0 then TopRounded else if idx == count - 1 then BottomRounded else Square
  }

  /** `entry.description || `${category} #${idx + 1}``: an empty description also falls back. */
  function Label(category: string, idx: nat, e: Entry): (r: string)
    ensures e.description.Some? && e.description.value != "" ==> r == e.description.value
    ensures e.description.None? || e.description.value == "" ==> r == category + " #" + NatToString(idx + 1)
  {
    match e.description
    case Some(d) => if d != "" then d else category + " #" + NatToString(idx + 1)
    case None => category + " #" + NatToString(idx + 1)
  }

  /** Entries of one category that fall back to the generated label get different labels. */
  lemma {:induction false} FallbackLabelsDiffer(category: string, i: nat, j: nat, a: Entry, b: Entry)
    requires i != j
    requires a.description.None? || a.description.value == ""
    requires b.description.None? || b.description.value == ""
    ensures Label(category, i, a) != Label(category, j, b)
  {
    var prefix := category + " #";
    if Label(category, i, a) == Label(category, j, b) {
      assert NatToString(i + 1) == Label(category, i, a)[|prefix|..];
      assert NatToString(j + 1) == Label(category, j, b)[|prefix|..];
      NatToStringInjective(i + 1, j + 1);
    }
  }
}
