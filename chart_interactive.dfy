/**
 * The interactive stacked chart: one lane per fixed category, one segment
 * per entry stacked from the bottom of its lane, coloured by amount in edit
 * mode and from a five-colour palette in preview mode; dragging a segment
 * onto another lane moves the entry, and clicking the empty band above a
 * lane creates one. Lane positions (`xScale(category)`, `bandwidth()`) and
 * the vertical pixel scale are inputs.
 */
module ChartInteractive {
  import opened Js
  import opened OrderedMap
  import opened Expenses

  /** `FIXED_CATEGORIES`. */
  const FixedCategories: seq<string> := ["超市", "车", "房", "餐饮", "娱乐", "订阅", "其他"]

  /** `FIXED_COLORS`. */
  const FixedColors: seq<string> := ["#EBDFC5", "#E8BC8F", "#DB6A3E", "#81B7C3", "#7788A2"]

  /** `fixedSegmentHeight` in edit mode. */
  const SegmentHeight: real := 25.0

  /** `topEmptySpacePixels`, which is also `minEmptyHeight`. */
  const MinEmptyHeight: real := 30.0

  datatype Mode = Edit | Preview

  /** `hsl(hue, 70%, 50%)`, a palette colour, or the `undefined` a missing palette index reads. */
  datatype Color = Hsl(hue: real) | Hex(code: string) | NoColor

  /** `SegmentData`. */
  datatype Segment = Segment(
    entry: Entry, category: string, y0: real, y1: real, x: real, width: real, color: Color, index: nat)

  /** The band of each fixed category: its left edge, in `FixedCategories` order, and the common width. */
  datatype Lanes = Lanes(x: seq<real>, bandwidth: real)

  predicate LanesOk(lanes: Lanes) {
    |lanes.x| == |FixedCategories|
  }

  // ---------------------------------------------------------------------
  // The entries drawn

  /** `allEntries`: the entries of the first `n` fixed categories, category by category. */
  function FixedEntries(expenses: Ledger, n: nat): (r: seq<Entry>)
    requires n <= |FixedCategories|
  {
    if n == 0 then []
    else FixedEntries(expenses, n - 1) + GetOrEmpty(expenses, FixedCategories[n - 1])
  }

  function AllEntries(expenses: Ledger): seq<Entry> {
    FixedEntries(expenses, |FixedCategories|)
  }

  /** Every entry of a fixed lane is drawn. */
  lemma {:induction false} LaneEntriesDrawn(expenses: Ledger, n: nat, i: nat)
    requires i < n <= |FixedCategories|
    ensures forall e :: e in GetOrEmpty(expenses, FixedCategories[i]) ==> e in FixedEntries(expenses, n)
  {
    if i < n - 1 {
      LaneEntriesDrawn(expenses, n - 1, i);
    }
  }

  /** Only entries of fixed categories are drawn: an entry of any other bucket is not. */
  lemma {:induction false} OnlyFixedDrawn(expenses: Ledger, n: nat, e: Entry)
    requires n <= |FixedCategories|
    ensures e in FixedEntries(expenses, n) ==> exists i :: 0 <= i < n && e in GetOrEmpty(expenses, FixedCategories[i])
  {
    if n > 0 && e in FixedEntries(expenses, n) {
      if e in FixedEntries(expenses, n - 1) {
        OnlyFixedDrawn(expenses, n - 1, e);
        var i :| 0 <= i < n - 1 && e in GetOrEmpty(expenses, FixedCategories[i]);
        assert 0 <= i < n;
      } else {
        assert e in GetOrEmpty(expenses, FixedCategories[n - 1]);
      }
    }
  }

  // ---------------------------------------------------------------------
  // Colours

  /** `Math.min(...allAmounts)`, or 0 for no entries. */
  function MinAmount(es: seq<Entry>): (m: real)
    ensures es == [] ==> m == 0.0
    ensures forall k :: 0 <= k < |es| ==> m <= es[k].amount
    ensures es != [] ==> exists k :: 0 <= k < |es| && m == es[k].amount
  {
    if es == [] then 0.0
    else if |es| == 1 then es[0].amount
    else
      var m := MinAmount(es[..|es| - 1]);
      assert forall k :: 0 <= k < |es| - 1 ==> es[..|es| - 1][k] == es[k];
      if es[|es| - 1].amount < m then es[|es| - 1].amount else m
  }

  /** `Math.max(...allAmounts)`, or 0 for no entries. */
  function MaxAmount(es: seq<Entry>): (m: real)
    ensures es == [] ==> m == 0.0
    ensures forall k :: 0 <= k < |es| ==> es[k].amount <= m
    ensures es != [] ==> exists k :: 0 <= k < |es| && m == es[k].amount
  {
    if es == [] then 0.0
    else if |es| == 1 then es[0].amount
    else
      var m := MaxAmount(es[..|es| - 1]);
      assert forall k :: 0 <= k < |es| - 1 ==> es[..|es| - 1][k] == es[k];
      if es[|es| - 1].amount > m then es[|es| - 1].amount else m
  }

  /** The edit-mode hue: 120 (green) at the smallest amount down to 0 (red) at the largest, 60 when all are equal. */
  function Hue(a: real, lo: real, hi: real): real {
    120.0 * (1.0 - (if hi > lo then (a - lo) / (hi - lo) else 0.5))
  }

  /** An amount within the range gets a hue within [0, 120]; the ends get 120 and 0. */
  lemma {:induction false} HueBounds(a: real, lo: real, hi: real)
    requires lo <= a <= hi
    ensures 0.0 <= Hue(a, lo, hi) <= 120.0
    ensures hi > lo ==> Hue(lo, lo, hi) == 120.0 && Hue(hi, lo, hi) == 0.0
    ensures hi == lo ==> Hue(a, lo, hi) == 60.0
  {
    if hi > lo {
      var d := hi - lo;
      assert (a - lo) / d <= d / d by {
        DivMonotone(a - lo, d, d);
      }
      assert 0.0 <= (a - lo) / d;
    }
  }

  /** A larger amount never gets a greener hue. */
  lemma {:induction false} HueNonIncreasing(a: real, b: real, lo: real, hi: real)
    requires a <= b
    ensures Hue(b, lo, hi) <= Hue(a, lo, hi)
  {
    if hi > lo {
      DivMonotone(a - lo, b - lo, hi - lo);
    }
  }

  lemma {:induction false} DivMonotone(x: real, y: real, d: real)
    requires x <= y && d > 0.0
    ensures x / d <= y / d
  {
    assert y / d - x / d == (y - x) / d;
  }

  /** `allEntries.findIndex((e) => e.entry.id === id)`: the first position with the id, or -1. */
  function IdIndex(es: seq<Entry>, id: string): (r: int)
    ensures -1 <= r < |es|
    ensures r >= 0 ==> es[r].id == id && forall j :: 0 <= j < r ==> es[j].id != id
    ensures r == -1 ==> forall j :: 0 <= j < |es| ==> es[j].id != id
  {
    if es == [] then -1
    else if es[0].id == id then 0
    else
      var r := IdIndex(es[1..], id);
      if r == -1 then -1 else r + 1
  }

  /** `FIXED_COLORS[entryIndex % FIXED_COLORS.length]`; JavaScript's `-1 % 5` is -1, which reads `undefined`. */
  function PaletteColor(all: seq<Entry>, e: Entry): Color {
    var k := IdIndex(all, e.id);
    if k >= 0 then Hex(FixedColors[k % |FixedColors|]) else NoColor
  }

  function SegmentColor(e: Entry, mode: Mode, all: seq<Entry>): Color {
    if mode == Edit then Hsl(Hue(e.amount, MinAmount(all), MaxAmount(all))) else PaletteColor(all, e)
  }

  // ---------------------------------------------------------------------
  // Segments

  /** The height a segment stacks: 25 in edit mode, the amount in preview mode. */
  function Height(e: Entry, mode: Mode): real {
    if mode == Edit then SegmentHeight else e.amount
  }

  /** The running `y0` after stacking `es`. */
  function StackTop(es: seq<Entry>, mode: Mode): real {
    if es == [] then 0.0 else StackTop(es[..|es| - 1], mode) + Height(es[|es| - 1], mode)
  }

  /** The segments of one lane. */
  function LaneSegments(c: string, x: real, width: real, es: seq<Entry>, mode: Mode, all: seq<Entry>): (r: seq<Segment>)
    ensures |r| == |es|
    ensures forall k :: 0 <= k < |es| ==>
      r[k] == Segment(es[k], c, StackTop(es[..k], mode), StackTop(es[..k + 1], mode), x, width, SegmentColor(es[k], mode, all), k)
  {
    seq(|es|, k requires 0 <= k < |es| =>
      Segment(es[k], c, StackTop(es[..k], mode), StackTop(es[..k + 1], mode), x, width, SegmentColor(es[k], mode, all), k))
  }

  /** The segments of the first `n` lanes. */
  function SegmentsUpTo(expenses: Ledger, lanes: Lanes, mode: Mode, n: nat): seq<Segment>
    requires LanesOk(lanes) && n <= |FixedCategories|
  {
    if n == 0 then []
    else
      SegmentsUpTo(expenses, lanes, mode, n - 1) +
      LaneSegments(FixedCategories[n - 1], lanes.x[n - 1], lanes.bandwidth,
        GetOrEmpty(expenses, FixedCategories[n - 1]), mode, AllEntries(expenses))
  }

  function AllSegments(expenses: Ledger, lanes: Lanes, mode: Mode): seq<Segment>
    requires LanesOk(lanes)
  {
    SegmentsUpTo(expenses, lanes, mode, |FixedCategories|)
  }

  /** The `segments` loop: lanes in fixed order, entries in order, `y0 = y1` between segments. */
  method BuildSegments(expenses: Ledger, lanes: Lanes, mode: Mode) returns (segments: seq<Segment>)
    requires LanesOk(lanes)
    ensures segments == AllSegments(expenses, lanes, mode)
  {
    var all := AllEntries(expenses);
    var minAmount := MinAmount(all);
    var maxAmount := MaxAmount(all);
    segments := [];
    for i := 0 to |FixedCategories|
      invariant segments == SegmentsUpTo(expenses, lanes, mode, i)
    {
      var category := FixedCategories[i];
      var lane := BuildLane(category, lanes.x[i], lanes.bandwidth, GetOrEmpty(expenses, category), mode, all, minAmount, maxAmount);
      segments := segments + lane;
    }
  }

  /** The inner loop over one category's entries, stacking each segment on the previous one. */
  method BuildLane(category: string, x: real, width: real, entries: seq<Entry>, mode: Mode, all: seq<Entry>,
                   minAmount: real, maxAmount: real) returns (lane: seq<Segment>)
    requires minAmount == MinAmount(all) && maxAmount == MaxAmount(all)
    ensures lane == LaneSegments(category, x, width, entries, mode, all)
  {
    ghost var spec := LaneSegments(category, x, width, entries, mode, all);
    lane := [];
    var y0 := 0.0;
    for j := 0 to |entries|
      invariant lane == spec[..j]
      invariant y0 == StackTop(entries[..j], mode)
    {
      var entry := entries[j];
      var y1 := if mode == Edit then y0 + SegmentHeight else y0 + entry.amount;
      var color := ColorOf(entry, mode, all, minAmount, maxAmount);
      var segment := Segment(entry, category, y0, y1, x, width, color, j);
      assert segment == spec[j] by {
        LaneSegmentNext(category, x, width, entries, mode, all, j);
      }
      lane := lane + [segment];
      TakeSnoc(spec, j);
      y0 := y1;
    }
    assert spec[..|entries|] == spec;
  }

  lemma TakeSnoc(s: seq<Segment>, j: nat)
    requires j < |s|
    ensures s[..j + 1] == s[..j] + [s[j]]
  {
  }

  /** The colour branch of the loop body, with the extent of `allAmounts` computed once. */
  method ColorOf(entry: Entry, mode: Mode, all: seq<Entry>, minAmount: real, maxAmount: real) returns (color: Color)
    requires minAmount == MinAmount(all) && maxAmount == MaxAmount(all)
    ensures color == SegmentColor(entry, mode, all)
  {
    if mode == Edit {
      var normalized := if maxAmount > minAmount then (entry.amount - minAmount) / (maxAmount - minAmount) else 0.5;
      color := Hsl(120.0 * (1.0 - normalized));
    } else {
      var entryIndex := IdIndex(all, entry.id);
      color := if entryIndex >= 0 then Hex(FixedColors[entryIndex % |FixedColors|]) else NoColor;
    }
  }

  /** Segment `j` of a lane starts at the running top and spans the entry's height. */
  lemma {:induction false} LaneSegmentNext(c: string, x: real, width: real, es: seq<Entry>, mode: Mode, all: seq<Entry>, j: nat)
    requires j < |es|
    ensures LaneSegments(c, x, width, es, mode, all)[j] ==
      Segment(es[j], c, StackTop(es[..j], mode), StackTop(es[..j], mode) + Height(es[j], mode), x, width, SegmentColor(es[j], mode, all), j)
  {
    StackTopStep(es, j, mode);
  }

  /** Stacking one more entry raises the top by its height. */
  lemma {:induction false} StackTopStep(es: seq<Entry>, k: nat, mode: Mode)
    requires k < |es|
    ensures StackTop(es[..k + 1], mode) == StackTop(es[..k], mode) + Height(es[k], mode)
  {
    assert es[..k + 1][..k] == es[..k];
  }

  /**
   * Within a lane the first segment starts at 0, each next one starts where
   * the previous one ends, and each spans its height; every segment covers
   * the whole band.
   */
  lemma {:induction false} LaneStacking(c: string, x: real, width: real, es: seq<Entry>, mode: Mode, all: seq<Entry>)
    ensures var r := LaneSegments(c, x, width, es, mode, all);
      (|r| > 0 ==> r[0].y0 == 0.0) &&
      (forall k :: 0 < k < |r| ==> r[k].y0 == r[k - 1].y1) &&
      (forall k :: 0 <= k < |r| ==> r[k].y1 - r[k].y0 == Height(es[k], mode) && r[k].x == x && r[k].width == width)
  {
    var r := LaneSegments(c, x, width, es, mode, all);
    forall k | 0 <= k < |r|
      ensures r[k].y1 - r[k].y0 == Height(es[k], mode)
    {
      StackTopStep(es, k, mode);
    }
    forall k | 0 < k < |r|
      ensures r[k].y0 == r[k - 1].y1
    {
      assert (k - 1) + 1 == k;
    }
  }

  /** One segment per drawn entry. */
  lemma {:induction false} SegmentsCount(expenses: Ledger, lanes: Lanes, mode: Mode, n: nat)
    requires LanesOk(lanes) && n <= |FixedCategories|
    ensures |SegmentsUpTo(expenses, lanes, mode, n)| == |FixedEntries(expenses, n)|
  {
    if n > 0 {
      SegmentsCount(expenses, lanes, mode, n - 1);
    }
  }

  /** Segment `p` draws drawn entry `p`: the segments follow the fixed category order, then entry order. */
  lemma {:induction false} SegmentAt(expenses: Ledger, lanes: Lanes, mode: Mode, n: nat, p: nat)
    requires LanesOk(lanes) && n <= |FixedCategories| && p < |FixedEntries(expenses, n)|
    ensures |SegmentsUpTo(expenses, lanes, mode, n)| == |FixedEntries(expenses, n)|
    ensures SegmentsUpTo(expenses, lanes, mode, n)[p].entry == FixedEntries(expenses, n)[p]
  {
    SegmentsCount(expenses, lanes, mode, n);
    SegmentsCount(expenses, lanes, mode, n - 1);
    var prev := SegmentsUpTo(expenses, lanes, mode, n - 1);
    var flatPrev := FixedEntries(expenses, n - 1);
    var es := GetOrEmpty(expenses, FixedCategories[n - 1]);
    var lane := LaneSegments(FixedCategories[n - 1], lanes.x[n - 1], lanes.bandwidth, es, mode, AllEntries(expenses));
    ConcatAt(prev, lane, p);
    ConcatAt(flatPrev, es, p);
    if p < |prev| {
      SegmentAt(expenses, lanes, mode, n - 1, p);
    } else {
      LaneEntryAt(FixedCategories[n - 1], lanes.x[n - 1], lanes.bandwidth, es, mode, AllEntries(expenses), p - |prev|);
    }
  }

  lemma ConcatAt<T>(a: seq<T>, b: seq<T>, p: nat)
    requires p < |a| + |b|
    ensures (a + b)[p] == if p < |a| then a[p] else b[p - |a|]
  {
  }

  lemma LaneColorAt(c: string, x: real, width: real, es: seq<Entry>, mode: Mode, all: seq<Entry>, q: nat)
    requires q < |LaneSegments(c, x, width, es, mode, all)|
    ensures LaneSegments(c, x, width, es, mode, all)[q].color == SegmentColor(LaneSegments(c, x, width, es, mode, all)[q].entry, mode, all)
  {
  }

  lemma LaneEntryAt(c: string, x: real, width: real, es: seq<Entry>, mode: Mode, all: seq<Entry>, q: nat)
    requires q < |es|
    ensures LaneSegments(c, x, width, es, mode, all)[q].entry == es[q]
  {
  }

  /** Every segment carries the colour of its entry. */
  lemma {:induction false} SegmentColorAt(expenses: Ledger, lanes: Lanes, mode: Mode, n: nat, p: nat)
    requires LanesOk(lanes) && n <= |FixedCategories| && p < |SegmentsUpTo(expenses, lanes, mode, n)|
    ensures SegmentsUpTo(expenses, lanes, mode, n)[p].color ==
      SegmentColor(SegmentsUpTo(expenses, lanes, mode, n)[p].entry, mode, AllEntries(expenses))
  {
    var prev := SegmentsUpTo(expenses, lanes, mode, n - 1);
    var es := GetOrEmpty(expenses, FixedCategories[n - 1]);
    var lane := LaneSegments(FixedCategories[n - 1], lanes.x[n - 1], lanes.bandwidth, es, mode, AllEntries(expenses));
    SegmentsCount(expenses, lanes, mode, n - 1);
    assert SegmentsUpTo(expenses, lanes, mode, n) == prev + lane;
    ConcatAt(prev, lane, p);
    if p < |prev| {
      SegmentColorAt(expenses, lanes, mode, n - 1, p);
    } else {
      LaneColorAt(FixedCategories[n - 1], lanes.x[n - 1], lanes.bandwidth, es, mode, AllEntries(expenses), p - |prev|);
    }
  }

  /** In edit mode every segment's hue lies in [0, 120]. */
  lemma {:induction false} EditHuesInRange(expenses: Ledger, lanes: Lanes, p: nat)
    requires LanesOk(lanes) && p < |AllSegments(expenses, lanes, Edit)|
    ensures AllSegments(expenses, lanes, Edit)[p].color.Hsl?
    ensures 0.0 <= AllSegments(expenses, lanes, Edit)[p].color.hue <= 120.0
  {
    var all := AllEntries(expenses);
    SegmentsCount(expenses, lanes, Edit, |FixedCategories|);
    SegmentAt(expenses, lanes, Edit, |FixedCategories|, p);
    SegmentColorAt(expenses, lanes, Edit, |FixedCategories|, p);
    HueBounds(all[p].amount, MinAmount(all), MaxAmount(all));
  }

  /** In preview mode, with distinct ids, segment `p` takes palette colour `p mod 5`. */
  lemma {:induction false} PreviewPaletteCycles(expenses: Ledger, lanes: Lanes, p: nat)
    requires LanesOk(lanes) && p < |AllSegments(expenses, lanes, Preview)|
    requires forall i, j :: 0 <= i < j < |AllEntries(expenses)| ==> AllEntries(expenses)[i].id != AllEntries(expenses)[j].id
    ensures AllSegments(expenses, lanes, Preview)[p].color == Hex(FixedColors[p % 5])
  {
    var all := AllEntries(expenses);
    SegmentsCount(expenses, lanes, Preview, |FixedCategories|);
    SegmentAt(expenses, lanes, Preview, |FixedCategories|, p);
    SegmentColorAt(expenses, lanes, Preview, |FixedCategories|, p);
    var k := IdIndex(all, all[p].id);
    assert k == p;
  }

  // ---------------------------------------------------------------------
  // Lane hit-test

  /** `gx` lies in the closed band `[x, x + bandwidth]` of lane `i`. */
  predicate InBand(lanes: Lanes, i: nat, gx: real)
    requires LanesOk(lanes) && i < |FixedCategories|
  {
    lanes.x[i] <= gx <= lanes.x[i] + lanes.bandwidth
  }

  /** The first lane, from `i` on, whose band holds `gx`. */
  function LaneFrom(lanes: Lanes, gx: real, i: nat): (r: Option<nat>)
    requires LanesOk(lanes) && i <= |FixedCategories|
    ensures r.Some? ==> i <= r.value < |FixedCategories| && InBand(lanes, r.value, gx)
    ensures r.Some? ==> forall j :: i <= j < r.value ==> !InBand(lanes, j, gx)
    ensures r.None? ==> forall j :: i <= j < |FixedCategories| ==> !InBand(lanes, j, gx)
    decreases |FixedCategories| - i
  {
    if i == |FixedCategories| then None
    else if InBand(lanes, i, gx) then Some(i)
    else LaneFrom(lanes, gx, i + 1)
  }

  /** `FIXED_CATEGORIES.find(...)`: the category of the first band holding `gx`. */
  function TargetCategory(lanes: Lanes, gx: real): (r: Option<string>)
    requires LanesOk(lanes)
    ensures r.Some? ==> r.value in FixedCategories
  {
    var i := LaneFrom(lanes, gx, 0);
    if i.Some? then Some(FixedCategories[i.value]) else None
  }

  // ---------------------------------------------------------------------
  // Drag and drop

  /** The drag handlers' state: the segment being dragged and the highlighted target lane. */
  class DragController {
    const mode: Mode
    const lanes: Lanes
    /** Whether an `onMoveEntry` callback was given. */
    const canMove: bool
    var dragged: Option<Segment>
    var hovered: Option<string>
    var start: (real, real)
    var offset: (real, real)
    var mouse: (real, real)

    ghost predicate Valid()
      reads this
    {
      LanesOk(lanes) &&
      (mode != Edit ==> dragged.None? && hovered.None?) &&
      (hovered.Some? ==> dragged.Some? && hovered.value in FixedCategories)
    }

    constructor (mode: Mode, lanes: Lanes, canMove: bool)
      requires LanesOk(lanes)
      ensures Valid() && this.mode == mode && this.lanes == lanes && this.canMove == canMove
      ensures dragged.None? && hovered.None?
    {
      this.mode := mode;
      this.lanes := lanes;
      this.canMove := canMove;
      dragged := None;
      hovered := None;
      start := (0.0, 0.0);
      offset := (0.0, 0.0);
      mouse := (0.0, 0.0);
    }

    /** `start`: only edit mode attaches the drag handlers. */
    method Start(d: Segment, gx: real, gy: real)
      requires Valid()
      modifies this
      ensures Valid() && hovered == old(hovered) && offset == old(offset) && mouse == old(mouse)
      ensures mode == Edit ==> dragged == Some(d) && start == (gx, gy)
      ensures mode != Edit ==> dragged == old(dragged) && start == old(start)
    {
      if mode != Edit {
        return;
      }
      dragged := Some(d);
      start := (gx, gy);
    }

    /** `drag`: track the mouse and highlight a lane other than the segment's own. */
    method Drag(d: Segment, gx: real, gy: real)
      requires Valid()
      modifies this
      ensures Valid() && dragged == old(dragged) && start == old(start)
      ensures mode != Edit || dragged.None? ==> hovered == old(hovered) && offset == old(offset) && mouse == old(mouse)
      ensures mode == Edit && dragged.Some? ==>
        offset == (gx - start.0, gy - start.1) && mouse == (gx, gy) &&
        var target := TargetCategory(lanes, gx);
        hovered == if target.Some? && target.value != d.category then target else None
    {
      if mode != Edit || dragged.None? {
        return;
      }
      offset := (gx - start.0, gy - start.1);
      mouse := (gx, gy);
      var targetCategory := TargetCategory(lanes, gx);
      if targetCategory.Some? && targetCategory.value != d.category {
        if hovered != targetCategory {
          hovered := targetCategory;
        }
      } else {
        if hovered.Some? {
          hovered := None;
        }
      }
    }

    /**
     * `end`: the entry moves exactly when the mouse is over a lane other
     * than the segment's own and a move callback exists; the drag state is
     * always reset.
     */
    method End(d: Segment, gx: real) returns (move: Option<(string, string)>)
      requires Valid()
      modifies this
      ensures Valid() && start == old(start)
      ensures mode != Edit ==>
        move.None? && dragged == old(dragged) && hovered == old(hovered) && offset == old(offset) && mouse == old(mouse)
      ensures mode == Edit ==>
        dragged.None? && hovered.None? && offset == (0.0, 0.0) && mouse == (0.0, 0.0) &&
        var target := TargetCategory(lanes, gx);
        (move.Some? <==> target.Some? && target.value != d.category && canMove) &&
        (move.Some? ==> move.value == (d.entry.id, target.value))
    {
      move := None;
      if mode != Edit {
        return;
      }
      var targetCategory := TargetCategory(lanes, gx);
      if targetCategory.Some? && targetCategory.value != d.category && canMove {
        move := Some((d.entry.id, targetCategory.value));
      }
      dragged := None;
      hovered := None;
      offset := (0.0, 0.0);
      mouse := (0.0, 0.0);
    }
  }

  // ---------------------------------------------------------------------
  // Click to create

  /** The clickable empty area above a lane's segments, in pixels from the top. */
  datatype Area = Area(category: string, top: real, bottom: real)

  function Min(a: real, b: real): real { if a <= b then a else b }
  function Max(a: real, b: real): real { if a >= b then a else b }

  /** A segment's upper pixel edge under the vertical scale `ys`. */
  function Top(s: Segment, ys: real -> real): real {
    Min(ys(s.y0), ys(s.y1))
  }

  /** `segments.filter((s) => s.category === c)`. */
  function OfLane(segs: seq<Segment>, c: string): (r: seq<Segment>)
    ensures forall s :: s in r <==> s in segs && s.category == c
  {
    if segs == [] then []
    else
      var prev := OfLane(segs[..|segs| - 1], c);
      assert segs == segs[..|segs| - 1] + [segs[|segs| - 1]];
      if segs[|segs| - 1].category == c then prev + [segs[|segs| - 1]] else prev
  }

  /** The `reduce` that picks the topmost segment: the first one with the smallest top. */
  function Topmost(segs: seq<Segment>, ys: real -> real): (r: Segment)
    requires segs != []
    ensures r in segs
    ensures forall s :: s in segs ==> Top(r, ys) <= Top(s, ys)
  {
    if |segs| == 1 then segs[0]
    else
      var m := Topmost(segs[..|segs| - 1], ys);
      assert segs == segs[..|segs| - 1] + [segs[|segs| - 1]];
      if Top(segs[|segs| - 1], ys) < Top(m, ys) then segs[|segs| - 1] else m
  }

  /** One entry of `categoryEmptyAreas`. */
  function EmptyArea(c: string, segs: seq<Segment>, ys: real -> real): Area {
    var own := OfLane(segs, c);
    var bottom := if own != [] then Top(Topmost(own, ys), ys) else MinEmptyHeight;
    var bottom' := if bottom - 0.0 < MinEmptyHeight then 0.0 + MinEmptyHeight else bottom;
    Area(c, 0.0, bottom')
  }

  /**
   * The empty area spans from 0 down to the top of the lane's topmost
   * segment, or to 30 for an empty lane, and is never less than 30 high.
   */
  lemma {:induction false} EmptyAreaSpan(c: string, segs: seq<Segment>, ys: real -> real)
    ensures var a := EmptyArea(c, segs, ys);
      a.category == c && a.top == 0.0 && a.bottom - a.top >= MinEmptyHeight &&
      (OfLane(segs, c) == [] ==> a.bottom == MinEmptyHeight) &&
      (OfLane(segs, c) != [] ==>
        (forall s :: s in segs && s.category == c ==> a.bottom == MinEmptyHeight || a.bottom <= Top(s, ys)) &&
        (exists s :: s in segs && s.category == c && a.bottom == Max(MinEmptyHeight, Top(s, ys))))
  {
    var own := OfLane(segs, c);
    if own != [] {
      var t := Topmost(own, ys);
      assert t in segs && t.category == c;
    }
  }

  /** `(gx, gy)` lies on segment `s` (closed rectangle). */
  predicate OnSegment(s: Segment, gx: real, gy: real, ys: real -> real) {
    s.x <= gx <= s.x + s.width && Min(ys(s.y0), ys(s.y1)) <= gy <= Max(ys(s.y0), ys(s.y1))
  }

  /** Some segment of lane `c` lies under the click. */
  predicate HitsLaneSegment(segs: seq<Segment>, c: string, gx: real, gy: real, ys: real -> real) {
    exists k :: 0 <= k < |segs| && segs[k].category == c && OnSegment(segs[k], gx, gy, ys)
  }

  /** The `segments.forEach` that sets `clickedOnSegment`. */
  method ClickedOnSegment(segs: seq<Segment>, c: string, gx: real, gy: real, ys: real -> real) returns (hit: bool)
    ensures hit <==> HitsLaneSegment(segs, c, gx, gy, ys)
  {
    hit := false;
    var k := 0;
    while k < |segs|
      invariant 0 <= k <= |segs|
      invariant hit <==> exists q :: 0 <= q < k && segs[q].category == c && OnSegment(segs[q], gx, gy, ys)
    {
      var segment := segs[k];
      if segment.category == c {
        var segmentX := segment.x;
        var segmentXEnd := segmentX + segment.width;
        var segmentY0 := ys(segment.y0);
        var segmentY1 := ys(segment.y1);
        var segmentYTop := Min(segmentY0, segmentY1);
        var segmentYBottom := Max(segmentY0, segmentY1);
        if gx >= segmentX && gx <= segmentXEnd && gy >= segmentYTop && gy <= segmentYBottom {
          hit := true;
        }
      }
      k := k + 1;
    }
  }

  /**
   * The empty area's `click`: it exists only in edit mode with a create
   * callback, and creates an entry of its lane exactly when the click is in
   * the lane's band, inside the area and on no segment of that lane.
   */
  method HandleAreaClick(mode: Mode, canCreate: bool, lanes: Lanes, i: nat, a: Area,
                         segs: seq<Segment>, gx: real, gy: real, ys: real -> real) returns (create: Option<string>)
    requires LanesOk(lanes) && i < |FixedCategories| && a.category == FixedCategories[i]
    ensures create.Some? <==>
      mode == Edit && canCreate && InBand(lanes, i, gx) && a.top <= gy <= a.bottom &&
      !HitsLaneSegment(segs, a.category, gx, gy, ys)
    ensures create.Some? ==> create.value == FixedCategories[i]
  {
    if mode != Edit || !canCreate {
      return None;
    }
    var categoryX := lanes.x[i];
    var categoryXEnd := categoryX + lanes.bandwidth;
    if gx < categoryX || gx > categoryXEnd {
      return None;
    }
    if gy < a.top || gy > a.bottom {
      return None;
    }
    var clickedOnSegment := ClickedOnSegment(segs, a.category, gx, gy, ys);
    if !clickedOnSegment {
      return Some(a.category);
    }
    return None;
  }
}
