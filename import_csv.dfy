/**
 * The CSV import dialog: a naive comma splitter (no quoting), the column
 * preselection made when a file is read, and the import that groups the
 * accepted rows by their category cell.
 */
module ImportCsv {
  import opened Js
  import opened OrderedMap
  import ExpenseUtils

  /** `{ amount, description? }`, one imported row. */
  datatype Item = Item(amount: real, description: Option<string>)

  /** The header cells and the body rows, each a sequence of trimmed cells. */
  datatype Csv = Csv(headers: seq<string>, rows: seq<seq<string>>)

  /** `.filter(Boolean)` on strings: only the exactly empty ones go. */
  function NonEmpty(lines: seq<string>): (r: seq<string>)
    ensures |r| <= |lines|
    ensures forall i :: 0 <= i < |r| ==> r[i] in lines && r[i] != ""
    ensures forall l :: l in lines && l != "" ==> l in r
  {
    if lines == [] then []
    else
      var prev := NonEmpty(lines[..|lines| - 1]);
      assert forall x :: x in prev ==> x in lines[..|lines| - 1];
      assert forall l :: l in lines ==> l in lines[..|lines| - 1] || l == lines[|lines| - 1];
      if lines[|lines| - 1] != "" then prev + [lines[|lines| - 1]] else prev
  }

  /** The filter works line by line, so the kept lines keep their file order. */
  lemma {:induction false} NonEmptyAppend(a: seq<string>, b: seq<string>)
    ensures NonEmpty(a + b) == NonEmpty(a) + NonEmpty(b)
  {
    if b == [] {
      assert a + b == a;
    } else {
      var init := b[..|b| - 1];
      assert (a + b)[..|a + b| - 1] == a + init;
      assert (a + b)[|a + b| - 1] == b[|b| - 1];
      NonEmptyAppend(a, init);
    }
  }

  /** A line of spaces is not empty, so it survives between other lines. */
  lemma {:induction false} WhitespaceLineKept(a: seq<string>, b: seq<string>)
    ensures NonEmpty(a + [" "] + b) == NonEmpty(a) + [" "] + NonEmpty(b)
  {
    NonEmptyAppend(a + [" "], b);
    NonEmptyAppend(a, [" "]);
    assert [" "][..0] == [];
  }

  /** The lines `parseCsv` keeps. */
  function Lines(raw: string): seq<string> {
    NonEmpty(Split(NormalizeNewlines(raw), '\n'))
  }

  /** `.map((s) => s.trim())`. */
  function TrimAll(pieces: seq<string>): (r: seq<string>)
    ensures |r| == |pieces|
  {
    if pieces == [] then [] else [Trim(pieces[0])] + TrimAll(pieces[1..])
  }

  /** `ln.split(",").map((s) => s.trim())`. */
  function Cells(line: string): (r: seq<string>)
    ensures |r| >= 1
  {
    TrimAll(Split(line, ','))
  }

  /** `lines.map(...)` over the body lines. */
  function CellsOfLines(lines: seq<string>): (r: seq<seq<string>>)
    ensures |r| == |lines|
  {
    if lines == [] then [] else [Cells(lines[0])] + CellsOfLines(lines[1..])
  }

  /** `parseCsv`: the first kept line is the header, the others are rows. */
  function ParseCsv(raw: string): (r: Csv)
    ensures r.headers == [] <==> Lines(raw) == []
    ensures |r.rows| == if Lines(raw) == [] then 0 else |Lines(raw)| - 1
  {
    var lines := Lines(raw);
    if |lines| == 0 then Csv([], []) else Csv(Cells(lines[0]), CellsOfLines(lines[1..]))
  }

  lemma {:induction false} TrimAllAt(pieces: seq<string>, j: nat)
    requires j < |pieces|
    ensures TrimAll(pieces)[j] == Trim(pieces[j])
  {
    if j > 0 {
      TrimAllAt(pieces[1..], j - 1);
    }
  }

  /** Every cell `parseCsv` returns is already trimmed. */
  lemma {:induction false} CellsTrimmed(line: string, j: nat)
    requires j < |Cells(line)|
    ensures Trim(Cells(line)[j]) == Cells(line)[j]
  {
    TrimAllAt(Split(line, ','), j);
    TrimIdempotent(Split(line, ',')[j]);
  }

  // ---------------------------------------------------------------------
  // Round trip

  /** Neither starts nor ends with whitespace. */
  predicate Trimmed(s: string) {
    s == [] || (!IsWhitespace(s[0]) && !IsWhitespace(s[|s| - 1]))
  }

  /** A cell that writes out and reads back as itself. */
  predicate PlainCell(s: string) {
    Trimmed(s) && ',' !in s && '\n' !in s && '\r' !in s
  }

  /** A table whose cells are plain and whose lines are not empty. */
  predicate PlainTable(t: seq<seq<string>>) {
    |t| >= 1 &&
    (forall i :: 0 <= i < |t| ==> |t[i]| >= 1 && Join(t[i], ",") != "") &&
    (forall i, j :: 0 <= i < |t| && 0 <= j < |t[i]| ==> PlainCell(t[i][j]))
  }

  /** The CSV text of a table: cells joined by commas, lines by newlines. */
  function Render(t: seq<seq<string>>): string {
    Join(RenderLines(t), "\n")
  }

  function RenderLines(t: seq<seq<string>>): (r: seq<string>)
    ensures |r| == |t|
    ensures forall i :: 0 <= i < |t| ==> r[i] == Join(t[i], ",")
  {
    seq(|t|, i requires 0 <= i < |t| => Join(t[i], ","))
  }

  /** Reading back a rendered plain table gives its first line as headers and the rest as rows. */
  lemma {:induction false} ParseCsvOfRender(t: seq<seq<string>>)
    requires PlainTable(t)
    ensures ParseCsv(Render(t)) == Csv(t[0], t[1..])
  {
    var lines := RenderLines(t);
    forall i | 0 <= i < |t|
      ensures '\n' !in lines[i] && '\r' !in lines[i] && Cells(lines[i]) == t[i]
    {
      JoinLacks(t[i], ",", '\n');
      JoinLacks(t[i], ",", '\r');
      CellsOfJoin(t[i]);
    }
    JoinLacks(lines, "\n", '\r');
    SplitJoin(lines, '\n');
    NonEmptyKeepsAll(lines);
    assert Lines(Render(t)) == lines;
    CellsOfLinesOf(lines[1..], t[1..]);
  }

  lemma {:induction false} CellsOfLinesOf(ls: seq<string>, t: seq<seq<string>>)
    requires |ls| == |t| && forall i :: 0 <= i < |ls| ==> Cells(ls[i]) == t[i]
    ensures CellsOfLines(ls) == t
  {
    if ls != [] {
      CellsOfLinesOf(ls[1..], t[1..]);
    }
  }

  /** Splitting a line of plain cells at commas and trimming gives the cells back. */
  lemma {:induction false} CellsOfJoin(row: seq<string>)
    requires |row| >= 1 && forall j :: 0 <= j < |row| ==> PlainCell(row[j])
    ensures Cells(Join(row, ",")) == row
  {
    SplitJoin(row, ',');
    TrimAllPlain(row);
  }

  lemma {:induction false} TrimAllPlain(row: seq<string>)
    requires forall j :: 0 <= j < |row| ==> PlainCell(row[j])
    ensures TrimAll(row) == row
  {
    if row != [] {
      TrimOfTrimmed(row[0]);
      TrimAllPlain(row[1..]);
    }
  }

  lemma {:induction false} NonEmptyKeepsAll(lines: seq<string>)
    requires forall i :: 0 <= i < |lines| ==> lines[i] != ""
    ensures NonEmpty(lines) == lines
  {
    if lines != [] {
      NonEmptyKeepsAll(lines[..|lines| - 1]);
    }
  }

  // ---------------------------------------------------------------------
  // Grouping the rows

  /** `Array.prototype.indexOf` on strings: the first position of `x`, or -1. */
  function IndexOfString(xs: seq<string>, x: string): (r: int)
    ensures -1 <= r < |xs|
    ensures r >= 0 ==> xs[r] == x && forall j :: 0 <= j < r ==> xs[j] != x
    ensures r == -1 ==> x !in xs
  {
    if xs == [] then -1
    else if xs[0] == x then 0
    else
      var r := IndexOfString(xs[1..], x);
      if r == -1 then -1 else r + 1
  }

  /** `r[i] || ""`: a missing cell reads as the empty string. */
  function CellAt(r: seq<string>, i: int): string {
    if 0 <= i < |r| then r[i] else ""
  }

  /** `.replace(/[$,]/g, "")`. */
  function StripMoney(s: string): (r: string)
    ensures '$' !in r && ',' !in r
    ensures '$' !in s && ',' !in s ==> r == s
  {
    if s == [] then []
    else
      var rest := StripMoney(s[1..]);
      if s[0] == '$' || s[0] == ',' then rest
      else
        assert s == [s[0]] + s[1..];
        [s[0]] + rest
  }

  /**
   * One row of the loop: its category and item, or `None` when it is skipped
   * (blank category, or an amount that is not a finite number above 0).
   */
  function RowItem(r: seq<string>, cIdx: int, aIdx: int, dIdx: int): (res: Option<(string, Item)>)
    ensures res.Some? ==> res.value.0 == Trim(CellAt(r, cIdx)) && res.value.0 != ""
    ensures res.Some? ==> res.value.1.amount > 0.0
    ensures res.Some? ==> ParseFloat(StripMoney(CellAt(r, aIdx))) == Finite(res.value.1.amount)
    ensures res.Some? ==> (res.value.1.description.Some? <==> dIdx >= 0 && Trim(CellAt(r, dIdx)) != "")
    ensures res.None? <==>
      Trim(CellAt(r, cIdx)) == "" || !ParseFloat(StripMoney(CellAt(r, aIdx))).Finite? ||
      ParseFloat(StripMoney(CellAt(r, aIdx))).value <= 0.0
  {
    var category := Trim(CellAt(r, cIdx));
    var amount := ParseFloat(StripMoney(CellAt(r, aIdx)));
    var description := if dIdx >= 0 then Some(Trim(CellAt(r, dIdx))) else None;
    if category == "" || !amount.Finite? || amount.value <= 0.0 then None
    else Some((category, Item(amount.value, if description.Some? && description.value != "" then description else None)))
  }

  /** The accepted rows, in file order, as (category, item) pairs. */
  function Accepted(rows: seq<seq<string>>, cIdx: int, aIdx: int, dIdx: int): (ps: seq<(string, Item)>)
    ensures |ps| <= |rows|
    ensures forall k :: 0 <= k < |ps| ==> ps[k].0 != "" && ps[k].1.amount > 0.0
  {
    if rows == [] then []
    else
      var prev := Accepted(rows[..|rows| - 1], cIdx, aIdx, dIdx);
      match RowItem(rows[|rows| - 1], cIdx, aIdx, dIdx)
      case None => prev
      case Some(p) => prev + [p]
  }

  /** Each pair, in order, pushed into the bucket of its category. */
  function GroupPairs(ps: seq<(string, Item)>): seq<Bucket<Item>> {
    if ps == [] then []
    else Push(GroupPairs(ps[..|ps| - 1]), ps[|ps| - 1].0, ps[|ps| - 1].1)
  }

  /** Some accepted row names an inherited category, so its push throws. */
  predicate PushThrows(ps: seq<(string, Item)>) {
    exists k :: 0 <= k < |ps| && Inherited(ps[k].0)
  }

  /** The rows accepted from a prefix are a prefix of the rows accepted. */
  lemma {:induction false} AcceptedPrefix(rows: seq<seq<string>>, n: nat, cIdx: int, aIdx: int, dIdx: int)
    requires n <= |rows|
    ensures Accepted(rows[..n], cIdx, aIdx, dIdx) <= Accepted(rows, cIdx, aIdx, dIdx)
  {
    if n < |rows| {
      var init := rows[..|rows| - 1];
      assert init[..n] == rows[..n];
      AcceptedPrefix(init, n, cIdx, aIdx, dIdx);
    } else {
      assert rows[..n] == rows;
    }
  }

  /** Any accepted row whose category is an inherited name makes the import throw. */
  lemma {:induction false} InheritedRowThrows(rows: seq<seq<string>>, i: nat, cIdx: int, aIdx: int, dIdx: int)
    requires i < |rows|
    requires RowItem(rows[i], cIdx, aIdx, dIdx).Some?
    requires Inherited(RowItem(rows[i], cIdx, aIdx, dIdx).value.0)
    ensures PushThrows(Accepted(rows, cIdx, aIdx, dIdx))
  {
    AcceptedPrefixStep(rows, i, cIdx, aIdx, dIdx);
    AcceptedPrefix(rows, i + 1, cIdx, aIdx, dIdx);
    var ps := Accepted(rows[..i + 1], cIdx, aIdx, dIdx);
    var all := Accepted(rows, cIdx, aIdx, dIdx);
    assert all[|ps| - 1] == ps[|ps| - 1];
  }

  /** `grouped` after the loop over `rows`. */
  function GroupRows(rows: seq<seq<string>>, cIdx: int, aIdx: int, dIdx: int): seq<Bucket<Item>> {
    GroupPairs(Accepted(rows, cIdx, aIdx, dIdx))
  }

  /** The items paired with category `c`, in order. */
  function ItemsOf(ps: seq<(string, Item)>, c: string): seq<Item> {
    if ps == [] then []
    else
      var prev := ItemsOf(ps[..|ps| - 1], c);
      if ps[|ps| - 1].0 == c then prev + [ps[|ps| - 1].1] else prev
  }

  /** The categories of the pairs, in order. */
  function CategoriesOf(ps: seq<(string, Item)>): (cs: seq<string>)
    ensures |cs| == |ps|
  {
    if ps == [] then [] else CategoriesOf(ps[..|ps| - 1]) + [ps[|ps| - 1].0]
  }

  /**
   * The bucket of `c` holds exactly the accepted rows of category `c`, in
   * file order, and exists only when there is one.
   */
  lemma {:induction false} GroupPairsBucket(ps: seq<(string, Item)>, c: string)
    ensures GetOrEmpty(GroupPairs(ps), c) == ItemsOf(ps, c)
    ensures c in Keys(GroupPairs(ps)) <==> ItemsOf(ps, c) != []
  {
    if ps != [] {
      GroupPairsBucket(ps[..|ps| - 1], c);
    }
  }

  /** Buckets appear in the order their category first occurs, and keys are unique. */
  lemma {:induction false} GroupPairsKeys(ps: seq<(string, Item)>)
    ensures Keys(GroupPairs(ps)) == ExpenseUtils.FirstOccurrences(CategoriesOf(ps))
    ensures UniqueKeys(GroupPairs(ps))
  {
    if ps != [] {
      var init := ps[..|ps| - 1];
      var (c, item) := ps[|ps| - 1];
      GroupPairsKeys(init);
      var m := GroupPairs(init);
      assert CategoriesOf(ps)[..|ps| - 1] == CategoriesOf(init);
      if c !in Keys(m) {
        assert Keys(m + [Bucket(c, [item])]) == Keys(m) + [c];
      }
    }
  }

  predicate PositiveAmounts(m: seq<Bucket<Item>>) {
    forall i, k :: 0 <= i < |m| && 0 <= k < |m[i].items| ==> m[i].items[k].amount > 0.0
  }

  /** Grouping pairs with positive amounts gives non-empty buckets of positive amounts. */
  lemma {:induction false} GroupPairsItems(ps: seq<(string, Item)>)
    requires forall k :: 0 <= k < |ps| ==> ps[k].1.amount > 0.0
    ensures NoEmptyBucket(GroupPairs(ps))
    ensures PositiveAmounts(GroupPairs(ps))
  {
    if ps != [] {
      var init := ps[..|ps| - 1];
      var (c, item) := ps[|ps| - 1];
      GroupPairsItems(init);
      PushItems(GroupPairs(init), c, item);
    }
  }

  lemma {:induction false} PushItems(m: seq<Bucket<Item>>, c: string, item: Item)
    requires NoEmptyBucket(m) && PositiveAmounts(m) && item.amount > 0.0
    ensures NoEmptyBucket(Push(m, c, item)) && PositiveAmounts(Push(m, c, item))
  {
    PutAt(m, c, GetOrEmpty(m, c) + [item]);
    var i := IndexOf(m, c);
    assert i < |m| ==> GetOrEmpty(m, c) == m[i].items;
  }

  /** What the import hands over: unique, non-empty buckets of positive amounts under non-empty categories. */
  lemma {:induction false} GroupRowsShape(rows: seq<seq<string>>, cIdx: int, aIdx: int, dIdx: int)
    ensures var m := GroupRows(rows, cIdx, aIdx, dIdx);
      UniqueKeys(m) && NoEmptyBucket(m) && PositiveAmounts(m) && "" !in Keys(m)
  {
    var ps := Accepted(rows, cIdx, aIdx, dIdx);
    GroupPairsKeys(ps);
    GroupPairsItems(ps);
    GroupPairsBucket(ps, "");
    ItemsOfEmptyKey(ps);
  }

  lemma {:induction false} ItemsOfEmptyKey(ps: seq<(string, Item)>)
    requires forall k :: 0 <= k < |ps| ==> ps[k].0 != ""
    ensures ItemsOf(ps, "") == []
  {
    if ps != [] {
      ItemsOfEmptyKey(ps[..|ps| - 1]);
    }
  }

  // ---------------------------------------------------------------------
  // The dialog

  const ColumnError := "请选择正确的列映射"

  /** The `catch` message used when the exception has none. */
  const ParseFailure := "解析失败"

  class CsvImportDialog {
    var open: bool
    var text: string
    var headers: seq<string>
    var rows: seq<seq<string>>
    var colCategory: string
    var colAmount: string
    var colDesc: string
    var error: Option<string>

    /** The dialog's initial state. */
    constructor (open: bool)
      ensures this.open == open && text == "" && headers == [] && rows == []
      ensures colCategory == "" && colAmount == "" && colDesc == "" && error == None
    {
      this.open := open;
      text := "";
      headers := [];
      rows := [];
      colCategory := "";
      colAmount := "";
      colDesc := "";
      error := None;
    }

    /** `canImport`: a header row was read and both required columns are chosen. */
    predicate CanImport()
      reads this
    {
      |headers| > 0 && colCategory != "" && colAmount != ""
    }

    /** `handleFile`: read the text; with two or more headers, preselect the first three columns. */
    method HandleFile(t: string)
      modifies this`text, this`headers, this`rows, this`colCategory, this`colAmount, this`colDesc
      ensures text == t && headers == ParseCsv(t).headers && rows == ParseCsv(t).rows
      ensures |headers| >= 2 ==>
        colCategory == headers[0] && colAmount == headers[1] &&
        colDesc == (if |headers| > 2 then headers[2] else "")
      ensures |headers| < 2 ==> unchanged(this`colCategory, this`colAmount, this`colDesc)
    {
      var csv := ParseCsv(t);
      text := t;
      headers := csv.headers;
      rows := csv.rows;
      if |csv.headers| >= 2 {
        colCategory := csv.headers[0];
        colAmount := csv.headers[1];
        colDesc := if |csv.headers| > 2 then csv.headers[2] else "";
      }
    }

    /**
     * `onImport`: the grouped rows handed to `onImportParsed`, if it is
     * called. A column name missing from the headers sets the error and
     * imports nothing. A row whose category is an inherited property name
     * makes the push throw: the `catch` sets the error to the exception's
     * message (or the generic failure text) and the dialog stays open.
     * Otherwise the import clears the error and closes, even when every
     * row was skipped.
     */
    method OnImport(thrownMessage: string) returns (imported: Option<seq<Bucket<Item>>>)
      modifies this`error, this`open
      ensures !CanImport() ==> imported.None? && unchanged(this)
      ensures CanImport() && (IndexOfString(headers, colCategory) < 0 || IndexOfString(headers, colAmount) < 0) ==>
        imported.None? && open == old(open) && error == Some(ColumnError)
      ensures CanImport() && IndexOfString(headers, colCategory) >= 0 && IndexOfString(headers, colAmount) >= 0 ==>
        var cIdx := IndexOfString(headers, colCategory);
        var aIdx := IndexOfString(headers, colAmount);
        var dIdx := if colDesc != "" then IndexOfString(headers, colDesc) else -1;
        if PushThrows(Accepted(rows, cIdx, aIdx, dIdx)) then
          imported.None? && open == old(open) &&
          error == Some(if thrownMessage != "" then thrownMessage else ParseFailure)
        else
          imported == Some(GroupRows(rows, cIdx, aIdx, dIdx)) && !open && error.None?
    {
      if !CanImport() {
        imported := None;
      } else {
        var cIdx := IndexOfString(headers, colCategory);
        var aIdx := IndexOfString(headers, colAmount);
        var dIdx := if colDesc != "" then IndexOfString(headers, colDesc) else -1;
        if cIdx < 0 || aIdx < 0 {
          error := Some(ColumnError);
          imported := None;
        } else {
          var grouped, threw := GroupImport(rows, cIdx, aIdx, dIdx);
          if threw {
            error := Some(if thrownMessage != "" then thrownMessage else ParseFailure);
            imported := None;
          } else {
            imported := Some(grouped);
            error := None;
            open := false;
          }
        }
      }
    }
  }

  /**
   * The loop of `onImport` that fills `grouped`, skipping the rows `RowItem`
   * refuses; it stops with `threw` at the first accepted row whose category
   * is an inherited property name.
   */
  method GroupImport(rows: seq<seq<string>>, cIdx: int, aIdx: int, dIdx: int)
    returns (grouped: seq<Bucket<Item>>, threw: bool)
    ensures threw <==> PushThrows(Accepted(rows, cIdx, aIdx, dIdx))
    ensures !threw ==> grouped == GroupRows(rows, cIdx, aIdx, dIdx)
  {
    grouped := [];
    threw := false;
    for i := 0 to |rows|
      invariant grouped == GroupRows(rows[..i], cIdx, aIdx, dIdx)
      invariant !PushThrows(Accepted(rows[..i], cIdx, aIdx, dIdx))
    {
      var row := RowItem(rows[i], cIdx, aIdx, dIdx);
      if row.Some? && Inherited(row.value.0) {
        InheritedRowThrows(rows, i, cIdx, aIdx, dIdx);
        threw := true;
        return;
      }
      GroupStep(rows, i, cIdx, aIdx, dIdx);
      if row.Some? {
        grouped := Push(grouped, row.value.0, row.value.1);
      }
    }
    assert rows[..|rows|] == rows;
  }

  /** A row that is skipped, or pushed under an own key, keeps the loop going. */
  lemma GroupStep(rows: seq<seq<string>>, i: nat, cIdx: int, aIdx: int, dIdx: int)
    requires i < |rows|
    requires !PushThrows(Accepted(rows[..i], cIdx, aIdx, dIdx))
    requires var row := RowItem(rows[i], cIdx, aIdx, dIdx); row.Some? ==> !Inherited(row.value.0)
    ensures !PushThrows(Accepted(rows[..i + 1], cIdx, aIdx, dIdx))
    ensures var row := RowItem(rows[i], cIdx, aIdx, dIdx);
      GroupRows(rows[..i + 1], cIdx, aIdx, dIdx) ==
        if row.None? then GroupRows(rows[..i], cIdx, aIdx, dIdx)
        else Push(GroupRows(rows[..i], cIdx, aIdx, dIdx), row.value.0, row.value.1)
  {
    AcceptedStep(rows, i, cIdx, aIdx, dIdx);
    AcceptedPrefixStep(rows, i, cIdx, aIdx, dIdx);
    var row := RowItem(rows[i], cIdx, aIdx, dIdx);
    if row.Some? {
      NoThrowSnoc(Accepted(rows[..i], cIdx, aIdx, dIdx), row.value);
    }
  }

  lemma NoThrowSnoc(ps: seq<(string, Item)>, p: (string, Item))
    requires !PushThrows(ps) && !Inherited(p.0)
    ensures !PushThrows(ps + [p])
  {
    forall k | 0 <= k < |ps + [p]| ensures !Inherited((ps + [p])[k].0) {
      if k < |ps| {
        assert (ps + [p])[k] == ps[k];
      }
    }
  }

  /** One turn of the loop: row `i` is skipped or pushed. */
  lemma {:induction false} AcceptedStep(rows: seq<seq<string>>, i: nat, cIdx: int, aIdx: int, dIdx: int)
    requires i < |rows|
    ensures var row := RowItem(rows[i], cIdx, aIdx, dIdx);
      GroupRows(rows[..i + 1], cIdx, aIdx, dIdx) ==
        if row.None? then GroupRows(rows[..i], cIdx, aIdx, dIdx)
        else Push(GroupRows(rows[..i], cIdx, aIdx, dIdx), row.value.0, row.value.1)
  {
    AcceptedPrefixStep(rows, i, cIdx, aIdx, dIdx);
    var row := RowItem(rows[i], cIdx, aIdx, dIdx);
    if row.Some? {
      GroupPairsAppend(Accepted(rows[..i], cIdx, aIdx, dIdx), row.value);
    }
  }

  lemma AcceptedPrefixStep(rows: seq<seq<string>>, i: nat, cIdx: int, aIdx: int, dIdx: int)
    requires i < |rows|
    ensures var row := RowItem(rows[i], cIdx, aIdx, dIdx);
      Accepted(rows[..i + 1], cIdx, aIdx, dIdx) ==
        if row.None? then Accepted(rows[..i], cIdx, aIdx, dIdx)
        else Accepted(rows[..i], cIdx, aIdx, dIdx) + [row.value]
  {
    var prefix := rows[..i + 1];
    assert prefix[..i] == rows[..i] && prefix[i] == rows[i];
  }

  lemma GroupPairsAppend(ps: seq<(string, Item)>, p: (string, Item))
    ensures GroupPairs(ps + [p]) == Push(GroupPairs(ps), p.0, p.1)
  {
    assert (ps + [p])[..|ps|] == ps;
  }
}
