/**
 * The text ledger parser (`parseExpenseInput`). Each line `category: items`
 * becomes one bucket; items are separated by `,` or `，` and each is an amount
 * made of digits and dots, optionally followed by a note in `（…）` or `(…)`.
 * Lines and items that do not fit are dropped without an error.
 */
module ExpenseParser {
  import opened Js
  import opened OrderedMap
  import opened Expenses

  const FullWidthColon: char := '\U{FF1A}'
  const FullWidthComma: char := '\U{FF0C}'
  const FullWidthOpen: char := '\U{FF08}'
  const FullWidthClose: char := '\U{FF09}'

  predicate IsColon(c: char) {
    c == ':' || c == FullWidthColon
  }

  // ---------------------------------------------------------------------
  // Lines

  /** `lines.filter((line) => line.trim())`. */
  function NonBlank(lines: seq<string>): (r: seq<string>)
    ensures |r| <= |lines|
    ensures forall i :: 0 <= i < |r| ==> r[i] in lines && !IsBlank(r[i])
    ensures forall l :: l in lines && !IsBlank(l) ==> l in r
  {
    if lines == [] then []
    else
      var init := NonBlank(lines[..|lines| - 1]);
      var last := lines[|lines| - 1];
      assert forall x :: x in init ==> x in lines[..|lines| - 1];
      assert forall l :: l in lines ==> l in lines[..|lines| - 1] || l == last;
      TrimEmptyIffBlank(last);
      if Trim(last) != [] then init + [last] else init
  }

  /** The filter works line by line, so the kept lines keep their input order. */
  lemma {:induction false} NonBlankAppend(a: seq<string>, b: seq<string>)
    ensures NonBlank(a + b) == NonBlank(a) + NonBlank(b)
  {
    if b == [] {
      assert a + b == a;
    } else {
      var init := b[..|b| - 1];
      var last := b[|b| - 1];
      assert (a + b)[..|a + b| - 1] == a + init;
      assert (a + b)[|a + b| - 1] == last;
      NonBlankAppend(a, init);
    }
  }

  /** The lines the parser looks at: newlines normalised, split, blank lines dropped. */
  function InputLines(input: string): seq<string> {
    NonBlank(Split(NormalizeNewlines(input), '\n'))
  }

  /** Only blank lines in, nothing out. */
  lemma {:induction false} NonBlankOfBlanks(lines: seq<string>)
    requires forall q :: 0 <= q < |lines| ==> IsBlank(lines[q])
    ensures NonBlank(lines) == []
  {
    if lines != [] {
      TrimEmptyIffBlank(lines[|lines| - 1]);
      NonBlankOfBlanks(lines[..|lines| - 1]);
    }
  }

  /** A blank input has no lines to parse, so it parses to the empty ledger. */
  lemma {:induction false} BlankInputParsesEmpty(input: string, next: nat)
    requires IsBlank(input)
    ensures ParseExpenses(input, next) == ([], next)
  {
    SplitBlankLines(input);
    NonBlankOfBlanks(Split(NormalizeNewlines(input), '\n'));
  }

  /** The lines handed to the matcher hold no line break and are not blank. */
  lemma {:induction false} InputLinesShape(input: string)
    ensures forall i :: 0 <= i < |InputLines(input)| ==>
      var line := InputLines(input)[i];
      '\n' !in line && '\r' !in line && !IsBlank(line)
  {
    var pieces := Split(NormalizeNewlines(input), '\n');
    forall p | p in pieces ensures '\r' !in p {
      var q :| 0 <= q < |pieces| && pieces[q] == p;
      JoinPieceLacks(pieces, "\n", q, '\r');
    }
  }

  /**
   * `\s*(.+)$` applied to the text after the colon: capture group 2, if it
   * matches. `\s*` first takes the whitespace character in front of it and
   * gives it back only when the rest cannot match; `(.+)$` needs a non-empty
   * rest free of line terminators.
   */
  function AmountsGroup(r: string): (g: Option<string>)
    ensures g.Some? ==> |g.value| > 0 && NoLineTerminator(g.value)
  {
    if |r| > 0 && IsWhitespace(r[0]) && AmountsGroup(r[1..]).Some? then AmountsGroup(r[1..])
    else if |r| > 0 && NoLineTerminator(r) then Some(r)
    else None
  }

  /** The colon at position `i` splits `line` as `^(.+?)[:：]\s*(.+)$` demands. */
  predicate ColonAt(line: string, i: int) {
    1 <= i < |line| && NoLineTerminator(line[..i]) && IsColon(line[i]) && AmountsGroup(line[i + 1..]).Some?
  }

  /**
   * The lazy `(.+?)` tries the colon candidates from left to right, starting
   * at position `i`: the first one that fits, or `|line|` when none does.
   */
  function ColonSearch(line: string, i: nat): (j: nat)
    requires i >= 1
    decreases |line| - i
    ensures j == |line| || (i <= j < |line| && IsColon(line[j]) && AmountsGroup(line[j + 1..]).Some?)
  {
    if i >= |line| || IsLineTerminator(line[i - 1]) then |line|
    else if IsColon(line[i]) && AmountsGroup(line[i + 1..]).Some? then i
    else ColonSearch(line, i + 1)
  }

  /** `line.match(/^(.+?)[:：]\s*(.+)$/)`: the two capture groups. */
  function MatchLine(line: string): Option<(string, string)> {
    var j := ColonSearch(line, 1);
    if j < |line| then Some((line[..j], AmountsGroup(line[j + 1..]).value)) else None
  }

  lemma {:induction false} ColonSearchSpec(line: string, i: nat)
    requires 1 <= i <= |line| + 1 && NoLineTerminator(line[..i - 1])
    decreases |line| - i
    ensures ColonSearch(line, i) < |line| ==> ColonAt(line, ColonSearch(line, i))
    ensures forall k :: i <= k < ColonSearch(line, i) ==> !ColonAt(line, k)
  {
    if i >= |line| {
    } else if IsLineTerminator(line[i - 1]) {
      forall k | i <= k < |line| ensures !ColonAt(line, k) {
        assert line[..k][i - 1] == line[i - 1];
      }
    } else {
      assert line[..i] == line[..i - 1] + [line[i - 1]];
      if IsColon(line[i]) && AmountsGroup(line[i + 1..]).Some? {
      } else {
        ColonSearchSpec(line, i + 1);
      }
    }
  }

  /**
   * A line matches exactly when some `:`/`：` has a line-terminator-free,
   * non-empty text before it and a match of `\s*(.+)$` after it; the split is
   * at the first such colon.
   */
  lemma {:induction false} MatchLineFirstColon(line: string)
    ensures MatchLine(line).Some? <==> exists j :: ColonAt(line, j)
    ensures MatchLine(line).Some? ==>
      ColonAt(line, |MatchLine(line).value.0|) &&
      MatchLine(line).value.0 == line[..|MatchLine(line).value.0|] &&
      MatchLine(line).value.1 == AmountsGroup(line[|MatchLine(line).value.0| + 1..]).value &&
      forall j :: ColonAt(line, j) ==> |MatchLine(line).value.0| <= j
  {
    ColonSearchSpec(line, 1);
  }

  // ---------------------------------------------------------------------
  // Items

  predicate IsAmountChar(c: char) {
    IsDigit(c) || c == '.'
  }

  /** Length of the longest `[\d.]*` prefix. */
  function AmountRun(s: string): (n: nat)
    ensures n <= |s|
    ensures forall k :: 0 <= k < n ==> IsAmountChar(s[k])
    ensures n == |s| || !IsAmountChar(s[n])
  {
    if s == [] || !IsAmountChar(s[0]) then 0 else 1 + AmountRun(s[1..])
  }

  /** Position of the first `c` in `s`, or `|s|`. */
  function IndexOfChar(s: string, c: char): (n: nat)
    ensures n <= |s|
    ensures n < |s| ==> s[n] == c
    ensures forall j :: 0 <= j < n ==> s[j] != c
    ensures c !in s[..n]
  {
    if s == [] then 0 else if s[0] == c then 0 else 1 + IndexOfChar(s[1..], c)
  }

  /**
   * `open([^close]*)close\s*$` at the head of `u`: the note between the
   * brackets, if it matches.
   */
  function BracketNote(u: string, open: char, close: char): (r: Option<string>)
    ensures r.Some? ==> |r.value| + 2 <= |u| && close !in r.value && u[..|r.value| + 2] == [open] + r.value + [close] && IsBlank(u[|r.value| + 2..])
  {
    if |u| == 0 || u[0] != open then None
    else
      var j := IndexOfChar(u[1..], close);
      if j < |u| - 1 && IsBlank(u[j + 2..]) then
        assert u[1..][..j] == u[1..j + 1];
        assert u[..j + 2] == [open] + u[1..j + 1] + [close];
        Some(u[1..j + 1])
      else None
  }

  /** `u` is `open note close` followed only by whitespace, with no `close` inside the note. */
  predicate Bracketed(u: string, note: string, open: char, close: char) {
    |note| + 2 <= |u| && close !in note && u[..|note| + 2] == [open] + note + [close] && IsBlank(u[|note| + 2..])
  }

  /** The capture groups of the first of the three item patterns that matches. */
  datatype ItemMatch = ItemMatch(amountText: string, note: Option<string>)

  /**
   * `^([\d.]+)\s*（([^）]*)）\s*$`, then `^([\d.]+)\s*\(([^)]*)\)\s*$`, then
   * `^([\d.]+)\s*$`. The digit/dot run is always the longest one: a shorter run
   * would leave a digit or a dot where whitespace or a bracket is required.
   */
  function MatchItem(t: string): (m: Option<ItemMatch>)
    ensures m.Some? ==> 0 < |m.value.amountText| <= |t| && m.value.amountText == t[..|m.value.amountText|]
    ensures m.Some? ==> forall k :: 0 <= k < |m.value.amountText| ==> IsAmountChar(m.value.amountText[k])
  {
    var d := AmountRun(t);
    if d == 0 then None
    else
      var u := TrimStart(t[d..]);
      var fullWidth := BracketNote(u, FullWidthOpen, FullWidthClose);
      if fullWidth.Some? then Some(ItemMatch(t[..d], fullWidth))
      else
        var ascii := BracketNote(u, '(', ')');
        if ascii.Some? then Some(ItemMatch(t[..d], ascii))
        else if u == [] then Some(ItemMatch(t[..d], None))
        else None
  }

  /** An accepted item: `{ amount, description }`. */
  datatype Item = Item(amount: real, description: Option<string>)

  /** `amountMatch[2]?.trim() || undefined`. */
  function Note(group: Option<string>): (d: Option<string>)
    ensures d.Some? ==> d.value != [] && Trim(d.value) == d.value
  {
    match group
    case None => None
    case Some(n) =>
      TrimIdempotent(n);
      if Trim(n) == [] then None else Some(Trim(n))
  }

  /**
   * One comma-separated item: trimmed, matched, and kept only when
   * `parseFloat` of its amount is a number greater than zero. The amount text
   * holds only digits and dots, so `parseFloat` never yields `Infinity` here.
   */
  function ParseItem(item: string): (r: Option<Item>)
    ensures r.Some? ==> r.value.amount > 0.0
    ensures r.Some? ==> r.value.description.None? || Trim(r.value.description.value) == r.value.description.value
  {
    ParseTrimmedItem(Trim(item))
  }

  /** `ParseItem` after the trim. */
  function ParseTrimmedItem(t: string): (r: Option<Item>)
    ensures r.Some? ==> r.value.amount > 0.0
    ensures r.Some? ==> r.value.description.None? || Trim(r.value.description.value) == r.value.description.value
  {
    match MatchItem(t)
    case None => None
    case Some(m) =>
      match ParseFloat(m.amountText)
      case Finite(v) => if v > 0.0 then Some(Item(v, Note(m.note))) else None
      case _ => None
  }

  /**
   * A match has one of the three forms and no other: the amount text is the
   * whole digit/dot run at the start, and after it and any whitespace there
   * is either nothing (no note) or a note in a same-kind bracket pair
   * followed only by whitespace.
   */
  lemma MatchItemForms(t: string)
    ensures var m := MatchItem(t);
      m.Some? ==>
        var d := AmountRun(t);
        var u := TrimStart(t[d..]);
        d > 0 && m.value.amountText == t[..d] &&
        (m.value.note.None? ==> u == []) &&
        (m.value.note.Some? ==>
           Bracketed(u, m.value.note.value, FullWidthOpen, FullWidthClose) || Bracketed(u, m.value.note.value, '(', ')'))
  {
    var d := AmountRun(t);
    if d > 0 {
      var u := TrimStart(t[d..]);
      var fullWidth := BracketNote(u, FullWidthOpen, FullWidthClose);
      var ascii := BracketNote(u, '(', ')');
      if fullWidth.Some? {
        assert MatchItem(t) == Some(ItemMatch(t[..d], fullWidth));
        assert Bracketed(u, fullWidth.value, FullWidthOpen, FullWidthClose);
      } else if ascii.Some? {
        assert MatchItem(t) == Some(ItemMatch(t[..d], ascii));
        assert Bracketed(u, ascii.value, '(', ')');
      }
    }
  }

  /**
   * An accepted item comes from a match of the trimmed item: its amount is
   * the match's amount text read by `parseFloat`, and its description is the
   * match's note, trimmed and dropped when empty.
   */
  lemma AcceptedItemForms(item: string)
    ensures var r := ParseItem(item);
      var m := MatchItem(Trim(item));
      r.Some? ==>
        m.Some? && ParseFloat(m.value.amountText) == Finite(r.value.amount) && r.value.description == Note(m.value.note)
  {
  }

  /** The amount text of an item never reads as `Infinity`. */
  lemma {:induction false} AmountTextIsNotInfinite(s: string)
    requires |s| > 0 && forall k :: 0 <= k < |s| ==> IsAmountChar(s[k])
    ensures !ParseFloat(s).Infinity?
  {
    assert TrimStart(s) == s by {
      assert LeadingWhitespace(s) == 0 && s[0..] == s;
    }
    assert SplitSign(s) == (false, s);
    assert !StartsWithInfinity(s) by {
      if |s| >= 8 { assert s[..8][0] == s[0]; }
    }
  }

  /** `amountsStr.replace(/，/g, ",").split(",")`. */
  function ItemTexts(amounts: string): seq<string> {
    Split(ReplaceChar(amounts, FullWidthComma, ','), ',')
  }

  /** The accepted items, in item order (`validAmounts`). */
  function ParseItems(items: seq<string>): (r: seq<Item>)
    ensures |r| <= |items|
    ensures forall k :: 0 <= k < |r| ==> r[k].amount > 0.0
  {
    if items == [] then []
    else
      var init := ParseItems(items[..|items| - 1]);
      var last := ParseItem(items[|items| - 1]);
      if last.None? then init
      else
        assert last.value.amount > 0.0;
        init + [last.value]
  }

  /** The category and accepted items of a matching line. */
  function LineContent(line: string): Option<(string, seq<Item>)> {
    match MatchLine(line)
    case None => None
    case Some((c, a)) => Some((Trim(c), ParseItems(ItemTexts(a))))
  }

  /** `validAmounts.map(...)`: one entry per accepted item, with fresh ids from `next` on. */
  function NewEntries(category: string, items: seq<Item>, next: nat): (es: seq<Entry>)
    ensures |es| == |items|
    ensures forall k :: 0 <= k < |es| ==>
      es[k].category == category && es[k].amount == items[k].amount && es[k].description == items[k].description
  {
    seq(|items|, k requires 0 <= k < |items| =>
      Entry(FreshId(next + k), category, items[k].amount, items[k].description))
  }

  /**
   * The effect of one line on the result and on the id supply: a category
   * with at least one accepted item is (re)assigned; anything else changes
   * nothing.
   */
  function ParseLine(line: string, acc: Ledger, next: nat): (r: (Ledger, nat))
    ensures r.1 >= next
  {
    match LineContent(line)
    case Some((category, items)) =>
      if |items| > 0 then (Put(acc, category, NewEntries(category, items, next)), next + |items|)
      else (acc, next)
    case None => (acc, next)
  }

  /** The lines folded from an empty result, left to right. */
  function ParseLines(lines: seq<string>, next: nat): (r: (Ledger, nat))
    ensures r.1 >= next
  {
    if lines == [] then ([], next)
    else
      var prev := ParseLines(lines[..|lines| - 1], next);
      ParseLine(lines[|lines| - 1], prev.0, prev.1)
  }

  /** `parseExpenseInput(input)` with the id supply standing at `next`. */
  function ParseExpenses(input: string, next: nat): (Ledger, nat) {
    ParseLines(InputLines(input), next)
  }

  // ---------------------------------------------------------------------
  // Properties of items

  /** A non-empty run of digits and dots. */
  predicate AmountText(d: string) {
    |d| > 0 && forall k :: 0 <= k < |d| ==> IsAmountChar(d[k])
  }

  /** Both `,` and `，` separate items, so no item text holds either. */
  lemma {:induction false} ItemTextsHaveNoCommas(amounts: string)
    ensures forall q :: 0 <= q < |ItemTexts(amounts)| ==>
      ',' !in ItemTexts(amounts)[q] && FullWidthComma !in ItemTexts(amounts)[q]
  {
    var normalized := ReplaceChar(amounts, FullWidthComma, ',');
    var pieces := Split(normalized, ',');
    forall k | 0 <= k < |normalized| ensures normalized[k] != FullWidthComma {
    }
    forall q | 0 <= q < |pieces| ensures FullWidthComma !in pieces[q] {
      JoinPieceLacks(pieces, [','], q, FullWidthComma);
    }
  }

  lemma {:induction false} AmountRunOf(t: string, d: nat)
    requires d <= |t| && forall k :: 0 <= k < d ==> IsAmountChar(t[k])
    requires d == |t| || !IsAmountChar(t[d])
    ensures AmountRun(t) == d
  {
  }

  /** The three facts `IndexOfChar` ensures pin it down. */
  lemma {:induction false} IndexOfCharFirst(s: string, c: char, k: nat)
    requires k <= |s| && (k < |s| ==> s[k] == c)
    requires forall j :: 0 <= j < k ==> s[j] != c
    ensures IndexOfChar(s, c) == k
  {
  }

  /** The first `close` of `[open] + note + [close]` after the opening bracket is the last character. */
  lemma {:induction false} BracketNoteOf(note: string, open: char, close: char)
    requires close !in note
    ensures BracketNote([open] + note + [close], open, close) == Some(note)
  {
    var u := [open] + note + [close];
    assert u[1..] == note + [close];
    assert forall j :: 0 <= j < |note| ==> u[1..][j] != close;
    IndexOfCharFirst(u[1..], close, |note|);
    assert u[|note| + 2..] == [];
    assert u[1..|note| + 1] == note;
  }

  /** Without `close` after the opening bracket, the bracket pattern fails. */
  lemma {:induction false} BracketNoteUnclosed(rest: string, open: char, close: char)
    requires close !in rest
    ensures BracketNote([open] + rest, open, close) == None
  {
    var u := [open] + rest;
    assert u[1..] == rest;
    assert forall j :: 0 <= j < |rest| ==> u[1..][j] != close;
    IndexOfCharFirst(u[1..], close, |rest|);
  }

  /** The text after the amount run, once leading whitespace is skipped. */
  lemma {:induction false} AfterAmount(d: string, u: string)
    requires AmountText(d) && u != [] && !IsAmountChar(u[0]) && !IsWhitespace(u[0])
    ensures AmountRun(d + u) == |d|
    ensures (d + u)[..|d|] == d && TrimStart((d + u)[|d|..]) == u
  {
    var t := d + u;
    assert t[|d|] == u[0];
    AmountRunOf(t, |d|);
    assert t[|d|..] == u;
    assert LeadingWhitespace(u) == 0 && u[0..] == u;
  }

  lemma {:induction false} MatchItemWithNote(d: string, note: string, open: char, close: char)
    requires AmountText(d)
    requires (open == FullWidthOpen && close == FullWidthClose) || (open == '(' && close == ')')
    requires close !in note
    ensures MatchItem(d + ([open] + note + [close])) == Some(ItemMatch(d, Some(note)))
  {
    AfterAmount(d, [open] + note + [close]);
    BracketNoteOf(note, open, close);
  }

  lemma {:induction false} ParseItemOfMatch(t: string, m: ItemMatch, v: real)
    requires Trim(t) == t && MatchItem(t) == Some(m) && ParseFloat(m.amountText) == Finite(v) && v > 0.0
    ensures ParseItem(t) == Some(Item(v, Note(m.note)))
  {
  }

  lemma {:induction false} MatchItemBare(d: string)
    requires AmountText(d)
    ensures MatchItem(d) == Some(ItemMatch(d, None))
  {
    AmountRunOf(d, |d|);
    assert d[|d|..] == [] && d[..|d|] == d;
    assert LeadingWhitespace([]) == 0;
  }

  /** A bare amount is accepted, with no description. */
  lemma {:induction false} ParseItemBare(d: string, v: real)
    requires AmountText(d) && ParseFloat(d) == Finite(v) && v > 0.0
    ensures ParseItem(d) == Some(Item(v, None))
  {
    assert IsAmountChar(d[0]) && IsAmountChar(d[|d| - 1]);
    TrimOfTrimmed(d);
    MatchItemBare(d);
    ParseItemOfMatch(d, ItemMatch(d, None), v);
  }

  /** An amount followed by a note in `（…）` or in `(…)` is accepted with the trimmed note. */
  lemma {:induction false} ParseItemWithNote(d: string, note: string, open: char, close: char, v: real)
    requires AmountText(d) && ParseFloat(d) == Finite(v) && v > 0.0
    requires (open == FullWidthOpen && close == FullWidthClose) || (open == '(' && close == ')')
    requires close !in note
    ensures ParseItem(d + ([open] + note + [close])) == Some(Item(v, Note(Some(note))))
  {
    var t := d + ([open] + note + [close]);
    assert t[0] == d[0] && t[|t| - 1] == close;
    TrimOfTrimmed(t);
    MatchItemWithNote(d, note, open, close);
    ParseItemOfMatch(t, ItemMatch(d, Some(note)), v);
  }

  lemma {:induction false} ParseItemOfNoMatch(t: string)
    requires Trim(t) == t && MatchItem(t) == None
    ensures ParseItem(t) == None
  {
  }

  /** After the amount, a bracket that opens one way and closes the other leaves every pattern unmatched. */
  lemma {:induction false} MatchItemMixed(d: string, note: string, open: char, close: char)
    requires AmountText(d)
    requires (open == '(' && close == FullWidthClose) || (open == FullWidthOpen && close == ')')
    requires close != FullWidthClose ==> FullWidthClose !in note
    requires close != ')' ==> ')' !in note
    ensures MatchItem(d + ([open] + note + [close])) == None
  {
    var u := [open] + note + [close];
    AfterAmount(d, u);
    assert u == [open] + (note + [close]);
    if open == '(' {
      BracketNoteUnclosed(note + [close], '(', ')');
    } else {
      BracketNoteUnclosed(note + [close], FullWidthOpen, FullWidthClose);
    }
  }

  /** `12(note）`: an ASCII opening bracket closed by a full-width one matches no pattern. */
  lemma {:induction false} ParseItemMixedAsciiOpen(d: string, note: string)
    requires AmountText(d) && ')' !in note
    ensures ParseItem(d + (['('] + note + [FullWidthClose])) == None
  {
    var t := d + (['('] + note + [FullWidthClose]);
    assert t[0] == d[0] && t[|t| - 1] == FullWidthClose;
    TrimOfTrimmed(t);
    MatchItemMixed(d, note, '(', FullWidthClose);
    ParseItemOfNoMatch(t);
  }

  /** `12（note)`: a full-width opening bracket closed by an ASCII one matches no pattern. */
  lemma {:induction false} ParseItemMixedFullWidthOpen(d: string, note: string)
    requires AmountText(d) && FullWidthClose !in note
    ensures ParseItem(d + ([FullWidthOpen] + note + [')'])) == None
  {
    var t := d + ([FullWidthOpen] + note + [')']);
    assert t[0] == d[0] && t[|t| - 1] == ')';
    TrimOfTrimmed(t);
    MatchItemMixed(d, note, FullWidthOpen, ')');
    ParseItemOfNoMatch(t);
  }

  /** An item whose trimmed text starts with a sign (or anything but a digit or a dot) is dropped. */
  lemma {:induction false} ParseItemNeedsLeadingAmountChar(item: string)
    requires Trim(item) != [] && !IsAmountChar(Trim(item)[0])
    ensures ParseItem(item) == None
  {
    assert AmountRun(Trim(item)) == 0;
  }

  // ---------------------------------------------------------------------
  // Properties of the parse result

  /**
   * A line with accepted items (re)assigns its category, keeping every other
   * category, and uses up one id per item; any other line changes nothing.
   */
  lemma {:induction false} ParseLineEffect(line: string, acc: Ledger, next: nat)
    ensures LineContent(line).Some? && |LineContent(line).value.1| > 0 ==>
      var (c, items) := LineContent(line).value;
      Get(ParseLine(line, acc, next).0, c) == Some(NewEntries(c, items, next)) &&
      (forall k :: k != c ==> Get(ParseLine(line, acc, next).0, k) == Get(acc, k)) &&
      ParseLine(line, acc, next).1 == next + |items|
    ensures LineContent(line).None? || |LineContent(line).value.1| == 0 ==>
      ParseLine(line, acc, next) == (acc, next)
  {
  }

  /** One step of `ParseLines`. */
  lemma {:induction false} ParseLinesStep(lines: seq<string>, next: nat)
    requires lines != []
    ensures var prev := ParseLines(lines[..|lines| - 1], next);
      ParseLines(lines, next) == ParseLine(lines[|lines| - 1], prev.0, prev.1)
  {
  }

  /** A line with accepted items assigns them, with fresh ids, to its category. */
  lemma {:induction false} ParseLineOfContent(line: string, c: string, items: seq<Item>, acc: Ledger, next: nat)
    requires LineContent(line).Some? && LineContent(line).value.0 == c && LineContent(line).value.1 == items
    requires |items| > 0
    ensures ParseLine(line, acc, next).0 == Put(acc, c, NewEntries(c, items, next))
    ensures ParseLine(line, acc, next).1 == next + |items|
  {
  }

  /** Of two lines with the same category, the later one wins. */
  lemma {:induction false} LaterLineReplaces(first: string, second: string, acc: Ledger, next: nat)
    requires LineContent(first).Some? && LineContent(second).Some?
    requires LineContent(first).value.0 == LineContent(second).value.0
    requires |LineContent(second).value.1| > 0
    ensures var mid := ParseLine(first, acc, next);
      Get(ParseLine(second, mid.0, mid.1).0, LineContent(second).value.0) ==
      Some(NewEntries(LineContent(second).value.0, LineContent(second).value.1, mid.1))
  {
    var mid := ParseLine(first, acc, next);
    ParseLineEffect(second, mid.0, mid.1);
  }

  predicate PositiveAmounts(l: Ledger) {
    forall i, j :: 0 <= i < |l| && 0 <= j < |l[i].items| ==> l[i].items[j].amount > 0.0
  }

  /**
   * What every parse result satisfies: one bucket per category, none empty,
   * each entry filed under its own category with a positive amount, and ids
   * fresh (handed out while the supply ran from `lo` to `hi`) and distinct.
   */
  predicate ValidParse(l: Ledger, lo: nat, hi: nat) {
    lo <= hi && UniqueKeys(l) && NoEmptyBucket(l) && CategoriesMatch(l) &&
    PositiveAmounts(l) && IdsFrom(l, lo, hi) && DistinctIds(l)
  }

  lemma {:induction false} ParseExpensesValid(input: string, next: nat)
    ensures ValidParse(ParseExpenses(input, next).0, next, ParseExpenses(input, next).1)
  {
    ParseLinesValid(InputLines(input), next);
  }

  lemma {:induction false} ParseLinesValid(lines: seq<string>, next: nat)
    ensures ValidParse(ParseLines(lines, next).0, next, ParseLines(lines, next).1)
  {
    if lines != [] {
      var prev := ParseLines(lines[..|lines| - 1], next);
      ParseLinesValid(lines[..|lines| - 1], next);
      ParseLineValid(lines[|lines| - 1], prev.0, next, prev.1);
    }
  }

  lemma {:induction false} ParseLineValid(line: string, acc: Ledger, lo: nat, n: nat)
    requires ValidParse(acc, lo, n)
    ensures ValidParse(ParseLine(line, acc, n).0, lo, ParseLine(line, acc, n).1)
  {
    var r := ParseLine(line, acc, n);
    var content := LineContent(line);
    if content.Some? && |content.value.1| > 0 {
      var c, items := content.value.0, content.value.1;
      assert r.0 == Put(acc, c, NewEntries(c, items, n));
      assert r.1 == n + |items|;
      AssignValid(acc, lo, n, c, items);
    } else {
      assert r.0 == acc;
      assert r.1 == n;
    }
  }

  /** Assigning a line's entries to its category keeps the result valid. */
  lemma {:induction false} AssignValid(acc: Ledger, lo: nat, n: nat, c: string, items: seq<Item>)
    requires ValidParse(acc, lo, n) && |items| > 0
    requires forall k :: 0 <= k < |items| ==> items[k].amount > 0.0
    ensures ValidParse(Put(acc, c, NewEntries(c, items, n)), lo, n + |items|)
  {
    var es := NewEntries(c, items, n);
    PutAt(acc, c, es);
    AssignShape(acc, c, items, n);
    AssignIdsFrom(acc, lo, n, c, items);
    AssignDistinctIds(acc, lo, n, c, items);
  }

  lemma {:induction false} AssignShape(acc: Ledger, c: string, items: seq<Item>, n: nat)
    requires UniqueKeys(acc) && NoEmptyBucket(acc) && CategoriesMatch(acc) && PositiveAmounts(acc)
    requires |items| > 0 && forall k :: 0 <= k < |items| ==> items[k].amount > 0.0
    ensures var r := Put(acc, c, NewEntries(c, items, n));
      UniqueKeys(r) && NoEmptyBucket(r) && CategoriesMatch(r) && PositiveAmounts(r)
  {
    var es := NewEntries(c, items, n);
    var r := Put(acc, c, es);
    PutAt(acc, c, es);
    forall i | 0 <= i < |r| ensures |r[i].items| > 0 {
    }
    forall i, j | 0 <= i < |r| && 0 <= j < |r[i].items|
      ensures r[i].items[j].category == r[i].key && r[i].items[j].amount > 0.0
    {
    }
  }

  lemma {:induction false} AssignIdsFrom(acc: Ledger, lo: nat, n: nat, c: string, items: seq<Item>)
    requires IdsFrom(acc, lo, n) && lo <= n
    ensures IdsFrom(Put(acc, c, NewEntries(c, items, n)), lo, n + |items|)
  {
    var es := NewEntries(c, items, n);
    var r := Put(acc, c, es);
    var p := IndexOf(acc, c);
    PutAt(acc, c, es);
    forall i, j | 0 <= i < |r| && 0 <= j < |r[i].items|
      ensures IssuedBetween(r[i].items[j].id, lo, n + |items|)
    {
      if i == p {
        assert r[i] == Bucket(c, es);
        assert r[i].items[j].id == FreshId(n + j);
        assert lo <= n + j < n + |items|;
      } else {
        assert r[i] == acc[i];
        assert IssuedBetween(acc[i].items[j].id, lo, n);
        var m :| lo <= m < n && acc[i].items[j].id == FreshId(m);
        assert r[i].items[j].id == FreshId(m);
      }
    }
  }

  lemma {:induction false} AssignDistinctIds(acc: Ledger, lo: nat, n: nat, c: string, items: seq<Item>)
    requires IdsFrom(acc, lo, n) && DistinctIds(acc) && lo <= n
    ensures DistinctIds(Put(acc, c, NewEntries(c, items, n)))
  {
    var r := Put(acc, c, NewEntries(c, items, n));
    forall i1, j1, i2, j2 |
      0 <= i1 < |r| && 0 <= j1 < |r[i1].items| && 0 <= i2 < |r| && 0 <= j2 < |r[i2].items| && (i1, j1) != (i2, j2)
      ensures r[i1].items[j1].id != r[i2].items[j2].id
    {
      AssignedIdsDiffer(acc, lo, n, c, items, i1, j1, i2, j2);
    }
  }

  lemma {:induction false} AssignedIdsDiffer(acc: Ledger, lo: nat, n: nat, c: string, items: seq<Item>, i1: nat, j1: nat, i2: nat, j2: nat)
    requires IdsFrom(acc, lo, n) && DistinctIds(acc) && lo <= n
    requires var r := Put(acc, c, NewEntries(c, items, n));
      i1 < |r| && j1 < |r[i1].items| && i2 < |r| && j2 < |r[i2].items| && (i1, j1) != (i2, j2)
    ensures var r := Put(acc, c, NewEntries(c, items, n));
      r[i1].items[j1].id != r[i2].items[j2].id
  {
    var es := NewEntries(c, items, n);
    PutAt(acc, c, es);
    var r := Put(acc, c, es);
    var p := IndexOf(acc, c);
    IdsDifferInBuckets(acc, lo, n, c, items, r[i1], r[i2], i1 == p, i2 == p, i1, j1, i2, j2);
  }

  /**
   * The core of `AssignedIdsDiffer`, on two buckets that are each either the
   * new bucket or the bucket of `acc` at the same position.
   */
  lemma IdsDifferInBuckets(acc: Ledger, lo: nat, n: nat, c: string, items: seq<Item>,
                           b1: Bucket<Entry>, b2: Bucket<Entry>, new1: bool, new2: bool,
                           i1: nat, j1: nat, i2: nat, j2: nat)
    requires IdsFrom(acc, lo, n) && DistinctIds(acc) && lo <= n
    requires new1 ==> b1 == Bucket(c, NewEntries(c, items, n))
    requires !new1 ==> i1 < |acc| && b1 == acc[i1]
    requires new2 ==> b2 == Bucket(c, NewEntries(c, items, n))
    requires !new2 ==> i2 < |acc| && b2 == acc[i2]
    requires new1 && new2 ==> j1 != j2
    requires !new1 && !new2 ==> (i1, j1) != (i2, j2)
    requires j1 < |b1.items| && j2 < |b2.items|
    ensures b1.items[j1].id != b2.items[j2].id
  {
    if new1 && new2 {
      NewEntryId(c, items, n, j1);
      NewEntryId(c, items, n, j2);
      FreshIdsDiffer(n + j1, n + j2);
    } else if new1 {
      NewEntryId(c, items, n, j1);
      EarlierIdDiffers(acc, lo, n, i2, j2, n + j1);
    } else if new2 {
      NewEntryId(c, items, n, j2);
      EarlierIdDiffers(acc, lo, n, i1, j1, n + j2);
    }
  }

  lemma NewEntryId(c: string, items: seq<Item>, n: nat, j: nat)
    requires j < |items|
    ensures NewEntries(c, items, n)[j].id == FreshId(n + j)
  {
  }

  /** The `forEach` over one line's items, pushing the accepted ones into `validAmounts`. */
  method AcceptItems(items: seq<string>) returns (validAmounts: seq<Item>)
    ensures validAmounts == ParseItems(items)
  {
    validAmounts := [];
    var k := 0;
    while k < |items|
      invariant 0 <= k <= |items|
      invariant validAmounts == ParseItems(items[..k])
    {
      assert items[..k + 1][..k] == items[..k];
      var item := ParseItem(items[k]);
      if item.Some? {
        validAmounts := validAmounts + [item.value];
      }
      k := k + 1;
    }
    assert items[..k] == items;
  }

  /** `parseExpenseInput`: the loop over the lines. */
  method ParseExpenseInput(input: string, next: nat) returns (result: Ledger, next': nat)
    ensures (result, next') == ParseExpenses(input, next)
  {
    var lines := InputLines(input);
    result, next' := [], next;
    for i := 0 to |lines|
      invariant (result, next') == ParseLines(lines[..i], next)
    {
      ParseLinesPrefixStep(lines, i, next);
      result, next' := ApplyLine(lines[i], result, next');
    }
    ParseLinesAll(lines, next);
  }

  /** One more line of the fold. */
  lemma ParseLinesPrefixStep(lines: seq<string>, i: nat, next: nat)
    requires i < |lines|
    ensures ParseLines(lines[..i + 1], next) ==
      ParseLine(lines[i], ParseLines(lines[..i], next).0, ParseLines(lines[..i], next).1)
  {
    assert lines[..i + 1][..i] == lines[..i];
  }

  lemma ParseLinesAll(lines: seq<string>, next: nat)
    ensures ParseLines(lines[..|lines|], next) == ParseLines(lines, next)
  {
    assert lines[..|lines|] == lines;
  }

  /**
   * The body of the line loop: a line that does not match is skipped
   * (`continue`); otherwise its accepted items, if any, are assigned to its
   * category.
   */
  method ApplyLine(line: string, result: Ledger, next: nat) returns (result': Ledger, next': nat)
    ensures result' == ParseLine(line, result, next).0 && next' == ParseLine(line, result, next).1
  {
    result', next' := result, next;
    var groups := MatchLine(line);
    if groups.None? {
      assert LineContent(line).None?;
      return;
    }
    var category := Trim(groups.value.0);
    var validAmounts := AcceptItems(ItemTexts(groups.value.1));
    assert LineContent(line) == Some((category, validAmounts));
    if |validAmounts| > 0 {
      result' := Put(result, category, NewEntries(category, validAmounts, next));
      next' := next + |validAmounts|;
    }
  }
}
