/**
 * The text the ledger page writes back after every entry edit: one line
 * `category: item, item, …` per bucket, each item `amount` or
 * `amount(description)`. Reading that text back with the parser recovers
 * the categories, amounts and descriptions, under the conditions of
 * `Serializable`.
 */
module LedgerText {
  import opened Js
  import opened OrderedMap
  import opened Expenses
  import opened ExpenseParser

  /**
   * One item as written back; `show` is the number-to-text conversion of
   * the template literal. A description is written only when it is a
   * non-empty string.
   */
  function ItemText(e: Entry, show: real -> string): string {
    if e.description.Some? && e.description.value != [] then show(e.amount) + "(" + e.description.value + ")"
    else show(e.amount)
  }

  function ItemTextsOf(es: seq<Entry>, show: real -> string): (ts: seq<string>)
    ensures |ts| == |es|
    ensures forall k :: 0 <= k < |es| ==> ts[k] == ItemText(es[k], show)
  {
    seq(|es|, k requires 0 <= k < |es| => ItemText(es[k], show))
  }

  /** `${cat}: ${amounts}` with the items joined by `", "`. */
  function LineText(b: Bucket<Entry>, show: real -> string): string {
    b.key + ": " + Join(ItemTextsOf(b.items, show), ", ")
  }

  function LinesOf(l: Ledger, show: real -> string): (lines: seq<string>)
    ensures |lines| == |l|
    ensures forall i :: 0 <= i < |l| ==> lines[i] == LineText(l[i], show)
  {
    seq(|l|, i requires 0 <= i < |l| => LineText(l[i], show))
  }

  /** The rebuilt `rawInput`: the lines joined by `"\n"`. */
  function Serialize(l: Ledger, show: real -> string): string {
    Join(LinesOf(l, show), "\n")
  }

  // ---------------------------------------------------------------------
  // When the text reads back

  /** A category that survives a round trip: not blank, trimmed, on one line, without a colon. */
  predicate CategoryOk(c: string) {
    c != [] && !IsWhitespace(c[0]) && !IsWhitespace(c[|c| - 1]) &&
    NoLineTerminator(c) && forall k :: 0 <= k < |c| ==> !IsColon(c[k])
  }

  /** A description that survives a round trip: trimmed, on one line, without `,`, `，` or `)`. */
  predicate DescriptionOk(d: string) {
    d == [] ||
    (!IsWhitespace(d[0]) && !IsWhitespace(d[|d| - 1]) && NoLineTerminator(d) &&
     ',' !in d && FullWidthComma !in d && ')' !in d)
  }

  /** An entry whose amount prints as a digit/dot string and whose description can be written. */
  predicate Printable(e: Entry, show: real -> string) {
    AmountText(show(e.amount)) && (e.description.Some? ==> DescriptionOk(e.description.value))
  }

  /** A printable entry whose positive amount parses back from its text. */
  predicate EntryOk(e: Entry, show: real -> string) {
    Printable(e, show) && ParseFloat(show(e.amount)) == Finite(e.amount) && e.amount > 0.0
  }

  predicate Serializable(l: Ledger, show: real -> string) {
    UniqueKeys(l) && NoEmptyBucket(l) &&
    (forall i :: 0 <= i < |l| ==> CategoryOk(l[i].key)) &&
    (forall i, j :: 0 <= i < |l| && 0 <= j < |l[i].items| ==> EntryOk(l[i].items[j], show))
  }

  /** The description as it reads back: an empty one is not written, so it reads back as none. */
  function Described(d: Option<string>): Option<string> {
    if d.Some? && d.value != [] then d else None
  }

  function ItemsOf(es: seq<Entry>): (items: seq<Item>)
    ensures |items| == |es|
    ensures forall k :: 0 <= k < |es| ==> items[k] == Item(es[k].amount, Described(es[k].description))
  {
    seq(|es|, k requires 0 <= k < |es| => Item(es[k].amount, Described(es[k].description)))
  }

  /** `r` has the categories of `l` in the same order, and the same amounts and descriptions bucket by bucket. */
  predicate SameContent(r: Ledger, l: Ledger) {
    |r| == |l| &&
    (forall i :: 0 <= i < |l| ==> r[i].key == l[i].key && |r[i].items| == |l[i].items|) &&
    (forall i, j :: 0 <= i < |l| && 0 <= j < |l[i].items| && j < |r[i].items| ==>
      r[i].items[j].amount == l[i].items[j].amount &&
      r[i].items[j].description == Described(l[i].items[j].description))
  }

  // ---------------------------------------------------------------------
  // Items

  /** Item `k > 0` of a `", "` join, as the parser's split on `,` sees it, carries the space. */
  function Spaced(ts: seq<string>): (r: seq<string>)
    requires |ts| >= 1
    ensures |r| == |ts| && r[0] == ts[0]
    ensures forall k :: 1 <= k < |ts| ==> r[k] == " " + ts[k]
  {
    [ts[0]] + seq(|ts| - 1, k requires 0 <= k < |ts| - 1 => " " + ts[k + 1])
  }

  lemma {:induction false} JoinSpaced(ts: seq<string>)
    requires |ts| >= 1
    ensures Join(ts, ", ") == Join(Spaced(ts), ",")
  {
    if |ts| > 1 {
      var rest := ts[1..];
      JoinSpaced(rest);
      JoinPrependFirst(" ", Spaced(rest), ",");
      assert [" " + Spaced(rest)[0]] + Spaced(rest)[1..] == Spaced(ts)[1..];
      assert ts[0] + ", " + Join(rest, ", ") == ts[0] + "," + (" " + Join(rest, ", "));
    }
  }

  /** The item text reads back as the entry's amount and description. */
  lemma {:induction false} ParseItemText(e: Entry, show: real -> string)
    requires EntryOk(e, show)
    ensures ParseItem(ItemText(e, show)) == Some(Item(e.amount, Described(e.description)))
  {
    if e.description.Some? && e.description.value != [] {
      ParseNotedItemText(show(e.amount), e.description.value, e.amount);
    } else {
      ParseItemBare(show(e.amount), e.amount);
    }
  }

  lemma {:induction false} ParseNotedItemText(d: string, note: string, v: real)
    requires AmountText(d) && ParseFloat(d) == Finite(v) && v > 0.0
    requires note != [] && DescriptionOk(note)
    ensures ParseItem(d + "(" + note + ")") == Some(Item(v, Some(note)))
  {
    Bracketed(d, note);
    ParseItemWithNote(d, note, '(', ')', v);
    TrimOfTrimmed(note);
  }

  lemma {:induction false} Bracketed(d: string, note: string)
    ensures d + "(" + note + ")" == d + (['('] + note + [')'])
  {
  }

  /** An amount text is one comma-free, line-terminator-free piece with no whitespace at either end. */
  lemma {:induction false} AmountTextShape(d: string)
    requires AmountText(d)
    ensures !IsWhitespace(d[0]) && !IsWhitespace(d[|d| - 1]) && NoLineTerminator(d)
    ensures ',' !in d && FullWidthComma !in d && ')' !in d
  {
    assert IsAmountChar(d[0]) && IsAmountChar(d[|d| - 1]);
    forall k | 0 <= k < |d| ensures !IsLineTerminator(d[k]) && d[k] != ',' && d[k] != FullWidthComma && d[k] != ')' {
      assert IsAmountChar(d[k]);
    }
  }

  /** The item text is one comma-free, line-terminator-free piece with no whitespace at either end. */
  lemma {:induction false} ItemTextShape(e: Entry, show: real -> string)
    requires Printable(e, show)
    ensures var t := ItemText(e, show);
      t != [] && !IsWhitespace(t[0]) && !IsWhitespace(t[|t| - 1]) && NoLineTerminator(t) &&
      ',' !in t && FullWidthComma !in t
  {
    var d := show(e.amount);
    AmountTextShape(d);
    if e.description.Some? && e.description.value != [] {
      var note := e.description.value;
      var t := d + "(" + note + ")";
      assert t == d + ("(" + (note + ")"));
      assert NoLineTerminator("(") && NoLineTerminator(")");
      NoLineTerminatorConcat(note, ")");
      NoLineTerminatorConcat("(", note + ")");
      NoLineTerminatorConcat(d, "(" + (note + ")"));
      assert t[0] == d[0] && t[|t| - 1] == ')';
    }
  }

  lemma {:induction false} ParseItemsAllAccepted(xs: seq<string>, items: seq<Item>)
    requires |xs| == |items|
    requires forall k :: 0 <= k < |xs| ==> ParseItem(xs[k]) == Some(items[k])
    ensures ParseItems(xs) == items
  {
    if xs != [] {
      var xs', items' := xs[..|xs| - 1], items[..|items| - 1];
      forall k | 0 <= k < |xs'|
        ensures ParseItem(xs'[k]) == Some(items'[k])
      {
        assert xs'[k] == xs[k] && items'[k] == items[k];
      }
      ParseItemsAllAccepted(xs', items');
      assert ParseItem(xs[|xs| - 1]) == Some(items[|items| - 1]);
      LastSplit(items);
    }
  }

  /** The items part of a line is one non-empty line that starts with a digit or a dot. */
  lemma {:induction false} JoinedItemsShape(es: seq<Entry>, show: real -> string)
    requires |es| >= 1 && forall k :: 0 <= k < |es| ==> Printable(es[k], show)
    ensures var a := Join(ItemTextsOf(es, show), ", ");
      a != [] && !IsWhitespace(a[0]) && NoLineTerminator(a)
  {
    var ts := ItemTextsOf(es, show);
    forall k | 0 <= k < |es| ensures ts[k] != [] && !IsWhitespace(ts[k][0]) && NoLineTerminator(ts[k]) {
      ItemTextShape(es[k], show);
    }
    JoinNoLineTerminator(ts, ", ");
    JoinStartsWithFirst(ts, ", ");
    var a := Join(ts, ", ");
    assert a[0] == a[..|ts[0]|][0] == ts[0][0];
  }

  /** Splitting the items part on `,` (after `，` became `,`) gives the item texts, each but the first after a space. */
  lemma {:induction false} ItemTextsOfJoin(es: seq<Entry>, show: real -> string)
    requires |es| >= 1 && forall k :: 0 <= k < |es| ==> Printable(es[k], show)
    ensures ItemTexts(Join(ItemTextsOf(es, show), ", ")) == Spaced(ItemTextsOf(es, show))
  {
    var ts := ItemTextsOf(es, show);
    var a := Join(ts, ", ");
    JoinSpaced(ts);
    var sp := Spaced(ts);
    forall k | 0 <= k < |sp| ensures ',' !in sp[k] && FullWidthComma !in sp[k] {
      ItemTextShape(es[k], show);
    }
    JoinLacks(sp, ",", FullWidthComma);
    ReplaceCharAbsent(a, FullWidthComma, ',');
    SplitJoin(sp, ',');
  }

  /** The items part of a line reads back as the bucket's amounts and descriptions. */
  lemma {:induction false} ParseItemsOfJoin(es: seq<Entry>, show: real -> string)
    requires |es| >= 1 && forall k :: 0 <= k < |es| ==> EntryOk(es[k], show)
    ensures ParseItems(ItemTexts(Join(ItemTextsOf(es, show), ", "))) == ItemsOf(es)
  {
    var ts := ItemTextsOf(es, show);
    ItemTextsOfJoin(es, show);
    var sp := Spaced(ts);
    forall k | 0 <= k < |sp| ensures ParseItem(sp[k]) == Some(ItemsOf(es)[k]) {
      ParseSpacedItem(es, show, k);
    }
    ParseItemsAllAccepted(sp, ItemsOf(es));
  }

  lemma {:induction false} ParseSpacedItem(es: seq<Entry>, show: real -> string, k: nat)
    requires |es| >= 1 && k < |es| && EntryOk(es[k], show)
    ensures ParseItem(Spaced(ItemTextsOf(es, show))[k]) == Some(Item(es[k].amount, Described(es[k].description)))
  {
    var ts := ItemTextsOf(es, show);
    if k > 0 {
      ParseItemTextAfterSpace(es[k], show, Spaced(ts)[k]);
    } else {
      ParseItemTextAfterSpace(es[k], show, ts[0]);
    }
  }

  /** The item text reads back the same with or without the space the join puts in front of it. */
  lemma {:induction false} ParseItemTextAfterSpace(e: Entry, show: real -> string, x: string)
    requires EntryOk(e, show)
    requires x == ItemText(e, show) || x == " " + ItemText(e, show)
    ensures ParseItem(x) == Some(Item(e.amount, Described(e.description)))
  {
    var t := ItemText(e, show);
    ParseItemText(e, show);
    ItemTextShape(e, show);
    if x == t {
      TrimOfTrimmed(t);
    } else {
      assert x == " " + t + "";
      TrimPadded(" ", t, "");
    }
    ParseItemPadded(t, x, Some(Item(e.amount, Described(e.description))));
  }

  /** An item parses like its trimmed text. */
  lemma {:induction false} ParseItemPadded(t: string, x: string, r: Option<Item>)
    requires Trim(x) == t && ParseItem(t) == r
    ensures ParseItem(x) == r
  {
    TrimIdempotent(x);
  }

  lemma {:induction false} JoinNoLineTerminator(pieces: seq<string>, sep: string)
    requires NoLineTerminator(sep)
    requires forall q :: 0 <= q < |pieces| ==> NoLineTerminator(pieces[q])
    ensures NoLineTerminator(Join(pieces, sep))
  {
    if |pieces| > 1 {
      JoinNoLineTerminator(pieces[1..], sep);
      assert Join(pieces, sep) == pieces[0] + sep + Join(pieces[1..], sep);
    }
  }

  // ---------------------------------------------------------------------
  // Lines

  /** `\s*(.+)$` after the colon skips the single space and captures the rest. */
  lemma {:induction false} AmountsGroupAfterSpace(a: string)
    requires a != [] && !IsWhitespace(a[0]) && NoLineTerminator(a)
    ensures AmountsGroup(" " + a) == Some(a)
  {
    assert AmountsGroup(a) == Some(a);
    assert (" " + a)[1..] == a;
  }

  /** The written line matches with the category before the first colon and the items after the space. */
  lemma {:induction false} MatchLineOfLineText(b: Bucket<Entry>, show: real -> string)
    requires CategoryOk(b.key) && |b.items| >= 1
    requires forall k :: 0 <= k < |b.items| ==> Printable(b.items[k], show)
    ensures MatchLine(LineText(b, show)).Some?
    ensures MatchLine(LineText(b, show)).value.0 == b.key
    ensures MatchLine(LineText(b, show)).value.1 == Join(ItemTextsOf(b.items, show), ", ")
  {
    var key := b.key;
    var a := Join(ItemTextsOf(b.items, show), ", ");
    JoinedItemsShape(b.items, show);
    var line := LineText(b, show);
    assert line == key + ": " + a;
    assert line[..|key|] == key;
    assert line[|key| + 1..] == " " + a;
    AmountsGroupAfterSpace(a);
    assert ColonAt(line, |key|);
    assert forall j :: 0 <= j < |key| ==> !IsColon(line[j]);
    MatchLineFirstColon(line);
  }

  lemma {:induction false} LineContentOfMatch(line: string, c: string, a: string)
    requires MatchLine(line).Some? && MatchLine(line).value.0 == c && MatchLine(line).value.1 == a
    ensures LineContent(line).Some?
    ensures LineContent(line).value.0 == Trim(c) && LineContent(line).value.1 == ParseItems(ItemTexts(a))
  {
  }

  /** A written line reads back as its category and items. */
  lemma {:induction false} LineContentOfLineText(b: Bucket<Entry>, show: real -> string)
    requires CategoryOk(b.key) && |b.items| >= 1
    requires forall k :: 0 <= k < |b.items| ==> EntryOk(b.items[k], show)
    ensures LineContent(LineText(b, show)).Some?
    ensures LineContent(LineText(b, show)).value.0 == b.key
    ensures LineContent(LineText(b, show)).value.1 == ItemsOf(b.items)
  {
    var a := Join(ItemTextsOf(b.items, show), ", ");
    MatchLineOfLineText(b, show);
    LineContentOfMatch(LineText(b, show), b.key, a);
    ParseItemsOfJoin(b.items, show);
    TrimOfTrimmed(b.key);
  }

  /** A written line is one line of text that is not blank. */
  lemma {:induction false} LineTextShape(b: Bucket<Entry>, show: real -> string)
    requires CategoryOk(b.key) && |b.items| >= 1
    requires forall k :: 0 <= k < |b.items| ==> Printable(b.items[k], show)
    ensures var line := LineText(b, show);
      NoLineTerminator(line) && line != [] && !IsWhitespace(line[0])
  {
    var a := Join(ItemTextsOf(b.items, show), ", ");
    JoinedItemsShape(b.items, show);
    assert NoLineTerminator(": ");
    NoLineTerminatorConcat(": ", a);
    NoLineTerminatorConcat(b.key, ": " + a);
    LineTextParts(b.key, a);
  }

  lemma LineTextParts(key: string, a: string)
    requires key != []
    ensures key + ": " + a == key + (": " + a)
    ensures (key + ": " + a)[0] == key[0]
  {
  }

  lemma {:induction false} LineTerminatorsAbsent(s: string)
    requires NoLineTerminator(s) && s != [] && !IsWhitespace(s[0])
    ensures '\n' !in s && '\r' !in s && !IsBlank(s)
  {
    assert forall k :: 0 <= k < |s| ==> s[k] != '\n' && s[k] != '\r' by {
      assert forall k :: 0 <= k < |s| ==> !IsLineTerminator(s[k]);
    }
  }

  lemma {:induction false} NonBlankKeepsAll(lines: seq<string>)
    requires forall k :: 0 <= k < |lines| ==> !IsBlank(lines[k])
    ensures NonBlank(lines) == lines
  {
    if lines != [] {
      var init := lines[..|lines| - 1];
      forall k | 0 <= k < |init| ensures !IsBlank(init[k]) {
        assert init[k] == lines[k];
      }
      NonBlankKeepsAll(init);
      NonBlankKeepsLast(lines);
      LastSplit(lines);
    }
  }

  lemma {:induction false} NonBlankKeepsLast(lines: seq<string>)
    requires lines != [] && !IsBlank(lines[|lines| - 1])
    ensures NonBlank(lines) == NonBlank(lines[..|lines| - 1]) + [lines[|lines| - 1]]
  {
    TrimEmptyIffBlank(lines[|lines| - 1]);
  }

  /** The parser sees exactly the written lines. */
  lemma {:induction false} InputLinesOfSerialize(l: Ledger, show: real -> string)
    requires Serializable(l, show)
    ensures InputLines(Serialize(l, show)) == LinesOf(l, show)
  {
    if l == [] {
      assert Serialize(l, show) == "";
      InputLinesOfEmpty();
    } else {
      InputLinesOfWritten(LinesOf(l, show), l, show);
    }
  }

  lemma InputLinesOfEmpty()
    ensures InputLines("") == []
  {
    assert Split("", '\n') == [""];
    assert NonBlank([""]) == [] by {
      TrimEmptyIffBlank("");
    }
  }

  lemma InputLinesOfWritten(lines: seq<string>, l: Ledger, show: real -> string)
    requires l != [] && Serializable(l, show) && lines == LinesOf(l, show)
    ensures InputLines(Join(lines, "\n")) == lines
  {
    forall i | 0 <= i < |l| ensures '\n' !in lines[i] && '\r' !in lines[i] && !IsBlank(lines[i]) {
      LineTextShape(l[i], show);
      LineTerminatorsAbsent(lines[i]);
    }
    JoinLacks(lines, "\n", '\r');
    SplitJoin(lines, '\n');
    NonBlankKeepsAll(lines);
  }

  /** Parsing the written lines rebuilds the ledger's content bucket by bucket. */
  lemma {:induction false} ParseLinesOfSerialize(l: Ledger, show: real -> string, next: nat)
    requires Serializable(l, show)
    ensures SameContent(ParseLines(LinesOf(l, show), next).0, l)
  {
    if l != [] {
      var init := l[..|l| - 1];
      var b := l[|l| - 1];
      LastSplit(l);
      SerializableSplit(init, b, show);
      ParseLinesOfSerialize(init, show, next);
      ParseLinesAppendBucket(init, b, show, next);
    }
  }

  lemma LastSplit<T>(s: seq<T>)
    requires s != []
    ensures s == s[..|s| - 1] + [s[|s| - 1]]
  {
  }

  lemma {:induction false} SerializableSplit(init: Ledger, b: Bucket<Entry>, show: real -> string)
    requires Serializable(init + [b], show)
    ensures Serializable(init, show)
    ensures UniqueKeys(init + [b]) && CategoryOk(b.key) && |b.items| >= 1
    ensures forall k :: 0 <= k < |b.items| ==> EntryOk(b.items[k], show)
  {
    var l := init + [b];
    assert l[|init|] == b;
    assert forall i :: 0 <= i < |init| ==> l[i] == init[i];
  }

  lemma {:induction false} LinesOfPrefix(init: Ledger, b: Bucket<Entry>, show: real -> string)
    ensures LinesOf(init + [b], show)[..|init|] == LinesOf(init, show)
    ensures LinesOf(init + [b], show)[|init|] == LineText(b, show)
  {
    var l := init + [b];
    assert forall i :: 0 <= i < |init| ==> l[i] == init[i];
  }

  /** One more written line adds its bucket to what the earlier lines rebuilt. */
  lemma {:induction false} ParseLinesAppendBucket(init: Ledger, b: Bucket<Entry>, show: real -> string, next: nat)
    requires SameContent(ParseLines(LinesOf(init, show), next).0, init)
    requires UniqueKeys(init + [b]) && CategoryOk(b.key) && |b.items| >= 1
    requires forall k :: 0 <= k < |b.items| ==> EntryOk(b.items[k], show)
    ensures SameContent(ParseLines(LinesOf(init + [b], show), next).0, init + [b])
  {
    var lines := LinesOf(init + [b], show);
    LinesOfPrefix(init, b, show);
    ParseLinesStep(lines, next);
    var prev := ParseLines(LinesOf(init, show), next);
    LineContentOfLineText(b, show);
    ParseLineOfContent(lines[|init|], b.key, ItemsOf(b.items), prev.0, prev.1);
    var es := NewEntries(b.key, ItemsOf(b.items), prev.1);
    AppendSameContent(prev.0, init, b, es);
  }

  /** Appending a new last bucket whose entries read like `b`'s extends the same content. */
  lemma {:induction false} AppendSameContent(r: Ledger, init: Ledger, b: Bucket<Entry>, es: seq<Entry>)
    requires SameContent(r, init) && UniqueKeys(init + [b])
    requires |es| == |b.items|
    requires forall k :: 0 <= k < |es| ==>
      es[k].amount == b.items[k].amount && es[k].description == Described(b.items[k].description)
    ensures SameContent(Put(r, b.key, es), init + [b])
  {
    assert b.key !in Keys(r) by {
      assert forall j :: 0 <= j < |init| ==> Keys(r)[j] == (init + [b])[j].key;
      assert forall j :: 0 <= j < |init| ==> (init + [b])[j].key != (init + [b])[|init|].key;
    }
    var r' := r + [Bucket(b.key, es)];
    assert Put(r, b.key, es) == r';
    var l := init + [b];
    assert forall i :: 0 <= i < |init| ==> r'[i] == r[i] && l[i] == init[i];
  }

  /**
   * The round trip: parsing the written text gives back the categories in
   * order, and in each the amounts and descriptions in order (ids are
   * fresh).
   */
  lemma {:induction false} SerializeRoundTrip(l: Ledger, show: real -> string, next: nat)
    requires Serializable(l, show)
    ensures SameContent(ParseExpenses(Serialize(l, show), next).0, l)
  {
    InputLinesOfSerialize(l, show);
    ParseLinesOfSerialize(l, show, next);
  }
}
