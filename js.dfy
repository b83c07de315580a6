/**
 * The pieces of the JavaScript runtime that the ledger code relies on:
 * String.prototype.trim / split / join / toLowerCase, the `\s` and line
 * terminator character classes of regular expressions, Number.parseFloat,
 * and the decimal rendering of non-negative integers used in template
 * strings. Everything is stated over Unicode scalar values (`char`).
 */
module Js {

  datatype Option<T> = None | Some(value: T)

  /** The characters that `.` in a regular expression refuses to match. */
  predicate IsLineTerminator(c: char) {
    c == '\n' || c == '\r' || c == '\U{2028}' || c == '\U{2029}'
  }

  /** The `\s` class of regular expressions; String.prototype.trim strips the same set. */
  predicate IsWhitespace(c: char) {
    || c == '\t' || c == '\U{000B}' || c == '\U{000C}' || c == ' '
    || c == '\U{00A0}' || c == '\U{FEFF}' || c == '\U{1680}'
    || ('\U{2000}' <= c <= '\U{200A}')
    || c == '\U{202F}' || c == '\U{205F}' || c == '\U{3000}'
    || IsLineTerminator(c)
  }

  predicate IsDigit(c: char) {
    '0' <= c <= '9'
  }

  predicate IsBlank(s: string) {
    forall i :: 0 <= i < |s| ==> IsWhitespace(s[i])
  }

  predicate NoLineTerminator(s: string) {
    forall i :: 0 <= i < |s| ==> !IsLineTerminator(s[i])
  }

  predicate AllDigits(s: string) {
    forall i :: 0 <= i < |s| ==> IsDigit(s[i])
  }

  // ---------------------------------------------------------------------
  // trim

  /** Number of whitespace characters at the start of `s`. */
  function LeadingWhitespace(s: string): (n: nat)
    ensures n <= |s|
    ensures forall i :: 0 <= i < n ==> IsWhitespace(s[i])
    ensures n == |s| || !IsWhitespace(s[n])
  {
    if |s| > 0 && IsWhitespace(s[0]) then 1 + LeadingWhitespace(s[1..]) else 0
  }

  /** Number of whitespace characters at the end of `s`. */
  function TrailingWhitespace(s: string): (n: nat)
    ensures n <= |s|
    ensures forall i :: |s| - n <= i < |s| ==> IsWhitespace(s[i])
    ensures n == |s| || !IsWhitespace(s[|s| - 1 - n])
  {
    if |s| > 0 && IsWhitespace(s[|s| - 1]) then 1 + TrailingWhitespace(s[..|s| - 1]) else 0
  }

  function TrimStart(s: string): (r: string)
    ensures |r| <= |s| && r == s[|s| - |r|..]
    ensures IsBlank(s[..|s| - |r|])
    ensures r == [] || !IsWhitespace(r[0])
  {
    s[LeadingWhitespace(s)..]
  }

  function TrimEnd(s: string): (r: string)
    ensures |r| <= |s| && r == s[..|r|]
    ensures IsBlank(s[|r|..])
    ensures r == [] || !IsWhitespace(r[|r| - 1])
  {
    s[..|s| - TrailingWhitespace(s)]
  }

  /** String.prototype.trim: strip leading and trailing whitespace. */
  function Trim(s: string): (r: string)
    ensures |r| <= |s|
    ensures r == [] || (!IsWhitespace(r[0]) && !IsWhitespace(r[|r| - 1]))
  {
    TrimEnd(TrimStart(s))
  }

  /** A blank string trims to the empty string, and only a blank one does. */
  lemma {:induction false} TrimEmptyIffBlank(s: string)
    ensures Trim(s) == [] <==> IsBlank(s)
  {
    var t := TrimStart(s);
    var i := |s| - |t|;
    if t == [] {
      assert s[..i] == s;
    } else {
      assert s[i] == t[0];
      assert t[0..] == t;
    }
  }

  /** A string that neither starts nor ends with whitespace is its own trim. */
  lemma {:induction false} TrimOfTrimmed(s: string)
    requires s == [] || (!IsWhitespace(s[0]) && !IsWhitespace(s[|s| - 1]))
    ensures Trim(s) == s
  {
    if s != [] {
      assert LeadingWhitespace(s) == 0 && s[0..] == s;
      assert TrailingWhitespace(s) == 0 && s[..|s|] == s;
    }
  }

  lemma {:induction false} TrimIdempotent(s: string)
    ensures Trim(Trim(s)) == Trim(s)
  {
    TrimOfTrimmed(Trim(s));
  }

  /** Surrounding a trimmed string with whitespace does not change its trim. */
  lemma {:induction false} TrimPadded(w1: string, s: string, w2: string)
    requires IsBlank(w1) && IsBlank(w2)
    requires s == [] || (!IsWhitespace(s[0]) && !IsWhitespace(s[|s| - 1]))
    requires s != [] || w1 + w2 == []
    ensures Trim(w1 + s + w2) == s
  {
    assert w1 + s + w2 == w1 + (s + w2);
    assert s == [] ==> w2 == [];
    TrimStartBlankPrefix(w1, s + w2);
    TrimEndBlankSuffix(s, w2);
  }

  lemma {:induction false} TrimStartBlankPrefix(w: string, s: string)
    requires IsBlank(w)
    requires s == [] || !IsWhitespace(s[0])
    ensures TrimStart(w + s) == s
  {
    if w == [] {
      assert w + s == s;
    } else {
      assert (w + s)[1..] == w[1..] + s;
      TrimStartBlankPrefix(w[1..], s);
    }
  }

  lemma {:induction false} TrimEndBlankSuffix(s: string, w: string)
    requires IsBlank(w)
    requires s == [] || !IsWhitespace(s[|s| - 1])
    requires s != [] || w == []
    ensures TrimEnd(s + w) == s
  {
    if w == [] {
      assert s + w == s;
    } else {
      assert (s + w)[..|s + w| - 1] == s + w[..|w| - 1];
      TrimEndBlankSuffix(s, w[..|w| - 1]);
    }
  }

  // ---------------------------------------------------------------------
  // split and join

  /** Array.prototype.join with a separator. */
  function Join(xs: seq<string>, sep: string): string {
    if |xs| == 0 then "" else if |xs| == 1 then xs[0] else xs[0] + sep + Join(xs[1..], sep)
  }

  /** A join starts with its first piece. */
  lemma JoinStartsWithFirst(xs: seq<string>, sep: string)
    requires |xs| >= 1
    ensures |Join(xs, sep)| >= |xs[0]| && Join(xs, sep)[..|xs[0]|] == xs[0]
  {
    if |xs| > 1 {
      var a := Join(xs, sep);
      assert a == xs[0] + (sep + Join(xs[1..], sep));
    }
  }

  /** String.prototype.split with a one-character separator; its pieces join back to the input. */
  function Split(s: string, sep: char): (r: seq<string>)
    ensures |r| >= 1
    ensures Join(r, [sep]) == s
    ensures forall i :: 0 <= i < |r| ==> sep !in r[i]
  {
    if |s| == 0 then [""]
    else
      var rest := Split(s[1..], sep);
      if s[0] == sep then
        assert Join([""] + rest, [sep]) == [sep] + Join(rest, [sep]);
        [""] + rest
      else
        var head := [s[0]] + rest[0];
        var r := [head] + rest[1..];
        assert r[1..] == rest[1..];
        assert s == [s[0]] + s[1..];
        assert sep !in head;
        if |rest| == 1 then
          assert Join(r, [sep]) == head;
          r
        else
          assert Join(r, [sep]) == head + [sep] + Join(rest[1..], [sep]);
          assert Join(rest, [sep]) == rest[0] + [sep] + Join(rest[1..], [sep]);
          r
  }

  lemma {:induction false} SplitAfterPiece(a: string, sep: char, b: string)
    requires sep !in a
    ensures Split(a + [sep] + b, sep) == [a] + Split(b, sep)
  {
    if a == [] {
      assert a + [sep] + b == [sep] + b;
      assert ([sep] + b)[1..] == b;
    } else {
      assert (a + [sep] + b)[1..] == a[1..] + [sep] + b;
      SplitAfterPiece(a[1..], sep, b);
      assert a == [a[0]] + a[1..];
    }
  }

  lemma {:induction false} SplitWithoutSeparator(a: string, sep: char)
    requires sep !in a
    ensures Split(a, sep) == [a]
  {
    if a != [] {
      SplitWithoutSeparator(a[1..], sep);
      assert a == [a[0]] + a[1..];
    }
  }

  /** Splitting a join recovers the pieces when no piece holds the separator. */
  lemma {:induction false} SplitJoin(xs: seq<string>, sep: char)
    requires |xs| >= 1
    requires forall i :: 0 <= i < |xs| ==> sep !in xs[i]
    ensures Split(Join(xs, [sep]), sep) == xs
  {
    if |xs| == 1 {
      SplitWithoutSeparator(xs[0], sep);
    } else {
      SplitJoin(xs[1..], sep);
      SplitAfterPiece(xs[0], sep, Join(xs[1..], [sep]));
      assert xs == [xs[0]] + xs[1..];
    }
  }

  /** A character missing from a joined text is missing from each of its pieces. */
  lemma {:induction false} JoinPieceLacks(pieces: seq<string>, sep: string, q: nat, c: char)
    requires q < |pieces| && c !in Join(pieces, sep)
    ensures c !in pieces[q]
  {
    if |pieces| > 1 {
      assert Join(pieces, sep) == pieces[0] + sep + Join(pieces[1..], sep);
      if q > 0 {
        JoinPieceLacks(pieces[1..], sep, q - 1, c);
      }
    }
  }

  /** The pieces of a blank joined text are blank. */
  lemma {:induction false} JoinPieceBlank(pieces: seq<string>, sep: string, q: nat)
    requires q < |pieces| && IsBlank(Join(pieces, sep))
    ensures IsBlank(pieces[q])
  {
    var j := Join(pieces, sep);
    if |pieces| > 1 {
      var rest := Join(pieces[1..], sep);
      assert j == pieces[0] + sep + rest;
      if q > 0 {
        assert forall k :: 0 <= k < |rest| ==> rest[k] == j[|pieces[0]| + |sep| + k];
        JoinPieceBlank(pieces[1..], sep, q - 1);
      } else {
        assert forall k :: 0 <= k < |pieces[0]| ==> pieces[0][k] == j[k];
      }
    }
  }

  /** Newline normalisation only turns whitespace into whitespace. */
  lemma {:induction false} ReplaceCrLfBlank(s: string)
    requires IsBlank(s)
    ensures IsBlank(ReplaceCrLf(s))
  {
    if |s| >= 2 && s[0] == '\r' && s[1] == '\n' {
      ReplaceCrLfBlank(s[2..]);
    } else if |s| > 0 {
      ReplaceCrLfBlank(s[1..]);
    }
  }

  /** Every piece of a blank text split at line feeds is blank. */
  lemma {:induction false} SplitBlankLines(s: string)
    requires IsBlank(s)
    ensures forall q :: 0 <= q < |Split(NormalizeNewlines(s), '\n')| ==> IsBlank(Split(NormalizeNewlines(s), '\n')[q])
  {
    ReplaceCrLfBlank(s);
    var pieces := Split(NormalizeNewlines(s), '\n');
    forall q | 0 <= q < |pieces|
      ensures IsBlank(pieces[q])
    {
      JoinPieceBlank(pieces, "\n", q);
    }
  }

  lemma {:induction false} NoLineTerminatorConcat(a: string, b: string)
    requires NoLineTerminator(a) && NoLineTerminator(b)
    ensures NoLineTerminator(a + b)
  {
    assert forall k :: 0 <= k < |a| ==> (a + b)[k] == a[k];
    assert forall k :: |a| <= k < |a + b| ==> (a + b)[k] == b[k - |a|];
  }

  /** A character in no piece and not in the separator is not in the joined text. */
  lemma {:induction false} JoinLacks(pieces: seq<string>, sep: string, c: char)
    requires c !in sep
    requires forall q :: 0 <= q < |pieces| ==> c !in pieces[q]
    ensures c !in Join(pieces, sep)
  {
    if |pieces| > 1 {
      JoinLacks(pieces[1..], sep, c);
      assert Join(pieces, sep) == pieces[0] + sep + Join(pieces[1..], sep);
    }
  }

  /** Text put in front of a join belongs to its first piece. */
  lemma {:induction false} JoinPrependFirst(w: string, pieces: seq<string>, sep: string)
    requires |pieces| >= 1
    ensures w + Join(pieces, sep) == Join([w + pieces[0]] + pieces[1..], sep)
  {
    var ps := [w + pieces[0]] + pieces[1..];
    assert ps[1..] == pieces[1..];
    if |pieces| > 1 {
      assert w + (pieces[0] + sep + Join(pieces[1..], sep)) == (w + pieces[0]) + sep + Join(pieces[1..], sep);
    }
  }

  /** String.prototype.replace with a global one-character pattern. */
  function ReplaceChar(s: string, from: char, to: char): (r: string)
    ensures |r| == |s|
    ensures forall i :: 0 <= i < |s| ==> r[i] == if s[i] == from then to else s[i]
  {
    if |s| == 0 then "" else [if s[0] == from then to else s[0]] + ReplaceChar(s[1..], from, to)
  }

  lemma {:induction false} ReplaceCharAbsent(s: string, from: char, to: char)
    requires from !in s
    ensures ReplaceChar(s, from, to) == s
  {
    assert forall i :: 0 <= i < |s| ==> s[i] != from;
  }

  /** `s.replace(/\r\n/g, "\n")`: every CR LF pair becomes one LF. */
  function ReplaceCrLf(s: string): (r: string)
    ensures |r| <= |s|
    ensures '\r' !in s ==> r == s
  {
    if |s| >= 2 && s[0] == '\r' && s[1] == '\n' then "\n" + ReplaceCrLf(s[2..])
    else if |s| == 0 then ""
    else [s[0]] + ReplaceCrLf(s[1..])
  }

  /** `.replace(/\r\n/g, "\n").replace(/\r/g, "\n")`, as both the ledger parser and the CSV reader do it. */
  function NormalizeNewlines(s: string): (r: string)
    ensures '\r' !in r
    ensures '\r' !in s ==> r == s
  {
    ReplaceChar(ReplaceCrLf(s), '\r', '\n')
  }

  /** ASCII part of String.prototype.toLowerCase. */
  function ToLower(s: string): (r: string)
    ensures |r| == |s|
    ensures forall i :: 0 <= i < |s| ==> r[i] == if 'A' <= s[i] <= 'Z' then (s[i] as int + 32) as char else s[i]
  {
    if |s| == 0 then "" else [if 'A' <= s[0] <= 'Z' then (s[0] as int + 32) as char else s[0]] + ToLower(s[1..])
  }

  // ---------------------------------------------------------------------
  // numbers

  function Pow10(n: nat): (r: nat)
    ensures r >= 1
  {
    if n == 0 then 1 else 10 * Pow10(n - 1)
  }

  function DigitValue(c: char): nat
    requires IsDigit(c)
  {
    c as int - '0' as int
  }

  /** The value of a string of decimal digits, most significant first. */
  function DigitsValue(ds: string): (r: nat)
    requires AllDigits(ds)
    ensures r < Pow10(|ds|)
  {
    if |ds| == 0 then 0 else 10 * DigitsValue(ds[..|ds| - 1]) + DigitValue(ds[|ds| - 1])
  }

  /** The length of the longest prefix of decimal digits. */
  function DigitRun(s: string): (n: nat)
    ensures n <= |s| && AllDigits(s[..n])
    ensures n == |s| || !IsDigit(s[n])
  {
    if |s| > 0 && IsDigit(s[0]) then
      var n := 1 + DigitRun(s[1..]);
      assert s[..n] == [s[0]] + s[1..][..n - 1];
      n
    else 0
  }

  /** Template-string rendering `${n}` of a non-negative integer. */
  function NatToString(n: nat): (s: string)
    ensures |s| >= 1 && AllDigits(s)
  {
    if n < 10 then ['0' + n as char]
    else NatToString(n / 10) + ['0' + (n % 10) as char]
  }

  /** Reading back the decimal rendering gives the number: the rendering is injective. */
  lemma {:induction false} NatToStringValue(n: nat)
    ensures DigitsValue(NatToString(n)) == n
  {
    if n >= 10 {
      NatToStringValue(n / 10);
      var s := NatToString(n);
      assert s[..|s| - 1] == NatToString(n / 10);
    }
  }

  lemma {:induction false} NatToStringInjective(m: nat, n: nat)
    requires NatToString(m) == NatToString(n)
    ensures m == n
  {
    NatToStringValue(m);
    NatToStringValue(n);
  }

  /** The result of Number.parseFloat. */
  datatype Num = NaN | Infinity(negative: bool) | Finite(value: real)

  /** `m * 10^e` for a signed exponent. */
  function Scale(m: real, e: int): (r: real)
    ensures m >= 0.0 ==> r >= 0.0
  {
    if e >= 0 then
      var p := Pow10(e) as real;
      assert m >= 0.0 ==> m * p >= 0.0 * p;
      m * p
    else m / Pow10(-e) as real
  }

  /** The digits after the point, `d / 10^n`, are never negative. */
  function Fraction(d: nat, p: nat): (r: real)
    requires p > 0
    ensures r >= 0.0
  {
    var q := d as real / p as real;
    assert q * p as real == d as real;
    q
  }

  /** `DecimalDigits [. DecimalDigits]` or `. DecimalDigits` at the head of `u`: (value, length). */
  function MantissaPrefix(u: string): (r: Option<(real, nat)>)
    ensures r.Some? ==> 0 < r.value.1 <= |u| && r.value.0 >= 0.0
  {
    var n1 := DigitRun(u);
    var hasDot := n1 < |u| && u[n1] == '.';
    var n2 := if hasDot then DigitRun(u[n1 + 1..]) else 0;
    if n1 == 0 && n2 == 0 then None
    else
      var fraction := if hasDot then Fraction(DigitsValue(u[n1 + 1..][..n2]), Pow10(n2)) else 0.0;
      Some((DigitsValue(u[..n1]) as real + fraction, if hasDot then n1 + 1 + n2 else n1))
  }

  /** `(e|E) [+|-] DecimalDigits` at the head of `u`: (signed exponent, length). */
  function ExponentPrefix(u: string): (r: Option<(int, nat)>)
    ensures r.Some? ==> 1 < r.value.1 <= |u|
  {
    if |u| == 0 || (u[0] != 'e' && u[0] != 'E') then None
    else
      var signed := 1 < |u| && (u[1] == '+' || u[1] == '-');
      var q := if signed then 2 else 1;
      var n := DigitRun(u[q..]);
      if n == 0 then None
      else
        var e := DigitsValue(u[q..][..n]);
        Some((if signed && u[1] == '-' then -(e as int) else e, q + n))
  }

  /** The unsigned StrDecimalLiteral at the head of `u`, as (value, length consumed), if there is one. */
  function DecimalPrefix(u: string): (r: Option<(real, nat)>)
    ensures r.Some? ==> 0 < r.value.1 <= |u| && r.value.0 >= 0.0
  {
    match MantissaPrefix(u)
    case None => None
    case Some((m, p)) =>
      match ExponentPrefix(u[p..])
      case None => Some((m, p))
      case Some((e, k)) => Some((Scale(m, e), p + k))
  }

  predicate StartsWithInfinity(u: string) {
    |u| >= 8 && u[..8] == "Infinity"
  }

  /** `Infinity` or the longest unsigned decimal literal at the head of `u`; NaN when there is none. */
  function ParseUnsigned(u: string): (r: Num)
    ensures r.Finite? ==> r.value >= 0.0
  {
    if StartsWithInfinity(u) then Infinity(false)
    else
      var d := DecimalPrefix(u);
      if d.None? then NaN else Finite(d.value.0)
  }

  function Negate(n: Num): Num {
    match n
    case NaN => NaN
    case Infinity(neg) => Infinity(!neg)
    case Finite(v) => Finite(-v)
  }

  /**
   * Number.parseFloat: skip leading whitespace, read an optional sign and then
   * `Infinity` or the longest decimal literal; NaN when there is none.
   */
  function ParseFloat(s: string): Num {
    var (negative, u) := SplitSign(TrimStart(s));
    var n := ParseUnsigned(u);
    if negative then Negate(n) else n
  }

  /** An optional leading `-` or `+`: (whether it was `-`, the rest). */
  function SplitSign(t: string): (bool, string) {
    if |t| > 0 && t[0] == '-' then (true, t[1..])
    else if |t| > 0 && t[0] == '+' then (false, t[1..])
    else (false, t)
  }

  /** A string that starts with a digit always reads as a finite, non-negative number. */
  lemma {:induction false} ParseFloatOfLeadingDigit(s: string)
    requires |s| > 0 && IsDigit(s[0])
    ensures ParseFloat(s).Finite? && ParseFloat(s).value >= 0.0
  {
    assert TrimStart(s) == s;
    assert SplitSign(s) == (false, s);
    assert !StartsWithInfinity(s) by {
      if |s| >= 8 { assert s[..8][0] == s[0]; }
    }
    DecimalPrefixOfLeadingDigit(s);
  }

  lemma {:induction false} DecimalPrefixOfLeadingDigit(u: string)
    requires |u| > 0 && IsDigit(u[0])
    ensures DecimalPrefix(u).Some?
  {
    assert DigitRun(u) > 0;
    assert MantissaPrefix(u).Some?;
  }

  /** A string that begins with a sign never yields a positive amount. */
  lemma {:induction false} ParseFloatNegative(s: string)
    requires |s| > 0 && s[0] == '-'
    ensures ParseFloat(s).NaN? || ParseFloat(s) == Infinity(true) || (ParseFloat(s).Finite? && ParseFloat(s).value <= 0.0)
  {
    assert TrimStart(s) == s;
    assert SplitSign(s) == (true, s[1..]);
  }
}
