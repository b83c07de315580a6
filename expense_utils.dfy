/**
 * The two views of a ledger and the conversions between them: the grouped
 * ledger (category → entries) and the flat entry list the chart edits, plus
 * the back-filling of missing entry ids.
 */
module ExpenseUtils {
  import opened Js
  import opened OrderedMap
  import opened Expenses

  // ---------------------------------------------------------------------
  // Grouped → flat

  /** `{ ...entry, category }` for every entry of a bucket. */
  function Relabel(es: seq<Entry>, c: string): (r: seq<Entry>)
    ensures |r| == |es|
    ensures forall k :: 0 <= k < |es| ==> r[k] == es[k].(category := c)
  {
    seq(|es|, k requires 0 <= k < |es| => es[k].(category := c))
  }

  /** The flat list: buckets in key order, each bucket's entries in order, relabelled with the key. */
  function FlatEntries(l: Ledger): (r: seq<Entry>)
    ensures |r| == EntryCount(l)
  {
    if l == [] then []
    else FlatEntries(l[..|l| - 1]) + Relabel(l[|l| - 1].items, l[|l| - 1].key)
  }

  /**
   * Entry `j` of bucket `i` sits at position `EntryCount(l[..i]) + j` of the
   * flat list, carrying the bucket's key as its category.
   */
  lemma {:induction false} FlatEntriesAt(l: Ledger, i: nat, j: nat)
    requires i < |l| && j < |l[i].items|
    ensures EntryCount(l[..i]) + j < |FlatEntries(l)|
    ensures FlatEntries(l)[EntryCount(l[..i]) + j] == l[i].items[j].(category := l[i].key)
  {
    var init := l[..|l| - 1];
    if i == |l| - 1 {
      assert l[..i] == init;
    } else {
      assert l[..i] == init[..i];
      FlatEntriesAt(init, i, j);
    }
  }

  /** `parsedToFlatList`. */
  method ParsedToFlatList(parsed: Ledger) returns (entries: seq<Entry>)
    ensures entries == FlatEntries(parsed)
  {
    entries := [];
    var i := 0;
    while i < |parsed|
      invariant 0 <= i <= |parsed|
      invariant entries == FlatEntries(parsed[..i])
    {
      var category := parsed[i].key;
      var categoryEntries := parsed[i].items;
      var j := 0;
      while j < |categoryEntries|
        invariant 0 <= j <= |categoryEntries|
        invariant entries == FlatEntries(parsed[..i]) + Relabel(categoryEntries[..j], category)
      {
        assert Relabel(categoryEntries[..j + 1], category) ==
          Relabel(categoryEntries[..j], category) + [categoryEntries[j].(category := category)];
        entries := entries + [categoryEntries[j].(category := category)];
        j := j + 1;
      }
      assert categoryEntries[..j] == categoryEntries;
      assert parsed[..i + 1][..i] == parsed[..i];
      i := i + 1;
    }
    assert parsed[..i] == parsed;
  }

  // ---------------------------------------------------------------------
  // Flat → grouped

  /** Each entry of `es`, in order, pushed into the bucket named by its category. */
  function GroupInto(m: Ledger, es: seq<Entry>): Ledger
  {
    if es == [] then m
    else
      var e := es[|es| - 1];
      Push(GroupInto(m, es[..|es| - 1]), e.category, e)
  }

  lemma {:induction false} PushKeepsShape(m: Ledger, e: Entry)
    ensures NoEmptyBucket(m) ==> NoEmptyBucket(Push(m, e.category, e))
    ensures CategoriesMatch(m) ==> CategoriesMatch(Push(m, e.category, e))
  {
    var k := e.category;
    var v := GetOrEmpty(m, k) + [e];
    PutAt(m, k, v);
    var i := IndexOf(m, k);
    assert i < |m| ==> GetOrEmpty(m, k) == m[i].items;
    assert i == |m| ==> GetOrEmpty(m, k) == [] by {
      IndexOfKeys(m, k);
    }
  }

  /** Regrouping keeps keys unique, buckets non-empty and entries under their own category. */
  lemma {:induction false} GroupIntoShape(m: Ledger, es: seq<Entry>)
    requires UniqueKeys(m) && NoEmptyBucket(m) && CategoriesMatch(m)
    ensures var r := GroupInto(m, es); UniqueKeys(r) && NoEmptyBucket(r) && CategoriesMatch(r)
  {
    if es != [] {
      var prev := GroupInto(m, es[..|es| - 1]);
      GroupIntoShape(m, es[..|es| - 1]);
      PushKeepsShape(prev, es[|es| - 1]);
    }
  }

  /** `flatListToParsed` as a specification. */
  function Grouped(es: seq<Entry>): (r: Ledger)
    ensures UniqueKeys(r) && NoEmptyBucket(r) && CategoriesMatch(r)
  {
    GroupIntoShape([], es);
    GroupInto([], es)
  }

  /** `if (!parsed[c]) parsed[c] = []` followed by `parsed[c].push(x)` is `Push`. */
  lemma {:induction false} CreateThenPush(m: Ledger, e: Entry)
    ensures var m' := if Get(m, e.category).None? then Put(m, e.category, []) else m;
      Put(m', e.category, GetOrEmpty(m', e.category) + [e]) == Push(m, e.category, e)
  {
    var k := e.category;
    if Get(m, k).None? {
      var m' := Put(m, k, []);
      assert m' == m + [Bucket(k, [])];
      assert forall j :: 0 <= j < |m| ==> m[j].key != k by {
        assert forall j :: 0 <= j < |m| ==> Keys(m)[j] == m[j].key;
      }
      IndexOfUnique(m', k, |m|);
      assert Put(m', k, [e]) == m + [Bucket(k, [e])];
    }
  }

  /** `flatListToParsed`. */
  method FlatListToParsed(entries: seq<Entry>) returns (parsed: Ledger)
    ensures parsed == Grouped(entries)
  {
    parsed := [];
    var k := 0;
    while k < |entries|
      invariant 0 <= k <= |entries|
      invariant parsed == GroupInto([], entries[..k])
    {
      var entry := entries[k];
      assert entries[..k + 1][..k] == entries[..k];
      GroupIntoStep([], entries[..k + 1]);
      CreateThenPush(parsed, entry);
      if Get(parsed, entry.category).None? {
        parsed := Put(parsed, entry.category, []);
      }
      parsed := Put(parsed, entry.category, GetOrEmpty(parsed, entry.category) + [entry]);
      k := k + 1;
    }
    assert entries[..k] == entries;
  }

  /** The categories of a flat list, in order. */
  function Categories(es: seq<Entry>): (cs: seq<string>)
    ensures |cs| == |es|
    ensures forall k :: 0 <= k < |es| ==> cs[k] == es[k].category
  {
    seq(|es|, k requires 0 <= k < |es| => es[k].category)
  }

  /** Each string at its first occurrence only, in order of first occurrence. */
  function FirstOccurrences(cs: seq<string>): (r: seq<string>)
  {
    if cs == [] then []
    else
      var prev := FirstOccurrences(cs[..|cs| - 1]);
      if cs[|cs| - 1] in prev then prev else prev + [cs[|cs| - 1]]
  }

  /** The entries of category `c`, in list order. */
  function OfCategory(es: seq<Entry>, c: string): (r: seq<Entry>)
    ensures |r| <= |es|
  {
    if es == [] then []
    else
      var prev := OfCategory(es[..|es| - 1], c);
      if es[|es| - 1].category == c then prev + [es[|es| - 1]] else prev
  }

  /** `x` is among the entries of category `c` exactly when it is a list entry of that category. */
  lemma {:induction false} OfCategoryMembers(es: seq<Entry>, c: string, x: Entry)
    ensures x in OfCategory(es, c) <==> x in es && x.category == c
  {
    if es != [] {
      var init := es[..|es| - 1];
      OfCategoryMembers(init, c, x);
      assert es == init + [es[|es| - 1]];
    }
  }

  /** A category occurs in the flat list exactly when some entry carries it. */
  lemma {:induction false} CategoriesMembers(es: seq<Entry>, c: string)
    ensures c in Categories(es) <==> exists e :: e in es && e.category == c
  {
    if c in Categories(es) {
      var k :| 0 <= k < |es| && Categories(es)[k] == c;
      assert es[k] in es;
    }
    if exists e :: e in es && e.category == c {
      var e :| e in es && e.category == c;
      var k :| 0 <= k < |es| && es[k] == e;
      assert Categories(es)[k] == c;
    }
  }

  /** Buckets appear in order of their category's first occurrence in the flat list. */
  lemma {:induction false} GroupedKeys(es: seq<Entry>)
    ensures Keys(Grouped(es)) == FirstOccurrences(Categories(es))
  {
    if es != [] {
      var init := es[..|es| - 1];
      var e := es[|es| - 1];
      GroupIntoStep([], es);
      GroupedKeys(init);
      assert Categories(es)[..|es| - 1] == Categories(init);
      var m := Grouped(init);
      if e.category !in Keys(m) {
        assert Keys(m + [Bucket(e.category, [e])]) == Keys(m) + [e.category];
      }
    }
  }

  /** The bucket of category `c` holds exactly the entries of category `c`, in list order. */
  lemma {:induction false} GroupedBucket(es: seq<Entry>, c: string)
    ensures GetOrEmpty(Grouped(es), c) == OfCategory(es, c)
    ensures c in Keys(Grouped(es)) <==> c in Categories(es)
  {
    if es != [] {
      var init := es[..|es| - 1];
      var e := es[|es| - 1];
      GroupIntoStep([], es);
      GroupedBucket(init, c);
      PushLookup(GroupInto([], init), e.category, e, c);
      CategoriesStep(es);
    }
  }

  lemma CategoriesStep(es: seq<Entry>)
    requires es != []
    ensures forall c :: c in Categories(es) <==> c in Categories(es[..|es| - 1]) || c == es[|es| - 1].category
  {
    assert Categories(es) == Categories(es[..|es| - 1]) + [es[|es| - 1].category];
  }

  /** One step of `GroupInto`. */
  lemma {:induction false} GroupIntoStep(m: Ledger, es: seq<Entry>)
    requires es != []
    ensures GroupInto(m, es) == Push(GroupInto(m, es[..|es| - 1]), es[|es| - 1].category, es[|es| - 1])
  {
  }

  /** Regrouping `a + b` is regrouping `b` into the regrouped `a`. */
  lemma {:induction false} GroupIntoAppend(m: Ledger, a: seq<Entry>, b: seq<Entry>)
    ensures GroupInto(m, a + b) == GroupInto(GroupInto(m, a), b)
  {
    if b == [] {
      assert a + b == a;
    } else {
      var ab := a + b;
      var b' := b[..|b| - 1];
      assert ab[..|ab| - 1] == a + b';
      assert ab[|ab| - 1] == b[|b| - 1];
      GroupIntoStep(m, ab);
      GroupIntoStep(GroupInto(m, a), b);
      GroupIntoAppend(m, a, b');
    }
  }

  /** Entries of one new category, regrouped into `m`, form one new last bucket. */
  lemma {:induction false} GroupIntoOneKey(m: Ledger, k: string, b: seq<Entry>)
    requires k !in Keys(m) && |b| > 0
    requires forall q :: 0 <= q < |b| ==> b[q].category == k
    ensures GroupInto(m, b) == m + [Bucket(k, b)]
  {
    var init := b[..|b| - 1];
    var x := b[|b| - 1];
    assert b == init + [x];
    GroupIntoStep(m, b);
    if init == [] {
      assert GroupInto(m, init) == m;
      assert [x] == b;
    } else {
      GroupIntoOneKey(m, k, init);
      var prev := m + [Bucket(k, init)];
      assert forall j :: 0 <= j < |m| ==> prev[j].key != k by {
        assert forall j :: 0 <= j < |m| ==> Keys(m)[j] == m[j].key;
      }
      PushPresent(prev, k, x, |m|);
      assert prev[|m| := Bucket(k, b)] == m + [Bucket(k, b)];
    }
  }

  lemma {:induction false} NonEmptyBucketsKeys<T>(m: seq<Bucket<T>>, k: string)
    ensures k in Keys(NonEmptyBuckets(m)) ==> k in Keys(m)
  {
    if m != [] && k in Keys(NonEmptyBuckets(m)) {
      var init := m[..|m| - 1];
      var last := m[|m| - 1];
      var prev := NonEmptyBuckets(init);
      if k in Keys(prev) {
        NonEmptyBucketsKeys(init, k);
        var q :| 0 <= q < |init| && Keys(init)[q] == k;
        assert Keys(m)[q] == k;
      } else {
        assert |last.items| > 0 && NonEmptyBuckets(m) == prev + [last];
        assert Keys(prev + [last]) == Keys(prev) + [last.key];
        assert Keys(m)[|m| - 1] == last.key;
      }
    }
  }

  /**
   * Flattening and regrouping gives the ledger back, minus its empty
   * buckets, for a ledger whose entries carry their bucket's key.
   */
  lemma {:induction false} GroupedFlatEntries(l: Ledger)
    requires UniqueKeys(l) && CategoriesMatch(l)
    ensures Grouped(FlatEntries(l)) == NonEmptyBuckets(l)
  {
    if l != [] {
      var init := l[..|l| - 1];
      var last := l[|l| - 1];
      GroupedFlatEntries(init);
      assert Relabel(last.items, last.key) == last.items;
      assert FlatEntries(l) == FlatEntries(init) + last.items;
      GroupIntoAppend([], FlatEntries(init), last.items);
      if |last.items| > 0 {
        assert NonEmptyBuckets(l) == NonEmptyBuckets(init) + [last];
        assert last.key !in Keys(init) by {
          assert forall j :: 0 <= j < |init| ==> Keys(init)[j] == l[j].key;
        }
        NonEmptyBucketsKeys(init, last.key);
        GroupIntoOneKey(NonEmptyBuckets(init), last.key, last.items);
      }
    }
  }

  // ---------------------------------------------------------------------
  // Id back-filling

  /** `filled` is `orig` with an id: kept when `orig` had a non-empty one, otherwise only the id differs. */
  predicate FilledFrom(filled: Entry, orig: Entry) {
    filled.id != [] && filled == orig.(id := filled.id) && (orig.id != [] ==> filled == orig)
  }

  /**
   * `entries.map(...)` with the id supply standing at `next`: an entry with
   * a non-empty id is kept, one with the empty id gets a fresh id and keeps
   * its other fields.
   */
  function FillIds(es: seq<Entry>, next: nat): (r: (seq<Entry>, nat))
    ensures r.1 >= next && |r.0| == |es|
    ensures forall k :: 0 <= k < |es| ==> FilledFrom(r.0[k], es[k])
    ensures forall k :: 0 <= k < |es| && es[k].id == [] ==> IssuedBetween(r.0[k].id, next, r.1)
  {
    if es == [] then ([], next)
    else
      var p := FillIds(es[..|es| - 1], next);
      var e := es[|es| - 1];
      if e.id != [] then (p.0 + [e], p.1)
      else
        assert IssuedBetween(FreshId(p.1), next, p.1 + 1);
        assert forall id :: IssuedBetween(id, next, p.1) ==> IssuedBetween(id, next, p.1 + 1);
        (p.0 + [e.(id := FreshId(p.1))], p.1 + 1)
  }

  /** `addIdsToParsed` with the id supply standing at `next`. */
  function AddIds(l: Ledger, next: nat): (r: (Ledger, nat))
    ensures r.1 >= next
  {
    if l == [] then ([], next)
    else
      var p := AddIds(l[..|l| - 1], next);
      var f := FillIds(l[|l| - 1].items, p.1);
      (Put(p.0, l[|l| - 1].key, f.0), f.1)
  }

  /** One step of `AddIds`. */
  lemma {:induction false} AddIdsStep(l: Ledger, next: nat)
    requires l != []
    ensures var p := AddIds(l[..|l| - 1], next);
      var f := FillIds(l[|l| - 1].items, p.1);
      AddIds(l, next).0 == Put(p.0, l[|l| - 1].key, f.0) && AddIds(l, next).1 == f.1
  {
  }

  /** Every entry has a non-empty id. */
  predicate HasIds(l: Ledger) {
    forall i, j :: 0 <= i < |l| && 0 <= j < |l[i].items| ==> l[i].items[j].id != []
  }

  /** `r` has the keys and bucket sizes of `l`, and each of its entries is filled from the matching one of `l`. */
  predicate FilledLedger(r: Ledger, l: Ledger) {
    |r| == |l| &&
    (forall i :: 0 <= i < |l| ==> r[i].key == l[i].key && |r[i].items| == |l[i].items|) &&
    (forall i, j :: 0 <= i < |l| && 0 <= j < |l[i].items| ==> FilledFrom(r[i].items[j], l[i].items[j]))
  }

  /**
   * `addIdsToParsed` keeps the keys in order and the bucket sizes; it keeps
   * every entry that has an id and gives every other one an id, changing
   * nothing else.
   */
  lemma {:induction false} AddIdsShape(l: Ledger, next: nat)
    requires UniqueKeys(l)
    ensures FilledLedger(AddIds(l, next).0, l)
  {
    if l != [] {
      var init := l[..|l| - 1];
      var last := l[|l| - 1];
      UniqueKeysInit(l);
      AddIdsShape(init, next);
      var p := AddIds(init, next);
      var f := FillIds(last.items, p.1);
      AddIdsStep(l, next);
      FilledLedgerKeys(p.0, init);
      assert Put(p.0, last.key, f.0) == p.0 + [Bucket(last.key, f.0)];
      FilledLedgerAppend(p.0, init, last, f.0);
      assert init + [last] == l;
    }
  }

  lemma UniqueKeysInit(l: Ledger)
    requires UniqueKeys(l) && l != []
    ensures UniqueKeys(l[..|l| - 1]) && l[|l| - 1].key !in Keys(l[..|l| - 1])
  {
    var init := l[..|l| - 1];
    assert forall j :: 0 <= j < |init| ==> Keys(init)[j] == l[j].key;
  }

  lemma FilledLedgerKeys(r: Ledger, l: Ledger)
    requires FilledLedger(r, l)
    ensures Keys(r) == Keys(l)
  {
  }

  lemma FilledLedgerAppend(r: Ledger, l: Ledger, b: Bucket<Entry>, fs: seq<Entry>)
    requires FilledLedger(r, l)
    requires |fs| == |b.items| && forall k :: 0 <= k < |fs| ==> FilledFrom(fs[k], b.items[k])
    ensures FilledLedger(r + [Bucket(b.key, fs)], l + [b])
  {
    var r', l' := r + [Bucket(b.key, fs)], l + [b];
    assert forall i :: 0 <= i < |l| ==> r'[i] == r[i] && l'[i] == l[i];
    assert r'[|l|] == Bucket(b.key, fs) && l'[|l|] == b;
  }

  /** `FillIds` changes nothing once every entry has an id. */
  lemma {:induction false} FillIdsIdentity(es: seq<Entry>, next: nat)
    requires forall k :: 0 <= k < |es| ==> es[k].id != []
    ensures FillIds(es, next) == (es, next)
  {
    if es != [] {
      FillIdsIdentity(es[..|es| - 1], next);
      assert es[..|es| - 1] + [es[|es| - 1]] == es;
    }
  }

  /** Once every entry has an id, `addIdsToParsed` returns its input and draws no id. */
  lemma {:induction false} AddIdsIdentity(l: Ledger, next: nat)
    requires UniqueKeys(l) && HasIds(l)
    ensures AddIds(l, next) == (l, next)
  {
    if l != [] {
      var init := l[..|l| - 1];
      var last := l[|l| - 1];
      AddIdsIdentity(init, next);
      FillIdsIdentity(last.items, next);
      AddIdsStep(l, next);
      assert last.key !in Keys(init) by {
        assert forall j :: 0 <= j < |init| ==> Keys(init)[j] == init[j].key;
      }
      assert init + [Bucket(last.key, last.items)] == l;
    }
  }

  /** `addIdsToParsed` is idempotent. */
  lemma {:induction false} AddIdsIdempotent(l: Ledger, n: nat, n': nat)
    requires UniqueKeys(l)
    ensures AddIds(AddIds(l, n).0, n') == (AddIds(l, n).0, n')
  {
    var r := AddIds(l, n).0;
    AddIdsShape(l, n);
    assert UniqueKeys(r);
    assert HasIds(r);
    AddIdsIdentity(r, n');
  }

  /** `addIdsToParsed`: a fresh result dictionary filled bucket by bucket. */
  method AddIdsToParsed(parsed: Ledger, next: nat) returns (result: Ledger, next': nat)
    ensures result == AddIds(parsed, next).0 && next' == AddIds(parsed, next).1
  {
    result := [];
    next' := next;
    var i := 0;
    while i < |parsed|
      invariant 0 <= i <= |parsed|
      invariant result == AddIds(parsed[..i], next).0 && next' == AddIds(parsed[..i], next).1
    {
      var category := parsed[i].key;
      var entries := parsed[i].items;
      var filled: seq<Entry> := [];
      var start := next';
      var j := 0;
      while j < |entries|
        invariant 0 <= j <= |entries|
        invariant filled == FillIds(entries[..j], start).0 && next' == FillIds(entries[..j], start).1
      {
        FillIdsStep(entries[..j + 1], start);
        assert entries[..j + 1][..j] == entries[..j];
        if entries[j].id != [] {
          filled := filled + [entries[j]];
        } else {
          filled := filled + [entries[j].(id := FreshId(next'))];
          next' := next' + 1;
        }
        j := j + 1;
      }
      assert entries[..j] == entries;
      assert parsed[..i + 1][..i] == parsed[..i];
      AddIdsStep(parsed[..i + 1], next);
      result := Put(result, category, filled);
      i := i + 1;
    }
    assert parsed[..i] == parsed;
  }

  /** One step of `FillIds`. */
  lemma {:induction false} FillIdsStep(es: seq<Entry>, next: nat)
    requires es != []
    ensures var p := FillIds(es[..|es| - 1], next);
      var e := es[|es| - 1];
      FillIds(es, next).0 == (if e.id != [] then p.0 + [e] else p.0 + [e.(id := FreshId(p.1))]) &&
      FillIds(es, next).1 == (if e.id != [] then p.1 else p.1 + 1)
  {
  }
}
