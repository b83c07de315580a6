/**
 * A JavaScript object used as a dictionary from strings to arrays, with keys
 * enumerated in insertion order (`Object.entries`). Assigning to an existing
 * key keeps its position; assigning to a new key appends it.
 */
module OrderedMap {
  import opened Js

  datatype Bucket<T> = Bucket(key: string, items: seq<T>)

  /**
   * The property names every plain object inherits from `Object.prototype`.
   * Reading one from an empty object gives a truthy value that is not an
   * array, so `if (!m[k]) m[k] = []; m[k].push(x)` throws a `TypeError`
   * for these keys. The buckets below stand for own properties only.
   */
  const InheritedKeys: set<string> := {
    "constructor", "hasOwnProperty", "isPrototypeOf", "propertyIsEnumerable",
    "toLocaleString", "toString", "valueOf", "__proto__",
    "__defineGetter__", "__defineSetter__", "__lookupGetter__", "__lookupSetter__"
  }

  predicate Inherited(k: string) {
    k in InheritedKeys
  }

  function Keys<T>(m: seq<Bucket<T>>): (ks: seq<string>)
    ensures |ks| == |m|
    ensures forall i :: 0 <= i < |m| ==> ks[i] == m[i].key
  {
    seq(|m|, i requires 0 <= i < |m| => m[i].key)
  }

  predicate UniqueKeys<T>(m: seq<Bucket<T>>) {
    forall i, j :: 0 <= i < j < |m| ==> m[i].key != m[j].key
  }

  /** Position of the first bucket keyed `k`, or `|m|` when there is none. */
  function IndexOf<T>(m: seq<Bucket<T>>, k: string): (r: nat)
    ensures r <= |m|
    ensures r < |m| ==> m[r].key == k
    ensures forall j :: 0 <= j < r ==> m[j].key != k
  {
    if m == [] then 0
    else if m[0].key == k then 0
    else 1 + IndexOf(m[1..], k)
  }

  /** The three facts above pin `IndexOf` down. */
  lemma {:induction false} IndexOfUnique<T>(m: seq<Bucket<T>>, k: string, i: nat)
    requires i <= |m|
    requires i < |m| ==> m[i].key == k
    requires forall j :: 0 <= j < i ==> m[j].key != k
    ensures IndexOf(m, k) == i
  {
  }

  lemma {:induction false} IndexOfKeys<T>(m: seq<Bucket<T>>, k: string)
    ensures IndexOf(m, k) < |m| <==> k in Keys(m)
  {
    if k in Keys(m) {
      var q :| 0 <= q < |m| && Keys(m)[q] == k;
      assert m[q].key == k;
    }
  }

  /** `m[k]`: the array stored under `k`, if any. */
  function Get<T>(m: seq<Bucket<T>>, k: string): (r: Option<seq<T>>)
    ensures r.None? <==> k !in Keys(m)
  {
    IndexOfKeys(m, k);
    var i := IndexOf(m, k);
    if i < |m| then Some(m[i].items) else None
  }

  /** `m[k] || []`. */
  function GetOrEmpty<T>(m: seq<Bucket<T>>, k: string): seq<T> {
    match Get(m, k)
    case None => []
    case Some(v) => v
  }

  /** With unique keys, the lookup of a bucket's key finds that bucket. */
  lemma {:induction false} GetAt<T>(m: seq<Bucket<T>>, i: nat)
    requires UniqueKeys(m) && i < |m|
    ensures Get(m, m[i].key) == Some(m[i].items)
  {
    IndexOfUnique(m, m[i].key, i);
  }

  /** `m[k] = v`: replace in place when `k` is present, append otherwise. */
  function Put<T>(m: seq<Bucket<T>>, k: string, v: seq<T>): (r: seq<Bucket<T>>)
    ensures k in Keys(m) ==> Keys(r) == Keys(m)
    ensures k !in Keys(m) ==> r == m + [Bucket(k, v)]
    ensures IndexOf(m, k) < |m| ==> r == m[IndexOf(m, k) := Bucket(k, v)]
    ensures UniqueKeys(m) ==> UniqueKeys(r)
    ensures Get(r, k) == Some(v)
    ensures forall k' :: k' != k ==> Get(r, k') == Get(m, k')
  {
    IndexOfKeys(m, k);
    var i := IndexOf(m, k);
    var r := if i < |m| then m[i := Bucket(k, v)] else m + [Bucket(k, v)];
    IndexOfUnique(r, k, i);
    forall k' | k' != k ensures Get(r, k') == Get(m, k') {
      PutKeepsOthers(m, k, v, i, r, k');
    }
    assert i == |m| ==> forall j :: 0 <= j < |m| ==> m[j].key != k;
    r
  }

  lemma {:induction false} PutKeepsOthers<T>(m: seq<Bucket<T>>, k: string, v: seq<T>, i: nat, r: seq<Bucket<T>>, k': string)
    requires i == IndexOf(m, k) && k' != k
    requires r == if i < |m| then m[i := Bucket(k, v)] else m + [Bucket(k, v)]
    ensures Get(r, k') == Get(m, k')
  {
    var j := IndexOf(m, k');
    IndexOfKeys(m, k');
    IndexOfKeys(r, k');
    if j < |m| {
      IndexOfUnique(r, k', j);
    } else {
      IndexOfUnique(r, k', |r|);
    }
  }

  /** Bucket by bucket: `Put` writes position `IndexOf(m, k)` and keeps every other bucket. */
  lemma {:induction false} PutAt<T>(m: seq<Bucket<T>>, k: string, v: seq<T>)
    ensures |Put(m, k, v)| == if IndexOf(m, k) < |m| then |m| else |m| + 1
    ensures forall i :: 0 <= i < |Put(m, k, v)| ==>
      Put(m, k, v)[i] == if i == IndexOf(m, k) then Bucket(k, v) else m[i]
  {
    IndexOfKeys(m, k);
  }

  /** `if (!m[k]) m[k] = []; m[k].push(x)`. */
  function Push<T>(m: seq<Bucket<T>>, k: string, x: T): (r: seq<Bucket<T>>)
    ensures Get(r, k) == Some(GetOrEmpty(m, k) + [x])
    ensures forall k' :: k' != k ==> Get(r, k') == Get(m, k')
    ensures k in Keys(m) ==> Keys(r) == Keys(m)
    ensures k !in Keys(m) ==> r == m + [Bucket(k, [x])]
    ensures UniqueKeys(m) ==> UniqueKeys(r)
  {
    assert k !in Keys(m) ==> GetOrEmpty(m, k) + [x] == [x];
    Put(m, k, GetOrEmpty(m, k) + [x])
  }

  /** What a lookup sees after a push. */
  lemma PushLookup<T>(m: seq<Bucket<T>>, k: string, x: T, c: string)
    ensures GetOrEmpty(Push(m, k, x), c) == if c == k then GetOrEmpty(m, c) + [x] else GetOrEmpty(m, c)
    ensures c in Keys(Push(m, k, x)) <==> c in Keys(m) || c == k
  {
    var r := Push(m, k, x);
    assert Get(r, k).Some?;
    if c != k {
      assert Get(r, c) == Get(m, c);
    }
  }

  /** Pushing onto the first bucket keyed `k` extends that bucket in place. */
  lemma {:induction false} PushPresent<T>(m: seq<Bucket<T>>, k: string, x: T, i: nat)
    requires i < |m| && m[i].key == k
    requires forall j :: 0 <= j < i ==> m[j].key != k
    ensures Push(m, k, x) == m[i := Bucket(k, m[i].items + [x])]
  {
    IndexOfUnique(m, k, i);
  }

  /** Every bucket holds at least one item. */
  predicate NoEmptyBucket<T>(m: seq<Bucket<T>>) {
    forall i :: 0 <= i < |m| ==> |m[i].items| > 0
  }

  /** The buckets that hold at least one item, in order. */
  function NonEmptyBuckets<T>(m: seq<Bucket<T>>): (r: seq<Bucket<T>>)
    ensures NoEmptyBucket(r)
    ensures |r| <= |m|
  {
    if m == [] then []
    else
      var init := NonEmptyBuckets(m[..|m| - 1]);
      if |m[|m| - 1].items| > 0 then init + [m[|m| - 1]] else init
  }
}
