/**
 * The ledger's data model: an expense entry, the grouped ledger
 * (`ParsedExpenses`, category → entries in key insertion order) and the
 * supply of fresh entry ids.
 */
module Expenses {
  import opened Js
  import opened OrderedMap

  /** `ExpenseEntry`; an absent `description` is `None`. */
  datatype Entry = Entry(id: string, category: string, amount: real, description: Option<string>)

  /** `ParsedExpenses`. */
  type Ledger = seq<Bucket<Entry>>

  /**
   * The id handed out when the fresh-id supply stands at `n`. The source
   * builds ids from the clock and a random number; the model only needs
   * them non-empty and distinct, which a counter provides.
   */
  function FreshId(n: nat): (id: string)
    ensures |id| > 0
  {
    "#" + NatToString(n)
  }

  lemma {:induction false} FreshIdInjective(a: nat, b: nat)
    requires FreshId(a) == FreshId(b)
    ensures a == b
  {
    assert FreshId(a)[1..] == NatToString(a);
    assert FreshId(b)[1..] == NatToString(b);
    NatToStringInjective(a, b);
  }

  lemma {:induction false} FreshIdsDiffer(a: nat, b: nat)
    requires a != b
    ensures FreshId(a) != FreshId(b)
  {
    if FreshId(a) == FreshId(b) {
      FreshIdInjective(a, b);
    }
  }

  /** Every entry's `category` names the bucket that holds it. */
  predicate CategoriesMatch(l: Ledger) {
    forall i, j :: 0 <= i < |l| && 0 <= j < |l[i].items| ==> l[i].items[j].category == l[i].key
  }

  /** No two entries of the ledger share an id. */
  predicate DistinctIds(l: Ledger) {
    forall i1, j1, i2, j2 ::
      (0 <= i1 < |l| && 0 <= j1 < |l[i1].items| && 0 <= i2 < |l| && 0 <= j2 < |l[i2].items| &&
       (i1, j1) != (i2, j2)) ==> l[i1].items[j1].id != l[i2].items[j2].id
  }

  /** `id` was handed out while the supply was in `[lo, hi)`. */
  predicate IssuedBetween(id: string, lo: nat, hi: nat) {
    exists n: nat :: lo <= n < hi && id == FreshId(n)
  }

  /** Every id of the ledger was handed out while the supply was in `[lo, hi)`. */
  predicate IdsFrom(l: Ledger, lo: nat, hi: nat) {
    forall i, j :: 0 <= i < |l| && 0 <= j < |l[i].items| ==> IssuedBetween(l[i].items[j].id, lo, hi)
  }

  /** An id handed out before the supply reached `hi` differs from every id handed out from `hi` on. */
  lemma EarlierIdDiffers(l: Ledger, lo: nat, hi: nat, i: nat, j: nat, k: nat)
    requires IdsFrom(l, lo, hi) && i < |l| && j < |l[i].items| && k >= hi
    ensures l[i].items[j].id != FreshId(k)
  {
    assert IssuedBetween(l[i].items[j].id, lo, hi);
    var m :| lo <= m < hi && l[i].items[j].id == FreshId(m);
    FreshIdsDiffer(k, m);
  }

  /** Number of entries in the ledger. */
  function EntryCount(l: Ledger): nat {
    if l == [] then 0 else EntryCount(l[..|l| - 1]) + |l[|l| - 1].items|
  }

  /** The entry's amount sum of one bucket (`reduce((s, e) => s + e.amount, 0)`). */
  function Total(es: seq<Entry>): real {
    if es == [] then 0.0 else Total(es[..|es| - 1]) + es[|es| - 1].amount
  }
}
