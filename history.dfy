/**
 * The bounded undo/redo history of the ledger page: a list of snapshots and
 * a cursor into it, capped at `MaxHistorySize` snapshots.
 */
module History {
  import opened Js

  const MaxHistorySize: nat := 50

  /** The history's state: the snapshots, oldest first, and the cursor. */
  datatype Timeline<S> = Timeline(states: seq<S>, index: nat)

  /** What every reachable state satisfies. */
  predicate Inv<S>(h: Timeline<S>) {
    1 <= |h.states| <= MaxHistorySize && h.index < |h.states|
  }

  /** The state after `pushState(s)`. */
  function Pushed<S(==)>(h: Timeline<S>, s: S): (r: Timeline<S>)
    requires Inv(h)
    ensures Inv(r)
    ensures r.states[r.index] == s
    ensures r.index == |r.states| - 1 || r == h
  {
    if h.states[h.index] == s then h
    else
      var kept := h.states[..h.index + 1] + [s];
      var trimmed := if |kept| > MaxHistorySize then kept[1..] else kept;
      Timeline(trimmed, |trimmed| - 1)
  }

  /** The state after `undo()` and the snapshot it returns. */
  function Undone<S>(h: Timeline<S>): (r: (Timeline<S>, Option<S>))
    requires Inv(h)
  {
    if h.index > 0 then (Timeline(h.states, h.index - 1), Some(h.states[h.index - 1]))
    else (h, None)
  }

  /** The state after `redo()` and the snapshot it returns. */
  function Redone<S>(h: Timeline<S>): (r: (Timeline<S>, Option<S>))
    requires Inv(h)
  {
    if h.index < |h.states| - 1 then (Timeline(h.states, h.index + 1), Some(h.states[h.index + 1]))
    else (h, None)
  }

  predicate CanUndo<S>(h: Timeline<S>) {
    h.index > 0
  }

  predicate CanRedo<S>(h: Timeline<S>) {
    h.index < |h.states| - 1
  }

  /** The history starts with exactly one snapshot, at index 0, with nothing to undo or redo. */
  lemma {:induction false} InitialTimeline<S>(s: S)
    ensures Inv(Timeline([s], 0)) && !CanUndo(Timeline([s], 0)) && !CanRedo(Timeline([s], 0))
  {
  }

  /** Pushing the current snapshot again changes nothing. */
  lemma {:induction false} PushCurrentIsNoOp<S>(h: Timeline<S>)
    requires Inv(h)
    ensures Pushed(h, h.states[h.index]) == h
  {
  }

  /**
   * A real push keeps the snapshots up to the cursor, drops the redo tail,
   * appends the new snapshot, drops the oldest one on overflow and leaves
   * nothing to redo.
   */
  lemma {:induction false} PushTruncatesAndAppends<S>(h: Timeline<S>, s: S)
    requires Inv(h) && h.states[h.index] != s
    ensures var r := Pushed(h, s);
      r.states == (if h.index + 2 > MaxHistorySize then h.states[1..h.index + 1] else h.states[..h.index + 1]) + [s] &&
      r.index == |r.states| - 1 && !CanRedo(r)
  {
    if h.index + 2 > MaxHistorySize {
      assert (h.states[..h.index + 1] + [s])[1..] == h.states[1..h.index + 1] + [s];
    }
  }

  /** A push after undos discards exactly the snapshots that could have been redone. */
  lemma {:induction false} PushDropsRedoTail<S>(h: Timeline<S>, s: S)
    requires Inv(h) && h.states[h.index] != s && h.index + 2 <= MaxHistorySize
    ensures |Pushed(h, s).states| == h.index + 2
    ensures forall k :: 0 <= k <= h.index ==> Pushed(h, s).states[k] == h.states[k]
  {
  }

  /** `undo()` returns a snapshot exactly when `canUndo`, and then steps back one place. */
  lemma {:induction false} UndoIffCanUndo<S>(h: Timeline<S>)
    requires Inv(h)
    ensures Undone(h).1.Some? <==> CanUndo(h)
    ensures CanUndo(h) ==> Undone(h).0.index == h.index - 1 && Undone(h).1.value == h.states[h.index - 1]
    ensures !CanUndo(h) ==> Undone(h).0 == h
    ensures Undone(h).0.states == h.states
  {
  }

  /** `redo()` returns a snapshot exactly when `canRedo`, and then steps forward one place. */
  lemma {:induction false} RedoIffCanRedo<S>(h: Timeline<S>)
    requires Inv(h)
    ensures Redone(h).1.Some? <==> CanRedo(h)
    ensures CanRedo(h) ==> Redone(h).0.index == h.index + 1 && Redone(h).1.value == h.states[h.index + 1]
    ensures !CanRedo(h) ==> Redone(h).0 == h
    ensures Redone(h).0.states == h.states
  {
  }

  /** Undo followed by redo restores the state and returns the snapshot that was current. */
  lemma {:induction false} RedoAfterUndo<S>(h: Timeline<S>)
    requires Inv(h) && CanUndo(h)
    ensures Inv(Undone(h).0) && CanRedo(Undone(h).0)
    ensures Redone(Undone(h).0) == (h, Some(h.states[h.index]))
  {
  }

  /** Redo followed by undo restores the state and returns the snapshot that was current. */
  lemma {:induction false} UndoAfterRedo<S>(h: Timeline<S>)
    requires Inv(h) && CanRedo(h)
    ensures Inv(Redone(h).0) && CanUndo(Redone(h).0)
    ensures Undone(Redone(h).0) == (h, Some(h.states[h.index]))
  {
  }

  /** `useHistory`: the snapshot list and the cursor, updated in place. */
  class History<S(==)> {
    var states: seq<S>
    var index: nat

    function Model(): Timeline<S>
      reads this
    {
      Timeline(states, index)
    }

    ghost predicate Valid()
      reads this
    {
      Inv(Model())
    }

    constructor (initial: S)
      ensures Valid() && states == [initial] && index == 0
    {
      states := [initial];
      index := 0;
    }

    /** `getCurrentState()`. */
    function CurrentState(): (s: S)
      reads this
      requires Valid()
      ensures s == Model().states[Model().index]
    {
      states[index]
    }

    /** `canUndo`. */
    function CanUndoNow(): (b: bool)
      reads this
      requires Valid()
      ensures b <==> CanUndo(Model())
    {
      index > 0
    }

    /** `canRedo`. */
    function CanRedoNow(): (b: bool)
      reads this
      requires Valid()
      ensures b <==> CanRedo(Model())
    {
      index < |states| - 1
    }

    /** `pushState(s)`. */
    method PushState(s: S)
      requires Valid()
      modifies this
      ensures Valid() && Model() == Pushed(old(Model()), s)
    {
      if states[index] == s {
        return;
      }
      var newHistory := states[..index + 1];
      newHistory := newHistory + [s];
      if |newHistory| > MaxHistorySize {
        newHistory := newHistory[1..];
        index := index - 1;
      }
      states := newHistory;
      index := |newHistory| - 1;
    }

    /** `undo()`. */
    method Undo() returns (r: Option<S>)
      requires Valid()
      modifies this
      ensures Valid() && (Model(), r) == Undone(old(Model()))
    {
      if index > 0 {
        var newIndex := index - 1;
        index := newIndex;
        return Some(states[newIndex]);
      }
      return None;
    }

    /** `redo()`. */
    method Redo() returns (r: Option<S>)
      requires Valid()
      modifies this
      ensures Valid() && (Model(), r) == Redone(old(Model()))
    {
      if index < |states| - 1 {
        var newIndex := index + 1;
        index := newIndex;
        return Some(states[newIndex]);
      }
      return None;
    }
  }
}
