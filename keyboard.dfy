/**
 * `useKeyboardShortcuts`: on every keydown the shortcut list is searched in
 * order, and the first shortcut that matches the event and is allowed in
 * the focused element runs; only then is the browser's default action
 * prevented.
 */
module Keyboard {
  import opened Js

  /** `KeyboardShortcut`; an unset modifier is `None`, `handler` is what runs. */
  datatype Shortcut<H> = Shortcut(
    key: string, ctrl: Option<bool>, shift: Option<bool>, alt: Option<bool>, meta: Option<bool>,
    handler: H)

  /** The parts of a `KeyboardEvent` the matcher reads; `tag` and `editable` describe its target. */
  datatype KeyEvent = KeyEvent(
    key: string, code: string, ctrlKey: bool, shiftKey: bool, altKey: bool, metaKey: bool,
    tag: string, editable: bool)

  /** An unset modifier accepts both states; a set one must equal the pressed state. */
  predicate ModifierMatch(want: Option<bool>, pressed: bool) {
    want.None? || want.value == pressed
  }

  /** The five match conditions; `ctrl` is satisfied by Ctrl or Meta. */
  predicate Matches<H>(s: Shortcut<H>, e: KeyEvent) {
    ModifierMatch(s.ctrl, e.ctrlKey || e.metaKey) &&
    ModifierMatch(s.shift, e.shiftKey) &&
    ModifierMatch(s.alt, e.altKey) &&
    ModifierMatch(s.meta, e.metaKey) &&
    (ToLower(s.key) == ToLower(e.key) || ToLower(s.key) == ToLower(e.code))
  }

  /** The target is a text field or editable content. */
  predicate InInput(e: KeyEvent) {
    e.tag == "INPUT" || e.tag == "TEXTAREA" || e.editable
  }

  /** A matching shortcut runs outside text fields, and inside them only when its key is literally `z` or `y`. */
  predicate Allowed<H>(s: Shortcut<H>, e: KeyEvent) {
    Matches(s, e) && (!InInput(e) || s.key == "z" || s.key == "y")
  }

  /** The index of the shortcut that runs: the first allowed one. */
  function FirstAllowed<H>(shortcuts: seq<Shortcut<H>>, e: KeyEvent): (r: Option<nat>)
    ensures r.Some? ==> r.value < |shortcuts|
  {
    if shortcuts == [] then None
    else if Allowed(shortcuts[0], e) then Some(0)
    else
      var rest := FirstAllowed(shortcuts[1..], e);
      if rest.Some? then Some(rest.value + 1) else None
  }

  /**
   * `FirstAllowed` finds the first allowed shortcut, and finds none exactly
   * when no shortcut is allowed.
   */
  lemma {:induction false} FirstAllowedIsFirst<H>(shortcuts: seq<Shortcut<H>>, e: KeyEvent)
    ensures var r := FirstAllowed(shortcuts, e);
      (r.Some? ==> r.value < |shortcuts| && Allowed(shortcuts[r.value], e) &&
                   forall j :: 0 <= j < r.value ==> !Allowed(shortcuts[j], e)) &&
      (r.None? <==> forall j :: 0 <= j < |shortcuts| ==> !Allowed(shortcuts[j], e))
  {
    if shortcuts != [] && !Allowed(shortcuts[0], e) {
      var rest := shortcuts[1..];
      FirstAllowedIsFirst(rest, e);
      assert forall j :: 1 <= j < |shortcuts| ==> shortcuts[j] == rest[j - 1];
    }
  }

  /** What a keydown did: which shortcut ran, if any, and whether the default was prevented. */
  datatype Outcome = Outcome(ran: Option<nat>, prevented: bool)

  /** `handleKeyDown`: the loop with its early returns. */
  method HandleKeyDown<H>(shortcuts: seq<Shortcut<H>>, e: KeyEvent) returns (out: Outcome)
    ensures out.ran == FirstAllowed(shortcuts, e)
    ensures out.prevented <==> out.ran.Some?
  {
    var i := 0;
    while i < |shortcuts|
      invariant 0 <= i <= |shortcuts|
      invariant forall j :: 0 <= j < i ==> !Allowed(shortcuts[j], e)
    {
      var shortcut := shortcuts[i];
      var ctrlMatch := shortcut.ctrl.None? || shortcut.ctrl.value == (e.ctrlKey || e.metaKey);
      var shiftMatch := shortcut.shift.None? || shortcut.shift.value == e.shiftKey;
      var altMatch := shortcut.alt.None? || shortcut.alt.value == e.altKey;
      var metaMatch := shortcut.meta.None? || shortcut.meta.value == e.metaKey;
      var keyMatch := ToLower(shortcut.key) == ToLower(e.key) || ToLower(shortcut.key) == ToLower(e.code);
      if ctrlMatch && shiftMatch && altMatch && metaMatch && keyMatch {
        var isInput := e.tag == "INPUT" || e.tag == "TEXTAREA" || e.editable;
        if isInput && (shortcut.key == "z" || shortcut.key == "y") {
          FirstAllowedOfPrefix(shortcuts, e, i);
          return Outcome(Some(i), true);
        }
        if !isInput {
          FirstAllowedOfPrefix(shortcuts, e, i);
          return Outcome(Some(i), true);
        }
      }
      i := i + 1;
    }
    FirstAllowedIsFirst(shortcuts, e);
    return Outcome(None, false);
  }

  /** When the shortcuts before `i` are not allowed and shortcut `i` is, `i` is the one that runs. */
  lemma {:induction false} FirstAllowedOfPrefix<H>(shortcuts: seq<Shortcut<H>>, e: KeyEvent, i: nat)
    requires i < |shortcuts| && Allowed(shortcuts[i], e)
    requires forall j :: 0 <= j < i ==> !Allowed(shortcuts[j], e)
    ensures FirstAllowed(shortcuts, e) == Some(i)
  {
    if i > 0 {
      var rest := shortcuts[1..];
      assert forall j :: 0 <= j < i - 1 ==> rest[j] == shortcuts[j + 1];
      FirstAllowedOfPrefix(rest, e, i - 1);
    }
  }

  /** An allowed shortcut earlier in the list shadows every later one, whatever their modifiers. */
  lemma {:induction false} EarlierShadowsLater<H>(shortcuts: seq<Shortcut<H>>, e: KeyEvent, i: nat, j: nat)
    requires i < j < |shortcuts| && Allowed(shortcuts[i], e)
    ensures FirstAllowed(shortcuts, e).Some? && FirstAllowed(shortcuts, e).value <= i
    ensures FirstAllowed(shortcuts, e) != Some(j)
  {
    FirstAllowedIsFirst(shortcuts, e);
  }
}
