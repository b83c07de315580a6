/**
 * The ledger page: the list of bills ("configs"), the selected bill, the
 * undo history and the handlers that edit one entry of the selected bill.
 * Every entry edit works on the flat entry list, regroups it into the
 * grouped ledger and writes the ledger back as text; the bill store is
 * reached through `storeOk`, which says whether the awaited store call
 * resolved.
 */
module Page {
  import opened Js
  import opened OrderedMap
  import opened Expenses
  import opened ExpenseUtils
  import opened LedgerText
  import opened History
  import opened Keyboard

  /** `ExpenseConfig`; `entries` is the optional `expenseList`. */
  datatype Config = Config(
    id: string, name: string, rawInput: string,
    expenses: Ledger, entries: Option<seq<Entry>>, createdAt: int)

  /** `HistoryState`; a deep copy compared as JSON is a value here. */
  datatype Snapshot = Snapshot(configs: seq<Config>, currentId: Option<string>)

  /**
   * `Partial<ExpenseEntry>`: a field is `Some` when the update names it.
   * `description` can be named with the value `undefined`, hence the nested
   * option.
   */
  datatype Patch = Patch(
    id: Option<string>, category: Option<string>, amount: Option<real>,
    description: Option<Option<string>>)

  // ---------------------------------------------------------------------
  // Finding and replacing the selected bill

  /** `configs.find((c) => c.id === currentConfigId)`, as an index. */
  function FindConfig(cs: seq<Config>, id: Option<string>): (r: Option<nat>)
    ensures r.Some? ==> r.value < |cs| && Some(cs[r.value].id) == id
    ensures r.Some? ==> forall j :: 0 <= j < r.value ==> Some(cs[j].id) != id
    ensures r.None? ==> forall j :: 0 <= j < |cs| ==> Some(cs[j].id) != id
  {
    if cs == [] then None
    else if Some(cs[0].id) == id then Some(0)
    else
      var rest := FindConfig(cs[1..], id);
      if rest.Some? then Some(rest.value + 1) else None
  }

  /** `configs.map((c) => (c.id === id ? updated : c))`. */
  function ReplaceConfig(cs: seq<Config>, id: string, updated: Config): (r: seq<Config>)
    ensures |r| == |cs|
    ensures forall k :: 0 <= k < |cs| ==> r[k] == if cs[k].id == id then updated else cs[k]
  {
    seq(|cs|, k requires 0 <= k < |cs| => if cs[k].id == id then updated else cs[k])
  }

  /**
   * After the replacement the selected bill is found at the same place and
   * is the updated one; no bill with another id changes.
   */
  lemma {:induction false} ReplaceConfigSelects(cs: seq<Config>, id: string, updated: Config)
    requires updated.id == id && FindConfig(cs, Some(id)).Some?
    ensures FindConfig(ReplaceConfig(cs, id, updated), Some(id)) == FindConfig(cs, Some(id))
    ensures ReplaceConfig(cs, id, updated)[FindConfig(cs, Some(id)).value] == updated
    ensures forall k :: 0 <= k < |cs| && cs[k].id != id ==> ReplaceConfig(cs, id, updated)[k] == cs[k]
  {
    var r := ReplaceConfig(cs, id, updated);
    var i := FindConfig(cs, Some(id)).value;
    var cs' := cs[1..];
    if i > 0 {
      assert cs[0].id != id;
      assert ReplaceConfig(cs', id, updated) == r[1..];
      ReplaceConfigSelects(cs', id, updated);
    }
  }

  // ---------------------------------------------------------------------
  // The flat-list edits

  /** `{ ...entry, ...updates }`. */
  function ApplyPatch(e: Entry, p: Patch): (r: Entry)
    ensures p.id.None? ==> r.id == e.id
    ensures p.category.None? ==> r.category == e.category
    ensures p.amount.None? ==> r.amount == e.amount
    ensures p.description.None? ==> r.description == e.description
  {
    Entry(
      if p.id.Some? then p.id.value else e.id,
      if p.category.Some? then p.category.value else e.category,
      if p.amount.Some? then p.amount.value else e.amount,
      if p.description.Some? then p.description.value else e.description)
  }

  /** The update handler's `entries.map`: entries with the id get the patch. */
  function UpdatedEntries(es: seq<Entry>, id: string, p: Patch): (r: seq<Entry>)
    ensures |r| == |es|
    ensures forall k :: 0 <= k < |es| && es[k].id != id ==> r[k] == es[k]
    ensures forall k :: 0 <= k < |es| && es[k].id == id ==> r[k] == ApplyPatch(es[k], p)
  {
    seq(|es|, k requires 0 <= k < |es| => if es[k].id == id then ApplyPatch(es[k], p) else es[k])
  }

  /** The move handler's `entries.map`: entries with the id get the new category. */
  function MovedEntries(es: seq<Entry>, id: string, c: string): (r: seq<Entry>)
    ensures |r| == |es|
  {
    seq(|es|, k requires 0 <= k < |es| => if es[k].id == id then es[k].(category := c) else es[k])
  }

  /** The delete handler's `entries.filter((e) => e.id !== id)`. */
  function DeletedEntries(es: seq<Entry>, id: string): (r: seq<Entry>)
    ensures |r| <= |es|
    ensures forall e :: e in r <==> e in es && e.id != id
  {
    if es == [] then []
    else
      var prev := DeletedEntries(es[..|es| - 1], id);
      assert es == es[..|es| - 1] + [es[|es| - 1]];
      if es[|es| - 1].id != id then prev + [es[|es| - 1]] else prev
  }

  /** The entry the create handler appends: an empty description is left out. */
  function NewEntry(category: string, description: string, amount: real, id: string): (e: Entry)
    ensures e.category == category && e.amount == amount && e.id == id
    ensures e.description.None? <==> description == []
    ensures e.description.Some? ==> e.description.value == description
  {
    Entry(id, category, amount, if description == [] then None else Some(description))
  }

  /** Moving is the update whose patch names only the category. */
  lemma {:induction false} MoveIsCategoryPatch(es: seq<Entry>, id: string, c: string)
    ensures MovedEntries(es, id, c) == UpdatedEntries(es, id, Patch(None, Some(c), None, None))
  {
    var r := MovedEntries(es, id, c);
    var u := UpdatedEntries(es, id, Patch(None, Some(c), None, None));
    assert forall k :: 0 <= k < |es| ==> r[k] == u[k];
  }

  /** An update or a move for an id no entry has changes nothing. */
  lemma {:induction false} UpdateAbsentId(es: seq<Entry>, id: string, p: Patch)
    requires forall k :: 0 <= k < |es| ==> es[k].id != id
    ensures UpdatedEntries(es, id, p) == es
  {
  }

  /** Deleting keeps the other entries in their order: the filter distributes over concatenation. */
  lemma {:induction false} DeletedAppend(a: seq<Entry>, b: seq<Entry>, id: string)
    ensures DeletedEntries(a + b, id) == DeletedEntries(a, id) + DeletedEntries(b, id)
  {
    if b == [] {
      assert a + b == a;
    } else {
      var b' := b[..|b| - 1];
      assert (a + b)[..|a + b| - 1] == a + b';
      assert (a + b)[|a + b| - 1] == b[|b| - 1];
      DeletedAppend(a, b', id);
    }
  }

  /** Deleting an id no entry has changes nothing. */
  lemma {:induction false} DeleteAbsentId(es: seq<Entry>, id: string)
    requires forall k :: 0 <= k < |es| ==> es[k].id != id
    ensures DeletedEntries(es, id) == es
  {
    if es != [] {
      DeleteAbsentId(es[..|es| - 1], id);
      assert es == es[..|es| - 1] + [es[|es| - 1]];
    }
  }

  // ---------------------------------------------------------------------
  // The regrouped ledger after an edit

  /** After a delete, a category still has a bucket exactly when an entry of it survives. */
  lemma {:induction false} DeleteKeepsCategoryIff(es: seq<Entry>, id: string, c: string)
    ensures c in Keys(Grouped(DeletedEntries(es, id))) <==> exists e :: e in es && e.id != id && e.category == c
  {
    var r := DeletedEntries(es, id);
    GroupedBucket(r, c);
    CategoriesMembers(r, c);
  }

  /** After a move, every entry with the id sits in the target category's bucket, carrying the new category. */
  lemma {:induction false} MovedLandsInTarget(es: seq<Entry>, id: string, c: string, k: nat)
    requires k < |es| && es[k].id == id
    ensures es[k].(category := c) in GetOrEmpty(Grouped(MovedEntries(es, id, c)), c)
  {
    var r := MovedEntries(es, id, c);
    GroupedBucket(r, c);
    OfCategoryMembers(r, c, es[k].(category := c));
    assert r[k] == es[k].(category := c);
  }

  /**
   * After a move, a category other than the target keeps a bucket exactly
   * when an entry with another id has it: the source bucket vanishes with
   * its last entry.
   */
  lemma {:induction false} MoveKeepsCategoryIff(es: seq<Entry>, id: string, c: string, c': string)
    requires c' != c
    ensures c' in Keys(Grouped(MovedEntries(es, id, c))) <==> exists e :: e in es && e.id != id && e.category == c'
  {
    var r := MovedEntries(es, id, c);
    GroupedBucket(r, c');
    CategoriesMembers(r, c');
    if exists e :: e in r && e.category == c' {
      var e :| e in r && e.category == c';
      var k :| 0 <= k < |r| && r[k] == e;
      assert es[k] == e && es[k] in es;
    }
    if exists e :: e in es && e.id != id && e.category == c' {
      var e :| e in es && e.id != id && e.category == c';
      var k :| 0 <= k < |es| && es[k] == e;
      assert r[k] == e && r[k] in r;
    }
  }

  /** A created entry joins the end of its category's bucket; every other bucket is unchanged. */
  lemma {:induction false} CreateAppendsToBucket(es: seq<Entry>, e: Entry, c: string)
    ensures GetOrEmpty(Grouped(es + [e]), c) ==
      if c == e.category then GetOrEmpty(Grouped(es), c) + [e] else GetOrEmpty(Grouped(es), c)
    ensures c in Keys(Grouped(es + [e])) <==> c in Keys(Grouped(es)) || c == e.category
  {
    var es' := es + [e];
    GroupedBucket(es', c);
    GroupedBucket(es, c);
    OfCategorySnoc(es, e, c);
    CategoriesSnoc(es, e);
  }

  lemma {:induction false} OfCategorySnoc(es: seq<Entry>, e: Entry, c: string)
    ensures OfCategory(es + [e], c) == if e.category == c then OfCategory(es, c) + [e] else OfCategory(es, c)
  {
    assert (es + [e])[..|es|] == es;
  }

  lemma {:induction false} CategoriesSnoc(es: seq<Entry>, e: Entry)
    ensures Categories(es + [e]) == Categories(es) + [e.category]
  {
  }

  // ---------------------------------------------------------------------
  // Undo after an edit

  /**
   * The edit handlers push the state before and the state after a
   * successful edit; when they differ, undo then returns the state before.
   */
  lemma {:induction false} UndoAfterEdit(h: Timeline<Snapshot>, before: Snapshot, after: Snapshot)
    requires Inv(h) && before != after
    ensures Inv(Pushed(h, before))
    ensures Undone(Pushed(Pushed(h, before), after)).1 == Some(before)
  {
    var h1 := Pushed(h, before);
    PushTruncatesAndAppends(h1, after);
    var h2 := Pushed(h1, after);
    assert h2.states[h2.index - 1] == h1.states[h1.index];
  }

  // ---------------------------------------------------------------------
  // Keyboard shortcuts

  /** What a page shortcut does. */
  datatype Action = UndoAction | RedoAction

  /** The page's shortcut list as written: Ctrl+Z undoes, Ctrl+Y and Ctrl+Shift+Z redo. */
  const ShortcutsAsWritten: seq<Shortcut<Action>> := [
    Shortcut("z", Some(true), None, None, None, UndoAction),
    Shortcut("y", Some(true), None, None, None, RedoAction),
    Shortcut("z", Some(true), Some(true), None, None, RedoAction)
  ]

  /** The list with the undo entry limited to Shift released, so that Ctrl+Shift+Z reaches the redo entry. */
  const Shortcuts: seq<Shortcut<Action>> := [
    Shortcut("z", Some(true), Some(false), None, None, UndoAction),
    Shortcut("y", Some(true), None, None, None, RedoAction),
    Shortcut("z", Some(true), Some(true), None, None, RedoAction)
  ]

  /** Ctrl (or Cmd) with Shift and the Z key, with or without Alt, anywhere on the page. */
  predicate CtrlShiftZ(e: KeyEvent) {
    ToLower(e.key) == "z" && e.code == "KeyZ" && (e.ctrlKey || e.metaKey) && e.shiftKey
  }

  /** Ctrl (or Cmd) and the Z key without Shift. */
  predicate CtrlZ(e: KeyEvent) {
    ToLower(e.key) == "z" && e.code == "KeyZ" && (e.ctrlKey || e.metaKey) && !e.shiftKey
  }

  /** As written, the shift-less undo entry comes first and captures Ctrl+Shift+Z: it undoes instead of redoing. */
  lemma {:induction false} CtrlShiftZUndoesAsWritten(e: KeyEvent)
    requires CtrlShiftZ(e)
    ensures FirstAllowed(ShortcutsAsWritten, e) == Some(0)
    ensures ShortcutsAsWritten[0].handler == UndoAction
  {
    assert Allowed(ShortcutsAsWritten[0], e);
    FirstAllowedOfPrefix(ShortcutsAsWritten, e, 0);
  }

  /** With the corrected list Ctrl+Shift+Z redoes and Ctrl+Z still undoes. */
  lemma {:induction false} CtrlShiftZRedoes(e: KeyEvent)
    ensures CtrlShiftZ(e) ==> FirstAllowed(Shortcuts, e).Some? && Shortcuts[FirstAllowed(Shortcuts, e).value].handler == RedoAction
    ensures CtrlZ(e) ==> FirstAllowed(Shortcuts, e) == Some(0) && Shortcuts[0].handler == UndoAction
  {
    if CtrlShiftZ(e) {
      assert !Allowed(Shortcuts[0], e);
      assert !Matches(Shortcuts[1], e);
      assert Allowed(Shortcuts[2], e);
      FirstAllowedOfPrefix(Shortcuts, e, 2);
    }
    if CtrlZ(e) {
      assert Allowed(Shortcuts[0], e);
      FirstAllowedOfPrefix(Shortcuts, e, 0);
    }
  }

  // ---------------------------------------------------------------------
  // The page

  /** The selected bill after an edit that left `es` as its flat list. */
  function Rewritten(c: Config, es: seq<Entry>, show: real -> string): (r: Config)
    ensures r.id == c.id && r.name == c.name && r.createdAt == c.createdAt
    ensures r.entries == Some(es)
    ensures Keys(r.expenses) == FirstOccurrences(Categories(es))
    ensures forall k :: GetOrEmpty(r.expenses, k) == OfCategory(es, k)
    ensures r.rawInput == Serialize(r.expenses, show)
  {
    GroupedKeys(es);
    forall k {
      GroupedBucket(es, k);
    }
    c.(expenses := Grouped(es), entries := Some(es), rawInput := Serialize(Grouped(es), show))
  }

  /** The page state behind `Home`. */
  class PageState {
    var configs: seq<Config>
    var currentId: Option<string>
    /** The supply of fresh entry ids. */
    var nextId: nat
    const history: History<Snapshot>

    ghost predicate Valid()
      reads this, history
    {
      history.Valid()
    }

    /** The page at mount: no bills, nothing selected, the history holding that state. */
    constructor ()
      ensures Valid() && fresh(history)
      ensures configs == [] && currentId == None && nextId == 0
      ensures history.Model() == Timeline([Snapshot([], None)], 0)
    {
      configs := [];
      currentId := None;
      nextId := 0;
      history := new History(Snapshot([], None));
    }

    function Current(): Snapshot
      reads this
    {
      Snapshot(configs, currentId)
    }

    /** `currentConfig`. */
    function CurrentConfig(): (r: Option<Config>)
      reads this
      ensures r.Some? <==> FindConfig(configs, currentId).Some?
      ensures r.Some? ==> r.value == configs[FindConfig(configs, currentId).value]
    {
      var i := FindConfig(configs, currentId);
      if i.Some? then Some(configs[i.value]) else None
    }

    /**
     * `handleUpdateEntry`: the selected bill's entries with the id get the
     * patch; the bill is replaced once the store call resolves. The history
     * is not touched.
     */
    method HandleUpdateEntry(id: string, p: Patch, show: real -> string, storeOk: bool)
      requires Valid()
      modifies this
      ensures Valid() && currentId == old(currentId) && nextId == old(nextId)
      ensures var c := old(CurrentConfig());
        if c.None? || c.value.entries.None? || !storeOk then configs == old(configs)
        else configs == ReplaceConfig(old(configs), c.value.id,
          Rewritten(c.value, UpdatedEntries(c.value.entries.value, id, p), show))
    {
      var current := CurrentConfig();
      if current.None? || current.value.entries.None? {
        return;
      }
      var c := current.value;
      var updatedEntries := UpdatedEntries(c.entries.value, id, p);
      var updatedExpenses := FlatListToParsed(updatedEntries);
      var rawInput := Serialize(updatedExpenses, show);
      if storeOk {
        var updatedConfig := c.(expenses := updatedExpenses, entries := Some(updatedEntries), rawInput := rawInput);
        configs := ReplaceConfig(configs, c.id, updatedConfig);
      }
    }

    /**
     * The shared tail of the delete, create and move handlers: push the
     * state before, write the new flat list into the selected bill once the
     * store call resolves, and push the state after.
     */
    method Commit(c: Config, updatedEntries: seq<Entry>, show: real -> string, storeOk: bool)
      requires Valid() && CurrentConfig() == Some(c)
      modifies this, history
      ensures Valid() && currentId == old(currentId) && nextId == old(nextId)
      ensures var h1 := Pushed(old(history.Model()), old(Current()));
        if storeOk then
          configs == ReplaceConfig(old(configs), c.id, Rewritten(c, updatedEntries, show)) &&
          history.Model() == Pushed(h1, Current())
        else configs == old(configs) && history.Model() == h1
    {
      history.PushState(Snapshot(configs, currentId));
      var updatedExpenses := FlatListToParsed(updatedEntries);
      var rawInput := Serialize(updatedExpenses, show);
      if storeOk {
        var updatedConfig := c.(expenses := updatedExpenses, entries := Some(updatedEntries), rawInput := rawInput);
        configs := ReplaceConfig(configs, c.id, updatedConfig);
        history.PushState(Snapshot(configs, currentId));
      }
    }

    /** `handleDeleteEntry`. */
    method HandleDeleteEntry(id: string, show: real -> string, storeOk: bool)
      requires Valid()
      modifies this, history
      ensures Valid() && currentId == old(currentId) && nextId == old(nextId)
      ensures var c := old(CurrentConfig());
        var h1 := Pushed(old(history.Model()), old(Current()));
        if c.None? || c.value.entries.None? then
          configs == old(configs) && history.Model() == old(history.Model())
        else if storeOk then
          configs == ReplaceConfig(old(configs), c.value.id,
            Rewritten(c.value, DeletedEntries(c.value.entries.value, id), show)) &&
          history.Model() == Pushed(h1, Current())
        else configs == old(configs) && history.Model() == h1
    {
      var current := CurrentConfig();
      if current.None? || current.value.entries.None? {
        return;
      }
      var c := current.value;
      Commit(c, DeletedEntries(c.entries.value, id), show, storeOk);
    }

    /** `handleConfirmCreateEntry`: the new entry gets the next fresh id. */
    method HandleConfirmCreateEntry(category: string, description: string, amount: real,
                                    show: real -> string, storeOk: bool)
      requires Valid()
      modifies this, history
      ensures Valid() && currentId == old(currentId)
      ensures var c := old(CurrentConfig());
        var h1 := Pushed(old(history.Model()), old(Current()));
        if c.None? || c.value.entries.None? then
          configs == old(configs) && history.Model() == old(history.Model()) && nextId == old(nextId)
        else
          nextId == old(nextId) + 1 &&
          if storeOk then
            configs == ReplaceConfig(old(configs), c.value.id,
              Rewritten(c.value, c.value.entries.value + [NewEntry(category, description, amount, FreshId(old(nextId)))], show)) &&
            history.Model() == Pushed(h1, Current())
          else configs == old(configs) && history.Model() == h1
    {
      var current := CurrentConfig();
      if current.None? || current.value.entries.None? {
        return;
      }
      var c := current.value;
      var newEntry := NewEntry(category, description, amount, FreshId(nextId));
      nextId := nextId + 1;
      Commit(c, c.entries.value + [newEntry], show, storeOk);
    }

    /** `handleMoveEntry`. */
    method HandleMoveEntry(id: string, newCategory: string, show: real -> string, storeOk: bool)
      requires Valid()
      modifies this, history
      ensures Valid() && currentId == old(currentId) && nextId == old(nextId)
      ensures var c := old(CurrentConfig());
        var h1 := Pushed(old(history.Model()), old(Current()));
        if c.None? || c.value.entries.None? then
          configs == old(configs) && history.Model() == old(history.Model())
        else if storeOk then
          configs == ReplaceConfig(old(configs), c.value.id,
            Rewritten(c.value, MovedEntries(c.value.entries.value, id, newCategory), show)) &&
          history.Model() == Pushed(h1, Current())
        else configs == old(configs) && history.Model() == h1
    {
      var current := CurrentConfig();
      if current.None? || current.value.entries.None? {
        return;
      }
      var c := current.value;
      Commit(c, MovedEntries(c.entries.value, id, newCategory), show, storeOk);
    }

    /**
     * `handleImportBill`: a ledger without categories is turned away before
     * anything else happens; otherwise missing ids are filled, the flat list
     * is built and, once the store call resolves, the new bill is appended
     * and selected. The result says whether the ledger was accepted.
     */
    method HandleImportBill(name: string, rawInput: string, expenses: Ledger,
                            newId: string, now: int, storeOk: bool) returns (accepted: bool)
      requires Valid()
      modifies this`configs, this`currentId, this`nextId
      ensures Valid()
      ensures accepted <==> |expenses| > 0
      ensures !accepted ==> configs == old(configs) && currentId == old(currentId) && nextId == old(nextId)
      ensures accepted ==>
        var filled := AddIds(expenses, old(nextId));
        nextId == filled.1 &&
        if storeOk then
          configs == old(configs) + [Config(newId, name, rawInput, filled.0, Some(FlatEntries(filled.0)), now)] &&
          currentId == Some(newId)
        else configs == old(configs) && currentId == old(currentId)
    {
      if |expenses| == 0 {
        return false;
      }
      var expensesWithIds, next' := AddIdsToParsed(expenses, nextId);
      nextId := next';
      var expenseList := ParsedToFlatList(expensesWithIds);
      if storeOk {
        configs := configs + [Config(newId, name, rawInput, expensesWithIds, Some(expenseList), now)];
        currentId := Some(newId);
      }
      return true;
    }

    /** `handleCreateBill`: an empty bill, appended and selected once the store call resolves. */
    method HandleCreateBill(name: string, newId: string, now: int, storeOk: bool)
      requires Valid()
      modifies this
      ensures Valid() && nextId == old(nextId)
      ensures storeOk ==> configs == old(configs) + [Config(newId, name, "", [], Some([]), now)] && currentId == Some(newId)
      ensures !storeOk ==> configs == old(configs) && currentId == old(currentId)
    {
      if storeOk {
        configs := configs + [Config(newId, name, "", [], Some([]), now)];
        currentId := Some(newId);
      }
    }

    /** A keydown handled by `shortcuts`: the shortcut that runs, if any, undoes or redoes. */
    method HandleKey(shortcuts: seq<Shortcut<Action>>, e: KeyEvent) returns (out: Outcome)
      requires Valid()
      modifies this, history
      ensures Valid() && nextId == old(nextId)
      ensures out.ran == FirstAllowed(shortcuts, e) && (out.prevented <==> out.ran.Some?)
      ensures out.ran.None? ==> history.Model() == old(history.Model()) && Current() == old(Current())
      ensures out.ran.Some? && shortcuts[out.ran.value].handler == UndoAction ==>
        var (h, s) := Undone(old(history.Model()));
        history.Model() == h && Current() == if s.Some? then s.value else old(Current())
      ensures out.ran.Some? && shortcuts[out.ran.value].handler == RedoAction ==>
        var (h, s) := Redone(old(history.Model()));
        history.Model() == h && Current() == if s.Some? then s.value else old(Current())
    {
      out := HandleKeyDown(shortcuts, e);
      if out.ran.Some? {
        FirstAllowedIsFirst(shortcuts, e);
        match shortcuts[out.ran.value].handler {
          case UndoAction => HandleUndo();
          case RedoAction => HandleRedo();
        }
      }
    }

    method HandleUndo()
      requires Valid()
      modifies this, history
      ensures Valid() && nextId == old(nextId)
      ensures var (h, s) := Undone(old(history.Model()));
        history.Model() == h && Current() == if s.Some? then s.value else old(Current())
    {
      var state := history.Undo();
      if state.Some? {
        configs := state.value.configs;
        currentId := state.value.currentId;
      }
    }

    /** The redo shortcut's handler. */
    method HandleRedo()
      requires Valid()
      modifies this, history
      ensures Valid() && nextId == old(nextId)
      ensures var (h, s) := Redone(old(history.Model()));
        history.Model() == h && Current() == if s.Some? then s.value else old(Current())
    {
      var state := history.Redo();
      if state.Some? {
        configs := state.value.configs;
        currentId := state.value.currentId;
      }
    }
  }
}
