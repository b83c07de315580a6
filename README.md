# ShrimpTransactions ledger core in Dafny

ShrimpTransactions is a small expense ledger. A bill holds the text the user
typed, one line per category:

    超市: 10, 54(hmart)
    餐饮：12.5（午饭），8

The text is parsed into a grouped ledger: an insertion-ordered dictionary from
category to entries. Each entry has an id, a category, an amount and an
optional description. The grouped ledger has two other views: a flat entry
list, and the rebuilt text that the page writes back after every edit.

Edits come from the interactive chart. Dragging a segment to another lane
moves its entry. Clicking the empty band above a lane creates an entry. The
page also edits or deletes single entries, keeps an undo/redo history of its
bills bounded at 50 snapshots, and binds Ctrl+Z / Ctrl+Y / Ctrl+Shift+Z to it.
Smaller parts:
- a CSV importer;
- a stacked bar chart with a legend;
- the settings store and its dialog;
- a five-step onboarding tour;
- the bill dialogs (create, import, edit), the create-entry dialog and the entry form.

This project models that logic and proves properties of it. The module layout
follows the source files:

| module | file | models |
|---|---|---|
| `Js` | js.dfy | the JavaScript string and number built-ins the code relies on: `trim`, `split`, `join`, `replace`, `toLowerCase` (ASCII letters only), `${n}` of an integer, `Number.parseFloat` |
| `OrderedMap` | ordered_map.dfy | a JavaScript object used as a dictionary: `Object.entries` order, `m[k] = v`, `if (!m[k]) m[k] = []; m[k].push(x)` |
| `Expenses` | expenses.dfy | `ExpenseEntry`, `ParsedExpenses` and the fresh-id supply |
| `ExpenseParser` | expense_parser.dfy | lib/expense-parser.ts |
| `ExpenseUtils` | expense_utils.dfy | lib/expense-utils.ts |
| `LedgerText` | ledger_text.dfy | the text the page rebuilds after an edit, and its round trip through the parser |
| `History` | history.dfy | hooks/use-history.ts |
| `Keyboard` | keyboard.dfy | hooks/use-keyboard-shortcuts.ts |
| `Page` | page.dfy | app/page.tsx |
| `ChartInteractive` | chart_interactive.dfy | components/expense-chart-interactive.tsx |
| `ExpenseChart` | expense_chart.dfy | components/expense-chart.tsx |
| `ImportCsv` | import_csv.dfy | components/import-csv-dialog.tsx |
| `SettingsContext`, `SettingsDialog` | settings_context.dfy, settings_dialog.dfy | contexts/settings-context.tsx, components/settings-dialog.tsx |
| `Onboarding` | onboarding.dfy | components/onboarding-tour.tsx |
| `ImportDialog`, `EditBillDialog`, `CreateBillDialog`, `CreateExpenseDialog`, `ExpenseForm` | one file each | the dialog and form components of the same names |

Pure code (`map`, `filter`, spreads, regular expressions) is written as
functions. Code that changes things step by step is written as methods:
- the parser's line loop;
- the `forEach` pushes that build dictionaries and lists;
- the segment-stacking loop;
- the shortcut loop.

Each such method is proved equal to its specification function. Component
and hook state (`useState` fields, the history array and cursor, the drag
variables) is a class whose methods update its fields.

Modelling choices:
- Ids come from a counter `next`; `FreshId(n)` is injective and never empty.
- Amounts are reals.
- `Number.parseFloat` is modelled as the exact decimal value of the longest
  numeric prefix. It handles sign, `Infinity`, digits, fraction and exponent.
- `${amount}` is a function parameter `show`.
- Each awaited store call becomes a parameter `storeOk`, which says whether
  the call resolved.

The model follows the code where the project's design notes say something
else:
- The edit-mode colour is a linear min–max hue between 120 and 0. It is not a
  percentile scale.
- Chart lanes are the seven fixed categories. They are not the categories of
  the bill.

## Model

| member | source | states |
|---|---|---|
| Expenses.FreshId | lib/expense-parser.ts:6-8 | a generated id is never empty, so `addIdsToParsed` keeps it |
| Expenses.FreshIdInjective | lib/expense-parser.ts:6-8 | ids drawn at different points of the supply differ: equal ids come from the same point |
| Expenses.FreshIdsDiffer | lib/expense-parser.ts:6-8 | ids drawn at two different points of the supply are different |
| Expenses.EarlierIdDiffers | lib/expense-parser.ts:69-76 | an id already in a ledger built from supply points below `hi` differs from every id drawn from `hi` on |
| OrderedMap.Get | lib/expense-utils.ts:22 | `m[k]` is absent exactly when no bucket is keyed `k` |
| OrderedMap.GetAt | lib/expense-utils.ts:8 | with unique keys, looking up a bucket's key finds that bucket's entries |
| OrderedMap.IndexOfKeys | lib/expense-utils.ts:22 | the first position keyed `k` exists exactly when `k` is a key |
| OrderedMap.Put | lib/expense-parser.ts:70 | `m[k] = v` replaces the bucket in place when `k` is present and appends it otherwise; keys stay unique; `k` then reads `v` and every other key reads as before |
| OrderedMap.PutAt | lib/expense-parser.ts:70 | bucket by bucket, assignment writes only the position of `k` (or one new last position) |
| OrderedMap.Push | lib/expense-utils.ts:22-25 | create-if-missing then push: `k` reads its old entries plus `x`; other keys are unchanged; a new key becomes the last bucket; keys stay unique |
| OrderedMap.PushLookup | lib/expense-utils.ts:22-25 | after a push, a lookup of `c` sees `x` appended exactly when `c` is the pushed key, and `c` is a key exactly when it was one or is the pushed key |
| OrderedMap.PushPresent | lib/expense-utils.ts:25 | pushing onto an existing key extends that bucket where it stands |
| OrderedMap.NonEmptyBuckets | lib/expense-utils.ts:19-28 | the buckets that keep at least one entry; none of them is empty |
| ExpenseParser.NonBlank | lib/expense-parser.ts:21 | the kept lines are input lines that are not blank after trimming, and every input line that is not blank is kept |
| ExpenseParser.NonBlankAppend | lib/expense-parser.ts:21 | the filter distributes over concatenation, so kept lines stay in input order |
| ExpenseParser.NonBlankOfBlanks | lib/expense-parser.ts:21 | blank lines only: nothing is kept |
| ExpenseParser.BlankInputParsesEmpty | lib/expense-parser.ts:20-21 | a blank input parses to the empty ledger and draws no id |
| ExpenseParser.InputLinesShape | lib/expense-parser.ts:20-21 | after `\r\n`/`\r` normalisation, splitting and the blank filter, every line has no line break and is not blank |
| ExpenseParser.AmountsGroup | lib/expense-parser.ts:25 | the `\s*(.+)$` group is non-empty and holds no line terminator |
| ExpenseParser.ColonSearch | lib/expense-parser.ts:25 | the lazy `(.+?)` search: the result is the end of the line or a colon (`:` or `：`) followed by a valid rest |
| ExpenseParser.ColonSearchSpec | lib/expense-parser.ts:25 | the search stops at the first position where the pattern can split the line, and no earlier position can |
| ExpenseParser.MatchLineFirstColon | lib/expense-parser.ts:25-28 | a line matches exactly when some colon has at least one character before it and a non-blank rest after it; the split is at the first such colon |
| ExpenseParser.AmountRun | lib/expense-parser.ts:42 | the longest prefix of digits and dots (`[\d.]+`) |
| ExpenseParser.IndexOfChar | lib/expense-parser.ts:42 | the first position of the closing bracket, which `[^）]*` cannot cross |
| ExpenseParser.BracketNote | lib/expense-parser.ts:42 | the bracket part matches exactly `open note close` followed only by whitespace, with no closing bracket inside the note |
| ExpenseParser.BracketNoteOf | lib/expense-parser.ts:42 | `open + note + close` with no `close` inside gives that note |
| ExpenseParser.BracketNoteUnclosed | lib/expense-parser.ts:50 | with no closing bracket after the opening one, the bracket pattern fails |
| ExpenseParser.MatchItem | lib/expense-parser.ts:42-57 | a match's amount text is a non-empty digit/dot prefix of the item |
| ExpenseParser.MatchItemForms | lib/expense-parser.ts:42-57 | a match takes only one of the three forms. Its amount text is the whole non-empty digit/dot run at the item's start. After the run and any whitespace, either nothing is left and there is no note, or the note sits in a same-kind bracket pair (`（…）` or `(…)`), holds no closing bracket of that kind, and is followed only by whitespace |
| ExpenseParser.MatchItemWithNote | lib/expense-parser.ts:42-52 | `d（note）` and `d(note)` match with amount `d` and that note |
| ExpenseParser.MatchItemBare | lib/expense-parser.ts:55 | a bare digit/dot run matches with no note |
| ExpenseParser.MatchItemMixed | lib/expense-parser.ts:42-57 | an item opened with one kind of bracket and closed with the other matches no pattern |
| ExpenseParser.Note | lib/expense-parser.ts:47 | `note?.trim() \|\| undefined`: a description is never empty and is already trimmed |
| ExpenseParser.ParseItem | lib/expense-parser.ts:39-66 | an accepted item has a positive amount and a trimmed description, or none |
| ExpenseParser.AcceptedItemForms | lib/expense-parser.ts:39-66 | an accepted item comes from a match of the trimmed item, so it has one of the three forms. Its amount is the match's amount text read by `parseFloat`, and its description is the match's note, trimmed and dropped when empty |
| ExpenseParser.ParseTrimmedItem | lib/expense-parser.ts:42-66 | the same two promises for the item after `trim()` |
| ExpenseParser.ParseItemOfMatch | lib/expense-parser.ts:63-66 | a matched item whose amount text parses to a positive number is accepted with that amount and the trimmed note |
| ExpenseParser.ParseItemBare | lib/expense-parser.ts:55-66 | a bare amount is accepted with its value and no description |
| ExpenseParser.ParseItemWithNote | lib/expense-parser.ts:42-66 | an amount followed by `（note）` or `(note)` is accepted with the trimmed note |
| ExpenseParser.ParseItemOfNoMatch | lib/expense-parser.ts:59-61 | an item matching none of the three patterns is skipped |
| ExpenseParser.ParseItemMixedAsciiOpen | lib/expense-parser.ts:50-61 | `12(note）` is skipped |
| ExpenseParser.ParseItemMixedFullWidthOpen | lib/expense-parser.ts:42-61 | `12（note)` is skipped |
| ExpenseParser.ParseItemNeedsLeadingAmountChar | lib/expense-parser.ts:42-61 | an item starting with a sign, or with anything but a digit or a dot, is skipped |
| ExpenseParser.AmountTextIsNotInfinite | lib/expense-parser.ts:63-64 | a digit/dot run never parses to `Infinity` |
| ExpenseParser.ItemTextsHaveNoCommas | lib/expense-parser.ts:37-38 | after `，` becomes `,` and the split, no item holds either comma |
| ExpenseParser.ParseItems | lib/expense-parser.ts:38-67 | `validAmounts`: at most one item per piece, each with a positive amount |
| ExpenseParser.AcceptItems | lib/expense-parser.ts:34-67 | the `forEach` that pushes accepted items equals `ParseItems` |
| ExpenseParser.NewEntries | lib/expense-parser.ts:70-75 | one entry per accepted item, in item order, with the line's category, the item's amount and note, and ids drawn in order from `next` |
| ExpenseParser.ParseLine | lib/expense-parser.ts:25-76 | one line never moves the id supply backwards |
| ExpenseParser.ParseLineEffect | lib/expense-parser.ts:69-76 | a line with accepted items assigns them to its category and draws one id per item; any other line changes nothing |
| ExpenseParser.ParseLineOfContent | lib/expense-parser.ts:69-76 | a line with category `c` and accepted items writes `c` to exactly those entries |
| ExpenseParser.LaterLineReplaces | lib/expense-parser.ts:70 | of two lines with the same category, the later one's entries replace the earlier one's, in the earlier one's position |
| ExpenseParser.ParseLines | lib/expense-parser.ts:23-77 | folding the lines never moves the id supply backwards |
| ExpenseParser.ParseExpensesValid | lib/expense-parser.ts:16-79 | every parse gives unique keys, no empty bucket, entries whose category is their key, positive amounts, and distinct ids all drawn during this parse |
| ExpenseParser.ParseLinesValid | lib/expense-parser.ts:23-77 | the same invariant after any number of lines |
| ExpenseParser.ParseLineValid | lib/expense-parser.ts:69-76 | one more line keeps the invariant |
| ExpenseParser.AssignValid | lib/expense-parser.ts:69-76 | assigning a line's fresh entries keeps the invariant |
| ExpenseParser.AssignShape | lib/expense-parser.ts:69-76 | the assignment keeps keys unique, buckets non-empty, categories matching and amounts positive |
| ExpenseParser.AssignIdsFrom | lib/expense-parser.ts:71 | after the assignment, every id was drawn between the parse's start and the new supply point |
| ExpenseParser.AssignDistinctIds | lib/expense-parser.ts:71 | after the assignment, no two entries share an id |
| ExpenseParser.ParseExpenseInput | lib/expense-parser.ts:16-79 | the loop over the lines computes `ParseExpenses` of the input |
| ExpenseParser.ApplyLine | lib/expense-parser.ts:24-76 | one turn of the loop (match, items, assignment) computes `ParseLine` |
| ExpenseUtils.Relabel | lib/expense-utils.ts:10 | `{ ...entry, category }`: every entry keeps its fields except the category, which becomes the key |
| ExpenseUtils.FlatEntries | lib/expense-utils.ts:6-14 | the flat list has exactly as many entries as the ledger |
| ExpenseUtils.FlatEntriesAt | lib/expense-utils.ts:8-11 | entry `j` of bucket `i` sits at position (entries before bucket `i`) + `j`, with its category overwritten by the key |
| ExpenseUtils.ParsedToFlatList | lib/expense-utils.ts:6-14 | the nested `forEach` pushes compute `FlatEntries` |
| ExpenseUtils.CreateThenPush | lib/expense-utils.ts:22-25 | create-if-missing followed by push is `Push` |
| ExpenseUtils.PushKeepsShape | lib/expense-utils.ts:22-25 | pushing an entry under its own category keeps buckets non-empty and categories matching |
| ExpenseUtils.GroupIntoShape | lib/expense-utils.ts:19-28 | regrouping keeps keys unique, buckets non-empty and entries under their own category |
| ExpenseUtils.Grouped | lib/expense-utils.ts:19-28 | the regrouped ledger has unique keys, no empty bucket, and every entry under its own category |
| ExpenseUtils.FlatListToParsed | lib/expense-utils.ts:19-28 | the `forEach` with create-if-missing and push computes `Grouped` |
| ExpenseUtils.OfCategoryMembers | lib/expense-utils.ts:25 | an entry is in the entries of category `c` exactly when it is a list entry of that category |
| ExpenseUtils.GroupedKeys | lib/expense-utils.ts:21-24 | buckets appear in the order in which their category first occurs |
| ExpenseUtils.GroupedBucket | lib/expense-utils.ts:19-28 | bucket `c` holds exactly the list entries of category `c`, in list order; `c` is a key exactly when some entry has it |
| ExpenseUtils.GroupIntoAppend | lib/expense-utils.ts:20-26 | regrouping `a + b` is regrouping `b` into the regrouped `a` |
| ExpenseUtils.GroupedFlatEntries | lib/expense-utils.ts:6-28 | `flatListToParsed(parsedToFlatList(p))` is `p` with its empty buckets removed |
| ExpenseUtils.FillIds | lib/expense-utils.ts:37-45 | each entry keeps its non-empty id, or gets a freshly drawn one with all other fields unchanged |
| ExpenseUtils.AddIds | lib/expense-utils.ts:33-49 | filling ids never moves the supply backwards |
| ExpenseUtils.AddIdsShape | lib/expense-utils.ts:36-45 | the result has the same keys in the same order and the same bucket sizes, and each entry is filled from the matching input entry |
| ExpenseUtils.FillIdsIdentity | lib/expense-utils.ts:38-40 | entries that all have ids come back unchanged and no id is drawn |
| ExpenseUtils.AddIdsIdentity | lib/expense-utils.ts:38-40 | a ledger whose entries all have ids comes back unchanged and no id is drawn |
| ExpenseUtils.AddIdsIdempotent | lib/expense-utils.ts:33-49 | filling ids a second time changes nothing |
| ExpenseUtils.AddIdsToParsed | lib/expense-utils.ts:33-49 | the loop that fills `result` bucket by bucket computes `AddIds` |
| LedgerText.ItemTextsOf | app/page.tsx:272 | each item text is `amount` or `amount(description)`, one per entry in order |
| LedgerText.LinesOf | app/page.tsx:270-275 | one line `cat: items` per bucket, in key order |
| LedgerText.ItemTextShape | app/page.tsx:272 | a printable entry's item text is one comma-free piece on one line with no surrounding whitespace |
| LedgerText.ParseItemText | app/page.tsx:272 | an item text reads back as the entry's amount and description (an empty description reads back as none) |
| LedgerText.ParseNotedItemText | lib/expense-parser.ts:50-52 | `d(note)` with a writable note reads back with that note |
| LedgerText.ParseItemTextAfterSpace | lib/expense-parser.ts:39 | an item text reads back the same with the space that the `", "` join puts in front of it |
| LedgerText.ParseItemPadded | lib/expense-parser.ts:39 | an item parses as its trimmed text does |
| LedgerText.ParseItemsAllAccepted | lib/expense-parser.ts:38-67 | when every piece is accepted, the accepted items are exactly those items in order |
| LedgerText.JoinedItemsShape | app/page.tsx:271-273 | the items part of a written line is one non-empty line starting with a digit or a dot |
| LedgerText.ItemTextsOfJoin | app/page.tsx:273 | splitting the `", "` join on commas gives back the item texts, each one after the first preceded by a space |
| LedgerText.ParseItemsOfJoin | app/page.tsx:271-273 | the items part of a written line reads back as the bucket's amounts and descriptions |
| LedgerText.AmountsGroupAfterSpace | lib/expense-parser.ts:25 | `\s*(.+)$` after the colon skips the one space and captures the rest |
| LedgerText.MatchLineOfLineText | app/page.tsx:274 | a written line matches with the category before its first colon and the items after the space |
| LedgerText.LineContentOfMatch | lib/expense-parser.ts:30-38 | a match yields the trimmed category and the items parsed from the rest |
| LedgerText.LineContentOfLineText | app/page.tsx:274 | a written line reads back as its category and its bucket's items |
| LedgerText.LineTextShape | app/page.tsx:274 | a written line is one line of text and is not blank |
| LedgerText.NonBlankKeepsAll | lib/expense-parser.ts:21 | the blank filter keeps a list of non-blank lines as it is |
| LedgerText.InputLinesOfSerialize | app/page.tsx:276 | the parser sees exactly the written lines of the rebuilt text |
| LedgerText.ParseLinesOfSerialize | app/page.tsx:269-276 | parsing the written lines rebuilds the ledger's categories in order, and its amounts and descriptions bucket by bucket |
| LedgerText.ParseLinesAppendBucket | app/page.tsx:269-276 | one more written line adds its bucket to what the earlier lines rebuilt |
| LedgerText.SerializeRoundTrip | app/page.tsx:269-276 | re-parsing the rebuilt text restores the same categories, amounts and descriptions. This needs categories that are trimmed, on one line and colon-free; trimmed one-line descriptions without `,` `，` `)`; and amounts printed as digit/dot strings |
| History.Pushed | hooks/use-history.ts:25-57 | a push keeps the history invariant (1 to 50 snapshots, cursor in range) and leaves the new snapshot current, at the last position unless the push was a no-op |
| History.InitialTimeline | hooks/use-history.ts:10-16 | the history starts with one snapshot at index 0, with nothing to undo or redo |
| History.PushCurrentIsNoOp | hooks/use-history.ts:33-41 | pushing a snapshot equal to the current one changes nothing |
| History.PushTruncatesAndAppends | hooks/use-history.ts:44-54 | a real push keeps the snapshots up to the cursor, appends the new one, drops the oldest when over 50, moves the cursor to the end and leaves nothing to redo |
| History.PushDropsRedoTail | hooks/use-history.ts:44-45 | below the cap, a push after undos has exactly `index + 2` snapshots and keeps every snapshot up to the cursor |
| History.UndoIffCanUndo | hooks/use-history.ts:60-67 | undo returns a snapshot exactly when `canUndo`; it then steps back one place and returns that snapshot; otherwise nothing changes |
| History.RedoIffCanRedo | hooks/use-history.ts:70-77 | redo returns a snapshot exactly when `canRedo`; it then steps forward one place; otherwise nothing changes |
| History.RedoAfterUndo | hooks/use-history.ts:60-77 | undo then redo restores the history and returns the snapshot that was current |
| History.UndoAfterRedo | hooks/use-history.ts:60-77 | redo then undo restores the history and returns the snapshot that was current |
| History.History.constructor | hooks/use-history.ts:10-16 | one initial snapshot and index 0 |
| History.History.CurrentState | hooks/use-history.ts:20-22 | the snapshot at the cursor |
| History.History.CanUndoNow | hooks/use-history.ts:80 | `canUndo` holds exactly when the cursor is above 0 |
| History.History.CanRedoNow | hooks/use-history.ts:83 | `canRedo` holds exactly when the cursor is below the last position |
| History.History.PushState | hooks/use-history.ts:25-57 | the array and cursor after `pushState` are `Pushed` of the old ones |
| History.History.Undo | hooks/use-history.ts:60-67 | the new state and the returned snapshot are `Undone` of the old state |
| History.History.Redo | hooks/use-history.ts:70-77 | the new state and the returned snapshot are `Redone` of the old state |
| Keyboard.FirstAllowed | hooks/use-keyboard-shortcuts.ts:15-46 | the shortcut that runs, if any, is one of the list |
| Keyboard.FirstAllowedIsFirst | hooks/use-keyboard-shortcuts.ts:15-46 | the one that runs is allowed and no earlier one is. None runs exactly when no shortcut is allowed. Allowed means: the key matches, each set modifier matches, and outside text fields always, inside them only for keys `z`/`y` |
| Keyboard.HandleKeyDown | hooks/use-keyboard-shortcuts.ts:14-49 | the loop with its early returns runs the first allowed shortcut, and calls `preventDefault` exactly when one runs |
| Keyboard.FirstAllowedOfPrefix | hooks/use-keyboard-shortcuts.ts:15-46 | a shortcut blocked by the input rule does not stop the loop: the first allowed one after it runs |
| Keyboard.EarlierShadowsLater | hooks/use-keyboard-shortcuts.ts:15-46 | an allowed shortcut earlier in the list shadows every later one, whatever their modifiers |
| Page.FindConfig | app/page.tsx:63 | `configs.find` by id: the first bill with that id, or none when no bill has it |
| Page.ReplaceConfig | app/page.tsx:286 | `configs.map`: bills with the id become the updated bill; the others stay in place |
| Page.ReplaceConfigSelects | app/page.tsx:286 | after the replacement the same position is selected, and it holds the updated bill |
| Page.ApplyPatch | app/page.tsx:262 | `{ ...entry, ...updates }`: every field the patch leaves out keeps its value |
| Page.UpdatedEntries | app/page.tsx:261-263 | entries with the id get the patch; all others and the order are untouched |
| Page.MovedEntries | app/page.tsx:406-408 | same length; entries with the id get the new category |
| Page.MoveIsCategoryPatch | app/page.tsx:406-408 | a move is the update whose patch names only the category |
| Page.UpdateAbsentId | app/page.tsx:261-263 | an update for an id that no entry has changes nothing |
| Page.DeletedEntries | app/page.tsx:302 | the entries kept are exactly those whose id differs |
| Page.DeletedAppend | app/page.tsx:302 | the filter distributes over concatenation, so the kept entries stay in their relative order |
| Page.DeleteAbsentId | app/page.tsx:302 | deleting an id that no entry has changes nothing |
| Page.DeleteKeepsCategoryIff | app/page.tsx:302-304 | after a delete, a category keeps a bucket exactly when one of its entries survives |
| Page.NewEntry | app/page.tsx:354-359 | the created entry has the category, amount and id given, and no description exactly when the description is empty |
| Page.CreateAppendsToBucket | app/page.tsx:362-364 | a created entry joins the end of its category's bucket; every other bucket is unchanged |
| Page.MovedLandsInTarget | app/page.tsx:406-411 | after a move, every entry with the id sits in the target bucket and carries the new category |
| Page.MoveKeepsCategoryIff | app/page.tsx:406-411 | after a move, another category keeps a bucket exactly when one of its entries was not moved |
| Page.Rewritten | app/page.tsx:264-285 | the rewritten bill keeps its id, name and creation time. Its flat list is the new one, its buckets are that list regrouped, and its text is the serialized ledger |
| Page.UndoAfterEdit | app/page.tsx:294-335 | after the push before an edit and the push after it, undo returns the state before the edit |
| Page.CtrlShiftZUndoesAsWritten | app/page.tsx:97-145 | with the list as written, Ctrl+Shift+Z runs the first entry, which undoes |
| Page.CtrlShiftZRedoes | app/page.tsx:97-145 | with the undo entry limited to Shift released, Ctrl+Shift+Z redoes and Ctrl+Z still undoes |
| Page.PageState.constructor | app/page.tsx:49-60 | no bills, nothing selected, and the history holds that state |
| Page.PageState.CurrentConfig | app/page.tsx:63 | the selected bill exists exactly when a bill has the selected id, and it is the first such bill |
| Page.PageState.HandleUpdateEntry | app/page.tsx:258-291 | without a selected bill with a flat list, or when the store call fails, nothing changes. Otherwise the bill is replaced by its rewrite with the patched entries. The selection, the id supply and the history are untouched |
| Page.PageState.Commit | app/page.tsx:316-334 | pushes the state before; if the store call resolves, writes the rewritten bill and pushes the state after; otherwise only the first push remains |
| Page.PageState.HandleDeleteEntry | app/page.tsx:294-335 | the delete handler: the filtered list goes through `Commit`, and without a selected bill nothing changes |
| Page.PageState.HandleConfirmCreateEntry | app/page.tsx:343-395 | the create handler: the list with the new entry appended, under the next fresh id, goes through `Commit` |
| Page.PageState.HandleMoveEntry | app/page.tsx:398-442 | the move handler: the moved list goes through `Commit` |
| Page.PageState.HandleImportBill | app/page.tsx:168-196 | an empty ledger is rejected before anything else changes. Otherwise ids are filled and the flat list built. If the store call resolves, the new bill is appended and selected |
| Page.PageState.HandleCreateBill | app/page.tsx:147-166 | once the store call resolves, an empty bill is appended and selected; otherwise nothing changes |
| Page.PageState.HandleKey | app/page.tsx:97-145 | for any shortcut list (the page's list as written, `Page.ShortcutsAsWritten`, where Ctrl+Shift+Z undoes, or the corrected `Page.Shortcuts`), the shortcut that runs is the first allowed one, and the default action is prevented exactly then. An undo or redo shortcut moves the history as `Undone`/`Redone` does and shows the state it returns, or keeps the shown state when there is none; with no shortcut, nothing changes |
| Page.PageState.HandleUndo | app/page.tsx:101-111 | the history steps back, and the snapshot undo returns becomes the page's bills and selection |
| Page.PageState.HandleRedo | app/page.tsx:116-126 | the history steps forward, and the snapshot redo returns becomes the page's bills and selection |
| ChartInteractive.LaneEntriesDrawn | components/expense-chart-interactive.tsx:130-137 | every entry of a fixed category is drawn |
| ChartInteractive.OnlyFixedDrawn | components/expense-chart-interactive.tsx:130-137 | a drawn entry belongs to a fixed category; other categories are ignored |
| ChartInteractive.MinAmount | components/expense-chart-interactive.tsx:157 | the smallest amount, reached by some entry, or 0 when there is none |
| ChartInteractive.MaxAmount | components/expense-chart-interactive.tsx:158 | the largest amount, reached by some entry, or 0 when there is none |
| ChartInteractive.HueBounds | components/expense-chart-interactive.tsx:232-237 | an amount in range gets a hue in [0, 120]: 120 at the minimum and 0 at the maximum, or 60 when all amounts are equal |
| ChartInteractive.HueNonIncreasing | components/expense-chart-interactive.tsx:232-236 | a larger amount never gets a greener hue |
| ChartInteractive.IdIndex | components/expense-chart-interactive.tsx:243 | `findIndex` by id: the first position with the id, or -1 when none has it |
| ChartInteractive.LaneSegments | components/expense-chart-interactive.tsx:219-263 | one segment per entry of the lane, with the entry, the lane's x and width, and the colour of the mode |
| ChartInteractive.LaneStacking | components/expense-chart-interactive.tsx:216-262 | the first segment starts at 0, each next one starts where the previous ends, each spans 25 (edit mode) or its amount (preview) |
| ChartInteractive.BuildLane | components/expense-chart-interactive.tsx:219-263 | the inner loop with its running `y0 = y1` computes `LaneSegments` |
| ChartInteractive.ColorOf | components/expense-chart-interactive.tsx:224-245 | the colour branch of the loop body is the segment colour of its entry and mode |
| ChartInteractive.BuildSegments | components/expense-chart-interactive.tsx:210-264 | the `segments` loop over the fixed categories computes all lanes' segments in order |
| ChartInteractive.SegmentsCount | components/expense-chart-interactive.tsx:210-264 | there is one segment per drawn entry |
| ChartInteractive.SegmentAt | components/expense-chart-interactive.tsx:210-264 | segment `p` draws drawn entry `p`: fixed category order, then entry order |
| ChartInteractive.SegmentColorAt | components/expense-chart-interactive.tsx:224-245 | every segment carries the colour of its own entry |
| ChartInteractive.EditHuesInRange | components/expense-chart-interactive.tsx:232-237 | in edit mode every segment is an HSL colour with hue in [0, 120] |
| ChartInteractive.PreviewPaletteCycles | components/expense-chart-interactive.tsx:243-244 | in preview mode, with distinct ids, segment `p` takes palette colour `p mod 5` |
| ChartInteractive.LaneFrom | components/expense-chart-interactive.tsx:428-432 | the first lane from `i` on whose closed band holds `gx`, or none |
| ChartInteractive.TargetCategory | components/expense-chart-interactive.tsx:428-432 | the drop target found by the hit-test is a fixed category |
| ChartInteractive.DragController.constructor | components/expense-chart-interactive.tsx:390-393 | nothing is dragged or highlighted |
| ChartInteractive.DragController.Start | components/expense-chart-interactive.tsx:396-411 | in edit mode the segment becomes the dragged one and the start point is stored; in preview mode no handler is attached and nothing changes |
| ChartInteractive.DragController.Drag | components/expense-chart-interactive.tsx:412-445 | while dragging in edit mode: offset and mouse position follow; the hovered lane is the target only when it differs from the segment's own lane |
| ChartInteractive.DragController.End | components/expense-chart-interactive.tsx:446-476 | a move is emitted exactly when a target lane exists, differs from the source lane and a move callback was given; the drag state is then always reset |
| ChartInteractive.OfLane | components/expense-chart-interactive.tsx:489 | the segments of one lane: exactly those with that category |
| ChartInteractive.Topmost | components/expense-chart-interactive.tsx:495-499 | the `reduce` picks a segment of the lane whose top is the highest |
| ChartInteractive.EmptyAreaSpan | components/expense-chart-interactive.tsx:487-519 | a lane's empty area starts at 0 and reaches the top of its topmost segment, or 30 for an empty lane, and is never less than 30 high |
| ChartInteractive.ClickedOnSegment | components/expense-chart-interactive.tsx:554-574 | the `forEach` flag is set exactly when some segment of the lane lies under the click |
| ChartInteractive.HandleAreaClick | components/expense-chart-interactive.tsx:535-581 | an entry of the lane is created exactly when edit mode has a create callback and the click is in the lane's band, inside the area and on no segment of that lane |
| ExpenseChart.ChartData | components/expense-chart.tsx:30-33 | one summary per category in key order, whose total is the sum of its amounts |
| ExpenseChart.ChartTotalsSum | components/expense-chart.tsx:30-33 | the category totals add up to the sum over the whole flat list |
| ExpenseChart.StackKeyInjective | components/expense-chart.tsx:41 | equal keys `${category}_${idx}` come from equal categories and indices |
| ExpenseChart.StackKeyShape | components/expense-chart.tsx:41 | a key is the category, then `_`, then nothing but digits |
| ExpenseChart.StackKeyIsNotName | components/expense-chart.tsx:48-51 | a key never overwrites the row's `name` field |
| ExpenseChart.BucketKeys | components/expense-chart.tsx:40-43 | one key per entry of a bucket, `${key}_${j}` for entry `j` |
| ExpenseChart.StackKeys | components/expense-chart.tsx:36-44 | one key per entry of the ledger |
| ExpenseChart.StackKeysAt | components/expense-chart.tsx:39-44 | entry `j` of bucket `i` has its key at its flat-list position |
| ExpenseChart.StackKeysFrom | components/expense-chart.tsx:39-44 | every key belongs to a category of the ledger |
| ExpenseChart.StackKeysDistinct | components/expense-chart.tsx:39-44 | with distinct category names, no two entries share a key |
| ExpenseChart.PushBucketKeys | components/expense-chart.tsx:40-43 | the inner `forEach` appends the bucket's keys |
| ExpenseChart.BuildStackKeys | components/expense-chart.tsx:36-44 | the nested pushes compute `StackKeys` |
| ExpenseChart.RowValuesAt | components/expense-chart.tsx:48-52 | a category's row maps exactly its entries' keys, each to that entry's amount |
| ExpenseChart.StackRows | components/expense-chart.tsx:47-54 | one row per category, empty ones included, named by the category |
| ExpenseChart.BuildRow | components/expense-chart.tsx:48-52 | the field-by-field fill computes the category's row |
| ExpenseChart.BuildDataWithStacks | components/expense-chart.tsx:47-54 | the `forEach` computes `StackRows` |
| ExpenseChart.StackRowsContent | components/expense-chart.tsx:47-54 | each row holds exactly its category's keys, each mapped to its entry's amount |
| ExpenseChart.BarColor | components/expense-chart.tsx:77 | a bar's fill is one of the ten colours |
| ExpenseChart.BarColorCycles | components/expense-chart.tsx:77 | bars ten apart share a colour |
| ExpenseChart.BucketSlots | components/expense-chart.tsx:95 | the legend items of one category: its name with each entry index |
| ExpenseChart.Slots | components/expense-chart.tsx:94-95 | one legend item per entry, each naming a category of the ledger |
| ExpenseChart.FindIndex | components/expense-chart.tsx:96 | `findIndex`: -1 exactly when the item is absent, otherwise its first position |
| ExpenseChart.LegendIndexAt | components/expense-chart.tsx:93-96 | with distinct category names, the legend finds entry `j` of bucket `i` at its flat-list position |
| ExpenseChart.LegendColor | components/expense-chart.tsx:92-97 | the legend has a colour exactly for the (category, index) pairs of the ledger |
| ExpenseChart.LegendMatchesBar | components/expense-chart.tsx:72-97 | with distinct category names, a legend dot has the colour of its entry's bar |
| ExpenseChart.BarRadius | components/expense-chart.tsx:78 | only bar 0 has its top rounded; only the last bar, if it is not bar 0, has its bottom rounded |
| ExpenseChart.Label | components/expense-chart.tsx:101 | the description when it is non-empty, otherwise `${category} #${idx + 1}` |
| ExpenseChart.FallbackLabelsDiffer | components/expense-chart.tsx:101 | entries of one category that fall back to generated labels get different labels |
| ImportCsv.NonEmpty | components/import-csv-dialog.tsx:32 | `.filter(Boolean)`: the kept lines are non-empty input lines, and every non-empty input line (whitespace-only ones included) is kept |
| ImportCsv.NonEmptyAppend | components/import-csv-dialog.tsx:32 | the filter distributes over concatenation, so kept lines stay in file order |
| ImportCsv.WhitespaceLineKept | components/import-csv-dialog.tsx:32 | a line of spaces between other lines survives the filter in its place |
| ImportCsv.NonEmptyKeepsAll | components/import-csv-dialog.tsx:32 | a list without empty lines is kept whole, so whitespace-only lines survive |
| ImportCsv.TrimAll | components/import-csv-dialog.tsx:34-35 | one trimmed cell per piece |
| ImportCsv.Cells | components/import-csv-dialog.tsx:34 | every line gives at least one cell |
| ImportCsv.CellsOfLines | components/import-csv-dialog.tsx:35 | one row per body line |
| ImportCsv.CellsTrimmed | components/import-csv-dialog.tsx:34-35 | every cell is already trimmed |
| ImportCsv.CellsOfJoin | components/import-csv-dialog.tsx:34 | splitting a line of plain cells at commas and trimming gives back the cells (there is no quoting) |
| ImportCsv.ParseCsv | components/import-csv-dialog.tsx:31-37 | no headers exactly when no line is kept; otherwise one row per kept line after the first |
| ImportCsv.ParseCsvOfRender | components/import-csv-dialog.tsx:31-37 | a table of plain cells written as CSV reads back with its first line as headers and the rest as rows |
| ImportCsv.IndexOfString | components/import-csv-dialog.tsx:60-62 | `indexOf`: the first position of the column name, or -1 when it is absent |
| ImportCsv.StripMoney | components/import-csv-dialog.tsx:70 | no `$` or `,` remains, and text without them is unchanged |
| ImportCsv.RowItem | components/import-csv-dialog.tsx:69-74 | a row is skipped exactly when its trimmed category is empty or missing, or its stripped amount is not a finite positive number. A kept row has that category and amount, and a description exactly when a description column exists and its cell is not blank |
| ImportCsv.Accepted | components/import-csv-dialog.tsx:68-75 | the kept rows, in file order, each with a category and a positive amount |
| ImportCsv.GroupPairsBucket | components/import-csv-dialog.tsx:73-74 | the bucket of `c` holds exactly the items of `c`, in file order, and exists exactly when there is one |
| ImportCsv.GroupPairsKeys | components/import-csv-dialog.tsx:73-74 | groups appear in order of first appearance and their keys are unique |
| ImportCsv.GroupPairsItems | components/import-csv-dialog.tsx:72-74 | grouping items with positive amounts gives non-empty buckets of positive amounts |
| ImportCsv.GroupRowsShape | components/import-csv-dialog.tsx:67-75 | what the import hands over has unique non-empty keys and non-empty buckets of positive amounts |
| ImportCsv.ItemsOfEmptyKey | components/import-csv-dialog.tsx:72 | no row is grouped under the empty category |
| ImportCsv.GroupImport | components/import-csv-dialog.tsx:67-75 | the loop over the rows, with its `continue`, throws exactly when some kept row's category is an inherited property name; otherwise it computes the grouping of the kept rows |
| ImportCsv.InheritedRowThrows | components/import-csv-dialog.tsx:73-74 | one kept row whose category is an inherited property name (`constructor`, `toString`, ...) is enough for the push to throw |
| ImportCsv.CsvImportDialog.constructor | components/import-csv-dialog.tsx:23-29 | empty text, headers, rows and column choices; no error |
| ImportCsv.CsvImportDialog.HandleFile | components/import-csv-dialog.tsx:39-51 | the text and the parsed headers and rows are stored. With two or more headers, the columns become headers 0 and 1 and header 2 or none; otherwise the column choices are kept |
| ImportCsv.CsvImportDialog.OnImport | components/import-csv-dialog.tsx:57-82 | nothing happens unless import is enabled. A column name that is not found gives the error and imports nothing. A kept row with an inherited category name throws: the `catch` sets the exception's message (or the generic failure text), imports nothing and leaves the dialog open. Otherwise the grouped rows are handed over (possibly empty), the error is cleared and the dialog closes |
| SettingsContext.Merge | contexts/settings-context.tsx:49-52 | a shallow merge: provided fields override, absent ones keep their value |
| SettingsContext.MergeIdempotent | contexts/settings-context.tsx:49-52 | the same update applied twice is the update applied once |
| SettingsContext.MergeWhole | contexts/settings-context.tsx:49-52 | an update providing every field replaces the settings |
| SettingsContext.MergeTwice | contexts/settings-context.tsx:49-52 | two updates in a row are one update whose later fields win |
| SettingsContext.Loaded | contexts/settings-context.tsx:31-46 | with nothing saved or a failing read, the defaults remain; stored categories are used only when they are an array |
| SettingsContext.LoadSerialized | contexts/settings-context.tsx:33-53 | loading what an update saved gives back exactly the saved settings |
| SettingsContext.SettingsProvider.constructor | contexts/settings-context.tsx:28 | the settings start at the defaults: `$`, the eight listed categories, `zh` |
| SettingsContext.SettingsProvider.Load | contexts/settings-context.tsx:31-46 | a saved value replaces the settings by what it loads; otherwise the settings are kept |
| SettingsContext.SettingsProvider.UpdateSettings | contexts/settings-context.tsx:49-59 | the settings become the merge; the stored copy is the merge when the write succeeds |
| SettingsContext.SettingsProvider.ResetSettings | contexts/settings-context.tsx:61-68 | the settings become the defaults and the stored copy is removed when removal succeeds |
| SettingsContext.UseSettings | contexts/settings-context.tsx:77-83 | throws exactly outside a provider, and otherwise returns the context |
| SettingsDialog.AddCategory | components/settings-dialog.tsx:86-94 | a trimmed, non-empty and new category is appended and the input cleared; otherwise nothing changes |
| SettingsDialog.AddKeepsNoDuplicates | components/settings-dialog.tsx:86-94 | adding keeps a list free of duplicates |
| SettingsDialog.AddTwice | components/settings-dialog.tsx:86-94 | adding the same text again changes nothing |
| SettingsDialog.Without | components/settings-dialog.tsx:96-101 | removal drops every equal entry and keeps exactly the others |
| SettingsDialog.WithoutAppend | components/settings-dialog.tsx:96-101 | the filter works element by element, so the kept categories keep their order |
| SettingsDialog.WithoutAbsent | components/settings-dialog.tsx:96-101 | removing an absent category leaves the list as it is |
| SettingsDialog.AddThenRemove | components/settings-dialog.tsx:86-101 | removing a category just added restores the list |
| SettingsDialog.WithoutKeepsNoDuplicates | components/settings-dialog.tsx:96-101 | removing keeps a list free of duplicates |
| SettingsDialog.Dialog.constructor | components/settings-dialog.tsx:59-60 | the local settings are the provider's, and the input is empty |
| SettingsDialog.Dialog.Sync | components/settings-dialog.tsx:62-66 | an open dialog copies the provider's settings |
| SettingsDialog.Dialog.HandleAddCategory | components/settings-dialog.tsx:86-94 | the local categories and the input become `AddCategory` of the old ones; currency and language are kept |
| SettingsDialog.Dialog.HandleRemoveCategory | components/settings-dialog.tsx:96-101 | only the local categories change, to the filtered list |
| SettingsDialog.Dialog.HandleSave | components/settings-dialog.tsx:70-73 | the provider takes the local settings (stored when the write succeeds) and the dialog closes |
| SettingsDialog.Dialog.HandleReset | components/settings-dialog.tsx:75-84 | only after confirmation, both the local and the provider settings become the defaults; without it nothing changes |
| Onboarding.Complete | components/onboarding-tour.tsx:139-144 | stores `"true"` and closes, keeping the step |
| Onboarding.Next | components/onboarding-tour.tsx:121-127 | before the last step it advances by one; on the last step it completes |
| Onboarding.Prev | components/onboarding-tour.tsx:129-133 | after the first step it goes back by one; on the first step nothing changes |
| Onboarding.StepsStayInRange | components/onboarding-tour.tsx:121-144 | every handler keeps the step within the five steps |
| Onboarding.PrevUndoesNext | components/onboarding-tour.tsx:121-133 | before the last step, next then previous returns to the same state |
| Onboarding.WalkThrough | components/onboarding-tour.tsx:121-127 | from step 0, `k < 5` presses of next reach step `k` with nothing else changed |
| Onboarding.FifthNextCompletes | components/onboarding-tour.tsx:121-127 | the fifth press of next completes the tour on the last step |
| Onboarding.CompletedStaysClosed | components/onboarding-tour.tsx:114-144 | once completed, the tour no longer opens on a later mount |
| Onboarding.Tour.constructor | components/onboarding-tour.tsx:111-112 | step 0, closed, with whatever flag storage holds |
| Onboarding.Tour.Mount | components/onboarding-tour.tsx:114-119 | the tour opens when no completion flag is stored |
| Onboarding.Tour.HandleComplete | components/onboarding-tour.tsx:139-144 | the state becomes `Complete` of the old one |
| Onboarding.Tour.HandleNext | components/onboarding-tour.tsx:121-127 | the state becomes `Next` of the old one |
| Onboarding.Tour.HandlePrev | components/onboarding-tour.tsx:129-133 | the state becomes `Prev` of the old one |
| Onboarding.Tour.HandleSkip | components/onboarding-tour.tsx:135-137 | skip is complete |
| ImportDialog.DeclaredCall | components/import-dialog.tsx:21 | in the declared order the text comes first, then the ledger, then the name |
| ImportDialog.CallAsWritten | components/import-dialog.tsx:49 | as written the call passes the name, then the text, then the ledger |
| ImportDialog.PageBinding | app/page.tsx:551 | the page reads the first argument as the text, the second as the ledger and the third as the name |
| ImportDialog.PageOutcomeOf | app/page.tsx:168-196 | a string passed as the ledger never imports. A ledger imports exactly when it has a category |
| ImportDialog.AsWrittenImportThrows | components/import-dialog.tsx:49 | every submission the dialog accepts ends in the page's error path |
| ImportDialog.CallIn | components/import-dialog.tsx:21-49 | `AsWritten` passes the name, the text and the ledger; `Declared` passes the text, the ledger and the name |
| ImportDialog.SubmitOutcome | components/import-dialog.tsx:49 | for an accepted submission, the page's import throws when the call is as written, and imports the bill under its trimmed name and text when the call is in the declared order |
| ImportDialog.DeclaredOrderImports | components/import-dialog.tsx:21 | in the declared order, every accepted submission is imported under its trimmed name and text |
| ImportDialog.Dialog.constructor | components/import-dialog.tsx:25-27 | empty name and text; no error |
| ImportDialog.Dialog.HandleSubmit | components/import-dialog.tsx:29-57 | the checks run in order: a blank name, blank data, then no parsed category (on the untrimmed text). Each failure sets its message and keeps the fields. A call happens exactly when all checks pass. It carries the trimmed name and text and the parse, in the argument order given: as written at line 49 (`AsWritten`) or as declared at line 21 (`Declared`). Then the fields and error are cleared and the dialog closes |
| EditBillDialog.SaveOf | components/edit-bill-dialog.tsx:53-55 | the save carries the trimmed name, the trimmed text and its parse; blank text gives the empty ledger |
| EditBillDialog.Dialog.constructor | components/edit-bill-dialog.tsx:33-35 | the fields start from the bill; no error |
| EditBillDialog.Dialog.Refill | components/edit-bill-dialog.tsx:37-43 | an open dialog resets name and text to the bill's and clears the error; a closed one is unchanged |
| EditBillDialog.Dialog.HandleSubmit | components/edit-bill-dialog.tsx:45-61 | a blank name gives the error and no save. Otherwise the save is made even when the ledger is empty, and the dialog closes |
| CreateBillDialog.Dialog.constructor | components/create-bill-dialog.tsx:22 | the name starts empty |
| CreateBillDialog.Dialog.HandleSubmit | components/create-bill-dialog.tsx:24-30 | a blank name does nothing. Otherwise the trimmed name is handed on, the name resets and the dialog closes; a name handed on is never empty and already trimmed |
| CreateBillDialog.CreatedNameIsTrimmed | components/create-bill-dialog.tsx:25-26 | a name handed on is never blank and has no surrounding whitespace |
| CreateExpenseDialog.SignedAmountRefused | components/create-expense-dialog.tsx:47-51 | an amount typed with a leading minus is always refused |
| CreateExpenseDialog.AcceptedCanSubmit | components/create-expense-dialog.tsx:114 | the enable rule never blocks a submission the checks would accept |
| CreateExpenseDialog.Dialog.constructor | components/create-expense-dialog.tsx:28-30 | empty fields; no error |
| CreateExpenseDialog.Dialog.Reset | components/create-expense-dialog.tsx:32-38 | opening clears the description, the amount and the error |
| CreateExpenseDialog.Dialog.SetDescription | components/create-expense-dialog.tsx:73-76 | typing a description clears the error |
| CreateExpenseDialog.Dialog.SetAmount | components/create-expense-dialog.tsx:93-96 | typing an amount clears the error |
| CreateExpenseDialog.Dialog.HandleSubmit | components/create-expense-dialog.tsx:40-58 | a blank description is refused first, then an amount that is NaN or ≤ 0. An entry is created exactly when both pass, with the trimmed description and the parsed amount, and the dialog resets and closes |
| ExpenseForm.ItemCountIsFlatLength | components/expense-form.tsx:32 | the reported item count is the number of entries in the flat list |
| ExpenseForm.SuccessMessageInjective | components/expense-form.tsx:33 | different counts give different success messages |
| ExpenseForm.Form.constructor | components/expense-form.tsx:16-17 | no error and no success message |
| ExpenseForm.Form.HandleSubmit | components/expense-form.tsx:19-38 | both messages are cleared first; no category gives the error and no save; otherwise the untrimmed text and the ledger are saved and the category and entry counts are reported |
| ExpenseForm.Form.ClearSuccess | components/expense-form.tsx:34 | the timer removes the success message |
| Js.Trim | lib/expense-parser.ts:39 | `trim()`: no whitespace at either end of the result |
| Js.TrimEmptyIffBlank | lib/expense-parser.ts:21 | a string trims to empty exactly when it is blank |
| Js.TrimIdempotent | components/create-bill-dialog.tsx:26 | trimming twice is trimming once |
| Js.NormalizeNewlines | lib/expense-parser.ts:20 | after the two replacements no `\r` remains, and text without `\r` is unchanged |
| Js.ReplaceChar | lib/expense-parser.ts:37 | a global one-character replace changes exactly the occurrences of that character |
| Js.Split | lib/expense-parser.ts:21 | the pieces lack the separator and join back to the input |
| Js.SplitJoin | lib/expense-parser.ts:38 | splitting a join gives back the pieces when none holds the separator |
| Js.ParseFloatOfLeadingDigit | lib/expense-parser.ts:63 | text starting with a digit reads as a finite, non-negative number |
| Js.ParseFloatNegative | components/create-expense-dialog.tsx:47 | text starting with `-` never reads as a positive number |
| Js.NatToStringValue | components/expense-chart.tsx:41 | reading back the decimal rendering of an index gives the index |
| Js.NatToStringInjective | components/expense-chart.tsx:41 | different indices render differently |

## Left out

- Network, database and sign-in code is I/O with no logic beyond forwarding requests: app/api/, lib/bill-api.ts, lib/supabase-browser.ts, components/auth-bar.tsx and app/auth/. Each awaited store call is the parameter `storeOk`. The `alert` on failure is not modelled.
- components/config-list.tsx and components/expense-list.tsx only render.
- app/page.tsx:64-95 (loading bills) fetches from the store and is not modelled. `handleSaveEdit` (206-242) and `handleDeleteConfig` (244-255) are not modelled either: they write the store and replace or drop a bill, without the entry logic above.
- The `isHistoryAction` ref is taken as false. The `setTimeout` that resets it is not modelled. React state batching and stale closures are not modelled either: each handler reads the state as it stands when it runs.
- `JSON.parse(JSON.stringify(...))` deep copies and JSON equality in the history hook are value equality.
- Randomness and time (`Date.now`, `Math.random`) are left out. Entry ids are drawn from the counter `next`. Bill ids and creation times are parameters.
- Js.ParseFloat: the exact decimal value of the longest numeric prefix. IEEE rounding, overflow to `Infinity` of very long digit strings, and `-0` are not modelled.
- `${amount}` and `toFixed` printing of reals are the parameter `show`. The round trip assumes that `show` prints a digit/dot string that parses back to the amount.
- The `<input type="number">` of the create-entry dialog is taken as free text. The browser's own filtering of that text is not modelled.
- Chart rendering is not modelled: d3 and recharts drawing, SVG attributes, hover styling, transitions, axes, the drag-preview effect and window-based sizing.
- The band scale is the given lane positions and width. The vertical pixel scale is the function parameter `ys`. The preview y-domain is not modelled.
- ChartInteractive.DragController.Start does not record the segment's start centre (`segmentStartCenter`) or the opacity change. Only the drag preview reads them.
- The CSV dialog's `File` object and `await f.text()` are left out: `HandleFile` takes the text.
- In the CSV dialog the only step that can throw is `grouped[category].push` (components/import-csv-dialog.tsx:73-74), for an inherited category name; `OnImport` models that path through the `catch` (line 79). The entry form's `catch` branch is left out, since the parser never throws.
- What the page does with a CSV import is not modelled.
- The settings dialog's currency and language selects are not modelled (they are plain field assignments), nor its translations.
- Stored settings fields of the wrong JSON type are not modelled, except for `categories`.
- The onboarding tour's step texts and progress dots are content and are not modelled.
- JavaScript enumerates integer-like object keys before other keys. The model assumes insertion order for every key.
- OrderedMap.Push, ExpenseUtils.FlatListToParsed and ExpenseUtils.Grouped do not model the keys a plain object inherits (`OrderedMap.InheritedKeys`). For a category such as `constructor` or `toString`, `!parsed[entry.category]` is false and the push at lib/expense-utils.ts:25 throws a `TypeError`. The parser accepts such a category. The page's delete, create and move handlers then throw outside any `try` (app/page.tsx:304, 364, 411), after the history push that comes before the change. The model instead regroups these categories like any other. Only the CSV import (`ImportCsv.GroupImport`) models this throw.
- OrderedMap.Put and ExpenseParser.ParseExpenseInput treat `__proto__` as an ordinary key. In the source, `result["__proto__"] = [...]` (lib/expense-parser.ts:70) replaces the object's prototype, so that line never shows up among the parsed categories.
- Js.ToLower folds only the ASCII letters A–Z. JavaScript's `toLowerCase`, as applied by `Keyboard.Matches` and `Keyboard.HandleKeyDown` to event keys, also folds other Unicode letters (such as `Ä`). The page's shortcuts use only `z` and `y`.

## Findings

| source | as written | input that shows it | evidently intended | confidence | as-written member | corrected member |
|---|---|---|---|---|---|---|
| components/import-dialog.tsx:49 | `onImport(name.trim(), rawInput.trim(), expenses)`, while the prop is declared `(rawInput, expenses, name)` (line 21) and the page binds it that way (app/page.tsx:551). The page then receives the name as the text, the text as the ledger and the ledger as the name | name `a`, text `x: 1`: the page gets the string `x: 1` as its ledger, and filling ids over a string fails, so the import ends in the error path | the call in the declared order, which imports the bill under its name and text | not executed | ImportDialog.AsWrittenImportThrows | ImportDialog.DeclaredOrderImports |
| app/page.tsx:97-145 | the shortcut `{ key: "z", ctrl: true }` comes before `{ key: "z", ctrl: true, shift: true }`. An unset `shift` accepts both states, and the first allowed shortcut wins (hooks/use-keyboard-shortcuts.ts:15-46) | Ctrl+Shift+Z: the first entry is allowed, so it undoes, while the third entry's comment says it redoes | Ctrl+Shift+Z redoes, with the undo entry limited to Shift released | not executed | Page.CtrlShiftZUndoesAsWritten | Page.CtrlShiftZRedoes |

`ImportDialog.Dialog.HandleSubmit` takes the argument order as a parameter, so it models both the call as written and the corrected call; `ImportDialog.SubmitOutcome` states what the page does with each. `Page.PageState.HandleKey` takes the shortcut list as a parameter, so it runs both `Page.ShortcutsAsWritten` and the corrected `Page.Shortcuts`.
