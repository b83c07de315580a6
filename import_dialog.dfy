/**
 * The "import bill" dialog (`ImportDialog`): a bill name and ledger text
 * are checked, the text is parsed, and a ledger with at least one category
 * is handed to the page through the `onImport` callback.
 *
 * The call is modelled as the positional argument list the dialog passes,
 * so that the as-written order and the declared order can be compared on
 * what the page's handler receives.
 */
module ImportDialog {
  import opened Js
  import opened Expenses
  import opened ExpenseParser

  const NameMissing: string := "请输入账单名称"
  const DataMissing: string := "请输入支出数据"
  const NothingParsed: string := "解析失败：没有找到有效的类别数据。请检查输入格式。"

  /** A positional argument, as a JavaScript value: a string or a ledger object. */
  datatype Arg = Text(text: string) | Object(ledger: Ledger)

  /** The three positional arguments of an `onImport` call. */
  datatype Call = Call(first: Arg, second: Arg, third: Arg)

  /** The call in the declared parameter order `(rawInput, expenses, name)`. */
  function DeclaredCall(name: string, rawInput: string, expenses: Ledger): (c: Call)
    ensures c.first.Text? && c.second.Object? && c.third.Text?
  {
    Call(Text(rawInput), Object(expenses), Text(name))
  }

  /** The call as the dialog writes it: `onImport(name.trim(), rawInput.trim(), expenses)`. */
  function CallAsWritten(name: string, rawInput: string, expenses: Ledger): (c: Call)
    ensures c.first.Text? && c.second.Text? && c.third.Object?
  {
    Call(Text(name), Text(rawInput), Object(expenses))
  }

  /** Which argument order the dialog's call uses. */
  datatype Order = AsWritten | Declared

  /** The `onImport` call in the given order. */
  function CallIn(order: Order, name: string, rawInput: string, expenses: Ledger): (c: Call)
    ensures order == AsWritten ==> c.first == Text(name) && c.second == Text(rawInput) && c.third == Object(expenses)
    ensures order == Declared ==> c.first == Text(rawInput) && c.second == Object(expenses) && c.third == Text(name)
  {
    match order
    case AsWritten => CallAsWritten(name, rawInput, expenses)
    case Declared => DeclaredCall(name, rawInput, expenses)
  }

  /** The arguments `handleImportBill(name, rawInput, expenses)` receives. */
  datatype Received = Received(name: Arg, rawInput: Arg, expenses: Arg)

  /** The page's callback `(rawInput, expenses, name) => handleImportBill(name, rawInput, expenses)`. */
  function PageBinding(c: Call): (r: Received)
    ensures r.rawInput == c.first && r.expenses == c.second && r.name == c.third
  {
    Received(c.third, c.first, c.second)
  }

  /** What the page's import handler does with the values it receives. */
  datatype PageOutcome =
    | Rejected                                        // no categories: the alert, nothing stored
    | Throws                                          // `addIdsToParsed` throws: the failure alert, nothing stored
    | Imports(name: Arg, rawInput: Arg, expenses: Ledger)

  /**
   * The start of `handleImportBill` on any values: `Object.keys(expenses)`
   * of a string lists its character positions, and `addIdsToParsed` on a
   * non-empty string calls `map` on one-character strings, which throws.
   */
  function PageOutcomeOf(r: Received): (o: PageOutcome)
    ensures r.expenses.Text? ==> !o.Imports?
    ensures r.expenses.Object? ==> (o.Imports? <==> |r.expenses.ledger| > 0)
  {
    match r.expenses
    case Text(s) => if |s| == 0 then Rejected else Throws
    case Object(l) => if |l| == 0 then Rejected else Imports(r.name, r.rawInput, l)
  }

  /** What the dialog's checks let through: a name, some data, and at least one parsed category. */
  predicate Accepts(name: string, rawInput: string, next: nat) {
    Trim(name) != "" && Trim(rawInput) != "" && |ParseExpenses(rawInput, next).0| > 0
  }

  /**
   * As written, every submission the dialog accepts reaches the page with
   * the trimmed ledger text in the `expenses` position, and the import
   * throws.
   */
  lemma AsWrittenImportThrows(name: string, rawInput: string, next: nat)
    requires Accepts(name, rawInput, next)
    ensures PageOutcomeOf(PageBinding(CallAsWritten(Trim(name), Trim(rawInput), ParseExpenses(rawInput, next).0))) == Throws
  {
  }

  /** In the declared order, every accepted submission is imported under its trimmed name and text. */
  lemma DeclaredOrderImports(name: string, rawInput: string, next: nat)
    requires Accepts(name, rawInput, next)
    ensures PageOutcomeOf(PageBinding(DeclaredCall(Trim(name), Trim(rawInput), ParseExpenses(rawInput, next).0))) ==
      Imports(Text(Trim(name)), Text(Trim(rawInput)), ParseExpenses(rawInput, next).0)
  {
  }

  /**
   * What the page does with an accepted submission: as written the import
   * throws, in the declared order it imports the bill.
   */
  lemma SubmitOutcome(order: Order, name: string, rawInput: string, next: nat)
    requires Accepts(name, rawInput, next)
    ensures var expenses := ParseExpenses(rawInput, next).0;
      PageOutcomeOf(PageBinding(CallIn(order, Trim(name), Trim(rawInput), expenses))) ==
        if order == AsWritten then Throws else Imports(Text(Trim(name)), Text(Trim(rawInput)), expenses)
  {
    if order == AsWritten {
      AsWrittenImportThrows(name, rawInput, next);
    } else {
      DeclaredOrderImports(name, rawInput, next);
    }
  }

  /** The import button is enabled while both fields hold more than whitespace. */
  predicate CanSubmit(name: string, rawInput: string) {
    Trim(name) != "" && Trim(rawInput) != ""
  }

  /** `ImportDialog`'s state. */
  class Dialog {
    var open: bool
    var name: string
    var rawInput: string
    var error: Option<string>

    constructor(open: bool)
      ensures this.open == open && name == "" && rawInput == "" && error == None
    {
      this.open := open;
      name := "";
      rawInput := "";
      error := None;
    }

    /**
     * `handleSubmit`, with the call's argument order as a parameter:
     * `AsWritten` is line 49 of the dialog, `Declared` the corrected call. The checks
     * run in order (name, data, categories) and each failure sets its
     * message and stops; the untrimmed text is parsed.
     */
    method HandleSubmit(order: Order, next: nat) returns (call: Option<Call>)
      modifies this
      ensures Trim(old(name)) == "" ==> call == None && error == Some(NameMissing)
      ensures Trim(old(name)) != "" && Trim(old(rawInput)) == "" ==> call == None && error == Some(DataMissing)
      ensures CanSubmit(old(name), old(rawInput)) && !Accepts(old(name), old(rawInput), next) ==>
        call == None && error == Some(NothingParsed)
      ensures call == None ==> name == old(name) && rawInput == old(rawInput) && open == old(open)
      ensures call.Some? <==> Accepts(old(name), old(rawInput), next)
      ensures call.Some? ==>
        call.value == CallIn(order, Trim(old(name)), Trim(old(rawInput)), ParseExpenses(old(rawInput), next).0) &&
        name == "" && rawInput == "" && error == None && !open
    {
      call := None;
      if Trim(name) == "" {
        error := Some(NameMissing);
      } else if Trim(rawInput) == "" {
        error := Some(DataMissing);
      } else {
        var expenses, _ := ParseExpenseInput(rawInput, next);
        if |expenses| == 0 {
          error := Some(NothingParsed);
        } else {
          call := Some(CallIn(order, Trim(name), Trim(rawInput), expenses));
          name := "";
          rawInput := "";
          error := None;
          open := false;
        }
      }
    }
  }
}
