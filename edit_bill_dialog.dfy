/**
 * The "edit bill" dialog (`EditBillDialog`): the bill's name and ledger
 * text, refilled from the bill whenever the dialog opens, are checked and
 * handed to the page's `onSave` with the parsed ledger.
 */
module EditBillDialog {
  import opened Js
  import opened Expenses
  import opened ExpenseParser

  const NameMissing: string := "请输入账单名称"

  /** The arguments of `onSave(name, rawInput, expenses)`. */
  datatype Save = Save(name: string, rawInput: string, expenses: Ledger)

  /**
   * The arguments passed on save: the trimmed name and text, and
   * `inputValue.trim() ? parseExpenseInput(inputValue.trim()) : {}`;
   * skipping the parser for blank text gives what the parser would.
   */
  method SaveOf(name: string, inputValue: string, next: nat) returns (save: Save)
    ensures save == Save(Trim(name), Trim(inputValue), ParseExpenses(Trim(inputValue), next).0)
  {
    var rawInput := Trim(inputValue);
    var expenses: Ledger;
    if rawInput != "" {
      var next';
      expenses, next' := ParseExpenseInput(rawInput, next);
    } else {
      expenses := [];
      BlankInputParsesEmpty(rawInput, next);
    }
    save := Save(Trim(name), rawInput, expenses);
  }

  /** `EditBillDialog`'s state. */
  class Dialog {
    var open: bool
    var name: string
    var inputValue: string
    var error: Option<string>

    constructor(open: bool, initialName: string, initialValue: string)
      ensures this.open == open && name == initialName && inputValue == initialValue && error == None
    {
      this.open := open;
      name := initialName;
      inputValue := initialValue;
      error := None;
    }

    /** The effect on `open`, `initialName` and `initialValue`: an open dialog starts from the bill. */
    method Refill(initialName: string, initialValue: string)
      modifies this`name, this`inputValue, this`error
      ensures open ==> name == initialName && inputValue == initialValue && error == None
      ensures !open ==> unchanged(this)
    {
      if open {
        name := initialName;
        inputValue := initialValue;
        error := None;
      }
    }

    /**
     * `handleSubmit`: a blank name is refused; otherwise the trimmed text is
     * parsed (blank text gives the empty ledger) and saved, even when it
     * has no category, and the dialog closes.
     */
    method HandleSubmit(next: nat) returns (save: Option<Save>)
      modifies this`error, this`open
      ensures Trim(old(name)) == "" ==> save == None && error == Some(NameMissing) && open == old(open)
      ensures Trim(old(name)) != "" ==>
        save == Some(Save(Trim(old(name)), Trim(old(inputValue)), ParseExpenses(Trim(old(inputValue)), next).0)) &&
        error == None && !open
    {
      var trimmed := Trim(name);
      if trimmed == "" {
        error := Some(NameMissing);
        save := None;
      } else {
        var s := SaveOf(name, inputValue, next);
        save := Some(s);
        error := None;
        open := false;
      }
    }
  }

  /** The save button is enabled while the name holds more than whitespace. */
  predicate CanSubmit(name: string) {
    Trim(name) != ""
  }
}
