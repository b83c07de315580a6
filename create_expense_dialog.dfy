/**
 * The "new expense" dialog (`CreateExpenseDialog`) opened by clicking an
 * empty part of a chart lane: a description and an amount, checked and
 * handed to the page's `onCreate`.
 */
module CreateExpenseDialog {
  import opened Js

  const DescriptionMissing: string := "请输入支出名称"
  const AmountInvalid: string := "请输入有效的金额（大于0）"

  /** `!(isNaN(amountNum) || amountNum <= 0)`: positive infinity passes. */
  predicate AmountAccepted(n: Num) {
    match n
    case NaN => false
    case Infinity(negative) => !negative
    case Finite(v) => v > 0.0
  }

  /** An amount typed with a leading minus sign is always refused. */
  lemma {:induction false} SignedAmountRefused(amount: string)
    requires |amount| > 0 && amount[0] == '-'
    ensures !AmountAccepted(ParseFloat(amount))
  {
    ParseFloatNegative(amount);
  }

  /** Enter submits, and the button is enabled, while the description is not blank and the amount not empty. */
  predicate CanSubmit(description: string, amount: string) {
    Trim(description) != "" && amount != ""
  }

  /** The gate never blocks a submission the checks would accept: an empty amount reads as NaN. */
  lemma AcceptedCanSubmit(description: string, amount: string)
    requires Trim(description) != "" && AmountAccepted(ParseFloat(amount))
    ensures CanSubmit(description, amount)
  {
  }

  /** The arguments of `onCreate(description, amount)`. */
  datatype Create = Create(description: string, amount: Num)

  /** `CreateExpenseDialog`'s state. */
  class Dialog {
    var open: bool
    var description: string
    var amount: string
    var error: Option<string>

    constructor(open: bool)
      ensures this.open == open && description == "" && amount == "" && error == None
    {
      this.open := open;
      description := "";
      amount := "";
      error := None;
    }

    /** The effect on `open`: an opened dialog starts empty. */
    method Reset()
      modifies this`description, this`amount, this`error
      ensures open ==> description == "" && amount == "" && error == None
      ensures !open ==> unchanged(this)
    {
      if open {
        description := "";
        amount := "";
        error := None;
      }
    }

    /** Typing in the description box clears the error. */
    method SetDescription(value: string)
      modifies this`description, this`error
      ensures description == value && error == None
    {
      description := value;
      error := None;
    }

    /** Typing in the amount box clears the error. */
    method SetAmount(value: string)
      modifies this`amount, this`error
      ensures amount == value && error == None
    {
      amount := value;
      error := None;
    }

    /**
     * `handleSubmit`: the description is checked first, then the amount
     * read by `parseFloat`; on success the trimmed description and the
     * amount are passed on, the fields cleared and the dialog closed.
     */
    method HandleSubmit() returns (created: Option<Create>)
      modifies this
      ensures Trim(old(description)) == "" ==> created == None && error == Some(DescriptionMissing)
      ensures Trim(old(description)) != "" && !AmountAccepted(ParseFloat(old(amount))) ==>
        created == None && error == Some(AmountInvalid)
      ensures created == None ==> description == old(description) && amount == old(amount) && open == old(open)
      ensures created.Some? <==> Trim(old(description)) != "" && AmountAccepted(ParseFloat(old(amount)))
      ensures created.Some? ==>
        created.value == Create(Trim(old(description)), ParseFloat(old(amount))) &&
        description == "" && amount == "" && error == None && !open
    {
      created := None;
      if Trim(description) == "" {
        error := Some(DescriptionMissing);
      } else {
        var amountNum := ParseFloat(amount);
        if !AmountAccepted(amountNum) {
          error := Some(AmountInvalid);
        } else {
          created := Some(Create(Trim(description), amountNum));
          description := "";
          amount := "";
          error := None;
          open := false;
        }
      }
    }
  }
}
