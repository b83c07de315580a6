/**
 * The ledger text form (`ExpenseForm`): the text is parsed, a ledger with
 * at least one category is saved through `onSaveConfig`, and a message
 * reports how many categories and entries were saved.
 */
module ExpenseForm {
  import opened Js
  import opened Expenses
  import opened ExpenseParser
  import ExpenseUtils

  const NothingParsed: string := "请输入有效的支出数据"

  /** `已保存 ${categoryCount} 个类别，${itemCount} 条记录`. */
  function SuccessMessage(categoryCount: nat, itemCount: nat): string {
    "已保存 " + NatToString(categoryCount) + " 个类别，" + NatToString(itemCount) + " 条记录"
  }

  /** `Object.values(parsed).reduce((sum, items) => sum + items.length, 0)`: the entries on the chart. */
  lemma ItemCountIsFlatLength(l: Ledger)
    ensures EntryCount(l) == |ExpenseUtils.FlatEntries(l)|
  {
  }

  /** Different counts give different messages. */
  lemma {:induction false} SuccessMessageInjective(c1: nat, i1: nat, c2: nat, i2: nat)
    requires SuccessMessage(c1, i1) == SuccessMessage(c2, i2)
    ensures c1 == c2 && i1 == i2
  {
    var m := SuccessMessage(c1, i1);
    var s1, s2 := NatToString(c1), NatToString(c2);
    var prefix := "已保存 ";
    assert m[..|prefix|] == prefix;
    // the digits of the category count run up to the space before `个`
    assert m[|prefix|..|prefix| + |s1|] == s1;
    assert m[|prefix|..|prefix| + |s2|] == s2;
    assert |s1| == |s2| by {
      assert m[|prefix| + |s1|] == ' ';
      assert m[|prefix| + |s2|] == ' ';
    }
    NatToStringInjective(c1, c2);
    var tail := " 条记录";
    var t1, t2 := NatToString(i1), NatToString(i2);
    assert m[|m| - |tail| - |t1|..|m| - |tail|] == t1;
    assert m[|m| - |tail| - |t2|..|m| - |tail|] == t2;
    NatToStringInjective(i1, i2);
  }

  /** The arguments of `onSaveConfig(rawInput, expenses)`. */
  datatype SaveConfig = SaveConfig(rawInput: string, expenses: Ledger)

  /** `ExpenseForm`'s state: the error and the success message. */
  class Form {
    var error: Option<string>
    var success: Option<string>

    constructor()
      ensures error == None && success == None
    {
      error := None;
      success := None;
    }

    /**
     * `handleSubmit`: both messages are cleared first; a ledger without
     * categories gives the error; otherwise the untrimmed text and the
     * ledger are saved and the counts reported.
     */
    method HandleSubmit(inputValue: string, next: nat) returns (saved: Option<SaveConfig>)
      modifies this
      ensures var parsed := ParseExpenses(inputValue, next).0;
        |parsed| == 0 ==> saved == None && error == Some(NothingParsed) && success == None
      ensures var parsed := ParseExpenses(inputValue, next).0;
        |parsed| > 0 ==>
          saved == Some(SaveConfig(inputValue, parsed)) && error == None &&
          success == Some(SuccessMessage(|parsed|, |ExpenseUtils.FlatEntries(parsed)|))
    {
      error := None;
      success := None;
      var parsed, _ := ParseExpenseInput(inputValue, next);
      if |parsed| == 0 {
        error := Some(NothingParsed);
        saved := None;
      } else {
        saved := Some(SaveConfig(inputValue, parsed));
        success := Some(SuccessMessage(|parsed|, EntryCount(parsed)));
      }
    }

    /** The timer three seconds after a save: the success message goes away. */
    method ClearSuccess()
      modifies this`success
      ensures success == None
    {
      success := None;
    }
  }
}
