/** The "new bill" dialog (`CreateBillDialog`): a non-blank name creates an empty bill. */
module CreateBillDialog {
  import opened Js

  /** `CreateBillDialog`'s state. */
  class Dialog {
    var open: bool
    var name: string

    constructor(open: bool)
      ensures this.open == open && name == ""
    {
      this.open := open;
      name := "";
    }

    /**
     * `handleSubmit` (also run by Enter): a blank name does nothing; any
     * other is passed on trimmed, then the box is cleared and the dialog
     * closes.
     */
    method HandleSubmit() returns (created: Option<string>)
      modifies this
      ensures Trim(old(name)) == "" ==> created == None && unchanged(this)
      ensures Trim(old(name)) != "" ==> created == Some(Trim(old(name))) && name == "" && !open
      ensures created.Some? ==> created.value != "" && Trim(created.value) == created.value
    {
      var trimmed := Trim(name);
      TrimIdempotent(name);
      created := None;
      if trimmed != "" {
        created := Some(trimmed);
        name := "";
        open := false;
      }
    }
  }

  /** The create button is enabled while the name holds more than whitespace. */
  predicate CanSubmit(name: string) {
    Trim(name) != ""
  }

  /** A bill name handed on is never blank and has no surrounding whitespace. */
  lemma CreatedNameIsTrimmed(name: string)
    requires CanSubmit(name)
    ensures Trim(name) != "" && Trim(Trim(name)) == Trim(name)
  {
    TrimIdempotent(name);
  }
}
