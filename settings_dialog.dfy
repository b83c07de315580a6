/**
 * The settings dialog (`SettingsDialog`): a local copy of the settings
 * that the user edits (adding and removing categories), then saves into
 * the provider or resets to the defaults.
 */
module SettingsDialog {
  import opened Js
  import opened SettingsContext

  /** No category occurs twice. */
  predicate NoDuplicates(cats: seq<string>) {
    forall i, j :: 0 <= i < j < |cats| ==> cats[i] != cats[j]
  }

  /**
   * `handleAddCategory` on the list and the input box: the trimmed input is
   * appended and the box cleared, unless it is blank or already listed.
   */
  function AddCategory(cats: seq<string>, input: string): (r: (seq<string>, string))
    ensures var t := Trim(input);
      if t != "" && t !in cats then r == (cats + [t], "") else r == (cats, input)
  {
    var t := Trim(input);
    if t != "" && t !in cats then (cats + [t], "") else (cats, input)
  }

  /** Adding keeps a list free of duplicates. */
  lemma AddKeepsNoDuplicates(cats: seq<string>, input: string)
    requires NoDuplicates(cats)
    ensures NoDuplicates(AddCategory(cats, input).0)
  {
    var t := Trim(input);
    if t != "" && t !in cats {
      var r := cats + [t];
      forall i, j | 0 <= i < j < |r|
        ensures r[i] != r[j]
      {
        if j == |cats| {
          assert r[i] == cats[i];
        }
      }
    }
  }

  /** Adding the same text a second time (typed again) changes nothing. */
  lemma AddTwice(cats: seq<string>, input: string)
    ensures AddCategory(AddCategory(cats, input).0, input).0 == AddCategory(cats, input).0
  {
    var t := Trim(input);
    if t != "" && t !in cats {
      assert t in cats + [t];
    }
  }

  /** `categories.filter((c) => c !== category)`. */
  function Without(cats: seq<string>, category: string): (r: seq<string>)
    ensures |r| <= |cats|
    ensures category !in r
    ensures forall x :: x != category ==> (x in r <==> x in cats)
  {
    if cats == [] then []
    else
      var prev := Without(cats[..|cats| - 1], category);
      assert cats == cats[..|cats| - 1] + [cats[|cats| - 1]];
      if cats[|cats| - 1] == category then prev else prev + [cats[|cats| - 1]]
  }

  /** The filter works element by element, so the kept categories stay in their order. */
  lemma {:induction false} WithoutAppend(a: seq<string>, b: seq<string>, category: string)
    ensures Without(a + b, category) == Without(a, category) + Without(b, category)
  {
    if b == [] {
      assert a + b == a;
    } else {
      var b' := b[..|b| - 1];
      assert (a + b)[..|a + b| - 1] == a + b';
      assert (a + b)[|a + b| - 1] == b[|b| - 1];
      WithoutAppend(a, b', category);
    }
  }

  /** Removing a category that is not listed leaves the list as it is. */
  lemma {:induction false} WithoutAbsent(cats: seq<string>, category: string)
    requires category !in cats
    ensures Without(cats, category) == cats
  {
    if cats != [] {
      var init := cats[..|cats| - 1];
      assert category !in init by {
        assert forall k :: 0 <= k < |init| ==> init[k] == cats[k];
      }
      WithoutAbsent(init, category);
      assert cats == init + [cats[|cats| - 1]];
    }
  }

  /** Removing a category that was just added restores the list. */
  lemma AddThenRemove(cats: seq<string>, input: string)
    requires Trim(input) != "" && Trim(input) !in cats
    ensures Without(AddCategory(cats, input).0, Trim(input)) == cats
  {
    var t := Trim(input);
    WithoutAppend(cats, [t], t);
    WithoutAbsent(cats, t);
    assert Without([t], t) == [];
  }

  /** Removing keeps a list free of duplicates. */
  lemma {:induction false} WithoutKeepsNoDuplicates(cats: seq<string>, category: string)
    requires NoDuplicates(cats)
    ensures NoDuplicates(Without(cats, category))
  {
    if cats != [] {
      var init := cats[..|cats| - 1];
      var last := cats[|cats| - 1];
      WithoutKeepsNoDuplicates(init, category);
      var prev := Without(init, category);
      if last != category {
        assert last !in init by {
          assert forall k :: 0 <= k < |init| ==> init[k] == cats[k];
        }
        assert last !in prev;
        var r := prev + [last];
        forall i, j | 0 <= i < j < |r|
          ensures r[i] != r[j]
        {
          if j == |prev| {
            assert r[i] == prev[i];
          }
        }
      }
    }
  }

  /** `SettingsDialog`: whether it is open, the local settings and the new-category input box. */
  class Dialog {
    var open: bool
    var localSettings: Settings
    var newCategory: string

    /** `useState(settings)` and `useState("")`. */
    constructor(open: bool, settings: Settings)
      ensures this.open == open && localSettings == settings && newCategory == ""
    {
      this.open := open;
      localSettings := settings;
      newCategory := "";
    }

    /** The effect on `open` and `settings`: an open dialog shows the provider's settings. */
    method Sync(settings: Settings)
      modifies this`localSettings
      ensures localSettings == if open then settings else old(localSettings)
    {
      if open {
        localSettings := settings;
      }
    }

    method HandleAddCategory()
      modifies this`localSettings, this`newCategory
      ensures (localSettings.categories, newCategory) == AddCategory(old(localSettings.categories), old(newCategory))
      ensures localSettings.currencySymbol == old(localSettings.currencySymbol)
      ensures localSettings.language == old(localSettings.language)
    {
      var t := Trim(newCategory);
      if t != "" && t !in localSettings.categories {
        localSettings := localSettings.(categories := localSettings.categories + [t]);
        newCategory := "";
      }
    }

    method HandleRemoveCategory(category: string)
      modifies this`localSettings
      ensures localSettings == old(localSettings).(categories := Without(old(localSettings.categories), category))
    {
      localSettings := localSettings.(categories := Without(localSettings.categories, category));
    }

    /** `handleSave`: the local settings replace the provider's, and the dialog closes. */
    method HandleSave(provider: SettingsProvider, writeOk: bool)
      modifies this`open, provider
      ensures provider.settings == localSettings
      ensures provider.saved == if writeOk then Some(Serialize(localSettings)) else old(provider.saved)
      ensures !open
    {
      provider.UpdateSettings(Whole(localSettings), writeOk);
      MergeWhole(old(provider.settings), localSettings);
      open := false;
    }

    /** `handleReset`: only after the user confirms, both copies return to the defaults. */
    method HandleReset(provider: SettingsProvider, confirmed: bool, removeOk: bool)
      modifies this`localSettings, provider
      ensures confirmed ==> localSettings == DefaultSettings && provider.settings == DefaultSettings
      ensures confirmed ==> provider.saved == if removeOk then None else old(provider.saved)
      ensures !confirmed ==> localSettings == old(localSettings) && unchanged(provider)
    {
      if confirmed {
        provider.ResetSettings(removeOk);
        localSettings := Settings("$", ["超市", "餐饮", "车", "房", "订阅", "娱乐", "购物", "其他"], Zh);
      }
    }
  }
}
