/**
 * The application settings (`SettingsProvider`): the defaults, the
 * shallow merge of `updateSettings`, loading from and saving to the
 * browser's storage, `resetSettings`, and the `useSettings` guard.
 */
module SettingsContext {
  import opened Js

  datatype Language = Zh | En

  /** `Settings`. */
  datatype Settings = Settings(currencySymbol: string, categories: seq<string>, language: Language)

  /** `DEFAULT_CATEGORIES`. */
  const DefaultCategories: seq<string> := ["超市", "餐饮", "车", "房", "订阅", "娱乐", "购物", "其他"]

  /** `DEFAULT_SETTINGS`. */
  const DefaultSettings: Settings := Settings("$", DefaultCategories, Zh)

  /** `Partial<Settings>`: an absent field is `None`. */
  datatype Partial = Partial(currencySymbol: Option<string>, categories: Option<seq<string>>, language: Option<Language>)

  /** A partial update that provides every field. */
  function Whole(s: Settings): Partial {
    Partial(Some(s.currencySymbol), Some(s.categories), Some(s.language))
  }

  /** `{ ...prev, ...newSettings }`: provided fields override, absent fields keep their value. */
  function Merge(prev: Settings, update: Partial): (r: Settings)
    ensures update.currencySymbol.Some? ==> r.currencySymbol == update.currencySymbol.value
    ensures update.currencySymbol.None? ==> r.currencySymbol == prev.currencySymbol
    ensures update.categories.Some? ==> r.categories == update.categories.value
    ensures update.categories.None? ==> r.categories == prev.categories
    ensures update.language.Some? ==> r.language == update.language.value
    ensures update.language.None? ==> r.language == prev.language
  {
    Settings(
      if update.currencySymbol.Some? then update.currencySymbol.value else prev.currencySymbol,
      if update.categories.Some? then update.categories.value else prev.categories,
      if update.language.Some? then update.language.value else prev.language)
  }

  /** Applying the same update twice is applying it once. */
  lemma MergeIdempotent(s: Settings, update: Partial)
    ensures Merge(Merge(s, update), update) == Merge(s, update)
  {
  }

  /** An update that provides every field replaces the settings outright. */
  lemma MergeWhole(s: Settings, t: Settings)
    ensures Merge(s, Whole(t)) == t
  {
  }

  /** Two updates in a row are one update whose later fields win. */
  lemma MergeTwice(s: Settings, u: Partial, v: Partial)
    ensures Merge(Merge(s, u), v) == Merge(s, Partial(
      if v.currencySymbol.Some? then v.currencySymbol else u.currencySymbol,
      if v.categories.Some? then v.categories else u.categories,
      if v.language.Some? then v.language else u.language))
  {
  }

  // ---------------------------------------------------------------------
  // Storage

  /** What `parsed.categories` holds. */
  datatype StoredCategories = Missing | NotAnArray | List(items: seq<string>)

  /** The object `JSON.parse` returns for the stored settings, as far as the settings read it. */
  datatype Stored = Stored(currencySymbol: Option<string>, categories: StoredCategories, language: Option<Language>)

  /**
   * What the loading effect finds: no stored value (or an empty one), a
   * value whose reading throws (unparsable JSON, `null`, unavailable
   * storage), or a parsed object.
   */
  datatype LoadInput = NothingSaved | ReadFails | Saved(stored: Stored)

  /**
   * The settings after the loading effect: stored fields override the
   * defaults, `categories` only when it is an array, and a failure leaves
   * the defaults.
   */
  function Loaded(input: LoadInput): (r: Settings)
    ensures !input.Saved? ==> r == DefaultSettings
    ensures input.Saved? && input.stored.categories.List? ==> r.categories == input.stored.categories.items
    ensures input.Saved? && !input.stored.categories.List? ==> r.categories == DefaultCategories
  {
    match input
    case Saved(stored) =>
      Merge(DefaultSettings, Partial(
        stored.currencySymbol,
        if stored.categories.List? then Some(stored.categories.items) else None,
        stored.language))
    case _ => DefaultSettings
  }

  /** The object `JSON.stringify(updated)` writes. */
  function Serialize(s: Settings): Stored {
    Stored(Some(s.currencySymbol), List(s.categories), Some(s.language))
  }

  /** Loading what an update saved gives back exactly the saved settings. */
  lemma LoadSerialized(s: Settings)
    ensures Loaded(Saved(Serialize(s))) == s
  {
    MergeWhole(DefaultSettings, s);
  }

  /** `SettingsProvider`: the current settings and the stored copy under `eztransactions_settings`. */
  class SettingsProvider {
    var settings: Settings
    var saved: Option<Stored>

    constructor(saved: Option<Stored>)
      ensures settings == DefaultSettings && this.saved == saved
    {
      settings := DefaultSettings;
      this.saved := saved;
    }

    /** The mount effect: replace the defaults with what storage holds. */
    method Load(input: LoadInput)
      modifies this`settings
      ensures settings == (if input.Saved? then Loaded(input) else old(settings))
    {
      if input.Saved? {
        settings := Loaded(input);
      }
    }

    /** `updateSettings`: merge, then store the result; a failed write only loses the stored copy. */
    method UpdateSettings(update: Partial, writeOk: bool)
      modifies this
      ensures settings == Merge(old(settings), update)
      ensures saved == if writeOk then Some(Serialize(settings)) else old(saved)
    {
      settings := Merge(settings, update);
      if writeOk {
        saved := Some(Serialize(settings));
      }
    }

    /** `resetSettings`: back to the defaults, and the stored copy is removed. */
    method ResetSettings(removeOk: bool)
      modifies this
      ensures settings == DefaultSettings
      ensures saved == if removeOk then None else old(saved)
    {
      settings := DefaultSettings;
      if removeOk {
        saved := None;
      }
    }
  }

  datatype Result<T> = Ok(value: T) | Throws(message: string)

  /** `useSettings`: outside a provider there is no context, and the hook throws. */
  function UseSettings<C>(context: Option<C>): (r: Result<C>)
    ensures r.Throws? <==> context.None?
    ensures context.Some? ==> r == Ok(context.value)
  {
    match context
    case None => Throws("useSettings must be used within a SettingsProvider")
    case Some(c) => Ok(c)
  }
}
