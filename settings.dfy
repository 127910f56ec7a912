/**
 * The worksheet's layout settings and their saved form. Saving writes every
 * field; loading replaces each field by the saved value or, when the saved
 * value is null or missing, by that field's default (`??`). Nothing is
 * validated: a saved value of the right type passes through whatever it is.
 */
module Settings {
  import opened Wrappers

  datatype Settings = Settings(
    traceCount: int,        // faint copies after the model character
    rowsPerChar: nat,       // grid rows per character block
    showHeaderInfo: bool,   // pinyin band above each block
    gridType: string,       // "mi-zi-ge", "tian-zi-ge" or "empty"
    topSpacing: nat,        // note space above each block, in points
    traceOpacity: string    // "low", "medium" or "high"
  )

  /** The defaults the sheet starts with and falls back to per field. */
  const Defaults := Settings(5, 2, true, "mi-zi-ge", 5, "medium")

  /** The parsed saved object: a field is None when it is null or missing. */
  datatype SavedPrefs = SavedPrefs(
    traceCount: Option<int>,
    rowsPerChar: Option<nat>,
    showHeaderInfo: Option<bool>,
    gridType: Option<string>,
    topSpacing: Option<nat>,
    traceOpacity: Option<string>
  )

  /** The object that saving writes. */
  function Save(s: Settings): (p: SavedPrefs)
    ensures p.traceCount.Some? && p.rowsPerChar.Some? && p.showHeaderInfo.Some?
    ensures p.gridType.Some? && p.topSpacing.Some? && p.traceOpacity.Some?
  {
    SavedPrefs(Some(s.traceCount), Some(s.rowsPerChar), Some(s.showHeaderInfo),
               Some(s.gridType), Some(s.topSpacing), Some(s.traceOpacity))
  }

  /**
   * Loading: with nothing saved (or a saved text that does not parse) the
   * current settings stay; otherwise each field takes its saved value `?? default`.
   */
  function Load(current: Settings, saved: Option<SavedPrefs>): Settings
  {
    match saved
    case None => current
    case Some(p) =>
      Settings(p.traceCount.GetOr(Defaults.traceCount),
               p.rowsPerChar.GetOr(Defaults.rowsPerChar),
               p.showHeaderInfo.GetOr(Defaults.showHeaderInfo),
               p.gridType.GetOr(Defaults.gridType),
               p.topSpacing.GetOr(Defaults.topSpacing),
               p.traceOpacity.GetOr(Defaults.traceOpacity))
  }

  /** Saving then loading gives back the saved settings, whatever was current. */
  lemma LoadAfterSave(current: Settings, s: Settings)
    ensures Load(current, Some(Save(s))) == s
  {
  }

  /** A saved object with every field missing loads as the defaults. */
  lemma LoadOfEmptyIsDefaults(current: Settings)
    ensures Load(current, Some(SavedPrefs(None, None, None, None, None, None))) == Defaults
  {
  }

  /** Each field falls back on its own: a field present in the save is kept, a missing one is defaulted. */
  lemma LoadFieldByField(current: Settings, p: SavedPrefs)
    ensures Load(current, Some(p)).traceCount == (if p.traceCount.Some? then p.traceCount.value else 5)
    ensures Load(current, Some(p)).rowsPerChar == (if p.rowsPerChar.Some? then p.rowsPerChar.value else 2)
    ensures Load(current, Some(p)).showHeaderInfo == (p.showHeaderInfo != Some(false))
    ensures Load(current, Some(p)).gridType == (if p.gridType.Some? then p.gridType.value else "mi-zi-ge")
    ensures Load(current, Some(p)).topSpacing == (if p.topSpacing.Some? then p.topSpacing.value else 5)
    ensures Load(current, Some(p)).traceOpacity == (if p.traceOpacity.Some? then p.traceOpacity.value else "medium")
  {
  }
}
