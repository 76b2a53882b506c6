/** The plugin's settings and the per-folder override file, reduced to the values the
    episode resolution engine reads. */
module Configuration {
  import opened Wrappers
  import opened Text

  datatype TranslationPreference = Chinese | Original

  /** PluginConfiguration: the switches that steer episode resolution. */
  datatype PluginConfiguration = PluginConfiguration(
    translationPreference: TranslationPreference,
    alwaysReplaceEpisodeNumber: bool,
    alwaysGetEpisodeByAnitomySharp: bool,
    trustExistedBangumiId: bool,
    alwaysProcessMultiSeasonFolderByAnitomySharp: bool)

  /** LocalConfiguration, read from a folder's override file: a subject id (0 when unset)
      and an episode number offset. */
  datatype LocalConfiguration = LocalConfiguration(id: int, offset: int)

  /** The preference GetName sees when it is handed a configuration that may be null. */
  function PreferenceOf(c: Option<PluginConfiguration>): Option<TranslationPreference> {
    if c.None? then None else Some(c.value.translationPreference)
  }

  /** The name GetName picks for an entity with the given decoded names: the Chinese name
      under the Chinese preference unless it is null or empty, otherwise the original
      name. */
  function PreferredName(pref: Option<TranslationPreference>, chinese: Option<string>, original: string): (r: string)
    ensures pref == Some(Chinese) && !IsNullOrEmpty(chinese) ==> r == chinese.value
    ensures pref != Some(Chinese) || IsNullOrEmpty(chinese) ==> r == original
  {
    match pref
    case Some(Chinese) => if IsNullOrEmpty(chinese) then original else chinese.value
    case Some(Original) => original
    case None => original
  }
}
