/** BasicEpisodeParser: works out which Bangumi episode a video file is from its path,
    the library's index for it, the folder's override file and the remote episode
    lists. The decision flow of GetEpisode is a method; the functions beside it state
    what it computes piece by piece, and the lemmas state the rules those pieces keep. */
module BasicEpisodeParser {
  import opened Wrappers
  import opened Text
  import opened FilePath
  import opened Configuration
  import opened EpisodeModel
  import opened EpisodeLists
  import opened Collaborators
  import opened FileNamePatterns

  // ---------------------------------------------------------------------------
  // Episode types

  /** IsSpecial: the special pattern matches the file name, or, when `checkParent` is
      set, the name of the folder holding it. The file's own name always decides; the
      folder's counts only when asked for. */
  function IsSpecial(filePath: string, checkParent: bool): (r: bool)
    ensures MatchesSpecial(FileName(filePath)) ==> r
    ensures r && !MatchesSpecial(FileName(filePath)) ==> checkParent
  {
    MatchesSpecial(FileName(filePath)) || (checkParent && MatchesSpecial(FolderName(filePath)))
  }

  /** For a file "<dir>/<folder>/<name>", IsSpecial looks at the name and, when
      `checkParent` is set, at the folder: nothing higher up the path counts. */
  lemma IsSpecialOfNestedPath(d: string, folder: string, name: string, checkParent: bool)
    requires folder != [] && NoSeparator(folder) && NoSeparator(name)
    ensures IsSpecial(d + [Separator] + folder + [Separator] + name, checkParent)
            <==> MatchesSpecial(name) || (checkParent && MatchesSpecial(folder))
  {
    FolderNameOfNested(d, folder, name);
    FileNameOfJoin(d + [Separator] + folder, name);
  }

  /** The type a noise-stripped name announces: Opening before Ending before Special
      before Preview. */
  function TypeOfStrippedName(t: string): Option<EpisodeType> {
    if MatchesOpening(t) then Some(Opening)
    else if MatchesEnding(t) then Some(Ending)
    else if MatchesSpecial(t) then Some(Special)
    else if MatchesPreview(t) then Some(Preview)
    else None
  }

  /** GuessEpisodeTypeFromFileName: strips the noise tokens, then classifies what is
      left by the fixed priority. */
  method GuessEpisodeTypeFromFileName(fileName: string) returns (r: Option<EpisodeType>)
    ensures r == TypeOfStrippedName(StripNoise(fileName))
    ensures r == Some(Opening) <==> MatchesOpening(StripNoise(fileName))
    ensures r == Some(Ending) <==> !MatchesOpening(StripNoise(fileName)) && MatchesEnding(StripNoise(fileName))
    ensures r.None? <==> !MatchesAnySpecial(StripNoise(fileName))
    ensures r.Some? ==> r.value in {Opening, Ending, Special, Preview}
  {
    var tempName := StripNoiseTokens(fileName);
    if MatchesOpening(tempName) {
      return Some(Opening);
    }
    if MatchesEnding(tempName) {
      return Some(Ending);
    }
    if MatchesSpecial(tempName) {
      return Some(Special);
    }
    if MatchesPreview(tempName) {
      return Some(Preview);
    }
    return None;
  }

  /** The type GetEpisode searches with: Special when IsSpecial holds for the path or its
      folder, otherwise what the file name announces. */
  function EpisodeTypeOf(path: string): Option<EpisodeType> {
    if IsSpecial(path, true) then Some(Special) else TypeOfStrippedName(StripNoise(FileName(path)))
  }

  // ---------------------------------------------------------------------------
  // Episode numbers

  /** The last step of GuessEpisodeNumber: whether the number read from the file name
      replaces the current index. `max` None stands for +infinity. */
  function ReconcileIndex(alwaysReplace: bool, current: real, fromName: real, max: Option<real>): real {
    if alwaysReplace then fromName
    else if fromName == current then current
    else if max.Some? && current > max.value then fromName
    else if fromName > 0.0 && current <= 0.0 then fromName
    else current
  }

  /** What GuessEpisodeNumber returns. With AlwaysGetEpisodeByAnitomySharp set and a
      non-empty Anitomy episode number, that number is parsed (double.Parse throws on
      text that is not a number); otherwise the file name's number is reconciled with
      `current ?? 0`. */
  function GuessedNumber(config: PluginConfiguration, anitomyNumber: Option<string>, current: Option<real>,
                         fileName: string, max: Option<real>): (r: Result<real>)
    ensures r.Err? <==>
      config.alwaysGetEpisodeByAnitomySharp && !IsNullOrEmpty(anitomyNumber) && ParseDouble(anitomyNumber.value).None?
    ensures r.Err? ==> r.error == FormatException
  {
    if config.alwaysGetEpisodeByAnitomySharp && !IsNullOrEmpty(anitomyNumber) then
      match ParseDouble(anitomyNumber.value)
      case None => Err(FormatException)
      case Some(v) => Ok(v)
    else
      var episodeIndex := current.GetOr(0.0);
      Ok(ReconcileIndex(config.alwaysReplaceEpisodeNumber, episodeIndex,
                        FileNameNumber(StripNoise(fileName)).GetOr(episodeIndex), max))
  }

  /** The second loop of GuessEpisodeNumber: the number patterns in table order, each
      read from its leftmost match, trimmed of '.', until one parses. */
  method ReadEpisodeNumber(tempName: string) returns (found: Option<real>)
    ensures found == FileNameNumber(tempName)
  {
    ghost var attempts := PatternNumbers(tempName);
    FirstSomeIsFirst(attempts);
    var i := 0;
    while i < |NumberPatterns|
      invariant 0 <= i <= |NumberPatterns|
      invariant forall j :: 0 <= j < i ==> attempts[j].None?
    {
      var regex := NumberPatterns[i];
      var capture := FirstCapture(regex, tempName, 0);
      if capture.None? {
        i := i + 1;
        continue;
      }
      var index := ParseDouble(TrimWhere(capture.value, IsDot));
      if index.None? {
        i := i + 1;
        continue;
      }
      return index;
    }
    return None;
  }

  /** Outside the Anitomy branch, GuessedNumber reconciles the number `found` in the
      file name with the current index. */
  lemma GuessedFromName(config: PluginConfiguration, anitomyNumber: Option<string>, current: Option<real>,
                        fileName: string, max: Option<real>, found: Option<real>)
    requires !config.alwaysGetEpisodeByAnitomySharp || IsNullOrEmpty(anitomyNumber)
    requires found == FileNameNumber(StripNoise(fileName))
    ensures GuessedNumber(config, anitomyNumber, current, fileName, max)
      == Ok(ReconcileIndex(config.alwaysReplaceEpisodeNumber, current.GetOr(0.0), found.GetOr(current.GetOr(0.0)), max))
  {
  }

  /** GuessEpisodeNumber. `anitomyNumber` is what Anitomy extracts from the same file
      name; `max` None stands for the default +infinity. */
  method GuessEpisodeNumber(config: PluginConfiguration, anitomyNumber: Option<string>, current: Option<real>,
                            fileName: string, max: Option<real>) returns (r: Result<real>)
    ensures r == GuessedNumber(config, anitomyNumber, current, fileName, max)
  {
    var episodeIndex := current.GetOr(0.0);
    if config.alwaysGetEpisodeByAnitomySharp && !IsNullOrEmpty(anitomyNumber) {
      var parsed := ParseDouble(anitomyNumber.value);
      if parsed.None? {
        return Err(FormatException);
      }
      return Ok(parsed.value);
    }
    var tempName := StripNoiseTokens(fileName);
    var found := ReadEpisodeNumber(tempName);
    GuessedFromName(config, anitomyNumber, current, fileName, max, found);
    var episodeIndexFromFilename := found.GetOr(episodeIndex);
    if config.alwaysReplaceEpisodeNumber {
      return Ok(episodeIndexFromFilename);
    }
    if episodeIndexFromFilename == episodeIndex {
      return Ok(episodeIndex);
    }
    if max.Some? && episodeIndex > max.value {
      return Ok(episodeIndexFromFilename);
    }
    if episodeIndexFromFilename > 0.0 && episodeIndex <= 0.0 {
      return Ok(episodeIndexFromFilename);
    }
    return Ok(episodeIndex);
  }

  /** Outside the Anitomy branch, the guess is either the current index (0 when there is
      none) or the number the file name states, and with no number in the name it is
      the current index. */
  lemma GuessIsCurrentOrFromName(config: PluginConfiguration, anitomyNumber: Option<string>, current: Option<real>,
                                 fileName: string, max: Option<real>)
    requires !config.alwaysGetEpisodeByAnitomySharp || IsNullOrEmpty(anitomyNumber)
    ensures var r := GuessedNumber(config, anitomyNumber, current, fileName, max);
      r.Ok? && (r.value == current.GetOr(0.0) || Some(r.value) == FileNameNumber(StripNoise(fileName)))
    ensures FileNameNumber(StripNoise(fileName)).None? ==>
      GuessedNumber(config, anitomyNumber, current, fileName, max) == Ok(current.GetOr(0.0))
  {
    GuessedFromName(config, anitomyNumber, current, fileName, max, FileNameNumber(StripNoise(fileName)));
  }

  /** The precedence of GuessEpisodeNumber: AlwaysReplaceEpisodeNumber takes the file
      name's number; otherwise a current index that is positive and within `max` is
      kept, and a current index above `max`, or a non-positive one facing a positive
      number in the name, gives way to the name. */
  lemma GuessPrecedence(config: PluginConfiguration, anitomyNumber: Option<string>, current: Option<real>,
                        fileName: string, max: Option<real>)
    requires !config.alwaysGetEpisodeByAnitomySharp || IsNullOrEmpty(anitomyNumber)
    ensures var fromName := FileNameNumber(StripNoise(fileName)).GetOr(current.GetOr(0.0));
      && (config.alwaysReplaceEpisodeNumber ==>
            GuessedNumber(config, anitomyNumber, current, fileName, max) == Ok(fromName))
      && (!config.alwaysReplaceEpisodeNumber && current.GetOr(0.0) > 0.0 && (max.None? || current.GetOr(0.0) <= max.value) ==>
            GuessedNumber(config, anitomyNumber, current, fileName, max) == Ok(current.GetOr(0.0)))
      && (!config.alwaysReplaceEpisodeNumber && max.Some? && current.GetOr(0.0) > max.value ==>
            GuessedNumber(config, anitomyNumber, current, fileName, max) == Ok(fromName))
      && (!config.alwaysReplaceEpisodeNumber && fromName > 0.0 && current.GetOr(0.0) <= 0.0 ==>
            GuessedNumber(config, anitomyNumber, current, fileName, max) == Ok(fromName))
  {
    GuessedFromName(config, anitomyNumber, current, fileName, max, FileNameNumber(StripNoise(fileName)));
  }

  /** Guessing again from the guessed index changes nothing. */
  lemma GuessIdempotent(config: PluginConfiguration, anitomyNumber: Option<string>, current: Option<real>,
                        fileName: string, max: Option<real>)
    requires GuessedNumber(config, anitomyNumber, current, fileName, max).Ok?
    ensures var v := GuessedNumber(config, anitomyNumber, current, fileName, max).value;
      GuessedNumber(config, anitomyNumber, Some(v), fileName, max) == Ok(v)
  {
  }

  // ---------------------------------------------------------------------------
  // The subject id

  /** The Bangumi id stored on the folder's library item, when it is a Season and the id
      parses. */
  function SeasonBangumiId(parent: Option<LibraryItem>): Option<int> {
    if parent.Some? && parent.value.Season? then ParseInt32(BangumiId(Some(parent.value.providerIds))) else None
  }

  /** The subject GetEpisode searches: the override file's id, else the parent Season's
      id, else the series' id. None where GetEpisode gives up (returns null). */
  function SeriesId(localId: int, parent: Option<LibraryItem>, seriesProviderIds: Option<map<string, string>>): (r: Option<int>)
    ensures r.Some? ==>
      r.value == localId || Some(r.value) == SeasonBangumiId(parent) || Some(r.value) == ParseInt32(BangumiId(seriesProviderIds))
  {
    var seriesId := SeasonBangumiId(parent).GetOr(localId);
    if seriesId == 0 then
      match ParseInt32(BangumiId(seriesProviderIds))
      case None => None
      case Some(s) => Some(if localId != 0 then localId else s)
    else Some(if localId != 0 then localId else seriesId)
  }

  /** The precedence of the subject id: the override file's id wins whenever an id is
      found at all; without it the parent Season's non-zero id wins over the series' id.
      No id is found exactly when the parent gives none (or 0) and the series id does
      not parse; the override id is then lost as well when the parent's id is 0. */
  lemma SeriesIdPrecedence(localId: int, parent: Option<LibraryItem>, seriesProviderIds: Option<map<string, string>>)
    ensures localId != 0 && SeriesId(localId, parent, seriesProviderIds).Some? ==>
      SeriesId(localId, parent, seriesProviderIds) == Some(localId)
    ensures localId == 0 && SeasonBangumiId(parent).Some? && SeasonBangumiId(parent).value != 0 ==>
      SeriesId(localId, parent, seriesProviderIds) == SeasonBangumiId(parent)
    ensures localId == 0 && SeasonBangumiId(parent).GetOr(0) == 0 ==>
      SeriesId(localId, parent, seriesProviderIds) == ParseInt32(BangumiId(seriesProviderIds))
    ensures SeriesId(localId, parent, seriesProviderIds).None? <==>
      SeasonBangumiId(parent).GetOr(localId) == 0 && ParseInt32(BangumiId(seriesProviderIds)).None?
  {
  }

  // ---------------------------------------------------------------------------
  // The index searched for

  /** The library's index as a double, null when there is none. */
  function LibraryIndex(info: EpisodeInfo): Option<real> {
    if info.indexNumber.Some? then Some(info.indexNumber.value as real) else None
  }

  /** The library's index, guessed again from the file name when
      AlwaysReplaceEpisodeNumber is set or the index is null or 0. */
  function IndexBeforeOffset(config: PluginConfiguration, anitomyNumber: Option<string>, info: EpisodeInfo): Result<real> {
    if config.alwaysReplaceEpisodeNumber || info.indexNumber.None? || info.indexNumber.value == 0
    then GuessedNumber(config, anitomyNumber, LibraryIndex(info), FileName(info.path), None)
    else Ok(info.indexNumber.value as real)
  }

  /** The index GetEpisode looks up: IndexBeforeOffset less the override file's offset. */
  function LookupIndex(config: PluginConfiguration, anitomyNumber: Option<string>, info: EpisodeInfo, offset: int): Result<real> {
    ShiftBack(IndexBeforeOffset(config, anitomyNumber, info), offset)
  }

  /** A library index other than 0 is kept, unless AlwaysReplaceEpisodeNumber is set, in
      which case the file name's number is used (the library's index when it has none). */
  lemma IndexBeforeOffsetRules(config: PluginConfiguration, anitomyNumber: Option<string>, info: EpisodeInfo)
    requires !config.alwaysGetEpisodeByAnitomySharp
    ensures IndexBeforeOffset(config, anitomyNumber, info).Ok?
    ensures !config.alwaysReplaceEpisodeNumber && info.indexNumber.Some? && info.indexNumber.value != 0 ==>
      IndexBeforeOffset(config, anitomyNumber, info).value == info.indexNumber.value as real
    ensures config.alwaysReplaceEpisodeNumber ==>
      IndexBeforeOffset(config, anitomyNumber, info).value
      == FileNameNumber(StripNoise(FileName(info.path))).GetOr(LibraryIndex(info).GetOr(0.0))
  {
    if config.alwaysReplaceEpisodeNumber || info.indexNumber.None? || info.indexNumber.value == 0 {
      var found := FileNameNumber(StripNoise(FileName(info.path)));
      GuessedFromName(config, anitomyNumber, LibraryIndex(info), FileName(info.path), None, found);
    }
  }

  /** The offset is subtracted from the index and added back by the episode's mapping:
      the lookup fails exactly when the guess fails, and otherwise adding the offset to
      the looked-up index gives the guessed index back. */
  lemma LookupIndexUndoesOffset(config: PluginConfiguration, anitomyNumber: Option<string>, info: EpisodeInfo, offset: int)
    ensures LookupIndex(config, anitomyNumber, info, offset).Ok? <==> IndexBeforeOffset(config, anitomyNumber, info).Ok?
    ensures LookupIndex(config, anitomyNumber, info, offset).Ok? ==>
      LookupIndex(config, anitomyNumber, info, offset).value + offset as real == IndexBeforeOffset(config, anitomyNumber, info).value
  {
  }

  // ---------------------------------------------------------------------------
  // The stored episode id

  function Abs(x: real): real {
    if x < 0.0 then -x else x
  }

  /** The episode id stored on the file, when it parses. */
  function StoredEpisodeId(info: EpisodeInfo): Option<int> {
    ParseInt32(BangumiId(info.providerIds))
  }

  /** The episode the stored id names, when GetEpisode accepts it without searching. */
  function CachedEpisode(config: PluginConfiguration, api: BangumiApi, info: EpisodeInfo, seriesId: int, index: real)
    : (r: Option<Episode>)
    ensures r.Some? ==> StoredEpisodeId(info).Some? && r == api.getEpisode(StoredEpisodeId(info).value)
  {
    match StoredEpisodeId(info)
    case None => None
    case Some(id) =>
      match api.getEpisode(id)
      case None => None
      case Some(e) =>
        if config.trustExistedBangumiId then Some(e)
        else if e.episodeType != Normal || MatchesAnySpecial(info.path) then Some(e)
        else if e.parentId as int == seriesId && Abs(e.order - index) < 0.1 then Some(e)
        else None
  }

  /** The stored id's episode is accepted when TrustExistedBangumiId is set, when it is
      not a Normal episode or the path matches a special pattern, or when it belongs to
      the subject and its order is within 0.1 of the index; in every other case it is
      ignored. */
  lemma CachedEpisodePolicy(config: PluginConfiguration, api: BangumiApi, info: EpisodeInfo, seriesId: int, index: real)
    ensures StoredEpisodeId(info).Some? && api.getEpisode(StoredEpisodeId(info).value).Some? ==>
      var e := api.getEpisode(StoredEpisodeId(info).value).value;
      (CachedEpisode(config, api, info, seriesId, index).Some? <==>
        config.trustExistedBangumiId || e.episodeType != Normal || MatchesAnySpecial(info.path)
        || (e.parentId as int == seriesId && -0.1 < e.order - index < 0.1))
  {
  }

  // ---------------------------------------------------------------------------
  // The list search

  /** What GetEpisodeNumber needs besides the index: the configuration, Anitomy's number
      for the file and the file name. */
  datatype Guesser = Guesser(config: PluginConfiguration, anitomyNumber: Option<string>, fileName: string)

  /** A guess moved back by the offset; an exception passes through. */
  function ShiftBack(guessed: Result<real>, offset: int): Result<real> {
    if guessed.Err? then Err(guessed.error) else Ok(guessed.value - offset as real)
  }

  /** The index a Normal or untyped search looks for in a list of several: the index is
      guessed again against the list's largest order, both moved back into the frame of
      the file name by adding the offset, and the guess is moved back by the offset. Max
      throws on an empty list, outside the try block. */
  function ReguessedIndex(g: Guesser, list: seq<Episode>, offset: int, index: real): Result<real> {
    var max := MaxOrder(list);
    if max.Err? then Err(max.error)
    else ShiftBack(GuessedNumber(g.config, g.anitomyNumber, Some(index + offset as real), g.fileName,
                                 Some(max.value + offset as real)), offset)
  }

  /** ReguessedIndex once Max has returned `max` and GuessEpisodeNumber `guessed`. */
  lemma ReguessedIndexFrom(g: Guesser, list: seq<Episode>, offset: int, index: real, max: real, guessed: Result<real>)
    requires MaxOrder(list) == Ok(max)
    requires guessed == GuessedNumber(g.config, g.anitomyNumber, Some(index + offset as real), g.fileName, Some(max + offset as real))
    ensures ReguessedIndex(g, list, offset, index) == ShiftBack(guessed, offset)
  {
  }

  /** A Normal or untyped search over a fetched list: a single candidate is taken as it
      is; otherwise the episode whose order is the guessed index is picked, the lowest
      type first. */
  function GuessAndPick(g: Guesser, list: seq<Episode>, offset: int, index: real): Result<Option<Episode>> {
    if |list| == 1 then Ok(Some(list[0]))
    else
      match ReguessedIndex(g, list, offset, index)
      case Err(e) => Err(e)
      case Ok(v) => Ok(PickByOrder(list, v))
  }

  /** The list search from the SkipBangumiId label on. A typed search that finds no
      episode with the index as its order is repeated once with no type. */
  function Search(g: Guesser, api: BangumiApi, seriesId: int, offset: int, t: Option<EpisodeType>, index: real)
    : (r: Result<Option<Episode>>)
    ensures r.Err? ==> r.error == InvalidOperationException || r.error == FormatException
    decreases if IsNormalOrNull(t) then 0 else 1
  {
    match api.getSubjectEpisodeList(seriesId, t, index)
    case None => Ok(None)
    case Some(list) =>
      if IsNormalOrNull(t) then GuessAndPick(g, list, offset, index)
      else if PickByOrder(list, index).Some? then Ok(PickByOrder(list, index))
      else Search(g, api, seriesId, offset, None, index)
  }

  /** The episode a Normal or untyped search picks is one of the list's. */
  lemma GuessAndPickInList(g: Guesser, list: seq<Episode>, offset: int, index: real)
    requires GuessAndPick(g, list, offset, index).Ok? && GuessAndPick(g, list, offset, index).value.Some?
    ensures GuessAndPick(g, list, offset, index).value.value in list
  {
    if |list| != 1 {
      PickByOrderIsBestMatch(list, ReguessedIndex(g, list, offset, index).value);
    }
  }

  /** The episode a Normal or untyped search picks from a list of several has as its
      order, with the offset added back, what GuessEpisodeNumber gives for the index and
      the list's largest order, both with the offset added back. */
  lemma GuessAndPickMatchesGuess(g: Guesser, list: seq<Episode>, offset: int, index: real)
    requires |list| != 1
    requires GuessAndPick(g, list, offset, index).Ok? && GuessAndPick(g, list, offset, index).value.Some?
    ensures var e := GuessAndPick(g, list, offset, index).value.value;
      var guessed := GuessedNumber(g.config, g.anitomyNumber, Some(index + offset as real), g.fileName,
                                   Some(MaxOrder(list).value + offset as real));
      MaxOrder(list).Ok? && guessed.Ok? && guessed.value == e.order + offset as real
  {
    var max := MaxOrder(list).value;
    var guessed := GuessedNumber(g.config, g.anitomyNumber, Some(index + offset as real), g.fileName, Some(max + offset as real));
    ReguessedIndexFrom(g, list, offset, index, max, guessed);
    var v := guessed.value - offset as real;
    PickByOrderIsBestMatch(list, v);
  }

  /** An empty list makes Max throw, and nothing catches it: the exception leaves
      GetEpisode. */
  lemma GuessAndPickEmptyThrows(g: Guesser, offset: int, index: real)
    ensures GuessAndPick(g, [], offset, index) == Err(InvalidOperationException)
  {
  }

  /** What the search finds is one of the episodes offered to it, either for the type it
      was given or, on the retry, for no type. */
  lemma SearchFindsCandidate(g: Guesser, api: BangumiApi, seriesId: int, offset: int, t: Option<EpisodeType>, index: real)
    requires Search(g, api, seriesId, offset, t, index).Ok? && Search(g, api, seriesId, offset, t, index).value.Some?
    ensures var e := Search(g, api, seriesId, offset, t, index).value.value;
      e in Candidates(api, seriesId, t, index) || e in Candidates(api, seriesId, None, index)
  {
    var list := api.getSubjectEpisodeList(seriesId, t, index).value;
    if IsNormalOrNull(t) {
      GuessAndPickInList(g, list, offset, index);
    } else if PickByOrder(list, index).Some? {
      PickByOrderIsBestMatch(list, index);
    } else {
      var list2 := api.getSubjectEpisodeList(seriesId, None, index).value;
      GuessAndPickInList(g, list2, offset, index);
    }
  }

  /** A typed search that finds no episode with the index as its order asks once more
      with no type, and that second search is final. */
  lemma SearchRetriesOnce(g: Guesser, api: BangumiApi, seriesId: int, offset: int, t: Option<EpisodeType>, index: real)
    requires !IsNormalOrNull(t) && api.getSubjectEpisodeList(seriesId, t, index).Some?
    requires forall e :: e in api.getSubjectEpisodeList(seriesId, t, index).value ==> e.order != index
    ensures Search(g, api, seriesId, offset, t, index) == Search(g, api, seriesId, offset, None, index)
  {
    var list := api.getSubjectEpisodeList(seriesId, t, index).value;
    PickByOrderIsBestMatch(list, index);
  }

  // ---------------------------------------------------------------------------
  // GetEpisode

  /** What GetEpisode returns. `parent` is the library item at the file's folder,
      `local` the folder's override file, `anitomyNumber` Anitomy's episode number for
      the file name. */
  function Resolve(config: PluginConfiguration, api: BangumiApi, info: EpisodeInfo, local: LocalConfiguration,
                   parent: Option<LibraryItem>, anitomyNumber: Option<string>): (r: Result<Option<Episode>>)
    ensures r.Err? ==> r.error == InvalidOperationException || r.error == FormatException
    ensures r.Ok? && r.value.Some? ==>
      var seriesId := SeriesId(local.id, parent, info.seriesProviderIds);
      var index := LookupIndex(config, anitomyNumber, info, local.offset);
      seriesId.Some? && index.Ok?
      && ((StoredEpisodeId(info).Some? && r.value == api.getEpisode(StoredEpisodeId(info).value))
          || r.value.value in Candidates(api, seriesId.value, EpisodeTypeOf(info.path), index.value)
          || r.value.value in Candidates(api, seriesId.value, None, index.value))
  {
    var fileName := FileName(info.path);
    if fileName == "" then Ok(None)
    else
      match SeriesId(local.id, parent, info.seriesProviderIds)
      case None => Ok(None)
      case Some(seriesId) =>
        match LookupIndex(config, anitomyNumber, info, local.offset)
        case Err(e) => Err(e)
        case Ok(index) =>
          match CachedEpisode(config, api, info, seriesId, index)
          case Some(e) => Ok(Some(e))
          case None =>
            var t := EpisodeTypeOf(info.path);
            var g := Guesser(config, anitomyNumber, fileName);
            var found := Search(g, api, seriesId, local.offset, t, index);
            if found.Ok? && found.value.Some? then
              SearchFindsCandidate(g, api, seriesId, local.offset, t, index);
              found
            else found
  }

  /** Lines 129-134 of GetEpisode: the index guessed again against the list. */
  method ReguessIndex(g: Guesser, list: seq<Episode>, offset: int, index: real) returns (r: Result<real>)
    ensures r == ReguessedIndex(g, list, offset, index)
  {
    var max := MaxOrder(list);
    if max.Err? {
      return Err(max.error);
    }
    var guessed := GuessEpisodeNumber(g.config, g.anitomyNumber, Some(index + offset as real), g.fileName,
                                      Some(max.value + offset as real));
    ReguessedIndexFrom(g, list, offset, index, max.value, guessed);
    r := ShiftBack(guessed, offset);
  }

  /** The list search GetEpisode runs from its SkipBangumiId label, the `goto` back to
      the label written as a loop that runs at most twice. */
  method SearchEpisodeList(g: Guesser, api: BangumiApi, seriesId: int, offset: int, t: Option<EpisodeType>, index: real)
    returns (r: Result<Option<Episode>>)
    ensures r == Search(g, api, seriesId, offset, t, index)
  {
    var episodeType := t;
    var episodeIndex := index;
    while true
      invariant Search(g, api, seriesId, offset, t, index) == Search(g, api, seriesId, offset, episodeType, episodeIndex)
      decreases if IsNormalOrNull(episodeType) then 0 else 1
    {
      var episodeListData := api.getSubjectEpisodeList(seriesId, episodeType, episodeIndex);
      if episodeListData.None? {
        return Ok(None);
      }
      var list := episodeListData.value;
      if |list| == 1 && IsNormalOrNull(episodeType) {
        return Ok(Some(list[0]));
      }
      if IsNormalOrNull(episodeType) {
        var guessed := ReguessIndex(g, list, offset, episodeIndex);
        if guessed.Err? {
          return Err(guessed.error);
        }
        episodeIndex := guessed.value;
      }
      var episode := PickByOrder(list, episodeIndex);
      if episode.Some? || IsNormalOrNull(episodeType) {
        return Ok(episode);
      }
      episodeType := None;
    }
  }

  /** Lines 50-68 of GetEpisode: the subject id, null when GetEpisode gives up. */
  method FindSeriesId(localId: int, parent: Option<LibraryItem>, seriesProviderIds: Option<map<string, string>>)
    returns (r: Option<int>)
    ensures r == SeriesId(localId, parent, seriesProviderIds)
  {
    var seriesId := localId;
    if parent.Some? && parent.value.Season? {
      var seasonId := ParseInt32(BangumiId(Some(parent.value.providerIds)));
      if seasonId.Some? {
        seriesId := seasonId.value;
      }
    }
    if seriesId == 0 {
      var parsed := ParseInt32(BangumiId(seriesProviderIds));
      if parsed.None? {
        return None;
      }
      seriesId := parsed.value;
    }
    if localId != 0 {
      seriesId := localId;
    }
    return Some(seriesId);
  }

  /** Lines 70-81 of GetEpisode: the library's index, or the guess that replaces it. */
  method GuessIndexWhenMissing(config: PluginConfiguration, anitomyNumber: Option<string>, info: EpisodeInfo)
    returns (r: Result<real>)
    ensures r == IndexBeforeOffset(config, anitomyNumber, info)
  {
    var current := LibraryIndex(info);
    if config.alwaysReplaceEpisodeNumber || info.indexNumber.None? || info.indexNumber.value == 0 {
      r := GuessEpisodeNumber(config, anitomyNumber, current, FileName(info.path), None);
    } else {
      r := Ok(current.value);
    }
  }

  /** Lines 70-87 of GetEpisode: the index looked up. */
  method FindLookupIndex(config: PluginConfiguration, anitomyNumber: Option<string>, info: EpisodeInfo, offset: int)
    returns (r: Result<real>)
    ensures r == LookupIndex(config, anitomyNumber, info, offset)
  {
    var guessed := GuessIndexWhenMissing(config, anitomyNumber, info);
    if guessed.Err? {
      return Err(guessed.error);
    }
    return Ok(guessed.value - offset as real);
  }

  /** Lines 89-112 of GetEpisode: the episode the stored id names, when it is accepted. */
  method FindCachedEpisode(config: PluginConfiguration, api: BangumiApi, info: EpisodeInfo, seriesId: int, index: real)
    returns (r: Option<Episode>)
    ensures r == CachedEpisode(config, api, info, seriesId, index)
  {
    var episodeId := StoredEpisodeId(info);
    if episodeId.None? {
      return None;
    }
    var episode := api.getEpisode(episodeId.value);
    if episode.None? {
      return None;
    }
    var e := episode.value;
    if config.trustExistedBangumiId {
      return Some(e);
    }
    if e.episodeType != Normal || MatchesAnySpecial(info.path) {
      return Some(e);
    }
    if e.parentId as int == seriesId && Abs(e.order - index) < 0.1 {
      return Some(e);
    }
    return None;
  }

  /** GetEpisode. */
  method GetEpisode(config: PluginConfiguration, api: BangumiApi, info: EpisodeInfo, local: LocalConfiguration,
                    parent: Option<LibraryItem>, anitomyNumber: Option<string>) returns (r: Result<Option<Episode>>)
    ensures r == Resolve(config, api, info, local, parent, anitomyNumber)
  {
    var fileName := FileName(info.path);
    if fileName == "" {
      return Ok(None);
    }
    var episodeType: Option<EpisodeType>;
    if IsSpecial(info.path, true) {
      episodeType := Some(Special);
    } else {
      episodeType := GuessEpisodeTypeFromFileName(fileName);
    }
    var seriesId := FindSeriesId(local.id, parent, info.seriesProviderIds);
    if seriesId.None? {
      return Ok(None);
    }
    var episodeIndex := FindLookupIndex(config, anitomyNumber, info, local.offset);
    if episodeIndex.Err? {
      return Err(episodeIndex.error);
    }
    var episode := FindCachedEpisode(config, api, info, seriesId.value, episodeIndex.value);
    if episode.Some? {
      return Ok(episode);
    }
    r := SearchEpisodeList(Guesser(config, anitomyNumber, fileName), api, seriesId.value, local.offset,
                           episodeType, episodeIndex.value);
  }
}
