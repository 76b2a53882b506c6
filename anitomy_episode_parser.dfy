/** AnitomyEpisodeParser: works out which Bangumi episode a file is from the tokens the
    Anitomy tokenizer finds in its name. `rule01` looks the index up in the subject's own
    list; `rule02` walks from season to sequel season, numbering the seasons on one
    running axis, for files numbered across seasons; a file neither rule places becomes
    a made-up special episode. */
module AnitomyEpisodeParser {
  import opened Wrappers
  import opened Text
  import opened Configuration
  import opened EpisodeModel
  import opened SubjectModel
  import opened EpisodeLists
  import opened Collaborators

  /** What the parser is constructed with and reads: the web API, the plugin's settings,
      Anitomy's tokens for the file name and its type mapping, the name of the library
      item at the file's folder (None when it cannot be found), and the subject id
      ProcessMultiSeasonFolder settles on. */
  datatype Context = Context(
    api: BangumiApi,
    config: PluginConfiguration,
    tokens: AnitomyTokens,
    mapping: TypeMapping,
    folderName: Option<string>,
    multiSeasonFolderId: int)

  // ---------------------------------------------------------------------------
  // The episode type

  /** The raw type token and the Bangumi episode type of a file. */
  datatype FileType = FileType(anitomyType: Option<string>, bangumiType: Option<EpisodeType>)

  function Mapped(mapping: TypeMapping, typeTokens: seq<string>): FileType {
    var (raw, t) := mapping(typeTokens);
    FileType(raw, t)
  }

  /** GetEpisodeType: the mapping of Anitomy's type tokens; when that gives no Bangumi
      type, the mapping of the folder's name replaces both values, provided the folder
      is found (a failed lookup is caught and changes nothing). */
  function GetEpisodeType(mapping: TypeMapping, tokens: AnitomyTokens, folderName: Option<string>): (r: FileType)
    ensures Mapped(mapping, tokens.animeType).bangumiType.Some? ==> r == Mapped(mapping, tokens.animeType)
    ensures r.bangumiType.None? <==>
      Mapped(mapping, tokens.animeType).bangumiType.None?
      && (folderName.None? || Mapped(mapping, [folderName.value]).bangumiType.None?)
  {
    var fromTokens := Mapped(mapping, tokens.animeType);
    if fromTokens.bangumiType.Some? || folderName.None? then fromTokens
    else Mapped(mapping, [folderName.value])
  }

  // ---------------------------------------------------------------------------
  // The made-up title

  /** `token?.Trim() ?? ""`. */
  function TrimmedOrEmpty(token: Option<string>): string {
    if token.None? then "" else Trim(token.value)
  }

  /** `token?.Trim() == null ? "" : prefix + token?.Trim() + suffix`. */
  function Tagged(prefix: string, token: Option<string>, suffix: string): string {
    if token.None? then "" else prefix + Trim(token.value) + suffix
  }

  /** The seven parts of the title, in their fixed order. */
  function TitleParts(tokens: AnitomyTokens, anitomyType: Option<string>): seq<string> {
    [TrimmedOrEmpty(tokens.animeTitle), TrimmedOrEmpty(tokens.episodeTitle), TrimmedOrEmpty(anitomyType),
     Tagged("S", tokens.animeSeason, ""), Tagged("V", tokens.volumeNumber, ""),
     Tagged("E", tokens.episodeNumber, ""), Tagged("(", tokens.episodeNumberAlt, ")")]
  }

  predicate Blank(s: string) {
    IsNullOrWhiteSpace(Some(s))
  }

  /** `parts.Where(p => !string.IsNullOrWhiteSpace(p))`. */
  function NonBlank(parts: seq<string>): (r: seq<string>)
    ensures |r| <= |parts|
    ensures forall i :: 0 <= i < |r| ==> !Blank(r[i]) && r[i] in parts
    ensures forall i :: 0 <= i < |parts| && !Blank(parts[i]) ==> parts[i] in r
    ensures r == [] <==> forall i :: 0 <= i < |parts| ==> Blank(parts[i])
    decreases |parts|
  {
    if parts == [] then []
    else
      var rest := NonBlank(parts[1..]);
      assert forall i :: 1 <= i < |parts| ==> parts[i] == parts[1..][i - 1];
      (if Blank(parts[0]) then [] else [parts[0]]) + rest
  }

  /** Filtering keeps the order: the non-blank parts of a concatenation are those of
      the first half followed by those of the second. With NonBlank([p]) being [p]
      for a non-blank p and [] otherwise, this fixes NonBlank as the order-preserving
      filter. */
  lemma {:induction false} NonBlankOfConcat(a: seq<string>, b: seq<string>)
    ensures NonBlank(a + b) == NonBlank(a) + NonBlank(b)
    ensures NonBlank([]) == []
    decreases |a|
  {
    if a == [] {
      assert a + b == b;
    } else {
      assert (a + b)[1..] == a[1..] + b;
      NonBlankOfConcat(a[1..], b);
    }
  }

  /** A single part is kept exactly when it is not blank. */
  lemma NonBlankOfOne(p: string)
    ensures NonBlank([p]) == if Blank(p) then [] else [p]
  {
    assert [p][1..] == [];
  }

  /** TitleOfSpecialEpisode: the non-blank parts joined by single spaces. The title is
      empty exactly when every part is blank, and otherwise neither starts nor ends
      with white space. */
  function TitleOfSpecialEpisode(tokens: AnitomyTokens, anitomyType: Option<string>): (r: string)
    ensures r == [] <==> forall i :: 0 <= i < 7 ==> Blank(TitleParts(tokens, anitomyType)[i])
    ensures Tidy(r)
  {
    var parts := NonBlank(TitleParts(tokens, anitomyType));
    TidyParts(tokens, anitomyType);
    JoinTidy(parts);
    Join(" ", parts)
  }

  lemma TidyTrimmed(token: Option<string>)
    ensures Tidy(TrimmedOrEmpty(token))
  {
  }

  lemma TidyTagged(prefix: string, token: Option<string>, suffix: string)
    requires prefix != [] && !IsWhiteSpace(prefix[0]) && !IsWhiteSpace(prefix[|prefix| - 1])
    requires suffix == [] || !IsWhiteSpace(suffix[|suffix| - 1])
    ensures Tidy(Tagged(prefix, token, suffix))
  {
    if token.Some? {
      var t := Trim(token.value);
      var r := prefix + t + suffix;
      assert r[0] == prefix[0];
      if suffix == [] && t != [] {
        assert r[|r| - 1] == t[|t| - 1];
      }
    }
  }

  /** Every part of the title is tidy. */
  lemma TidyParts(tokens: AnitomyTokens, anitomyType: Option<string>)
    ensures forall i :: 0 <= i < |TitleParts(tokens, anitomyType)| ==> Tidy(TitleParts(tokens, anitomyType)[i])
  {
    TidyTrimmed(tokens.animeTitle);
    TidyTrimmed(tokens.episodeTitle);
    TidyTrimmed(anitomyType);
    TidyTagged("S", tokens.animeSeason, "");
    TidyTagged("V", tokens.volumeNumber, "");
    TidyTagged("E", tokens.episodeNumber, "");
    TidyTagged("(", tokens.episodeNumberAlt, ")");
  }

  /** Joining tidy, non-empty parts with spaces gives tidy text, empty only when there
      are no parts. */
  lemma {:induction false} JoinTidy(parts: seq<string>)
    requires forall i :: 0 <= i < |parts| ==> parts[i] != [] && Tidy(parts[i])
    ensures Join(" ", parts) == [] <==> parts == []
    ensures Tidy(Join(" ", parts))
    ensures parts != [] ==> Join(" ", parts)[..|parts[0]|] == parts[0]
    decreases |parts|
  {
    if |parts| > 1 {
      JoinTidy(parts[1..]);
      var rest := Join(" ", parts[1..]);
      assert Join(" ", parts) == parts[0] + (" " + rest);
    }
  }

  /** The title is the non-blank parts, in their fixed order, with exactly one space
      between neighbours and nothing before the first or after the last. */
  lemma TitleLaysOutParts(tokens: AnitomyTokens, anitomyType: Option<string>)
    ensures LaidOut(TitleOfSpecialEpisode(tokens, anitomyType), " ", NonBlank(TitleParts(tokens, anitomyType)))
  {
    var kept := NonBlank(TitleParts(tokens, anitomyType));
    assert TitleOfSpecialEpisode(tokens, anitomyType) == Join(" ", kept);
    JoinPlacesParts(" ", kept);
  }

  /** A non-blank anime title comes first in the title. */
  lemma TitleStartsWithAnimeTitle(tokens: AnitomyTokens, anitomyType: Option<string>)
    requires !Blank(TrimmedOrEmpty(tokens.animeTitle))
    ensures var t := TrimmedOrEmpty(tokens.animeTitle);
      |t| <= |TitleOfSpecialEpisode(tokens, anitomyType)| && TitleOfSpecialEpisode(tokens, anitomyType)[..|t|] == t
  {
    var parts := TitleParts(tokens, anitomyType);
    TidyParts(tokens, anitomyType);
    assert parts[1..][1..][1..][1..][1..][1..][1..] == [];
    assert NonBlank(parts) == [parts[0]] + NonBlank(parts[1..]);
    JoinTidy(NonBlank(parts));
  }

  // ---------------------------------------------------------------------------
  // The index

  /** Files above this many bytes without an episode number are taken for episode 1. */
  const LargeFileSize: int := 100000000

  /** The index GetEpisodeIndex settles on before the offset: Anitomy's episode number
      when it is non-empty (the index passed in when it does not parse), otherwise 1
      for a file larger than LargeFileSize bytes and 0 for any other. */
  function IndexFromTokens(tokens: AnitomyTokens, fileSize: Option<int>, episodeIndex: real): real {
    if !IsNullOrEmpty(tokens.episodeNumber) then ParseDouble(tokens.episodeNumber.value).GetOr(episodeIndex)
    else if fileSize.Some? && fileSize.value > LargeFileSize then 1.0
    else 0.0
  }

  /** What GetEpisodeIndex returns: the offset is added when the file has a Bangumi
      type, whatever that type is. */
  function EpisodeIndex(tokens: AnitomyTokens, fileSize: Option<int>, fileType: FileType, offset: int, episodeIndex: real): real {
    var i := IndexFromTokens(tokens, fileSize, episodeIndex);
    if fileType.bangumiType.Some? then i + offset as real else i
  }

  /** GetEpisodeIndex. `fileSize` is the file's length in bytes, None when the file
      system gives no information about it. */
  method GetEpisodeIndex(c: Context, fileSize: Option<int>, local: LocalConfiguration, episodeIndex: real) returns (r: real)
    ensures r == EpisodeIndex(c.tokens, fileSize, GetEpisodeType(c.mapping, c.tokens, c.folderName), local.offset, episodeIndex)
  {
    r := episodeIndex;
    var anitomyIndex := c.tokens.episodeNumber;
    if !IsNullOrEmpty(anitomyIndex) {
      var parsed := ParseDouble(anitomyIndex.value);
      if parsed.Some? {
        r := parsed.value;
      }
    } else if fileSize.Some? && fileSize.value > LargeFileSize {
      r := 1.0;
    } else {
      r := 0.0;
    }
    var fileType := GetEpisodeType(c.mapping, c.tokens, c.folderName);
    if fileType.bangumiType.Some? {
      r := r + local.offset as real;
    }
  }

  /** The offset moves the index exactly when the file has a Bangumi type and the offset
      is not 0; a Special file is moved like any other typed file. */
  lemma OffsetOnlyWhenTyped(tokens: AnitomyTokens, fileSize: Option<int>, fileType: FileType, offset: int, episodeIndex: real)
    ensures EpisodeIndex(tokens, fileSize, fileType, offset, episodeIndex) != IndexFromTokens(tokens, fileSize, episodeIndex)
      <==> fileType.bangumiType.Some? && offset != 0
    ensures fileType.bangumiType == Some(Special) ==>
      EpisodeIndex(tokens, fileSize, fileType, offset, episodeIndex) == IndexFromTokens(tokens, fileSize, episodeIndex) + offset as real
  {
  }

  /** An episode number that parses decides the index: neither the file's size nor the
      index passed in matters then. */
  lemma TokenNumberWins(tokens: AnitomyTokens, size1: Option<int>, size2: Option<int>, index1: real, index2: real)
    requires tokens.episodeNumber.Some? && ParseDouble(tokens.episodeNumber.value).Some?
    ensures IndexFromTokens(tokens, size1, index1) == IndexFromTokens(tokens, size2, index2)
                                                   == ParseDouble(tokens.episodeNumber.value).value
  {
  }

  // ---------------------------------------------------------------------------
  // rule01

  /** The list rule01 searches: the subject's episodes of the file's type; for a Special
      file whose typed list is empty, the subject's episodes of every type. */
  function Rule01List(api: BangumiApi, seriesId: int, index: real, t: Option<EpisodeType>): seq<Episode> {
    var l := Candidates(api, seriesId, t, index);
    if |l| == 0 && t == Some(Special) then Candidates(api, seriesId, None, index) else l
  }

  /** What rule01 returns. The alternative number is parsed inside the search
      predicate, once per episode looked at, so an unparsable one throws only when
      the list it searches is not empty. */
  function Rule01Result(api: BangumiApi, seriesId: int, index: real, tokens: AnitomyTokens, t: Option<EpisodeType>)
    : (r: Result<Option<Episode>>)
    ensures r.Err? <==>
      PickByOrder(Rule01List(api, seriesId, index, t), index).None? && Rule01List(api, seriesId, index, t) != []
      && tokens.episodeNumberAlt.Some? && ParseDouble(tokens.episodeNumberAlt.value).None?
    ensures r.Err? ==> r.error == FormatException
  {
    var l := Rule01List(api, seriesId, index, t);
    var direct := PickByOrder(l, index);
    if direct.Some? then Ok(direct)
    else if tokens.episodeNumberAlt.Some? then
      match ParseDouble(tokens.episodeNumberAlt.value)
      case None => if |l| == 0 then Ok(None) else Err(FormatException)
      case Some(alt) => Ok(PickByOrder(l, alt))
    else if t.Some? && index == 0.0 && |l| != 0 then Ok(PickByOrder(l, 1.0))
    else Ok(None)
  }

  /** rule01: the episode with the index as its order; failing that, for a typed file
      with index 0, the one with order 1; and when Anitomy finds an alternative number,
      the one with that number as its order, in place of whatever the fallback found. */
  method Rule01(api: BangumiApi, seriesId: int, index: real, tokens: AnitomyTokens, t: Option<EpisodeType>)
    returns (r: Result<Option<Episode>>)
    ensures r == Rule01Result(api, seriesId, index, tokens, t)
  {
    var list := Candidates(api, seriesId, t, index);
    if |list| == 0 && t == Some(Special) {
      list := Candidates(api, seriesId, None, index);
    }
    var episode := PickByOrder(list, index);
    if episode.None? {
      if t.Some? && index == 0.0 && |list| != 0 {
        episode := PickByOrder(list, 1.0);
      }
      var alt := tokens.episodeNumberAlt;
      if alt.Some? {
        var parsed := ParseDouble(alt.value);
        if parsed.None? {
          if |list| != 0 {
            return Err(FormatException);
          }
          episode := None;
        } else {
          episode := PickByOrder(list, parsed.value);
        }
      }
    }
    return Ok(episode);
  }

  /** What rule01 finds is an episode of the list it searched whose order is the index,
      the alternative number, or 1 for a typed file with index 0 and no alternative. */
  lemma Rule01FindsRequestedOrder(api: BangumiApi, seriesId: int, index: real, tokens: AnitomyTokens, t: Option<EpisodeType>)
    requires Rule01Result(api, seriesId, index, tokens, t).Ok? && Rule01Result(api, seriesId, index, tokens, t).value.Some?
    ensures var e := Rule01Result(api, seriesId, index, tokens, t).value.value;
      e in Rule01List(api, seriesId, index, t)
      && (e.order == index
          || (tokens.episodeNumberAlt.Some? && ParseDouble(tokens.episodeNumberAlt.value) == Some(e.order))
          || (tokens.episodeNumberAlt.None? && t.Some? && index == 0.0 && e.order == 1.0))
  {
    var l := Rule01List(api, seriesId, index, t);
    if PickByOrder(l, index).Some? {
      PickIsInList(l, index);
    } else if tokens.episodeNumberAlt.Some? {
      PickIsInList(l, ParseDouble(tokens.episodeNumberAlt.value).value);
    } else {
      PickIsInList(l, 1.0);
    }
  }

  /** The alternative number overrides the order-1 fallback even when it finds nothing
      and the fallback would have found an episode. */
  lemma AltOverridesOrderOne(api: BangumiApi, seriesId: int, tokens: AnitomyTokens, t: Option<EpisodeType>, alt: real)
    requires t.Some? && tokens.episodeNumberAlt.Some? && ParseDouble(tokens.episodeNumberAlt.value) == Some(alt)
    requires PickByOrder(Rule01List(api, seriesId, 0.0, t), 0.0).None?
    ensures Rule01Result(api, seriesId, 0.0, tokens, t) == Ok(PickByOrder(Rule01List(api, seriesId, 0.0, t), alt))
  {
  }

  // ---------------------------------------------------------------------------
  // rule02: the season walk

  /** Where the walk is at the `nextSeason` label: the subject whose sequel is looked
      for, the last sequel id found (0 before the first), and the running count of
      episodes up to the end of that subject. */
  datatype WalkState = WalkState(seriesId: int, subjectId: int, count: real)

  /** What one pass from the label does: stop with a result, or go to the label again. */
  datatype Hop = Stop(result: Result<Option<Episode>>) | Continue(next: WalkState)

  predicate IsSequel(s: Subject) {
    s.relation == Some(SequelRelation)
  }

  /** The foreach over the related subjects: the id of the first sequel, or `subjectId`
      unchanged when there is none. */
  function SequelId(related: seq<Subject>, subjectId: int): int
    decreases |related|
  {
    if related == [] then subjectId
    else if IsSequel(related[0]) then related[0].id as int
    else SequelId(related[1..], subjectId)
  }

  /** The id taken is the first sequel's, and `subjectId` is kept only when no related
      subject is a sequel. */
  lemma {:induction false} SequelIdIsFirstSequel(related: seq<Subject>, subjectId: int, i: nat)
    requires i < |related| && IsSequel(related[i]) && forall j :: 0 <= j < i ==> !IsSequel(related[j])
    ensures SequelId(related, subjectId) == related[i].id as int
    decreases i
  {
    if i > 0 {
      SequelIdIsFirstSequel(related[1..], subjectId, i - 1);
    }
  }

  lemma {:induction false} SequelIdWithoutSequel(related: seq<Subject>, subjectId: int)
    requires forall j :: 0 <= j < |related| ==> !IsSequel(related[j])
    ensures SequelId(related, subjectId) == subjectId
    decreases |related|
  {
    if related != [] {
      SequelIdWithoutSequel(related[1..], subjectId);
    }
  }

  /** Lines 171-179: the foreach with its break. */
  method FindSequel(related: seq<Subject>, subjectId: int) returns (r: int)
    ensures r == SequelId(related, subjectId)
  {
    var i := 0;
    while i < |related|
      invariant 0 <= i <= |related|
      invariant SequelId(related, subjectId) == SequelId(related[i..], subjectId)
    {
      if IsSequel(related[i]) {
        return related[i].id as int;
      }
      assert related[i..][1..] == related[i + 1..];
      i := i + 1;
    }
    return subjectId;
  }

  /** A sequel's list, renumbered after `count` when its first episode has order 1. */
  function Renumbered(list: seq<Episode>, first: real, count: real): seq<Episode> {
    if first == 1.0 then Shifted(list, count) else list
  }

  /** The running count after a sequel whose list is `list` and whose first episode has
      order `first`. */
  function CountAfter(list: seq<Episode>, first: real, count: real): real
    requires list != []
  {
    var firstOrder := if first == 1.0 then first + count else first;
    var l := Renumbered(list, first, count);
    count + l[|l| - 1].order - firstOrder + 1.0
  }

  /** Whether a sequel is renumbered or not, the count grows by the span of its orders,
      from its first to its last. */
  lemma CountAfterAddsSpan(list: seq<Episode>, first: real, count: real)
    requires list != []
    ensures CountAfter(list, first, count) == count + (list[|list| - 1].order - first + 1.0)
  {
  }

  /** Seasons of 25, 22 and 30 episodes, each numbered from 1, give the running counts
      25, 47 and 77. */
  lemma RunningCounts(second: seq<Episode>, third: seq<Episode>)
    requires second != [] && second[|second| - 1].order == 22.0
    requires third != [] && third[|third| - 1].order == 30.0
    ensures CountAfter(second, 1.0, 25.0) == 47.0
    ensures CountAfter(third, 1.0, CountAfter(second, 1.0, 25.0)) == 77.0
  {
    CountAfterAddsSpan(second, 1.0, 25.0);
    CountAfterAddsSpan(third, 1.0, 47.0);
  }

  /** Lines 206-226: the index, then the index less the count before this season, then
      the alternative number and the alternative number less that count (both only when
      there is one); the order of what is found is set to the number asked for. */
  function MatchInSeason(list: seq<Episode>, index: real, alt: real, last: real): Option<Episode> {
    var found := if PickByOrder(list, index).Some? then PickByOrder(list, index) else PickByOrder(list, index - last);
    if found.Some? then Some(found.value.(order := index))
    else if alt == -1.0 then None
    else if PickByOrder(list, alt).Some? then Some(PickByOrder(list, alt).value.(order := alt))
    else if PickByOrder(list, alt - last).Some? then Some(PickByOrder(list, alt - last).value.(order := alt))
    else None
  }

  /** Lines 206-226, one assignment after another. */
  method MatchSeason(list: seq<Episode>, index: real, alt: real, last: real) returns (episode: Option<Episode>)
    ensures episode == MatchInSeason(list, index, alt, last)
  {
    episode := PickByOrder(list, index);
    if episode.None? {
      episode := PickByOrder(list, index - last);
    }
    if episode.Some? {
      episode := Some(episode.value.(order := index));
    }
    if episode.None? && alt != -1.0 {
      episode := PickByOrder(list, alt);
      if episode.Some? {
        episode := Some(episode.value.(order := alt));
      }
    }
    if episode.None? && alt != -1.0 {
      episode := PickByOrder(list, alt - last);
      if episode.Some? {
        episode := Some(episode.value.(order := alt));
      }
    }
  }

  /** The match is an episode of the season with only its order changed, to the index
      or to the alternative number; the index is preferred whenever an episode has the
      index, or the index less the earlier count, as its order. */
  lemma MatchInSeasonRewritesOrder(list: seq<Episode>, index: real, alt: real, last: real)
    requires MatchInSeason(list, index, alt, last).Some?
    ensures var m := MatchInSeason(list, index, alt, last).value;
      (m.order == index || (alt != -1.0 && m.order == alt))
      && exists e :: e in list && m == e.(order := m.order)
    ensures (exists e :: e in list && (e.order == index || e.order == index - last)) ==>
      MatchInSeason(list, index, alt, last).value.order == index
  {
    var m := MatchInSeason(list, index, alt, last).value;
    if PickByOrder(list, index).Some? {
      PickIsInList(list, index);
      assert PickByOrder(list, index).value.(order := m.order) == m;
    } else if PickByOrder(list, index - last).Some? {
      PickIsInList(list, index - last);
      assert PickByOrder(list, index - last).value.(order := m.order) == m;
    } else {
      PickByOrderIsBestMatch(list, index);
      PickByOrderIsBestMatch(list, index - last);
      if PickByOrder(list, alt).Some? {
        PickIsInList(list, alt);
        assert PickByOrder(list, alt).value.(order := m.order) == m;
      } else {
        PickIsInList(list, alt - last);
        assert PickByOrder(list, alt - last).value.(order := m.order) == m;
      }
    }
  }

  /** Lines 184-203, once the sequel `next` is chosen. */
  function EnterSeason(api: BangumiApi, index: real, alt: real, count: real, next: int): Hop {
    var list := Candidates(api, next, Some(Normal), index);
    if |list| == 0 then Stop(Ok(None))
    else
      match First(Candidates(api, next, Some(Normal), 0.0))
      case Err(e) => Stop(Err(e))
      case Ok(firstEpisode) =>
        var newCount := CountAfter(list, firstEpisode.order, count);
        if index > newCount || alt > newCount then Continue(WalkState(next, next, newCount))
        else Stop(Ok(MatchInSeason(Renumbered(list, firstEpisode.order, count), index, alt, count)))
  }

  /** One pass from the `nextSeason` label. */
  function HopFrom(api: BangumiApi, index: real, alt: real, s: WalkState): Hop {
    match api.getRelatedSubject(s.seriesId)
    case None => Stop(Ok(None))
    case Some(related) =>
      var next := SequelId(related, s.subjectId);
      if s.seriesId == next then Stop(Ok(None))
      else EnterSeason(api, index, alt, s.count, next)
  }

  /** The walk, cut off after `fuel` passes. Only First on an empty season throws;
      running out of passes stands for a walk that never ends. */
  function Walk(api: BangumiApi, index: real, alt: real, s: WalkState, fuel: nat): (r: Result<Option<Episode>>)
    ensures r.Err? ==> r.error == InvalidOperationException || r.error == NoTermination
    decreases fuel
  {
    if fuel == 0 then Err(NoTermination)
    else
      match HopFrom(api, index, alt, s)
      case Stop(r) => r
      case Continue(n) => Walk(api, index, alt, n, fuel - 1)
  }

  /** What rule02 returns, when it is given `fuel` passes of the walk. It throws
      FormatException exactly when the alternative number does not parse, and
      otherwise only what Last and the walk throw. */
  function Rule02Result(api: BangumiApi, seriesId: int, index: real, tokens: AnitomyTokens, fuel: nat)
    : (r: Result<Option<Episode>>)
    ensures r == Err(FormatException) <==> ParseDouble(tokens.episodeNumberAlt.GetOr("-1")).None?
    ensures r.Err? ==> r.error in {FormatException, InvalidOperationException, NoTermination}
  {
    match ParseDouble(tokens.episodeNumberAlt.GetOr("-1"))
    case None => Err(FormatException)
    case Some(alt) =>
      match Last(Candidates(api, seriesId, Some(Normal), index))
      case Err(e) => Err(e)
      case Ok(lastEpisode) =>
        if index <= lastEpisode.order && alt <= lastEpisode.order then Ok(None)
        else Walk(api, index, alt, WalkState(seriesId, 0, lastEpisode.order), fuel)
  }

  lemma WalkUnfolds(api: BangumiApi, index: real, alt: real, s: WalkState, fuel: nat, hop: Hop)
    requires fuel > 0 && hop == HopFrom(api, index, alt, s)
    ensures hop.Stop? ==> Walk(api, index, alt, s, fuel) == hop.result
    ensures hop.Continue? ==> Walk(api, index, alt, s, fuel) == Walk(api, index, alt, hop.next, fuel - 1)
  {
  }

  lemma Rule02Unfolds(api: BangumiApi, seriesId: int, index: real, tokens: AnitomyTokens, fuel: nat)
    requires ParseDouble(tokens.episodeNumberAlt.GetOr("-1")).Some?
    requires Candidates(api, seriesId, Some(Normal), index) != []
    ensures var alt := ParseDouble(tokens.episodeNumberAlt.GetOr("-1")).value;
      var l := Candidates(api, seriesId, Some(Normal), index);
      var count := l[|l| - 1].order;
      Rule02Result(api, seriesId, index, tokens, fuel)
      == if index <= count && alt <= count then Ok(None) else Walk(api, index, alt, WalkState(seriesId, 0, count), fuel)
  {
  }

  /** One pass from the `nextSeason` label, as lines 168-226 make it. */
  method NextSeason(api: BangumiApi, index: real, alt: real, s: WalkState) returns (hop: Hop)
    ensures hop == HopFrom(api, index, alt, s)
  {
    var results := api.getRelatedSubject(s.seriesId);
    if results.None? {
      return Stop(Ok(None));
    }
    var subjectId := FindSequel(results.value, s.subjectId);
    if s.seriesId == subjectId {
      return Stop(Ok(None));
    }
    var seriesId := subjectId;
    var list := Candidates(api, seriesId, Some(Normal), index);
    if |list| == 0 {
      return Stop(Ok(None));
    }
    var firstList := Candidates(api, seriesId, Some(Normal), 0.0);
    if |firstList| == 0 {
      return Stop(Err(InvalidOperationException));
    }
    var firstOrder := firstList[0].order;
    var lastSeasonEpisodeOrder := s.count;
    var unshifted := list;
    if firstOrder == 1.0 {
      firstOrder := firstOrder + s.count;
      list := ShiftOrders(list, s.count);
    }
    var count := lastSeasonEpisodeOrder + list[|list| - 1].order - firstOrder + 1.0;
    assert count == CountAfter(unshifted, firstList[0].order, s.count);
    if index > count || alt > count {
      return Continue(WalkState(seriesId, subjectId, count));
    }
    var episode := MatchSeason(list, index, alt, lastSeasonEpisodeOrder);
    return Stop(Ok(episode));
  }

  /** rule02. The source loops back to `nextSeason` for as long as the sequels lead on;
      here the walk gives up with NoTermination after `fuel` passes. */
  method Rule02(api: BangumiApi, seriesId: int, index: real, tokens: AnitomyTokens, fuel: nat)
    returns (r: Result<Option<Episode>>)
    ensures r == Rule02Result(api, seriesId, index, tokens, fuel)
  {
    var altParsed := ParseDouble(tokens.episodeNumberAlt.GetOr("-1"));
    if altParsed.None? {
      return Err(FormatException);
    }
    var alt := altParsed.value;
    var list := Candidates(api, seriesId, Some(Normal), index);
    if |list| == 0 {
      return Err(InvalidOperationException);
    }
    Rule02Unfolds(api, seriesId, index, tokens, fuel);
    var seasonEpisodeCount := list[|list| - 1].order;
    if index <= seasonEpisodeCount && alt <= seasonEpisodeCount {
      return Ok(None);
    }
    r := WalkSeasons(api, index, alt, WalkState(seriesId, 0, seasonEpisodeCount), fuel);
  }

  /** The `goto nextSeason` loop of rule02, given `fuel` passes. */
  method WalkSeasons(api: BangumiApi, index: real, alt: real, start: WalkState, fuel: nat)
    returns (r: Result<Option<Episode>>)
    ensures r == Walk(api, index, alt, start, fuel)
  {
    var s := start;
    var f := fuel;
    while true
      invariant Walk(api, index, alt, s, f) == Walk(api, index, alt, start, fuel)
      decreases f
    {
      if f == 0 {
        return Err(NoTermination);
      }
      var hop := NextSeason(api, index, alt, s);
      WalkUnfolds(api, index, alt, s, f, hop);
      if hop.Stop? {
        return hop.result;
      }
      s := hop.next;
      f := f - 1;
    }
  }

  /** The walk's match has the index or the alternative number as its order. */
  lemma {:induction false} WalkFindsRequestedOrder(api: BangumiApi, index: real, alt: real, s: WalkState, fuel: nat)
    requires Walk(api, index, alt, s, fuel).Ok? && Walk(api, index, alt, s, fuel).value.Some?
    ensures var e := Walk(api, index, alt, s, fuel).value.value;
      e.order == index || (alt != -1.0 && e.order == alt)
    decreases fuel
  {
    match HopFrom(api, index, alt, s)
    case Continue(n) => WalkFindsRequestedOrder(api, index, alt, n, fuel - 1);
    case Stop(r) =>
      var related := api.getRelatedSubject(s.seriesId).value;
      var next := SequelId(related, s.subjectId);
      var list := Candidates(api, next, Some(Normal), index);
      var first := Candidates(api, next, Some(Normal), 0.0)[0].order;
      MatchInSeasonRewritesOrder(Renumbered(list, first, s.count), index, alt, s.count);
  }

  /** With no alternative number rule02 reads "-1", which parses to -1. */
  lemma NoAltIsMinusOne()
    ensures ParseDouble("-1") == Some(-1.0)
  {
    assert TrimStartWhere("-1", IsNumberWhite) == "-1";
    assert TrimEndWhere("-1", IsNumberWhite) == "-1";
    assert "-1"[1..] == "1";
    assert DigitsValue("1") == 1 by {
      assert "1"[..0] == "";
    }
  }

  /** rule02's match has the index or the alternative number as its order. */
  lemma Rule02FindsRequestedOrder(api: BangumiApi, seriesId: int, index: real, tokens: AnitomyTokens, fuel: nat)
    requires Rule02Result(api, seriesId, index, tokens, fuel).Ok? && Rule02Result(api, seriesId, index, tokens, fuel).value.Some?
    ensures var e := Rule02Result(api, seriesId, index, tokens, fuel).value.value;
      e.order == index || (tokens.episodeNumberAlt.Some? && ParseDouble(tokens.episodeNumberAlt.value) == Some(e.order))
  {
    var alt := ParseDouble(tokens.episodeNumberAlt.GetOr("-1")).value;
    if tokens.episodeNumberAlt.None? {
      NoAltIsMinusOne();
    }
    var first := Candidates(api, seriesId, Some(Normal), index);
    WalkFindsRequestedOrder(api, index, alt, WalkState(seriesId, 0, first[|first| - 1].order), fuel);
  }

  /** When both numbers lie within the first season, rule02 finds nothing and never
      asks for related subjects. */
  lemma Rule02StaysInSeason(api: BangumiApi, seriesId: int, index: real, tokens: AnitomyTokens, fuel: nat,
                            related: int -> Option<seq<Subject>>)
    requires ParseDouble(tokens.episodeNumberAlt.GetOr("-1")).Some?
    requires Candidates(api, seriesId, Some(Normal), index) != []
    requires var l := Candidates(api, seriesId, Some(Normal), index);
      var alt := ParseDouble(tokens.episodeNumberAlt.GetOr("-1")).value;
      index <= l[|l| - 1].order && alt <= l[|l| - 1].order
    ensures Rule02Result(api, seriesId, index, tokens, fuel) == Ok(None)
    ensures Rule02Result(api.(getRelatedSubject := related), seriesId, index, tokens, fuel) == Ok(None)
  {
  }

  /** A subject with no sequel ends the walk once a sequel has been followed: the id
      found last is kept, equals the current subject, and the walk returns null. */
  lemma WalkStopsAtDeadEnd(api: BangumiApi, index: real, alt: real, s: WalkState, fuel: nat)
    requires fuel > 0 && s.subjectId == s.seriesId && api.getRelatedSubject(s.seriesId).Some?
    requires forall j :: 0 <= j < |api.getRelatedSubject(s.seriesId).value| ==> !IsSequel(api.getRelatedSubject(s.seriesId).value[j])
    ensures Walk(api, index, alt, s, fuel) == Ok(None)
  {
    SequelIdWithoutSequel(api.getRelatedSubject(s.seriesId).value, s.subjectId);
  }

  /** On the first pass no sequel means the kept id is 0: the walk goes on into
      subject 0 rather than stopping. */
  lemma FirstPassWithoutSequelEntersSubjectZero(api: BangumiApi, index: real, alt: real, s: WalkState)
    requires s.subjectId == 0 && s.seriesId != 0 && api.getRelatedSubject(s.seriesId).Some?
    requires forall j :: 0 <= j < |api.getRelatedSubject(s.seriesId).value| ==> !IsSequel(api.getRelatedSubject(s.seriesId).value[j])
    ensures HopFrom(api, index, alt, s) == EnterSeason(api, index, alt, s.count, 0)
  {
    SequelIdWithoutSequel(api.getRelatedSubject(s.seriesId).value, s.subjectId);
  }

  /** The first sequel is followed, and the walk then looks for that sequel's own
      sequel, from the renumbered count. */
  lemma HopFollowsFirstSequel(api: BangumiApi, index: real, alt: real, s: WalkState, i: nat)
    requires api.getRelatedSubject(s.seriesId).Some?
    requires var related := api.getRelatedSubject(s.seriesId).value;
      i < |related| && IsSequel(related[i]) && (forall j :: 0 <= j < i ==> !IsSequel(related[j]))
      && related[i].id as int != s.seriesId
    ensures HopFrom(api, index, alt, s)
      == EnterSeason(api, index, alt, s.count, api.getRelatedSubject(s.seriesId).value[i].id as int)
  {
    SequelIdIsFirstSequel(api.getRelatedSubject(s.seriesId).value, s.subjectId, i);
  }

  /** A sequel whose episode list spans no episodes: it is non-empty, its first episode
      (asked for with index 0) does not have order 1, and its last order is one less
      than that first order, so entering it leaves the running count where it was. */
  predicate ZeroSpanSeason(api: BangumiApi, id: int, index: real) {
    var list := Candidates(api, id, Some(Normal), index);
    list != []
    && First(Candidates(api, id, Some(Normal), 0.0)).Ok?
    && First(Candidates(api, id, Some(Normal), 0.0)).value.order != 1.0
    && list[|list| - 1].order == First(Candidates(api, id, Some(Normal), 0.0)).value.order - 1.0
  }

  /** Nothing guards the walk against a cycle of sequels: two subjects that name each
      other as sequel, with seasons that do not move the count, send the walk back and
      forth for as long as it is allowed to run when the index lies beyond the count. */
  lemma {:induction false} SequelCycleNeverEnds(api: BangumiApi, index: real, alt: real, a: Subject, b: Subject,
                                                s: WalkState, fuel: nat)
    requires IsSequel(a) && IsSequel(b) && a.id != b.id
    requires api.getRelatedSubject(a.id) == Some([b]) && api.getRelatedSubject(b.id) == Some([a])
    requires ZeroSpanSeason(api, a.id, index) && ZeroSpanSeason(api, b.id, index)
    requires s.seriesId == a.id as int || s.seriesId == b.id as int
    requires index > s.count
    ensures Walk(api, index, alt, s, fuel) == Err(NoTermination)
    decreases fuel
  {
    if fuel > 0 {
      var next := if s.seriesId == a.id as int then b else a;
      assert SequelId(api.getRelatedSubject(s.seriesId).value, s.subjectId) == next.id as int;
      var list := Candidates(api, next.id, Some(Normal), index);
      var first := First(Candidates(api, next.id, Some(Normal), 0.0)).value;
      assert CountAfter(list, first.order, s.count) == s.count;
      var n := WalkState(next.id, next.id, s.count);
      assert HopFrom(api, index, alt, s) == Continue(n);
      SequelCycleNeverEnds(api, index, alt, a, b, n, fuel - 1);
    }
  }

  // ---------------------------------------------------------------------------
  // GetEpisode

  /** The subject GetEpisode searches: ProcessMultiSeasonFolder's when
      AlwaysProcessMultiSeasonFolderByAnitomySharp is set. */
  function SubjectOf(c: Context, seriesId: int): int {
    if c.config.alwaysProcessMultiSeasonFolderByAnitomySharp then c.multiSeasonFolderId else seriesId
  }

  /** rule01, then rule02 when rule01 found nothing and the type is Normal or null. */
  function Matched(c: Context, seriesId: int, index: real, t: Option<EpisodeType>, fuel: nat): Result<Option<Episode>> {
    match Rule01Result(c.api, seriesId, index, c.tokens, t)
    case Err(e) => Err(e)
    case Ok(found) =>
      if found.None? && IsNormalOrNull(t) then Rule02Result(c.api, seriesId, index, c.tokens, fuel) else Ok(found)
  }

  /** The rules throw only a FormatException, an InvalidOperationException or, when the
      walk runs out of fuel, NoTermination. */
  lemma MatchedErrors(c: Context, seriesId: int, index: real, t: Option<EpisodeType>, fuel: nat)
    ensures var m := Matched(c, seriesId, index, t, fuel);
      m.Err? ==> m.error in {FormatException, InvalidOperationException, NoTermination}
  {
  }

  /** The episode made up for a file neither rule places. */
  function SpecialEpisode(t: Option<EpisodeType>, index: real, title: string): Episode {
    NewEpisode().(episodeType := t.GetOr(Special), order := index, originalNameRaw := title)
  }

  /** What GetEpisode makes of the match: an InvalidOperationException gives null, other
      exceptions leave; a found episode with both names empty is given the made-up
      title; no episode gives a made-up one. */
  function Finished(found: Result<Option<Episode>>, t: Option<EpisodeType>, index: real, title: string): Result<Option<Episode>> {
    match found
    case Err(e) => if e == InvalidOperationException then Ok(None) else Err(e)
    case Ok(None) => Ok(Some(SpecialEpisode(t, index, title)))
    case Ok(Some(e)) =>
      Ok(Some(if e.chineseNameRaw == Some("") && e.originalNameRaw == "" then e.(originalNameRaw := title) else e))
  }

  /** What GetEpisode returns, with `fuel` passes of the season walk. The catch lets no
      InvalidOperationException out: what leaves is a number that does not parse, or a
      walk that does not end. */
  function EpisodeOf(c: Context, seriesId: int, index: real, fuel: nat): (r: Result<Option<Episode>>)
    ensures r.Err? ==> r.error == FormatException || r.error == NoTermination
  {
    var fileType := GetEpisodeType(c.mapping, c.tokens, c.folderName);
    var title := TitleOfSpecialEpisode(c.tokens, fileType.anitomyType);
    MatchedErrors(c, SubjectOf(c, seriesId), index, fileType.bangumiType, fuel);
    Finished(Matched(c, SubjectOf(c, seriesId), index, fileType.bangumiType, fuel), fileType.bangumiType, index, title)
  }

  /** Lines 53-58: rule01, and rule02 after it when it found nothing for a Normal or
      untyped file. */
  method MatchEpisode(c: Context, seriesId: int, index: real, t: Option<EpisodeType>, fuel: nat)
    returns (episode: Result<Option<Episode>>)
    ensures episode == Matched(c, seriesId, index, t, fuel)
  {
    episode := Rule01(c.api, seriesId, index, c.tokens, t);
    if episode == Ok(None) && IsNormalOrNull(t) {
      episode := Rule02(c.api, seriesId, index, c.tokens, fuel);
    }
  }

  /** Lines 60-82: the title for a nameless match, the made-up episode, and the catch. */
  method Finish(episode: Result<Option<Episode>>, t: Option<EpisodeType>, index: real, title: string)
    returns (r: Result<Option<Episode>>)
    ensures r == Finished(episode, t, index, title)
  {
    if episode.Err? {
      if episode.error == InvalidOperationException {
        return Ok(None);
      }
      return Err(episode.error);
    }
    if episode.value.Some? {
      var e := episode.value.value;
      if e.chineseNameRaw == Some("") && e.originalNameRaw == "" {
        e := e.(originalNameRaw := title);
      }
      return Ok(Some(e));
    }
    var sp := NewEpisode();
    sp := sp.(episodeType := t.GetOr(Special));
    sp := sp.(order := index);
    sp := sp.(originalNameRaw := title);
    return Ok(Some(sp));
  }

  /** GetEpisode. */
  method GetEpisode(c: Context, seriesId: int, episodeIndex: real, fuel: nat) returns (r: Result<Option<Episode>>)
    ensures r == EpisodeOf(c, seriesId, episodeIndex, fuel)
  {
    var fileType := GetEpisodeType(c.mapping, c.tokens, c.folderName);
    var subject := seriesId;
    if c.config.alwaysProcessMultiSeasonFolderByAnitomySharp {
      subject := c.multiSeasonFolderId;
    }
    var episode := MatchEpisode(c, subject, episodeIndex, fileType.bangumiType, fuel);
    var title := TitleOfSpecialEpisode(c.tokens, fileType.anitomyType);
    r := Finish(episode, fileType.bangumiType, episodeIndex, title);
  }

  /** GetEpisode returns null exactly when rule01 found nothing for a Normal or untyped
      file and rule02 threw InvalidOperationException (an empty first season). */
  lemma NullOnlyFromInvalidOperation(c: Context, seriesId: int, index: real, fuel: nat)
    ensures var t := GetEpisodeType(c.mapping, c.tokens, c.folderName).bangumiType;
      var s := SubjectOf(c, seriesId);
      EpisodeOf(c, seriesId, index, fuel) == Ok(None) <==>
        Rule01Result(c.api, s, index, c.tokens, t) == Ok(None) && IsNormalOrNull(t)
        && Rule02Result(c.api, s, index, c.tokens, fuel) == Err(InvalidOperationException)
  {
    var ft := GetEpisodeType(c.mapping, c.tokens, c.folderName);
    var s := SubjectOf(c, seriesId);
    FinishedNullOnlyOnCatch(Matched(c, s, index, ft.bangumiType, fuel), ft.bangumiType, index,
                            TitleOfSpecialEpisode(c.tokens, ft.anitomyType));
    MatchedInvalidOperation(c, s, index, ft.bangumiType, fuel);
  }

  /** The catch is the only way to null. */
  lemma FinishedNullOnlyOnCatch(found: Result<Option<Episode>>, t: Option<EpisodeType>, index: real, title: string)
    ensures Finished(found, t, index, title) == Ok(None) <==> found == Err(InvalidOperationException)
  {
  }

  /** rule01 never throws InvalidOperationException, so the match throws it only from
      rule02, after rule01 found nothing for a Normal or untyped file. */
  lemma MatchedInvalidOperation(c: Context, seriesId: int, index: real, t: Option<EpisodeType>, fuel: nat)
    ensures Matched(c, seriesId, index, t, fuel) == Err(InvalidOperationException) <==>
      Rule01Result(c.api, seriesId, index, c.tokens, t) == Ok(None) && IsNormalOrNull(t)
      && Rule02Result(c.api, seriesId, index, c.tokens, fuel) == Err(InvalidOperationException)
  {
  }

  /** When no rule places the file, the result is a made-up episode: id 0, the file's
      type or Special, the index as its order, and the made-up title. */
  lemma UnplacedFileIsMadeUp(c: Context, seriesId: int, index: real, fuel: nat)
    requires var t := GetEpisodeType(c.mapping, c.tokens, c.folderName).bangumiType;
      Matched(c, SubjectOf(c, seriesId), index, t, fuel) == Ok(None)
    ensures var ft := GetEpisodeType(c.mapping, c.tokens, c.folderName);
      var e := EpisodeOf(c, seriesId, index, fuel);
      e.Ok? && e.value.Some? && e.value.value.id == 0 && e.value.value.order == index
      && e.value.value.episodeType == ft.bangumiType.GetOr(Special)
      && e.value.value.originalNameRaw == TitleOfSpecialEpisode(c.tokens, ft.anitomyType)
  {
  }

  /** A file of a type other than Normal whose subject offers no episode to search is
      made up, whatever Anitomy's alternative number is: the number is parsed only
      against an episode, so an unparsable one does not throw here. */
  lemma NothingToSearchIsMadeUp(c: Context, seriesId: int, index: real, fuel: nat)
    requires var t := GetEpisodeType(c.mapping, c.tokens, c.folderName).bangumiType;
      !IsNormalOrNull(t) && Rule01List(c.api, SubjectOf(c, seriesId), index, t) == []
    ensures var ft := GetEpisodeType(c.mapping, c.tokens, c.folderName);
      EpisodeOf(c, seriesId, index, fuel) == Ok(Some(SpecialEpisode(ft.bangumiType, index, TitleOfSpecialEpisode(c.tokens, ft.anitomyType))))
  {
    var ft := GetEpisodeType(c.mapping, c.tokens, c.folderName);
    var s := SubjectOf(c, seriesId);
    Rule01OnEmptyList(c.api, s, index, c.tokens, ft.bangumiType);
    assert Matched(c, s, index, ft.bangumiType, fuel) == Ok(None);
  }

  /** With no episode to search, rule01 finds nothing and throws nothing. */
  lemma Rule01OnEmptyList(api: BangumiApi, seriesId: int, index: real, tokens: AnitomyTokens, t: Option<EpisodeType>)
    requires Rule01List(api, seriesId, index, t) == []
    ensures Rule01Result(api, seriesId, index, tokens, t) == Ok(None)
  {
    var l := Rule01List(api, seriesId, index, t);
    PickByOrderIsBestMatch(l, index);
    if tokens.episodeNumberAlt.Some? && ParseDouble(tokens.episodeNumberAlt.value).Some? {
      PickByOrderIsBestMatch(l, ParseDouble(tokens.episodeNumberAlt.value).value);
    }
  }

  /** rule02 is consulted only when rule01 found nothing for a Normal or untyped file:
      otherwise the result does not depend on the walk at all. */
  lemma Rule02OnlyAfterRule01Misses(c: Context, seriesId: int, index: real, fuel1: nat, fuel2: nat,
                                    related: int -> Option<seq<Subject>>)
    requires var t := GetEpisodeType(c.mapping, c.tokens, c.folderName).bangumiType;
      Rule01Result(c.api, SubjectOf(c, seriesId), index, c.tokens, t) != Ok(None) || !IsNormalOrNull(t)
    ensures EpisodeOf(c, seriesId, index, fuel1) == EpisodeOf(c, seriesId, index, fuel2)
    ensures EpisodeOf(c.(api := c.api.(getRelatedSubject := related)), seriesId, index, fuel1)
            == EpisodeOf(c, seriesId, index, fuel1)
  {
    var t := GetEpisodeType(c.mapping, c.tokens, c.folderName).bangumiType;
    MatchedWithoutWalk(c, SubjectOf(c, seriesId), index, t, fuel1, fuel2, related);
  }

  /** Matched, when rule01 decides it, depends neither on the fuel nor on the related
      subjects. */
  lemma MatchedWithoutWalk(c: Context, subject: int, index: real, t: Option<EpisodeType>, fuel1: nat, fuel2: nat,
                           related: int -> Option<seq<Subject>>)
    requires Rule01Result(c.api, subject, index, c.tokens, t) != Ok(None) || !IsNormalOrNull(t)
    ensures Matched(c, subject, index, t, fuel1) == Matched(c, subject, index, t, fuel2)
    ensures Matched(c.(api := c.api.(getRelatedSubject := related)), subject, index, t, fuel1)
            == Matched(c, subject, index, t, fuel1)
  {
    var api' := c.api.(getRelatedSubject := related);
    assert Candidates(api', subject, t, index) == Candidates(c.api, subject, t, index);
    assert Candidates(api', subject, None, index) == Candidates(c.api, subject, None, index);
    assert Rule01List(api', subject, index, t) == Rule01List(c.api, subject, index, t);
  }
}
