/** EpisodeProvider.GetMetadata: turns the episode the basic parser resolves into the
    host library's episode item. The item is filled in field by field; a normal episode
    that sits in a numbered season stops there, and any other episode is filed under
    season 0 and told where it airs relative to its series. */
module EpisodeProvider {
  import opened Wrappers
  import opened Text
  import opened Configuration
  import opened EpisodeModel
  import opened SubjectModel
  import opened Collaborators
  import BasicEpisodeParser

  /** The host library's episode item, reduced to the fields GetMetadata sets. `None`
      is a null field. */
  datatype Item = Item(
    providerIds: map<string, string>,
    productionYear: Option<Int32>,
    name: Option<string>,
    originalTitle: Option<string>,
    indexNumber: Option<int>,
    overview: Option<string>,
    parentIndexNumber: Option<Int32>,
    seasonId: Option<nat>,
    airsBeforeEpisodeNumber: Option<Int32>,
    airsAfterSeasonNumber: Option<Int32>)

  /** `new Episode()`: no provider ids and every other field null. */
  function NewItem(): Item {
    Item(map[], None, None, None, None, None, None, None, None, None)
  }

  /** MetadataResult: whether metadata was found, and the item when it was. */
  datatype MetadataResult = MetadataResult(hasMetadata: bool, item: Option<Item>)

  /** Everything GetMetadata reads. `local` is the folder's override file, `parent` the
      library item at the file's folder, `anitomyNumber` Anitomy's episode number for
      the file name, `decode` WebUtility.HtmlDecode and `cancelled` the state of the
      cancellation token. */
  datatype Request = Request(
    config: PluginConfiguration,
    api: BangumiApi,
    info: EpisodeInfo,
    local: LocalConfiguration,
    parent: Option<LibraryItem>,
    anitomyNumber: Option<string>,
    decode: string -> string,
    cancelled: bool)

  /** The episode the basic parser resolves for the request. */
  function Resolved(q: Request): Result<Option<Episode>> {
    BasicEpisodeParser.Resolve(q.config, q.api, q.info, q.local, q.parent, q.anitomyNumber)
  }

  // ---------------------------------------------------------------------------
  // Filling the item from the episode

  /** `(int)x` on a double: truncation toward zero. */
  function TruncateToInt(x: real): (r: int)
    ensures 0.0 <= x ==> r as real <= x < r as real + 1.0
    ensures x < 0.0 ==> r as real - 1.0 < x <= r as real
  {
    if x >= 0.0 then x.Floor else -((-x).Floor)
  }

  /** The production year: `int.Parse` of an air date exactly four characters long
      (which throws FormatException unless it is a number), null otherwise. */
  function ProductionYearOf(airDate: string): Result<Option<Int32>> {
    if |airDate| != 4 then Ok(None)
    else
      match ParseInt32(Some(airDate))
      case None => Err(FormatException)
      case Some(y) => Ok(Some(y))
  }

  /** The overview: the episode's description, null when it is null or empty. */
  function OverviewOf(description: Option<string>): Option<string> {
    if IsNullOrEmpty(description) then None else description
  }

  /** The item as it stands once the episode's own data is copied in. */
  function EpisodeItem(q: Request, e: Episode, year: Option<Int32>): Item {
    NewItem().(
      providerIds := map[ProviderName := IntToString(e.id)],
      productionYear := year,
      name := Some(e.GetName(Some(q.config), q.decode)),
      originalTitle := Some(e.OriginalName(q.decode)),
      indexNumber := Some(TruncateToInt(e.order) + q.local.offset),
      overview := OverviewOf(e.description),
      parentIndexNumber := Some(q.info.parentIndexNumber.GetOr(1)))
  }

  /** The item is filed under season 0 outright: the file name is a special's, the
      episode is a special, or the library already puts the file in season 0. */
  predicate FiledAsSpecial(q: Request, e: Episode) {
    BasicEpisodeParser.IsSpecial(q.info.path, false) || e.episodeType == Special
    || q.info.parentIndexNumber == Some(0)
  }

  predicate ParentIsSeason(q: Request) {
    q.parent.Some? && q.parent.value.Season?
  }

  /** The item once it is placed in the library: season 0 for a special, otherwise
      the parent season's id and number when the parent is a season. */
  function Placed(q: Request, e: Episode, item: Item): Item {
    if FiledAsSpecial(q, e) then item.(parentIndexNumber := Some(0))
    else if ParentIsSeason(q) then
      var season := q.parent.value;
      item.(seasonId := Some(season.id),
            parentIndexNumber := if season.indexNumber.Some? then season.indexNumber else item.parentIndexNumber)
    else item
  }

  /** A normal episode in a season numbered above 0 needs nothing more. */
  predicate StaysInSeason(e: Episode, item: Item) {
    e.episodeType == Normal && item.parentIndexNumber.Some? && item.parentIndexNumber.value > 0
  }

  // ---------------------------------------------------------------------------
  // Special episodes

  /** The season number a special is placed against: the parent season's number
      (which may be null) when the parent is a season, 1 otherwise. */
  function SeasonNumber(q: Request): Option<Int32> {
    if ParentIsSeason(q) then q.parent.value.indexNumber else Some(1)
  }

  /** The episode aired before its series: it has an air date and that date is
      ordinally less than the series' (a null series date is never greater). */
  predicate AiredBefore(e: Episode, series: Subject) {
    e.airDate != "" && series.AirDate().Some? && OrdinalLess(e.airDate, series.AirDate().value)
  }

  /** The special's item: season 0, and, when the episode's subject is found, empty
      names taken from that subject and the airs-before or airs-after number set. */
  function AsSpecial(q: Request, e: Episode, item: Item): Item {
    var marked := item.(parentIndexNumber := Some(0));
    match q.api.getSubject(e.parentId)
    case None => marked
    case Some(series) =>
      var named := if IsNullOrEmpty(marked.name) then marked.(name := Some(series.GetName(Some(q.config), q.decode))) else marked;
      var titled := if IsNullOrEmpty(named.originalTitle) then named.(originalTitle := Some(series.OriginalName(q.decode))) else named;
      if AiredBefore(e, series) then titled.(airsBeforeEpisodeNumber := SeasonNumber(q))
      else titled.(airsAfterSeasonNumber := SeasonNumber(q))
  }

  /** The item GetMetadata returns for the episode `e`, given its production year. It
      carries the episode's id as its only provider id, and it is either a normal
      episode in a season numbered above 0 or filed under season 0. */
  function ItemFor(q: Request, e: Episode, year: Option<Int32>): (r: Item)
    ensures r.providerIds == map[ProviderName := IntToString(e.id)]
    ensures StaysInSeason(e, r) || r.parentIndexNumber == Some(0)
  {
    var filled := EpisodeItem(q, e, year);
    var placed := Placed(q, e, filled);
    PlacedKeeps(q, e, filled);
    if StaysInSeason(e, placed) then placed
    else
      AsSpecialKeeps(q, e, placed);
      AsSpecial(q, e, placed)
  }

  /** What GetMetadata returns. A result has metadata exactly when it has an item; the
      exceptions that leave are the cancellation and what the parser and int.Parse
      throw. */
  function Metadata(q: Request): (r: Result<MetadataResult>)
    ensures r.Ok? ==> (r.value.hasMetadata <==> r.value.item.Some?)
    ensures r.Err? ==> r.error in {OperationCanceledException, InvalidOperationException, FormatException}
  {
    if q.cancelled then Err(OperationCanceledException)
    else
      match Resolved(q)
      case Err(x) => Err(x)
      case Ok(None) => Ok(MetadataResult(false, None))
      case Ok(Some(e)) =>
        match ProductionYearOf(e.airDate)
        case Err(x) => Err(x)
        case Ok(year) => Ok(MetadataResult(true, Some(ItemFor(q, e, year))))
  }

  // ---------------------------------------------------------------------------
  // GetMetadata

  /** Lines 47-48: the production year. */
  method ReadProductionYear(airDate: string) returns (r: Result<Option<Int32>>)
    ensures r == ProductionYearOf(airDate)
  {
    r := Ok(None);
    if |airDate| == 4 {
      var year := ParseInt32(Some(airDate));
      if year.None? {
        return Err(FormatException);
      }
      r := Ok(year);
    }
  }

  /** Lines 41-54: the episode's own data. */
  method FillFromEpisode(q: Request, e: Episode) returns (r: Result<Item>)
    ensures r.Err? <==> ProductionYearOf(e.airDate).Err?
    ensures r.Err? ==> r.error == FormatException
    ensures r.Ok? ==> r.value == EpisodeItem(q, e, ProductionYearOf(e.airDate).value)
  {
    var year := ReadProductionYear(e.airDate);
    if year.Err? {
      return Err(year.error);
    }
    var item := NewItem();
    item := item.(providerIds := item.providerIds[ProviderName := IntToString(e.id)]);
    item := item.(productionYear := year.value);
    item := item.(name := Some(e.GetName(Some(q.config), q.decode)));
    item := item.(originalTitle := Some(e.OriginalName(q.decode)));
    item := item.(indexNumber := Some(TruncateToInt(e.order) + q.local.offset));
    item := item.(overview := if IsNullOrEmpty(e.description) then None else e.description);
    item := item.(parentIndexNumber := Some(if q.info.parentIndexNumber.Some? then q.info.parentIndexNumber.value else 1));
    return Ok(item);
  }

  /** Lines 56-66: the placement in the library. */
  method Place(q: Request, e: Episode, item: Item) returns (r: Item)
    ensures r == Placed(q, e, item)
  {
    r := item;
    if BasicEpisodeParser.IsSpecial(q.info.path, false) || e.episodeType == Special || q.info.parentIndexNumber == Some(0) {
      r := r.(parentIndexNumber := Some(0));
    } else if q.parent.Some? && q.parent.value.Season? {
      var season := q.parent.value;
      r := r.(seasonId := Some(season.id));
      if season.indexNumber.Some? {
        r := r.(parentIndexNumber := season.indexNumber);
      }
    }
  }

  /** Lines 71-89: a special episode. */
  method MarkSpecial(q: Request, e: Episode, item: Item) returns (r: Item)
    ensures r == AsSpecial(q, e, item)
  {
    r := item.(parentIndexNumber := Some(0));
    var series := q.api.getSubject(e.parentId);
    if series.None? {
      return;
    }
    if IsNullOrEmpty(r.name) {
      r := r.(name := Some(series.value.GetName(Some(q.config), q.decode)));
    }
    if IsNullOrEmpty(r.originalTitle) {
      r := r.(originalTitle := Some(series.value.OriginalName(q.decode)));
    }
    var seasonNumber := if q.parent.Some? && q.parent.value.Season? then q.parent.value.indexNumber else Some(1);
    var seriesDate := series.value.AirDate();
    if e.airDate != "" && seriesDate.Some? && OrdinalLess(e.airDate, seriesDate.value) {
      r := r.(airsBeforeEpisodeNumber := seasonNumber);
    } else {
      r := r.(airsAfterSeasonNumber := seasonNumber);
    }
  }

  /** GetMetadata. */
  method GetMetadata(q: Request) returns (r: Result<MetadataResult>)
    ensures r == Metadata(q)
  {
    if q.cancelled {
      return Err(OperationCanceledException);
    }
    var episode := BasicEpisodeParser.GetEpisode(q.config, q.api, q.info, q.local, q.parent, q.anitomyNumber);
    if episode.Err? {
      return Err(episode.error);
    }
    if episode.value.None? {
      return Ok(MetadataResult(false, None));
    }
    var e := episode.value.value;
    var filled := FillFromEpisode(q, e);
    if filled.Err? {
      return Err(filled.error);
    }
    var item := Place(q, e, filled.value);
    if e.episodeType == Normal && item.parentIndexNumber.Some? && item.parentIndexNumber.value > 0 {
      return Ok(MetadataResult(true, Some(item)));
    }
    item := MarkSpecial(q, e, item);
    return Ok(MetadataResult(true, Some(item)));
  }

  // ---------------------------------------------------------------------------
  // Properties

  /** Placing the item touches only its season id and season number. */
  lemma PlacedKeeps(q: Request, e: Episode, item: Item)
    ensures var p := Placed(q, e, item);
      p.providerIds == item.providerIds && p.productionYear == item.productionYear
      && p.name == item.name && p.originalTitle == item.originalTitle
      && p.indexNumber == item.indexNumber && p.overview == item.overview
      && p.airsBeforeEpisodeNumber == item.airsBeforeEpisodeNumber
      && p.airsAfterSeasonNumber == item.airsAfterSeasonNumber
  {
  }

  /** Marking a special files it under season 0 and touches nothing but its names and
      airs numbers besides. */
  lemma AsSpecialKeeps(q: Request, e: Episode, item: Item)
    ensures var p := AsSpecial(q, e, item);
      p.providerIds == item.providerIds && p.productionYear == item.productionYear
      && p.indexNumber == item.indexNumber && p.overview == item.overview
      && p.seasonId == item.seasonId && p.parentIndexNumber == Some(0)
  {
  }

  /** The fields copied from the episode alone reach the returned item unchanged. */
  lemma ItemForKeeps(q: Request, e: Episode, year: Option<Int32>)
    ensures var item := ItemFor(q, e, year);
      var filled := EpisodeItem(q, e, year);
      item.providerIds == filled.providerIds && item.productionYear == filled.productionYear
      && item.indexNumber == filled.indexNumber && item.overview == filled.overview
  {
    var filled := EpisodeItem(q, e, year);
    var placed := Placed(q, e, filled);
    PlacedKeeps(q, e, filled);
    AsSpecialKeeps(q, e, placed);
  }

  /** There is no metadata exactly when the request goes through and the parser
      resolves no episode. */
  lemma NoEpisodeNoMetadata(q: Request)
    ensures Metadata(q) == Ok(MetadataResult(false, None)) <==> !q.cancelled && Resolved(q) == Ok(None)
  {
  }

  /** GetMetadata fails exactly when the request is cancelled, the parser throws, or
      the episode's air date is four characters that are not a number. */
  lemma FailureCases(q: Request)
    ensures Metadata(q).Err? <==>
      q.cancelled || Resolved(q).Err?
      || (Resolved(q).value.Some? && |Resolved(q).value.value.airDate| == 4
          && ParseInt32(Some(Resolved(q).value.value.airDate)).None?)
    ensures Metadata(q).Err? && !q.cancelled && Resolved(q).Ok? ==> Metadata(q).error == FormatException
    ensures Metadata(q).Err? && !q.cancelled && Resolved(q).Err? ==> Metadata(q).error == Resolved(q).error
  {
  }

  /** The item stores the episode's id under the provider's name, and the parser reads
      that id back when it later looks at the file's provider ids. */
  lemma StoredIdReadsBack(q: Request, e: Episode, year: Option<Int32>)
    ensures ItemFor(q, e, year).providerIds.Keys == {ProviderName}
    ensures BasicEpisodeParser.StoredEpisodeId(q.info.(providerIds := Some(ItemFor(q, e, year).providerIds)))
            == Some(e.id)
  {
    ItemForKeeps(q, e, year);
    IntToStringRoundTrip(e.id);
  }

  /** A four-digit year is read back as itself. */
  lemma FourDigitYearReadsBack(y: int)
    requires 1000 <= y <= 9999
    ensures ProductionYearOf(IntToString(y)) == Ok(Some(y))
  {
    IntToStringRoundTrip(y);
    FourDigits(y);
  }

  /** An air date of any length other than four gives no production year. */
  lemma NoYearUnlessFourCharacters(airDate: string)
    ensures |airDate| != 4 ==> ProductionYearOf(airDate) == Ok(None)
    ensures |airDate| == 4 ==> (ProductionYearOf(airDate).Ok? <==> ParseInt32(Some(airDate)).Some?)
  {
  }

  /** A number from 1000 to 9999 prints as four digits. */
  lemma FourDigits(y: int)
    requires 1000 <= y <= 9999
    ensures |IntToString(y)| == 4
  {
    assert IntToString(y) == NatToString(y);
    assert NatToString(y) == NatToString(y / 10) + [DigitChar(y % 10)];
    assert NatToString(y / 10) == NatToString(y / 100) + [DigitChar((y / 10) % 10)];
    assert NatToString(y / 100) == NatToString(y / 1000) + [DigitChar((y / 100) % 10)];
    assert NatToString(y / 1000) == [DigitChar(y / 1000)];
  }

  /** The displayed index adds the override offset back to the whole part of the
      episode's order. GetEpisode looks up the index before the offset moved back by
      the offset (BasicEpisodeParser.LookupIndex); when that index was the whole
      number `n` and the episode found has the looked-up order, the item shows `n`
      again. */
  lemma DisplayedIndexUndoesOffset(q: Request, e: Episode, year: Option<Int32>, n: int)
    requires BasicEpisodeParser.ShiftBack(Ok(n as real), q.local.offset) == Ok(e.order)
    ensures ItemFor(q, e, year).indexNumber == Some(n)
  {
    WholeOrderShown(q, e, year, n - q.local.offset);
  }

  /** A file numbered 27 in a folder whose override file sets offset 26 is looked up
      as episode 1 of its season, and that episode is shown as 27 again. */
  lemma OffsetTwentySixShowsTwentySeven(q: Request, e: Episode, year: Option<Int32>)
    requires q.local.offset == 26 && e.order == 1.0
    ensures ItemFor(q, e, year).indexNumber == Some(27)
  {
    DisplayedIndexUndoesOffset(q, e, year, 27);
  }

  /** An episode with a whole-number order shows that order plus the offset. */
  lemma WholeOrderShown(q: Request, e: Episode, year: Option<Int32>, m: int)
    requires e.order == m as real
    ensures ItemFor(q, e, year).indexNumber == Some(m + q.local.offset)
  {
    TruncateWhole(e.order, m);
    IndexSurvivesPlacement(q, e, year);
  }

  /** A whole number is its own truncation. */
  lemma TruncateWhole(x: real, m: int)
    requires x == m as real
    ensures TruncateToInt(x) == m
  {
  }

  /** Placing the item and marking it special never touch its index. */
  lemma IndexSurvivesPlacement(q: Request, e: Episode, year: Option<Int32>)
    ensures ItemFor(q, e, year).indexNumber == Some(TruncateToInt(e.order) + q.local.offset)
  {
    ItemForKeeps(q, e, year);
  }

  /** Where the item is filed: always a season, season 0 unless the episode is a normal
      one in a season above 0; season 0 whenever the file name or the episode says
      special or the library said season 0; otherwise the parent season's number when it
      has one, else the library's season number (1 when it has none). */
  lemma SeasonPlacement(q: Request, e: Episode, year: Option<Int32>)
    ensures var pin := ItemFor(q, e, year).parentIndexNumber;
      pin.Some? && (pin.value == 0 || (e.episodeType == Normal && pin.value > 0))
    ensures FiledAsSpecial(q, e) || e.episodeType != Normal ==> ItemFor(q, e, year).parentIndexNumber == Some(0)
    ensures e.episodeType == Normal && !FiledAsSpecial(q, e) ==>
      var k := if ParentIsSeason(q) && q.parent.value.indexNumber.Some? then q.parent.value.indexNumber.value
               else q.info.parentIndexNumber.GetOr(1);
      ItemFor(q, e, year).parentIndexNumber == Some(if k > 0 then k else 0)
    ensures e.episodeType == Normal && !FiledAsSpecial(q, e) && ParentIsSeason(q) ==>
      ItemFor(q, e, year).seasonId == Some(q.parent.value.id)
  {
    var filled := EpisodeItem(q, e, year);
    var placed := Placed(q, e, filled);
    AsSpecialKeeps(q, e, placed);
    assert placed.parentIndexNumber.Some?;
  }

  /** A normal episode in a season above 0 keeps the episode's own names and gets no
      airs-before or airs-after number. */
  lemma RegularEpisodeKeepsItsNames(q: Request, e: Episode, year: Option<Int32>)
    requires StaysInSeason(e, Placed(q, e, EpisodeItem(q, e, year)))
    ensures ItemFor(q, e, year).name == Some(e.GetName(Some(q.config), q.decode))
    ensures ItemFor(q, e, year).originalTitle == Some(e.OriginalName(q.decode))
    ensures ItemFor(q, e, year).airsBeforeEpisodeNumber.None? && ItemFor(q, e, year).airsAfterSeasonNumber.None?
  {
  }

  /** A special takes a name from its subject only where the episode's own is empty;
      without a subject it keeps its own names and gets no airs number. */
  lemma SpecialNamesFromSubject(q: Request, e: Episode, year: Option<Int32>)
    requires !StaysInSeason(e, Placed(q, e, EpisodeItem(q, e, year)))
    ensures var name := e.GetName(Some(q.config), q.decode);
      ItemFor(q, e, year).name
      == if name == "" && q.api.getSubject(e.parentId).Some?
         then Some(q.api.getSubject(e.parentId).value.GetName(Some(q.config), q.decode))
         else Some(name)
    ensures var title := e.OriginalName(q.decode);
      ItemFor(q, e, year).originalTitle
      == if title == "" && q.api.getSubject(e.parentId).Some?
         then Some(q.api.getSubject(e.parentId).value.OriginalName(q.decode))
         else Some(title)
    ensures q.api.getSubject(e.parentId).None? ==>
      ItemFor(q, e, year).airsBeforeEpisodeNumber.None? && ItemFor(q, e, year).airsAfterSeasonNumber.None?
  {
    var filled := EpisodeItem(q, e, year);
    var placed := Placed(q, e, filled);
    PlacedKeeps(q, e, filled);
    assert ItemFor(q, e, year) == AsSpecial(q, e, placed);
    assert placed.name == Some(e.GetName(Some(q.config), q.decode));
    assert placed.originalTitle == Some(e.OriginalName(q.decode));
  }

  /** A special whose subject is found airs either before or after, never both: before
      (against the season number) exactly when it has an air date that sorts before the
      subject's, after otherwise, an episode without an air date included. */
  lemma SpecialAirsBeforeOrAfter(q: Request, e: Episode, year: Option<Int32>)
    requires !StaysInSeason(e, Placed(q, e, EpisodeItem(q, e, year)))
    requires q.api.getSubject(e.parentId).Some?
    ensures var item := ItemFor(q, e, year);
      item.airsBeforeEpisodeNumber.None? || item.airsAfterSeasonNumber.None?
    ensures var series := q.api.getSubject(e.parentId).value;
      e.airDate != "" && series.AirDate().Some? && OrdinalLess(e.airDate, series.AirDate().value) ==>
      ItemFor(q, e, year).airsBeforeEpisodeNumber == SeasonNumber(q)
    ensures var series := q.api.getSubject(e.parentId).value;
      e.airDate == "" || series.AirDate().None? || !OrdinalLess(e.airDate, series.AirDate().value) ==>
      ItemFor(q, e, year).airsAfterSeasonNumber == SeasonNumber(q)
    ensures !ParentIsSeason(q) ==> SeasonNumber(q) == Some(1)
  {
  }

  /** An episode dated the same day as its subject is not taken to air before it. */
  lemma SameDayAirsAfter(q: Request, e: Episode, year: Option<Int32>)
    requires !StaysInSeason(e, Placed(q, e, EpisodeItem(q, e, year)))
    requires q.api.getSubject(e.parentId).Some?
    requires q.api.getSubject(e.parentId).value.AirDate() == Some(e.airDate)
    ensures ItemFor(q, e, year).airsAfterSeasonNumber == SeasonNumber(q)
    ensures ItemFor(q, e, year).airsBeforeEpisodeNumber.None?
  {
    OrdinalLessAsymmetric(e.airDate, e.airDate);
  }

  /** The overview is never empty: the description when it has text, null otherwise. */
  lemma OverviewNeverEmpty(q: Request, e: Episode, year: Option<Int32>)
    ensures ItemFor(q, e, year).overview.Some? <==> !IsNullOrEmpty(e.description)
    ensures ItemFor(q, e, year).overview.Some? ==> ItemFor(q, e, year).overview == e.description
  {
    ItemForKeeps(q, e, year);
  }
}
