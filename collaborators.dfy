/** What the episode resolution engine receives from the outside world: the host
    library's description of the file, the library item of its folder, the Bangumi
    web API, and the Anitomy file-name tokenizer. The engine only ever reads these, so
    each is a plain value or a total function of the request it answers. */
module Collaborators {
  import opened Wrappers
  import opened Text
  import opened EpisodeModel
  import opened SubjectModel

  /** The key under which Bangumi ids are stored among a library item's provider ids. */
  const ProviderName: string := "Bangumi"

  /** The Bangumi relation name that marks a sequel ("续集"). */
  const SequelRelation: string := "续集"

  /** EpisodeInfo: what the host library knows about the file before lookup. */
  datatype EpisodeInfo = EpisodeInfo(
    path: string,
    indexNumber: Option<Int32>,
    parentIndexNumber: Option<Int32>,
    providerIds: Option<map<string, string>>,
    seriesProviderIds: Option<map<string, string>>)

  /** The library item found at the file's folder: a Season or any other item. */
  datatype LibraryItem =
    | Season(id: nat, name: string, indexNumber: Option<Int32>, providerIds: map<string, string>)
    | Folder(name: string, providerIds: map<string, string>)

  /** `ids?.GetValueOrDefault(ProviderName)`: null when the dictionary is null or has no
      Bangumi entry. */
  function BangumiId(ids: Option<map<string, string>>): (r: Option<string>)
    ensures r.Some? <==> ids.Some? && ProviderName in ids.value
    ensures r.Some? ==> r.value == ids.value[ProviderName]
  {
    if ids.Some? && ProviderName in ids.value then Some(ids.value[ProviderName]) else None
  }

  /** The Bangumi web API, each call reduced to the answer it gives (null when the
      request fails or finds nothing). */
  datatype BangumiApi = BangumiApi(
    getEpisode: int -> Option<Episode>,
    getSubjectEpisodeList: (int, Option<EpisodeType>, real) -> Option<seq<Episode>>,
    getRelatedSubject: int -> Option<seq<Subject>>,
    getSubject: int -> Option<Subject>)

  /** `GetSubjectEpisodeList(...) ?? new List<Episode>()`: the episodes of a subject of
      type `t`, none when the request gives null. */
  function Candidates(api: BangumiApi, seriesId: int, t: Option<EpisodeType>, index: real): seq<Episode> {
    api.getSubjectEpisodeList(seriesId, t, index).GetOr([])
  }

  /** The tokens Anitomy extracts from a file name, null where it finds none. */
  datatype AnitomyTokens = AnitomyTokens(
    animeTitle: Option<string>,
    episodeTitle: Option<string>,
    animeSeason: Option<string>,
    volumeNumber: Option<string>,
    episodeNumber: Option<string>,
    episodeNumberAlt: Option<string>,
    animeType: seq<string>)

  /** AnitomyEpisodeTypeMapping.GetEpisodeType: from Anitomy's type tokens to the raw
      type token and the Bangumi episode type it stands for. */
  type TypeMapping = seq<string> -> (Option<string>, Option<EpisodeType>)
}
