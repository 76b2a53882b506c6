/** Model.Episode: one episode record of a Bangumi subject, as the remote catalogue
    delivers it. */
module EpisodeModel {
  import opened Wrappers
  import opened Text
  import opened Configuration

  /** The catalogue's episode categories, in the order of their enum values (which is
      the order `OrderBy(x => x.Type)` sorts by). */
  datatype EpisodeType = Normal | Special | Opening | Ending | Preview | Other {
    function Rank(): (r: nat)
      ensures r < 6
    {
      match this
      case Normal => 0
      case Special => 1
      case Opening => 2
      case Ending => 3
      case Preview => 4
      case Other => 5
    }
  }

  /** `type is EpisodeType.Normal || type is null`. */
  predicate IsNormalOrNull(t: Option<EpisodeType>) {
    t.None? || t.value == Normal
  }

  /** Distinct categories have distinct ranks, so sorting by rank groups each category. */
  lemma RankInjective(a: EpisodeType, b: EpisodeType)
    ensures a.Rank() == b.Rank() <==> a == b
  {
  }

  /** An episode record. `order` is the catalogue's `sort` field and `index` its `ep`
      field, both doubles in the source and exact reals here. Names are stored raw
      (HTML-escaped); the `decode` parameter of the name accessors stands for
      WebUtility.HtmlDecode. */
  datatype Episode = Episode(
    id: Int32,
    parentId: Int32,
    episodeType: EpisodeType,
    originalNameRaw: string,
    chineseNameRaw: Option<string>,
    order: real,
    disc: Int32,
    index: real,
    airDate: string,
    duration: Option<string>,
    description: Option<string>)
  {
    /** OriginalName: the decoded original name. */
    function OriginalName(decode: string -> string): (r: string)
      ensures r == decode(originalNameRaw)
    {
      decode(originalNameRaw)
    }

    /** ChineseName: the decoded Chinese name, null exactly when the raw one is. */
    function ChineseName(decode: string -> string): (r: Option<string>)
      ensures r.None? <==> chineseNameRaw.None?
      ensures r.Some? ==> r.value == decode(chineseNameRaw.value)
    {
      match chineseNameRaw
      case None => None
      case Some(raw) => Some(decode(raw))
    }

    /** GetName: the Chinese name under the Chinese preference when it is neither null
        nor empty; the original name in every other case, a null configuration
        included. */
    function GetName(config: Option<PluginConfiguration>, decode: string -> string): (r: string)
      ensures PreferenceOf(config) == Some(Chinese) && !IsNullOrEmpty(ChineseName(decode))
              ==> r == ChineseName(decode).value
      ensures PreferenceOf(config) != Some(Chinese) || IsNullOrEmpty(ChineseName(decode))
              ==> r == OriginalName(decode)
    {
      PreferredName(PreferenceOf(config), ChineseName(decode), OriginalName(decode))
    }

    /** ToString: `<Bangumi Episode #{Id}: {OriginalName}>`. */
    function ToString(decode: string -> string): (r: string)
      ensures |r| > |DescriptionPrefix| + |OriginalName(decode)| + 2
      ensures r[..|DescriptionPrefix|] == DescriptionPrefix && r[|r| - 1] == '>'
      ensures r[|r| - 3 - |OriginalName(decode)|..|r| - 1] == ": " + OriginalName(decode)
    {
      DescriptionPrefix + IntToString(id) + ": " + OriginalName(decode) + ">"
    }
  }

  const DescriptionPrefix: string := "<Bangumi Episode #"

  /** `new Episode()`: Id, ParentId, Disc, Order and Index zero, type Normal (the enum's
      zero value), empty original name and air date, and null Chinese name, duration
      and description. */
  function NewEpisode(): (e: Episode)
    ensures e.id == 0 && e.parentId == 0 && e.episodeType == Normal
    ensures e.originalNameRaw == "" && e.chineseNameRaw.None? && e.airDate == ""
    ensures e.order == 0.0 && e.index == 0.0 && e.disc == 0
    ensures e.duration.None? && e.description.None?
  {
    Episode(0, 0, Normal, "", None, 0.0, 0, 0.0, "", None, None)
  }

  /** Reads the episode id back out of a ToString description: the number between '#'
      and the first ':'. */
  function DescribedId(s: string): Option<int> {
    if |s| < |DescriptionPrefix| || s[..|DescriptionPrefix|] != DescriptionPrefix then None
    else
      var rest := s[|DescriptionPrefix|..];
      match IndexOf(rest, ':')
      case None => None
      case Some(k) => ParseInt32(Some(rest[..k]))
  }

  /** The digits of a number hold no ':'. */
  lemma NoColonInNumber(i: int)
    ensures IndexOf(IntToString(i), ':').None?
  {
    var s := IntToString(i);
    if i < 0 {
      assert forall j :: 1 <= j < |s| ==> s[j] == NatToString(-i)[j - 1];
    }
  }

  /** The first ':' after the digits of a number is the one that follows them. */
  lemma {:induction false} IndexOfColonAfter(w: string, rest: string)
    requires IndexOf(w, ':').None?
    ensures IndexOf(w + ":" + rest, ':') == Some(|w|)
    decreases |w|
  {
    if w != [] {
      assert IndexOf(w[1..], ':').None?;
      IndexOfColonAfter(w[1..], rest);
      assert (w + ":" + rest)[1..] == w[1..] + ":" + rest;
    }
  }

  /** The description names the episode: its id can be read back from it. */
  lemma DescriptionNamesId(e: Episode, decode: string -> string)
    ensures DescribedId(e.ToString(decode)) == Some(e.id as int)
  {
    var w := IntToString(e.id);
    var tail := " " + e.OriginalName(decode) + ">";
    var s := e.ToString(decode);
    assert s == DescriptionPrefix + (w + ":" + tail);
    assert s[..|DescriptionPrefix|] == DescriptionPrefix;
    assert s[|DescriptionPrefix|..] == w + ":" + tail;
    NoColonInNumber(e.id);
    IndexOfColonAfter(w, tail);
    assert (w + ":" + tail)[..|w|] == w;
    IntToStringRoundTrip(e.id);
  }
}
