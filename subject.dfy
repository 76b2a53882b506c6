/** Model.Subject: a Bangumi subject (a series, a season or a film) and the derived
    values the providers read from it. */
module SubjectModel {
  import opened Wrappers
  import opened Text
  import opened Configuration

  /** A user tag with the number of users who applied it. */
  datatype Tag = Tag(name: string, count: Int32)

  /** A JSON value as System.Text.Json exposes it. An object is a map from property name
      to value. */
  datatype Json =
    | JNull
    | JBool(b: bool)
    | JNumber(n: real)
    | JString(s: string)
    | JArray(elements: seq<Json>)
    | JObject(properties: map<string, Json>)

  /** One entry of the subject's infobox. */
  datatype InfoboxItem = InfoboxItem(key: string, value: Json)

  datatype Subject = Subject(
    id: Int32,
    originalNameRaw: string,
    chineseNameRaw: Option<string>,
    summary: Option<string>,
    date: Option<string>,
    date2: Option<string>,
    episodeCount: Option<Int32>,
    tags: seq<Tag>,
    isNsfw: bool,
    infobox: seq<InfoboxItem>,
    relation: Option<string>)
  {
    function OriginalName(decode: string -> string): string {
      decode(originalNameRaw)
    }

    function ChineseName(decode: string -> string): Option<string> {
      match chineseNameRaw
      case None => None
      case Some(raw) => Some(decode(raw))
    }

    /** AirDate: `date` when it is present, `air_date` otherwise. */
    function AirDate(): (r: Option<string>)
      ensures date.Some? ==> r == date
      ensures date.None? ==> r == date2
      ensures r.Some? <==> date.Some? || date2.Some?
    {
      if date.Some? then date else date2
    }

    /** ProductionYear: the first four characters of the air date, when it has that
        many; null otherwise. */
    function ProductionYear(): (r: Option<string>)
      ensures r.Some? <==> AirDate().Some? && |AirDate().value| >= 4
      ensures r.Some? ==> |r.value| == 4 && r.value == AirDate().value[..4]
    {
      var d := AirDate();
      if d.Some? && |d.value| >= 4 then Some(d.value[..4]) else None
    }

    /** GetName: the Chinese name under the Chinese preference unless it is null or
        empty, the original name otherwise (a null configuration included). */
    function GetName(config: Option<PluginConfiguration>, decode: string -> string): (r: string)
      ensures PreferenceOf(config) == Some(Chinese) && !IsNullOrEmpty(ChineseName(decode))
              ==> r == ChineseName(decode).value
      ensures PreferenceOf(config) != Some(Chinese) || IsNullOrEmpty(ChineseName(decode))
              ==> r == OriginalName(decode)
    {
      PreferredName(PreferenceOf(config), ChineseName(decode), OriginalName(decode))
    }
  }

  // ---------------------------------------------------------------------------
  // Popular tags

  /** `Tags.Sum(tag => tag.Count)`: a checked 32-bit sum, added left to right, that
      throws as soon as a running total leaves the range. */
  function CheckedSum(tags: seq<Tag>): (r: Result<Int32>)
    ensures r.Err? ==> r.error == OverflowException
    decreases |tags|
  {
    if tags == [] then Ok(0)
    else match CheckedSum(tags[..|tags| - 1])
      case Err(e) => Err(e)
      case Ok(s) =>
        var t := s + tags[|tags| - 1].count;
        if Int32Min <= t <= Int32Max then Ok(t) else Err(OverflowException)
  }

  /** The exact sum of the counts. */
  function SumOf(tags: seq<Tag>): int
    decreases |tags|
  {
    if tags == [] then 0 else SumOf(tags[..|tags| - 1]) + tags[|tags| - 1].count
  }

  /** A checked sum that succeeds is the exact sum. */
  lemma {:induction false} CheckedSumIsSum(tags: seq<Tag>)
    requires CheckedSum(tags).Ok?
    ensures CheckedSum(tags).value == SumOf(tags)
    decreases |tags|
  {
    if tags != [] {
      CheckedSumIsSum(tags[..|tags| - 1]);
    }
  }

  /** C#'s integer division, which truncates toward zero. */
  function DivTruncate(a: int, b: int): (q: int)
    requires b > 0
    ensures a >= 0 ==> q == a / b
    ensures a < 0 ==> q == -((-a) / b)
  {
    if a >= 0 then a / b else -((-a) / b)
  }

  /** The names of the tags whose count reaches the baseline, in tag order. */
  function NamesAtLeast(tags: seq<Tag>, baseline: int): (r: seq<string>)
    ensures |r| <= |tags|
    decreases |tags|
  {
    if tags == [] then []
    else (if tags[0].count >= baseline then [tags[0].name] else []) + NamesAtLeast(tags[1..], baseline)
  }

  /** A name is kept exactly when some tag carrying it reaches the baseline. */
  lemma {:induction false} NamesAtLeastMembers(tags: seq<Tag>, baseline: int, x: string)
    ensures x in NamesAtLeast(tags, baseline)
            <==> exists i :: 0 <= i < |tags| && tags[i].count >= baseline && tags[i].name == x
    decreases |tags|
  {
    if tags != [] {
      NamesAtLeastMembers(tags[1..], baseline, x);
      assert forall i :: 1 <= i < |tags| ==> tags[i] == tags[1..][i - 1];
      if x in NamesAtLeast(tags[1..], baseline) {
        var i :| 0 <= i < |tags[1..]| && tags[1..][i].count >= baseline && tags[1..][i].name == x;
        assert tags[i + 1] == tags[1..][i];
      }
    }
  }

  /** PopularTags: the names, in order, of the tags whose count is at least one
      twenty-fifth of the total count (integer division). The checked sum can throw. */
  function PopularTags(tags: seq<Tag>): (r: Result<seq<string>>)
    ensures r.Err? <==> CheckedSum(tags).Err?
    ensures r.Ok? ==> r.value == NamesAtLeast(tags, DivTruncate(SumOf(tags), 25))
  {
    match CheckedSum(tags)
    case Err(e) => Err(e)
    case Ok(total) =>
      CheckedSumIsSum(tags);
      Ok(NamesAtLeast(tags, DivTruncate(total, 25)))
  }

  /** The position of a most used tag. */
  function MostUsed(tags: seq<Tag>): (k: nat)
    requires tags != []
    ensures k < |tags| && forall i :: 0 <= i < |tags| ==> tags[i].count <= tags[k].count
    decreases |tags|
  {
    if |tags| == 1 then 0
    else
      var k := MostUsed(tags[..|tags| - 1]);
      if tags[|tags| - 1].count > tags[k].count then |tags| - 1 else k
  }

  /** Multiplying by a natural number keeps the order. */
  lemma {:induction false} MulMonotone(a: int, b: int, c: nat)
    requires a <= b
    ensures a * c <= b * c
    decreases c
  {
    if c > 0 {
      MulMonotone(a, b, c - 1);
      assert a * c == a * (c - 1) + a;
      assert b * c == b * (c - 1) + b;
    }
  }

  /** When no count exceeds m, the total does not exceed m times the number of tags. */
  lemma {:induction false} SumAtMost(tags: seq<Tag>, m: int)
    requires forall i :: 0 <= i < |tags| ==> tags[i].count <= m
    ensures SumOf(tags) <= m * |tags|
    decreases |tags|
  {
    var n := |tags|;
    if n > 0 {
      SumAtMost(tags[..n - 1], m);
      assert m * n == m * (n - 1) + m;
    }
  }

  /** With at most 25 tags and no negative count, the most used tag is always popular,
      so a subject with tags has at least one popular tag. */
  lemma PopularTagsNonEmpty(tags: seq<Tag>)
    requires 0 < |tags| <= 25
    requires forall i :: 0 <= i < |tags| ==> tags[i].count >= 0
    requires CheckedSum(tags).Ok?
    ensures PopularTags(tags).Ok? && PopularTags(tags).value != []
  {
    CheckedSumIsSum(tags);
    var k := MostUsed(tags);
    var m := tags[k].count;
    var total := SumOf(tags);
    var b := DivTruncate(total, 25);
    SumAtMost(tags, m);
    if total >= 0 {
      MulMonotone(|tags|, 25, m);
      assert m * |tags| <= m * 25;
      assert b * 25 <= total;
    }
    assert m >= b;
    NamesAtLeastMembers(tags, b, tags[k].name);
  }

  /** With more than 25 tags the threshold can exclude every tag: 50 tags used once
      each total 50, whose twenty-fifth is 2, so none of them is popular. */
  lemma PopularTagsCanBeEmpty()
    ensures PopularTags(seq(50, i => Tag("t", 1))) == Ok([])
  {
    var tags := seq(50, i => Tag("t", 1));
    CheckedSumAllOnes(50);
    CheckedSumIsSum(tags);
    NamesAtLeastNone(tags, 2);
  }

  /** Counting n tags used once each stays in range and totals n. */
  lemma {:induction false} CheckedSumAllOnes(n: nat)
    requires n <= 1000
    ensures CheckedSum(seq(n, i => Tag("t", 1))) == Ok(n)
  {
    if n > 0 {
      CheckedSumAllOnes(n - 1);
      assert seq(n, i => Tag("t", 1))[..n - 1] == seq(n - 1, i => Tag("t", 1));
    }
  }

  /** No tag below the baseline is kept. */
  lemma {:induction false} NamesAtLeastNone(tags: seq<Tag>, baseline: int)
    requires forall i :: 0 <= i < |tags| ==> tags[i].count < baseline
    ensures NamesAtLeast(tags, baseline) == []
    decreases |tags|
  {
    if tags != [] {
      NamesAtLeastNone(tags[1..], baseline);
    }
  }

  // ---------------------------------------------------------------------------
  // Aliases

  /** The infobox key under which Bangumi lists a subject's other names. */
  const AliasKey: string := "别名"

  /** Whether an infobox item is the alias entry: the right key with an array value. */
  predicate IsAliasItem(item: InfoboxItem) {
    item.key == AliasKey && item.value.JArray?
  }

  /** The position of the first alias entry, if any. */
  function FirstAliasItem(items: seq<InfoboxItem>): (r: Option<nat>)
    ensures r.Some? ==> r.value < |items| && IsAliasItem(items[r.value])
                        && forall j :: 0 <= j < r.value ==> !IsAliasItem(items[j])
    ensures r.None? ==> forall j :: 0 <= j < |items| ==> !IsAliasItem(items[j])
    decreases |items|
  {
    if items == [] then None
    else if IsAliasItem(items[0]) then Some(0)
    else match FirstAliasItem(items[1..])
      case None => None
      case Some(k) => Some(k + 1)
  }

  /** `x.GetProperty("v").GetString()`: throws on a non-object and on a missing "v";
      reads a JSON string as itself and a JSON null as null, and throws on any other
      kind. */
  function AliasValueOf(x: Json): (r: Result<Option<string>>)
    ensures r.Ok? <==> x.JObject? && "v" in x.properties && (x.properties["v"].JString? || x.properties["v"].JNull?)
  {
    match x
    case JObject(props) =>
      if "v" !in props then Err(KeyNotFoundException)
      else (match props["v"]
        case JString(s) => Ok(Some(s))
        case JNull => Ok(None)
        case _ => Err(InvalidOperationException))
    case _ => Err(InvalidOperationException)
  }

  /** The Select/Where/ToArray pipeline over the alias array: the non-empty "v" strings
      in order, or the first exception. */
  function AliasValues(xs: seq<Json>): (r: Result<seq<string>>)
    ensures r.Ok? ==> |r.value| <= |xs| && forall i :: 0 <= i < |r.value| ==> r.value[i] != ""
    decreases |xs|
  {
    if xs == [] then Ok([])
    else match AliasValueOf(xs[0])
      case Err(e) => Err(e)
      case Ok(v) =>
        match AliasValues(xs[1..])
        case Err(e) => Err(e)
        case Ok(rest) => Ok((if IsNullOrEmpty(v) then [] else [v.value]) + rest)
  }

  /** What Alias() returns: the values of the first alias entry, or nothing. */
  function AliasOf(items: seq<InfoboxItem>): Result<seq<string>> {
    match FirstAliasItem(items)
    case None => Ok([])
    case Some(k) => AliasValues(items[k].value.elements)
  }

  /** Alias(): scans the infobox for the first alias entry and returns its values. */
  method Alias(items: seq<InfoboxItem>) returns (r: Result<seq<string>>)
    ensures r == AliasOf(items)
  {
    var i := 0;
    while i < |items|
      invariant 0 <= i <= |items|
      invariant forall j :: 0 <= j < i ==> !IsAliasItem(items[j])
    {
      if items[i].key == AliasKey && items[i].value.JArray? {
        assert FirstAliasItem(items) == Some(i) by {
          FirstAliasItemIs(items, i);
        }
        r := AliasValues(items[i].value.elements);
        return;
      }
      i := i + 1;
    }
    r := Ok([]);
  }

  /** The first alias entry is the one no earlier entry precedes. */
  lemma FirstAliasItemIs(items: seq<InfoboxItem>, i: nat)
    requires i < |items| && IsAliasItem(items[i])
    requires forall j :: 0 <= j < i ==> !IsAliasItem(items[j])
    ensures FirstAliasItem(items) == Some(i)
  {
  }

  /** When every element of the alias array is an object with a string "v", the aliases
      are exactly the non-empty ones among those strings. */
  lemma {:induction false} AliasValuesOfStrings(xs: seq<Json>)
    requires forall i :: 0 <= i < |xs| ==> xs[i].JObject? && "v" in xs[i].properties && xs[i].properties["v"].JString?
    ensures AliasValues(xs).Ok?
    ensures forall a :: a in AliasValues(xs).value <==>
              a != "" && exists i :: 0 <= i < |xs| && xs[i].properties["v"] == JString(a)
    decreases |xs|
  {
    if xs != [] {
      AliasValuesOfStrings(xs[1..]);
      forall a
        ensures a in AliasValues(xs).value <==>
                a != "" && exists i :: 0 <= i < |xs| && xs[i].properties["v"] == JString(a)
      {
        if a != "" && exists i :: 0 <= i < |xs| && xs[i].properties["v"] == JString(a) {
          var i :| 0 <= i < |xs| && xs[i].properties["v"] == JString(a);
          if i > 0 {
            assert xs[1..][i - 1] == xs[i];
          }
        }
        if a in AliasValues(xs[1..]).value {
          var i :| 0 <= i < |xs[1..]| && xs[1..][i].properties["v"] == JString(a);
          assert xs[i + 1] == xs[1..][i];
        }
      }
    }
  }

  // ---------------------------------------------------------------------------
  // Similarity ordering

  /** The foreign helpers the similarity score uses: FuzzySharp's Fuzz.Ratio,
      string.ToLower and WebUtility.HtmlDecode. */
  datatype TextFunctions = TextFunctions(
    ratio: (Option<string>, string) -> int,
    lower: string -> string,
    decode: string -> string)

  function Max(a: int, b: int): int {
    if a >= b then a else b
  }

  /** The largest element of a non-empty sequence. */
  function MaxOf(s: seq<int>): (m: int)
    requires s != []
    ensures m in s && forall i :: 0 <= i < |s| ==> s[i] <= m
    decreases |s|
  {
    if |s| == 1 then s[0] else Max(s[0], MaxOf(s[1..]))
  }

  /** The Chinese name as Score hands it to the ratio: lower-cased, null kept null. */
  function LoweredChineseName(s: Subject, f: TextFunctions): Option<string> {
    if s.ChineseName(f.decode).None? then None else Some(f.lower(s.ChineseName(f.decode).value))
  }

  /** A subject's similarity to the (already lower-cased) keyword: the best of the
      Chinese-name, original-name and alias ratios, int.MinValue standing in for the
      aliases when there are none. Alias() can throw and the exception escapes. */
  function Score(s: Subject, keyword: string, f: TextFunctions): (r: Result<int>)
    ensures r.Err? <==> AliasOf(s.infobox).Err?
    ensures r.Ok? ==> r.value >= f.ratio(LoweredChineseName(s, f), keyword)
    ensures r.Ok? ==> r.value >= f.ratio(Some(f.lower(s.OriginalName(f.decode))), keyword)
    ensures r.Ok? ==> forall a :: a in AliasOf(s.infobox).value ==> r.value >= f.ratio(Some(f.lower(a)), keyword)
    ensures r.Ok? ==>
      r.value == f.ratio(LoweredChineseName(s, f), keyword)
      || r.value == f.ratio(Some(f.lower(s.OriginalName(f.decode))), keyword)
      || (exists a :: a in AliasOf(s.infobox).value && r.value == f.ratio(Some(f.lower(a)), keyword))
      || (AliasOf(s.infobox).value == [] && r.value == Int32Min)
  {
    match AliasOf(s.infobox)
    case Err(e) => Err(e)
    case Ok(aliases) =>
      var cn := f.ratio(LoweredChineseName(s, f), keyword);
      var on := f.ratio(Some(f.lower(s.OriginalName(f.decode))), keyword);
      var ratios := seq(|aliases|, i requires 0 <= i < |aliases| => f.ratio(Some(f.lower(aliases[i])), keyword));
      var am := if aliases == [] then Int32Min else MaxOf(ratios);
      assert forall a :: a in aliases ==> f.ratio(Some(f.lower(a)), keyword) in ratios by {
        forall a | a in aliases ensures f.ratio(Some(f.lower(a)), keyword) in ratios {
          var i :| 0 <= i < |aliases| && aliases[i] == a;
          assert ratios[i] == f.ratio(Some(f.lower(a)), keyword);
        }
      }
      assert aliases != [] ==> exists a :: a in aliases && am == f.ratio(Some(f.lower(a)), keyword) by {
        if aliases != [] {
          var i :| 0 <= i < |ratios| && ratios[i] == am;
          assert aliases[i] in aliases;
        }
      }
      Ok(Max(Max(cn, on), am))
  }

  /** The scores of a list of subjects, computed in list order; the first exception
      escapes. */
  function Scores(list: seq<Subject>, keyword: string, f: TextFunctions): (r: Result<seq<int>>)
    ensures r.Ok? ==> |r.value| == |list|
                      && forall i :: 0 <= i < |list| ==> Score(list[i], keyword, f) == Ok(r.value[i])
    decreases |list|
  {
    if list == [] then Ok([])
    else match Scores(list[..|list| - 1], keyword, f)
      case Err(e) => Err(e)
      case Ok(init) =>
        match Score(list[|list| - 1], keyword, f)
        case Err(e) => Err(e)
        case Ok(x) =>
          assert forall i :: 0 <= i < |list| - 1 ==> list[..|list| - 1][i] == list[i];
          Ok(init + [x])
  }

  /** A score paired with the index of its subject. */
  type Ranked = (int, nat)

  /** The order OrderByDescending produces: higher scores first, ties in input order. */
  predicate RanksBefore(a: Ranked, b: Ranked) {
    a.0 > b.0 || (a.0 == b.0 && a.1 <= b.1)
  }

  predicate SortedByRank(s: seq<Ranked>) {
    forall i, j :: 0 <= i < j < |s| ==> RanksBefore(s[i], s[j])
  }

  /** RanksBefore is transitive and total, as a sort order must be. */
  lemma RanksBeforeOrder(a: Ranked, b: Ranked, c: Ranked)
    ensures RanksBefore(a, b) && RanksBefore(b, c) ==> RanksBefore(a, c)
    ensures RanksBefore(a, b) || RanksBefore(b, a)
  {
  }

  /** An entry that ranks before every entry of a sorted sequence can go in front. */
  lemma PrependSorted(y: Ranked, s: seq<Ranked>)
    requires SortedByRank(s) && forall k :: 0 <= k < |s| ==> RanksBefore(y, s[k])
    ensures SortedByRank([y] + s)
  {
    var r := [y] + s;
    forall i, j | 0 <= i < j < |r| ensures RanksBefore(r[i], r[j]) {
      if i == 0 {
        assert r[j] == s[j - 1];
      } else {
        assert r[i] == s[i - 1] && r[j] == s[j - 1];
      }
    }
  }

  /** Inserts one ranked entry into a sorted sequence. */
  function Insert(x: Ranked, s: seq<Ranked>): (r: seq<Ranked>)
    requires SortedByRank(s)
    ensures SortedByRank(r) && multiset(r) == multiset(s) + multiset{x}
    decreases |s|
  {
    if s == [] then [x]
    else if RanksBefore(x, s[0]) then
      assert forall k :: 0 <= k < |s| ==> RanksBefore(x, s[k]) by {
        forall k | 0 <= k < |s| ensures RanksBefore(x, s[k]) {
          RanksBeforeOrder(x, s[0], s[k]);
        }
      }
      PrependSorted(x, s);
      [x] + s
    else
      var rest := Insert(x, s[1..]);
      assert s == [s[0]] + s[1..];
      assert forall k :: 0 <= k < |rest| ==> RanksBefore(s[0], rest[k]) by {
        forall k | 0 <= k < |rest| ensures RanksBefore(s[0], rest[k]) {
          assert rest[k] in multiset(s[1..]) + multiset{x};
          if rest[k] == x {
            RanksBeforeOrder(x, s[0], x);
          } else {
            assert rest[k] in s[1..];
          }
        }
      }
      PrependSorted(s[0], rest);
      [s[0]] + rest
  }

  /** An insertion sort by RanksBefore. */
  function SortRanked(s: seq<Ranked>): (r: seq<Ranked>)
    ensures SortedByRank(r) && multiset(r) == multiset(s)
    decreases |s|
  {
    if s == [] then []
    else
      assert s == s[..|s| - 1] + [s[|s| - 1]];
      Insert(s[|s| - 1], SortRanked(s[..|s| - 1]))
  }

  /** Each score paired with its position. */
  function RankedScores(scores: seq<int>): (r: seq<Ranked>)
    ensures |r| == |scores| && forall i :: 0 <= i < |r| ==> r[i] == (scores[i], i)
  {
    seq(|scores|, i requires 0 <= i < |scores| => (scores[i], i))
  }

  /** The positions of the subjects in the order OrderByDescending(score) puts them. */
  function DescendingOrder(scores: seq<int>): (p: seq<nat>)
    ensures |p| == |scores|
  {
    var sorted := SortRanked(RankedScores(scores));
    assert |sorted| == |multiset(sorted)| == |multiset(RankedScores(scores))| == |scores|;
    seq(|sorted|, k requires 0 <= k < |sorted| => sorted[k].1)
  }

  /** What SortBySimilarity returns: the subjects, most similar first, ties in input
      order. */
  function SimilarityOrder(list: seq<Subject>, keyword: string, f: TextFunctions): Result<seq<Subject>> {
    match Scores(list, keyword, f)
    case Err(e) => Err(e)
    case Ok(scores) =>
      var p := DescendingOrder(scores);
      DescendingOrderIsPermutation(scores);
      Ok(seq(|p|, k requires 0 <= k < |p| => list[p[k]]))
  }

  /** The descending order visits every position exactly once, by non-increasing score,
      and keeps equal scores in input order. */
  lemma DescendingOrderIsPermutation(scores: seq<int>)
    ensures var p := DescendingOrder(scores);
            (forall k :: 0 <= k < |p| ==> p[k] < |scores|)
            && (forall i :: 0 <= i < |scores| ==> i in p)
            && (forall k, l :: 0 <= k < l < |p| ==> scores[p[k]] >= scores[p[l]])
            && (forall k, l :: 0 <= k < l < |p| && scores[p[k]] == scores[p[l]] ==> p[k] < p[l])
  {
    var ranked := RankedScores(scores);
    var sorted := SortRanked(ranked);
    var p := DescendingOrder(scores);
    forall k | 0 <= k < |sorted|
      ensures sorted[k].1 < |scores| && sorted[k].0 == scores[sorted[k].1]
    {
      assert sorted[k] in multiset(ranked);
      var i :| 0 <= i < |ranked| && ranked[i] == sorted[k];
    }
    forall i | 0 <= i < |scores|
      ensures i in p
    {
      assert ranked[i] in multiset(sorted);
      var k :| 0 <= k < |sorted| && sorted[k] == ranked[i];
      assert p[k] == i;
    }
    forall k, l | 0 <= k < l < |p|
      ensures scores[p[k]] >= scores[p[l]]
      ensures scores[p[k]] == scores[p[l]] ==> p[k] <= p[l]
    {
      assert RanksBefore(sorted[k], sorted[l]);
    }
    forall k, l | 0 <= k < l < |p| && scores[p[k]] == scores[p[l]]
      ensures p[k] < p[l]
    {
      DistinctPositions(scores, k, l);
    }
  }

  /** Two places of the descending order hold different positions. */
  lemma DistinctPositions(scores: seq<int>, k: nat, l: nat)
    requires k < l < |scores|
    ensures DescendingOrder(scores)[k] != DescendingOrder(scores)[l]
  {
    var ranked := RankedScores(scores);
    var sorted := SortRanked(ranked);
    if sorted[k].1 == sorted[l].1 {
      assert sorted[k] in multiset(ranked);
      assert sorted[l] in multiset(ranked);
      var i :| 0 <= i < |ranked| && ranked[i] == sorted[k];
      assert sorted[k] == sorted[l];
      assert multiset(ranked)[ranked[i]] == 1 by {
        RankedScoresOnce(scores, i);
      }
      assert multiset(sorted)[sorted[k]] >= 2 by {
        MultisetTwice(sorted, k, l);
      }
    }
  }

  /** Each pair (score, position) occurs once among the ranked scores. */
  lemma {:induction false} RankedScoresOnce(scores: seq<int>, i: nat)
    requires i < |scores|
    ensures multiset(RankedScores(scores))[(scores[i], i)] == 1
  {
    var ranked := RankedScores(scores);
    CountOnce(ranked, i);
  }

  /** An element that differs from every other element of a sequence occurs once. */
  lemma {:induction false} CountOnce(s: seq<Ranked>, i: nat)
    requires i < |s| && forall j :: 0 <= j < |s| ==> s[j].1 == j
    ensures multiset(s)[s[i]] == 1
    decreases |s|
  {
    var n := |s|;
    assert s == s[..n - 1] + [s[n - 1]];
    if i == n - 1 {
      assert s[i] !in s[..n - 1];
    } else {
      CountOnce(s[..n - 1], i);
      assert s[n - 1] != s[i];
    }
  }

  /** An element found at two places occurs at least twice. */
  lemma MultisetTwice(s: seq<Ranked>, k: nat, l: nat)
    requires k < l < |s| && s[k] == s[l]
    ensures multiset(s)[s[k]] >= 2
  {
    assert s == s[..l] + [s[l]] + s[l + 1..];
    assert s[k] in s[..l];
  }

  /** SortBySimilarity: scores every subject in a loop, then returns the subjects
      ordered by descending score, stably. */
  method SortBySimilarity(list: seq<Subject>, keyword: string, f: TextFunctions) returns (r: Result<seq<Subject>>)
    ensures r == SimilarityOrder(list, f.lower(keyword), f)
  {
    var kw := f.lower(keyword);
    var scores: seq<int> := [];
    var i := 0;
    while i < |list|
      invariant 0 <= i <= |list|
      invariant Scores(list[..i], kw, f) == Ok(scores)
    {
      assert list[..i + 1][..i] == list[..i];
      var aliases := Alias(list[i].infobox);
      if aliases.Err? {
        r := Err(aliases.error);
        ScoresFirstError(list, kw, f, i);
        return;
      }
      var s := Score(list[i], kw, f);
      scores := scores + [s.value];
      i := i + 1;
    }
    assert list[..i] == list;
    var p := DescendingOrder(scores);
    DescendingOrderIsPermutation(scores);
    r := Ok(seq(|p|, k requires 0 <= k < |p| => list[p[k]]));
  }

  /** When the first i subjects score and the next throws, scoring the list throws
      that exception. */
  lemma {:induction false} ScoresFirstError(list: seq<Subject>, kw: string, f: TextFunctions, i: nat)
    requires i < |list| && Scores(list[..i], kw, f).Ok? && AliasOf(list[i].infobox).Err?
    ensures Scores(list, kw, f) == Err(AliasOf(list[i].infobox).error)
    decreases |list|
  {
    if i == |list| - 1 {
      assert list[..|list| - 1] == list[..i];
    } else {
      assert list[..|list| - 1][..i] == list[..i];
      assert list[..|list| - 1][i] == list[i];
      ScoresFirstError(list[..|list| - 1], kw, f, i);
    }
  }
}
