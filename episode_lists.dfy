/** The LINQ queries the parsers run over an episode list: `OrderBy(x => x.Type)`,
    `FirstOrDefault(x => x.Order.Equals(v))`, `Max`, `First`, `Last`, and the in-place
    renumbering of a season. */
module EpisodeLists {
  import opened Wrappers
  import opened EpisodeModel

  /** The episodes of one type, in list order. */
  function OfType(l: seq<Episode>, t: EpisodeType): (r: seq<Episode>)
    ensures |r| <= |l|
    ensures forall i :: 0 <= i < |r| ==> r[i].episodeType == t
    decreases |l|
  {
    if l == [] then []
    else (if l[0].episodeType == t then [l[0]] else []) + OfType(l[1..], t)
  }

  /** Every category, in enum order. */
  const AllTypes: seq<EpisodeType> := [Normal, Special, Opening, Ending, Preview, Other]

  /** `FirstOrDefault(x => x.Order.Equals(v))`. */
  function FirstWithOrder(s: seq<Episode>, v: real): (r: Option<Episode>)
    ensures r.None? <==> forall i :: 0 <= i < |s| ==> s[i].order != v
    ensures r.Some? ==> exists i :: 0 <= i < |s| && s[i] == r.value && s[i].order == v
                                    && forall j :: 0 <= j < i ==> s[j].order != v
    decreases |s|
  {
    if s == [] then None
    else if s[0].order == v then Some(s[0])
    else
      var r := FirstWithOrder(s[1..], v);
      assert forall j :: 1 <= j < |s| ==> s[j] == s[1..][j - 1];
      r
  }

  // ---------------------------------------------------------------------------
  // What the pick means

  /** The category of a given rank. */
  function TypeOfRank(k: nat): (t: EpisodeType)
    requires k < 6
    ensures t.Rank() == k
  {
    AllTypes[k]
  }

  /** The first episode of type t with order v, by a direct search of the list. */
  function FirstOfTypeWithOrder(l: seq<Episode>, t: EpisodeType, v: real): (r: Option<nat>)
    ensures r.Some? ==> r.value < |l| && l[r.value].episodeType == t && l[r.value].order == v
                        && forall j :: 0 <= j < r.value ==> !(l[j].episodeType == t && l[j].order == v)
    ensures r.None? ==> forall j :: 0 <= j < |l| ==> !(l[j].episodeType == t && l[j].order == v)
    decreases |l|
  {
    if l == [] then None
    else if l[0].episodeType == t && l[0].order == v then Some(0)
    else match FirstOfTypeWithOrder(l[1..], t, v)
      case None => None
      case Some(k) => Some(k + 1)
  }

  /** The position of the best match with order v among the episodes of rank k or
      more, by a direct search: an episode with order v of the lowest rank, the first of
      its type in list order. */
  function BestMatchFrom(l: seq<Episode>, v: real, k: nat): (r: Option<nat>)
    requires k <= 6
    ensures r.None? <==> forall j :: 0 <= j < |l| && l[j].episodeType.Rank() >= k ==> l[j].order != v
    ensures r.Some? ==> r.value < |l| && l[r.value].order == v && l[r.value].episodeType.Rank() >= k
    ensures r.Some? ==> forall j :: 0 <= j < |l| && l[j].order == v && l[j].episodeType.Rank() >= k
                          ==> l[r.value].episodeType.Rank() <= l[j].episodeType.Rank()
    ensures r.Some? ==> forall j :: 0 <= j < r.value && l[j].order == v
                          ==> l[j].episodeType != l[r.value].episodeType
    decreases 6 - k
  {
    if k == 6 then None
    else
      var t := TypeOfRank(k);
      assert forall j :: 0 <= j < |l| ==> (l[j].episodeType == t <==> l[j].episodeType.Rank() == k);
      match FirstOfTypeWithOrder(l, t, v)
      case Some(i) => Some(i)
      case None => BestMatchFrom(l, v, k + 1)
  }

  /** The runs of the types of rank k and above, in rank order. */
  function RunsFrom(l: seq<Episode>, k: nat): seq<Episode>
    requires k <= 6
    decreases 6 - k
  {
    if k == 6 then [] else OfType(l, TypeOfRank(k)) + RunsFrom(l, k + 1)
  }

  /** `OrderBy(x => x.Type)`. LINQ's OrderBy is a stable sort, and a stable sort on a key
      with six values gives the list's Normal episodes, then its Special ones, and so on,
      each run in list order. */
  function SortByType(l: seq<Episode>): seq<Episode> {
    RunsFrom(l, 0)
  }

  /** `OrderBy(x => x.Type).FirstOrDefault(x => x.Order.Equals(v))`, the matching step
      every parser uses. */
  function PickByOrder(l: seq<Episode>, v: real): Option<Episode> {
    FirstWithOrder(SortByType(l), v)
  }

  /** The episode at an optional position. */
  function EpisodeAt(l: seq<Episode>, k: Option<nat>): Option<Episode>
    requires k.Some? ==> k.value < |l|
  {
    match k
    case None => None
    case Some(i) => Some(l[i])
  }

  /** Searching the run of one type is searching the list for that type. */
  lemma {:induction false} FirstWithOrderOfType(l: seq<Episode>, t: EpisodeType, v: real)
    ensures FirstWithOrder(OfType(l, t), v) == EpisodeAt(l, FirstOfTypeWithOrder(l, t, v))
    decreases |l|
  {
    if l != [] {
      FirstWithOrderOfType(l[1..], t, v);
      var rest := OfType(l[1..], t);
      var inRest := FirstOfTypeWithOrder(l[1..], t, v);
      assert EpisodeAt(l[1..], inRest) == FirstWithOrder(rest, v);
      if l[0].episodeType == t && l[0].order == v {
        assert OfType(l, t) == [l[0]] + rest;
        assert FirstOfTypeWithOrder(l, t, v) == Some(0);
      } else if l[0].episodeType == t {
        assert OfType(l, t) == [l[0]] + rest;
        assert (OfType(l, t))[1..] == rest;
        assert FirstWithOrder(OfType(l, t), v) == FirstWithOrder(rest, v);
        assert EpisodeAt(l, FirstOfTypeWithOrder(l, t, v)) == EpisodeAt(l[1..], inRest);
      } else {
        assert OfType(l, t) == rest;
        assert EpisodeAt(l, FirstOfTypeWithOrder(l, t, v)) == EpisodeAt(l[1..], inRest);
      }
    }
  }

  /** The first match in a concatenation comes from the left part when it has one. */
  lemma {:induction false} FirstWithOrderAppend(a: seq<Episode>, b: seq<Episode>, v: real)
    ensures FirstWithOrder(a + b, v) == if FirstWithOrder(a, v).Some? then FirstWithOrder(a, v) else FirstWithOrder(b, v)
    decreases |a|
  {
    if a != [] {
      assert (a + b)[0] == a[0];
      assert (a + b)[1..] == a[1..] + b;
      FirstWithOrderAppend(a[1..], b, v);
    } else {
      assert a + b == b;
    }
  }

  /** Searching the runs finds the best match. */
  lemma {:induction false} PickFromRuns(l: seq<Episode>, v: real, k: nat)
    requires k <= 6
    ensures FirstWithOrder(RunsFrom(l, k), v) == EpisodeAt(l, BestMatchFrom(l, v, k))
    decreases 6 - k
  {
    if k < 6 {
      PickFromRuns(l, v, k + 1);
      FirstWithOrderAppend(OfType(l, TypeOfRank(k)), RunsFrom(l, k + 1), v);
      FirstWithOrderOfType(l, TypeOfRank(k), v);
    }
  }

  /** The pick is the best match in the list: it exists exactly when some episode has
      order v; it is then an episode with order v of the lowest type rank, and the first
      of its type in list order. */
  lemma PickByOrderIsBestMatch(l: seq<Episode>, v: real)
    ensures PickByOrder(l, v).None? <==> forall j :: 0 <= j < |l| ==> l[j].order != v
    ensures PickByOrder(l, v).Some? ==>
      exists i :: 0 <= i < |l| && l[i] == PickByOrder(l, v).value && l[i].order == v
        && (forall j :: 0 <= j < |l| && l[j].order == v ==> l[i].episodeType.Rank() <= l[j].episodeType.Rank())
        && (forall j :: 0 <= j < i && l[j].order == v ==> l[j].episodeType != l[i].episodeType)
  {
    PickFromRuns(l, v, 0);
    var b := BestMatchFrom(l, v, 0);
    if b.Some? {
      assert l[b.value] == PickByOrder(l, v).value;
    }
  }

  /** What the pick finds is an episode of the list with the order asked for. */
  lemma PickIsInList(l: seq<Episode>, v: real)
    requires PickByOrder(l, v).Some?
    ensures PickByOrder(l, v).value in l && PickByOrder(l, v).value.order == v
  {
    PickByOrderIsBestMatch(l, v);
  }

  // ---------------------------------------------------------------------------
  // The sort itself

  /** The episodes of rank k or more, in list order. */
  function OfRankAtLeast(l: seq<Episode>, k: nat): seq<Episode>
    decreases |l|
  {
    if l == [] then []
    else (if l[0].episodeType.Rank() >= k then [l[0]] else []) + OfRankAtLeast(l[1..], k)
  }

  /** Splitting off the run of rank k. */
  lemma {:induction false} OfRankAtLeastSplit(l: seq<Episode>, k: nat)
    requires k < 6
    ensures multiset(OfRankAtLeast(l, k)) == multiset(OfType(l, TypeOfRank(k))) + multiset(OfRankAtLeast(l, k + 1))
    decreases |l|
  {
    if l != [] {
      OfRankAtLeastSplit(l[1..], k);
      assert l[0].episodeType == TypeOfRank(k) <==> l[0].episodeType.Rank() == k;
    }
  }

  /** No episode has rank 6 or more. */
  lemma {:induction false} OfRankAtLeastSix(l: seq<Episode>)
    ensures OfRankAtLeast(l, 6) == []
    decreases |l|
  {
    if l != [] {
      OfRankAtLeastSix(l[1..]);
    }
  }

  /** Every episode has rank 0 or more. */
  lemma {:induction false} OfRankAtLeastZero(l: seq<Episode>)
    ensures OfRankAtLeast(l, 0) == l
    decreases |l|
  {
    if l != [] {
      OfRankAtLeastZero(l[1..]);
      assert l == [l[0]] + l[1..];
    }
  }

  /** The runs from rank k hold exactly the episodes of rank k or more. */
  lemma {:induction false} RunsFromMultiset(l: seq<Episode>, k: nat)
    requires k <= 6
    ensures multiset(RunsFrom(l, k)) == multiset(OfRankAtLeast(l, k))
    decreases 6 - k
  {
    if k == 6 {
      OfRankAtLeastSix(l);
    } else {
      RunsFromMultiset(l, k + 1);
      OfRankAtLeastSplit(l, k);
    }
  }

  /** No episode of the sequence has a rank below k. */
  predicate RanksAtLeast(s: seq<Episode>, k: nat) {
    forall i :: 0 <= i < |s| ==> s[i].episodeType.Rank() >= k
  }

  /** The sequence is sorted by type rank. */
  predicate SortedByRank(s: seq<Episode>) {
    forall i, j :: 0 <= i < j < |s| ==> s[i].episodeType.Rank() <= s[j].episodeType.Rank()
  }

  /** A run of one rank followed by a sorted sequence of higher ranks is sorted. */
  lemma RunThenSorted(a: seq<Episode>, b: seq<Episode>, k: nat)
    requires forall i :: 0 <= i < |a| ==> a[i].episodeType.Rank() == k
    requires RanksAtLeast(b, k + 1) && SortedByRank(b)
    ensures RanksAtLeast(a + b, k) && SortedByRank(a + b)
  {
    var s := a + b;
    forall i | 0 <= i < |s| ensures s[i].episodeType.Rank() >= k {
      if i < |a| { assert s[i] == a[i]; } else { assert s[i] == b[i - |a|]; }
    }
    forall i, j | 0 <= i < j < |s| ensures s[i].episodeType.Rank() <= s[j].episodeType.Rank() {
      if j < |a| {
        assert s[i] == a[i] && s[j] == a[j];
      } else if i < |a| {
        assert s[i] == a[i] && s[j] == b[j - |a|];
      } else {
        assert s[i] == b[i - |a|] && s[j] == b[j - |a|];
      }
    }
  }

  /** The runs from rank k are sorted by rank and hold no rank below k. */
  lemma {:induction false} RunsFromSorted(l: seq<Episode>, k: nat)
    requires k <= 6
    ensures RanksAtLeast(RunsFrom(l, k), k) && SortedByRank(RunsFrom(l, k))
    decreases 6 - k
  {
    if k < 6 {
      RunsFromSorted(l, k + 1);
      var t := TypeOfRank(k);
      var a := OfType(l, t);
      assert forall i :: 0 <= i < |a| ==> a[i].episodeType.Rank() == k;
      RunThenSorted(a, RunsFrom(l, k + 1), k);
    }
  }

  /** OrderBy(Type) is a permutation of the list, sorted by type rank. */
  lemma SortByTypeIsSortedPermutation(l: seq<Episode>)
    ensures multiset(SortByType(l)) == multiset(l)
    ensures SortedByRank(SortByType(l))
  {
    RunsFromMultiset(l, 0);
    OfRankAtLeastZero(l);
    RunsFromSorted(l, 0);
  }

  // ---------------------------------------------------------------------------
  // Aggregates that throw on an empty list

  /** The largest order of a non-empty list. */
  function MaxOfOrders(l: seq<Episode>): real
    requires l != []
    decreases |l|
  {
    if |l| == 1 then l[0].order
    else
      var m := MaxOfOrders(l[1..]);
      if l[0].order >= m then l[0].order else m
  }

  /** MaxOfOrders is attained by some episode and bounds every episode's order. */
  lemma {:induction false} MaxOfOrdersIsMaximum(l: seq<Episode>)
    requires l != []
    ensures exists i :: 0 <= i < |l| && l[i].order == MaxOfOrders(l)
    ensures forall i :: 0 <= i < |l| ==> l[i].order <= MaxOfOrders(l)
    decreases |l|
  {
    if |l| == 1 {
      assert l[0].order == MaxOfOrders(l);
    } else {
      MaxOfOrdersIsMaximum(l[1..]);
      var k :| 0 <= k < |l[1..]| && l[1..][k].order == MaxOfOrders(l[1..]);
      if l[0].order < MaxOfOrders(l[1..]) {
        assert l[k + 1].order == MaxOfOrders(l);
      } else {
        assert l[0].order == MaxOfOrders(l);
      }
      forall i | 0 <= i < |l|
        ensures l[i].order <= MaxOfOrders(l)
      {
        if i > 0 {
          assert l[i] == l[1..][i - 1];
        }
      }
    }
  }

  /** `Max(x => x.Order)`: throws on an empty list. */
  function MaxOrder(l: seq<Episode>): (r: Result<real>)
    ensures r.Err? <==> l == []
    ensures r.Err? ==> r.error == InvalidOperationException
  {
    if l == [] then Err(InvalidOperationException) else Ok(MaxOfOrders(l))
  }

  /** What Max returns is the order of an episode of the list, and no episode's order
      is larger. */
  lemma MaxOrderIsMaximum(l: seq<Episode>)
    ensures MaxOrder(l).Ok? ==>
      (exists i :: 0 <= i < |l| && l[i].order == MaxOrder(l).value)
      && forall i :: 0 <= i < |l| ==> l[i].order <= MaxOrder(l).value
  {
    if l != [] {
      MaxOfOrdersIsMaximum(l);
    }
  }

  /** `First()`: throws on an empty list. */
  function First(l: seq<Episode>): (r: Result<Episode>)
    ensures r.Err? <==> l == []
    ensures r.Err? ==> r.error == InvalidOperationException
    ensures r.Ok? ==> r.value == l[0]
  {
    if l == [] then Err(InvalidOperationException) else Ok(l[0])
  }

  /** `Last()`: throws on an empty list. */
  function Last(l: seq<Episode>): (r: Result<Episode>)
    ensures r.Err? <==> l == []
    ensures r.Err? ==> r.error == InvalidOperationException
    ensures r.Ok? ==> r.value == l[|l| - 1]
  {
    if l == [] then Err(InvalidOperationException) else Ok(l[|l| - 1])
  }

  /** Every episode of the list moved d places along the numbering. */
  function Shifted(l: seq<Episode>, d: real): (r: seq<Episode>)
    ensures |r| == |l| && forall i :: 0 <= i < |l| ==> r[i] == l[i].(order := l[i].order + d)
  {
    seq(|l|, i requires 0 <= i < |l| => l[i].(order := l[i].order + d))
  }

  /** `list.ForEach(e => e.Order = e.Order + d)`: every episode moved d places along the
      numbering, nothing else changed. */
  method ShiftOrders(l: seq<Episode>, d: real) returns (r: seq<Episode>)
    ensures r == Shifted(l, d)
  {
    r := [];
    var i := 0;
    while i < |l|
      invariant 0 <= i <= |l| && |r| == i
      invariant forall k :: 0 <= k < i ==> r[k] == l[k].(order := l[k].order + d)
    {
      r := r + [l[i].(order := l[i].order + d)];
      i := i + 1;
    }
  }

  lemma ShiftedAppend(a: seq<Episode>, b: seq<Episode>, d: real)
    ensures Shifted(a + b, d) == Shifted(a, d) + Shifted(b, d)
  {
  }

  /** Shifting keeps every type, so it commutes with taking the run of a type. */
  lemma {:induction false} ShiftedOfType(l: seq<Episode>, d: real, t: EpisodeType)
    ensures OfType(Shifted(l, d), t) == Shifted(OfType(l, t), d)
    decreases |l|
  {
    if l != [] {
      var sl := Shifted(l, d);
      ShiftedOfType(l[1..], d, t);
      assert sl[1..] == Shifted(l[1..], d);
      assert sl[0].episodeType == l[0].episodeType;
      if l[0].episodeType == t {
        calc {
          OfType(sl, t);
          [sl[0]] + OfType(sl[1..], t);
          [sl[0]] + Shifted(OfType(l[1..], t), d);
          { ShiftedAppend([l[0]], OfType(l[1..], t), d); assert Shifted([l[0]], d) == [sl[0]]; }
          Shifted([l[0]] + OfType(l[1..], t), d);
        }
      } else {
        assert OfType(sl, t) == OfType(sl[1..], t);
        assert OfType(l, t) == OfType(l[1..], t);
      }
    }
  }

  lemma {:induction false} ShiftedRuns(l: seq<Episode>, d: real, k: nat)
    requires k <= 6
    ensures RunsFrom(Shifted(l, d), k) == Shifted(RunsFrom(l, k), d)
    decreases 6 - k
  {
    if k < 6 {
      ShiftedRuns(l, d, k + 1);
      ShiftedOfType(l, d, TypeOfRank(k));
      ShiftedAppend(OfType(l, TypeOfRank(k)), RunsFrom(l, k + 1), d);
    }
  }

  /** A found episode moved d places along the numbering. */
  function MovedBy(o: Option<Episode>, d: real): Option<Episode> {
    match o
    case None => None
    case Some(e) => Some(e.(order := e.order + d))
  }

  lemma {:induction false} ShiftedFirst(s: seq<Episode>, d: real, v: real)
    ensures FirstWithOrder(Shifted(s, d), v + d) == MovedBy(FirstWithOrder(s, v), d)
    decreases |s|
  {
    if s != [] {
      var t := Shifted(s, d);
      assert t[0] == s[0].(order := s[0].order + d);
      if s[0].order == v {
        assert FirstWithOrder(t, v + d) == Some(t[0]);
        assert FirstWithOrder(s, v) == Some(s[0]);
      } else {
        assert t[1..] == Shifted(s[1..], d);
        ShiftedFirst(s[1..], d, v);
        assert FirstWithOrder(t, v + d) == FirstWithOrder(t[1..], v + d);
        assert FirstWithOrder(s, v) == FirstWithOrder(s[1..], v);
      }
    }
  }

  /** Renumbering commutes with the pick: after moving every episode d places, looking
      up v + d finds the episode that v found before, moved by d. */
  lemma ShiftedPick(l: seq<Episode>, d: real, v: real)
    ensures PickByOrder(Shifted(l, d), v + d) == MovedBy(PickByOrder(l, v), d)
  {
    ShiftedRuns(l, d, 0);
    ShiftedFirst(SortByType(l), d, v);
  }
}
