/**
 * The candidate selection shared by both tasks: the eligibility filter over all
 * audio items and the seed list `OrderByDescending(song => song.Score).Take(20)`.
 * LINQ's ordering is stable, so the seeds are the first entries of the order
 * "higher score first, earlier entry first among equal scores", computed here
 * on indices by insertion.
 */
module Selection {
  import opened Catalog

  /** How many top-scored songs seed the recommendations. */
  const SeedCount: nat := 20

  /** Not theme media and whole seconds, a null runtime counted as 0, above `ExcludeTime`. */
  predicate IsEligible(excludeTime: int, song: Song)
  {
    !song.isThemeMedia && WholeSeconds(song.runtimeTicks) > excludeTime
  }

  function EligibleFilter(excludeTime: int): Song -> bool
  {
    (song: Song) => IsEligible(excludeTime, song)
  }

  /** `allAudio.Where(song => ...).ToList()`. */
  function Eligible(allAudio: seq<Song>, excludeTime: int): seq<Song>
  {
    Where(allAudio, EligibleFilter(excludeTime))
  }

  /** The filter keeps, in their order, exactly the eligible items. */
  lemma EligibleExactly(allAudio: seq<Song>, excludeTime: int)
    ensures IsSubsequence(Eligible(allAudio, excludeTime), allAudio)
    ensures forall s :: s in Eligible(allAudio, excludeTime) <==> s in allAudio && IsEligible(excludeTime, s)
  {
    WhereKeepsExactly(allAudio, EligibleFilter(excludeTime));
  }

  /** With a non-negative `ExcludeTime` every eligible item has a runtime, and a positive one. */
  lemma EligibleHaveRuntime(allAudio: seq<Song>, excludeTime: int)
    requires excludeTime >= 0
    ensures forall s :: s in Eligible(allAudio, excludeTime) ==> s.runtimeTicks.Some? && s.runtimeTicks.value > 0
  {
    EligibleExactly(allAudio, excludeTime);
  }

  /** Entry `i` comes before entry `j` in the stable descending order. */
  predicate Before(xs: seq<ScoredSong>, i: int, j: int)
    requires 0 <= i < |xs| && 0 <= j < |xs|
  {
    xs[i].score > xs[j].score || (xs[i].score == xs[j].score && i < j)
  }

  predicate ValidIndices(xs: seq<ScoredSong>, order: seq<int>)
  {
    forall k :: 0 <= k < |order| ==> 0 <= order[k] < |xs|
  }

  /** The indices are listed in the stable descending order (hence each at most once). */
  predicate Ordered(xs: seq<ScoredSong>, order: seq<int>)
    requires ValidIndices(xs, order)
  {
    forall k, l :: 0 <= k < l < |order| ==> Before(xs, order[k], order[l])
  }

  /** Insert index `j` in front of the first listed index it comes before. */
  function Insert(xs: seq<ScoredSong>, order: seq<int>, j: int): (r: seq<int>)
    requires ValidIndices(xs, order) && 0 <= j < |xs|
    ensures ValidIndices(xs, r) && |r| == |order| + 1
    ensures forall x :: x in r <==> x in order || x == j
  {
    if order == [] then [j]
    else if Before(xs, j, order[0]) then [j] + order
    else [order[0]] + Insert(xs, order[1..], j)
  }

  lemma {:induction false} InsertOrdered(xs: seq<ScoredSong>, order: seq<int>, j: int)
    requires ValidIndices(xs, order) && 0 <= j < |xs| && Ordered(xs, order) && j !in order
    ensures Ordered(xs, Insert(xs, order, j))
  {
    if order != [] && !Before(xs, j, order[0]) {
      var rest := order[1..];
      assert forall k :: 0 <= k < |rest| ==> rest[k] == order[k + 1];
      InsertOrdered(xs, rest, j);
      var r := Insert(xs, order, j);
      assert Before(xs, order[0], j);
      forall l | 0 < l < |r| ensures Before(xs, order[0], r[l]) {
        assert r[l] in Insert(xs, rest, j);
      }
    }
  }

  /** The indices `0 .. n - 1` in the stable descending order. */
  function Ranking(xs: seq<ScoredSong>, n: nat): (r: seq<int>)
    requires n <= |xs|
    ensures ValidIndices(xs, r) && |r| == n
    ensures forall x :: x in r <==> 0 <= x < n
  {
    if n == 0 then [] else Insert(xs, Ranking(xs, n - 1), n - 1)
  }

  lemma {:induction false} RankingOrdered(xs: seq<ScoredSong>, n: nat)
    requires n <= |xs|
    ensures Ordered(xs, Ranking(xs, n))
  {
    if n > 0 {
      RankingOrdered(xs, n - 1);
      InsertOrdered(xs, Ranking(xs, n - 1), n - 1);
    }
  }

  function MinNat(a: nat, b: nat): nat { if a <= b then a else b }

  /** `songList.OrderByDescending(song => song.Score).Take(20)`. */
  function TopSongs(xs: seq<ScoredSong>): seq<ScoredSong>
  {
    var order := Ranking(xs, |xs|);
    seq(MinNat(SeedCount, |xs|), k requires 0 <= k < MinNat(SeedCount, |xs|) => xs[order[k]])
  }

  /**
   * The seeds are `min(20, n)` distinct entries of the list, by non-increasing
   * score, equal scores in list order; every entry left out scores no higher than
   * the last seed.
   */
  lemma TopSongsSpec(xs: seq<ScoredSong>)
    ensures var top, order := TopSongs(xs), Ranking(xs, |xs|);
      |top| == MinNat(SeedCount, |xs|) &&
      (forall k :: 0 <= k < |top| ==> top[k] == xs[order[k]]) &&
      (forall k, l :: 0 <= k < l < |top| ==> order[k] != order[l]) &&
      (forall k, l :: 0 <= k < l < |top| ==> top[k].score >= top[l].score) &&
      (forall k, l :: 0 <= k < l < |top| && top[k].score == top[l].score ==> order[k] < order[l]) &&
      (forall j :: 0 <= j < |xs| && (forall k :: 0 <= k < |top| ==> order[k] != j) ==>
         xs[j].score <= top[|top| - 1].score)
  {
    var top, order := TopSongs(xs), Ranking(xs, |xs|);
    RankingOrdered(xs, |xs|);
    forall j | 0 <= j < |xs| && (forall k :: 0 <= k < |top| ==> order[k] != j)
      ensures xs[j].score <= top[|top| - 1].score
    {
      assert j in order;
      var p :| 0 <= p < |order| && order[p] == j;
      assert |top| - 1 < p;
      assert Before(xs, order[|top| - 1], order[p]);
    }
  }

  /** There is at least one seed whenever there is at least one scored song. */
  lemma TopSongsNonEmpty(xs: seq<ScoredSong>)
    requires xs != []
    ensures TopSongs(xs) != [] && TopSongs(xs)[0] in xs
  {
    var order := Ranking(xs, |xs|);
    assert TopSongs(xs)[0] == xs[order[0]];
  }
}
