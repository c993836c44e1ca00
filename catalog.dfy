/**
 * The library records both generations of the playlist generator work on:
 * audio items of the host catalog and the scored wrapper around them, plus the
 * sequence vocabulary (LINQ `Where`, order-preserving subsequences, id sets and
 * duration sums) that the other modules state their contracts in.
 */
module Catalog {

  /** A host item id. The value 0 stands for `Guid.Empty`. */
  type Guid = nat

  const EmptyGuid: Guid := 0

  /** `TimeSpan.TicksPerSecond`, also written out as `10_000_000` in the older generation. */
  const TicksPerSecond: int := 10_000_000

  datatype Option<+T> = None | Some(value: T)

  /** An audio item: id, nullable `RunTimeTicks`, `ParentId` (its album), `IsThemeMedia`, `Genres`. */
  datatype Song = Song(id: Guid, runtimeTicks: Option<int>, parentId: Guid, isThemeMedia: bool, genres: seq<string>)

  /** A song with the score computed for one user and the album and artist ids derived from it. */
  datatype ScoredSong = ScoredSong(song: Song, score: real, albumId: Guid, artistId: Guid)

  /** C# integer division of a `long`: the quotient is truncated toward zero. */
  function TruncDiv(a: int, b: int): int
    requires b > 0
  {
    if a >= 0 then a / b else -((-a) / b)
  }

  /** `(int)((long)(ticks ?? 0) / TicksPerSecond)`: whole seconds, a null runtime counting as 0. */
  function WholeSeconds(ticks: Option<int>): int
  {
    TruncDiv(if ticks.Some? then ticks.value else 0, TicksPerSecond)
  }

  /** `Math.Max` and `Math.Min` on `int`. */
  function Max(a: int, b: int): int { if a >= b then a else b }

  function Min(a: int, b: int): int { if a <= b then a else b }

  function Seconds(s: ScoredSong): int
  {
    WholeSeconds(s.song.runtimeTicks)
  }

  /** The running `totalSeconds` of a playlist: the sum of its songs' whole seconds. */
  function SumSeconds(xs: seq<ScoredSong>): int
  {
    if xs == [] then 0 else SumSeconds(xs[..|xs| - 1]) + Seconds(xs[|xs| - 1])
  }

  lemma SumSecondsAppend(xs: seq<ScoredSong>, x: ScoredSong)
    ensures SumSeconds(xs + [x]) == SumSeconds(xs) + Seconds(x)
  {
    assert (xs + [x])[..|xs|] == xs;
  }

  /** The set of song ids in a list: what `seenGuids` holds for it. */
  function IdSet(xs: seq<ScoredSong>): set<Guid>
  {
    set i | 0 <= i < |xs| :: xs[i].song.id
  }

  lemma IdSetAppend(xs: seq<ScoredSong>, x: ScoredSong)
    ensures IdSet(xs + [x]) == IdSet(xs) + {x.song.id}
  {
    var ys := xs + [x];
    forall g | g in IdSet(ys) ensures g in IdSet(xs) + {x.song.id} {
      var i :| 0 <= i < |ys| && ys[i].song.id == g;
      if i < |xs| { assert xs[i] == ys[i]; }
    }
    forall g | g in IdSet(xs) + {x.song.id} ensures g in IdSet(ys) {
      if g in IdSet(xs) {
        var i :| 0 <= i < |xs| && xs[i].song.id == g;
        assert ys[i] == xs[i];
      } else {
        assert ys[|xs|] == x;
      }
    }
  }

  lemma IdSetConcat(xs: seq<ScoredSong>, ys: seq<ScoredSong>)
    ensures IdSet(xs + ys) == IdSet(xs) + IdSet(ys)
  {
    var zs := xs + ys;
    forall g | g in IdSet(zs) ensures g in IdSet(xs) + IdSet(ys) {
      var i :| 0 <= i < |zs| && zs[i].song.id == g;
      if i >= |xs| {
        assert ys[i - |xs|] == zs[i];
      }
    }
    forall g | g in IdSet(xs) ensures g in IdSet(zs) {
      var i :| 0 <= i < |xs| && xs[i].song.id == g;
      assert zs[i] == xs[i];
    }
    forall g | g in IdSet(ys) ensures g in IdSet(zs) {
      var i :| 0 <= i < |ys| && ys[i].song.id == g;
      assert zs[|xs| + i] == ys[i];
    }
  }

  /** No two entries of the list carry the same song id. */
  predicate DistinctIds(xs: seq<ScoredSong>)
  {
    forall i, j :: 0 <= i < j < |xs| ==> xs[i].song.id != xs[j].song.id
  }

  lemma DistinctIdsAppend(xs: seq<ScoredSong>, x: ScoredSong)
    requires DistinctIds(xs) && x.song.id !in IdSet(xs)
    ensures DistinctIds(xs + [x])
  {
    var ys := xs + [x];
    forall i, j | 0 <= i < j < |ys| ensures ys[i].song.id != ys[j].song.id {
      assert ys[i] == xs[i];
      if j < |xs| { assert ys[j] == xs[j]; } else { assert xs[i].song.id in IdSet(xs); }
    }
  }

  /**
   * `xs` is an order-preserving subsequence of `ys`. Matching the last elements
   * greedily is complete, so the definition recurses from the back, the end at
   * which the source's loops append.
   */
  predicate IsSubsequence<T(==)>(xs: seq<T>, ys: seq<T>)
    decreases |ys|
  {
    xs == [] ||
    (ys != [] &&
     if xs[|xs| - 1] == ys[|ys| - 1] then IsSubsequence(xs[..|xs| - 1], ys[..|ys| - 1])
     else IsSubsequence(xs, ys[..|ys| - 1]))
  }

  lemma SubsequenceBoth<T>(xs: seq<T>, ys: seq<T>, y: T)
    requires IsSubsequence(xs, ys)
    ensures IsSubsequence(xs + [y], ys + [y])
  {
    assert (xs + [y])[..|xs|] == xs;
    assert (ys + [y])[..|ys|] == ys;
  }

  lemma {:induction false} SubsequenceSkip<T>(xs: seq<T>, ys: seq<T>, y: T)
    requires IsSubsequence(xs, ys)
    ensures IsSubsequence(xs, ys + [y])
    decreases |ys|, 1
  {
    assert (ys + [y])[..|ys|] == ys;
    if xs != [] && xs[|xs| - 1] == y {
      SubsequenceDropLast(xs, ys);
    }
  }

  lemma {:induction false} SubsequenceDropLast<T>(xs: seq<T>, ys: seq<T>)
    requires xs != [] && IsSubsequence(xs, ys)
    ensures IsSubsequence(xs[..|xs| - 1], ys)
    decreases |ys|, 0
  {
    var ys' := ys[..|ys| - 1];
    assert ys == ys' + [ys[|ys| - 1]];
    if xs[|xs| - 1] == ys[|ys| - 1] {
      SubsequenceSkip(xs[..|xs| - 1], ys', ys[|ys| - 1]);
    } else {
      SubsequenceDropLast(xs, ys');
      SubsequenceSkip(xs[..|xs| - 1], ys', ys[|ys| - 1]);
    }
  }

  /** Every element of a subsequence is an element of the whole. */
  lemma {:induction false} SubsequenceMembers<T>(xs: seq<T>, ys: seq<T>)
    requires IsSubsequence(xs, ys)
    ensures forall x :: x in xs ==> x in ys
    decreases |ys|
  {
    if xs != [] {
      var xs', ys' := xs[..|xs| - 1], ys[..|ys| - 1];
      assert xs == xs' + [xs[|xs| - 1]] && ys == ys' + [ys[|ys| - 1]];
      if xs[|xs| - 1] == ys[|ys| - 1] {
        SubsequenceMembers(xs', ys');
      } else {
        SubsequenceMembers(xs, ys');
      }
    }
  }

  /** LINQ `xs.Where(p).ToList()`. */
  function Where<T>(xs: seq<T>, p: T -> bool): seq<T>
  {
    if xs == [] then []
    else Where(xs[..|xs| - 1], p) + (if p(xs[|xs| - 1]) then [xs[|xs| - 1]] else [])
  }

  /** `Where` keeps, in their order, exactly the elements that satisfy the predicate. */
  lemma {:induction false} WhereKeepsExactly<T>(xs: seq<T>, p: T -> bool)
    ensures IsSubsequence(Where(xs, p), xs)
    ensures forall x :: x in Where(xs, p) <==> x in xs && p(x)
  {
    if xs != [] {
      var xs', last := xs[..|xs| - 1], xs[|xs| - 1];
      assert xs == xs' + [last];
      WhereKeepsExactly(xs', p);
      if p(last) {
        SubsequenceBoth(Where(xs', p), xs', last);
      } else {
        assert Where(xs, p) == Where(xs', p);
        SubsequenceSkip(Where(xs', p), xs', last);
      }
    }
  }

  /** A filter that rejects nothing returns the list unchanged. */
  lemma {:induction false} WhereAll<T>(xs: seq<T>, p: T -> bool)
    requires forall x :: x in xs ==> p(x)
    ensures Where(xs, p) == xs
  {
    if xs != [] {
      var xs' := xs[..|xs| - 1];
      assert xs == xs' + [xs[|xs| - 1]];
      WhereAll(xs', p);
    }
  }
}
