/**
 * The recommender of the newer generation: the "similar to" expansion of a seed
 * list, the artist and genre pools and the exploration filter applied to them.
 * The older generation's `FilterByExploration`, `RecommendSimilar` and
 * `RecommendByGenre` are the same code and are modelled here once; its
 * `RecommendByArtist` differs and lives in `LegacyRecommender`.
 */
module Recommender {
  import opened Catalog

  /** The `Limit` of the "similar to" query and of the artist and genre queries. */
  const SimilarLimit: nat := 3
  const PoolLimit: nat := 50

  /** The exploration coefficient of the default configuration: no filtering. */
  const DefaultExploration: real := 3.0

  /** The IEEE-754 double nearest to the literal `0.2`, written out exactly. */
  const PointTwo: real := 0.200000000000000011102230246251565404236316680908203125

  /**
   * The catalog queries the recommender issues, each result already scored for the
   * user (the `new ScoredSong(...)` applied to every returned item), in the order
   * the catalog returns them. A query's `Limit` keeps a prefix of its result.
   */
  datatype Library = Library(
    similarTo: Song -> seq<ScoredSong>,
    byArtists: set<Guid> -> seq<ScoredSong>,
    byGenres: set<string> -> seq<ScoredSong>)

  /** A query result cut to the query's `Limit`. */
  function Limit(xs: seq<ScoredSong>, n: nat): (r: seq<ScoredSong>)
    ensures |r| == if |xs| <= n then |xs| else n
    ensures r == xs[..|r|]
  {
    if |xs| <= n then xs else xs[..n]
  }

  function SimilarOf(s: ScoredSong, lib: Library): seq<ScoredSong>
  {
    Limit(lib.similarTo(s.song), SimilarLimit)
  }

  /** Reference definition of what `RecommendSimilar` returns. */
  function Similar(seeds: seq<ScoredSong>, lib: Library): seq<ScoredSong>
  {
    if seeds == [] then [] else Similar(seeds[..|seeds| - 1], lib) + SimilarOf(seeds[|seeds| - 1], lib)
  }

  /** Each seed's (limited) similar songs, appended to one list in seed order. */
  method RecommendSimilar(seeds: seq<ScoredSong>, lib: Library) returns (recommendations: seq<ScoredSong>)
    ensures recommendations == Similar(seeds, lib)
  {
    recommendations := [];
    for i := 0 to |seeds|
      invariant recommendations == Similar(seeds[..i], lib)
    {
      assert seeds[..i + 1][..i] == seeds[..i];
      recommendations := recommendations + SimilarOf(seeds[i], lib);
    }
    assert seeds[..|seeds|] == seeds;
  }

  /** A song is recommended exactly when it is among the similar songs of some seed. */
  lemma {:induction false} SimilarMembers(seeds: seq<ScoredSong>, lib: Library)
    ensures forall x :: x in Similar(seeds, lib) <==> exists j :: 0 <= j < |seeds| && x in SimilarOf(seeds[j], lib)
  {
    if seeds != [] {
      var n := |seeds| - 1;
      SimilarMembers(seeds[..n], lib);
      forall x ensures x in Similar(seeds, lib) <==> exists j :: 0 <= j < |seeds| && x in SimilarOf(seeds[j], lib) {
        if x in Similar(seeds[..n], lib) {
          var j :| 0 <= j < n && x in SimilarOf(seeds[..n][j], lib);
          assert seeds[..n][j] == seeds[j];
        }
        if exists j :: 0 <= j < |seeds| && x in SimilarOf(seeds[j], lib) {
          var j :| 0 <= j < |seeds| && x in SimilarOf(seeds[j], lib);
          if j < n { assert seeds[..n][j] == seeds[j]; }
        }
      }
    }
  }

  /** At most `Limit = 3` recommendations per seed. */
  lemma {:induction false} SimilarBound(seeds: seq<ScoredSong>, lib: Library)
    ensures |Similar(seeds, lib)| <= SimilarLimit * |seeds|
  {
    if seeds != [] {
      SimilarBound(seeds[..|seeds| - 1], lib);
    }
  }

  /** The filler query of playlist assembly asks about one seed. */
  lemma SimilarSingle(s: ScoredSong, lib: Library)
    ensures Similar([s], lib) == SimilarOf(s, lib)
  {
    assert [s][..0] == [];
  }

  function MinScore(xs: seq<ScoredSong>): (m: real)
    requires xs != []
    ensures exists i :: 0 <= i < |xs| && xs[i].score == m
    ensures forall i :: 0 <= i < |xs| ==> m <= xs[i].score
  {
    if |xs| == 1 then xs[0].score
    else
      var rest := MinScore(xs[..|xs| - 1]);
      assert forall i :: 0 <= i < |xs| - 1 ==> xs[..|xs| - 1][i] == xs[i];
      if xs[|xs| - 1].score < rest then xs[|xs| - 1].score else rest
  }

  function MaxScore(xs: seq<ScoredSong>): (m: real)
    requires xs != []
    ensures exists i :: 0 <= i < |xs| && xs[i].score == m
    ensures forall i :: 0 <= i < |xs| ==> xs[i].score <= m
  {
    if |xs| == 1 then xs[0].score
    else
      var rest := MaxScore(xs[..|xs| - 1]);
      assert forall i :: 0 <= i < |xs| - 1 ==> xs[..|xs| - 1][i] == xs[i];
      if xs[|xs| - 1].score > rest then xs[|xs| - 1].score else rest
  }

  function RealMin(a: real, b: real): real { if a <= b then a else b }
  function RealMax(a: real, b: real): real { if a >= b then a else b }

  /**
   * The level table of the threshold filter, stated per score: which scores a
   * coefficient keeps, given the pool's minimum and maximum score.
   */
  predicate LevelAdmits(c: real, minScore: real, maxScore: real, score: real)
  {
    if c == 1.0 then score > maxScore / 2.0
    else if c == 2.0 then score > RealMin(maxScore, PointTwo) / 4.0
    else if c == 4.0 then score < RealMax(minScore, PointTwo) * 4.0
    else if c == 5.0 then score < minScore * 2.0
    else true
  }

  /** The level table as the predicate handed to `Where`. */
  function Admits(c: real, minScore: real, maxScore: real): ScoredSong -> bool
  {
    (s: ScoredSong) => LevelAdmits(c, minScore, maxScore, s.score)
  }

  /**
   * The `switch` on the exploration coefficient: coefficients 1, 2, 4 and 5 select
   * a `Where` filter, 3 and every other value return the pool itself. `None` is
   * the `InvalidOperationException` that `Min`/`Max` throw on an empty pool.
   */
  function FilterByExploration(songs: seq<ScoredSong>, c: real): (r: Option<seq<ScoredSong>>)
    ensures r.None? <==> songs == []
  {
    if songs == [] then None
    else if c == 1.0 || c == 2.0 || c == 4.0 || c == 5.0 then
      Some(Where(songs, Admits(c, MinScore(songs), MaxScore(songs))))
    else Some(songs)
  }

  /**
   * A non-empty pool is filtered to an order-preserving sublist holding exactly
   * the songs whose score the level admits.
   */
  lemma ExplorationKeepsExactly(songs: seq<ScoredSong>, c: real)
    requires songs != []
    ensures FilterByExploration(songs, c).Some?
    ensures var kept := FilterByExploration(songs, c).value;
      IsSubsequence(kept, songs) &&
      forall s :: s in kept <==> s in songs && LevelAdmits(c, MinScore(songs), MaxScore(songs), s.score)
  {
    var p := Admits(c, MinScore(songs), MaxScore(songs));
    WhereKeepsExactly(songs, p);
    if !(c == 1.0 || c == 2.0 || c == 4.0 || c == 5.0) {
      WhereAll(songs, p);
    }
  }

  /** A coefficient other than exactly 1, 2, 4 or 5 (3 included, 2.5 too) filters nothing. */
  lemma ExplorationNeutral(songs: seq<ScoredSong>, c: real)
    requires songs != [] && c != 1.0 && c != 2.0 && c != 4.0 && c != 5.0
    ensures FilterByExploration(songs, c) == Some(songs)
  {
  }

  /** Level 1 keeps a top-scored song exactly when the top score is positive; so all-zero pools come back empty. */
  lemma ExploitationTop(songs: seq<ScoredSong>, i: nat)
    requires i < |songs| && songs[i].score == MaxScore(songs)
    ensures songs[i] in FilterByExploration(songs, 1.0).value <==> MaxScore(songs) > 0.0
    ensures MaxScore(songs) <= 0.0 ==> FilterByExploration(songs, 1.0) == Some([])
  {
    ExplorationKeepsExactly(songs, 1.0);
  }

  /** Level 5 keeps `score < 2*min`: a bottom-scored song survives exactly when the minimum is positive. */
  lemma ExplorationBottom(songs: seq<ScoredSong>, i: nat)
    requires i < |songs| && songs[i].score == MinScore(songs)
    ensures songs[i] in FilterByExploration(songs, 5.0).value <==> MinScore(songs) > 0.0
    ensures MinScore(songs) <= 0.0 ==> FilterByExploration(songs, 5.0) == Some([])
  {
    ExplorationKeepsExactly(songs, 5.0);
  }

  /** Level 2's cut-off never exceeds 0.2/4 and level 4's is never below 0.2*4. */
  lemma ExplorationCutoffs(songs: seq<ScoredSong>)
    requires songs != []
    ensures forall s :: s in songs && s.score > PointTwo / 4.0 ==> s in FilterByExploration(songs, 2.0).value
    ensures forall s :: s in songs && s.score < PointTwo * 4.0 ==> s in FilterByExploration(songs, 4.0).value
  {
    ExplorationKeepsExactly(songs, 2.0);
    ExplorationKeepsExactly(songs, 4.0);
  }

  /** The artist query set: the distinct non-empty `ArtistId`s of the seeds. */
  function ArtistKeys(seeds: seq<ScoredSong>): set<Guid>
  {
    set j | 0 <= j < |seeds| && seeds[j].artistId != EmptyGuid :: seeds[j].artistId
  }

  /** The genre query set: the union of the seeds' `Genres`. */
  function GenreKeys(seeds: seq<ScoredSong>): set<string>
  {
    set j, g | 0 <= j < |seeds| && g in seeds[j].song.genres :: g
  }

  /** The pool `RecommendByArtist` returns, or `None` when the query came back empty and the filter threw. */
  function ArtistPool(seeds: seq<ScoredSong>, lib: Library, c: real): Option<seq<ScoredSong>>
  {
    FilterByExploration(Limit(lib.byArtists(ArtistKeys(seeds)), PoolLimit), c)
  }

  function GenrePool(seeds: seq<ScoredSong>, lib: Library, c: real): Option<seq<ScoredSong>>
  {
    FilterByExploration(Limit(lib.byGenres(GenreKeys(seeds)), PoolLimit), c)
  }

  method RecommendByArtist(seeds: seq<ScoredSong>, lib: Library, c: real) returns (r: Option<seq<ScoredSong>>)
    ensures r == ArtistPool(seeds, lib, c)
  {
    var allArtists: set<Guid> := {};
    for i := 0 to |seeds|
      invariant allArtists == ArtistKeys(seeds[..i])
    {
      assert forall j :: 0 <= j < i ==> seeds[..i + 1][j] == seeds[..i][j];
      if seeds[i].artistId == EmptyGuid {
        assert ArtistKeys(seeds[..i + 1]) == ArtistKeys(seeds[..i]);
        continue;
      }
      allArtists := allArtists + {seeds[i].artistId};
      assert ArtistKeys(seeds[..i + 1]) == ArtistKeys(seeds[..i]) + {seeds[i].artistId};
    }
    assert seeds[..|seeds|] == seeds;
    var potentialSongs := Limit(lib.byArtists(allArtists), PoolLimit);
    r := FilterByExploration(potentialSongs, c);
  }

  method RecommendByGenre(seeds: seq<ScoredSong>, lib: Library, c: real) returns (r: Option<seq<ScoredSong>>)
    ensures r == GenrePool(seeds, lib, c)
  {
    var allGenres: set<string> := {};
    for i := 0 to |seeds|
      invariant allGenres == GenreKeys(seeds[..i])
    {
      var genres := seeds[i].song.genres;
      allGenres := allGenres + (set g | g in genres);
      assert forall j :: 0 <= j < i ==> seeds[..i + 1][j] == seeds[..i][j];
      assert GenreKeys(seeds[..i + 1]) == GenreKeys(seeds[..i]) + (set g | g in genres);
    }
    assert seeds[..|seeds|] == seeds;
    var potentialSongs := Limit(lib.byGenres(allGenres), PoolLimit);
    r := FilterByExploration(potentialSongs, c);
  }

  /** The artist query asks exactly for the non-empty artist ids that occur among the seeds. */
  lemma ArtistKeysExactly(seeds: seq<ScoredSong>, a: Guid)
    ensures a in ArtistKeys(seeds) <==> a != EmptyGuid && exists j :: 0 <= j < |seeds| && seeds[j].artistId == a
  {
  }

  /** The genre query asks exactly for the genres that occur on some seed. */
  lemma GenreKeysExactly(seeds: seq<ScoredSong>, g: string)
    ensures g in GenreKeys(seeds) <==> exists j :: 0 <= j < |seeds| && g in seeds[j].song.genres
  {
  }
}
