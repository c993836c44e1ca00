/**
 * The older generation's `RecommendByArtist`. Its seed loop leaves the loop at
 * the first seed before adding anything, so the artist query always asks for
 * the empty artist set: the pool does not depend on the seeds at all.
 */
module LegacyRecommender {
  import opened Catalog
  import opened Recommender

  method RecommendByArtist(seeds: seq<ScoredSong>, lib: Library, c: real) returns (r: Option<seq<ScoredSong>>)
    ensures r == FilterByExploration(Limit(lib.byArtists({}), PoolLimit), c)
    ensures r == ArtistPool([], lib, c)
  {
    var allArtists: set<Guid> := {};
    for i := 0 to |seeds|
      invariant allArtists == {}
    {
      break;
    }
    var potentialSongs := Limit(lib.byArtists(allArtists), PoolLimit);
    r := FilterByExploration(potentialSongs, c);
    assert ArtistKeys([]) == {};
  }
}
