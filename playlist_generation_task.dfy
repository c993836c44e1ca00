/**
 * The newer generation's scheduled task `ExecuteAsync`: filter the audio items,
 * score every eligible song for the configured user, seed the recommendations
 * with the 20 best, gather similar, genre and artist candidates, assemble the
 * playlist and hand it to `CreatePlaylist`. The per-song score and artist id are
 * inputs (`score`, `artistOf`): they stand for the `ScoredSong` constructor of
 * `Scoring.Create`, which this call site invokes with four arguments where that
 * constructor takes five.
 */
module PlaylistGenerationTask {
  import opened Catalog
  import opened Configuration
  import opened Recommender
  import opened Selection
  import Greedy
  import PlaylistService

  /** `new ScoredSong(song, ...)`: the album id is the parent id. */
  function Rate(song: Song, score: Song -> real, artistOf: Song -> Guid): ScoredSong
  {
    ScoredSong(song, score(song), song.parentId, artistOf(song))
  }

  /** The scored list: one entry per eligible song, in the same order. */
  function ScoreAll(songs: seq<Song>, score: Song -> real, artistOf: Song -> Guid): seq<ScoredSong>
  {
    seq(|songs|, i requires 0 <= i < |songs| => Rate(songs[i], score, artistOf))
  }

  /** The seed list `topSongs` of a run. */
  function Seeds(allAudio: seq<Song>, config: Config, score: Song -> real, artistOf: Song -> Guid): seq<ScoredSong>
  {
    TopSongs(ScoreAll(Eligible(allAudio, config.excludeTime), score, artistOf))
  }

  /**
   * `allSongs`: the seeds, then their similar songs, the genre pool and the
   * artist pool; `None` when either pool query throws.
   */
  function Candidates(seeds: seq<ScoredSong>, lib: Library, c: real): Option<seq<ScoredSong>>
  {
    var byGenre, byArtist := GenrePool(seeds, lib, c), ArtistPool(seeds, lib, c);
    if byGenre.None? || byArtist.None? then None
    else Some(seeds + Similar(seeds, lib) + byGenre.value + byArtist.value)
  }

  /**
   * With a non-negative `ExcludeTime` every eligible song has a runtime, so the
   * first candidate is playable and phase 1 cannot come out empty for a positive
   * duration: the empty-playlist exception of the fill loop is then out of reach.
   */
  lemma FirstPassNonEmpty(allAudio: seq<Song>, config: Config, score: Song -> real, artistOf: Song -> Guid, lib: Library)
    requires config.excludeTime >= 0 && config.playlistDuration > 0
    requires Eligible(allAudio, config.excludeTime) != []
    requires Candidates(Seeds(allAudio, config, score, artistOf), lib, config.explorationCoefficient).Some?
    ensures Greedy.Phase1(Candidates(Seeds(allAudio, config, score, artistOf), lib, config.explorationCoefficient).value,
                          config.playlistDuration * 60) != []
  {
    var eligible := Eligible(allAudio, config.excludeTime);
    var scored := ScoreAll(eligible, score, artistOf);
    var seeds := Seeds(allAudio, config, score, artistOf);
    var cands := Candidates(seeds, lib, config.explorationCoefficient).value;
    TopSongsNonEmpty(scored);
    var j :| 0 <= j < |scored| && scored[j] == seeds[0];
    EligibleHaveRuntime(allAudio, config.excludeTime);
    assert eligible[j] in eligible;
    assert cands[0] == seeds[0];
    Greedy.Phase1EmptyIff(cands, config.playlistDuration * 60);
  }

  /**
   * Under the default settings (6 hours, `ExcludeTime` 0) phase 1 is never empty
   * once some song is eligible, so the default run cannot index an empty playlist.
   */
  lemma DefaultFirstPassNonEmpty(allAudio: seq<Song>, score: Song -> real, artistOf: Song -> Guid, lib: Library)
    requires Eligible(allAudio, DefaultConfig.excludeTime) != []
    requires Candidates(Seeds(allAudio, DefaultConfig, score, artistOf), lib, DefaultConfig.explorationCoefficient).Some?
    ensures Greedy.Phase1(Candidates(Seeds(allAudio, DefaultConfig, score, artistOf), lib,
                                     DefaultConfig.explorationCoefficient).value, DefaultConfig.playlistDuration * 60) != []
  {
    FirstPassNonEmpty(allAudio, DefaultConfig, score, artistOf, lib);
  }

  /**
   * One run of `ExecuteAsync`. `userFound` is whether `GetUserByName` found the
   * configured user, `lib` the host's catalog queries, `fuel` the most fill rounds
   * the model runs. The outcome is decided by which stage stops the run, and a
   * created playlist is an assembly of this run's candidates with fillers that
   * have a parent. The shuffled copy is computed and dropped, so the playlist is
   * created in assembly order.
   */
  method ExecuteAsync(allAudio: seq<Song>, config: Config, userFound: bool, score: Song -> real,
                      artistOf: Song -> Guid, lib: Library, fuel: nat)
    returns (outcome: Outcome, ghost origin: seq<nat>, ghost picks: seq<nat>)
    ensures outcome == NoMusic <==> allAudio == []
    ensures outcome == NoMusicAfterFiltering <==> allAudio != [] && Eligible(allAudio, config.excludeTime) == []
    ensures outcome == UserNotFound <==> Eligible(allAudio, config.excludeTime) != [] && !userFound
    ensures var cands := Candidates(Seeds(allAudio, config, score, artistOf), lib, config.explorationCoefficient);
      outcome == Threw(EmptyPool) <==> Eligible(allAudio, config.excludeTime) != [] && userFound && cands.None?
    ensures var cands := Candidates(Seeds(allAudio, config, score, artistOf), lib, config.explorationCoefficient);
      outcome == Threw(IndexOutOfRange) <==>
        Eligible(allAudio, config.excludeTime) != [] && userFound && cands.Some? &&
        Greedy.Phase1(cands.value, config.playlistDuration * 60) == [] && config.playlistDuration * 60 > 0 && fuel > 0
    ensures outcome == Threw(IndexOutOfRange) ==> config.excludeTime < 0
    ensures var cands := Candidates(Seeds(allAudio, config, score, artistOf), lib, config.explorationCoefficient);
      outcome.Created? ==>
        cands.Some? && SumSeconds(outcome.items) >= config.playlistDuration * 60 &&
        Greedy.Extends(cands.value, config.playlistDuration, lib, true, outcome.items, origin) &&
        Greedy.ValidPicks(Greedy.Phase1(cands.value, config.playlistDuration * 60), picks, lib, true) &&
        outcome.items == Greedy.Fill(Greedy.Phase1(cands.value, config.playlistDuration * 60), picks, lib, true)
  {
    origin, picks := [], [];
    if |allAudio| <= 0 {
      return NoMusic, origin, picks;
    }
    var songs := Eligible(allAudio, config.excludeTime);
    if |songs| <= 0 {
      return NoMusicAfterFiltering, origin, picks;
    }
    if !userFound {
      return UserNotFound, origin, picks;
    }
    var songList := [];
    for i := 0 to |songs|
      invariant |songList| == i && forall j :: 0 <= j < i ==> songList[j] == Rate(songs[j], score, artistOf)
    {
      songList := songList + [Rate(songs[i], score, artistOf)];
    }
    assert songList == ScoreAll(songs, score, artistOf);
    var c := config.explorationCoefficient;
    var topSongs := TopSongs(songList);
    var similarBySong := RecommendSimilar(topSongs, lib);
    var similarByGenre := RecommendByGenre(topSongs, lib, c);
    if similarByGenre.None? {
      return Threw(EmptyPool), origin, picks;
    }
    var similarByArtist := RecommendByArtist(topSongs, lib, c);
    if similarByArtist.None? {
      return Threw(EmptyPool), origin, picks;
    }
    var allSongs := topSongs + similarBySong + similarByGenre.value + similarByArtist.value;
    // the log line reads `allSongs[0]`, which the non-empty seed list provides
    TopSongsNonEmpty(songList);
    var highest := allSongs[0].score;
    var assembled;
    assembled, origin, picks := Greedy.Assemble(allSongs, config.playlistDuration, lib, fuel, true);
    if config.excludeTime >= 0 && config.playlistDuration > 0 {
      FirstPassNonEmpty(allAudio, config, score, artistOf, lib);
    }
    match assembled
    case IndexOutOfRange =>
      return Threw(IndexOutOfRange), origin, picks;
    case Unfinished(_) =>
      return Unfinished, origin, picks;
    case Assembled(assembledPlaylist) =>
      var shuffled, _ := PlaylistService.GentleShuffle(assembledPlaylist, 5);
      return Created(assembledPlaylist), origin, picks;
  }
}
