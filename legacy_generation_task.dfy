/**
 * The older generation's scheduled task `ExecuteAsync`. It differs from the newer
 * one in three places: songs are scored by the older `ScoredSong` constructor,
 * there is no artist pool among the candidates, and the assembled list is
 * shuffled in place before it is handed to `CreatePlaylist`. The host's per-user
 * data of each song (`userData`) and the clock (`now`) are inputs.
 */
module LegacyGenerationTask {
  import opened Catalog
  import opened Configuration
  import opened Recommender
  import opened Selection
  import Scoring
  import LegacyScoring
  import Greedy
  import LegacyPlaylistService

  /** The scored list: one entry per eligible song, in the same order. */
  function ScoreAll(songs: seq<Song>, userData: Song -> Scoring.UserData, now: int, curves: LegacyScoring.Curves)
    : seq<ScoredSong>
  {
    seq(|songs|, i requires 0 <= i < |songs| => LegacyScoring.Create(songs[i], userData(songs[i]), now, curves))
  }

  /** The seed list `topSongs` of a run. */
  function Seeds(allAudio: seq<Song>, config: Config, userData: Song -> Scoring.UserData, now: int,
                 curves: LegacyScoring.Curves): seq<ScoredSong>
  {
    TopSongs(ScoreAll(Eligible(allAudio, config.excludeTime), userData, now, curves))
  }

  /** `allSongs`: the seeds, their similar songs and the genre pool; `None` when the pool query throws. */
  function Candidates(seeds: seq<ScoredSong>, lib: Library, c: real): Option<seq<ScoredSong>>
  {
    var byGenre := GenrePool(seeds, lib, c);
    if byGenre.None? then None else Some(seeds + Similar(seeds, lib) + byGenre.value)
  }

  /** Every seed is an eligible song scored by the older constructor, so it has no artist. */
  lemma SeedsHaveNoArtist(allAudio: seq<Song>, config: Config, userData: Song -> Scoring.UserData, now: int,
                          curves: LegacyScoring.Curves)
    ensures forall s :: s in Seeds(allAudio, config, userData, now, curves) ==>
      s.artistId == EmptyGuid && s.song in Eligible(allAudio, config.excludeTime)
  {
    var eligible := Eligible(allAudio, config.excludeTime);
    var scored := ScoreAll(eligible, userData, now, curves);
    TopSongsSpec(scored);
    forall s | s in Seeds(allAudio, config, userData, now, curves)
      ensures s.artistId == EmptyGuid && s.song in eligible
    {
      var k :| 0 <= k < |Seeds(allAudio, config, userData, now, curves)| && Seeds(allAudio, config, userData, now, curves)[k] == s;
      var j := Ranking(scored, |scored|)[k];
      assert s == scored[j];
      assert eligible[j] in eligible;
    }
  }

  /**
   * As in the newer task, a non-negative `ExcludeTime` and a positive duration
   * keep phase 1 from coming out empty.
   */
  lemma FirstPassNonEmpty(allAudio: seq<Song>, config: Config, userData: Song -> Scoring.UserData, now: int,
                          curves: LegacyScoring.Curves, lib: Library)
    requires config.excludeTime >= 0 && config.playlistDuration > 0
    requires Eligible(allAudio, config.excludeTime) != []
    requires Candidates(Seeds(allAudio, config, userData, now, curves), lib, config.explorationCoefficient).Some?
    ensures Greedy.Phase1(Candidates(Seeds(allAudio, config, userData, now, curves), lib,
                                     config.explorationCoefficient).value, config.playlistDuration * 60) != []
  {
    var scored := ScoreAll(Eligible(allAudio, config.excludeTime), userData, now, curves);
    var seeds := Seeds(allAudio, config, userData, now, curves);
    var cands := Candidates(seeds, lib, config.explorationCoefficient).value;
    TopSongsNonEmpty(scored);
    SeedsHaveNoArtist(allAudio, config, userData, now, curves);
    assert seeds[0] in seeds;
    EligibleHaveRuntime(allAudio, config.excludeTime);
    assert cands[0] == seeds[0];
    Greedy.Phase1EmptyIff(cands, config.playlistDuration * 60);
  }

  /**
   * The older shuffle applied to the assembled list object, modelled as a fresh
   * array holding the playlist: with `k = 5` it cannot throw, and the result is
   * the playlist with each entry swapped with a partner at most 5 places away.
   */
  method ShuffleList(playlist: seq<ScoredSong>) returns (items: seq<ScoredSong>, ghost partners: seq<int>)
    ensures |partners| == |playlist| && LegacyPlaylistService.InRange(partners, |playlist|)
    ensures LegacyPlaylistService.InWindows(partners, |playlist|, 5)
    ensures items == LegacyPlaylistService.ApplySwaps(playlist, partners)
    ensures multiset(items) == multiset(playlist)
  {
    var list := new ScoredSong[|playlist|](i requires 0 <= i < |playlist| => playlist[i]);
    assert forall j :: 0 <= j < list.Length ==> list[j] == playlist[j];
    assert list[..] == playlist;
    var thrown;
    thrown, partners := LegacyPlaylistService.GentleShuffle(list, 5);
    LegacyPlaylistService.ApplySwapsPreservesElements(playlist, partners);
    items := list[..];
  }

  /**
   * One run of the older `ExecuteAsync`. The outcome is decided by which stage
   * stops the run; a created playlist is a rearrangement, by the older in-place
   * shuffle with `k = 5`, of an assembly of this run's candidates.
   */
  method ExecuteAsync(allAudio: seq<Song>, config: Config, userFound: bool, userData: Song -> Scoring.UserData,
                      now: int, curves: LegacyScoring.Curves, lib: Library, fuel: nat)
    returns (outcome: Outcome, ghost assembled: seq<ScoredSong>, ghost origin: seq<nat>, ghost picks: seq<nat>,
             ghost partners: seq<int>)
    ensures outcome == NoMusic <==> allAudio == []
    ensures outcome == NoMusicAfterFiltering <==> allAudio != [] && Eligible(allAudio, config.excludeTime) == []
    ensures outcome == UserNotFound <==> Eligible(allAudio, config.excludeTime) != [] && !userFound
    ensures var cands := Candidates(Seeds(allAudio, config, userData, now, curves), lib, config.explorationCoefficient);
      outcome == Threw(EmptyPool) <==> Eligible(allAudio, config.excludeTime) != [] && userFound && cands.None?
    ensures var cands := Candidates(Seeds(allAudio, config, userData, now, curves), lib, config.explorationCoefficient);
      outcome == Threw(IndexOutOfRange) <==>
        Eligible(allAudio, config.excludeTime) != [] && userFound && cands.Some? &&
        Greedy.Phase1(cands.value, config.playlistDuration * 60) == [] && config.playlistDuration * 60 > 0 && fuel > 0
    ensures outcome == Threw(IndexOutOfRange) ==> config.excludeTime < 0
    ensures var cands := Candidates(Seeds(allAudio, config, userData, now, curves), lib, config.explorationCoefficient);
      outcome.Created? ==>
        cands.Some? && SumSeconds(assembled) >= config.playlistDuration * 60 &&
        Greedy.Extends(cands.value, config.playlistDuration, lib, false, assembled, origin) &&
        Greedy.ValidPicks(Greedy.Phase1(cands.value, config.playlistDuration * 60), picks, lib, false) &&
        assembled == Greedy.Fill(Greedy.Phase1(cands.value, config.playlistDuration * 60), picks, lib, false) &&
        |partners| == |assembled| && LegacyPlaylistService.InRange(partners, |assembled|) &&
        LegacyPlaylistService.InWindows(partners, |assembled|, 5) &&
        outcome.items == LegacyPlaylistService.ApplySwaps(assembled, partners) &&
        multiset(outcome.items) == multiset(assembled)
  {
    origin, assembled, picks, partners := [], [], [], [];
    if |allAudio| <= 0 {
      return NoMusic, assembled, origin, picks, partners;
    }
    var songs := Eligible(allAudio, config.excludeTime);
    if |songs| <= 0 {
      return NoMusicAfterFiltering, assembled, origin, picks, partners;
    }
    if !userFound {
      return UserNotFound, assembled, origin, picks, partners;
    }
    var songList := [];
    for i := 0 to |songs|
      invariant |songList| == i
      invariant forall j :: 0 <= j < i ==> songList[j] == LegacyScoring.Create(songs[j], userData(songs[j]), now, curves)
    {
      songList := songList + [LegacyScoring.Create(songs[i], userData(songs[i]), now, curves)];
    }
    assert songList == ScoreAll(songs, userData, now, curves);
    var c := config.explorationCoefficient;
    var topSongs := TopSongs(songList);
    var similarBySong := RecommendSimilar(topSongs, lib);
    var similarByGenre := RecommendByGenre(topSongs, lib, c);
    if similarByGenre.None? {
      return Threw(EmptyPool), assembled, origin, picks, partners;
    }
    var allSongs := topSongs + similarBySong + similarByGenre.value;
    // the log line reads `allSongs[0]`, which the non-empty seed list provides
    TopSongsNonEmpty(songList);
    var highest := allSongs[0].score;
    var result;
    result, origin, picks := Greedy.Assemble(allSongs, config.playlistDuration, lib, fuel, false);
    if config.excludeTime >= 0 && config.playlistDuration > 0 {
      FirstPassNonEmpty(allAudio, config, userData, now, curves, lib);
    }
    match result
    case IndexOutOfRange =>
      return Threw(IndexOutOfRange), assembled, origin, picks, partners;
    case Unfinished(_) =>
      return Unfinished, assembled, origin, picks, partners;
    case Assembled(assembledPlaylist) =>
      assembled := assembledPlaylist;
      var items;
      items, partners := ShuffleList(assembledPlaylist);
      return Created(items), assembled, origin, picks, partners;
  }
}
