/**
 * The newer generation's `ScoredSong` constructor: the per-user score of a song
 * and its album, artist and dislike status. The listening statistics (the host's
 * user data, the playback-activity rows of the last 7 and 30 days and the
 * busiest song's 7-day play count) and the clock are inputs. The exp and log
 * curves of the score are kept as uninterpreted functions of their discrete
 * arguments; the weighted sum is computed on reals.
 */
module Scoring {
  import opened Catalog

  /** `TimeSpan.TicksPerDay`. */
  const TicksPerDay: int := 864_000_000_000

  /** The defaults of `CalculateScore` and `DislikeStatus`. */
  const MinPlayThreshold: int := 3
  const NeededSkips: int := 3
  const FrequencyWeight: real := 0.6
  const RecencyWeight: real := 0.25
  const DecayWeight: real := 0.15

  /** The host's per-user data of a song: `PlayCount`, `IsFavorite`, `LastPlayedDate` in ticks. */
  datatype UserData = UserData(playCount: int, isFavorite: bool, lastPlayed: Option<int>)

  /** The playback-activity rows (`PlayDuration`, whole seconds) of one user and song, and `MaxSevenDays`. */
  datatype Activity = Activity(maxSevenDays: int, sevenDays: seq<int>, thirtyDays: seq<int>)

  /**
   * The floating-point curves: `logistic(d)` is `1 / (1 + Math.Exp(0.5 * d))`
   * and `highPlayDecay(n)` is `1 / (1 + Math.Log(1 + n, 2))`.
   */
  datatype Curves = Curves(logistic: int -> real, highPlayDecay: int -> real)

  /** `Song.RunTimeTicks / TimeSpan.TicksPerSecond` on a nullable `long`: null stays null. */
  function LengthSeconds(song: Song): Option<int>
  {
    if song.runtimeTicks.None? then None else Some(TruncDiv(song.runtimeTicks.value, TicksPerSecond))
  }

  /**
   * `duration >= songLengthSeconds * 0.8`, a lifted comparison that is false
   * when the length is null. `5 * duration >= 4 * length` is the same test on
   * exact numbers.
   */
  predicate FullPlay(duration: int, length: Option<int>)
  {
    length.Some? && 5 * duration >= 4 * length.value
  }

  /** The 7-day counter before the floor: +1 per full play, -1 per other row. */
  function NetPlays(rows: seq<int>, length: Option<int>): int
  {
    if rows == [] then 0
    else NetPlays(rows[..|rows| - 1], length) + (if FullPlay(rows[|rows| - 1], length) then 1 else -1)
  }

  /** The 30-day counter: one per row that is not a full play. */
  function Skips(rows: seq<int>, length: Option<int>): int
  {
    if rows == [] then 0
    else Skips(rows[..|rows| - 1], length) + (if FullPlay(rows[|rows| - 1], length) then 0 else 1)
  }

  /** The two counters agree: every row that is not a full play costs the net counter two. */
  lemma {:induction false} NetPlaysSkips(rows: seq<int>, length: Option<int>)
    ensures 0 <= Skips(rows, length) <= |rows|
    ensures NetPlays(rows, length) == |rows| - 2 * Skips(rows, length)
  {
    if rows != [] {
      NetPlaysSkips(rows[..|rows| - 1], length);
    }
  }

  /** With a null runtime no row is a full play: every row is a skip. */
  lemma {:induction false} NullLengthAllSkips(rows: seq<int>)
    ensures Skips(rows, None) == |rows| && NetPlays(rows, None) == -|rows|
  {
    if rows != [] {
      NullLengthAllSkips(rows[..|rows| - 1]);
    }
  }

  /** Reference definition of `GetNormalizedPlaysSevenDays`. */
  function Frequency(song: Song, userId: Guid, activity: Activity): real
  {
    if song.id == EmptyGuid || userId == EmptyGuid || activity.maxSevenDays == 0 then 0.0
    else (Max(NetPlays(activity.sevenDays, LengthSeconds(song)), 0) as real) / (activity.maxSevenDays as real)
  }

  /** `GetNormalizedPlaysSevenDays`: the floored net play count over the busiest song's count. */
  method NormalizedPlaysSevenDays(song: Song, userId: Guid, activity: Activity) returns (frequency: real)
    ensures frequency == Frequency(song, userId, activity)
  {
    if song.id == EmptyGuid || userId == EmptyGuid || activity.maxSevenDays == 0 {
      return 0.0;
    }
    var songLengthSeconds := LengthSeconds(song);
    var result := activity.sevenDays;
    var plays := 0;
    for i := 0 to |result|
      invariant plays == NetPlays(result[..i], songLengthSeconds)
    {
      assert result[..i + 1][..i] == result[..i];
      plays := plays + if FullPlay(result[i], songLengthSeconds) then 1 else -1;
    }
    assert result[..|result|] == result;
    plays := Max(plays, 0);
    return (plays as real) / (activity.maxSevenDays as real);
  }

  /**
   * The frequency is never negative and never divides by zero; it is at most 1
   * when the busiest song's count bounds this song's rows, as it does when both
   * come from the same 7 days.
   */
  lemma FrequencyBounds(song: Song, userId: Guid, activity: Activity)
    requires activity.maxSevenDays >= 0
    ensures 0.0 <= Frequency(song, userId, activity)
    ensures |activity.sevenDays| <= activity.maxSevenDays ==> Frequency(song, userId, activity) <= 1.0
  {
    NetPlaysSkips(activity.sevenDays, LengthSeconds(song));
    if !(song.id == EmptyGuid || userId == EmptyGuid || activity.maxSevenDays == 0) {
      var plays := Max(NetPlays(activity.sevenDays, LengthSeconds(song)), 0);
      var m := activity.maxSevenDays;
      assert plays <= |activity.sevenDays|;
      if |activity.sevenDays| <= m {
        assert (plays as real) <= (m as real);
        assert (plays as real) / (m as real) <= 1.0;
      }
    }
  }

  /** A song with a null runtime has frequency 0: all its plays count as skips. */
  lemma NullLengthNoFrequency(song: Song, userId: Guid, activity: Activity)
    requires song.runtimeTicks.None?
    ensures Frequency(song, userId, activity) == 0.0
  {
    NullLengthAllSkips(activity.sevenDays);
    assert Max(-|activity.sevenDays|, 0) == 0;
  }

  /** `DislikeStatus()`: skipped at least `NeededSkips` times within 30 days. */
  method DislikeStatus(song: Song, activity: Activity) returns (disliked: bool)
    ensures disliked <==> Skips(activity.thirtyDays, LengthSeconds(song)) >= NeededSkips
  {
    var songLengthSeconds := LengthSeconds(song);
    var result := activity.thirtyDays;
    var skipped := 0;
    for i := 0 to |result|
      invariant skipped == Skips(result[..i], songLengthSeconds)
    {
      assert result[..i + 1][..i] == result[..i];
      skipped := skipped + if FullPlay(result[i], songLengthSeconds) then 0 else 1;
    }
    assert result[..|result|] == result;
    return skipped >= NeededSkips;
  }

  /** At least three 30-day plays with a null runtime make the song disliked. */
  lemma NullLengthDisliked(rows: seq<int>)
    requires |rows| >= NeededSkips
    ensures Skips(rows, None) >= NeededSkips
  {
    NullLengthAllSkips(rows);
  }

  /** Whole days since the last play, clamped at 0; `TimeSpan.Days` truncates toward zero. */
  function DaysSinceLastPlayed(lastPlayed: int, now: int): (d: int)
    ensures d >= 0
    ensures lastPlayed <= now ==> d == (now - lastPlayed) / TicksPerDay
  {
    Max(TruncDiv(now - lastPlayed, TicksPerDay), 0)
  }

  /** The recency term: 0 when never played, else the logistic of the clamped day count. */
  function Recency(data: UserData, now: int, curves: Curves): real
  {
    if data.lastPlayed.None? then 0.0 else curves.logistic(DaysSinceLastPlayed(data.lastPlayed.value, now))
  }

  /** Reference definition of `CalculateScore` with its default arguments. */
  function Score(song: Song, userId: Guid, data: UserData, activity: Activity, now: int, curves: Curves): real
  {
    if data.playCount < MinPlayThreshold then 0.0
    else FrequencyWeight * Frequency(song, userId, activity) + RecencyWeight * Recency(data, now, curves)
         + DecayWeight * curves.highPlayDecay(data.playCount)
  }

  /** `CalculateScore()`: songs played fewer than three times score 0, whatever else is known. */
  method CalculateScore(song: Song, userId: Guid, data: UserData, activity: Activity, now: int, curves: Curves)
    returns (score: real)
    ensures score == Score(song, userId, data, activity, now, curves)
    ensures data.playCount < MinPlayThreshold ==> score == 0.0
  {
    if data.playCount < MinPlayThreshold {
      return 0.0;
    }
    var frequency := NormalizedPlaysSevenDays(song, userId, activity);
    var recency := 0.0;
    if data.lastPlayed.Some? {
      var daysSinceLastPlayed := DaysSinceLastPlayed(data.lastPlayed.value, now);
      recency := curves.logistic(daysSinceLastPlayed);
    }
    var highPlayDecay := curves.highPlayDecay(data.playCount);
    return FrequencyWeight * frequency + RecencyWeight * recency + DecayWeight * highPlayDecay;
  }

  /**
   * The weights sum to 1, so the score is a weighted mean of its three terms:
   * when each lies in [0, 1] so does the score.
   */
  lemma ScoreBounds(song: Song, userId: Guid, data: UserData, activity: Activity, now: int, curves: Curves)
    requires activity.maxSevenDays >= 0 && |activity.sevenDays| <= activity.maxSevenDays
    requires forall d :: 0 <= d ==> 0.0 <= curves.logistic(d) <= 1.0
    requires 0.0 <= curves.highPlayDecay(data.playCount) <= 1.0
    ensures FrequencyWeight + RecencyWeight + DecayWeight == 1.0
    ensures 0.0 <= Score(song, userId, data, activity, now, curves) <= 1.0
  {
    FrequencyBounds(song, userId, activity);
    if data.lastPlayed.Some? {
      var d := DaysSinceLastPlayed(data.lastPlayed.value, now);
      assert 0.0 <= curves.logistic(d) <= 1.0;
    }
  }

  /** `GetAristId`: no artist without a parent, or when the parent is not a music album. */
  function ArtistIdOf(song: Song, albumArtist: Guid -> Option<Guid>): (a: Guid)
    ensures song.parentId == EmptyGuid ==> a == EmptyGuid
    ensures albumArtist(song.parentId).None? ==> a == EmptyGuid
    ensures song.parentId != EmptyGuid && albumArtist(song.parentId).Some? ==> a == albumArtist(song.parentId).value
  {
    if song.parentId == EmptyGuid then EmptyGuid
    else match albumArtist(song.parentId)
      case None => EmptyGuid
      case Some(artist) => artist
  }

  /**
   * The constructor `ScoredSong(song, user, ...)`. `albumArtist` stands for the
   * two library lookups of `GetAristId`: the artist id of the parent when it is
   * a music album, `None` otherwise.
   */
  method Create(song: Song, userId: Guid, data: UserData, activity: Activity, now: int, curves: Curves,
                albumArtist: Guid -> Option<Guid>)
    returns (scored: ScoredSong, isDisliked: bool)
    ensures scored.song == song && scored.albumId == song.parentId
    ensures scored.score == Score(song, userId, data, activity, now, curves)
    ensures scored.artistId == ArtistIdOf(song, albumArtist)
    ensures isDisliked <==> Skips(activity.thirtyDays, LengthSeconds(song)) >= NeededSkips
  {
    var score := CalculateScore(song, userId, data, activity, now, curves);
    scored := ScoredSong(song, score, song.parentId, ArtistIdOf(song, albumArtist));
    isDisliked := DislikeStatus(song, activity);
  }
}
