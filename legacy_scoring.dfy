/**
 * The older generation's `ScoredSong` constructor. Its score weighs a
 * favourite flag, a recency term and a play-count term; the day count is taken
 * as `LastPlayedDate - Now`, so past plays give negative days, and it is not
 * clamped. `ArtistId` is never assigned and stays `Guid.Empty`.
 */
module LegacyScoring {
  import opened Catalog
  import Scoring

  /** The older curves: `logistic(d)` is `1 / (1 + Math.Exp(0.5 * d))`, `log2(n)` is `Math.Log(n, 2)`. */
  datatype Curves = Curves(logistic: int -> real, log2: int -> real)

  /** The default weights of the older `CalculateScore`. */
  const FavouriteWeight: real := 0.4
  const RecencyWeight: real := 0.35
  const DecayWeight: real := 0.25

  /** `(LastPlayedDate - DateTime.Now).Days`: whole days, truncated toward zero, negative for past plays. */
  function DaysSinceLastPlayed(lastPlayed: int, now: int): int
  {
    TruncDiv(lastPlayed - now, Scoring.TicksPerDay)
  }

  /** For a play in the past the older day count is the newer one negated. */
  lemma DaysAreNegated(lastPlayed: int, now: int)
    requires lastPlayed <= now
    ensures DaysSinceLastPlayed(lastPlayed, now) <= 0
    ensures DaysSinceLastPlayed(lastPlayed, now) == -Scoring.DaysSinceLastPlayed(lastPlayed, now)
  {
    if lastPlayed < now {
      assert (now - lastPlayed) / Scoring.TicksPerDay >= 0;
    }
  }

  function Favourite(data: Scoring.UserData): real
  {
    if data.isFavorite then 1.0 else 0.0
  }

  /** `1 / (1 + Math.Exp(0.5 * days)) + 0.5`, or 0 when the song was never played. */
  function Recency(data: Scoring.UserData, now: int, curves: Curves): real
  {
    if data.lastPlayed.None? then 0.0 else curves.logistic(DaysSinceLastPlayed(data.lastPlayed.value, now)) + 0.5
  }

  /** `1 / 1+ Math.Log(-2 + PlayCount, 2)`, which C# reads as `(1 / 1) + Math.Log(PlayCount - 2, 2)`. */
  function HighPlayDecay(playCount: int, curves: Curves): real
  {
    1.0 + curves.log2(playCount - 2)
  }

  /** The older `CalculateScore` with its default arguments. */
  function Score(data: Scoring.UserData, now: int, curves: Curves): real
  {
    if data.playCount < Scoring.MinPlayThreshold then 0.0
    else FavouriteWeight * Favourite(data) + RecencyWeight * Recency(data, now, curves)
         + DecayWeight * HighPlayDecay(data.playCount, curves)
  }

  /**
   * Below three plays the score is 0; from three plays on, marking a song as
   * favourite raises its score by exactly the favourite weight.
   */
  lemma FavouriteEffect(data: Scoring.UserData, now: int, curves: Curves)
    ensures data.playCount < Scoring.MinPlayThreshold ==> Score(data, now, curves) == 0.0
    ensures data.playCount >= Scoring.MinPlayThreshold ==>
      Score(data.(isFavorite := true), now, curves) == Score(data.(isFavorite := false), now, curves) + FavouriteWeight
  {
  }

  /**
   * The recency term is 0 only for a song never played (when the logistic is
   * positive): a played song always gets at least 0.5 of it.
   */
  lemma RecencyFloor(data: Scoring.UserData, now: int, curves: Curves)
    requires forall d :: curves.logistic(d) > 0.0
    ensures Recency(data, now, curves) == 0.0 <==> data.lastPlayed.None?
    ensures data.lastPlayed.Some? ==> Recency(data, now, curves) > 0.5
  {
    if data.lastPlayed.Some? {
      assert curves.logistic(DaysSinceLastPlayed(data.lastPlayed.value, now)) > 0.0;
    }
  }

  /** The older constructor: the album is the parent, the artist is never set. */
  function Create(song: Song, data: Scoring.UserData, now: int, curves: Curves): (scored: ScoredSong)
    ensures scored.song == song && scored.albumId == song.parentId && scored.artistId == EmptyGuid
    ensures scored.score == Score(data, now, curves)
  {
    ScoredSong(song, Score(data, now, curves), song.parentId, EmptyGuid)
  }
}
