/**
 * The plugin settings both generations read, with their defaults, and the ways
 * one run of the generation task can end.
 */
module Configuration {
  import opened Catalog
  import opened Recommender

  /** `PlaylistDuration` (minutes), `ExplorationCoefficient`, `ExcludeTime` (seconds). */
  datatype Config = Config(playlistDuration: int, explorationCoefficient: real, excludeTime: int)

  /** The defaults of `PluginConfiguration`. */
  const DefaultConfig := Config(360, DefaultExploration, 0)

  /** The default exploration coefficient, 3, leaves every non-empty pool unfiltered. */
  lemma DefaultConfigFiltersNothing(songs: seq<ScoredSong>)
    requires songs != []
    ensures FilterByExploration(songs, DefaultConfig.explorationCoefficient) == Some(songs)
  {
    ExplorationNeutral(songs, DefaultConfig.explorationCoefficient);
  }

  /**
   * The exception a run can end with: `Min()`/`Max()` of an empty recommendation
   * pool, or the `ArgumentOutOfRangeException` of indexing an empty playlist.
   */
  datatype Fault = EmptyPool | IndexOutOfRange

  /**
   * How a run ends: one of the three early returns, an exception, the fill loop
   * still running when the model's fuel is spent, or the list of songs handed
   * to `CreatePlaylist`.
   */
  datatype Outcome =
    | NoMusic
    | NoMusicAfterFiltering
    | UserNotFound
    | Threw(fault: Fault)
    | Unfinished
    | Created(items: seq<ScoredSong>)
}
