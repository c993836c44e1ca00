# Playlist generator for Jellyfin: a Dafny model

This project models the recommendation and assembly engine of a Jellyfin plugin
that builds a personal playlist for one user. The repository holds two
generations of the plugin:

- the newer one, under `Jellyfin.Plugin.PlaylistGenerator/`;
- the older one, under `PlaylistGenerator/` together with `PlaylistGen.cs`.

Each generation runs one scheduled task, `ExecuteAsync`, in these steps:

1. Take every audio item and keep the eligible ones: not theme media, and longer than `ExcludeTime` whole seconds.
2. Score each eligible song for the configured user.
3. Take the 20 best-scored songs as seeds, using LINQ's stable ordering.
4. Gather candidates in this order: the seeds, the seeds' "similar" songs, a genre pool and, in the newer generation only, an artist pool. The genre and artist pools are passed through the exploration filter; the similar songs are not.
5. Assemble a playlist that fills the duration budget.
6. Shuffle the playlist gently.
7. Hand the playlist to the host.

The modules follow the source files:

| module | models |
|---|---|
| `Catalog` | songs, scored songs, durations in whole seconds, id sets, LINQ `Where` |
| `Configuration` | the plugin settings with their defaults, and the ways a run ends |
| `Scoring` | the newer `ScoredSong` constructor: score guard, 7-day play counter, dislike counter, artist id |
| `LegacyScoring` | the older `ScoredSong` constructor |
| `Recommender` | `RecommendSimilar`, `RecommendByArtist`, `RecommendByGenre`, `FilterByExploration` of the newer file; the older file's `RecommendSimilar`, `RecommendByGenre` and `FilterByExploration` match them apart from the `ScoredSong` constructor call, which the already-scored `Library` stands in for |
| `LegacyRecommender` | the older `RecommendByArtist`, whose seed loop breaks at once |
| `Greedy` | `AssemblePlaylist` of both generations; the older one differs only in its filler test |
| `PlaylistService` | the newer, slot-assigning `GentleShuffle` |
| `LegacyPlaylistService` | the older, in-place, swapping `GentleShuffle` |
| `Selection` | the eligibility filter and the stable top-20 seed selection |
| `PlaylistGenerationTask` | the newer `ExecuteAsync` |
| `LegacyGenerationTask` | the older `ExecuteAsync` |

Loops in the source are Dafny `while`/`for` loops. Each loop is proved against a reference function, and the properties are lemmas about those functions. The older shuffle works in place on an `array`.

The host is modelled as inputs:

- the catalog queries are functions of the `Library` datatype;
- the per-user data, playback activity and clock are parameters;
- whether the user was found is a `bool`.

`new Random()` is a nondeterministic choice (`:|`): every property holds for every sequence of random draws.

Exceptions become outcomes:

- `Min()`/`Max()` on an empty pool is `None` from `FilterByExploration`;
- indexing an empty playlist is `IndexOutOfRange`;
- the `Enumerable.Range` and `Random.Next` argument exceptions are `None` or `thrown`.

Four points where the code behaves differently from what one might expect, and which the model follows:

- **The older shuffle does not bound displacement by `k`.** The code swaps element `i` with a partner within `k`, but an element can ride several forward swaps. `LegacyPlaylistService.SwapsCanMoveFarther` shows a list of three where `k = 1` moves the first element two places.
- **The fill loop has no cap.** The code loops until the budget is met, so the model runs it for at most `fuel` rounds and reports `Unfinished` otherwise.
- **An empty phase 1 throws when the budget is positive.** With a positive `PlaylistDuration` the fill loop indexes the empty list and throws; with `PlaylistDuration <= 0` the loop does not run and the empty list is returned (`Greedy.Assemble`). `PlaylistGenerationTask.ExecuteAsync` shows the exception can only happen when `ExcludeTime` is negative.
- **The parent check covers fillers only.** The newer generation's "must have a parent album" test applies only to fillers. Phase-1 candidates are not checked.

## Model

| member | source | states |
|---|---|---|
| Greedy.DistinctPlayableSound | Jellyfin.Plugin.PlaylistGenerator/Objects/PlaylistService.cs:25-38 | skipping null runtimes and already-seen ids keeps an order-preserving subsequence of the candidates, all playable, with no id twice |
| Greedy.DistinctPlayableComplete | Jellyfin.Plugin.PlaylistGenerator/Objects/PlaylistService.cs:28-36 | no playable candidate is lost: its id is always among the kept ids |
| Greedy.DistinctPlayablePrefix | Jellyfin.Plugin.PlaylistGenerator/Objects/PlaylistService.cs:25-38 | stopping the walk early keeps a prefix of what the full walk keeps |
| Greedy.BudgetCut | Jellyfin.Plugin.PlaylistGenerator/Objects/PlaylistService.cs:25 | the cut is the first point at which the running total reaches the budget, or the end |
| Greedy.Phase1Sound | Jellyfin.Plugin.PlaylistGenerator/Objects/PlaylistService.cs:25-38 | phase 1 is an order-preserving subsequence of the candidates, all playable, with pairwise different ids |
| Greedy.Phase1Budget | Jellyfin.Plugin.PlaylistGenerator/Objects/PlaylistService.cs:20-38 | songs are added only while under budget, so phase 1 overshoots by less than its last song; it ends under budget only when every playable candidate is already in |
| Greedy.Phase1EmptyIff | Jellyfin.Plugin.PlaylistGenerator/Objects/PlaylistService.cs:25-38 | phase 1 is empty exactly when the budget is not positive or no candidate has a runtime |
| Greedy.Phase1Exit | Jellyfin.Plugin.PlaylistGenerator/Objects/PlaylistService.cs:25 | the state in which the first loop exits is the reference phase 1 |
| Greedy.FirstPass | Jellyfin.Plugin.PlaylistGenerator/Objects/PlaylistService.cs:20-38 | the first loop builds phase 1, with `totalSeconds` the sum of the whole seconds added and `seenGuids` their ids |
| Greedy.FreshFillersSound | Jellyfin.Plugin.PlaylistGenerator/Objects/PlaylistService.cs:51-58 | the fillers a batch keeps are an order-preserving subsequence of the query result, with ids new to the playlist and pairwise different, and with parents under the newer test |
| Greedy.FreshFillersCover | Jellyfin.Plugin.PlaylistGenerator/Objects/PlaylistService.cs:51-58 | a filler is passed over only for an id already seen, before the batch or earlier in it, or (newer test) for a missing parent |
| Greedy.FreshFillersNext | Jellyfin.Plugin.PlaylistGenerator/Objects/PlaylistService.cs:53 | one more filler joins the batch exactly when its id is new and it is not a skipped orphan |
| Greedy.BatchNext | Jellyfin.Plugin.PlaylistGenerator/Objects/PlaylistService.cs:53-57 | the `seenGuids` test on the grown playlist is the batch's freshness test |
| Greedy.FreshFillersAppended | Jellyfin.Plugin.PlaylistGenerator/Objects/PlaylistService.cs:51-58 | appending a batch keeps the playlist as a prefix, adds only fillers of the query (with parents under the newer test), and leaves every filler seen or a skipped orphan |
| Greedy.AddFillers | PlaylistGenerator/Objects/PlaylistService.cs:49-59 | one filler batch appends exactly the batch's fresh fillers, in query order; the running total stays the sum and the seen set the ids; no id repeats; each filler is then in, or was skipped for its id or (newer test) its missing parent |
| Greedy.FillStep | Jellyfin.Plugin.PlaylistGenerator/Objects/PlaylistService.cs:47-58 | a draw that indexes the playlist extends the reference fill by that entry's fresh similar songs |
| Greedy.GrownStep | Jellyfin.Plugin.PlaylistGenerator/Objects/PlaylistService.cs:49-58 | after a fill round, every appended filler is a similar song of the randomly picked entry, the earlier fillers' origins are kept, and the playlist is the reference fill of the draws so far |
| Greedy.GrownExtends | Jellyfin.Plugin.PlaylistGenerator/Objects/PlaylistService.cs:39-59 | a grown playlist with distinct ids, left as phase 1 when phase 1 already fills the budget, extends the candidates |
| Greedy.Assemble | Jellyfin.Plugin.PlaylistGenerator/Objects/PlaylistService.cs:18-62 | see the lines below this table |
| Recommender.Limit | Jellyfin.Plugin.PlaylistGenerator/Objects/Recommender.cs:21 | a query's `Limit` keeps the first up to `n` results |
| Recommender.RecommendSimilar | Jellyfin.Plugin.PlaylistGenerator/Objects/Recommender.cs:13-30 | the result is each seed's similar songs, concatenated in seed order |
| Recommender.SimilarMembers | Jellyfin.Plugin.PlaylistGenerator/Objects/Recommender.cs:16-28 | a song is recommended if and only if it is a similar song of some seed |
| Recommender.SimilarBound | PlaylistGenerator/Objects/Recommender.cs:17-32 | at most three recommendations per seed |
| Recommender.SimilarSingle | Jellyfin.Plugin.PlaylistGenerator/Objects/PlaylistService.cs:49-50 | the filler query on a one-seed list gives that seed's similar songs |
| Recommender.MinScore | Jellyfin.Plugin.PlaylistGenerator/Objects/Recommender.cs:88 | the minimum is the score of some pool song and no song scores lower |
| Recommender.MaxScore | Jellyfin.Plugin.PlaylistGenerator/Objects/Recommender.cs:89 | the maximum is the score of some pool song and no song scores higher |
| Recommender.FilterByExploration | Jellyfin.Plugin.PlaylistGenerator/Objects/Recommender.cs:85-100 | the filter fails (the `Min`/`Max` exception) if and only if the pool is empty |
| Recommender.ExplorationKeepsExactly | Jellyfin.Plugin.PlaylistGenerator/Objects/Recommender.cs:90-98 | a non-empty pool comes back as an order-preserving sublist holding exactly the songs the level's threshold admits |
| Recommender.ExplorationNeutral | Jellyfin.Plugin.PlaylistGenerator/Objects/Recommender.cs:94-97 | any coefficient other than exactly 1, 2, 4 or 5 returns the pool unchanged |
| Recommender.ExploitationTop | Jellyfin.Plugin.PlaylistGenerator/Objects/Recommender.cs:92 | level 1 keeps a top-scored song if and only if the top score is positive; an all-non-positive pool comes back empty |
| Recommender.ExplorationBottom | Jellyfin.Plugin.PlaylistGenerator/Objects/Recommender.cs:96 | level 5 keeps a bottom-scored song if and only if the minimum is positive; a minimum of 0 empties the pool |
| Recommender.ExplorationCutoffs | Jellyfin.Plugin.PlaylistGenerator/Objects/Recommender.cs:93-95 | level 2 keeps every song above 0.2/4 and level 4 every song below 0.2*4, whatever the pool's extremes |
| Recommender.RecommendByArtist | Jellyfin.Plugin.PlaylistGenerator/Objects/Recommender.cs:33-57 | the artist pool is the filtered, limited query on the seeds' artist set |
| Recommender.RecommendByGenre | Jellyfin.Plugin.PlaylistGenerator/Objects/Recommender.cs:59-83 | the genre pool is the filtered, limited query on the union of the seeds' genres |
| Recommender.ArtistKeysExactly | Jellyfin.Plugin.PlaylistGenerator/Objects/Recommender.cs:37-41 | the artist query asks for an id if and only if it is non-empty and is some seed's artist |
| Recommender.GenreKeysExactly | Jellyfin.Plugin.PlaylistGenerator/Objects/Recommender.cs:63-67 | the genre query asks for a genre if and only if some seed has it |
| LegacyRecommender.RecommendByArtist | PlaylistGenerator/Objects/Recommender.cs:36-59 | the loop breaks before adding an artist, so the pool is the query on the empty artist set, the same for every seed list |
| Scoring.NetPlaysSkips | Jellyfin.Plugin.PlaylistGenerator/Objects/ScoredSong.cs:52-56 | the net play counter is the number of rows minus twice the number of skips |
| Scoring.NullLengthAllSkips | Jellyfin.Plugin.PlaylistGenerator/Objects/ScoredSong.cs:46-87 | with a null runtime the lifted comparison is false, so every row is a skip and costs the play counter one |
| Scoring.NormalizedPlaysSevenDays | Jellyfin.Plugin.PlaylistGenerator/Objects/ScoredSong.cs:40-59 | the frequency is 0 for an empty song or user id or no busiest count, else the floored net play count over the busiest count |
| Scoring.FrequencyBounds | Jellyfin.Plugin.PlaylistGenerator/Objects/ScoredSong.cs:42-58 | the frequency is never negative, and at most 1 when the busiest count bounds this song's rows |
| Scoring.NullLengthNoFrequency | Jellyfin.Plugin.PlaylistGenerator/Objects/ScoredSong.cs:46-57 | a song with a null runtime has frequency 0 |
| Scoring.DislikeStatus | Jellyfin.Plugin.PlaylistGenerator/Objects/ScoredSong.cs:72-88 | a song is disliked if and only if at least three 30-day rows are shorter than 80% of its length |
| Scoring.NullLengthDisliked | Jellyfin.Plugin.PlaylistGenerator/Objects/ScoredSong.cs:74-87 | three plays of a song with a null runtime make it disliked |
| Scoring.DaysSinceLastPlayed | Jellyfin.Plugin.PlaylistGenerator/Objects/ScoredSong.cs:107-108 | the day count is never negative, and for a past play it is the whole days elapsed |
| Scoring.CalculateScore | Jellyfin.Plugin.PlaylistGenerator/Objects/ScoredSong.cs:90-115 | the score is the weighted sum of frequency, recency and decay, and 0 below three plays whatever else is known |
| Scoring.ScoreBounds | Jellyfin.Plugin.PlaylistGenerator/Objects/ScoredSong.cs:90-114 | the weights 0.6, 0.25 and 0.15 sum to 1, so terms in [0, 1] give a score in [0, 1] |
| Scoring.ArtistIdOf | Jellyfin.Plugin.PlaylistGenerator/Objects/ScoredSong.cs:62-70 | the artist is empty without a parent or when the parent is not a music album, else the album artist's id |
| Scoring.Create | Jellyfin.Plugin.PlaylistGenerator/Objects/ScoredSong.cs:26-38 | the album is the parent; the score, artist and dislike flag are those of the three computations above |
| LegacyScoring.DaysAreNegated | PlaylistGenerator/Objects/ScoredSong.cs:50-51 | for a past play the older day count is not positive and is the newer one negated |
| LegacyScoring.FavouriteEffect | PlaylistGenerator/Objects/ScoredSong.cs:34-58 | the score is 0 below three plays; from three plays on, a favourite scores exactly 0.4 more |
| LegacyScoring.RecencyFloor | PlaylistGenerator/Objects/ScoredSong.cs:47-53 | recency is 0 if and only if the song was never played; a played song gets more than 0.5 |
| LegacyScoring.Create | PlaylistGenerator/Objects/ScoredSong.cs:18-25 | the album is the parent, the artist stays empty, the score is the older weighted sum |
| PlaylistService.Free | Jellyfin.Plugin.PlaylistGenerator/Objects/PlaylistService.cs:73-78 | a window's free set holds exactly its indices that are not used |
| PlaylistService.Least | Jellyfin.Plugin.PlaylistGenerator/Objects/PlaylistService.cs:86-88 | `Min()` is a member no other member is below |
| PlaylistService.ChooseSlot | Jellyfin.Plugin.PlaylistGenerator/Objects/PlaylistService.cs:85-94 | the slot is free in the current window, and is its earliest free slot when that differs from the next window's |
| PlaylistService.GentleShuffle | Jellyfin.Plugin.PlaylistGenerator/Objects/PlaylistService.cs:64-100 | fails if and only if `k` is negative and the list is not empty; otherwise the break is never taken and every element moves to a distinct slot at most `k` away, filling every slot; the earliest-slot rule holds at every step |
| PlaylistService.PlacedPermutation | Jellyfin.Plugin.PlaylistGenerator/Objects/PlaylistService.cs:64-100 | once every element is placed, the slots are a bijection with each element at most `k` away |
| PlaylistService.PrefersEvery | Jellyfin.Plugin.PlaylistGenerator/Objects/PlaylistService.cs:86-88 | the step-by-step earliest-slot record gives the rule at each element |
| PlaylistService.GentlePermutationPreservesElements | Jellyfin.Plugin.PlaylistGenerator/Objects/PlaylistService.cs:96 | a gentle shuffle's result holds the same elements as the input, each as often |
| PlaylistService.PermutationPreservesElements | Jellyfin.Plugin.PlaylistGenerator/Objects/PlaylistService.cs:96-97 | writing each element to a distinct slot of a same-length list gives the same multiset |
| PlaylistService.GentleZeroIsIdentity | Jellyfin.Plugin.PlaylistGenerator/Objects/PlaylistService.cs:73-74 | with `k = 0` the shuffle returns the list unchanged |
| LegacyPlaylistService.Swap | PlaylistGenerator/Objects/PlaylistService.cs:79 | the two entries are exchanged and every other entry is kept |
| LegacyPlaylistService.SwapPreservesElements | PlaylistGenerator/Objects/PlaylistService.cs:79 | a swap keeps the multiset of elements |
| LegacyPlaylistService.ApplySwaps | PlaylistGenerator/Objects/PlaylistService.cs:69-80 | the swap sequence keeps the length |
| LegacyPlaylistService.ApplySwapsPreservesElements | PlaylistGenerator/Objects/PlaylistService.cs:69-80 | the whole pass keeps the multiset of elements |
| LegacyPlaylistService.GentleShuffle | PlaylistGenerator/Objects/PlaylistService.cs:65-81 | throws if and only if `k` is negative and the list is not empty, leaving it untouched; otherwise step `i` swaps with a partner in `[max(0,i-k), min(n-1,i+k)]` and the array becomes the pass over its old contents |
| LegacyPlaylistService.ShortListUnchanged | PlaylistGenerator/Objects/PlaylistService.cs:69-80 | a list of at most one element comes back unchanged |
| LegacyPlaylistService.SwapsCanMoveFarther | PlaylistGenerator/Objects/PlaylistService.cs:72-79 | legal draws can carry an element farther than `k` from where it started |
| Selection.EligibleExactly | Jellyfin.Plugin.PlaylistGenerator/Tasks/PlaylistGenerationTask.cs:53-54 | the filter keeps, in order, exactly the non-theme items whose whole seconds exceed `ExcludeTime`, a null runtime counting 0 |
| Selection.EligibleHaveRuntime | PlaylistGen.cs:91 | with a non-negative `ExcludeTime` every eligible item has a positive runtime |
| Selection.Insert | Jellyfin.Plugin.PlaylistGenerator/Tasks/PlaylistGenerationTask.cs:84 | inserting an index into the order adds exactly it |
| Selection.InsertOrdered | Jellyfin.Plugin.PlaylistGenerator/Tasks/PlaylistGenerationTask.cs:84 | insertion keeps the stable descending order |
| Selection.Ranking | Jellyfin.Plugin.PlaylistGenerator/Tasks/PlaylistGenerationTask.cs:84 | the ranking lists every index exactly once |
| Selection.RankingOrdered | Jellyfin.Plugin.PlaylistGenerator/Tasks/PlaylistGenerationTask.cs:84 | the ranking is by descending score, and equal scores stay in input order |
| Selection.TopSongsSpec | Jellyfin.Plugin.PlaylistGenerator/Tasks/PlaylistGenerationTask.cs:84 | there are min(20, n) distinct seeds with non-increasing scores, ties in input order, and no song left out scores above the last seed |
| Selection.TopSongsNonEmpty | PlaylistGen.cs:121-129 | a non-empty song list gives a first seed, so `allSongs[0]` exists |
| PlaylistGenerationTask.FirstPassNonEmpty | Jellyfin.Plugin.PlaylistGenerator/Tasks/PlaylistGenerationTask.cs:53-96 | with a non-negative `ExcludeTime` and a positive duration, phase 1 over the candidates is never empty |
| PlaylistGenerationTask.DefaultFirstPassNonEmpty | Jellyfin.Plugin.PlaylistGenerator/Configuration/PluginConfiguration.cs:12-22 | under the default settings phase 1 is never empty once some song is eligible |
| Configuration.DefaultConfigFiltersNothing | Jellyfin.Plugin.PlaylistGenerator/Configuration/PluginConfiguration.cs:20 | the default exploration coefficient 3 returns every non-empty pool unchanged |
| PlaylistGenerationTask.ExecuteAsync | Jellyfin.Plugin.PlaylistGenerator/Tasks/PlaylistGenerationTask.cs:33-114 | see the lines below this table |
| LegacyGenerationTask.SeedsHaveNoArtist | PlaylistGen.cs:110-121 | every seed is an eligible song scored by the older constructor, so it has no artist |
| LegacyGenerationTask.FirstPassNonEmpty | PlaylistGen.cs:91-130 | with a non-negative `ExcludeTime` and a positive duration, phase 1 is never empty |
| LegacyGenerationTask.ShuffleList | PlaylistGen.cs:131 | the in-place shuffle with `k = 5` never throws, swaps each entry with a partner at most 5 away, and keeps the songs |
| LegacyGenerationTask.ExecuteAsync | PlaylistGen.cs:72-147 | see the lines below this table |

What the three larger contracts state:

- **Greedy.Assemble** covers the whole of `AssemblePlaylist`:
  - the empty-playlist exception happens if and only if phase 1 is empty, the budget is positive and the fill loop runs;
  - a finished playlist reaches the budget;
  - the playlist has no repeated id and starts with phase 1, and is phase 1 itself when phase 1 already fills the budget;
  - every filler is a similar song of an earlier entry, and has a parent when the newer test is on;
  - given the random draws `picks`, each a valid index in its round, the playlist is `Greedy.Fill`, the reference fill: each round appends exactly the fresh fillers of the drawn entry, so the per-round skip rule of `Greedy.AddFillers` carries over to the whole run.
- **PlaylistGenerationTask.ExecuteAsync** covers the newer task:
  - each early return, and each exception, happens if and only if its stage fails;
  - the empty-playlist exception needs a negative `ExcludeTime`;
  - the candidates are seeds, then similar, genre and artist songs;
  - the created playlist is an assembly of those candidates in assembly order, because the shuffled copy is dropped; given the random draws it is the reference fill `Greedy.Fill`.
- **LegacyGenerationTask.ExecuteAsync** covers the older task:
  - it has the same if-and-only-if outcomes;
  - its candidates have no artist pool;
  - the created playlist is the in-place gentle shuffle (`k = 5`) of an assembly, so it holds the same songs; given the random draws the assembly is the reference fill `Greedy.Fill`.

The filler loop that `Greedy.Assemble` runs is at Jellyfin.Plugin.PlaylistGenerator/Objects/PlaylistService.cs:39-59 and PlaylistGenerator/Objects/PlaylistService.cs:39-61. The older filler test, which skips seen ids only, is at PlaylistGenerator/Objects/PlaylistService.cs:51-54. The defaults in `Configuration.DefaultConfig` (360 minutes, exploration 3, `ExcludeTime` 0) come from Jellyfin.Plugin.PlaylistGenerator/Configuration/PluginConfiguration.cs:12-22; the exploration default, `Recommender.DefaultExploration`, is also the `Recommender` constructor's default at Jellyfin.Plugin.PlaylistGenerator/Objects/Recommender.cs:11.

## Left out

- Playlist I/O: `CreatePlaylist`, `RemovePlaylist` and the check for an existing playlist are host calls. The model's outcome is the list that would be handed to `CreatePlaylist`.
- The activity database: its SQLite queries are replaced by the sequences of play durations and the busiest song's 7-day count, given as inputs.
- Scoring.Create: the exp and log curves are uninterpreted functions (`Curves`) of their integer arguments, and the weighted sums are exact reals, not doubles. So the score's value is not modelled bit for bit, apart from its guards and structure.
- Scoring.NormalizedPlaysSevenDays: the 80% test `duration >= length * 0.8` is modelled as `5 * duration >= 4 * length` on exact integers. `int.Parse` of a row, and its failure, is left out.
- Recommender.FilterByExploration: the thresholds are exact reals. The halving, quartering and doubling in the source are exact in binary floating point, and `0.2` is the exact value of the double nearest to 0.2.
- Greedy.Assemble: the fill loop has no bound in the source. The model stops after `fuel` rounds with `Unfinished`, and says nothing about termination.
- 32-bit arithmetic: `maxLength * 60` and the running `totalSeconds` are unbounded integers, so their overflow is not modelled. The same holds for the casts of tick counts to `int`.
- Randomness: every `Random` draw is an arbitrary legal choice. The distributions are not modelled.
- The catalog: `GetItemList`, `SimilarTo`, `GetItemById` and `GetArtist` are oracle functions in `Library` and in the `albumArtist` parameter. Their results are taken as already scored.
- PlaylistGenerationTask.ExecuteAsync: the newer task builds `ScoredSong` with four arguments where the constructor takes five. So its per-song score and artist id are inputs (`score`, `artistOf`), not `Scoring.Create`.
- Settings no code uses: `ExperimentalFilter` and `SelectedLibraryIds`.
- The playlist and user names: `PlaylistUserName` feeds only `GetUserByName`, whose result `userFound` stands for, and `PlaylistName` feeds only the overwrite check, `RemovePlaylist` and `CreatePlaylist`, host calls left out with playlist I/O.
- Plugin wiring: the `Plugin` class, task triggers, logging, progress reporting and cancellation are not modelled.
- LegacyPlaylistService.GentleShuffle: `i + k` at PlaylistGenerator/Objects/PlaylistService.cs:73 is unbounded here. In the source it wraps to a negative number when `k > int.MaxValue - i`, so for `k` near `int.MaxValue` and two or more elements `Random.Next(start, end + 1)` throws in the middle of the pass, with the list partly shuffled; the model finishes the pass and reports no throw. Its "if and only if" holds as stated only for `k <= int.MaxValue - |a|`; the one caller passes `k = 5`.
- `Enumerable.Range` overflow is not modelled: neither a window near `int.MaxValue` nor the 32-bit overflow of `i + k + 1` for a huge `k` (Jellyfin.Plugin.PlaylistGenerator/Objects/PlaylistService.cs:75-76).
