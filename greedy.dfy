/**
 * Playlist assembly, shared by both generations: the two `AssemblePlaylist`
 * methods are the same code except for the test a filler must pass, which is a
 * parameter here (`skipOrphans`). Phase 1 walks the candidates and keeps the
 * playable, not yet seen ones while the budget is not reached; the fill phase then
 * appends "similar" songs of random playlist entries until it is.
 */
module Greedy {
  import opened Catalog
  import opened Recommender

  /** Phase 1 skips candidates whose `RunTimeTicks` is null. */
  predicate Playable(s: ScoredSong)
  {
    s.song.runtimeTicks.Some?
  }

  /** Reference definition: the playable candidates, each id kept at its first playable occurrence only. */
  function DistinctPlayable(songs: seq<ScoredSong>): seq<ScoredSong>
  {
    if songs == [] then []
    else
      var kept, s := DistinctPlayable(songs[..|songs| - 1]), songs[|songs| - 1];
      if !Playable(s) || s.song.id in IdSet(kept) then kept else kept + [s]
  }

  /** `DistinctPlayable` keeps an order-preserving subsequence of playable songs with pairwise different ids. */
  lemma {:induction false} DistinctPlayableSound(songs: seq<ScoredSong>)
    ensures var d := DistinctPlayable(songs);
      DistinctIds(d) && IsSubsequence(d, songs) && forall j :: 0 <= j < |d| ==> Playable(d[j])
  {
    if songs != [] {
      var songs', s := songs[..|songs| - 1], songs[|songs| - 1];
      assert songs == songs' + [s];
      var kept := DistinctPlayable(songs');
      DistinctPlayableSound(songs');
      if !Playable(s) || s.song.id in IdSet(kept) {
        SubsequenceSkip(kept, songs', s);
      } else {
        DistinctIdsAppend(kept, s);
        SubsequenceBoth(kept, songs', s);
      }
    }
  }

  /** No playable candidate is lost: its id is among the kept ids. */
  lemma {:induction false} DistinctPlayableComplete(songs: seq<ScoredSong>)
    ensures forall j :: 0 <= j < |songs| && Playable(songs[j]) ==> songs[j].song.id in IdSet(DistinctPlayable(songs))
  {
    if songs != [] {
      var songs', s := songs[..|songs| - 1], songs[|songs| - 1];
      var kept := DistinctPlayable(songs');
      DistinctPlayableComplete(songs');
      if Playable(s) && s.song.id !in IdSet(kept) {
        IdSetAppend(kept, s);
      }
      forall j | 0 <= j < |songs| && Playable(songs[j])
        ensures songs[j].song.id in IdSet(DistinctPlayable(songs))
      {
        if j < |songs'| {
          assert songs'[j] == songs[j];
        }
      }
    }
  }

  /** Walking a prefix of the candidates keeps a prefix of what walking all of them keeps. */
  lemma {:induction false} DistinctPlayablePrefix(songs: seq<ScoredSong>, i: nat)
    requires i <= |songs|
    ensures var d := DistinctPlayable(songs); var di := DistinctPlayable(songs[..i]);
      |di| <= |d| && d[..|di|] == di
  {
    if i < |songs| {
      var songs' := songs[..|songs| - 1];
      assert songs'[..i] == songs[..i];
      DistinctPlayablePrefix(songs', i);
    } else {
      assert songs[..i] == songs;
    }
  }

  /** The least index `m >= from` at which the prefix sum reaches the budget, or the length. */
  function BudgetCut(xs: seq<ScoredSong>, budget: int, from: nat): (m: nat)
    requires from <= |xs|
    ensures from <= m <= |xs|
    ensures forall j :: from <= j < m ==> SumSeconds(xs[..j]) < budget
    ensures m == |xs| || SumSeconds(xs[..m]) >= budget
    decreases |xs| - from
  {
    if from == |xs| || SumSeconds(xs[..from]) >= budget then from else BudgetCut(xs, budget, from + 1)
  }

  /** Reference definition of phase 1: the distinct playable candidates, cut where the budget is first reached. */
  function Phase1(songs: seq<ScoredSong>, budget: int): seq<ScoredSong>
  {
    var d := DistinctPlayable(songs);
    d[..BudgetCut(d, budget, 0)]
  }

  lemma {:induction false} SubsequencePrefix<T>(xs: seq<T>, ys: seq<T>, m: nat)
    requires m <= |xs| && IsSubsequence(xs, ys)
    ensures IsSubsequence(xs[..m], ys)
    decreases |xs| - m
  {
    if m < |xs| {
      SubsequenceDropLast(xs, ys);
      assert xs[..|xs| - 1][..m] == xs[..m];
      SubsequencePrefix(xs[..|xs| - 1], ys, m);
    } else {
      assert xs[..m] == xs;
    }
  }

  /** Phase 1 keeps an order-preserving subsequence of the candidates, all playable, no id twice. */
  lemma Phase1Sound(songs: seq<ScoredSong>, budget: int)
    ensures var p := Phase1(songs, budget);
      DistinctIds(p) && IsSubsequence(p, songs) && forall j :: 0 <= j < |p| ==> Playable(p[j])
  {
    var d := DistinctPlayable(songs);
    DistinctPlayableSound(songs);
    SubsequencePrefix(d, songs, BudgetCut(d, budget, 0));
  }

  /**
   * Phase 1 adds a song only while the total is under budget, so it overshoots by
   * less than its last song; it stops short of the budget only when every playable
   * candidate id is already in.
   */
  lemma Phase1Budget(songs: seq<ScoredSong>, budget: int)
    ensures var p := Phase1(songs, budget);
      (forall j :: 0 <= j < |p| ==> SumSeconds(p[..j]) < budget) &&
      (p != [] ==> SumSeconds(p) < budget + Seconds(p[|p| - 1])) &&
      (SumSeconds(p) < budget ==> forall j :: 0 <= j < |songs| && Playable(songs[j]) ==> songs[j].song.id in IdSet(p))
  {
    var d := DistinctPlayable(songs);
    var m := BudgetCut(d, budget, 0);
    var p := d[..m];
    forall j | 0 <= j < |p| ensures SumSeconds(p[..j]) < budget {
      assert p[..j] == d[..j];
    }
    if p != [] {
      assert p[..|p| - 1] + [p[|p| - 1]] == p;
      SumSecondsAppend(p[..|p| - 1], p[|p| - 1]);
    }
    if SumSeconds(p) < budget {
      assert m == |d|;
      assert p == d;
      DistinctPlayableComplete(songs);
    }
  }

  /** Phase 1 is empty exactly when the budget is not positive or no candidate is playable. */
  lemma Phase1EmptyIff(songs: seq<ScoredSong>, budget: int)
    ensures Phase1(songs, budget) == [] <==> budget <= 0 || forall j :: 0 <= j < |songs| ==> !Playable(songs[j])
  {
    var d := DistinctPlayable(songs);
    DistinctPlayableSound(songs);
    DistinctPlayableComplete(songs);
    assert d[..0] == [];
    if budget > 0 && exists j :: 0 <= j < |songs| && Playable(songs[j]) {
      var j :| 0 <= j < |songs| && Playable(songs[j]);
      assert songs[j].song.id in IdSet(d);
      assert d != [];
      assert BudgetCut(d, budget, 0) > 0;
    }
    if d != [] {
      SubsequenceMembers(d, songs);
      assert d[0] in songs;
    }
  }

  /** The phase-1 loop's exit state is the reference phase 1. */
  lemma Phase1Exit(songs: seq<ScoredSong>, budget: int, i: nat, p: seq<ScoredSong>)
    requires i <= |songs| && p == DistinctPlayable(songs[..i])
    requires forall j :: 0 <= j < |p| ==> SumSeconds(p[..j]) < budget
    requires SumSeconds(p) >= budget || i == |songs|
    ensures p == Phase1(songs, budget)
  {
    var d := DistinctPlayable(songs);
    DistinctPlayablePrefix(songs, i);
    if i == |songs| {
      assert songs[..i] == songs;
    }
    forall j | 0 <= j < |p| ensures SumSeconds(d[..j]) < budget {
      assert d[..j] == p[..j];
    }
  }

  /**
   * The outcome of assembly. `IndexOutOfRange` is the exception raised when the
   * fill loop picks from an empty playlist (`Next(0, 0)` is 0). `Unfinished`
   * is where the model stops a fill loop that is still short after `fuel`
   * rounds; the source keeps looping.
   */
  datatype Assembly = Assembled(playlist: seq<ScoredSong>) | IndexOutOfRange | Unfinished(playlist: seq<ScoredSong>)

  /**
   * Reference definition of one filler batch: in query order, the fillers whose id
   * is neither in `seen` nor taken by an earlier filler of the batch and, when
   * `skipOrphans`, that have a parent.
   */
  function FreshFillers(fillers: seq<ScoredSong>, seen: set<Guid>, skipOrphans: bool): seq<ScoredSong>
  {
    if fillers == [] then []
    else
      var kept, f := FreshFillers(fillers[..|fillers| - 1], seen, skipOrphans), fillers[|fillers| - 1];
      if f.song.id in seen || f.song.id in IdSet(kept) || (skipOrphans && f.song.parentId == EmptyGuid) then kept
      else kept + [f]
  }

  /**
   * A batch keeps an order-preserving subsequence of the fillers with new, pairwise
   * different ids (and parents when `skipOrphans`).
   */
  lemma {:induction false} FreshFillersSound(fillers: seq<ScoredSong>, seen: set<Guid>, skipOrphans: bool)
    ensures var r := FreshFillers(fillers, seen, skipOrphans);
      IsSubsequence(r, fillers) && DistinctIds(r) &&
      (forall j :: 0 <= j < |r| ==> r[j].song.id !in seen && (skipOrphans ==> r[j].song.parentId != EmptyGuid))
  {
    if fillers != [] {
      var front, f := fillers[..|fillers| - 1], fillers[|fillers| - 1];
      assert fillers == front + [f];
      var kept := FreshFillers(front, seen, skipOrphans);
      FreshFillersSound(front, seen, skipOrphans);
      if f.song.id in seen || f.song.id in IdSet(kept) || (skipOrphans && f.song.parentId == EmptyGuid) {
        SubsequenceSkip(kept, front, f);
      } else {
        assert FreshFillers(fillers, seen, skipOrphans) == kept + [f];
        DistinctIdsAppend(kept, f);
        SubsequenceBoth(kept, front, f);
      }
    }
  }

  /** No filler is passed over unless its id was already seen, or it is an orphan that is skipped. */
  lemma {:induction false} FreshFillersCover(fillers: seq<ScoredSong>, seen: set<Guid>, skipOrphans: bool)
    ensures var r := FreshFillers(fillers, seen, skipOrphans);
      forall f :: f in fillers ==>
        f.song.id in seen || f.song.id in IdSet(r) || (skipOrphans && f.song.parentId == EmptyGuid)
  {
    if fillers != [] {
      var front, f := fillers[..|fillers| - 1], fillers[|fillers| - 1];
      assert fillers == front + [f];
      var kept := FreshFillers(front, seen, skipOrphans);
      FreshFillersCover(front, seen, skipOrphans);
      if !(f.song.id in seen || f.song.id in IdSet(kept) || (skipOrphans && f.song.parentId == EmptyGuid)) {
        IdSetAppend(kept, f);
      }
    }
  }

  /** The batch of the first `k + 1` fillers is the batch of the first `k`, plus filler `k` when it is fresh. */
  lemma FreshFillersNext(fillers: seq<ScoredSong>, k: nat, seen: set<Guid>, skipOrphans: bool)
    requires k < |fillers|
    ensures var kept, f := FreshFillers(fillers[..k], seen, skipOrphans), fillers[k];
      FreshFillers(fillers[..k + 1], seen, skipOrphans) ==
        if f.song.id in seen || f.song.id in IdSet(kept) || (skipOrphans && f.song.parentId == EmptyGuid)
        then kept else kept + [f]
  {
    assert fillers[..k + 1][..k] == fillers[..k];
  }

  /** Filler `k` extends the playlist grown by the first `k` fillers exactly when its id is new there and it is not a skipped orphan. */
  lemma BatchNext(playlist: seq<ScoredSong>, fillers: seq<ScoredSong>, k: nat, seen: set<Guid>, skipOrphans: bool)
    requires k < |fillers| && seen == IdSet(playlist)
    ensures var p, f := playlist + FreshFillers(fillers[..k], seen, skipOrphans), fillers[k];
      playlist + FreshFillers(fillers[..k + 1], seen, skipOrphans) ==
        if f.song.id in IdSet(p) || (skipOrphans && f.song.parentId == EmptyGuid) then p else p + [f]
  {
    var kept := FreshFillers(fillers[..k], seen, skipOrphans);
    FreshFillersNext(fillers, k, seen, skipOrphans);
    IdSetConcat(playlist, kept);
    assert playlist + (kept + [fillers[k]]) == playlist + kept + [fillers[k]];
  }

  /** The `foreach` over one batch of fillers: it appends exactly the batch's fresh fillers, in query order. */
  method AddFillers(playlist: seq<ScoredSong>, total: int, seen: set<Guid>, fillers: seq<ScoredSong>, skipOrphans: bool)
    returns (playlist': seq<ScoredSong>, total': int, seen': set<Guid>)
    requires total == SumSeconds(playlist) && seen == IdSet(playlist) && DistinctIds(playlist)
    ensures playlist' == playlist + FreshFillers(fillers, seen, skipOrphans)
    ensures total' == SumSeconds(playlist') && seen' == IdSet(playlist') && DistinctIds(playlist')
    ensures |playlist| <= |playlist'| && playlist'[..|playlist|] == playlist
    ensures forall j :: |playlist| <= j < |playlist'| ==>
      playlist'[j] in fillers && (skipOrphans ==> playlist'[j].song.parentId != EmptyGuid)
    ensures forall f :: f in fillers ==> f.song.id in seen' || (skipOrphans && f.song.parentId == EmptyGuid)
  {
    playlist', total', seen' := playlist, total, seen;
    for k := 0 to |fillers|
      invariant playlist' == playlist + FreshFillers(fillers[..k], seen, skipOrphans)
      invariant total' == SumSeconds(playlist') && seen' == IdSet(playlist') && DistinctIds(playlist')
    {
      var filler := fillers[k];
      BatchNext(playlist, fillers, k, seen, skipOrphans);
      if filler.song.id in seen' || (skipOrphans && filler.song.parentId == EmptyGuid) {
        continue;
      }
      SumSecondsAppend(playlist', filler);
      IdSetAppend(playlist', filler);
      DistinctIdsAppend(playlist', filler);
      playlist' := playlist' + [filler];
      total' := total' + Seconds(filler);
      seen' := seen' + {filler.song.id};
    }
    assert fillers[..|fillers|] == fillers;
    FreshFillersAppended(playlist, fillers, seen, skipOrphans);
  }

  /** Appending a batch keeps the playlist as a prefix and adds only fillers of the batch. */
  lemma FreshFillersAppended(playlist: seq<ScoredSong>, fillers: seq<ScoredSong>, seen: set<Guid>, skipOrphans: bool)
    ensures var p' := playlist + FreshFillers(fillers, seen, skipOrphans);
      |playlist| <= |p'| && p'[..|playlist|] == playlist &&
      (forall j :: |playlist| <= j < |p'| ==> p'[j] in fillers && (skipOrphans ==> p'[j].song.parentId != EmptyGuid)) &&
      (forall f :: f in fillers ==> f.song.id in seen + IdSet(FreshFillers(fillers, seen, skipOrphans)) ||
                                    (skipOrphans && f.song.parentId == EmptyGuid))
  {
    var batch := FreshFillers(fillers, seen, skipOrphans);
    var p' := playlist + batch;
    FreshFillersSound(fillers, seen, skipOrphans);
    FreshFillersCover(fillers, seen, skipOrphans);
    SubsequenceMembers(batch, fillers);
    forall j | |playlist| <= j < |p'|
      ensures p'[j] in fillers && (skipOrphans ==> p'[j].song.parentId != EmptyGuid)
    {
      assert p'[j] == batch[j - |playlist|];
    }
  }

  /**
   * Reference definition of the fill phase: starting from the phase-1 list, round
   * `r` appends the fresh similar songs of entry `picks[r]` of the playlist so far.
   */
  function Fill(p1: seq<ScoredSong>, picks: seq<nat>, lib: Library, skipOrphans: bool): seq<ScoredSong>
  {
    if picks == [] then p1
    else
      var p, q := Fill(p1, picks[..|picks| - 1], lib, skipOrphans), picks[|picks| - 1];
      if q < |p| then p + FreshFillers(SimilarOf(p[q], lib), IdSet(p), skipOrphans) else p
  }

  /** Every random pick indexed the playlist as it was in its round. */
  predicate ValidPicks(p1: seq<ScoredSong>, picks: seq<nat>, lib: Library, skipOrphans: bool)
  {
    picks == [] ||
    (ValidPicks(p1, picks[..|picks| - 1], lib, skipOrphans) &&
     picks[|picks| - 1] < |Fill(p1, picks[..|picks| - 1], lib, skipOrphans)|)
  }

  /** One more fill round on top of valid draws: entry `pick` contributes its fresh similar songs. */
  lemma FillStep(p1: seq<ScoredSong>, picks: seq<nat>, pick: nat, lib: Library, skipOrphans: bool)
    requires ValidPicks(p1, picks, lib, skipOrphans) && pick < |Fill(p1, picks, lib, skipOrphans)|
    ensures var p := Fill(p1, picks, lib, skipOrphans);
      ValidPicks(p1, picks + [pick], lib, skipOrphans) &&
      Fill(p1, picks + [pick], lib, skipOrphans) == p + FreshFillers(SimilarOf(p[pick], lib), IdSet(p), skipOrphans)
  {
    assert (picks + [pick])[..|picks|] == picks;
  }

  /**
   * What the fill phase keeps of its playlist `p`: it extends the phase-1 list
   * `p1`, and filler `p[|p1| + k]` is one of the similar songs of the earlier entry
   * `origin[k]`, with a parent album when `skipOrphans`.
   */
  ghost predicate Grown(p1: seq<ScoredSong>, p: seq<ScoredSong>, origin: seq<nat>, lib: Library, skipOrphans: bool)
  {
    |p1| <= |p| && p[..|p1|] == p1 && |origin| == |p| - |p1| &&
    (forall k :: 0 <= k < |origin| ==> origin[k] < |p1| + k && p[|p1| + k] in SimilarOf(p[origin[k]], lib)) &&
    (skipOrphans ==> forall j :: |p1| <= j < |p| ==> p[j].song.parentId != EmptyGuid)
  }

  /**
   * One fill round keeps `Grown`, the fillers appended being similar songs of entry
   * `pick`, and extends the reference fill by that draw.
   */
  lemma GrownStep(p1: seq<ScoredSong>, before: seq<ScoredSong>, origin: seq<nat>, picks: seq<nat>, after: seq<ScoredSong>,
                  pick: nat, fillers: seq<ScoredSong>, lib: Library, skipOrphans: bool)
    returns (origin': seq<nat>)
    requires Grown(p1, before, origin, lib, skipOrphans)
    requires ValidPicks(p1, picks, lib, skipOrphans) && before == Fill(p1, picks, lib, skipOrphans)
    requires pick < |before| && fillers == SimilarOf(before[pick], lib)
    requires after == before + FreshFillers(fillers, IdSet(before), skipOrphans)
    requires |before| <= |after| && after[..|before|] == before
    requires forall j :: |before| <= j < |after| ==>
      after[j] in fillers && (skipOrphans ==> after[j].song.parentId != EmptyGuid)
    ensures Grown(p1, after, origin', lib, skipOrphans)
    ensures |origin| <= |origin'| && origin'[..|origin|] == origin
    ensures ValidPicks(p1, picks + [pick], lib, skipOrphans) && after == Fill(p1, picks + [pick], lib, skipOrphans)
  {
    FillStep(p1, picks, pick, lib, skipOrphans);
    origin' := origin + seq(|after| - |before|, _ => pick);
    assert forall x :: 0 <= x < |before| ==> after[x] == before[x];
    assert after[..|p1|] == p1 by {
      assert after[..|before|][..|p1|] == before[..|p1|];
    }
    forall k | 0 <= k < |origin'|
      ensures origin'[k] < |p1| + k && after[|p1| + k] in SimilarOf(after[origin'[k]], lib)
    {
      if k < |origin| {
        assert origin'[k] == origin[k];
      } else {
        assert origin'[k] == pick;
      }
    }
  }

  /** Phase 1 of `AssemblePlaylist`: the first `while` loop over the candidates. */
  method FirstPass(songs: seq<ScoredSong>, budget: int)
    returns (assembledPlaylist: seq<ScoredSong>, totalSeconds: int, seenGuids: set<Guid>)
    ensures assembledPlaylist == Phase1(songs, budget)
    ensures totalSeconds == SumSeconds(assembledPlaylist) && seenGuids == IdSet(assembledPlaylist)
  {
    totalSeconds, seenGuids, assembledPlaylist := 0, {}, [];
    var i := 0;
    while totalSeconds < budget && i < |songs|
      invariant 0 <= i <= |songs|
      invariant assembledPlaylist == DistinctPlayable(songs[..i])
      invariant seenGuids == IdSet(assembledPlaylist)
      invariant totalSeconds == SumSeconds(assembledPlaylist)
      invariant forall j :: 0 <= j < |assembledPlaylist| ==> SumSeconds(assembledPlaylist[..j]) < budget
      decreases |songs| - i
    {
      assert songs[..i + 1][..i] == songs[..i];
      if songs[i].song.runtimeTicks.None? || songs[i].song.id in seenGuids {
        i := i + 1;
        continue;
      }
      var s := songs[i];
      SumSecondsAppend(assembledPlaylist, s);
      IdSetAppend(assembledPlaylist, s);
      assert forall j :: 0 <= j <= |assembledPlaylist| ==> (assembledPlaylist + [s])[..j] == assembledPlaylist[..j];
      assembledPlaylist := assembledPlaylist + [s];
      totalSeconds := totalSeconds + Seconds(s);
      seenGuids := seenGuids + {s.song.id};
      i := i + 1;
    }
    Phase1Exit(songs, budget, i, assembledPlaylist);
  }

  /**
   * What an assembled playlist `p` is: it has no repeated id, it starts with the
   * first pass, it is exactly the first pass when that already fills the budget,
   * and each later entry is a similar song of the entry `origin` names before it
   * (with a parent when `skipOrphans`).
   */
  predicate Extends(songs: seq<ScoredSong>, maxLength: int, lib: Library, skipOrphans: bool,
                    p: seq<ScoredSong>, origin: seq<nat>)
  {
    var p1 := Phase1(songs, maxLength * 60);
    DistinctIds(p) && |p1| <= |p| && p[..|p1|] == p1 &&
    (SumSeconds(p1) >= maxLength * 60 ==> p == p1) &&
    |origin| == |p| - |p1| &&
    (forall k :: 0 <= k < |origin| ==> origin[k] < |p1| + k && p[|p1| + k] in SimilarOf(p[origin[k]], lib)) &&
    (skipOrphans ==> forall j :: |p1| <= j < |p| ==> p[j].song.parentId != EmptyGuid)
  }

  /** A grown playlist with distinct ids that stays the phase-1 list when phase 1 already filled it extends the candidates. */
  lemma GrownExtends(songs: seq<ScoredSong>, maxLength: int, lib: Library, skipOrphans: bool,
                     p: seq<ScoredSong>, origin: seq<nat>)
    requires var p1 := Phase1(songs, maxLength * 60);
      Grown(p1, p, origin, lib, skipOrphans) && DistinctIds(p) && (SumSeconds(p1) >= maxLength * 60 ==> p == p1)
    ensures Extends(songs, maxLength, lib, skipOrphans, p, origin)
  {
  }

  /**
   * `AssemblePlaylist` of either generation; `skipOrphans` is the newer
   * generation's extra filler test `filler.Song.ParentId == Guid.Empty`.
   * `origin` names, for every filler, the playlist entry whose similar songs it
   * came from, and `picks` the random entry each fill round drew; given the draws,
   * the playlist is the reference fill of phase 1.
   */
  method Assemble(songs: seq<ScoredSong>, maxLength: int, lib: Library, fuel: nat, skipOrphans: bool)
    returns (result: Assembly, ghost origin: seq<nat>, ghost picks: seq<nat>)
    ensures var p1 := Phase1(songs, maxLength * 60);
      result.IndexOutOfRange? <==> p1 == [] && maxLength * 60 > 0 && fuel > 0
    ensures result.Assembled? ==> SumSeconds(result.playlist) >= maxLength * 60
    ensures result.Unfinished? ==> SumSeconds(result.playlist) < maxLength * 60
    ensures !result.IndexOutOfRange? ==> Extends(songs, maxLength, lib, skipOrphans, result.playlist, origin)
    ensures var p1 := Phase1(songs, maxLength * 60);
      !result.IndexOutOfRange? ==>
        ValidPicks(p1, picks, lib, skipOrphans) && result.playlist == Fill(p1, picks, lib, skipOrphans)
  {
    var maxLengthSeconds := maxLength * 60;
    var assembledPlaylist, totalSeconds, seenGuids := FirstPass(songs, maxLengthSeconds);
    Phase1Sound(songs, maxLengthSeconds);
    ghost var p1 := assembledPlaylist;
    origin, picks := [], [];
    if totalSeconds > maxLengthSeconds {
      return Assembled(assembledPlaylist), origin, picks;
    }
    var rounds := 0;
    while totalSeconds < maxLengthSeconds && rounds < fuel
      invariant p1 == Phase1(songs, maxLengthSeconds) && DistinctIds(p1)
      invariant seenGuids == IdSet(assembledPlaylist) && totalSeconds == SumSeconds(assembledPlaylist)
      invariant DistinctIds(assembledPlaylist)
      invariant Grown(p1, assembledPlaylist, origin, lib, skipOrphans)
      invariant ValidPicks(p1, picks, lib, skipOrphans) && assembledPlaylist == Fill(p1, picks, lib, skipOrphans)
      invariant rounds == 0 ==> assembledPlaylist == p1
      invariant rounds > 0 ==> p1 != [] && SumSeconds(p1) < maxLengthSeconds
      invariant rounds <= fuel
      decreases fuel - rounds
    {
      var pick := 0;
      if |assembledPlaylist| > 0 {
        pick :| 0 <= pick < |assembledPlaylist|;
      }
      if pick >= |assembledPlaylist| {
        return IndexOutOfRange, origin, picks;
      }
      var randomFiller := RecommendSimilar([assembledPlaylist[pick]], lib);
      SimilarSingle(assembledPlaylist[pick], lib);
      ghost var before := assembledPlaylist;
      assert randomFiller == SimilarOf(before[pick], lib);
      assembledPlaylist, totalSeconds, seenGuids :=
        AddFillers(assembledPlaylist, totalSeconds, seenGuids, randomFiller, skipOrphans);
      origin := GrownStep(p1, before, origin, picks, assembledPlaylist, pick, randomFiller, lib, skipOrphans);
      picks := picks + [pick];
      rounds := rounds + 1;
    }
    if totalSeconds < maxLengthSeconds {
      return Unfinished(assembledPlaylist), origin, picks;
    }
    return Assembled(assembledPlaylist), origin, picks;
  }
}
