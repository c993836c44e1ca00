/**
 * The newer generation's `GentleShuffle`: every element moves to a free slot at
 * most `k` positions away. The slot about to leave every later window (`i - k`)
 * is taken as soon as it is the earliest free one, which is what keeps the
 * windows from running dry. The result is a windowed permutation, stated by
 * `GentlePermutation` and shown to preserve the multiset of elements.
 */
module PlaylistService {
  import opened Catalog

  /** `Enumerable.Range(lo, hi - lo)` as a set, with the used slots taken out (`ExceptWith`). */
  function Free(lo: int, hi: int, used: set<int>): (r: set<int>)
    ensures forall x :: x in r <==> lo <= x < hi && x !in used
  {
    set x | lo <= x < hi && x !in used
  }

  lemma LeastExists(s: set<int>)
    requires exists y :: y in s
    ensures exists m :: m in s && forall x :: x in s ==> m <= x
    decreases |s|
  {
    var y :| y in s;
    if !forall x :: x in s ==> y <= x {
      var below := set x | x in s && x < y;
      var z :| z in s && z < y;
      assert z in below;
      SubsetCard(below, s - {y});
      LeastExists(below);
      var m :| m in below && forall x :: x in below ==> m <= x;
      assert forall x :: x in s ==> m <= x by {
        forall x | x in s ensures m <= x {
          if x < y { assert x in below; }
        }
      }
    }
  }

  /** LINQ `Min()` of a non-empty set of indices. */
  function Least(s: set<int>): (m: int)
    requires exists y :: y in s
    ensures m in s && forall x :: x in s ==> m <= x
  {
    LeastExists(s);
    var m :| m in s && forall x :: x in s ==> m <= x; m
  }

  /** The indices `0 <= x < hi` other than `hole`. */
  lemma {:induction false} SpanCard(hi: nat, hole: int)
    ensures |Free(0, hi, {hole})| == if 0 <= hole < hi then hi - 1 else hi
  {
    if hi > 0 {
      SpanCard(hi - 1, hole);
      if hole == hi - 1 {
        assert Free(0, hi, {hole}) == Free(0, hi - 1, {hole});
      } else {
        assert Free(0, hi, {hole}) == Free(0, hi - 1, {hole}) + {hi - 1};
      }
    } else {
      assert Free(0, hi, {hole}) == {};
    }
  }

  /** The contrapositive of `Cover`, handing out a witness: a set too small to cover the indices misses one. */
  lemma FreeSlot(used: set<int>, hi: nat, hole: int) returns (x: int)
    requires |used| < if 0 <= hole < hi then hi - 1 else hi
    ensures 0 <= x < hi && x != hole && x !in used
  {
    if forall y :: 0 <= y < hi && y != hole ==> y in used {
      Cover(used, hi, hole);
      assert false;
    }
    x :| 0 <= x < hi && x != hole && x !in used;
  }

  lemma SubsetCard(a: set<int>, b: set<int>)
    requires a <= b
    ensures |a| <= |b|
  {
    assert b == a + (b - a);
  }

  /** Pigeonhole: a set covering `0 <= x < hi` except perhaps `hole` has at least that many elements. */
  lemma Cover(used: set<int>, hi: nat, hole: int)
    requires forall x :: 0 <= x < hi && x != hole ==> x in used
    ensures |used| >= if 0 <= hole < hi then hi - 1 else hi
  {
    SpanCard(hi, hole);
    SubsetCard(Free(0, hi, {hole}), used);
  }

  /** The slots taken by the first elements. */
  ghost function Taken(slot: seq<int>): set<int>
  {
    set j | 0 <= j < |slot| :: slot[j]
  }

  /**
   * `r` is `a` with element `j` moved to slot `slot[j]`: the slots are a
   * bijection of the indices and none is more than `k` away from its element.
   */
  ghost predicate GentlePermutation<T>(a: seq<T>, r: seq<T>, slot: seq<int>, k: int)
  {
    |r| == |a| && |slot| == |a| &&
    (forall j :: 0 <= j < |a| ==> 0 <= slot[j] < |a| && r[slot[j]] == a[j] && j - k <= slot[j] <= j + k) &&
    (forall i, j :: 0 <= i < j < |a| ==> slot[i] != slot[j]) &&
    (forall p :: 0 <= p < |a| ==> p in Taken(slot))
  }

  /**
   * The loop state after `i` elements: element `j` sits in `slot[j]`, a slot of
   * its window; the slots differ and are exactly the used indices; every slot
   * that has left the window of element `i` is used.
   */
  ghost predicate Placed<T>(list: seq<T>, shuffled: seq<T>, used: set<int>, slot: seq<int>, i: int, k: int)
  {
    0 <= i <= |list| && |shuffled| == |list| && |slot| == i &&
    InWindows(list, shuffled, slot, k) &&
    used == Taken(slot) && |used| == i &&
    (k >= 0 && i < |list| ==> forall p :: 0 <= p < i - k ==> p in used)
  }

  /** The placed elements sit in different slots of their windows. */
  ghost predicate InWindows<T>(list: seq<T>, shuffled: seq<T>, slot: seq<int>, k: int)
    requires |slot| <= |list| == |shuffled|
  {
    (forall j :: 0 <= j < |slot| ==> Max(0, j - k) <= slot[j] < Min(|list|, j + k + 1)) &&
    (forall j1, j2 :: 0 <= j1 < j2 < |slot| ==> slot[j1] != slot[j2]) &&
    (forall j :: 0 <= j < |slot| ==> shuffled[slot[j]] == list[j])
  }

  lemma InWindowsStep<T>(list: seq<T>, shuffled: seq<T>, slot: seq<int>, k: int, newIdx: int)
    requires |slot| < |list| == |shuffled| && InWindows(list, shuffled, slot, k)
    requires Max(0, |slot| - k) <= newIdx < Min(|list|, |slot| + k + 1)
    requires forall j :: 0 <= j < |slot| ==> slot[j] != newIdx
    ensures InWindows(list, shuffled[newIdx := list[|slot|]], slot + [newIdx], k)
  {
    var slot' := slot + [newIdx];
    assert forall j :: 0 <= j < |slot| ==> slot'[j] == slot[j];
  }

  lemma TakenStep(slot: seq<int>, newIdx: int)
    ensures Taken(slot + [newIdx]) == Taken(slot) + {newIdx}
  {
    var slot' := slot + [newIdx];
    assert forall j :: 0 <= j < |slot| ==> slot'[j] == slot[j];
    assert slot'[|slot|] == newIdx;
  }

  /**
   * Placing element `i` in a free slot of its window keeps `Placed`, provided
   * the slot `i - k`, which no later window contains, is taken when it is still
   * free (the last element has nothing after it).
   */
  lemma PlaceStep<T>(list: seq<T>, shuffled: seq<T>, used: set<int>, slot: seq<int>, i: int, k: int, newIdx: int)
    requires Placed(list, shuffled, used, slot, i, k) && i < |list| && k >= 0
    requires Max(0, i - k) <= newIdx < Min(|list|, i + k + 1) && newIdx !in used
    requires i < |list| - 1 && 0 <= i - k && i - k !in used ==> newIdx == i - k
    ensures Placed(list, shuffled[newIdx := list[i]], used + {newIdx}, slot + [newIdx], i + 1, k)
  {
    assert forall j :: 0 <= j < i ==> slot[j] in used;
    InWindowsStep(list, shuffled, slot, k, newIdx);
    TakenStep(slot, newIdx);
    if i + 1 < |list| {
      WindowStep(used, i, k, newIdx);
    }
  }

  /** The slot leaving the window is either used already or taken now. */
  lemma WindowStep(used: set<int>, i: int, k: int, newIdx: int)
    requires forall p :: 0 <= p < i - k ==> p in used
    requires 0 <= i - k && i - k !in used ==> newIdx == i - k
    ensures forall p :: 0 <= p < i + 1 - k ==> p in used + {newIdx}
  {
    forall p | 0 <= p < i + 1 - k ensures p in used + {newIdx} {
      if p < i - k {
        assert p in used;
      }
    }
  }

  /** Once every element is placed, the slots form a gentle permutation. */
  lemma PlacedPermutation<T>(list: seq<T>, shuffled: seq<T>, used: set<int>, slot: seq<int>, k: int)
    requires Placed(list, shuffled, used, slot, |list|, k)
    ensures GentlePermutation(list, shuffled, slot, k)
  {
    PlacedAll(list, shuffled, used, slot, k);
  }

  /** After the last element every index is a slot. */
  lemma PlacedAll<T>(list: seq<T>, shuffled: seq<T>, used: set<int>, slot: seq<int>, k: int)
    requires Placed(list, shuffled, used, slot, |list|, k)
    ensures forall p :: 0 <= p < |list| ==> p in Taken(slot)
  {
    var n := |list|;
    forall p | 0 <= p < n ensures p in Taken(slot) {
      if p !in used {
        assert forall j :: 0 <= j < n ==> slot[j] in used && 0 <= slot[j] < n;
        SpanCard(n, p);
        SubsetCard(used, Free(0, n, {p}));
        assert false;
      }
    }
  }

  predicate HasFree(s: set<int>)
  {
    exists y :: y in s
  }

  /** The earliest free slots of two consecutive windows exist and differ. */
  predicate EarliestDiffer(free: set<int>, nextFree: set<int>)
  {
    (exists y :: y in free) && (exists y :: y in nextFree) && Least(free) != Least(nextFree)
  }

  /**
   * Step `j` of the shuffle, with the slots of the elements before it taken:
   * when the earliest free slot of its window differs from the earliest free
   * slot of the next element's window, element `j` went to the former.
   */
  ghost predicate PrefersAt(n: int, slot: seq<int>, k: int, j: int)
    requires 0 <= j < |slot|
  {
    var used := Taken(slot[..j]);
    var free := Free(Max(0, j - k), Min(n, j + k + 1), used);
    var nextFree := Free(Max(0, j + 1 - k), Min(n, j + 1 + k + 1), used);
    (j < n - 1 && EarliestDiffer(free, nextFree)) ==> slot[j] == Least(free)
  }

  /** Every step so far followed the earliest-slot rule, stated step by step from the last. */
  ghost predicate Prefers(n: int, slot: seq<int>, k: int)
  {
    slot == [] || (Prefers(n, slot[..|slot| - 1], k) && PrefersAt(n, slot, k, |slot| - 1))
  }

  /** `Prefers` holds at every step. */
  lemma {:induction false} PrefersEvery(n: int, slot: seq<int>, k: int)
    requires Prefers(n, slot, k)
    ensures forall j :: 0 <= j < |slot| ==> PrefersAt(n, slot, k, j)
  {
    if slot != [] {
      var m := |slot| - 1;
      var front := slot[..m];
      PrefersEvery(n, front, k);
      forall j | 0 <= j < m ensures PrefersAt(n, slot, k, j) {
        assert slot[..j] == front[..j] && slot[j] == front[j];
        assert PrefersAt(n, front, k, j);
      }
    }
  }

  lemma PrefersStep(n: int, slot: seq<int>, i: int, k: int, used: set<int>, free: set<int>, nextFree: set<int>,
                    newIdx: int)
    requires Prefers(n, slot, k) && used == Taken(slot) && i == |slot|
    requires free == Free(Max(0, i - k), Min(n, i + k + 1), used)
    requires nextFree == Free(Max(0, i + 1 - k), Min(n, i + 1 + k + 1), used)
    requires (i < n - 1 && EarliestDiffer(free, nextFree)) ==> newIdx == Least(free)
    ensures Prefers(n, slot + [newIdx], k)
  {
    var slot' := slot + [newIdx];
    assert slot'[..|slot|] == slot;
  }

  /**
   * While elements remain, the window of element `i` has a free slot, so has the
   * window of the next element, and slot `i - k` is free only if it lies in
   * the current window.
   */
  lemma FreeSlots<T>(list: seq<T>, shuffled: seq<T>, used: set<int>, slot: seq<int>, i: int, k: int)
    requires Placed(list, shuffled, used, slot, i, k) && i < |list| && k >= 0
    ensures HasFree(Free(Max(0, i - k), Min(|list|, i + k + 1), used))
    ensures i < |list| - 1 ==> HasFree(Free(Max(0, i + 1 - k), Min(|list|, i + 1 + k + 1), used))
    ensures i < |list| - 1 && 0 <= i - k && i - k !in used ==> i - k in Free(Max(0, i - k), Min(|list|, i + k + 1), used)
  {
    var free := FreeSlot(used, Min(|list|, i + k + 1), -1);
    assert free in Free(Max(0, i - k), Min(|list|, i + k + 1), used);
    if i < |list| - 1 {
      var nextFree := FreeSlot(used, Min(|list|, i + 1 + k + 1), i - k);
      assert nextFree in Free(Max(0, i + 1 - k), Min(|list|, i + 1 + k + 1), used);
    }
  }

  /** One step of the shuffle: element `i` goes to `newIdx`, chosen as the loop chooses it. */
  lemma Advance<T>(list: seq<T>, shuffled: seq<T>, used: set<int>, slot: seq<int>, i: int, k: int,
                   free: set<int>, nextFree: set<int>, newIdx: int)
    requires Placed(list, shuffled, used, slot, i, k) && Prefers(|list|, slot, k) && i < |list| && k >= 0
    requires free == Free(Max(0, i - k), Min(|list|, i + k + 1), used)
    requires nextFree == Free(Max(0, i + 1 - k), Min(|list|, i + 1 + k + 1), used)
    requires newIdx in free
    requires (i < |list| - 1 && EarliestDiffer(free, nextFree)) ==> newIdx == Least(free)
    requires i < |list| - 1 && 0 <= i - k && i - k !in used ==> newIdx == i - k
    ensures Placed(list, shuffled[newIdx := list[i]], used + {newIdx}, slot + [newIdx], i + 1, k)
    ensures Prefers(|list|, slot + [newIdx], k)
  {
    PrefersStep(|list|, slot, i, k, used, free, nextFree, newIdx);
    PlaceStep(list, shuffled, used, slot, i, k, newIdx);
  }

  /**
   * The slot for the current element: the earliest free slot when it differs
   * from the next element's earliest free slot, else any free slot (the random
   * pick is a nondeterministic choice).
   */
  method ChooseSlot(free: set<int>, nextFree: set<int>, last: bool) returns (newIdx: int)
    requires HasFree(free) && (!last ==> HasFree(nextFree))
    ensures newIdx in free
    ensures (!last && EarliestDiffer(free, nextFree)) ==> newIdx == Least(free)
  {
    if !last && Least(free) != Least(nextFree) {
      newIdx := Least(free);
    } else {
      newIdx :| newIdx in free;
    }
  }

  /**
   * `GentleShuffle(array, k)` on the list `list`. `None` is the exception `Enumerable.Range`
   * raises on a negative count, which happens exactly when `k` is negative and
   * the list is not empty. The random pick among free slots is a
   * nondeterministic choice.
   */
  method GentleShuffle<T>(list: seq<T>, k: int) returns (r: Option<seq<T>>, ghost slot: seq<int>)
    ensures r.None? <==> k < 0 && |list| > 0
    ensures r.Some? ==> GentlePermutation(list, r.value, slot, k)
    ensures r.Some? ==> forall j :: 0 <= j < |list| ==> PrefersAt(|list|, slot, k, j)
  {
    var shuffledArray := list;
    var usedIndices: set<int> := {};
    var n := |list|;
    slot := [];
    var i := 0;
    while i < n
      invariant 0 <= i <= n && |slot| == i && |shuffledArray| == n
      invariant Placed(list, shuffledArray, usedIndices, slot, i, k)
      invariant Prefers(n, slot, k)
      invariant i > 0 ==> k >= 0
    {
      var lo, hi := Max(0, i - k), Min(n, i + k + 1);
      if hi - lo < 0 {
        return None, slot;
      }
      var availableIndices := Free(lo, hi, usedIndices);
      var nextLo, nextHi := Max(0, i + 1 - k), Min(n, i + 1 + k + 1);
      if nextHi - nextLo < 0 {
        return None, slot;
      }
      var nextAvailableIndices := Free(nextLo, nextHi, usedIndices);
      FreeSlots(list, shuffledArray, usedIndices, slot, i, k);
      if availableIndices == {} || (nextAvailableIndices == {} && i < n - 1) {
        assert false;
        break;
      }
      var newIdx := ChooseSlot(availableIndices, nextAvailableIndices, i >= n - 1);
      ghost var before, usedBefore, slotBefore := shuffledArray, usedIndices, slot;
      shuffledArray := shuffledArray[newIdx := list[i]];
      slot := slot + [newIdx];
      usedIndices := usedIndices + {newIdx};
      Advance(list, before, usedBefore, slotBefore, i, k, availableIndices, nextAvailableIndices, newIdx);
      i := i + 1;
    }
    PlacedPermutation(list, shuffledArray, usedIndices, slot, k);
    PrefersEvery(n, slot, k);
    return Some(shuffledArray), slot;
  }

  /** Removing one entry from a list takes one occurrence out of its multiset. */
  lemma RemoveAt<T>(s: seq<T>, q: nat)
    requires q < |s|
    ensures multiset(s) == multiset(s[..q] + s[q + 1..]) + multiset{s[q]}
  {
    assert s == s[..q] + [s[q]] + s[q + 1..];
  }

  /** A gentle shuffle rearranges the list: the result holds the same elements, as often as before. */
  lemma {:induction false} GentlePermutationPreservesElements<T>(a: seq<T>, r: seq<T>, slot: seq<int>, k: int)
    requires GentlePermutation(a, r, slot, k)
    ensures multiset(r) == multiset(a)
  {
    PermutationPreservesElements(a, r, slot);
  }

  ghost predicate Bijection<T>(a: seq<T>, r: seq<T>, slot: seq<int>)
  {
    |r| == |a| && |slot| == |a| &&
    (forall j :: 0 <= j < |a| ==> 0 <= slot[j] < |a| && r[slot[j]] == a[j]) &&
    (forall i, j :: 0 <= i < j < |a| ==> slot[i] != slot[j])
  }

  lemma {:induction false} PermutationPreservesElements<T>(a: seq<T>, r: seq<T>, slot: seq<int>)
    requires Bijection(a, r, slot)
    ensures multiset(r) == multiset(a)
    decreases |a|
  {
    if a != [] {
      var n := |a|;
      var q := slot[n - 1];
      var r' := r[..q] + r[q + 1..];
      var a' := a[..n - 1];
      var slot' := seq(n - 1, j requires 0 <= j < n - 1 => if slot[j] < q then slot[j] else slot[j] - 1);
      forall j | 0 <= j < n - 1 ensures 0 <= slot'[j] < n - 1 && r'[slot'[j]] == a'[j] {
        assert slot[j] != q;
      }
      forall i, j | 0 <= i < j < n - 1 ensures slot'[i] != slot'[j] {
        assert slot[i] != slot[j] && slot[i] != q && slot[j] != q;
      }
      PermutationPreservesElements(a', r', slot');
      RemoveAt(r, q);
      assert a == a' + [a[n - 1]];
    }
  }

  /** With `k == 0` no element can move: the shuffle returns the list unchanged. */
  lemma GentleZeroIsIdentity<T>(a: seq<T>, r: seq<T>, slot: seq<int>)
    requires GentlePermutation(a, r, slot, 0)
    ensures r == a
  {
    forall p | 0 <= p < |a| ensures r[p] == a[p] {
      assert p in Taken(slot);
      var j :| 0 <= j < |a| && slot[j] == p;
    }
  }
}
