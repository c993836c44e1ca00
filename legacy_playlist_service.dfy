/**
 * The older generation's `GentleShuffle`: an in-place pass that swaps element
 * `i` with a random partner at most `k` positions away. It rearranges the list,
 * but an element can ride several forward swaps, so its final distance from
 * where it started is not bounded by `k`.
 */
module LegacyPlaylistService {
  import opened Catalog

  /** The list with the entries at `i` and `j` exchanged. */
  function Swap<T>(s: seq<T>, i: int, j: int): (r: seq<T>)
    requires 0 <= i < |s| && 0 <= j < |s|
    ensures |r| == |s| && r[i] == s[j] && r[j] == s[i]
    ensures forall p :: 0 <= p < |s| && p != i && p != j ==> r[p] == s[p]
  {
    s[i := s[j]][j := s[i]]
  }

  lemma SwapPreservesElements<T>(s: seq<T>, i: int, j: int)
    requires 0 <= i < |s| && 0 <= j < |s|
    ensures multiset(Swap(s, i, j)) == multiset(s)
  {
    if i != j {
      var t := s[i := s[j]];
      assert multiset(t) == multiset(s) - multiset{s[i]} + multiset{s[j]};
      assert multiset(t[j := s[i]]) == multiset(t) - multiset{t[j]} + multiset{s[i]};
    }
  }

  /** Every partner is a legal index of a list of length `n`. */
  predicate InRange(partners: seq<int>, n: int)
  {
    forall i :: 0 <= i < |partners| ==> 0 <= partners[i] < n
  }

  /** Reference definition of the pass: step `i` swaps entry `i` with entry `partners[i]`. */
  function ApplySwaps<T>(s: seq<T>, partners: seq<int>): (r: seq<T>)
    requires |partners| <= |s| && InRange(partners, |s|)
    ensures |r| == |s|
  {
    if partners == [] then s
    else
      var m := |partners| - 1;
      Swap(ApplySwaps(s, partners[..m]), m, partners[m])
  }

  /** The pass rearranges the list: the result holds the same elements, as often as before. */
  lemma {:induction false} ApplySwapsPreservesElements<T>(s: seq<T>, partners: seq<int>)
    requires |partners| <= |s| && InRange(partners, |s|)
    ensures multiset(ApplySwaps(s, partners)) == multiset(s)
  {
    if partners != [] {
      var m := |partners| - 1;
      ApplySwapsPreservesElements(s, partners[..m]);
      SwapPreservesElements(ApplySwaps(s, partners[..m]), m, partners[m]);
    }
  }

  /** Step `i` draws its partner from `Math.Max(0, i - k) .. Math.Min(n - 1, i + k)`. */
  predicate InWindows(partners: seq<int>, n: int, k: int)
  {
    forall i :: 0 <= i < |partners| ==> Max(0, i - k) <= partners[i] <= Min(n - 1, i + k)
  }

  lemma ApplySwapsStep<T>(s: seq<T>, partners: seq<int>, j: int)
    requires |partners| < |s| && InRange(partners, |s|) && 0 <= j < |s|
    ensures InRange(partners + [j], |s|)
    ensures ApplySwaps(s, partners + [j]) == Swap(ApplySwaps(s, partners), |partners|, j)
  {
    assert (partners + [j])[..|partners|] == partners;
  }

  lemma InWindowsStep(partners: seq<int>, n: int, k: int, j: int)
    requires InWindows(partners, n, k)
    requires Max(0, |partners| - k) <= j <= Min(n - 1, |partners| + k)
    ensures InWindows(partners + [j], n, k)
  {
    assert forall i :: 0 <= i < |partners| ==> (partners + [j])[i] == partners[i];
  }

  /**
   * `GentleShuffle(array, k)`. `thrown` is the `ArgumentOutOfRangeException`
   * of `Random.Next(start, end + 1)` when `start > end + 1`, which happens at
   * the first step exactly when `k` is negative and the list is not empty;
   * nothing has been swapped by then. `partners` records the random draws.
   */
  method GentleShuffle<T>(a: array<T>, k: int) returns (thrown: bool, ghost partners: seq<int>)
    modifies a
    ensures thrown <==> k < 0 && a.Length > 0
    ensures thrown ==> a[..] == old(a[..])
    ensures !thrown ==> |partners| == a.Length && InWindows(partners, a.Length, k)
    ensures !thrown ==> InRange(partners, a.Length) && a[..] == ApplySwaps(old(a[..]), partners)
  {
    partners := [];
    for i := 0 to a.Length
      invariant |partners| == i && InWindows(partners, a.Length, k) && InRange(partners, a.Length)
      invariant a[..] == ApplySwaps(old(a[..]), partners)
      invariant i > 0 ==> k >= 0
    {
      var start := Max(0, i - k);
      var end := Min(a.Length - 1, i + k);
      if start > end + 1 {
        return true, partners;
      }
      assert k >= 0 && start <= i <= end;
      // Random.Next(start, end + 1) is `start` when the bounds meet, else below `end + 1`
      var swapIndex :| start <= swapIndex < Max(start + 1, end + 1);
      assert Max(start + 1, end + 1) == end + 1;
      assert swapIndex <= end && end < a.Length;
      ghost var before := a[..];
      a[swapIndex], a[i] := a[i], a[swapIndex];
      assert a[..] == Swap(before, i, swapIndex);
      ApplySwapsStep(old(a[..]), partners, swapIndex);
      InWindowsStep(partners, a.Length, k, swapIndex);
      partners := partners + [swapIndex];
    }
    return false, partners;
  }

  /** A list of at most one element comes back unchanged. */
  lemma {:induction false} ShortListUnchanged<T>(s: seq<T>, partners: seq<int>, k: int)
    requires |s| <= 1 && |partners| <= |s| && InWindows(partners, |s|, k) && InRange(partners, |s|)
    ensures ApplySwaps(s, partners) == s
  {
    if partners != [] {
      assert partners[..0] == [];
      assert partners[0] == 0;
    }
  }

  /** With `k = 1`, the draws 1, 2, 2 are legal for `[1, 2, 3]` and carry its first element two places forward. */
  lemma SwapsCanMoveFarther()
    ensures InWindows([1, 2, 2], 3, 1) && InRange([1, 2, 2], 3)
    ensures ApplySwaps([1, 2, 3], [1, 2, 2]) == [2, 3, 1]
    ensures forall p :: 0 <= p < 3 && ApplySwaps([1, 2, 3], [1, 2, 2])[p] == 1 ==> p > 0 + 1
  {
    var ps := [1, 2, 2];
    assert ps[..2] == [1, 2] && ps[..2][..1] == [1] && ps[..2][..1][..0] == [];
    assert ApplySwaps([1, 2, 3], [1]) == [2, 1, 3];
    assert ApplySwaps([1, 2, 3], [1, 2]) == [2, 3, 1];
  }
}
