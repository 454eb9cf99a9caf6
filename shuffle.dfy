/** The in-place Fisher–Yates shuffle that flashcards.js and quiz.js both define
    as `shuffleArray`. `Math.random` is replaced by a caller-supplied list of picks:
    at step `i` the cells `i` and `picks[i]` are swapped, with `0 <= picks[i] <= i`
    as `Math.floor(Math.random() * (i + 1))` guarantees. */
module Shuffle {

  /** One pick per index, each within the range the random draw can produce. */
  predicate ValidPicks(picks: seq<int>, n: int)
  {
    |picks| >= n && forall i :: 0 <= i < n ==> 0 <= picks[i] <= i
  }

  /** The destructuring swap `[s[i], s[j]] = [s[j], s[i]]`. */
  function Swap<T>(s: seq<T>, i: int, j: int): (r: seq<T>)
    requires 0 <= i < |s| && 0 <= j < |s|
    ensures |r| == |s| && r[i] == s[j] && r[j] == s[i]
    ensures forall k :: 0 <= k < |s| && k != i && k != j ==> r[k] == s[k]
  {
    s[i := s[j]][j := s[i]]
  }

  lemma SwapPermutation<T>(s: seq<T>, i: int, j: int)
    requires 0 <= i < |s| && 0 <= j < |s|
    ensures multiset(Swap(s, i, j)) == multiset(s)
  {
  }

  /** The steps `i, i - 1, ..., 1` of the down-counting loop, applied to `s`. */
  function ShuffleSteps<T>(s: seq<T>, picks: seq<int>, i: int): (r: seq<T>)
    requires -1 <= i < |s| && ValidPicks(picks, |s|)
    ensures |r| == |s|
    decreases i
  {
    if i <= 0 then s else ShuffleSteps(Swap(s, i, picks[i]), picks, i - 1)
  }

  /** Every step is a swap, so the steps together only reorder the cells. */
  lemma {:induction false} ShuffleStepsPermutation<T>(s: seq<T>, picks: seq<int>, i: int)
    requires -1 <= i < |s| && ValidPicks(picks, |s|)
    ensures multiset(ShuffleSteps(s, picks, i)) == multiset(s)
    decreases i
  {
    if i > 0 {
      SwapPermutation(s, i, picks[i]);
      ShuffleStepsPermutation(Swap(s, i, picks[i]), picks, i - 1);
    }
  }

  /** What `shuffleArray` leaves in its argument. */
  function Shuffled<T>(s: seq<T>, picks: seq<int>): (r: seq<T>)
    requires ValidPicks(picks, |s|)
    ensures |r| == |s| && multiset(r) == multiset(s)
    ensures |s| <= 1 ==> r == s
  {
    ShuffleStepsPermutation(s, picks, |s| - 1);
    ShuffleSteps(s, picks, |s| - 1)
  }

  /** Picks that always draw the current index swap nothing, so they keep the order. */
  lemma {:induction false} IdentityPicksKeepOrder<T>(s: seq<T>, picks: seq<int>, i: int)
    requires -1 <= i < |s| && ValidPicks(picks, |s|)
    requires forall k :: 0 <= k < |s| ==> picks[k] == k
    ensures ShuffleSteps(s, picks, i) == s
    decreases i
  {
    if i > 0 {
      assert Swap(s, i, picks[i]) == s;
      IdentityPicksKeepOrder(s, picks, i - 1);
    }
  }

  /** `shuffleArray(array)`: permutes the cells of `a` in place. */
  method ShuffleArray<T>(a: array<T>, picks: seq<int>)
    requires ValidPicks(picks, a.Length)
    modifies a
    ensures a[..] == Shuffled(old(a[..]), picks)
    ensures multiset(a[..]) == multiset(old(a[..]))
  {
    var i := a.Length - 1;
    while i > 0
      invariant -1 <= i < a.Length
      invariant ShuffleSteps(a[..], picks, i) == Shuffled(old(a[..]), picks)
      decreases i
    {
      var j := picks[i];
      ghost var before := a[..];
      a[i], a[j] := a[j], a[i];
      assert a[..] == Swap(before, i, j);
      i := i - 1;
    }
  }
}
