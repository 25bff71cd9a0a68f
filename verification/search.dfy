/** The "first product above a limit" binary searches and the window scans built on them. */
module Search {
  import opened Intermods

  /** Frequencies never decrease along the list. */
  predicate FreqSorted(s: seq<Intermod>) {
    forall i, j :: 0 <= i < j < |s| ==> s[i].Freq() <= s[j].Freq()
  }

  /** `r` splits `s` into the products at or below `limit` and those above it. */
  predicate IsNextIndex(s: seq<Intermod>, limit: int, r: int) {
    && 0 <= r <= |s|
    && (forall i :: 0 <= i < r ==> s[i].Freq() <= limit)
    && (forall i :: r <= i < |s| ==> s[i].Freq() > limit)
  }

  /** The bounds an inner call of either search may assume: everything before
      `start` is at or below the limit, everything after `end` above it. */
  predicate Bracketed(s: seq<Intermod>, limit: int, start: int, end: int)
    requires 0 <= start <= |s| && -1 <= end < |s|
  {
    && (forall i :: 0 <= i < start ==> s[i].Freq() <= limit)
    && (forall i :: end < i < |s| ==> s[i].Freq() > limit)
  }

  /** The old analyser's `getNextImIndex(limitLo, intermods, start, end)`: a plain
      lower bound that halves `[start, end]` until it is empty. */
  function LowerBound(limit: int, s: seq<Intermod>, start: int, end: int): (r: int)
    requires -1 <= end < |s| && 0 <= start <= end + 1
    ensures start <= r <= end + 1
    ensures FreqSorted(s) && Bracketed(s, limit, start, end) ==> IsNextIndex(s, limit, r)
    decreases end - start + 1
  {
    if start > end then start
    else
      var mid := start + (end - start) / 2;
      BracketHalves(s, limit, start, end, mid);
      if s[mid].Freq() <= limit then LowerBound(limit, s, mid + 1, end)
      else LowerBound(limit, s, start, mid - 1)
  }

  /** Comparing the middle product with the limit narrows the bracket to one half. */
  lemma BracketHalves(s: seq<Intermod>, limit: int, start: int, end: int, mid: int)
    requires 0 <= start <= mid <= end < |s|
    ensures FreqSorted(s) && Bracketed(s, limit, start, end) ==>
      (s[mid].Freq() <= limit ==> Bracketed(s, limit, mid + 1, end)) &&
      (s[mid].Freq() > limit ==> Bracketed(s, limit, start, mid - 1))
  {
  }

  /** The old analyser's two-argument `getNextImIndex`: search the whole list. */
  function NextIndex(limit: int, s: seq<Intermod>): (r: int)
    ensures 0 <= r <= |s|
    ensures FreqSorted(s) ==> IsNextIndex(s, limit, r)
  {
    LowerBound(limit, s, 0, |s| - 1)
  }

  /** The newer `getNextImIndex(limitLo, intermods, start, end)` (also the store's):
      the same halving, but it stops as soon as a neighbour of `mid` shows the boundary. */
  function EarlyExitBound(limit: int, s: seq<Intermod>, start: int, end: int): (r: int)
    requires -1 <= end < |s| && 0 <= start <= end + 1
    ensures start <= r <= end + 1
    ensures FreqSorted(s) && Bracketed(s, limit, start, end) ==> IsNextIndex(s, limit, r)
    decreases end - start + 1
  {
    if start > end then start
    else
      var mid := start + (end - start) / 2;
      BracketHalves(s, limit, start, end, mid);
      if s[mid].Freq() <= limit then
        if mid + 1 < |s| && s[mid + 1].Freq() > limit then mid + 1
        else EarlyExitBound(limit, s, mid + 1, end)
      else
        if mid > 0 && s[mid - 1].Freq() <= limit then mid
        else EarlyExitBound(limit, s, start, mid - 1)
  }

  /** The newer two-argument `getNextImIndex`. */
  function EarlyExitNextIndex(limit: int, s: seq<Intermod>): (r: int)
    ensures 0 <= r <= |s|
    ensures FreqSorted(s) ==> IsNextIndex(s, limit, r)
  {
    EarlyExitBound(limit, s, 0, |s| - 1)
  }

  /** There is only one split point. */
  lemma NextIndexUnique(s: seq<Intermod>, limit: int, r1: int, r2: int)
    requires IsNextIndex(s, limit, r1) && IsNextIndex(s, limit, r2)
    ensures r1 == r2
  {
    if r1 < |s| {
      assert s[r1].Freq() > limit;
    }
    if r2 < |s| {
      assert s[r2].Freq() > limit;
    }
  }

  /** On a frequency-sorted list the two generations' searches return the same index. */
  lemma SearchVariantsAgree(s: seq<Intermod>, limit: int)
    requires FreqSorted(s)
    ensures NextIndex(limit, s) == EarlyExitNextIndex(limit, s)
  {
    NextIndexUnique(s, limit, NextIndex(limit, s), EarlyExitNextIndex(limit, s));
  }

  /** The products strictly inside `(lo, hi)`, in list order. */
  function InWindow(s: seq<Intermod>, lo: int, hi: int): (r: seq<Intermod>)
    ensures forall m :: m in r <==> m in s && lo < m.Freq() < hi
    ensures |r| <= |s|
  {
    if |s| == 0 then []
    else (if lo < s[0].Freq() < hi then [s[0]] else []) + InWindow(s[1..], lo, hi)
  }

  /** The loop `while (index < size && freq(index) < rangeHi) visit(index++)`,
      started at `r`. */
  function ScanFrom(s: seq<Intermod>, r: nat, hi: int): (visited: seq<Intermod>)
    requires r <= |s|
    decreases |s| - r
  {
    if r == |s| || s[r].Freq() >= hi then []
    else [s[r]] + ScanFrom(s, r + 1, hi)
  }

  /** `IntermodStore.forRange` / the analysers' window loops: starting at the split
      point for `lo`, the scan visits exactly the products strictly inside `(lo, hi)`,
      in list order. */
  lemma ScanVisitsWindow(s: seq<Intermod>, lo: int, hi: int, r: int)
    requires FreqSorted(s) && IsNextIndex(s, lo, r)
    ensures ScanFrom(s, r, hi) == InWindow(s, lo, hi)
  {
    SkipBelowWindow(s, lo, hi, 0, r);
    assert s[0..] == s;
    ScanAboveLimit(s, lo, hi, r);
  }

  /** Products at or below `lo` contribute nothing to the window. */
  lemma {:induction false} SkipBelowWindow(s: seq<Intermod>, lo: int, hi: int, k: nat, r: nat)
    requires k <= r <= |s|
    requires forall i :: k <= i < r ==> s[i].Freq() <= lo
    ensures InWindow(s[k..], lo, hi) == InWindow(s[r..], lo, hi)
    decreases r - k
  {
    if k < r {
      assert s[k..][1..] == s[k + 1..];
      SkipBelowWindow(s, lo, hi, k + 1, r);
    }
  }

  /** From the split point on, the scan and the window filter agree. */
  lemma {:induction false} ScanAboveLimit(s: seq<Intermod>, lo: int, hi: int, k: nat)
    requires FreqSorted(s) && k <= |s|
    requires forall i :: k <= i < |s| ==> s[i].Freq() > lo
    ensures ScanFrom(s, k, hi) == InWindow(s[k..], lo, hi)
    decreases |s| - k
  {
    if k < |s| {
      assert s[k..][1..] == s[k + 1..];
      if s[k].Freq() >= hi {
        NothingBelow(s[k..], lo, hi);
      } else {
        ScanAboveLimit(s, lo, hi, k + 1);
      }
    }
  }

  /** Once the first product is at or above `hi`, a sorted list has nothing below `hi`. */
  lemma {:induction false} NothingBelow(s: seq<Intermod>, lo: int, hi: int)
    requires FreqSorted(s) && |s| > 0 && s[0].Freq() >= hi
    ensures InWindow(s, lo, hi) == []
  {
    if |s| > 1 {
      assert s[1..][0] == s[1];
      assert FreqSorted(s[1..]) by {
        forall i, j | 0 <= i < j < |s[1..]|
          ensures s[1..][i].Freq() <= s[1..][j].Freq()
        {
          assert s[1..][i] == s[i + 1] && s[1..][j] == s[j + 1];
        }
      }
      NothingBelow(s[1..], lo, hi);
    }
  }

  /** A list sorted by `compareTo` is sorted by frequency. */
  lemma SortedIsFreqSorted(s: seq<Intermod>)
    requires forall i, j :: 0 <= i < j < |s| ==> Le(s[i], s[j])
    ensures FreqSorted(s)
  {
    forall i, j | 0 <= i < j < |s|
      ensures s[i].Freq() <= s[j].Freq()
    {
      CompareOrdersByFrequency(s[i], s[j]);
    }
  }
}
