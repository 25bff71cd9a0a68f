/** Sorted product lists: the sortedness check, the two-way merge, the stable sort
    and the removal of one channel's products. */
module IntermodOrder {
  import opened Intermods

  /** Every product in the list is well formed. */
  predicate AllWellFormed(s: seq<Intermod>) {
    forall i :: 0 <= i < |s| ==> s[i].WellFormed()
  }

  /** Every earlier element compares at most equal to every later one. */
  predicate Sorted(s: seq<Intermod>) {
    forall i, j :: 0 <= i < j < |s| ==> Le(s[i], s[j])
  }

  /** No adjacent pair is out of order under `compare`. */
  predicate AdjacentSorted<T>(s: seq<T>, compare: (T, T) -> int) {
    forall i :: 0 <= i < |s| - 1 ==> compare(s[i], s[i + 1]) <= 0
  }

  /** `Helpers.isSorted`: scan the adjacent pairs and stop at the first inversion. */
  method IsSorted<T>(list: seq<T>, compare: (T, T) -> int) returns (sorted: bool)
    ensures sorted <==> AdjacentSorted(list, compare)
  {
    var i := 0;
    while i < |list| - 1
      invariant 0 <= i <= |list|
      invariant forall k :: 0 <= k < i && k + 1 < |list| ==> compare(list[k], list[k + 1]) <= 0
    {
      if compare(list[i], list[i + 1]) > 0 {
        return false;
      }
      i := i + 1;
    }
    return true;
  }

  /** Empty and one-element lists are sorted, whatever the comparison. */
  lemma ShortListsSorted<T>(s: seq<T>, compare: (T, T) -> int)
    requires |s| <= 1
    ensures AdjacentSorted(s, compare)
  {
  }

  /** A list of equal elements is sorted when an element compares equal to itself. */
  lemma ConstantListSorted<T>(s: seq<T>, compare: (T, T) -> int)
    requires forall i :: 0 <= i < |s| ==> s[i] == s[0]
    requires |s| > 0 ==> compare(s[0], s[0]) == 0
    ensures AdjacentSorted(s, compare)
  {
  }

  /** One adjacent inversion makes the check fail. */
  lemma InversionUnsorted<T>(s: seq<T>, compare: (T, T) -> int, i: nat)
    requires i + 1 < |s| && compare(s[i], s[i + 1]) > 0
    ensures !AdjacentSorted(s, compare)
  {
  }

  /** For well-formed products the adjacent check and the pairwise order agree. */
  lemma {:induction false} AdjacentSortedIffSorted(s: seq<Intermod>)
    requires AllWellFormed(s)
    ensures AdjacentSorted(s, Compare) <==> Sorted(s)
  {
    if |s| > 1 {
      AdjacentSortedIffSorted(s[1..]);
      if AdjacentSorted(s, Compare) {
        assert AdjacentSorted(s[1..], Compare) by {
          forall i | 0 <= i < |s[1..]| - 1
            ensures Compare(s[1..][i], s[1..][i + 1]) <= 0
          {
            assert s[1..][i] == s[i + 1] && s[1..][i + 1] == s[i + 2];
          }
        }
        forall i, j | 0 <= i < j < |s|
          ensures Le(s[i], s[j])
        {
          if i > 0 {
            assert s[i] == s[1..][i - 1] && s[j] == s[1..][j - 1];
          } else if j > 1 {
            assert s[j] == s[1..][j - 1] && s[1] == s[1..][0];
            LeTransitive(s[0], s[1], s[j]);
          }
        }
      }
    }
  }

  /** A list that starts with `x` is sorted iff its tail is sorted and `x` is
      at most every element of the tail. */
  lemma SortedCons(x: Intermod, t: seq<Intermod>)
    ensures Sorted([x] + t) <==> Sorted(t) && forall y :: y in t ==> Le(x, y)
  {
    var s := [x] + t;
    if Sorted(t) && forall y :: y in t ==> Le(x, y) {
      forall i, j | 0 <= i < j < |s|
        ensures Le(s[i], s[j])
      {
        assert s[j] == t[j - 1];
        if i > 0 {
          assert s[i] == t[i - 1];
        }
      }
    }
    if Sorted(s) {
      forall y | y in t
        ensures Le(x, y)
      {
        var k :| 0 <= k < |t| && t[k] == y;
        assert s[0] == x && s[k + 1] == y;
        assert Le(s[0], s[k + 1]);
      }
      forall i, j | 0 <= i < j < |t|
        ensures Le(t[i], t[j])
      {
        assert t[i] == s[i + 1] && t[j] == s[j + 1];
      }
    }
  }

  /** `mergeLists`: repeatedly take the smaller head; on a tie take from `b`. */
  function Merge(a: seq<Intermod>, b: seq<Intermod>): (r: seq<Intermod>)
    ensures |r| == |a| + |b|
    ensures multiset(r) == multiset(a) + multiset(b)
    decreases |a| + |b|
  {
    if |a| == 0 then b
    else if |b| == 0 then a
    else if Compare(a[0], b[0]) < 0 then
      assert a == [a[0]] + a[1..];
      [a[0]] + Merge(a[1..], b)
    else
      assert b == [b[0]] + b[1..];
      [b[0]] + Merge(a, b[1..])
  }

  /** Merging keeps every product well formed. */
  lemma MergeWellFormed(a: seq<Intermod>, b: seq<Intermod>)
    requires AllWellFormed(a) && AllWellFormed(b)
    ensures AllWellFormed(Merge(a, b))
  {
    var m := Merge(a, b);
    forall i | 0 <= i < |m| ensures m[i].WellFormed() {
      assert m[i] in multiset(a) + multiset(b);
      if m[i] in a {
        var j :| 0 <= j < |a| && a[j] == m[i];
      } else {
        var j :| 0 <= j < |b| && b[j] == m[i];
      }
    }
  }

  /** A product at or below the head of a sorted well-formed list is at or below all of it. */
  lemma BelowSorted(h: Intermod, s: seq<Intermod>)
    requires h.WellFormed() && AllWellFormed(s) && Sorted(s)
    requires |s| > 0 ==> Le(h, s[0])
    ensures forall y :: y in s ==> Le(h, y)
  {
    forall y | y in s ensures Le(h, y) {
      var k :| 0 <= k < |s| && s[k] == y;
      if k > 0 {
        assert Le(s[0], s[k]);
        LeTransitive(h, s[0], y);
      }
    }
  }

  /** A bound on both inputs of a merge bounds its result. */
  lemma BelowMerged(h: Intermod, s: seq<Intermod>, t: seq<Intermod>, r: seq<Intermod>)
    requires multiset(r) == multiset(s) + multiset(t)
    requires forall y :: y in s ==> Le(h, y)
    requires forall y :: y in t ==> Le(h, y)
    ensures forall y :: y in r ==> Le(h, y)
  {
    forall y | y in r ensures Le(h, y) {
      assert y in multiset(r);
      assert y in multiset(s) || y in multiset(t);
    }
  }

  /** Merging two sorted lists of well-formed products gives a sorted list. */
  lemma {:induction false} MergeSorted(a: seq<Intermod>, b: seq<Intermod>)
    requires AllWellFormed(a) && AllWellFormed(b)
    requires Sorted(a) && Sorted(b)
    ensures Sorted(Merge(a, b))
    decreases |a| + |b|
  {
    if |a| > 0 && |b| > 0 {
      assert a[0].WellFormed() && b[0].WellFormed();
      if Compare(a[0], b[0]) < 0 {
        var tail := a[1..];
        assert AllWellFormed(tail) && Sorted(tail);
        MergeSorted(tail, b);
        assert |tail| > 0 ==> Le(a[0], tail[0]) by {
          if |tail| > 0 { assert tail[0] == a[1]; }
        }
        BelowSorted(a[0], tail);
        BelowSorted(a[0], b);
        BelowMerged(a[0], tail, b, Merge(tail, b));
        SortedCons(a[0], Merge(tail, b));
      } else {
        var tail := b[1..];
        assert AllWellFormed(tail) && Sorted(tail);
        MergeSorted(a, tail);
        assert |tail| > 0 ==> Le(b[0], tail[0]) by {
          if |tail| > 0 { assert tail[0] == b[1]; }
        }
        LeTotal(a[0], b[0]);
        BelowSorted(b[0], a);
        BelowSorted(b[0], tail);
        BelowMerged(b[0], a, tail, Merge(a, tail));
        SortedCons(b[0], Merge(a, tail));
      }
    }
  }

  /** Ties go to the second list: when no element of `a` is below any element of `b`,
      the whole of `b` comes first. */
  lemma {:induction false} MergeTiesFavourSecond(a: seq<Intermod>, b: seq<Intermod>)
    requires forall x, y :: x in a && y in b ==> Compare(x, y) >= 0
    ensures Merge(a, b) == b + a
    decreases |b|
  {
    if |a| > 0 && |b| > 0 {
      assert a[0] in a && b[0] in b;
      MergeTiesFavourSecond(a, b[1..]);
      assert b == [b[0]] + b[1..];
    }
  }

  /** When every element of `a` is strictly below every element of `b`, `a` comes first. */
  lemma {:induction false} MergeOrderedBlocks(a: seq<Intermod>, b: seq<Intermod>)
    requires forall x, y :: x in a && y in b ==> Compare(x, y) < 0
    ensures Merge(a, b) == a + b
    decreases |a|
  {
    if |a| > 0 && |b| > 0 {
      assert a[0] in a && b[0] in b;
      MergeOrderedBlocks(a[1..], b);
      assert a == [a[0]] + a[1..];
    }
  }

  /** Insert `x` after every element that does not compare above it. */
  function Insert(s: seq<Intermod>, x: Intermod): (r: seq<Intermod>)
    ensures |r| == |s| + 1
    ensures multiset(r) == multiset(s) + multiset{x}
  {
    if |s| == 0 then [x]
    else if Compare(x, s[0]) < 0 then [x] + s
    else
      assert s == [s[0]] + s[1..];
      [s[0]] + Insert(s[1..], x)
  }

  /** `List.sort(null)` / `Collections.sort`: a stable sort by `compareTo`. */
  function Sort(s: seq<Intermod>): (r: seq<Intermod>)
    ensures |r| == |s|
    ensures multiset(r) == multiset(s)
  {
    if |s| == 0 then []
    else
      assert s == s[..|s| - 1] + [s[|s| - 1]];
      Insert(Sort(s[..|s| - 1]), s[|s| - 1])
  }

  lemma {:induction false} InsertSorted(s: seq<Intermod>, x: Intermod)
    requires AllWellFormed(s) && x.WellFormed() && Sorted(s)
    ensures Sorted(Insert(s, x))
  {
    if |s| > 0 {
      if Compare(x, s[0]) < 0 {
        forall y | y in s
          ensures Le(x, y)
        {
          var k :| 0 <= k < |s| && s[k] == y;
          if k > 0 {
            LeTransitive(x, s[0], y);
          }
        }
        SortedCons(x, s);
      } else {
        assert Sorted(s[1..]) by {
          SortedCons(s[0], s[1..]);
          assert s == [s[0]] + s[1..];
        }
        InsertSorted(s[1..], x);
        var rest := Insert(s[1..], x);
        forall y | y in rest
          ensures Le(s[0], y)
        {
          assert y in multiset(rest);
          if y != x {
            assert y in s[1..];
            var k :| 0 <= k < |s[1..]| && s[1..][k] == y;
            assert s[k + 1] == y;
          } else {
            LeTotal(x, s[0]);
          }
        }
        SortedCons(s[0], rest);
      }
    }
  }

  lemma {:induction false} SortSorted(s: seq<Intermod>)
    requires AllWellFormed(s)
    ensures Sorted(Sort(s))
  {
    if |s| > 0 {
      var init := s[..|s| - 1];
      assert AllWellFormed(init);
      SortSorted(init);
      var sorted := Sort(init);
      assert AllWellFormed(sorted) by {
        forall i | 0 <= i < |sorted|
          ensures sorted[i].WellFormed()
        {
          assert sorted[i] in multiset(init);
        }
      }
      InsertSorted(sorted, s[|s| - 1]);
    }
  }

  /** The sort is stable: a list that is already sorted comes back unchanged, equal
      elements included. */
  lemma {:induction false} SortOfSortedIsIdentity(s: seq<Intermod>)
    requires Sorted(s)
    ensures Sort(s) == s
  {
    if |s| > 0 {
      var init := s[..|s| - 1];
      var x := s[|s| - 1];
      assert Sorted(init);
      SortOfSortedIsIdentity(init);
      InsertAtEnd(init, x);
      assert init + [x] == s;
    }
  }

  /** An element that no earlier element compares above goes to the end. */
  lemma {:induction false} InsertAtEnd(s: seq<Intermod>, x: Intermod)
    requires forall y :: y in s ==> Le(y, x)
    ensures Insert(s, x) == s + [x]
  {
    if |s| > 0 {
      assert s[0] in s;
      CompareAntisymmetric(s[0], x);
      InsertAtEnd(s[1..], x);
      assert s == [s[0]] + s[1..];
    }
  }

  /** `removeIntermods` / `IntermodStore.remove`: drop the products the channel
      object `h` generates, keeping the others in order. */
  function WithoutGenerator(s: seq<Intermod>, h: nat): (r: seq<Intermod>)
    ensures |r| <= |s|
  {
    if |s| == 0 then []
    else (if s[0].GeneratedBy(h) then [] else [s[0]]) + WithoutGenerator(s[1..], h)
  }

  /** Exactly the products `h` does not generate remain. */
  lemma {:induction false} WithoutGeneratorMembers(s: seq<Intermod>, h: nat)
    ensures forall m :: m in WithoutGenerator(s, h) <==> m in s && !m.GeneratedBy(h)
  {
    if |s| > 0 {
      WithoutGeneratorMembers(s[1..], h);
      assert s == [s[0]] + s[1..];
    }
  }

  /** Removal works piecewise on a concatenation. */
  lemma {:induction false} WithoutGeneratorAppend(a: seq<Intermod>, b: seq<Intermod>, h: nat)
    ensures WithoutGenerator(a + b, h) == WithoutGenerator(a, h) + WithoutGenerator(b, h)
  {
    if |a| > 0 {
      assert (a + b)[0] == a[0] && (a + b)[1..] == a[1..] + b;
      WithoutGeneratorAppend(a[1..], b, h);
      var head := if a[0].GeneratedBy(h) then [] else [a[0]];
      assert WithoutGenerator(a + b, h) == head + WithoutGenerator(a[1..] + b, h);
      assert WithoutGenerator(a, h) == head + WithoutGenerator(a[1..], h);
    } else {
      assert a + b == b;
    }
  }

  /** Removing a channel that generates every product leaves nothing. */
  lemma {:induction false} WithoutGeneratorAll(s: seq<Intermod>, h: nat)
    requires forall m :: m in s ==> m.GeneratedBy(h)
    ensures WithoutGenerator(s, h) == []
  {
    if |s| > 0 {
      assert s[0] in s;
      assert forall m :: m in s[1..] ==> m in s;
      WithoutGeneratorAll(s[1..], h);
    }
  }

  /** Removing a channel that generates none of the products changes nothing. */
  lemma {:induction false} WithoutGeneratorNone(s: seq<Intermod>, h: nat)
    requires forall m :: m in s ==> !m.GeneratedBy(h)
    ensures WithoutGenerator(s, h) == s
  {
    if |s| > 0 {
      assert s[0] in s;
      assert forall m :: m in s[1..] ==> m in s;
      WithoutGeneratorNone(s[1..], h);
      assert s == [s[0]] + s[1..];
    }
  }

  /** Each product keeps its multiplicity unless `h` generates it. */
  lemma {:induction false} WithoutGeneratorMultiplicity(s: seq<Intermod>, h: nat, m: Intermod)
    ensures multiset(WithoutGenerator(s, h))[m] == if m.GeneratedBy(h) then 0 else multiset(s)[m]
  {
    if |s| > 0 {
      WithoutGeneratorMultiplicity(s[1..], h, m);
      var head := if s[0].GeneratedBy(h) then [] else [s[0]];
      assert WithoutGenerator(s, h) == head + WithoutGenerator(s[1..], h);
      assert multiset(WithoutGenerator(s, h)) == multiset(head) + multiset(WithoutGenerator(s[1..], h));
      assert s == [s[0]] + s[1..];
      assert multiset(s) == multiset{s[0]} + multiset(s[1..]);
    }
  }

  /** Removing a channel's products respects permutation. */
  lemma WithoutGeneratorPermutation(a: seq<Intermod>, b: seq<Intermod>, h: nat)
    requires multiset(a) == multiset(b)
    ensures multiset(WithoutGenerator(a, h)) == multiset(WithoutGenerator(b, h))
  {
    forall m
      ensures multiset(WithoutGenerator(a, h))[m] == multiset(WithoutGenerator(b, h))[m]
    {
      WithoutGeneratorMultiplicity(a, h, m);
      WithoutGeneratorMultiplicity(b, h, m);
    }
  }

  /** Removing elements from a sorted list leaves it sorted. */
  lemma {:induction false} WithoutGeneratorSorted(s: seq<Intermod>, h: nat)
    requires Sorted(s)
    ensures Sorted(WithoutGenerator(s, h))
  {
    if |s| > 0 {
      SortedCons(s[0], s[1..]);
      assert s == [s[0]] + s[1..];
      WithoutGeneratorSorted(s[1..], h);
      if !s[0].GeneratedBy(h) {
        WithoutGeneratorMembers(s[1..], h);
        SortedCons(s[0], WithoutGenerator(s[1..], h));
      }
    }
  }
}
