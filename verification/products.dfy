/** `calculateIntermods`: the products a new channel forms with the channels already
    listed, and the whole product list an analysis holds after a history of additions. */
module Products {
  import opened Errors
  import opened Intermods
  import opened Calculations
  import opened IntermodOrder

  function TwoTone(t: ImType, a: ChannelRef, b: ChannelRef): Intermod {
    Intermod(t, a, b, None)
  }

  function ThreeTone(a: ChannelRef, b: ChannelRef, c: ChannelRef): Intermod {
    Intermod(IM3T3O, a, b, Some(c))
  }

  /** Both orientations of one two-tone type, if that type is enabled. */
  function BothWays(t: ImType, x: ChannelRef, c: ChannelRef, flags: Calculations): seq<Intermod> {
    if flags.Get(t) then [TwoTone(t, x, c), TwoTone(t, c, x)] else []
  }

  /** The four two-tone blocks of the inner loop body, for the enabled types only. */
  function PairProducts(x: ChannelRef, c: ChannelRef, flags: Calculations): (r: seq<Intermod>)
    ensures forall m :: m in r ==> m.WellFormed() && m.imType.IsTwoTone() && flags.Get(m.imType)
    ensures forall m :: m in r ==> (m.f1 == x && m.f2 == c) || (m.f1 == c && m.f2 == x)
  {
    BothWays(IM2T3O, x, c, flags) + BothWays(IM2T5O, x, c, flags)
    + BothWays(IM2T7O, x, c, flags) + BothWays(IM2T9O, x, c, flags)
  }

  /** Each enabled two-tone type contributes both orientations, and nothing else is there. */
  lemma PairProductsContents(x: ChannelRef, c: ChannelRef, flags: Calculations)
    ensures |PairProducts(x, c, flags)| == 2 * flags.TwoToneCount()
    ensures forall t: ImType :: t.IsTwoTone() && flags.Get(t) ==>
              TwoTone(t, x, c) in PairProducts(x, c, flags) && TwoTone(t, c, x) in PairProducts(x, c, flags)
  {
    assert flags.Get(IM2T3O) == flags.im2t3o && flags.Get(IM2T5O) == flags.im2t5o;
    assert flags.Get(IM2T7O) == flags.im2t7o && flags.Get(IM2T9O) == flags.im2t9o;
  }

  /** The number of channels in `list` that are not the channel object `h`. */
  function Others(list: seq<ChannelRef>, h: nat): (n: nat)
    ensures n <= |list|
  {
    if |list| == 0 then 0 else (if list[0].handle == h then 0 else 1) + Others(list[1..], h)
  }

  /** The rotations (x, c, c3), (c, c3, x), (c3, x, c) for one third channel. */
  function Rotations(x: ChannelRef, c: ChannelRef, c3: ChannelRef): seq<Intermod> {
    if c3.handle == x.handle then [] else [ThreeTone(x, c, c3), ThreeTone(c, c3, x), ThreeTone(c3, x, c)]
  }

  /** The three-tone loop over the channels after `c`. */
  function TripleProducts(x: ChannelRef, c: ChannelRef, rest: seq<ChannelRef>): (r: seq<Intermod>)
    ensures forall m :: m in r ==> m.WellFormed() && m.imType == IM3T3O
    ensures forall m :: m in r ==> m.GeneratedBy(x.handle) && m.GeneratedBy(c.handle)
  {
    if |rest| == 0 then [] else Rotations(x, c, rest[0]) + TripleProducts(x, c, rest[1..])
  }

  lemma {:induction false} TripleProductsCount(x: ChannelRef, c: ChannelRef, rest: seq<ChannelRef>)
    ensures |TripleProducts(x, c, rest)| == 3 * Others(rest, x.handle)
  {
    if |rest| > 0 {
      TripleProductsCount(x, c, rest[1..]);
    }
  }

  /** Number of unordered pairs from `m` things. */
  function Pairs(m: nat): (r: nat)
    ensures 2 * r == m * (m - 1)
  {
    if m == 0 then 0 else Pairs(m - 1) + (m - 1)
  }

  /** Number of unordered triples from `m` things. */
  function Triples(m: nat): (r: nat)
    ensures 6 * r == m * (m - 1) * (m - 2)
  {
    if m == 0 then 0
    else
      var r := Triples(m - 1) + Pairs(m - 1);
      assert 6 * r == (m - 1) * (m - 2) * (m - 3) + 3 * (m - 1) * (m - 2);
      r
  }

  /** The block the loop body adds for list channel `c`. */
  function Block(x: ChannelRef, c: ChannelRef, rest: seq<ChannelRef>, flags: Calculations): (r: seq<Intermod>)
    ensures forall m :: m in r ==> m.WellFormed() && flags.Get(m.imType) && m.GeneratedBy(x.handle) && m.GeneratedBy(c.handle)
  {
    if c.handle == x.handle then []
    else PairProducts(x, c, flags) + (if flags.im3t3o then TripleProducts(x, c, rest) else [])
  }

  /** The unsorted product list `calculateIntermods(x)` builds from the channel list:
      the loop over `i`, skipping `x` itself by object identity. */
  function NewFrom(x: ChannelRef, list: seq<ChannelRef>, flags: Calculations): (r: seq<Intermod>)
    ensures forall m :: m in r ==> m.WellFormed() && flags.Get(m.imType) && m.GeneratedBy(x.handle)
  {
    if |list| == 0 then [] else Block(x, list[0], list[1..], flags) + NewFrom(x, list[1..], flags)
  }

  /** `calculateIntermods` with its final sort: the products `x` forms with the
      channels of `list`, in product order. */
  function SortedNewFrom(x: ChannelRef, list: seq<ChannelRef>, flags: Calculations): (r: seq<Intermod>)
    ensures Sorted(r) && AllWellFormed(r)
    ensures multiset(r) == multiset(NewFrom(x, list, flags))
    ensures forall m :: m in r ==> m.GeneratedBy(x.handle) && flags.Get(m.imType)
  {
    var raw := NewFrom(x, list, flags);
    assert AllWellFormed(raw) by {
      forall i | 0 <= i < |raw| ensures raw[i].WellFormed() {
        assert raw[i] in raw;
      }
    }
    SortSorted(raw);
    var r := Sort(raw);
    assert forall m :: m in r ==> m in multiset(raw);
    assert AllWellFormed(r) by {
      forall i | 0 <= i < |r| ensures r[i].WellFormed() {
        assert r[i] in multiset(raw);
      }
    }
    r
  }

  /** The size of one `calculateIntermods` call that sees `k` other channels: 2s
      products per other channel and 3t per pair of other channels. */
  function AdditionSize(flags: Calculations, k: nat): nat {
    2 * flags.TwoToneCount() * k + 3 * flags.ThreeToneCount() * Pairs(k)
  }

  /** One other channel contributes its pair products and, when enabled, three
      rotations for each other channel after it. */
  lemma BlockCount(x: ChannelRef, c: ChannelRef, tail: seq<ChannelRef>, flags: Calculations)
    requires c.handle != x.handle
    ensures |Block(x, c, tail, flags)| == 2 * flags.TwoToneCount() + (if flags.im3t3o then 3 * Others(tail, x.handle) else 0)
  {
    PairProductsContents(x, c, flags);
    TripleProductsCount(x, c, tail);
  }

  lemma {:induction false} NewFromCount(x: ChannelRef, list: seq<ChannelRef>, flags: Calculations)
    ensures |NewFrom(x, list, flags)| == AdditionSize(flags, Others(list, x.handle))
  {
    if |list| > 0 {
      NewFromCount(x, list[1..], flags);
      NewFromCountStep(x, list, flags);
    } else {
      assert Others(list, x.handle) == 0 && NewFrom(x, list, flags) == [];
    }
  }

  /** The count of `NewFrom` grows by one block per other channel at the head. */
  lemma NewFromCountStep(x: ChannelRef, list: seq<ChannelRef>, flags: Calculations)
    requires |list| > 0
    requires |NewFrom(x, list[1..], flags)| == AdditionSize(flags, Others(list[1..], x.handle))
    ensures |NewFrom(x, list, flags)| == AdditionSize(flags, Others(list, x.handle))
  {
    var c, tail := list[0], list[1..];
    var m := Others(tail, x.handle);
    var block := Block(x, c, tail, flags);
    assert |NewFrom(x, list, flags)| == |block| + |NewFrom(x, tail, flags)|;
    if c.handle != x.handle {
      BlockCount(x, c, tail, flags);
      assert Others(list, x.handle) == m + 1;
      CountStep(flags, m, |block|, |NewFrom(x, tail, flags)|);
    } else {
      assert block == [];
      assert Others(list, x.handle) == m;
    }
  }

  lemma CountStep(flags: Calculations, m: nat, block: int, tail: int)
    requires block == 2 * flags.TwoToneCount() + (if flags.im3t3o then 3 * m else 0)
    requires tail == AdditionSize(flags, m)
    ensures block + tail == AdditionSize(flags, m + 1)
  {
    assert Pairs(m + 1) == Pairs(m) + m;
  }

  /** The count formula of `TestHelpers.expectedIntermods` in both packages' tests, s·n(n−1) + t·n(n−1)(n−2)/2, for
      `s` enabled two-tone types and `t` ∈ {0, 1} for the three-tone type. */
  function Formula(n: nat, flags: Calculations): int {
    flags.TwoToneCount() * (n * (n - 1)) + flags.ThreeToneCount() * (n * (n - 1) * (n - 2) / 2)
  }

  /** The formula is what adding the channels one at a time produces. */
  lemma FormulaCountsAdditions(n: nat, flags: Calculations)
    ensures Formula(n, flags) == 2 * flags.TwoToneCount() * Pairs(n) + 3 * flags.ThreeToneCount() * Triples(n)
  {
    ClosedForms(flags.TwoToneCount(), flags.ThreeToneCount(), n * (n - 1), n * (n - 1) * (n - 2), Pairs(n), Triples(n));
  }

  lemma ClosedForms(s: int, t: int, p: int, q: int, pairs: int, triples: int)
    requires p == 2 * pairs && q == 6 * triples
    ensures s * p + t * (q / 2) == 2 * s * pairs + 3 * t * triples
  {
    assert q / 2 == 3 * triples;
  }

  /** The channels of `list` other than the object `h`, in order. */
  function DropHandle(list: seq<ChannelRef>, h: nat): (r: seq<ChannelRef>)
    ensures |r| <= |list|
  {
    if |list| == 0 then []
    else (if list[0].handle == h then [] else [list[0]]) + DropHandle(list[1..], h)
  }

  /** Exactly the channels other than `h` remain. */
  lemma {:induction false} DropHandleMembers(list: seq<ChannelRef>, h: nat)
    ensures forall c :: c in DropHandle(list, h) <==> c in list && c.handle != h
  {
    if |list| > 0 {
      DropHandleMembers(list[1..], h);
      assert list == [list[0]] + list[1..];
    }
  }

  /** The channels of `list` that also occur in `q`, in the order of `list`. */
  function KeepIn(list: seq<ChannelRef>, q: seq<ChannelRef>): (r: seq<ChannelRef>)
    ensures |r| <= |list|
  {
    if |list| == 0 then []
    else (if list[0] in q then [list[0]] else []) + KeepIn(list[1..], q)
  }

  /** Exactly the channels of `list` that occur in `q` remain. */
  lemma {:induction false} KeepInMembers(list: seq<ChannelRef>, q: seq<ChannelRef>)
    ensures forall c :: c in KeepIn(list, q) <==> c in list && c in q
  {
    if |list| > 0 {
      KeepInMembers(list[1..], q);
      assert list == [list[0]] + list[1..];
    }
  }

  /** The product list after the channels of `history` were added in that order, the
      channel list now being `list`: each addition contributed `calculateIntermods`
      over the channels present at the time, in their list order. */
  function All(history: seq<ChannelRef>, list: seq<ChannelRef>, flags: Calculations): (r: seq<Intermod>)
    ensures forall m :: m in r ==> m.WellFormed() && flags.Get(m.imType)
  {
    if |history| == 0 then []
    else
      var last := history[|history| - 1];
      All(history[..|history| - 1], list, flags) + NewFrom(last, KeepIn(list, history), flags)
  }

  /** Object handles are pairwise different. */
  predicate UniqueHandles(s: seq<ChannelRef>) {
    forall i, j :: 0 <= i < j < |s| ==> s[i].handle != s[j].handle
  }

  // ---- Removing a channel ------------------------------------------------------

  lemma {:induction false} DropHandleAppend(a: seq<ChannelRef>, b: seq<ChannelRef>, h: nat)
    ensures DropHandle(a + b, h) == DropHandle(a, h) + DropHandle(b, h)
  {
    if |a| > 0 {
      assert (a + b)[0] == a[0] && (a + b)[1..] == a[1..] + b;
      DropHandleAppend(a[1..], b, h);
      var head := if a[0].handle == h then [] else [a[0]];
      assert DropHandle(a + b, h) == head + DropHandle(a[1..] + b, h);
      assert DropHandle(a, h) == head + DropHandle(a[1..], h);
    } else {
      assert a + b == b;
    }
  }

  lemma {:induction false} DropHandleAbsent(list: seq<ChannelRef>, h: nat)
    requires forall c :: c in list ==> c.handle != h
    ensures DropHandle(list, h) == list
  {
    if |list| > 0 {
      assert list[0] in list;
      assert forall c :: c in list[1..] ==> c in list;
      DropHandleAbsent(list[1..], h);
      assert list == [list[0]] + list[1..];
    }
  }

  /** Dropping a channel from the three-tone loop's third channels drops exactly the
      rotations that channel generates. */
  lemma {:induction false} WithoutTriple(x: ChannelRef, c: ChannelRef, rest: seq<ChannelRef>, h: nat)
    requires x.handle != h && c.handle != h
    ensures WithoutGenerator(TripleProducts(x, c, rest), h) == TripleProducts(x, c, DropHandle(rest, h))
  {
    if |rest| > 0 {
      var c3 := rest[0];
      var here := Rotations(x, c, c3);
      var tail := TripleProducts(x, c, rest[1..]);
      var dropped := DropHandle(rest[1..], h);
      assert TripleProducts(x, c, rest) == here + tail;
      WithoutGeneratorAppend(here, tail, h);
      WithoutTriple(x, c, rest[1..], h);
      if c3.handle == h {
        WithoutGeneratorAll(here, h);
        assert DropHandle(rest, h) == dropped;
      } else {
        WithoutGeneratorNone(here, h);
        assert DropHandle(rest, h) == [c3] + dropped;
        assert ([c3] + dropped)[0] == c3 && ([c3] + dropped)[1..] == dropped;
        assert TripleProducts(x, c, [c3] + dropped) == here + TripleProducts(x, c, dropped);
      }
    }
  }

  /** Removing the products of `h` from one loop block. */
  lemma WithoutBlock(y: ChannelRef, c: ChannelRef, rest: seq<ChannelRef>, h: nat, flags: Calculations)
    requires y.handle != h
    ensures c.handle == h ==> WithoutGenerator(Block(y, c, rest, flags), h) == []
    ensures c.handle != h ==> WithoutGenerator(Block(y, c, rest, flags), h) == Block(y, c, DropHandle(rest, h), flags)
  {
    if c.handle == h {
      WithoutGeneratorAll(Block(y, c, rest, flags), h);
    } else if c.handle != y.handle {
      var pairs := PairProducts(y, c, flags);
      var triples := if flags.im3t3o then TripleProducts(y, c, rest) else [];
      WithoutGeneratorAppend(pairs, triples, h);
      WithoutGeneratorNone(pairs, h);
      if flags.im3t3o {
        WithoutTriple(y, c, rest, h);
      }
    }
  }

  /** Removing the products of `h` from `calculateIntermods(y)` gives what the call
      would have produced without `h` in the list. */
  lemma {:induction false} WithoutNewFrom(y: ChannelRef, list: seq<ChannelRef>, h: nat, flags: Calculations)
    requires y.handle != h
    ensures WithoutGenerator(NewFrom(y, list, flags), h) == NewFrom(y, DropHandle(list, h), flags)
  {
    if |list| > 0 {
      var c := list[0];
      var block := Block(y, c, list[1..], flags);
      var tail := NewFrom(y, list[1..], flags);
      var dropped := DropHandle(list[1..], h);
      WithoutNewFrom(y, list[1..], h, flags);
      WithoutGeneratorAppend(block, tail, h);
      WithoutBlock(y, c, list[1..], h, flags);
      if c.handle == h {
        assert DropHandle(list, h) == dropped;
      } else {
        assert DropHandle(list, h) == [c] + dropped;
        assert ([c] + dropped)[0] == c && ([c] + dropped)[1..] == dropped;
        assert NewFrom(y, [c] + dropped, flags) == Block(y, c, dropped, flags) + NewFrom(y, dropped, flags);
      }
    }
  }

  lemma {:induction false} KeepInAppend(a: seq<ChannelRef>, b: seq<ChannelRef>, q: seq<ChannelRef>)
    ensures KeepIn(a + b, q) == KeepIn(a, q) + KeepIn(b, q)
  {
    if |a| > 0 {
      assert (a + b)[0] == a[0] && (a + b)[1..] == a[1..] + b;
      KeepInAppend(a[1..], b, q);
      var head := if a[0] in q then [a[0]] else [];
      assert KeepIn(a + b, q) == head + KeepIn(a[1..] + b, q);
      assert KeepIn(a, q) == head + KeepIn(a[1..], q);
    } else {
      assert a + b == b;
    }
  }

  /** A filter of `list` commutes with dropping a channel. */
  lemma {:induction false} KeepInDrop(list: seq<ChannelRef>, q: seq<ChannelRef>, h: nat)
    ensures KeepIn(DropHandle(list, h), DropHandle(q, h)) == DropHandle(KeepIn(list, q), h)
  {
    if |list| > 0 {
      var e := list[0];
      KeepInDrop(list[1..], q, h);
      DropHandleMembers(q, h);
      var head := if e.handle == h then [] else [e];
      assert DropHandle(list, h) == head + DropHandle(list[1..], h);
      KeepInAppend(head, DropHandle(list[1..], h), DropHandle(q, h));
      var kept := if e in q then [e] else [];
      assert KeepIn(list, q) == kept + KeepIn(list[1..], q);
      DropHandleAppend(kept, KeepIn(list[1..], q), h);
      if e.handle != h {
        assert KeepIn(head, DropHandle(q, h)) == DropHandle(kept, h);
      } else {
        assert KeepIn(head, DropHandle(q, h)) == [] == DropHandle(kept, h);
      }
    }
  }

  /** `removeIntermods` after any history: dropping the products a channel generates
      leaves the product list of the same history with that channel taken out. */
  lemma {:induction false} RemoveFromAll(history: seq<ChannelRef>, list: seq<ChannelRef>, h: nat, flags: Calculations)
    ensures WithoutGenerator(All(history, list, flags), h) == All(DropHandle(history, h), DropHandle(list, h), flags)
  {
    if |history| > 0 {
      var n := |history|;
      var init := history[..n - 1];
      var y := history[n - 1];
      assert history == init + [y];
      RemoveFromAll(init, list, h, flags);
      WithoutGeneratorAppend(All(init, list, flags), NewFrom(y, KeepIn(list, history), flags), h);
      DropHandleAppend(init, [y], h);
      var dropped := DropHandle(history, h);
      if y.handle == h {
        assert DropHandle([y], h) == [];
        assert dropped == DropHandle(init, h);
        WithoutGeneratorAll(NewFrom(y, KeepIn(list, history), flags), h);
      } else {
        assert DropHandle([y], h) == [y];
        assert dropped == DropHandle(init, h) + [y];
        assert dropped[..|dropped| - 1] == DropHandle(init, h);
        WithoutNewFrom(y, KeepIn(list, history), h, flags);
        KeepInDrop(list, history, h);
      }
    }
  }

  /** Dropping an object found once, between two stretches without it, leaves the
      two stretches. */
  lemma DropMiddle(pre: seq<ChannelRef>, c: ChannelRef, post: seq<ChannelRef>)
    requires DropHandle(pre, c.handle) == pre && DropHandle(post, c.handle) == post
    ensures DropHandle(pre + [c] + post, c.handle) == pre + post
  {
    DropHandleAppend(pre + [c], post, c.handle);
    DropHandleAppend(pre, [c], c.handle);
    assert DropHandle([c], c.handle) == [] by {
      assert [c][1..] == [];
    }
  }

  // ---- Adding a channel --------------------------------------------------------

  /** Filtering by a list that does not contain `x` ignores an `x` inserted anywhere. */
  lemma KeepInIgnoresInserted(list: seq<ChannelRef>, p: nat, x: ChannelRef, q: seq<ChannelRef>)
    requires p <= |list| && x !in q
    ensures KeepIn(list[..p] + [x] + list[p..], q) == KeepIn(list, q)
  {
    var a, b := list[..p], list[p..];
    assert KeepIn([x], q) == [] by {
      assert [x][1..] == [];
    }
    KeepInAppend(a, [x], q);
    assert KeepIn(a + [x], q) == KeepIn(a, q);
    KeepInAppend(a + [x], b, q);
    KeepInAppend(a, b, q);
    assert a + b == list;
  }

  /** Filtering by a list that contains every element changes nothing. */
  lemma {:induction false} KeepInAll(list: seq<ChannelRef>, q: seq<ChannelRef>)
    requires forall c :: c in list ==> c in q
    ensures KeepIn(list, q) == list
  {
    if |list| > 0 {
      assert list[0] in list;
      assert forall c :: c in list[1..] ==> c in list;
      KeepInAll(list[1..], q);
      assert list == [list[0]] + list[1..];
    }
  }

  /** The earlier additions' products do not see a channel added later. */
  lemma {:induction false} AllIgnoresInserted(history: seq<ChannelRef>, list: seq<ChannelRef>, p: nat, x: ChannelRef, flags: Calculations)
    requires p <= |list| && x !in history
    ensures All(history, list[..p] + [x] + list[p..], flags) == All(history, list, flags)
  {
    if |history| > 0 {
      var n := |history|;
      assert forall c :: c in history[..n - 1] ==> c in history;
      AllIgnoresInserted(history[..n - 1], list, p, x, flags);
      KeepInIgnoresInserted(list, p, x, history);
    }
  }

  /** `addChannel` / `addChannelInPlace` followed by `calculateIntermods`: inserting a
      new channel anywhere in the list extends the product list by exactly that call's
      products. */
  lemma AddToAll(history: seq<ChannelRef>, list: seq<ChannelRef>, p: nat, x: ChannelRef, flags: Calculations)
    requires p <= |list| && x !in history
    requires forall c :: c in list ==> c in history
    ensures var grown := list[..p] + [x] + list[p..];
            All(history + [x], grown, flags) == All(history, list, flags) + NewFrom(x, grown, flags)
  {
    var grown := list[..p] + [x] + list[p..];
    var h := history + [x];
    assert h[..|h| - 1] == history;
    AllIgnoresInserted(history, list, p, x, flags);
    forall c | c in grown
      ensures c in h
    {
      if c != x {
        assert c in list[..p] || c in list[p..];
        assert c in list;
      }
    }
    KeepInAll(grown, h);
  }

  // ---- Counting ----------------------------------------------------------------

  lemma UniqueHandlesTail(s: seq<ChannelRef>)
    requires UniqueHandles(s) && |s| > 0
    ensures UniqueHandles(s[1..])
    ensures s[0] !in s[1..]
  {
    var tail := s[1..];
    forall i, j | 0 <= i < j < |tail|
      ensures tail[i].handle != tail[j].handle
    {
      assert tail[i] == s[i + 1] && tail[j] == s[j + 1];
    }
    forall k | 0 <= k < |tail|
      ensures tail[k] != s[0]
    {
      assert tail[k] == s[k + 1];
    }
  }

  lemma {:induction false} UniqueHandlesDistinct(s: seq<ChannelRef>)
    requires UniqueHandles(s)
    ensures |set c | c in s| == |s|
  {
    if |s| > 0 {
      var tail := s[1..];
      UniqueHandlesTail(s);
      UniqueHandlesDistinct(tail);
      assert (set c | c in s) == {s[0]} + (set c | c in tail) by {
        assert s == [s[0]] + tail;
      }
    }
  }

  lemma {:induction false} KeepInUnique(list: seq<ChannelRef>, q: seq<ChannelRef>)
    requires UniqueHandles(list)
    ensures UniqueHandles(KeepIn(list, q))
  {
    if |list| > 0 {
      var tail := list[1..];
      UniqueHandlesTail(list);
      KeepInUnique(tail, q);
      KeepInMembers(tail, q);
      var rest := KeepIn(tail, q);
      if list[0] in q {
        var r := [list[0]] + rest;
        forall i, j | 0 <= i < j < |r|
          ensures r[i].handle != r[j].handle
        {
          if i == 0 {
            assert r[j] in rest;
            var k :| 0 <= k < |tail| && tail[k] == r[j];
            assert list[k + 1] == r[j];
          } else {
            assert r[i] == rest[i - 1] && r[j] == rest[j - 1];
          }
        }
      }
    }
  }

  lemma {:induction false} DropHandleUnique(list: seq<ChannelRef>, h: nat)
    requires UniqueHandles(list)
    ensures UniqueHandles(DropHandle(list, h))
  {
    if |list| > 0 {
      var tail := list[1..];
      UniqueHandlesTail(list);
      DropHandleUnique(tail, h);
      DropHandleMembers(tail, h);
      var rest := DropHandle(tail, h);
      if list[0].handle != h {
        var r := [list[0]] + rest;
        forall i, j | 0 <= i < j < |r|
          ensures r[i].handle != r[j].handle
        {
          if i == 0 {
            assert r[j] in rest;
            var k :| 0 <= k < |tail| && tail[k] == r[j];
            assert list[k + 1] == r[j];
          } else {
            assert r[i] == rest[i - 1] && r[j] == rest[j - 1];
          }
        }
      }
    }
  }

  /** With unique handles, two lists holding the same references have the same
      length. */
  lemma SameMembersSameLength(s: seq<ChannelRef>, t: seq<ChannelRef>)
    requires UniqueHandles(s) && UniqueHandles(t)
    requires forall c :: c in s <==> c in t
    ensures |s| == |t|
  {
    UniqueHandlesDistinct(s);
    UniqueHandlesDistinct(t);
    assert (set c | c in s) == (set c | c in t);
  }

  /** With unique handles everywhere, filtering the list by `q` keeps one element per
      element of `q`. */
  lemma KeepInLength(list: seq<ChannelRef>, q: seq<ChannelRef>)
    requires UniqueHandles(list) && UniqueHandles(q)
    requires forall c :: c in q ==> c in list
    ensures |KeepIn(list, q)| == |q|
  {
    var r := KeepIn(list, q);
    KeepInUnique(list, q);
    KeepInMembers(list, q);
    UniqueHandlesDistinct(r);
    UniqueHandlesDistinct(q);
    assert (set c | c in r) == (set c | c in q);
  }

  lemma {:induction false} OthersAppend(a: seq<ChannelRef>, b: seq<ChannelRef>, h: nat)
    ensures Others(a + b, h) == Others(a, h) + Others(b, h)
  {
    if |a| > 0 {
      assert (a + b)[0] == a[0] && (a + b)[1..] == a[1..] + b;
      OthersAppend(a[1..], b, h);
    } else {
      assert a + b == b;
    }
  }

  /** `Others` over a filter equals the length of a filter by the remaining elements. */
  lemma {:induction false} OthersOfKeepIn(list: seq<ChannelRef>, q: seq<ChannelRef>, q2: seq<ChannelRef>, h: nat)
    requires forall c :: (c in q && c.handle != h) <==> c in q2
    ensures Others(KeepIn(list, q), h) == |KeepIn(list, q2)|
  {
    if |list| > 0 {
      OthersOfKeepIn(list[1..], q, q2, h);
      var kept := if list[0] in q then [list[0]] else [];
      assert KeepIn(list, q) == kept + KeepIn(list[1..], q);
      OthersAppend(kept, KeepIn(list[1..], q), h);
    }
  }

  /** The intermod count formula: a history of `n` different channels, all still in
      the list, leaves exactly s·n(n−1) + t·n(n−1)(n−2)/2 products. */
  lemma AllCount(history: seq<ChannelRef>, list: seq<ChannelRef>, flags: Calculations)
    requires UniqueHandles(history) && UniqueHandles(list)
    requires forall c :: c in history ==> c in list
    ensures |All(history, list, flags)| == Formula(|history|, flags)
  {
    AllCountSteps(history, list, flags);
    FormulaCountsAdditions(|history|, flags);
  }

  /** The newest channel of the history sees every earlier one. */
  lemma NewestSeesEarlier(history: seq<ChannelRef>, list: seq<ChannelRef>)
    requires UniqueHandles(history) && UniqueHandles(list) && |history| > 0
    requires forall c :: c in history ==> c in list
    ensures Others(KeepIn(list, history), history[|history| - 1].handle) == |history| - 1
  {
    var n := |history|;
    var init := history[..n - 1];
    var y := history[n - 1];
    assert UniqueHandles(init);
    forall c
      ensures (c in history && c.handle != y.handle) <==> c in init
    {
      if c in init {
        var k :| 0 <= k < n - 1 && init[k] == c;
        assert history[k] == c;
      }
      if c in history && c.handle != y.handle {
        var k :| 0 <= k < n && history[k] == c;
        assert init[k] == c;
      }
    }
    OthersOfKeepIn(list, history, init, y.handle);
    assert forall c :: c in init ==> c in history;
    KeepInLength(list, init);
  }

  lemma {:induction false} AllCountSteps(history: seq<ChannelRef>, list: seq<ChannelRef>, flags: Calculations)
    requires UniqueHandles(history) && UniqueHandles(list)
    requires forall c :: c in history ==> c in list
    ensures |All(history, list, flags)| == 2 * flags.TwoToneCount() * Pairs(|history|) + 3 * flags.ThreeToneCount() * Triples(|history|)
  {
    if |history| > 0 {
      var n := |history|;
      var init := history[..n - 1];
      var y := history[n - 1];
      assert UniqueHandles(init);
      assert forall c :: c in init ==> c in history;
      AllCountSteps(init, list, flags);
      NewestSeesEarlier(history, list);
      NewFromCount(y, KeepIn(list, history), flags);
      TripleStep(flags, n - 1);
    }
  }

  lemma TripleStep(flags: Calculations, m: nat)
    ensures 2 * flags.TwoToneCount() * Pairs(m + 1) + 3 * flags.ThreeToneCount() * Triples(m + 1)
         == (2 * flags.TwoToneCount() * Pairs(m) + 3 * flags.ThreeToneCount() * Triples(m)) + AdditionSize(flags, m)
  {
    var s, t := flags.TwoToneCount(), flags.ThreeToneCount();
    var p, q := Pairs(m), Triples(m);
    assert Pairs(m + 1) == p + m;
    assert Triples(m + 1) == q + p;
    Distribute(2 * s, p, m);
    Distribute(3 * t, q, p);
  }

  lemma Distribute(a: int, b: int, c: int)
    ensures a * (b + c) == a * b + a * c
  {
  }
}
