/** The analyser of the older `rfcoordinator` package: the channels kept in frequency
    order, a sorted product list, and one conflict list of its own. It never writes
    to a channel's own conflict list. A fresh analyser computes every product type;
    changing its flags afterwards is not modelled. */
module RcAnalyser {
  import opened Errors
  import opened Intermods
  import opened Conflicts
  import opened Calculations
  import opened Spacing
  import Search
  import opened Detection
  import opened IntermodOrder
  import opened Products
  import opened RcChannel
  import opened Coverage

  datatype Analyser = Analyser(channels: seq<Channel>, intermods: seq<Intermod>, conflicts: seq<Conflict>)

  /** The inner `AnalyserCalculations` of a fresh analyser: every product type is
      calculated. */
  function Flags(): (r: Calculations)
    ensures forall t: ImType :: r.Get(t)
    ensures r.TwoToneCount() == 4 && r.ThreeToneCount() == 1
  {
    Default()
  }

  function NewAnalyser(): Analyser {
    Analyser([], [], [])
  }

  // ---- Products -----------------------------------------------------------------

  /** `calculateIntermods(x)` over the channel list `list` (which already holds `x`):
      the products `x` forms with every other listed object, sorted. */
  function CalculateIntermods(x: Channel, list: seq<Channel>): (r: seq<Intermod>)
    ensures Sorted(r) && AllWellFormed(r)
    ensures multiset(r) == multiset(NewFrom(x.Ref(), Refs(list), Flags()))
    ensures forall m :: m in r ==> m.GeneratedBy(x.handle)
  {
    SortedNewFrom(x.Ref(), Refs(list), Flags())
  }

  // ---- Intermod spacing ---------------------------------------------------------

  /** One pass of the channel loop of `analyseIMSpacing`: the plain binary search for
      the first product above `freq - maxImSpacing`, then every product below
      `freq + maxImSpacing`. On a frequency-sorted list it reports what testing every
      product would, in the same order. */
  function WindowConflicts(v: Tx, ims: seq<Intermod>): (r: seq<Conflict>)
    ensures Search.FreqSorted(ims) ==> r == ImConflicts(v, ims)
  {
    var start := Search.NextIndex(v.freq - v.spacings.MaxIm(), ims);
    WindowAgrees(v, ims, start);
    WindowImConflicts(v, ims, start)
  }

  lemma WindowAgrees(v: Tx, ims: seq<Intermod>, start: nat)
    requires start == Search.NextIndex(v.freq - v.spacings.MaxIm(), ims)
    ensures Search.FreqSorted(ims) ==> WindowImConflicts(v, ims, start) == ImConflicts(v, ims)
  {
    if Search.FreqSorted(ims) {
      WindowScanComplete(v, ims, start);
    }
  }

  /** The channel loop of `analyseIMSpacing`, each channel in list order. */
  function AnalyseEach(victims: seq<Tx>, ims: seq<Intermod>): (r: seq<Conflict>)
    ensures Search.FreqSorted(ims) ==> r == ImConflictsAll(victims, ims)
  {
    if |victims| == 0 then [] else WindowConflicts(victims[0], ims) + AnalyseEach(victims[1..], ims)
  }

  /** `analyseIMSpacing(channels, intermods)`: an empty list of either kind returns at
      once with no conflicts; otherwise every channel is tested against the products
      of its window. */
  function AnalyseIMSpacing(victims: seq<Tx>, ims: seq<Intermod>): (r: seq<Conflict>)
    ensures |victims| == 0 || |ims| == 0 ==> r == []
    ensures Search.FreqSorted(ims) ==> r == ImConflictsAll(victims, ims)
  {
    if |victims| == 0 then []
    else if |ims| == 0 then
      NoProductsNoConflicts(victims, ims);
      []
    else AnalyseEach(victims, ims)
  }

  lemma {:induction false} NoProductsNoConflicts(victims: seq<Tx>, ims: seq<Intermod>)
    requires |ims| == 0
    ensures ImConflictsAll(victims, ims) == []
  {
    if |victims| > 0 {
      NoProductsNoConflicts(victims[1..], ims);
    }
  }

  /** `analyseIMSpacing(channel, intermods)`: the list form on a one-channel list. */
  function AnalyseIMSpacingOne(v: Tx, ims: seq<Intermod>): (r: seq<Conflict>)
    ensures Search.FreqSorted(ims) ==> r == ImConflicts(v, ims) && r == ImConflictsAll([v], ims)
  {
    assert [v][1..] == [];
    AnalyseIMSpacing([v], ims)
  }

  // ---- Channel spacing ----------------------------------------------------------

  /** `analyseChannelSpacing(x)`: every listed channel against `x` in both directions,
      list order, skipping `x` itself by identity. `getConflictsTwoChannels` appends
      straight to the analyser's list, so the list the method returns stays empty. */
  function AnalyseChannelSpacing(a: Analyser, x: Channel): (r: (seq<Conflict>, Analyser))
    ensures r.0 == []
    ensures r.1 == a.(conflicts := a.conflicts + ChannelConflicts(Views(a.channels), x.View()))
  {
    ([], a.(conflicts := a.conflicts + ChannelConflicts(Views(a.channels), x.View())))
  }

  // ---- Adding a channel ---------------------------------------------------------

  /** The conflicts `addChannel(x)` appends, in order: `x` against the products already
      held, every channel (`x` included) against `x`'s new products, and the channel
      spacing checks of `x`. */
  function AddedConflicts(a: Analyser, x: Channel): seq<Conflict> {
    var chs := InsertInPlace(a.channels, x);
    AnalyseIMSpacingOne(x.View(), a.intermods)
    + AnalyseIMSpacing(Views(chs), CalculateIntermods(x, chs))
    + ChannelConflicts(Views(chs), x.View())
  }

  /** `addChannel(x)`: `x` is inserted before the first channel on a higher frequency,
      its products are merged into the product list, and the conflicts found are
      appended. */
  function AddChannel(a: Analyser, x: Channel): (b: Analyser)
    ensures b.channels == InsertInPlace(a.channels, x)
    ensures multiset(b.intermods) == multiset(a.intermods) + multiset(NewFrom(x.Ref(), Refs(b.channels), Flags()))
    ensures b.conflicts == a.conflicts + AddedConflicts(a, x)
  {
    var chs := InsertInPlace(a.channels, x);
    var newIms := CalculateIntermods(x, chs);
    var mid := Analyser(chs, Merge(a.intermods, newIms),
                        a.conflicts + AnalyseIMSpacingOne(x.View(), a.intermods) + AnalyseIMSpacing(Views(chs), newIms));
    var r := AnalyseChannelSpacing(mid, x);
    AddChannelConflicts(a, x, mid, r);
    r.1.(conflicts := r.1.conflicts + r.0)
  }

  /** The three appends of `addChannel` make up `AddedConflicts`. */
  lemma AddChannelConflicts(a: Analyser, x: Channel, mid: Analyser, r: (seq<Conflict>, Analyser))
    requires var chs := InsertInPlace(a.channels, x);
             mid == Analyser(chs, mid.intermods,
                             a.conflicts + AnalyseIMSpacingOne(x.View(), a.intermods)
                             + AnalyseIMSpacing(Views(chs), CalculateIntermods(x, chs)))
    requires r == AnalyseChannelSpacing(mid, x)
    ensures r.1.channels == mid.channels && r.1.intermods == mid.intermods
    ensures r.1.conflicts + r.0 == a.conflicts + AddedConflicts(a, x)
  {
    var chs := InsertInPlace(a.channels, x);
    var k1 := AnalyseIMSpacingOne(x.View(), a.intermods);
    var k2 := AnalyseIMSpacing(Views(chs), CalculateIntermods(x, chs));
    var k3 := ChannelConflicts(Views(chs), x.View());
    assert r.1.conflicts == a.conflicts + k1 + k2 + k3;
    assert r.1.conflicts + r.0 == r.1.conflicts;
    Regroup(a.conflicts, k1, k2, k3);
  }

  /** The three appends regrouped as one. */
  lemma Regroup<T>(p: seq<T>, q: seq<T>, r: seq<T>, t: seq<T>)
    ensures p + q + r + t == p + (q + r + t)
  {
  }

  /** `addChannel(null)` is an illegal argument. */
  function AddChannelChecked(a: Analyser, x: Option<Channel>): (r: Result<Analyser>)
    ensures x.None? <==> r == Err(IllegalArgument)
    ensures x.Some? ==> r == Ok(AddChannel(a, x.value))
  {
    if x.None? then Err(IllegalArgument) else Ok(AddChannel(a, x.value))
  }

  // ---- Removing a channel -------------------------------------------------------

  /** The test of `removeConflicts`: by kind, the victim or the conflicting channel, or
      the victim or a generator of the product; a white-space conflict is never
      removed. */
  predicate Touches(k: Conflict, h: nat) {
    match k
    case ChannelConflict(v, o) => v.handle == h || o.handle == h
    case IntermodConflict(v, m) => v.handle == h || m.GeneratedBy(h)
    case WhiteSpaceConflict(_) => false
  }

  /** The test agrees with `Involves` except on white-space conflicts. */
  lemma TouchesIsInvolves(k: Conflict, h: nat)
    ensures Touches(k, h) <==> k.Kind() != WhiteSpace && k.Involves(h)
  {
  }

  /** `conflicts.removeIf(...)`: the conflicts the channel object `h` does not touch,
      in order. */
  function KeepUntouched(s: seq<Conflict>, h: nat): (r: seq<Conflict>)
    ensures forall k :: k in r <==> k in s && !Touches(k, h)
    ensures |r| <= |s|
  {
    if |s| == 0 then []
    else (if Touches(s[0], h) then [] else [s[0]]) + KeepUntouched(s[1..], h)
  }

  /** Without white-space conflicts, the pass removes exactly the conflicts involving
      `h`. */
  lemma {:induction false} KeepUntouchedIsNotInvolving(s: seq<Conflict>, h: nat)
    requires forall k :: k in s ==> !k.WhiteSpaceConflict?
    ensures KeepUntouched(s, h) == NotInvolving(s, h)
  {
    if |s| > 0 {
      assert s[0] in s;
      assert forall k :: k in s[1..] ==> k in s;
      KeepUntouchedIsNotInvolving(s[1..], h);
    }
  }

  /** `removeChannel(x)`: `channels.remove` compares by identity here, so the record of
      the object `x` goes, or nothing when there is none; the products `x` generates
      and the conflicts it touches are dropped either way. */
  function RemoveChannel(a: Analyser, x: Channel): (b: Analyser)
    ensures b.channels == RemoveObject(a.channels, x.handle)
    ensures forall m :: m in b.intermods <==> m in a.intermods && !m.GeneratedBy(x.handle)
    ensures forall k :: k in b.conflicts <==> k in a.conflicts && !Touches(k, x.handle)
  {
    WithoutGeneratorMembers(a.intermods, x.handle);
    Analyser(RemoveObject(a.channels, x.handle), WithoutGenerator(a.intermods, x.handle),
             KeepUntouched(a.conflicts, x.handle))
  }

  /** `removeChannel(null)` is an illegal argument. */
  function RemoveChannelChecked(a: Analyser, x: Option<Channel>): (r: Result<Analyser>)
    ensures x.None? <==> r == Err(IllegalArgument)
    ensures x.Some? ==> r == Ok(RemoveChannel(a, x.value))
  {
    if x.None? then Err(IllegalArgument) else Ok(RemoveChannel(a, x.value))
  }

  // ---- The invariant ------------------------------------------------------------

  /** What holds between operations, `history` being the objects in the order they
      were added: one frequency-sorted record per object, a sorted product list that
      is what those additions calculated, and a conflict list holding exactly the
      clashes among the listed channels and products. */
  ghost predicate Inv(a: Analyser, history: seq<ChannelRef>) {
    && Unique(a.channels) && FreqSorted(a.channels)
    && UniqueHandles(history) && (forall c :: c in history <==> c in Refs(a.channels))
    && AllWellFormed(a.intermods) && Sorted(a.intermods)
    && multiset(a.intermods) == multiset(All(history, Refs(a.channels), Flags()))
    && Sound(Views(a.channels), a.intermods, a.conflicts)
    && Complete(Views(a.channels), a.intermods, a.conflicts)
  }

  /** No listed record belongs to the object `x`. */
  predicate Fresh(a: Analyser, x: Channel) {
    forall k :: 0 <= k < |a.channels| ==> a.channels[k].handle != x.handle
  }

  lemma NewAnalyserInv()
    ensures Inv(NewAnalyser(), [])
  {
  }

  /** The product count: with every type calculated, `n` channels give
      `4n(n-1) + n(n-1)(n-2)/2` products. */
  lemma IntermodCount(a: Analyser, history: seq<ChannelRef>)
    requires Inv(a, history)
    ensures 2 * |a.intermods| == 8 * |a.channels| * (|a.channels| - 1) + |a.channels| * (|a.channels| - 1) * (|a.channels| - 2)
  {
    var n := |a.channels|;
    var all := All(history, Refs(a.channels), Flags());
    UniqueRefs(a.channels);
    SameMembersSameLength(history, Refs(a.channels));
    AllCount(history, Refs(a.channels), Flags());
    FormulaCountsAdditions(n, Flags());
    assert |a.intermods| == |all| by {
      assert |multiset(a.intermods)| == |multiset(all)|;
    }
    CountArithmetic(n, Pairs(n), Triples(n), |a.intermods|);
  }

  lemma CountArithmetic(n: int, p: int, t: int, m: int)
    requires 2 * p == n * (n - 1) && 6 * t == n * (n - 1) * (n - 2)
    requires m == 2 * 4 * p + 3 * 1 * t
    ensures 2 * m == 8 * n * (n - 1) + n * (n - 1) * (n - 2)
  {
  }

  /** `addChannel` of a new object keeps the invariant, `x` joining the history. */
  lemma AddChannelInv(a: Analyser, history: seq<ChannelRef>, x: Channel)
    requires Inv(a, history) && Fresh(a, x)
    ensures Inv(AddChannel(a, x), history + [x.Ref()])
  {
    var b := AddChannel(a, x);
    UniqueInsert(a.channels, x);
    InsertKeepsSorted(a.channels, x);
    AddHistory(a, history, x);
    AddProducts(a, history, x);
    AddSorted(a, x);
    AddSound(a, x);
    AddComplete(a, x);
  }

  lemma AddHistory(a: Analyser, history: seq<ChannelRef>, x: Channel)
    requires UniqueHandles(history) && (forall c :: c in history <==> c in Refs(a.channels)) && Fresh(a, x)
    ensures UniqueHandles(history + [x.Ref()])
    ensures forall c :: c in history + [x.Ref()] <==> c in Refs(AddChannel(a, x).channels)
    ensures x.Ref() !in history
  {
    var p := InsertIndex(a.channels, x.freq);
    var r := Refs(a.channels);
    RefsInsert(a.channels, x);
    assert r == r[..p] + r[p..];
    forall c | c in history ensures c.handle != x.handle {
      var k :| 0 <= k < |r| && r[k] == c;
    }
  }

  lemma AddProducts(a: Analyser, history: seq<ChannelRef>, x: Channel)
    requires (forall c :: c in history <==> c in Refs(a.channels)) && x.Ref() !in history
    requires multiset(a.intermods) == multiset(All(history, Refs(a.channels), Flags()))
    ensures var b := AddChannel(a, x);
            multiset(b.intermods) == multiset(All(history + [x.Ref()], Refs(b.channels), Flags()))
  {
    var p := InsertIndex(a.channels, x.freq);
    RefsInsert(a.channels, x);
    AddToAll(history, Refs(a.channels), p, x.Ref(), Flags());
  }

  lemma AddSorted(a: Analyser, x: Channel)
    requires AllWellFormed(a.intermods) && Sorted(a.intermods)
    ensures AllWellFormed(AddChannel(a, x).intermods) && Sorted(AddChannel(a, x).intermods)
  {
    var chs := InsertInPlace(a.channels, x);
    var newIms := CalculateIntermods(x, chs);
    MergeWellFormed(a.intermods, newIms);
    MergeSorted(a.intermods, newIms);
    assert AddChannel(a, x).intermods == Merge(a.intermods, newIms);
  }

  lemma AddSound(a: Analyser, x: Channel)
    requires Sound(Views(a.channels), a.intermods, a.conflicts) && Sorted(a.intermods)
    ensures var b := AddChannel(a, x); Sound(Views(b.channels), b.intermods, b.conflicts)
  {
    var b := AddChannel(a, x);
    var chs := InsertInPlace(a.channels, x);
    ViewsInsert(a.channels, x);
    SoundAfterAdd(Views(a.channels), a.intermods, a.conflicts, x.View(), Views(chs),
                  CalculateIntermods(x, chs), b.intermods);
  }

  /** The conflicts `addChannel` appends hold, and the old ones still do. */
  lemma SoundAfterAdd(olds: seq<Tx>, prior: seq<Intermod>, cs: seq<Conflict>, xv: Tx, vs: seq<Tx>,
                      newIms: seq<Intermod>, ims: seq<Intermod>)
    requires Sound(olds, prior, cs) && Sorted(prior) && Sorted(newIms)
    requires xv in vs && forall v :: v in olds ==> v in vs
    requires multiset(ims) == multiset(prior) + multiset(newIms)
    ensures Sound(vs, ims, cs + (AnalyseIMSpacingOne(xv, prior) + AnalyseIMSpacing(vs, newIms) + ChannelConflicts(vs, xv)))
  {
    var k1 := AnalyseIMSpacingOne(xv, prior);
    var k2 := AnalyseIMSpacing(vs, newIms);
    var k3 := ChannelConflicts(vs, xv);
    assert forall m :: m in prior ==> m in multiset(ims);
    assert forall m :: m in newIms ==> m in multiset(ims);
    SoundGrow(olds, prior, cs, vs, ims);
    AddSoundProbe(xv, prior, vs, ims);
    AddSoundProducts(vs, newIms, ims);
    ChannelConflictsIsSound(vs, xv, ims);
    SoundAppend(vs, ims, k1, k2);
    SoundAppend(vs, ims, k1 + k2, k3);
    SoundAppend(vs, ims, cs, k1 + k2 + k3);
  }

  /** The products already held, tested against `x`, give sound conflicts. */
  lemma AddSoundProbe(xv: Tx, prior: seq<Intermod>, vs: seq<Tx>, ims: seq<Intermod>)
    requires Sorted(prior) && xv in vs && forall m :: m in prior ==> m in ims
    ensures Sound(vs, ims, AnalyseIMSpacingOne(xv, prior))
  {
    Search.SortedIsFreqSorted(prior);
    ImConflictsAllIsSound([xv], prior);
    SoundGrow([xv], prior, ImConflictsAll([xv], prior), vs, ims);
  }

  /** The new products, tested against every channel, give sound conflicts. */
  lemma AddSoundProducts(vs: seq<Tx>, newIms: seq<Intermod>, ims: seq<Intermod>)
    requires Sorted(newIms) && forall m :: m in newIms ==> m in ims
    ensures Sound(vs, ims, AnalyseIMSpacing(vs, newIms))
  {
    Search.SortedIsFreqSorted(newIms);
    ImConflictsAllIsSound(vs, newIms);
    SoundGrow(vs, newIms, ImConflictsAll(vs, newIms), vs, ims);
  }

  lemma AddComplete(a: Analyser, x: Channel)
    requires Complete(Views(a.channels), a.intermods, a.conflicts) && Sorted(a.intermods)
    ensures var b := AddChannel(a, x); Complete(Views(b.channels), b.intermods, b.conflicts)
  {
    var b := AddChannel(a, x);
    var chs := InsertInPlace(a.channels, x);
    ViewsInsert(a.channels, x);
    CompleteAfterAdd(Views(a.channels), a.intermods, a.conflicts, x.View(), Views(chs),
                     CalculateIntermods(x, chs), b.intermods);
  }

  /** After `addChannel`, every clash among the channels and products is reported. */
  lemma CompleteAfterAdd(olds: seq<Tx>, prior: seq<Intermod>, cs: seq<Conflict>, xv: Tx, vs: seq<Tx>,
                         newIms: seq<Intermod>, ims: seq<Intermod>)
    requires Complete(olds, prior, cs) && Sorted(prior) && Sorted(newIms)
    requires forall v :: v in vs <==> v in olds || v == xv
    requires multiset(ims) == multiset(prior) + multiset(newIms)
    ensures Complete(vs, ims, cs + (AnalyseIMSpacingOne(xv, prior) + AnalyseIMSpacing(vs, newIms) + ChannelConflicts(vs, xv)))
  {
    var k1 := AnalyseIMSpacingOne(xv, prior);
    var k2 := AnalyseIMSpacing(vs, newIms);
    var k3 := ChannelConflicts(vs, xv);
    var all := cs + (k1 + k2 + k3);
    Search.SortedIsFreqSorted(prior);
    Search.SortedIsFreqSorted(newIms);
    assert forall k :: k in cs || k in k1 || k in k2 || k in k3 ==> k in all;
    assert forall c :: c in olds + [xv] ==> c in vs;
    AddChannelsComplete(olds, xv, cs, k3, all);
    AddImsComplete(olds, xv, prior, newIms, ims, cs, k1, k2, all);
    CompleteShrink(olds + [xv], ims, all, vs);
  }

  /** `removeChannel` keeps the invariant, the object leaving the history; when it is
      not listed nothing is dropped. */
  lemma RemoveChannelInv(a: Analyser, history: seq<ChannelRef>, x: Channel)
    requires Inv(a, history)
    ensures Inv(RemoveChannel(a, x), DropHandle(history, x.handle))
  {
    var h := x.handle;
    RemoveObjectKeeps(a.channels, h);
    RemoveHistory(a, history, h);
    RemoveProducts(a, history, h);
    RemoveSorted(a.intermods, h);
    RemoveCoverage(a, x);
  }

  lemma RemoveSorted(ims: seq<Intermod>, h: nat)
    requires AllWellFormed(ims) && Sorted(ims)
    ensures AllWellFormed(WithoutGenerator(ims, h)) && Sorted(WithoutGenerator(ims, h))
  {
    WithoutGeneratorSorted(ims, h);
    WithoutGeneratorMembers(ims, h);
    var r := WithoutGenerator(ims, h);
    forall i | 0 <= i < |r| ensures r[i].WellFormed() {
      assert r[i] in ims;
    }
  }

  /** After `removeChannel`, the conflict list is still sound and complete. */
  lemma RemoveCoverage(a: Analyser, x: Channel)
    requires Unique(a.channels) && FreqSorted(a.channels)
    requires Sound(Views(a.channels), a.intermods, a.conflicts)
    requires Complete(Views(a.channels), a.intermods, a.conflicts)
    ensures var b := RemoveChannel(a, x);
            Sound(Views(b.channels), b.intermods, b.conflicts) && Complete(Views(b.channels), b.intermods, b.conflicts)
  {
    var h := x.handle;
    var ws := Views(RemoveObject(a.channels, h));
    RemoveObjectKeeps(a.channels, h);
    SoundHasNoWhiteSpace(Views(a.channels), a.intermods, a.conflicts);
    KeepUntouchedIsNotInvolving(a.conflicts, h);
    RemoveSound(Views(a.channels), a.intermods, a.conflicts, ws, h);
    RemoveComplete(Views(a.channels), a.intermods, a.conflicts, ws, h);
  }

  /** Removing the object `h` keeps the list sorted and unique, and leaves the
      references and views of every other object. */
  lemma RemoveObjectKeeps(s: seq<Channel>, h: nat)
    requires Unique(s) && FreqSorted(s)
    ensures Unique(RemoveObject(s, h)) && FreqSorted(RemoveObject(s, h))
    ensures Refs(RemoveObject(s, h)) == DropHandle(Refs(s), h)
    ensures forall v :: v in Views(RemoveObject(s, h)) <==> v in Views(s) && v.handle != h
  {
    var i := FindHandle(s, h);
    if i < |s| {
      RemoveAtKeeps(s, i);
      RefsRemoveAt(s, i);
      ViewsRemoveAt(s, i);
    } else {
      forall c | c in Refs(s) ensures c.handle != h {
        var k :| 0 <= k < |s| && Refs(s)[k] == c;
      }
      DropHandleAbsent(Refs(s), h);
      forall v | v in Views(s) ensures v.handle != h {
        var k :| 0 <= k < |s| && Views(s)[k] == v;
      }
    }
  }

  lemma RemoveHistory(a: Analyser, history: seq<ChannelRef>, h: nat)
    requires UniqueHandles(history) && (forall c :: c in history <==> c in Refs(a.channels))
    requires Refs(RemoveObject(a.channels, h)) == DropHandle(Refs(a.channels), h)
    ensures UniqueHandles(DropHandle(history, h))
    ensures forall c :: c in DropHandle(history, h) <==> c in Refs(RemoveObject(a.channels, h))
  {
    DropHandleUnique(history, h);
    DropHandleMembers(history, h);
    DropHandleMembers(Refs(a.channels), h);
  }

  lemma RemoveProducts(a: Analyser, history: seq<ChannelRef>, h: nat)
    requires multiset(a.intermods) == multiset(All(history, Refs(a.channels), Flags()))
    requires Refs(RemoveObject(a.channels, h)) == DropHandle(Refs(a.channels), h)
    ensures multiset(WithoutGenerator(a.intermods, h))
            == multiset(All(DropHandle(history, h), Refs(RemoveObject(a.channels, h)), Flags()))
  {
    WithoutGeneratorPermutation(a.intermods, All(history, Refs(a.channels), Flags()), h);
    RemoveFromAll(history, Refs(a.channels), h, Flags());
  }
}
