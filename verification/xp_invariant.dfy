/** What the rfxp analyser keeps true between operations, and the proofs that
    `addChannel`, `removeChannel` and `updateChannel` keep it: the bookkeeping, a
    sorted product list that is exactly the products of the listed channels, and a
    conflict list holding exactly the clashes among the listed channels and products. */
module XpInvariant {
  import opened Errors
  import opened Intermods
  import opened Conflicts
  import opened Calculations
  import opened Spacing
  import opened Search
  import opened Detection
  import opened IntermodOrder
  import opened Products
  import opened XpChannel
  import opened XpState
  import opened XpAnalyser
  import opened Coverage

  /** The products are those of adding the listed channels one by one, in list order. */
  predicate ProductsOf(a: Analyser) {
    multiset(a.intermods) == multiset(All(Refs(a.channels), Refs(a.channels), a.flags))
  }

  predicate Inv(a: Analyser) {
    && Books(a)
    && AllWellFormed(a.intermods) && Sorted(a.intermods)
    && ProductsOf(a)
    && Sound(Views(a.channels), a.intermods, a.conflicts)
    && Complete(Views(a.channels), a.intermods, a.conflicts)
  }

  /** A new channel object, not yet holding conflicts. */
  predicate Fresh(a: Analyser, x: Channel) {
    !HasHandle(a.channels, x.handle) && x.conflicts == []
  }

  lemma NewAnalyserInv()
    ensures Inv(NewAnalyser())
  {
  }

  // ---- Helpers on views and references -----------------------------------------

  lemma SameChannelsViews(s: seq<Channel>, r: seq<Channel>)
    requires SameChannels(s, r)
    ensures Views(s) == Views(r) && Refs(s) == Refs(r)
  {
  }

  lemma ViewsAppend(s: seq<Channel>, x: Channel)
    ensures Views(s + [x]) == Views(s) + [x.View()]
    ensures Refs(s + [x]) == Refs(s) + [x.Ref()]
  {
  }

  /** A view in the list belongs to a listed channel. */
  lemma ViewIndex(s: seq<Channel>, c: Tx) returns (i: nat)
    requires c in Views(s)
    ensures i < |s| && s[i].View() == c && s[i].handle == c.handle
  {
    var vs := Views(s);
    var k :| 0 <= k < |vs| && vs[k] == c;
    i := k;
  }

  lemma UniqueRefs(s: seq<Channel>)
    requires Unique(s)
    ensures UniqueHandles(Refs(s))
  {
  }

  // ---- Adding a channel ----------------------------------------------------------

  lemma UniqueAppend(s: seq<Channel>, x: Channel)
    requires Unique(s) && !HasHandle(s, x.handle)
    ensures Unique(s + [x])
  {
    var r := s + [x];
    forall i, j | 0 <= i < j < |r| ensures r[i].handle != r[j].handle {
      if j == |s| {
        assert r[i] == s[i];
      } else {
        assert r[i] == s[i] && r[j] == s[j];
      }
    }
  }

  lemma ListsAppend(s: seq<Channel>, cs: seq<Conflict>, x: Channel)
    requires ListsMatch(s, cs) && VictimsListed(s, cs) && Fresh2(s, x)
    ensures ListsMatch(s + [x], cs)
  {
    assert OfVictim(cs, x.handle) == [] by {
      forall k | k in cs ensures k.channel.handle != x.handle {
        assert HasHandle(s, k.channel.handle);
      }
      OfVictimNone(cs, x.handle);
    }
    var r := s + [x];
    forall i | 0 <= i < |r| ensures r[i].conflicts == OfVictim(cs, r[i].handle) {
      if i < |s| {
        assert r[i] == s[i];
      }
    }
  }

  lemma {:induction false} OfVictimNone(cs: seq<Conflict>, h: nat)
    requires forall k :: k in cs ==> k.channel.handle != h
    ensures OfVictim(cs, h) == []
  {
    if |cs| > 0 {
      assert cs[0] in cs;
      OfVictimNone(cs[1..], h);
    }
  }

  lemma VictimsAppend(s: seq<Channel>, cs: seq<Conflict>, x: Channel)
    requires VictimsListed(s, cs)
    ensures VictimsListed(s + [x], cs)
  {
    forall k | k in cs ensures HasHandle(s + [x], k.channel.handle) {
      var i :| 0 <= i < |s| && s[i].handle == k.channel.handle;
      assert (s + [x])[i] == s[i];
    }
  }

  lemma CountNotValidAppendFresh(s: seq<Channel>, x: Channel)
    requires x.conflicts == []
    ensures CountNotValid(s + [x]) == CountNotValid(s)
  {
    CountNotValidAppend(s, [x]);
    assert [x][1..] == [];
  }

  /** The list-level form of `Fresh`. */
  predicate Fresh2(s: seq<Channel>, x: Channel) {
    !HasHandle(s, x.handle) && x.conflicts == []
  }

  /** The bookkeeping just before the new conflicts are reported. */
  lemma AddStartBooks(a: Analyser, x: Channel, ims: seq<Intermod>)
    requires Books(a) && Fresh(a, x)
    ensures Books(a.(channels := a.channels + [x], intermods := ims))
  {
    UniqueAppend(a.channels, x);
    ListsAppend(a.channels, a.conflicts, x);
    VictimsAppend(a.channels, a.conflicts, x);
    CountNotValidAppendFresh(a.channels, x);
  }

  /** Every new conflict names a channel of the grown list as its victim. */
  lemma AddedVictimsListed(a: Analyser, x: Channel)
    ensures VictimsListed(a.channels + [x], AddedConflicts(a, x))
  {
    var chs := a.channels + [x];
    var vs := Views(chs);
    var newIms := NewIntermods(x, chs, a.flags);
    var k1 := SearchedImConflicts(x.View(), a.intermods);
    var k2 := SearchedImConflictsAll(vs, newIms);
    var k3 := ChannelConflicts(vs, x.View());
    assert chs[|a.channels|] == x;
    forall k | k in AddedConflicts(a, x)
      ensures HasHandle(chs, k.channel.handle)
    {
      if k in k1 {
        ImConflictsSearchedVictim(x.View(), a.intermods, k);
      } else if k in k2 {
        SearchedImConflictsAllVictim(vs, newIms, k);
        var v :| v in vs && k.channel == v.Ref();
        var i := ViewIndex(chs, v);
      } else {
        assert k in k3;
        var c :| c in vs && ((k == ChannelConflict(c.Ref(), x.View().Ref()) && ChannelClash(c, x.View()))
                           || (k == ChannelConflict(x.View().Ref(), c.Ref()) && ChannelClash(x.View(), c)));
        var i := ViewIndex(chs, c);
      }
    }
  }

  /** The windowed single-channel scan only reports conflicts with that victim. */
  lemma ImConflictsSearchedVictim(v: Tx, ims: seq<Intermod>, k: Conflict)
    requires k in SearchedImConflicts(v, ims)
    ensures k.channel == v.Ref()
  {
    var start := EarlyExitNextIndex(v.freq - v.spacings.MaxIm(), ims);
    assert k in ImConflicts(v, ScanFrom(ims, start, v.freq + v.spacings.MaxIm()));
  }

  lemma {:induction false} SearchedImConflictsAllVictim(vs: seq<Tx>, ims: seq<Intermod>, k: Conflict)
    requires k in SearchedImConflictsAll(vs, ims)
    ensures exists v :: v in vs && k.channel == v.Ref()
  {
    if k in SearchedImConflicts(vs[0], ims) {
      ImConflictsSearchedVictim(vs[0], ims, k);
      assert vs[0] in vs;
    } else {
      SearchedImConflictsAllVictim(vs[1..], ims, k);
      var v :| v in vs[1..] && k.channel == v.Ref();
      assert v in vs;
    }
  }

  lemma AddBooks(a: Analyser, x: Channel)
    requires Books(a) && Fresh(a, x)
    ensures Books(AddChannel(a, x))
  {
    var chs := a.channels + [x];
    var newIms := NewIntermods(x, chs, a.flags);
    var b0 := a.(channels := chs, intermods := Merge(a.intermods, newIms));
    AddStartBooks(a, x, Merge(a.intermods, newIms));
    AddedVictimsListed(a, x);
    ReportAllBooks(b0, AddedConflicts(a, x));
  }

  lemma AddSorted(a: Analyser, x: Channel)
    requires AllWellFormed(a.intermods) && Sorted(a.intermods)
    ensures AllWellFormed(AddChannel(a, x).intermods) && Sorted(AddChannel(a, x).intermods)
  {
    var chs := a.channels + [x];
    var newIms := NewIntermods(x, chs, a.flags);
    var merged := Merge(a.intermods, newIms);
    assert AddChannel(a, x).intermods == merged by {
      ReportAllFrame(a.(channels := chs, intermods := merged), AddedConflicts(a, x));
    }
    MergeSorted(a.intermods, newIms);
    MergeWellFormed(a.intermods, newIms);
  }

  lemma AddProducts(a: Analyser, x: Channel)
    requires Unique(a.channels) && ProductsOf(a) && !HasHandle(a.channels, x.handle)
    ensures ProductsOf(AddChannel(a, x))
  {
    var b := AddChannel(a, x);
    SameChannelsViews(a.channels + [x], b.channels);
    AddProductsOf(a, x, b);
  }

  /** `m` holds `x`'s elements and `n`'s, `x` holds `y`'s, and `z` is `y` then `n`. */
  lemma MultisetExtend<T>(m: seq<T>, x: seq<T>, y: seq<T>, n: seq<T>, z: seq<T>)
    requires multiset(m) == multiset(x) + multiset(n) && multiset(x) == multiset(y) && z == y + n
    ensures multiset(m) == multiset(z)
  {
  }

  /** The products of a list grown by a fresh channel at its end. */
  lemma AppendToAll(r: seq<ChannelRef>, x: ChannelRef, flags: Calculations)
    requires x !in r
    ensures All(r + [x], r + [x], flags) == All(r, r, flags) + NewFrom(x, r + [x], flags)
  {
    assert r[..|r|] == r && r[|r|..] == [];
    assert r[..|r|] + [x] + r[|r|..] == r + [x];
    AddToAll(r, r, |r|, x, flags);
  }

  lemma AddProductsOf(a: Analyser, x: Channel, b: Analyser)
    requires Unique(a.channels) && ProductsOf(a) && !HasHandle(a.channels, x.handle)
    requires Refs(b.channels) == Refs(a.channels + [x]) && b.flags == a.flags
    requires multiset(b.intermods) == multiset(a.intermods) + multiset(NewFrom(x.Ref(), Refs(a.channels + [x]), a.flags))
    ensures ProductsOf(b)
  {
    ViewsAppend(a.channels, x);
    ProductsGrow(b.intermods, a.intermods, Refs(a.channels), x.Ref(), a.flags);
  }

  /** A product list that holds the old channels' products and the newcomer's holds
      the grown list's. */
  lemma ProductsGrow(bi: seq<Intermod>, ai: seq<Intermod>, r: seq<ChannelRef>, x: ChannelRef, flags: Calculations)
    requires x !in r
    requires multiset(ai) == multiset(All(r, r, flags))
    requires multiset(bi) == multiset(ai) + multiset(NewFrom(x, r + [x], flags))
    ensures multiset(bi) == multiset(All(r + [x], r + [x], flags))
  {
    AppendToAll(r, x, flags);
    MultisetExtend(bi, ai, All(r, r, flags), NewFrom(x, r + [x], flags), All(r + [x], r + [x], flags));
  }

  /** The old conflicts still hold once a channel is added. */
  lemma AddSoundOld(a: Analyser, x: Channel, vs: seq<Tx>, ims: seq<Intermod>)
    requires Sound(Views(a.channels), a.intermods, a.conflicts)
    requires vs == Views(a.channels) + [x.View()]
    requires multiset(a.intermods) <= multiset(ims)
    ensures Sound(vs, ims, a.conflicts)
  {
    forall k | k in a.conflicts
      ensures Holds(vs, ims, k)
    {
      assert Holds(Views(a.channels), a.intermods, k);
      if k.IntermodConflict? {
        assert k.conflictIntermod in multiset(a.intermods);
      }
    }
  }

  /** The new conflicts hold in the grown analysis. */
  lemma AddSoundNew(a: Analyser, x: Channel, vs: seq<Tx>, ims: seq<Intermod>)
    requires vs == Views(a.channels + [x])
    requires multiset(a.intermods) + multiset(NewIntermods(x, a.channels + [x], a.flags)) == multiset(ims)
    ensures Sound(vs, ims, AddedConflicts(a, x))
  {
    var xv := x.View();
    var newIms := NewIntermods(x, a.channels + [x], a.flags);
    assert vs[|a.channels|] == xv;
    ProbeSound(xv, a.intermods, vs, ims);
    ProductsSound(vs, newIms, ims);
    var k1, k2, k3 := SearchedImConflicts(xv, a.intermods), SearchedImConflictsAll(vs, newIms), ChannelConflicts(vs, xv);
    assert Sound(vs, ims, k3);
    forall k | k in k1 + k2 + k3 ensures Holds(vs, ims, k) {
      assert k in k1 || k in k2 || k in k3;
    }
  }

  /** The conflicts the new channel's own probe finds hold. */
  lemma ProbeSound(xv: Tx, prior: seq<Intermod>, vs: seq<Tx>, ims: seq<Intermod>)
    requires xv in vs && multiset(prior) <= multiset(ims)
    ensures Sound(vs, ims, SearchedImConflicts(xv, prior))
  {
    forall k | k in SearchedImConflicts(xv, prior) ensures Holds(vs, ims, k) {
      assert k == IntermodConflict(xv.Ref(), k.conflictIntermod) by {
        ImConflictsSearchedVictim(xv, prior, k);
      }
      SearchedIsFull(xv, prior, k);
      assert k.conflictIntermod in multiset(ims);
    }
  }

  /** The conflicts the new products cause among the listed channels hold. */
  lemma ProductsSound(vs: seq<Tx>, newIms: seq<Intermod>, ims: seq<Intermod>)
    requires Sorted(newIms) && multiset(newIms) <= multiset(ims)
    ensures Sound(vs, ims, SearchedImConflictsAll(vs, newIms))
  {
    SortedIsFreqSorted(newIms);
    forall k | k in SearchedImConflictsAll(vs, newIms) ensures Holds(vs, ims, k) {
      ImConflictsAllSound(vs, newIms, k);
      assert k.conflictIntermod in multiset(ims);
    }
  }

  /** A conflict of the windowed scan over any list is a clash with a listed product. */
  lemma SearchedIsFull(v: Tx, ims: seq<Intermod>, k: Conflict)
    requires k in SearchedImConflicts(v, ims)
    ensures k.IntermodConflict? && k.conflictIntermod in ims && ImClash(v, k.conflictIntermod)
  {
    var start := EarlyExitNextIndex(v.freq - v.spacings.MaxIm(), ims);
    var visited := ScanFrom(ims, start, v.freq + v.spacings.MaxIm());
    assert k in ImConflicts(v, visited);
    ScanFromMembers(ims, start, v.freq + v.spacings.MaxIm());
  }

  lemma {:induction false} ScanFromMembers(s: seq<Intermod>, r: nat, hi: int)
    requires r <= |s|
    ensures forall m :: m in ScanFrom(s, r, hi) ==> m in s
    decreases |s| - r
  {
    if r < |s| && s[r].Freq() < hi {
      ScanFromMembers(s, r + 1, hi);
    }
  }

  /** On a sorted list the windowed scan finds every clash of the victim. */
  lemma SearchedFindsAll(xv: Tx, ims: seq<Intermod>)
    requires Sorted(ims)
    ensures forall m :: m in ims && ImClash(xv, m) ==> IntermodConflict(xv.Ref(), m) in SearchedImConflicts(xv, ims)
  {
    SortedIsFreqSorted(ims);
  }

  lemma SearchedAllFindsAll(vs: seq<Tx>, ims: seq<Intermod>)
    requires Sorted(ims)
    ensures forall v, m :: v in vs && m in ims && ImClash(v, m) ==> IntermodConflict(v.Ref(), m) in SearchedImConflictsAll(vs, ims)
  {
    SortedIsFreqSorted(ims);
  }

  lemma AddComplete(a: Analyser, x: Channel, vs: seq<Tx>, ims: seq<Intermod>, cs: seq<Conflict>)
    requires Complete(Views(a.channels), a.intermods, a.conflicts) && Sorted(a.intermods)
    requires vs == Views(a.channels + [x])
    requires multiset(ims) == multiset(a.intermods) + multiset(NewIntermods(x, a.channels + [x], a.flags))
    requires cs == a.conflicts + AddedConflicts(a, x)
    ensures Complete(vs, ims, cs)
  {
    var chs := a.channels + [x];
    var xv := x.View();
    var newIms := NewIntermods(x, chs, a.flags);
    var k1 := SearchedImConflicts(xv, a.intermods);
    var k2 := SearchedImConflictsAll(vs, newIms);
    var k3 := ChannelConflicts(vs, xv);
    ViewsAppend(a.channels, x);
    assert forall k :: k in a.conflicts || k in k1 || k in k2 || k in k3 ==> k in cs;
    AddChannelsComplete(Views(a.channels), xv, a.conflicts, k3, cs);
    SearchedFindsAll(xv, a.intermods);
    SearchedAllFindsAll(vs, newIms);
    AddImsComplete(Views(a.channels), xv, a.intermods, newIms, ims, a.conflicts, k1, k2, cs);
  }

  /** The invariant after `addChannel`, from what `addChannel` is known to do. */
  lemma AddInvFrom(a: Analyser, x: Channel, b: Analyser)
    requires Inv(a) && Fresh(a, x)
    requires Books(b) && AllWellFormed(b.intermods) && Sorted(b.intermods) && ProductsOf(b)
    requires Views(b.channels) == Views(a.channels + [x])
    requires multiset(b.intermods) == multiset(a.intermods) + multiset(NewIntermods(x, a.channels + [x], a.flags))
    requires b.conflicts == a.conflicts + AddedConflicts(a, x)
    ensures Inv(b)
  {
    var vs := Views(b.channels);
    ViewsAppend(a.channels, x);
    AddSoundOld(a, x, vs, b.intermods);
    AddSoundNew(a, x, vs, b.intermods);
    SoundAppend(vs, b.intermods, a.conflicts, AddedConflicts(a, x));
    AddComplete(a, x, vs, b.intermods, b.conflicts);
  }

  /** `addChannel` of a new channel object keeps the invariant. */
  lemma AddChannelInv(a: Analyser, x: Channel)
    requires Inv(a) && Fresh(a, x)
    ensures Inv(AddChannel(a, x))
  {
    var b := AddChannel(a, x);
    AddBooks(a, x);
    AddSorted(a, x);
    AddProducts(a, x);
    SameChannelsViews(a.channels + [x], b.channels);
    assert multiset(NewIntermods(x, a.channels + [x], a.flags)) == multiset(NewFrom(x.Ref(), Refs(a.channels + [x]), a.flags));
    AddInvFrom(a, x, b);
  }

  // ---- Removing a channel ----------------------------------------------------------

  /** No record of another object equals `x`: `channels.remove(x)` can only find the
      record of the object `x` itself. */
  predicate NoOtherEqual(s: seq<Channel>, x: Channel) {
    forall k :: 0 <= k < |s| && s[k].handle != x.handle ==> !XpChannel.Equals(s[k], x)
  }

  /** Where `channels.remove(x)` finds the object `x`. */
  lemma RemoveFinds(s: seq<Channel>, x: Channel) returns (j: nat)
    requires Unique(s) && HasHandle(s, x.handle) && NoOtherEqual(s, x)
    ensures j < |s| && s[j].handle == x.handle
    ensures FirstEqual(Sync(s, x), x) == j
    ensures Sync(s, x)[..j] == s[..j] && Sync(s, x)[j + 1..] == s[j + 1..]
    ensures Sync(s, x)[j] == x.(conflicts := s[j].conflicts)
  {
    j := Find(s, x.handle);
    var r := Sync(s, x);
    forall k | 0 <= k < j ensures !XpChannel.Equals(r[k], x) {
      assert r[k] == s[k];
    }
    assert XpChannel.Equals(r[j], x);
    assert r[..j] == s[..j];
    assert r[j + 1..] == s[j + 1..];
  }

  /** The list with the record at `j` moved to the end and given another tuning. */
  function MoveLast(s: seq<Channel>, j: nat, last: Channel): (r: seq<Channel>)
    requires j < |s|
    ensures |r| == |s|
    ensures r[..|s| - 1] == s[..j] + s[j + 1..] && r[|s| - 1] == last
  {
    s[..j] + s[j + 1..] + [last]
  }

  /** The original position of each record of `MoveLast`. */
  function Origin(n: nat, j: nat, i: nat): nat {
    if i < j then i else if i < n - 1 then i + 1 else j
  }

  lemma MoveLastAt(s: seq<Channel>, j: nat, last: Channel, i: nat)
    requires j < |s| && i < |s| - 1
    ensures MoveLast(s, j, last)[i] == s[Origin(|s|, j, i)]
  {
    var r := MoveLast(s, j, last);
    assert r[i] == r[..|s| - 1][i];
    if i >= j {
      assert (s[..j] + s[j + 1..])[i] == s[j + 1..][i - j];
    }
  }

  /** Moving the record at `j` to the end keeps each object once. */
  lemma MoveLastUnique(s: seq<Channel>, j: nat, last: Channel)
    requires Unique(s) && j < |s| && last.handle == s[j].handle
    ensures Unique(MoveLast(s, j, last))
  {
    var n := |s|;
    var q := MoveLast(s, j, last);
    forall i, k | 0 <= i < k < n ensures q[i].handle != q[k].handle {
      var oi, ok := Origin(n, j, i), Origin(n, j, k);
      if i < n - 1 {
        MoveLastAt(s, j, last, i);
      }
      if k < n - 1 {
        MoveLastAt(s, j, last, k);
      }
      assert oi != ok;
      if oi < ok {
        assert s[oi].handle != s[ok].handle;
      } else {
        assert s[ok].handle != s[oi].handle;
      }
    }
  }

  /** Moving a record keeps every channel's list its victim's share. */
  lemma MoveLastLists(s: seq<Channel>, j: nat, last: Channel, cs: seq<Conflict>)
    requires ListsMatch(s, cs) && j < |s|
    requires last.handle == s[j].handle && last.conflicts == s[j].conflicts
    ensures ListsMatch(MoveLast(s, j, last), cs)
  {
    var q := MoveLast(s, j, last);
    forall i | 0 <= i < |q| ensures q[i].conflicts == OfVictim(cs, q[i].handle) {
      if i < |s| - 1 {
        MoveLastAt(s, j, last, i);
      }
    }
  }

  /** Moving a record with its conflict list keeps the number of channels that are not
      VALID. */
  lemma MoveLastInvalid(s: seq<Channel>, j: nat, last: Channel)
    requires j < |s| && last.conflicts == s[j].conflicts
    ensures CountNotValid(MoveLast(s, j, last)) == CountNotValid(s)
  {
    var q := MoveLast(s, j, last);
    CountNotValidDrop(s, j);
    CountNotValidLast(q);
  }

  /** Moving the record of `h` to the end keeps the bookkeeping at the start of the
      `removeIf` pass. */
  lemma RemoveStartMidway(a: Analyser, j: nat, last: Channel)
    requires Books(a) && j < |a.channels|
    requires last.handle == a.channels[j].handle && last.conflicts == a.channels[j].conflicts
    ensures Midway(a.(channels := MoveLast(a.channels, j, last)), last.handle, [], a.conflicts)
  {
    MoveLastUnique(a.channels, j, last);
    MoveLastLists(a.channels, j, last, a.conflicts);
    MoveLastInvalid(a.channels, j, last);
    assert [] + a.conflicts == a.conflicts;
  }

  lemma ViewsConcat(s: seq<Channel>, t: seq<Channel>)
    ensures Views(s + t) == Views(s) + Views(t)
    ensures Refs(s + t) == Refs(s) + Refs(t)
  {
  }

  /** The views left after dropping the record at `j` are the original views that do
      not belong to the object `h`. */
  lemma ViewsDrop(s: seq<Channel>, j: nat)
    requires Unique(s) && j < |s|
    ensures forall v :: v in Views(s[..j] + s[j + 1..]) <==> v in Views(s) && v.handle != s[j].handle
  {
    var rest := s[..j] + s[j + 1..];
    assert |rest| == |s| - 1;
    forall v | v in Views(rest) ensures v in Views(s) && v.handle != s[j].handle {
      var i :| 0 <= i < |rest| && Views(rest)[i] == v;
      var k := if i < j then i else i + 1;
      assert rest[i] == s[k];
      assert Views(s)[k] == v;
    }
    forall v | v in Views(s) && v.handle != s[j].handle ensures v in Views(rest) {
      var k :| 0 <= k < |s| && Views(s)[k] == v;
      assert k != j;
      var i := if k < j then k else k - 1;
      assert rest[i] == s[k];
      assert Views(rest)[i] == v;
    }
  }

  lemma RefsAbsent(t: seq<Channel>, h: nat)
    requires forall i :: 0 <= i < |t| ==> t[i].handle != h
    ensures DropHandle(Refs(t), h) == Refs(t)
  {
    forall c | c in Refs(t) ensures c.handle != h {
      var i :| 0 <= i < |t| && Refs(t)[i] == c;
    }
    DropHandleAbsent(Refs(t), h);
  }

  /** The references left after dropping the record at `j` are those of the list with
      the object `h` dropped. */
  lemma RefsDrop(s: seq<Channel>, j: nat)
    requires Unique(s) && j < |s|
    ensures Refs(s[..j] + s[j + 1..]) == DropHandle(Refs(s), s[j].handle)
  {
    var h := s[j].handle;
    var pre, post := s[..j], s[j + 1..];
    assert Refs(s) == Refs(pre) + [s[j].Ref()] + Refs(post) by {
      assert s == pre + [s[j]] + post;
      ViewsConcat(pre + [s[j]], post);
      ViewsConcat(pre, [s[j]]);
    }
    assert Refs(pre + post) == Refs(pre) + Refs(post) by {
      ViewsConcat(pre, post);
    }
    assert DropHandle(Refs(pre), h) == Refs(pre) by {
      RefsAbsent(pre, h);
    }
    assert DropHandle(Refs(post), h) == Refs(post) by {
      forall i | 0 <= i < |post| ensures post[i].handle != h {
        assert post[i] == s[j + 1 + i];
      }
      RefsAbsent(post, h);
    }
    DropMiddle(Refs(pre), s[j].Ref(), Refs(post));
  }

  /** What `removeChannel(x)` computes when it finds the object `x`: the `removeIf`
      pass over the list with `x`'s record moved to the end, then that record cut off. */
  lemma RemoveShape(a: Analyser, x: Channel) returns (j: nat)
    requires Unique(a.channels) && HasHandle(a.channels, x.handle) && NoOtherEqual(a.channels, x)
    ensures j < |a.channels| && a.channels[j].handle == x.handle
    ensures var q := MoveLast(a.channels, j, x.(conflicts := a.channels[j].conflicts));
      var b := UnrecordInvolving(a.(channels := q), x.handle, a.conflicts);
      RemoveChannel(a, x)
      == Removal(true, b.(channels := b.channels[..|a.channels| - 1], conflicts := NotInvolving(a.conflicts, x.handle),
                          intermods := WithoutGenerator(a.intermods, x.handle)),
                 b.channels[|a.channels| - 1])
  {
    j := RemoveFinds(a.channels, x);
    var h := x.handle;
    var s := Sync(a.channels, x);
    var rest := s[..j] + s[j + 1..];
    RemoveRest(a.channels, x, j);
    var q := MoveLast(a.channels, j, x.(conflicts := a.channels[j].conflicts));
    assert q == rest + [s[j]];
    var p := if HasHandle(rest, h) then rest else rest + [if s[j].handle == h then s[j] else x];
    assert p == q;
    assert Find(q, h) == |rest|;
    UnrecordInvolvingFrame(a.(channels := q), h, a.conflicts);
    var b := UnrecordInvolving(a.(channels := q), h, a.conflicts);
    assert FirstEqual(s, x) == j && |rest| == |a.channels| - 1;
    assert RemoveChannel(a, x)
        == Removal(true, b.(channels := b.channels[..|rest|], conflicts := NotInvolving(a.conflicts, h),
                            intermods := WithoutGenerator(a.intermods, h)),
                   b.channels[|rest|]);
  }

  lemma RemoveRest(c: seq<Channel>, x: Channel, j: nat)
    requires Unique(c) && j < |c| && c[j].handle == x.handle
    requires Sync(c, x)[..j] == c[..j] && Sync(c, x)[j + 1..] == c[j + 1..]
    ensures Sync(c, x)[..j] + Sync(c, x)[j + 1..] == c[..j] + c[j + 1..]
    ensures !HasHandle(c[..j] + c[j + 1..], x.handle)
  {
    var rest := c[..j] + c[j + 1..];
    forall i | 0 <= i < |rest| ensures rest[i].handle != x.handle {
      if i < j {
        assert rest[i] == c[i];
      } else {
        assert rest[i] == c[i + 1];
      }
    }
  }

  /** After the pass, every victim of a remaining conflict is still listed. */
  lemma RemoveFinishVictims(s: seq<Channel>, cs: seq<Conflict>, j: nat, f: seq<Channel>)
    requires VictimsListed(s, cs) && j < |s| && |f| == |s| - 1
    requires forall i :: 0 <= i < |s| - 1 ==> f[i].handle == s[Origin(|s|, j, i)].handle
    ensures VictimsListed(f, NotInvolving(cs, s[j].handle))
  {
    var n := |s|;
    forall k | k in NotInvolving(cs, s[j].handle) ensures HasHandle(f, k.channel.handle) {
      var v := k.channel.handle;
      assert HasHandle(s, v);
      var o :| 0 <= o < n && s[o].handle == v;
      var i := if o < j then o else o - 1;
      assert Origin(n, j, i) == o;
      assert f[i].handle == v;
    }
  }

  /** After the pass, the moved record holds no conflicts, so cutting it off leaves
      the number of channels that are not VALID. */
  lemma RemoveFinishLast(t: seq<Channel>, ni: seq<Conflict>, h: nat)
    requires |t| > 0 && ListsMatch(t, ni) && t[|t| - 1].handle == h
    requires forall k :: k in ni ==> !k.Involves(h)
    ensures t[|t| - 1].conflicts == []
    ensures CountNotValid(t) == CountNotValid(t[..|t| - 1])
  {
    OfVictimNone(ni, h);
    CountNotValidLast(t);
  }

  /** The analyser `removeChannel` leaves, given the state `b` after the pass that
      moved the removed record to the end: that record dropped, with its conflicts
      and products. */
  function Removed(a: Analyser, h: nat, b: Analyser): Analyser
    requires |b.channels| == |a.channels| > 0
  {
    b.(channels := b.channels[..|a.channels| - 1], conflicts := NotInvolving(a.conflicts, h),
       intermods := WithoutGenerator(a.intermods, h))
  }

  lemma PrefixLists(t: seq<Channel>, cs: seq<Conflict>, m: nat)
    requires Unique(t) && ListsMatch(t, cs) && m <= |t|
    ensures Unique(t[..m]) && ListsMatch(t[..m], cs)
  {
  }

  /** After the pass, the records before the moved one are the objects other than
      the moved one, in their original order. */
  lemma RemovedHandles(s: seq<Channel>, j: nat, last: Channel, t: seq<Channel>)
    requires j < |s| && SameChannels(MoveLast(s, j, last), t)
    ensures forall i :: 0 <= i < |s| - 1 ==> t[i].handle == s[Origin(|s|, j, i)].handle
    ensures t[|s| - 1].handle == last.handle
  {
    forall i | 0 <= i < |s| - 1 ensures t[i].handle == s[Origin(|s|, j, i)].handle {
      MoveLastAt(s, j, last, i);
    }
  }

  /** The bookkeeping after `removeChannel`, from the state the pass leaves. */
  lemma RemoveBooks(a: Analyser, j: nat, last: Channel, b: Analyser)
    requires Unique(a.channels) && VictimsListed(a.channels, a.conflicts) && j < |a.channels|
    requires last.handle == a.channels[j].handle
    requires Midway(b, last.handle, NotInvolving(a.conflicts, last.handle), [])
    requires SameChannels(MoveLast(a.channels, j, last), b.channels)
    ensures Books(Removed(a, last.handle, b))
    ensures b.channels[|a.channels| - 1].conflicts == []
    ensures !HasHandle(Removed(a, last.handle, b).channels, last.handle)
  {
    var r := Removed(a, last.handle, b);
    MidwayDone(b, last.handle, r.conflicts);
    RemoveFinish(a.channels, a.conflicts, j, last, b.channels, r.conflicts, r.channels);
  }

  /** A finished unrecording pass: the kept conflicts are all there is. */
  lemma MidwayDone(b: Analyser, h: nat, kept: seq<Conflict>)
    requires Midway(b, h, kept, [])
    ensures Unique(b.channels) && forall c :: c in kept ==> !c.Involves(h)
    ensures ListsMatch(b.channels, kept) && b.counters == CountersOf(kept)
    ensures b.numInvalid == CountNotValid(b.channels)
  {
    assert kept + [] == kept;
  }

  /** The channel list with the removed channel moved to its end keeps, once that
      end is cut off, the bookkeeping of the conflicts not involving it. */
  lemma RemoveFinish(s: seq<Channel>, cs: seq<Conflict>, j: nat, last: Channel, t: seq<Channel>, ni: seq<Conflict>,
                     fc: seq<Channel>)
    requires VictimsListed(s, cs) && j < |s| && last.handle == s[j].handle
    requires ni == NotInvolving(cs, last.handle)
    requires Unique(t) && ListsMatch(t, ni) && forall k :: k in ni ==> !k.Involves(last.handle)
    requires SameChannels(MoveLast(s, j, last), t) && fc == t[..|s| - 1]
    ensures Unique(fc) && ListsMatch(fc, ni) && VictimsListed(fc, ni)
    ensures !HasHandle(fc, last.handle)
    ensures t[|s| - 1].conflicts == [] && CountNotValid(t) == CountNotValid(fc)
  {
    RemovedHandles(s, j, last, t);
    PrefixLists(t, ni, |s| - 1);
    RemoveFinishVictims(s, cs, j, fc);
    RemoveFinishLast(t, ni, last.handle);
    LastHandleGone(t, fc);
  }

  /** Cutting the last record off a list of distinct objects leaves its object out. */
  lemma LastHandleGone(t: seq<Channel>, fc: seq<Channel>)
    requires Unique(t) && |t| > 0 && fc == t[..|t| - 1]
    ensures !HasHandle(fc, t[|t| - 1].handle)
  {
    forall i | 0 <= i < |fc| ensures fc[i].handle != t[|t| - 1].handle {
      assert fc[i] == t[i];
    }
  }

  /** What is left of the channel list after `removeChannel` looks like the list with
      the record at `j` dropped. */
  lemma RemovedViews(a: Analyser, j: nat, last: Channel, b: Analyser)
    requires j < |a.channels| && SameChannels(MoveLast(a.channels, j, last), b.channels)
    ensures Views(Removed(a, last.handle, b).channels) == Views(a.channels[..j] + a.channels[j + 1..])
    ensures Refs(Removed(a, last.handle, b).channels) == Refs(a.channels[..j] + a.channels[j + 1..])
  {
    var n := |a.channels|;
    var f := Removed(a, last.handle, b).channels;
    var rest := a.channels[..j] + a.channels[j + 1..];
    var q := MoveLast(a.channels, j, last);
    assert q[..n - 1] == rest;
    forall i | 0 <= i < n - 1 ensures f[i].View() == rest[i].View() && f[i].Ref() == rest[i].Ref() {
      assert q[i] == rest[i];
    }
  }

  /** The products and their order after `removeChannel`. */
  lemma RemoveProducts(a: Analyser, j: nat, h: nat, f: Analyser)
    requires Unique(a.channels) && ProductsOf(a) && Sorted(a.intermods) && AllWellFormed(a.intermods)
    requires j < |a.channels| && a.channels[j].handle == h
    requires f.intermods == WithoutGenerator(a.intermods, h) && f.flags == a.flags
    requires Refs(f.channels) == Refs(a.channels[..j] + a.channels[j + 1..])
    ensures AllWellFormed(f.intermods) && Sorted(f.intermods) && ProductsOf(f)
  {
    WithoutGeneratorSorted(a.intermods, h);
    WithoutGeneratorMembers(a.intermods, h);
    assert AllWellFormed(f.intermods) by {
      forall i | 0 <= i < |f.intermods| ensures f.intermods[i].WellFormed() {
        assert f.intermods[i] in a.intermods;
      }
    }
    var r := Refs(a.channels);
    RefsDrop(a.channels, j);
    RemoveFromAll(r, r, h, a.flags);
    WithoutGeneratorPermutation(a.intermods, All(r, r, a.flags), h);
  }

  /** `removeChannel` of a listed channel keeps the invariant, and hands back the
      caller's object with its tuning and no conflicts, no longer listed. */
  lemma RemoveChannelInv(a: Analyser, x: Channel)
    requires Inv(a) && HasHandle(a.channels, x.handle) && NoOtherEqual(a.channels, x)
    ensures RemoveChannel(a, x).removed
    ensures Inv(RemoveChannel(a, x).analyser)
    ensures RemoveChannel(a, x).channel == x.(conflicts := [])
    ensures Fresh(RemoveChannel(a, x).analyser, RemoveChannel(a, x).channel)
  {
    var h := x.handle;
    var j := RemoveShape(a, x);
    var last := x.(conflicts := a.channels[j].conflicts);
    var b := UnrecordInvolving(a.(channels := MoveLast(a.channels, j, last)), h, a.conflicts);
    assert RemoveChannel(a, x) == Removal(true, Removed(a, h, b), b.channels[|a.channels| - 1]);
    RemovedInv(a, j, last, b);
    assert b.channels[|a.channels| - 1] == last.(conflicts := b.channels[|a.channels| - 1].conflicts);
  }

  /** The state the removal leaves: the channel at `j` moved to the end, its conflicts
      unrecorded, and then dropped together with its products. */
  lemma RemovedInv(a: Analyser, j: nat, last: Channel, b: Analyser)
    requires Inv(a) && j < |a.channels|
    requires last.handle == a.channels[j].handle && last.conflicts == a.channels[j].conflicts
    requires b == UnrecordInvolving(a.(channels := MoveLast(a.channels, j, last)), last.handle, a.conflicts)
    ensures Inv(Removed(a, last.handle, b))
    ensures !HasHandle(Removed(a, last.handle, b).channels, last.handle)
    ensures SameChannels(MoveLast(a.channels, j, last), b.channels)
    ensures b.channels[|a.channels| - 1].conflicts == []
  {
    var h := last.handle;
    var a0 := a.(channels := MoveLast(a.channels, j, last));
    var f := Removed(a, h, b);
    RemoveStartMidway(a, j, last);
    UnrecordInvolvingBooks(a0, h, [], a.conflicts);
    assert [] + NotInvolving(a.conflicts, h) == NotInvolving(a.conflicts, h);
    UnrecordInvolvingFrame(a0, h, a.conflicts);
    RemoveBooks(a, j, last, b);
    RemovedViews(a, j, last, b);
    RemoveProducts(a, j, h, f);
    ViewsDrop(a.channels, j);
    RemoveSound(Views(a.channels), a.intermods, a.conflicts, Views(f.channels), h);
    RemoveComplete(Views(a.channels), a.intermods, a.conflicts, Views(f.channels), h);
  }

  /** `removeChannel` of an object the list does not hold finds nothing, when no
      listed record equals it either. */
  lemma RemoveUnlisted(a: Analyser, x: Channel)
    requires !HasHandle(a.channels, x.handle) && NoOtherEqual(a.channels, x)
    ensures !RemoveChannel(a, x).removed
  {
    var s := Sync(a.channels, x);
    forall k | 0 <= k < |a.channels| ensures !XpChannel.Equals(s[k], x) {
      assert s[k] == a.channels[k];
    }
  }

  /** `updateChannel(x)` keeps the invariant: for a listed object it is a removal
      followed by re-adding the caller's value, and otherwise nothing happens. */
  lemma UpdateChannelInv(a: Analyser, x: Channel)
    requires Inv(a) && NoOtherEqual(a.channels, x)
    ensures Inv(UpdateChannel(a, x))
    ensures HasHandle(a.channels, x.handle) ==>
      UpdateChannel(a, x) == AddChannel(RemoveChannel(a, x).analyser, x.(conflicts := []))
    ensures !HasHandle(a.channels, x.handle) ==> UpdateChannel(a, x) == a
  {
    if HasHandle(a.channels, x.handle) {
      RemoveChannelInv(a, x);
      AddChannelInv(RemoveChannel(a, x).analyser, RemoveChannel(a, x).channel);
    } else {
      RemoveUnlisted(a, x);
    }
  }

  /** The intermod count formula of the rfxp `TestHelpers.expectedIntermods`: `n` listed channels carry exactly
      s·n(n−1) + t·n(n−1)(n−2)/2 products. */
  lemma IntermodCount(a: Analyser)
    requires Inv(a)
    ensures |a.intermods| == Formula(|a.channels|, a.flags)
  {
    var r := Refs(a.channels);
    UniqueRefs(a.channels);
    AllCount(r, r, a.flags);
    assert |a.intermods| == |multiset(a.intermods)|;
  }

  /** No white-space conflict is ever reported, so the channel counter and the
      intermod counter together count the whole conflict list. */
  lemma ConflictCountersSum(a: Analyser)
    requires Inv(a)
    ensures GetNumChannelConflicts(a) + GetNumIMConflicts(a) == |a.conflicts|
  {
    GettersCount(a, IM2T3O);
    KindCountsSum(a.conflicts);
    assert CountKind(a.conflicts, WhiteSpace) == 0 by {
      forall k | k in a.conflicts ensures k.Kind() != WhiteSpace {
        assert Holds(Views(a.channels), a.intermods, k);
      }
    }
  }
}
