/** What the dry run `checkArtifacts` reports and what it leaves behind: its count
    is the number of conflicts `addChannel` would report, but it leaves conflicts
    on the listed victims and the channel counter raised. */
module XpArtifacts {
  import opened Intermods
  import opened Conflicts
  import opened Spacing
  import opened Search
  import opened Detection
  import opened IntermodOrder
  import opened Products
  import opened XpChannel
  import opened XpState
  import opened XpAnalyser
  import opened XpInvariant

  // ---- The new channel itself in the list --------------------------------------

  /** A three-tone loop does not form products with a third channel that is `x`. */
  lemma {:induction false} TripleIgnoresSelf(x: ChannelRef, c: ChannelRef, rest: seq<ChannelRef>, y: ChannelRef)
    requires y.handle == x.handle
    ensures TripleProducts(x, c, rest + [y]) == TripleProducts(x, c, rest)
  {
    if |rest| == 0 {
      assert TripleProducts(x, c, [y]) == Rotations(x, c, y) + TripleProducts(x, c, []) by {
        assert [y][1..] == [];
      }
    } else {
      assert (rest + [y])[1..] == rest[1..] + [y];
      TripleIgnoresSelf(x, c, rest[1..], y);
    }
  }

  /** `calculateIntermods(x)` skips `x` by identity, wherever it stands in the list. */
  lemma {:induction false} NewFromIgnoresSelf(x: ChannelRef, list: seq<ChannelRef>, y: ChannelRef, flags: Calculations.Calculations)
    requires y.handle == x.handle
    ensures NewFrom(x, list + [y], flags) == NewFrom(x, list, flags)
  {
    if |list| == 0 {
      assert NewFrom(x, [y], flags) == Block(x, y, [], flags) + NewFrom(x, [], flags) by {
        assert [y][1..] == [];
      }
    } else {
      assert (list + [y])[0] == list[0] && (list + [y])[1..] == list[1..] + [y];
      NewFromIgnoresSelf(x, list[1..], y, flags);
      if list[0].handle != x.handle && flags.im3t3o {
        TripleIgnoresSelf(x, list[0], list[1..], y);
      }
    }
  }

  /** The per-channel product scan of a list with one more victim at the end. */
  lemma {:induction false} SearchedAllSnoc(vs: seq<Tx>, v: Tx, ims: seq<Intermod>)
    ensures SearchedImConflictsAll(vs + [v], ims) == SearchedImConflictsAll(vs, ims) + SearchedImConflicts(v, ims)
  {
    if |vs| == 0 {
      assert SearchedImConflictsAll([v], ims) == SearchedImConflicts(v, ims) + SearchedImConflictsAll([], ims) by {
        assert [v][1..] == [];
      }
    } else {
      assert (vs + [v])[0] == vs[0] && (vs + [v])[1..] == vs[1..] + [v];
      SearchedAllSnoc(vs[1..], v, ims);
    }
  }

  /** The channel-spacing scan of a list with one more channel at the end. */
  lemma {:induction false} ChannelConflictsSnoc(list: seq<Tx>, c: Tx, x: Tx)
    ensures ChannelConflicts(list + [c], x) == ChannelConflicts(list, x) + TwoChannelConflicts(c, x)
  {
    if |list| == 0 {
      assert ChannelConflicts([c], x) == TwoChannelConflicts(c, x) + ChannelConflicts([], x) by {
        assert [c][1..] == [];
      }
    } else {
      var t := list + [c];
      assert t[0] == list[0] && t[1..] == list[1..] + [c];
      ChannelConflictsSnoc(list[1..], c, x);
      assert TwoChannelConflicts(list[0], x) + (ChannelConflicts(list[1..], x) + TwoChannelConflicts(c, x))
          == (TwoChannelConflicts(list[0], x) + ChannelConflicts(list[1..], x)) + TwoChannelConflicts(c, x);
    }
  }

  /** A scan of products that all spare the victim reports nothing. */
  lemma {:induction false} ImConflictsNone(v: Tx, ims: seq<Intermod>)
    requires forall m :: m in ims ==> !ImClash(v, m)
    ensures ImConflicts(v, ims) == []
  {
    if |ims| > 0 {
      assert ims[0] in ims;
      assert forall m :: m in ims[1..] ==> m in ims;
      ImConflictsNone(v, ims[1..]);
    }
  }

  /** A channel never clashes with its own products. */
  lemma OwnProductsNoConflict(v: Tx, ims: seq<Intermod>)
    requires Sorted(ims) && forall m :: m in ims ==> m.GeneratedBy(v.handle)
    ensures SearchedImConflicts(v, ims) == []
  {
    SortedIsFreqSorted(ims);
    ImConflictsNone(v, ims);
  }

  // ---- The count ----------------------------------------------------------------

  /** The list seen by the analyser does not change for an object it does not hold. */
  lemma SyncUnlisted(s: seq<Channel>, x: Channel)
    requires !HasHandle(s, x.handle)
    ensures Sync(s, x) == s
  {
    assert forall i :: 0 <= i < |s| ==> s[i].handle != x.handle;
  }

  /** The dry run counts exactly the conflicts `addChannel` of the same new channel
      would report. */
  lemma ArtifactCountMatchesAdd(a: Analyser, x: Channel)
    requires !HasHandle(a.channels, x.handle)
    ensures ArtifactCount(a, x) == |AddChannel(a, x).conflicts| - |a.conflicts|
  {
    var s := a.channels;
    var chs := s + [x];
    SyncUnlisted(s, x);
    ViewsAppend(s, x);
    NewFromIgnoresSelf(x.Ref(), Refs(s), x.Ref(), a.flags);
    var newIms := NewIntermods(x, chs, a.flags);
    assert newIms == NewIntermods(x, s, a.flags);
    SearchedAllSnoc(Views(s), x.View(), newIms);
    OwnProductsNoConflict(x.View(), newIms);
    ChannelConflictsSnoc(Views(s), x.View(), x.View());
  }

  /** The number `checkArtifacts` returns is that count, whether or not `x` is listed. */
  lemma CheckArtifactsCount(a: Analyser, x: Channel)
    ensures CheckArtifacts(a, x).count == ArtifactCount(a, x)
  {
  }

  // ---- What the dry run leaves behind --------------------------------------------

  /** `incrementConflictCounter(c, -1)` over a list lowers the channel counter by the
      list's channel-spacing conflicts. */
  lemma {:induction false} UnbumpChannel(x: Counters, s: seq<Conflict>)
    ensures Unbump(x, s).channel == x.channel - CountChannel(s)
    decreases |s|
  {
    if |s| > 0 {
      BumpMoves(x, s[0], -1);
      UnbumpChannel(x.Bump(s[0], -1), s[1..]);
    }
  }

  /** After the dry run of a new channel, the candidate's own list holds only
      intermod-spacing conflicts. */
  lemma CandidateHoldsProducts(a: Analyser, x: Channel, k1: seq<Conflict>, k3: seq<Conflict>, b: Analyser, i: nat)
    requires Books(a) && Fresh(a, x)
    requires forall k :: k in k1 ==> k.IntermodConflict?
    requires b == RecordAll(a.(channels := a.channels + [x]), k1 + OtherVictims(k3, x.handle))
    requires i < |b.channels| && b.channels[i].handle == x.handle
    ensures CountChannel(b.channels[i].conflicts) == 0
  {
    var h := x.handle;
    var ov := OtherVictims(k3, h);
    ListsAppend(a.channels, a.conflicts, x);
    RecordAllLists(a.(channels := a.channels + [x]), a.conflicts, k1 + ov);
    assert ListsMatch(b.channels, a.conflicts + (k1 + ov));
    forall k | k in b.channels[i].conflicts ensures k.Kind() != ChannelSpacing {
      assert k in a.conflicts + (k1 + ov) && k.channel.handle == h;
    }
  }

  /** A listed channel too close to the candidate leaves a channel-spacing conflict
      among those the dry run records on the other victims. */
  lemma LeakListed(s: seq<Channel>, x: Channel, i: nat)
    requires !HasHandle(s, x.handle) && i < |s| && ChannelClash(s[i].View(), x.View())
    ensures CountChannel(OtherVictims(ChannelConflicts(Views(s), x.View()), x.handle)) > 0
  {
    var c := s[i].View();
    assert c in Views(s);
    var leak := ChannelConflict(c.Ref(), x.View().Ref());
    assert leak in OtherVictims(ChannelConflicts(Views(s), x.View()), x.handle);
  }

  /** The dry run as written: when a listed channel is too close to a new candidate
      by its own channel spacing, `checkArtifacts` leaves the channel counter above
      the number of channel-spacing conflicts in the engine's list. */
  lemma CheckArtifactsLeaksCounter(a: Analyser, x: Channel, i: nat)
    requires Books(a) && Fresh(a, x)
    requires i < |a.channels| && ChannelClash(a.channels[i].View(), x.View())
    ensures CheckArtifacts(a, x).analyser.counters.channel > CountChannel(CheckArtifacts(a, x).analyser.conflicts)
    ensures !Books(CheckArtifacts(a, x).analyser)
  {
    var h := x.handle;
    var s := a.channels;
    SyncUnlisted(s, x);
    var p := s + [x];
    var k1 := SearchedImConflicts(x.View(), a.intermods);
    var k3 := ChannelConflicts(Views(s), x.View());
    var ov := OtherVictims(k3, h);
    var b := RecordAll(a.(channels := p), k1 + ov);
    RecordAllFrame(a.(channels := p), k1 + ov);
    RecordAllChannelCounter(a.(channels := p), k1 + ov);
    forall k | k in k1 ensures k.IntermodConflict? {
      SearchedIsFull(x.View(), a.intermods, k);
    }
    CountChannelAppend(k1, ov);
    LeakListed(s, x, i);
    assert HasHandle(p, h) by {
      assert p[|s|].handle == h;
    }
    var j := Find(b.channels, h);
    CandidateHoldsProducts(a, x, k1, k3, b, j);
    UnbumpChannel(b.counters, b.channels[j].conflicts);
    CountersOfCounts(a.conflicts);
  }
}
