/** The operations of the rfxp `Analyser`: adding, removing and updating a channel,
    the dry run `checkArtifacts`, and the counters it reports.

    A channel is passed by the caller as its current value; the analyser's own
    record of the same object (same `handle`) takes over that value's tuning, while
    the conflict list of a listed object is the analyser's. */
module XpAnalyser {
  import opened Errors
  import opened Intermods
  import opened Conflicts
  import opened Calculations
  import opened Spacing
  import opened Search
  import opened Detection
  import opened IntermodOrder
  import opened Products
  import opened XpChannel
  import opened XpState

  /** The references products keep to the channels of a list. */
  function Refs(s: seq<Channel>): (r: seq<ChannelRef>)
    ensures |r| == |s| && forall i :: 0 <= i < |s| ==> r[i] == s[i].Ref()
  {
    seq(|s|, i requires 0 <= i < |s| => s[i].Ref())
  }

  /** What the conflict checks read from the channels of a list. */
  function Views(s: seq<Channel>): (r: seq<Tx>)
    ensures |r| == |s| && forall i :: 0 <= i < |s| ==> r[i] == s[i].View()
  {
    seq(|s|, i requires 0 <= i < |s| => s[i].View())
  }

  /** `calculateIntermods(x)` over the channel list `list`: the products `x` forms with
      the other channels, sorted. */
  function NewIntermods(x: Channel, list: seq<Channel>, flags: Calculations): (r: seq<Intermod>)
    ensures Sorted(r) && AllWellFormed(r)
    ensures multiset(r) == multiset(NewFrom(x.Ref(), Refs(list), flags))
    ensures forall m :: m in r ==> m.GeneratedBy(x.handle) && flags.Get(m.imType)
  {
    SortedNewFrom(x.Ref(), Refs(list), flags)
  }

  /** The conflicts `addChannel(x)` reports, in order: `x` against the products
      already held, every channel (`x` included) against `x`'s new products, and `x`
      against every channel in both directions. */
  function AddedConflicts(a: Analyser, x: Channel): seq<Conflict> {
    var chs := a.channels + [x];
    var newIms := NewIntermods(x, chs, a.flags);
    SearchedImConflicts(x.View(), a.intermods)
    + SearchedImConflictsAll(Views(chs), newIms)
    + ChannelConflicts(Views(chs), x.View())
  }

  /** `addChannel(x)`: `x` is appended (not inserted in order), its products are
      merged into the sorted list, and each detected conflict is reported. */
  function AddChannel(a: Analyser, x: Channel): (b: Analyser)
    ensures SameChannels(a.channels + [x], b.channels)
    ensures b.conflicts == a.conflicts + AddedConflicts(a, x)
    ensures |b.intermods| == |a.intermods| + |NewFrom(x.Ref(), Refs(a.channels + [x]), a.flags)|
    ensures multiset(b.intermods) == multiset(a.intermods) + multiset(NewFrom(x.Ref(), Refs(a.channels + [x]), a.flags))
    ensures b.flags == a.flags
  {
    var chs := a.channels + [x];
    var newIms := NewIntermods(x, chs, a.flags);
    var b0 := a.(channels := chs, intermods := Merge(a.intermods, newIms));
    ReportAllFrame(b0, AddedConflicts(a, x));
    ReportAll(b0, AddedConflicts(a, x))
  }

  /** `addChannel(null)` is an illegal argument. */
  function AddChannelChecked(a: Analyser, x: Option<Channel>): (r: Result<Analyser>)
    ensures x.None? <==> r == Err(IllegalArgument)
    ensures x.Some? ==> r == Ok(AddChannel(a, x.value))
  {
    if x.None? then Err(IllegalArgument) else Ok(AddChannel(a, x.value))
  }

  /** The first index of the object `h`, or the length when it is absent. */
  function Find(s: seq<Channel>, h: nat): (i: nat)
    ensures i <= |s|
    ensures i < |s| ==> s[i].handle == h
    ensures forall k :: 0 <= k < i ==> s[k].handle != h
    ensures i == |s| <==> !HasHandle(s, h)
  {
    if |s| == 0 then 0
    else if s[0].handle == h then 0
    else
      var i := 1 + Find(s[1..], h);
      assert forall k :: 1 <= k < i ==> s[k] == s[1..][k - 1];
      i
  }

  /** `List.indexOf` by `Channel.equals`: the first channel equal to `x`, or the length. */
  function FirstEqual(s: seq<Channel>, x: Channel): (i: nat)
    ensures i <= |s|
    ensures i < |s| ==> XpChannel.Equals(s[i], x)
    ensures forall k :: 0 <= k < i ==> !XpChannel.Equals(s[k], x)
  {
    if |s| == 0 then 0
    else if XpChannel.Equals(s[0], x) then 0
    else
      var i := 1 + FirstEqual(s[1..], x);
      assert forall k :: 1 <= k < i ==> s[k] == s[1..][k - 1];
      i
  }

  /** The list as the analyser sees it once the caller's value of the object
      `x.handle` is taken into account: every record of that object carries the
      caller's tuning, and keeps its conflicts. */
  function Sync(s: seq<Channel>, x: Channel): (r: seq<Channel>)
    ensures |r| == |s|
    ensures forall i :: 0 <= i < |s| ==> r[i].conflicts == s[i].conflicts && r[i].handle == s[i].handle
    ensures forall i :: 0 <= i < |s| && s[i].handle != x.handle ==> r[i] == s[i]
    ensures forall i :: 0 <= i < |s| && s[i].handle == x.handle ==> XpChannel.Equals(r[i], x)
  {
    seq(|s|, i requires 0 <= i < |s| => if s[i].handle == x.handle then x.(conflicts := s[i].conflicts) else s[i])
  }

  /** What `removeChannel` reports, the analyser afterwards, and the caller's object
      as it stands afterwards (its conflicts taken off). */
  datatype Removal = Removal(removed: bool, analyser: Analyser, channel: Channel)

  /** `removeChannel(x)`: `channels.remove(x)` drops the first channel *equal* to `x`;
      only if one was found are the conflicts involving `x` taken off their victims
      and out of the engine's list, and the products `x` generates dropped. Those two
      steps go by object identity. */
  function RemoveChannel(a: Analyser, x: Channel): (r: Removal)
    ensures r.removed <==> exists k :: 0 <= k < |a.channels| && XpChannel.Equals(Sync(a.channels, x)[k], x)
    ensures !r.removed ==> r.analyser == a && r.channel == x
    ensures r.removed ==> |r.analyser.channels| == |a.channels| - 1 && r.channel.handle == x.handle
    ensures r.removed ==> forall k :: k in r.analyser.conflicts <==> k in a.conflicts && !k.Involves(x.handle)
    ensures r.removed ==> forall m :: m in r.analyser.intermods <==> m in a.intermods && !m.GeneratedBy(x.handle)
    ensures r.analyser.flags == a.flags
  {
    var s := Sync(a.channels, x);
    var i := FirstEqual(s, x);
    if i == |s| then Removal(false, a, x)
    else
      var h := x.handle;
      var rest := s[..i] + s[i + 1..];
      var p := if HasHandle(rest, h) then rest else rest + [if s[i].handle == h then s[i] else x];
      var b := UnrecordInvolving(a.(channels := p), h, a.conflicts);
      UnrecordInvolvingFrame(a.(channels := p), h, a.conflicts);
      WithoutGeneratorMembers(a.intermods, h);
      var j := Find(p, h);
      assert HasHandle(p, h) by {
        if !HasHandle(rest, h) {
          assert p[|rest|].handle == h;
        }
      }
      Removal(true, b.(channels := b.channels[..|rest|], conflicts := NotInvolving(a.conflicts, h),
                       intermods := WithoutGenerator(a.intermods, h)),
              b.channels[j])
  }

  /** `removeChannel(null)` is an illegal argument. */
  function RemoveChannelChecked(a: Analyser, x: Option<Channel>): (r: Result<Removal>)
    ensures x.None? <==> r == Err(IllegalArgument)
    ensures x.Some? ==> r == Ok(RemoveChannel(a, x.value))
  {
    if x.None? then Err(IllegalArgument) else Ok(RemoveChannel(a, x.value))
  }

  /** When no listed channel equals `x`, the list does not hold the object `x` either. */
  lemma RemoveAbsent(a: Analyser, x: Channel)
    requires !RemoveChannel(a, x).removed
    ensures !HasHandle(a.channels, x.handle)
    ensures RemoveChannel(a, x).analyser == a
  {
    var s := Sync(a.channels, x);
    assert forall k :: 0 <= k < |a.channels| && a.channels[k].handle == x.handle ==> XpChannel.Equals(s[k], x);
  }

  /** `updateChannel(x)`: remove, and re-add only if the removal found a channel. */
  function UpdateChannel(a: Analyser, x: Channel): (b: Analyser)
    ensures !RemoveChannel(a, x).removed ==> b == a
    ensures RemoveChannel(a, x).removed ==> b == AddChannel(RemoveChannel(a, x).analyser, RemoveChannel(a, x).channel)
    ensures |b.channels| == |a.channels|
  {
    var r := RemoveChannel(a, x);
    if r.removed then AddChannel(r.analyser, r.channel) else a
  }

  /** `updateChannel(null)` is an illegal argument. */
  function UpdateChannelChecked(a: Analyser, x: Option<Channel>): (r: Result<Analyser>)
    ensures x.None? <==> r == Err(IllegalArgument)
    ensures x.Some? ==> r == Ok(UpdateChannel(a, x.value))
  {
    if x.None? then Err(IllegalArgument) else Ok(UpdateChannel(a, x.value))
  }

  // ---- Counters --------------------------------------------------------------------

  /** `getValidChannels`. */
  function GetValidChannels(a: Analyser): int {
    |a.channels| - a.numInvalid
  }

  /** `getNumChannelConflicts`. */
  function GetNumChannelConflicts(a: Analyser): int {
    a.counters.channel
  }

  /** `getNumIMConflicts()`: the five product-type counters added up. */
  function GetNumIMConflicts(a: Analyser): int {
    a.counters.Im(IM2T3O) + a.counters.Im(IM2T5O) + a.counters.Im(IM2T7O)
    + a.counters.Im(IM2T9O) + a.counters.Im(IM3T3O)
  }

  /** `getNumIMConflicts(type)`: a null type answers 0. */
  function GetNumIMConflictsOf(a: Analyser, t: Option<ImType>): int {
    if t.None? then 0 else a.counters.Im(t.value)
  }

  /** The number of channels that are VALID. */
  function CountValid(s: seq<Channel>): (n: nat)
    ensures n + CountNotValid(s) == |s|
  {
    if |s| == 0 then 0 else (if s[0].Validity() == Valid then 1 else 0) + CountValid(s[1..])
  }

  lemma {:induction false} CountChannelIsKind(s: seq<Conflict>)
    ensures CountChannel(s) == CountKind(s, ChannelSpacing)
  {
    if |s| > 0 {
      CountChannelIsKind(s[1..]);
    }
  }

  /** The five per-type counts add up to the intermod-spacing count. */
  lemma {:induction false} CountIntermodSum(s: seq<Conflict>)
    ensures CountIntermod(s, IM2T3O) + CountIntermod(s, IM2T5O) + CountIntermod(s, IM2T7O)
          + CountIntermod(s, IM2T9O) + CountIntermod(s, IM3T3O) == CountKind(s, IntermodSpacing)
  {
    if |s| > 0 {
      CountIntermodSum(s[1..]);
    }
  }

  /** With the bookkeeping in place, each getter answers what the lists hold: the
      VALID channels, the channel-spacing conflicts, the intermod-spacing conflicts
      (all types, or one type; none for a null type). */
  lemma GettersCount(a: Analyser, t: ImType)
    requires Books(a)
    ensures GetValidChannels(a) == CountValid(a.channels)
    ensures GetNumChannelConflicts(a) == CountKind(a.conflicts, ChannelSpacing)
    ensures GetNumIMConflicts(a) == CountKind(a.conflicts, IntermodSpacing)
    ensures GetNumIMConflictsOf(a, Some(t)) == CountIntermod(a.conflicts, t)
    ensures GetNumIMConflictsOf(a, None) == 0
  {
    CountersOfCounts(a.conflicts);
    CountChannelIsKind(a.conflicts);
    CountIntermodSum(a.conflicts);
  }

  // ---- checkArtifacts ----------------------------------------------------------------

  /** The number `checkArtifacts` returns, the analyser afterwards, and the candidate
      as it stands afterwards. */
  datatype Artifacts = Artifacts(count: nat, analyser: Analyser, channel: Channel)

  /** The conflicts whose victim is not the object `h`. */
  function OtherVictims(s: seq<Conflict>, h: nat): (r: seq<Conflict>)
    ensures forall c :: c in r <==> c in s && c.channel.handle != h
  {
    if |s| == 0 then []
    else (if s[0].channel.handle == h then [] else [s[0]]) + OtherVictims(s[1..], h)
  }

  /** `incrementConflictCounter(c, -1)` for each conflict of `s` in turn. */
  function Unbump(x: Counters, s: seq<Conflict>): Counters
    decreases |s|
  {
    if |s| == 0 then x else Unbump(x.Bump(s[0], -1), s[1..])
  }

  /** `checkArtifacts(x)`, as written. It detects the same three groups as
      `addChannel(x)` would, over the channels without `x` unless `x` is listed,
      and counts them. Along the way it records the first group on `x`, and the
      channel-spacing conflicts whose victim is a listed channel on that channel
      (the flag passed as "add to the new channel" guards the list channel's
      `addConflict`). At the end it takes every conflict `x` holds off the counters. */
  function CheckArtifacts(a: Analyser, x: Channel): (r: Artifacts)
    ensures |r.analyser.channels| == |a.channels|
    ensures r.analyser.conflicts == a.conflicts && r.analyser.intermods == a.intermods
    ensures r.channel.handle == x.handle
  {
    var h := x.handle;
    var listed := HasHandle(a.channels, h);
    var s := Sync(a.channels, x);
    var p := if listed then s else s + [x];
    var newIms := NewIntermods(x, s, a.flags);
    var k1 := SearchedImConflicts(x.View(), a.intermods);
    var k2 := SearchedImConflictsAll(Views(s), newIms);
    var k3 := ChannelConflicts(Views(s), x.View());
    var b := RecordAll(a.(channels := p), k1 + OtherVictims(k3, h));
    RecordAllFrame(a.(channels := p), k1 + OtherVictims(k3, h));
    assert HasHandle(p, h) by {
      if !listed {
        assert p[|s|].handle == h;
      }
    }
    var xr := b.channels[Find(b.channels, h)];
    Artifacts(|k1| + |k2| + |k3|,
              b.(channels := b.channels[..|s|], counters := Unbump(b.counters, xr.conflicts)),
              xr)
  }

  /** `checkArtifacts(null)` is an illegal argument. */
  function CheckArtifactsChecked(a: Analyser, x: Option<Channel>): (r: Result<Artifacts>)
    ensures x.None? <==> r == Err(IllegalArgument)
    ensures x.Some? ==> r == Ok(CheckArtifacts(a, x.value))
  {
    if x.None? then Err(IllegalArgument) else Ok(CheckArtifacts(a, x.value))
  }

  /** The count alone: what a dry run evidently means to report, with the analyser
      left as it was. */
  function ArtifactCount(a: Analyser, x: Channel): nat {
    var s := Sync(a.channels, x);
    var newIms := NewIntermods(x, s, a.flags);
    |SearchedImConflicts(x.View(), a.intermods)|
    + |SearchedImConflictsAll(Views(s), newIms)|
    + |ChannelConflicts(Views(s), x.View())|
  }
}
