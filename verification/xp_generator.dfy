/** The rfxp analyser's frequency generator: `addNewChannels` builds the
    candidate set for an equipment profile, and `newChannel` searches it by
    backtracking. A candidate is tried by building a test channel there, adding it
    to the analyser with its products, pruning the candidates around it and
    recursing; the analyser is put back afterwards. The chosen frequencies are
    appended as the recursion unwinds, so the deepest choice comes first and the
    first choice last. The random pick is a nondeterministic choice. */
module XpGenerator {
  import opened Errors
  import opened Intermods
  import opened Conflicts
  import opened Spacing
  import opened Detection
  import opened IntermodOrder
  import opened Search
  import opened Pruning
  import opened XpRange
  import opened XpEquipment
  import opened XpChannel
  import opened XpState
  import opened XpAnalyser
  import opened XpGeneratorWrapper

  // ---- Test channels ---------------------------------------------------------------

  /** An object the list does not hold: the test channel is a new object. */
  function FreshHandle(s: seq<Channel>): (h: nat)
    ensures forall i :: 0 <= i < |s| ==> s[i].handle < h
    ensures !HasHandle(s, h)
  {
    if |s| == 0 then 0
    else
      var rest := FreshHandle(s[1..]);
      var h := if s[0].handle < rest then rest else s[0].handle + 1;
      assert forall i :: 1 <= i < |s| ==> s[i] == s[1..][i - 1];
      h
  }

  /** `new Channel(null, f, equipment)`: a new object with the default name, or an
      invalid frequency when the profile cannot tune to `f`. */
  function TestChannel(a: Analyser, eq: Equipment, f: int): (r: Result<Channel>)
    requires eq.tuningAccuracy > 0
    ensures r.Ok? <==> eq.IsFrequencyValid(f) == Ok(true)
    ensures r.Err? ==> r.error == InvalidFrequency
    ensures r.Ok? ==> r.value.freq == f && r.value.equipment == eq && r.value.name == DefaultName(None)
                      && !HasHandle(a.channels, r.value.handle) && r.value.conflicts == []
  {
    NewDefaultChannel(FreshHandle(a.channels), None, f, Some(eq))
  }

  /** The conflicts the test channel's products cause among the listed channels:
      `getIMConflicts(channels, newIntermods, newConflicts, false)`. */
  function NewConflicts(a: Analyser, t: Channel): seq<Conflict> {
    SearchedImConflictsAll(Views(a.channels), NewIntermods(t, a.channels, a.flags))
  }

  /** A list sorted by `compareTo` is sorted by frequency. */
  lemma SortedIsFreqSorted(s: seq<Intermod>)
    requires Sorted(s)
    ensures FreqSorted(s)
  {
    forall i, j | 0 <= i < j < |s| ensures s[i].Freq() <= s[j].Freq() {
      assert Le(s[i], s[j]);
    }
  }

  /** On a frequency-sorted product list, the scan reports nothing exactly when no
      listed channel is the victim of any product. */
  lemma {:induction false} ScanEmptyIff(vs: seq<Tx>, ims: seq<Intermod>)
    requires FreqSorted(ims)
    ensures SearchedImConflictsAll(vs, ims) == []
            <==> forall i, m :: 0 <= i < |vs| && m in ims ==> !ImClash(vs[i], m)
  {
    var r := SearchedImConflictsAll(vs, ims);
    assert r == ImConflictsAll(vs, ims);
    if r != [] {
      var c := r[0];
      ImConflictsAllSound(vs, ims, c);
      var v :| v in vs && c == IntermodConflict(v.Ref(), c.conflictIntermod)
               && c.conflictIntermod in ims && ImClash(v, c.conflictIntermod);
      var i :| 0 <= i < |vs| && vs[i] == v;
      assert ImClash(vs[i], c.conflictIntermod);
    } else {
      forall i, m | 0 <= i < |vs| && m in ims ensures !ImClash(vs[i], m) {
        assert vs[i] in vs;
      }
    }
  }

  /** The test channel is kept exactly when none of its products falls within a
      listed channel's clearance for that product, the listed channel not being
      one of its generators. */
  lemma NewConflictsEmptyIff(a: Analyser, t: Channel)
    ensures NewConflicts(a, t) == []
            <==> forall i, m :: 0 <= i < |a.channels| && m in NewIntermods(t, a.channels, a.flags)
                   ==> !ImClash(a.channels[i].View(), m)
  {
    var ims := NewIntermods(t, a.channels, a.flags);
    var vs := Views(a.channels);
    SortedIsFreqSorted(ims);
    ScanEmptyIff(vs, ims);
  }

  /** The analyser with the test channel appended and its products merged in. */
  function Added(a: Analyser, t: Channel): (b: Analyser)
    ensures b.channels == a.channels + [t]
    ensures multiset(b.intermods) == multiset(a.intermods) + multiset(NewIntermods(t, a.channels, a.flags))
    ensures b == a.(channels := b.channels, intermods := b.intermods)
  {
    a.(channels := a.channels + [t], intermods := Merge(a.intermods, NewIntermods(t, a.channels, a.flags)))
  }

  /** The test channel at `f` can be built and its products cause no conflict
      among the listed channels. */
  predicate Accepts(a: Analyser, eq: Equipment, f: int)
    requires eq.tuningAccuracy > 0
  {
    var t := TestChannel(a, eq, f);
    t.Ok? && NewConflicts(a, t.value) == []
  }

  /** The analyser once the accepted test channel at `f` is added. */
  function Step(a: Analyser, eq: Equipment, f: int): (b: Analyser)
    requires eq.tuningAccuracy > 0 && Accepts(a, eq, f)
    ensures b.channels == a.channels + [TestChannel(a, eq, f).value]
  {
    Added(a, TestChannel(a, eq, f).value)
  }

  /** `fs` is a sequence of accepted choices, the last one made first, and `trace`
      the analysers the search passed through: `trace[|fs|]` is `a`, and each
      `fs[k]` is accepted against `trace[k + 1]`, whose step to it gives `trace[k]`. */
  predicate Chain(a: Analyser, eq: Equipment, fs: seq<int>, trace: seq<Analyser>)
    requires eq.tuningAccuracy > 0
  {
    && |trace| == |fs| + 1 && trace[|fs|] == a
    && forall k :: 0 <= k < |fs| ==> Link(trace[k + 1], eq, fs[k], trace[k])
  }

  /** `f` is accepted against `x`, and taking it leads to `y`. */
  predicate Link(x: Analyser, eq: Equipment, f: int, y: Analyser)
    requires eq.tuningAccuracy > 0
  {
    Accepts(x, eq, f) && y == Step(x, eq, f)
  }

  // ---- Restoring the channel list ----------------------------------------------------

  /** `channels.remove(testChannel)` as written: `List.remove` takes out the first
      channel `equals` to the test channel, which need not be that object. */
  function RemoveEqual(s: seq<Channel>, x: Channel): (r: seq<Channel>)
    ensures FirstEqual(s, x) == |s| ==> r == s
    ensures FirstEqual(s, x) < |s| ==> |r| == |s| - 1
  {
    var i := FirstEqual(s, x);
    if i < |s| then s[..i] + s[i + 1..] else s
  }

  /** As written, the restore gives back the list exactly when no listed channel is
      `equals` to the test channel. */
  lemma RemoveEqualRestores(s: seq<Channel>, t: Channel)
    requires !HasHandle(s, t.handle)
    ensures RemoveEqual(s + [t], t) == s <==> forall k :: 0 <= k < |s| ==> !XpChannel.Equals(s[k], t)
  {
    var st := s + [t];
    EqualsEquivalence(t, t, t);
    var i := FirstEqual(st, t);
    assert forall k :: 0 <= k < |s| ==> st[k] == s[k];
    assert st[|s|] == t;
    if forall k :: 0 <= k < |s| ==> !XpChannel.Equals(s[k], t) {
      forall k | 0 <= k < |s| ensures !XpChannel.Equals(st[k], t) {
        assert st[k] == s[k];
      }
      assert i == |s|;
      assert st[..i] + st[i + 1..] == s;
    } else {
      var k :| 0 <= k < |s| && XpChannel.Equals(s[k], t);
      assert i <= k;
      var r := st[..i] + st[i + 1..];
      assert r[|s| - 1] == t;
      assert s[|s| - 1].handle != t.handle;
    }
  }

  /** Two channels on the same profile with the default name and frequency: the
      restore after accepting the second removes the first. */
  lemma RemoveEqualLosesChannel(eq: Equipment)
    ensures var c := Channel(0, 0, 600000, DefaultName(None), eq, None, []);
            var t := Channel(1, 0, 600000, DefaultName(None), eq, None, []);
            RemoveEqual([c, t], t) == [t]
  {
    var c := Channel(0, 0, 600000, DefaultName(None), eq, None, []);
    var t := Channel(1, 0, 600000, DefaultName(None), eq, None, []);
    EqualsEquivalence(t, t, t);
    assert XpChannel.Equals(c, t);
    assert [c, t][0] == c;
  }

  /** A zero channel spacing leaves an equal channel's frequency among the
      candidates, so such a test channel can be tried and accepted. */
  lemma ZeroSpacingKeepsFrequency(s: set<int>, eq: Equipment, c: Channel)
    requires eq.tuningAccuracy > 0 && eq.range.Some?
    requires eq.ChannelSpacing() <= 0 && c.equipment.ChannelSpacing() <= 0
    ensures RemoveConflictRange(s, eq, eq.range.value, ChannelPart(c)) == s
  {
    PruneWindowEmpty(s, eq.range.value.lo, eq.range.value.hi, eq.tuningAccuracy, c.freq, ComponentSpacing(eq, ChannelPart(c)));
  }

  /** The restore by object identity. */
  function RemoveObject(s: seq<Channel>, h: nat): (r: seq<Channel>)
    ensures !HasHandle(s, h) ==> r == s
    ensures HasHandle(s, h) ==> |r| == |s| - 1 && r[..Find(s, h)] == s[..Find(s, h)]
  {
    var i := Find(s, h);
    if i < |s| then s[..i] + s[i + 1..] else s
  }

  /** By identity, the restore gives back exactly the list before the test channel
      was appended. */
  lemma RemoveObjectRestores(s: seq<Channel>, t: Channel)
    requires !HasHandle(s, t.handle)
    ensures RemoveObject(s + [t], t.handle) == s
  {
    var st := s + [t];
    forall k | 0 <= k < |s| ensures st[k].handle != t.handle {
      assert st[k] == s[k];
    }
    assert st[|s|] == t;
    var i := Find(st, t.handle);
    assert i == |s|;
    assert st[..i] + st[i + 1..] == s;
  }

  // ---- Pruning after a choice ------------------------------------------------------------

  /** The frequencies of `fs` are pairwise distinct and at least `cs` apart. */
  predicate Separated(fs: seq<int>, cs: int) {
    forall i, j :: 0 <= i < j < |fs| ==> fs[i] != fs[j] && Abs(fs[i] - fs[j]) >= cs
  }

  predicate Spaced(s: set<int>, f: int, cs: int) {
    forall p :: p in s ==> p <= f - cs || p >= f + cs
  }

  /** `clonePossibleFrequencies`: a copy keeping only the candidates at least one
      channel spacing of `eq` from `f`, less the windows of the new products. */
  function ClonePossible(pf: set<int>, f: int, eq: Equipment, ims: seq<Intermod>): (r: set<int>)
    requires eq.tuningAccuracy > 0 && eq.range.Some?
    ensures r <= pf
    ensures Spaced(r, f, eq.ChannelSpacing())
    ensures InRange(pf, eq.range.value.lo, eq.range.value.hi) ==>
              forall p :: p in r <==> p in pf && (p <= f - eq.ChannelSpacing() || p >= f + eq.ChannelSpacing())
                                      && ClearOfIntermods(eq, ims, p)
  {
    var cs := eq.ChannelSpacing();
    var kept := set p | p in pf && (p <= f - cs || p >= f + cs);
    var rg := eq.range.value;
    var r := RemoveAll(kept, eq, rg, Components([], ims));
    if InRange(pf, rg.lo, rg.hi) then
      assert forall p :: ClearOfChannels(eq, [], p);
      assert forall p :: p in r <==> p in kept && ClearOfIntermods(eq, ims, p) by {
        forall p ensures p in r <==> p in kept && ClearOfIntermods(eq, ims, p) {
          RemoveAllComponents(kept, eq, rg, [], ims, p);
        }
      }
      r
    else r
  }

  lemma {:induction false} SubsetCard(x: set<int>, y: set<int>)
    requires x <= y
    ensures |x| <= |y|
    decreases |y|
  {
    if y != {} {
      HasElement(y);
      var e :| e in y;
      SubsetCard(x - {e}, y - {e});
    }
  }

  /** An accepted choice `f` followed by a chain against the analyser holding it
      is a chain. */
  lemma ChainExtend(a: Analyser, eq: Equipment, f: int, t: Channel, rest: seq<int>, trace: seq<Analyser>)
    requires eq.tuningAccuracy > 0 && TestChannel(a, eq, f) == Ok(t) && NewConflicts(a, t) == []
    requires Chain(Added(a, t), eq, rest, trace)
    ensures Chain(a, eq, rest + [f], trace + [a])
  {
    assert Link(a, eq, f, Added(a, t));
    ChainSnoc(a, eq, f, Added(a, t), rest, trace);
  }

  lemma ChainSnoc(a: Analyser, eq: Equipment, f: int, b: Analyser, rest: seq<int>, trace: seq<Analyser>)
    requires eq.tuningAccuracy > 0 && Link(a, eq, f, b) && Chain(b, eq, rest, trace)
    ensures Chain(a, eq, rest + [f], trace + [a])
  {
    var fs, tr := rest + [f], trace + [a];
    forall k | 0 <= k < |fs| ensures Link(tr[k + 1], eq, fs[k], tr[k]) {
      if k < |rest| {
        assert fs[k] == rest[k] && tr[k + 1] == trace[k + 1] && tr[k] == trace[k];
      } else {
        assert fs[k] == f && tr[k + 1] == a && tr[k] == b;
      }
    }
  }

  /** One choice `f` in front of the choices `rest` made after it from the pruned
      set: all are drawn from `possible`, pairwise at least one channel spacing
      apart. */
  lemma ExtendSeparated(f: int, cs: int, possible: set<int>, rest: seq<int>)
    requires f in possible
    requires forall i :: 0 <= i < |rest| ==> rest[i] in possible - {f} && (rest[i] <= f - cs || rest[i] >= f + cs)
    requires Separated(rest, cs)
    ensures forall i :: 0 <= i < |rest + [f]| ==> (rest + [f])[i] in possible
    ensures Separated(rest + [f], cs)
  {
    var fs := rest + [f];
    forall i | 0 <= i < |fs| ensures fs[i] in possible {
      if i < |rest| {
        assert fs[i] == rest[i];
      }
    }
    forall i, j | 0 <= i < j < |fs| ensures fs[i] != fs[j] && Abs(fs[i] - fs[j]) >= cs {
      assert fs[i] == rest[i];
      if j < |rest| {
        assert fs[j] == rest[j];
      }
    }
  }

  // ---- The search ----------------------------------------------------------------------

  /** `newChannel(num, equipment, possibleFrequencies, newFrequencies)`: while
      candidates remain, take one out and try it (`TryFrequency`); stop at the
      first that leads to a full set of `num` frequencies. An unfinished search
      returns false and reports nothing. */
  method NewChannel(a: Analyser, num: int, eq: Equipment, possible: set<int>)
    returns (outcome: Result<bool>, b: Analyser, freqs: seq<int>, trace: seq<Analyser>)
    requires eq.tuningAccuracy > 0 && eq.range.Some?
    ensures num == 0 ==> outcome == Ok(true) && b == a && freqs == [] && trace == [a]
    ensures outcome.Ok? ==> b == a
    ensures outcome == Ok(true) ==> |freqs| == num && Chain(a, eq, freqs, trace)
    ensures outcome != Ok(true) ==> freqs == []
    ensures forall i :: 0 <= i < |freqs| ==> freqs[i] in possible
    ensures Separated(freqs, eq.ChannelSpacing())
    ensures outcome.Err? ==> outcome.error == InvalidFrequency
    ensures (forall p :: p in possible ==> eq.IsFrequencyValid(p) == Ok(true)) ==> outcome.Ok?
    ensures num != 0 && possible != {} && (forall p :: p in possible ==> eq.IsFrequencyValid(p) != Ok(true)) ==>
              outcome == Err(InvalidFrequency)
    decreases |possible|, 2
  {
    if num == 0 {
      return Ok(true), a, [], [a];
    }
    var pf := possible;
    while pf != {}
      invariant pf <= possible
      invariant (forall p :: p in possible ==> eq.IsFrequencyValid(p) != Ok(true)) ==> pf == possible
      decreases |pf|
    {
      HasElement(pf);
      var f :| f in pf;
      pf := pf - {f};
      outcome, b, freqs, trace := TryFrequency(a, num, eq, possible, pf, f);
      if outcome != Ok(false) {
        return;
      }
    }
    return Ok(false), a, [], [];
  }

  /** One pass of `newChannel`'s loop, for the candidate `f`, with `left` the
      candidates still untried: build a test channel at `f`, which may be refused as
      an invalid frequency, and go on (`Descend`) only if its products cause no
      conflict among the listed channels. */
  method TryFrequency(a: Analyser, num: int, eq: Equipment, possible: set<int>, left: set<int>, f: int)
    returns (outcome: Result<bool>, b: Analyser, freqs: seq<int>, trace: seq<Analyser>)
    requires eq.tuningAccuracy > 0 && eq.range.Some?
    requires f in possible && left <= possible - {f}
    ensures outcome.Ok? ==> b == a
    ensures outcome == Ok(true) ==> |freqs| == num && Chain(a, eq, freqs, trace) && |freqs| > 0 && freqs[|freqs| - 1] == f
    ensures outcome != Ok(true) ==> freqs == []
    ensures forall i :: 0 <= i < |freqs| ==> freqs[i] in possible
    ensures Separated(freqs, eq.ChannelSpacing())
    ensures outcome.Err? ==> outcome.error == InvalidFrequency
    ensures (forall p :: p in possible ==> eq.IsFrequencyValid(p) == Ok(true)) ==> outcome.Ok?
    ensures eq.IsFrequencyValid(f) != Ok(true) ==> outcome == Err(InvalidFrequency)
    decreases |possible|, 1
  {
    var test := TestChannel(a, eq, f);
    if test.Err? {
      return Err(test.error), a, [], [];
    }
    if |NewConflicts(a, test.value)| != 0 {
      return Ok(false), a, [], [];
    }
    var t := test.value;
    var valid, b', rest, trace' := Descend(a, num, eq, possible, left, f, t);
    if valid != Ok(true) {
      return valid, b', [], [];
    }
    ChainExtend(a, eq, f, t, rest, trace');
    ExtendSeparated(f, eq.ChannelSpacing(), possible, rest);
    outcome, b, freqs, trace := Ok(true), b', rest + [f], trace' + [a];
  }

  /** The accepted test channel `t` at `f`: add it with its products, prune `left`
      around it, recurse for `num - 1`, and put the channel list and product list
      back; the frequencies chosen below come back in `rest`, each one kept out of
      the test channel's window. The restore here is by identity; the source's
      `List.remove` goes by `equals` (see `RemoveEqualRestores`). An exception from
      below leaves the analyser as it was at the throw. */
  method Descend(a: Analyser, num: int, eq: Equipment, possible: set<int>, left: set<int>, f: int, t: Channel)
    returns (valid: Result<bool>, b: Analyser, rest: seq<int>, trace: seq<Analyser>)
    requires eq.tuningAccuracy > 0 && eq.range.Some?
    requires f in possible && left <= possible - {f}
    requires !HasHandle(a.channels, t.handle)
    ensures valid.Ok? ==> b == a
    ensures valid == Ok(true) ==> |rest| == num - 1 && Chain(Added(a, t), eq, rest, trace)
    ensures valid != Ok(true) ==> rest == []
    ensures forall i :: 0 <= i < |rest| ==>
              rest[i] in possible - {f} && (rest[i] <= f - eq.ChannelSpacing() || rest[i] >= f + eq.ChannelSpacing())
    ensures Separated(rest, eq.ChannelSpacing())
    ensures valid.Err? ==> valid.error == InvalidFrequency
    ensures (forall p :: p in possible ==> eq.IsFrequencyValid(p) == Ok(true)) ==> valid.Ok?
    decreases |possible|, 0
  {
    var newMap := ClonePossible(left, f, eq, NewIntermods(t, a.channels, a.flags));
    SubsetCard(newMap, possible - {f});
    var b';
    valid, b', rest, trace := NewChannel(Added(a, t), num - 1, eq, newMap);
    RemoveObjectRestores(a.channels, t);
    b := if valid.Err? then b' else b'.(channels := RemoveObject(b'.channels, t.handle), intermods := a.intermods);
  }

  /** The candidates `addNewChannels` starts from: the points of `base`, less every
      listed channel's and product's window. */
  function Candidates(a: Analyser, eq: Equipment, base: set<int>): (pf: set<int>)
    requires eq.tuningAccuracy > 0 && eq.range.Some?
    requires InRange(base, eq.range.value.lo, eq.range.value.hi)
    ensures forall p :: p in pf <==> p in base && ClearOfChannels(eq, a.channels, p) && ClearOfIntermods(eq, a.intermods, p)
  {
    var pf := RemoveAll(base, eq, eq.range.value, Components(a.channels, a.intermods));
    assert forall p :: p in pf <==> p in base && ClearOfChannels(eq, a.channels, p) && ClearOfIntermods(eq, a.intermods, p) by {
      forall p ensures p in pf <==> p in base && ClearOfChannels(eq, a.channels, p) && ClearOfIntermods(eq, a.intermods, p) {
        RemoveAllComponents(base, eq, eq.range.value, a.channels, a.intermods, p);
      }
    }
    pf
  }

  /** An accepted frequency is one the profile can tune to. */
  lemma ChainOnGrid(a: Analyser, eq: Equipment, fs: seq<int>, trace: seq<Analyser>, i: int)
    requires eq.tuningAccuracy > 0 && Chain(a, eq, fs, trace) && 0 <= i < |fs|
    ensures eq.IsFrequencyValid(fs[i]) == Ok(true) && fs[i] % eq.tuningAccuracy == 0
  {
    assert Link(trace[i + 1], eq, fs[i], trace[i]);
  }

  /** `addNewChannels(num, equipment)` as written: the loop puts `lo`, `lo + acc`, ...
      up to `hi` of the profile's range, every listed channel's and product's window
      is removed, and `newChannel` searches what is left; the chosen frequencies are
      returned whether or not the search succeeded (an unfinished search leaves the
      list empty). A profile without a range is a null reference. The windows remove
      grid points only, so when `lo` is off the tuning grid the off-grid points stay
      candidates, and the test channel built at one of them is refused: the
      `InvalidFrequencyException` leaves `addNewChannels`, and the analyser keeps
      whatever test channels were added on the way down. Each test channel is taken
      back out by identity (`RemoveObject`), not by `equals`. */
  method AddNewChannels(a: Analyser, num: int, eq: Equipment)
    returns (r: Result<seq<int>>, b: Analyser, trace: seq<Analyser>)
    requires eq.tuningAccuracy > 0
    ensures eq.range.None? ==> r == Err(NullReference) && b == a
    ensures eq.range.Some? && (eq.range.value.lo > eq.range.value.hi || eq.range.value.lo % eq.tuningAccuracy == 0) ==>
              r.Ok?
    ensures (&& eq.range.Some? && num != 0 && eq.range.value.lo <= eq.range.value.hi
             && forall p :: p in BaseAsWritten(eq.range.value, eq.tuningAccuracy) ==> p % eq.tuningAccuracy != 0) ==>
              r == Err(InvalidFrequency)
    ensures eq.range.Some? && r.Err? ==> r.error == InvalidFrequency
    ensures r.Ok? ==> b == a
    ensures r.Ok? ==> |r.value| == num || r.value == []
    ensures r.Ok? && r.value != [] ==> Chain(a, eq, r.value, trace)
    ensures r.Ok? ==> forall i :: 0 <= i < |r.value| ==>
              eq.range.value.lo <= r.value[i] <= eq.range.value.hi && r.value[i] % eq.tuningAccuracy == 0
              && ClearOfChannels(eq, a.channels, r.value[i]) && ClearOfIntermods(eq, a.intermods, r.value[i])
    ensures r.Ok? ==> forall i, j :: 0 <= i < j < |r.value| ==>
              r.value[i] != r.value[j] && Abs(r.value[i] - r.value[j]) >= eq.ChannelSpacing()
  {
    if eq.range.None? {
      return Err(NullReference), a, [];
    }
    var rg, acc := eq.range.value, eq.tuningAccuracy;
    var base := BaseAsWritten(rg, acc);
    var pf := Candidates(a, eq, base);
    BaseAsWrittenOnGrid(rg, acc);
    if rg.lo > rg.hi || rg.lo % acc == 0 {
      forall p | p in pf ensures eq.IsFrequencyValid(p) == Ok(true) {
        assert p in base;
      }
    }
    if rg.lo <= rg.hi && (forall p :: p in base ==> p % acc != 0) {
      assert rg.lo in pf;
      forall p | p in pf ensures eq.IsFrequencyValid(p) != Ok(true) {
        assert p in base;
      }
    }
    var outcome, b', freqs, trace' := NewChannel(a, num, eq, pf);
    if outcome.Err? {
      return Err(outcome.error), b', [];
    }
    forall i | 0 <= i < |freqs|
      ensures rg.lo <= freqs[i] <= rg.hi && freqs[i] % acc == 0
      ensures ClearOfChannels(eq, a.channels, freqs[i]) && ClearOfIntermods(eq, a.intermods, freqs[i])
    {
      assert freqs[i] in pf;
      ChainOnGrid(a, eq, freqs, trace', i);
    }
    r, b, trace := Ok(freqs), b', trace';
  }

  /** The range 606001..606026 on a 25 kHz grid: neither point the loop puts is on
      the grid, so `addNewChannels` asked for any channel throws. */
  lemma OffGridRangeRefused(rg: Range)
    requires rg.lo == 606001 && rg.hi == 606026
    ensures rg.lo <= rg.hi && forall p :: p in BaseAsWritten(rg, 25) ==> p % 25 != 0
  {
    BaseAsWrittenOffGrid();
    assert BaseAsWritten(rg, 25) == BaseAsWritten(Range(606001, 606026, ""), 25);
  }

  /** `addNewChannels` as intended: the same search from the grid points of the
      range, so no test channel is refused and the search always finishes. */
  method AddNewChannelsOnGrid(a: Analyser, num: int, eq: Equipment)
    returns (r: Result<seq<int>>, b: Analyser, trace: seq<Analyser>)
    requires eq.tuningAccuracy > 0
    ensures eq.range.None? ==> r == Err(NullReference) && b == a
    ensures eq.range.Some? ==> r.Ok? && b == a
    ensures r.Ok? ==> |r.value| == num || r.value == []
    ensures r.Ok? && r.value != [] ==> Chain(a, eq, r.value, trace)
    ensures r.Ok? ==> forall i :: 0 <= i < |r.value| ==>
              eq.range.value.lo <= r.value[i] <= eq.range.value.hi && r.value[i] % eq.tuningAccuracy == 0
              && ClearOfChannels(eq, a.channels, r.value[i]) && ClearOfIntermods(eq, a.intermods, r.value[i])
    ensures r.Ok? ==> forall i, j :: 0 <= i < j < |r.value| ==>
              r.value[i] != r.value[j] && Abs(r.value[i] - r.value[j]) >= eq.ChannelSpacing()
  {
    if eq.range.None? {
      return Err(NullReference), a, [];
    }
    var rg := eq.range.value;
    var pf := Candidates(a, eq, BaseFrequencies(rg, eq.tuningAccuracy));
    var outcome, b', freqs, trace' := NewChannel(a, num, eq, pf);
    assert outcome.Ok?;
    forall i | 0 <= i < |freqs|
      ensures rg.lo <= freqs[i] <= rg.hi && freqs[i] % eq.tuningAccuracy == 0
      ensures ClearOfChannels(eq, a.channels, freqs[i]) && ClearOfIntermods(eq, a.intermods, freqs[i])
    {
      assert freqs[i] in pf;
    }
    r, b, trace := Ok(freqs), b', trace';
  }
}
