/** `ChannelGeneratorWrapper` (rfxp): one channel to be given a frequency, the
    number of grid points its range holds, and the candidate frequencies left
    once every other channel's and product's window is taken out. The random
    pick is a nondeterministic choice from the candidates. */
module XpGeneratorWrapper {
  import opened Errors
  import opened Intermods
  import opened Spacing
  import opened Detection
  import opened Pruning
  import opened XpRange
  import opened XpEquipment
  import opened XpChannel

  /** A `FrequencyComponent`: a channel or a product. */
  datatype Component = ChannelPart(channel: Channel) | IntermodPart(intermod: Intermod)

  /** The wrapped channel, `proposedFrequency`, `possibleFrequencies` (null until
      first computed) and `maxPossibleFrequencies`. */
  datatype Wrapper = Wrapper(channel: Channel, proposed: Option<int>, possible: Option<set<int>>, maxPossible: int)

  /** `calculateMaxPossibleFrequencies`: zero when the first grid point at or
      above `lo` lies beyond `hi`, otherwise one plus the whole steps to `hi`. */
  function CalculateMaxPossible(lo: int, hi: int, acc: int): (n: int)
    requires acc > 0
    ensures n == |GridPoints(lo, hi, acc)|
  {
    var low := FirstValid(lo, acc);
    StepsCount(low, hi, acc);
    if low > hi then 0 else 1 + (hi - low) / acc
  }

  /** `calculateMaxPossibleFrequencies` for any accuracy, as written: with zero the
      first valid frequency is 0, and the division throws unless 0 already lies
      beyond `hi`; with a negative accuracy Java's division truncates towards
      zero, so a range wider than one step gives a count below one. */
  function MaxPossibleAsWritten(lo: int, hi: int, acc: int): (r: Result<int>)
    ensures acc > 0 ==> r == Ok(CalculateMaxPossible(lo, hi, acc))
    ensures acc == 0 ==> (r.Err? <==> hi >= 0) && (r.Err? ==> r.error == ArithmeticError) && (r.Ok? ==> r.value == 0)
    ensures acc < 0 ==> r.Ok? && r.value <= 1
    ensures acc < 0 && lo <= hi && hi - lo >= -2 * acc ==> r.value < 0
  {
    var low := FirstValidAny(lo, acc);
    if low > hi then Ok(0)
    else if acc == 0 then Err(ArithmeticError)
    else if acc > 0 then Ok(1 + (hi - low) / acc)
    // `hi - low` is not negative here, so truncating and flooring agree.
    else Ok(1 - (hi - low) / (-acc))
  }

  /** The values the rfxp `ChannelGeneratorWrapperTests` expect for a 25 kHz grid. */
  lemma MaxPossibleExamples()
    ensures CalculateMaxPossible(606000, 610000, 25) == 161
    ensures CalculateMaxPossible(606000, 609999, 25) == 160
    ensures CalculateMaxPossible(606001, 606026, 25) == 1
    ensures CalculateMaxPossible(606001, 606002, 25) == 0
  {
  }

  /** The constructor: the count needs the channel's range, so a channel without
      one is a null reference. */
  function NewWrapper(ch: Channel): (r: Result<Wrapper>)
    ensures ch.range.None? ==> r == Err(NullReference)
    ensures ch.equipment.tuningAccuracy != 0 ==> (r.Err? <==> ch.range.None?)
    ensures ch.range.Some? && ch.equipment.tuningAccuracy == 0 ==>
              (r.Err? <==> ch.range.value.hi >= 0) && (r.Err? ==> r.error == ArithmeticError)
    ensures r.Ok? ==> r.value.channel == ch && r.value.proposed.None? && r.value.possible.None?
    ensures r.Ok? && ch.equipment.tuningAccuracy > 0 ==>
              r.value.maxPossible == |GridPoints(ch.range.value.lo, ch.range.value.hi, ch.equipment.tuningAccuracy)|
    ensures r.Ok? && ch.equipment.tuningAccuracy < 0 ==> r.value.maxPossible <= 1
  {
    if ch.range.None? then Err(NullReference)
    else
      var n := MaxPossibleAsWritten(ch.range.value.lo, ch.range.value.hi, ch.equipment.tuningAccuracy);
      if n.Err? then Err(n.error) else Ok(Wrapper(ch, None, None, n.value))
  }

  // ---- The base set ---------------------------------------------------------------

  /** `getBaseFrequencies` as written: the loop starts at the range's low end,
      whether or not that is on the tuning grid. */
  function BaseAsWritten(r: Range, acc: int): (s: set<int>)
    requires acc > 0
    ensures forall p :: p in s <==> r.lo <= p <= r.hi && (p - r.lo) % acc == 0
  {
    set p | p in Steps(r.lo, r.hi, acc)
  }

  /** As written, the base set is on the grid exactly when the range is empty or
      starts on it, and then it is the grid. */
  lemma BaseAsWrittenOnGrid(r: Range, acc: int)
    requires acc > 0
    ensures (forall p :: p in BaseAsWritten(r, acc) ==> p % acc == 0) <==> r.lo > r.hi || r.lo % acc == 0
    ensures r.lo % acc == 0 ==> BaseAsWritten(r, acc) == Grid(r.lo, r.hi, acc)
  {
    if r.lo <= r.hi {
      assert r.lo in BaseAsWritten(r, acc);
    }
    if r.lo % acc == 0 {
      forall p ensures p in BaseAsWritten(r, acc) <==> p in Grid(r.lo, r.hi, acc) {
        OffsetMod(p, r.lo, acc);
      }
    }
  }

  /** The range 606001..606026 of `ChannelGeneratorWrapperTests` on a 25 kHz grid: the loop stores 606001
      and 606026, neither a multiple of 25, while the count is 1 (for 606025). */
  lemma BaseAsWrittenOffGrid()
    ensures BaseAsWritten(Range(606001, 606026, ""), 25) == {606001, 606026}
    ensures CalculateMaxPossible(606001, 606026, 25) == 1
    ensures forall p :: p in BaseAsWritten(Range(606001, 606026, ""), 25) ==> p % 25 != 0
  {
    assert Steps(606051, 606026, 25) == [];
    assert Steps(606026, 606026, 25) == [606026];
    assert Steps(606001, 606026, 25) == [606001, 606026];
  }

  /** The base set as intended: the grid points of the range, as many as
      `calculateMaxPossibleFrequencies` counts. */
  function BaseFrequencies(r: Range, acc: int): (s: set<int>)
    requires acc > 0
    ensures forall p :: p in s <==> r.lo <= p <= r.hi && p % acc == 0
  {
    Grid(r.lo, r.hi, acc)
  }

  /** The intended base set has exactly the counted number of members, each one a
      frequency the channel can be set to when its equipment admits it. */
  lemma BaseMatchesCount(ch: Channel, p: int)
    requires ch.equipment.tuningAccuracy > 0 && ch.range.Some?
    ensures |BaseFrequencies(ch.range.value, ch.equipment.tuningAccuracy)|
            == CalculateMaxPossible(ch.range.value.lo, ch.range.value.hi, ch.equipment.tuningAccuracy)
    ensures p in BaseFrequencies(ch.range.value, ch.equipment.tuningAccuracy)
            && (ch.equipment.range.None? || ch.equipment.range.value.IsValidFrequency(p))
            ==> SetFreq(ch, p).Ok?
  {
    var r, acc := ch.range.value, ch.equipment.tuningAccuracy;
    DistinctCard(GridPoints(r.lo, r.hi, acc));
  }

  /** A strictly increasing sequence has as many members as its set. */
  lemma {:induction false} DistinctCard(s: seq<int>)
    requires forall i, j :: 0 <= i < j < |s| ==> s[i] < s[j]
    ensures |set p | p in s| == |s|
  {
    if |s| > 0 {
      var rest := s[1..];
      DistinctCard(rest);
      assert s[0] !in rest by {
        forall j | 0 <= j < |rest| ensures rest[j] != s[0] {
          assert rest[j] == s[j + 1];
        }
      }
      assert (set p | p in s) == {s[0]} + (set p | p in rest) by {
        assert s == [s[0]] + rest;
      }
    }
  }

  // ---- Removing windows -----------------------------------------------------------

  /** The component's frequency. */
  function ComponentFreq(c: Component): int {
    match c
    case ChannelPart(o) => o.freq
    case IntermodPart(m) => m.Freq()
  }

  /** The clearance a candidate on equipment `eq` needs around a component: the
      larger of the two channel spacings for a channel, `eq`'s spacing for the
      product's type otherwise. */
  function ComponentSpacing(eq: Equipment, c: Component): (sp: int)
    ensures c.ChannelPart? ==> sp == Max(eq.ChannelSpacing(), c.channel.equipment.ChannelSpacing())
    ensures c.IntermodPart? ==> sp == eq.GetSpacing(c.intermod.imType)
  {
    match c
    case ChannelPart(o) => Max(eq.ChannelSpacing(), o.equipment.ChannelSpacing())
    case IntermodPart(m) => eq.GetSpacing(m.imType)
  }

  /** `removeConflictRange(component)` on the candidates for equipment `eq`, with
      `r` the range the early return tests. */
  function RemoveConflictRange(s: set<int>, eq: Equipment, r: Range, c: Component): (res: set<int>)
    requires eq.tuningAccuracy > 0
    ensures res <= s
    ensures InRange(s, r.lo, r.hi) ==>
              forall p :: p in res <==> p in s && !Covers(ComponentFreq(c), ComponentSpacing(eq, c), eq.tuningAccuracy, p)
  {
    var res := PruneWindow(s, r.lo, r.hi, eq.tuningAccuracy, ComponentFreq(c), ComponentSpacing(eq, c));
    if InRange(s, r.lo, r.hi) then
      PruneWindowExact(s, r.lo, r.hi, eq.tuningAccuracy, ComponentFreq(c), ComponentSpacing(eq, c));
      res
    else res
  }

  /** The window of a channel is exactly the set of grid frequencies at which a
      candidate `h` on equipment `eq` and that channel conflict, in one direction
      or the other. */
  lemma ChannelWindowIsClash(eq: Equipment, h: nat, o: Channel, p: int)
    requires eq.tuningAccuracy > 0 && p % eq.tuningAccuracy == 0
    requires h != o.handle
    ensures Covers(o.freq, ComponentSpacing(eq, ChannelPart(o)), eq.tuningAccuracy, p)
            <==> ChannelClash(Tx(h, p, eq.spacings), o.View()) || ChannelClash(o.View(), Tx(h, p, eq.spacings))
  {
  }

  /** The window of a product is exactly the set of grid frequencies at which a
      candidate `h` on equipment `eq`, not a generator of it, would be its victim. */
  lemma IntermodWindowIsClash(eq: Equipment, h: nat, m: Intermod, p: int)
    requires eq.tuningAccuracy > 0 && p % eq.tuningAccuracy == 0
    requires !m.GeneratedBy(h)
    ensures Covers(m.Freq(), ComponentSpacing(eq, IntermodPart(m)), eq.tuningAccuracy, p)
            <==> ImClash(Tx(h, p, eq.spacings), m)
  {
  }

  /** A grid point clear of every window is one where the candidate `h` conflicts
      with no listed channel in either direction and is the victim of no listed
      product, and the other way round. */
  lemma ClearIsConflictFree(eq: Equipment, h: nat, chs: seq<Channel>, ims: seq<Intermod>, p: int)
    requires eq.tuningAccuracy > 0 && p % eq.tuningAccuracy == 0
    requires forall i :: 0 <= i < |chs| ==> chs[i].handle != h
    requires forall j :: 0 <= j < |ims| ==> !ims[j].GeneratedBy(h)
    ensures ClearOfChannels(eq, chs, p)
            <==> forall i :: 0 <= i < |chs| ==>
                   !ChannelClash(Tx(h, p, eq.spacings), chs[i].View()) && !ChannelClash(chs[i].View(), Tx(h, p, eq.spacings))
    ensures ClearOfIntermods(eq, ims, p) <==> forall j :: 0 <= j < |ims| ==> !ImClash(Tx(h, p, eq.spacings), ims[j])
  {
    forall i | 0 <= i < |chs| {
      ChannelWindowIsClash(eq, h, chs[i], p);
    }
    forall j | 0 <= j < |ims| {
      IntermodWindowIsClash(eq, h, ims[j], p);
    }
  }

  /** The loops of `getPossibleFrequencies`, one component after another. */
  function RemoveAll(s: set<int>, eq: Equipment, r: Range, cs: seq<Component>): (res: set<int>)
    requires eq.tuningAccuracy > 0
    ensures res <= s
    ensures InRange(s, r.lo, r.hi) ==>
              forall p :: p in res <==> p in s && forall i :: 0 <= i < |cs| ==>
                !Covers(ComponentFreq(cs[i]), ComponentSpacing(eq, cs[i]), eq.tuningAccuracy, p)
    decreases |cs|
  {
    if |cs| == 0 then s
    else
      var s1 := RemoveConflictRange(s, eq, r, cs[0]);
      var res := RemoveAll(s1, eq, r, cs[1..]);
      assert forall i :: 1 <= i < |cs| ==> cs[i] == cs[1..][i - 1];
      res
  }

  /** The channels, then the products, as components. */
  function Components(chs: seq<Channel>, ims: seq<Intermod>): (cs: seq<Component>)
    ensures |cs| == |chs| + |ims|
    ensures forall i :: 0 <= i < |chs| ==> cs[i] == ChannelPart(chs[i])
    ensures forall j :: 0 <= j < |ims| ==> cs[|chs| + j] == IntermodPart(ims[j])
  {
    seq(|chs|, i requires 0 <= i < |chs| => ChannelPart(chs[i])) + seq(|ims|, j requires 0 <= j < |ims| => IntermodPart(ims[j]))
  }

  /** `getPossibleFrequencies(channels, intermods)`: the base set as written, less
      the window of every channel and then of every product. */
  function GetPossibleFrequencies(w: Wrapper, chs: seq<Channel>, ims: seq<Intermod>): (r: Result<Wrapper>)
    requires w.channel.equipment.tuningAccuracy > 0
    ensures r.Err? <==> w.channel.range.None?
    ensures r.Err? ==> r.error == NullReference
    ensures r.Ok? ==> r.value == w.(possible := r.value.possible) && r.value.possible.Some?
    ensures r.Ok? ==> r.value.possible.value <= BaseAsWritten(w.channel.range.value, w.channel.equipment.tuningAccuracy)
  {
    if w.channel.range.None? then Err(NullReference)
    else
      var rg := w.channel.range.value;
      Ok(w.(possible := Some(RemoveAll(BaseAsWritten(rg, w.channel.equipment.tuningAccuracy), w.channel.equipment, rg, Components(chs, ims)))))
  }

  /** No channel's window covers `p`, for a candidate on equipment `eq`. */
  predicate ClearOfChannels(eq: Equipment, chs: seq<Channel>, p: int) {
    forall i :: 0 <= i < |chs| ==> !Covers(chs[i].freq, ComponentSpacing(eq, ChannelPart(chs[i])), eq.tuningAccuracy, p)
  }

  /** No product's window covers `p`, for a candidate on equipment `eq`. */
  predicate ClearOfIntermods(eq: Equipment, ims: seq<Intermod>, p: int) {
    forall j :: 0 <= j < |ims| ==> !Covers(ims[j].Freq(), ComponentSpacing(eq, IntermodPart(ims[j])), eq.tuningAccuracy, p)
  }

  /** Removing the channels' windows and then the products' keeps exactly the
      candidates clear of both. */
  lemma RemoveAllComponents(s: set<int>, eq: Equipment, r: Range, chs: seq<Channel>, ims: seq<Intermod>, p: int)
    requires eq.tuningAccuracy > 0 && InRange(s, r.lo, r.hi)
    ensures p in RemoveAll(s, eq, r, Components(chs, ims))
            <==> p in s && ClearOfChannels(eq, chs, p) && ClearOfIntermods(eq, ims, p)
  {
    var cs := Components(chs, ims);
    var acc := eq.tuningAccuracy;
    var all := forall i :: 0 <= i < |cs| ==> !Covers(ComponentFreq(cs[i]), ComponentSpacing(eq, cs[i]), acc, p);
    assert all <==> ClearOfChannels(eq, chs, p) && ClearOfIntermods(eq, ims, p) by {
      if all {
        forall j | 0 <= j < |ims| ensures !Covers(ims[j].Freq(), ComponentSpacing(eq, IntermodPart(ims[j])), acc, p) {
          assert cs[|chs| + j] == IntermodPart(ims[j]);
        }
      }
      if ClearOfChannels(eq, chs, p) && ClearOfIntermods(eq, ims, p) {
        forall i | 0 <= i < |cs| ensures !Covers(ComponentFreq(cs[i]), ComponentSpacing(eq, cs[i]), acc, p) {
          if i >= |chs| {
            assert cs[|chs| + (i - |chs|)] == IntermodPart(ims[i - |chs|]);
          }
        }
      }
    }
  }

  /** A candidate survives exactly when it is a point of the base set as written
      that no channel's window and no product's window covers. The windows remove
      grid points only, so a point of the base set off the tuning grid always
      survives. */
  lemma GetPossibleExact(w: Wrapper, chs: seq<Channel>, ims: seq<Intermod>, p: int)
    requires w.channel.equipment.tuningAccuracy > 0 && w.channel.range.Some?
    ensures var eq, rg := w.channel.equipment, w.channel.range.value;
            p in GetPossibleFrequencies(w, chs, ims).value.possible.value
            <==> rg.lo <= p <= rg.hi && (p - rg.lo) % eq.tuningAccuracy == 0
                 && ClearOfChannels(eq, chs, p) && ClearOfIntermods(eq, ims, p)
    ensures var eq, rg := w.channel.equipment, w.channel.range.value;
            rg.lo <= p <= rg.hi && (p - rg.lo) % eq.tuningAccuracy == 0 && p % eq.tuningAccuracy != 0
            ==> p in GetPossibleFrequencies(w, chs, ims).value.possible.value
  {
    var eq, rg := w.channel.equipment, w.channel.range.value;
    RemoveAllComponents(BaseAsWritten(rg, eq.tuningAccuracy), eq, rg, chs, ims, p);
  }

  /** In the analyser's own terms: when the candidate is none of the listed
      channels and generates none of the listed products, a point of the base set
      survives exactly when it is off the grid or the candidate tuned there would
      conflict with no channel in either direction and be the victim of no
      product. */
  lemma GetPossibleConflictFree(w: Wrapper, chs: seq<Channel>, ims: seq<Intermod>, p: int)
    requires w.channel.equipment.tuningAccuracy > 0 && w.channel.range.Some?
    requires forall i :: 0 <= i < |chs| ==> chs[i].handle != w.channel.handle
    requires forall j :: 0 <= j < |ims| ==> !ims[j].GeneratedBy(w.channel.handle)
    ensures var at, rg, acc := w.channel.(freq := p).View(), w.channel.range.value, w.channel.equipment.tuningAccuracy;
            p in GetPossibleFrequencies(w, chs, ims).value.possible.value
            <==> rg.lo <= p <= rg.hi && (p - rg.lo) % acc == 0
                 && (p % acc == 0 ==>
                       (forall i :: 0 <= i < |chs| ==> !ChannelClash(at, chs[i].View()) && !ChannelClash(chs[i].View(), at))
                       && (forall j :: 0 <= j < |ims| ==> !ImClash(at, ims[j])))
  {
    GetPossibleExact(w, chs, ims, p);
    if p % w.channel.equipment.tuningAccuracy == 0 {
      ClearIsConflictFree(w.channel.equipment, w.channel.handle, chs, ims, p);
    }
  }

  /** When the range starts on the tuning grid, the candidates are exactly the grid
      points of the range at which the candidate would conflict with nothing. */
  lemma GetPossibleOnGrid(w: Wrapper, chs: seq<Channel>, ims: seq<Intermod>, p: int)
    requires w.channel.equipment.tuningAccuracy > 0 && w.channel.range.Some?
    requires w.channel.range.value.lo % w.channel.equipment.tuningAccuracy == 0
    requires forall i :: 0 <= i < |chs| ==> chs[i].handle != w.channel.handle
    requires forall j :: 0 <= j < |ims| ==> !ims[j].GeneratedBy(w.channel.handle)
    ensures var at, rg, acc := w.channel.(freq := p).View(), w.channel.range.value, w.channel.equipment.tuningAccuracy;
            p in GetPossibleFrequencies(w, chs, ims).value.possible.value
            <==> rg.lo <= p <= rg.hi && p % acc == 0
                 && (forall i :: 0 <= i < |chs| ==> !ChannelClash(at, chs[i].View()) && !ChannelClash(chs[i].View(), at))
                 && (forall j :: 0 <= j < |ims| ==> !ImClash(at, ims[j]))
  {
    GetPossibleConflictFree(w, chs, ims, p);
    OffsetMod(p, w.channel.range.value.lo, w.channel.equipment.tuningAccuracy);
  }

  // ---- Choosing a frequency ---------------------------------------------------------

  /** `setTestFrequency(randomSelection)`: a random candidate, or the smallest,
      becomes the proposal; the channel is retuned to it (which may be refused) and
      only then is it taken out of the candidates. With no candidates, the random
      pick's `nextInt(0)` is an illegal argument and `Collections.min` finds no
      element, both before anything is assigned. `after` is the wrapper once the
      call returns or throws: a refused frequency stays the proposal. */
  method SetTestFrequency(w: Wrapper, random: bool) returns (r: Result<Wrapper>, after: Wrapper)
    ensures w.possible.None? ==> r == Err(NullReference) && after == w
    ensures w.possible == Some({}) ==> r == Err(if random then IllegalArgument else NoSuchElement) && after == w
    ensures r.Ok? ==> after == r.value
    ensures r.Ok? ==> w.possible.Some? && r.value.proposed.Some? && r.value.maxPossible == w.maxPossible
    ensures r.Ok? ==> var f := r.value.proposed.value;
                      f in w.possible.value && r.value.possible == Some(w.possible.value - {f})
                      && |r.value.possible.value| == |w.possible.value| - 1
                      && SetFreq(w.channel, f) == Ok(r.value.channel)
    ensures r.Err? && w.possible.Some? && w.possible.value != {} ==>
              after.proposed.Some? && after.proposed.value in w.possible.value
              && after == w.(proposed := after.proposed)
              && SetFreq(w.channel, after.proposed.value) == Err(r.error)
    ensures r.Ok? && !random ==> forall q :: q in w.possible.value ==> r.value.proposed.value <= q
    ensures !random && w.possible.Some? && w.possible.value != {} ==>
              after.proposed == Some(SetMin(w.possible.value))
              && (r.Ok? <==> SetFreq(w.channel, SetMin(w.possible.value)).Ok?)
  {
    if w.possible.None? {
      return Err(NullReference), w;
    }
    var s := w.possible.value;
    if s == {} {
      return Err(if random then IllegalArgument else NoSuchElement), w;
    }
    var f: int;
    if random {
      HasElement(s);
      f :| f in s;
    } else {
      f := SetMin(s);
    }
    var proposing := w.(proposed := Some(f));
    var tuned := SetFreq(w.channel, f);
    if tuned.Err? {
      return Err(tuned.error), proposing;
    }
    var done := Wrapper(tuned.value, Some(f), Some(s - {f}), w.maxPossible);
    r, after := Ok(done), done;
  }

  /** `hasPossibleFrequencies`: whether any candidate is left. */
  function HasPossibleFrequencies(w: Wrapper): (r: Result<bool>)
    ensures w.possible.None? <==> r == Err(NullReference)
    ensures r.Ok? ==> (r.value <==> w.possible.value != {})
  {
    if w.possible.None? then Err(NullReference) else Ok(|w.possible.value| > 0)
  }

  /** `compareTo`: every two wrappers tie. */
  function CompareTo(a: Wrapper, b: Wrapper): (r: int)
    ensures r == 0
  {
    0
  }
}
