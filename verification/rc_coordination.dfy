/** The coordination of the older `rfcoordinator` package: channels kept in frequency
    order with ids from a counter, a product list re-sorted after every calculation,
    and a conflict list that `analyse` rebuilds from nothing after each new channel,
    copying every conflict into its victim's own list. The channel created for id `n`
    is the only object with that id, so the object handle of every record is its id. */
module RcCoordination {
  import opened Errors
  import opened Intermods
  import opened Conflicts
  import opened Calculations
  import opened Spacing
  import opened Detection
  import opened IntermodOrder
  import opened Products
  import opened RcEquipment
  import opened RcChannel
  import opened Coverage

  datatype Coordination = Coordination(channels: seq<Channel>, intermods: seq<Intermod>, conflicts: seq<Conflict>,
                                       idCounter: nat, flags: Calculations)

  /** A new coordination: nothing listed, the counter at zero, every product type
      calculated. */
  function NewCoordination(): (c: Coordination)
    ensures c.channels == [] && c.intermods == [] && c.conflicts == [] && c.idCounter == 0
    ensures forall t: ImType :: c.flags.Get(t)
  {
    Coordination([], [], [], 0, Default())
  }

  // ---- `analyse` as written -----------------------------------------------------

  /** The channel loop of `analyse` for the channel `cur`, from `pointer` on. It
      reports the channels that clash with `cur` as victim, and it moves the start of
      the next channel's loop (`start`, once `moved`) to the first channel closer below
      that next channel than the next channel's own spacing. It stops after the first
      channel at or beyond `cur`'s spacing. The result is the conflicts and the start
      for the next channel. */
  function ChannelPass(vs: seq<Tx>, cur: Tx, next: Option<Tx>, pointer: nat, start: nat, moved: bool): (r: (seq<Conflict>, nat))
    ensures forall k :: k in r.0 ==> exists q :: q in vs && k == ChannelConflict(cur.Ref(), q.Ref()) && ChannelClash(cur, q)
    decreases |vs| - pointer
  {
    if pointer >= |vs| then ([], start)
    else
      var q := vs[pointer];
      var setHere := !moved && next.Some? && next.value.freq - q.freq < next.value.spacings.channel;
      var start' := if setHere then pointer else start;
      var here := if ChannelClash(cur, q) then [ChannelConflict(cur.Ref(), q.Ref())] else [];
      if q.freq >= cur.freq + cur.spacings.channel then (here, start')
      else
        var rest := ChannelPass(vs, cur, next, pointer + 1, start', moved || setHere);
        (here + rest.0, rest.1)
  }

  /** The product loop of `analyse` for `cur`, from `pointer` on, in the same way: the
      next channel's start moves to the first product closer below it than its largest
      product clearance, or, failing that, to the product that ends this loop (the
      first at or beyond `cur`'s largest clearance). */
  function ImPass(ims: seq<Intermod>, cur: Tx, next: Option<Tx>, pointer: nat, start: nat, moved: bool): (r: (seq<Conflict>, nat))
    ensures forall k :: k in r.0 ==> k.IntermodConflict? && k.channel == cur.Ref()
                                     && k.conflictIntermod in ims && ImClash(cur, k.conflictIntermod)
    decreases |ims| - pointer
  {
    if pointer >= |ims| then ([], start)
    else
      var m := ims[pointer];
      var setHere := !moved && next.Some? && next.value.freq - m.Freq() < next.value.spacings.MaxIm();
      var start' := if setHere then pointer else start;
      var here := if ImClash(cur, m) then [IntermodConflict(cur.Ref(), m)] else [];
      if m.Freq() >= cur.freq + cur.spacings.MaxIm() then (here, if moved || setHere then start' else pointer)
      else
        var rest := ImPass(ims, cur, next, pointer + 1, start', moved || setHere);
        (here + rest.0, rest.1)
  }

  /** The outer loop of `analyse` from channel `i` on, the two loops of channel `i`
      starting where channel `i - 1` left their pointers. Whatever the pointers, every
      conflict it reports holds. */
  function AnalyseFrom(vs: seq<Tx>, ims: seq<Intermod>, i: nat, channelStart: nat, imStart: nat): (r: seq<Conflict>)
    ensures Sound(vs, ims, r)
    decreases |vs| - i
  {
    if i >= |vs| then []
    else
      var next := if i < |vs| - 1 then Some(vs[i + 1]) else None;
      var c := ChannelPass(vs, vs[i], next, channelStart, channelStart, false);
      var m := ImPass(ims, vs[i], next, imStart, imStart, false);
      var rest := AnalyseFrom(vs, ims, i + 1, c.1, m.1);
      PassesSound(vs, ims, vs[i], c.0, m.0);
      SoundAppend(vs, ims, c.0 + m.0, rest);
      c.0 + m.0 + rest
  }

  lemma PassesSound(vs: seq<Tx>, ims: seq<Intermod>, cur: Tx, cs: seq<Conflict>, ms: seq<Conflict>)
    requires cur in vs
    requires forall k :: k in cs ==> exists q :: q in vs && k == ChannelConflict(cur.Ref(), q.Ref()) && ChannelClash(cur, q)
    requires forall k :: k in ms ==> k.IntermodConflict? && k.channel == cur.Ref()
                                     && k.conflictIntermod in ims && ImClash(cur, k.conflictIntermod)
    ensures Sound(vs, ims, cs + ms)
  {
    forall k | k in cs + ms ensures Holds(vs, ims, k) {
      if k in cs {
        var q :| q in vs && k == ChannelConflict(cur.Ref(), q.Ref()) && ChannelClash(cur, q);
        assert Holds(vs, ims, k);
      }
    }
  }

  /** `analyse` as written, over the channel views in list order and the product list. */
  function AnalyseAsWritten(vs: seq<Tx>, ims: seq<Intermod>): (r: seq<Conflict>)
    ensures Sound(vs, ims, r)
  {
    AnalyseFrom(vs, ims, 0, 0, 0)
  }

  /** Channel A: 500.000 MHz with a 100 kHz channel spacing. */
  function ExampleA(): Tx {
    Tx(0, 500000, Spacings(100, 0, 0, 0, 0, 0))
  }

  /** Channel B: 500.200 MHz with a 10 kHz channel spacing. */
  function ExampleB(): Tx {
    Tx(1, 500200, Spacings(10, 0, 0, 0, 0, 0))
  }

  /** Channel C: 500.250 MHz with a 1000 kHz channel spacing. */
  function ExampleC(): Tx {
    Tx(2, 500250, Spacings(1000, 0, 0, 0, 0, 0))
  }

  /** The pointer windows of `analyse` miss a clash. C is 250 kHz above A, inside C's
      1000 kHz spacing, yet B's narrow spacing moved the start of the channel loop
      past A before C's turn, whatever the products. */
  lemma AsWrittenMissesClash(ims: seq<Intermod>)
    ensures ChannelClash(ExampleC(), ExampleA())
    ensures ChannelConflict(ExampleC().Ref(), ExampleA().Ref()) !in AnalyseAsWritten([ExampleA(), ExampleB(), ExampleC()], ims)
  {
    var a, b, c := ExampleA(), ExampleB(), ExampleC();
    var vs := [a, b, c];
    var missed := ChannelConflict(c.Ref(), a.Ref());
    var p0 := ChannelPass(vs, a, Some(b), 0, 0, false);
    assert ChannelPass(vs, a, Some(b), 1, 0, false) == ([], 1);
    assert p0.1 == 1;
    var p1 := ChannelPass(vs, b, Some(c), 1, 1, false);
    assert ChannelPass(vs, b, Some(c), 2, 1, true) == ([], 1);
    assert p1.1 == 1;
    var p2 := ChannelPass(vs, c, None, 1, 1, false);
    assert ChannelPass(vs, c, None, 3, 1, false) == ([], 1);
    assert ChannelPass(vs, c, None, 2, 1, false) == ([], 1);
    assert p2.0 == [ChannelConflict(c.Ref(), b.Ref())];
    var m0 := ImPass(ims, a, Some(b), 0, 0, false);
    var m1 := ImPass(ims, b, Some(c), m0.1, m0.1, false);
    var m2 := ImPass(ims, c, None, m1.1, m1.1, false);
    assert AnalyseFrom(vs, ims, 3, p2.1, m2.1) == [];
    var tail2 := AnalyseFrom(vs, ims, 2, p1.1, m1.1);
    assert tail2 == p2.0 + m2.0 + AnalyseFrom(vs, ims, 3, p2.1, m2.1);
    var tail1 := AnalyseFrom(vs, ims, 1, p0.1, m0.1);
    assert tail1 == p1.0 + m1.0 + tail2;
    assert AnalyseAsWritten(vs, ims) == p0.0 + m0.0 + tail1;
    assert missed !in p0.0 && missed !in p1.0 && missed !in p2.0;
    assert missed !in m0.0 && missed !in m1.0 && missed !in m2.0;
  }

  // ---- `analyse` as intended ------------------------------------------------------

  /** The channels of the list that clash with `cur` as victim, in list order. */
  function ChannelRow(vs: seq<Tx>, cur: Tx): (r: seq<Conflict>)
    ensures forall q :: q in vs && ChannelClash(cur, q) ==> ChannelConflict(cur.Ref(), q.Ref()) in r
    ensures forall k :: k in r ==> exists q :: q in vs && k == ChannelConflict(cur.Ref(), q.Ref()) && ChannelClash(cur, q)
  {
    if |vs| == 0 then []
    else
      var rest := ChannelRow(vs[1..], cur);
      assert forall q :: q in vs[1..] ==> q in vs;
      assert forall q :: q in vs ==> q == vs[0] || q in vs[1..];
      (if ChannelClash(cur, vs[0]) then [ChannelConflict(cur.Ref(), vs[0].Ref())] else []) + rest
  }

  /** Each channel of `rows` in turn as victim, against every channel of `vs` and then
      every product. */
  function AnalyseRows(rows: seq<Tx>, vs: seq<Tx>, ims: seq<Intermod>): (r: seq<Conflict>)
    decreases |rows|
  {
    if |rows| == 0 then []
    else ChannelRow(vs, rows[0]) + ImConflicts(rows[0], ims) + AnalyseRows(rows[1..], vs, ims)
  }

  /** What `analyse` evidently means to compute once its pointers are set right: each
      channel in list order as victim, against every other channel and every product
      (the pointers only save tests that cannot clash). */
  function AnalyseFull(vs: seq<Tx>, ims: seq<Intermod>): (r: seq<Conflict>)
    ensures Sound(vs, ims, r) && Complete(vs, ims, r)
  {
    RowsSound(vs, vs, ims);
    RowsComplete(vs, vs, ims);
    AnalyseRows(vs, vs, ims)
  }

  lemma {:induction false} RowsSound(rows: seq<Tx>, vs: seq<Tx>, ims: seq<Intermod>)
    requires forall v :: v in rows ==> v in vs
    ensures Sound(vs, ims, AnalyseRows(rows, vs, ims))
  {
    if |rows| > 0 {
      var cur := rows[0];
      assert forall v :: v in rows[1..] ==> v in rows;
      RowsSound(rows[1..], vs, ims);
      PassesSound(vs, ims, cur, ChannelRow(vs, cur), ImConflicts(cur, ims));
      SoundAppend(vs, ims, ChannelRow(vs, cur) + ImConflicts(cur, ims), AnalyseRows(rows[1..], vs, ims));
    }
  }

  lemma {:induction false} RowsComplete(rows: seq<Tx>, vs: seq<Tx>, ims: seq<Intermod>)
    ensures forall c, d :: c in rows && d in vs && ChannelClash(c, d) ==> ChannelConflict(c.Ref(), d.Ref()) in AnalyseRows(rows, vs, ims)
    ensures forall c, m :: c in rows && m in ims && ImClash(c, m) ==> IntermodConflict(c.Ref(), m) in AnalyseRows(rows, vs, ims)
  {
    if |rows| > 0 {
      RowsComplete(rows[1..], vs, ims);
      assert forall c :: c in rows ==> c == rows[0] || c in rows[1..];
    }
  }

  // ---- Recording ----------------------------------------------------------------

  /** Every record's own list is the conflicts of the engine's list with it as victim,
      in order. */
  predicate ListsMatch(chs: seq<Channel>, cs: seq<Conflict>) {
    forall ch :: ch in chs ==> ch.conflicts == OfVictim(cs, ch.handle)
  }

  /** `clearConflicts` and then each `addConflict` of `analyse`: the engine's list is
      `found`, and every record's own list the part of it with that record as victim. */
  function Record(chs: seq<Channel>, found: seq<Conflict>): (r: seq<Channel>)
    ensures |r| == |chs| && ListsMatch(r, found)
    ensures forall i :: 0 <= i < |chs| ==> r[i] == chs[i].(conflicts := r[i].conflicts)
  {
    seq(|chs|, i requires 0 <= i < |chs| => chs[i].(conflicts := OfVictim(found, chs[i].handle)))
  }

  /** A change to the conflict lists alone leaves what the checks and the products
      read. */
  lemma SameButConflicts(s: seq<Channel>, r: seq<Channel>)
    requires |r| == |s| && forall i :: 0 <= i < |s| ==> r[i] == s[i].(conflicts := r[i].conflicts)
    ensures Views(r) == Views(s) && Refs(r) == Refs(s)
    ensures Unique(s) ==> Unique(r)
    ensures FreqSorted(s) ==> FreqSorted(r)
    ensures forall ch :: ch in r ==> exists o :: o in s && ch == o.(conflicts := ch.conflicts)
  {
    assert Views(r) == Views(s);
    forall ch | ch in r ensures exists o :: o in s && ch == o.(conflicts := ch.conflicts) {
      var i :| 0 <= i < |r| && r[i] == ch;
      assert s[i] in s;
    }
  }

  // ---- Lookup -------------------------------------------------------------------

  /** `getChannelIndex`: the first position holding `id`, or -1. */
  function ChannelIndex(s: seq<Channel>, id: int): (r: int)
    ensures -1 <= r < |s|
    ensures r == -1 <==> forall k :: 0 <= k < |s| ==> s[k].id != id
    ensures r >= 0 ==> s[r].id == id && forall k :: 0 <= k < r ==> s[k].id != id
  {
    if |s| == 0 then -1
    else if s[0].id == id then 0
    else
      var t := ChannelIndex(s[1..], id);
      if t == -1 then -1 else t + 1
  }

  /** `getChannelById`: null when no channel has the id. */
  function ChannelById(c: Coordination, id: int): (r: Option<Channel>)
    ensures r.None? <==> forall k :: 0 <= k < |c.channels| ==> c.channels[k].id != id
    ensures r.Some? ==> r.value in c.channels && r.value.id == id
  {
    var i := ChannelIndex(c.channels, id);
    if i == -1 then None else Some(c.channels[i])
  }

  // ---- Operations ---------------------------------------------------------------

  /** `calculateIntermods(x)`: every product `x` forms with the other listed channels
      (told apart by id, which here is the object) is appended, and the whole list is
      sorted again. */
  function CalculateIntermods(ims: seq<Intermod>, x: Channel, chs: seq<Channel>, flags: Calculations): (r: seq<Intermod>)
    ensures multiset(r) == multiset(ims) + multiset(NewFrom(x.Ref(), Refs(chs), flags))
    ensures AllWellFormed(ims) ==> AllWellFormed(r) && Sorted(r)
  {
    var all := ims + NewFrom(x.Ref(), Refs(chs), flags);
    if AllWellFormed(ims) then
      assert AllWellFormed(all) by {
        forall i | 0 <= i < |all| ensures all[i].WellFormed() {
          if i >= |ims| {
            assert all[i] in NewFrom(x.Ref(), Refs(chs), flags);
          }
        }
      }
      SortSorted(all);
      SortKeepsWellFormed(all);
      Sort(all)
    else Sort(all)
  }

  lemma SortKeepsWellFormed(s: seq<Intermod>)
    requires AllWellFormed(s)
    ensures AllWellFormed(Sort(s))
  {
    var r := Sort(s);
    forall i | 0 <= i < |r| ensures r[i].WellFormed() {
      assert r[i] in multiset(s);
      var k :| 0 <= k < |s| && s[k] == r[i];
    }
  }

  /** `addChannel(frequency, equipment)`: a null equipment is an illegal argument and
      the constructor's errors pass through, leaving everything as it was. Otherwise
      the channel gets the next id, goes in before the first channel on a higher
      frequency, its products are calculated, everything is analysed again, and the
      counter moves on. The result is the new state and the id. */
  function AddChannel(c: Coordination, freq: int, equipment: Option<Equipment>): (r: Result<(Coordination, int)>)
    ensures equipment.None? ==> r == Err(IllegalArgument)
    ensures equipment.Some? ==> (r.Ok? <==> IsUntunable(freq, equipment.value) == Ok(false))
    ensures equipment.Some? && IsUntunable(freq, equipment.value) == Ok(true) ==> r == Err(InvalidFrequency)
    ensures r.Ok? ==> r.value.1 == c.idCounter && r.value.0.idCounter == c.idCounter + 1
    ensures r.Ok? ==> r.value.0.flags == c.flags && |r.value.0.channels| == |c.channels| + 1
    ensures r.Ok? ==> r.value.0.conflicts == AnalyseFull(Views(r.value.0.channels), r.value.0.intermods)
  {
    if equipment.None? then Err(IllegalArgument)
    else
      var id := c.idCounter;
      match NewChannel(id, Some(id), freq, equipment)
      case Err(e) => Err(e)
      case Ok(x) =>
        var chs := InsertInPlace(c.channels, x);
        var ims := CalculateIntermods(c.intermods, x, chs, c.flags);
        var found := AnalyseFull(Views(chs), ims);
        SameButConflicts(chs, Record(chs, found));
        Ok((Coordination(Record(chs, found), ims, found, id + 1, c.flags), id))
  }

  /** `updateChannel(id, frequency)`: an unknown id changes nothing and returns null;
      an untunable frequency fails and changes nothing. Otherwise the channel's products
      are dropped, the channel moves to its new place and its products are calculated
      again; the conflicts are not analysed again. */
  function UpdateFrequency(c: Coordination, id: int, freq: int): (r: Result<(Coordination, Option<Channel>)>)
    ensures ChannelIndex(c.channels, id) == -1 ==> r == Ok((c, None))
    ensures ChannelIndex(c.channels, id) >= 0 ==>
              (r.Ok? <==> IsUntunable(freq, c.channels[ChannelIndex(c.channels, id)].equipment) == Ok(false))
    ensures r.Ok? && r.value.1.Some? ==>
              var x := r.value.1.value;
              x == c.channels[ChannelIndex(c.channels, id)].(freq := freq) && x in r.value.0.channels
              && r.value.0.conflicts == c.conflicts && r.value.0.idCounter == c.idCounter && r.value.0.flags == c.flags
              && |r.value.0.channels| == |c.channels|
  {
    var i := ChannelIndex(c.channels, id);
    if i == -1 then Ok((c, None))
    else
      var ch := c.channels[i];
      match SetFreq(ch, freq)
      case Err(e) => Err(e)
      case Ok(x) =>
        var rest := RemoveAt(c.channels, i);
        var chs := InsertInPlace(rest, x);
        assert x in multiset(chs);
        var ims := CalculateIntermods(WithoutGenerator(c.intermods, ch.handle), x, chs, c.flags);
        Ok((c.(channels := chs, intermods := ims), Some(x)))
  }

  /** Replaces the record at position `i`. */
  function Replace(s: seq<Channel>, i: nat, x: Channel): (r: seq<Channel>)
    requires i < |s|
    ensures |r| == |s| && r[i] == x && forall k :: 0 <= k < |s| && k != i ==> r[k] == s[k]
  {
    s[i := x]
  }

  /** `updateChannel(id, name)`: the channel, renamed, or null for an unknown id. */
  function UpdateName(c: Coordination, id: int, name: string): (r: (Coordination, Option<Channel>))
    ensures ChannelIndex(c.channels, id) == -1 ==> r == (c, None)
    ensures ChannelIndex(c.channels, id) >= 0 ==>
              var i := ChannelIndex(c.channels, id);
              r.1 == Some(SetName(c.channels[i], name)) && r.0 == c.(channels := Replace(c.channels, i, r.1.value))
  {
    var i := ChannelIndex(c.channels, id);
    if i == -1 then (c, None)
    else
      var x := SetName(c.channels[i], name);
      (c.(channels := Replace(c.channels, i, x)), Some(x))
  }

  /** `updateChannel(id, equipment)`: null for an unknown id, whatever the equipment;
      otherwise `setEquipment`'s errors pass through, and on success the channel holds
      the new profile. Nothing is recalculated. */
  function UpdateEquipment(c: Coordination, id: int, equipment: Option<Equipment>): (r: Result<(Coordination, Option<Channel>)>)
    ensures ChannelIndex(c.channels, id) == -1 ==> r == Ok((c, None))
    ensures ChannelIndex(c.channels, id) >= 0 ==>
              var i := ChannelIndex(c.channels, id);
              && (equipment.None? ==> r == Err(IllegalArgument))
              && (r.Ok? <==> SetEquipment(c.channels[i], equipment).Ok?)
              && (r.Ok? ==> r.value.1 == Some(SetEquipment(c.channels[i], equipment).value)
                            && r.value.0 == c.(channels := Replace(c.channels, i, r.value.1.value)))
  {
    var i := ChannelIndex(c.channels, id);
    if i == -1 then Ok((c, None))
    else
      match SetEquipment(c.channels[i], equipment)
      case Err(e) => Err(e)
      case Ok(x) => Ok((c.(channels := Replace(c.channels, i, x)), Some(x)))
  }

  /** The record lists after `removeConflicts(h)`: each conflict involving `h` leaves
      its victim's list too. */
  function Unrecord(s: seq<Channel>, h: nat): (r: seq<Channel>)
    ensures |r| == |s|
    ensures forall i :: 0 <= i < |s| ==> r[i] == s[i].(conflicts := NotInvolving(s[i].conflicts, h))
  {
    seq(|s|, i requires 0 <= i < |s| => s[i].(conflicts := NotInvolving(s[i].conflicts, h)))
  }

  /** `removeChannel(id)`: null for an unknown id; otherwise the record goes, with the
      products it generates and every conflict that involves it, from the engine's list
      and from each victim's list. The removed channel is returned. */
  function RemoveChannel(c: Coordination, id: int): (r: (Coordination, Option<Channel>))
    ensures ChannelIndex(c.channels, id) == -1 ==> r == (c, None)
    ensures ChannelIndex(c.channels, id) >= 0 ==>
              var ch := c.channels[ChannelIndex(c.channels, id)];
              && r.1 == Some(ch.(conflicts := NotInvolving(ch.conflicts, ch.handle)))
              && |r.0.channels| == |c.channels| - 1
              && (forall m :: m in r.0.intermods <==> m in c.intermods && !m.GeneratedBy(ch.handle))
              && (forall k :: k in r.0.conflicts <==> k in c.conflicts && !k.Involves(ch.handle))
              && r.0.idCounter == c.idCounter && r.0.flags == c.flags
  {
    var i := ChannelIndex(c.channels, id);
    if i == -1 then (c, None)
    else
      var ch := c.channels[i];
      var h := ch.handle;
      WithoutGeneratorMembers(c.intermods, h);
      (c.(channels := Unrecord(RemoveAt(c.channels, i), h), intermods := WithoutGenerator(c.intermods, h),
          conflicts := NotInvolving(c.conflicts, h)),
       Some(ch.(conflicts := NotInvolving(ch.conflicts, h))))
  }

  // ---- Counters and flags -------------------------------------------------------

  /** `getNumConflictsOfType`. */
  function NumConflictsOfType(c: Coordination, kind: ConflictKind): (n: nat)
    ensures n <= |c.conflicts|
    ensures n == 0 <==> forall k :: k in c.conflicts ==> k.Kind() != kind
  {
    CountKind(c.conflicts, kind)
  }

  /** The three kinds together count every conflict (`getNumConflicts`). */
  lemma ConflictKindsSum(c: Coordination)
    ensures NumConflictsOfType(c, ChannelSpacing) + NumConflictsOfType(c, IntermodSpacing)
            + NumConflictsOfType(c, WhiteSpace) == |c.conflicts|
  {
    KindCountsSum(c.conflicts);
  }

  /** The setters `setCalculate2t3o` and so on: one flag changes, the others stay. */
  function SetCalculate(c: Coordination, t: ImType, value: bool): (r: Coordination)
    ensures r.flags.Get(t) == value
    ensures forall u: ImType :: u != t ==> r.flags.Get(u) == c.flags.Get(u)
    ensures r.(flags := c.flags) == c
  {
    c.(flags := c.flags.Set(t, value))
  }

  // ---- The invariant ------------------------------------------------------------

  /** What every operation keeps, `history` being the channel objects in the order
      their products were calculated: one frequency-sorted record per object, each
      object's handle its id and below the counter, a sorted product list that those
      calculations produced, and each record's list the part of the engine's list
      with it as victim. */
  ghost predicate Inv(c: Coordination, history: seq<ChannelRef>) {
    && Unique(c.channels) && FreqSorted(c.channels)
    && (forall ch :: ch in c.channels ==> ch.handle == ch.id && ch.id < c.idCounter)
    && UniqueHandles(history) && (forall r :: r in history <==> r in Refs(c.channels))
    && AllWellFormed(c.intermods) && Sorted(c.intermods)
    && multiset(c.intermods) == multiset(All(history, Refs(c.channels), c.flags))
    && ListsMatch(c.channels, c.conflicts)
  }

  /** The conflict list holds exactly the clashes among the channels and products. */
  ghost predicate Analysed(c: Coordination) {
    Sound(Views(c.channels), c.intermods, c.conflicts) && Complete(Views(c.channels), c.intermods, c.conflicts)
  }

  lemma NewCoordinationInv()
    ensures Inv(NewCoordination(), []) && Analysed(NewCoordination())
  {
  }

  /** On an empty coordination the flags may change freely. */
  lemma SetCalculateEmpty(c: Coordination, t: ImType, value: bool)
    requires Inv(c, []) && |c.channels| == 0
    ensures Inv(SetCalculate(c, t, value), [])
  {
  }

  /** The product count: `n` channels with `s` two-tone types and `t` three-tone types
      give `2s` products per pair and `3t` per triple. */
  lemma IntermodCount(c: Coordination, history: seq<ChannelRef>)
    requires Inv(c, history)
    ensures |c.intermods| == 2 * c.flags.TwoToneCount() * Pairs(|c.channels|) + 3 * c.flags.ThreeToneCount() * Triples(|c.channels|)
  {
    var all := All(history, Refs(c.channels), c.flags);
    UniqueRefs(c.channels);
    SameMembersSameLength(history, Refs(c.channels));
    AllCountSteps(history, Refs(c.channels), c.flags);
    assert |c.intermods| == |all| by {
      assert |multiset(c.intermods)| == |multiset(all)|;
    }
  }

  /** `addChannel` keeps the invariant, the new object joining the history, and leaves
      the conflict list exact whatever it was before. */
  lemma AddChannelInv(c: Coordination, history: seq<ChannelRef>, freq: int, equipment: Option<Equipment>)
    requires Inv(c, history)
    ensures var r := AddChannel(c, freq, equipment);
            r.Ok? ==> Inv(r.value.0, history + [ChannelRef(c.idCounter, freq)]) && Analysed(r.value.0)
  {
    var r := AddChannel(c, freq, equipment);
    if r.Ok? {
      var id := c.idCounter;
      var x := NewChannel(id, Some(id), freq, equipment).value;
      var chs := InsertInPlace(c.channels, x);
      var ims := CalculateIntermods(c.intermods, x, chs, c.flags);
      var found := AnalyseFull(Views(chs), ims);
      assert x.handle == x.id == id && x.Ref() == ChannelRef(id, freq);
      assert r.value.0 == Coordination(Record(chs, found), ims, found, id + 1, c.flags);
      AddPart(c, history, x);
      RecordKeepsInv(chs, ims, found, id + 1, c.flags, history + [x.Ref()]);
    }
  }

  /** The records and products once a new object is inserted and its products are
      calculated. */
  lemma AddPart(c: Coordination, history: seq<ChannelRef>, x: Channel)
    requires Inv(c, history) && x.handle == x.id == c.idCounter
    ensures var chs, h := InsertInPlace(c.channels, x), history + [x.Ref()];
            var ims := CalculateIntermods(c.intermods, x, chs, c.flags);
            && Unique(chs) && FreqSorted(chs)
            && (forall ch :: ch in chs ==> ch.handle == ch.id && ch.id < c.idCounter + 1)
            && UniqueHandles(h) && (forall r :: r in h <==> r in Refs(chs))
            && AllWellFormed(ims) && Sorted(ims)
            && multiset(ims) == multiset(All(h, Refs(chs), c.flags))
  {
    assert forall k :: 0 <= k < |c.channels| ==> c.channels[k].handle != x.handle by {
      forall k | 0 <= k < |c.channels| ensures c.channels[k].handle != x.handle {
        assert c.channels[k] in c.channels;
      }
    }
    UniqueInsert(c.channels, x);
    InsertKeepsSorted(c.channels, x);
    InsertMembers(c.channels, x);
    AddHistory(c.channels, history, x);
    AddProducts(c, history, x);
  }

  /** Recording a conflict list that was analysed over the records and products. */
  lemma RecordKeepsInv(chs: seq<Channel>, ims: seq<Intermod>, found: seq<Conflict>, n: nat, flags: Calculations,
                       h: seq<ChannelRef>)
    requires Unique(chs) && FreqSorted(chs)
    requires forall ch :: ch in chs ==> ch.handle == ch.id && ch.id < n
    requires UniqueHandles(h) && (forall r :: r in h <==> r in Refs(chs))
    requires AllWellFormed(ims) && Sorted(ims) && multiset(ims) == multiset(All(h, Refs(chs), flags))
    requires found == AnalyseFull(Views(chs), ims)
    ensures Inv(Coordination(Record(chs, found), ims, found, n, flags), h)
    ensures Analysed(Coordination(Record(chs, found), ims, found, n, flags))
  {
    var r := Record(chs, found);
    SameButConflicts(chs, r);
    forall ch | ch in r ensures ch.handle == ch.id && ch.id < n {
      var o :| o in chs && ch == o.(conflicts := ch.conflicts);
    }
  }

  lemma AddHistory(s: seq<Channel>, history: seq<ChannelRef>, x: Channel)
    requires UniqueHandles(history) && (forall r :: r in history <==> r in Refs(s))
    requires forall k :: 0 <= k < |s| ==> s[k].handle != x.handle
    ensures UniqueHandles(history + [x.Ref()])
    ensures forall r :: r in history + [x.Ref()] <==> r in Refs(InsertInPlace(s, x))
    ensures x.Ref() !in history
  {
    var p := InsertIndex(s, x.freq);
    var r := Refs(s);
    RefsInsert(s, x);
    assert r == r[..p] + r[p..];
    forall c | c in history ensures c.handle != x.handle {
      var k :| 0 <= k < |r| && r[k] == c;
    }
  }

  lemma AddProducts(c: Coordination, history: seq<ChannelRef>, x: Channel)
    requires (forall r :: r in history <==> r in Refs(c.channels)) && x.Ref() !in history
    requires multiset(c.intermods) == multiset(All(history, Refs(c.channels), c.flags))
    ensures var chs := InsertInPlace(c.channels, x);
            multiset(CalculateIntermods(c.intermods, x, chs, c.flags)) == multiset(All(history + [x.Ref()], Refs(chs), c.flags))
  {
    var p := InsertIndex(c.channels, x.freq);
    RefsInsert(c.channels, x);
    AddToAll(history, Refs(c.channels), p, x.Ref(), c.flags);
  }

  /** Filtering by victim and dropping what involves `h` can go in either order. */
  lemma {:induction false} FiltersCommute(cs: seq<Conflict>, v: nat, h: nat)
    ensures NotInvolving(OfVictim(cs, v), h) == OfVictim(NotInvolving(cs, h), v)
  {
    if |cs| > 0 {
      FiltersCommute(cs[1..], v, h);
      var k := cs[0];
      var here := if k.channel.handle == v then [k] else [];
      NotInvolvingAppend(here, OfVictim(cs[1..], v), h);
      OfVictimAppend(if k.Involves(h) then [] else [k], NotInvolving(cs[1..], h), v);
    }
  }

  lemma NotInvolvingAppend(p: seq<Conflict>, q: seq<Conflict>, h: nat)
    requires |p| <= 1
    ensures NotInvolving(p + q, h) == NotInvolving(p, h) + NotInvolving(q, h)
  {
    if |p| == 1 {
      assert (p + q)[1..] == q && p[1..] == [];
      assert NotInvolving(p, h) == (if p[0].Involves(h) then [] else [p[0]]) + NotInvolving([], h);
    } else {
      assert p + q == q;
    }
  }

  lemma OfVictimAppend(p: seq<Conflict>, q: seq<Conflict>, v: nat)
    requires |p| <= 1
    ensures OfVictim(p + q, v) == OfVictim(p, v) + OfVictim(q, v)
  {
    if |p| == 1 {
      assert (p + q)[1..] == q && p[1..] == [];
      assert OfVictim(p, v) == (if p[0].channel.handle == v then [p[0]] else []) + OfVictim([], v);
    } else {
      assert p + q == q;
    }
  }

  /** `removeChannel` keeps the invariant, the object leaving the history; an unknown
      id changes nothing. */
  lemma RemoveChannelInv(c: Coordination, history: seq<ChannelRef>, id: int)
    requires Inv(c, history)
    ensures var r := RemoveChannel(c, id);
            Inv(r.0, if r.1.Some? then DropHandle(history, r.1.value.handle) else history)
  {
    var i := ChannelIndex(c.channels, id);
    if i >= 0 {
      var h := c.channels[i].handle;
      var rest := RemoveAt(c.channels, i);
      var b := c.(channels := Unrecord(rest, h), intermods := WithoutGenerator(c.intermods, h),
                  conflicts := NotInvolving(c.conflicts, h));
      assert RemoveChannel(c, id).0 == b && RemoveChannel(c, id).1.value.handle == h;
      RemoveKeepsInv(c, history, i, b);
    }
  }

  lemma RemoveKeepsInv(c: Coordination, history: seq<ChannelRef>, i: nat, b: Coordination)
    requires Inv(c, history) && i < |c.channels|
    requires var h := c.channels[i].handle;
             b == c.(channels := Unrecord(RemoveAt(c.channels, i), h), intermods := WithoutGenerator(c.intermods, h),
                     conflicts := NotInvolving(c.conflicts, h))
    ensures Inv(b, DropHandle(history, c.channels[i].handle))
  {
    var h := c.channels[i].handle;
    var rest := RemoveAt(c.channels, i);
    RemoveAtKeeps(c.channels, i);
    RefsRemoveAt(c.channels, i);
    UnrecordKeeps(rest, h, c.conflicts);
    RemoveHistory(c.channels, history, rest, h);
    RemoveProducts(c, history, rest, h);
    RemoveSorted(c.intermods, h);
    RemoveIds(c, rest, b.channels);
    assert ListsMatch(rest, c.conflicts);
    var h2 := DropHandle(history, h);
    assert Unique(b.channels) && FreqSorted(b.channels);
    assert forall ch :: ch in b.channels ==> ch.handle == ch.id && ch.id < b.idCounter;
    assert UniqueHandles(h2) && (forall r :: r in h2 <==> r in Refs(b.channels));
    assert AllWellFormed(b.intermods) && Sorted(b.intermods);
    assert multiset(b.intermods) == multiset(All(h2, Refs(b.channels), b.flags));
    assert ListsMatch(b.channels, b.conflicts);
  }

  lemma RemoveIds(c: Coordination, rest: seq<Channel>, r: seq<Channel>)
    requires forall ch :: ch in c.channels ==> ch.handle == ch.id && ch.id < c.idCounter
    requires multiset(rest) <= multiset(c.channels)
    requires forall ch :: ch in r ==> exists o :: o in rest && ch == o.(conflicts := ch.conflicts)
    ensures forall ch :: ch in r ==> ch.handle == ch.id && ch.id < c.idCounter
    ensures ListsMatch(c.channels, c.conflicts) ==> ListsMatch(rest, c.conflicts)
  {
    forall o | o in rest ensures o in c.channels {
      assert o in multiset(rest);
    }
  }

  /** Filtering every record's list keeps the records' lists matching the filtered
      engine list. */
  lemma UnrecordKeeps(s: seq<Channel>, h: nat, cs: seq<Conflict>)
    ensures Views(Unrecord(s, h)) == Views(s) && Refs(Unrecord(s, h)) == Refs(s)
    ensures Unique(s) ==> Unique(Unrecord(s, h))
    ensures FreqSorted(s) ==> FreqSorted(Unrecord(s, h))
    ensures ListsMatch(s, cs) ==> ListsMatch(Unrecord(s, h), NotInvolving(cs, h))
    ensures forall ch :: ch in Unrecord(s, h) ==> exists o :: o in s && ch == o.(conflicts := ch.conflicts)
  {
    var r := Unrecord(s, h);
    SameButConflicts(s, r);
    if ListsMatch(s, cs) {
      forall ch | ch in r ensures ch.conflicts == OfVictim(NotInvolving(cs, h), ch.handle) {
        var i :| 0 <= i < |r| && r[i] == ch;
        assert s[i] in s;
        FiltersCommute(cs, s[i].handle, h);
      }
    }
  }

  lemma RemoveHistory(s: seq<Channel>, history: seq<ChannelRef>, rest: seq<Channel>, h: nat)
    requires UniqueHandles(history) && (forall c :: c in history <==> c in Refs(s))
    requires Refs(rest) == DropHandle(Refs(s), h)
    ensures UniqueHandles(DropHandle(history, h))
    ensures forall c :: c in DropHandle(history, h) <==> c in Refs(rest)
  {
    DropHandleUnique(history, h);
    DropHandleMembers(history, h);
    DropHandleMembers(Refs(s), h);
  }

  lemma RemoveProducts(c: Coordination, history: seq<ChannelRef>, rest: seq<Channel>, h: nat)
    requires multiset(c.intermods) == multiset(All(history, Refs(c.channels), c.flags))
    requires Refs(rest) == DropHandle(Refs(c.channels), h)
    ensures multiset(WithoutGenerator(c.intermods, h)) == multiset(All(DropHandle(history, h), Refs(rest), c.flags))
  {
    WithoutGeneratorPermutation(c.intermods, All(history, Refs(c.channels), c.flags), h);
    RemoveFromAll(history, Refs(c.channels), h, c.flags);
  }

  lemma RemoveSorted(ims: seq<Intermod>, h: nat)
    requires AllWellFormed(ims) && Sorted(ims)
    ensures AllWellFormed(WithoutGenerator(ims, h)) && Sorted(WithoutGenerator(ims, h))
  {
    WithoutGeneratorSorted(ims, h);
    WithoutGeneratorMembers(ims, h);
    var r := WithoutGenerator(ims, h);
    forall i | 0 <= i < |r| ensures r[i].WellFormed() {
      assert r[i] in ims;
    }
  }

  /** `removeChannel` keeps the conflict list exact. */
  lemma RemoveChannelAnalysed(c: Coordination, history: seq<ChannelRef>, id: int)
    requires Inv(c, history) && Analysed(c)
    ensures Analysed(RemoveChannel(c, id).0)
  {
    var i := ChannelIndex(c.channels, id);
    if i >= 0 {
      var h := c.channels[i].handle;
      var rest := RemoveAt(c.channels, i);
      ViewsRemoveAt(c.channels, i);
      UnrecordKeeps(rest, h, c.conflicts);
      RemoveSound(Views(c.channels), c.intermods, c.conflicts, Views(rest), h);
      RemoveComplete(Views(c.channels), c.intermods, c.conflicts, Views(rest), h);
    }
  }

  /** The channel `removeChannel` returns holds no conflicts any more. */
  lemma RemovedChannelCleared(c: Coordination, history: seq<ChannelRef>, id: int)
    requires Inv(c, history)
    ensures var r := RemoveChannel(c, id); r.1.Some? ==> r.1.value.conflicts == []
  {
    var i := ChannelIndex(c.channels, id);
    if i >= 0 {
      var ch := c.channels[i];
      assert ch in c.channels;
      FiltersCommute(c.conflicts, ch.handle, ch.handle);
      assert forall k :: k in NotInvolving(c.conflicts, ch.handle) ==> k.channel.handle != ch.handle;
      CleanVictim(NotInvolving(c.conflicts, ch.handle), ch.handle);
    }
  }

  lemma {:induction false} CleanVictim(cs: seq<Conflict>, h: nat)
    requires forall k :: k in cs ==> k.channel.handle != h
    ensures OfVictim(cs, h) == []
  {
    if |cs| > 0 {
      assert cs[0] in cs;
      assert forall k :: k in cs[1..] ==> k in cs;
      CleanVictim(cs[1..], h);
    }
  }

  /** `updateChannel(id, frequency)` keeps the invariant, the object's old reference
      leaving the history and its new one joining it at the end. */
  lemma UpdateFrequencyInv(c: Coordination, history: seq<ChannelRef>, id: int, freq: int)
    requires Inv(c, history)
    ensures var r := UpdateFrequency(c, id, freq);
            r.Ok? && r.value.1.Some? ==>
              Inv(r.value.0, DropHandle(history, r.value.1.value.handle) + [r.value.1.value.Ref()])
  {
    var r := UpdateFrequency(c, id, freq);
    if r.Ok? && r.value.1.Some? {
      var i := ChannelIndex(c.channels, id);
      var x := c.channels[i].(freq := freq);
      var chs := InsertInPlace(RemoveAt(c.channels, i), x);
      var b := c.(channels := chs,
                  intermods := CalculateIntermods(WithoutGenerator(c.intermods, x.handle), x, chs, c.flags));
      assert r.value.0 == b && r.value.1.value == x;
      MoveKeepsInv(c, history, i, x, b);
    }
  }

  /** The records left after removing position `i` are other objects of the list. */
  lemma RestFacts(s: seq<Channel>, i: nat)
    requires Unique(s) && i < |s|
    ensures forall o :: o in RemoveAt(s, i) ==> o in s && o.handle != s[i].handle
  {
    var rest := RemoveAt(s, i);
    forall o | o in rest ensures o in s && o.handle != s[i].handle {
      var k :| 0 <= k < |rest| && rest[k] == o;
      if k < i {
        assert o == s[k];
      } else {
        assert o == s[k + 1];
      }
    }
  }

  lemma MoveKeepsInv(c: Coordination, history: seq<ChannelRef>, i: nat, x: Channel, b: Coordination)
    requires Inv(c, history) && i < |c.channels| && x == c.channels[i].(freq := x.freq)
    requires var chs := InsertInPlace(RemoveAt(c.channels, i), x);
             b == c.(channels := chs,
                     intermods := CalculateIntermods(WithoutGenerator(c.intermods, x.handle), x, chs, c.flags))
    ensures Inv(b, DropHandle(history, x.handle) + [x.Ref()])
  {
    var h := x.handle;
    RemovePart(c, history, i);
    InsertFreshKeepsInv(RemoveAt(c.channels, i), DropHandle(history, h), WithoutGenerator(c.intermods, h), x, c, b);
  }

  /** What is left once the record at `i` and its products have gone. */
  lemma RemovePart(c: Coordination, history: seq<ChannelRef>, i: nat)
    requires Inv(c, history) && i < |c.channels|
    ensures var rest, x, h2 := RemoveAt(c.channels, i), c.channels[i], DropHandle(history, c.channels[i].handle);
            && Unique(rest) && FreqSorted(rest)
            && (forall o :: o in rest ==> o.handle == o.id && o.id < c.idCounter && o.handle != x.handle)
            && x.handle == x.id && x.id < c.idCounter
            && UniqueHandles(h2) && (forall r :: r in h2 <==> r in Refs(rest))
            && AllWellFormed(WithoutGenerator(c.intermods, x.handle))
            && multiset(WithoutGenerator(c.intermods, x.handle)) == multiset(All(h2, Refs(rest), c.flags))
            && ListsMatch(rest, c.conflicts) && x.conflicts == OfVictim(c.conflicts, x.handle)
  {
    var ch := c.channels[i];
    var h := ch.handle;
    var rest := RemoveAt(c.channels, i);
    assert ch in c.channels;
    RemoveAtKeeps(c.channels, i);
    RefsRemoveAt(c.channels, i);
    RemoveHistory(c.channels, history, rest, h);
    RemoveProducts(c, history, rest, h);
    RemoveSorted(c.intermods, h);
    RestFacts(c.channels, i);
    ListsMatchRemoveAt(c.channels, i, c.conflicts);
  }

  /** Putting a record back, as a new reference of the same object, into a list the
      object has left. */
  lemma InsertFreshKeepsInv(rest: seq<Channel>, h2: seq<ChannelRef>, ims: seq<Intermod>, x: Channel,
                            c: Coordination, b: Coordination)
    requires Unique(rest) && FreqSorted(rest)
    requires forall o :: o in rest ==> o.handle == o.id && o.id < c.idCounter && o.handle != x.handle
    requires x.handle == x.id && x.id < c.idCounter
    requires UniqueHandles(h2) && forall r :: r in h2 <==> r in Refs(rest)
    requires AllWellFormed(ims) && multiset(ims) == multiset(All(h2, Refs(rest), c.flags))
    requires ListsMatch(rest, c.conflicts) && x.conflicts == OfVictim(c.conflicts, x.handle)
    requires var chs := InsertInPlace(rest, x);
             b == c.(channels := chs, intermods := CalculateIntermods(ims, x, chs, c.flags))
    ensures Inv(b, h2 + [x.Ref()])
  {
    assert forall k :: 0 <= k < |rest| ==> rest[k].handle != x.handle by {
      forall k | 0 <= k < |rest| ensures rest[k].handle != x.handle {
        assert rest[k] in rest;
      }
    }
    UniqueInsert(rest, x);
    InsertKeepsSorted(rest, x);
    AddHistory(rest, h2, x);
    AddProducts(c.(channels := rest, intermods := ims), h2, x);
    InsertMembers(rest, x);
    ListsMatchInsert(rest, x, c.conflicts);
  }

  lemma ListsMatchRemoveAt(s: seq<Channel>, i: nat, cs: seq<Conflict>)
    requires ListsMatch(s, cs) && i < |s|
    ensures ListsMatch(RemoveAt(s, i), cs)
  {
    forall o | o in RemoveAt(s, i) ensures o in s {
      assert o in multiset(RemoveAt(s, i));
    }
  }

  lemma ListsMatchInsert(s: seq<Channel>, x: Channel, cs: seq<Conflict>)
    requires ListsMatch(s, cs) && x.conflicts == OfVictim(cs, x.handle)
    ensures ListsMatch(InsertInPlace(s, x), cs)
  {
    forall o | o in InsertInPlace(s, x) ensures o in s || o == x {
      assert o in multiset(InsertInPlace(s, x));
    }
  }

  /** Renaming keeps the invariant and the conflict list exact: neither reads names. */
  lemma UpdateNameInv(c: Coordination, history: seq<ChannelRef>, id: int, name: string)
    requires Inv(c, history)
    ensures Inv(UpdateName(c, id, name).0, history)
    ensures Analysed(c) ==> Analysed(UpdateName(c, id, name).0)
  {
    var i := ChannelIndex(c.channels, id);
    if i >= 0 {
      var x := SetName(c.channels[i], name);
      ReplaceKeeps(c, i, x);
    }
  }

  /** A new profile keeps the invariant: the products read only frequencies. The
      conflict list is not analysed again, so it may no longer be exact. */
  lemma UpdateEquipmentInv(c: Coordination, history: seq<ChannelRef>, id: int, equipment: Option<Equipment>)
    requires Inv(c, history)
    ensures var r := UpdateEquipment(c, id, equipment); r.Ok? ==> Inv(r.value.0, history)
  {
    var i := ChannelIndex(c.channels, id);
    if i >= 0 && SetEquipment(c.channels[i], equipment).Ok? {
      var x := SetEquipment(c.channels[i], equipment).value;
      ReplaceKeeps(c, i, x);
    }
  }

  /** Replacing a record by one that differs only in name or equipment. */
  lemma ReplaceKeeps(c: Coordination, i: nat, x: Channel)
    requires i < |c.channels|
    requires x.handle == c.channels[i].handle && x.id == c.channels[i].id && x.freq == c.channels[i].freq
    requires x.conflicts == c.channels[i].conflicts
    ensures var s := Replace(c.channels, i, x);
            Refs(s) == Refs(c.channels)
            && (Unique(c.channels) ==> Unique(s)) && (FreqSorted(c.channels) ==> FreqSorted(s))
            && ((forall ch :: ch in c.channels ==> ch.handle == ch.id && ch.id < c.idCounter) ==>
                  forall ch :: ch in s ==> ch.handle == ch.id && ch.id < c.idCounter)
            && (ListsMatch(c.channels, c.conflicts) ==> ListsMatch(s, c.conflicts))
            && (x.equipment == c.channels[i].equipment ==> Views(s) == Views(c.channels))
  {
    var s := Replace(c.channels, i, x);
    assert Refs(s) == Refs(c.channels);
    assert forall ch :: ch in s ==> ch in c.channels || ch == x by {
      forall ch | ch in s ensures ch in c.channels || ch == x {
        var k :| 0 <= k < |s| && s[k] == ch;
      }
    }
    assert c.channels[i] in c.channels;
    if x.equipment == c.channels[i].equipment {
      assert Views(s) == Views(c.channels);
    }
  }

  /** After `addChannel`, no conflict is a white-space conflict, so the three counters
      are the channel and product counters alone. */
  lemma NoWhiteSpaceWhenAnalysed(c: Coordination)
    requires Analysed(c)
    ensures NumConflictsOfType(c, WhiteSpace) == 0
    ensures NumConflictsOfType(c, ChannelSpacing) + NumConflictsOfType(c, IntermodSpacing) == |c.conflicts|
  {
    SoundHasNoWhiteSpace(Views(c.channels), c.intermods, c.conflicts);
    KindCountsSum(c.conflicts);
  }
}
