/** The state of the rfxp `Analyser` and its bookkeeping: the counters and the
    invalid-channel count it keeps in step with the channels' own conflict lists,
    and the two primitive updates `addConflict` and `removeConflict`. */
module XpState {
  import opened Intermods
  import opened Conflicts
  import opened Calculations
  import opened XpChannel

  /** `numChannelConflicts` and the five entries of the `numIMConflicts` map. */
  datatype Counters = Counters(channel: int, im2t3o: int, im2t5o: int, im2t7o: int, im2t9o: int, im3t3o: int) {

    /** `numIMConflicts.get(t)`. */
    function Im(t: ImType): int {
      match t
      case IM2T3O => im2t3o
      case IM2T5O => im2t5o
      case IM2T7O => im2t7o
      case IM2T9O => im2t9o
      case IM3T3O => im3t3o
    }

    /** `incrementConflictCounter(conflict, d)` (see `BumpMoves`). */
    function Bump(c: Conflict, d: int): Counters
    {
      match c
      case ChannelConflict(_, _) => this.(channel := channel + d)
      case IntermodConflict(_, m) => (
        match m.imType
        case IM2T3O => this.(im2t3o := im2t3o + d)
        case IM2T5O => this.(im2t5o := im2t5o + d)
        case IM2T7O => this.(im2t7o := im2t7o + d)
        case IM2T9O => this.(im2t9o := im2t9o + d)
        case IM3T3O => this.(im3t3o := im3t3o + d))
      case WhiteSpaceConflict(_) => this
    }
  }

  /** The counters the constructor puts in place. */
  function Zero(): (r: Counters)
    ensures r.channel == 0 && forall t :: r.Im(t) == 0
  {
    Counters(0, 0, 0, 0, 0, 0)
  }

  /** A channel-spacing conflict moves the channel counter, an intermod-spacing
      conflict the counter of its product's type, and a white-space conflict nothing. */
  lemma BumpMoves(x: Counters, c: Conflict, d: int)
    ensures c.ChannelConflict? ==> x.Bump(c, d).channel == x.channel + d && forall t :: x.Bump(c, d).Im(t) == x.Im(t)
    ensures c.IntermodConflict? ==> x.Bump(c, d).channel == x.channel
    ensures c.IntermodConflict? ==>
      forall t :: x.Bump(c, d).Im(t) == x.Im(t) + (if t == c.conflictIntermod.imType then d else 0)
    ensures c.WhiteSpaceConflict? ==> x.Bump(c, d) == x
  {
  }

  /** The counters that describe a conflict list exactly: `incrementConflictCounter(c, 1)`
      for each conflict in turn. */
  function CountersOf(s: seq<Conflict>): Counters
    decreases |s|
  {
    if |s| == 0 then Zero() else CountersOf(s[..|s| - 1]).Bump(s[|s| - 1], 1)
  }

  lemma {:induction false} CountChannelAppend(a: seq<Conflict>, b: seq<Conflict>)
    ensures CountChannel(a + b) == CountChannel(a) + CountChannel(b)
  {
    if |a| > 0 {
      assert (a + b)[0] == a[0] && (a + b)[1..] == a[1..] + b;
      CountChannelAppend(a[1..], b);
    } else {
      assert a + b == b;
    }
  }

  lemma {:induction false} CountIntermodAppend(a: seq<Conflict>, b: seq<Conflict>, t: ImType)
    ensures CountIntermod(a + b, t) == CountIntermod(a, t) + CountIntermod(b, t)
  {
    if |a| > 0 {
      assert (a + b)[0] == a[0] && (a + b)[1..] == a[1..] + b;
      CountIntermodAppend(a[1..], b, t);
    } else {
      assert a + b == b;
    }
  }

  /** The channel counter counts the channel-spacing conflicts and each product-type
      counter the intermod-spacing conflicts of that type. */
  lemma {:induction false} CountersOfCounts(s: seq<Conflict>)
    ensures CountersOf(s).channel == CountChannel(s)
    ensures forall t :: CountersOf(s).Im(t) == CountIntermod(s, t)
    decreases |s|
  {
    if |s| > 0 {
      var p, c := s[..|s| - 1], s[|s| - 1];
      CountersOfCounts(p);
      assert s == p + [c];
      assert [c][1..] == [];
      CountChannelAppend(p, [c]);
      BumpMoves(CountersOf(p), c, 1);
      forall t ensures CountersOf(s).Im(t) == CountIntermod(s, t) {
        CountIntermodAppend(p, [c], t);
      }
    }
  }

  /** Appending a conflict moves the exact counters as `incrementConflictCounter(c, 1)` does. */
  lemma CountersOfSnoc(s: seq<Conflict>, c: Conflict)
    ensures CountersOf(s + [c]) == CountersOf(s).Bump(c, 1)
  {
    assert (s + [c])[..|s + [c]| - 1] == s;
  }

  lemma BumpCommute(x: Counters, c: Conflict, d: int, k: Conflict, e: int)
    ensures x.Bump(c, d).Bump(k, e) == x.Bump(k, e).Bump(c, d)
  {
  }

  lemma BumpCancel(x: Counters, c: Conflict)
    ensures x.Bump(c, 1).Bump(c, -1) == x
  {
  }

  /** Taking one conflict out of a list moves the exact counters as
      `incrementConflictCounter(c, -1)` does. */
  lemma {:induction false} CountersOfDrop(a: seq<Conflict>, c: Conflict, b: seq<Conflict>)
    ensures CountersOf(a + [c] + b).Bump(c, -1) == CountersOf(a + b)
    decreases |b|
  {
    if |b| == 0 {
      assert a + [c] + b == a + [c] && a + b == a;
      CountersOfSnoc(a, c);
      BumpCancel(CountersOf(a), c);
    } else {
      var q, x := b[..|b| - 1], b[|b| - 1];
      assert a + [c] + b == (a + [c] + q) + [x];
      assert a + b == (a + q) + [x];
      CountersOfSnoc(a + [c] + q, x);
      CountersOfSnoc(a + q, x);
      CountersOfDrop(a, c, q);
      BumpCommute(CountersOf(a + [c] + q), x, 1, c, -1);
    }
  }

  /** 1 for a channel that is not VALID. */
  function NotValid(c: Channel): (n: nat)
    ensures n == 0 <==> c.Validity() == Valid
    ensures n == 0 <==> |c.conflicts| == 0
  {
    if |c.conflicts| == 0 then 0 else 1
  }

  /** The number of channels that are not VALID. */
  function CountNotValid(s: seq<Channel>): (n: nat)
    ensures n <= |s|
  {
    if |s| == 0 then 0 else NotValid(s[0]) + CountNotValid(s[1..])
  }

  lemma {:induction false} CountNotValidAppend(a: seq<Channel>, b: seq<Channel>)
    ensures CountNotValid(a + b) == CountNotValid(a) + CountNotValid(b)
  {
    if |a| > 0 {
      assert (a + b)[0] == a[0] && (a + b)[1..] == a[1..] + b;
      CountNotValidAppend(a[1..], b);
    } else {
      assert a + b == b;
    }
  }

  /** Changing one channel's validity changes the count by that channel alone. */
  lemma {:induction false} CountNotValidUpdate(p: seq<Channel>, q: seq<Channel>, j: nat)
    requires |p| == |q| && j < |p|
    requires forall i :: 0 <= i < |p| && i != j ==> p[i].Validity() == q[i].Validity()
    ensures CountNotValid(q) == CountNotValid(p) - NotValid(p[j]) + NotValid(q[j])
  {
    if j > 0 {
      CountNotValidUpdate(p[1..], q[1..], j - 1);
      assert p[0].Validity() == q[0].Validity();
    } else {
      CountNotValidSame(p[1..], q[1..]);
    }
  }

  lemma {:induction false} CountNotValidSame(p: seq<Channel>, q: seq<Channel>)
    requires |p| == |q|
    requires forall i :: 0 <= i < |p| ==> p[i].Validity() == q[i].Validity()
    ensures CountNotValid(q) == CountNotValid(p)
  {
    if |p| > 0 {
      CountNotValidSame(p[1..], q[1..]);
      assert p[0].Validity() == q[0].Validity();
    }
  }

  /** The last record's share of the count. */
  lemma CountNotValidLast(t: seq<Channel>)
    requires |t| > 0
    ensures CountNotValid(t) == CountNotValid(t[..|t| - 1]) + NotValid(t[|t| - 1])
  {
    CountNotValidDrop(t, |t| - 1);
    assert t[..|t| - 1] + t[|t|..] == t[..|t| - 1];
  }

  lemma {:induction false} CountNotValidDrop(s: seq<Channel>, i: nat)
    requires i < |s|
    ensures CountNotValid(s) == CountNotValid(s[..i] + s[i + 1..]) + NotValid(s[i])
  {
    if i == 0 {
      assert s[..0] + s[1..] == s[1..];
    } else {
      var t := s[1..];
      CountNotValidDrop(t, i - 1);
      var d := s[..i] + s[i + 1..];
      assert d[0] == s[0] && d[1..] == t[..i - 1] + t[i..];
      assert t[i - 1] == s[i];
    }
  }

  /** Some channel of the list is the object `h`. */
  predicate HasHandle(s: seq<Channel>, h: nat) {
    exists i :: 0 <= i < |s| && s[i].handle == h
  }

  /** No channel object occurs twice. */
  predicate Unique(s: seq<Channel>) {
    forall i, j :: 0 <= i < j < |s| ==> s[i].handle != s[j].handle
  }

  /** Whether the object `h`, as its first record in the list shows it, is VALID
      (an object the list does not hold counts as VALID). */
  function ObjectValid(s: seq<Channel>, h: nat): bool {
    if |s| == 0 then true
    else if s[0].handle == h then s[0].Validity() == Valid
    else ObjectValid(s[1..], h)
  }

  lemma {:induction false} ObjectValidAt(s: seq<Channel>, j: nat)
    requires Unique(s) && j < |s|
    ensures ObjectValid(s, s[j].handle) == (s[j].Validity() == Valid)
  {
    if j > 0 {
      assert s[0].handle != s[j].handle;
      assert Unique(s[1..]) by {
        forall a, b | 0 <= a < b < |s[1..]|
          ensures s[1..][a].handle != s[1..][b].handle
        {
          assert s[1..][a] == s[a + 1] && s[1..][b] == s[b + 1];
        }
      }
      ObjectValidAt(s[1..], j - 1);
    }
  }

  lemma {:induction false} ObjectValidAbsent(s: seq<Channel>, h: nat)
    requires !HasHandle(s, h)
    ensures ObjectValid(s, h)
  {
    if |s| > 0 {
      assert s[0].handle != h;
      forall i | 0 <= i < |s[1..]|
        ensures s[1..][i].handle != h
      {
        assert s[1..][i] == s[i + 1];
      }
      ObjectValidAbsent(s[1..], h);
    }
  }

  /** `channel.addConflict(c)` on the object `h`: every record of that object gets it. */
  function AppendOn(s: seq<Channel>, h: nat, c: Conflict): (r: seq<Channel>)
    ensures |r| == |s|
  {
    seq(|s|, i requires 0 <= i < |s| => if s[i].handle == h then s[i].(conflicts := s[i].conflicts + [c]) else s[i])
  }

  /** `channel.removeConflict(c)` on the object `h`. */
  function RemoveOn(s: seq<Channel>, h: nat, c: Conflict): (r: seq<Channel>)
    ensures |r| == |s|
  {
    seq(|s|, i requires 0 <= i < |s| => if s[i].handle == h then s[i].(conflicts := RemoveFirst(s[i].conflicts, c)) else s[i])
  }

  /** The analyser's fields: channels in insertion order, the sorted product list,
      the conflict list, the product-type flags, `numInvalidChannels` and the
      conflict counters. */
  datatype Analyser = Analyser(channels: seq<Channel>, intermods: seq<Intermod>, conflicts: seq<Conflict>,
                               flags: Calculations, numInvalid: int, counters: Counters)

  /** The constructor: everything empty, every product type enabled. */
  function NewAnalyser(): (a: Analyser)
    ensures a.channels == [] && a.intermods == [] && a.conflicts == []
    ensures a.numInvalid == 0 && a.counters == Zero() && forall t :: a.flags.Get(t)
  {
    Analyser([], [], [], Default(), 0, Zero())
  }

  /** `addConflict(channel, conflict)` with the victim as the channel: the counter
      moves, the invalid count grows if the victim was VALID, and the victim's own
      list gets the conflict. The engine's list is not touched. */
  function Record(a: Analyser, c: Conflict): Analyser {
    var h := c.channel.handle;
    a.(counters := a.counters.Bump(c, 1),
       numInvalid := a.numInvalid + (if ObjectValid(a.channels, h) then 1 else 0),
       channels := AppendOn(a.channels, h, c))
  }

  /** `addConflict` for each conflict in turn. */
  function RecordAll(a: Analyser, cs: seq<Conflict>): Analyser
    decreases |cs|
  {
    if |cs| == 0 then a else RecordAll(Record(a, cs[0]), cs[1..])
  }

  /** A detected conflict is appended to the engine's list and recorded on its victim. */
  function Report(a: Analyser, c: Conflict): Analyser {
    Record(a.(conflicts := a.conflicts + [c]), c)
  }

  function ReportAll(a: Analyser, cs: seq<Conflict>): Analyser
    decreases |cs|
  {
    if |cs| == 0 then a else ReportAll(Report(a, cs[0]), cs[1..])
  }

  /** `removeConflict(victim, conflict)`: the counter moves back, the conflict leaves
      the victim's list, and the invalid count drops if that made the victim VALID. */
  function Unrecord(a: Analyser, c: Conflict): Analyser {
    var h := c.channel.handle;
    var invalidBefore := !ObjectValid(a.channels, h);
    var channels := RemoveOn(a.channels, h, c);
    a.(counters := a.counters.Bump(c, -1),
       numInvalid := a.numInvalid - (if invalidBefore && ObjectValid(channels, h) then 1 else 0),
       channels := channels)
  }

  /** The `removeIf` callback of `removeConflicts(h)` over the list `s`: each conflict
      involving `h` is taken off its victim. */
  function UnrecordInvolving(a: Analyser, h: nat, s: seq<Conflict>): (b: Analyser)
    ensures |b.channels| == |a.channels|
    decreases |s|
  {
    if |s| == 0 then a
    else if s[0].Involves(h) then UnrecordInvolving(Unrecord(a, s[0]), h, s[1..])
    else UnrecordInvolving(a, h, s[1..])
  }

  /** The bookkeeping the analyser keeps: each channel object once, each channel's
      list the engine's conflicts with that victim (in the same order), every
      victim a listed channel, the counters exact, and the invalid count the
      number of channels that are not VALID. */
  predicate Books(a: Analyser) {
    && Unique(a.channels)
    && ListsMatch(a.channels, a.conflicts)
    && VictimsListed(a.channels, a.conflicts)
    && a.counters == CountersOf(a.conflicts)
    && a.numInvalid == CountNotValid(a.channels)
  }

  /** The two lists agree on everything but the conflict lists. */
  predicate SameChannels(s: seq<Channel>, r: seq<Channel>) {
    |s| == |r| && forall i :: 0 <= i < |s| ==> r[i] == s[i].(conflicts := r[i].conflicts)
  }

  lemma SameChannelsTransitive(s: seq<Channel>, r: seq<Channel>, q: seq<Channel>)
    requires SameChannels(s, r) && SameChannels(r, q)
    ensures SameChannels(s, q)
  {
  }

  lemma {:induction false} OfVictimAppend(s: seq<Conflict>, t: seq<Conflict>, h: nat)
    ensures OfVictim(s + t, h) == OfVictim(s, h) + OfVictim(t, h)
  {
    if |s| > 0 {
      assert (s + t)[0] == s[0] && (s + t)[1..] == s[1..] + t;
      OfVictimAppend(s[1..], t, h);
    } else {
      assert s + t == t;
    }
  }

  /** Each channel's list is its victim's share of the engine's list. */
  predicate ListsMatch(p: seq<Channel>, s: seq<Conflict>) {
    forall i :: 0 <= i < |p| ==> p[i].conflicts == OfVictim(s, p[i].handle)
  }

  /** Every victim in `s` is a channel of `p`. */
  predicate VictimsListed(p: seq<Channel>, s: seq<Conflict>) {
    forall c :: c in s ==> HasHandle(p, c.channel.handle)
  }

  lemma AppendOnSame(p: seq<Channel>, h: nat, c: Conflict)
    ensures SameChannels(p, AppendOn(p, h, c))
  {
  }

  lemma AppendOnLists(p: seq<Channel>, s: seq<Conflict>, c: Conflict)
    requires ListsMatch(p, s)
    ensures ListsMatch(AppendOn(p, c.channel.handle, c), s + [c])
  {
    var r := AppendOn(p, c.channel.handle, c);
    forall i | 0 <= i < |r|
      ensures r[i].conflicts == OfVictim(s + [c], r[i].handle)
    {
      OfVictimAppend(s, [c], r[i].handle);
      assert [c][1..] == [];
    }
  }

  lemma VictimsListedSame(p: seq<Channel>, q: seq<Channel>, s: seq<Conflict>)
    requires VictimsListed(p, s) && SameChannels(p, q)
    ensures VictimsListed(q, s)
  {
    forall k | k in s
      ensures HasHandle(q, k.channel.handle)
    {
      var i :| 0 <= i < |p| && p[i].handle == k.channel.handle;
      assert q[i].handle == k.channel.handle;
    }
  }

  lemma AppendOnInvalid(p: seq<Channel>, c: Conflict, j: nat)
    requires Unique(p) && j < |p| && p[j].handle == c.channel.handle
    ensures CountNotValid(AppendOn(p, c.channel.handle, c))
            == CountNotValid(p) + (if ObjectValid(p, c.channel.handle) then 1 else 0)
  {
    var r := AppendOn(p, c.channel.handle, c);
    ObjectValidAt(p, j);
    assert |r[j].conflicts| > 0 by {
      assert r[j].conflicts == p[j].conflicts + [c];
    }
    forall i | 0 <= i < |p| && i != j
      ensures p[i].Validity() == r[i].Validity()
    {
    }
    CountNotValidUpdate(p, r, j);
  }

  lemma ReportCounters(a: Analyser, c: Conflict)
    requires a.counters == CountersOf(a.conflicts)
    ensures Report(a, c).counters == CountersOf(Report(a, c).conflicts)
  {
    CountersOfSnoc(a.conflicts, c);
  }

  lemma ReportInvalid(a: Analyser, c: Conflict)
    requires Unique(a.channels) && HasHandle(a.channels, c.channel.handle)
    requires a.numInvalid == CountNotValid(a.channels)
    ensures Report(a, c).numInvalid == CountNotValid(Report(a, c).channels)
  {
    var j :| 0 <= j < |a.channels| && a.channels[j].handle == c.channel.handle;
    AppendOnInvalid(a.channels, c, j);
  }

  lemma ReportLists(a: Analyser, c: Conflict)
    requires ListsMatch(a.channels, a.conflicts) && VictimsListed(a.channels, a.conflicts)
    requires HasHandle(a.channels, c.channel.handle)
    ensures ListsMatch(Report(a, c).channels, Report(a, c).conflicts)
    ensures VictimsListed(Report(a, c).channels, Report(a, c).conflicts)
    ensures SameChannels(a.channels, Report(a, c).channels)
  {
    AppendOnLists(a.channels, a.conflicts, c);
    AppendOnSame(a.channels, c.channel.handle, c);
    assert VictimsListed(a.channels, a.conflicts + [c]);
    VictimsListedSame(a.channels, Report(a, c).channels, Report(a, c).conflicts);
  }

  /** Reporting a conflict whose victim is listed keeps the bookkeeping. */
  lemma ReportBooks(a: Analyser, c: Conflict)
    requires Books(a) && HasHandle(a.channels, c.channel.handle)
    ensures Books(Report(a, c))
    ensures SameChannels(a.channels, Report(a, c).channels)
    ensures Report(a, c).conflicts == a.conflicts + [c]
  {
    ReportCounters(a, c);
    ReportInvalid(a, c);
    ReportLists(a, c);
  }

  /** Reporting touches only the conflict lists, the engine's list, the counters and
      the invalid count. */
  lemma {:induction false} ReportAllFrame(a: Analyser, cs: seq<Conflict>)
    ensures SameChannels(a.channels, ReportAll(a, cs).channels)
    ensures ReportAll(a, cs).conflicts == a.conflicts + cs
    ensures ReportAll(a, cs).intermods == a.intermods && ReportAll(a, cs).flags == a.flags
    decreases |cs|
  {
    if |cs| > 0 {
      var b := Report(a, cs[0]);
      AppendOnSame(a.channels, cs[0].channel.handle, cs[0]);
      ReportAllFrame(b, cs[1..]);
      SameChannelsTransitive(a.channels, b.channels, ReportAll(b, cs[1..]).channels);
      assert cs == [cs[0]] + cs[1..];
    } else {
      assert a.conflicts + cs == a.conflicts;
    }
  }

  /** Reporting conflicts whose victims are all listed keeps the bookkeeping. */
  lemma {:induction false} ReportAllBooks(a: Analyser, cs: seq<Conflict>)
    requires Books(a) && VictimsListed(a.channels, cs)
    ensures Books(ReportAll(a, cs))
    decreases |cs|
  {
    if |cs| > 0 {
      var b := Report(a, cs[0]);
      ReportBooks(a, cs[0]);
      assert VictimsListed(a.channels, cs[1..]) by {
        forall k | k in cs[1..] ensures HasHandle(a.channels, k.channel.handle) {
          assert k in cs;
        }
      }
      VictimsListedSame(a.channels, b.channels, cs[1..]);
      ReportAllBooks(b, cs[1..]);
    }
  }

  /** Recording touches only the conflict lists, the counters and the invalid count. */
  lemma {:induction false} RecordAllFrame(a: Analyser, cs: seq<Conflict>)
    ensures SameChannels(a.channels, RecordAll(a, cs).channels)
    ensures RecordAll(a, cs).conflicts == a.conflicts && RecordAll(a, cs).intermods == a.intermods
    ensures RecordAll(a, cs).flags == a.flags
    decreases |cs|
  {
    if |cs| > 0 {
      var b := Record(a, cs[0]);
      AppendOnSame(a.channels, cs[0].channel.handle, cs[0]);
      RecordAllFrame(b, cs[1..]);
      SameChannelsTransitive(a.channels, b.channels, RecordAll(b, cs[1..]).channels);
    }
  }

  /** Each recorded conflict lands in its victim's list, after what was there. */
  lemma {:induction false} RecordAllLists(a: Analyser, s: seq<Conflict>, cs: seq<Conflict>)
    requires ListsMatch(a.channels, s)
    ensures ListsMatch(RecordAll(a, cs).channels, s + cs)
    decreases |cs|
  {
    if |cs| > 0 {
      AppendOnLists(a.channels, s, cs[0]);
      RecordAllLists(Record(a, cs[0]), s + [cs[0]], cs[1..]);
      assert s + [cs[0]] + cs[1..] == s + cs;
    } else {
      assert s + cs == s;
    }
  }

  /** The channel counter grows by the number of channel-spacing conflicts recorded. */
  lemma {:induction false} RecordAllChannelCounter(a: Analyser, cs: seq<Conflict>)
    ensures RecordAll(a, cs).counters.channel == a.counters.channel + CountChannel(cs)
    decreases |cs|
  {
    if |cs| > 0 {
      BumpMoves(a.counters, cs[0], 1);
      RecordAllChannelCounter(Record(a, cs[0]), cs[1..]);
    }
  }

  /** Removing a conflict that follows `s` in a list, when `s` does not hold it. */
  lemma {:induction false} RemoveFirstSkips(s: seq<Conflict>, c: Conflict, t: seq<Conflict>)
    requires c !in s
    ensures RemoveFirst(s + [c] + t, c) == s + t
    decreases |s|
  {
    if |s| > 0 {
      assert s[0] in s && c !in s[1..];
      RemoveFirstSkips(s[1..], c, t);
      SkipStep(s[0], s[1..], c, t);
      assert [s[0]] + s[1..] == s;
    } else {
      assert s + [c] + t == [c] + t;
      RemoveFirstHead(c, t);
      assert s + t == t;
    }
  }

  lemma SkipStep(x: Conflict, s: seq<Conflict>, c: Conflict, t: seq<Conflict>)
    requires x != c && RemoveFirst(s + [c] + t, c) == s + t
    ensures RemoveFirst([x] + s + [c] + t, c) == [x] + s + t
  {
    assert [x] + s + [c] + t == [x] + (s + [c] + t);
    RemoveFirstPasses(x, s + [c] + t, c);
    assert [x] + s + t == [x] + (s + t);
  }

  lemma RemoveFirstPasses(x: Conflict, rest: seq<Conflict>, c: Conflict)
    requires x != c
    ensures RemoveFirst([x] + rest, c) == [x] + RemoveFirst(rest, c)
  {
    assert ([x] + rest)[0] == x && ([x] + rest)[1..] == rest;
  }

  lemma RemoveFirstHead(c: Conflict, rest: seq<Conflict>)
    ensures RemoveFirst([c] + rest, c) == rest
  {
    assert ([c] + rest)[0] == c && ([c] + rest)[1..] == rest;
  }

  /** The bookkeeping half-way through `removeConflicts(h)`: the conflicts already
      passed that stay are `kept`, and `s` is still to be visited. */
  predicate Midway(a: Analyser, h: nat, kept: seq<Conflict>, s: seq<Conflict>) {
    && Unique(a.channels)
    && (forall c :: c in kept ==> !c.Involves(h))
    && ListsMatch(a.channels, kept + s)
    && a.counters == CountersOf(kept + s)
    && a.numInvalid == CountNotValid(a.channels)
  }

  lemma RemoveOnSame(p: seq<Channel>, h: nat, c: Conflict)
    ensures SameChannels(p, RemoveOn(p, h, c))
  {
  }

  /** The victim's list loses exactly this conflict when no earlier conflict of the
      list is equal to it. */
  lemma RemoveOnLists(p: seq<Channel>, kept: seq<Conflict>, c: Conflict, rest: seq<Conflict>)
    requires ListsMatch(p, kept + [c] + rest) && c !in kept
    ensures ListsMatch(RemoveOn(p, c.channel.handle, c), kept + rest)
  {
    var v := c.channel.handle;
    var r := RemoveOn(p, v, c);
    forall i | 0 <= i < |p|
      ensures r[i].conflicts == OfVictim(kept + rest, r[i].handle)
    {
      if p[i].handle == v {
        OfVictimRemove(kept, c, rest);
      } else {
        OfVictimOther(kept, c, rest, p[i].handle);
      }
    }
  }

  /** Removing the first copy of `c` from its victim's list is dropping it from the
      conflict list. */
  lemma OfVictimRemove(kept: seq<Conflict>, c: Conflict, rest: seq<Conflict>)
    requires c !in kept
    ensures RemoveFirst(OfVictim(kept + [c] + rest, c.channel.handle), c) == OfVictim(kept + rest, c.channel.handle)
  {
    var u := c.channel.handle;
    OfVictimAppend(kept + [c], rest, u);
    OfVictimAppend(kept, [c], u);
    OfVictimAppend(kept, rest, u);
    OfVictimSingle(c, u);
    RemoveFirstSkips(OfVictim(kept, u), c, OfVictim(rest, u));
  }

  /** Every other victim's list is unaffected by `c`. */
  lemma OfVictimOther(kept: seq<Conflict>, c: Conflict, rest: seq<Conflict>, u: nat)
    requires u != c.channel.handle
    ensures OfVictim(kept + [c] + rest, u) == OfVictim(kept + rest, u)
  {
    OfVictimAppend(kept + [c], rest, u);
    OfVictimAppend(kept, [c], u);
    OfVictimAppend(kept, rest, u);
    OfVictimSingle(c, u);
  }

  lemma OfVictimSingle(c: Conflict, u: nat)
    ensures OfVictim([c], u) == if c.channel.handle == u then [c] else []
  {
    assert [c][1..] == [];
  }

  lemma SameChannelsUnique(p: seq<Channel>, q: seq<Channel>)
    requires SameChannels(p, q) && Unique(p)
    ensures Unique(q)
  {
    forall i, j | 0 <= i < j < |q|
      ensures q[i].handle != q[j].handle
    {
      assert q[i].handle == p[i].handle && q[j].handle == p[j].handle;
    }
  }

  /** `removeConflict` on a listed victim whose list holds the conflict: it was not
      VALID, and it is VALID afterwards exactly when its list emptied. */
  lemma RemoveOnInvalidAt(p: seq<Channel>, c: Conflict, j: nat)
    requires Unique(p) && j < |p| && p[j].handle == c.channel.handle && c in p[j].conflicts
    ensures var r := RemoveOn(p, c.channel.handle, c);
      CountNotValid(p) - (if !ObjectValid(p, c.channel.handle) && ObjectValid(r, c.channel.handle) then 1 else 0)
      == CountNotValid(r)
  {
    var v := c.channel.handle;
    var r := RemoveOn(p, v, c);
    ObjectValidAt(p, j);
    RemoveOnSame(p, v, c);
    SameChannelsUnique(p, r);
    ObjectValidAt(r, j);
    assert forall i :: 0 <= i < |p| && i != j ==> r[i] == p[i];
    CountNotValidUpdate(p, r, j);
  }

  /** `removeConflict` on a victim the list does not hold changes nothing. */
  lemma RemoveOnAbsent(p: seq<Channel>, c: Conflict)
    requires !HasHandle(p, c.channel.handle)
    ensures RemoveOn(p, c.channel.handle, c) == p
    ensures ObjectValid(p, c.channel.handle)
  {
    ObjectValidAbsent(p, c.channel.handle);
  }

  /** One `removeConflict` call keeps the half-way bookkeeping. */
  lemma UnrecordStep(a: Analyser, h: nat, kept: seq<Conflict>, s: seq<Conflict>)
    requires Midway(a, h, kept, s) && |s| > 0 && s[0].Involves(h)
    ensures Midway(Unrecord(a, s[0]), h, kept, s[1..])
  {
    var c := s[0];
    var v := c.channel.handle;
    ShiftHead(kept, s);
    assert ListsMatch(a.channels, kept + [c] + s[1..]);
    assert c !in kept;
    RemoveOnLists(a.channels, kept, c, s[1..]);
    RemoveOnSame(a.channels, v, c);
    SameChannelsUnique(a.channels, RemoveOn(a.channels, v, c));
    CountersOfDrop(kept, c, s[1..]);
    if HasHandle(a.channels, v) {
      var j :| 0 <= j < |a.channels| && a.channels[j].handle == v;
      assert c in a.channels[j].conflicts by {
        assert c in kept + s;
      }
      RemoveOnInvalidAt(a.channels, c, j);
    } else {
      RemoveOnAbsent(a.channels, c);
    }
  }

  /** The `removeIf` pass touches only the conflict lists, the counters and the
      invalid count. */
  lemma {:induction false} UnrecordInvolvingFrame(a: Analyser, h: nat, s: seq<Conflict>)
    ensures SameChannels(a.channels, UnrecordInvolving(a, h, s).channels)
    ensures UnrecordInvolving(a, h, s).intermods == a.intermods && UnrecordInvolving(a, h, s).conflicts == a.conflicts
    ensures UnrecordInvolving(a, h, s).flags == a.flags
    decreases |s|
  {
    if |s| > 0 {
      var b := if s[0].Involves(h) then Unrecord(a, s[0]) else a;
      RemoveOnSame(a.channels, s[0].channel.handle, s[0]);
      UnrecordInvolvingFrame(b, h, s[1..]);
      SameChannelsTransitive(a.channels, b.channels, UnrecordInvolving(b, h, s[1..]).channels);
    }
  }

  /** Passing over a conflict that does not involve `h` moves it to the kept part. */
  lemma MidwaySkip(a: Analyser, h: nat, kept: seq<Conflict>, s: seq<Conflict>)
    requires Midway(a, h, kept, s)
    requires |s| > 0 && !s[0].Involves(h)
    ensures Midway(a, h, kept + [s[0]], s[1..])
  {
    ShiftHead(kept, s);
  }

  lemma ShiftHead<T>(kept: seq<T>, s: seq<T>)
    requires |s| > 0
    ensures kept + [s[0]] + s[1..] == kept + s
  {
    assert [s[0]] + s[1..] == s;
  }

  lemma NotInvolvingSkip(kept: seq<Conflict>, s: seq<Conflict>, h: nat)
    requires |s| > 0 && !s[0].Involves(h)
    ensures kept + [s[0]] + NotInvolving(s[1..], h) == kept + NotInvolving(s, h)
  {
    assert NotInvolving(s, h) == [s[0]] + NotInvolving(s[1..], h);
  }

  /** The whole `removeIf` pass keeps the bookkeeping, with exactly the conflicts
      not involving `h` left in the victims' lists and in the counters. */
  lemma {:induction false} UnrecordInvolvingBooks(a: Analyser, h: nat, kept: seq<Conflict>, s: seq<Conflict>)
    requires Midway(a, h, kept, s)
    ensures Midway(UnrecordInvolving(a, h, s), h, kept + NotInvolving(s, h), [])
    decreases |s|
  {
    if |s| == 0 {
      assert kept + [] == kept;
      assert kept + NotInvolving(s, h) + [] == kept;
    } else if s[0].Involves(h) {
      UnrecordStep(a, h, kept, s);
      UnrecordInvolvingBooks(Unrecord(a, s[0]), h, kept, s[1..]);
      assert NotInvolving(s, h) == NotInvolving(s[1..], h);
    } else {
      MidwaySkip(a, h, kept, s);
      UnrecordInvolvingBooks(a, h, kept + [s[0]], s[1..]);
      NotInvolvingSkip(kept, s, h);
    }
  }
}
