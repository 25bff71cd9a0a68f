/** A channel of the older `rfcoordinator` package: an id, a frequency, a name, an
    equipment profile and the conflicts it is the victim of. `handle` stands for
    the Java object identity; the validity the class caches is derived from the
    conflict list, as `setValidity` recomputes it after every change. */
module RcChannel {
  import opened Errors
  import opened Intermods
  import opened Conflicts
  import opened Spacing
  import opened RcEquipment
  import opened Products
  import Text
  import XpChannel
  import IntermodOrder

  datatype Channel = Channel(handle: nat, id: int, freq: int, name: string, equipment: Equipment,
                             conflicts: seq<Conflict>)
  {
    /** `getValidity`. */
    function Validity(): Validity {
      ValidityOf(conflicts)
    }

    /** What the conflict checks read from the channel. */
    function View(): Tx {
      Tx(handle, freq, equipment.spacings)
    }

    function Ref(): ChannelRef {
      ChannelRef(handle, freq)
    }
  }

  /** `isEquipmentUntunable`: off the tuning grid, with no range check; a zero tuning
      accuracy makes the remainder throw. */
  function IsUntunable(freq: int, e: Equipment): (r: Result<bool>)
    ensures r.Err? <==> e.tuningAccuracy == 0
    ensures r.Err? ==> r.error == ArithmeticError
    ensures r.Ok? ==> (r.value <==> freq % e.tuningAccuracy != 0)
  {
    if e.tuningAccuracy == 0 then Err(ArithmeticError) else Ok(freq % e.tuningAccuracy != 0)
  }

  /** A frequency is tunable exactly when it is a whole number of grid steps. */
  lemma TunableIffOnGrid(freq: int, e: Equipment)
    requires e.tuningAccuracy != 0
    ensures IsUntunable(freq, e) == Ok(false) <==> exists k: int :: freq == k * e.tuningAccuracy
  {
    var a := e.tuningAccuracy;
    if IsUntunable(freq, e) == Ok(false) {
      assert freq == (freq / a) * a;
    }
    if exists k: int :: freq == k * a {
      var k: int :| freq == k * a;
      MultipleHasNoRemainder(k, a);
    }
  }

  /** Euclidean division leaves no remainder on a multiple. */
  lemma MultipleHasNoRemainder(k: int, a: int)
    requires a != 0
    ensures (k * a) % a == 0
  {
    var q, r := (k * a) / a, (k * a) % a;
    var n := k - q;
    assert n * a == k * a - q * a;
    assert n * a == r;
    if n > 0 {
      MultipleBounds(n, a);
    } else if n < 0 {
      MultipleBounds(-n, a);
    }
  }

  /** A non-zero multiple of `a` is at least `|a|` away from zero. */
  lemma MultipleBounds(n: int, a: int)
    requires n > 0 && a != 0
    ensures Abs(n * a) >= Abs(a)
  {
    if a > 0 {
      assert n * a == (n - 1) * a + a;
      assert (n - 1) * a >= 0;
    } else {
      assert n * a == (n - 1) * a + a;
      assert (n - 1) * a <= 0;
    }
  }

  /** The range of the equipment plays no part in tunability. */
  lemma UntunableIgnoresRange(freq: int, e: Equipment, lo: int, hi: int)
    ensures IsUntunable(freq, e.(rangeLo := lo, rangeHi := hi)) == IsUntunable(freq, e)
  {
  }

  /** The constructor, for a fresh object `handle`: a null equipment is an illegal
      argument, an untunable frequency an invalid frequency; a null id becomes 0,
      the name is "Channel " and the id plus one, and the conflict list starts empty. */
  function NewChannel(handle: nat, id: Option<int>, freq: int, equipment: Option<Equipment>): (r: Result<Channel>)
    ensures equipment.None? ==> r == Err(IllegalArgument)
    ensures equipment.Some? && IsUntunable(freq, equipment.value) == Ok(true) ==> r == Err(InvalidFrequency)
    ensures r.Ok? <==> equipment.Some? && IsUntunable(freq, equipment.value) == Ok(false)
    ensures r.Ok? ==> r.value == Channel(handle, if id.None? then 0 else id.value, freq,
                                         XpChannel.DefaultName(id), equipment.value, [])
    ensures r.Ok? ==> r.value.Validity() == Valid
  {
    if equipment.None? then Err(IllegalArgument)
    else
      match IsUntunable(freq, equipment.value)
      case Err(e) => Err(e)
      case Ok(untunable) =>
        if untunable then Err(InvalidFrequency)
        else Ok(Channel(handle, if id.None? then 0 else id.value, freq, XpChannel.DefaultName(id), equipment.value, []))
  }

  /** `setFreq(int)`: the frequency is checked against the equipment before it is
      stored. */
  function SetFreq(c: Channel, freq: int): (r: Result<Channel>)
    ensures r.Ok? <==> IsUntunable(freq, c.equipment) == Ok(false)
    ensures IsUntunable(freq, c.equipment) == Ok(true) ==> r == Err(InvalidFrequency)
    ensures r.Ok? ==> r.value == c.(freq := freq)
  {
    match IsUntunable(freq, c.equipment)
    case Err(e) => Err(e)
    case Ok(untunable) => if untunable then Err(InvalidFrequency) else Ok(c.(freq := freq))
  }

  /** `setEquipment`: null is an illegal argument, and the current frequency must
      suit the new equipment. */
  function SetEquipment(c: Channel, equipment: Option<Equipment>): (r: Result<Channel>)
    ensures equipment.None? ==> r == Err(IllegalArgument)
    ensures r.Ok? <==> equipment.Some? && IsUntunable(c.freq, equipment.value) == Ok(false)
    ensures equipment.Some? && IsUntunable(c.freq, equipment.value) == Ok(true) ==> r == Err(InvalidFrequency)
    ensures r.Ok? ==> r.value == c.(equipment := equipment.value)
  {
    if equipment.None? then Err(IllegalArgument)
    else
      match IsUntunable(c.freq, equipment.value)
      case Err(e) => Err(e)
      case Ok(untunable) => if untunable then Err(InvalidFrequency) else Ok(c.(equipment := equipment.value))
  }

  function SetName(c: Channel, name: string): (r: Channel)
    ensures r.name == name && r.(name := c.name) == c
  {
    c.(name := name)
  }

  /** `addConflict`: a null conflict is ignored, any other is appended. */
  function AddConflict(c: Channel, conflict: Option<Conflict>): (r: Channel)
    ensures conflict.None? ==> r == c
    ensures conflict.Some? ==> r == c.(conflicts := c.conflicts + [conflict.value])
  {
    if conflict.None? then c else c.(conflicts := c.conflicts + [conflict.value])
  }

  /** `removeConflict`: true exactly when an occurrence was removed. */
  function RemoveConflict(c: Channel, conflict: Option<Conflict>): (r: (bool, Channel))
    ensures r.0 <==> conflict.Some? && conflict.value in c.conflicts
    ensures !r.0 ==> r.1 == c
    ensures r.0 ==> r.1 == c.(conflicts := RemoveFirst(c.conflicts, conflict.value))
    ensures r.0 ==> |r.1.conflicts| == |c.conflicts| - 1
  {
    if conflict.Some? && conflict.value in c.conflicts then (true, c.(conflicts := RemoveFirst(c.conflicts, conflict.value)))
    else (false, c)
  }

  /** `clearConflicts`: the list is emptied and the channel is valid again. */
  function ClearConflicts(c: Channel): (r: Channel)
    ensures r.conflicts == [] && r.Validity() == Valid
    ensures r.(conflicts := c.conflicts) == c
  {
    c.(conflicts := [])
  }

  /** Validity after each conflict-list operation, per `setValidity`. */
  lemma ValidityAfterOperations(c: Channel, k: Conflict)
    ensures AddConflict(c, Some(k)).Validity() == (if |c.conflicts| == 0 && k.Kind() == WhiteSpace then Warning else Invalid)
    ensures RemoveConflict(c, Some(k)).0 && |c.conflicts| == 1 ==> RemoveConflict(c, Some(k)).1.Validity() == Valid
  {
    var added := c.conflicts + [k];
    if |c.conflicts| == 0 {
      assert added == [k];
    } else {
      assert added[0] in added && k in added;
    }
  }

  /** `equals(Channel)`: equal equipment, name and frequency. It overloads rather than
      overrides `Object.equals`, so the lists' `remove` never calls it. */
  predicate Equals(a: Channel, b: Channel) {
    RcEquipment.Equals(a.equipment, b.equipment) && a.name == b.name && a.freq == b.freq
  }

  /** Two channels are equal exactly when they differ at most in identity, id and
      conflicts. */
  lemma EqualsIgnoresIdentity(a: Channel, b: Channel)
    ensures Equals(a, b) <==> a.(handle := b.handle, id := b.id, conflicts := b.conflicts) == b
  {
    EqualsIsEquality(a.equipment, b.equipment);
  }

  /** `compareTo`: by frequency only. */
  function CompareTo(a: Channel, b: Channel): (r: int)
    ensures r < 0 <==> a.freq < b.freq
    ensures r == 0 <==> a.freq == b.freq
    ensures r > 0 <==> a.freq > b.freq
  {
    Text.IntCompare(a.freq, b.freq)
  }

  /** `IDComparator.compare` (and `ChannelIDComparator.compare`): by id, then by
      frequency. */
  function IdCompare(a: Channel, b: Channel): (r: int)
    ensures a.id != b.id ==> r == Text.IntCompare(a.id, b.id)
    ensures a.id == b.id ==> r == CompareTo(a, b)
  {
    var result := Text.IntCompare(a.id, b.id);
    if result == 0 then CompareTo(a, b) else result
  }

  /** The id order is zero exactly on equal ids and frequencies, and swapping the
      arguments flips its sign. */
  lemma IdCompareZero(a: Channel, b: Channel)
    ensures IdCompare(a, b) == 0 <==> a.id == b.id && a.freq == b.freq
    ensures IdCompare(a, b) == -IdCompare(b, a)
  {
  }

  /** `NameComparator.compare`: names ignoring case, then frequency. */
  function NameCompare(a: Channel, b: Channel): (r: int)
    ensures Text.CompareIgnoreCase(a.name, b.name) != 0 ==> r == Text.CompareIgnoreCase(a.name, b.name)
    ensures Text.CompareIgnoreCase(a.name, b.name) == 0 ==> r == CompareTo(a, b)
  {
    var result := Text.CompareIgnoreCase(a.name, b.name);
    if result == 0 then CompareTo(a, b) else result
  }

  /** The name order is zero exactly for equal names (ignoring case) on equal
      frequencies, and swapping the arguments flips its sign. */
  lemma NameCompareZero(a: Channel, b: Channel)
    ensures NameCompare(a, b) == 0 <==> Text.EqualIgnoreCase(a.name, b.name) && a.freq == b.freq
    ensures NameCompare(a, b) < 0 <==> NameCompare(b, a) > 0
  {
    Text.CompareIgnoreCaseZero(a.name, b.name);
    Text.CompareIgnoreCaseAntisymmetric(a.name, b.name);
  }

  // ---- Channel lists ----------------------------------------------------------

  /** Frequencies never decrease along the list. */
  predicate FreqSorted(s: seq<Channel>) {
    forall i, j :: 0 <= i < j < |s| ==> s[i].freq <= s[j].freq
  }

  /** `Helpers.isSorted` with `compareTo` accepts exactly the frequency-sorted lists,
      so the assertion after `addChannelInPlace` holds whenever the list was sorted. */
  lemma AdjacentSortedIffFreqSorted(s: seq<Channel>)
    ensures IntermodOrder.AdjacentSorted(s, CompareTo) <==> FreqSorted(s)
  {
    if IntermodOrder.AdjacentSorted(s, CompareTo) {
      forall i, j | 0 <= i < j < |s| ensures s[i].freq <= s[j].freq {
        AdjacentChain(s, i, j);
      }
    }
  }

  lemma {:induction false} AdjacentChain(s: seq<Channel>, i: nat, j: nat)
    requires IntermodOrder.AdjacentSorted(s, CompareTo) && i <= j < |s|
    ensures s[i].freq <= s[j].freq
    decreases j - i
  {
    if i < j {
      AdjacentChain(s, i + 1, j);
      assert CompareTo(s[i], s[i + 1]) <= 0;
    }
  }

  /** The insertion loop of `addChannel` / `addChannelInPlace`: the first position
      holding a higher frequency, or the end of the list. */
  function InsertIndex(s: seq<Channel>, freq: int): (i: nat)
    ensures i <= |s|
    ensures forall k :: 0 <= k < i ==> s[k].freq <= freq
    ensures i < |s| ==> s[i].freq > freq
  {
    if |s| == 0 || s[0].freq > freq then 0 else 1 + InsertIndex(s[1..], freq)
  }

  /** `channels.add(index, channel)` at that position. */
  function InsertInPlace(s: seq<Channel>, x: Channel): (r: seq<Channel>)
    ensures |r| == |s| + 1
    ensures multiset(r) == multiset(s) + multiset{x}
  {
    var i := InsertIndex(s, x.freq);
    assert s == s[..i] + s[i..];
    s[..i] + [x] + s[i..]
  }

  /** The records after an insertion are the old ones and the new one. */
  lemma InsertMembers(s: seq<Channel>, x: Channel)
    ensures forall o :: o in InsertInPlace(s, x) <==> o in s || o == x
  {
    var r := InsertInPlace(s, x);
    forall o ensures o in r <==> o in s || o == x {
      assert o in r <==> o in multiset(r);
      assert o in s <==> o in multiset(s);
    }
  }

  /** Where each record lands after an insertion. */
  lemma InsertShape(s: seq<Channel>, x: Channel)
    ensures var i, r := InsertIndex(s, x.freq), InsertInPlace(s, x);
            forall k :: 0 <= k < |r| ==> r[k] == if k < i then s[k] else if k == i then x else s[k - 1]
  {
  }

  /** Inserting keeps a frequency-sorted list sorted, and the new channel lands after
      every channel on the same frequency. */
  lemma InsertKeepsSorted(s: seq<Channel>, x: Channel)
    requires FreqSorted(s)
    ensures FreqSorted(InsertInPlace(s, x))
    ensures var i := InsertIndex(s, x.freq);
            InsertInPlace(s, x)[i] == x && forall k :: 0 <= k < i ==> s[k].freq <= x.freq
  {
    var i := InsertIndex(s, x.freq);
    var r := InsertInPlace(s, x);
    InsertShape(s, x);
    forall a, b | 0 <= a < b < |r|
      ensures r[a].freq <= r[b].freq
    {
      var fa := if a < i then s[a].freq else if a == i then x.freq else s[a - 1].freq;
      var fb := if b < i then s[b].freq else if b == i then x.freq else s[b - 1].freq;
      assert r[a].freq == fa && r[b].freq == fb;
      if a < i && b > i {
        assert s[a].freq <= s[b - 1].freq;
      }
    }
  }

  /** The object references of a channel list, in list order. */
  function Refs(s: seq<Channel>): (r: seq<ChannelRef>)
    ensures |r| == |s| && forall i :: 0 <= i < |s| ==> r[i] == s[i].Ref()
  {
    seq(|s|, i requires 0 <= i < |s| => s[i].Ref())
  }

  /** What the conflict checks read from the channels of a list. */
  function Views(s: seq<Channel>): (r: seq<Tx>)
    ensures |r| == |s| && forall i :: 0 <= i < |s| ==> r[i] == s[i].View()
  {
    seq(|s|, i requires 0 <= i < |s| => s[i].View())
  }

  /** Object handles are pairwise different. */
  predicate Unique(s: seq<Channel>) {
    forall i, j :: 0 <= i < j < |s| ==> s[i].handle != s[j].handle
  }

  /** No object occurs twice, so its references have different handles too. */
  lemma UniqueRefs(s: seq<Channel>)
    requires Unique(s)
    ensures UniqueHandles(Refs(s))
  {
  }

  /** `channels.remove(index)`. */
  function RemoveAt(s: seq<Channel>, i: nat): (r: seq<Channel>)
    requires i < |s|
    ensures |r| == |s| - 1
    ensures multiset(r) == multiset(s) - multiset{s[i]}
  {
    assert s == s[..i] + [s[i]] + s[i + 1..];
    s[..i] + s[i + 1..]
  }

  /** The first position holding the object `h`, or the end of the list. */
  function FindHandle(s: seq<Channel>, h: nat): (i: nat)
    ensures i <= |s|
    ensures i < |s| ==> s[i].handle == h
    ensures forall k :: 0 <= k < i ==> s[k].handle != h
  {
    if |s| == 0 || s[0].handle == h then 0 else 1 + FindHandle(s[1..], h)
  }

  /** `channels.remove(channel)`: `Object.equals` is identity here, so the first record
      of the same object goes, and nothing changes when there is none. */
  function RemoveObject(s: seq<Channel>, h: nat): (r: seq<Channel>)
    ensures FindHandle(s, h) == |s| ==> r == s
    ensures FindHandle(s, h) < |s| ==> r == RemoveAt(s, FindHandle(s, h))
  {
    var i := FindHandle(s, h);
    if i < |s| then RemoveAt(s, i) else s
  }

  /** Removing a record keeps the list sorted and its handles unique. */
  lemma RemoveAtKeeps(s: seq<Channel>, i: nat)
    requires i < |s|
    ensures FreqSorted(s) ==> FreqSorted(RemoveAt(s, i))
    ensures Unique(s) ==> Unique(RemoveAt(s, i))
  {
    var r := RemoveAt(s, i);
    forall a, b | 0 <= a < b < |r|
      ensures exists a', b' :: 0 <= a' < b' < |s| && r[a] == s[a'] && r[b] == s[b']
    {
      var a', b' := if a < i then a else a + 1, if b < i then b else b + 1;
      assert r[a] == s[a'] && r[b] == s[b'];
    }
  }

  /** With unique handles, the references left after removing the record at `i` are
      those of the list with that object dropped. */
  lemma RefsRemoveAt(s: seq<Channel>, i: nat)
    requires Unique(s) && i < |s|
    ensures Refs(RemoveAt(s, i)) == DropHandle(Refs(s), s[i].handle)
  {
    var h := s[i].handle;
    var rs := Refs(s);
    var pre, post := rs[..i], rs[i + 1..];
    assert rs == pre + [s[i].Ref()] + post;
    assert Refs(RemoveAt(s, i)) == pre + post;
    UniqueRefs(s);
    OthersApart(rs, i);
    DropHandleAbsent(pre, h);
    DropHandleAbsent(post, h);
    DropMiddle(pre, s[i].Ref(), post);
  }

  /** With unique handles, no reference before or after position `i` shares its
      handle. */
  lemma OthersApart(rs: seq<ChannelRef>, i: nat)
    requires UniqueHandles(rs) && i < |rs|
    ensures forall c :: c in rs[..i] ==> c.handle != rs[i].handle
    ensures forall c :: c in rs[i + 1..] ==> c.handle != rs[i].handle
  {
    forall c | c in rs[..i] ensures c.handle != rs[i].handle {
      var k :| 0 <= k < i && rs[..i][k] == c;
      assert rs[k] == c;
    }
    forall c | c in rs[i + 1..] ensures c.handle != rs[i].handle {
      var k :| 0 <= k < |rs| - i - 1 && rs[i + 1..][k] == c;
      assert rs[i + 1 + k] == c;
    }
  }

  /** With unique handles, the views left after removing the record at `i` are the
      views of every other object. */
  lemma ViewsRemoveAt(s: seq<Channel>, i: nat)
    requires Unique(s) && i < |s|
    ensures forall v :: v in Views(RemoveAt(s, i)) <==> v in Views(s) && v.handle != s[i].handle
  {
    var r := RemoveAt(s, i);
    forall v | v in Views(r) ensures v in Views(s) && v.handle != s[i].handle {
      var a :| 0 <= a < |r| && Views(r)[a] == v;
      var k := if a < i then a else a + 1;
      assert r[a] == s[k];
      assert Views(s)[k] == v;
    }
    forall v | v in Views(s) && v.handle != s[i].handle ensures v in Views(r) {
      var k :| 0 <= k < |s| && Views(s)[k] == v;
      var a := if k < i then k else k - 1;
      assert r[a] == s[k];
      assert Views(r)[a] == v;
    }
  }

  /** The references after an insertion: the new one at the insertion point. */
  lemma RefsInsert(s: seq<Channel>, x: Channel)
    ensures var p := InsertIndex(s, x.freq);
            Refs(InsertInPlace(s, x)) == Refs(s)[..p] + [x.Ref()] + Refs(s)[p..]
  {
  }

  /** The views after an insertion: the old ones and the new channel's. */
  lemma ViewsInsert(s: seq<Channel>, x: Channel)
    ensures forall v :: v in Views(InsertInPlace(s, x)) <==> v in Views(s) || v == x.View()
  {
    var p := InsertIndex(s, x.freq);
    var r := InsertInPlace(s, x);
    InsertMembers(s, x);
    forall v | v in Views(r) ensures v in Views(s) || v == x.View() {
      var k :| 0 <= k < |r| && Views(r)[k] == v;
      assert r[k] in r;
      if r[k] in s {
        var j :| 0 <= j < |s| && s[j] == r[k];
        assert Views(s)[j] == v;
      }
    }
    forall v | v in Views(s) || v == x.View() ensures v in Views(r) {
      if v in Views(s) {
        var j :| 0 <= j < |s| && Views(s)[j] == v;
        assert s[j] in r;
        var k :| 0 <= k < |r| && r[k] == s[j];
        assert Views(r)[k] == v;
      } else {
        InsertShape(s, x);
        assert Views(r)[p] == v;
      }
    }
  }

  /** Inserting a new object keeps the handles unique. */
  lemma UniqueInsert(s: seq<Channel>, x: Channel)
    requires Unique(s) && forall k :: 0 <= k < |s| ==> s[k].handle != x.handle
    ensures Unique(InsertInPlace(s, x))
  {
    var p := InsertIndex(s, x.freq);
    var r := InsertInPlace(s, x);
    forall a, b | 0 <= a < b < |r|
      ensures r[a].handle != r[b].handle
    {
      UniquePair(s, x, a, b);
    }
  }

  lemma UniquePair(s: seq<Channel>, x: Channel, a: nat, b: nat)
    requires Unique(s) && forall k :: 0 <= k < |s| ==> s[k].handle != x.handle
    requires a < b < |s| + 1
    ensures InsertInPlace(s, x)[a].handle != InsertInPlace(s, x)[b].handle
  {
    var p := InsertIndex(s, x.freq);
    var r := InsertInPlace(s, x);
    InsertShape(s, x);
    if b < p {
      assert r[a] == s[a] && r[b] == s[b];
    } else if b == p {
      assert r[a] == s[a] && r[b] == x;
    } else if a > p {
      assert r[a] == s[a - 1] && r[b] == s[b - 1];
    } else if a == p {
      assert r[a] == x && r[b] == s[b - 1];
    } else {
      assert r[a] == s[a] && r[b] == s[b - 1];
    }
  }
}
