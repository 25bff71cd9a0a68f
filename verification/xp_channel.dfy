/** A transmitter channel (rfxp): its tuning, its equipment and the conflicts it is
    the victim of. `handle` stands for the Java object identity. The validity the
    class caches is recomputed after every change to the conflict list, so here it
    is derived from that list. */
module XpChannel {
  import opened Errors
  import opened Intermods
  import opened Conflicts
  import opened Spacing
  import opened XpRange
  import opened XpEquipment
  import Text

  datatype Channel = Channel(handle: nat, id: int, freq: int, name: string, equipment: Equipment,
                             range: Option<Range>, conflicts: seq<Conflict>)
  {
    /** `getValidity`. */
    function Validity(): Validity {
      ValidityOf(conflicts)
    }

    /** What the conflict checks read from the channel. */
    function View(): Tx {
      Spacing.Tx(handle, freq, equipment.spacings)
    }

    function Ref(): ChannelRef {
      ChannelRef(handle, freq)
    }
  }

  /** The name the three-argument constructor gives: "Channel " and the id plus one
      (1 for a null id). */
  function DefaultName(id: Option<int>): (name: string)
    ensures |name| > 8 && name[..8] == "Channel "
    ensures name[8..] == Text.IntToString(if id.None? then 1 else id.value + 1)
  {
    var s := "Channel " + Text.IntToString(if id.None? then 1 else id.value + 1);
    assert s[..8] == "Channel ";
    s
  }

  /** The four-argument constructor, for a fresh object `handle`: a null equipment is
      an illegal argument, a frequency the equipment cannot tune to is an invalid
      frequency, a null id becomes 0, and the conflict list starts empty. */
  function NewChannel(handle: nat, id: Option<int>, freq: int, name: string,
                      equipment: Option<Equipment>): (r: Result<Channel>)
    ensures equipment.None? ==> r == Err(IllegalArgument)
    ensures equipment.Some? && equipment.value.IsFrequencyValid(freq) == Ok(false) ==> r == Err(InvalidFrequency)
    ensures r.Ok? <==> equipment.Some? && equipment.value.IsFrequencyValid(freq) == Ok(true)
    ensures r.Ok? ==> r.value == Channel(handle, if id.None? then 0 else id.value, freq, name,
                                         equipment.value, None, [])
    ensures r.Ok? ==> r.value.Validity() == Valid
  {
    if equipment.None? then Err(IllegalArgument)
    else
      match equipment.value.IsFrequencyValid(freq)
      case Err(e) => Err(e)
      case Ok(valid) =>
        if !valid then Err(InvalidFrequency)
        else Ok(Channel(handle, if id.None? then 0 else id.value, freq, name, equipment.value, None, []))
  }

  /** The three-argument constructor: the four-argument one with the default name. */
  function NewDefaultChannel(handle: nat, id: Option<int>, freq: int, equipment: Option<Equipment>): (r: Result<Channel>)
    ensures r.Ok? <==> equipment.Some? && equipment.value.IsFrequencyValid(freq) == Ok(true)
    ensures r.Ok? ==> r.value.name == DefaultName(id)
    ensures r == NewChannel(handle, id, freq, DefaultName(id), equipment)
  {
    NewChannel(handle, id, freq, DefaultName(id), equipment)
  }

  /** `setFreqAndEquipment`: all checks happen before any field changes. */
  function SetFreqAndEquipment(c: Channel, freq: int, equipment: Option<Equipment>, range: Option<Range>): (r: Result<Channel>)
    ensures equipment.None? ==> r == Err(IllegalArgument)
    ensures r.Ok? <==> equipment.Some? && equipment.value.IsFrequencyValid(freq) == Ok(true)
    ensures r.Err? && equipment.Some? && equipment.value.IsFrequencyValid(freq).Ok? ==> r.error == InvalidFrequency
    ensures r.Ok? ==> r.value == c.(freq := freq, equipment := equipment.value, range := range)
  {
    if equipment.None? then Err(IllegalArgument)
    else
      match equipment.value.IsFrequencyValid(freq)
      case Err(e) => Err(e)
      case Ok(valid) =>
        if !valid then Err(InvalidFrequency)
        else Ok(c.(freq := freq, equipment := equipment.value, range := range))
  }

  /** `setFreq(int)`: a frequency outside the channel's own range, or one its
      equipment cannot tune to, is refused; the range is kept. */
  function SetFreq(c: Channel, freq: int): (r: Result<Channel>)
    ensures c.range.Some? && !c.range.value.IsValidFrequency(freq) ==> r == Err(InvalidFrequency)
    ensures r.Ok? <==> (c.range.None? || c.range.value.IsValidFrequency(freq))
                       && c.equipment.IsFrequencyValid(freq) == Ok(true)
    ensures r.Ok? ==> r.value == c.(freq := freq)
  {
    if c.range.Some? && !c.range.value.IsValidFrequency(freq) then Err(InvalidFrequency)
    else SetFreqAndEquipment(c, freq, Some(c.equipment), c.range)
  }

  /** `setEquipment`: the current frequency must suit the new equipment; the
      channel's range is cleared. */
  function SetEquipment(c: Channel, equipment: Option<Equipment>): (r: Result<Channel>)
    ensures equipment.None? ==> r == Err(IllegalArgument)
    ensures r.Ok? <==> equipment.Some? && equipment.value.IsFrequencyValid(c.freq) == Ok(true)
    ensures r.Ok? ==> r.value == c.(equipment := equipment.value, range := None)
  {
    SetFreqAndEquipment(c, c.freq, equipment, None)
  }

  /** No channel ever holds a profile with a zero tuning accuracy: the constructor
      and both setters check the frequency first, and that check either divides
      by zero or refuses a frequency outside the profile's range. */
  lemma ZeroAccuracyRefused(c: Channel, handle: nat, id: Option<int>, freq: int, name: string,
                            eq: Equipment, range: Option<Range>)
    requires eq.tuningAccuracy == 0
    ensures NewChannel(handle, id, freq, name, Some(eq)).Err?
    ensures SetFreqAndEquipment(c, freq, Some(eq), range).Err?
    ensures SetEquipment(c, Some(eq)).Err?
  {
  }

  function SetName(c: Channel, name: string): (r: Channel)
    ensures r.name == name && r.(name := c.name) == c
  {
    c.(name := name)
  }

  /** `addConflict`: a null conflict is ignored, any other is appended. */
  function AddConflict(c: Channel, conflict: Option<Conflict>): (r: Channel)
    ensures conflict.None? ==> r == c
    ensures conflict.Some? ==> r == c.(conflicts := c.conflicts + [conflict.value])
  {
    if conflict.None? then c else c.(conflicts := c.conflicts + [conflict.value])
  }

  /** `removeConflict`: true exactly when an occurrence was removed; the list never
      holds null, so removing null answers false. */
  function RemoveConflict(c: Channel, conflict: Option<Conflict>): (r: (bool, Channel))
    ensures r.0 <==> conflict.Some? && conflict.value in c.conflicts
    ensures !r.0 ==> r.1 == c
    ensures r.0 ==> r.1 == c.(conflicts := RemoveFirst(c.conflicts, conflict.value))
    ensures r.0 ==> |r.1.conflicts| == |c.conflicts| - 1
  {
    if conflict.Some? && conflict.value in c.conflicts then (true, c.(conflicts := RemoveFirst(c.conflicts, conflict.value)))
    else (false, c)
  }

  /** `clearConflicts`: the list is emptied and the channel is valid again. */
  function ClearConflicts(c: Channel): (r: Channel)
    ensures r.conflicts == [] && r.Validity() == Valid
    ensures r.(conflicts := c.conflicts) == c
  {
    c.(conflicts := [])
  }

  /** `equals`: equal equipment (range aside), name and frequency; the id, the range
      and the conflicts play no part. */
  predicate Equals(a: Channel, b: Channel) {
    XpEquipment.Equals(a.equipment, b.equipment) && a.name == b.name && a.freq == b.freq
  }

  /** `equals` is an equivalence relation. */
  lemma EqualsEquivalence(a: Channel, b: Channel, c: Channel)
    ensures Equals(a, a)
    ensures Equals(a, b) ==> Equals(b, a)
    ensures Equals(a, b) && Equals(b, c) ==> Equals(a, c)
  {
  }

  /** `compareTo`: by frequency only. */
  function CompareTo(a: Channel, b: Channel): (r: int)
    ensures r < 0 <==> a.freq < b.freq
    ensures r == 0 <==> a.freq == b.freq
    ensures r > 0 <==> a.freq > b.freq
  {
    Text.IntCompare(a.freq, b.freq)
  }

  /** Validity after each conflict-list operation, per `setValidity`. */
  lemma ValidityAfterOperations(c: Channel, k: Conflict)
    ensures AddConflict(c, Some(k)).Validity() == (if |c.conflicts| == 0 && k.Kind() == WhiteSpace then Warning else Invalid)
    ensures RemoveConflict(c, Some(k)).0 && |c.conflicts| == 1 ==> RemoveConflict(c, Some(k)).1.Validity() == Valid
  {
    var added := c.conflicts + [k];
    if |c.conflicts| == 0 {
      assert added == [k];
    } else {
      assert added[0] in added && k in added;
    }
  }
}
