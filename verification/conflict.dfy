/** Conflicts between a victim channel and a nearby channel or product, and the
    validity a channel derives from the conflicts it holds. */
module Conflicts {
  import opened Errors
  import opened Intermods

  datatype ConflictKind = ChannelSpacing | IntermodSpacing | WhiteSpace

  /** A conflict always names its victim (`channel`); a channel-spacing conflict also
      names the conflicting channel and an intermod-spacing conflict the product. */
  datatype Conflict =
    | ChannelConflict(channel: ChannelRef, conflictChannel: ChannelRef)
    | IntermodConflict(channel: ChannelRef, conflictIntermod: Intermod)
    | WhiteSpaceConflict(channel: ChannelRef)
  {
    function Kind(): ConflictKind {
      match this
      case ChannelConflict(_, _) => ChannelSpacing
      case IntermodConflict(_, _) => IntermodSpacing
      case WhiteSpaceConflict(_) => WhiteSpace
    }

    /** `getConflictChannel`: null unless this is a channel-spacing conflict. */
    function ConflictChannel(): Option<ChannelRef> {
      if ChannelConflict? then Some(conflictChannel) else None
    }

    /** `getConflictIntermod`: null unless this is an intermod-spacing conflict. */
    function ConflictIntermod(): Option<Intermod> {
      if IntermodConflict? then Some(conflictIntermod) else None
    }

    /** The channel object `h` is the victim, the conflicting channel or a generator
        of the conflicting product. */
    predicate Involves(h: nat) {
      channel.handle == h
      || (ConflictChannel().Some? && ConflictChannel().value.handle == h)
      || (ConflictIntermod().Some? && ConflictIntermod().value.GeneratedBy(h))
    }
  }

  /** `Conflict(Channel, Channel)`. */
  function NewChannelConflict(channel: Option<ChannelRef>, other: Option<ChannelRef>): (r: Result<Conflict>)
    ensures r.Ok? <==> channel.Some? && other.Some?
    ensures r.Err? ==> r.error == IllegalArgument
    ensures r.Ok? ==> r.value.Kind() == ChannelSpacing && r.value.channel == channel.value
    ensures r.Ok? ==> r.value.ConflictChannel() == other && r.value.ConflictIntermod() == None
  {
    if channel.None? || other.None? then Err(IllegalArgument)
    else Ok(ChannelConflict(channel.value, other.value))
  }

  /** `Conflict(Channel, Intermod)`. */
  function NewIntermodConflict(channel: Option<ChannelRef>, intermod: Option<Intermod>): (r: Result<Conflict>)
    ensures r.Ok? <==> channel.Some? && intermod.Some?
    ensures r.Err? ==> r.error == IllegalArgument
    ensures r.Ok? ==> r.value.Kind() == IntermodSpacing && r.value.channel == channel.value
    ensures r.Ok? ==> r.value.ConflictIntermod() == intermod && r.value.ConflictChannel() == None
  {
    if channel.None? || intermod.None? then Err(IllegalArgument)
    else Ok(IntermodConflict(channel.value, intermod.value))
  }

  /** `Conflict(Channel)`. */
  function NewWhiteSpaceConflict(channel: Option<ChannelRef>): (r: Result<Conflict>)
    ensures r.Ok? <==> channel.Some?
    ensures r.Err? ==> r.error == IllegalArgument
    ensures r.Ok? ==> r.value.Kind() == WhiteSpace && r.value.channel == channel.value
    ensures r.Ok? ==> r.value.ConflictChannel() == None && r.value.ConflictIntermod() == None
  {
    if channel.None? then Err(IllegalArgument) else Ok(WhiteSpaceConflict(channel.value))
  }

  /** A conflict's kind is fixed by which of the two optional references it holds. */
  lemma KindDiscipline(c: Conflict)
    ensures c.Kind() == ChannelSpacing <==> c.ConflictChannel().Some?
    ensures c.Kind() == IntermodSpacing <==> c.ConflictIntermod().Some?
    ensures c.ConflictChannel().None? || c.ConflictIntermod().None?
  {
  }

  datatype Validity = Valid | Invalid | Warning

  /** `setValidity`: a channel with no conflicts is VALID, a channel whose only
      conflict is a white-space one is a WARNING, anything else is INVALID. */
  function ValidityOf(conflicts: seq<Conflict>): (v: Validity)
    ensures v == Valid <==> |conflicts| == 0
    ensures v == Warning <==> |conflicts| == 1 && conflicts[0].Kind() == WhiteSpace
    ensures v == Invalid <==> |conflicts| > 1 || (exists c :: c in conflicts && c.Kind() != WhiteSpace)
  {
    if |conflicts| == 0 then Valid
    else if |conflicts| == 1 && conflicts[0].Kind() == WhiteSpace then Warning
    else Invalid
  }

  /** Java's `List.remove(Object)`: drop the first equal element, if any. */
  function RemoveFirst(s: seq<Conflict>, c: Conflict): (r: seq<Conflict>)
    ensures c in s ==> |r| == |s| - 1
    ensures c !in s ==> r == s
    ensures multiset(r) == multiset(s) - multiset{c}
  {
    if |s| == 0 then []
    else
      assert s == [s[0]] + s[1..];
      if s[0] == c then s[1..] else [s[0]] + RemoveFirst(s[1..], c)
  }

  /** The conflicts whose victim is the channel object `h`, in order. */
  function OfVictim(s: seq<Conflict>, h: nat): (r: seq<Conflict>)
    ensures forall c :: c in r <==> c in s && c.channel.handle == h
    ensures |r| <= |s|
  {
    if |s| == 0 then []
    else (if s[0].channel.handle == h then [s[0]] else []) + OfVictim(s[1..], h)
  }

  /** The conflicts that do not involve the channel object `h`, in order. */
  function NotInvolving(s: seq<Conflict>, h: nat): (r: seq<Conflict>)
    ensures forall c :: c in r <==> c in s && !c.Involves(h)
    ensures |r| <= |s|
  {
    if |s| == 0 then []
    else (if s[0].Involves(h) then [] else [s[0]]) + NotInvolving(s[1..], h)
  }

  /** The number of channel-spacing conflicts. */
  function CountChannel(s: seq<Conflict>): (n: nat)
    ensures n <= |s|
    ensures n == 0 <==> forall c :: c in s ==> c.Kind() != ChannelSpacing
  {
    if |s| == 0 then 0
    else (if s[0].Kind() == ChannelSpacing then 1 else 0) + CountChannel(s[1..])
  }

  /** The number of intermod-spacing conflicts with a product of type `t`. */
  function CountIntermod(s: seq<Conflict>, t: ImType): (n: nat)
    ensures n <= |s|
    ensures n == 0 <==> forall c :: c in s && c.IntermodConflict? ==> c.conflictIntermod.imType != t
  {
    if |s| == 0 then 0
    else
      var here := if s[0].IntermodConflict? && s[0].conflictIntermod.imType == t then 1 else 0;
      here + CountIntermod(s[1..], t)
  }

  /** The number of conflicts of kind `k` (`getNumConflictsOfType`). */
  function CountKind(s: seq<Conflict>, k: ConflictKind): (n: nat)
    ensures n <= |s|
    ensures n == 0 <==> forall c :: c in s ==> c.Kind() != k
  {
    if |s| == 0 then 0
    else (if s[0].Kind() == k then 1 else 0) + CountKind(s[1..], k)
  }

  /** Every conflict has exactly one kind, so the three counts add up to the length. */
  lemma {:induction false} KindCountsSum(s: seq<Conflict>)
    ensures CountKind(s, ChannelSpacing) + CountKind(s, IntermodSpacing) + CountKind(s, WhiteSpace) == |s|
  {
    if |s| > 0 {
      KindCountsSum(s[1..]);
    }
  }
}
