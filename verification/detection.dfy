/** The two conflict predicates and the scans that collect their conflicts. Detection
    reads only frequencies, spacings and products; recording the conflicts in the
    channels' own lists is left to the engines. */
module Detection {
  import opened Intermods
  import opened Conflicts
  import opened Spacing
  import opened Search

  /** A channel-spacing conflict with victim `victim`: two different channel objects
      closer than the victim's own channel spacing. The relation is not symmetric. */
  predicate ChannelClash(victim: Tx, other: Tx) {
    victim.handle != other.handle && Abs(victim.freq - other.freq) < victim.spacings.channel
  }

  /** An intermod-spacing conflict: the victim does not generate the product and is
      closer to it than the victim's clearance for that product type. */
  predicate ImClash(victim: Tx, m: Intermod) {
    !m.GeneratedBy(victim.handle) && Abs(victim.freq - m.Freq()) < victim.spacings.Im(m.imType)
  }

  /** Every product that clashes with a channel lies strictly inside the window
      `(freq - maxImSpacing, freq + maxImSpacing)`. */
  lemma ImClashInsideWindow(victim: Tx, m: Intermod)
    requires ImClash(victim, m)
    ensures victim.freq - victim.spacings.MaxIm() < m.Freq() < victim.freq + victim.spacings.MaxIm()
  {
    assert victim.spacings.Im(m.imType) <= victim.spacings.MaxIm();
  }

  /** `getChannelIMConflicts` applied to each product of a list in turn (a full scan). */
  function ImConflicts(victim: Tx, ims: seq<Intermod>): (r: seq<Conflict>)
    ensures forall m :: IntermodConflict(victim.Ref(), m) in r <==> m in ims && ImClash(victim, m)
    ensures forall c :: c in r ==> c.IntermodConflict? && c.channel == victim.Ref()
    ensures |r| <= |ims|
  {
    if |ims| == 0 then []
    else
      var here := if ImClash(victim, ims[0]) then [IntermodConflict(victim.Ref(), ims[0])] else [];
      here + ImConflicts(victim, ims[1..])
  }

  /** The single-channel `getIMConflicts` / `analyseIMSpacing` loop: start at `start`
      and test products until one reaches `freq + maxImSpacing`. */
  function WindowImConflicts(victim: Tx, ims: seq<Intermod>, start: nat): (r: seq<Conflict>)
    requires start <= |ims|
  {
    ImConflicts(victim, ScanFrom(ims, start, victim.freq + victim.spacings.MaxIm()))
  }

  /** Window-scan completeness: on a frequency-sorted list, starting at the first
      product above `freq - maxImSpacing`, the window loop reports exactly the
      conflicts of a full scan, in the same order. */
  lemma WindowScanComplete(victim: Tx, ims: seq<Intermod>, start: nat)
    requires FreqSorted(ims) && IsNextIndex(ims, victim.freq - victim.spacings.MaxIm(), start)
    ensures WindowImConflicts(victim, ims, start) == ImConflicts(victim, ims)
  {
    ScanVisitsWindow(ims, victim.freq - victim.spacings.MaxIm(), victim.freq + victim.spacings.MaxIm(), start);
    WindowIsFilteredWindow(victim, ims, start);
  }

  /** Once the scan is known to visit exactly the window, its conflicts are the
      full scan's. */
  lemma WindowIsFilteredWindow(victim: Tx, ims: seq<Intermod>, start: nat)
    requires start <= |ims|
    requires ScanFrom(ims, start, victim.freq + victim.spacings.MaxIm())
          == InWindow(ims, victim.freq - victim.spacings.MaxIm(), victim.freq + victim.spacings.MaxIm())
    ensures WindowImConflicts(victim, ims, start) == ImConflicts(victim, ims)
  {
    OutsideWindowIrrelevant(victim, ims);
  }

  /** The contrapositive of `ImClashInsideWindow`. */
  lemma NoClashOutsideWindow(victim: Tx, m: Intermod)
    requires !(victim.freq - victim.spacings.MaxIm() < m.Freq() < victim.freq + victim.spacings.MaxIm())
    ensures !ImClash(victim, m)
  {
    assert victim.spacings.Im(m.imType) <= victim.spacings.MaxIm();
  }

  /** Products outside the window never clash, so dropping them changes nothing. */
  lemma OutsideWindowIrrelevant(victim: Tx, ims: seq<Intermod>)
    ensures ImConflicts(victim, InWindow(ims, victim.freq - victim.spacings.MaxIm(), victim.freq + victim.spacings.MaxIm()))
         == ImConflicts(victim, ims)
  {
    WindowScan(victim, ims, victim.freq - victim.spacings.MaxIm(), victim.freq + victim.spacings.MaxIm());
  }

  /** The same, for any names for the window bounds. */
  lemma {:induction false} WindowScan(victim: Tx, ims: seq<Intermod>, lo: int, hi: int)
    requires lo == victim.freq - victim.spacings.MaxIm() && hi == victim.freq + victim.spacings.MaxIm()
    ensures ImConflicts(victim, InWindow(ims, lo, hi)) == ImConflicts(victim, ims)
    decreases |ims|
  {
    if |ims| > 0 {
      WindowScan(victim, ims[1..], lo, hi);
      OutsideWindowStep(victim, ims, lo, hi);
    } else {
      assert InWindow(ims, lo, hi) == [];
    }
  }

  /** Whether or not the head of the list lies in the window, the scans agree on
      the whole list once they agree on its tail. */
  lemma OutsideWindowStep(victim: Tx, ims: seq<Intermod>, lo: int, hi: int)
    requires |ims| > 0 && lo == victim.freq - victim.spacings.MaxIm() && hi == victim.freq + victim.spacings.MaxIm()
    requires ImConflicts(victim, InWindow(ims[1..], lo, hi)) == ImConflicts(victim, ims[1..])
    ensures ImConflicts(victim, InWindow(ims, lo, hi)) == ImConflicts(victim, ims)
  {
    var w' := InWindow(ims[1..], lo, hi);
    if lo < ims[0].Freq() < hi {
      assert InWindow(ims, lo, hi) == [ims[0]] + w';
      ImConflictsCons(victim, ims[0], w');
    } else {
      NoClashOutsideWindow(victim, ims[0]);
      assert InWindow(ims, lo, hi) == w';
      ImConflictsSkip(victim, ims);
    }
  }

  /** One step of the scan over a product list. */
  lemma ImConflictsCons(victim: Tx, m: Intermod, rest: seq<Intermod>)
    ensures ImConflicts(victim, [m] + rest)
         == (if ImClash(victim, m) then [IntermodConflict(victim.Ref(), m)] else []) + ImConflicts(victim, rest)
  {
    var s := [m] + rest;
    assert s[0] == m && s[1..] == rest;
  }

  /** A product that does not clash adds nothing to the scan. */
  lemma ImConflictsSkip(victim: Tx, ims: seq<Intermod>)
    requires |ims| > 0 && !ImClash(victim, ims[0])
    ensures ImConflicts(victim, ims) == ImConflicts(victim, ims[1..])
  {
    var tail := ImConflicts(victim, ims[1..]);
    assert [] + tail == tail;
  }

  /** The windowed search started with the analysers' binary search. */
  function SearchedImConflicts(victim: Tx, ims: seq<Intermod>): (r: seq<Conflict>)
    ensures FreqSorted(ims) ==> r == ImConflicts(victim, ims)
  {
    SearchedWindowComplete(victim, ims);
    WindowImConflicts(victim, ims, EarlyExitNextIndex(victim.freq - victim.spacings.MaxIm(), ims))
  }

  lemma SearchedWindowComplete(victim: Tx, ims: seq<Intermod>)
    ensures var start := EarlyExitNextIndex(victim.freq - victim.spacings.MaxIm(), ims);
            FreqSorted(ims) ==> WindowImConflicts(victim, ims, start) == ImConflicts(victim, ims)
  {
    if FreqSorted(ims) {
      WindowScanComplete(victim, ims, EarlyExitNextIndex(victim.freq - victim.spacings.MaxIm(), ims));
    }
  }

  /** The list form of `getIMConflicts` / `analyseIMSpacing`: each channel in turn,
      against every product. */
  function ImConflictsAll(victims: seq<Tx>, ims: seq<Intermod>): (r: seq<Conflict>)
    ensures forall c :: c in r ==> c.IntermodConflict?
    ensures forall v, m :: v in victims && m in ims && ImClash(v, m) ==> IntermodConflict(v.Ref(), m) in r
  {
    if |victims| == 0 then []
    else ImConflicts(victims[0], ims) + ImConflictsAll(victims[1..], ims)
  }

  /** The window loop run for each channel in turn, each started at its own split point. */
  function SearchedImConflictsAll(victims: seq<Tx>, ims: seq<Intermod>): (r: seq<Conflict>)
    ensures FreqSorted(ims) ==> r == ImConflictsAll(victims, ims)
  {
    if |victims| == 0 then []
    else SearchedImConflicts(victims[0], ims) + SearchedImConflictsAll(victims[1..], ims)
  }

  /** Every conflict the list form reports has a victim in the list and a product
      from the list that clashes with it. */
  lemma {:induction false} ImConflictsAllSound(victims: seq<Tx>, ims: seq<Intermod>, c: Conflict)
    requires c in ImConflictsAll(victims, ims)
    ensures exists v :: v in victims && c == IntermodConflict(v.Ref(), c.conflictIntermod)
                        && c.conflictIntermod in ims && ImClash(v, c.conflictIntermod)
  {
    if c in ImConflicts(victims[0], ims) {
      assert c == IntermodConflict(victims[0].Ref(), c.conflictIntermod);
      assert victims[0] in victims;
    } else {
      ImConflictsAllSound(victims[1..], ims, c);
      var v :| v in victims[1..] && c == IntermodConflict(v.Ref(), c.conflictIntermod)
               && c.conflictIntermod in ims && ImClash(v, c.conflictIntermod);
      assert v in victims;
    }
  }

  /** The conflicts one pair of channels produces, list channel first: `getChannelConflicts`'
      loop body and the old `getConflictsTwoChannels`. */
  function TwoChannelConflicts(c: Tx, x: Tx): (r: seq<Conflict>)
    ensures ChannelConflict(c.Ref(), x.Ref()) in r <==> ChannelClash(c, x)
    ensures ChannelConflict(x.Ref(), c.Ref()) in r <==> ChannelClash(x, c)
    ensures forall k :: k in r ==> k.ChannelConflict?
    ensures forall k :: k in r ==> (k == ChannelConflict(c.Ref(), x.Ref()) && ChannelClash(c, x))
                                   || (k == ChannelConflict(x.Ref(), c.Ref()) && ChannelClash(x, c))
  {
    if c.handle == x.handle then []
    else
      (if ChannelClash(c, x) then [ChannelConflict(c.Ref(), x.Ref())] else [])
      + (if ChannelClash(x, c) then [ChannelConflict(x.Ref(), c.Ref())] else [])
  }

  /** The channel-spacing conflicts between `x` and every channel of the list, in
      list order (the loop of `getChannelConflicts` / `analyseChannelSpacing`). */
  function ChannelConflicts(list: seq<Tx>, x: Tx): (r: seq<Conflict>)
    ensures forall k :: k in r ==> k.ChannelConflict?
    ensures forall c :: c in list && ChannelClash(c, x) ==> ChannelConflict(c.Ref(), x.Ref()) in r
    ensures forall c :: c in list && ChannelClash(x, c) ==> ChannelConflict(x.Ref(), c.Ref()) in r
    ensures forall k :: k in r ==> exists c :: c in list && ((k == ChannelConflict(c.Ref(), x.Ref()) && ChannelClash(c, x))
                                                        || (k == ChannelConflict(x.Ref(), c.Ref()) && ChannelClash(x, c)))
  {
    if |list| == 0 then []
    else
      var rest := ChannelConflicts(list[1..], x);
      assert forall c :: c in list[1..] ==> c in list;
      TwoChannelConflicts(list[0], x) + rest
  }
}
