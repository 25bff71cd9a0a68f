/** What it means for a conflict list to be right about a set of channels and a
    product list: every conflict in it still holds (sound) and every clash is in it
    (complete), with the facts both engines' proofs share. */
module Coverage {
  import opened Intermods
  import opened Conflicts
  import opened Spacing
  import opened Detection
  import opened IntermodOrder

  /** A reported conflict still holds among the views `vs` and the products `ims`. */
  predicate Holds(vs: seq<Tx>, ims: seq<Intermod>, k: Conflict) {
    match k
    case ChannelConflict(v, o) =>
      exists c, d :: c in vs && d in vs && c.Ref() == v && d.Ref() == o && ChannelClash(c, d)
    case IntermodConflict(v, m) =>
      m in ims && exists c :: c in vs && c.Ref() == v && ImClash(c, m)
    case WhiteSpaceConflict(_) => false
  }

  /** Every reported conflict holds. */
  predicate Sound(vs: seq<Tx>, ims: seq<Intermod>, cs: seq<Conflict>) {
    forall k :: k in cs ==> Holds(vs, ims, k)
  }

  /** Every clash between two channels is reported. */
  predicate ChannelsComplete(vs: seq<Tx>, cs: seq<Conflict>) {
    forall c, d :: c in vs && d in vs && ChannelClash(c, d) ==> ChannelConflict(c.Ref(), d.Ref()) in cs
  }

  /** Every clash between a channel and a product is reported. */
  predicate ImsComplete(vs: seq<Tx>, ims: seq<Intermod>, cs: seq<Conflict>) {
    forall c, m :: c in vs && m in ims && ImClash(c, m) ==> IntermodConflict(c.Ref(), m) in cs
  }

  /** Every clash is reported. */
  predicate Complete(vs: seq<Tx>, ims: seq<Intermod>, cs: seq<Conflict>) {
    ChannelsComplete(vs, cs) && ImsComplete(vs, ims, cs)
  }

  lemma AddChannelsComplete(olds: seq<Tx>, xv: Tx, oldcs: seq<Conflict>, k3: seq<Conflict>, cs: seq<Conflict>)
    requires ChannelsComplete(olds, oldcs)
    requires forall c :: c in olds + [xv] && ChannelClash(c, xv) ==> ChannelConflict(c.Ref(), xv.Ref()) in k3
    requires forall c :: c in olds + [xv] && ChannelClash(xv, c) ==> ChannelConflict(xv.Ref(), c.Ref()) in k3
    requires forall k :: k in oldcs ==> k in cs
    requires forall k :: k in k3 ==> k in cs
    ensures ChannelsComplete(olds + [xv], cs)
  {
    var vs := olds + [xv];
    forall c, d | c in vs && d in vs && ChannelClash(c, d)
      ensures ChannelConflict(c.Ref(), d.Ref()) in cs
    {
      if c == xv {
        assert ChannelConflict(xv.Ref(), d.Ref()) in k3;
      } else if d == xv {
        assert ChannelConflict(c.Ref(), xv.Ref()) in k3;
      } else {
        assert c in olds && d in olds;
      }
    }
  }

  lemma AddImsComplete(olds: seq<Tx>, xv: Tx, oldims: seq<Intermod>, newIms: seq<Intermod>, ims: seq<Intermod>,
                       oldcs: seq<Conflict>, k1: seq<Conflict>, k2: seq<Conflict>, cs: seq<Conflict>)
    requires ImsComplete(olds, oldims, oldcs)
    requires multiset(ims) == multiset(oldims) + multiset(newIms)
    requires forall m :: m in oldims && ImClash(xv, m) ==> IntermodConflict(xv.Ref(), m) in k1
    requires forall v, m :: v in olds + [xv] && m in newIms && ImClash(v, m) ==> IntermodConflict(v.Ref(), m) in k2
    requires forall k :: k in oldcs ==> k in cs
    requires forall k :: k in k1 ==> k in cs
    requires forall k :: k in k2 ==> k in cs
    ensures ImsComplete(olds + [xv], ims, cs)
  {
    var vs := olds + [xv];
    forall c, m | c in vs && m in ims && ImClash(c, m)
      ensures IntermodConflict(c.Ref(), m) in cs
    {
      assert m in multiset(oldims) + multiset(newIms);
      if m in newIms {
        assert IntermodConflict(c.Ref(), m) in k2;
      } else if c == xv {
        assert m in oldims;
        assert IntermodConflict(xv.Ref(), m) in k1;
      } else {
        assert c in olds;
      }
    }
  }

  /** Two soundness facts about consecutive parts of a conflict list combine. */
  lemma SoundAppend(vs: seq<Tx>, ims: seq<Intermod>, p: seq<Conflict>, q: seq<Conflict>)
    requires Sound(vs, ims, p) && Sound(vs, ims, q)
    ensures Sound(vs, ims, p + q)
  {
  }

  /** The soundness of what remains: conflicts not involving `h` still hold among the
      views without `h` and the products `h` does not generate. */
  lemma RemoveSound(vs: seq<Tx>, ims: seq<Intermod>, cs: seq<Conflict>, ws: seq<Tx>, h: nat)
    requires Sound(vs, ims, cs)
    requires forall v :: v in ws <==> v in vs && v.handle != h
    ensures Sound(ws, WithoutGenerator(ims, h), NotInvolving(cs, h))
  {
    WithoutGeneratorMembers(ims, h);
    forall k | k in NotInvolving(cs, h) ensures Holds(ws, WithoutGenerator(ims, h), k) {
      assert Holds(vs, ims, k);
      match k
      case ChannelConflict(v, o) =>
        var c, d :| c in vs && d in vs && c.Ref() == v && d.Ref() == o && ChannelClash(c, d);
        assert c in ws && d in ws;
      case IntermodConflict(v, m) =>
        var c :| c in vs && c.Ref() == v && ImClash(c, m);
        assert c in ws;
    }
  }

  /** The completeness of what remains. */
  lemma RemoveComplete(vs: seq<Tx>, ims: seq<Intermod>, cs: seq<Conflict>, ws: seq<Tx>, h: nat)
    requires Complete(vs, ims, cs)
    requires forall v :: v in ws <==> v in vs && v.handle != h
    ensures Complete(ws, WithoutGenerator(ims, h), NotInvolving(cs, h))
  {
    WithoutGeneratorMembers(ims, h);
  }

  /** Soundness survives adding channels and products. */
  lemma SoundGrow(vs: seq<Tx>, ims: seq<Intermod>, cs: seq<Conflict>, ws: seq<Tx>, jms: seq<Intermod>)
    requires Sound(vs, ims, cs)
    requires forall v :: v in vs ==> v in ws
    requires forall m :: m in ims ==> m in jms
    ensures Sound(ws, jms, cs)
  {
    forall k | k in cs ensures Holds(ws, jms, k) {
      assert Holds(vs, ims, k);
      match k
      case ChannelConflict(v, o) =>
        var c, d :| c in vs && d in vs && c.Ref() == v && d.Ref() == o && ChannelClash(c, d);
        assert c in ws && d in ws;
      case IntermodConflict(v, m) =>
        var c :| c in vs && c.Ref() == v && ImClash(c, m);
        assert c in ws;
    }
  }

  /** Completeness over some channels gives completeness over fewer. */
  lemma CompleteShrink(vs: seq<Tx>, ims: seq<Intermod>, cs: seq<Conflict>, ws: seq<Tx>)
    requires Complete(vs, ims, cs)
    requires forall v :: v in ws ==> v in vs
    ensures Complete(ws, ims, cs)
  {
  }

  /** The full scan of each victim against each product reports only clashes. */
  lemma ImConflictsAllIsSound(victims: seq<Tx>, ims: seq<Intermod>)
    ensures Sound(victims, ims, ImConflictsAll(victims, ims))
  {
    forall k | k in ImConflictsAll(victims, ims) ensures Holds(victims, ims, k) {
      ImConflictsAllSound(victims, ims, k);
    }
  }

  /** The channel-spacing pass of a listed channel reports only clashes. */
  lemma ChannelConflictsIsSound(list: seq<Tx>, x: Tx, ims: seq<Intermod>)
    requires x in list
    ensures Sound(list, ims, ChannelConflicts(list, x))
  {
  }

  /** A sound list holds no white-space conflict. */
  lemma SoundHasNoWhiteSpace(vs: seq<Tx>, ims: seq<Intermod>, cs: seq<Conflict>)
    requires Sound(vs, ims, cs)
    ensures forall k :: k in cs ==> !k.WhiteSpaceConflict?
  {
    forall k | k in cs ensures !k.WhiteSpaceConflict? {
      assert Holds(vs, ims, k);
    }
  }
}
