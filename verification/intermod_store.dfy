/** The generator's `IntermodStore`: a product list with a stack of saved lists.

    Java lists are objects, and the stack saves the live list by reference. The
    model keeps every list object the store has created in an arena `lists`; the
    store's list is `lists[current]` and each backup is an index into the arena.
    `add`, `remove` and `sort` change the current list object in place, so a saved
    reference sees those changes; `mergeIn` builds a new list object. */
module IntermodStores {
  import opened Errors
  import opened Intermods
  import opened IntermodOrder
  import opened Search

  datatype Store = Store(lists: seq<seq<Intermod>>, current: nat, backups: seq<nat>) {
    /** Every reference points at a list object of the arena. */
    predicate Valid() {
      current < |lists| && forall i :: 0 <= i < |backups| ==> backups[i] < |lists|
    }

    /** The products the store holds now. */
    function Contents(): seq<Intermod>
      requires Valid()
    {
      lists[current]
    }
  }

  /** The constructor: one empty list, no backups. */
  function NewStore(): (st: Store)
    ensures st.Valid() && st.Contents() == [] && st.backups == []
  {
    Store([[]], 0, [])
  }

  /** The current list object replaced by `s`. */
  function SetContents(st: Store, s: seq<Intermod>): (r: Store)
    requires st.Valid()
    ensures r.Valid() && r.Contents() == s && r.backups == st.backups && r.current == st.current
    ensures |r.lists| == |st.lists|
    ensures forall i :: 0 <= i < |st.lists| && i != st.current ==> r.lists[i] == st.lists[i]
  {
    st.(lists := st.lists[st.current := s])
  }

  /** `add`: append to the list, unsorted. */
  function Add(st: Store, m: Intermod): (r: Store)
    requires st.Valid()
    ensures r.Valid() && r.Contents() == st.Contents() + [m]
    ensures r.backups == st.backups
  {
    SetContents(st, st.Contents() + [m])
  }

  /** `remove(channel)`: drop every product the channel object `h` generates. */
  function Remove(st: Store, h: nat): (r: Store)
    requires st.Valid()
    ensures r.Valid() && r.backups == st.backups
    ensures forall m :: m in r.Contents() <==> m in st.Contents() && !m.GeneratedBy(h)
  {
    WithoutGeneratorMembers(st.Contents(), h);
    SetContents(st, WithoutGenerator(st.Contents(), h))
  }

  /** `sort`: Java's stable list sort, in place. */
  function SortStore(st: Store): (r: Store)
    requires st.Valid()
    ensures r.Valid() && r.backups == st.backups
    ensures multiset(r.Contents()) == multiset(st.Contents())
  {
    SetContents(st, Sort(st.Contents()))
  }

  /** `pushToBackupStack`: save a reference to the current list object. */
  function Push(st: Store): (r: Store)
    requires st.Valid()
    ensures r.Valid() && r.Contents() == st.Contents() && |r.backups| == |st.backups| + 1
  {
    st.(backups := st.backups + [st.current])
  }

  /** `popFromBackupStack`: make the last saved list object current again; an empty
      stack makes `remove(size() - 1)` fail. */
  function Pop(st: Store): (r: Result<Store>)
    requires st.Valid()
    ensures r.Err? <==> st.backups == []
    ensures r.Err? ==> r.error == IndexOutOfBounds
    ensures r.Ok? ==> r.value.Valid() && r.value.lists == st.lists
    ensures r.Ok? ==> r.value.Contents() == st.lists[st.backups[|st.backups| - 1]]
    ensures r.Ok? ==> r.value.backups == st.backups[..|st.backups| - 1]
  {
    if |st.backups| == 0 then Err(IndexOutOfBounds)
    else Ok(st.(current := st.backups[|st.backups| - 1], backups := st.backups[..|st.backups| - 1]))
  }

  /** `mergeIn(other)`: a new list object holding the two lists merged. */
  function MergeIn(st: Store, other: seq<Intermod>): (r: Store)
    requires st.Valid()
    ensures r.Valid() && r.backups == st.backups
    ensures |r.lists| == |st.lists| + 1 && r.lists[..|st.lists|] == st.lists
    ensures multiset(r.Contents()) == multiset(st.Contents()) + multiset(other)
  {
    var merged := Merge(st.Contents(), other);
    Store(st.lists + [merged], |st.lists|, st.backups)
  }

  function Size(st: Store): nat
    requires st.Valid()
  {
    |st.Contents()|
  }

  function IsEmpty(st: Store): bool
    requires st.Valid()
  {
    |st.Contents()| == 0
  }

  /** `getNextImIndex(limitLo)`: the early-exit search over the whole list. */
  function NextImIndex(st: Store, limit: int): (r: int)
    requires st.Valid()
    ensures 0 <= r <= Size(st)
    ensures FreqSorted(st.Contents()) ==> IsNextIndex(st.Contents(), limit, r)
  {
    EarlyExitNextIndex(limit, st.Contents())
  }

  /** The products `forRange(lo, hi, consumer)` hands to the consumer, in order. */
  function ForRange(st: Store, lo: int, hi: int): seq<Intermod>
    requires st.Valid()
  {
    ScanFrom(st.Contents(), NextImIndex(st, lo), hi)
  }

  // ---- Properties ----------------------------------------------------------------

  /** On a frequency-sorted store, `forRange` visits exactly the products strictly
      between the bounds, in list order. */
  lemma ForRangeIsWindow(st: Store, lo: int, hi: int)
    requires st.Valid() && FreqSorted(st.Contents())
    ensures ForRange(st, lo, hi) == InWindow(st.Contents(), lo, hi)
    ensures forall m :: m in ForRange(st, lo, hi) <==> m in st.Contents() && lo < m.Freq() < hi
  {
    ScanVisitsWindow(st.Contents(), lo, hi, NextImIndex(st, lo));
  }

  /** `isEmpty` answers whether `size` is zero. */
  lemma IsEmptyIffSizeZero(st: Store)
    requires st.Valid()
    ensures IsEmpty(st) <==> Size(st) == 0
    ensures IsEmpty(st) <==> forall m :: m !in st.Contents()
  {
    if !IsEmpty(st) {
      assert st.Contents()[0] in st.Contents();
    }
  }

  /** `mergeIn` of two sorted stores leaves a sorted permutation of both lists. */
  lemma MergeInSorted(st: Store, other: seq<Intermod>)
    requires st.Valid() && Sorted(st.Contents()) && Sorted(other)
    requires AllWellFormed(st.Contents()) && AllWellFormed(other)
    ensures Sorted(MergeIn(st, other).Contents())
    ensures multiset(MergeIn(st, other).Contents()) == multiset(st.Contents()) + multiset(other)
  {
    MergeSorted(st.Contents(), other);
  }

  /** `remove` keeps a sorted store sorted. */
  lemma RemoveKeepsSorted(st: Store, h: nat)
    requires st.Valid() && Sorted(st.Contents())
    ensures Sorted(Remove(st, h).Contents())
  {
    WithoutGeneratorSorted(st.Contents(), h);
  }

  /** `sort` leaves the list sorted. */
  lemma SortStoreSorted(st: Store)
    requires st.Valid() && AllWellFormed(st.Contents())
    ensures Sorted(SortStore(st).Contents())
  {
    SortSorted(st.Contents());
  }

  /** Push, merge in, pop: the merge is undone, since it built a new list object. */
  lemma PushMergePopRestores(st: Store, other: seq<Intermod>)
    requires st.Valid()
    ensures Pop(MergeIn(Push(st), other)).Ok?
    ensures Pop(MergeIn(Push(st), other)).value.Contents() == st.Contents()
    ensures Pop(MergeIn(Push(st), other)).value.backups == st.backups
  {
    var m := MergeIn(Push(st), other);
    assert m.lists[st.current] == st.lists[st.current] by {
      assert m.lists[..|st.lists|] == st.lists;
    }
  }

  /** Push, add, pop: the addition survives, since the saved reference is the same
      list object. */
  lemma PushAddPopKeeps(st: Store, x: Intermod)
    requires st.Valid()
    ensures Pop(Add(Push(st), x)).Ok?
    ensures Pop(Add(Push(st), x)).value.Contents() == st.Contents() + [x]
  {
  }

  /** Push, remove, pop: the removal survives as well. */
  lemma PushRemovePopKeeps(st: Store, h: nat)
    requires st.Valid()
    ensures Pop(Remove(Push(st), h)).Ok?
    ensures forall m :: m in Pop(Remove(Push(st), h)).value.Contents() <==> m in st.Contents() && !m.GeneratedBy(h)
  {
  }
}
