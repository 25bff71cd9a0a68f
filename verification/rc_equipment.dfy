/** An equipment profile of the older `rfcoordinator` package: a tuning range in
    kHz, a tuning grid and the six clearances. */
module RcEquipment {
  import opened Errors
  import opened Intermods
  import opened Spacing

  datatype Equipment = Equipment(manufacturer: string, model: string, rangeLo: int, rangeHi: int,
                                 tuningAccuracy: int, spacings: Spacings)
  {
    /** `getChannelSpacing`. */
    function ChannelSpacing(): int {
      spacings.channel
    }

    /** The getter for the clearance of product type `t` (`get2t3oSpacing` and so on). */
    function GetSpacing(t: ImType): (r: int)
      ensures t == IM2T3O ==> r == spacings.im2t3o
      ensures t == IM2T5O ==> r == spacings.im2t5o
      ensures t == IM2T7O ==> r == spacings.im2t7o
      ensures t == IM2T9O ==> r == spacings.im2t9o
      ensures t == IM3T3O ==> r == spacings.im3t3o
    {
      spacings.Im(t)
    }

    /** `getMaxImSpacing`: the constructor stores the largest of the five product
        clearances. */
    function MaxImSpacing(): (r: int)
      ensures forall t :: GetSpacing(t) <= r
      ensures exists t :: GetSpacing(t) == r
    {
      var m := spacings.MaxIm();
      var t :| spacings.Im(t) == m;
      assert GetSpacing(t) == m;
      m
    }
  }

  /** The constructor: a null manufacturer or model is stored as the empty string and
      the range, given in MHz, is stored in kHz. */
  function NewEquipment(manufacturer: Option<string>, model: Option<string>, rangeLo: int, rangeHi: int,
                        tuningAccuracy: int, spacingChannel: int, spacing2t3o: int, spacing2t5o: int,
                        spacing2t7o: int, spacing2t9o: int, spacing3t3o: int): (e: Equipment)
    ensures e.manufacturer == (if manufacturer.None? then "" else manufacturer.value)
    ensures e.model == (if model.None? then "" else model.value)
    ensures e.rangeLo == rangeLo * 1000 && e.rangeHi == rangeHi * 1000
    ensures e.tuningAccuracy == tuningAccuracy && e.ChannelSpacing() == spacingChannel
    ensures e.GetSpacing(IM2T3O) == spacing2t3o && e.GetSpacing(IM2T5O) == spacing2t5o
    ensures e.GetSpacing(IM2T7O) == spacing2t7o && e.GetSpacing(IM2T9O) == spacing2t9o
    ensures e.GetSpacing(IM3T3O) == spacing3t3o
  {
    Equipment(if manufacturer.None? then "" else manufacturer.value,
              if model.None? then "" else model.value,
              rangeLo * 1000, rangeHi * 1000, tuningAccuracy,
              Spacings(spacingChannel, spacing2t3o, spacing2t5o, spacing2t7o, spacing2t9o, spacing3t3o))
  }

  /** `equals`: all eleven stored fields, the range included. */
  predicate Equals(a: Equipment, b: Equipment) {
    && a.manufacturer == b.manufacturer && a.model == b.model
    && a.rangeLo == b.rangeLo && a.rangeHi == b.rangeHi
    && a.tuningAccuracy == b.tuningAccuracy && a.ChannelSpacing() == b.ChannelSpacing()
    && a.GetSpacing(IM2T3O) == b.GetSpacing(IM2T3O) && a.GetSpacing(IM2T5O) == b.GetSpacing(IM2T5O)
    && a.GetSpacing(IM2T7O) == b.GetSpacing(IM2T7O) && a.GetSpacing(IM2T9O) == b.GetSpacing(IM2T9O)
    && a.GetSpacing(IM3T3O) == b.GetSpacing(IM3T3O)
  }

  /** Because every stored field takes part, `equals` is plain equality of profiles. */
  lemma EqualsIsEquality(a: Equipment, b: Equipment)
    ensures Equals(a, b) <==> a == b
  {
    if Equals(a, b) {
      assert a.spacings == b.spacings;
    }
  }

  /** A null manufacturer or model and an empty one give equal profiles. */
  lemma NullNamesAreEmpty(lo: int, hi: int, acc: int, sc: int, s1: int, s2: int, s3: int, s4: int, s5: int)
    ensures Equals(NewEquipment(None, None, lo, hi, acc, sc, s1, s2, s3, s4, s5),
                   NewEquipment(Some(""), Some(""), lo, hi, acc, sc, s1, s2, s3, s4, s5))
  {
  }
}
