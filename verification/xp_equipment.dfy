/** An equipment profile (rfxp): tuning grid, optional tuning range and clearances. */
module XpEquipment {
  import opened Errors
  import opened Intermods
  import opened Spacing
  import opened XpRange

  datatype Equipment = Equipment(manufacturer: string, model: string, tuningAccuracy: int,
                                 spacings: Spacings, range: Option<Range>)
  {
    /** `getChannelSpacing`. */
    function ChannelSpacing(): int {
      spacings.channel
    }

    /** `getSpacing(type)`: the clearance for products of type `t`. */
    function GetSpacing(t: ImType): (r: int)
      ensures t == IM2T3O ==> r == spacings.im2t3o
      ensures t == IM2T5O ==> r == spacings.im2t5o
      ensures t == IM2T7O ==> r == spacings.im2t7o
      ensures t == IM2T9O ==> r == spacings.im2t9o
      ensures t == IM3T3O ==> r == spacings.im3t3o
    {
      spacings.Im(t)
    }

    /** `getMaxImSpacing`: the largest of the five product clearances. */
    function MaxImSpacing(): (r: int)
      ensures forall t :: GetSpacing(t) <= r
      ensures exists t :: GetSpacing(t) == r
    {
      var m := spacings.MaxIm();
      var t :| spacings.Im(t) == m;
      assert GetSpacing(t) == m;
      m
    }

    /** `isFrequencyValid`: inside the range (when there is one) and on the tuning grid.
        The range test comes first, so a zero tuning accuracy only fails for a
        frequency the range admits. */
    function IsFrequencyValid(f: int): (r: Result<bool>)
      ensures r.Err? <==> tuningAccuracy == 0 && (range.None? || range.value.IsValidFrequency(f))
      ensures r.Err? ==> r.error == ArithmeticError
      ensures r.Ok? ==> (r.value <==> (range.None? || range.value.IsValidFrequency(f))
                                      && tuningAccuracy != 0 && f % tuningAccuracy == 0)
    {
      if range.Some? && !range.value.IsValidFrequency(f) then Ok(false)
      else if tuningAccuracy == 0 then Err(ArithmeticError)
      else Ok(f % tuningAccuracy == 0)
    }
  }

  /** The constructor: a null manufacturer or model is stored as the empty string. */
  function NewEquipment(manufacturer: Option<string>, model: Option<string>, tuningAccuracy: int,
                        spacingChannel: int, spacing2t3o: int, spacing2t5o: int, spacing2t7o: int,
                        spacing2t9o: int, spacing3t3o: int, range: Option<Range>): (e: Equipment)
    ensures e.manufacturer == (if manufacturer.None? then "" else manufacturer.value)
    ensures e.model == (if model.None? then "" else model.value)
    ensures e.tuningAccuracy == tuningAccuracy && e.ChannelSpacing() == spacingChannel && e.range == range
    ensures e.GetSpacing(IM2T3O) == spacing2t3o && e.GetSpacing(IM2T5O) == spacing2t5o
    ensures e.GetSpacing(IM2T7O) == spacing2t7o && e.GetSpacing(IM2T9O) == spacing2t9o
    ensures e.GetSpacing(IM3T3O) == spacing3t3o
  {
    Equipment(if manufacturer.None? then "" else manufacturer.value,
              if model.None? then "" else model.value,
              tuningAccuracy,
              Spacings(spacingChannel, spacing2t3o, spacing2t5o, spacing2t7o, spacing2t9o, spacing3t3o),
              range)
  }

  /** `equals`: every stored field except the range. */
  predicate Equals(a: Equipment, b: Equipment) {
    a.manufacturer == b.manufacturer && a.model == b.model && a.tuningAccuracy == b.tuningAccuracy
    && a.ChannelSpacing() == b.ChannelSpacing()
    && forall t: ImType :: a.GetSpacing(t) == b.GetSpacing(t)
  }

  /** Two profiles are equal exactly when they differ at most in their range. */
  lemma EqualsIgnoresRange(a: Equipment, b: Equipment)
    ensures Equals(a, b) <==> a.(range := b.range) == b
  {
    if Equals(a, b) {
      assert a.GetSpacing(IM2T3O) == b.GetSpacing(IM2T3O) && a.GetSpacing(IM2T5O) == b.GetSpacing(IM2T5O);
      assert a.GetSpacing(IM2T7O) == b.GetSpacing(IM2T7O) && a.GetSpacing(IM2T9O) == b.GetSpacing(IM2T9O);
      assert a.GetSpacing(IM3T3O) == b.GetSpacing(IM3T3O);
      assert a.spacings == b.spacings;
    }
  }
}
