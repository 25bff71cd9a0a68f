/** Intermodulation products: the spurious frequencies two or three transmitters
    produce together, their ordering and their equality. */
module Intermods {
  import opened Errors

  /** The five product types, in declaration order (the order `compareTo` uses). */
  datatype ImType = IM2T3O | IM2T5O | IM2T7O | IM2T9O | IM3T3O {

    /** Position in the declaration order. */
    function Ordinal(): nat {
      match this
      case IM2T3O => 0
      case IM2T5O => 1
      case IM2T7O => 2
      case IM2T9O => 3
      case IM3T3O => 4
    }

    /** The odd order of the product (3, 5, 7 or 9; the three-tone product is third order). */
    function Order(): nat {
      match this
      case IM2T3O => 3
      case IM2T5O => 5
      case IM2T7O => 7
      case IM2T9O => 9
      case IM3T3O => 3
    }

    predicate IsTwoTone() {
      this != IM3T3O
    }
  }

  /** A reference to a generating channel: which object it is and the frequency (kHz)
      it had when the product was computed. */
  datatype ChannelRef = ChannelRef(handle: nat, freq: int)

  /** A product. `f3` is only kept for the three-tone type. */
  datatype Intermod = Intermod(imType: ImType, f1: ChannelRef, f2: ChannelRef, f3: Option<ChannelRef>) {

    /** The constructor stores a third generator exactly for the three-tone type. */
    predicate WellFormed() {
      (imType == IM3T3O) == f3.Some?
    }

    /** The product's frequency in kHz. */
    function Freq(): int {
      match imType
      case IM2T3O => 2 * f1.freq - f2.freq
      case IM2T5O => 3 * f1.freq - 2 * f2.freq
      case IM2T7O => 4 * f1.freq - 3 * f2.freq
      case IM2T9O => 5 * f1.freq - 4 * f2.freq
      case IM3T3O => f1.freq + f2.freq - (if f3.Some? then f3.value.freq else 0)
    }

    /** True when the channel object `h` is one of the generators. */
    predicate GeneratedBy(h: nat) {
      f1.handle == h || f2.handle == h || (f3.Some? && f3.value.handle == h)
    }
  }

  /** The constructor: a null type or a null first or second generator is an illegal
      argument; a null third generator for a three-tone product fails when its
      frequency is read. */
  function New(imType: Option<ImType>, f1: Option<ChannelRef>, f2: Option<ChannelRef>,
               f3: Option<ChannelRef>): (r: Result<Intermod>)
    ensures r.Ok? <==> imType.Some? && f1.Some? && f2.Some? && (imType.value == IM3T3O ==> f3.Some?)
    ensures r.Err? && r.error == IllegalArgument <==> imType.None? || f1.None? || f2.None?
    ensures r.Err? && r.error != IllegalArgument ==> r.error == NullReference
    ensures r.Ok? ==> r.value.WellFormed() && r.value.imType == imType.value
    ensures r.Ok? ==> r.value.f1 == f1.value && r.value.f2 == f2.value
    ensures r.Ok? && imType.value.IsTwoTone() ==>
      var k := (imType.value.Order() - 1) / 2;
      r.value.Freq() == (k + 1) * f1.value.freq - k * f2.value.freq
    ensures r.Ok? && imType.value == IM3T3O ==>
      r.value.Freq() == f1.value.freq + f2.value.freq - f3.value.freq
  {
    if imType.None? || f1.None? || f2.None? then Err(IllegalArgument)
    else if imType.value == IM3T3O && f3.None? then Err(NullReference)
    else Ok(Intermod(imType.value, f1.value, f2.value, if imType.value == IM3T3O then f3 else None))
  }

  /** A two-tone product of order 2k+1 lies k channel gaps beyond its first generator. */
  lemma TwoToneProductSpacing(m: Intermod)
    requires m.imType.IsTwoTone()
    ensures m.Freq() - m.f1.freq == (m.imType.Order() - 1) / 2 * (m.f1.freq - m.f2.freq)
  {
  }

  /** `compareTo`: frequency, then type, then the generators' frequencies; the third
      generator only when both products have one. */
  function Compare(a: Intermod, b: Intermod): int {
    if a.Freq() - b.Freq() != 0 then a.Freq() - b.Freq()
    else if a.imType.Ordinal() - b.imType.Ordinal() != 0 then a.imType.Ordinal() - b.imType.Ordinal()
    else if a.f1.freq - b.f1.freq != 0 then a.f1.freq - b.f1.freq
    else if a.f2.freq - b.f2.freq != 0 then a.f2.freq - b.f2.freq
    else if a.f3.Some? && b.f3.Some? then a.f3.value.freq - b.f3.value.freq
    else 0
  }

  /** `equals`: frequency, type and the first two generators' frequencies. */
  predicate Equals(a: Intermod, b: Intermod) {
    a.Freq() == b.Freq() && a.imType == b.imType && a.f1.freq == b.f1.freq && a.f2.freq == b.f2.freq
  }

  /** `a` may come before `b` in a sorted list. */
  predicate Le(a: Intermod, b: Intermod) {
    Compare(a, b) <= 0
  }

  /** Swapping the arguments flips the sign of the comparison. */
  lemma CompareAntisymmetric(a: Intermod, b: Intermod)
    ensures Compare(a, b) < 0 <==> Compare(b, a) > 0
    ensures Compare(a, b) == 0 <==> Compare(b, a) == 0
  {
  }

  /** Ordering is first by frequency. */
  lemma CompareOrdersByFrequency(a: Intermod, b: Intermod)
    ensures a.Freq() < b.Freq() ==> Compare(a, b) < 0
    ensures Compare(a, b) <= 0 ==> a.Freq() <= b.Freq()
  {
  }

  /** For well-formed products `equals` and `compareTo` agree: the omitted third
      generator of a three-tone product is fixed by the other three frequencies. */
  lemma EqualsIffCompareZero(a: Intermod, b: Intermod)
    requires a.WellFormed() && b.WellFormed()
    ensures Equals(a, b) <==> Compare(a, b) == 0
  {
    if a.imType == IM3T3O && b.imType == IM3T3O && Equals(a, b) {
      assert a.f3.value.freq == a.f1.freq + a.f2.freq - a.Freq();
    }
  }

  /** `compareTo` is a total preorder on well-formed products. */
  lemma LeTotal(a: Intermod, b: Intermod)
    ensures Le(a, b) || Le(b, a)
  {
  }

  lemma LeTransitive(a: Intermod, b: Intermod, c: Intermod)
    requires a.WellFormed() && b.WellFormed() && c.WellFormed()
    requires Le(a, b) && Le(b, c)
    ensures Le(a, c)
  {
  }
}
