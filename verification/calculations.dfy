/** Which product types an analysis computes: five flags, all on by default. */
module Calculations {
  import opened Intermods

  datatype Calculations = Calculations(im2t3o: bool, im2t5o: bool, im2t7o: bool, im2t9o: bool, im3t3o: bool) {

    /** The getter for the flag of product type `t`. */
    function Get(t: ImType): bool {
      match t
      case IM2T3O => im2t3o
      case IM2T5O => im2t5o
      case IM2T7O => im2t7o
      case IM2T9O => im2t9o
      case IM3T3O => im3t3o
    }

    /** The setter for the flag of product type `t`. */
    function Set(t: ImType, value: bool): (r: Calculations)
      ensures r.Get(t) == value
      ensures forall u: ImType :: u != t ==> r.Get(u) == Get(u)
    {
      match t
      case IM2T3O => this.(im2t3o := value)
      case IM2T5O => this.(im2t5o := value)
      case IM2T7O => this.(im2t7o := value)
      case IM2T9O => this.(im2t9o := value)
      case IM3T3O => this.(im3t3o := value)
    }

    /** The number of enabled two-tone types (`s` in the count formula). */
    function TwoToneCount(): (s: nat)
      ensures s <= 4
      ensures s == 0 <==> forall t: ImType :: t.IsTwoTone() ==> !Get(t)
      ensures s == 4 <==> forall t: ImType :: t.IsTwoTone() ==> Get(t)
    {
      assert Get(IM2T3O) == im2t3o && Get(IM2T5O) == im2t5o && Get(IM2T7O) == im2t7o && Get(IM2T9O) == im2t9o;
      (if im2t3o then 1 else 0) + (if im2t5o then 1 else 0)
      + (if im2t7o then 1 else 0) + (if im2t9o then 1 else 0)
    }

    /** 1 when three-tone products are computed, else 0 (`t` in the count formula). */
    function ThreeToneCount(): (t: nat)
      ensures t <= 1
      ensures t == 1 <==> Get(IM3T3O)
    {
      if im3t3o then 1 else 0
    }
  }

  /** A fresh flag set: every product type is computed. */
  function Default(): (r: Calculations)
    ensures forall t: ImType :: r.Get(t)
    ensures r.TwoToneCount() == 4 && r.ThreeToneCount() == 1
  {
    Calculations(true, true, true, true, true)
  }
}
