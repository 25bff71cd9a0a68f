/** The spacings an equipment profile demands, and the view of a channel that the
    conflict checks read: its object identity, its frequency and its spacings. */
module Spacing {
  import opened Intermods

  function Max(a: int, b: int): (r: int)
    ensures r >= a && r >= b && (r == a || r == b)
  {
    if a >= b then a else b
  }

  function Abs(x: int): (r: nat)
    ensures r == x || r == -x
  {
    if x < 0 then -x else x
  }

  /** Minimum clearances in kHz: to another channel, and to each product type. */
  datatype Spacings = Spacings(channel: int, im2t3o: int, im2t5o: int, im2t7o: int, im2t9o: int, im3t3o: int) {
    /** `getSpacing(type)`: the clearance demanded from a product of type `t`. */
    function Im(t: ImType): int {
      match t
      case IM2T3O => im2t3o
      case IM2T5O => im2t5o
      case IM2T7O => im2t7o
      case IM2T9O => im2t9o
      case IM3T3O => im3t3o
    }

    /** `maxImSpacing`: the largest of the five product clearances. */
    function MaxIm(): (r: int)
      ensures forall t :: Im(t) <= r
      ensures exists t :: Im(t) == r
    {
      var m := Max(Max(Max(Max(im2t3o, im2t5o), im2t7o), im2t9o), im3t3o);
      assert Im(IM2T3O) == im2t3o && Im(IM2T5O) == im2t5o && Im(IM2T7O) == im2t7o;
      assert Im(IM2T9O) == im2t9o && Im(IM3T3O) == im3t3o;
      m
    }
  }

  /** What the conflict checks read from a channel: `handle` stands for the Java
      object identity, `freq` is the tuned frequency in kHz. */
  datatype Tx = Tx(handle: nat, freq: int, spacings: Spacings) {
    /** The reference a product or a conflict keeps to this channel. */
    function Ref(): ChannelRef {
      ChannelRef(handle, freq)
    }
  }
}
