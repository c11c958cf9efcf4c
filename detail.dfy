/** Bit helpers of the hardware layer: single-bit tests and 15-bit colour packing. */
module Detail {

  /** `test_bit(data, bit)` for the 32-bit words the layer reads (key input is passed as a `u32`);
      `bit` is a `u8`. Shifting by 32 or more is undefined in the source, hence the precondition.
      The result says whether the one-bit mask for position `bit` lies wholly inside `data`. */
  function TestBit(data: bv32, bit: bv8): (isSet: bool)
    requires bit < 32
    ensures isSet <==> data & (1 << bit) == 1 << bit
  {
    data & (1 << bit) != 0
  }

  /** `rgb15(r, g, b)`: red in bits 0-4, green in bits 5-9, blue in bits 10-14. The channels are
      promoted to `int`, shifted, or-ed and truncated to 16 bits on return; shifting a `bv16`
      drops the same high bits. */
  function Rgb15(r: bv8, g: bv8, b: bv8): (v: bv16)
    ensures r < 32 && g < 32 && b < 32 ==>
      v < 0x8000 && v & 31 == r as bv16 && (v >> 5) & 31 == g as bv16 && (v >> 10) & 31 == b as bv16
  {
    (r as bv16) | ((g as bv16) << 5) | ((b as bv16) << 10)
  }

  /** The three 5-bit channels of a 15-bit colour, red first. */
  function Channels(v: bv16): (c: (bv8, bv8, bv8))
    ensures c.0 < 32 && c.1 < 32 && c.2 < 32
  {
    ((v & 31) as bv8, ((v >> 5) & 31) as bv8, ((v >> 10) & 31) as bv8)
  }

  /** Packing channels below 32 and unpacking again gives the channels back. */
  lemma ChannelsOfRgb15(r: bv8, g: bv8, b: bv8)
    requires r < 32 && g < 32 && b < 32
    ensures Channels(Rgb15(r, g, b)) == (r, g, b)
  {
  }

  /** Every colour below 0x8000 is the packing of its own channels. */
  lemma Rgb15OfChannels(v: bv16)
    requires v < 0x8000
    ensures Rgb15(Channels(v).0, Channels(v).1, Channels(v).2) == v
  {
  }

  /** Assigning `on` to the bits of mask `m`, as a `bitset` reference assignment or an
      `|=`/`&=` pair does. `AssignBitsSpec` states its effect bit by bit. */
  function AssignBits(v: bv16, m: bv16, on: bool): bv16
  {
    (v & !m) | (if on then m else 0)
  }

  /** The bits of `m` become `on`; all other bits keep their value. */
  lemma AssignBitsSpec(v: bv16, m: bv16, on: bool)
    ensures AssignBits(v, m, on) & !m == v & !m
    ensures AssignBits(v, m, on) & m == (if on then m else 0)
  {
  }

  /** A word is fixed by its bits inside a mask and its bits outside it. */
  lemma BitsDetermined(a: bv16, b: bv16, m: bv16)
    requires a & m == b & m && a & !m == b & !m
    ensures a == b
  {
  }

  /** Assigning the same bits twice has the effect of assigning them once. */
  lemma AssignBitsIdempotent(v: bv16, m: bv16, on: bool)
    ensures AssignBits(AssignBits(v, m, on), m, on) == AssignBits(v, m, on)
  {
  }
}
