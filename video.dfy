/** The video registers the core touches: sprite attribute words, a background control
    register's size field, and the interrupt-request enables of the display status register. */
module Video {
  import opened Detail

  /** The three interrupt-request enables of `LCDStatus` (the DISPSTAT register). Its status
      flags and the LYC compare value are not modelled; the bit-field packing is left to the
      compiler in the source, so the model names the fields only. */
  datatype LcdStatus = LcdStatus(vBlankIrq: bool, hBlankIrq: bool, vCounterIrq: bool)

  /** One OAM entry: three 16-bit attribute words and a padding word. */
  class ObjectAttributes {
    var attr0: bv16
    var attr1: bv16
    var attr2: bv16
    var pad: bv16

    /** `ObjectAttributes(a, b, c)`: the padding word is zeroed. */
    constructor (a: bv16, b: bv16, c: bv16)
      ensures attr0 == a && attr1 == b && attr2 == c && pad == 0
    {
      attr0, attr1, attr2, pad := a, b, c, 0;
    }

    /** `ObjectAttributes()`: all four words zero. */
    constructor Zero()
      ensures attr0 == 0 && attr1 == 0 && attr2 == 0 && pad == 0
    {
      attr0, attr1, attr2, pad := 0, 0, 0, 0;
    }

    /** `x()`: the 9-bit horizontal coordinate, bits 0-8 of `attr1`. */
    function X(): (x: bv16)
      reads this
      ensures x <= 0x1FF
    {
      attr1 & 0x1FF
    }

    /** `y()`: the 8-bit vertical coordinate, bits 0-7 of `attr0`. */
    function Y(): (y: bv16)
      reads this
      ensures y <= 0xFF
    {
      attr0 & 0xFF
    }

    /** `position()`: the pair `(x(), y())`. */
    function Position(): (p: (bv16, bv16))
      reads this
      ensures p.0 <= 0x1FF && p.1 <= 0xFF
    {
      (X(), Y())
    }

    /** `sprite_offset()`: the 10-bit tile index, bits 0-9 of `attr2`. */
    function SpriteOffset(): (o: bv16)
      reads this
      ensures o <= 0x3FF
    {
      attr2 & 0x03FF
    }

    /** `x(v)`: replaces bits 0-8 of `attr1` by the low nine bits of `v`. */
    method SetX(v: bv16)
      modifies this
      ensures X() == v & 0x1FF
      ensures attr1 & 0xFE00 == old(attr1) & 0xFE00
      ensures attr0 == old(attr0) && attr2 == old(attr2) && pad == old(pad)
    {
      attr1 := attr1 & 0xFE00;
      attr1 := attr1 | (v & 0x1FF);
    }

    /** `y(v)`: replaces bits 0-7 of `attr0` by the low eight bits of `v`. */
    method SetY(v: bv16)
      modifies this
      ensures Y() == v & 0xFF
      ensures attr0 & 0xFF00 == old(attr0) & 0xFF00
      ensures attr1 == old(attr1) && attr2 == old(attr2) && pad == old(pad)
    {
      attr0 := attr0 & 0xFF00;
      attr0 := attr0 | (v & 0xFF);
    }

    /** `position(p)`: `x(p.first)` then `y(p.second)`. */
    method SetPosition(p: (bv16, bv16))
      modifies this
      ensures Position() == (p.0 & 0x1FF, p.1 & 0xFF)
      ensures attr1 & 0xFE00 == old(attr1) & 0xFE00 && attr0 & 0xFF00 == old(attr0) & 0xFF00
      ensures attr2 == old(attr2) && pad == old(pad)
    {
      var (px, py) := p;
      SetX(px);
      SetY(py);
    }

    /** `sprite_offset(o)`: replaces bits 0-9 of `attr2` by the low ten bits of the 32-bit `o`. */
    method SetSpriteOffset(o: bv32)
      modifies this
      ensures SpriteOffset() == (o & 0x3FF) as bv16
      ensures attr2 & 0xFC00 == old(attr2) & 0xFC00
      ensures attr0 == old(attr0) && attr1 == old(attr1) && pad == old(pad)
    {
      attr2 := attr2 & 0xFC00;
      attr2 := attr2 | ((o & 0x03FF) as bv16);
    }

    /** `vertical_flip(e)`: sets bit 13 of `attr1` when `e`, clears it otherwise. */
    method VerticalFlip(e: bool)
      modifies this
      ensures attr1 == AssignBits(old(attr1), 0x2000, e)
      ensures (attr1 & 0x2000 != 0) == e && attr1 & 0xDFFF == old(attr1) & 0xDFFF
      ensures X() == old(X())
      ensures attr0 == old(attr0) && attr2 == old(attr2) && pad == old(pad)
    {
      if e {
        attr1 := attr1 | 0x2000;
      } else {
        attr1 := attr1 & 0xDFFF;
      }
    }

    /** `horizontal_flip(e)`: sets bit 12 of `attr1` when `e`, clears it otherwise. */
    method HorizontalFlip(e: bool)
      modifies this
      ensures attr1 == AssignBits(old(attr1), 0x1000, e)
      ensures (attr1 & 0x1000 != 0) == e && attr1 & 0xEFFF == old(attr1) & 0xEFFF
      ensures X() == old(X())
      ensures attr0 == old(attr0) && attr2 == old(attr2) && pad == old(pad)
    {
      if e {
        attr1 := attr1 | 0x1000;
      } else {
        attr1 := attr1 & 0xEFFF;
      }
    }
  }

  /** `BGSize`, with its underlying values 0 to 3. */
  datatype BgSize = Regular32x32 | Regular64x32 | Regular32x64 | Regular64x64

  /** `static_cast<u8>(b)`: the enumerator's underlying value. */
  function SizeCode(b: BgSize): (c: bv2)
  {
    match b
    case Regular32x32 => 0
    case Regular64x32 => 1
    case Regular32x64 => 2
    case Regular64x64 => 3
  }

  /** `static_cast<BGSize>(c)` for a 2-bit field: every code names a size. */
  function SizeOfCode(c: bv2): (b: BgSize)
  {
    if c == 0 then Regular32x32 else if c == 1 then Regular64x32 else if c == 2 then Regular32x64 else Regular64x64
  }

  /** The two casts are inverse to each other on all four sizes and all four codes. */
  lemma {:induction false} SizeCodeRoundTrip(b: BgSize, c: bv2)
    ensures SizeOfCode(SizeCode(b)) == b
    ensures SizeCode(SizeOfCode(c)) == c
  {
    match b
    case Regular32x32 =>
    case Regular64x32 =>
    case Regular32x64 =>
    case Regular64x64 =>
  }

  /** A background control register, by field name. */
  class BackgroundContent {
    var priority: bv2
    var characterBaseBlock: bv2
    var mosaic: bool
    var colorMode: bool
    var screenBaseBlock: bv5
    var wrap: bool
    var backgroundSize: bv2

    /** `background_size()`. */
    function BackgroundSize(): (b: BgSize)
      reads this
      ensures SizeCode(b) == backgroundSize
    {
      SizeCodeRoundTrip(Regular32x32, backgroundSize);
      SizeOfCode(backgroundSize)
    }

    /** `background_size(b)`: stores the size code; the other fields are untouched. */
    method SetBackgroundSize(b: BgSize)
      modifies this
      ensures BackgroundSize() == b
      ensures priority == old(priority) && characterBaseBlock == old(characterBaseBlock)
      ensures mosaic == old(mosaic) && colorMode == old(colorMode)
      ensures screenBaseBlock == old(screenBaseBlock) && wrap == old(wrap)
    {
      backgroundSize := SizeCode(b);
      SizeCodeRoundTrip(b, backgroundSize);
    }
  }
}
