/** The key pad: decoding the KEYINPUT register (0x0400_0130), in which a key reads 0 while it
    is held down. */
module Input {
  import opened Detail

  /** `Input::KeyInput`: one flag per key, true while the key is held. */
  datatype KeyInput = KeyInput(a: bool, b: bool, select: bool, start: bool,
                               right: bool, left: bool, up: bool, down: bool,
                               l: bool, r: bool)
  {
    /** `X()`: -1 while left is held, else 1 while right is held, else 0; left wins when both
        are held. */
    function X(): (x: int)
      ensures -1 <= x <= 1
      ensures x < 0 <==> left
      ensures x > 0 <==> right && !left
    {
      if left then -1 else if right then 1 else 0
    }

    /** `Y()`: -1 while up is held, else 1 while down is held, else 0; up wins when both are
        held. */
    function Y(): (y: int)
      ensures -1 <= y <= 1
      ensures y < 0 <==> up
      ensures y > 0 <==> down && !up
    {
      if up then -1 else if down then 1 else 0
    }

    /** `direction_vector()`: the pair `(X(), Y())`. */
    function DirectionVector(): (v: (int, int))
      ensures v == (0, 0) <==> !left && !right && !up && !down
    {
      (X(), Y())
    }
  }

  /** `KeyInput(d)` as written: each flag is the negated bit of its key; `l` and `r` both read
      bit 8, so `l` always equals `r`. */
  function FromRegister(d: bv32): (k: KeyInput)
    ensures k.a <==> d & 0x001 == 0
    ensures k.b <==> d & 0x002 == 0
    ensures k.select <==> d & 0x004 == 0
    ensures k.start <==> d & 0x008 == 0
    ensures k.right <==> d & 0x010 == 0
    ensures k.left <==> d & 0x020 == 0
    ensures k.up <==> d & 0x040 == 0
    ensures k.down <==> d & 0x080 == 0
    ensures k.r <==> d & 0x100 == 0
    ensures k.l == k.r
  {
    KeyInput(!TestBit(d, 0), !TestBit(d, 1), !TestBit(d, 2), !TestBit(d, 3),
             !TestBit(d, 4), !TestBit(d, 5), !TestBit(d, 6), !TestBit(d, 7),
             !TestBit(d, 8), !TestBit(d, 8))
  }

  /** `KeyInput(d)` as evidently intended: as `FromRegister`, but `l` reads bit 9, the L
      shoulder button's bit of KEYINPUT. */
  function FromRegisterIntended(d: bv32): (k: KeyInput)
    ensures k.l <==> d & 0x200 == 0
    ensures k.(l := false) == FromRegister(d).(l := false)
  {
    KeyInput(!TestBit(d, 0), !TestBit(d, 1), !TestBit(d, 2), !TestBit(d, 3),
             !TestBit(d, 4), !TestBit(d, 5), !TestBit(d, 6), !TestBit(d, 7),
             !TestBit(d, 9), !TestBit(d, 8))
  }

  /** The bit `m` of a key in KEYINPUT: 0 while the key is held, set while it is released. */
  function Released(held: bool, m: bv32): bv32
  {
    if held then 0 else m
  }

  /** The KEYINPUT value the hardware shows for a set of held keys: bits 0-9 are A, B, SELECT,
      START, RIGHT, LEFT, UP, DOWN, R and L, each 1 while its key is released; bits 10 and up
      read 0. */
  function Encode(k: KeyInput): (d: bv32)
    ensures d & !0x3FF == 0
  {
    var low := Released(k.a, 0x001) | Released(k.b, 0x002) | Released(k.select, 0x004) | Released(k.start, 0x008);
    var mid := Released(k.right, 0x010) | Released(k.left, 0x020) | Released(k.up, 0x040) | Released(k.down, 0x080);
    var high := Released(k.r, 0x100) | Released(k.l, 0x200);
    KeyBitsWithin(low, mid, high);
    low | mid | high
  }

  /** Or-ing words that lie within bits 0-3, 4-7 and 8-9 gives a word within bits 0-9. */
  lemma KeyBitsWithin(low: bv32, mid: bv32, high: bv32)
    requires low & !0x00F == 0 && mid & !0x0F0 == 0 && high & !0x300 == 0
    ensures (low | mid | high) & !0x3FF == 0
  {
  }

  /** Each key's bit of `Encode(k)` is clear exactly while the key is held. */
  lemma EncodeKeyBits(k: KeyInput)
    ensures var d := Encode(k);
      && (d & 0x001 == 0 <==> k.a) && (d & 0x002 == 0 <==> k.b)
      && (d & 0x004 == 0 <==> k.select) && (d & 0x008 == 0 <==> k.start)
      && (d & 0x010 == 0 <==> k.right) && (d & 0x020 == 0 <==> k.left)
      && (d & 0x040 == 0 <==> k.up) && (d & 0x080 == 0 <==> k.down)
      && (d & 0x100 == 0 <==> k.r) && (d & 0x200 == 0 <==> k.l)
  {
  }

  /** As written, decoding what the hardware shows recovers every key except L, which is
      replaced by R. */
  lemma AsWrittenReadsRForL(k: KeyInput)
    ensures FromRegister(Encode(k)) == k.(l := k.r)
  {
    EncodeKeyBits(k);
  }

  /** Holding L alone: KEYINPUT reads 0x1FF; as written no key is reported, whereas the
      intended decoding reports L. */
  lemma AsWrittenMissesL()
    ensures Encode(KeyInput(false, false, false, false, false, false, false, false, true, false)) == 0x1FF
    ensures !FromRegister(0x1FF).l && FromRegisterIntended(0x1FF).l
  {
  }

  /** The intended decoding recovers every held key from what the hardware shows. */
  lemma IntendedRoundTrip(k: KeyInput)
    ensures FromRegisterIntended(Encode(k)) == k
  {
    EncodeKeyBits(k);
  }

  /** Conversely, re-encoding the intended decoding of a register gives back its ten key bits. */
  lemma EncodeOfIntended(d: bv32)
    ensures Encode(FromRegisterIntended(d)) == d & 0x3FF
  {
  }
}
