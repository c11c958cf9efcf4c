/** The interrupt sources of the console, their bit positions, and the handler record kept per
    table slot. */
module Interrupts {

  datatype Option<T> = None | Some(value: T)

  /** A code address as the processor sees it: a 32-bit word, 0 being the null function pointer. */
  type Address = bv32

  const Null: Address := 0

  /** Number of interrupt sources; source `i` owns bit `i` of IE and of IF. */
  const SourceCount: nat := 14

  /** The `Interrupt` enumeration, in declaration order. */
  datatype Interrupt =
    | VBlank | HBlank | VCount
    | Timer0 | Timer1 | Timer2 | Timer3
    | Serial
    | Dma0 | Dma1 | Dma2 | Dma3
    | Keypad | Cartridge

  /** The sources indexed by their underlying `u32` value. */
  const Sources: seq<Interrupt> :=
    [VBlank, HBlank, VCount, Timer0, Timer1, Timer2, Timer3, Serial, Dma0, Dma1, Dma2, Dma3, Keypad, Cartridge]

  /** `static_cast<u32>(type)`: the enumerator's underlying value. */
  function Ordinal(t: Interrupt): (n: nat)
    ensures n < SourceCount && Sources[n] == t
  {
    match t
    case VBlank => 0
    case HBlank => 1
    case VCount => 2
    case Timer0 => 3
    case Timer1 => 4
    case Timer2 => 5
    case Timer3 => 6
    case Serial => 7
    case Dma0 => 8
    case Dma1 => 9
    case Dma2 => 10
    case Dma3 => 11
    case Keypad => 12
    case Cartridge => 13
  }

  /** The source with underlying value `n`, if `n` names one. */
  function FromOrdinal(n: nat): (t: Option<Interrupt>)
    ensures t.Some? <==> n < SourceCount
  {
    if n < |Sources| then Some(Sources[n]) else None
  }

  /** Ordinals and sources are in one-to-one correspondence. */
  lemma {:induction false} OrdinalRoundTrip(t: Interrupt, n: nat)
    ensures FromOrdinal(Ordinal(t)) == Some(t)
    ensures n < SourceCount ==> FromOrdinal(n).Some? && Ordinal(FromOrdinal(n).value) == n
  {
    if n < SourceCount {
      var s := Sources[n];
      assert Ordinal(s) == n by {
        assert n in {0, 1, 2, 3, 4, 5, 6, 7, 8, 9, 10, 11, 12, 13};
      }
    }
  }

  /** The 16-bit IE/IF mask of source `t`, written out per source so that proofs about masks
      never have to reason about a shift by an unknown amount; `BitIsShift` ties it to the
      source's ordinal. */
  function Bit(t: Interrupt): (m: bv16)
    ensures m != 0 && m & (m - 1) == 0
  {
    match t
    case VBlank => 0x0001
    case HBlank => 0x0002
    case VCount => 0x0004
    case Timer0 => 0x0008
    case Timer1 => 0x0010
    case Timer2 => 0x0020
    case Timer3 => 0x0040
    case Serial => 0x0080
    case Dma0 => 0x0100
    case Dma1 => 0x0200
    case Dma2 => 0x0400
    case Dma3 => 0x0800
    case Keypad => 0x1000
    case Cartridge => 0x2000
  }

  /** Source `t` owns bit `Ordinal(t)`: its mask is `1 << Ordinal(t)`, and distinct sources own
      distinct bits. */
  lemma {:induction false} BitIsShift(t: Interrupt, u: Interrupt)
    ensures Bit(t) == 1 << (Ordinal(t) as bv8)
    ensures t != u ==> Bit(t) & Bit(u) == 0
  {
    match t
    case VBlank =>
    case HBlank =>
    case VCount =>
    case Timer0 =>
    case Timer1 =>
    case Timer2 =>
    case Timer3 =>
    case Serial =>
    case Dma0 =>
    case Dma1 =>
    case Dma2 =>
    case Dma3 =>
    case Keypad =>
    case Cartridge =>
  }

  /** `Interrupts::Handler`: a source and a callback address; a value-initialised handler is
      `(VBLANK, nullptr)`, since the enumerator with value 0 is `VBLANK`. */
  datatype Handler = Handler(kind: Interrupt, fn: Address)

  const DefaultHandler: Handler := Handler(VBlank, Null)
}
