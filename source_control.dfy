/** The register writes `Interrupts::enable` and `Interrupts::disable` perform, in program
    order, and what replaying them does to IME, IE and the DISPSTAT interrupt-request bits. */
module SourceControl {
  import opened Detail
  import opened Interrupts
  import opened Video

  /** The DISPSTAT interrupt-request enable a source is mirrored in. */
  datatype IrqMirror = VBlankIrq | HBlankIrq | VCounterIrq

  /** The `switch` of `enable`/`disable`: only VBLANK, HBLANK and VCOUNT have a mirror bit. */
  function MirrorOf(t: Interrupt): (m: Option<IrqMirror>)
    ensures m.Some? <==> t == VBlank || t == HBlank || t == VCount
  {
    match t
    case VBlank => Some(VBlankIrq)
    case HBlank => Some(HBlankIrq)
    case VCount => Some(VCounterIrq)
    case _ => None
  }

  /** The registers source control writes: IME and IE (each a `bitset<16>`) and DISPSTAT. */
  datatype Regs = Regs(ime: bv16, ie: bv16, dispStat: LcdStatus)

  /** One write by source control: `REG_IME[0] = on`, `DISPSTAT.<field> = on`, or
      `REG_IE[ordinal(source)] = on`. */
  datatype Write =
    | ImeWrite(on: bool)
    | DispStatWrite(field: IrqMirror, on: bool)
    | IeWrite(source: Interrupt, on: bool)

  /** Assigning one DISPSTAT interrupt-request field. */
  function SetIrq(d: LcdStatus, f: IrqMirror, on: bool): LcdStatus
  {
    match f
    case VBlankIrq => d.(vBlankIrq := on)
    case HBlankIrq => d.(hBlankIrq := on)
    case VCounterIrq => d.(vCounterIrq := on)
  }

  /** The effect of one write on the registers. */
  function Apply(r: Regs, w: Write): Regs
  {
    match w
    case ImeWrite(on) => r.(ime := AssignBits(r.ime, 1, on))
    case DispStatWrite(f, on) => r.(dispStat := SetIrq(r.dispStat, f, on))
    case IeWrite(s, on) => r.(ie := AssignBits(r.ie, Bit(s), on))
  }

  /** The registers after a sequence of writes, first write first. */
  function Replay(r: Regs, ws: seq<Write>): Regs
    decreases |ws|
  {
    if ws == [] then r else Replay(Apply(r, ws[0]), ws[1..])
  }

  /** The writes of `enable(t)` (`on`) or `disable(t)` (not `on`), in program order: clear IME
      bit 0, update the mirror bit if `t` has one, update IE bit `ordinal(t)`, set IME bit 0. */
  function SourceWrites(t: Interrupt, on: bool): seq<Write>
  {
    [ImeWrite(false)] + MirrorWrites(t, on) + [IeWrite(t, on), ImeWrite(true)]
  }

  /** The DISPSTAT write of `enable(t)`/`disable(t)`: one write for a mirrored source, none
      for the others. */
  function MirrorWrites(t: Interrupt, on: bool): seq<Write>
  {
    match MirrorOf(t)
    case Some(f) => [DispStatWrite(f, on)]
    case None => []
  }

  /** Replaying two write sequences one after the other is replaying their concatenation. */
  lemma {:induction false} ReplayConcat(r: Regs, a: seq<Write>, b: seq<Write>)
    ensures Replay(r, a + b) == Replay(Replay(r, a), b)
    decreases |a|
  {
    if a == [] {
      assert a + b == b;
    } else {
      assert (a + b)[1..] == a[1..] + b;
      ReplayConcat(Apply(r, a[0]), a[1..], b);
    }
  }

  /** Replaying a sequence that starts with `w` applies `w` first. */
  lemma ReplayStep(r: Regs, w: Write, ws: seq<Write>)
    ensures Replay(r, [w] + ws) == Replay(Apply(r, w), ws)
  {
    assert ([w] + ws)[1..] == ws;
  }

  /** Replaying a sequence that ends with `w` applies `w` last. */
  lemma ReplaySnoc(r: Regs, ws: seq<Write>, w: Write)
    ensures Replay(r, ws + [w]) == Apply(Replay(r, ws), w)
  {
    ReplayConcat(r, ws, [w]);
    ReplayStep(Replay(r, ws), w, []);
    assert [w] + [] == [w];
  }

  /** The first write clears IME, the last sets it, and no write in between touches IME; the
      DISPSTAT write is present exactly for the three mirrored sources. */
  lemma SourceWritesBracketed(t: Interrupt, on: bool)
    ensures var ws := SourceWrites(t, on);
      && |ws| == (if MirrorOf(t).Some? then 4 else 3)
      && ws[0] == ImeWrite(false) && ws[|ws| - 1] == ImeWrite(true)
      && (forall k :: 0 < k < |ws| - 1 ==> !ws[k].ImeWrite?)
      && (MirrorOf(t).Some? <==> exists k :: 0 <= k < |ws| && ws[k].DispStatWrite?)
  {
    var ws := SourceWrites(t, on);
    if MirrorOf(t).Some? {
      assert ws[1].DispStatWrite?;
    }
  }

  /** While the writes of `enable`/`disable` are under way, IME bit 0 is clear: after the first
      write and before the last, every intermediate register state has interrupts masked. */
  lemma MaskedDuringUpdate(r: Regs, t: Interrupt, on: bool)
    ensures var ws := SourceWrites(t, on);
      forall k :: 1 <= k < |ws| ==> Replay(r, ws[..k]).ime & 1 == 0
  {
    var ws := SourceWrites(t, on);
    SourceWritesBracketed(t, on);
    forall k | 1 <= k < |ws|
      ensures Replay(r, ws[..k]).ime & 1 == 0
    {
      var r1 := Apply(r, ws[0]);
      assert Replay(r, ws[..1]) == r1;
      if k >= 2 {
        assert ws[..k] == ws[..1] + ws[1..k];
        ReplayConcat(r, ws[..1], ws[1..k]);
        assert forall j :: 0 <= j < |ws[1..k]| ==> ws[1..k][j] == ws[1 + j];
        MaskedTail(r1, ws[1..k]);
      }
    }
  }

  /** Writes that do not touch IME keep IME as it was. */
  lemma {:induction false} MaskedTail(r: Regs, ws: seq<Write>)
    requires forall k :: 0 <= k < |ws| ==> !ws[k].ImeWrite?
    ensures Replay(r, ws).ime == r.ime
    decreases |ws|
  {
    if ws != [] {
      MaskedTail(Apply(r, ws[0]), ws[1..]);
    }
  }

  /** The mirror write of `t`, if it has one. */
  function MirrorStep(r: Regs, t: Interrupt, on: bool): Regs
  {
    match MirrorOf(t)
    case Some(f) => Apply(r, DispStatWrite(f, on))
    case None => r
  }

  /** Replaying the writes of `enable`/`disable` is applying them one at a time. */
  lemma SourceWritesSteps(r: Regs, t: Interrupt, on: bool)
    ensures Replay(r, SourceWrites(t, on))
         == Apply(Apply(MirrorStep(Apply(r, ImeWrite(false)), t, on), IeWrite(t, on)), ImeWrite(true))
  {
    var ws := SourceWrites(t, on);
    var r1 := Apply(r, ImeWrite(false));
    var r2 := MirrorStep(r1, t, on);
    var r3 := Apply(r2, IeWrite(t, on));
    ReplayStep(r3, ImeWrite(true), []);
    ReplayStep(r2, IeWrite(t, on), [ImeWrite(true)]);
    match MirrorOf(t)
    case Some(f) =>
      ReplayStep(r1, DispStatWrite(f, on), [IeWrite(t, on), ImeWrite(true)]);
      ReplayStep(r, ImeWrite(false), [DispStatWrite(f, on), IeWrite(t, on), ImeWrite(true)]);
      assert ws == [ImeWrite(false), DispStatWrite(f, on), IeWrite(t, on), ImeWrite(true)];
    case None =>
      ReplayStep(r, ImeWrite(false), [IeWrite(t, on), ImeWrite(true)]);
      assert ws == [ImeWrite(false), IeWrite(t, on), ImeWrite(true)];
  }

  /** The state `enable(t)` (`on`) or `disable(t)` leaves: IME bit 0 set and its other bits
      kept; IE bit `ordinal(t)` equal to `on` and the other IE bits kept; the mirror bit of
      VBLANK, HBLANK or VCOUNT equal to `on`; DISPSTAT untouched for every other source. */
  lemma SourceWritesEffect(r: Regs, t: Interrupt, on: bool)
    ensures var r' := Replay(r, SourceWrites(t, on));
      && r'.ime == r.ime | 1
      && r'.ie & Bit(t) == (if on then Bit(t) else 0) && r'.ie & !Bit(t) == r.ie & !Bit(t)
      && (t == VBlank ==> r'.dispStat == r.dispStat.(vBlankIrq := on))
      && (t == HBlank ==> r'.dispStat == r.dispStat.(hBlankIrq := on))
      && (t == VCount ==> r'.dispStat == r.dispStat.(vCounterIrq := on))
      && (MirrorOf(t).None? ==> r'.dispStat == r.dispStat)
  {
    SourceWritesIme(r, t, on);
    SourceWritesIe(r, t, on);
    SourceWritesDispStat(r, t, on);
  }

  /** IME after `enable`/`disable`: bit 0 set, the other bits kept. */
  lemma SourceWritesIme(r: Regs, t: Interrupt, on: bool)
    ensures Replay(r, SourceWrites(t, on)).ime == r.ime | 1
  {
    ReplayIme(r, t, on);
    ClearThenSet(r.ime);
  }

  /** Clearing bit 0 and then setting it gives the word with bit 0 set. */
  lemma ClearThenSet(x: bv16)
    ensures AssignBits(AssignBits(x, 1, false), 1, true) == x | 1
  {
  }

  /** The IME value `enable`/`disable` leaves: bit 0 cleared, then set. */
  lemma ReplayIme(r: Regs, t: Interrupt, on: bool)
    ensures Replay(r, SourceWrites(t, on)).ime == AssignBits(AssignBits(r.ime, 1, false), 1, true)
  {
    SourceWritesSteps(r, t, on);
  }

  /** IE after `enable`/`disable`: the bit of `t` equals `on`, the other bits kept. */
  lemma SourceWritesIe(r: Regs, t: Interrupt, on: bool)
    ensures var ie := Replay(r, SourceWrites(t, on)).ie;
      ie & Bit(t) == (if on then Bit(t) else 0) && ie & !Bit(t) == r.ie & !Bit(t)
  {
    ReplayIe(r, t, on);
    AssignBitsSpec(r.ie, Bit(t), on);
  }

  /** The IE value `enable`/`disable` leaves: the bit of `t` assigned `on`. */
  lemma ReplayIe(r: Regs, t: Interrupt, on: bool)
    ensures Replay(r, SourceWrites(t, on)).ie == AssignBits(r.ie, Bit(t), on)
  {
    SourceWritesSteps(r, t, on);
  }

  /** DISPSTAT after `enable`/`disable`: only the mirror bit of `t`, if any, changes. */
  lemma SourceWritesDispStat(r: Regs, t: Interrupt, on: bool)
    ensures var d := Replay(r, SourceWrites(t, on)).dispStat;
      && (t == VBlank ==> d == r.dispStat.(vBlankIrq := on))
      && (t == HBlank ==> d == r.dispStat.(hBlankIrq := on))
      && (t == VCount ==> d == r.dispStat.(vCounterIrq := on))
      && (MirrorOf(t).None? ==> d == r.dispStat)
  {
    SourceWritesSteps(r, t, on);
  }

  /** `enable(KEYPAD); disable(KEYPAD)` clears the KEYPAD bit of IE, keeps the other IE bits, and
      leaves DISPSTAT exactly as before. */
  lemma KeypadEnableDisable(r: Regs)
    ensures var r' := Replay(Replay(r, SourceWrites(Keypad, true)), SourceWrites(Keypad, false));
      r'.dispStat == r.dispStat && r'.ie & Bit(Keypad) == 0 && r'.ie & !Bit(Keypad) == r.ie & !Bit(Keypad)
  {
    SourceWritesEffect(r, Keypad, true);
    SourceWritesEffect(Replay(r, SourceWrites(Keypad, true)), Keypad, false);
  }

  /** `enable(t); disable(t)` on registers where source `t` was disabled (IE bit and mirror bit
      clear) gives IE and DISPSTAT back unchanged; IME ends with bit 0 set. */
  lemma EnableDisableRestores(r: Regs, t: Interrupt)
    requires r.ie & Bit(t) == 0
    requires t == VBlank ==> !r.dispStat.vBlankIrq
    requires t == HBlank ==> !r.dispStat.hBlankIrq
    requires t == VCount ==> !r.dispStat.vCounterIrq
    ensures var r' := Replay(Replay(r, SourceWrites(t, true)), SourceWrites(t, false));
      r'.ie == r.ie && r'.dispStat == r.dispStat && r'.ime == r.ime | 1
  {
    var r1 := Replay(r, SourceWrites(t, true));
    SourceWritesEffect(r, t, true);
    SourceWritesEffect(r1, t, false);
    var r' := Replay(r1, SourceWrites(t, false));
    BitsDetermined(r'.ie, r.ie, Bit(t));
  }

  /** Repeating `enable(t)` (or `disable(t)`) has the effect of a single call: each write of
      the second call assigns a bit the first call already assigned in the same way. */
  lemma SourceWritesIdempotent(r: Regs, t: Interrupt, on: bool)
    ensures Replay(Replay(r, SourceWrites(t, on)), SourceWrites(t, on)) == Replay(r, SourceWrites(t, on))
  {
    ImeTwice(r, t, on);
    IeTwice(r, t, on);
    DispStatTwice(r, t, on);
    RegsEqual(Replay(Replay(r, SourceWrites(t, on)), SourceWrites(t, on)), Replay(r, SourceWrites(t, on)));
  }

  /** A second `enable(t)`/`disable(t)` leaves IME as the first left it. */
  lemma ImeTwice(r: Regs, t: Interrupt, on: bool)
    ensures Replay(Replay(r, SourceWrites(t, on)), SourceWrites(t, on)).ime == Replay(r, SourceWrites(t, on)).ime
  {
    var r1 := Replay(r, SourceWrites(t, on));
    SourceWritesIme(r, t, on);
    SourceWritesIme(r1, t, on);
    SetLowBitTwice(r.ime, r1.ime, Replay(r1, SourceWrites(t, on)).ime);
  }

  /** A second `enable(t)`/`disable(t)` leaves IE as the first left it. */
  lemma IeTwice(r: Regs, t: Interrupt, on: bool)
    ensures Replay(Replay(r, SourceWrites(t, on)), SourceWrites(t, on)).ie == Replay(r, SourceWrites(t, on)).ie
  {
    ReplayIe(r, t, on);
    ReplayIe(Replay(r, SourceWrites(t, on)), t, on);
    AssignBitsIdempotent(r.ie, Bit(t), on);
  }

  /** A second `enable(t)`/`disable(t)` leaves DISPSTAT as the first left it. */
  lemma DispStatTwice(r: Regs, t: Interrupt, on: bool)
    ensures Replay(Replay(r, SourceWrites(t, on)), SourceWrites(t, on)).dispStat == Replay(r, SourceWrites(t, on)).dispStat
  {
    ReplayDispStat(r, t, on);
    ReplayDispStat(Replay(r, SourceWrites(t, on)), t, on);
    SetMirrorTwice(r.dispStat, t, on);
  }

  /** Setting bit 0 twice sets it once. */
  lemma SetLowBitTwice(x: bv16, once: bv16, twice: bv16)
    requires once == x | 1 && twice == once | 1
    ensures twice == once
  {
  }

  /** DISPSTAT with the mirror bit of `t`, if it has one, assigned `on`. */
  function SetMirror(d: LcdStatus, t: Interrupt, on: bool): LcdStatus
  {
    match MirrorOf(t)
    case Some(f) => SetIrq(d, f, on)
    case None => d
  }

  /** The DISPSTAT value `enable`/`disable` leaves. */
  lemma ReplayDispStat(r: Regs, t: Interrupt, on: bool)
    ensures Replay(r, SourceWrites(t, on)).dispStat == SetMirror(r.dispStat, t, on)
  {
    SourceWritesSteps(r, t, on);
  }

  /** Assigning the mirror bit twice assigns it once. */
  lemma SetMirrorTwice(d: LcdStatus, t: Interrupt, on: bool)
    ensures SetMirror(SetMirror(d, t, on), t, on) == SetMirror(d, t, on)
  {
  }

  /** Register states agreeing on every register are equal. */
  lemma RegsEqual(a: Regs, b: Regs)
    requires a.ime == b.ime && a.ie == b.ie && a.dispStat == b.dispStat
    ensures a == b
  {
  }
}
