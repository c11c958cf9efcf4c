/** The process-wide state of the interrupt subsystem: the global handler table `IntrTable` and
    the registers and memory words `init`, `set`, `enable`, `disable` and `IntrMain` read and
    write, each register held as a plain field. */
module Hardware {
  import opened Detail
  import opened Interrupts
  import opened Video
  import opened HandlerTable
  import opened SourceControl
  import opened Dispatch

  class Gba {
    /** `IntrTable`: fifteen 8-byte slots, updated in place by `set`. */
    const table: array<Handler>
    /** The link-time address of `IntrMain`. */
    const intrMain: Address

    /** IME (0x0400_0208), IE (0x0400_0200) and IF (0x0400_0202). */
    var ime: bv16
    var ie: bv16
    var iflags: bv16
    /** The interrupt-request enables of DISPSTAT (0x0400_0004). */
    var dispStat: LcdStatus
    /** The interrupt vector word at 0x0300_7FFC. */
    var vector: Address
    /** The BIOS interrupt-check halfword at 0x0300_7FF8, reached as 0x0400_0000 - 8. */
    var intrCheck: bv16
    /** The register writes of source control so far, oldest first. */
    ghost var writes: seq<Write>

    ghost predicate Valid()
      reads this
    {
      table.Length == TableSize
    }

    /** The registers source control writes, as one value. */
    function Registers(): Regs
      reads this
    {
      Regs(ime, ie, dispStat)
    }

    /** Program start: `IntrTable = {}` value-initialises every slot. The static references
        `REG_IME` and `REG_IE` are made by a placement `new std::bitset<16>` on each register,
        whose constructor zeroes all sixteen bits, so IME and IE start at 0. IF, the DISPSTAT
        bit-fields (a trivially constructed struct), the vector word and the BIOS
        interrupt-check halfword are left as the hardware had them. */
    constructor (intrMain: Address, iflags: bv16, dispStat: LcdStatus, vector: Address, intrCheck: bv16)
      ensures Valid() && fresh(table) && table[..] == DefaultTable
      ensures this.intrMain == intrMain && this.vector == vector && this.intrCheck == intrCheck
      ensures Registers() == Regs(0, 0, dispStat) && this.iflags == iflags && writes == []
    {
      table := new Handler[TableSize](_ => DefaultHandler);
      this.intrMain := intrMain;
      this.ime, this.ie, this.iflags, this.dispStat := 0, 0, iflags, dispStat;
      this.vector, this.intrCheck := vector, intrCheck;
      writes := [];
      new;
      assert table[..] == DefaultTable;
    }

    /** `init`: stores the dispatcher's address in the interrupt vector. The new state does not
        depend on the old vector, so a second call changes nothing. */
    method Init()
      modifies this
      ensures vector == intrMain
      ensures Registers() == old(Registers()) && iflags == old(iflags) && intrCheck == old(intrCheck)
      ensures writes == old(writes)
    {
      vector := intrMain;
    }

    /** `set(t, fn)`: visits every slot in order and overwrites each one that matches. */
    method Set(t: Interrupt, fn: Address)
      requires Valid()
      modifies table
      ensures table[..] == SetAll(old(table[..]), t, fn)
    {
      var i := 0;
      while i < table.Length
        invariant 0 <= i <= table.Length
        invariant forall j :: 0 <= j < i ==> table[j] == Update(old(table[j]), t, fn)
        invariant forall j :: i <= j < table.Length ==> table[j] == old(table[j])
      {
        if Matches(table[i], t) {
          table[i] := Handler(t, fn);
        }
        i := i + 1;
      }
      SetAllAt(old(table[..]), t, fn);
    }

    /** One write of source control to a register. */
    method WriteRegister(w: Write)
      modifies this
      ensures Registers() == Apply(old(Registers()), w) && writes == old(writes) + [w]
      ensures iflags == old(iflags) && vector == old(vector) && intrCheck == old(intrCheck)
    {
      writes := writes + [w];
      match w
      case ImeWrite(on) => ime := AssignBits(ime, 1, on);
      case DispStatWrite(f, on) => dispStat := SetIrq(dispStat, f, on);
      case IeWrite(s, on) => ie := AssignBits(ie, Bit(s), on);
    }

    /** The body shared by `enable` (`on`) and `disable` (not `on`). */
    method SwitchSource(t: Interrupt, on: bool)
      modifies this
      ensures Registers() == Replay(old(Registers()), SourceWrites(t, on))
      ensures writes == old(writes) + SourceWrites(t, on)
      ensures iflags == old(iflags) && vector == old(vector) && intrCheck == old(intrCheck)
    {
      ghost var r0 := Registers();
      WriteRegister(ImeWrite(false));
      ghost var r1 := Registers();
      ghost var w1 := writes;
      if MirrorOf(t).Some? {
        WriteRegister(DispStatWrite(MirrorOf(t).value, on));
      }
      ghost var r2 := Registers();
      assert r2 == MirrorStep(r1, t, on);
      assert writes == w1 + MirrorWrites(t, on);
      WriteRegister(IeWrite(t, on));
      WriteRegister(ImeWrite(true));
      assert writes == old(writes) + SourceWrites(t, on);
      assert Registers() == Apply(Apply(MirrorStep(Apply(r0, ImeWrite(false)), t, on), IeWrite(t, on)), ImeWrite(true));
      SourceWritesSteps(r0, t, on);
    }

    /** `enable(t)`: with IME bit 0 cleared first and set last, sets the mirror bit of VBLANK,
        HBLANK or VCOUNT and IE bit `ordinal(t)`. */
    method Enable(t: Interrupt)
      modifies this
      ensures writes == old(writes) + SourceWrites(t, true)
      ensures ime == old(ime) | 1
      ensures ie & Bit(t) == Bit(t) && ie & !Bit(t) == old(ie) & !Bit(t)
      ensures t == VBlank ==> dispStat == old(dispStat).(vBlankIrq := true)
      ensures t == HBlank ==> dispStat == old(dispStat).(hBlankIrq := true)
      ensures t == VCount ==> dispStat == old(dispStat).(vCounterIrq := true)
      ensures MirrorOf(t).None? ==> dispStat == old(dispStat)
      ensures iflags == old(iflags) && vector == old(vector) && intrCheck == old(intrCheck)
    {
      ghost var r := Registers();
      SourceWritesEffect(r, t, true);
      SwitchSource(t, true);
    }

    /** `disable(t)`: with IME bit 0 cleared first and set last, clears the mirror bit of
        VBLANK, HBLANK or VCOUNT and IE bit `ordinal(t)`. */
    method Disable(t: Interrupt)
      modifies this
      ensures writes == old(writes) + SourceWrites(t, false)
      ensures ime == old(ime) | 1
      ensures ie & Bit(t) == 0 && ie & !Bit(t) == old(ie) & !Bit(t)
      ensures t == VBlank ==> dispStat == old(dispStat).(vBlankIrq := false)
      ensures t == HBlank ==> dispStat == old(dispStat).(hBlankIrq := false)
      ensures t == VCount ==> dispStat == old(dispStat).(vCounterIrq := false)
      ensures MirrorOf(t).None? ==> dispStat == old(dispStat)
      ensures iflags == old(iflags) && vector == old(vector) && intrCheck == old(intrCheck)
    {
      ghost var r := Registers();
      SourceWritesEffect(r, t, false);
      SwitchSource(t, false);
    }

    /** `findIRQ`: the first slot whose `fn` word is zero or shares a bit with `active`. The
        walk has no bound of its own, so it is only modelled where it stops inside the table. */
    method FindSlot(active: bv32) returns (i: nat)
      requires Valid() && ScanFrom(table[..], active, 0) != OffEnd
      ensures i < table.Length
      ensures ScanFrom(table[..], active, 0) == (if FnWord(table[i]) == 0 then Terminator(i) else Hit(i))
    {
      i := 0;
      while FnWord(table[i]) != 0 && !Selects(table[i], active)
        invariant 0 <= i < table.Length
        invariant ScanFrom(table[..], active, i) == ScanFrom(table[..], active, 0)
        decreases table.Length - i
      {
        i := i + 1;
      }
    }

    /** `strh r1, [r3, #-8]`: ors the active mask into the BIOS check halfword. */
    method RecordPending(active: bv32)
      modifies this
      ensures intrCheck == old(intrCheck) | Halfword(active)
      ensures ime == old(ime) && ie == old(ie) && iflags == old(iflags) && dispStat == old(dispStat)
      ensures vector == old(vector) && writes == old(writes)
    {
      intrCheck := intrCheck | Halfword(active);
    }

    /** `strh r1, [r3, #2]`: writes `ack` to IF; IF bits are cleared by writing one to them. */
    method Acknowledge(ack: bv16)
      modifies this
      ensures iflags == old(iflags) & !ack
      ensures ime == old(ime) && ie == old(ie) && intrCheck == old(intrCheck) && dispStat == old(dispStat)
      ensures vector == old(vector) && writes == old(writes)
    {
      iflags := iflags & !ack;
    }

    /** The table lookup of `IntrMain`, up to the point where it returns from `no_handler` or
        branches to the target of `jump_intr`: it records the enabled pending sources in the
        BIOS check halfword, finds the slot, and acknowledges in IF. */
    method IntrMain() returns (o: Outcome)
      requires Valid()
      requires ScanFrom(table[..], ActiveWord(ie, iflags), 0) != OffEnd
      modifies this
      ensures o == DispatchSpec(table[..], old(ie), old(iflags)) && !o.OffTable?
      ensures iflags == old(iflags) & !o.ack
      ensures intrCheck == old(intrCheck) | (old(ie) & old(iflags))
      ensures ime == old(ime) && ie == old(ie) && dispStat == old(dispStat)
      ensures vector == old(vector) && writes == old(writes)
    {
      var active := ActiveWord(ie, iflags);
      var i := FindSlot(active);
      DispatchAt(table[..], ie, iflags, i);
      HalfwordOfActive(ie, iflags);
      RecordPending(active);
      o := SlotOutcome(table[i], active);
      Acknowledge(o.ack);
    }
  }
}
