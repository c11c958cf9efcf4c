/** The table lookup of the interrupt dispatcher `IntrMain`, as its ARM instructions read: the
    enabled-and-pending mask, the `findIRQ` walk over the table's 8-byte slots, the jump target
    and the halfword written back to IF. Also, for comparison, the lookup the dispatcher was
    evidently meant to perform. */
module Dispatch {
  import opened Interrupts
  import opened HandlerTable

  /** The word at offset +0 of a slot: the underlying value of its `type` field. */
  function TypeWord(h: Handler): (w: bv32)
    ensures w < 14
  {
    Ordinal(h.kind) as bv32
  }

  /** The word at offset +4 of a slot: its `fn` field, the callback address. */
  function FnWord(h: Handler): bv32
  {
    h.fn
  }

  /** The mask the dispatcher computes: one 32-bit load at 0x0400_0200 yields IE in the low and
      IF in the high halfword, and `and r1, r2, r2, lsr #16` ands the two halves. */
  function ActiveWord(ie: bv16, iflags: bv16): (active: bv32)
    ensures active == (ie & iflags) as bv32
  {
    var r2 := (ie as bv32) | ((iflags as bv32) << 16);
    r2 & (r2 >> 16)
  }

  /** `strh`: the low halfword of a register. */
  function Halfword(w: bv32): (h: bv16)
    ensures h as bv32 == w & 0xFFFF
  {
    (w & 0xFFFF) as bv16
  }

  /** Writing the active mask back as a halfword writes exactly the enabled pending sources. */
  lemma HalfwordOfActive(ie: bv16, iflags: bv16)
    ensures Halfword(ActiveWord(ie, iflags)) == ie & iflags
  {
  }

  /** Where a walk over the table stops: at a terminating slot, at a matching slot, or past the
      last slot (the dispatcher itself has no bound and would read on beyond the table). */
  datatype Stop = Terminator(at: nat) | Hit(at: nat) | OffEnd

  /** `ands r0, r0, r1`: the slot's `fn` word shares a bit with the active mask. */
  predicate Selects(h: Handler, active: bv32) {
    FnWord(h) & active != 0
  }

  /** `findIRQ` from slot `i`: load the `fn` word; zero terminates; a non-zero and with the
      active mask matches; otherwise advance 8 bytes. */
  function ScanFrom(table: seq<Handler>, active: bv32, i: nat): (r: Stop)
    ensures (r.Terminator? || r.Hit?) ==> i <= r.at < |table|
    decreases |table| - i
  {
    if i >= |table| then OffEnd
    else if FnWord(table[i]) == 0 then Terminator(i)
    else if Selects(table[i], active) then Hit(i)
    else ScanFrom(table, active, i + 1)
  }

  /** Slots `i` up to `k` (exclusive) are all passed over by the walk. */
  ghost predicate PassesOver(table: seq<Handler>, active: bv32, i: nat, k: nat)
    requires k <= |table|
  {
    forall j :: i <= j < k ==> FnWord(table[j]) != 0 && !Selects(table[j], active)
  }

  /** The walk stops at the first terminating or matching slot at or after `i`, and runs off the
      table exactly when there is none. */
  lemma {:induction false} ScanFromStops(table: seq<Handler>, active: bv32, i: nat)
    ensures match ScanFrom(table, active, i)
      case Terminator(k) => FnWord(table[k]) == 0 && PassesOver(table, active, i, k)
      case Hit(k) => FnWord(table[k]) != 0 && Selects(table[k], active) && PassesOver(table, active, i, k)
      case OffEnd => i >= |table| || PassesOver(table, active, i, |table|)
    decreases |table| - i
  {
    if i < |table| && FnWord(table[i]) != 0 && !Selects(table[i], active) {
      ScanFromStops(table, active, i + 1);
      match ScanFrom(table, active, i + 1)
      case Terminator(k) => PassesOverStep(table, active, i, k);
      case Hit(k) => PassesOverStep(table, active, i, k);
      case OffEnd => PassesOverStep(table, active, i, |table|);
    }
  }

  /** A slot the walk passes over, followed by slots it passes over. */
  lemma PassesOverStep(table: seq<Handler>, active: bv32, i: nat, k: nat)
    requires i < k <= |table| && FnWord(table[i]) != 0 && !Selects(table[i], active)
    requires PassesOver(table, active, i + 1, k)
    ensures PassesOver(table, active, i, k)
  {
  }

  /** Conversely, a walk from `i` that passes over slots `i..k` stops at slot `k` when that slot
      terminates or matches. */
  lemma {:induction false} ScanFromReaches(table: seq<Handler>, active: bv32, i: nat, k: nat)
    requires i <= k < |table| && PassesOver(table, active, i, k)
    requires FnWord(table[k]) == 0 || Selects(table[k], active)
    ensures ScanFrom(table, active, i) == (if FnWord(table[k]) == 0 then Terminator(k) else Hit(k))
    decreases k - i
  {
    if i < k {
      ScanFromReaches(table, active, i + 1, k);
    }
  }

  /** What the dispatcher does, once it has found its slot. */
  datatype Outcome =
    | NoHandler(ack: bv16)             // `no_handler`: `ack` written to IF, return
    | Jump(target: Address, ack: bv16) // `jump_intr`: `ack` written to IF, `bx target`
    | OffTable                         // the walk left the fifteen slots

  /** What the dispatcher does at the slot where its walk stopped: a zero `fn` word or a zero
      `type` word leads to `no_handler`, which acknowledges the whole active mask; otherwise
      `jump_intr` acknowledges `fn & active` and branches to the `type` word. */
  function SlotOutcome(h: Handler, active: bv32): Outcome
  {
    if FnWord(h) == 0 || TypeWord(h) == 0 then NoHandler(Halfword(active))
    else Jump(TypeWord(h), Halfword(FnWord(h) & active))
  }

  /** The table lookup of `IntrMain` as written: the matching slot's `type` word is the jump
      target (a zero target means no handler) and its `fn` word, anded with the active mask,
      is written back to IF. */
  function DispatchSpec(table: seq<Handler>, ie: bv16, iflags: bv16): Outcome
  {
    var active := ActiveWord(ie, iflags);
    match ScanFrom(table, active, 0)
    case Terminator(k) => SlotOutcome(table[k], active)
    case Hit(k) => SlotOutcome(table[k], active)
    case OffEnd => OffTable
  }

  /** The outcome is decided by the slot where the walk stops. */
  lemma DispatchAt(table: seq<Handler>, ie: bv16, iflags: bv16, i: nat)
    requires i < |table|
    requires ScanFrom(table, ActiveWord(ie, iflags), 0) == (if FnWord(table[i]) == 0 then Terminator(i) else Hit(i))
    ensures DispatchSpec(table, ie, iflags) == SlotOutcome(table[i], ActiveWord(ie, iflags))
  {
  }

  /** At the first slot whose `fn` word is 0, the dispatcher takes the no-handler path and
      acknowledges every enabled pending source. */
  lemma NoHandlerAtFirstNull(table: seq<Handler>, ie: bv16, iflags: bv16, k: nat)
    requires k < |table| && FnWord(table[k]) == 0
    requires PassesOver(table, ActiveWord(ie, iflags), 0, k)
    ensures DispatchSpec(table, ie, iflags) == NoHandler(ie & iflags)
  {
    ScanFromReaches(table, ActiveWord(ie, iflags), 0, k);
    HalfwordOfActive(ie, iflags);
  }

  /** At the first slot whose `fn` word shares a bit with the active mask, the dispatcher jumps
      to that slot's `type` word, or takes the no-handler path when that word is 0; on a jump it
      acknowledges `fn & active`. */
  lemma MatchAtFirstHit(table: seq<Handler>, ie: bv16, iflags: bv16, k: nat)
    requires k < |table| && FnWord(table[k]) != 0
    requires Selects(table[k], ActiveWord(ie, iflags))
    requires PassesOver(table, ActiveWord(ie, iflags), 0, k)
    ensures DispatchSpec(table, ie, iflags) ==
      if TypeWord(table[k]) == 0 then NoHandler(ie & iflags)
      else Jump(TypeWord(table[k]), Halfword(FnWord(table[k]) & ActiveWord(ie, iflags)))
  {
    ScanFromReaches(table, ActiveWord(ie, iflags), 0, k);
    HalfwordOfActive(ie, iflags);
  }

  /** The write to IF only ever acknowledges sources that are enabled and pending. */
  lemma AckWithinActive(table: seq<Handler>, ie: bv16, iflags: bv16)
    ensures var o := DispatchSpec(table, ie, iflags);
      !o.OffTable? ==> o.ack & !(ie & iflags) == 0
  {
    var stop := ScanFrom(table, ActiveWord(ie, iflags), 0);
    if !stop.OffEnd? {
      assert DispatchSpec(table, ie, iflags) == SlotOutcome(table[stop.at], ActiveWord(ie, iflags));
      SlotAckWithinActive(table[stop.at], ie, iflags);
    }
  }

  /** Whatever slot the walk stops at, its outcome acknowledges only active sources. */
  lemma SlotAckWithinActive(h: Handler, ie: bv16, iflags: bv16)
    ensures SlotOutcome(h, ActiveWord(ie, iflags)).ack & !(ie & iflags) == 0
  {
    if FnWord(h) == 0 || TypeWord(h) == 0 {
      HalfwordOfActive(ie, iflags);
    } else {
      MaskedHalfword(FnWord(h), ie & iflags);
    }
  }

  /** Anding a word with a 16-bit mask and keeping the low halfword stays inside the mask. */
  lemma MaskedHalfword(w: bv32, m: bv16)
    ensures Halfword(w & (m as bv32)) & !m == 0
  {
  }

  /** With nothing enabled and pending (a spurious entry) the dispatcher never jumps: every `fn`
      word anded with 0 is 0, so the walk can only stop at a null slot or run off the table. */
  lemma SpuriousEntryNeverJumps(table: seq<Handler>, ie: bv16, iflags: bv16)
    requires ie & iflags == 0
    ensures DispatchSpec(table, ie, iflags) == NoHandler(0) || DispatchSpec(table, ie, iflags) == OffTable
  {
    ScanFromStops(table, ActiveWord(ie, iflags), 0);
  }

  /** On the value-initialised table every interrupt is dropped and acknowledged. */
  lemma DefaultTableDropsAll(ie: bv16, iflags: bv16)
    ensures DispatchSpec(DefaultTable, ie, iflags) == NoHandler(ie & iflags)
  {
    NoHandlerAtFirstNull(DefaultTable, ie, iflags, 0);
  }

  /** As written, a jump always goes to a source's ordinal (1 to 13), never to the address a
      slot's callback holds. */
  lemma AsWrittenJumpTargetIsOrdinal(table: seq<Handler>, ie: bv16, iflags: bv16)
    ensures var o := DispatchSpec(table, ie, iflags);
      o.Jump? ==> 1 <= o.target < 14 && exists k :: 0 <= k < |table| && o.target == Ordinal(table[k].kind) as bv32
  {
    var o := DispatchSpec(table, ie, iflags);
    if o.Jump? {
      var k := ScanFrom(table, ActiveWord(ie, iflags), 0).at;
      assert o.target == Ordinal(table[k].kind) as bv32;
    }
  }

  /** A VBLANK callback at an odd (Thumb) address, registered on the value-initialised table and
      pending: the dispatcher as written finds slot 0, reads its `type` word 0 and drops the
      interrupt; the callback never runs. */
  lemma AsWrittenDropsVBlankCallback()
    ensures DispatchSpec(SetAll(DefaultTable, VBlank, 0x0800_0001), 1, 1) == NoHandler(1)
  {
    var table := SetAll(DefaultTable, VBlank, 0x0800_0001);
    SetOnDefault(VBlank, 0x0800_0001);
    MatchAtFirstHit(table, 1, 1, 0);
  }

  /** An HBLANK callback at 0x0800_0003, registered on the value-initialised table, with HBLANK
      enabled and pending: the dispatcher as written branches to address 1, the ordinal of
      HBLANK, instead of to the callback. */
  lemma AsWrittenJumpsToOrdinal()
    ensures DispatchSpec(SetAll(DefaultTable, HBlank, 0x0800_0003), 2, 2) == Jump(1, 2)
  {
    var table := SetAll(DefaultTable, HBlank, 0x0800_0003);
    SetOnDefault(HBlank, 0x0800_0003);
    MatchAtFirstHit(table, 2, 2, 0);
  }

  /** A VBLANK callback at an even (ARM) address such as 0x0800_0100, registered on the
      value-initialised table and pending: every slot's `fn` word is non-zero and shares no bit
      with the active mask 1, so the walk as written passes all fifteen slots and leaves the
      table. */
  lemma AsWrittenArmCallbackRunsOffTable()
    ensures DispatchSpec(SetAll(DefaultTable, VBlank, 0x0800_0100), 1, 1) == OffTable
  {
    var table := SetAll(DefaultTable, VBlank, 0x0800_0100);
    SetOnDefault(VBlank, 0x0800_0100);
    ScanFromStops(table, ActiveWord(1, 1), 0);
  }

  /** The evidently intended walk: a null callback terminates; a slot whose source is among the
      active ones matches. */
  function IntendedScanFrom(table: seq<Handler>, active: bv16, i: nat): (r: Stop)
    ensures (r.Terminator? || r.Hit?) ==> i <= r.at < |table|
    decreases |table| - i
  {
    if i >= |table| then OffEnd
    else if table[i].fn == Null then Terminator(i)
    else if IntendedSelects(table[i], active) then Hit(i)
    else IntendedScanFrom(table, active, i + 1)
  }

  /** The evidently intended match: the slot's source is among the active ones. */
  predicate IntendedSelects(h: Handler, active: bv16) {
    Bit(h.kind) & active != 0
  }

  /** The evidently intended lookup: jump to the matching slot's callback and acknowledge that
      slot's source bit. */
  function IntendedDispatch(table: seq<Handler>, ie: bv16, iflags: bv16): Outcome
  {
    var active := ie & iflags;
    match IntendedScanFrom(table, active, 0)
    case Terminator(_) => NoHandler(active)
    case Hit(k) => Jump(table[k].fn, Bit(table[k].kind))
    case OffEnd => OffTable
  }

  /** The intended walk only stops at a slot it has the right to stop at. */
  lemma {:induction false} IntendedScanFromStops(table: seq<Handler>, active: bv16, i: nat)
    ensures match IntendedScanFrom(table, active, i)
      case Terminator(k) => table[k].fn == Null
      case Hit(k) => table[k].fn != Null && IntendedSelects(table[k], active)
      case OffEnd => true
    decreases |table| - i
  {
    if i < |table| && table[i].fn != Null && !IntendedSelects(table[i], active) {
      IntendedScanFromStops(table, active, i + 1);
    }
  }

  /** The intended lookup jumps only to a registered, non-null callback whose source is enabled
      and pending, and acknowledges exactly that source. */
  lemma IntendedJumpsOnlyToPendingCallbacks(table: seq<Handler>, ie: bv16, iflags: bv16)
    ensures var o := IntendedDispatch(table, ie, iflags);
      o.Jump? ==> o.target != Null && exists k :: (0 <= k < |table| &&
        table[k] == Handler(table[k].kind, o.target) && o.ack == Bit(table[k].kind) && o.ack & ie & iflags != 0)
  {
    IntendedScanFromStops(table, ie & iflags, 0);
  }

  /** With the intended lookup, the callback registered for `s` on the value-initialised table
      runs whenever `s` is enabled and pending, and only `s` is acknowledged. */
  lemma IntendedRunsRegisteredCallback(s: Interrupt, f: Address, ie: bv16, iflags: bv16)
    requires f != Null && Bit(s) & ie & iflags != 0
    ensures IntendedDispatch(SetAll(DefaultTable, s, f), ie, iflags) == Jump(f, Bit(s))
  {
    SetOnDefault(s, f);
  }
}
