# gba_cpp17 interrupt core and register codecs, in Dafny

This project models the interrupt layer and the register-field helpers of a small C++17
library for the Game Boy Advance (`inc/gba.h`, `src/gba.cpp`). Every memory-mapped register is
a plain field or value, and the model proves what the code does to those fields.

- **Interrupts** (`interrupts.dfy`). The `Interrupt` enumeration has fourteen sources with
  values 0 to 13; source `i` owns bit `i` of IE and IF. A `Handler` is a `(type, fn)` pair, and
  a value-initialised handler is `(VBLANK, nullptr)`.
- **Handler table** (`handler_table.dfy`). `set(t, fn)` is a pure function on the table's
  contents, `SetAll`. The lemmas cover its matching rule: "same source, or VBLANK with a null
  callback".
- **Source control** (`source_control.dfy`). `enable` and `disable` become a list of register
  writes, replayed over IME, IE and the three DISPSTAT interrupt-request bits. The lemmas show
  the writes bracketed by IME, and what they leave behind.
- **Dispatch** (`dispatch.dfy`). The table lookup of the ARM dispatcher `IntrMain`, exactly as
  its instructions read. Beside it is the lookup the dispatcher was evidently meant to do.
- **Hardware state** (`hardware.dfy`). The class `Gba` holds the global `IntrTable` as an
  array, plus IME, IE, IF, the DISPSTAT enables, the interrupt vector word and the BIOS check
  halfword. Its methods `Init`, `Set`, `Enable`, `Disable` and `IntrMain` change these fields
  step by step. Each one is proved against the pure definitions above.
- **Codecs** (`detail.dfy`, `input.dfy`, `video.dfy`):
  - `test_bit` and `rgb15`;
  - key-pad decoding, which is active-low;
  - the sprite attribute getters and setters (a class whose methods update `attr0`-`attr2`
    in place);
  - the background-size accessors.

Two facts about the code shape the model:

- `IntrTable` has 15 slots, while the enumeration has 14 sources.
- `IntrMain` has no early return when IE & IF is 0. It walks the table anyway, and with an
  empty active mask no slot can match.

Widths follow the source:

- IE, IF and IME are `bv16`.
- Table words and addresses are `bv32`.
- The bit fields of the video registers are modelled by name, with their own widths.

## Model

| member | source | states |
|---|---|---|
| Detail.TestBit | inc/gba.h:30-35 | true exactly when the one-bit mask for position `bit` lies inside `data` |
| Detail.Rgb15 | inc/gba.h:37-40 | for channels below 32: the colour is below 0x8000, and its three 5-bit fields are the red, green and blue inputs |
| Detail.Channels | inc/gba.h:37-40 | unpacking a 16-bit colour gives three channels, each below 32 |
| Detail.ChannelsOfRgb15 | inc/gba.h:37-40 | unpacking an `rgb15` colour recovers channels below 32 |
| Detail.Rgb15OfChannels | inc/gba.h:37-40 | every colour below 0x8000 is the `rgb15` of its own channels |
| Detail.AssignBits | inc/gba.h:97-98 | assigns a value to the bits of a mask; its effect is stated by `AssignBitsSpec` |
| Detail.AssignBitsSpec | inc/gba.h:97-98 | the bits of the mask become the given value and every other bit is kept |
| Detail.AssignBitsIdempotent | inc/gba.h:97-98 | assigning the same bits twice equals assigning them once |
| Input.KeyInput.X | inc/gba.h:63 | in -1..1; negative exactly when left is held; positive exactly when right is held and left is not |
| Input.KeyInput.Y | inc/gba.h:64 | in -1..1; negative exactly when up is held; positive exactly when down is held and up is not |
| Input.KeyInput.DirectionVector | inc/gba.h:65 | `(0, 0)` exactly when no direction key is held |
| Input.FromRegister | inc/gba.h:49-59 | each key is held exactly when its bit (0 to 8) is clear; `l` always equals `r` |
| Input.FromRegisterIntended | inc/gba.h:49-59 | `l` is held exactly when bit 9 is clear; every other key agrees with `FromRegister` |
| Input.Encode | inc/gba.h:49-59 | the KEYINPUT value of a key state uses only bits 0-9 |
| Input.EncodeKeyBits | inc/gba.h:49-59 | each key's KEYINPUT bit is clear exactly while the key is held |
| Input.AsWrittenReadsRForL | inc/gba.h:49-59 | decoding the register recovers every key, except that `l` comes back as `r` |
| Input.AsWrittenMissesL | inc/gba.h:58 | with only L held (KEYINPUT 0x1FF), the decoder as written reports L released; the corrected decoder reports it held |
| Input.IntendedRoundTrip | inc/gba.h:49-59 | the corrected decoder recovers every key state from its KEYINPUT value |
| Input.EncodeOfIntended | inc/gba.h:49-59 | re-encoding the corrected decoding of a register gives back its ten key bits |
| Video.ObjectAttributes.constructor | inc/gba.h:125 | stores the three attribute words and zeroes the padding word |
| Video.ObjectAttributes.Zero | inc/gba.h:126 | all four words are zero |
| Video.ObjectAttributes.X | inc/gba.h:93 | the x coordinate is at most 0x1FF |
| Video.ObjectAttributes.Y | inc/gba.h:94 | the y coordinate is at most 0xFF |
| Video.ObjectAttributes.Position | inc/gba.h:95 | both coordinates are within their field widths |
| Video.ObjectAttributes.SpriteOffset | inc/gba.h:96 | the tile index is at most 0x3FF |
| Video.ObjectAttributes.SetX | inc/gba.h:100-104 | afterwards `X()` is `v & 0x1FF`; bits 9-15 of `attr1` and the other words are unchanged |
| Video.ObjectAttributes.SetY | inc/gba.h:106-110 | afterwards `Y()` is `v & 0xFF`; bits 8-15 of `attr0` and the other words are unchanged |
| Video.ObjectAttributes.SetPosition | inc/gba.h:112-117 | afterwards `Position()` is the masked pair; the high bits of `attr0` and `attr1`, and `attr2` and the padding word, are unchanged |
| Video.ObjectAttributes.SetSpriteOffset | inc/gba.h:119-123 | afterwards `SpriteOffset()` is `o & 0x3FF`; bits 10-15 of `attr2` and the other words are unchanged |
| Video.ObjectAttributes.VerticalFlip | inc/gba.h:97 | bit 13 of `attr1` becomes `e`; all other bits and `X()` are kept; a repeated call changes nothing, by `AssignBitsIdempotent` |
| Video.ObjectAttributes.HorizontalFlip | inc/gba.h:98 | bit 12 of `attr1` becomes `e`; all other bits and `X()` are kept; a repeated call changes nothing, by `AssignBitsIdempotent` |
| Video.SizeCode | inc/gba.h:188 | `static_cast<u8>(b)`: the enumerator's 2-bit value; `SizeCodeRoundTrip` proves it inverse to `SizeOfCode` |
| Video.SizeOfCode | inc/gba.h:187 | `static_cast<BGSize>(BackgroundSize)`: the enumerator of a 2-bit code; `SizeCodeRoundTrip` proves it inverse to `SizeCode` |
| Video.SizeCodeRoundTrip | inc/gba.h:160-166 | the `BGSize` casts to and from the 2-bit code are inverse, for all four sizes and all four codes |
| Video.BackgroundContent.BackgroundSize | inc/gba.h:187 | the size read back has the stored 2-bit code |
| Video.BackgroundContent.SetBackgroundSize | inc/gba.h:188 | afterwards `BackgroundSize()` returns the size written; every other field is unchanged |
| Interrupts.Ordinal | inc/gba.h:241-257 | each source's value is below 14, and it indexes the source in declaration order |
| Interrupts.FromOrdinal | inc/gba.h:241-257 | a value names a source exactly when it is below 14 |
| Interrupts.OrdinalRoundTrip | inc/gba.h:241-257 | values and sources are in one-to-one correspondence |
| Interrupts.Bit | src/gba.cpp:119 | a source's IE/IF mask has exactly one bit set |
| Interrupts.BitIsShift | src/gba.cpp:119 | the mask is `1 << ordinal`, and distinct sources have disjoint masks |
| HandlerTable.SetAll | src/gba.cpp:90-97 | the table after `set(t, fn)`; `SetAllAt` states its length and its effect on each slot |
| HandlerTable.SetAllAt | src/gba.cpp:90-97 | `set` keeps all 15 slots and rewrites every matching slot, not only the first; the rest are unchanged |
| HandlerTable.SetOnDefault | src/gba.cpp:90-97 | on the value-initialised table, one `set(t, fn)` makes all fifteen slots `(t, fn)` |
| HandlerTable.SetIdempotent | src/gba.cpp:90-97 | two identical `set` calls leave the table of one |
| HandlerTable.SetNoMatchIsNoOp | src/gba.cpp:92 | with no slot of source `t` and none `(VBLANK, null)`, `set` changes nothing |
| HandlerTable.SecondSourceIgnored | src/gba.cpp:92 | after `set(VBLANK, f)` with non-null `f`, `set(HBLANK, g)` is a no-op |
| HandlerTable.SetKeepsClaimedVBlankSlot | src/gba.cpp:92 | a slot that holds a non-null VBLANK callback survives `set` for another source, which takes the fourteen default slots |
| HandlerTable.SetKeepsUniform | src/gba.cpp:90-97 | `set` maps a table with fifteen equal slots to another such table |
| HandlerTable.ReachableTablesAreUniform | src/gba.cpp:90-97 | any sequence of `set` calls keeps a uniform table uniform, and keeps its length |
| HandlerTable.DefaultTableReachable | src/gba.cpp:3 | every table reachable from the value-initialised one through `set` has fifteen equal slots |
| SourceControl.MirrorOf | src/gba.cpp:104-117 | exactly VBLANK, HBLANK and VCOUNT have a DISPSTAT request bit |
| SourceControl.Apply | src/gba.cpp:102-120 | the effect of one register write; `SourceWritesSteps`, `ReplayIme`, `ReplayIe` and `ReplayDispStat` state what the writes of `enable`/`disable` do through it |
| SourceControl.Replay | src/gba.cpp:100-144 | a sequence of writes applied in program order; `ReplayConcat` states that replay splits over concatenation |
| SourceControl.ReplayConcat | src/gba.cpp:100-144 | replaying two write sequences in turn is replaying their concatenation |
| SourceControl.SourceWrites | src/gba.cpp:100-144 | the writes of `enable`/`disable`; `SourceWritesBracketed` states their order and number |
| SourceControl.SourceWritesBracketed | src/gba.cpp:100-121 | the first write clears IME and the last sets it; no write in between touches IME; a DISPSTAT write occurs exactly for the three mirrored sources |
| SourceControl.MaskedDuringUpdate | src/gba.cpp:100-121 | after the first write and before the last, IME bit 0 is clear in every intermediate state |
| SourceControl.SourceWritesSteps | src/gba.cpp:100-121 | replaying the writes applies the IME clear, the mirror write, the IE write and the IME set, in that order |
| SourceControl.SourceWritesEffect | src/gba.cpp:100-121 | afterwards IME bit 0 is set and IME's other bits are kept; IE bit `ordinal(t)` equals `on` and the other IE bits are kept; the mirror bit equals `on`; DISPSTAT is untouched for other sources |
| SourceControl.SourceWritesIme | src/gba.cpp:102-120 | afterwards IME is the old IME with bit 0 set |
| SourceControl.SourceWritesIe | src/gba.cpp:119 | afterwards IE bit `ordinal(t)` equals `on` and every other IE bit is kept |
| SourceControl.SourceWritesDispStat | src/gba.cpp:104-117 | afterwards the mirror bit of VBLANK, HBLANK or VCOUNT equals `on`; DISPSTAT is untouched for every other source |
| SourceControl.KeypadEnableDisable | src/gba.cpp:123-144 | `enable(KEYPAD); disable(KEYPAD)` leaves DISPSTAT as it was, clears the KEYPAD IE bit and keeps the other IE bits |
| SourceControl.EnableDisableRestores | src/gba.cpp:123-144 | for a source that was disabled, `enable` then `disable` restores IE and DISPSTAT exactly |
| SourceControl.SourceWritesIdempotent | src/gba.cpp:100-121 | a repeated `enable` (or `disable`) of the same source has the effect of one call |
| SourceControl.ImeTwice | src/gba.cpp:102-120 | a second `enable`/`disable` of the same source leaves IME as the first left it |
| SourceControl.IeTwice | src/gba.cpp:119 | a second `enable`/`disable` of the same source leaves IE as the first left it |
| SourceControl.DispStatTwice | src/gba.cpp:104-117 | a second `enable`/`disable` of the same source leaves DISPSTAT as the first left it |
| Dispatch.TypeWord | src/gba.cpp:49 | the slot's offset-0 word is a source value, below 14 |
| Dispatch.ActiveWord | src/gba.cpp:9-13 | the 32-bit load and `and r1, r2, r2, lsr #16` give exactly IE & IF, zero-extended |
| Dispatch.HalfwordOfActive | src/gba.cpp:13-16 | the halfword stored from the active mask is IE & IF |
| Dispatch.ScanFrom | src/gba.cpp:23-31 | the walk stops, if it stops, at a slot at or after its start and inside the table |
| Dispatch.ScanFromStops | src/gba.cpp:23-31 | the walk stops at the first slot whose `fn` word is zero or shares a bit with the mask; it runs off the table exactly when no such slot exists |
| Dispatch.ScanFromReaches | src/gba.cpp:23-31 | a walk that passes over slots `i..k` stops at slot `k` when that slot terminates or matches |
| Dispatch.SlotOutcome | src/gba.cpp:37-56 | the path taken at the slot where the walk stopped; `NoHandlerAtFirstNull`, `MatchAtFirstHit` and `SlotAckWithinActive` state it |
| Dispatch.DispatchSpec | src/gba.cpp:5-56 | the lookup as written; `DispatchAt`, `NoHandlerAtFirstNull`, `MatchAtFirstHit`, `AckWithinActive` and the `AsWritten` lemmas state its outcome |
| Dispatch.DispatchAt | src/gba.cpp:23-56 | the outcome is decided by the slot where the walk stops |
| Dispatch.NoHandlerAtFirstNull | src/gba.cpp:25-39 | at the first null `fn` word, the no-handler path acknowledges IE & IF |
| Dispatch.MatchAtFirstHit | src/gba.cpp:28-56 | at the first matching slot: jump to its `type` word and acknowledge `fn & active`, or take the no-handler path when the `type` word is 0 |
| Dispatch.AckWithinActive | src/gba.cpp:37-56 | the IF write only acknowledges sources that are enabled and pending |
| Dispatch.SlotAckWithinActive | src/gba.cpp:37-56 | at whatever slot the walk stops, the IF write stays inside IE & IF |
| Dispatch.SpuriousEntryNeverJumps | src/gba.cpp:23-39 | with IE & IF zero the dispatcher never jumps; it acknowledges nothing or runs off the table |
| Dispatch.DefaultTableDropsAll | src/gba.cpp:23-39 | on the value-initialised table, every interrupt is dropped and acknowledged |
| Dispatch.AsWrittenJumpTargetIsOrdinal | src/gba.cpp:47-59 | as written, every jump goes to a source value between 1 and 13 taken from a slot, never to a callback address |
| Dispatch.AsWrittenDropsVBlankCallback | src/gba.cpp:47-51 | a pending Thumb VBLANK callback, registered on the fresh table, is dropped: the outcome is `NoHandler(1)` |
| Dispatch.AsWrittenJumpsToOrdinal | src/gba.cpp:47-59 | a pending HBLANK callback at 0x0800_0003 makes the dispatcher branch to address 1 |
| Dispatch.AsWrittenArmCallbackRunsOffTable | src/gba.cpp:23-31 | a pending VBLANK callback at the even address 0x0800_0100, registered on the fresh table, shares no bit with the active mask in any slot, so the walk leaves the table |
| Dispatch.IntendedDispatch | src/gba.cpp:23-59 | the lookup the dispatcher was evidently meant to do; `IntendedJumpsOnlyToPendingCallbacks` and `IntendedRunsRegisteredCallback` state it |
| Dispatch.IntendedScanFrom | src/gba.cpp:23-31 | the corrected walk stops, if it stops, inside the table |
| Dispatch.IntendedScanFromStops | src/gba.cpp:23-31 | the corrected walk stops only at a null callback, or at a slot of an active source |
| Dispatch.IntendedJumpsOnlyToPendingCallbacks | src/gba.cpp:47-59 | the corrected lookup jumps only to a non-null callback held in a slot whose source is enabled and pending, and acknowledges exactly that source |
| Dispatch.IntendedRunsRegisteredCallback | src/gba.cpp:47-59 | with the corrected lookup, the callback registered on the fresh table runs whenever its source is enabled and pending |
| Hardware.Gba.constructor | src/gba.cpp:3 | the table is a fresh 15-slot array of value-initialised handlers, IME and IE are 0, and no source-control write has been made |
| Hardware.Gba.Init | src/gba.cpp:83-86 | the vector word holds the dispatcher's address and nothing else changes; the new state does not depend on the old vector, so a second call changes nothing |
| Hardware.Gba.Set | src/gba.cpp:88-98 | the loop leaves the table equal to `SetAll` of the old table, so every `HandlerTable` lemma applies to it |
| Hardware.Gba.WriteRegister | src/gba.cpp:102-120 | one register write has the effect `Apply` gives it, and is appended to the write log |
| Hardware.Gba.SwitchSource | src/gba.cpp:100-144 | the registers end as the replay of `SourceWrites`, and the log grows by exactly those writes in order |
| Hardware.Gba.Enable | src/gba.cpp:100-121 | IME bit 0 is set; IE bit `ordinal(t)` is set and the other IE bits are kept; the mirror bit is set; the log gains the bracketed writes; IF and the vector are unchanged |
| Hardware.Gba.Disable | src/gba.cpp:123-144 | as `Enable`, with the IE bit and the mirror bit cleared |
| Hardware.Gba.FindSlot | src/gba.cpp:23-35 | the `findIRQ` loop returns the slot where `ScanFrom` stops |
| Hardware.Gba.RecordPending | src/gba.cpp:14-16 | the BIOS check halfword gains the active bits; nothing else changes |
| Hardware.Gba.Acknowledge | src/gba.cpp:39 | writing `ack` to IF clears exactly those bits; nothing else changes |
| Hardware.Gba.IntrMain | src/gba.cpp:5-56 | the outcome is `DispatchSpec` of the table and the old IE and IF; IF loses the acknowledged bits; the check halfword gains IE & IF; IME, IE, DISPSTAT and the vector are unchanged |

## Left out

- Gba.IntrMain: requires that the walk stops within the fifteen slots. The dispatcher has no
  bound and would read past the table. The pure `DispatchSpec` reports that case as
  `OffTable`. The excluded case is reachable: a VBLANK callback at an even address, registered
  on the fresh table, leaves the walk no slot to stop at (`AsWrittenArmCallbackRunsOffTable`).
- Gba.FindSlot: the same precondition as `IntrMain`, for the same reason.
- Gba.IntrMain: ends where the dispatcher returns from `no_handler` or branches in
  `jump_intr`. These parts are not modelled:
  - the SPSR/CPSR saves and mode switches;
  - the stack pushes and pops;
  - the `bx` into the callback, the callback itself, and the `IntrRet` trampoline, with its
    IME writes.
  These are processor state and calling convention, not table logic. The IME value the
  dispatcher saves and restores on the `no_handler` path is modelled as unchanged.
- Detail.TestBit: requires `bit < 32`. The source shifts an `int` by `bit`, which is undefined
  for shifts of 32 or more. `Input` uses only bits 0 to 9.
- Detail.Rgb15: the channel fields are stated only for channels below 32. Wider channels
  overlap in the source, and the model truncates them the same way.
- The `KeyInput()` default constructor, which reads 0x0400_0130. The register value is the
  parameter of `FromRegister`.
- `detail::memory` placement-new onto fixed addresses, and the static register references.
  Register contents are plain fields. The one effect of the placement-new that is kept is the
  start value of IME and IE: `std::bitset<16>`'s constructor zeroes them (inc/gba.h:27,
  238-239).
- IE and IME are `std::bitset<16>`, and the access width the library uses for them is not
  modelled. A bitset implementation that stores 32-bit words would turn each IE write into a
  read-modify-write of IF as well. Each write is modelled as changing only the named bit.
- The physical bit-field packing of `LCDControl`, `LCDStatus` and `BackgroundContent`. It is
  compiler-defined, so the fields are modelled by name.
- `LCDControl`, the DISPSTAT status flags and LYC. No operation of the core uses them.
- `Color`, a wrapper over `rgb15`.
- The OAM, palette and tile arrays, and the background offset registers. They are only
  declared.
- The BIOS calls `IntrWait` and `VSyncWait`, and `src/main.cpp`. They are hardware calls with
  no logic. src/main.cpp is not part of this model.
- Interrupt preemption, and an interrupt arriving while `set` rewrites the table. These are
  concurrent behaviour; every operation is modelled as running to completion.
- The order of the register accesses. `REG_IME`, `REG_IE` and `DISPSTAT` are plain, not
  `volatile`, references (inc/gba.h:198, 238-239). The compiler may merge or reorder their
  writes, so the IME bracket that `MaskedDuringUpdate` proves holds in the source's program
  order, not necessarily in the emitted code.

## Findings

| source | as written | input that shows it | evidently intended | confidence | as-written member | corrected member |
|---|---|---|---|---|---|---|
| src/gba.cpp:47-51 | `findIRQ` uses the slot's `fn` word (offset +4) as the match mask, and `jump_intr` uses the `type` word (offset +0) as the jump target, so the `Handler` layout `{type, fn}` is read as `{target, mask}` | `set(VBLANK, 0x0800_0001)` on the fresh table, then IE = IF = 1: slot 0 matches, its `type` word is 0, and the dispatcher takes `no_handler`, so the callback never runs | match on the slot's source bit, branch to its `fn`, and acknowledge that source | not executed | Dispatch.AsWrittenDropsVBlankCallback | Dispatch.IntendedRunsRegisteredCallback |
| inc/gba.h:58 | `l` is decoded from bit 8, the same bit as `r` | KEYINPUT = 0x1FF (only L held): `l` is reported released | `l` reads bit 9, the L button's bit of KEYINPUT | not executed | Input.AsWrittenMissesL | Input.IntendedRoundTrip |

`Hardware.Gba.IntrMain` models the dispatcher as written, because that is the code the
hardware runs. The corrected lookup, `Dispatch.IntendedDispatch`, sits beside it with its own
proved properties. The key decoder likewise keeps the as-written `FromRegister` next to
`FromRegisterIntended`.
