/** What `Interrupts::set` does to the global handler table, as a function on the table's
    contents, and the consequences of its matching rule. */
module HandlerTable {
  import opened Interrupts

  /** `IntrTable` has fifteen slots. */
  const TableSize: nat := 15

  /** `IntrTable = {}`: every slot value-initialised to `(VBLANK, nullptr)`. */
  const DefaultTable: seq<Handler> := seq(TableSize, _ => DefaultHandler)

  /** The test `set` applies to each slot: the slot already belongs to `t`, or it still looks
      value-initialised (source VBLANK with a null callback). */
  predicate Matches(h: Handler, t: Interrupt) {
    h.kind == t || (h.kind == VBlank && h.fn == Null)
  }

  /** One iteration of `set`'s loop body on slot `h`. */
  function Update(h: Handler, t: Interrupt, fn: Address): (h': Handler)
    ensures Matches(h, t) ==> h' == Handler(t, fn)
    ensures !Matches(h, t) ==> h' == h
  {
    if Matches(h, t) then Handler(t, fn) else h
  }

  /** The table after `set(t, fn)`: the loop visits every slot in order, so this is defined on
      the prefix the loop has already visited, extended by one slot. */
  function SetAll(s: seq<Handler>, t: Interrupt, fn: Address): seq<Handler>
  {
    if s == [] then [] else SetAll(s[..|s| - 1], t, fn) + [Update(s[|s| - 1], t, fn)]
  }

  /** `set` keeps the table's length and rewrites every matching slot, not only the first; all
      other slots are unchanged. */
  lemma {:induction false} SetAllAt(s: seq<Handler>, t: Interrupt, fn: Address)
    ensures |SetAll(s, t, fn)| == |s|
    ensures forall i :: 0 <= i < |s| ==> SetAll(s, t, fn)[i] == Update(s[i], t, fn)
  {
    if s != [] {
      SetAllAt(s[..|s| - 1], t, fn);
    }
  }

  /** From the value-initialised table a single `set(t, fn)` claims all fifteen slots. */
  lemma SetOnDefault(t: Interrupt, fn: Address)
    ensures SetAll(DefaultTable, t, fn) == seq(TableSize, _ => Handler(t, fn))
  {
    SetAllAt(DefaultTable, t, fn);
  }

  /** Registering the same callback for the same source twice leaves the table of the first call. */
  lemma SetIdempotent(s: seq<Handler>, t: Interrupt, fn: Address)
    ensures SetAll(SetAll(s, t, fn), t, fn) == SetAll(s, t, fn)
  {
    SetAllAt(s, t, fn);
    SetAllAt(SetAll(s, t, fn), t, fn);
  }

  /** When no slot belongs to `t` and none is `(VBLANK, null)`, `set` silently changes nothing. */
  lemma SetNoMatchIsNoOp(s: seq<Handler>, t: Interrupt, fn: Address)
    requires forall i :: 0 <= i < |s| ==> !Matches(s[i], t)
    ensures SetAll(s, t, fn) == s
  {
    SetAllAt(s, t, fn);
  }

  /** Once VBLANK has a non-null callback, a later `set(HBLANK, g)` on the table is ignored. */
  lemma SecondSourceIgnored(f: Address, g: Address)
    requires f != Null
    ensures SetAll(SetAll(DefaultTable, VBlank, f), HBlank, g) == SetAll(DefaultTable, VBlank, f)
  {
    SetOnDefault(VBlank, f);
    SetNoMatchIsNoOp(SetAll(DefaultTable, VBlank, f), HBlank, g);
  }

  /** A table whose slot 0 is `(VBLANK, cbA)` with `cbA` non-null and whose other slots are
      value-initialised: `set(HBLANK, cbB)` leaves slot 0 alone and takes every other slot. */
  lemma SetKeepsClaimedVBlankSlot(cbA: Address, cbB: Address)
    requires cbA != Null
    ensures var s := [Handler(VBlank, cbA)] + DefaultTable[1..];
            SetAll(s, HBlank, cbB) == [Handler(VBlank, cbA)] + seq(TableSize - 1, _ => Handler(HBlank, cbB))
  {
    var s := [Handler(VBlank, cbA)] + DefaultTable[1..];
    SetAllAt(s, HBlank, cbB);
  }

  /** The table contents after a sequence of `set` calls, oldest first. */
  function SetMany(s: seq<Handler>, calls: seq<(Interrupt, Address)>): seq<Handler>
    decreases calls
  {
    if calls == [] then s else SetMany(SetAll(s, calls[0].0, calls[0].1), calls[1..])
  }

  /** All slots of `s` hold the same handler. */
  ghost predicate Uniform(s: seq<Handler>) {
    forall i, j :: 0 <= i < |s| && 0 <= j < |s| ==> s[i] == s[j]
  }

  /** `set` maps a table whose slots all agree to a table whose slots all agree. */
  lemma SetKeepsUniform(s: seq<Handler>, t: Interrupt, fn: Address)
    requires Uniform(s)
    ensures Uniform(SetAll(s, t, fn))
  {
    SetAllAt(s, t, fn);
  }

  /** Starting from the value-initialised table, every table the program can reach through `set`
      has fifteen identical slots: the table never holds more than one (source, callback) pair. */
  lemma {:induction false} ReachableTablesAreUniform(s: seq<Handler>, calls: seq<(Interrupt, Address)>)
    requires Uniform(s)
    ensures Uniform(SetMany(s, calls)) && |SetMany(s, calls)| == |s|
    decreases calls
  {
    if calls != [] {
      SetKeepsUniform(s, calls[0].0, calls[0].1);
      SetAllAt(s, calls[0].0, calls[0].1);
      ReachableTablesAreUniform(SetAll(s, calls[0].0, calls[0].1), calls[1..]);
    }
  }

  /** The value-initialised table is uniform, so the previous lemma applies from program start. */
  lemma DefaultTableReachable(calls: seq<(Interrupt, Address)>)
    ensures Uniform(SetMany(DefaultTable, calls)) && |SetMany(DefaultTable, calls)| == TableSize
  {
    ReachableTablesAreUniform(DefaultTable, calls);
  }
}
