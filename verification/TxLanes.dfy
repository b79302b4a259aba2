/**
 * The twelve optical transmit lanes of each module: 4 high bits in register
 * 56, whose upper nibble is reserved, and 8 low bits in register 57.  Lane
 * masks are sets of lane numbers 0..11.
 */
module TxLanes {
  import opened Bits
  import opened BoardBus
  import opened Common

  // ----- masks as bytes --------------------------------------------------

  /** Bits base .. base+n-1 of a mask, as a number. */
  function Encode(mask: set<int>, base: int, n: nat): nat
    decreases n
  {
    if n == 0 then 0 else (if base in mask then 1 else 0) + 2 * Encode(mask, base + 1, n - 1)
  }

  lemma {:induction false} EncodeFits(mask: set<int>, base: int, n: nat)
    ensures Encode(mask, base, n) < Pow2(n)
    decreases n
  {
    if n > 0 {
      EncodeFits(mask, base + 1, n - 1);
    }
  }

  lemma {:induction false} EncodedBit(mask: set<int>, base: int, n: nat, i: nat)
    requires i < n
    ensures Bit(Encode(mask, base, n), i) <==> base + i in mask
    decreases n
  {
    if i > 0 {
      EncodedBit(mask, base + 1, n - 1, i - 1);
      assert Encode(mask, base, n) / 2 == Encode(mask, base + 1, n - 1);
    }
  }

  // ----- the lane registers ----------------------------------------------

  /** The mux branch of a module. */
  function Branch(mpo: int): (b: int)
    ensures 0 <= b < 16
  {
    if mpo == 1 then 1 else 2
  }

  function High(mpo: int): Key { Key(Branch(mpo), 0x50, 56) }
  function Low(mpo: int): Key { Key(Branch(mpo), 0x50, 57) }

  /** Module 1 is behind branch 1, module 2 behind branch 2; the transmitter page has the enables at 56 and 57. */
  lemma RegistersAre()
    ensures High(1) == Key(1, 0x50, 56) && Low(1) == Key(1, 0x50, 57)
    ensures High(2) == Key(2, 0x50, 56) && Low(2) == Key(2, 0x50, 57)
  {
  }

  predicate LaneOn(high: Byte, low: Byte, lane: int)
    requires 0 <= lane < 12
  {
    if lane < 8 then Bit(low, lane) else Bit(high, lane - 8)
  }

  function LanesOf(high: Byte, low: Byte): set<int> {
    set lane | 0 <= lane < 12 && LaneOn(high, low, lane)
  }

  /** The lanes of a module that are on. */
  function Tx(r: Regs, mpo: int): set<int> {
    LanesOf(At(r, High(mpo)), At(r, Low(mpo)))
  }

  /** The high register for `mask`, with its reserved nibble kept. */
  function HighByte(high: Byte, mask: set<int>): Byte {
    EncodeFits(mask, 8, 4);
    high / 16 * 16 + Encode(mask, 8, 4)
  }

  function LowByte(mask: set<int>): Byte {
    EncodeFits(mask, 0, 8);
    Encode(mask, 0, 8)
  }

  lemma LowByteLanes(mask: set<int>, lane: int)
    requires 0 <= lane < 8
    ensures Bit(LowByte(mask), lane) <==> lane in mask
  {
    EncodedBit(mask, 0, 8, lane);
  }

  lemma HighByteLanes(high: Byte, mask: set<int>, lane: int)
    requires 8 <= lane < 12
    ensures Bit(HighByte(high, mask), lane - 8) <==> lane in mask
  {
    EncodeFits(mask, 8, 4);
    assert Pow2(4) == 16;
    LowBits(high / 16, Encode(mask, 8, 4), 4, lane - 8);
    EncodedBit(mask, 8, 4, lane - 8);
  }

  lemma HighByteKeepsReserved(high: Byte, mask: set<int>)
    ensures HighByte(high, mask) / 16 == high / 16
  {
    EncodeFits(mask, 8, 4);
    assert Pow2(4) == 16;
  }

  /** Writing a mask and reading it back is the identity. */
  lemma SplitAndJoin(high: Byte, mask: set<int>)
    requires forall lane <- mask :: 0 <= lane < 12
    ensures LanesOf(HighByte(high, mask), LowByte(mask)) == mask
  {
    forall lane | 0 <= lane < 12
      ensures LaneOn(HighByte(high, mask), LowByte(mask), lane) <==> lane in mask
    {
      if lane < 8 { LowByteLanes(mask, lane); } else { HighByteLanes(high, mask, lane); }
    }
  }

  /** Equal outside `lanes`. */
  predicate SameOutside(a: set<int>, b: set<int>, lanes: set<int>) {
    a - lanes == b - lanes
  }

  /** The first of the two writes alone already keeps the other lanes. */
  lemma HalfWritten(high: Byte, low: Byte, lanes: set<int>, mask: set<int>)
    requires SameOutside(LanesOf(high, low), mask, lanes)
    requires forall lane <- mask :: 0 <= lane < 12
    ensures SameOutside(LanesOf(high, low), LanesOf(HighByte(high, mask), low), lanes)
  {
    forall lane | 8 <= lane < 12 && lane !in lanes
      ensures lane in LanesOf(HighByte(high, mask), low) <==> lane in LanesOf(high, low)
    {
      HighByteLanes(high, mask, lane);
      assert lane in mask <==> lane in mask - lanes;
      assert lane in LanesOf(high, low) <==> lane in LanesOf(high, low) - lanes;
    }
  }

  /** Only the given lanes of module `mpo` may differ between `a` and `b`. */
  ghost predicate Confined(a: Regs, b: Regs, mpo: int, lanes: set<int>) {
    && SameExcept(a, b, {High(mpo), Low(mpo)})
    && At(a, High(mpo)) / 16 == At(b, High(mpo)) / 16
    && SameOutside(Tx(a, mpo), Tx(b, mpo), lanes)
  }

  lemma ConfinedIsTransitive(a: Regs, b: Regs, c: Regs, mpo: int, lanes: set<int>)
    requires Confined(a, b, mpo, lanes) && Confined(b, c, mpo, lanes)
    ensures Confined(a, c, mpo, lanes)
  {
  }

  /** Every state recorded from position `from` on is confined. */
  ghost predicate ConfinedSince(r: Regs, trace: seq<Regs>, from: nat, mpo: int, lanes: set<int>) {
    forall i :: from <= i < |trace| ==> Confined(r, trace[i], mpo, lanes)
  }

  /** Where writing high byte `h` and then low byte `l` can stand. */
  ghost predicate Halfway(r: Regs, s: Regs, mpo: int, h: Byte, l: Byte) {
    && SameExcept(r, s, {High(mpo), Low(mpo)})
    && (At(s, High(mpo)) == At(r, High(mpo)) || At(s, High(mpo)) == h)
    && (At(s, Low(mpo)) == At(r, Low(mpo)) || (At(s, High(mpo)) == h && At(s, Low(mpo)) == l))
  }

  lemma HalfwayIsConfined(r: Regs, s: Regs, mpo: int, lanes: set<int>, mask: set<int>)
    requires SameOutside(Tx(r, mpo), mask, lanes)
    requires forall lane <- mask :: 0 <= lane < 12
    requires Halfway(r, s, mpo, HighByte(At(r, High(mpo)), mask), LowByte(mask))
    ensures Confined(r, s, mpo, lanes)
  {
    HighByteKeepsReserved(At(r, High(mpo)), mask);
    HalfWritten(At(r, High(mpo)), At(r, Low(mpo)), lanes, mask);
    SplitAndJoin(At(r, High(mpo)), mask);
  }

  lemma TraceIsConfined(r: Regs, trace: seq<Regs>, from: nat, mpo: int, lanes: set<int>, mask: set<int>)
    requires SameOutside(Tx(r, mpo), mask, lanes)
    requires forall lane <- mask :: 0 <= lane < 12
    requires forall i :: from <= i < |trace| ==>
               Halfway(r, trace[i], mpo, HighByte(At(r, High(mpo)), mask), LowByte(mask))
    ensures ConfinedSince(r, trace, from, mpo, lanes)
  {
    forall i | from <= i < |trace|
      ensures Confined(r, trace[i], mpo, lanes)
    {
      HalfwayIsConfined(r, trace[i], mpo, lanes, mask);
    }
  }

  // ----- reading and updating lanes --------------------------------------

  method TxRead(b: Bus, mpo: int) returns (rc: Rc, out: set<int>)
    requires b.Valid() && mpo in {1, 2}
    modifies b`mux
    ensures b.Valid()
    ensures rc in {OK, IO} && (rc == OK ==> out == Tx(b.regs, mpo) && b.mux == old(b.mux))
    ensures b.healthy ==> rc == OK
  {
    out := {};
    var mux: int, ok: bool, high: Byte, low: Byte;
    rc, mux := b.SelectMux(Branch(mpo));
    if rc != OK {
      return IO, out;
    }
    rc := IO;
    ok, high := b.Read(0x50, 56);
    if ok {
      ok, low := b.Read(0x50, 57);
      if ok {
        out := LanesOf(high, low);
        rc := OK;
      }
    }
    rc := b.RestoreMux(mux, rc);
  }

  predicate ValidRequest(mpo: int, lanes: set<int>, enabled: set<int>) {
    mpo in {1, 2} && (forall lane <- lanes :: 0 <= lane < 12) && enabled <= lanes
  }

  predicate LanesAre(r: Regs, mpo: int, lanes: set<int>, enabled: set<int>) {
    Tx(r, mpo) * lanes == enabled
  }

  /** The register writes of TxUpdate, with the closing read-back. */
  method WritePair(b: Bus, mpo: int, h: Byte, l: Byte) returns (rc: Rc)
    requires b.Valid() && b.mux == Branch(mpo)
    modifies b`regs, b`trace, b`asked
    ensures b.Valid() && old(b.trace) <= b.trace && rc in {OK, IO}
    ensures forall i :: |old(b.trace)| <= i < |b.trace| ==> Halfway(old(b.regs), b.trace[i], mpo, h, l)
    ensures Halfway(old(b.regs), b.regs, mpo, h, l)
    ensures rc == OK ==> At(b.regs, High(mpo)) == h && At(b.regs, Low(mpo)) == l
    ensures b.healthy ==> rc == OK
  {
    rc := b.WriteRetry(0x50, 56, h);
    if rc != OK { return; }
    rc := b.WriteRetry(0x50, 57, l);
    if rc != OK { return; }
    var ok: bool, checkHigh: Byte, checkLow: Byte;
    rc := IO;
    ok, checkHigh := b.Read(0x50, 56);
    if !ok { return; }
    ok, checkLow := b.Read(0x50, 57);
    if !ok { return; }
    if checkHigh == h && checkLow == l {
      rc := OK;
    }
  }

  /** TxUpdate on the selected branch. */
  method TxProgram(b: Bus, mpo: int, lanes: set<int>, enabled: set<int>) returns (rc: Rc)
    requires b.Valid() && ValidRequest(mpo, lanes, enabled) && b.mux == Branch(mpo)
    modifies b`regs, b`trace, b`asked
    ensures b.Valid() && old(b.trace) <= b.trace && rc in {OK, IO}
    ensures ConfinedSince(old(b.regs), b.trace, |old(b.trace)|, mpo, lanes)
    ensures Confined(old(b.regs), b.regs, mpo, lanes)
    ensures rc == OK ==> LanesAre(b.regs, mpo, lanes, enabled)
    ensures b.healthy ==> rc == OK
  {
    var ok, high := b.Read(0x50, 56);
    if !ok { return IO; }
    var low: Byte;
    ok, low := b.Read(0x50, 57);
    if !ok { return IO; }
    var mask := (LanesOf(high, low) - lanes) + enabled;
    rc := WritePair(b, mpo, HighByte(high, mask), LowByte(mask));
    TraceIsConfined(old(b.regs), b.trace, |old(b.trace)|, mpo, lanes, mask);
    HalfwayIsConfined(old(b.regs), b.regs, mpo, lanes, mask);
    SplitAndJoin(high, mask);
  }

  /**
   * Set `lanes` of one module to `enabled`.  Whatever the bus does, no other
   * lane, register or reserved bit changes at any moment; success means that
   * the lanes were read back as asked for.
   */
  method TxUpdate(b: Bus, mpo: int, lanes: set<int>, enabled: set<int>) returns (rc: Rc)
    requires b.Valid()
    modifies b
    ensures b.Valid() && old(b.trace) <= b.trace
    ensures rc in {OK, IO, INVALID}
    ensures rc == INVALID <==> !ValidRequest(mpo, lanes, enabled)
    ensures rc == INVALID ==> b.trace == old(b.trace) && b.regs == old(b.regs) && b.mux == old(b.mux)
    ensures ConfinedSince(old(b.regs), b.trace, |old(b.trace)|, mpo, lanes)
    ensures Confined(old(b.regs), b.regs, mpo, lanes)
    ensures rc == OK ==> LanesAre(b.regs, mpo, lanes, enabled) && b.mux == old(b.mux)
    ensures b.healthy ==> rc != IO
  {
    if !ValidRequest(mpo, lanes, enabled) {
      return INVALID;
    }
    var mux: int;
    rc, mux := b.SelectMux(Branch(mpo));
    if rc != OK {
      return IO;
    }
    rc := TxProgram(b, mpo, lanes, enabled);
    rc := b.RestoreMux(mux, rc);
  }
}
