/**
 * The simulator's bus and the lane update of the board algorithms.  An
 * unavailable bus raises before anything happens; a dropped write is silent.
 */
module SimulatedBus {
  import opened BoardBus
  import opened Common
  import opened FanCurves
  import opened TxLanes

  class SimBus {
    const healthy: bool     // never unavailable and drops nothing; only used to say what must succeed
    var mux: int
    var registers: Regs
    var curve: Option<Curve>  // what the fan controller follows, if that is known
    ghost var writes: nat     // register writes asked for so far

    constructor (healthy: bool)
      ensures this.healthy == healthy && mux == 1 && registers == map[] && curve.None? && writes == 0
    {
      this.healthy := healthy;
      mux, registers, curve, writes := 1, map[], None, 0;
    }

    /** A new process starts on a new bus, every register zero. */
    method Reset()
      modifies this
      ensures registers == map[] && mux == 1 && curve.None?
    {
      mux, registers, curve := 1, map[], None;
    }

    /** An unavailable bus raises. */
    method Answers() returns (ok: bool)
      ensures healthy ==> ok
    {
      ok := *;
      ok := ok || healthy;
    }

    method Read(address: int, reg: int) returns (ok: bool, v: Byte)
      ensures ok ==> v == At(registers, Key(mux, address, reg))
      ensures healthy ==> ok
    {
      ok := Answers();
      v := At(registers, Key(mux, address, reg));
    }

    method Write(address: int, reg: int, v: Byte) returns (ok: bool)
      modifies `registers, `writes
      ensures registers in {old(registers), old(registers)[Key(mux, address, reg) := v]}
      ensures !ok ==> registers == old(registers)
      ensures writes == old(writes) + 1
      ensures healthy ==> ok && registers == old(registers)[Key(mux, address, reg) := v]
    {
      ok := Answers();
      writes := writes + 1;
      var dropped: bool := *;
      if ok && (healthy || !dropped) {
        registers := registers[Key(mux, address, reg) := v];
      }
    }

    method ReadMux() returns (ok: bool, v: int)
      ensures ok ==> v == mux
      ensures healthy ==> ok
    {
      ok := Answers();
      v := mux;
    }

    method WriteMux(v: int) returns (ok: bool)
      modifies `mux
      ensures mux == if ok then v else old(mux)
      ensures healthy ==> ok
    {
      ok := Answers();
      if ok {
        mux := v;
      }
    }

    /** Write a register until it reads back, at most `retries` = 12 times. */
    method Latch(reg: int, value: Byte) returns (ok: bool)
      modifies `registers, `writes
      ensures registers in {old(registers), old(registers)[Key(mux, 0x50, reg) := value]}
      ensures ok ==> At(registers, Key(mux, 0x50, reg)) == value
      ensures writes <= old(writes) + 12
      ensures healthy ==> ok
    {
      for attempt := 0 to 13
        invariant writes <= old(writes) + (if attempt < 12 then attempt else 12)
        invariant registers in {old(registers), old(registers)[Key(mux, 0x50, reg) := value]}
        invariant healthy && 0 < attempt ==> At(registers, Key(mux, 0x50, reg)) == value
      {
        var v: Byte;
        ok, v := Read(0x50, reg);
        if !ok || v == value {
          return;
        }
        if attempt == 12 {
          return false;
        }
        ok := Write(0x50, reg, value);
        if !ok {
          return;
        }
      }
      ok := false;
    }

    /** The body of update_tx_mask, on the selected branch. */
    method UpdateSelected(mpo: int, lanes: set<int>, enabled: set<int>) returns (ok: bool)
      requires mux == Branch(mpo) && ValidRequest(mpo, lanes, enabled)
      modifies `registers, `writes
      ensures Confined(old(registers), registers, mpo, lanes)
      ensures ok ==> LanesAre(registers, mpo, lanes, enabled)
      ensures writes <= old(writes) + 24
      ensures healthy ==> ok
    {
      var high: Byte, low: Byte;
      ok, high := Read(0x50, 56);
      if !ok { return; }
      ok, low := Read(0x50, 57);
      if !ok { return; }
      var target := (LanesOf(high, low) - lanes) + enabled;
      ok := LatchPair(mpo, HighByte(high, target), LowByte(target));
      HalfwayIsConfined(old(registers), registers, mpo, lanes, target);
      if ok {
        SplitAndJoin(high, target);
        ok, high := Read(0x50, 56);
        if !ok { return; }
        ok, low := Read(0x50, 57);
        if !ok { return; }
        ok := LanesOf(high, low) == target;
      }
    }

    method LatchPair(mpo: int, high: Byte, low: Byte) returns (ok: bool)
      requires mux == Branch(mpo)
      modifies `registers, `writes
      ensures Halfway(old(registers), registers, mpo, high, low)
      ensures ok ==> At(registers, High(mpo)) == high && At(registers, Low(mpo)) == low
      ensures writes <= old(writes) + 24
      ensures healthy ==> ok
    {
      ok := Latch(56, high);
      if ok {
        ok := Latch(57, low);
      }
    }

    /**
     * update_tx_mask.  However it ends, only the requested lanes may have
     * changed; when it returns normally they are as requested.
     */
    method UpdateTxMask(mpo: int, lanes: set<int>, enabled: set<int>) returns (ok: bool)
      modifies `mux, `registers, `writes
      ensures Confined(old(registers), registers, mpo, lanes)
      ensures ok ==> ValidRequest(mpo, lanes, enabled) && LanesAre(registers, mpo, lanes, enabled)
      ensures ok ==> mux == old(mux)
      ensures writes <= old(writes) + 24
      ensures healthy ==> (ok <==> ValidRequest(mpo, lanes, enabled))
    {
      if !ValidRequest(mpo, lanes, enabled) {
        return false;
      }
      var previous: int;
      ok, previous := ReadMux();
      if !ok { return; }
      ok := WriteMux(Branch(mpo));
      if ok {
        ok := UpdateSelected(mpo, lanes, enabled);
      }
      var restored := WriteMux(previous);
      ok := ok && restored;
    }

    method ReadTxMask(mpo: int) returns (ok: bool, lanes: set<int>)
      modifies `mux
      ensures ok ==> lanes == Tx(registers, mpo) && mux == old(mux)
      ensures healthy ==> ok
    {
      lanes := {};
      var previous: int, high: Byte, low: Byte;
      ok, previous := ReadMux();
      if !ok { return; }
      ok := WriteMux(Branch(mpo));
      if ok {
        ok, high := Read(0x50, 56);
        if ok {
          ok, low := Read(0x50, 57);
          lanes := LanesOf(high, low);
        }
      }
      var restored := WriteMux(previous);
      ok := ok && restored;
    }

    /** Write the fan registers, behind branch 8; cut short, the controller is
        left with part of a curve. */
    method ProgramCurve(c: Curve) returns (ok: bool)
      requires mux == 8
      modifies `curve
      ensures curve == if ok then Some(c) else None
      ensures healthy ==> ok
    {
      curve := None;
      ok := Answers();
      if ok {
        curve := Some(c);
      }
    }

    /** apply_fan_curve. */
    method ApplyFanCurve(c: Curve) returns (ok: bool)
      modifies `mux, `curve
      ensures ok ==> curve == Some(c) && mux == old(mux)
      ensures curve in {old(curve), None, Some(c)}
      ensures healthy ==> ok
    {
      var previous: int;
      ok, previous := ReadMux();
      if !ok { return; }
      ok := WriteMux(8);
      if ok {
        ok := ProgramCurve(c);
      }
      var restored := WriteMux(previous);
      ok := ok && restored;
    }
  }
}
