/**
 * The board's shared I2C bus: registers behind a mux, and an adversary.  Any
 * call may fail; a failed write may have latched and a write reported good may
 * have been dropped; a good read returns what the register holds.
 */
module BoardBus {
  import opened Common

  datatype Rc = OK | IO | INVALID | ROLLBACK_FAILED

  datatype Key = Key(branch: int, address: int, reg: int)

  type Regs = map<Key, Byte>

  /** Register contents; a register never written holds zero. */
  function At(r: Regs, k: Key): Byte {
    if k in r then r[k] else 0
  }

  /** The same contents everywhere except perhaps at `ks`. */
  ghost predicate SameExcept(a: Regs, b: Regs, ks: set<Key>) {
    forall k :: k !in ks ==> At(a, k) == At(b, k)
  }

  /** What one write may leave: the value, or what was there. */
  predicate Follows(a: Regs, b: Regs, k: Key, v: Byte) {
    b == a || b == a[k := v]
  }

  class Bus {
    // Only used to say what must succeed, and what must at least be tried.
    const healthy: bool    // nothing on this bus ever fails
    const reachable: bool  // the mux and the reservation never fail
    var mux: int  // the selected branch, 0..15
    var regs: Regs
    /** Register contents after every write so far. */
    ghost var trace: seq<Regs>
    /** Every register write asked for, whether or not it latched. */
    ghost var asked: seq<(Key, Byte)>

    ghost predicate Valid()
      reads this
    {
      0 <= mux < 16 && trace != [] && trace[|trace| - 1] == regs
    }

    constructor (mux: int, regs: Regs, healthy: bool, reachable: bool)
      requires 0 <= mux < 16
      ensures Valid() && this.mux == mux && this.regs == regs && trace == [regs] && asked == []
      ensures this.healthy == healthy && this.reachable == reachable
    {
      this.healthy, this.reachable := healthy, reachable;
      this.mux, this.regs, this.trace, this.asked := mux, regs, [regs], [];
    }

    /** A call succeeds, or not. */
    method Answers() returns (ok: bool)
      ensures healthy ==> ok
    {
      ok := *;
      ok := ok || healthy;
    }

    /** So does a call that concerns the mux. */
    method MuxAnswers() returns (ok: bool)
      ensures healthy || reachable ==> ok
    {
      ok := *;
      ok := ok || healthy || reachable;
    }

    method Read(address: int, reg: int) returns (ok: bool, v: Byte)
      requires Valid()
      ensures ok ==> v == At(regs, Key(mux, address, reg))
      ensures healthy ==> ok
    {
      v := *;
      ok := Answers();
      if ok {
        v := At(regs, Key(mux, address, reg));
      }
    }

    method Write(address: int, reg: int, v: Byte) returns (ok: bool)
      requires Valid()
      modifies `regs, `trace, `asked
      ensures Valid()
      ensures Follows(old(regs), regs, Key(mux, address, reg), v)
      ensures trace == old(trace) + [regs]
      ensures asked == old(asked) + [(Key(mux, address, reg), v)]
      ensures healthy ==> ok && regs == old(regs)[Key(mux, address, reg) := v]
    {
      ok := Answers();
      var latches := Answers();
      if latches {
        regs := regs[Key(mux, address, reg) := v];
      }
      trace := trace + [regs];
      asked := asked + [(Key(mux, address, reg), v)];
    }

    /** The mux register: the selection below, interrupt flags above. */
    method ReadMux() returns (ok: bool, v: int)
      requires Valid()
      ensures ok ==> v % 16 == mux
      ensures healthy || reachable ==> ok
    {
      ok := MuxAnswers();
      var status: int := *;
      v := 16 * status + mux;
    }

    method WriteMux(v: int) returns (ok: bool)
      requires Valid() && 0 <= v < 16
      modifies `mux
      ensures Valid() && (mux == old(mux) || mux == v)
      ensures healthy || reachable ==> ok && mux == v
    {
      ok := MuxAnswers();
      var latches := MuxAnswers();
      if latches {
        mux := v;
      }
    }

    /** enter / leave: the cross-process reservation of the bus. */
    method Reserve() returns (ok: bool)
      ensures healthy || reachable ==> ok
    {
      ok := MuxAnswers();
    }

    method SelectMux(branch: int) returns (rc: Rc, previous: int)
      requires Valid() && 0 <= branch < 16
      modifies `mux
      ensures Valid() && rc in {OK, IO}
      ensures 0 <= previous < 16
      ensures rc == OK ==> mux == branch && previous == old(mux)
      ensures healthy || reachable ==> rc == OK
    {
      previous := 0;
      var ok := Reserve();
      if !ok {
        return IO, previous;
      }
      ok, previous := ReadMux();
      previous := previous % 16;
      if ok {
        var written := WriteMux(branch);
        var check: int := 0;
        ok, check := ReadMux();
        if written && ok && check % 16 == branch {
          return OK, previous;
        }
        written := WriteMux(previous);
      }
      ok := Reserve();
      rc := IO;
    }

    /** The mux is lost if it cannot be written, read back or released. */
    method ReleaseMux(previous: int) returns (lost: bool)
      requires Valid() && 0 <= previous < 16
      modifies `mux
      ensures Valid() && (!lost ==> mux == previous)
      ensures healthy || reachable ==> !lost
    {
      var written := WriteMux(previous);
      var ok, check := ReadMux();
      lost := !written || !ok || check % 16 != previous;
      ok := Reserve();
      lost := lost || !ok;
    }

    /** restore_mux: a lost mux overrides the result. */
    method RestoreMux(previous: int, result: Rc) returns (rc: Rc)
      requires Valid() && 0 <= previous < 16
      modifies `mux
      ensures Valid()
      ensures rc == result || rc == IO
      ensures rc != IO ==> mux == previous
      ensures healthy || reachable ==> rc == result && mux == previous
    {
      var lost := ReleaseMux(previous);
      rc := if lost then IO else result;
    }

    /** Read, and write until the value is read back, at most 12 times. */
    method WriteRetry(address: int, reg: int, target: Byte) returns (rc: Rc)
      requires Valid()
      modifies `regs, `trace, `asked
      ensures Valid() && old(trace) <= trace && rc in {OK, IO}
      ensures regs == old(regs) || regs == old(regs)[Key(mux, address, reg) := target]
      ensures forall i :: |old(trace)| <= i < |trace| ==>
                trace[i] == old(regs) || trace[i] == old(regs)[Key(mux, address, reg) := target]
      ensures rc == OK ==> At(regs, Key(mux, address, reg)) == target
      ensures healthy ==> rc == OK
      ensures old(asked) <= asked && |asked| <= |old(asked)| + 12
      ensures forall i :: |old(asked)| <= i < |asked| ==> asked[i] == (Key(mux, address, reg), target)
    {
      for i := 0 to 13
        invariant Valid() && old(trace) <= trace
        invariant regs == old(regs) || regs == old(regs)[Key(mux, address, reg) := target]
        invariant healthy && i > 0 ==> At(regs, Key(mux, address, reg)) == target
        invariant forall i :: |old(trace)| <= i < |trace| ==>
                    trace[i] == old(regs) || trace[i] == old(regs)[Key(mux, address, reg) := target]
        invariant old(asked) <= asked && |asked| <= |old(asked)| + (if i < 12 then i else 12)
        invariant forall k :: |old(asked)| <= k < |asked| ==> asked[k] == (Key(mux, address, reg), target)
      {
        var ok, actual := Read(address, reg);
        if !ok {
          return IO;
        }
        if actual == target {
          return OK;
        }
        if i == 12 {
          return IO;
        }
        ok := Write(address, reg, target);
        if !ok {
          return IO;
        }
      }
      rc := IO;
    }
  }
}
