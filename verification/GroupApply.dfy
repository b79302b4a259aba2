/**
 * Changing the mode of one port group (an EPL): close its lanes, reprogram the
 * SDK, reopen the lanes, and otherwise put the captured hardware state back.
 */
module GroupApply {
  import opened Bits
  import opened BoardBus
  import opened TxLanes

  /** `enabled` are the lanes 0..3 of a split group; an aggregate is on or off. */
  datatype Group = Group(epl: int, mode: int, speeds: seq<int>, enabled: set<int>)

  predicate IsEpl(epl: int) {
    epl in {0, 1, 2, 5, 6, 7}
  }

  function GroupIndex(epl: int): (i: int)
    ensures IsEpl(epl) ==> 0 <= i < 6
  {
    if epl < 3 then epl else epl - 2
  }

  predicate ValidGroup(g: Group) {
    IsEpl(g.epl) && |g.speeds| == 4 && g.enabled <= {0, 1, 2, 3}
  }

  function Mpo(epl: int): (mpo: int)
    ensures IsEpl(epl) ==> mpo in {1, 2}
  {
    GroupIndex(epl) / 3 + 1
  }

  function FirstLane(epl: int): int {
    GroupIndex(epl) % 3 * 4
  }

  /** The transmit lanes of an EPL within its module. */
  function Lanes(epl: int): set<int> {
    {FirstLane(epl), FirstLane(epl) + 1, FirstLane(epl) + 2, FirstLane(epl) + 3}
  }

  function TxMask(g: Group): (mask: set<int>)
    ensures mask <= Lanes(g.epl)
  {
    if !ValidGroup(g) then {}
    else if g.mode != 0 then if g.enabled != {} then Lanes(g.epl) else {}
    else set lane | lane in Lanes(g.epl) && lane - FirstLane(g.epl) in g.enabled
  }

  /** Three groups to a module, four lanes each. */
  lemma GroupsAre()
    ensures Mpo(0) == Mpo(1) == Mpo(2) == 1 && Mpo(5) == Mpo(6) == Mpo(7) == 2
    ensures FirstLane(0) == FirstLane(5) == 0 && FirstLane(1) == FirstLane(6) == 4 && FirstLane(2) == FirstLane(7) == 8
    ensures GroupIndex(0) == 0 && GroupIndex(1) == 1 && GroupIndex(2) == 2
    ensures GroupIndex(5) == 3 && GroupIndex(6) == 4 && GroupIndex(7) == 5
  {
  }

  /** In numbers: the four bits of the group, shifted to its place in the module. */
  lemma TxMaskIsShifted(g: Group)
    requires ValidGroup(g)
    ensures Encode(TxMask(g), 0, 12) ==
            (if g.mode == 0 then Encode(g.enabled, 0, 4) else if g.enabled != {} then 15 else 0) * Pow2(FirstLane(g.epl))
  {
    if g.mode == 0 {
      SplitMask(g);
    } else {
      hide *;
      AggregateMask(g);
    }
  }

  lemma SplitMask(g: Group)
    requires ValidGroup(g) && g.mode == 0
    ensures Encode(TxMask(g), 0, 12) == Encode(g.enabled, 0, 4) * Pow2(FirstLane(g.epl))
  {
    ShiftedMask(TxMask(g), g.enabled, FirstLane(g.epl));
  }

  lemma AggregateMask(g: Group)
    requires ValidGroup(g) && g.mode != 0
    ensures Encode(TxMask(g), 0, 12) == (if g.enabled != {} then 15 else 0) * Pow2(FirstLane(g.epl))
  {
    var bits := if g.enabled != {} then {0, 1, 2, 3} else {};
    ShiftedMask(TxMask(g), bits, FirstLane(g.epl));
    FullAndEmpty();
  }

  lemma ShiftedMask(mask: set<int>, bits: set<int>, first: nat)
    requires forall lane :: lane in mask <==> lane - first in bits
    requires first <= 8 && forall k :: k in bits ==> 0 <= k < 4
    ensures Encode(mask, 0, 12) == Encode(bits, 0, 4) * Pow2(first)
  {
    EncodeShifted(mask, bits, first, 0, 12);
    EncodeEnds(bits, 0, 12 - first);
  }

  lemma FullAndEmpty()
    ensures Encode({0, 1, 2, 3}, 0, 4) == 15 && Encode({}, 0, 4) == 0
  {
  }

  /** Below the first lane there are only zeros. */
  lemma {:induction false} EncodeShifted(mask: set<int>, bits: set<int>, first: nat, base: nat, n: nat)
    requires (forall lane :: lane in mask <==> lane - first in bits) && (forall k :: k in bits ==> 0 <= k)
    requires base <= first <= base + n
    ensures Encode(mask, base, n) == Encode(bits, 0, base + n - first) * Pow2(first - base)
    decreases n
  {
    if base < first {
      EncodeShifted(mask, bits, first, base + 1, n - 1);
      assert base !in mask;
      assert Pow2(first - base) == 2 * Pow2(first - base - 1);
      var e, p := Encode(bits, 0, base + n - first), Pow2(first - base - 1);
      assert 2 * (e * p) == e * (2 * p);
    } else {
      SameBits(mask, bits, first, 0, n);
    }
  }

  lemma {:induction false} SameBits(mask: set<int>, bits: set<int>, first: nat, k: nat, n: nat)
    requires forall lane :: lane in mask <==> lane - first in bits
    ensures Encode(mask, first + k, n) == Encode(bits, k, n)
    decreases n
  {
    if n > 0 {
      SameBits(mask, bits, first, k + 1, n - 1);
    }
  }

  /** Above the fourth bit there is nothing. */
  lemma {:induction false} EncodeEnds(bits: set<int>, k: nat, n: nat)
    requires (forall b :: b in bits ==> b < 4) && k <= 4 && k + n >= 4
    ensures Encode(bits, k, n) == Encode(bits, k, 4 - k)
    decreases n
  {
    if n > 0 {
      if k < 4 {
        EncodeEnds(bits, k + 1, n - 1);
      } else {
        NoBits(bits, k, n);
      }
    }
  }

  lemma {:induction false} NoBits(bits: set<int>, k: nat, n: nat)
    requires forall b :: b in bits ==> b < k
    ensures Encode(bits, k, n) == 0
    decreases n
  {
    if n > 0 {
      NoBits(bits, k + 1, n - 1);
    }
  }

  lemma ShiftsAreApart(a: int, b: int)
    requires IsEpl(a) && IsEpl(b) && a != b && Mpo(a) == Mpo(b)
    ensures FirstLane(a) <= FirstLane(b) - 4 || FirstLane(b) <= FirstLane(a) - 4
  {
    assert GroupIndex(a) != GroupIndex(b);
  }

  /** What is confined to one EPL leaves the lanes of every other EPL alone. */
  lemma OtherEplKeepsItsLanes(r: Regs, s: Regs, epl: int, other: int)
    requires IsEpl(epl) && IsEpl(other) && epl != other
    requires Confined(r, s, Mpo(epl), Lanes(epl))
    ensures Tx(s, Mpo(other)) * Lanes(other) == Tx(r, Mpo(other)) * Lanes(other)
  {
    if Mpo(other) == Mpo(epl) {
      LanesAreDisjoint(epl, other);
      SameOnDisjoint(Tx(r, Mpo(epl)), Tx(s, Mpo(epl)), Lanes(epl), Lanes(other));
    }
  }

  lemma LanesAreDisjoint(a: int, b: int)
    requires IsEpl(a) && IsEpl(b) && a != b && Mpo(a) == Mpo(b)
    ensures Lanes(a) !! Lanes(b)
  {
    ShiftsAreApart(a, b);
    FoursAreDisjoint(FirstLane(a), FirstLane(b));
  }

  lemma FoursAreDisjoint(x: int, y: int)
    requires x <= y - 4 || y <= x - 4
    ensures {x, x + 1, x + 2, x + 3} !! {y, y + 1, y + 2, y + 3}
  {
  }

  lemma SameOnDisjoint(x: set<int>, y: set<int>, l: set<int>, k: set<int>)
    requires x - l == y - l && l !! k
    ensures x * k == y * k
  {
    forall lane <- k
      ensures lane in x <==> lane in y
    {
      assert lane in x - l <==> lane in y - l;
    }
  }

  /** A set_modes call: what was quiesced and which lanes shone. */
  datatype ModeChange = ModeChange(group: Group, quiesced: bool, shining: set<int>)

  /** The callbacks by name. */
  datatype Ask = CaptureGroup | Pause | Release | Disable | ChangeModes | RestorePorts | VerifyGroup

  /** The calls that bring a paused group to a mode. */
  const REMODE: seq<Ask> := [Disable, ChangeModes, RestorePorts, VerifyGroup]

  /** The SDK callbacks.  Each may fail; a failed one may have taken effect.
      They may leave the mux anywhere, but not touch the optical modules. */
  class Sdk {
    const healthy: bool         // no callback ever fails
    var modes: map<int, Group>  // the hardware's groups
    var quiesced: set<int>      // EPLs whose protocols are suspended
    var degradedEpls: set<int>
    ghost var changes: seq<ModeChange>
    ghost var calls: seq<Ask>   // asked for so far, whether or not they worked

    method Answers() returns (ok: bool)
      ensures healthy ==> ok
    {
      ok := *;
      ok := ok || healthy;
    }

    method Capture(b: Bus, epl: int) returns (ok: bool, g: Group)
      requires b.Valid()
      modifies b`mux, `calls
      ensures b.Valid() && calls == old(calls) + [CaptureGroup]
      ensures ok ==> epl in modes && g == modes[epl]
      ensures healthy && epl in modes ==> ok
    {
      calls := calls + [CaptureGroup];
      Interfere(b);
      g := *;
      ok := Answers();
      ok := ok && epl in modes;
      if ok {
        g := modes[epl];
      }
    }

    method Quiesce(b: Bus, epl: int, paused: bool) returns (ok: bool)
      requires b.Valid()
      modifies b`mux, `quiesced, `calls
      ensures b.Valid() && calls == old(calls) + [if paused then Pause else Release]
      ensures quiesced - {epl} == old(quiesced) - {epl}
      ensures ok ==> (epl in quiesced <==> paused)
      ensures healthy ==> ok
    {
      calls := calls + [if paused then Pause else Release];
      Interfere(b);
      ok := Answers();
      var works: bool := *;
      if ok || works {
        quiesced := if paused then quiesced + {epl} else quiesced - {epl};
      }
    }

    /** disable, restore_ports and verify do not change groups or lanes. */
    method Call(b: Bus, ghost ask: Ask) returns (ok: bool)
      requires b.Valid() && ask in {Disable, RestorePorts, VerifyGroup}
      modifies b`mux, `calls
      ensures b.Valid() && calls == old(calls) + [ask]
      ensures healthy ==> ok
    {
      calls := calls + [ask];
      Interfere(b);
      ok := Answers();
    }

    method SetModes(b: Bus, g: Group) returns (ok: bool)
      requires b.Valid()
      modifies b`mux, `modes, `changes, `calls
      ensures b.Valid() && calls == old(calls) + [ChangeModes]
      ensures changes == old(changes) +
                [ModeChange(g, g.epl in quiesced, Tx(b.regs, Mpo(g.epl)) * Lanes(g.epl))]
      ensures modes == old(modes) || modes == old(modes)[g.epl := g]
      ensures ok ==> modes == old(modes)[g.epl := g]
      ensures healthy ==> ok
    {
      calls := calls + [ChangeModes];
      changes := changes + [ModeChange(g, g.epl in quiesced, Tx(b.regs, Mpo(g.epl)) * Lanes(g.epl))];
      Interfere(b);
      ok := Answers();
      var works: bool := *;
      if ok || works {
        modes := modes[g.epl := g];
      }
    }

    method Degraded(epl: int)
      modifies `degradedEpls
      ensures degradedEpls == old(degradedEpls) + {epl}
    {
      degradedEpls := degradedEpls + {epl};
    }

    method Interfere(b: Bus)
      requires b.Valid()
      modifies b`mux
      ensures b.Valid()
    {
      var mux: int := *;
      if 0 <= mux < 16 {
        b.mux := mux;
      }
    }
  }

  /** Every mode change from position `from` on is of `epl`, quiesced and dark. */
  ghost predicate DarkChanges(changes: seq<ModeChange>, from: nat, epl: int) {
    forall i :: from <= i < |changes| ==>
      changes[i].group.epl == epl && changes[i].quiesced && changes[i].shining == {}
  }

  lemma ConfinedOnwards(r: Regs, s: Regs, t1: seq<Regs>, t2: seq<Regs>, from: nat, mpo: int, lanes: set<int>)
    requires t1 <= t2 && from <= |t1|
    requires ConfinedSince(r, t1, from, mpo, lanes) && Confined(r, s, mpo, lanes)
    requires ConfinedSince(s, t2, |t1|, mpo, lanes)
    ensures ConfinedSince(r, t2, from, mpo, lanes)
  {
    forall i | |t1| <= i < |t2|
      ensures Confined(r, t2[i], mpo, lanes)
    {
      ConfinedIsTransitive(r, s, t2[i], mpo, lanes);
    }
  }

  /** TxUpdate for one EPL, as one more step since `r`. */
  method UpdateLanes(b: Bus, epl: int, enabled: set<int>, ghost r: Regs, ghost from: nat) returns (rc: Rc)
    requires b.Valid() && IsEpl(epl) && enabled <= Lanes(epl) && from <= |b.trace|
    requires ConfinedSince(r, b.trace, from, Mpo(epl), Lanes(epl))
    requires Confined(r, b.regs, Mpo(epl), Lanes(epl))
    modifies b
    ensures b.Valid() && old(b.trace) <= b.trace
    ensures ConfinedSince(r, b.trace, from, Mpo(epl), Lanes(epl))
    ensures Confined(r, b.regs, Mpo(epl), Lanes(epl))
    ensures rc == OK ==> LanesAre(b.regs, Mpo(epl), Lanes(epl), enabled)
    ensures b.healthy ==> rc == OK
  {
    rc := TxUpdate(b, Mpo(epl), Lanes(epl), enabled);
    ConfinedOnwards(r, old(b.regs), old(b.trace), b.trace, from, Mpo(epl), Lanes(epl));
    ConfinedIsTransitive(r, old(b.regs), b.regs, Mpo(epl), Lanes(epl));
  }

  method ApplyModes(b: Bus, ops: Sdk, g: Group, ghost r: Regs, ghost from: nat) returns (rc: Rc)
    requires b.Valid() && ValidGroup(g) && g.epl in ops.quiesced && from <= |b.trace|
    requires ConfinedSince(r, b.trace, from, Mpo(g.epl), Lanes(g.epl))
    requires Confined(r, b.regs, Mpo(g.epl), Lanes(g.epl))
    modifies b, ops`modes, ops`changes, ops`calls
    ensures b.Valid() && old(b.trace) <= b.trace
    ensures rc in {OK, IO}
    ensures ConfinedSince(r, b.trace, from, Mpo(g.epl), Lanes(g.epl))
    ensures Confined(r, b.regs, Mpo(g.epl), Lanes(g.epl))
    ensures old(ops.changes) <= ops.changes && DarkChanges(ops.changes, |old(ops.changes)|, g.epl)
    ensures ops.modes == old(ops.modes) || ops.modes == old(ops.modes)[g.epl := g]
    ensures rc == OK ==> LanesAre(b.regs, Mpo(g.epl), Lanes(g.epl), TxMask(g))
    ensures rc == OK ==> ops.modes == old(ops.modes)[g.epl := g]
    ensures old(ops.calls) <= ops.calls && (rc == OK ==> ops.calls == old(ops.calls) + REMODE)
    ensures b.healthy && ops.healthy ==> rc == OK
  {
    rc := UpdateLanes(b, g.epl, {}, r, from);
    if rc != OK { return IO; }
    var ok := ops.Call(b, Disable);
    if !ok { return IO; }
    ok := ops.SetModes(b, g);
    if !ok { return IO; }
    rc := UpdateLanes(b, g.epl, TxMask(g), r, from);
    if rc != OK { return IO; }
    ok := ops.Call(b, RestorePorts);
    if !ok { return IO; }
    ok := ops.Call(b, VerifyGroup);
    if !ok { return IO; }
  }

  /** Close the lanes as well as possible and give the EPL up. */
  method Degrade(b: Bus, ops: Sdk, epl: int, ghost r: Regs, ghost from: nat)
    requires b.Valid() && IsEpl(epl) && from <= |b.trace|
    requires ConfinedSince(r, b.trace, from, Mpo(epl), Lanes(epl))
    requires Confined(r, b.regs, Mpo(epl), Lanes(epl))
    modifies b, ops`degradedEpls, ops`calls
    ensures b.Valid() && old(b.trace) <= b.trace
    ensures ConfinedSince(r, b.trace, from, Mpo(epl), Lanes(epl))
    ensures Confined(r, b.regs, Mpo(epl), Lanes(epl))
    ensures ops.degradedEpls == old(ops.degradedEpls) + {epl}
    ensures ops.calls == old(ops.calls) + [Disable]
    ensures b.healthy ==> LanesAre(b.regs, Mpo(epl), Lanes(epl), {})
  {
    var rc := UpdateLanes(b, epl, {}, r, from);
    var ok := ops.Call(b, Disable);
    ops.Degraded(epl);
  }

  /** Put the captured group and lanes back. */
  method Compensate(b: Bus, ops: Sdk, before: Group, lanes: set<int>, ghost r: Regs, ghost from: nat)
    returns (rc: Rc)
    requires b.Valid() && ValidGroup(before) && from <= |b.trace|
    requires ConfinedSince(r, b.trace, from, Mpo(before.epl), Lanes(before.epl))
    requires Confined(r, b.regs, Mpo(before.epl), Lanes(before.epl))
    requires lanes == Tx(r, Mpo(before.epl)) * Lanes(before.epl)
    modifies b, ops`modes, ops`changes, ops`quiesced, ops`calls
    ensures b.Valid() && old(b.trace) <= b.trace
    ensures rc in {OK, IO}
    ensures ConfinedSince(r, b.trace, from, Mpo(before.epl), Lanes(before.epl))
    ensures Confined(r, b.regs, Mpo(before.epl), Lanes(before.epl))
    ensures ops.quiesced - {before.epl} == old(ops.quiesced) - {before.epl}
    ensures old(ops.changes) <= ops.changes && DarkChanges(ops.changes, |old(ops.changes)|, before.epl)
    ensures ops.modes == old(ops.modes) || ops.modes == old(ops.modes)[before.epl := before]
    ensures rc == OK ==> Tx(b.regs, Mpo(before.epl)) == Tx(r, Mpo(before.epl))
    ensures rc == OK ==> ops.modes == old(ops.modes)[before.epl := before] && before.epl !in ops.quiesced
    ensures old(ops.calls) + [Pause] <= ops.calls
    ensures rc == OK ==> ops.calls == old(ops.calls) + [Pause] + REMODE + [Release]
    ensures b.healthy && ops.healthy ==> rc == OK
  {
    var ok := ops.Quiesce(b, before.epl, true);
    if !ok { return IO; }
    rc := ApplyModes(b, ops, before, r, from);
    if rc != OK { return; }
    rc := UpdateLanes(b, before.epl, lanes, r, from);
    if rc != OK { return IO; }
    ok := ops.Quiesce(b, before.epl, false);
    rc := if ok then OK else IO;
    var l := Lanes(before.epl);
    assert Tx(b.regs, Mpo(before.epl)) == (Tx(b.regs, Mpo(before.epl)) - l) + (Tx(b.regs, Mpo(before.epl)) * l);
    assert Tx(r, Mpo(before.epl)) == (Tx(r, Mpo(before.epl)) - l) + (Tx(r, Mpo(before.epl)) * l);
  }

  /** After a failure the way back was tried: the protocols were released again,
      or paused anew for the state before; and it ended with a release, or given
      up with the ports disabled. */
  ghost predicate Returns(calls: seq<Ask>, from: nat, rc: Rc) {
    && (exists i :: from <= i < |calls| && calls[i] in {Pause, Release})
    && |calls| > 0 && calls[|calls| - 1] == (if rc == ROLLBACK_FAILED then Disable else Release)
  }

  /** From the quiesced group on: the target, or the state before, or neither. */
  method Reprogram(b: Bus, ops: Sdk, before: Group, target: Group, lanes: set<int>,
                   ghost r: Regs, ghost from: nat) returns (rc: Rc)
    requires b.Valid() && ValidGroup(before) && ValidGroup(target) && before.epl == target.epl
    requires from <= |b.trace| && target.epl in ops.quiesced
    requires ConfinedSince(r, b.trace, from, Mpo(target.epl), Lanes(target.epl))
    requires Confined(r, b.regs, Mpo(target.epl), Lanes(target.epl))
    requires lanes == Tx(r, Mpo(target.epl)) * Lanes(target.epl)
    requires before.epl in ops.modes && ops.modes[before.epl] == before
    modifies b, ops
    ensures b.Valid() && old(b.trace) <= b.trace && rc in {OK, IO, ROLLBACK_FAILED}
    ensures ConfinedSince(r, b.trace, from, Mpo(target.epl), Lanes(target.epl))
    ensures old(ops.changes) <= ops.changes && DarkChanges(ops.changes, |old(ops.changes)|, target.epl)
    ensures ops.modes == old(ops.modes) || ops.modes == old(ops.modes)[target.epl := target]
    ensures ops.quiesced - {target.epl} == old(ops.quiesced) - {target.epl}
    ensures rc == OK ==>
              && LanesAre(b.regs, Mpo(target.epl), Lanes(target.epl), TxMask(target))
              && ops.modes == old(ops.modes)[target.epl := target]
              && target.epl !in ops.quiesced
    ensures rc == IO ==>
              && Tx(b.regs, Mpo(target.epl)) == Tx(r, Mpo(target.epl))
              && ops.modes == old(ops.modes)
    ensures rc == ROLLBACK_FAILED ==> ops.degradedEpls == old(ops.degradedEpls) + {target.epl}
    ensures rc != ROLLBACK_FAILED ==> ops.degradedEpls == old(ops.degradedEpls)
    ensures b.healthy && ops.healthy ==> rc == OK
    ensures b.healthy && rc == ROLLBACK_FAILED ==> LanesAre(b.regs, Mpo(target.epl), Lanes(target.epl), {})
    ensures old(ops.calls) <= ops.calls
    ensures rc == OK ==> ops.calls == old(ops.calls) + REMODE + [Release]
    ensures rc != OK ==> Returns(ops.calls, |old(ops.calls)|, rc)
  {
    hide Confined, TxMask, Lanes, Mpo, LanesAre, Tx;
    rc := ApplyModes(b, ops, target, r, from);
    if rc == OK {
      var ok := ops.Quiesce(b, target.epl, false);
      if ok {
        return OK;
      }
    }
    ghost var n := |ops.calls|;
    rc := Compensate(b, ops, before, lanes, r, from);
    assert ops.calls[n] == Pause;
    if rc == OK {
      return IO;
    }
    Degrade(b, ops, target.epl, r, from);
    assert ops.calls[n] == Pause;
    rc := ROLLBACK_FAILED;
  }

  /** The protocols would not pause: let them go on, or give the EPL up. */
  method BackOff(b: Bus, ops: Sdk, epl: int, ghost r: Regs, ghost from: nat) returns (rc: Rc)
    requires b.Valid() && IsEpl(epl) && from <= |b.trace|
    requires ConfinedSince(r, b.trace, from, Mpo(epl), Lanes(epl))
    requires Confined(r, b.regs, Mpo(epl), Lanes(epl))
    modifies b, ops`quiesced, ops`degradedEpls, ops`calls
    ensures b.Valid() && old(b.trace) <= b.trace && rc in {IO, ROLLBACK_FAILED}
    ensures ConfinedSince(r, b.trace, from, Mpo(epl), Lanes(epl))
    ensures ops.quiesced - {epl} == old(ops.quiesced) - {epl}
    ensures rc == IO ==> b.regs == old(b.regs) && epl !in ops.quiesced && ops.degradedEpls == old(ops.degradedEpls)
    ensures rc == ROLLBACK_FAILED ==> ops.degradedEpls == old(ops.degradedEpls) + {epl}
    ensures b.healthy && rc == ROLLBACK_FAILED ==> LanesAre(b.regs, Mpo(epl), Lanes(epl), {})
    ensures ops.calls == old(ops.calls) + if rc == IO then [Release] else [Release, Disable]
  {
    var ok := ops.Quiesce(b, epl, false);
    if ok {
      return IO;
    }
    Degrade(b, ops, epl, r, from);
    rc := ROLLBACK_FAILED;
  }

  /** A valid target for a group that is known, and whose lanes are as its mode says. */
  predicate Ready(r: Regs, modes: map<int, Group>, target: Group) {
    && ValidGroup(target) && target.epl in modes
    && ValidGroup(modes[target.epl]) && modes[target.epl].epl == target.epl
    && LanesAre(r, Mpo(target.epl), Lanes(target.epl), TxMask(modes[target.epl]))
  }

  /** The before-image: the group as the hardware has it, and its lanes, which
      must be the ones its mode lights. */
  method Examine(b: Bus, ops: Sdk, target: Group) returns (rc: Rc, before: Group, lanes: set<int>)
    requires b.Valid() && ValidGroup(target)
    modifies b`mux, ops`calls
    ensures b.Valid() && rc in {OK, IO} && ops.calls == old(ops.calls) + [CaptureGroup]
    ensures rc == OK ==>
              && target.epl in ops.modes && before == ops.modes[target.epl]
              && ValidGroup(before) && before.epl == target.epl
              && lanes == Tx(b.regs, Mpo(target.epl)) * Lanes(target.epl) == TxMask(before)
    ensures b.healthy && ops.healthy && Ready(b.regs, ops.modes, target) ==> rc == OK
  {
    lanes := {};
    var ok: bool;
    ok, before := ops.Capture(b, target.epl);
    if !ok || !ValidGroup(before) || before.epl != target.epl {
      return IO, before, lanes;
    }
    var tx: set<int>;
    rc, tx := TxRead(b, Mpo(target.epl));
    lanes := tx * Lanes(target.epl);
    if rc != OK || lanes != TxMask(before) {
      return IO, before, lanes;
    }
  }

  /** The transaction from the pause on. */
  method Replace(b: Bus, ops: Sdk, before: Group, target: Group, lanes: set<int>,
                 ghost r: Regs, ghost from: nat) returns (rc: Rc)
    requires b.Valid() && ValidGroup(before) && ValidGroup(target) && before.epl == target.epl
    requires from <= |b.trace|
    requires ConfinedSince(r, b.trace, from, Mpo(target.epl), Lanes(target.epl))
    requires Confined(r, b.regs, Mpo(target.epl), Lanes(target.epl)) && Tx(b.regs, Mpo(target.epl)) == Tx(r, Mpo(target.epl))
    requires lanes == Tx(r, Mpo(target.epl)) * Lanes(target.epl)
    requires before.epl in ops.modes && ops.modes[before.epl] == before
    modifies b, ops
    ensures b.Valid() && old(b.trace) <= b.trace && rc in {OK, IO, ROLLBACK_FAILED}
    ensures ConfinedSince(r, b.trace, from, Mpo(target.epl), Lanes(target.epl))
    ensures old(ops.changes) <= ops.changes && DarkChanges(ops.changes, |old(ops.changes)|, target.epl)
    ensures ops.modes == old(ops.modes) || ops.modes == old(ops.modes)[target.epl := target]
    ensures ops.quiesced - {target.epl} == old(ops.quiesced) - {target.epl}
    ensures rc == OK ==>
              && LanesAre(b.regs, Mpo(target.epl), Lanes(target.epl), TxMask(target))
              && ops.modes == old(ops.modes)[target.epl := target]
              && target.epl !in ops.quiesced
    ensures rc == IO ==>
              && Tx(b.regs, Mpo(target.epl)) == Tx(r, Mpo(target.epl))
              && ops.modes == old(ops.modes)
    ensures rc == ROLLBACK_FAILED ==> ops.degradedEpls == old(ops.degradedEpls) + {target.epl}
    ensures rc != ROLLBACK_FAILED ==> ops.degradedEpls == old(ops.degradedEpls)
    ensures b.healthy && ops.healthy ==> rc == OK
    ensures b.healthy && rc == ROLLBACK_FAILED ==> LanesAre(b.regs, Mpo(target.epl), Lanes(target.epl), {})
    ensures rc == OK ==> ops.calls == old(ops.calls) + [Pause] + REMODE + [Release]
    ensures rc != OK ==> old(ops.calls) + [Pause] <= ops.calls && Returns(ops.calls, |old(ops.calls)| + 1, rc)
  {
    hide Confined, TxMask, Lanes, Mpo, LanesAre, Tx;
    var ok := ops.Quiesce(b, target.epl, true);
    if !ok {
      rc := BackOff(b, ops, target.epl, r, from);
      assert ops.calls[|old(ops.calls)| + 1] == Release;
      return;
    }
    rc := Reprogram(b, ops, before, target, lanes, r, from);
  }

  /**
   * The transaction, for every bus and every callback behaviour: lanes outside
   * the EPL never change; the mode changes only while the EPL is quiesced and
   * dark; OK means the target, IO the state before; and a failed compensation
   * always leaves the EPL marked degraded.
   */
  method Apply(b: Bus, ops: Sdk, target: Group) returns (rc: Rc)
    requires b.Valid()
    modifies b, ops
    ensures b.Valid() && old(b.trace) <= b.trace && old(ops.changes) <= ops.changes
    ensures rc == INVALID <==> !ValidGroup(target)
    ensures rc == INVALID ==> b.regs == old(b.regs) && b.trace == old(b.trace) && ops.changes == old(ops.changes)
    ensures ConfinedSince(old(b.regs), b.trace, |old(b.trace)|, Mpo(target.epl), Lanes(target.epl))
    ensures DarkChanges(ops.changes, |old(ops.changes)|, target.epl)
    ensures forall epl :: epl in old(ops.modes) && epl != target.epl ==>
              epl in ops.modes && ops.modes[epl] == old(ops.modes)[epl]
    ensures ops.quiesced - {target.epl} == old(ops.quiesced) - {target.epl}
    ensures rc == OK ==>
              && LanesAre(b.regs, Mpo(target.epl), Lanes(target.epl), TxMask(target))
              && ops.modes == old(ops.modes)[target.epl := target]
              && target.epl !in ops.quiesced
    ensures rc == IO ==>
              && Tx(b.regs, Mpo(target.epl)) == Tx(old(b.regs), Mpo(target.epl))
              && ops.modes == old(ops.modes)
    ensures rc == ROLLBACK_FAILED ==> ops.degradedEpls == old(ops.degradedEpls) + {target.epl}
    ensures rc != ROLLBACK_FAILED ==> ops.degradedEpls == old(ops.degradedEpls)
    ensures rc == OK ==> ops.calls == old(ops.calls) + [CaptureGroup, Pause] + REMODE + [Release]
    ensures rc == INVALID ==> ops.calls == old(ops.calls)
    ensures rc in {IO, ROLLBACK_FAILED} ==>
              || (rc == IO && ops.calls == old(ops.calls) + [CaptureGroup])
              || (old(ops.calls) + [CaptureGroup, Pause] <= ops.calls && Returns(ops.calls, |old(ops.calls)| + 2, rc))
    ensures b.healthy && ops.healthy && Ready(old(b.regs), old(ops.modes), target) ==> rc == OK
    ensures b.healthy && rc == ROLLBACK_FAILED ==> LanesAre(b.regs, Mpo(target.epl), Lanes(target.epl), {})
  {
    if !ValidGroup(target) {
      return INVALID;
    }
    ghost var r := b.regs;
    ghost var from := |b.trace|;
    hide Confined, TxMask, Lanes, Mpo, LanesAre, Tx, Ready;
    var before: Group, lanes: set<int>;
    rc, before, lanes := Examine(b, ops, target);
    if rc != OK {
      return;
    }
    rc := Replace(b, ops, before, target, lanes, r, from);
  }
}
