/**
 * Cold bootstrap of an optical module: 22 tuning registers, captured before
 * the first write, verified after the last, and put back on any failure.
 */
module OpticsSetup {
  import opened Bits
  import opened BoardBus
  import opened Common
  import opened TxLanes

  datatype Setting = Setting(address: int, reg: int, value: Byte)

  const SETTINGS: seq<Setting> := [
    Setting(0x50, 68, 255), Setting(0x50, 69, 255), Setting(0x50, 70, 255),
    Setting(0x50, 71, 255), Setting(0x50, 72, 255), Setting(0x50, 73, 255), Setting(0x50, 43, 1),
    Setting(0x40, 62, 238), Setting(0x40, 63, 238), Setting(0x40, 64, 238),
    Setting(0x40, 65, 238), Setting(0x40, 66, 238), Setting(0x40, 67, 238),
    Setting(0x40, 68, 0), Setting(0x40, 69, 0), Setting(0x40, 70, 0),
    Setting(0x40, 71, 0), Setting(0x40, 72, 0), Setting(0x40, 73, 0), Setting(0x40, 43, 0),
    Setting(0x40, 56, 15), Setting(0x40, 57, 255)
  ]

  const COUNT := 22

  function KeyAt(mpo: int, i: nat): Key
    requires i < COUNT
  {
    Key(Branch(mpo), SETTINGS[i].address, SETTINGS[i].reg)
  }

  /** The receive-enable register keeps its reserved nibble. */
  function TargetAt(i: nat, before: Byte): Byte
    requires i < COUNT
  {
    if SETTINGS[i].address == 0x40 && SETTINGS[i].reg == 56
    then before / 16 * 16 + 15
    else SETTINGS[i].value
  }

  /** The settings, register range by register range. */
  lemma SettingsAre()
    ensures forall i: nat :: i < 6 ==> SETTINGS[i] == Setting(0x50, 68 + i, 255)
    ensures SETTINGS[6] == Setting(0x50, 43, 1) && SETTINGS[19] == Setting(0x40, 43, 0)
    ensures forall i: nat :: 7 <= i < 13 ==> SETTINGS[i] == Setting(0x40, 55 + i, 238)
    ensures forall i: nat :: 13 <= i < 19 ==> SETTINGS[i] == Setting(0x40, 55 + i, 0)
    ensures SETTINGS[20] == Setting(0x40, 56, 15) && SETTINGS[21] == Setting(0x40, 57, 255)
    ensures forall before: Byte :: TargetAt(20, before) % 16 == 15 && TargetAt(20, before) / 16 == before / 16
    ensures forall i: nat, before: Byte :: i < COUNT && i != 20 ==> TargetAt(i, before) == SETTINGS[i].value
  {
  }

  lemma SettingsAreDistinct(i: nat, k: nat)
    requires i < COUNT && k < COUNT && i != k
    ensures SETTINGS[i].address != SETTINGS[k].address || SETTINGS[i].reg != SETTINGS[k].reg
  {
  }

  /** None of the settings is a transmit-enable register. */
  lemma SettingsAreNotLanes(mpo: int, i: nat)
    requires i < COUNT
    ensures KeyAt(mpo, i) != High(mpo) && KeyAt(mpo, i) != Low(mpo)
  {
  }

  ghost predicate Tunes(a: Regs, b: Regs, mpo: int) {
    forall k :: (forall i: nat :: i < COUNT ==> k != KeyAt(mpo, i)) ==> At(a, k) == At(b, k)
  }

  lemma TuningKeepsLanes(a: Regs, b: Regs, mpo: int)
    requires Tunes(a, b, mpo)
    ensures At(a, High(mpo)) == At(b, High(mpo)) && At(a, Low(mpo)) == At(b, Low(mpo))
    ensures Tx(a, mpo) == Tx(b, mpo)
  {
    forall i: nat | i < COUNT
      ensures KeyAt(mpo, i) != High(mpo) && KeyAt(mpo, i) != Low(mpo)
    {
      SettingsAreNotLanes(mpo, i);
    }
  }

  ghost predicate TunesSince(r: Regs, trace: seq<Regs>, from: nat, mpo: int) {
    forall i :: from <= i < |trace| ==> Tunes(r, trace[i], mpo)
  }

  /** A transmit-enable register of either module. */
  predicate IsLaneKey(k: Key) {
    k.address == 0x50 && k.reg in {56, 57}
  }

  /** No write to a transmit-enable register has been asked for since. */
  ghost predicate LanesNotAsked(asked: seq<(Key, Byte)>, from: nat) {
    forall i :: from <= i < |asked| ==> !IsLaneKey(asked[i].0)
  }

  lemma SettingsAreNotLaneKeys(mpo: int, i: nat)
    requires i < COUNT
    ensures !IsLaneKey(KeyAt(mpo, i)) && IsLaneKey(High(mpo)) && IsLaneKey(Low(mpo))
  {
  }

  /** How many of the first n settings differ from their targets. */
  function Differing(before: seq<Byte>, target: seq<Byte>, n: nat): nat
    requires n <= |before| && n <= |target|
  {
    if n == 0 then 0 else Differing(before, target, n - 1) + if before[n - 1] != target[n - 1] then 1 else 0
  }

  datatype Report = Report(before: seq<Byte>, changed: nat, captured: bool, verified: bool, restored: bool)

  /** obt_write_verified: one setting, with everything else untouched. */
  method WriteSetting(b: Bus, mpo: int, i: nat, value: Byte, ghost r: Regs, ghost from: nat) returns (rc: Rc)
    requires b.Valid() && b.mux == Branch(mpo) && i < COUNT && from <= |b.trace|
    requires Tunes(r, b.regs, mpo) && TunesSince(r, b.trace, from, mpo)
    modifies b`regs, b`trace, b`asked
    ensures b.Valid() && old(b.trace) <= b.trace && rc in {OK, IO}
    ensures Tunes(r, b.regs, mpo) && TunesSince(r, b.trace, from, mpo)
    ensures forall k: nat :: k < COUNT && k != i ==> At(b.regs, KeyAt(mpo, k)) == At(old(b.regs), KeyAt(mpo, k))
    ensures rc == OK ==> At(b.regs, KeyAt(mpo, i)) == value
    ensures b.healthy ==> rc == OK
    ensures At(b.regs, KeyAt(mpo, i)) in {At(old(b.regs), KeyAt(mpo, i)), value}
    ensures old(b.asked) <= b.asked && LanesNotAsked(b.asked, |old(b.asked)|)
  {
    SettingsAreNotLaneKeys(mpo, i);
    rc := b.WriteRetry(SETTINGS[i].address, SETTINGS[i].reg, value);
    ghost var key := KeyAt(mpo, i);
    forall s | s == old(b.regs) || s == old(b.regs)[key := value]
      ensures Tunes(r, s, mpo)
    {
    }
    forall k: nat | k < COUNT && k != i
      ensures KeyAt(mpo, k) != key
    {
      SettingsAreDistinct(i, k);
    }
  }

  /** The whole before-image, taken before any tuning write. */
  method Capture(b: Bus, mpo: int) returns (rc: Rc, before: seq<Byte>)
    requires b.Valid() && b.mux == Branch(mpo)
    ensures rc in {OK, IO}
    ensures rc == OK ==> Holds(b.regs, mpo, before)
    ensures b.healthy ==> rc == OK
  {
    before := [];
    for i := 0 to COUNT
      invariant |before| == i
      invariant forall k: nat :: k < i ==> before[k] == At(b.regs, KeyAt(mpo, k))
    {
      var ok, v := b.Read(SETTINGS[i].address, SETTINGS[i].reg);
      if !ok {
        return IO, before;
      }
      before := before + [v];
    }
    rc := OK;
  }

  /** The registers hold these 22 values. */
  ghost predicate Holds(r: Regs, mpo: int, values: seq<Byte>) {
    |values| == COUNT && forall k: nat :: k < COUNT ==> At(r, KeyAt(mpo, k)) == values[k]
  }

  /** The 22 targets for a before-image. */
  function Targets(before: seq<Byte>): (target: seq<Byte>)
    requires |before| == COUNT
    ensures |target| == COUNT && forall k: nat :: k < COUNT ==> target[k] == TargetAt(k, before[k])
  {
    seq(COUNT, k requires 0 <= k < COUNT => TargetAt(k, before[k]))
  }

  /** Setting k still holds its before-image unless it was attempted. */
  ghost predicate Untouched(r: Regs, mpo: int, before: seq<Byte>, attempted: seq<bool>) {
    && |before| == |attempted| == COUNT
    && forall k: nat :: k < COUNT && !attempted[k] ==> At(r, KeyAt(mpo, k)) == before[k]
  }

  /** Each setting holds its before-image or its target. */
  ghost predicate Between(r: Regs, mpo: int, before: seq<Byte>, target: seq<Byte>) {
    && |before| == |target| == COUNT
    && forall k: nat :: k < COUNT ==> At(r, KeyAt(mpo, k)) in {before[k], target[k]}
  }

  method Tune(b: Bus, mpo: int, before: seq<Byte>, target: seq<Byte>, ghost r: Regs, ghost from: nat)
    returns (rc: Rc, attempted: seq<bool>, changed: nat)
    requires b.Valid() && b.mux == Branch(mpo) && from <= |b.trace|
    requires Tunes(r, b.regs, mpo) && TunesSince(r, b.trace, from, mpo)
    requires Holds(b.regs, mpo, before) && |target| == COUNT
    modifies b`regs, b`trace, b`asked
    ensures b.Valid() && old(b.trace) <= b.trace && rc in {OK, IO}
    ensures Tunes(r, b.regs, mpo) && TunesSince(r, b.trace, from, mpo)
    ensures Untouched(b.regs, mpo, before, attempted) && Between(b.regs, mpo, before, target)
    ensures b.healthy ==> rc == OK
    ensures rc == OK ==> Holds(b.regs, mpo, target) && changed == Differing(before, target, COUNT)
    ensures old(b.asked) <= b.asked && LanesNotAsked(b.asked, |old(b.asked)|)
  {
    hide Tunes;
    attempted := seq(COUNT, k => false);
    changed := 0;
    for i := 0 to COUNT
      invariant b.Valid() && old(b.trace) <= b.trace
      invariant old(b.asked) <= b.asked && LanesNotAsked(b.asked, |old(b.asked)|)
      invariant Tunes(r, b.regs, mpo) && TunesSince(r, b.trace, from, mpo)
      invariant Untouched(b.regs, mpo, before, attempted)
      invariant forall k: nat :: k < i ==> At(b.regs, KeyAt(mpo, k)) == target[k]
      invariant forall k: nat :: i <= k < COUNT ==> At(b.regs, KeyAt(mpo, k)) == before[k]
      invariant changed == Differing(before, target, i)
    {
      if before[i] != target[i] {
        changed := changed + 1;
        attempted := attempted[i := true];  // an error may follow a write that latched
        rc := WriteSetting(b, mpo, i, target[i], r, from);
        if rc != OK {
          return;
        }
      }
    }
    rc := OK;
  }

  method Verify(b: Bus, mpo: int, target: seq<Byte>) returns (rc: Rc)
    requires b.Valid() && b.mux == Branch(mpo) && |target| == COUNT
    ensures rc in {OK, IO}
    ensures rc == OK ==> Holds(b.regs, mpo, target) && Tx(b.regs, mpo) == {}
    ensures b.healthy && Holds(b.regs, mpo, target) && Tx(b.regs, mpo) == {} ==> rc == OK
  {
    for i := 0 to COUNT
      invariant forall k: nat :: k < i ==> At(b.regs, KeyAt(mpo, k)) == target[k]
    {
      var ok, v := b.Read(SETTINGS[i].address, SETTINGS[i].reg);
      if !ok || v != target[i] {
        return IO;
      }
    }
    var dark: bool;
    rc, dark := Dark(b, mpo);
    rc := if rc == OK && dark then OK else IO;
  }

  /** Are all twelve lanes off? */
  method Dark(b: Bus, mpo: int) returns (rc: Rc, dark: bool)
    requires b.Valid() && b.mux == Branch(mpo)
    ensures rc in {OK, IO}
    ensures rc == OK ==> (dark <==> Tx(b.regs, mpo) == {})
    ensures b.healthy ==> rc == OK
  {
    dark := false;
    var ok, high := b.Read(0x50, 56);
    if !ok { return IO, dark; }
    var low: Byte;
    ok, low := b.Read(0x50, 57);
    if !ok { return IO, dark; }
    NoLanes(high, low);
    rc, dark := OK, high % 16 == 0 && low == 0;
  }

  lemma NoLanes(high: Byte, low: Byte)
    ensures LanesOf(high, low) == {} <==> high % 16 == 0 && low == 0
  {
    assert Pow2(8) == 256 && Pow2(4) == 16;
    forall i: nat | i < 4
      ensures Bit(high, i) <==> Bit(high % 16, i)
    {
      LowBits(high / 16, high % 16, 4, i);
    }
    if low != 0 {
      var i := SomeBit(low, 8);
      assert i in LanesOf(high, low);
    } else if high % 16 != 0 {
      var i := SomeBit(high % 16, 4);
      assert i + 8 in LanesOf(high, low);
    } else {
      forall lane | 0 <= lane < 12
        ensures !LaneOn(high, low, lane)
      {
        ZeroBits(if lane < 8 then lane else lane - 8);
      }
    }
  }

  /** Put every attempted setting back, last first; never stop early. */
  method Restore(b: Bus, mpo: int, before: seq<Byte>, attempted: seq<bool>, ghost target: seq<Byte>,
                 ghost r: Regs, ghost from: nat)
    returns (restored: bool)
    requires b.Valid() && b.mux == Branch(mpo) && from <= |b.trace|
    requires Tunes(r, b.regs, mpo) && TunesSince(r, b.trace, from, mpo)
    requires Untouched(b.regs, mpo, before, attempted) && Between(b.regs, mpo, before, target)
    modifies b`regs, b`trace, b`asked
    ensures b.Valid() && old(b.trace) <= b.trace
    ensures Tunes(r, b.regs, mpo) && TunesSince(r, b.trace, from, mpo)
    ensures restored ==> Holds(b.regs, mpo, before)
    ensures b.healthy ==> restored
    ensures Between(b.regs, mpo, before, target)
    ensures old(b.asked) <= b.asked && LanesNotAsked(b.asked, |old(b.asked)|)
  {
    restored := true;
    for i := COUNT downto 0
      invariant b.Valid() && old(b.trace) <= b.trace
      invariant old(b.asked) <= b.asked && LanesNotAsked(b.asked, |old(b.asked)|)
      invariant Tunes(r, b.regs, mpo) && TunesSince(r, b.trace, from, mpo)
      invariant Untouched(b.regs, mpo, before, attempted) && Between(b.regs, mpo, before, target)
      invariant b.healthy ==> restored
      invariant restored ==> forall k: nat :: i <= k < COUNT ==> At(b.regs, KeyAt(mpo, k)) == before[k]
    {
      if attempted[i] {
        var rc := WriteSetting(b, mpo, i, before[i], r, from);
        if rc != OK {
          restored := false;
        }
      }
    }
  }

  /** What the report says about the 22 registers, whatever becomes of the mux. */
  ghost predicate Transacted(r: Regs, s: Regs, mpo: int, inner: Rc, out: Report) {
    && (out.captured ==> Holds(r, mpo, out.before) && Between(s, mpo, out.before, Targets(out.before)))
    && (inner == OK ==>
          && out.captured && Tx(s, mpo) == {} && out.changed == Differing(out.before, Targets(out.before), COUNT)
          && forall k: nat :: k < COUNT ==> At(s, KeyAt(mpo, k)) == TargetAt(k, out.before[k]))
    && (out.restored ==> out.captured && Holds(s, mpo, out.before))
    && (inner == ROLLBACK_FAILED <==> out.captured && !out.restored && inner != OK)
    && (out.restored ==> inner == IO)
    && (!out.captured ==> s == r && inner in {IO, INVALID})
  }

  /** A lost mux overrides the status. */
  predicate Overrides(rc: Rc, inner: Rc, lost: bool) {
    rc == if lost then IO else inner
  }

  /**
   * Over registers that were captured and not put back, the status is IO
   * exactly if the mux was lost: IO alone does not tell.
   */
  lemma StatusTellsIff(r: Regs, s: Regs, mpo: int, rc: Rc, inner: Rc, lost: bool, out: Report)
    requires Transacted(r, s, mpo, inner, out) && Overrides(rc, inner, lost) && out.captured
    ensures !out.restored ==> (rc == IO <==> lost)
    ensures out.restored ==> rc == IO
    ensures rc == ROLLBACK_FAILED <==> !out.restored && inner != OK && !lost
  {
  }

  /**
   * Such a run, write by write: the first setting's write latches and fails,
   * the write that should put it back is dropped, and the mux is lost.
   */
  lemma FailedRollbackIsMasked()
    ensures var before := seq(COUNT, k => 0);
            var key := KeyAt(1, 0);
            var r0: Regs, r1: Regs := map[], map[key := 255];
            var out := Report(before, 1, true, false, false);
            && Tx(r0, 1) == {} && Holds(r0, 1, before)
            && Follows(r0, r1, key, TargetAt(0, before[0])) && Follows(r1, r1, key, before[0])
            && Transacted(r0, r1, 1, ROLLBACK_FAILED, out) && Overrides(IO, ROLLBACK_FAILED, true)
            && !Holds(r1, 1, before)
  {
    var before: seq<Byte> := seq(COUNT, k => 0);
    var r0: Regs, r1: Regs := map[], map[KeyAt(1, 0) := 255];
    NoLanes(0, 0);
    assert At(r1, KeyAt(1, 0)) != before[0];
    assert Between(r1, 1, before, Targets(before)) by {
      assert TargetAt(0, 0) == 255;
    }
  }

  /**
   * fm10k_obt_setup.  No transmit-enable register is ever written.  `verified`
   * means all settings hold their targets with the module dark; `restored`
   * means all of them hold the captured values again.  `inner` is the status
   * of the transaction before the mux is put back, and `lost` that it was not.
   */
  method Setup(b: Bus, mpo: int) returns (rc: Rc, out: Report, inner: Rc, lost: bool)
    requires b.Valid()
    modifies b
    ensures b.Valid() && old(b.trace) <= b.trace
    ensures mpo !in {1, 2} ==> rc == INVALID
    ensures TunesSince(old(b.regs), b.trace, |old(b.trace)|, mpo)
    ensures Tunes(old(b.regs), b.regs, mpo)
    ensures old(b.asked) <= b.asked && LanesNotAsked(b.asked, |old(b.asked)|)
    ensures Transacted(old(b.regs), b.regs, mpo, inner, out) && Overrides(rc, inner, lost)
    ensures rc != IO && mpo in {1, 2} ==> b.mux == old(b.mux)
    ensures out.verified <==> rc == OK
    ensures !out.captured ==> out == Report([], 0, false, false, false)
    ensures inner == INVALID ==> mpo !in {1, 2} || Tx(old(b.regs), mpo) != {}
    ensures b.healthy && mpo in {1, 2} ==> !lost && rc == if Tx(old(b.regs), mpo) == {} then OK else INVALID
  {
    out, inner, lost := Report([], 0, false, false, false), INVALID, false;
    if mpo != 1 && mpo != 2 {
      return INVALID, out, inner, lost;
    }
    var mux: int;
    rc, mux := b.SelectMux(Branch(mpo));
    if rc != OK {
      return IO, out, IO, lost;
    }
    inner, out := SetupSelected(b, mpo);
    lost := b.ReleaseMux(mux);
    rc := if lost then IO else inner;
    out := out.(verified := rc == OK);
  }

  /** From the captured registers on: the targets verified, or everything put back if the bus allows. */
  method Exchange(b: Bus, mpo: int, before: seq<Byte>) returns (rc: Rc, out: Report)
    requires b.Valid() && b.mux == Branch(mpo) && Holds(b.regs, mpo, before) && Tx(b.regs, mpo) == {}
    modifies b`regs, b`trace, b`asked
    ensures b.Valid() && old(b.trace) <= b.trace
    ensures TunesSince(old(b.regs), b.trace, |old(b.trace)|, mpo)
    ensures Tunes(old(b.regs), b.regs, mpo)
    ensures old(b.asked) <= b.asked && LanesNotAsked(b.asked, |old(b.asked)|)
    ensures Transacted(old(b.regs), b.regs, mpo, rc, out) && rc != INVALID && out.captured
    ensures b.healthy ==> rc == OK
  {
    hide Tunes, TargetAt, Differing;
    var target := Targets(before);
    out := Report(before, 0, true, false, false);
    TuningIsReflexive(b.regs, mpo);
    var attempted: seq<bool>, changed: nat;
    rc, attempted, changed := Tune(b, mpo, before, target, old(b.regs), |old(b.trace)|);
    out := out.(changed := changed);
    if rc == OK {
      TuningKeepsLanes(old(b.regs), b.regs, mpo);
      rc := Verify(b, mpo, target);
      if rc == OK {
        return;
      }
    }
    var restored := Restore(b, mpo, before, attempted, target, old(b.regs), |old(b.trace)|);
    out := out.(restored := restored);
    rc := if restored then IO else ROLLBACK_FAILED;
  }

  lemma TuningIsReflexive(r: Regs, mpo: int)
    ensures Tunes(r, r, mpo)
  {
  }

  method SetupSelected(b: Bus, mpo: int) returns (rc: Rc, out: Report)
    requires b.Valid() && b.mux == Branch(mpo)
    modifies b`regs, b`trace, b`asked
    ensures b.Valid() && old(b.trace) <= b.trace
    ensures TunesSince(old(b.regs), b.trace, |old(b.trace)|, mpo)
    ensures Tunes(old(b.regs), b.regs, mpo)
    ensures old(b.asked) <= b.asked && LanesNotAsked(b.asked, |old(b.asked)|)
    ensures Transacted(old(b.regs), b.regs, mpo, rc, out)
    ensures !out.captured ==> out == Report([], 0, false, false, false)
    ensures rc == INVALID ==> Tx(old(b.regs), mpo) != {}
    ensures b.healthy ==> rc == if Tx(old(b.regs), mpo) == {} then OK else INVALID
  {
    out := Report([], 0, false, false, false);
    var dark: bool;
    rc, dark := Dark(b, mpo);
    if rc != OK {
      return;
    }
    if !dark {
      return INVALID, out;
    }
    hide Tunes, TunesSince;
    var before: seq<Byte>;
    rc, before := Capture(b, mpo);
    if rc != OK {
      return;
    }
    rc, out := Exchange(b, mpo, before);
  }
}
