/**
 * The configuration authority: timed commits with a durable before-image.
 * Bus calls, injected steps and the fan write may raise at any moment; a save
 * may raise or be the last thing the process does, before or after it reached
 * the disk (a death elsewhere leaves the disk as at the save before it); the
 * clock is arbitrary.
 */
module ConfirmedCommit {
  import opened BoardBus
  import opened Common
  import opened TxLanes
  import opened FanCurves
  import opened GroupApply
  import opened SimulatedBus
  import opened SwitchConfig
  import opened CommitHistory

  /** The lanes of one group that are on. */
  function GroupLanes(r: Regs, epl: int): set<int> {
    Tx(r, Mpo(epl)) * Lanes(epl)
  }

  ghost predicate SameLanesExcept(a: Regs, b: Regs, epls: set<int>) {
    forall epl :: IsEpl(epl) && epl !in epls ==> GroupLanes(a, epl) == GroupLanes(b, epl)
  }

  /** The registers are what a full recomputation would write, degraded groups aside. */
  ghost predicate Agrees(r: Regs, degraded: set<int>, c: Config) {
    c.Valid() && forall epl :: IsEpl(epl) && epl !in degraded ==> GroupLanes(r, epl) == EnabledLanes(c, epl)
  }

  lemma UpdateTouchesOneGroup(a: Regs, b: Regs, epl: int)
    requires IsEpl(epl) && Confined(a, b, Mpo(epl), Lanes(epl))
    ensures SameLanesExcept(a, b, {epl})
  {
    forall other | IsEpl(other) && other !in {epl}
      ensures GroupLanes(a, other) == GroupLanes(b, other)
    {
      OtherEplKeepsItsLanes(a, b, epl, other);
    }
  }

  /** Incremental equals full: only the touched groups needed rewriting. */
  lemma IncrementalIsFull(r: Regs, s: Regs, degraded: set<int>, before: Config, target: Config, affected: set<int>)
    requires before.Valid() && target.Valid()
    requires forall epl :: epl in affected <==> IsEpl(epl) && Touched(before, target, epl)
    requires Agrees(r, degraded, before) && SameLanesExcept(r, s, affected)
    requires forall epl <- affected :: GroupLanes(s, epl) == EnabledLanes(target, epl)
    ensures Agrees(s, degraded - affected, target)
  {
    forall epl | IsEpl(epl) && epl !in degraded - affected
      ensures GroupLanes(s, epl) == EnabledLanes(target, epl)
    {
      if epl !in affected {
        UntouchedGroupsAgree(before, target, epl);
      }
    }
  }

  /** The named steps of a transaction; those of a group are done group by group. */
  datatype Step =
    | Quiesce(epl: int) | DisableGroup(epl: int) | SetMode(epl: int)
    | Reconfigure(epl: int) | Verify(epl: int) | Resume(epl: int)
    | FanWrite | ApplyL2 | Readback

  /** Protocols rest from before the lanes go dark until the group is verified;
      its mode is set only if it changes. */
  function GroupSteps(epl: int, remode: bool): seq<Step> {
    [Quiesce(epl), DisableGroup(epl)] + (if remode then [SetMode(epl)] else [])
    + [Reconfigure(epl), Verify(epl), Resume(epl)]
  }

  function AllSteps(affected: seq<int>, before: Config, target: Config): seq<Step>
    requires before.Valid() && target.Valid() && forall epl <- affected :: IsEpl(epl)
  {
    if affected == [] then []
    else
      var n := |affected| - 1;
      AllSteps(affected[..n], before, target) + GroupSteps(affected[n], Remoded(before, target, affected[n]))
  }

  /** What the clock said once so many steps had been tried. */
  datatype Reading = Reading(now: int, after: nat)

  /** How a hardware transaction ends. */
  datatype Ending = Applied | Undone | Unrestored

  class MockConfigd {
    const bus: SimBus
    const undisturbed: bool          // nobody injects a failure
    var disk: State
    var state: State
    var hardware: Config
    var degraded: set<int>           // EPLs whose ports are degraded
    var manualUntil: Option<int>
    var steps: seq<Step>             // tried so far
    ghost var saved: seq<State>      // everything the disk has held
    ghost var savedAfter: seq<nat>   // how many steps had been tried at each save
    ghost var readings: seq<Reading>
    ghost var events: seq<Event>     // the commits on record
    ghost var unrestored: bool       // a restore failed since the hardware last matched
    ghost var adrift: bool           // nor did the fan curve since the controller last got one
    var torn: bool                   // bookkeeping: a save has raised since the last start

    ghost predicate DiskIsSound()
      reads this
    {
      Durable(disk, saved, events) && |savedAfter| == |saved|
    }

    /** Between calls. */
    ghost predicate Valid()
      reads this, bus
    {
      && DiskIsSound() && state == disk && !torn
      && (state.pending.Some? ==> state.Awaiting())
      && Agrees(bus.registers, degraded, state.configuration)
      && (unrestored || hardware == state.configuration)
      && (adrift || bus.curve == Some(state.configuration.fan))
    }

    /** No state file yet: it reads as revision 1 of the default configuration. */
    constructor (defaults: Config, healthy: bool, undisturbed: bool)
      requires defaults.Valid()
      ensures DiskIsSound() && disk == State(1, defaults, None, None) && fresh(bus)
      ensures bus.healthy == healthy && this.undisturbed == undisturbed
      ensures state == disk && hardware == defaults && degraded == {} && manualUntil.None? && !torn
    {
      bus := new SimBus(healthy);
      this.undisturbed := undisturbed;
      disk, state := State(1, defaults, None, None), State(1, defaults, None, None);
      hardware, degraded, manualUntil, steps := defaults, {}, None, [];
      saved, savedAfter, events, unrestored, adrift, torn := [disk], [0], [], true, true, false;
      readings := [];
    }

    /** Nothing fails here; only used to say what must succeed. */
    predicate Healthy() {
      bus.healthy && undisturbed
    }

    method Clock() returns (now: int)
      modifies `readings
      ensures readings == old(readings) + [Reading(now, |steps|)]
    {
      now := *;
      readings := readings + [Reading(now, |steps|)];
    }

    /** Every save keeps the history on disk honest, on whichever side of it the call ends. */
    method Persist(ghost event: seq<Event>) returns (o: Outcome)
      requires DiskIsSound() && Durable(state, saved + [state], events + event) && !torn
      modifies `disk, `saved, `savedAfter, `events, `torn
      ensures DiskIsSound()
      ensures o == Done ==> disk == state && events == old(events) + event && saved == old(saved) + [state]
      ensures saved in {old(saved), old(saved) + [state]}
      ensures o == Done ==> savedAfter == old(savedAfter) + [|steps|]
      ensures Healthy() ==> o == Done
      ensures events in {old(events), old(events) + event}
      ensures torn <==> o == Raised
    {
      o := *;
      o := if Healthy() then Done else o;
      var written: bool := *;
      if o == Done || written {
        disk := state;
        saved, savedAfter := saved + [state], savedAfter + [|steps|];
        events := events + event;
      }
      torn := o == Raised;
    }

    /** A failure may have been injected. */
    method Injected() returns (ok: bool)
      ensures Healthy() ==> ok
    {
      ok := *;
      ok := ok || Healthy();
    }

    /** A named step, which an injected failure may make raise. */
    method Do(step: Step) returns (ok: bool)
      requires step.SetMode? ==> IsEpl(step.epl) && GroupLanes(bus.registers, step.epl) == {}
      modifies `steps
      ensures steps == old(steps) + [step]
      ensures Healthy() ==> ok
    {
      steps := steps + [step];
      ok := Injected();
    }

    // ----- hardware ------------------------------------------------------

    method UpdateGroup(epl: int, lanes: set<int>) returns (ok: bool)
      requires IsEpl(epl)
      modifies bus`mux, bus`registers, bus`writes
      ensures SameLanesExcept(old(bus.registers), bus.registers, {epl})
      ensures ok ==> GroupLanes(bus.registers, epl) == lanes
      ensures ok ==> bus.mux == old(bus.mux)
      ensures bus.healthy && lanes <= Lanes(epl) ==> ok
    {
      ok := bus.UpdateTxMask(Mpo(epl), Lanes(epl), lanes);
      UpdateTouchesOneGroup(old(bus.registers), bus.registers, epl);
    }

    method TakeDown(epl: int) returns (ok: bool)
      requires IsEpl(epl)
      modifies bus`mux, bus`registers, bus`writes, `steps
      ensures SameLanesExcept(old(bus.registers), bus.registers, {epl})
      ensures ok ==> GroupLanes(bus.registers, epl) == {}
      ensures old(steps) <= steps && (ok ==> steps == old(steps) + [Quiesce(epl), DisableGroup(epl)])
      ensures Healthy() ==> ok
    {
      ok := Do(Quiesce(epl));
      if !ok { return; }
      ok := Do(DisableGroup(epl));
      if !ok { return; }
      ok := UpdateGroup(epl, {});
    }

    method BringUp(epl: int, target: Config) returns (ok: bool)
      requires target.Valid() && IsEpl(epl)
      modifies bus`mux, bus`registers, bus`writes, `steps
      ensures SameLanesExcept(old(bus.registers), bus.registers, {epl})
      ensures ok ==> GroupLanes(bus.registers, epl) == EnabledLanes(target, epl)
      ensures old(steps) <= steps && (ok ==> steps == old(steps) + [Reconfigure(epl), Verify(epl), Resume(epl)])
      ensures Healthy() ==> ok
    {
      ok := Do(Reconfigure(epl));
      if !ok { return; }
      var lanes := GroupEnabledMask(target, epl);
      ok := UpdateGroup(epl, lanes);
      if !ok { return; }
      ok := Do(Verify(epl));
      if !ok { return; }
      ok := Do(Resume(epl));
    }

    method ApplyGroup(epl: int, target: Config, remode: bool) returns (ok: bool)
      requires target.Valid() && IsEpl(epl)
      modifies bus`mux, bus`registers, bus`writes, `steps
      ensures SameLanesExcept(old(bus.registers), bus.registers, {epl})
      ensures ok ==> GroupLanes(bus.registers, epl) == EnabledLanes(target, epl)
      ensures old(steps) <= steps && (ok ==> steps == old(steps) + GroupSteps(epl, remode))
      ensures Healthy() ==> ok
    {
      hide GroupIndex, FirstLane, Lanes, Tx;
      ok := TakeDown(epl);
      if !ok { return; }
      if remode {
        ok := Do(SetMode(epl));
        if !ok { return; }
      }
      ok := BringUp(epl, target);
    }

    method ApplyGroups(affected: seq<int>, before: Config, target: Config) returns (ok: bool)
      requires before.Valid() && target.Valid() && forall epl <- affected :: IsEpl(epl)
      modifies bus`mux, bus`registers, bus`writes, `steps
      ensures SameLanesExcept(old(bus.registers), bus.registers, set epl | epl in affected)
      ensures ok ==> forall epl <- affected :: GroupLanes(bus.registers, epl) == EnabledLanes(target, epl)
      ensures old(steps) <= steps && (ok ==> steps == old(steps) + AllSteps(affected, before, target))
      ensures Healthy() ==> ok
    {
      hide GroupIndex, FirstLane, Lanes, Tx;
      for i := 0 to |affected|
        invariant SameLanesExcept(old(bus.registers), bus.registers, set epl | epl in affected)
        invariant forall epl <- affected[..i] :: GroupLanes(bus.registers, epl) == EnabledLanes(target, epl)
        invariant steps == old(steps) + AllSteps(affected[..i], before, target)
      {
        var epl := affected[i];
        assert affected[..i + 1][..i] == affected[..i];
        assert epl in affected && epl in before.groups.Keys;
        ok := ApplyGroup(epl, target, before.groups[epl] != target.groups[epl]);
        if !ok {
          return;
        }
      }
      assert affected[..|affected|] == affected;
      ok := true;
    }

    method WriteFan(c: Curve) returns (ok: bool)
      modifies bus`mux, bus`curve, `adrift
      ensures ok ==> bus.curve == Some(c) && !adrift && bus.mux == old(bus.mux)
      ensures !ok ==> adrift
      ensures bus.healthy ==> ok
    {
      ok := bus.ApplyFanCurve(c);
      adrift := !ok;
    }

    /** The forward half of _apply_hardware. */
    method Forward(affected: seq<int>, before: Config, target: Config) returns (ok: bool)
      requires before.Valid() && target.Valid() && forall epl <- affected :: IsEpl(epl)
      requires adrift || bus.curve == Some(before.fan)
      modifies bus, `hardware, `manualUntil, `adrift, `steps
      ensures SameLanesExcept(old(bus.registers), bus.registers, set epl | epl in affected)
      ensures ok ==> forall epl <- affected :: GroupLanes(bus.registers, epl) == EnabledLanes(target, epl)
      ensures ok ==> hardware == target
      ensures old(steps) <= steps
      ensures ok ==> steps == old(steps) + AllSteps(affected, before, target)
                              + (if target.fan != before.fan then [FanWrite] else []) + [ApplyL2, Readback]
      ensures ok ==> manualUntil == (if target.fan == before.fan then old(manualUntil) else None)
      ensures manualUntil in {old(manualUntil), None}
      ensures ok ==> adrift || bus.curve == Some(target.fan)
      ensures target.fan == before.fan ==> adrift == old(adrift) && bus.curve == old(bus.curve)
      ensures ok && target.fan != before.fan ==> !adrift
      ensures Healthy() ==> ok
    {
      ok := ApplyGroups(affected, before, target);
      if !ok { return; }
      if target.fan != before.fan {
        ok := Do(FanWrite);
        if !ok { return; }
        ok := WriteFan(target.fan);
        if !ok { return; }
        manualUntil := None;
      }
      ok := Do(ApplyL2);
      if !ok { return; }
      hardware := target;
      ok := Do(Readback);
    }

    /** The lanes of the affected modules, before anything is written. */
    method ReadMasks(affected: seq<int>) returns (ok: bool, masks: map<int, set<int>>)
      requires forall epl <- affected :: IsEpl(epl)
      modifies bus`mux
      ensures ok ==> forall epl <- affected :: Mpo(epl) in masks && masks[Mpo(epl)] == Tx(bus.registers, Mpo(epl))
      ensures bus.healthy ==> ok
    {
      masks := map[];
      for i := 0 to |affected|
        invariant forall epl <- affected[..i] :: Mpo(epl) in masks
        invariant forall mpo <- masks :: masks[mpo] == Tx(bus.registers, mpo)
      {
        var mpo := Mpo(affected[i]);
        if mpo !in masks {
          var lanes: set<int>;
          ok, lanes := bus.ReadTxMask(mpo);
          if !ok {
            return;
          }
          masks := masks[mpo := lanes];
        }
      }
      ok := true;
    }

    /** Put the captured lanes of the affected groups back. */
    method RestoreMasks(affected: seq<int>, masks: map<int, set<int>>) returns (ok: bool)
      requires forall epl <- affected :: IsEpl(epl) && Mpo(epl) in masks
      modifies bus`mux, bus`registers, bus`writes
      ensures SameLanesExcept(old(bus.registers), bus.registers, set epl | epl in affected)
      ensures ok ==> forall epl <- affected :: GroupLanes(bus.registers, epl) == masks[Mpo(epl)] * Lanes(epl)
      ensures bus.healthy ==> ok
    {
      hide GroupIndex, FirstLane, Lanes, Tx;
      for i := 0 to |affected|
        invariant SameLanesExcept(old(bus.registers), bus.registers, set epl | epl in affected)
        invariant forall epl <- affected[..i] :: GroupLanes(bus.registers, epl) == masks[Mpo(epl)] * Lanes(epl)
      {
        ok := UpdateGroup(affected[i], masks[Mpo(affected[i])] * Lanes(affected[i]));
        if !ok {
          return;
        }
      }
      ok := true;
    }

    method CloseGroups(affected: seq<int>)
      requires forall epl <- affected :: IsEpl(epl)
      modifies bus`mux, bus`registers, bus`writes
      ensures SameLanesExcept(old(bus.registers), bus.registers, set epl | epl in affected)
      ensures bus.healthy ==> forall epl <- affected :: GroupLanes(bus.registers, epl) == {}
    {
      for i := 0 to |affected|
        invariant SameLanesExcept(old(bus.registers), bus.registers, set epl | epl in affected)
        invariant bus.healthy ==> forall epl <- affected[..i] :: GroupLanes(bus.registers, epl) == {}
      {
        var ok := UpdateGroup(affected[i], {});
      }
    }

    /** The handler of _apply_hardware: put back what was in `was` before. */
    method Undo(affected: seq<int>, masks: map<int, set<int>>, before: Config, target: Config, ghost was: Regs)
      returns (end: Ending)
      requires forall epl <- affected :: IsEpl(epl) && Mpo(epl) in masks && masks[Mpo(epl)] == Tx(was, Mpo(epl))
      requires SameLanesExcept(was, bus.registers, set epl | epl in affected)
      requires target.fan == before.fan ==> adrift || bus.curve == Some(before.fan)
      modifies bus, `hardware, `degraded, `unrestored, `adrift
      ensures end in {Undone, Unrestored}
      ensures SameLanesExcept(was, bus.registers, set epl | epl in affected)
      ensures end.Undone? ==> SameLanesExcept(was, bus.registers, {})
      ensures end.Undone? ==> degraded == old(degraded) && !unrestored && hardware == before
      ensures end.Unrestored? ==> degraded == old(degraded) + (set epl | epl in affected) && unrestored
      ensures adrift || bus.curve == Some(before.fan)
      ensures adrift ==> (if target.fan == before.fan then old(adrift) else end.Unrestored?)
      ensures Healthy() ==> end.Undone?
      ensures bus.healthy && end.Unrestored? ==> forall epl <- affected :: GroupLanes(bus.registers, epl) == {}
    {
      hide GroupIndex, FirstLane, Lanes, Tx;
      var ok := Injected();  // fail_rollback
      if ok {
        ok := RestoreMasks(affected, masks);
      }
      if ok && target.fan != before.fan {
        ok := WriteFan(before.fan);
      }
      if ok {
        hardware := before;
        unrestored := false;
        return Undone;
      }
      degraded := degraded + set epl | epl in affected;
      unrestored := true;
      adrift := adrift || target.fan != before.fan;
      CloseGroups(affected);
      end := Unrestored;
    }

    /**
     * _apply_hardware.  Applied: the target everywhere; Undone: every lane as
     * it was; Unrestored: the touched groups are marked degraded.
     */
    method ApplyHardware(before: Config, target: Config) returns (end: Ending)
      requires before.Valid() && target.Valid() && Agrees(bus.registers, degraded, before)
      requires unrestored || hardware == before
      requires adrift || bus.curve == Some(before.fan)
      modifies bus, `hardware, `degraded, `manualUntil, `unrestored, `adrift, `steps
      ensures Agrees(bus.registers, degraded, if end.Applied? then target else before)
      ensures unrestored || hardware == if end.Applied? then target else before
      ensures adrift || bus.curve == Some(if end.Applied? then target.fan else before.fan)
      ensures adrift ==> old(adrift) || (end.Unrestored? && target.fan != before.fan)
      ensures end.Applied? ==> hardware == target && !unrestored
      ensures end.Applied? ==>
                forall epl :: IsEpl(epl) ==>
                  (epl in degraded <==> epl in old(degraded) && !Touched(before, target, epl))
      ensures end.Applied? ==> manualUntil == (if target.fan == before.fan then old(manualUntil) else None)
      ensures manualUntil in {old(manualUntil), None}
      ensures Healthy() ==> end.Applied?
      ensures end.Undone? ==> degraded == old(degraded) && (unrestored ==> old(unrestored))
      ensures end.Undone? ==> SameLanesExcept(old(bus.registers), bus.registers, {})
      ensures end.Unrestored? ==>
                forall epl :: IsEpl(epl) ==>
                  (epl in degraded <==> epl in old(degraded) || Touched(before, target, epl))
      ensures end.Applied? ==> old(steps) < steps && steps[|steps| - 1] == Readback
      ensures bus.healthy && end.Unrestored? ==>
                forall epl :: IsEpl(epl) && Touched(before, target, epl) ==> GroupLanes(bus.registers, epl) == {}
    {
      var affected := Affected(before, target);
      ghost var touched := set epl | epl in affected;
      var ok: bool, masks: map<int, set<int>>;
      ok, masks := ReadMasks(affected);
      if !ok {
        return Undone;
      }
      ok := Forward(affected, before, target);
      if ok {
        IncrementalIsFull(old(bus.registers), bus.registers, degraded, before, target, touched);
        degraded := degraded - set epl | epl in affected;
        unrestored := false;
        return Applied;
      }
      end := Undo(affected, masks, before, target, old(bus.registers));
    }

    /** _restore_hardware: the full recomputation. */
    method RestoreHardware(c: Config) returns (ok: bool)
      requires c.Valid()
      modifies bus, `hardware, `adrift
      ensures ok ==> Agrees(bus.registers, {}, c) && hardware == c
      ensures ok ==> !adrift && bus.curve == Some(c.fan) && bus.mux == old(bus.mux)
      ensures bus.healthy ==> ok
    {
      for i := 0 to 6
        invariant forall epl <- EPLS[..i] :: GroupLanes(bus.registers, epl) == EnabledLanes(c, epl)
        invariant bus.mux == old(bus.mux)
      {
        var lanes := GroupEnabledMask(c, EPLS[i]);
        ok := UpdateGroup(EPLS[i], lanes);
        if !ok {
          return;
        }
      }
      forall epl | IsEpl(epl)
        ensures GroupLanes(bus.registers, epl) == EnabledLanes(c, epl)
      {
        EplsAreAll(epl);
        assert EPLS[..6] == EPLS;
      }
      ok := WriteFan(c.fan);
      if ok {
        hardware := c;
      }
    }

    // ----- the authority's calls -----------------------------------------

    /** What every call promises: the invariant, or after a death or a raising save at least a sound disk. */
    ghost predicate After(o: Outcome)
      reads this, bus
    {
      if o.Died? || torn then DiskIsSound() else Valid()
    }

    /** Read the record, and answer an open commit. */
    method Recall() returns (ghost event: seq<Event>)
      requires DiskIsSound()
      modifies this`state, this`torn, this`degraded, this`manualUntil, this`unrestored, this`adrift
      ensures Durable(state, saved + [state], events + event) && DiskIsSound()
      ensures event == if disk.Awaiting() then [Reverted(state.configuration)] else []
      ensures !torn && degraded == {} && manualUntil.None? && unrestored && adrift
      ensures state.pending.None?
      ensures state.configuration == (if disk.pending.Some? then disk.pending.value.before else disk.configuration)
      ensures state.revision == disk.revision + (if disk.pending.Some? then 1 else 0)
      ensures state.last ==
                if disk.pending.Some? then Some(Last(disk.pending.value.job, disk.revision, false)) else disk.last
    {
      state, torn := disk, false;
      degraded, manualUntil, unrestored, adrift := {}, None, true, true;
      event := [];
      if state.pending.Some? {
        var p := state.pending.value;
        state := State(state.revision + 1, p.before, None, Some(Last(p.job, state.revision, false)));
        if disk.Awaiting() {
          event := [Reverted(p.before)];
          EndSave(disk, state, saved, events, Reverted(p.before));
        } else {
          PlainSave(disk, state, saved, events);
        }
      } else {
        PlainSave(disk, state, saved, events);
      }
      assert events + [] == events;
    }

    /**
     * A (re)start.  A commit on record, applied or not, is answered with its
     * before-image; a start that cannot restore the hardware does not serve.
     */
    method Restart() returns (o: Outcome)
      requires DiskIsSound()
      modifies this, bus
      ensures After(o) && o in {Done, Died}
      ensures Healthy() ==> o == Done
      ensures o == Done ==>
                && state.pending.None? && degraded == {} && !unrestored && !adrift && manualUntil.None?
                && bus.mux == 1
                && state.configuration == (if old(disk).pending.Some? then old(disk).pending.value.before
                                           else old(disk).configuration)
                && state.revision == old(disk).revision + (if old(disk).pending.Some? then 1 else 0)
                && state.last == (if old(disk).pending.Some?
                                  then Some(Last(old(disk).pending.value.job, old(disk).revision, false))
                                  else old(disk).last)
                && events == old(events) + (if old(disk).Awaiting() then [Reverted(state.configuration)] else [])
    {
      ghost var event := Recall();
      bus.Reset();
      var ok := RestoreHardware(state.configuration);
      if !ok {
        return Died;
      }
      unrestored := false;
      o := Persist(event);
      if o == Raised {
        o := Died;  // the authority was never constructed
      }
    }

    ghost function Rank(): nat
      reads this
    {
      if state.pending.Some? then 1 else 0
    }

    /**
     * Nothing but an expired commit or manual duty changes here: `seen` is the
     * clock when the commit was looked at, `later` when manual duty was.
     */
    method Tick() returns (o: Outcome, ghost seen: int, ghost later: int)
      requires Valid()
      modifies this, bus
      ensures After(o)
      ensures Healthy() ==> o == Done
      ensures state.pending.Some? && !o.Died? ==> state == old(state) && events == old(events)
      ensures o.Done? && state.pending.Some? ==> seen < state.pending.value.deadline
      ensures old(state).pending.Some? && seen < old(state).pending.value.deadline ==> state == old(state)
      ensures manualUntil in {old(manualUntil), None}
      ensures o.Done? && manualUntil.Some? ==> later < manualUntil.value
      ensures old(manualUntil).Some? && later < old(manualUntil).value && state == old(state) && o.Done? ==>
                manualUntil == old(manualUntil)
      ensures old(state).pending.None? ==> state == old(state) && disk == old(disk) && events == old(events)
      ensures old(state).pending.None? ==> o != Died && !torn
      ensures o.Done? ==> !torn
      ensures events == old(events)
              || (old(state).pending.Some? && events == old(events) + [Reverted(old(state).pending.value.before)])
      ensures !o.Died? && events != old(events) ==>
                state.pending.None? && state.configuration == old(state).pending.value.before
      decreases Rank(), 1
    {
      seen, later := 0, 0;
      o := Done;
      if state.Awaiting() {
        var now := Clock();
        seen := now;
        if now >= state.pending.value.deadline {
          :- Rollback(state.pending.value.job);
        }
      }
      if manualUntil.Some? {
        var now := Clock();
        later := now;
        if now >= manualUntil.value {
          var ok := WriteFan(state.configuration.fan);
          if !ok {
            return Raised, seen, later;
          }
          manualUntil := None;
        }
      }
      o := Done;
    }

    method Snapshot() returns (o: Outcome, shown: State, ghost seen: int)
      requires Valid()
      modifies this, bus
      ensures After(o) && (o.Done? ==> shown == state)
      ensures Healthy() ==> o == Done
      ensures o.Done? && state.pending.Some? ==> seen < state.pending.value.deadline
      ensures old(state).pending.Some? && seen < old(state).pending.value.deadline ==> state == old(state)
      ensures manualUntil in {old(manualUntil), None}
      ensures state.pending.Some? && !o.Died? ==> state == old(state) && events == old(events)
      ensures old(state).pending.None? ==> state == old(state) && disk == old(disk) && events == old(events)
      ensures old(state).pending.None? ==> o != Died && !torn
      ensures o.Done? ==> !torn
      ensures events == old(events)
              || (old(state).pending.Some? && events == old(events) + [Reverted(old(state).pending.value.before)])
      decreases Rank(), 2
    {
      shown := state;
      ghost var later;
      o, seen, later := Tick();
      shown := state;
    }

    /** Back to the before-image; if the hardware will not, the commit stays open. */
    method Rollback(job: int) returns (o: Outcome)
      requires Valid()
      modifies this, bus
      ensures After(o)
      ensures old(state).pending.None? || old(state).pending.value.job != job ==>
                o == Raised && !torn && state == old(state) && disk == old(disk) && events == old(events)
      ensures events == old(events)
              || (old(state).pending.Some? && events == old(events) + [Reverted(old(state).pending.value.before)])
      ensures !o.Died? && events != old(events) ==>
                && state.pending.None? && state.configuration == old(state).pending.value.before
                && state.revision == old(state).revision + 1
                && state.last == Some(Last(job, old(state).revision, false))
      ensures !o.Died? && !torn && events == old(events) ==> o == Raised && state == old(state)
      ensures o == Done ==> events != old(events) && !torn
      ensures torn ==> state.pending.None? && state.configuration == old(state).pending.value.before
      ensures Healthy() && old(state).pending.Some? && old(state).pending.value.job == job ==> o == Done
      ensures manualUntil in {old(manualUntil), None}
      decreases Rank(), 0
    {
      if state.pending.None? || state.pending.value.job != job {
        return Raised;
      }
      var target := state.pending.value.before;
      var end := ApplyHardware(state.configuration, target);
      if end != Applied {
        return Raised;
      }
      state := State(state.revision + 1, target, None, Some(Last(job, state.revision, false)));
      EndSave(disk, state, saved, events, Reverted(target));
      :- Persist([Reverted(target)]);
      var shown: State;
      ghost var seen;
      o, shown, seen := Snapshot();
    }

    /**
     * A timed commit.  It is refused while another is open or when the caller
     * looked at a different revision; it is on trial only once applied, for
     * `timeout` from the clock `reading` taken then.
     */
    method Apply(target: Config, expectedRevision: int, job: int, timeout: int)
      returns (o: Outcome, ghost at: nat, ghost reading: int, ghost closing: int)
      requires Valid() && target.Valid()
      modifies this, bus
      ensures After(o)
      ensures o == Done ==>
                && |old(events)| <= at < |events|
                && events[at].Began?
                && events[at] == Began(job, expectedRevision + 1, events[at].before, target, reading + timeout)
                && state.configuration == (if state.pending.Some? then target else events[at].before)
                && (state.pending.Some? <==> closing < reading + timeout)
      ensures old(state).pending.None? && o == Done ==>
                && old(state).revision == expectedRevision
                && at == |old(events)| && events[at].before == old(state).configuration
      ensures Healthy() && old(state).pending.None? && old(state).revision == expectedRevision ==> o == Done
      ensures o == Raised && !torn && events == old(events) ==> state.configuration == old(state).configuration
    {
      at, reading, closing := 0, 0, 0;
      ghost var seen, later;
      o, seen, later := Tick();
      if o != Done {
        return;
      }
      if state.pending.Some? || expectedRevision != state.revision {
        return Raised, at, reading, closing;
      }
      ghost var started;
      o, at, started, reading := Transact(target, job, timeout);
      if o == Done {
        var shown: State;
        o, shown, closing := Snapshot();
      }
    }

    /** Write the intent down before the hardware is touched. */
    method Announce(job: int, timeout: int) returns (o: Outcome, ghost started: int)
      requires Valid() && state.pending.None?
      modifies `state, `disk, `saved, `savedAfter, `events, `torn, `readings
      ensures DiskIsSound() && (torn <==> o == Raised) && (Healthy() ==> o == Done)
      ensures events == old(events)
      ensures state == Intent(old(state), job, started + timeout)
      ensures o == Done ==>
                && disk == state && saved == old(saved) + [state] && savedAfter == old(savedAfter) + [|steps|]
                && readings == old(readings) + [Reading(started, |steps|)]
    {
      var now := Clock();
      started := now;
      state := state.(pending := Some(Pending(job, state.configuration, false, now + timeout)));
      PlainSave(disk, state, saved, events);
      assert events + [] == events;
      o := Persist([]);
    }

    /** The commit could not be applied. */
    method Withdraw() returns (o: Outcome)
      requires DiskIsSound() && disk == state && !torn && state.pending.Some? && !state.Awaiting()
      modifies `state, `disk, `saved, `savedAfter, `events, `torn
      ensures DiskIsSound() && (torn <==> o == Raised)
      ensures events == old(events) && state == old(state).(pending := None)
      ensures o == Done ==> disk == state
    {
      state := state.(pending := None);
      PlainSave(disk, state, saved, events);
      assert events + [] == events;
      o := Persist([]);
    }

    /** The commit is applied: from now on it is on trial. */
    method OpenTrial(target: Config, job: int, timeout: int) returns (o: Outcome, ghost reading: int)
      requires DiskIsSound() && disk == state && !torn && target.Valid()
      requires state.pending.Some? && !state.Awaiting()
      modifies `state, `disk, `saved, `savedAfter, `events, `torn, `readings
      ensures DiskIsSound() && (torn <==> o == Raised) && (Healthy() ==> o == Done)
      ensures state == State(old(state).revision + 1, target,
                             Some(Pending(job, old(state).configuration, true, reading + timeout)), old(state).last)
      ensures o == Done ==>
                && disk == state && saved == old(saved) + [state] && savedAfter == old(savedAfter) + [|steps|]
                && readings == old(readings) + [Reading(reading, |steps|)] && events == old(events) + [Opening(state)]
    {
      var before := state.configuration;
      var now := Clock();
      reading := now;
      state := State(state.revision + 1, target, Some(Pending(job, before, true, now + timeout)), state.last);
      BeginSave(disk, state, saved, events);
      o := Persist([Opening(state)]);
    }

    /**
     * The commit itself, between its two clock readings: the before-image is on
     * disk before the hardware is touched, and the deadline counts from when
     * the hardware has been.
     */
    method Transact(target: Config, job: int, timeout: int)
      returns (o: Outcome, ghost at: nat, ghost started: int, ghost reading: int)
      requires Valid() && target.Valid() && state.pending.None?
      modifies this, bus
      ensures After(o)
      ensures Healthy() ==> o == Done
      ensures o == Done ==>
                && at == |old(events)| && |events| == at + 1 && old(events) <= events
                && state == State(old(state).revision + 1, target,
                                  Some(Pending(job, old(state).configuration, true, reading + timeout)),
                                  old(state).last)
                && events[at] == Opening(state)
                && saved == old(saved) + [Intent(old(state), job, started + timeout), state]
                && savedAfter == old(savedAfter) + [|old(steps)|, |steps|]
                && steps != [] && steps[|steps| - 1] == Readback
                && readings == old(readings) + [Reading(started, |old(steps)|), Reading(reading, |steps|)]
      ensures o == Raised && !torn ==> events == old(events) && state == old(state)
      ensures torn ==> o != Done
    {
      hide Durable;
      at, reading := |events|, 0;
      var before := state.configuration;
      o, started := Announce(job, timeout);
      if o != Done {
        return;
      }
      var end := ApplyHardware(before, target);
      if end != Applied {
        :- Withdraw();
        return Raised, at, started, reading;
      }
      o, reading := OpenTrial(target, job, timeout);
    }

    /** Only the open commit, and only before its deadline, by the clock that is `seen`. */
    method Confirm(job: int) returns (o: Outcome, ghost seen: int)
      requires Valid()
      modifies this, bus
      ensures After(o)
      ensures o == Done ==>
                && old(state).Awaiting() && old(state).pending.value.job == job
                && seen < old(state).pending.value.deadline
                && state == Confirming(old(state), job)
                && events == old(events) + [Confirmed(seen)]
      ensures (Healthy() && old(state).Awaiting() && old(state).pending.value.job == job
               && seen < old(state).pending.value.deadline) ==> o == Done
    {
      ghost var later;
      o, seen, later := Tick();
      if o != Done {
        return;
      }
      if state.pending.None? || state.pending.value.job != job {
        return Raised, seen;
      }
      state := Confirming(state, job);
      EndSave(disk, state, saved, events, Confirmed(seen));
      :- Persist([Confirmed(seen)]);
      var shown: State;
      ghost var closing;
      o, shown, closing := Snapshot();
    }

    /** A manual duty test never overlaps a commit on trial; it lasts `seconds`
        from the clock `reading`. */
    method Manual(seconds: int, sensorError: bool) returns (o: Outcome, ghost reading: int)
      requires Valid()
      modifies this, bus
      ensures After(o)
      ensures o == Done ==> state.pending.None? && manualUntil == Some(reading + seconds) && !sensorError
      ensures o != Done ==> manualUntil in {old(manualUntil), None}
      ensures Healthy() && old(state).pending.None? && !sensorError ==> o == Done
    {
      reading := 0;
      ghost var seen, later;
      o, seen, later := Tick();
      if o != Done {
        return;
      }
      if state.pending.Some? || sensorError {
        return Raised, reading;
      }
      var now := Clock();
      reading := now;
      manualUntil := Some(now + seconds);
    }
  }

  datatype Call =
    | Restarts
    | Applies(target: Config, expectedRevision: int, job: int, timeout: int)
    | Confirms(job: int)
    | RollsBack(job: int)
    | RunsManually(seconds: int, sensorError: bool)
    | Looks

  /** Any schedule of calls, deaths and restarts: the record is sound throughout. */
  method Live(defaults: Config, calls: seq<Call>, healthy: bool, undisturbed: bool) returns (authority: MockConfigd)
    requires defaults.Valid() && forall call <- calls :: call.Applies? ==> call.target.Valid()
    ensures authority.DiskIsSound()
    ensures RunIsSound(authority.saved, authority.events)
  {
    authority := new MockConfigd(defaults, healthy, undisturbed);
    var o := authority.Restart();
    for i := 0 to |calls|
      invariant fresh(authority) && fresh(authority.bus)
      invariant authority.After(o)
    {
      if o == Died || authority.torn {
        o := authority.Restart();
      }
      if o != Died && !authority.torn {
        o := Perform(authority, calls[i]);
      }
    }
    assert authority.DiskIsSound();
    RunsAreSound(authority.disk, authority.saved, authority.events);
  }

  method Perform(authority: MockConfigd, call: Call) returns (o: Outcome)
    requires authority.Valid() && (call.Applies? ==> call.target.Valid())
    modifies authority, authority.bus
    ensures authority.After(o)
  {
    ghost var at, reading, seen;
    var shown: State;
    match call {
      case Restarts => o := authority.Restart();
      case Applies(target, expected, job, timeout) => o, at, reading, seen := authority.Apply(target, expected, job, timeout);
      case Confirms(job) => o, seen := authority.Confirm(job);
      case RollsBack(job) => o := authority.Rollback(job);
      case RunsManually(seconds, sensorError) => o, reading := authority.Manual(seconds, sensorError);
      case Looks => o, shown, seen := authority.Snapshot();
    }
  }

  /** What a sound record answers for, over its whole history. */
  ghost predicate RunIsSound(saved: seq<State>, events: seq<Event>) {
    && (forall i: nat, k: nat :: i <= k < |saved| && saved[i].revision == saved[k].revision ==>
          saved[i].configuration == saved[k].configuration)
    && 2 * CountBegan(events) == |events| + |events| % 2
  }

  lemma RunsAreSound(disk: State, saved: seq<State>, events: seq<Event>)
    requires Durable(disk, saved, events)
    ensures RunIsSound(saved, events)
  {
    forall i: nat, k: nat | i <= k < |saved| && saved[i].revision == saved[k].revision
      ensures saved[i].configuration == saved[k].configuration
    {
      RevisionNamesConfiguration(saved, i, k);
    }
    EachCommitEndsOnce(events);
  }
}
