/**
 * The part of a switch configuration that reaches the optical lanes, and what
 * a change of it touches.
 */
module SwitchConfig {
  import opened GroupApply
  import opened FanCurves

  datatype PortMode = Aggregate100 | Aggregate40 | Split

  datatype PortGroup = PortGroup(mode: PortMode, laneSpeeds: seq<int>)

  /** `rest` stands for all the settings that only the SDK sees. */
  datatype Config = Config(groups: map<int, PortGroup>, enabled: set<int>, fan: Curve, rest: int) {
    predicate Valid() {
      && groups.Keys == {0, 1, 2, 5, 6, 7}
      && forall port <- enabled :: 1 <= port <= 24
    }
  }

  /** Twenty-four ports in six groups. */
  lemma PortsAre(c: Config)
    requires c.groups.Keys == {0, 1, 2, 5, 6, 7}
    ensures c.(enabled := {1, 24}).Valid() && !c.(enabled := {0}).Valid() && !c.(enabled := {25}).Valid()
    ensures Base(0) == 1 && Base(1) == 5 && Base(2) == 9 && Base(5) == 13 && Base(6) == 17 && Base(7) == 21
  {
    assert 0 in c.(enabled := {0}).enabled && 25 in c.(enabled := {25}).enabled;
  }

  const EPLS: seq<int> := [0, 1, 2, 5, 6, 7]

  lemma EplsAreAll(epl: int)
    ensures epl in EPLS <==> IsEpl(epl)
  {
    if IsEpl(epl) {
      assert epl in {EPLS[0], EPLS[1], EPLS[2], EPLS[3], EPLS[4], EPLS[5]};
    }
  }

  /** The first logical port of a group. */
  function Base(epl: int): int {
    GroupIndex(epl) * 4 + 1
  }

  /** Is the k-th lane of the group to shine? */
  predicate LaneEnabled(c: Config, epl: int, k: int)
    requires c.Valid() && IsEpl(epl)
  {
    (if c.groups[epl].mode == Split then Base(epl) + k else Base(epl)) in c.enabled
  }

  /** The lanes a group should have on, from the configuration alone. */
  function EnabledLanes(c: Config, epl: int): (lanes: set<int>)
    requires c.Valid() && IsEpl(epl)
    ensures lanes <= Lanes(epl)
  {
    set lane | lane in Lanes(epl) && LaneEnabled(c, epl, lane - FirstLane(epl))
  }

  /** The group a configuration stands for, as the native transaction takes it. */
  function Native(c: Config, epl: int): Group
    requires c.Valid() && IsEpl(epl)
  {
    Group(epl, if c.groups[epl].mode == Split then 0 else 1, [0, 0, 0, 0],
          set k | 0 <= k < 4 && LaneEnabled(c, epl, k))
  }

  /** Both programs light the same lanes for it. */
  lemma ProgramsAgree(c: Config, epl: int)
    requires c.Valid() && IsEpl(epl)
    ensures ValidGroup(Native(c, epl)) && TxMask(Native(c, epl)) == EnabledLanes(c, epl)
  {
    var g := Native(c, epl);
    if c.groups[epl].mode != Split && Base(epl) in c.enabled {
      assert LaneEnabled(c, epl, 0) && 0 in g.enabled;
    }
    forall lane <- Lanes(epl)
      ensures lane in TxMask(g) <==> lane in EnabledLanes(c, epl)
    {
      assert 0 <= lane - FirstLane(epl) < 4;
    }
  }

  function ActivePorts(c: Config, epl: int): seq<int>
    requires c.Valid() && IsEpl(epl)
  {
    if c.groups[epl].mode == Split
    then [Base(epl), Base(epl) + 1, Base(epl) + 2, Base(epl) + 3]
    else [Base(epl)]
  }

  /** group_enabled_mask: gathered port by port. */
  method GroupEnabledMask(c: Config, epl: int) returns (value: set<int>)
    requires c.Valid() && IsEpl(epl)
    ensures value == EnabledLanes(c, epl)
  {
    hide GroupIndex, FirstLane, Base;
    value := {};
    var split := c.groups[epl].mode == Split;
    var ports := ActivePorts(c, epl);
    for i := 0 to |ports|
      invariant value == Gathered(c, epl, i)
    {
      if ports[i] in c.enabled {
        if split {
          value := value + {FirstLane(epl) + ports[i] - Base(epl)};
        } else {
          value := value + Lanes(epl);
        }
      }
    }
  }

  /** The lanes found among the first n active ports. */
  ghost function Gathered(c: Config, epl: int, n: nat): set<int>
    requires c.Valid() && IsEpl(epl)
  {
    if c.groups[epl].mode == Split
    then set lane | lane in Lanes(epl) && lane < FirstLane(epl) + n && Base(epl) + (lane - FirstLane(epl)) in c.enabled
    else if 0 < n && Base(epl) in c.enabled then Lanes(epl) else {}
  }

  /** Does the change re-mode this group or switch one of its ports? */
  predicate Touched(before: Config, target: Config, epl: int)
    requires before.Valid() && target.Valid() && IsEpl(epl)
  {
    Remoded(before, target, epl) || exists port | Base(epl) <= port < Base(epl) + 4 :: Toggled(before, target, port)
  }

  predicate Remoded(before: Config, target: Config, epl: int)
    requires before.Valid() && target.Valid() && IsEpl(epl)
  {
    before.groups[epl] != target.groups[epl]
  }

  predicate Toggled(before: Config, target: Config, port: int) {
    (port in before.enabled) != (port in target.enabled)
  }

  /** What makes incremental updates right: an untouched group wants the same lanes. */
  lemma UntouchedGroupsAgree(before: Config, target: Config, epl: int)
    requires before.Valid() && target.Valid() && IsEpl(epl)
    requires !Touched(before, target, epl)
    ensures EnabledLanes(before, epl) == EnabledLanes(target, epl)
  {
    forall k | 0 <= k < 4
      ensures LaneEnabled(before, epl, k) == LaneEnabled(target, epl, k)
    {
      assert !Toggled(before, target, Base(epl));
      assert !Toggled(before, target, Base(epl) + k);
    }
    forall lane <- Lanes(epl)
      ensures LaneEnabled(before, epl, lane - FirstLane(epl)) == LaneEnabled(target, epl, lane - FirstLane(epl))
    {
    }
  }

  /** group_for_port. */
  function GroupForPort(port: int): int
    requires 1 <= port <= 24
  {
    EPLS[(port - 1) / 4]
  }

  lemma GroupOwnsPort(port: int, epl: int)
    requires 1 <= port <= 24 && IsEpl(epl)
    ensures GroupForPort(port) == epl <==> Base(epl) <= port < Base(epl) + 4
  {
    assert EPLS[GroupIndex(epl)] == epl;
    if GroupForPort(port) == epl {
      assert (port - 1) / 4 == GroupIndex(epl);
    }
  }

  /** changed_groups together with the groups of switched ports, in order. */
  method Affected(before: Config, target: Config) returns (affected: seq<int>)
    requires before.Valid() && target.Valid()
    ensures forall epl :: epl in affected <==> IsEpl(epl) && Touched(before, target, epl)
    ensures forall i, k :: 0 <= i < k < |affected| ==> affected[i] < affected[k]
  {
    var adminGroups: set<int> := {};
    for port := 1 to 25
      invariant forall epl :: epl in adminGroups <==>
                  exists p | 1 <= p < port :: GroupForPort(p) == epl && Toggled(before, target, p)
    {
      if Toggled(before, target, port) {
        adminGroups := adminGroups + {GroupForPort(port)};
      }
    }
    affected := [];
    for i := 0 to 6
      invariant forall epl :: epl in affected <==>
                  epl in EPLS[..i] && (Remoded(before, target, epl) || epl in adminGroups)
      invariant forall i, k :: 0 <= i < k < |affected| ==> affected[i] < affected[k]
    {
      assert forall k :: 0 <= k < |affected| ==> affected[k] in affected && affected[k] in EPLS[..i];
      if before.groups[EPLS[i]] != target.groups[EPLS[i]] || EPLS[i] in adminGroups {
        affected := affected + [EPLS[i]];
      }
    }
    forall epl
      ensures epl in affected <==> IsEpl(epl) && Touched(before, target, epl)
    {
      EplsAreAll(epl);
      assert EPLS[..6] == EPLS;
      if IsEpl(epl) {
        SwitchedPortsAreAdmin(before, target, epl, adminGroups);
      }
    }
  }

  lemma SwitchedPortsAreAdmin(before: Config, target: Config, epl: int, adminGroups: set<int>)
    requires before.Valid() && target.Valid() && IsEpl(epl)
    requires forall e :: e in adminGroups <==> exists p | 1 <= p < 25 :: GroupForPort(p) == e && Toggled(before, target, p)
    ensures epl in adminGroups <==> exists port | Base(epl) <= port < Base(epl) + 4 :: Toggled(before, target, port)
  {
    if epl in adminGroups {
      var p :| 1 <= p < 25 && GroupForPort(p) == epl && Toggled(before, target, p);
      GroupOwnsPort(p, epl);
    }
    if port :| Base(epl) <= port < Base(epl) + 4 && Toggled(before, target, port) {
      GroupOwnsPort(port, epl);
    }
  }
}
