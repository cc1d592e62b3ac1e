/** Layer 4 of the tick in closed form: what one uninterrupted recovery tick makes of a crash. */
module CutoverRecovery {
  import opened Common
  import opened CutoverMachine
  import opened CutoverMarker
  import opened CutoverSafety

  function Disarmed(row: Row): Row {
    row.(marker := None)
  }

  /** The failed-generation settle: back to the previous image, or terminal if blue is gone. */
  function SettledRow(row: Row, present: bool): Row {
    if present then RevertedRow(row, row) else row.(status := Failed)
  }

  function StopAll(boxes: map<ContainerId, Box>, victims: seq<ContainerId>): map<ContainerId, Box> {
    if victims == [] then boxes else StopAll(Stop(boxes, victims[0]), victims[1..])
  }

  predicate Promoted(row: Row) {
    row.marker.Some? && row.container.Some? && row.container.value != row.marker.value.blue
  }

  /** The state after the crash settle, as one assignment. */
  function CrashSettled(s: Sys, victims: seq<ContainerId>, present: bool): Sys
    requires s.Matching()
  {
    if Promoted(s.row) then
      s.(audited := s.audited + {s.row.container.value},
         announced := s.announced + {s.row.container.value},
         row := Disarmed(s.row))
    else
      s.(active := s.row.marker.value.bluePort,
         boxes := StopAll(s.boxes, victims),
         row := Disarmed(SettledRow(s.row, present)))
  }

  // --- the closed form is a run of the machine ---------------------------------------------

  const ReplayPlan: seq<Action> :=
    [Settle(TickSettle), Commit(Audit), Commit(Announce), Commit(StampHealthy), Commit(PopRead), Commit(PopWrite)]

  function ReapPlan(victims: seq<ContainerId>): seq<Action> {
    if victims == [] then [Settle(ReapDone)] else [Settle(ReapOne(victims[0]))] + ReapPlan(victims[1..])
  }

  function SettlePlan(present: bool): seq<Action> {
    [Settle(SettleRead(present)), Settle(if present then Revert else Fail), Commit(PopRead), Commit(PopWrite)]
  }

  function RevertPlan(victims: seq<ContainerId>, present: bool): seq<Action> {
    [Settle(TickSettle), Settle(RestorePointer)] + (ReapPlan(victims) + SettlePlan(present))
  }

  function RecoveryPlan(row: Row, victims: seq<ContainerId>, present: bool): seq<Action> {
    if Promoted(row) then ReplayPlan else RevertPlan(victims, present)
  }

  /** What the reap lists: running labelled containers other than the row's own, each once. */
  predicate Reapable(s: Sys, victims: seq<ContainerId>) {
    && (forall i, j :: 0 <= i < j < |victims| ==> victims[i] != victims[j])
    && (forall v <- victims :: s.IsRunning(v) && s.boxes[v].labelled && s.row.container != Some(v))
  }

  lemma ReplayRuns(s: Sys)
    requires s.pc.Idle? && s.owner.Nobody? && s.green.None? && s.Matching() && Promoted(s.row)
    ensures RunsTo(s, ReplayPlan, CrashSettled(s, [], true))
  {
    var g := s.row.container.value;
    var v := s.row.version;
    var u1 := s.(owner := Tick, pc := Auditing(v, g, Finish));
    var u2 := u1.(audited := u1.audited + {g}, pc := Announcing(v, g, Finish));
    var u3 := u2.(announced := u2.announced + {g}, pc := Stamping(v, g, Finish));
    var u4 := u3.(pc := Popping(v, Finish));
    var u5 := u4.(pc := PopWriting(v, Finish));
    var t := CrashSettled(s, [], true);
    RunsOneMore(u5, ReplayPlan[5], t, [], t);
    RunsOneMore(u4, ReplayPlan[4], u5, ReplayPlan[5..], t);
    RunsOneMore(u3, ReplayPlan[3], u4, ReplayPlan[4..], t);
    RunsOneMore(u2, ReplayPlan[2], u3, ReplayPlan[3..], t);
    RunsOneMore(u1, ReplayPlan[1], u2, ReplayPlan[2..], t);
    RunsOneMore(s, ReplayPlan[0], u1, ReplayPlan[1..], t);
  }

  lemma {:induction false} ReapRuns(s: Sys, victims: seq<ContainerId>)
    requires s.pc.Reaping? && Reapable(s, victims)
    ensures RunsTo(s, ReapPlan(victims), s.(boxes := StopAll(s.boxes, victims), pc := Settling(s.pc.v)))
    decreases |victims|
  {
    var t := s.(boxes := StopAll(s.boxes, victims), pc := Settling(s.pc.v));
    if victims == [] {
      RunsOneMore(s, Settle(ReapDone), t, [], t);
    } else {
      var u := s.(boxes := Stop(s.boxes, victims[0]));
      ReapRuns(u, victims[1..]);
      RunsOneMore(s, Settle(ReapOne(victims[0])), u, ReapPlan(victims[1..]), t);
    }
  }

  lemma {:induction false} StopAllSpares(boxes: map<ContainerId, Box>, victims: seq<ContainerId>, c: ContainerId)
    requires c !in victims && c in boxes
    ensures c in StopAll(boxes, victims) && StopAll(boxes, victims)[c] == boxes[c]
    decreases |victims|
  {
    if victims != [] {
      StopAllSpares(Stop(boxes, victims[0]), victims[1..], c);
    }
  }

  lemma {:induction false} StopAllStops(boxes: map<ContainerId, Box>, victims: seq<ContainerId>, c: ContainerId)
    requires c in victims && c in boxes
    ensures c in StopAll(boxes, victims)
    ensures !StopAll(boxes, victims)[c].running && StopAll(boxes, victims)[c].port == boxes[c].port
    decreases |victims|
  {
    var next := Stop(boxes, victims[0]);
    if c in victims[1..] {
      StopAllStops(next, victims[1..], c);
    } else {
      StopAllSpares(next, victims[1..], c);
    }
  }

  /** From the settle's first read to the marker pop, nobody in between. */
  lemma SettleRuns(s: Sys, present: bool)
    requires s.pc.Settling? && s.green.None? && s.Matching() && s.row.version == s.pc.v
    requires !present ==> s.row.container.None? || !s.IsRunning(s.row.container.value)
    ensures RunsTo(s, SettlePlan(present), Release(s.(row := Disarmed(SettledRow(s.row, present)))))
  {
    var plan := SettlePlan(present);
    var v := s.pc.v;
    var settled := SettledRow(s.row, present);
    var u1 := s.(pc := if present then Reverting(v, s.row) else Failing(v));
    var u2 := s.(row := settled, pc := Popping(v, Finish));
    var u3 := u2.(pc := PopWriting(settled.version, Finish));
    var t := Release(s.(row := Disarmed(settled)));
    RunsOneMore(u3, plan[3], t, [], t);
    RunsOneMore(u2, plan[2], u3, plan[3..], t);
    RunsOneMore(u1, plan[1], u2, plan[2..], t);
    RunsOneMore(s, plan[0], u1, plan[1..], t);
  }

  lemma RevertRuns(s: Sys, victims: seq<ContainerId>, present: bool)
    requires s.pc.Idle? && s.owner.Nobody? && s.green.None? && s.Matching() && !Promoted(s.row)
    requires Reapable(s, victims)
    requires !present ==> s.row.container.None? || !s.IsRunning(s.row.container.value)
    ensures RunsTo(s, RevertPlan(victims, present), CrashSettled(s, victims, present))
  {
    var m := s.row.marker.value;
    var u1 := s.(owner := Tick, pc := Restoring(m.version, m.bluePort));
    var u2 := u1.(active := m.bluePort, pc := Reaping(m.version));
    var u3 := u2.(boxes := StopAll(u2.boxes, victims), pc := Settling(m.version));
    var t := CrashSettled(s, victims, present);
    ReapRuns(u2, victims);
    if s.row.container.Some? && s.row.container.value in s.boxes {
      StopAllSpares(s.boxes, victims, s.row.container.value);
    } else if s.row.container.Some? {
      StopAllDomain(s.boxes, victims);
    }
    SettleRuns(u3, present);
    RunsJoin(u2, ReapPlan(victims), u3, SettlePlan(present), t);
    var rest := ReapPlan(victims) + SettlePlan(present);
    RunsOneMore(u1, Settle(RestorePointer), u2, rest, t);
    RunsOneMore(s, Settle(TickSettle), u1, [Settle(RestorePointer)] + rest, t);
    assert [Settle(TickSettle)] + ([Settle(RestorePointer)] + rest) == RevertPlan(victims, present);
  }

  lemma {:induction false} StopAllDomain(boxes: map<ContainerId, Box>, victims: seq<ContainerId>)
    ensures StopAll(boxes, victims).Keys == boxes.Keys
    decreases |victims|
  {
    if victims != [] {
      StopAllDomain(Stop(boxes, victims[0]), victims[1..]);
    }
  }

  /**
   * After a crash at any await of any run, one undisturbed tick leaves no marker, and f3 alone
   * decides: a promoted generation keeps its container and pointer and has its records; any other
   * ends with blue named and the pointer its marker held, its green reaped and its image reverted. If
   * redeploys and rollbacks left no pointer behind, the container named is the one dialled.
   */
  lemma OneTickRecovers(s: Sys, victims: seq<ContainerId>, present: bool)
    requires MarkerInv(s) && s.pc.Idle? && s.green.None? && s.Matching() && Reapable(s, victims)
    requires !present ==> s.row.container.None? || !s.IsRunning(s.row.container.value)
    ensures var t := CrashSettled(s, victims, present);
      && RunsTo(s, RecoveryPlan(s.row, victims, present), t)
      && t.row.marker.None? && t.pc.Idle? && t.row.container == s.row.container
      && (PortInv(s) ==> t.PointerCorrect())
      && (s.committed ==>
            t.row.version == s.row.version && t.active == s.active && t.boxes == s.boxes
            && t.row.container.value in t.audited && t.row.container.value in t.announced)
      && (!s.committed ==>
            var blue := s.row.marker.value.blue;
            && t.row.container == Some(blue) && blue in t.boxes && t.boxes[blue] == s.boxes[blue]
            && t.active == s.row.marker.value.bluePort && (PortInv(s) ==> t.Effective() == t.boxes[blue].port)
            && (forall g <- victims :: g in t.boxes && !t.boxes[g].running)
            && (present && s.row.previous.Some? ==> t.row.version == s.row.previous.value && t.row.status.Running?)
            && (!present ==> t.row.version == s.row.version && t.row.status.Failed?))
  {
    if Promoted(s.row) {
      ReplayRuns(s);
    } else {
      RevertRuns(s, victims, present);
      StopAllSpares(s.boxes, victims, s.row.marker.value.blue);
      forall g | g in victims
        ensures g in StopAll(s.boxes, victims) && !StopAll(s.boxes, victims)[g].running
      {
        StopAllStops(s.boxes, victims, g);
      }
    }
  }

  /** The same from the crash itself: any await of any run, with or without an orphan green. */
  lemma EveryCrashPointRecovers(
    s: Sys, orphan: Option<ContainerId>, victims: seq<ContainerId>, present: bool)
    requires MarkerInv(s) && OrphanAllowed(s, orphan)
    ensures var c := Next(s, Outside(Crash(orphan)));
      if !c.Matching() then PortInv(s) ==> c.PointerCorrect()
      else Reapable(c, victims)
           && (!present ==> c.row.container.None? || !c.IsRunning(c.row.container.value)) ==>
             var t := CrashSettled(c, victims, present);
             && RunsTo(s, [Outside(Crash(orphan))] + RecoveryPlan(c.row, victims, present), t)
             && t.row.marker.None? && (PortInv(s) ==> t.PointerCorrect()) && t.row.container == s.row.container
             && (s.committed ==> t.row.container.Some? && t.row.container.value in t.announced)
             && (!s.committed ==> t.row.container == Some(s.row.marker.value.blue))
  {
    var c := Next(s, Outside(Crash(orphan)));
    StepKeepsMarker(s, Outside(Crash(orphan)));
    if PortInv(s) {
      StepKeeps(s, Outside(Crash(orphan)));
    }
    if c.Matching() && Reapable(c, victims)
       && (!present ==> c.row.container.None? || !c.IsRunning(c.row.container.value)) {
      OneTickRecovers(c, victims, present);
      RunsOneMore(s, Outside(Crash(orphan)), c, RecoveryPlan(c.row, victims, present),
                  CrashSettled(c, victims, present));
    }
  }

  // --- the cancel in closed form -----------------------------------------------------------

  /** The registered green already is the row's own container: the cutover has committed. */
  predicate GreenServes(row: Row, green: Option<ContainerId>) {
    green.Some? && green == row.container
  }

  function Cancelled(s: Sys, green: Option<ContainerId>): Sys {
    if GreenServes(s.row, green) then
      if s.Matching() && Promoted(s.row) then
        s.(audited := s.audited + {green.value}, announced := s.announced + {green.value}, row := Disarmed(s.row))
      else s
    else
      s.(boxes := if green.Some? then Stop(s.boxes, green.value) else s.boxes,
         active := if s.row.marker.Some? then s.row.marker.value.bluePort else s.active,
         row := Disarmed(s.row))
  }

  function CancelPlan(row: Row, green: Option<ContainerId>): seq<Action> {
    if GreenServes(row, green) then
      if Promoted(row) && row.marker.value.version == row.version
      then [Cancel(CancelRead)] + ReplayPlan[1..] else [Cancel(CancelRead)]
    else
      (if green.Some? then [Cancel(CancelRead), Cancel(CancelDrop)] else [Cancel(CancelRead)])
      + (if row.marker.Some? then [Cancel(CancelPoint), Commit(PopRead), Commit(PopWrite)] else [Cancel(CancelPoint)])
  }

  lemma ReplayTailRuns(s: Sys, v: Version, g: ContainerId)
    requires s.pc == Auditing(v, g, Finish) && s.row.marker.Some? && s.row.marker.value.version == v
    ensures RunsTo(s, ReplayPlan[1..],
                   Release(s.(audited := s.audited + {g}, announced := s.announced + {g}, row := Disarmed(s.row))))
  {
    var u2 := s.(audited := s.audited + {g}, pc := Announcing(v, g, Finish));
    var u3 := u2.(announced := u2.announced + {g}, pc := Stamping(v, g, Finish));
    var u4 := u3.(pc := Popping(v, Finish));
    var u5 := u4.(pc := PopWriting(s.row.version, Finish));
    var t := Release(u3.(row := Disarmed(s.row)));
    RunsOneMore(u5, ReplayPlan[5], t, [], t);
    RunsOneMore(u4, ReplayPlan[4], u5, ReplayPlan[5..], t);
    RunsOneMore(u3, ReplayPlan[3], u4, ReplayPlan[4..], t);
    RunsOneMore(u2, ReplayPlan[2], u3, ReplayPlan[3..], t);
    RunsOneMore(s, ReplayPlan[1], u2, ReplayPlan[2..], t);
  }

  lemma CancelPointRuns(s: Sys)
    requires s.pc == CancelPointing(s.row.marker)
    ensures RunsTo(s,
      if s.row.marker.Some? then [Cancel(CancelPoint), Commit(PopRead), Commit(PopWrite)] else [Cancel(CancelPoint)],
      Release(s.(active := if s.row.marker.Some? then s.row.marker.value.bluePort else s.active,
                 row := Disarmed(s.row))))
  {
    var t := Release(s.(active := if s.row.marker.Some? then s.row.marker.value.bluePort else s.active,
                        row := Disarmed(s.row)));
    if s.row.marker.Some? {
      var m := s.row.marker.value;
      var u1 := s.(active := m.bluePort, pc := Popping(m.version, Finish));
      var u2 := u1.(pc := PopWriting(s.row.version, Finish));
      RunsOneMore(u2, Commit(PopWrite), t, [], t);
      RunsOneMore(u1, Commit(PopRead), u2, [Commit(PopWrite)], t);
      RunsOneMore(s, Cancel(CancelPoint), u1, [Commit(PopRead)] + [Commit(PopWrite)], t);
    } else {
      assert s.row == Disarmed(s.row);
      RunsOneMore(s, Cancel(CancelPoint), t, [], t);
    }
  }

  lemma CancelRuns(s: Sys, green: Option<ContainerId>)
    requires s.pc == CancelReading(green) && s.owner.Canceller?
    ensures RunsTo(s, CancelPlan(s.row, green), Release(Cancelled(s, green)))
  {
    var t := Release(Cancelled(s, green));
    if GreenServes(s.row, green) {
      if s.Matching() && Promoted(s.row) {
        var u := s.(pc := Auditing(s.row.version, green.value, Finish));
        ReplayTailRuns(u, s.row.version, green.value);
        RunsOneMore(s, Cancel(CancelRead), u, ReplayPlan[1..], t);
      } else {
        RunsOneMore(s, Cancel(CancelRead), t, [], t);
      }
    } else {
      var last := if s.row.marker.Some? then [Cancel(CancelPoint), Commit(PopRead), Commit(PopWrite)] else [Cancel(CancelPoint)];
      if green.Some? {
        var u1 := s.(pc := CancelDropping(green.value, s.row.marker));
        var u2 := s.(boxes := Stop(s.boxes, green.value), pc := CancelPointing(s.row.marker));
        CancelPointRuns(u2);
        RunsOneMore(u1, Cancel(CancelDrop), u2, last, t);
        RunsOneMore(s, Cancel(CancelRead), u1, [Cancel(CancelDrop)] + last, t);
        assert [Cancel(CancelRead)] + ([Cancel(CancelDrop)] + last) == CancelPlan(s.row, green);
      } else {
        var u := s.(pc := CancelPointing(s.row.marker));
        CancelPointRuns(u);
        RunsOneMore(s, Cancel(CancelRead), u, last, t);
      }
    }
  }

  /**
   * A cancel at any await of the verify task, then left alone: the serving container, the
   * version and the status are as they were, no marker is left, the proxy is pointed at the
   * serving container, and an unpromoted green is down.
   */
  lemma CancelLeavesTheServiceServing(s: Sys, orphan: Option<ContainerId>)
    requires MarkerInv(s) && Enabled(s, Cancel(CancelTask(orphan)))
    ensures var c := Next(s, Cancel(CancelTask(orphan))); var t := Release(Cancelled(c, s.green));
      && RunsTo(s, [Cancel(CancelTask(orphan))] + CancelPlan(c.row, s.green), t)
      && t.row == s.row.(marker := t.row.marker) && !t.Matching() && (PortInv(s) ==> t.PointerCorrect())
      && (s.row.container.Some? && s.IsRunning(s.row.container.value) ==> t.IsRunning(s.row.container.value))
      && (s.green.Some? && s.green != s.row.container ==> !t.IsRunning(s.green.value))
      && (s.committed && s.Matching() ==> s.row.container.value in t.audited && s.row.container.value in t.announced)
  {
    var a := Cancel(CancelTask(orphan));
    var c := Next(s, a);
    StepKeepsMarker(s, a);
    if PortInv(s) {
      StepKeeps(s, a);
    }
    CancelRuns(c, s.green);
    RunsOneMore(s, a, c, CancelPlan(c.row, s.green), Release(Cancelled(c, s.green)));
  }
}
