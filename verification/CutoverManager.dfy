/**
 * The manager's sequential code: the polling loops of the verify task, the marker pop, the
 * commit tail, the failed-generation settle, the orphan reap and the crash settle, as they run
 * when nothing else touches the row. Their combined effect is the closed form that
 * `CutoverRecovery` proves to be a run of the machine.
 */
module CutoverManager {
  import opened Common
  import opened CutoverMachine
  import opened CutoverSafety
  import opened CutoverRecovery

  // --- polling -----------------------------------------------------------------------------

  /** One live read names `port` for every awaited route; an unreadable set is never success. */
  predicate Converged(live: Option<map<RouteId, Port>>, ids: set<RouteId>, port: Port) {
    live.Some? && forall id <- ids :: id in live.value && live.value[id] == port
  }

  /**
   * Reads the live dials back until one snapshot satisfies the whole set or the deadline passes.
   * `snapshots(i)` is the i-th snapshot and `now(i)` the clock after it, in milliseconds; the sleep
   * between two polls is one second.
   */
  method AwaitDials(
    ids: set<RouteId>, port: Port, deadline: int,
    snapshots: nat -> Option<map<RouteId, Port>>, now: nat -> int)
    returns (ok: bool, polls: nat)
    requires forall i: nat :: now(i + 1) >= now(i) + 1000
    ensures ids == {} ==> ok && polls == 0
    ensures ids != {} ==> polls >= 1
    ensures ids != {} ==> (ok <==> Converged(snapshots(polls - 1), ids, port))
    ensures forall i: nat :: i + 1 < polls ==> !Converged(snapshots(i), ids, port) && now(i) < deadline
    ensures !ok ==> polls >= 1 && now(polls - 1) >= deadline
  {
    if ids == {} {
      return true, 0;
    }
    polls := 0;
    while true
      invariant forall i: nat :: i < polls ==> !Converged(snapshots(i), ids, port) && now(i) < deadline
      decreases if polls == 0 then 1 else 0, deadline - (if polls == 0 then 0 else now(polls - 1))
    {
      var live := snapshots(polls);
      polls := polls + 1;
      if Converged(live, ids, port) {
        return true, polls;
      }
      if now(polls - 1) >= deadline {
        return false, polls;
      }
    }
  }

  /** A declared health check: only its warm-up period matters to the budget. */
  datatype HealthCheck = HealthCheck(startPeriod: int)

  function Max(a: int, b: int): int {
    if a >= b then a else b
  }

  /** How long green may take: a warm-up widens it, and so does a grace above the budget. */
  function VerifyBudget(check: Option<HealthCheck>, verifyTimeout: int, grace: int): int {
    match check
    case Some(hc) =>
      if hc.startPeriod > 0 then Max(verifyTimeout, hc.startPeriod + grace) else verifyTimeout
    case None => Max(verifyTimeout, grace + 1000)
  }

  /** The i-th observation of green: alive, probe status, and the two clock reads around them. */
  datatype Glance = Glance(live: bool, code: Option<int>, graceClock: int, deadlineClock: int)

  predicate Passes(check: Option<HealthCheck>, g: Glance, started: int, grace: int) {
    g.live
    && match check
       case Some(_) => g.code.Some? && 200 <= g.code.value < 300
       case None => g.graceClock - started >= grace
  }

  /**
   * Probes green until it passes, exits, or outlives its budget. The verdict is the first
   * decisive glance; nothing before it was decisive.
   */
  method ProbeGreen(
    check: Option<HealthCheck>, verifyTimeout: int, grace: int, started: int, glances: nat -> Glance)
    returns (ok: bool, polls: nat)
    requires forall i: nat :: glances(i + 1).deadlineClock >= glances(i).deadlineClock + 1000
    ensures polls >= 1
    ensures ok <==> Passes(check, glances(polls - 1), started, grace)
    ensures !ok && glances(polls - 1).live ==>
      glances(polls - 1).deadlineClock >= started + VerifyBudget(check, verifyTimeout, grace)
    ensures forall i: nat :: i + 1 < polls ==>
      glances(i).live && !Passes(check, glances(i), started, grace)
      && glances(i).deadlineClock < started + VerifyBudget(check, verifyTimeout, grace)
  {
    var deadline := started + VerifyBudget(check, verifyTimeout, grace);
    polls := 0;
    while true
      invariant forall i: nat :: i < polls ==>
        glances(i).live && !Passes(check, glances(i), started, grace) && glances(i).deadlineClock < deadline
      decreases if polls == 0 then 1 else 0, deadline - (if polls == 0 then 0 else glances(polls - 1).deadlineClock)
    {
      var g := glances(polls);
      polls := polls + 1;
      if !g.live {
        return false, polls;
      }
      match check {
        case Some(_) =>
          if g.code.Some? && 200 <= g.code.value < 300 {
            return true, polls;
          }
        case None =>
          if g.graceClock - started >= grace {
            return true, polls;
          }
      }
      if g.deadlineClock >= deadline {
        return false, polls;
      }
    }
  }

  /**
   * Why the budget is widened: without a health spec, a green that stays up can only time out if
   * a whole second passes between the two clock reads of one poll.
   */
  lemma GraceNeverTimesOutALiveGreen(g: Glance, started: int, verifyTimeout: int, grace: int)
    requires g.live && g.deadlineClock < g.graceClock + 1000
    requires g.deadlineClock >= started + VerifyBudget(None, verifyTimeout, grace)
    ensures Passes(None, g, started, grace)
  {
  }

  // --- the crash settle --------------------------------------------------------------------

  /** The stores and attempts a settle writes, in the order it writes them. */
  datatype Effect =
    | PointerSet(port: Option<Port>)
    | Reaped(victim: ContainerId)
    | GenerationSettled(version: Version)
    | AuditAttempted(version: Version)
    | SuccessAnnounced(version: Version)
    | StampedHealthy(version: Version)
    | MarkerPopped(version: Version)
    | FailureAnnounced(version: Version)

  /** The orphans the reap kills: all but the row's own, and only those the runtime lets go. */
  function Victims(orphans: seq<ContainerId>, own: Option<ContainerId>, killable: set<ContainerId>): seq<ContainerId> {
    if orphans == [] then []
    else if own == Some(orphans[0]) || orphans[0] !in killable then Victims(orphans[1..], own, killable)
    else [orphans[0]] + Victims(orphans[1..], own, killable)
  }

  function ReapEffects(victims: seq<ContainerId>): seq<Effect> {
    if victims == [] then [] else [Reaped(victims[0])] + ReapEffects(victims[1..])
  }

  lemma {:induction false} VictimsAppend(
    orphans: seq<ContainerId>, c: ContainerId, own: Option<ContainerId>, killable: set<ContainerId>)
    ensures Victims(orphans + [c], own, killable) ==
      Victims(orphans, own, killable) + (if own == Some(c) || c !in killable then [] else [c])
    decreases |orphans|
  {
    if orphans == [] {
      assert orphans + [c] == [c];
    } else {
      assert (orphans + [c])[1..] == orphans[1..] + [c];
      VictimsAppend(orphans[1..], c, own, killable);
    }
  }

  lemma {:induction false} StopAllAppend(boxes: map<ContainerId, Box>, victims: seq<ContainerId>, c: ContainerId)
    ensures StopAll(boxes, victims + [c]) == Stop(StopAll(boxes, victims), c)
    decreases |victims|
  {
    if victims == [] {
      assert victims + [c] == [c];
    } else {
      assert (victims + [c])[1..] == victims[1..] + [c];
      StopAllAppend(Stop(boxes, victims[0]), victims[1..], c);
    }
  }

  lemma {:induction false} ReapEffectsAppend(victims: seq<ContainerId>, c: ContainerId)
    ensures ReapEffects(victims + [c]) == ReapEffects(victims) + [Reaped(c)]
    decreases |victims|
  {
    if victims == [] {
      assert victims + [c] == [c];
    } else {
      assert (victims + [c])[1..] == victims[1..] + [c];
      ReapEffectsAppend(victims[1..], c);
    }
  }

  /** The effects of the crash settle, in order: which store is written before which. */
  function SettleEffects(row: Row, victims: seq<ContainerId>): seq<Effect>
    requires row.marker.Some?
  {
    var v := row.marker.value.version;
    if Promoted(row)
    then [AuditAttempted(v), SuccessAnnounced(v), StampedHealthy(v), MarkerPopped(v)]
    else [PointerSet(row.marker.value.bluePort)] + ReapEffects(victims)
         + [GenerationSettled(v), MarkerPopped(v), FailureAnnounced(v)]
  }

  /** What the runtime lists (running, labelled, each once) is reaped as the machine allows. */
  lemma {:induction false} ListedOrphansAreReapable(s: Sys, orphans: seq<ContainerId>, killable: set<ContainerId>)
    requires forall i, j :: 0 <= i < j < |orphans| ==> orphans[i] != orphans[j]
    requires forall c <- orphans :: s.IsRunning(c) && s.boxes[c].labelled
    ensures Reapable(s, Victims(orphans, s.row.container, killable))
    ensures forall c <- Victims(orphans, s.row.container, killable) :: c in orphans
    ensures forall c <- orphans :: s.row.container != Some(c) && c in killable ==>
      c in Victims(orphans, s.row.container, killable)
    decreases |orphans|
  {
    if orphans != [] {
      ListedOrphansAreReapable(s, orphans[1..], killable);
      assert forall c <- orphans[1..] :: c != orphans[0];
    }
  }

  class CutoverManager {
    var row: Row
    var hostPort: Port
    var active: Option<Port>
    var boxes: map<ContainerId, Box>
    var audited: set<ContainerId>
    var announced: set<ContainerId>
    var effects: seq<Effect>
    ghost var committed: bool
    ghost var promoted: set<ContainerId>
    ghost var routes: set<RouteId>
    ghost var dials: map<RouteId, Port>
    ghost var proxyRead: Option<Port>

    /** The machine state at the start or end of a tick that nothing interrupts. */
    ghost function View(): Sys
      reads this
    {
      Sys(row, hostPort, active, boxes, routes, dials, proxyRead, Nobody, Idle, None,
          committed, promoted, audited, announced)
    }

    constructor (s: Sys)
      requires s.pc.Idle? && s.owner.Nobody? && s.green.None?
      ensures View() == s && effects == []
    {
      row, hostPort, active, boxes := s.row, s.hostPort, s.active, s.boxes;
      audited, announced, effects := s.audited, s.announced, [];
      committed, promoted, routes, dials, proxyRead := s.committed, s.promoted, s.routes, s.dials, s.proxyRead;
    }

    /** Version-guarded removal: a marker naming another generation is never popped. */
    method PopMarker(version: Version)
      modifies this`row, this`effects
      ensures old(row).marker.Some? && old(row).marker.value.version == version ==>
        row == Disarmed(old(row)) && effects == old(effects) + [MarkerPopped(version)]
      ensures !(old(row).marker.Some? && old(row).marker.value.version == version) ==>
        row == old(row) && effects == old(effects)
    {
      if row.marker.Some? && row.marker.value.version == version {
        row := row.(marker := None);
        effects := effects + [MarkerPopped(version)];
      }
    }

    /** f4 to f6: durable records first, the marker last. */
    method CompleteCommitTail(green: ContainerId)
      requires row.marker.Some?
      modifies this`row, this`effects, this`audited, this`announced
      ensures row == Disarmed(old(row))
      ensures audited == old(audited) + {green} && announced == old(announced) + {green}
      ensures var v := old(row).marker.value.version;
        effects == old(effects) + [AuditAttempted(v), SuccessAnnounced(v), StampedHealthy(v), MarkerPopped(v)]
    {
      var version := row.marker.value.version;
      audited := audited + {green};
      effects := effects + [AuditAttempted(version)];
      announced := announced + {green};
      effects := effects + [SuccessAnnounced(version)];
      effects := effects + [StampedHealthy(version)];
      PopMarker(version);
    }

    /** Kills the listed orphans best-effort, skipping the row's own container. */
    method ReapGreen(orphans: seq<ContainerId>, killable: set<ContainerId>)
      modifies this`boxes, this`effects
      ensures var victims := Victims(orphans, row.container, killable);
        boxes == StopAll(old(boxes), victims) && effects == old(effects) + ReapEffects(victims)
    {
      ghost var was, past := boxes, effects;
      ghost var done: seq<ContainerId> := [];
      for i := 0 to |orphans|
        invariant done == Victims(orphans[..i], row.container, killable)
        invariant boxes == StopAll(was, done) && effects == past + ReapEffects(done)
      {
        var cid := orphans[i];
        assert orphans[..i + 1] == orphans[..i] + [cid];
        VictimsAppend(orphans[..i], cid, row.container, killable);
        if row.container != Some(cid) && cid in killable {
          StopAllAppend(was, done, cid);
          ReapEffectsAppend(done, cid);
          boxes := Stop(boxes, cid);
          effects := effects + [Reaped(cid)];
          done := done + [cid];
        }
      }
      assert orphans[..|orphans|] == orphans;
    }

    /** The shared settle: a guarded revert while blue exists, a guarded terminal write otherwise. */
    method SettleFailedGeneration(version: Version, present: bool)
      modifies this`row, this`effects
      ensures row == if old(row).version == version then SettledRow(old(row), present) else old(row)
      ensures effects == old(effects) + (if old(row).version == version then [GenerationSettled(version)] else [])
    {
      if row.version != version {
        return;
      }
      if present {
        var reverted := row.(status := Running);
        if row.previous.Some? {
          reverted := reverted.(version := row.previous.value);
        }
        row := reverted;
      } else {
        row := row.(status := Failed);
      }
      effects := effects + [GenerationSettled(version)];
    }

    /**
     * Layer 4: which side of the commit point the daemon died on is read off the marker's blue,
     * and the two branches do opposite things.
     */
    method SettleCrashedCutover(orphans: seq<ContainerId>, killable: set<ContainerId>, present: bool)
      requires View().Matching()
      modifies this`row, this`active, this`boxes, this`effects, this`audited, this`announced
      ensures View() ==
        CrashSettled(old(View()), Victims(orphans, old(row).container, killable), present)
      ensures effects == old(effects) + SettleEffects(old(row), Victims(orphans, old(row).container, killable))
    {
      var pending := row.marker.value;
      if row.container.Some? && row.container.value != pending.blue {
        CompleteCommitTail(row.container.value);
        return;
      }
      active := pending.bluePort;
      effects := effects + [PointerSet(pending.bluePort)];
      ReapGreen(orphans, killable);
      SettleFailedGeneration(pending.version, present);
      PopMarker(pending.version);
      effects := effects + [FailureAnnounced(pending.version)];
    }

    /**
     * The tick's decision. A persisted marker is looked at before liveness, so a blue that died
     * with the daemon never lets an unverified candidate be launched on the stable port.
     */
    method MaybeCutover(
      verifyInFlight: bool, live: bool, eligible: bool, wanted: bool,
      orphans: seq<ContainerId>, killable: set<ContainerId>, present: bool)
      returns (handsOff: bool)
      modifies this`row, this`active, this`boxes, this`effects, this`audited, this`announced, this`committed
      ensures verifyInFlight ==> handsOff && View() == old(View())
      ensures !verifyInFlight && old(View().Matching()) ==>
        handsOff && View() == CrashSettled(old(View()), Victims(orphans, old(row).container, killable), present)
      ensures !verifyInFlight && !old(View().Matching()) ==>
        (handsOff <==> live && old(row).status.Restarting? && old(row).container.Some? && eligible && wanted)
      ensures !verifyInFlight && !old(View().Matching()) ==>
        row == (if handsOff then old(row).(marker := Some(Marker(old(row).version, old(row).container.value, active)))
                else old(row))
        && active == old(active) && boxes == old(boxes) && hostPort == old(hostPort)
        && (handsOff ==> !committed)
    {
      if verifyInFlight {
        return true;
      }
      if row.marker.Some? && row.marker.value.version == row.version {
        SettleCrashedCutover(orphans, killable, present);
        return true;
      }
      if !live || !row.status.Restarting? || row.container.None? || !eligible {
        return false;
      }
      if !wanted {
        return false;
      }
      row := row.(marker := Some(Marker(row.version, row.container.value, active)));
      committed := false;
      return true;
    }

    /**
     * Force-delete, stop and drain: an operator's cancel is not a health verdict, so nothing is
     * stamped failed. `green` is the registry entry snapshotted before the task was killed.
     */
    method CancelVerify(green: Option<ContainerId>) returns (destroyed: set<ContainerId>)
      modifies this`row, this`active, this`boxes, this`effects, this`audited, this`announced
      ensures View() == Cancelled(old(View()), green)
      ensures destroyed == if green.Some? && green != old(row).container then {green.value} else {}
    {
      destroyed := {};
      if green.Some? && green != row.container {
        boxes := Stop(boxes, green.value);
        destroyed := {green.value};
      }
      if green.Some? && green == row.container {
        if row.marker.Some? && row.marker.value.version == row.version && row.marker.value.blue != green.value {
          CompleteCommitTail(green.value);
        }
        return;
      }
      if row.marker.Some? {
        active := row.marker.value.bluePort;
        PopMarker(row.marker.value.version);
      }
    }
  }
}
