/** The promises of the cutover protocol, over whole runs of the machine. */
module CutoverProperties {
  import opened Common
  import opened CutoverMachine
  import opened CutoverMarker
  import opened CutoverSafety

  /** A state some run reaches, whatever the environment does in it. */
  ghost predicate Reachable(t: Sys) {
    exists s: Sys, actions: seq<Action> :: Initial(s) && Valid(s, actions) && Exec(s, actions) == t
  }

  lemma ReachableHolds(t: Sys)
    requires Reachable(t)
    ensures MarkerInv(t)
  {
    var s: Sys, actions: seq<Action> :| Initial(s) && Valid(s, actions) && Exec(s, actions) == t;
    InitialHolds(s);
    RunKeepsMarker(s, actions);
  }

  /** The same with every redeploy and rollback landing where the pointer cannot be left behind. */
  ghost predicate SafelyReachable(t: Sys) {
    exists s: Sys, actions: seq<Action> ::
      Initial(s) && Valid(s, actions) && PermittedRun(s, actions) && Exec(s, actions) == t
  }

  lemma SafelyReachableHolds(t: Sys)
    requires SafelyReachable(t)
    ensures Inv(t)
  {
    var s: Sys, actions: seq<Action> :|
      Initial(s) && Valid(s, actions) && PermittedRun(s, actions) && Exec(s, actions) == t;
    InitialHolds(s);
    RunKeeps(s, actions);
  }

  // --- the commit point --------------------------------------------------------------------

  /** While a marker for the row's version is armed, the row names blue exactly until f3 has run. */
  lemma CommitPointIsVisible(t: Sys)
    requires Reachable(t) && t.Matching()
    ensures t.row.container == Some(t.row.marker.value.blue) <==> !t.committed
  {
    ReachableHolds(t);
  }

  predicate IsCutoverStep(a: Action) {
    !a.Launch? && !a.Outside?
  }

  /** No step of arm, verify, commit, unwind, settle or cancel stops the container the row names. */
  lemma CutoverSparesTheServingContainer(s: Sys, a: Action)
    requires Reachable(s) && Enabled(s, a) && IsCutoverStep(a)
    requires s.row.container.Some? && s.IsRunning(s.row.container.value)
    ensures Next(s, a).IsRunning(s.row.container.value)
  {
    ReachableHolds(s);
  }

  /** Blue is stopped only once no marker names the row's version: recovery never finds it gone. */
  lemma BlueOutlivesTheMarker(s: Sys, a: Action)
    requires Reachable(s) && Enabled(s, a) && IsCutoverStep(a)
    requires s.Matching() && s.IsRunning(s.row.marker.value.blue)
    ensures Next(s, a).IsRunning(s.row.marker.value.blue)
  {
    ReachableHolds(s);
  }

  /** Promotion names green on the row only when the pointer already names green's own port. */
  lemma PromotionFollowsThePointer(s: Sys)
    requires Reachable(s) && s.pc.Promoting?
    ensures var t := Next(s, Commit(Promote));
      t.row.container == Some(s.pc.green) && s.pc.green != s.pc.blue
      && s.pc.green in t.boxes && t.boxes[s.pc.green].port == t.Effective()
  {
    ReachableHolds(s);
  }

  // --- redeploys over a marker -------------------------------------------------------------

  /**
   * A run that keeps every promise asked of redeploys ends with nobody at work, the pointer off the
   * serving container, and no marker telling the way back.
   */
  ghost predicate Strands(s: Sys) {
    exists actions: seq<Action>, t: Sys :: StrandedBy(s, actions, t)
  }

  predicate StrandedBy(s: Sys, actions: seq<Action>, t: Sys) {
    RunsTo(s, actions, t) && PermittedRun(s, actions) && t.pc.Idle? && !t.Matching() && !t.PointerCorrect()
  }

  /**
   * A redeploy or rollback drops the marker without moving the pointer. What follows can strand the
   * serving container exactly when the write lands while one is serving and either on a verify that
   * will still write the pointer (it has not yet, and the green it probes is running), or over a
   * matching marker of an uncommitted generation that has moved the pointer off blue's.
   */
  lemma DroppingTheMarkerIsSafeExactlyWhen(s: Sys, a: OutsideStep)
    requires SafelyReachable(s) && CanOutside(s, a) && (a.Redeploy? || a.Rollback?)
    ensures Strands(DoOutside(s, a)) <==>
      && s.Serving()
      && (|| s.pc.Spawning? || s.pc.Resolving? || s.pc.Starting? || s.pc.Pointing?
          || (s.pc.Probing? && s.IsRunning(s.pc.green))
          || (s.Matching() && s.row.container == Some(s.row.marker.value.blue) && s.active != s.row.marker.value.bluePort))
  {
    SafelyReachableHolds(s);
    var t := DoOutside(s, a);
    if RedeploySafe(s) {
      StepKeeps(s, Outside(a));
      SafeStatesDoNotStrand(t);
    } else if WillPoint(s) {
      var run, u := RedeployUnderTheVerifyStrandsBlue(s, a);
    } else {
      DiesAt(t);
      assert StrandedBy(t, [Outside(Crash(None))], Next(t, Outside(Crash(None))));
    }
  }

  lemma DiesAt(s: Sys)
    ensures var t := Next(s, Outside(Crash(None)));
      && RunsTo(s, [Outside(Crash(None))], t)
      && PermittedRun(s, [Outside(Crash(None))]) && RecordSafeRun(s, [Outside(Crash(None))])
  {
    var t := Next(s, Outside(Crash(None)));
    RunsOneMore(s, Outside(Crash(None)), t, [], t);
    assert [Outside(Crash(None))] + [] == [Outside(Crash(None))];
    WithoutWritesPermitted(s, [Outside(Crash(None))]);
  }

  lemma SafeStatesDoNotStrand(s: Sys)
    requires Inv(s)
    ensures !Strands(s)
  {
    forall actions: seq<Action>, t: Sys | RunsTo(s, actions, t) && PermittedRun(s, actions)
      ensures !StrandedBy(s, actions, t)
    {
      RunKeeps(s, actions);
    }
  }

  /** Version 2 runs as container 0 on the stable port 9400; `pc` and `owner` say who acts. */
  function Example(status: Status, marker: Option<Marker>, owner: Owner, pc: Pc): Sys {
    Sys(Row(Some(0), 2, 2, Some(1), status, marker), 9400, None, map[0 := Box(9400, true, false)],
        {}, map[], None, owner, pc, None, false, {}, {}, {})
  }

  function ExampleStart(): Sys {
    Example(Running, None, Nobody, Idle)
  }

  const ExampleMarker: Option<Marker> := Some(Marker(2, 0, None))

  function ExampleArmed(): Sys {
    Example(Restarting, ExampleMarker, Tick, Spawning(2, 0))
  }

  const ArmingRun: seq<Action> := [Outside(Restart), Arm(TickArm), Arm(ArmWrite)]

  lemma ExampleFits()
    ensures MarkerInv(ExampleArmed())
  {
  }

  lemma ExampleArms()
    ensures RunsTo(ExampleStart(), ArmingRun, ExampleArmed())
  {
    var s1 := Example(Restarting, None, Nobody, Idle);
    var s2 := Example(Restarting, None, Tick, Arming(2, 0, None));
    var s3 := ExampleArmed();
    RunsOneMore(s2, Arm(ArmWrite), s3, [], s3);
    RunsOneMore(s1, Arm(TickArm), s2, [Arm(ArmWrite)], s3);
    RunsOneMore(ExampleStart(), Outside(Restart), s1, [Arm(TickArm), Arm(ArmWrite)], s3);
  }

  /**
   * The write the marker guard lets through: the daemon dies after f1, and a redeploy lands over
   * the stale marker before the next tick. No marker is left and blue is running on 9400, but
   * the proxy is told to dial green's port.
   */
  lemma RedeployOverAStaleMarkerStrandsBlue() returns (verify: seq<Action>, t: Sys)
    ensures Initial(ExampleStart()) && forall a <- verify :: !IsWrite(a)
    ensures RunsTo(ExampleStart(), ArmingRun + verify + [Outside(Crash(None)), Outside(Redeploy(true))], t)
    ensures t.pc.Idle? && t.row.marker.None? && t.row.container == Some(0) && t.IsRunning(0)
    ensures t.boxes[0].port == 9400 && t.Effective() != 9400
  {
    ExampleArms();
    ExampleFits();
    var dead;
    verify, dead := PointThenDie(ExampleArmed());
    t := Next(dead, Outside(Redeploy(true)));
    RunsOneMore(dead, Outside(Redeploy(true)), t, [], t);
    assert [Outside(Redeploy(true))] + [] == [Outside(Redeploy(true))];
    var dying := verify + [Outside(Crash(None))];
    RunsJoin(ExampleStart(), ArmingRun, ExampleArmed(), dying, dead);
    RunsJoin(ExampleStart(), ArmingRun + dying, dead, [Outside(Redeploy(true))], t);
    assert ArmingRun + dying + [Outside(Redeploy(true))]
        == ArmingRun + verify + [Outside(Crash(None)), Outside(Redeploy(true))];
  }

  /**
   * Why a verify that will still write the pointer is excluded: a redeploy or rollback that read the
   * marker and passed the registry check before the task was registered pops the live marker, and a
   * crash right after the verify has written the pointer leaves nothing that tells the way back to blue.
   */
  lemma RedeployUnderTheVerifyStrandsBlue(s: Sys, a: OutsideStep) returns (actions: seq<Action>, t: Sys)
    requires SafelyReachable(s) && WillPoint(s) && s.Serving() && CanOutside(s, a) && (a.Redeploy? || a.Rollback?)
    ensures StrandedBy(DoOutside(s, a), actions, t)
    ensures t.pc.Idle? && t.row.marker.None? && t.row.container == s.row.container && t.Serving()
  {
    SafelyReachableHolds(s);
    var s1 := DoOutside(s, a);
    OutsideKeepsMarker(s, a, s1);
    actions, t := PointThenDie(s1);
    actions := actions + [Outside(Crash(None))];
    WithoutWritesPermitted(s1, actions);
  }

  // --- a verify left alone -----------------------------------------------------------------

  /** How many awaits the verify is from the commit point. */
  function Distance(pc: Pc): nat {
    match pc
    case Spawning(_, _) => 8
    case Resolving(_, _) => 7
    case Starting(_, _, _) => 6
    case Probing(_, _, _, _) => 5
    case Pointing(_, _, _, _) => 4
    case Repointing(_, _, _, _) => 3
    case Awaiting(_, _, _, _, _) => 2
    case Rechecking(_, _, _, _) => 1
    case _ => 0
  }

  predicate HasGreen(pc: Pc) {
    || pc.Probing? || pc.Pointing? || pc.Repointing? || pc.Awaiting? || pc.Rechecking? || pc.Promoting?
  }

  /** What the verify leaves alone before the commit point; a green it starts is a new container. */
  predicate VerifyFrames(s: Sys, t: Sys) {
    && t.row == s.row && t.hostPort == s.hostPort && t.committed == s.committed
    && t.promoted == s.promoted && t.audited == s.audited && t.announced == s.announced
    && (forall c <- s.boxes :: c in t.boxes && t.boxes[c] == s.boxes[c])
    && (HasGreen(t.pc) ==> if HasGreen(s.pc) then t.pc.green == s.pc.green
                           else t.pc.green !in s.boxes && t.IsRunning(t.pc.green))
  }

  /** What a verify that goes well does next, where it takes one step. */
  ghost function GoodStep(s: Sys): Action {
    match s.pc
    case Spawning(_, _) => Arm(Spawn)
    case Resolving(_, _) => Verify(EnvReady(s.hostPort + s.Effective() + 1))
    case Starting(_, _, _) => Verify(StartGreen(Fresh(s.boxes.Keys)))
    case Probing(_, _, _, _) => Verify(ProbeOk)
    case Pointing(_, _, _, _) => Verify(WritePointer)
    case Repointing(_, _, _, _) => Verify(Register(true, {}))
    case _ => Verify(StillLive)
  }

  predicate MayAdvance(s: Sys) {
    && BeforeCommit(s.pc) && !s.pc.Promoting?
    && (s.pc.Probing? || s.pc.Rechecking? ==> s.IsRunning(s.pc.green))
  }

  predicate Advanced(s: Sys, t: Sys) {
    && VerifyFrames(s, t) && BeforeCommit(t.pc) && Distance(t.pc) == Distance(s.pc) - 1
    && t.Effective() == if s.pc.Pointing? then s.pc.greenPort else s.Effective()
  }

  lemma GoodStepEnabled(s: Sys)
    requires MayAdvance(s) && !s.pc.Awaiting?
    ensures Enabled(s, GoodStep(s))
  {
  }

  lemma EarlyStepAdvances(s: Sys, a: Action, t: Sys)
    requires a == GoodStep(s) && Enabled(s, a) && t == Next(s, a)
    requires s.pc.Spawning? || s.pc.Resolving? || s.pc.Starting?
    ensures Advanced(s, t)
  {
  }

  lemma LateStepAdvances(s: Sys, a: Action, t: Sys)
    requires a == GoodStep(s) && Enabled(s, a) && t == Next(s, a)
    requires s.pc.Probing? || s.pc.Pointing? || s.pc.Repointing? || s.pc.Rechecking?
    ensures Advanced(s, t)
  {
  }

  /** The next await of a verify that goes well. */
  lemma VerifyAdvances(s: Sys) returns (actions: seq<Action>, t: Sys)
    requires MarkerInv(s) && MayAdvance(s)
    ensures RunsTo(s, actions, t) && (forall a <- actions :: !IsWrite(a)) && MarkerInv(t) && Advanced(s, t)
  {
    if s.pc.Awaiting? {
      actions, t := DialsComeToAgree(s);
    } else {
      var a := GoodStep(s);
      GoodStepEnabled(s);
      t := Next(s, a);
      if s.pc.Spawning? || s.pc.Resolving? || s.pc.Starting? {
        EarlyStepAdvances(s, a, t);
      } else {
        LateStepAdvances(s, a, t);
      }
      actions := [a];
      RunsOneMore(s, a, t, [], t);
      assert [a] + [] == [a];
    }
    RunKeepsMarker(s, actions);
  }

  lemma {:induction false} BindsRun(s: Sys, ids: set<RouteId>) returns (actions: seq<Action>)
    ensures RunsTo(s, actions, s.(routes := s.routes + ids)) && forall a <- actions :: !IsWrite(a)
    decreases ids
  {
    actions := [];
    if ids == {} {
      assert s.routes + ids == s.routes;
    } else {
      var id :| id in ids;
      var u := s.(routes := s.routes + {id});
      actions := BindsRun(u, ids - {id});
      assert s.routes + {id} + (ids - {id}) == s.routes + ids;
      RunsOneMore(s, Outside(Bind(id)), u, actions, s.(routes := s.routes + ids));
      actions := [Outside(Bind(id))] + actions;
    }
  }

  /** With its routes bound, one proxy tick satisfies the awaited dials. */
  lemma DialsComeToAgree(s: Sys) returns (actions: seq<Action>, t: Sys)
    requires s.pc.Awaiting? && s.active == Some(s.pc.greenPort)
    ensures RunsTo(s, actions, t) && forall a <- actions :: !IsWrite(a)
    ensures t == s.(routes := t.routes, dials := t.dials, proxyRead := None,
                    pc := Rechecking(s.pc.v, s.pc.blue, s.pc.green, s.pc.greenPort))
  {
    var binds := BindsRun(s, s.pc.ids);
    var u1 := s.(routes := s.routes + s.pc.ids);
    var u2 := u1.(proxyRead := Some(u1.Effective()));
    var u3 := Next(u2, Outside(ProxyWrite(s.pc.ids)));
    t := Next(u3, Verify(DialsAgree));
    actions := [Outside(ProxyRead), Outside(ProxyWrite(s.pc.ids)), Verify(DialsAgree)];
    RunsOneMore(u3, actions[2], t, [], t);
    RunsOneMore(u2, actions[1], u3, actions[2..], t);
    RunsOneMore(u1, actions[0], u2, actions[1..], t);
    RunsJoin(s, binds, u1, actions, t);
    actions := binds + actions;
  }

  /** A verify that will write the pointer can, with no write in between. */
  lemma {:induction false} PointsEventually(s: Sys) returns (actions: seq<Action>, t: Sys)
    requires MarkerInv(s) && WillPoint(s)
    ensures RunsTo(s, actions, t) && (forall a <- actions :: !IsWrite(a)) && MarkerInv(t)
    ensures VerifyFrames(s, t) && t.pc.Repointing? && t.Effective() != s.Effective()
    decreases Distance(s.pc)
  {
    actions, t := VerifyAdvances(s);
    if !s.pc.Pointing? {
      var u, rest := t, [];
      rest, t := PointsEventually(u);
      RunsJoin(s, actions, u, rest, t);
      actions := actions + rest;
    }
  }

  /** The verify goes well up to f1, and the daemon dies there. */
  lemma PointThenDie(s: Sys) returns (verify: seq<Action>, t: Sys)
    requires MarkerInv(s) && WillPoint(s)
    ensures RunsTo(s, verify + [Outside(Crash(None))], t) && forall a <- verify :: !IsWrite(a)
    ensures t.pc.Idle? && t.row == s.row && t.Effective() != s.Effective()
    ensures forall c <- s.boxes :: c in t.boxes && t.boxes[c] == s.boxes[c]
  {
    var u;
    verify, u := PointsEventually(s);
    t := Next(u, Outside(Crash(None)));
    DiesAt(u);
    RunsJoin(s, verify, u, [Outside(Crash(None))], t);
  }

  predicate IsWrite(a: Action) {
    a.Outside? && (a.stepOutside.Redeploy? || a.stepOutside.Rollback?)
  }

  /** A run without redeploys and rollbacks owes nothing. */
  lemma {:induction false} WithoutWritesPermitted(s: Sys, actions: seq<Action>)
    requires Valid(s, actions)
    requires forall a <- actions :: !IsWrite(a)
    ensures PermittedRun(s, actions) && RecordSafeRun(s, actions)
    decreases |actions|
  {
    if actions != [] {
      WithoutWritesPermitted(Next(s, actions[0]), actions[1..]);
    }
  }

  /** Container ids never run out. */
  ghost function Fresh(used: set<ContainerId>): (c: ContainerId)
    ensures c !in used
  {
    FreshExists(used);
    var c :| c !in used;
    c
  }

  lemma FreshExists(used: set<ContainerId>)
    ensures exists c: ContainerId :: c !in used
  {
    var n: ContainerId := 0;
    var rest := used;
    while rest != {}
      invariant rest <= used && forall d <- used :: d in rest || d < n
    {
      var d :| d in rest;
      rest := rest - {d};
      n := if d < n then n else d + 1;
    }
    assert n !in used;
  }

  /**
   * Why the pointer promise speaks of a running container: a launch clears the pointer before it
   * records the new container, and a crash between the two leaves the row naming the old, dead
   * one with a pointer that is no longer its own.
   */
  lemma DeadContainerMayLoseItsPointer(s: Sys)
    requires SafelyReachable(s) && s.pc.LaunchPointing? && s.row.container.Some?
    requires s.row.container.value in s.boxes && s.boxes[s.row.container.value].port != s.hostPort
    ensures Enabled(s, Launch(LaunchPoint))
    ensures var u := Next(s, Launch(LaunchPoint)); var t := Next(u, Outside(Crash(None)));
      t.pc.Idle? && !t.Matching() && !t.IsRunning(t.row.container.value)
      && t.Effective() != t.boxes[t.row.container.value].port
  {
    SafelyReachableHolds(s);
  }

  // --- the proxy ---------------------------------------------------------------------------

  /**
   * One undisturbed proxy tick makes every bound route dial the row's running container,
   * whenever no uncommitted cutover is in progress.
   */
  lemma ProxyTickConverges(s: Sys, id: RouteId)
    requires SafelyReachable(s) && (s.Matching() ==> s.committed) && id in s.routes
    requires s.row.container.Some? && s.IsRunning(s.row.container.value)
    ensures var t := Next(Next(s, Outside(ProxyRead)), Outside(ProxyWrite(s.routes)));
      id in t.dials && t.dials[id] == t.boxes[t.row.container.value].port
  {
    SafelyReachableHolds(s);
  }

  /** Because f1 comes first, a proxy tick in the verify window moves every awaited dial to green. */
  lemma ProxyTickHelpsTheRepoint(s: Sys)
    requires Reachable(s) && s.pc.Awaiting? && s.pc.ids <= s.routes
    ensures var t := Next(Next(s, Outside(ProxyRead)), Outside(ProxyWrite(s.routes)));
      Enabled(t, Verify(DialsAgree))
  {
    ReachableHolds(s);
  }

  // --- durable records ---------------------------------------------------------------------

  predicate HasRecords(s: Sys, green: ContainerId) {
    green in s.audited && green in s.announced
  }

  /** Every promotion has had its audit row and event attempted, or its marker is still armed. */
  predicate Recorded(s: Sys) {
    forall g <- s.promoted :: HasRecords(s, g) || (s.Matching() && s.committed && s.row.container == Some(g))
  }

  /** The verify is under way and will promote its green unless it stops first. */
  predicate WillPromote(s: Sys) {
    BeforeCommit(s.pc) && (HasGreen(s.pc) && !s.pc.Promoting? ==> s.IsRunning(s.pc.green))
  }

  /** Records are of promoted containers, and a green before the commit point is none. */
  predicate HistoryFits(s: Sys) {
    && s.audited <= s.promoted && s.announced <= s.promoted && s.promoted <= s.boxes.Keys
    && (s.pc.Auditing? || s.pc.Announcing? || s.pc.Stamping? ==> s.pc.green in s.promoted)
    && (HasGreen(s.pc) ==> s.pc.green !in s.promoted)
  }

  /** What the tail still owes at each of its awaits, and whom a committed marker speaks of. */
  predicate TailRecords(s: Sys) {
    && (s.pc.Announcing? ==> s.pc.green in s.audited)
    && (s.pc.Stamping? ==> HasRecords(s, s.pc.green))
    && (s.committed && s.row.container.Some? && (s.pc.Popping? || s.pc.PopWriting?) ==>
          HasRecords(s, s.row.container.value))
    && (s.committed && s.Matching() ==> s.row.container.Some? && s.row.container.value in s.promoted)
    && (WillPromote(s) ==> s.Matching())
  }

  predicate RecordsFit(s: Sys) {
    Recorded(s) && TailRecords(s) && HistoryFits(s)
  }

  predicate RecordInv(s: Sys) {
    MarkerInv(s) && RecordsFit(s)
  }

  /** The marker names the row's version, the row no longer names its blue, and the records of what it names are missing. */
  predicate OwesRecords(s: Sys) {
    && s.Matching() && s.row.container.Some? && s.row.container.value != s.row.marker.value.blue
    && !HasRecords(s, s.row.container.value)
  }

  /** What the records ask of a write: nothing of the pointer. */
  predicate RecordSafe(s: Sys, a: Action) {
    IsWrite(a) ==> !OwesRecords(s) && !WillPromote(s)
  }

  predicate RecordSafeRun(s: Sys, actions: seq<Action>)
    requires Valid(s, actions)
    decreases |actions|
  {
    actions == [] || (RecordSafe(s, actions[0]) && RecordSafeRun(Next(s, actions[0]), actions[1..]))
  }

  ghost predicate RecordReachable(t: Sys) {
    exists s: Sys, actions: seq<Action> ::
      Initial(s) && Valid(s, actions) && RecordSafeRun(s, actions) && Exec(s, actions) == t
  }

  lemma RecordReachableHolds(t: Sys)
    requires RecordReachable(t)
    ensures RecordInv(t)
  {
    var s: Sys, actions: seq<Action> :|
      Initial(s) && Valid(s, actions) && RecordSafeRun(s, actions) && Exec(s, actions) == t;
    InitialHolds(s);
    RunKeepsRecords(s, actions);
  }

  predicate LosesRecords(s: Sys, actions: seq<Action>, t: Sys) {
    RunsTo(s, actions, t) && RecordSafeRun(s, actions) && t.pc.Idle? && !Recorded(t)
  }

  ghost predicate CanLoseRecords(s: Sys) {
    exists actions: seq<Action>, t: Sys :: LosesRecords(s, actions, t)
  }

  /**
   * A redeploy or rollback leaves a promotion without its records exactly when it drops a matching
   * marker while the row already names another container than its blue and that one's audit row or
   * event is still missing. What follows can come to that, with nobody at work, exactly then or when
   * it landed on a verify that can still promote: before its commit point, its green alive if any.
   */
  lemma DroppingTheMarkerKeepsRecordsExactlyWhen(s: Sys, a: OutsideStep)
    requires RecordReachable(s) && CanOutside(s, a) && (a.Redeploy? || a.Rollback?)
    ensures var owes := s.Matching() && s.row.container.Some? && s.row.container.value != s.row.marker.value.blue
                        && !(s.row.container.value in s.audited && s.row.container.value in s.announced);
      && (Recorded(DoOutside(s, a)) <==> !owes)
      && (CanLoseRecords(DoOutside(s, a)) <==>
            || owes || s.pc.Promoting?
            || (BeforeCommit(s.pc) && (HasGreen(s.pc) ==> s.IsRunning(s.pc.green))))
  {
    RecordReachableHolds(s);
    var t := DoOutside(s, a);
    if OwesRecords(s) {
      assert s.row.container.value in t.promoted && !HasRecords(t, s.row.container.value);
      DiesAt(t);
      assert LosesRecords(t, [Outside(Crash(None))], Next(t, Outside(Crash(None))));
    } else if WillPromote(s) {
      var actions, u := RedeployUnderTheVerifyLosesRecords(s, a);
    } else {
      StepKeepsRecords(s, Outside(a));
      RecordedStatesDoNotLose(t);
    }
  }

  lemma RecordedStatesDoNotLose(s: Sys)
    requires RecordInv(s)
    ensures !CanLoseRecords(s)
  {
    forall actions: seq<Action>, t: Sys | RunsTo(s, actions, t) && RecordSafeRun(s, actions)
      ensures !LosesRecords(s, actions, t)
    {
      RunKeepsRecords(s, actions);
    }
  }

  /** A verify that can promote does, with no write in between. */
  lemma {:induction false} PromotesEventually(s: Sys) returns (actions: seq<Action>, t: Sys)
    requires MarkerInv(s) && WillPromote(s)
    ensures RunsTo(s, actions, t) && (forall a <- actions :: !IsWrite(a)) && MarkerInv(t)
    ensures VerifyFrames(s, t) && t.pc.Promoting?
    decreases Distance(s.pc)
  {
    actions, t := [], s;
    if !s.pc.Promoting? {
      actions, t := VerifyAdvances(s);
      var u, rest := t, [];
      rest, t := PromotesEventually(u);
      RunsJoin(s, actions, u, rest, t);
      actions := actions + rest;
    }
  }

  /** A verify whose marker was dropped under it promotes a green no marker names. */
  lemma RedeployUnderTheVerifyLosesRecords(s: Sys, a: OutsideStep) returns (actions: seq<Action>, t: Sys)
    requires RecordInv(s) && WillPromote(s) && CanOutside(s, a) && (a.Redeploy? || a.Rollback?)
    ensures LosesRecords(DoOutside(s, a), actions, t)
  {
    var s1 := DoOutside(s, a);
    OutsideKeepsMarker(s, a, s1);
    var verify, u := PromotesEventually(s1);
    var last := [Commit(Promote), Outside(Crash(None))];
    t := PromoteThenDie(u);
    actions := verify + last;
    RunsJoin(s1, verify, u, last, t);
    WithoutWritesPermitted(s1, actions);
    assert u.pc.green in t.promoted && !HasRecords(t, u.pc.green);
  }

  lemma PromoteThenDie(s: Sys) returns (t: Sys)
    requires s.pc.Promoting?
    ensures RunsTo(s, [Commit(Promote), Outside(Crash(None))], t)
    ensures t.pc.Idle? && t.row.marker == s.row.marker && t.promoted == s.promoted + {s.pc.green}
    ensures t.audited == s.audited && t.announced == s.announced
  {
    var u := Next(s, Commit(Promote));
    t := Next(u, Outside(Crash(None)));
    DiesAt(u);
    RunsOneMore(s, Commit(Promote), u, [Outside(Crash(None))], t);
    assert [Commit(Promote)] + [Outside(Crash(None))] == [Commit(Promote), Outside(Crash(None))];
  }

  /**
   * The run that loses them: the daemon dies right after the commit point, and a redeploy lands over
   * the marker before the next tick has replayed the tail. The promoted green is then named by no
   * marker, and neither its audit row nor its event was attempted.
   */
  lemma CrashThenRedeployLosesRecords(s: Sys) returns (actions: seq<Action>, t: Sys)
    requires RecordReachable(s) && s.pc.Promoting?
    ensures actions == [Commit(Promote), Outside(Crash(None)), Outside(Redeploy(true))]
    ensures RunsTo(s, actions, t) && PermittedRun(s, actions)
    ensures t.pc.Idle? && t.row.container == Some(s.pc.green) && s.pc.green in t.promoted && t.row.marker.None?
    ensures s.pc.green !in t.audited && s.pc.green !in t.announced
  {
    RecordReachableHolds(s);
    actions := [Commit(Promote), Outside(Crash(None)), Outside(Redeploy(true))];
    var u1 := Next(s, actions[0]);
    var u2 := Next(u1, actions[1]);
    t := Next(u2, actions[2]);
    PermittedOneMore(u2, actions[2], t, [], t);
    PermittedOneMore(u1, actions[1], u2, actions[2..], t);
    PermittedOneMore(s, actions[0], u1, actions[1..], t);
  }

  /** Such a state exists: the whole run, from a row that has never cut over. */
  lemma CrashThenRedeployIsReachable() returns (actions: seq<Action>, t: Sys, green: ContainerId)
    ensures Initial(ExampleStart()) && RunsTo(ExampleStart(), actions, t)
    ensures t.pc.Idle? && t.row.container == Some(green) && green in t.promoted && t.row.marker.None?
    ensures green !in t.audited && green !in t.announced
  {
    ExampleArms();
    ExampleFits();
    var ready, last;
    actions, ready := PromotesEventually(ExampleArmed());
    RunsJoin(ExampleStart(), ArmingRun, ExampleArmed(), actions, ready);
    actions := ArmingRun + actions;
    green := ready.pc.green;
    WithoutWritesPermitted(ExampleStart(), actions);
    last, t := CrashThenRedeployLosesRecords(ready);
    RunsJoin(ExampleStart(), actions, ready, last, t);
    actions := actions + last;
  }

  lemma PermittedOneMore(s: Sys, a: Action, t: Sys, rest: seq<Action>, u: Sys)
    requires Enabled(s, a) && Permitted(s, a) && Next(s, a) == t && RunsTo(t, rest, u) && PermittedRun(t, rest)
    ensures RunsTo(s, [a] + rest, u) && PermittedRun(s, [a] + rest)
  {
    assert ([a] + rest)[1..] == rest;
  }

  lemma ArmKeepsRecords(s: Sys, a: ArmStep)
    requires RecordInv(s) && CanArm(s, a)
    ensures RecordsFit(DoArm(s, a))
  {
  }

  lemma VerifyKeepsRecords(s: Sys, a: VerifyStep)
    requires RecordInv(s) && CanVerify(s, a)
    ensures RecordsFit(DoVerify(s, a))
  {
  }

  lemma TailKeepsRecords(s: Sys, a: CommitStep)
    requires RecordInv(s) && CanCommit(s, a) && (a.Promote? || a.Audit? || a.Announce? || a.StampHealthy?)
    ensures RecordsFit(DoCommit(s, a))
  {
  }

  lemma PopKeepsRecords(s: Sys, a: CommitStep)
    requires RecordInv(s) && CanCommit(s, a) && (a.PopRead? || a.PopWrite? || a.RetireBlue?)
    ensures RecordsFit(DoCommit(s, a))
  {
  }

  lemma UnwindKeepsRecords(s: Sys, a: UnwindStep)
    requires RecordInv(s) && CanUnwind(s, a)
    ensures RecordsFit(DoUnwind(s, a))
  {
  }

  lemma SettleKeepsRecords(s: Sys, a: SettleStep)
    requires RecordInv(s) && CanSettle(s, a)
    ensures RecordsFit(DoSettle(s, a))
  {
  }

  lemma CancelKeepsRecords(s: Sys, a: CancelStep)
    requires RecordInv(s) && CanCancel(s, a)
    ensures RecordsFit(DoCancel(s, a))
  {
  }

  lemma LaunchKeepsRecords(s: Sys, a: LaunchStep, t: Sys)
    requires RecordInv(s) && CanLaunch(s, a) && t == DoLaunch(s, a)
    ensures RecordsFit(t)
  {
  }

  lemma OutsideKeepsRecords(s: Sys, a: OutsideStep)
    requires RecordInv(s) && CanOutside(s, a) && RecordSafe(s, Outside(a))
    ensures RecordsFit(DoOutside(s, a))
  {
  }

  lemma StepKeepsRecords(s: Sys, a: Action)
    requires RecordInv(s) && Enabled(s, a) && RecordSafe(s, a)
    ensures RecordInv(Next(s, a))
  {
    StepKeepsMarker(s, a);
    match a
    case Arm(x) => ArmKeepsRecords(s, x);
    case Verify(x) => VerifyKeepsRecords(s, x);
    case Commit(x) =>
      if x.Promote? || x.Audit? || x.Announce? || x.StampHealthy? {
        TailKeepsRecords(s, x);
      } else {
        PopKeepsRecords(s, x);
      }
    case Unwind(x) => UnwindKeepsRecords(s, x);
    case Settle(x) => SettleKeepsRecords(s, x);
    case Cancel(x) => CancelKeepsRecords(s, x);
    case Launch(x) => LaunchKeepsRecords(s, x, DoLaunch(s, x));
    case Outside(x) => OutsideKeepsRecords(s, x);
  }

  lemma {:induction false} RunKeepsRecords(s: Sys, actions: seq<Action>)
    requires RecordInv(s) && Valid(s, actions) && RecordSafeRun(s, actions)
    ensures RecordInv(Exec(s, actions))
    decreases |actions|
  {
    if actions != [] {
      var a := actions[0];
      StepKeepsRecords(s, a);
      RunKeepsRecords(Next(s, a), actions[1..]);
    }
  }

  /** Online, in the crash replay and in a cancel alike, a committed marker goes only after its records. */
  lemma RecordsComeBeforeThePop(s: Sys, a: Action)
    requires RecordReachable(s) && Enabled(s, a) && !IsWrite(a)
    requires s.Matching() && s.committed && !Next(s, a).Matching()
    ensures var t := Next(s, a);
      t.row.marker.None? && t.row.container == s.row.container && t.row.container.Some? && HasRecords(t, t.row.container.value)
  {
    RecordReachableHolds(s);
  }

  /**
   * The audit row and the success event are at-least-once: over every run, crashes included, a
   * promoted container without both is still named by an armed marker that layer 4 will replay.
   */
  lemma NoPromotionGoesUnrecorded(s: Sys, actions: seq<Action>, green: ContainerId)
    requires Initial(s) && Valid(s, actions) && RecordSafeRun(s, actions)
    requires green in Exec(s, actions).promoted
    ensures var t := Exec(s, actions);
      HasRecords(t, green) || (t.Matching() && t.row.container == Some(green) && t.row.marker.value.blue != green)
  {
    InitialHolds(s);
    RunKeepsRecords(s, actions);
  }
}
