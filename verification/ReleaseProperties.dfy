/** The promises of the release gate and of the failed-generation settle, over whole runs. */
module ReleaseProperties {
  import opened Common
  import opened ReleaseMachine
  import opened ReleaseSafety

  predicate PermittedRun(s: Sys, actions: seq<Action>)
    requires Valid(s, actions)
    decreases |actions|
  {
    actions == [] || (Permitted(s, actions[0]) && PermittedRun(Next(s, actions[0]), actions[1..]))
  }

  lemma {:induction false} RunKeeps(s: Sys, actions: seq<Action>)
    requires Inv(s) && Valid(s, actions) && PermittedRun(s, actions)
    ensures Inv(Exec(s, actions))
    decreases |actions|
  {
    if actions != [] {
      StepKeeps(s, actions[0]);
      RunKeeps(Next(s, actions[0]), actions[1..]);
    }
  }

  // --- the gate ----------------------------------------------------------------------------

  /**
   * Over any run with crashes, restarts, vanishing containers and repeated ticks, the swap is only
   * ever released for an image that owes no release, and an armed marker stays on the row's own
   * generation until a release succeeds or a revert has moved the row to another image.
   */
  lemma OnlyReleasedImagesAreSwappedIn(s: Sys, actions: seq<Action>)
    requires Initial(s) && Valid(s, actions) && PermittedRun(s, actions)
    ensures var t := Exec(s, actions);
      && (t.pc.Swapping? ==> t.pc.job.image !in t.dirty)
      && (t.row.image in t.dirty ==> t.row.pending == Some(t.row.image))
  {
    RunKeeps(s, actions);
  }

  /**
   * A tick that acts on the row as it is settles a crashed release exactly when the row's
   * generation owes one, and otherwise lets the swap through: no good generation is ever settled.
   */
  lemma PromptDispatchIsExact(s: Sys, live: bool, onDisk: bool)
    requires Inv(s) && s.pc.Idle? && s.snap == Some(s.row) && !s.row.desired.ToStop?
    requires s.row.Converging(live) && !s.row.NeedsBuild(s.images)
    ensures var t := DoDispatch(s, live, onDisk);
      && (t.pc.Looking? <==> s.row.image in s.dirty)
      && (t.pc.Swapping? <==> s.row.image !in s.dirty)
      && (t.pc.Looking? ==> t.pc.f.target == s.row.image)
  {
  }

  // --- redeploys and rollbacks: where they keep the gate, and where they open it ---------------

  /** A redeploy keeps the invariant exactly when it does not make a live unmigrated image the fallback. */
  lemma RedeployIsSafeExactlyWhen(s: Sys, release: bool)
    requires Inv(s)
    ensures Inv(DoOutside(s, Redeploy(release))) <==> s.row.image !in s.dirty || !s.Present()
  {
    if s.row.image !in s.dirty || !s.Present() {
      RedeployKeeps(s, release);
    } else {
      var t := s.(row := RedeployedRow(s.row, release));
      assert t.Unsettled() && t.Present() && !FallbackSound(t.row, t.dirty);
    }
  }

  /**
   * A rollback keeps the invariant, also from a wedged generation, unless it lands on a generation
   * that owes its release, or leaves an armed generation under a live service for an image that is
   * not there.
   */
  lemma RollbackIsSafeExactlyWhen(s: Sys)
    requires Inv(s) && CanOutside(s, Rollback)
    ensures Inv(DoOutside(s, Rollback)) <==>
      && s.row.previous.value !in s.dirty
      && !(s.row.Armed() && s.Present() && s.row.context && s.row.previous.value !in s.images)
  {
    var t := DoOutside(s, Rollback);
    if RollbackSafe(s) {
      RollbackKeeps(s);
    } else if s.row.previous.value in s.dirty {
      assert !MarkerTellsTruth(t.row, t.dirty);
    } else {
      assert t.Unsettled() && t.Present() && !FallbackSound(t.row, t.dirty);
    }
  }

  /** The run can be taken from `s`, every redeploy, rollback and dispatch in it is permitted, and it ends in `t`. */
  predicate RunsTo(s: Sys, actions: seq<Action>, t: Sys) {
    Valid(s, actions) && PermittedRun(s, actions) && Exec(s, actions) == t
  }

  lemma OneMore(s: Sys, a: Action, t: Sys, rest: seq<Action>, u: Sys)
    requires Enabled(s, a) && Permitted(s, a) && Next(s, a) == t && RunsTo(t, rest, u)
    ensures RunsTo(s, [a] + rest, u)
  {
    assert ([a] + rest)[1..] == rest;
  }

  lemma {:induction false} RunsJoin(s: Sys, first: seq<Action>, t: Sys, second: seq<Action>, u: Sys)
    requires RunsTo(s, first, t) && RunsTo(t, second, u)
    ensures RunsTo(s, first + second, u)
    decreases |first|
  {
    if first == [] {
      assert first + second == second;
    } else {
      RunsJoin(Next(s, first[0]), first[1..], t, second, u);
      OneMore(s, first[0], Next(s, first[0]), first[1..] + second, u);
      assert [first[0]] + (first[1..] + second) == first + second;
    }
  }

  /** A row whose image is to be built, as a redeploy or a rollback leaves it. */
  predicate AwaitsBuild(row: Row, images: set<Generation>) {
    && row.NeedsBuild(images) && row.phase.Queued? && row.status.Restarting? && row.desired.ToRun?
    && row.version == Some(row.image) && row.previous.Some?
  }

  /** The builder task of that row once it holds a build slot. */
  function InSlot(s: Sys): Sys {
    s.(row := s.row.(phase := InBuild), pc := Compiling(s.row), snap := None)
  }

  /** The row once that build has failed and it went back to the image it superseded. */
  function BuildReverted(s: Sys): Sys
    requires s.row.previous.Some?
  {
    s.(row := s.row.(version := s.row.previous, image := s.row.previous.value, context := false, pending := None,
                     phase := Later, status := Running),
       pc := Idle, snap := None)
  }

  lemma BuildStarts(s: Sys) returns (actions: seq<Action>)
    requires AwaitsBuild(s.row, s.images)
    ensures RunsTo(s, actions, InSlot(s))
  {
    var t := InSlot(s);
    var s1 := s.(pc := Idle, snap := None);
    var s2 := s1.(snap := Some(s.row));
    var s3 := s1.(pc := Waiting(s.row));
    actions := [Task(TakeSlot)];
    OneMore(s3, Task(TakeSlot), t, [], t);
    actions := [Tick(Dispatch(true, true))] + actions;
    OneMore(s2, Tick(Dispatch(true, true)), s3, actions[1..], t);
    actions := [Tick(Fetch)] + actions;
    OneMore(s1, Tick(Fetch), s2, actions[1..], t);
    actions := [Outside(Crash)] + actions;
    OneMore(s, Outside(Crash), s1, actions[1..], t);
  }

  lemma FailedBuildReverts(s: Sys) returns (actions: seq<Action>)
    requires AwaitsBuild(s.row, s.images) && s.Present()
    ensures RunsTo(InSlot(s), actions, BuildReverted(s))
  {
    var t := InSlot(s);
    var u := BuildReverted(s);
    var f := Failure(t.pc.job, t.row.image, false, false, false);
    var s1 := t.(pc := Looking(f));
    var s2 := t.(pc := Rereading(f));
    var s3 := t.(pc := Reverting(f, t.row));
    actions := [Settle(Revert)];
    OneMore(s3, Settle(Revert), u, [], u);
    actions := [Settle(Reread)] + actions;
    OneMore(s2, Settle(Reread), s3, actions[1..], u);
    actions := [Settle(Look)] + actions;
    OneMore(s1, Settle(Look), s2, actions[1..], u);
    actions := [Task(BuildFails)] + actions;
    OneMore(t, Task(BuildFails), s1, actions[1..], u);
  }

  lemma TickReleases(s: Sys) returns (actions: seq<Action>)
    requires s.pc.Idle? && s.snap.None? && !s.row.context && s.row.pending.None?
    requires s.row.status.Running? && s.row.desired.ToRun?
    ensures RunsTo(s, actions, s.(pc := Swapping(s.row)))
  {
    var u := s.(pc := Swapping(s.row));
    actions := [Tick(Dispatch(false, true))];
    OneMore(s.(snap := Some(s.row)), Tick(Dispatch(false, true)), u, [], u);
    actions := [Tick(Fetch)] + actions;
    OneMore(s, Tick(Fetch), s.(snap := Some(s.row)), actions[1..], u);
  }

  /** A build that fails over a live container ends with the gate releasing the image gone back to. */
  lemma FailedBuildReleasesFallback(s: Sys) returns (actions: seq<Action>, t: Sys)
    requires AwaitsBuild(s.row, s.images) && s.Present()
    ensures RunsTo(s, actions, t) && t.pc.Swapping? && Some(t.pc.job.image) == s.row.previous
    ensures Some(t.row.image) == s.row.previous && t.row.pending.None? && t.dirty == s.dirty
  {
    var first := BuildStarts(s);
    var second := FailedBuildReverts(s);
    var u := BuildReverted(s);
    var third := TickReleases(u);
    t := u.(pc := Swapping(u.row));
    RunsJoin(InSlot(s), second, u, third, t);
    actions := first + (second + third);
    RunsJoin(s, first, InSlot(s), second + third, t);
  }

  /**
   * The other half: from every state in which a redeploy lands on a live unmigrated generation, a
   * run of permitted steps alone (a crash, a failed build, prompt ticks) ends with the gate
   * releasing the swap of that very image, its marker gone and no release having succeeded.
   */
  lemma UnsafeRedeployOpensTheGate(s: Sys, release: bool) returns (actions: seq<Action>, t: Sys)
    requires !RedeploySafe(s)
    ensures RunsTo(DoOutside(s, Redeploy(release)), actions, t)
    ensures t.pc.Swapping? && t.pc.job.image == s.row.image && t.pc.job.image in t.dirty
    ensures t.row.image == s.row.image && t.row.pending.None?
  {
    actions, t := FailedBuildReleasesFallback(DoOutside(s, Redeploy(release)));
  }

  /**
   * The same for rollbacks: from every state in which one leaves an armed generation under a live
   * container for an image that was never built, the failed build of that image brings the
   * unmigrated one back without its marker.
   */
  lemma UnsafeRollbackOpensTheGate(s: Sys) returns (actions: seq<Action>, t: Sys)
    requires Inv(s) && CanOutside(s, Rollback)
    requires s.row.Armed() && s.Present() && s.row.context && s.row.previous.value !in s.images
    ensures RunsTo(DoOutside(s, Rollback), actions, t)
    ensures t.pc.Swapping? && t.pc.job.image == s.row.image && t.pc.job.image in t.dirty
    ensures t.row.image == s.row.image && t.row.pending.None?
  {
    actions, t := FailedBuildReleasesFallback(DoOutside(s, Rollback));
  }

  /**
   * A rollback onto a generation that owes its release pops the marker with it: from every such state
   * the gate ends up releasing that image, at once if it is there and else once it has been built and
   * the daemon died before the new marker.
   */
  lemma RollbackOntoAnOwingGenerationOpensTheGate(s: Sys) returns (actions: seq<Action>, t: Sys)
    requires CanOutside(s, Rollback) && s.row.previous.value in s.dirty
    ensures RunsTo(DoOutside(s, Rollback), actions, t)
    ensures t.pc.Swapping? && Some(t.pc.job.image) == s.row.previous && t.pc.job.image in t.dirty
    ensures Some(t.row.image) == s.row.previous && t.row.pending.None?
  {
    var u := DoOutside(s, Rollback);
    if u.row.NeedsBuild(u.images) {
      actions := BuildStarts(u);
      actions, t := Then(u, actions, InSlot(u), Task(BuildOk));
    } else {
      actions, t := [], u;
    }
    actions, t := Then(u, actions, t, Outside(Crash));
    actions, t := Then(u, actions, t, Tick(Fetch));
    actions, t := Then(u, actions, t, Tick(Dispatch(true, true)));
  }

  /**
   * Why a row that has moved on must owe nothing when an older snapshot releases its swap: a redeploy
   * over it, with nothing serving, is followed by that launch, and its failed build then goes back to
   * the unmigrated image.
   */
  lemma SwapBesideAnOwingGenerationOpensTheGate(s: Sys, release: bool, born: ContainerId)
    returns (actions: seq<Action>, t: Sys)
    requires s.pc.Swapping? && s.pc.job.image in s.images && s.row.image in s.dirty && !s.Present() && born !in s.known
    requires s.row.version == Some(s.row.image) && s.row.image <= s.row.highWater
    requires s.pc.job.version == Some(s.pc.job.image) && s.pc.job.image <= s.row.highWater
    ensures RunsTo(s, actions, t)
    ensures t.pc.Swapping? && t.pc.job.image == s.row.image && t.pc.job.image in t.dirty
    ensures t.row.image == s.row.image && t.row.pending.None?
  {
    var rest, u;
    actions, u := Then(s, [], s, Outside(Redeploy(release)));
    actions, u := Then(s, actions, u, Tick(Launch(born)));
    actions, u := Then(s, actions, u, Outside(Restart));
    rest, t := FailedBuildReleasesFallback(u);
    RunsJoin(s, actions, u, rest, t);
    actions := actions + rest;
  }

  /** One more permitted step at the end of a run. */
  lemma Then(s: Sys, actions: seq<Action>, t: Sys, a: Action) returns (longer: seq<Action>, u: Sys)
    requires RunsTo(s, actions, t) && Enabled(t, a) && Permitted(t, a)
    ensures u == Next(t, a) && RunsTo(s, longer, u)
  {
    u := Next(t, a);
    longer := actions + [a];
    OneMore(t, a, u, [], u);
    assert [a] + [] == [a];
    RunsJoin(s, actions, t, [a], u);
  }

  /** A first deploy without a release command, once it is built. */
  lemma FirstDeployBuilds(s: Sys) returns (actions: seq<Action>)
    requires Initial(s) && !s.row.release && s.images == {} && s.known == {}
    ensures RunsTo(s, actions, s.(row := s.row.(phase := InBuild), images := {1}))
  {
    var t;
    actions, t := Then(s, [], s, Tick(Fetch));
    actions, t := Then(s, actions, t, Tick(Dispatch(false, true)));
    actions, t := Then(s, actions, t, Task(TakeSlot));
    actions, t := Then(s, actions, t, Task(BuildOk));
    actions, t := Then(s, actions, t, Task(ReleaseRead));
    actions, t := Then(s, actions, t, Task(Prune({})));
  }

  lemma FirstDeployLaunches(s: Sys, c: ContainerId) returns (actions: seq<Action>, t: Sys)
    requires s.pc.Idle? && s.snap.None? && s.images == {s.row.image} && s.known == {}
    requires s.row.status.Building? && s.row.desired.ToRun? && s.row.phase.InBuild? && !s.row.Armed()
    ensures RunsTo(s, actions, t) && t.pc.Idle? && t.snap.None? && t.dirty == s.dirty && t.images == s.images
    ensures t.Present() && t.row == s.row.(phase := Later, status := Running, container := Some(c))
  {
    actions, t := Then(s, [], s, Tick(Fetch));
    actions, t := Then(s, actions, t, Tick(Dispatch(false, true)));
    actions, t := Then(s, actions, t, Tick(Launch(c)));
  }

  /** Two redeploys before the first of them is built; the second one is built. */
  lemma TwoRedeploys(s: Sys) returns (actions: seq<Action>, t: Sys)
    requires s.pc.Idle? && s.snap.None? && s.dirty == {} && s.images == {1} && s.Present()
    requires s.row.version == Some(1) && s.row.highWater == 1
    ensures RunsTo(s, actions, t) && t.pc.Gating? && t.pc.job.image == 3 && t.row.version == Some(3) && t.row.release
    ensures t.Present() && t.row.context && t.row.previous == Some(2) && t.images == {1, 3} && t.dirty == {}
  {
    actions, t := Then(s, [], s, Outside(Redeploy(true)));
    actions, t := Then(s, actions, t, Outside(Redeploy(true)));
    actions, t := Then(s, actions, t, Tick(Fetch));
    actions, t := Then(s, actions, t, Tick(Dispatch(true, true)));
    actions, t := Then(s, actions, t, Task(TakeSlot));
    actions, t := Then(s, actions, t, Task(BuildOk));
  }

  /** A crash while its release runs leaves the generation wedged. */
  lemma CrashWedges(s: Sys) returns (actions: seq<Action>, t: Sys)
    requires s.pc.Gating? && s.row.version == Some(s.pc.job.image) && s.row.release
    ensures RunsTo(s, actions, t) && t.pc.Idle? && t.row.Armed() && t.images == s.images
    ensures t.row == s.row.(pending := s.row.version) && t.known == s.known
  {
    actions, t := Then(s, [], s, Task(ReleaseRead));
    actions, t := Then(s, actions, t, Task(ArmRead));
    actions, t := Then(s, actions, t, Task(ArmWrite));
    actions, t := Then(s, actions, t, Outside(Crash));
  }

  /** Such a state is reached by permitted steps from a first deploy. */
  lemma UnsafeRollbackIsReachable(s: Sys, c: ContainerId) returns (actions: seq<Action>, t: Sys)
    requires Initial(s) && !s.row.release && s.images == {} && s.known == {}
    ensures RunsTo(s, actions, t) && Inv(t) && CanOutside(t, Rollback)
    ensures t.row.Armed() && t.Present() && t.row.context && t.row.previous.value !in t.images
  {
    var first := FirstDeployBuilds(s);
    var built := s.(row := s.row.(phase := InBuild), images := {1});
    var second, served := FirstDeployLaunches(built, c);
    var third, gating := TwoRedeploys(served);
    var fourth;
    fourth, t := CrashWedges(gating);
    RunsJoin(s, first, built, second, served);
    RunsJoin(s, first + second, served, third, gating);
    actions := first + second + third + fourth;
    RunsJoin(s, first + second + third, gating, fourth, t);
    RunKeeps(s, actions);
  }

  // --- snapshots: why the tick must act on the row as it is ------------------------------------

  predicate Fresh(s: Sys) {
    Initial(s) && s.row.release && s.images == {} && s.known == {}
  }

  /** The first deploy, up to the state in which its release is armed and its command runs. */
  function Armed(s: Sys, snap: Option<Row>): Sys
    requires Fresh(s)
  {
    var row := s.row.(phase := InBuild);
    s.(row := row.(pending := Some(1)), images := {1}, pc := Migrating(s.row, row), snap := snap, dirty := {1})
  }

  /** A tick may fetch the row before the marker is armed and hold on to it while the release runs. */
  lemma FetchedBeforeArming(s: Sys) returns (actions: seq<Action>)
    requires Fresh(s)
    ensures RunsTo(s, actions, Armed(s, Some(s.row.(phase := InBuild))))
  {
    var row := s.row.(phase := InBuild);
    var u := Armed(s, Some(row));
    var s1 := s.(snap := Some(s.row));
    var s2 := s.(pc := Waiting(s.row));
    var s3 := s.(row := row, pc := Compiling(s.row));
    var s4 := s3.(snap := Some(row));
    var s5 := s4.(images := {1}, pc := Gating(s.row));
    var s6 := s5.(pc := ArmReading(s.row, row));
    var s7 := s5.(pc := ArmWriting(s.row, row));
    actions := [Task(ArmWrite)];
    OneMore(s7, Task(ArmWrite), u, [], u);
    actions := [Task(ArmRead)] + actions;
    OneMore(s6, Task(ArmRead), s7, actions[1..], u);
    actions := [Task(ReleaseRead)] + actions;
    OneMore(s5, Task(ReleaseRead), s6, actions[1..], u);
    actions := [Task(BuildOk)] + actions;
    OneMore(s4, Task(BuildOk), s5, actions[1..], u);
    actions := [Tick(Fetch)] + actions;
    OneMore(s3, Tick(Fetch), s4, actions[1..], u);
    actions := [Task(TakeSlot)] + actions;
    OneMore(s2, Task(TakeSlot), s3, actions[1..], u);
    actions := [Tick(Dispatch(false, true))] + actions;
    OneMore(s1, Tick(Dispatch(false, true)), s2, actions[1..], u);
    actions := [Tick(Fetch)] + actions;
    OneMore(s, Tick(Fetch), s1, actions[1..], u);
  }

  lemma ReleaseFails(s: Sys, snap: Row) returns (actions: seq<Action>, t: Sys)
    requires Fresh(s)
    ensures RunsTo(Armed(s, Some(snap)), actions, t)
    ensures t.pc.Idle? && t.snap == Some(snap) && t.dirty == {1} && t.images == {1}
    ensures t.row.image == 1 && t.row.status.Failed? && t.row.Armed() && !t.Present()
  {
    var s0 := Armed(s, Some(snap));
    var f := Failure(s0.pc.current, 1, true, true, false);
    var s1 := s0.(pc := Looking(f));
    var s2 := s0.(pc := GivingUp(f));
    var s3 := s0.(row := s0.row.(status := Failed, desired := GivenUp), pc := Stamping(f));
    t := s3.(row := s3.row.(phase := Later), pc := Idle);
    actions := [Settle(Stamp)];
    OneMore(s3, Settle(Stamp), t, [], t);
    actions := [Settle(GiveUp)] + actions;
    OneMore(s2, Settle(GiveUp), s3, actions[1..], t);
    actions := [Settle(Look)] + actions;
    OneMore(s1, Settle(Look), s2, actions[1..], t);
    actions := [Task(MigrateFails)] + actions;
    OneMore(s0, Task(MigrateFails), s1, actions[1..], t);
  }

  /**
   * Layer 3 reads the tick's snapshot. A snapshot fetched before the marker was armed, whose turn
   * comes after the release has failed, releases the swap of the failed image although the row
   * itself is failed, given up and armed.
   */
  lemma StaleSnapshotReleasesAFailedRelease(s: Sys) returns (actions: seq<Action>, t: Sys)
    requires Fresh(s)
    ensures RunsTo(s, actions, t) && Inv(t) && t.pc.Idle? && t.row.Armed() && t.row.image in t.dirty
    ensures Enabled(t, Tick(Dispatch(false, true)))
    ensures DoDispatch(t, false, true).pc.Swapping? && DoDispatch(t, false, true).pc.job.image in t.dirty
  {
    var snap := s.row.(phase := InBuild);
    var first := FetchedBeforeArming(s);
    var second;
    second, t := ReleaseFails(s, snap);
    actions := first + second;
    RunsJoin(s, first, Armed(s, Some(snap)), second, t);
    RunKeeps(s, actions);
  }

  /** A generation whose release failed becomes the rollback target of the redeploy that follows. */
  lemma OwingRollbackTargetIsReachable(s: Sys) returns (actions: seq<Action>, t: Sys)
    requires Fresh(s)
    ensures RunsTo(s, actions, t) && Inv(t) && CanOutside(t, Rollback) && t.row.previous.value in t.dirty
  {
    var snap := s.row.(phase := InBuild);
    var second;
    actions := FetchedBeforeArming(s);
    second, t := ReleaseFails(s, snap);
    RunsJoin(s, actions, Armed(s, Some(snap)), second, t);
    actions, t := Then(s, actions + second, t, Outside(Redeploy(true)));
    RunKeeps(s, actions);
  }

  /** The same race the other way: fetched while the release ran, its turn coming after it succeeded. */
  lemma StaleSnapshotSettlesAGoodRelease(s: Sys) returns (actions: seq<Action>, t: Sys)
    requires Fresh(s)
    ensures RunsTo(s, actions, t) && Inv(t) && t.pc.Idle? && t.row.image == 1 && t.dirty == {}
    ensures Enabled(t, Tick(Dispatch(false, true)))
    ensures var u := DoDispatch(t, false, true); u.pc.Looking? && u.pc.f.target == t.row.image
  {
    var snap := s.row.(phase := InBuild);
    var armed := Armed(s, Some(snap.(pending := Some(1))));
    var first := FetchedBeforeArming(s);
    // the tick that fetched too early ends without having had its turn, and the next one fetches
    var s0 := Armed(s, Some(snap));
    var s1 := Armed(s, None);
    var s2 := armed.(pc := ClearReading(s.row));
    var s3 := armed.(pc := ClearWriting(s.row));
    var s4 := armed.(row := snap, dirty := {}, pc := Pruning(s.row));
    t := s4.(pc := Idle);
    actions := [Task(Prune({}))];
    OneMore(s4, Task(Prune({})), t, [], t);
    actions := [Task(ClearWrite)] + actions;
    OneMore(s3, Task(ClearWrite), s4, actions[1..], t);
    actions := [Task(ClearRead)] + actions;
    OneMore(s2, Task(ClearRead), s3, actions[1..], t);
    actions := [Task(MigrateOk)] + actions;
    OneMore(armed, Task(MigrateOk), s2, actions[1..], t);
    actions := [Tick(Fetch)] + actions;
    OneMore(s1, Tick(Fetch), armed, actions[1..], t);
    actions := [Tick(Dispatch(false, true))] + actions;
    OneMore(s0, Tick(Dispatch(false, true)), s1, actions[1..], t);
    RunsJoin(s, first, s0, actions, t);
    actions := first + actions;
    RunKeeps(s, actions);
  }

  /** The row of a redeploy over a live service, with its release armed and running. */
  function ReleasingOverLive(s: Sys): Sys {
    var row := RedeployedRow(s.row, true);
    var building := row.(phase := InBuild);
    s.(row := building.(pending := Some(row.image)), images := s.images + {row.image},
       pc := Migrating(row, building), snap := Some(building), dirty := s.dirty + {row.image})
  }

  /** A tick fetches while the redeploy still builds, and holds on to what it read. */
  lemma RedeployBuildsOverLive(s: Sys) returns (actions: seq<Action>)
    requires Inv(s) && s.pc.Idle? && s.snap.None? && s.Present() && s.row.image !in s.dirty
    ensures RunsTo(s, actions, ReleasingOverLive(s))
  {
    var row := RedeployedRow(s.row, true);
    var t;
    actions, t := Then(s, [], s, Outside(Redeploy(true)));
    actions, t := Then(s, actions, t, Tick(Fetch));
    actions, t := Then(s, actions, t, Tick(Dispatch(true, true)));
    actions, t := Then(s, actions, t, Task(TakeSlot));
    actions, t := Then(s, actions, t, Tick(Fetch));
    actions, t := Then(s, actions, t, Task(BuildOk));
    actions, t := Then(s, actions, t, Task(ReleaseRead));
    assert t.pc == ArmReading(row, row.(phase := InBuild));
    actions, t := Then(s, actions, t, Task(ArmRead));
    actions, t := Then(s, actions, t, Task(ArmWrite));
  }

  lemma ReleaseFailsOverLive(s: Sys) returns (actions: seq<Action>, t: Sys)
    requires Inv(s) && s.Present()
    ensures RunsTo(ReleasingOverLive(s), actions, t)
    ensures t.pc.Idle? && t.row.image == s.row.image && t.row.status.Running?
    ensures var u := ReleasingOverLive(s); t.snap == u.snap && t.dirty == u.dirty && t.images == u.images
  {
    var u := ReleasingOverLive(s);
    actions, t := Then(u, [], u, Task(MigrateFails));
    actions, t := Then(u, actions, t, Settle(Look));
    actions, t := Then(u, actions, t, Settle(Reread));
    actions, t := Then(u, actions, t, Settle(Revert));
    actions, t := Then(u, actions, t, Settle(Reclaim));
    actions, t := Then(u, actions, t, Settle(Remove(false)));
  }

  /**
   * The row may have left the snapshot's image altogether: a failed release over a live container is
   * reverted, and a snapshot fetched before its marker was armed still releases the candidate's swap.
   */
  lemma StaleSnapshotReleasesARevertedCandidate(s: Sys) returns (actions: seq<Action>, t: Sys)
    requires Inv(s) && s.pc.Idle? && s.snap.None? && s.Present() && s.row.image !in s.dirty
    ensures RunsTo(s, actions, t) && Inv(t) && t.pc.Idle? && t.row.image == s.row.image && t.row.status.Running?
    ensures Enabled(t, Tick(Dispatch(true, true)))
    ensures var u := DoDispatch(t, true, true);
      u.pc.Swapping? && u.pc.job.image == s.row.highWater + 1 && u.pc.job.image in u.dirty
  {
    var first := RedeployBuildsOverLive(s);
    var second;
    second, t := ReleaseFailsOverLive(s);
    actions := first + second;
    RunsJoin(s, first, ReleasingOverLive(s), second, t);
    RunKeeps(s, actions);
  }

  /**
   * A tick's decision on a snapshot lets through only an image that owes no release, and settles
   * only one that does, exactly when the snapshot's marker tells what its image owes now; as long as
   * the row has not left that image, exactly when snapshot and row agree on the marker.
   */
  lemma SnapshotDecidesRightlyExactlyWhen(s: Sys, live: bool, onDisk: bool)
    requires Inv(s) && s.pc.Idle? && s.snap.Some?
    requires var job := s.snap.value;
      && !job.desired.ToStop? && job.Converging(live) && !job.NeedsBuild(s.images)
      && job.version == Some(job.image)
    ensures var t := DoDispatch(s, live, onDisk);
      (t.pc.Swapping? ==> t.pc.job.image !in s.dirty) && (t.pc.Looking? ==> t.pc.f.target in s.dirty)
      <==> (if s.snap.value.image == s.row.image then s.snap.value.Armed() == s.row.Armed()
            else s.snap.value.Armed() == (s.snap.value.image in s.dirty))
  {
  }

  // --- the settle and newer generations --------------------------------------------------------

  function TargetOf(pc: Pc): Option<Generation> {
    match pc
    case Looking(f) => Some(f.target)
    case Rereading(f) => Some(f.target)
    case Reverting(f, _) => Some(f.target)
    case GivingUp(f) => Some(f.target)
    case Stamping(f) => Some(f.target)
    case _ => None
  }

  /** A settle is under way, or over, and another generation owns the row. */
  predicate Superseded(s: Sys) {
    && (s.pc.Idle? || IsSettling(s.pc)) && s.row.version.Some?
    && (TargetOf(s.pc).Some? ==> TargetOf(s.pc).value <= s.row.highWater && s.row.version != TargetOf(s.pc))
  }

  /** The settle's own steps, and everything around it but a rollback onto the very generation it settles. */
  predicate SettleOrAround(s: Sys, a: Action) {
    || a.Settle? || a == Tick(Fetch)
    || (a.Outside? && (a.o.Rollback? ==> s.row.previous != TargetOf(s.pc)))
  }

  predicate SettleRun(s: Sys, actions: seq<Action>)
    requires Valid(s, actions)
    decreases |actions|
  {
    actions == [] || (SettleOrAround(s, actions[0]) && SettleRun(Next(s, actions[0]), actions[1..]))
  }

  /** What the row becomes under the surrounding steps alone. */
  function Around(row: Row, actions: seq<Action>): Row
    decreases |actions|
  {
    if actions == [] then row
    else
      var next := match actions[0]
        case Outside(Redeploy(release)) => RedeployedRow(row, release)
        case Outside(Rollback) => if row.previous.Some? then RolledBackRow(row) else row
        case Outside(Restart) => row.(status := Restarting, desired := ToRun)
        case Outside(Stop) => row.(desired := ToStop)
        case _ => row;
      Around(next, actions[1..])
  }

  /**
   * A settle interleaved at every await with redeploys, rollbacks onto other generations, restarts,
   * stops and crashes leaves no trace on another generation: the row ends exactly as if the settle
   * had not run.
   */
  lemma {:induction false} SettleNeverTouchesANewerGeneration(s: Sys, actions: seq<Action>)
    requires Superseded(s) && Valid(s, actions) && SettleRun(s, actions)
    ensures Exec(s, actions).row == Around(s.row, actions)
    decreases |actions|
  {
    if actions != [] {
      SettleNeverTouchesANewerGeneration(Next(s, actions[0]), actions[1..]);
    }
  }

  /**
   * The condition on rollbacks is needed. A redeploy and a rollback between the settle's fresh read
   * and its guarded write bring the version back to the target: the write lands, moves the row off
   * the image the operator chose, and sets the version allocator back, so that the next redeploy
   * takes a tag that is already in use.
   */
  lemma RollbackInsideASettleReusesAVersion(s: Sys, release: bool)
    requires s.pc.Reverting? && !SlotHeld(s.pc) && s.pc.blob == s.row && s.row.version == Some(s.pc.f.target)
    requires s.row.version == Some(s.row.image)
    ensures var s1 := DoOutside(s, Redeploy(release));
      && CanOutside(s1, Rollback)
      && var s2 := DoOutside(s1, Rollback);
      && s2.row.image == s.row.image && s2.row.rolledBack
      && var s3 := DoSettle(s2, Revert);
      && (s.row.previous.Some? ==> s3.row.image == s.row.previous.value)
      && RedeployedRow(s3.row, release).version == s1.row.version
  {
  }

  /** The candidate tag is offered for removal only by the write that strips the build markers. */
  lemma ReclaimableMeansStripped(s: Sys, a: Action)
    requires Enabled(s, a) && !s.pc.Reclaiming? && Next(s, a).pc.Reclaiming?
    ensures var t := Next(s, a);
      && t.pc.tag == s.pc.f.target && s.row.version == Some(t.pc.tag)
      && !t.row.context && t.row.pending.None? && t.row.status.Running?
  {
  }

  /** Whatever redeploys and restarts follow, removing the tag never makes the row build again. */
  lemma RemovalNeverCausesABuild(s: Sys, removed: bool)
    requires Inv(s) && s.pc.Removing?
    ensures var t := DoSettle(s, Remove(removed));
      && t.row.NeedsBuild(t.images) == s.row.NeedsBuild(s.images)
      && s.pc.tag != s.row.image && Some(s.pc.tag) != s.row.previous
  {
  }
}
