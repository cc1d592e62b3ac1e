/** The invariant of the release gate, and that every permitted step keeps it. */
module ReleaseSafety {
  import opened Common
  import opened ReleaseMachine

  /** The generation a revert would go back to exists, is not the failed one, and owes no release. */
  predicate FallbackSound(row: Row, dirty: set<Generation>) {
    row.previous.Some? && row.previous.value !in dirty && row.previous.value != row.image
  }

  predicate RowFits(row: Row, dirty: set<Generation>) {
    && row.version == Some(row.image) && row.image <= row.highWater
    && (row.previous.Some? ==> row.previous.value <= row.highWater)
    && (row.pending.Some? ==> row.pending.value <= row.highWater)
    && (forall d <- dirty :: d <= row.highWater)
    && (row.context ==> row.previous != Some(row.image))
    && (row.image in dirty ==> row.release)
  }

  /** The marker of the row's generation is there exactly while that generation owes its release. */
  predicate MarkerTellsTruth(row: Row, dirty: set<Generation>) {
    row.image in dirty <==> row.Armed()
  }

  /** The container the holder of `job` would go back to is still there, or the row's own is. */
  predicate MayGoBack(s: Sys, job: Row) {
    s.Present() || (job.container.Some? && job.container.value in s.known)
  }

  /** While `target` is worked on: it can go back if it has to, and no other generation owes a release. */
  predicate BusyFits(s: Sys, target: Generation, job: Row) {
    && target <= s.row.highWater
    && (s.row.version == Some(target) && MayGoBack(s, job) ==> FallbackSound(s.row, s.dirty))
    && (s.row.image in s.dirty ==> s.row.image == target)
  }

  /** What a settle read of the generation it reverts, and where the revert would go back to. */
  predicate BlobFits(row: Row, blob: Row, target: Generation, dirty: set<Generation>) {
    && blob.version == Some(target) && blob.image == target && target <= blob.highWater <= row.highWater
    && FallbackSound(blob, dirty) && blob.previous.value <= blob.highWater
    && (forall d <- dirty :: d <= blob.highWater)
  }

  predicate SettleFits(s: Sys) {
    match s.pc
    case Looking(f) => BusyFits(s, f.target, f.job)
    case Rereading(f) =>
      && f.target <= s.row.highWater && (s.row.image in s.dirty ==> s.row.image == f.target)
      && (s.row.version == Some(f.target) ==> FallbackSound(s.row, s.dirty))
    case Reverting(f, blob) =>
      && (s.row.image in s.dirty ==> s.row.image == f.target)
      && BlobFits(s.row, blob, f.target, s.dirty)
    case Reclaiming(tag, _) => tag <= s.row.highWater && s.row.image != tag && s.row.previous != Some(tag)
    case Removing(tag, _) => tag <= s.row.highWater && s.row.image != tag && s.row.previous != Some(tag)
    case _ => true
  }

  /** The row has left the task's generation by a rollback that a failed build could not undo soundly. */
  predicate Stranded(s: Sys, job: Row) {
    s.row.image != job.image && s.row.context && s.Present() && !FallbackSound(s.row, s.dirty)
  }

  predicate BuildFits(s: Sys, job: Row) {
    BusyFits(s, job.image, job) && (Stranded(s, job) ==> s.row.release)
  }

  /** With the release slot held nobody rolls back, and the row still has the release it was taken for. */
  predicate ReleaseFits(s: Sys, job: Row) {
    BusyFits(s, job.image, job) && !Stranded(s, job) && (s.row.image == job.image ==> s.row.release)
  }

  predicate TaskFits(s: Sys) {
    match s.pc
    case Waiting(job) => BuildFits(s, job)
    case Compiling(job) => BuildFits(s, job)
    case Gating(job) => BuildFits(s, job)
    case ArmReading(job, current) => ReleaseFits(s, job) && BusyFits(s, job.image, current)
    case ArmWriting(job, current) => ReleaseFits(s, job) && BusyFits(s, job.image, current)
    case Migrating(job, current) => ReleaseFits(s, job) && BusyFits(s, job.image, current)
    case ClearReading(job) => ReleaseFits(s, job)
    case ClearWriting(job) => ReleaseFits(s, job)
    case Pruning(job) => s.row.image !in s.dirty && !Stranded(s, job)
    case Swapping(job) =>
      && job.image !in s.dirty && s.row.image !in s.dirty
      && (s.Unsettled() ==> FallbackSound(s.row, s.dirty))
    case _ => true
  }

  predicate Inv(s: Sys) {
    && RowFits(s.row, s.dirty)
    && MarkerTellsTruth(s.row, s.dirty)
    && (s.Unsettled() && s.Present() ==> FallbackSound(s.row, s.dirty))
    && SettleFits(s) && TaskFits(s)
  }

  /** A new generation over `s` records a rollback target that owes no release, or nothing to go back for. */
  predicate RedeploySafe(s: Sys) {
    s.row.image !in s.dirty || !s.Present()
  }

  /**
   * A rollback is not onto a generation that owes its release, nor onto an image that was never built
   * while the armed generation it leaves would become the way back of a live service.
   */
  predicate RollbackSafe(s: Sys) {
    s.row.previous.Some? ==>
      && s.row.previous.value !in s.dirty
      && !(s.row.Armed() && s.Present() && s.row.context && s.row.previous.value !in s.images)
  }

  /**
   * The snapshot's marker tells what its image owes: as the row's does if the row still has that image,
   * and what is owed now if it has moved on, to a generation that owes nothing.
   */
  predicate MarkerStillTells(s: Sys, job: Row) {
    if job.image == s.row.image then job.version == s.row.version && job.Armed() == s.row.Armed()
    else
      && job.version == Some(job.image) && job.image <= s.row.highWater
      && s.row.image !in s.dirty && (job.Armed() <==> job.image in s.dirty)
  }

  /**
   * A tick may act on a snapshot the row has moved past, as long as the marker still tells. Where the
   * row could not go back soundly, a build or a settle of the row's own generation is for its own
   * container, a build is one the row needs too, and a swap leaves no build open.
   */
  predicate Prompt(s: Sys, live: bool, onDisk: bool) {
    s.pc.Idle? && s.snap.Some? && !s.snap.value.desired.ToStop? ==>
      var job := s.snap.value;
      match GateVerdict(job, s.images, live, onDisk)
      case Serve => true
      case Hold => true
      case Build => MarkerStillTells(s, job) && (MayBuild(s, job) || FallbackSound(s.row, s.dirty))
      case SettleCrashed => MarkerStillTells(s, job) && (MaySettle(s, job) || FallbackSound(s.row, s.dirty))
      case Release => MarkerStillTells(s, job) && (MaySwap(s, job) || FallbackSound(s.row, s.dirty))
  }

  predicate MayBuild(s: Sys, job: Row) {
    job.image == s.row.image && job.container == s.row.container && s.row.NeedsBuild(s.images)
  }

  predicate MaySettle(s: Sys, job: Row) {
    job.image == s.row.image ==> job.container == s.row.container
  }

  predicate MaySwap(s: Sys, job: Row) {
    job.image == s.row.image && !s.row.NeedsBuild(s.images)
  }

  predicate Permitted(s: Sys, a: Action) {
    match a
    case Outside(Redeploy(_)) => RedeploySafe(s)
    case Outside(Rollback) => RollbackSafe(s)
    case Tick(Dispatch(live, onDisk)) => Prompt(s, live, onDisk)
    case _ => true
  }

  // --- every step keeps the invariant ------------------------------------------------------

  predicate IsBuildStep(a: TaskStep) {
    a.TakeSlot? || a.BuildOk? || a.BuildFails? || a.ReleaseRead? || a.Prune?
  }

  lemma BuildStepKeeps(s: Sys, a: TaskStep)
    requires Inv(s) && CanTask(s, a) && IsBuildStep(a)
    ensures Inv(DoTask(s, a))
  {
  }

  lemma ReleaseStepKeeps(s: Sys, a: TaskStep)
    requires Inv(s) && CanTask(s, a) && !IsBuildStep(a)
    ensures Inv(DoTask(s, a))
  {
  }

  lemma TaskKeeps(s: Sys, a: TaskStep)
    requires Inv(s) && CanTask(s, a)
    ensures Inv(DoTask(s, a))
  {
    if IsBuildStep(a) {
      BuildStepKeeps(s, a);
    } else {
      ReleaseStepKeeps(s, a);
    }
  }

  lemma SettleKeeps(s: Sys, a: SettleStep)
    requires Inv(s) && CanSettle(s, a)
    ensures Inv(DoSettle(s, a))
  {
  }

  lemma SnapKeeps(s: Sys, snap: Option<Row>, t: Sys)
    requires Inv(s) && t == s.(snap := snap)
    ensures Inv(t)
  {
  }

  lemma SpawnKeeps(s: Sys, job: Row, t: Sys)
    requires Inv(s) && s.pc.Idle? && MarkerStillTells(s, job)
    requires MayBuild(s, job) || FallbackSound(s.row, s.dirty)
    requires t == s.(row := if s.row.phase.InBuild? then s.row.(phase := Queued) else s.row, pc := Waiting(job))
    ensures Inv(t)
  {
  }

  lemma SettleCrashedKeeps(s: Sys, job: Row, t: Sys)
    requires Inv(s) && s.pc.Idle? && MarkerStillTells(s, job) && job.Armed()
    requires MaySettle(s, job) || FallbackSound(s.row, s.dirty)
    requires t == s.(pc := Looking(Failure(job, job.pending.value, false, false, true)))
    ensures Inv(t)
  {
  }

  lemma SwapKeeps(s: Sys, job: Row, t: Sys)
    requires Inv(s) && s.pc.Idle? && MarkerStillTells(s, job) && !job.Armed()
    requires MaySwap(s, job) || FallbackSound(s.row, s.dirty)
    requires t == s.(pc := Swapping(job))
    ensures Inv(t)
  {
  }

  lemma DispatchKeeps(s: Sys, live: bool, onDisk: bool)
    requires Inv(s) && s.snap.Some? && Prompt(s, live, onDisk) && (s.pc.Idle? || TaskInFlight(s.pc))
    ensures Inv(DoDispatch(s, live, onDisk))
  {
    var job, t := s.snap.value, s.(snap := None);
    SnapKeeps(s, None, t);
    if !TaskInFlight(s.pc) && !job.desired.ToStop? {
      match GateVerdict(job, s.images, live, onDisk)
      case Serve =>
      case Hold =>
      case Build => SpawnKeeps(t, job, DoDispatch(s, live, onDisk));
      case SettleCrashed => SettleCrashedKeeps(t, job, DoDispatch(s, live, onDisk));
      case Release => SwapKeeps(t, job, DoDispatch(s, live, onDisk));
    }
  }

  lemma TickKeeps(s: Sys, a: TickStep)
    requires Inv(s) && CanTick(s, a) && (a.Dispatch? ==> Prompt(s, a.live, a.onDisk))
    ensures Inv(DoTick(s, a))
  {
    match a
    case Fetch =>
    case Dispatch(live, onDisk) => DispatchKeeps(s, live, onDisk);
    case Launch(born) =>
    case LaunchFails =>
  }

  lemma LifecycleKeeps(s: Sys, status: Status, desired: Desired, t: Sys)
    requires Inv(s) && t == s.(row := s.row.(status := status, desired := desired))
    ensures Inv(t)
  {
    assert t.Present() == s.Present() && t.Unsettled() == s.Unsettled();
    assert FallbackSound(t.row, t.dirty) == FallbackSound(s.row, s.dirty);
    assert SettleFits(t);
    assert TaskFits(t);
  }

  lemma CrashKeeps(s: Sys, t: Sys)
    requires Inv(s) && t == s.(pc := Idle, snap := None)
    ensures Inv(t)
  {
  }

  lemma OutsideKeeps(s: Sys, a: OutsideStep)
    requires Inv(s) && CanOutside(s, a)
    requires (a.Redeploy? ==> RedeploySafe(s)) && (a.Rollback? ==> RollbackSafe(s))
    ensures Inv(DoOutside(s, a))
  {
    match a
    case Redeploy(release) => RedeployKeeps(s, release);
    case Rollback => RollbackKeeps(s);
    case Restart => LifecycleKeeps(s, Restarting, ToRun, DoOutside(s, a));
    case Stop => LifecycleKeeps(s, s.row.status, ToStop, DoOutside(s, a));
    case Vanish(gone) => VanishKeeps(s, gone, DoOutside(s, a));
    case Crash => CrashKeeps(s, DoOutside(s, a));
  }

  lemma VanishKeeps(s: Sys, gone: ContainerId, t: Sys)
    requires Inv(s) && t == s.(known := s.known - {gone})
    ensures Inv(t)
  {
  }

  lemma RedeployKeeps(s: Sys, release: bool)
    requires Inv(s) && RedeploySafe(s)
    ensures Inv(s.(row := RedeployedRow(s.row, release)))
  {
  }

  lemma RollbackKeeps(s: Sys)
    requires Inv(s) && CanOutside(s, Rollback) && RollbackSafe(s)
    ensures Inv(s.(row := RolledBackRow(s.row)))
  {
  }

  lemma StepKeeps(s: Sys, a: Action)
    requires Inv(s) && Enabled(s, a) && Permitted(s, a)
    ensures Inv(Next(s, a))
  {
    match a
    case Task(t) => TaskKeeps(s, t);
    case Settle(t) => SettleKeeps(s, t);
    case Tick(k) => TickKeeps(s, k);
    case Outside(o) => OutsideKeeps(s, o);
  }
}
