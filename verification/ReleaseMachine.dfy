/**
 * One service's deploy generations as a state machine: the builder task that builds an image and
 * runs its release command, the reconcile tick with its three-layer swap gate, and the settle both
 * share. Every awaited operation is one step; redeploys, rollbacks, restarts, vanishing containers
 * and crashes may happen between any two. The row, the images and the containers survive a crash.
 */
module ReleaseMachine {
  import opened Common

  type ContainerId = nat

  /** Image tags are `repo:n`; a generation number stands for its tag. */
  type Generation = nat

  datatype Status = Building | Restarting | Running | Failed

  /** `desired_state`; a failed row that is given up is not fetched by ticks until a redeploy or restart. */
  datatype Desired = ToRun | ToStop | GivenUp

  /** `last_deploy.phase`, as far as the build predicate tells phases apart. */
  datatype Phase = Queued | InBuild | Later

  /** The columns and config keys of the job row that building, releasing and settling touch. */
  datatype Row = Row(
    version: Option<Generation>,
    highWater: Generation,
    image: Generation,
    previous: Option<Generation>,
    pending: Option<Generation>,
    context: bool,
    release: bool,
    phase: Phase,
    rolledBack: bool,
    status: Status,
    desired: Desired,
    container: Option<ContainerId>)
  {
    /** `release_pending` names the row's own generation: what arms layer 3 of the gate. */
    predicate Armed() {
      pending.Some? && pending == version
    }

    predicate NeedsBuild(images: set<Generation>) {
      context && (image !in images || (phase.Queued? && !rolledBack))
    }

    predicate Converging(live: bool) {
      !live || status.Building? || status.Restarting?
    }
  }

  /** A failed generation on its way to being settled; `job` is the snapshot the caller holds. */
  datatype Failure = Failure(job: Row, target: Generation, reclaims: bool, slot: bool, byTick: bool)

  datatype Pc =
    | Idle
      // the builder task; `job` is the row as it was when the task was spawned
    | Waiting(job: Row)
    | Compiling(job: Row)
    | Gating(job: Row)
    | ArmReading(job: Row, current: Row)
    | ArmWriting(job: Row, current: Row)
    | Migrating(job: Row, current: Row)
    | ClearReading(job: Row)
    | ClearWriting(job: Row)
    | Pruning(job: Row)
      // the settle shared by the task and the tick
    | Looking(f: Failure)
    | Rereading(f: Failure)
    | Reverting(f: Failure, blob: Row)
    | GivingUp(f: Failure)
    | Stamping(f: Failure)
      // the reclaim of a failed candidate's tag
    | Reclaiming(tag: Generation, slot: bool)
    | Removing(tag: Generation, slot: bool)
      // the gate let the tick through: the row's image replaces what serves
    | Swapping(job: Row)

  /**
   * `known` are the containers the runtime still knows, running or exited; `snap` is the row as
   * the current tick fetched it. `dirty` is history: the generations whose release was armed and
   * whose marker no successful release has cleared since.
   */
  datatype Sys = Sys(
    row: Row,
    images: set<Generation>,
    known: set<ContainerId>,
    pc: Pc,
    snap: Option<Row>,
    dirty: set<Generation>)
  {
    predicate Present() {
      row.container.Some? && row.container.value in known
    }

    predicate Unsettled() {
      row.Armed() || row.NeedsBuild(images)
    }
  }

  /** A build or release task is registered for the row. */
  predicate TaskInFlight(pc: Pc) {
    match pc
    case Idle => false
    case Swapping(_) => false
    case Looking(f) => !f.byTick
    case Rereading(f) => !f.byTick
    case Reverting(f, _) => !f.byTick
    case GivingUp(f) => !f.byTick
    case Stamping(f) => !f.byTick
    case _ => true
  }

  predicate IsSettling(pc: Pc) {
    pc.Looking? || pc.Rereading? || pc.Reverting? || pc.GivingUp? || pc.Stamping? || pc.Reclaiming? || pc.Removing?
  }

  /** The release slot is claimed: rollbacks are refused, plain deploys are not. */
  predicate SlotHeld(pc: Pc) {
    match pc
    case ArmReading(_, _) => true
    case ArmWriting(_, _) => true
    case Migrating(_, _) => true
    case ClearReading(_) => true
    case ClearWriting(_) => true
    case Looking(f) => f.slot
    case Rereading(f) => f.slot
    case Reverting(f, _) => f.slot
    case GivingUp(f) => f.slot
    case Stamping(f) => f.slot
    case Reclaiming(_, slot) => slot
    case Removing(_, slot) => slot
    case _ => false
  }

  // --- steps -------------------------------------------------------------------------------

  datatype TaskStep =
    | TakeSlot
    | BuildOk
    | BuildFails
      // an exception nobody enumerated escapes the release body
    | Escape
    | ReleaseRead
    | ArmRead
    | ArmWrite
    | MigrateOk
    | MigrateFails
    | ClearRead
    | ClearWrite
    | Prune(gone: set<Generation>)

  datatype SettleStep =
    | Look
    | Reread
    | Revert
    | GiveUp
    | Stamp
    | Reclaim
    | Remove(removed: bool)
      // an exception while settling: the row stays as it is
    | Abandon

  datatype TickStep =
    | Fetch
    | Dispatch(live: bool, onDisk: bool)
    | Launch(born: ContainerId)
    | LaunchFails

  datatype OutsideStep =
    | Redeploy(release: bool)
    | Rollback
    | Restart
    | Stop
    | Vanish(gone: ContainerId)
    | Crash

  datatype Action = Task(t: TaskStep) | Settle(s: SettleStep) | Tick(k: TickStep) | Outside(o: OutsideStep)

  predicate CanTask(s: Sys, a: TaskStep) {
    match a
    case TakeSlot => s.pc.Waiting?
    case BuildOk => s.pc.Compiling?
    case BuildFails => s.pc.Compiling?
    case Escape =>
      s.pc.Gating? || s.pc.ArmReading? || s.pc.ArmWriting? || s.pc.Migrating? || s.pc.ClearReading?
      || s.pc.ClearWriting?
    case ReleaseRead => s.pc.Gating?
    case ArmRead => s.pc.ArmReading?
    case ArmWrite => s.pc.ArmWriting?
    case MigrateOk => s.pc.Migrating?
    case MigrateFails => s.pc.Migrating?
    case ClearRead => s.pc.ClearReading?
    case ClearWrite => s.pc.ClearWriting?
    case Prune(gone) => s.pc.Pruning? && s.pc.job.image !in gone && (s.pc.job.previous.Some? ==> s.pc.job.previous.value !in gone)
  }

  predicate CanSettle(s: Sys, a: SettleStep) {
    match a
    case Look => s.pc.Looking?
    case Reread => s.pc.Rereading?
    case Revert => s.pc.Reverting?
    case GiveUp => s.pc.GivingUp?
    case Stamp => s.pc.Stamping?
    case Reclaim => s.pc.Reclaiming?
    case Remove(_) => s.pc.Removing?
    case Abandon => IsSettling(s.pc)
  }

  predicate CanTick(s: Sys, a: TickStep) {
    match a
    case Fetch => !(s.row.status.Failed? && s.row.desired.GivenUp?) && s.snap.None?
    case Dispatch(_, _) => s.snap.Some? && (s.pc.Idle? || TaskInFlight(s.pc))
    case Launch(born) => s.pc.Swapping? && born !in s.known && s.pc.job.image in s.images
    case LaunchFails => s.pc.Swapping?
  }

  predicate CanOutside(s: Sys, a: OutsideStep) {
    a.Rollback? ==> s.row.previous.Some? && !SlotHeld(s.pc)
  }

  predicate Enabled(s: Sys, a: Action) {
    match a
    case Task(t) => CanTask(s, t)
    case Settle(t) => CanSettle(s, t)
    case Tick(k) => CanTick(s, k)
    case Outside(o) => CanOutside(s, o)
  }

  // --- what the steps do -------------------------------------------------------------------

  function ReleaseFailed(job: Row, target: Generation, slot: bool): Pc {
    Looking(Failure(job, target, true, slot, false))
  }

  function DoTask(s: Sys, a: TaskStep): Sys
    requires CanTask(s, a)
  {
    match a
    case TakeSlot =>
      s.(row := if s.row.phase.Queued? then s.row.(phase := InBuild) else s.row, pc := Compiling(s.pc.job))
    case BuildOk => s.(images := s.images + {s.pc.job.image}, pc := Gating(s.pc.job))
    case BuildFails => s.(pc := Looking(Failure(s.pc.job, s.pc.job.image, false, false, false)))
    case Escape => s.(pc := ReleaseFailed(s.row, s.pc.job.image, false))
    case ReleaseRead =>
      if !s.row.release then s.(pc := Pruning(s.pc.job))
      else if s.row.version != Some(s.pc.job.image) then s.(pc := Idle)
      else s.(pc := ArmReading(s.pc.job, s.row))
    case ArmRead =>
      if s.row.version != Some(s.pc.job.image) then s.(pc := Idle)
      else s.(pc := ArmWriting(s.pc.job, s.pc.current))
    case ArmWrite =>
      if s.row.version != Some(s.pc.job.image) then s.(pc := Idle)
      else s.(row := s.row.(pending := Some(s.pc.job.image)), dirty := s.dirty + {s.pc.job.image},
              pc := Migrating(s.pc.job, s.pc.current))
    case MigrateOk => s.(pc := ClearReading(s.pc.job))
    case MigrateFails => s.(pc := ReleaseFailed(s.pc.current, s.pc.job.image, true))
    case ClearRead =>
      if s.row.version != Some(s.pc.job.image) || s.row.pending.None? then s.(pc := Pruning(s.pc.job))
      else s.(pc := ClearWriting(s.pc.job))
    case ClearWrite =>
      (if s.row.version == Some(s.pc.job.image)
       then s.(row := s.row.(pending := None), dirty := s.dirty - {s.pc.job.image}) else s)
        .(pc := Pruning(s.pc.job))
    case Prune(gone) => s.(images := s.images - gone, pc := Idle)
  }

  /** The revert write: the config keys of `blob`, the lifecycle columns of the row it lands on. */
  function RevertedRow(row: Row, blob: Row): Row {
    var back := blob.(
      context := false, pending := None, phase := Later, status := Running, container := row.container,
      desired := if row.desired.ToRun? then ToRun else row.desired);
    if blob.previous.Some? then back.(image := blob.previous.value, version := blob.previous) else back
  }

  function AfterSettle(f: Failure, reclaimable: bool): Pc {
    if f.reclaims && reclaimable then Reclaiming(f.target, f.slot) else Idle
  }

  function DoSettle(s: Sys, a: SettleStep): Sys
    requires CanSettle(s, a)
  {
    match a
    case Look =>
      var c := s.pc.f.job.container;
      s.(pc := if c.Some? && c.value in s.known then Rereading(s.pc.f) else GivingUp(s.pc.f))
    case Reread =>
      s.(pc := if s.row.version == Some(s.pc.f.target) then Reverting(s.pc.f, s.row) else AfterSettle(s.pc.f, false))
    case Revert =>
      if s.row.version == Some(s.pc.f.target)
      then s.(row := RevertedRow(s.row, s.pc.blob), pc := AfterSettle(s.pc.f, true))
      else s.(pc := AfterSettle(s.pc.f, false))
    case GiveUp =>
      if s.row.version.None? || s.row.version == Some(s.pc.f.target)
      then s.(row := s.row.(status := Failed, desired := GivenUp), pc := Stamping(s.pc.f))
      else s.(pc := AfterSettle(s.pc.f, false))
    case Stamp =>
      s.(row := if s.row.version == Some(s.pc.f.target) then s.row.(phase := Later) else s.row,
         pc := AfterSettle(s.pc.f, false))
    case Reclaim =>
      s.(pc := if s.row.previous == Some(s.pc.tag) then Idle else Removing(s.pc.tag, s.pc.slot))
    case Remove(removed) => s.(images := if removed then s.images - {s.pc.tag} else s.images, pc := Idle)
    case Abandon => s.(pc := Idle)
  }

  /** What `ensure_built` decides once no task is in flight. */
  datatype Verdict = Serve | Hold | Build | SettleCrashed | Release

  function GateVerdict(job: Row, images: set<Generation>, live: bool, onDisk: bool): Verdict {
    if !job.Converging(live) then Serve
    else if job.NeedsBuild(images) then (if onDisk then Build else Hold)
    else if job.Armed() then SettleCrashed
    else Release
  }

  function DoDispatch(s: Sys, live: bool, onDisk: bool): Sys
    requires s.snap.Some?
  {
    var job := s.snap.value;
    var t := s.(snap := None);
    if TaskInFlight(s.pc) || job.desired.ToStop? then t
    else match GateVerdict(job, s.images, live, onDisk)
      case Serve => t
      case Hold => t
      case Build =>
        t.(row := if s.row.phase.InBuild? then s.row.(phase := Queued) else s.row, pc := Waiting(job))
      case SettleCrashed => t.(pc := Looking(Failure(job, job.pending.value, false, false, true)))
      case Release => t.(pc := Swapping(job))
  }

  function DoTick(s: Sys, a: TickStep): Sys
    requires CanTick(s, a)
  {
    match a
    case Fetch => s.(snap := Some(s.row))
    case Dispatch(live, onDisk) => DoDispatch(s, live, onDisk)
    case Launch(born) =>
      s.(known := s.known + {born}, pc := Idle,
         row := s.row.(container := Some(born), status := Running,
                       phase := if s.row.version == s.pc.job.version then Later else s.row.phase))
    case LaunchFails => s.(pc := Idle)
  }

  function RedeployedRow(row: Row, release: bool): Row {
    var next := row.highWater + 1;
    row.(version := Some(next), highWater := next, image := next, previous := Some(row.image), context := true,
         release := release, phase := Queued, rolledBack := false, status := Restarting, desired := ToRun)
  }

  function RolledBackRow(row: Row): Row
    requires row.previous.Some?
  {
    row.(version := row.previous, image := row.previous.value, previous := Some(row.image), pending := None,
         phase := Queued, rolledBack := true, status := Restarting, desired := ToRun)
  }

  function DoOutside(s: Sys, a: OutsideStep): Sys
    requires CanOutside(s, a)
  {
    match a
    case Redeploy(release) => s.(row := RedeployedRow(s.row, release))
    case Rollback => s.(row := RolledBackRow(s.row))
    case Restart => s.(row := s.row.(status := Restarting, desired := ToRun))
    case Stop => s.(row := s.row.(desired := ToStop))
    case Vanish(gone) => s.(known := s.known - {gone})
    case Crash => s.(pc := Idle, snap := None)
  }

  function Next(s: Sys, a: Action): Sys
    requires Enabled(s, a)
  {
    match a
    case Task(t) => DoTask(s, t)
    case Settle(t) => DoSettle(s, t)
    case Tick(k) => DoTick(s, k)
    case Outside(o) => DoOutside(s, o)
  }

  // --- runs --------------------------------------------------------------------------------

  /** A service just deployed for the first time; images of an earlier service may survive. */
  predicate Initial(s: Sys) {
    && s.row.version == Some(1) && s.row.highWater == 1 && s.row.image == 1 && s.row.previous.None?
    && s.row.pending.None? && s.row.container.None? && s.row.phase.Queued? && !s.row.rolledBack
    && s.row.context && s.row.status.Building? && s.row.desired.ToRun?
    && s.pc.Idle? && s.snap.None? && s.dirty == {}
  }

  predicate Valid(s: Sys, actions: seq<Action>)
    decreases |actions|
  {
    actions == [] || (Enabled(s, actions[0]) && Valid(Next(s, actions[0]), actions[1..]))
  }

  function Exec(s: Sys, actions: seq<Action>): Sys
    requires Valid(s, actions)
    decreases |actions|
  {
    if actions == [] then s else Exec(Next(s, actions[0]), actions[1..])
  }
}
