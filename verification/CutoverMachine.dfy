/**
 * The health-gated cutover of one service as a state machine whose steps are the
 * awaited operations of the cutover manager, interleaved with everything that may
 * happen between two of them: crashes, container deaths, proxy ticks, restarts,
 * redeploys, rollbacks and cancels.
 *
 * Four stores survive a crash (the job row, the endpoint pointer, the containers and
 * the proxy dials); the program counter and the two in-memory registries do not.
 */
module CutoverMachine {
  import opened Common

  type ContainerId = nat
  type Port = nat
  type Version = nat
  type RouteId = nat

  /** `cutover_pending`: the persisted gate of one generation. */
  datatype Marker = Marker(version: Version, blue: ContainerId, bluePort: Option<Port>)

  datatype Status = Running | Restarting | Failed

  /** The columns and config keys of the job row that a cutover reads or writes. The image
      tag is the version's own tag throughout, so `version` stands for both. */
  datatype Row = Row(
    container: Option<ContainerId>,
    version: Version,
    highWater: Version,
    previous: Option<Version>,
    status: Status,
    marker: Option<Marker>)

  /** A container, the loopback port it was started on, and whether it carries the cutover label. */
  datatype Box = Box(port: Port, running: bool, labelled: bool)

  /** Who is acting on the row. Layer 1 of the tick makes these mutually exclusive. */
  datatype Owner = Nobody | Tick | VerifyTask | Canceller

  /** What follows the marker pop: destroy blue (online commit) or nothing. */
  datatype Then = Retire(retired: ContainerId) | Finish

  /** The await at which the current owner stands. */
  datatype Pc =
    | Idle
      // the tick arming a cutover
    | Arming(v: Version, blue: ContainerId, bluePort: Option<Port>)
    | Spawning(v: Version, blue: ContainerId)
      // the verify task
    | Resolving(v: Version, blue: ContainerId)
    | Starting(v: Version, blue: ContainerId, greenPort: Port)
    | Probing(v: Version, blue: ContainerId, green: ContainerId, greenPort: Port)
    | Pointing(v: Version, blue: ContainerId, green: ContainerId, greenPort: Port)
    | Repointing(v: Version, blue: ContainerId, green: ContainerId, greenPort: Port)
    | Awaiting(v: Version, blue: ContainerId, green: ContainerId, greenPort: Port, ids: set<RouteId>)
    | Rechecking(v: Version, blue: ContainerId, green: ContainerId, greenPort: Port)
    | Promoting(v: Version, blue: ContainerId, green: ContainerId, greenPort: Port)
      // the commit tail, shared by the online path, the crash replay and the cancel
    | Auditing(v: Version, green: ContainerId, next: Then)
    | Announcing(v: Version, green: ContainerId, next: Then)
    | Stamping(v: Version, green: ContainerId, next: Then)
    | Popping(v: Version, next: Then)
    | PopWriting(expected: Version, next: Then)
    | Retiring(blue: ContainerId)
      // the unwind of a confirmed green whose dials could not be verified
    | UnwindReading(v: Version, green: ContainerId)
    | UnwindPointing(v: Version, green: ContainerId, target: Option<Port>)
    | UnwindAwaiting(v: Version, green: ContainerId)
    | Dropping(v: Version, green: ContainerId)
      // the failed-generation settle
    | Settling(v: Version)
    | Reverting(v: Version, snapshot: Row)
    | Failing(v: Version)
      // the crash settle
    | Restoring(v: Version, target: Option<Port>)
    | Reaping(v: Version)
      // the cancel
    | CancelReading(greens: Option<ContainerId>)
    | CancelDropping(green: ContainerId, pending: Option<Marker>)
    | CancelPointing(pending: Option<Marker>)
      // an ordinary launch
    | LaunchClearing
    | LaunchAcquiring
    | LaunchRunning
    | LaunchPointing(born: ContainerId)
    | LaunchRecording(born: ContainerId)

  /**
   * The whole system. `committed` and the three record sets are history: whether f3 ran since
   * the marker was last armed, and which promoted containers have had their promotion, audit
   * row and success event attempted.
   */
  datatype Sys = Sys(
    row: Row,
    hostPort: Port,
    active: Option<Port>,
    boxes: map<ContainerId, Box>,
    routes: set<RouteId>,
    dials: map<RouteId, Port>,
    proxyRead: Option<Port>,
    owner: Owner,
    pc: Pc,
    green: Option<ContainerId>,
    committed: bool,
    promoted: set<ContainerId>,
    audited: set<ContainerId>,
    announced: set<ContainerId>)
  {
    /** A marker names the row's current generation: what arms layer 4 of the tick. */
    predicate Matching() {
      row.marker.Some? && row.marker.value.version == row.version
    }

    /** `active_host_port`, else the stable `host_port`: what the proxy is told to dial. */
    function Effective(): Port {
      PortOr(active)
    }

    function PortOr(pointer: Option<Port>): Port {
      if pointer.Some? then pointer.value else hostPort
    }

    predicate IsRunning(c: ContainerId) {
      c in boxes && boxes[c].running
    }

    predicate Serving() {
      row.container.Some? && IsRunning(row.container.value)
    }

    /** The proxy is pointed at the port the row's running container was started on. */
    predicate PointerCorrect() {
      Serving() ==> Effective() == boxes[row.container.value].port
    }
  }

  function Stop(boxes: map<ContainerId, Box>, c: ContainerId): map<ContainerId, Box> {
    if c in boxes then boxes[c := boxes[c].(running := false)] else boxes
  }

  // --- steps -------------------------------------------------------------------------------

  /** The tick arming a cutover (layers 2 and 3). */
  datatype ArmStep =
    | TickArm | ArmRefuse | ArmWrite | Spawn

  /** The verify task up to the commit point. */
  datatype VerifyStep =
    | EnvNotReady | EnvReady(port: Port) | SpecFailure | StartGreen(born: ContainerId)
    | ProbeOk | ProbeFail | WritePointer | Register(locked: bool, written: set<RouteId>)
    | DialsAgree | DialsTimeout | StillLive | DiedLate

  /** The commit point f3, its durable records, the marker pop and the end of blue. */
  datatype CommitStep =
    | Promote | Audit | Announce | StampHealthy | PopRead | PopWrite | RetireBlue

  /** Putting the pointer back and destroying green. */
  datatype UnwindStep =
    | UnwindRead | UnwindPointer | UnwindDials | DropGreen

  /** The failed-generation settle, and layer 4 of the tick in front of it. */
  datatype SettleStep =
    | SettleRead(present: bool) | Revert | Fail
    | TickSettle | RestorePointer | ReapOne(victim: ContainerId) | ReapDone

  /** The cancel of a registered verify task. */
  datatype CancelStep =
    | CancelTask(orphan: Option<ContainerId>) | CancelRead | CancelDrop | CancelPoint

  /** An ordinary launch on the stable port. */
  datatype LaunchStep =
    | TickLaunch | LaunchClear | LaunchAcquire(moved: Option<Port>) | LaunchRun(born: ContainerId)
    | LaunchFail | LaunchPoint | LaunchRecord

  /** Everything else that may happen between two awaits. */
  datatype OutsideStep =
    | Crash(orphan: Option<ContainerId>) | Die(victim: ContainerId) | Restart
    | ProxyRead | ProxyWrite(ids: set<RouteId>) | Bind(id: RouteId) | Unbind(id: RouteId)
    | Redeploy(sawMarker: bool) | Rollback(sawMarker: bool)

  datatype Action =
    | Arm(stepArm: ArmStep)
    | Verify(stepVerify: VerifyStep)
    | Commit(stepCommit: CommitStep)
    | Unwind(stepUnwind: UnwindStep)
    | Settle(stepSettle: SettleStep)
    | Cancel(stepCancel: CancelStep)
    | Launch(stepLaunch: LaunchStep)
    | Outside(stepOutside: OutsideStep)

  /** A container the runtime may still bring up after its starter stopped waiting for it. */
  predicate OrphanAllowed(s: Sys, orphan: Option<ContainerId>) {
    orphan.Some? ==> orphan.value !in s.boxes && (s.pc.Starting? || s.pc.LaunchRunning?)
  }

  function WithOrphan(s: Sys, orphan: Option<ContainerId>): map<ContainerId, Box> {
    match orphan
    case None => s.boxes
    case Some(c) =>
      s.boxes[c := if s.pc.Starting? then Box(s.pc.greenPort, true, true)
                   else Box(s.hostPort, true, false)]
  }

  predicate CanArm(s: Sys, a: ArmStep) {
    match a
    // layers 2 and 3: a live, restarting row with no marker of its own generation
    case TickArm =>
      s.owner.Nobody? && !s.Matching() && s.row.status.Restarting?
      && s.row.container.Some? && s.IsRunning(s.row.container.value)
    case ArmRefuse => s.pc.Arming?
    case ArmWrite => s.pc.Arming?
    case Spawn => s.pc.Spawning?
  }

  predicate CanVerify(s: Sys, a: VerifyStep) {
    match a
    case EnvNotReady => s.pc.Resolving?
    // the reservation excludes every stable and cutover port on record
    case EnvReady(port) => s.pc.Resolving? && port != s.hostPort && s.active != Some(port)
    case SpecFailure => s.pc.Resolving? || s.pc.Starting?
    case StartGreen(born) => s.pc.Starting? && born !in s.boxes
    case ProbeOk => s.pc.Probing? && s.IsRunning(s.pc.green)
    case ProbeFail => s.pc.Probing?
    case WritePointer => s.pc.Pointing?
    case Register(locked, written) => s.pc.Repointing? && written <= (if locked then {} else s.routes)
    case DialsAgree => s.pc.Awaiting? && forall id <- s.pc.ids :: id in s.dials && s.dials[id] == s.pc.greenPort
    case DialsTimeout => s.pc.Awaiting?
    case StillLive => s.pc.Rechecking? && s.IsRunning(s.pc.green)
    case DiedLate => s.pc.Rechecking?
  }

  predicate CanCommit(s: Sys, a: CommitStep) {
    match a
    case Promote => s.pc.Promoting?
    case Audit => s.pc.Auditing?
    case Announce => s.pc.Announcing?
    case StampHealthy => s.pc.Stamping?
    case PopRead => s.pc.Popping?
    case PopWrite => s.pc.PopWriting?
    case RetireBlue => s.pc.Retiring?
  }

  predicate CanUnwind(s: Sys, a: UnwindStep) {
    match a
    case UnwindRead => s.pc.UnwindReading?
    case UnwindPointer => s.pc.UnwindPointing?
    case UnwindDials => s.pc.UnwindAwaiting?
    case DropGreen => s.pc.Dropping?
  }

  predicate CanSettle(s: Sys, a: SettleStep) {
    match a
    // a container the runtime no longer knows is not running
    case SettleRead(present) =>
      s.pc.Settling?
      && (!present ==> s.row.container.None? || !s.IsRunning(s.row.container.value))
    case Revert => s.pc.Reverting?
    case Fail => s.pc.Failing?
    case TickSettle => s.owner.Nobody? && s.Matching()
    case RestorePointer => s.pc.Restoring?
    // the reap lists running labelled containers and never the row's own
    case ReapOne(victim) =>
      s.pc.Reaping? && s.IsRunning(victim) && s.boxes[victim].labelled && s.row.container != Some(victim)
    case ReapDone => s.pc.Reaping?
  }

  predicate CanCancel(s: Sys, a: CancelStep) {
    match a
    case CancelTask(orphan) => s.owner.VerifyTask? && OrphanAllowed(s, orphan)
    case CancelRead => s.pc.CancelReading?
    case CancelDrop => s.pc.CancelDropping?
    case CancelPoint => s.pc.CancelPointing?
  }

  predicate CanLaunch(s: Sys, a: LaunchStep) {
    match a
    case TickLaunch =>
      s.owner.Nobody? && !s.Matching()
      && (s.row.container.None? || !s.IsRunning(s.row.container.value) || s.row.status.Restarting?)
    case LaunchClear => s.pc.LaunchClearing?
    case LaunchAcquire(_) => s.pc.LaunchAcquiring?
    case LaunchRun(born) => s.pc.LaunchRunning? && born !in s.boxes
    case LaunchFail => s.pc.LaunchAcquiring? || s.pc.LaunchRunning?
    case LaunchPoint => s.pc.LaunchPointing?
    case LaunchRecord => s.pc.LaunchRecording?
  }

  predicate CanOutside(s: Sys, a: OutsideStep) {
    match a
    case Crash(orphan) => OrphanAllowed(s, orphan)
    case Die(victim) => s.IsRunning(victim)
    case Restart => true
    case ProxyRead => true
    case ProxyWrite(ids) => s.proxyRead.Some? && ids <= s.routes
    case Bind(_) => true
    case Unbind(_) => true
    // The guard is on the marker's presence. The 409 on a registered verify comes awaits before the
    // write, so a request that read the marker and passed it before the registration lands at any await.
    case Redeploy(saw) => saw == s.row.marker.Some?
    case Rollback(saw) => saw == s.row.marker.Some? && s.row.previous.Some?
  }

  predicate Enabled(s: Sys, a: Action) {
    match a
    case Arm(x) => CanArm(s, x)
    case Verify(x) => CanVerify(s, x)
    case Commit(x) => CanCommit(s, x)
    case Unwind(x) => CanUnwind(s, x)
    case Settle(x) => CanSettle(s, x)
    case Cancel(x) => CanCancel(s, x)
    case Launch(x) => CanLaunch(s, x)
    case Outside(x) => CanOutside(s, x)
  }

  /** After the marker pop: f7 online, otherwise the owner is done. */
  function Resume(s: Sys, next: Then): Sys {
    match next
    case Retire(retired) => s.(pc := Retiring(retired))
    case Finish => Release(s)
  }

  function Release(s: Sys): Sys {
    s.(pc := Idle, owner := Nobody, green := None)
  }

  function WithMarker(s: Sys, m: Option<Marker>): Sys {
    s.(row := s.row.(marker := m))
  }

  /** The revert's whole-blob write: config keys from the earlier read, columns from the row. */
  function RevertedRow(current: Row, snapshot: Row): Row {
    current.(version := if snapshot.previous.Some? then snapshot.previous.value else snapshot.version,
             highWater := snapshot.highWater,
             previous := snapshot.previous,
             marker := snapshot.marker,
             status := Running)
  }

  function DoArm(s: Sys, a: ArmStep): Sys
    requires CanArm(s, a)
  {
    match a
    case TickArm => s.(owner := Tick, pc := Arming(s.row.version, s.row.container.value, s.active))
    case ArmRefuse => Release(s)
    case ArmWrite =>
      if s.row.version == s.pc.v then
        WithMarker(s, Some(Marker(s.pc.v, s.pc.blue, s.pc.bluePort)))
          .(committed := false, pc := Spawning(s.pc.v, s.pc.blue))
      else Release(s)
    case Spawn => s.(owner := VerifyTask, green := None, pc := Resolving(s.pc.v, s.pc.blue))
  }

  function DoVerify(s: Sys, a: VerifyStep): Sys
    requires CanVerify(s, a)
  {
    match a
    case EnvNotReady => s.(pc := Popping(s.pc.v, Finish))
    case EnvReady(port) => s.(pc := Starting(s.pc.v, s.pc.blue, port))
    case SpecFailure => s.(pc := Settling(s.pc.v))
    case StartGreen(born) =>
      s.(boxes := s.boxes[born := Box(s.pc.greenPort, true, true)], green := Some(born),
         pc := Probing(s.pc.v, s.pc.blue, born, s.pc.greenPort))
    case ProbeOk => s.(pc := Pointing(s.pc.v, s.pc.blue, s.pc.green, s.pc.greenPort))
    case ProbeFail => s.(pc := Dropping(s.pc.v, s.pc.green))
    case WritePointer =>
      s.(active := Some(s.pc.greenPort),
         pc := Repointing(s.pc.v, s.pc.blue, s.pc.green, s.pc.greenPort))
    case Register(locked, written) =>
      s.(dials := s.dials + (map id | id in written :: s.pc.greenPort),
         pc := Awaiting(s.pc.v, s.pc.blue, s.pc.green, s.pc.greenPort, if locked then {} else s.routes))
    case DialsAgree => s.(pc := Rechecking(s.pc.v, s.pc.blue, s.pc.green, s.pc.greenPort))
    case DialsTimeout => s.(pc := UnwindReading(s.pc.v, s.pc.green))
    case StillLive => s.(pc := Promoting(s.pc.v, s.pc.blue, s.pc.green, s.pc.greenPort))
    case DiedLate => s.(pc := UnwindReading(s.pc.v, s.pc.green))
  }

  function DoCommit(s: Sys, a: CommitStep): Sys
    requires CanCommit(s, a)
  {
    match a
    case Promote =>
      s.(row := s.row.(container := Some(s.pc.green), status := Running),
         committed := true, promoted := s.promoted + {s.pc.green},
         pc := Auditing(s.pc.v, s.pc.green, Retire(s.pc.blue)))
    case Audit => s.(audited := s.audited + {s.pc.green}, pc := Announcing(s.pc.v, s.pc.green, s.pc.next))
    case Announce => s.(announced := s.announced + {s.pc.green}, pc := Stamping(s.pc.v, s.pc.green, s.pc.next))
    case StampHealthy => s.(pc := Popping(s.pc.v, s.pc.next))
    case PopRead =>
      if s.row.marker.Some? && s.row.marker.value.version == s.pc.v
      then s.(pc := PopWriting(s.row.version, s.pc.next))
      else Resume(s, s.pc.next)
    case PopWrite =>
      Resume(if s.row.version == s.pc.expected then WithMarker(s, None) else s, s.pc.next)
    case RetireBlue => Release(s.(boxes := Stop(s.boxes, s.pc.blue)))
  }

  function DoUnwind(s: Sys, a: UnwindStep): Sys
    requires CanUnwind(s, a)
  {
    match a
    case UnwindRead =>
      var m := s.row.marker;
      var target := if m.Some? && m.value.version == s.pc.v then m.value.bluePort else None;
      s.(pc := UnwindPointing(s.pc.v, s.pc.green, target))
    case UnwindPointer => s.(active := s.pc.target, pc := UnwindAwaiting(s.pc.v, s.pc.green))
    case UnwindDials => s.(pc := Dropping(s.pc.v, s.pc.green))
    case DropGreen => s.(boxes := Stop(s.boxes, s.pc.green), green := None, pc := Settling(s.pc.v))
  }

  function DoSettle(s: Sys, a: SettleStep): Sys
    requires CanSettle(s, a)
  {
    match a
    case SettleRead(present) =>
      if !present then s.(pc := Failing(s.pc.v))
      else if s.row.version != s.pc.v then s.(pc := Popping(s.pc.v, Finish))
      else s.(pc := Reverting(s.pc.v, s.row))
    case Revert =>
      (if s.row.version == s.pc.v then s.(row := RevertedRow(s.row, s.pc.snapshot)) else s)
        .(pc := Popping(s.pc.v, Finish))
    case Fail =>
      (if s.row.version == s.pc.v then s.(row := s.row.(status := Failed)) else s)
        .(pc := Popping(s.pc.v, Finish))
    case TickSettle =>
      var m := s.row.marker.value;
      if s.row.container.Some? && s.row.container.value != m.blue
      then s.(owner := Tick, pc := Auditing(m.version, s.row.container.value, Finish))
      else s.(owner := Tick, pc := Restoring(m.version, m.bluePort))
    case RestorePointer => s.(active := s.pc.target, pc := Reaping(s.pc.v))
    case ReapOne(victim) => s.(boxes := Stop(s.boxes, victim))
    case ReapDone => s.(pc := Settling(s.pc.v))
  }

  function DoCancel(s: Sys, a: CancelStep): Sys
    requires CanCancel(s, a)
  {
    match a
    case CancelTask(orphan) =>
      s.(boxes := WithOrphan(s, orphan), owner := Canceller, green := None, pc := CancelReading(s.green))
    case CancelRead =>
      var m := s.row.marker;
      if s.pc.greens.Some? && s.pc.greens != s.row.container then
        s.(pc := CancelDropping(s.pc.greens.value, m))
      else if s.pc.greens.Some? then
        if s.Matching() && s.row.container != Some(m.value.blue)
        then s.(pc := Auditing(m.value.version, s.row.container.value, Finish))
        else Release(s)
      else s.(pc := CancelPointing(m))
    case CancelDrop => s.(boxes := Stop(s.boxes, s.pc.green), pc := CancelPointing(s.pc.pending))
    case CancelPoint =>
      if s.pc.pending.Some?
      then s.(active := s.pc.pending.value.bluePort, pc := Popping(s.pc.pending.value.version, Finish))
      else Release(s)
  }

  function DoLaunch(s: Sys, a: LaunchStep): Sys
    requires CanLaunch(s, a)
  {
    match a
    case TickLaunch => s.(owner := Tick, pc := LaunchClearing)
    case LaunchClear =>
      s.(boxes := if s.row.container.Some? then Stop(s.boxes, s.row.container.value) else s.boxes,
         pc := LaunchAcquiring)
    // an unbindable stable port is replaced, and its endpoint row with it
    case LaunchAcquire(moved) =>
      (match moved case None => s case Some(p) => s.(hostPort := p, active := None)).(pc := LaunchRunning)
    case LaunchRun(born) =>
      s.(boxes := s.boxes[born := Box(s.hostPort, true, false)], pc := LaunchPointing(born))
    case LaunchFail => Release(s)
    case LaunchPoint => s.(active := None, pc := LaunchRecording(s.pc.born))
    case LaunchRecord => Release(s.(row := s.row.(container := Some(s.pc.born), status := Running)))
  }

  function DoOutside(s: Sys, a: OutsideStep): Sys
    requires CanOutside(s, a)
  {
    match a
    case Crash(orphan) => Release(s).(boxes := WithOrphan(s, orphan), proxyRead := None)
    case Die(victim) => s.(boxes := Stop(s.boxes, victim))
    case Restart => s.(row := s.row.(status := Restarting))
    case ProxyRead => s.(proxyRead := Some(s.Effective()))
    case ProxyWrite(ids) =>
      s.(dials := s.dials + (map id | id in ids :: s.proxyRead.value), proxyRead := None)
    case Bind(id) => s.(routes := s.routes + {id})
    case Unbind(id) => s.(routes := s.routes - {id})
    case Redeploy(_) =>
      s.(row := s.row.(version := s.row.highWater + 1, highWater := s.row.highWater + 1,
                       previous := Some(s.row.version), status := Restarting, marker := None))
    case Rollback(_) =>
      s.(row := s.row.(version := s.row.previous.value, previous := Some(s.row.version),
                       status := Restarting, marker := None))
  }

  function Next(s: Sys, a: Action): Sys
    requires Enabled(s, a)
  {
    match a
    case Arm(x) => DoArm(s, x)
    case Verify(x) => DoVerify(s, x)
    case Commit(x) => DoCommit(s, x)
    case Unwind(x) => DoUnwind(s, x)
    case Settle(x) => DoSettle(s, x)
    case Cancel(x) => DoCancel(s, x)
    case Launch(x) => DoLaunch(s, x)
    case Outside(x) => DoOutside(s, x)
  }

  // --- runs --------------------------------------------------------------------------------

  /** A row that has never cut over: no marker, no pointer, nobody acting. */
  predicate Initial(s: Sys) {
    && s.owner.Nobody? && s.pc.Idle? && s.green.None?
    && s.row.marker.None? && s.active.None?
    && (s.row.container.Some? ==>
          s.row.container.value in s.boxes && s.boxes[s.row.container.value].port == s.hostPort)
    && s.promoted == {} && s.audited == {} && s.announced == {}
  }

  predicate Valid(s: Sys, actions: seq<Action>)
    decreases |actions|
  {
    actions == [] || (Enabled(s, actions[0]) && Valid(Next(s, actions[0]), actions[1..]))
  }

  function Exec(s: Sys, actions: seq<Action>): Sys
    requires Valid(s, actions)
    decreases |actions|
  {
    if actions == [] then s else Exec(Next(s, actions[0]), actions[1..])
  }
}
