/**
 * The git poller as a state machine: one step per stretch between two awaits of `reconcile`,
 * `nudge` and `_poll`, interleaved with row edits, the clock, shutdown and one another.
 */
module GitWatchMachine {
  import opened Common

  type Name = string
  type Sha = string
  type TaskId = nat

  const CAP := 1800
  const MAX_EXPONENT := 10
  const REMEMBERED := 512

  /** What a poll reads of a service row. `skip` is the reason cutover is not possible, if any. */
  datatype Row = Row(
    live: bool, autoDeploy: bool, git: bool, repoUrl: string, ref: Option<string>, commit: Option<Sha>,
    skip: Option<string>)
  {
    predicate Candidate() {
      live && autoDeploy && git
    }

    function Source(): (string, Option<string>) {
      (repoUrl, ref)
    }
  }

  /** Where a poll task stands. */
  datatype Pc =
    | Unbegun
    | Gating
    | Probing(probed: (string, Option<string>))
    | Regating(probed: (string, Option<string>), sha: Sha)
    | Recording(probed: (string, Option<string>), last: Row, sha: Sha)
    | Redeploying(probed: (string, Option<string>), last: Row, sha: Sha)
    | Closing(retry: bool)

  datatype Task = Task(name: Name, pc: Pc)

  /** What the outside can see happen to a commit of a service. */
  datatype Event =
    | Triggered(name: Name, sha: Sha)
    | Pinned(name: Name, sha: Sha)
    | Released(name: Name)
      // every service but these was dropped by a scan
    | Swept(kept: set<Name>)

  /** A reconcile under way: the candidates it read, when it started, and whether it has pruned. */
  datatype Scan = Scan(candidates: set<Name>, at: nat, swept: bool)

  /**
   * The controller's registries, the tasks still running, and the world. `owed` are the services
   * with a matched nudge that no poll has started since, unless a scan dropped it; `events` is what
   * has happened so far.
   */
  datatype Watch = Watch(
    inflight: map<Name, TaskId>,
    renudge: set<Name>,
    pending: map<Name, Sha>,
    nudged: seq<(Name, Sha)>,
    failures: map<Name, nat>,
    failedSha: map<Name, Sha>,
    nextDue: map<Name, nat>,
    scanDue: nat,
    stopping: bool,
    scan: Option<Scan>,
    tasks: map<TaskId, Task>,
    nextId: TaskId,
    rows: map<Name, Row>,
    now: nat,
    interval: nat,
    owed: set<Name>,
    events: seq<Event>)

  // --- registries --------------------------------------------------------------------------------

  function Without<V>(m: map<Name, V>, n: Name): map<Name, V> {
    m - {n}
  }

  function Kept<V>(m: map<Name, V>, names: set<Name>): map<Name, V> {
    map n | n in m && n in names :: m[n]
  }

  function PowerOfTwo(n: nat): nat {
    if n == 0 then 1 else 2 * PowerOfTwo(n - 1)
  }

  function Delay(interval: nat, failures: nat): nat {
    var delay := interval * PowerOfTwo(if failures < MAX_EXPONENT then failures else MAX_EXPONENT);
    if delay < CAP then delay else CAP
  }

  function Failures(w: Watch, n: Name): nat {
    if n in w.failures then w.failures[n] else 0
  }

  function Schedule(w: Watch, n: Name): Watch {
    w.(nextDue := w.nextDue[n := w.now + w.interval])
  }

  function Backoff(w: Watch, n: Name): Watch {
    var k := Failures(w, n) + 1;
    w.(failures := w.failures[n := k], nextDue := w.nextDue[n := w.now + Delay(w.interval, k)])
  }

  /** The bounded, insertion-ordered dedupe: a key already there keeps its place. */
  function Remember(nudged: seq<(Name, Sha)>, key: (Name, Sha)): seq<(Name, Sha)> {
    var grown := if key in nudged then nudged else nudged + [key];
    if |grown| > REMEMBERED then grown[|grown| - REMEMBERED..] else grown
  }

  function CommitNudge(w: Watch, n: Name): Watch {
    if n in w.pending
    then w.(pending := Without(w.pending, n), nudged := Remember(w.nudged, (n, w.pending[n])))
    else w
  }

  function Spawn(w: Watch, n: Name): Watch {
    w.(inflight := w.inflight[n := w.nextId], tasks := w.tasks[w.nextId := Task(n, Unbegun)], nextId := w.nextId + 1)
  }

  predicate UnbegunPoll(inflight: map<Name, TaskId>, tasks: map<TaskId, Task>, n: Name) {
    n in inflight && inflight[n] in tasks && tasks[inflight[n]].pc.Unbegun?
  }

  /** What is still owed once only `names` keep their registry entries: a poll that has not started stays. */
  function OwedAfter(w: Watch, names: set<Name>): set<Name> {
    set n | n in w.owed && (n in names || UnbegunPoll(w.inflight, w.tasks, n)) :: n
  }

  function Prune(w: Watch, names: set<Name>): Watch {
    w.(nextDue := Kept(w.nextDue, names), failures := Kept(w.failures, names),
       failedSha := Kept(w.failedSha, names), pending := Kept(w.pending, names),
       renudge := w.renudge * names, owed := OwedAfter(w, names),
       events := w.events + [Swept(names)])
  }

  /** Resets what a fresh push overrides: the failure count and both deadlines. */
  function DueNow(w: Watch, n: Name): Watch {
    w.(failures := Without(w.failures, n), nextDue := w.nextDue[n := 0], scanDue := 0)
  }

  // --- steps -------------------------------------------------------------------------------------

  datatype Outcome =
    | Shipped
      // a 409, or the installation token not there yet: retried, never pinned
    | Contended
      // any other machine-coded failure
    | Refused
      // an exception without a code
    | Broken

  /** The stretches of a poll task. */
  datatype PollStep =
    | Begin
    | ReadFirst(usable: bool)
    | Probe(head: Option<Sha>)
    | ReadAgain
    | Record
    | Redeploy(outcome: Outcome)
    | Fault
    | Close(cancelled: bool)

  datatype Step =
    | ReadScan
    | Sweep
    | SpawnDue(n: Name)
    | FinishScan(due: nat)
    | Nudge(n: Name, sha: Sha)
    | Poll(t: TaskId, p: PollStep)
    | Edit(n: Name, row: Option<Row>)
    | Wait(d: nat)
    | Stop

  predicate At(w: Watch, t: TaskId) {
    t in w.tasks
  }

  function Candidates(w: Watch): set<Name> {
    set n | n in w.rows && w.rows[n].Candidate() :: n
  }

  /** The earliest deadline still ahead, at most one interval out. */
  predicate IsNextScan(w: Watch, at: nat, due: nat) {
    && due <= at + w.interval
    && (forall n <- w.nextDue :: w.nextDue[n] > at ==> due <= w.nextDue[n])
    && (due == at + w.interval || exists n <- w.nextDue :: w.nextDue[n] > at && w.nextDue[n] == due)
  }

  predicate CanPoll(w: Watch, t: TaskId, p: PollStep)
    requires At(w, t)
  {
    var pc := w.tasks[t].pc;
    match p
    case Begin => pc.Unbegun?
    case ReadFirst(_) => pc.Gating?
    case Probe(_) => pc.Probing?
    case ReadAgain => pc.Regating?
    case Record => pc.Recording?
    case Redeploy(_) => pc.Redeploying?
    case Fault => !pc.Unbegun?
    case Close(cancelled) => if cancelled then w.stopping else pc.Closing?
  }

  predicate Enabled(w: Watch, a: Step) {
    match a
    case ReadScan => w.scan.None? && w.now >= w.scanDue
    case Sweep => w.scan.Some? && !w.scan.value.swept
    case SpawnDue(n) =>
      && w.scan.Some? && w.scan.value.swept && n in w.scan.value.candidates && n !in w.inflight
      && (n in w.nextDue ==> w.scan.value.at >= w.nextDue[n])
    case FinishScan(due) => w.scan.Some? && w.scan.value.swept && IsNextScan(w, w.scan.value.at, due)
    case Nudge(_, _) => true
    case Poll(t, p) => At(w, t) && CanPoll(w, t, p)
    case Edit(_, _) => true
    case Wait(_) => true
    case Stop => true
  }

  function Goto(w: Watch, t: TaskId, pc: Pc): Watch
    requires At(w, t)
  {
    w.(tasks := w.tasks[t := w.tasks[t].(pc := pc)])
  }

  /** A fresh read's verdict: the row, if it is still a candidate nothing stands against. */
  function Eligible(w: Watch, n: Name): Option<Row> {
    if n in w.rows && w.rows[n].Candidate() && w.rows[n].skip.None? then Some(w.rows[n]) else None
  }

  function DoNudge(w: Watch, n: Name, sha: Sha): Watch {
    if (n, sha) in w.nudged then w
    else
      var v := DueNow(w.(pending := w.pending[n := sha], owed := w.owed + {n}), n);
      if n in v.inflight then v.(renudge := v.renudge + {n}) else Spawn(v, n)
  }

  function DoReadFirst(w: Watch, t: TaskId, usable: bool): Watch
    requires At(w, t)
  {
    var row := Eligible(w, w.tasks[t].name);
    Goto(w, t, if row.None? then Closing(false) else if !usable then Closing(true) else Probing(row.value.Source()))
  }

  function DoReadAgain(w: Watch, t: TaskId): Watch
    requires At(w, t) && w.tasks[t].pc.Regating?
  {
    var Task(n, pc) := w.tasks[t];
    var row := Eligible(w, n);
    if row.None? || row.value.Source() != pc.probed then Goto(w, t, Closing(false))
    else if row.value.commit == Some(pc.sha) then
      Goto(CommitNudge(w.(failures := Without(w.failures, n)), n), t, Closing(false))
    else if n in w.failedSha && w.failedSha[n] == pc.sha then
      Goto(w.(failures := Without(w.failures, n)), t, Closing(false))
    else Goto(w, t, Recording(pc.probed, row.value, pc.sha))
  }

  function DoRedeploy(w: Watch, t: TaskId, outcome: Outcome): Watch
    requires At(w, t) && w.tasks[t].pc.Redeploying?
  {
    var Task(n, pc) := w.tasks[t];
    match outcome
    case Shipped =>
      Goto(CommitNudge(w.(failures := Without(w.failures, n), failedSha := Without(w.failedSha, n),
                          events := w.events + [Released(n)]), n), t, Closing(false))
    case Contended => Goto(w, t, Closing(true))
    case Broken => Goto(w, t, Closing(true))
    case Refused =>
      Goto(w.(failedSha := w.failedSha[n := pc.sha], events := w.events + [Pinned(n, pc.sha)]), t, Closing(false))
  }

  /** The next deadline of a poll that came to its end; a cancelled one gets none. */
  function Rearmed(w: Watch, n: Name, pc: Pc): Watch {
    if !pc.Closing? then w else if pc.retry then Backoff(w, n) else Schedule(w, n)
  }

  /** The registries as a finished poll leaves them, before it follows up on a nudge. */
  function Dropped(w: Watch, t: TaskId): Watch
    requires At(w, t)
  {
    var n := w.tasks[t].name;
    w.(inflight := Without(w.inflight, n), tasks := w.tasks - {t}, renudge := w.renudge - {n})
  }

  /** The `finally` of a poll: out of the registry, and once more if a nudge came meanwhile. */
  function DoClose(w: Watch, t: TaskId, cancelled: bool): Watch
    requires At(w, t)
  {
    var Task(n, pc) := w.tasks[t];
    var u := Dropped(Rearmed(w, n, pc), t);
    if n in w.renudge && !cancelled && !w.stopping then Spawn(DueNow(u, n), n) else u
  }

  function DoRecord(w: Watch, t: TaskId): Watch
    requires At(w, t) && w.tasks[t].pc.Recording?
  {
    var Task(n, pc) := w.tasks[t];
    Goto(w.(events := w.events + [Triggered(n, pc.sha)]), t, Redeploying(pc.probed, pc.last, pc.sha))
  }

  function DoPoll(w: Watch, t: TaskId, p: PollStep): Watch
    requires At(w, t) && CanPoll(w, t, p)
  {
    match p
    case Begin => Goto(w, t, Gating).(owed := w.owed - {w.tasks[t].name})
    case ReadFirst(usable) => DoReadFirst(w, t, usable)
    case Probe(head) => Goto(w, t, if head.None? then Closing(true) else Regating(w.tasks[t].pc.probed, head.value))
    case ReadAgain => DoReadAgain(w, t)
    case Record => DoRecord(w, t)
    case Redeploy(outcome) => DoRedeploy(w, t, outcome)
    case Fault => Goto(w, t, Closing(true))
    case Close(cancelled) => DoClose(w, t, cancelled)
  }

  function Next(w: Watch, a: Step): Watch
    requires Enabled(w, a)
  {
    match a
    case ReadScan => w.(scan := Some(Scan(Candidates(w), w.now, false)))
    case Sweep =>
      var scan := w.scan.value;
      Prune(w, scan.candidates).(scan := Some(scan.(swept := true)))
    case SpawnDue(n) => Spawn(w, n)
    case FinishScan(due) => w.(scanDue := due, scan := None)
    case Nudge(n, sha) => DoNudge(w, n, sha)
    case Poll(t, p) => DoPoll(w, t, p)
    case Edit(n, row) => w.(rows := if row.Some? then w.rows[n := row.value] else w.rows - {n})
    case Wait(d) => w.(now := w.now + d)
    case Stop => w.(stopping := true)
  }

  // --- runs --------------------------------------------------------------------------------------

  /** A daemon that has just started. */
  predicate Initial(w: Watch) {
    && w.inflight == map[] && w.renudge == {} && w.pending == map[] && w.nudged == [] && w.failures == map[]
    && w.failedSha == map[] && w.nextDue == map[] && w.scanDue == 0 && !w.stopping && w.scan.None?
    && w.tasks == map[] && w.owed == {} && w.events == []
  }

  predicate Valid(w: Watch, steps: seq<Step>)
    decreases |steps|
  {
    steps == [] || (Enabled(w, steps[0]) && Valid(Next(w, steps[0]), steps[1..]))
  }

  function Exec(w: Watch, steps: seq<Step>): Watch
    requires Valid(w, steps)
    decreases |steps|
  {
    if steps == [] then w else Exec(Next(w, steps[0]), steps[1..])
  }
}
