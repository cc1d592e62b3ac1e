/** What every run of the git poller keeps. */
module GitWatchProperties {
  import opened Common
  import opened GitWatchMachine

  type Tasks = map<TaskId, Task>
  type Registry = map<Name, TaskId>

  /** Until shutdown, the registry and the running tasks are the same thing. */
  predicate RegistryFits(inflight: Registry, tasks: Tasks, nextId: TaskId) {
    && (forall t <- tasks :: t < nextId && tasks[t].name in inflight && inflight[tasks[t].name] == t)
    && (forall n <- inflight :: inflight[n] in tasks && tasks[inflight[n]].name == n)
  }

  /** A poll of `n` is still to start, or to be followed by another. */
  predicate PollAhead(inflight: Registry, tasks: Tasks, renudge: set<Name>, n: Name) {
    n in inflight && (n in renudge || UnbegunPoll(inflight, tasks, n))
  }

  predicate NudgesFit(inflight: Registry, tasks: Tasks, renudge: set<Name>, owed: set<Name>) {
    renudge <= inflight.Keys && forall n <- owed :: PollAhead(inflight, tasks, renudge, n)
  }

  /** The commit a service is pinned on, as the events tell it. */
  function PinOf(events: seq<Event>, n: Name): Option<Sha>
    decreases |events|
  {
    if events == [] then None
    else
      var rest, last := events[..|events| - 1], events[|events| - 1];
      match last
      case Pinned(m, sha) => if m == n then Some(sha) else PinOf(rest, n)
      case Released(m) => if m == n then None else PinOf(rest, n)
      case Swept(kept) => if n in kept then PinOf(rest, n) else None
      case Triggered(_, _) => PinOf(rest, n)
  }

  function FailedOn(failedSha: map<Name, Sha>, n: Name): Option<Sha> {
    if n in failedSha then Some(failedSha[n]) else None
  }

  ghost predicate PinsAgree(events: seq<Event>, failedSha: map<Name, Sha>) {
    forall n :: PinOf(events, n) == FailedOn(failedSha, n)
  }

  /** A poll that has decided to act saw an eligible row, and a commit that is neither shipped nor pinned. */
  predicate DecisionFits(failedSha: map<Name, Sha>, task: Task) {
    task.pc.Recording? || task.pc.Redeploying? ==>
      && task.pc.last.Candidate() && task.pc.last.skip.None? && task.pc.last.Source() == task.pc.probed
      && task.pc.last.commit != Some(task.pc.sha) && FailedOn(failedSha, task.name) != Some(task.pc.sha)
  }

  predicate DecisionsFit(failedSha: map<Name, Sha>, tasks: Tasks) {
    forall t <- tasks :: DecisionFits(failedSha, tasks[t])
  }

  /** No event triggers a commit its service is pinned on. */
  predicate TriggersRespectPins(events: seq<Event>) {
    forall i :: 0 <= i < |events| && events[i].Triggered? ==> PinOf(events[..i], events[i].name) != Some(events[i].sha)
  }

  ghost predicate Inv(w: Watch) {
    && RegistryFits(w.inflight, w.tasks, w.nextId)
    && NudgesFit(w.inflight, w.tasks, w.renudge, w.owed)
    && PinsAgree(w.events, w.failedSha) && TriggersRespectPins(w.events)
    && DecisionsFit(w.failedSha, w.tasks)
    && |w.nudged| <= REMEMBERED
  }

  function PinAfter(before: Option<Sha>, e: Event, n: Name): Option<Sha> {
    match e
    case Pinned(m, sha) => if m == n then Some(sha) else before
    case Released(m) => if m == n then None else before
    case Swept(kept) => if n in kept then before else None
    case Triggered(_, _) => before
  }

  lemma PinsOfOneMore(events: seq<Event>, e: Event)
    ensures forall n :: PinOf(events + [e], n) == PinAfter(PinOf(events, n), e, n)
  {
    assert (events + [e])[..|events + [e]| - 1] == events;
  }

  lemma TriggersOfOneMore(events: seq<Event>, e: Event)
    requires TriggersRespectPins(events)
    requires e.Triggered? ==> PinOf(events, e.name) != Some(e.sha)
    ensures TriggersRespectPins(events + [e])
  {
    forall i | 0 <= i <= |events|
      ensures (events + [e])[..i] == events[..i]
    {
    }
    assert events[..|events|] == events;
  }

  // --- every step keeps the invariant ------------------------------------------------------------

  function Moved(tasks: Tasks, t: TaskId, pc: Pc): Tasks
    requires t in tasks
  {
    tasks[t := tasks[t].(pc := pc)]
  }

  lemma MoveKeepsRegistry(inflight: Registry, tasks: Tasks, nextId: TaskId, t: TaskId, pc: Pc)
    requires RegistryFits(inflight, tasks, nextId) && t in tasks
    ensures RegistryFits(inflight, Moved(tasks, t, pc), nextId)
  {
  }

  /** Moving a started task on changes nothing about which polls are still to start. */
  lemma MoveKeepsNudges(
    inflight: Registry, tasks: Tasks, renudge: set<Name>, owed: set<Name>, t: TaskId, pc: Pc)
    requires NudgesFit(inflight, tasks, renudge, owed) && t in tasks && !tasks[t].pc.Unbegun?
    ensures NudgesFit(inflight, Moved(tasks, t, pc), renudge, owed)
  {
    forall n | n in owed
      ensures PollAhead(inflight, Moved(tasks, t, pc), renudge, n)
    {
      assert PollAhead(inflight, tasks, renudge, n);
    }
  }

  lemma MoveKeepsDecisions(failedSha: map<Name, Sha>, tasks: Tasks, t: TaskId, pc: Pc)
    requires DecisionsFit(failedSha, tasks) && t in tasks && DecisionFits(failedSha, tasks[t].(pc := pc))
    ensures DecisionsFit(failedSha, Moved(tasks, t, pc))
  {
  }

  lemma MoveKeeps(w: Watch, t: TaskId, pc: Pc)
    requires Inv(w) && t in w.tasks && !w.tasks[t].pc.Unbegun?
    requires DecisionFits(w.failedSha, w.tasks[t].(pc := pc))
    ensures Inv(Goto(w, t, pc))
  {
    MoveKeepsRegistry(w.inflight, w.tasks, w.nextId, t, pc);
    MoveKeepsNudges(w.inflight, w.tasks, w.renudge, w.owed, t, pc);
    MoveKeepsDecisions(w.failedSha, w.tasks, t, pc);
  }

  lemma SpawnKeepsRegistry(inflight: Registry, tasks: Tasks, nextId: TaskId, n: Name)
    requires RegistryFits(inflight, tasks, nextId) && n !in inflight
    ensures RegistryFits(inflight[n := nextId], tasks[nextId := Task(n, Unbegun)], nextId + 1)
  {
  }

  /** A spawned poll is still to start, whatever its service is owed. */
  lemma SpawnKeepsNudges(
    inflight: Registry, tasks: Tasks, nextId: TaskId, renudge: set<Name>, owed: set<Name>, n: Name)
    requires RegistryFits(inflight, tasks, nextId) && NudgesFit(inflight, tasks, renudge, owed - {n})
    ensures NudgesFit(inflight[n := nextId], tasks[nextId := Task(n, Unbegun)], renudge, owed)
  {
    forall m | m in owed
      ensures PollAhead(inflight[n := nextId], tasks[nextId := Task(n, Unbegun)], renudge, m)
    {
      if m != n {
        assert PollAhead(inflight, tasks, renudge, m);
      }
    }
  }

  lemma SpawnKeeps(w: Watch, n: Name)
    requires n !in w.inflight && RegistryFits(w.inflight, w.tasks, w.nextId)
    requires NudgesFit(w.inflight, w.tasks, w.renudge, w.owed - {n})
    requires PinsAgree(w.events, w.failedSha) && TriggersRespectPins(w.events)
    requires DecisionsFit(w.failedSha, w.tasks) && |w.nudged| <= REMEMBERED
    ensures Inv(Spawn(w, n))
  {
    SpawnKeepsRegistry(w.inflight, w.tasks, w.nextId, n);
    SpawnKeepsNudges(w.inflight, w.tasks, w.nextId, w.renudge, w.owed, n);
  }

  lemma OwingLess(inflight: Registry, tasks: Tasks, renudge: set<Name>, owed: set<Name>, fewer: set<Name>)
    requires NudgesFit(inflight, tasks, renudge, owed) && fewer <= owed
    ensures NudgesFit(inflight, tasks, renudge, fewer)
  {
  }

  lemma NudgeInFlight(inflight: Registry, tasks: Tasks, renudge: set<Name>, owed: set<Name>, n: Name)
    requires NudgesFit(inflight, tasks, renudge, owed) && n in inflight
    ensures NudgesFit(inflight, tasks, renudge + {n}, owed + {n})
  {
    forall m | m in owed + {n}
      ensures PollAhead(inflight, tasks, renudge + {n}, m)
    {
      assert m != n ==> PollAhead(inflight, tasks, renudge, m);
    }
  }

  lemma NudgeKeeps(w: Watch, n: Name, sha: Sha)
    requires Inv(w)
    ensures Inv(DoNudge(w, n, sha))
  {
    if (n, sha) !in w.nudged {
      if n in w.inflight {
        NudgeInFlight(w.inflight, w.tasks, w.renudge, w.owed, n);
      } else {
        OwingLess(w.inflight, w.tasks, w.renudge, w.owed, w.owed + {n} - {n});
        SpawnKeeps(DueNow(w.(pending := w.pending[n := sha], owed := w.owed + {n}), n), n);
      }
    }
  }

  lemma NudgedHasAPollAhead(w: Watch, n: Name, sha: Sha)
    requires Inv(w) && (n, sha) !in w.nudged
    ensures var v := DoNudge(w, n, sha); PollAhead(v.inflight, v.tasks, v.renudge, n)
  {
  }

  lemma DropKeepsRegistry(inflight: Registry, tasks: Tasks, nextId: TaskId, t: TaskId)
    requires RegistryFits(inflight, tasks, nextId) && t in tasks
    ensures RegistryFits(Without(inflight, tasks[t].name), tasks - {t}, nextId)
  {
  }

  lemma DropKeepsNudges(
    inflight: Registry, tasks: Tasks, nextId: TaskId, renudge: set<Name>, owed: set<Name>, t: TaskId)
    requires RegistryFits(inflight, tasks, nextId) && NudgesFit(inflight, tasks, renudge, owed) && t in tasks
    ensures var n := tasks[t].name;
      NudgesFit(Without(inflight, n), tasks - {t}, renudge - {n}, owed - {n})
  {
    var n := tasks[t].name;
    forall m | m in owed - {n}
      ensures PollAhead(Without(inflight, n), tasks - {t}, renudge - {n}, m)
    {
      assert PollAhead(inflight, tasks, renudge, m);
    }
  }

  lemma DropFits(w: Watch, t: TaskId)
    requires Inv(w) && At(w, t)
    ensures var v := Dropped(w, t);
      && RegistryFits(v.inflight, v.tasks, v.nextId) && DecisionsFit(v.failedSha, v.tasks)
      && NudgesFit(v.inflight, v.tasks, v.renudge, v.owed - {w.tasks[t].name})
      && w.tasks[t].name !in v.inflight
  {
    DropKeepsRegistry(w.inflight, w.tasks, w.nextId, t);
    DropKeepsNudges(w.inflight, w.tasks, w.nextId, w.renudge, w.owed, t);
  }

  /** A deadline is all that re-arming changes. */
  lemma RearmingIsADeadline(w: Watch, n: Name, pc: Pc)
    ensures Rearmed(w, n, pc) == w.(failures := Rearmed(w, n, pc).failures, nextDue := Rearmed(w, n, pc).nextDue)
  {
    if pc.Closing? {
      if pc.retry {
        assert Rearmed(w, n, pc) == Backoff(w, n);
      } else {
        assert Rearmed(w, n, pc) == Schedule(w, n);
      }
    }
  }

  /** A finished poll whose service is owed one has a nudge behind it, and follows it up. */
  lemma CloseKeeps(w: Watch, t: TaskId)
    requires Inv(w) && At(w, t) && !w.stopping && w.tasks[t].pc.Closing?
    ensures Inv(DoClose(w, t, false))
  {
    var Task(n, pc) := w.tasks[t];
    var v := Rearmed(w, n, pc);
    RearmingIsADeadline(w, n, pc);
    DropFits(v, t);
    if n in w.renudge {
      SpawnKeeps(DueNow(Dropped(v, t), n), n);
    } else {
      assert n in w.owed ==> PollAhead(w.inflight, w.tasks, w.renudge, n);
      assert w.owed - {n} == w.owed;
    }
  }

  lemma SweepKeepsDecisions(failedSha: map<Name, Sha>, tasks: Tasks, names: set<Name>)
    requires DecisionsFit(failedSha, tasks)
    ensures DecisionsFit(Kept(failedSha, names), tasks)
  {
    assert forall t <- tasks :: DecisionFits(failedSha, tasks[t]);
  }

  lemma SweepKeepsNudges(w: Watch, names: set<Name>)
    requires NudgesFit(w.inflight, w.tasks, w.renudge, w.owed)
    ensures NudgesFit(w.inflight, w.tasks, w.renudge * names, OwedAfter(w, names))
  {
    forall m | m in OwedAfter(w, names)
      ensures PollAhead(w.inflight, w.tasks, w.renudge * names, m)
    {
      assert PollAhead(w.inflight, w.tasks, w.renudge, m);
    }
  }

  lemma SweepKeeps(w: Watch, names: set<Name>)
    requires Inv(w)
    ensures Inv(Prune(w, names))
  {
    PinsOfOneMore(w.events, Swept(names));
    TriggersOfOneMore(w.events, Swept(names));
    SweepKeepsDecisions(w.failedSha, w.tasks, names);
    SweepKeepsNudges(w, names);
  }

  lemma RememberIsBounded(nudged: seq<(Name, Sha)>, key: (Name, Sha))
    ensures |nudged| <= REMEMBERED ==> |Remember(nudged, key)| <= REMEMBERED
  {
  }

  lemma CommitKeeps(w: Watch, n: Name)
    requires Inv(w)
    ensures Inv(CommitNudge(w, n)) && CommitNudge(w, n).tasks == w.tasks
    ensures CommitNudge(w, n).failedSha == w.failedSha
  {
    if n in w.pending {
      RememberIsBounded(w.nudged, (n, w.pending[n]));
    }
  }

  lemma DecideKeeps(w: Watch, t: TaskId)
    requires Inv(w) && t in w.tasks && w.tasks[t].pc.Regating?
    ensures Inv(DoReadAgain(w, t))
  {
    var Task(n, pc) := w.tasks[t];
    var row := Eligible(w, n);
    var quiet := w.(failures := Without(w.failures, n));
    if row.None? || row.value.Source() != pc.probed {
      MoveKeeps(w, t, Closing(false));
    } else if row.value.commit == Some(pc.sha) {
      CommitKeeps(quiet, n);
      MoveKeeps(CommitNudge(quiet, n), t, Closing(false));
    } else if n in w.failedSha && w.failedSha[n] == pc.sha {
      MoveKeeps(quiet, t, Closing(false));
    } else {
      MoveKeeps(w, t, Recording(pc.probed, row.value, pc.sha));
    }
  }

  lemma RecordKeeps(w: Watch, t: TaskId)
    requires Inv(w) && t in w.tasks && w.tasks[t].pc.Recording?
    ensures Inv(DoRecord(w, t))
  {
    var Task(n, pc) := w.tasks[t];
    var e := Triggered(n, pc.sha);
    assert DecisionFits(w.failedSha, w.tasks[t]);
    assert PinOf(w.events, n) == FailedOn(w.failedSha, n);
    PinsOfOneMore(w.events, e);
    TriggersOfOneMore(w.events, e);
    MoveKeeps(w.(events := w.events + [e]), t, Redeploying(pc.probed, pc.last, pc.sha));
  }

  /** Changing one service's pin looks into no other service's decision: a service has one poll. */
  lemma PinKeepsDecisions(
    inflight: Registry, tasks: Tasks, nextId: TaskId, failedSha: map<Name, Sha>, changed: map<Name, Sha>, t: TaskId)
    requires RegistryFits(inflight, tasks, nextId) && DecisionsFit(failedSha, tasks) && t in tasks
    requires forall n | n != tasks[t].name :: FailedOn(changed, n) == FailedOn(failedSha, n)
    ensures DecisionsFit(changed, Moved(tasks, t, Closing(false)))
  {
    forall u | u in tasks && u != t
      ensures DecisionFits(changed, tasks[u])
    {
      assert DecisionFits(failedSha, tasks[u]);
    }
  }

  lemma ReleaseUnpins(events: seq<Event>, failedSha: map<Name, Sha>, n: Name)
    requires PinsAgree(events, failedSha) && TriggersRespectPins(events)
    ensures PinsAgree(events + [Released(n)], Without(failedSha, n)) && TriggersRespectPins(events + [Released(n)])
  {
    PinsOfOneMore(events, Released(n));
    TriggersOfOneMore(events, Released(n));
  }

  lemma ShippedKeeps(w: Watch, t: TaskId, v: Watch)
    requires Inv(w) && t in w.tasks && w.tasks[t].pc.Redeploying? && v == DoRedeploy(w, t, Shipped)
    ensures Inv(v)
  {
    var n := w.tasks[t].name;
    ReleaseUnpins(w.events, w.failedSha, n);
    PinKeepsDecisions(w.inflight, w.tasks, w.nextId, w.failedSha, Without(w.failedSha, n), t);
    MoveKeepsRegistry(w.inflight, w.tasks, w.nextId, t, Closing(false));
    MoveKeepsNudges(w.inflight, w.tasks, w.renudge, w.owed, t, Closing(false));
    if n in w.pending {
      RememberIsBounded(w.nudged, (n, w.pending[n]));
    }
  }

  lemma RefusedKeeps(w: Watch, t: TaskId, v: Watch)
    requires Inv(w) && t in w.tasks && w.tasks[t].pc.Redeploying? && v == DoRedeploy(w, t, Refused)
    ensures Inv(v)
  {
    var Task(n, pc) := w.tasks[t];
    PinsOfOneMore(w.events, Pinned(n, pc.sha));
    TriggersOfOneMore(w.events, Pinned(n, pc.sha));
    PinKeepsDecisions(w.inflight, w.tasks, w.nextId, w.failedSha, w.failedSha[n := pc.sha], t);
    MoveKeepsRegistry(w.inflight, w.tasks, w.nextId, t, Closing(false));
    MoveKeepsNudges(w.inflight, w.tasks, w.renudge, w.owed, t, Closing(false));
  }

  /** Starting a poll settles what its service was owed. */
  lemma BeginKeepsNudges(
    inflight: Registry, tasks: Tasks, nextId: TaskId, renudge: set<Name>, owed: set<Name>, t: TaskId)
    requires RegistryFits(inflight, tasks, nextId) && NudgesFit(inflight, tasks, renudge, owed) && t in tasks
    ensures NudgesFit(inflight, Moved(tasks, t, Gating), renudge, owed - {tasks[t].name})
  {
    forall m | m in owed - {tasks[t].name}
      ensures PollAhead(inflight, Moved(tasks, t, Gating), renudge, m)
    {
      assert PollAhead(inflight, tasks, renudge, m);
    }
  }

  lemma BeginKeeps(w: Watch, t: TaskId)
    requires Inv(w) && t in w.tasks && w.tasks[t].pc.Unbegun?
    ensures Inv(DoPoll(w, t, Begin))
  {
    MoveKeepsRegistry(w.inflight, w.tasks, w.nextId, t, Gating);
    BeginKeepsNudges(w.inflight, w.tasks, w.nextId, w.renudge, w.owed, t);
    MoveKeepsDecisions(w.failedSha, w.tasks, t, Gating);
  }

  lemma SpawnDueKeeps(w: Watch, n: Name)
    requires Inv(w) && n !in w.inflight
    ensures Inv(Spawn(w, n))
  {
    OwingLess(w.inflight, w.tasks, w.renudge, w.owed, w.owed - {n});
    SpawnKeeps(w, n);
  }

  lemma PollStepKeeps(w: Watch, t: TaskId, p: PollStep)
    requires Inv(w) && !w.stopping && At(w, t) && CanPoll(w, t, p)
    ensures Inv(DoPoll(w, t, p))
  {
    match p
    case Begin => BeginKeeps(w, t);
    case ReadFirst(usable) => MoveKeeps(w, t, DoReadFirst(w, t, usable).tasks[t].pc);
    case Probe(head) =>
      MoveKeeps(w, t, if head.None? then Closing(true) else Regating(w.tasks[t].pc.probed, head.value));
    case ReadAgain => DecideKeeps(w, t);
    case Record => RecordKeeps(w, t);
    case Redeploy(outcome) => RedeployKeeps(w, t, outcome, DoRedeploy(w, t, outcome));
    case Fault => MoveKeeps(w, t, Closing(true));
    case Close(cancelled) => CloseKeeps(w, t);
  }

  lemma RedeployKeeps(w: Watch, t: TaskId, outcome: Outcome, v: Watch)
    requires Inv(w) && At(w, t) && w.tasks[t].pc.Redeploying? && v == DoRedeploy(w, t, outcome)
    ensures Inv(v)
  {
    match outcome
    case Shipped => ShippedKeeps(w, t, v);
    case Refused => RefusedKeeps(w, t, v);
    case Contended => MoveKeeps(w, t, Closing(true));
    case Broken => MoveKeeps(w, t, Closing(true));
  }

  lemma StepKeeps(w: Watch, a: Step)
    requires Inv(w) && !w.stopping && Enabled(w, a)
    ensures Inv(Next(w, a))
  {
    match a
    case ReadScan =>
    case Sweep => SweepKeeps(w, w.scan.value.candidates);
    case SpawnDue(n) => SpawnDueKeeps(w, n);
    case FinishScan(_) =>
    case Nudge(n, sha) => NudgeKeeps(w, n, sha);
    case Poll(t, p) => PollStepKeeps(w, t, p);
    case Edit(_, _) =>
    case Wait(_) =>
    case Stop =>
  }

  // --- whole runs --------------------------------------------------------------------------------

  /** The run never reaches shutdown. */
  predicate KeepsRunning(steps: seq<Step>) {
    forall a <- steps :: !a.Stop?
  }

  /** The step neither starts a poll of anything nor shuts the poller down. */
  predicate Quiet(w: Watch, v: Watch) {
    v.stopping == w.stopping && v.owed == w.owed
  }

  lemma ReadAgainIsQuiet(w: Watch, t: TaskId)
    requires At(w, t) && w.tasks[t].pc.Regating?
    ensures Quiet(w, DoReadAgain(w, t))
  {
  }

  lemma RedeployIsQuiet(w: Watch, t: TaskId, outcome: Outcome)
    requires At(w, t) && w.tasks[t].pc.Redeploying?
    ensures Quiet(w, DoRedeploy(w, t, outcome))
  {
  }

  /** Spawning and resetting a deadline owe nobody more or less. */
  lemma SpawnIsQuiet(w: Watch, n: Name)
    ensures Quiet(w, Spawn(w, n)) && Quiet(w, DueNow(w, n))
  {
  }

  lemma CloseIsQuiet(w: Watch, t: TaskId, cancelled: bool)
    requires At(w, t)
    ensures Quiet(w, DoClose(w, t, cancelled))
  {
    var Task(n, pc) := w.tasks[t];
    var u := Dropped(Rearmed(w, n, pc), t);
    RearmingIsADeadline(w, n, pc);
    SpawnIsQuiet(u, n);
    SpawnIsQuiet(DueNow(u, n), n);
  }

  lemma PollsAreQuiet(w: Watch, t: TaskId, p: PollStep)
    requires At(w, t) && CanPoll(w, t, p)
    ensures DoPoll(w, t, p).stopping == w.stopping
    ensures DoPoll(w, t, p).owed == if p.Begin? then w.owed - {w.tasks[t].name} else w.owed
  {
    match p
    case Begin =>
    case ReadFirst(_) =>
    case Probe(_) =>
    case ReadAgain => ReadAgainIsQuiet(w, t);
    case Record =>
    case Redeploy(outcome) => RedeployIsQuiet(w, t, outcome);
    case Fault =>
    case Close(cancelled) => CloseIsQuiet(w, t, cancelled);
  }

  lemma OnlyStopStops(w: Watch, a: Step)
    requires Enabled(w, a) && !a.Stop?
    ensures Next(w, a).stopping == w.stopping
  {
    if a.Poll? {
      PollsAreQuiet(w, a.t, a.p);
    }
  }

  lemma {:induction false} RunKeeps(w: Watch, steps: seq<Step>)
    requires Inv(w) && !w.stopping && Valid(w, steps) && KeepsRunning(steps)
    ensures Inv(Exec(w, steps)) && !Exec(w, steps).stopping
    decreases |steps|
  {
    if steps != [] {
      assert !steps[0].Stop?;
      StepKeeps(w, steps[0]);
      OnlyStopStops(w, steps[0]);
      assert KeepsRunning(steps[1..]);
      RunKeeps(Next(w, steps[0]), steps[1..]);
    }
  }

  lemma InitialHolds(w: Watch)
    requires Initial(w)
    ensures Inv(w)
  {
  }

  /** Until shutdown a service has at most one poll, and a re-nudge only ever waits behind one. */
  lemma OnePollPerService(w: Watch, steps: seq<Step>)
    requires Initial(w) && Valid(w, steps) && KeepsRunning(steps)
    ensures var v := Exec(w, steps);
      && (forall t, u :: t in v.tasks && u in v.tasks && v.tasks[t].name == v.tasks[u].name ==> t == u)
      && v.renudge <= v.inflight.Keys
      && v.inflight.Keys == set t | t in v.tasks :: v.tasks[t].name
  {
    InitialHolds(w);
    RunKeeps(w, steps);
  }

  /**
   * The step starts a poll of `n`, or a scan that did not see `n` as a candidate drops the re-nudge
   * waiting behind a poll that has started.
   */
  predicate SettlesNudge(w: Watch, a: Step, n: Name) {
    || (a.Poll? && a.p.Begin? && At(w, a.t) && w.tasks[a.t].name == n)
    || (a.Sweep? && w.scan.Some? && n !in w.scan.value.candidates && !UnbegunPoll(w.inflight, w.tasks, n))
  }

  predicate LeavesOwed(w: Watch, steps: seq<Step>, n: Name)
    requires Valid(w, steps)
    decreases |steps|
  {
    steps == [] || (!SettlesNudge(w, steps[0], n) && LeavesOwed(Next(w, steps[0]), steps[1..], n))
  }

  lemma StaysOwed(w: Watch, a: Step, n: Name)
    requires Enabled(w, a) && n in w.owed && !SettlesNudge(w, a, n)
    ensures n in Next(w, a).owed
  {
    if a.Poll? {
      PollsAreQuiet(w, a.t, a.p);
    }
  }

  lemma {:induction false} RunStaysOwed(w: Watch, steps: seq<Step>, n: Name)
    requires Valid(w, steps) && n in w.owed && LeavesOwed(w, steps, n)
    ensures n in Exec(w, steps).owed
    decreases |steps|
  {
    if steps != [] {
      StaysOwed(w, steps[0], n);
      RunStaysOwed(Next(w, steps[0]), steps[1..], n);
    }
  }

  /**
   * No matched nudge is lost. After it, and for as long as no poll of the service has started and no
   * scan has dropped it, a poll is registered that has not started, or one is running that will be
   * followed by another.
   */
  lemma EveryNudgeHasAPollAhead(w: Watch, before: seq<Step>, n: Name, sha: Sha, after: seq<Step>)
    requires Initial(w) && Valid(w, before) && KeepsRunning(before) && (n, sha) !in Exec(w, before).nudged
    requires var v := DoNudge(Exec(w, before), n, sha);
      Valid(v, after) && KeepsRunning(after) && LeavesOwed(v, after, n)
    ensures var u := Exec(DoNudge(Exec(w, before), n, sha), after);
      PollAhead(u.inflight, u.tasks, u.renudge, n)
  {
    var v := Exec(w, before);
    InitialHolds(w);
    RunKeeps(w, before);
    NudgeKeeps(v, n, sha);
    var nudged := DoNudge(v, n, sha);
    RunKeeps(nudged, after);
    RunStaysOwed(nudged, after, n);
  }

  /** A state some run reaches before shutdown. */
  ghost predicate Reachable(v: Watch) {
    exists w: Watch, steps: seq<Step> :: Initial(w) && Valid(w, steps) && KeepsRunning(steps) && Exec(w, steps) == v
  }

  lemma ReachableHolds(v: Watch)
    requires Reachable(v)
    ensures Inv(v) && !v.stopping
  {
    var w: Watch, steps: seq<Step> :| Initial(w) && Valid(w, steps) && KeepsRunning(steps) && Exec(w, steps) == v;
    InitialHolds(w);
    RunKeeps(w, steps);
  }

  /** A poll that finishes while its service is owed one is followed by one that has not started and is due now. */
  lemma FollowsUp(w: Watch, t: TaskId)
    requires Inv(w) && At(w, t) && !w.stopping && w.tasks[t].pc.Closing?
    ensures Inv(DoClose(w, t, false))
    ensures w.tasks[t].name in w.owed ==>
      var v, n := DoClose(w, t, false), w.tasks[t].name;
      UnbegunPoll(v.inflight, v.tasks, n) && n in v.nextDue && v.nextDue[n] == 0 && n !in v.failures && n !in v.renudge
  {
    CloseKeeps(w, t);
    if w.tasks[t].name in w.owed {
      assert PollAhead(w.inflight, w.tasks, w.renudge, w.tasks[t].name);
    }
  }

  /** The same in every run. */
  lemma FollowUpIsSpawned(w: Watch, t: TaskId)
    requires Reachable(w) && Enabled(w, Poll(t, Close(false))) && w.tasks[t].name in w.owed
    ensures var v := Next(w, Poll(t, Close(false)));
      var n := w.tasks[t].name;
      UnbegunPoll(v.inflight, v.tasks, n) && n in v.nextDue && v.nextDue[n] == 0 && n !in v.failures && n !in v.renudge
  {
    ReachableHolds(w);
    FollowsUp(w, t);
  }

  lemma OneMoreStep(w: Watch, a: Step, rest: seq<Step>)
    requires Enabled(w, a) && Valid(Next(w, a), rest)
    ensures Valid(w, [a] + rest) && Exec(w, [a] + rest) == Exec(Next(w, a), rest)
  {
    assert ([a] + rest)[1..] == rest;
  }

  /** A finishing poll nobody waits behind leaves its service out of the registries. */
  lemma CloseAlone(w: Watch, t: TaskId)
    requires Inv(w) && Enabled(w, Poll(t, Close(false))) && w.tasks[t].name !in w.renudge
    ensures var v := Next(w, Poll(t, Close(false)));
      w.tasks[t].name !in v.inflight && v.pending == w.pending && v.renudge == w.renudge - {w.tasks[t].name}
  {
    RearmingIsADeadline(w, w.tasks[t].name, w.tasks[t].pc);
  }

  /**
   * The exception is real: a nudge that comes while a poll is about to finish, between the read and
   * the pruning of a scan that did not see its service, is dropped and followed by no poll.
   */
  lemma StaleScanDropsARenudge(w: Watch, t: TaskId, sha: Sha) returns (steps: seq<Step>)
    requires Reachable(w) && At(w, t) && w.tasks[t].pc.Closing? && w.scan.Some? && !w.scan.value.swept
    requires w.tasks[t].name !in w.scan.value.candidates && (w.tasks[t].name, sha) !in w.nudged
    ensures steps == [Nudge(w.tasks[t].name, sha)] + ([Sweep] + [Poll(t, Close(false))]) && Valid(w, steps)
    ensures var v := Exec(w, steps);
      w.tasks[t].name !in v.inflight && w.tasks[t].name !in v.pending && w.tasks[t].name !in v.renudge
  {
    ReachableHolds(w);
    var n := w.tasks[t].name;
    var u1 := DoNudge(w, n, sha);
    NudgeKeeps(w, n, sha);
    var u2 := Prune(u1, w.scan.value.candidates).(scan := Some(w.scan.value.(swept := true)));
    SweepKeeps(u1, w.scan.value.candidates);
    CloseAlone(u2, t);
    OneMoreStep(u2, Poll(t, Close(false)), []);
    assert [Poll(t, Close(false))] + [] == [Poll(t, Close(false))];
    OneMoreStep(u1, Sweep, [Poll(t, Close(false))]);
    steps := [Nudge(n, sha)] + ([Sweep] + [Poll(t, Close(false))]);
    OneMoreStep(w, Nudge(n, sha), [Sweep] + [Poll(t, Close(false))]);
  }

  /**
   * Such a state exists: a scan reads the rows before the service is one of its candidates, a push then
   * starts a poll of it, and that poll is about to finish.
   */
  lemma StaleScanIsReachable(w: Watch, n: Name, row: Row, first: Sha, sha: Sha) returns (steps: seq<Step>, t: TaskId)
    requires Initial(w) && n !in w.rows && row.Candidate() && first != sha
    ensures Valid(w, steps) && KeepsRunning(steps)
    ensures var v := Exec(w, steps);
      && Reachable(v) && At(v, t) && v.tasks[t] == Task(n, Closing(true)) && n in v.rows && v.rows[n] == row
      && v.scan.Some? && !v.scan.value.swept && n !in v.scan.value.candidates && (n, sha) !in v.nudged
  {
    t := w.nextId;
    var u1 := w.(scan := Some(Scan(Candidates(w), w.now, false)));
    var u2 := u1.(rows := w.rows[n := row]);
    var u3 := DoNudge(u2, n, first);
    assert u3.tasks == w.tasks[t := Task(n, Unbegun)];
    steps := PollFaults(u3, t);
    OneMoreStep(u2, Nudge(n, first), steps);
    steps := [Nudge(n, first)] + steps;
    OneMoreStep(u1, Edit(n, Some(row)), steps);
    steps := [Edit(n, Some(row))] + steps;
    OneMoreStep(w, ReadScan, steps);
    steps := [ReadScan] + steps;
  }

  lemma PollFaults(w: Watch, t: TaskId) returns (steps: seq<Step>)
    requires At(w, t) && w.tasks[t].pc.Unbegun?
    ensures Valid(w, steps) && KeepsRunning(steps)
    ensures Exec(w, steps) == w.(owed := w.owed - {w.tasks[t].name},
                                 tasks := w.tasks[t := Task(w.tasks[t].name, Closing(true))])
  {
    var u := Next(w, Poll(t, Begin));
    OneMoreStep(u, Poll(t, Fault), []);
    OneMoreStep(w, Poll(t, Begin), [Poll(t, Fault)] + []);
    steps := [Poll(t, Begin)] + ([Poll(t, Fault)] + []);
  }

  /**
   * Every trigger of a run rests on a last fresh read that showed a candidate with nothing against a
   * cutover, on the very source that was probed, at neither the recorded nor the pinned commit.
   */
  lemma TriggersAreGuarded(w: Watch, steps: seq<Step>, t: TaskId)
    requires Initial(w) && Valid(w, steps) && KeepsRunning(steps)
    requires Enabled(Exec(w, steps), Poll(t, Record))
    ensures var v := Exec(w, steps);
      var Task(n, pc) := v.tasks[t];
      && pc.last.Candidate() && pc.last.skip.None? && pc.last.Source() == pc.probed
      && pc.last.commit != Some(pc.sha) && (n in v.failedSha ==> v.failedSha[n] != pc.sha)
  {
    InitialHolds(w);
    RunKeeps(w, steps);
    var v := Exec(w, steps);
    assert DecisionFits(v.failedSha, v.tasks[t]);
  }

  /** Over any run, a commit pinned as failing is not triggered again until the pin is gone or moved. */
  lemma PinnedCommitsAreNotRetriggered(w: Watch, steps: seq<Step>)
    requires Initial(w) && Valid(w, steps) && KeepsRunning(steps)
    ensures TriggersRespectPins(Exec(w, steps).events)
  {
    InitialHolds(w);
    RunKeeps(w, steps);
  }

  /**
   * What a completed poll remembers is the commit the nudge named, whatever commit it saw deployed or
   * shipped itself: a commit not remembered before is remembered now if and only if the nudge named it.
   */
  lemma CommitRecordsTheHint(w: Watch, t: TaskId, p: PollStep)
    requires Enabled(w, Poll(t, p)) && (p.ReadAgain? || p.Redeploy?) && |w.nudged| <= REMEMBERED
    requires w.tasks[t].name in w.pending && w.tasks[t].name !in Next(w, Poll(t, p)).pending
    ensures var n, sha, v := w.tasks[t].name, w.tasks[t].pc.sha, Next(w, Poll(t, p));
      && (n, w.pending[n]) in v.nudged
      && ((n, sha) !in w.nudged ==> ((n, sha) in v.nudged <==> w.pending[n] == sha))
  {
    var n := w.tasks[t].name;
    CompletionRemembers(w, t, p);
    RememberKeepsTheNewest(w.nudged, (n, w.pending[n]));
    if w.pending[n] != w.tasks[t].pc.sha && (n, w.tasks[t].pc.sha) !in w.nudged {
      RememberAddsOne(w.nudged, (n, w.pending[n]), (n, w.tasks[t].pc.sha));
    }
  }

  lemma CompletionRemembers(w: Watch, t: TaskId, p: PollStep)
    requires Enabled(w, Poll(t, p)) && (p.ReadAgain? || p.Redeploy?) && w.tasks[t].name in w.pending
    requires w.tasks[t].name !in Next(w, Poll(t, p)).pending
    ensures var n := w.tasks[t].name; Next(w, Poll(t, p)).nudged == Remember(w.nudged, (n, w.pending[n]))
  {
    match p
    case ReadAgain => ReadAgainRemembers(w, t, DoReadAgain(w, t));
    case Redeploy(outcome) => RedeployRemembers(w, t, outcome, DoRedeploy(w, t, outcome));
  }

  /** The dedupe and the pending commit change together or not at all. */
  predicate RemembersTogether(w: Watch, v: Watch, n: Name)
    requires n in w.pending
  {
    v.pending == w.pending || v.nudged == Remember(w.nudged, (n, w.pending[n]))
  }

  lemma ReadAgainRemembers(w: Watch, t: TaskId, v: Watch)
    requires At(w, t) && w.tasks[t].pc.Regating? && v == DoReadAgain(w, t) && w.tasks[t].name in w.pending
    ensures RemembersTogether(w, v, w.tasks[t].name)
  {
    var n := w.tasks[t].name;
    var quiet := w.(failures := Without(w.failures, n));
    if v != Goto(CommitNudge(quiet, n), t, Closing(false)) {
      assert v.pending == w.pending;
    }
  }

  lemma RedeployRemembers(w: Watch, t: TaskId, outcome: Outcome, v: Watch)
    requires At(w, t) && w.tasks[t].pc.Redeploying? && v == DoRedeploy(w, t, outcome)
      && w.tasks[t].name in w.pending
    ensures RemembersTogether(w, v, w.tasks[t].name)
  {
  }

  lemma RememberAddsOne(nudged: seq<(Name, Sha)>, key: (Name, Sha), other: (Name, Sha))
    requires other !in nudged && other != key
    ensures other !in Remember(nudged, key)
  {
  }

  /** The newest key is always remembered; older ones only make room for newer. */
  lemma RememberKeepsTheNewest(nudged: seq<(Name, Sha)>, key: (Name, Sha))
    requires |nudged| <= REMEMBERED
    ensures key in Remember(nudged, key)
    ensures forall k <- nudged :: k in Remember(nudged, key) || k == nudged[0]
  {
    if key !in nudged {
      var grown := nudged + [key];
      assert grown[|grown| - 1] == key;
      if |grown| > REMEMBERED {
        assert grown[1..][|grown| - 2] == key;
        assert grown[1..] == nudged[1..] + [key];
      }
    }
  }

  lemma {:induction false} PowerGrows(a: nat, b: nat)
    requires a <= b
    ensures 1 <= PowerOfTwo(a) <= PowerOfTwo(b)
    decreases b
  {
    if a < b {
      PowerGrows(a, b - 1);
    } else if b > 0 {
      PowerGrows(a - 1, b - 1);
    }
  }

  lemma TimesGrows(k: nat, a: nat, b: nat)
    requires a <= b
    ensures k * a <= k * b
  {
  }

  /** Backoff never shrinks as failures add up, and never exceeds the cap. */
  lemma DelayGrowsToTheCap(interval: nat, a: nat, b: nat)
    requires a <= b
    ensures Delay(interval, a) <= Delay(interval, b) <= CAP
  {
    var x, y := if a < MAX_EXPONENT then a else MAX_EXPONENT, if b < MAX_EXPONENT then b else MAX_EXPONENT;
    PowerGrows(x, y);
    TimesGrows(interval, PowerOfTwo(x), PowerOfTwo(y));
  }
}
