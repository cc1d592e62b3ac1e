/** The poller in its own form: registries as fields that reconcile, nudge and the polls update in place. */
module GitWatch {
  import opened Common
  import opened GitWatchMachine
  import opened GitWatchProperties

  class GitWatchController {
    const interval: nat
    var inflight: map<Name, TaskId>
    var renudge: set<Name>
    var pending: map<Name, Sha>
    var nudged: seq<(Name, Sha)>
    var failures: map<Name, nat>
    var failedSha: map<Name, Sha>
    var nextDue: map<Name, nat>
    var scanDue: nat
    var stopping: bool
    var tasks: map<TaskId, Task>
    var nextId: TaskId
    var rows: map<Name, Row>
    var now: nat
    ghost var owed: set<Name>
    ghost var events: seq<Event>

    ghost function View(): Watch
      reads this
    {
      Watch(inflight, renudge, pending, nudged, failures, failedSha, nextDue, scanDue, stopping, None, tasks, nextId,
            rows, now, interval, owed, events)
    }

    constructor (interval: nat, rows: map<Name, Row>, now: nat)
      ensures this.interval == interval && this.rows == rows && this.now == now && Initial(View())
    {
      this.interval, this.rows, this.now := interval, rows, now;
      inflight, renudge, pending, nudged, failures, failedSha := map[], {}, map[], [], map[], map[];
      nextDue, scanDue, stopping, tasks, nextId, owed, events := map[], 0, false, map[], 0, {}, [];
    }

    /** Oldest out until the bound holds. */
    method RememberNudge(key: (Name, Sha))
      modifies this`nudged
      ensures nudged == Remember(old(nudged), key)
    {
      if key !in nudged {
        nudged := nudged + [key];
      }
      ghost var grown := nudged;
      while |nudged| > REMEMBERED
        invariant |nudged| <= |grown| && nudged == grown[|grown| - |nudged|..]
        invariant |grown| > REMEMBERED ==> |nudged| >= REMEMBERED
        invariant |grown| <= REMEMBERED ==> nudged == grown
        decreases |nudged|
      {
        nudged := nudged[1..];
      }
    }

    method ScheduleNext(n: Name)
      modifies this`nextDue
      ensures View() == Schedule(old(View()), n)
    {
      nextDue := nextDue[n := now + interval];
    }

    method BackOff(n: Name)
      modifies this`failures, this`nextDue
      ensures View() == Backoff(old(View()), n)
    {
      var count := (if n in failures then failures[n] else 0) + 1;
      failures := failures[n := count];
      nextDue := nextDue[n := now + Delay(interval, count)];
    }

    method SpawnPoll(n: Name)
      modifies this`inflight, this`tasks, this`nextId
      ensures View() == Spawn(old(View()), n)
    {
      inflight := inflight[n := nextId];
      tasks := tasks[nextId := Task(n, Unbegun)];
      nextId := nextId + 1;
    }

    method MakeDue(n: Name)
      modifies this`failures, this`nextDue, this`scanDue
      ensures View() == DueNow(old(View()), n)
    {
      failures := failures - {n};
      nextDue := nextDue[n := 0];
      scanDue := 0;
    }

    method QueueNudge(n: Name, sha: Sha)
      requires (n, sha) !in nudged
      modifies this
      ensures View() == DoNudge(old(View()), n, sha)
    {
      pending := pending[n := sha];
      owed := owed + {n};
      MakeDue(n);
      if n in inflight {
        renudge := renudge + {n};
      } else {
        SpawnPoll(n);
      }
    }

    /** One row a push matched and that opted in: unless remembered, a poll is ahead of it afterwards. */
    method NudgeOne(n: Name, sha: Sha) returns (matched: bool)
      requires Inv(View())
      modifies this
      ensures View() == DoNudge(old(View()), n, sha) && Inv(View())
      ensures matched == ((n, sha) !in old(nudged))
      ensures matched ==> PollAhead(inflight, tasks, renudge, n)
    {
      matched := (n, sha) !in nudged;
      if matched {
        NudgeKeeps(View(), n, sha);
        NudgedHasAPollAhead(View(), n, sha);
        QueueNudge(n, sha);
      }
    }

    method Rearm(n: Name, pc: Pc)
      modifies this`failures, this`nextDue
      ensures View() == Rearmed(old(View()), n, pc)
    {
      if pc.Closing? {
        if pc.retry {
          BackOff(n);
        } else {
          ScheduleNext(n);
        }
      }
    }

    method Leave(t: TaskId)
      requires t in tasks
      modifies this`inflight, this`tasks, this`renudge
      ensures View() == Dropped(old(View()), t)
    {
      var n := tasks[t].name;
      inflight := inflight - {n};
      tasks := tasks - {t};
      renudge := renudge - {n};
    }

    /**
     * The end of a poll: re-armed, out of the registry, and followed up if a nudge came meanwhile. A
     * service that is owed a poll has one that is yet to start.
     */
    method FinishPoll(t: TaskId, cancelled: bool)
      requires t in tasks && Inv(View())
      modifies this
      ensures View() == DoClose(old(View()), t, cancelled)
      ensures !cancelled && !old(stopping) && old(tasks[t].pc.Closing?) ==>
        Inv(View()) && (old(tasks[t].name in owed) ==> UnbegunPoll(inflight, tasks, old(tasks[t].name)))
    {
      if !cancelled && !stopping && tasks[t].pc.Closing? {
        FollowsUp(View(), t);
      }
      var n := tasks[t].name;
      Rearm(n, tasks[t].pc);
      var again := n in renudge;
      Leave(t);
      if again && !cancelled && !stopping {
        MakeDue(n);
        SpawnPoll(n);
      }
    }

    method DropOthers(names: set<Name>)
      modifies this`nextDue, this`failures, this`failedSha, this`pending, this`renudge, this`owed, this`events
      ensures nextDue == Kept(old(nextDue), names) && failures == Kept(old(failures), names)
      ensures failedSha == Kept(old(failedSha), names) && pending == Kept(old(pending), names)
      ensures renudge == old(renudge) * names && owed == OwedAfter(old(View()), names)
      ensures events == old(events) + [Swept(names)]
    {
      ghost var w := View();
      nextDue := Kept(nextDue, names);
      failures := Kept(failures, names);
      failedSha := Kept(failedSha, names);
      pending := Kept(pending, names);
      renudge := renudge * names;
      owed, events := OwedAfter(w, names), events + [Swept(names)];
    }

    /** The earliest deadline still ahead, at most one interval out. */
    method Horizon(at: nat) returns (due: nat)
      ensures IsNextScan(View(), at, due)
    {
      due := at + interval;
      var todo := nextDue.Keys;
      while todo != {}
        invariant todo <= nextDue.Keys && due <= at + interval
        invariant forall n <- nextDue :: n in todo || nextDue[n] <= at || due <= nextDue[n]
        invariant due == at + interval || exists n <- nextDue :: nextDue[n] > at && nextDue[n] == due
      {
        var n :| n in todo;
        if nextDue[n] > at && nextDue[n] < due {
          due := nextDue[n];
        }
        todo := todo - {n};
      }
    }

    /** Afterwards every candidate that was due has a poll, and nothing else was started. */
    method SpawnCandidates(candidates: set<Name>)
      requires RegistryFits(inflight, tasks, nextId)
      modifies this`inflight, this`tasks, this`nextId
      ensures RegistryFits(inflight, tasks, nextId)
      ensures forall n <- candidates :: (n in nextDue ==> now >= nextDue[n]) ==> n in inflight
      ensures forall n <- inflight :: n in old(inflight) || (n in candidates && NotBegun(inflight, tasks, n))
      ensures forall n <- old(inflight) :: n in inflight && inflight[n] == old(inflight)[n]
    {
      var todo := candidates;
      while todo != {}
        invariant todo <= candidates && RegistryFits(inflight, tasks, nextId)
        invariant forall n <- candidates :: n in todo || ((n in nextDue ==> now >= nextDue[n]) ==> n in inflight)
        invariant forall n <- inflight :: n in old(inflight) || (n in candidates && NotBegun(inflight, tasks, n))
        invariant forall n <- old(inflight) :: n in inflight && inflight[n] == old(inflight)[n]
      {
        var n :| n in todo;
        todo := todo - {n};
        if n !in inflight && !(n in nextDue && now < nextDue[n]) {
          SpawnKeepsRegistry(inflight, tasks, nextId, n);
          SpawnPoll(n);
        }
      }
    }

    /** The part of a scan after the rows have been read; before it is due a scan does nothing. */
    method Reconcile(candidates: set<Name>)
      requires RegistryFits(inflight, tasks, nextId)
      modifies this
      ensures RegistryFits(inflight, tasks, nextId)
      ensures now < old(scanDue) ==> View() == old(View())
      ensures now >= old(scanDue) ==>
        && IsNextScan(View(), now, scanDue) && nextDue == Kept(old(nextDue), candidates)
        && failures == Kept(old(failures), candidates) && failedSha == Kept(old(failedSha), candidates)
        && pending == Kept(old(pending), candidates) && renudge == old(renudge) * candidates
        && (forall n <- candidates :: (n in nextDue ==> now >= nextDue[n]) ==> n in inflight)
        && (forall n <- inflight :: n in old(inflight) || (n in candidates && NotBegun(inflight, tasks, n)))
    {
      if now < scanDue {
        return;
      }
      DropOthers(candidates);
      SpawnCandidates(candidates);
      scanDue := Horizon(now);
    }
  }

  predicate NotBegun(inflight: Registry, tasks: Tasks, n: Name) {
    n in inflight && inflight[n] in tasks && tasks[inflight[n]] == Task(n, Unbegun)
  }
}
