/**
 * The boot reap of orphaned run containers against runs that start while it works. A run claims its
 * slot before its container starts, and the slot learns the container's id only afterwards.
 */
module Sweeper {
  import opened Common

  type SlotId = nat
  type ContainerId = nat

  /** Where the reap stands. */
  datatype Reap =
    | Before
    | Listed(found: set<ContainerId>)
    | Settled(found: set<ContainerId>)
    | Probed(found: set<ContainerId>)
    | Reaping(todo: set<ContainerId>, rows: set<ContainerId>)
      // found unprotected; the kill is awaited
    | Killing(c: ContainerId, todo: set<ContainerId>, rows: set<ContainerId>)
      // killed, or not to be killed any more; the removal is awaited
    | Removing(c: ContainerId, todo: set<ContainerId>, rows: set<ContainerId>)
    | Over

  /** A kill lands, finds no such container, or is refused, as it is for one that has exited. */
  datatype KillOutcome = Killed | NotFound | Refused

  /**
   * The registry of held slots, who started which container, the ids ever used and the run-labelled
   * containers the runtime has running, the reap, and the containers it has killed; `harmed` are those it
   * killed or removed while the slot of their run was held.
   */
  datatype World = World(
    slots: map<SlotId, Option<ContainerId>>,
    claimed: set<SlotId>,
    owner: map<ContainerId, SlotId>,
    used: set<ContainerId>,
    labelled: set<ContainerId>,
    rowBacked: set<ContainerId>,
    reap: Reap,
    killed: set<ContainerId>,
    harmed: set<ContainerId>)
  {
    predicate HeldFor(c: ContainerId) {
      c in owner && owner[c] in slots
    }
  }

  datatype Step =
      // a run or release
    | Claim(r: SlotId)
    | Start(r: SlotId, c: ContainerId)
    | Bind(r: SlotId, c: ContainerId)
    | Discard(r: SlotId)
      // everything else that makes or removes labelled containers, and row writes
    | Appear(c: ContainerId)
    | Disappear(c: ContainerId)
    | WriteRow(ids: set<ContainerId>)
      // the reap; each may fail, which ends it
    | List
    | Settle
    | Probe
    | ReadRows
    | Visit(c: ContainerId)
    | Kill(outcome: KillOutcome)
    | Remove(removed: bool)
    | Fail

  predicate Enabled(w: World, a: Step) {
    match a
    case Claim(r) => r !in w.claimed
    case Start(r, c) => r in w.slots && w.slots[r].None? && c !in w.used && r !in w.owner.Values
    case Bind(r, c) => r in w.slots && w.slots[r].None? && c in w.owner && w.owner[c] == r
    case Discard(r) => r in w.slots
    case Appear(c) => c !in w.used
    case Disappear(_) => true
    case WriteRow(_) => true
    case List => w.reap.Before?
    case Settle => w.reap.Listed?
    case Probe => w.reap.Settled?
    case ReadRows => w.reap.Probed?
    case Visit(c) => w.reap.Reaping? && c in w.reap.todo
    case Kill(_) => w.reap.Killing?
    case Remove(_) => w.reap.Removing?
    case Fail => true
  }

  /** What the registry hook protects: the containers of bound slots. */
  function Protected(w: World): set<ContainerId> {
    set r | r in w.slots && w.slots[r].Some? :: w.slots[r].value
  }

  predicate SomeUnbound(w: World) {
    exists r <- w.slots :: w.slots[r].None?
  }

  /** One turn of the kill loop, up to the kill: the registry is read afresh, the rows are not. */
  function DoVisit(w: World, c: ContainerId): World
    requires w.reap.Reaping?
  {
    var rest := w.reap.todo - {c};
    w.(reap := if c in Protected(w) || c in w.reap.rows then Reaping(rest, w.reap.rows) else Killing(c, rest, w.reap.rows))
  }

  function Destroy(w: World, c: ContainerId): World {
    w.(labelled := w.labelled - {c}, harmed := if w.HeldFor(c) then w.harmed + {c} else w.harmed)
  }

  function DoKill(w: World, outcome: KillOutcome): World
    requires w.reap.Killing?
  {
    var c := w.reap.c;
    match outcome
    case Killed => Destroy(w, c).(killed := w.killed + {c}, reap := Removing(c, w.reap.todo, w.reap.rows))
    case NotFound => w.(reap := Reaping(w.reap.todo, w.reap.rows))
    case Refused => w.(reap := Removing(c, w.reap.todo, w.reap.rows))
  }

  /** The removal is forced: it destroys a container that is still running. */
  function DoRemove(w: World, removed: bool): World
    requires w.reap.Removing?
  {
    (if removed then Destroy(w, w.reap.c) else w).(reap := Reaping(w.reap.todo, w.reap.rows))
  }

  function Next(w: World, a: Step): World
    requires Enabled(w, a)
  {
    match a
    case Claim(r) => w.(slots := w.slots[r := None], claimed := w.claimed + {r})
    case Start(r, c) => w.(owner := w.owner[c := r], used := w.used + {c}, labelled := w.labelled + {c})
    case Bind(r, c) => w.(slots := w.slots[r := Some(c)])
    case Discard(r) => w.(slots := w.slots - {r})
    case Appear(c) => w.(used := w.used + {c}, labelled := w.labelled + {c})
    case Disappear(c) => w.(labelled := w.labelled - {c})
    case WriteRow(ids) => w.(rowBacked := ids)
    case List => w.(reap := if w.labelled == {} then Over else Listed(w.labelled))
    case Settle => w.(reap := Settled(w.reap.found))
    case Probe => w.(reap := if SomeUnbound(w) then Over else Probed(w.reap.found))
    case ReadRows => w.(reap := Reaping(w.reap.found, w.rowBacked))
    case Visit(c) => DoVisit(w, c)
    case Kill(outcome) => DoKill(w, outcome)
    case Remove(removed) => DoRemove(w, removed)
    case Fail => w.(reap := Over)
  }

  predicate Initial(w: World) {
    && w.slots == map[] && w.claimed == {} && w.owner == map[] && w.labelled <= w.used && w.reap.Before? && w.killed == {} && w.harmed == {}
  }

  predicate Valid(w: World, steps: seq<Step>)
    decreases |steps|
  {
    steps == [] || (Enabled(w, steps[0]) && Valid(Next(w, steps[0]), steps[1..]))
  }

  function Exec(w: World, steps: seq<Step>): World
    requires Valid(w, steps)
    decreases |steps|
  {
    if steps == [] then w else Exec(Next(w, steps[0]), steps[1..])
  }

  // --- the invariant -----------------------------------------------------------------------------

  /** Slots are claimed once, before any container of theirs; a bound slot names its own container. */
  predicate SlotsFit(w: World) {
    && w.slots.Keys <= w.claimed
    && (forall c <- w.owner :: w.owner[c] in w.claimed)
    && (forall r <- w.slots :: w.slots[r].Some? ==> w.slots[r].value in w.owner && w.owner[w.slots[r].value] == r)
    && (forall c, d :: c in w.owner && d in w.owner && w.owner[c] == w.owner[d] ==> c == d)
  }

  /** Every found container that a held slot started is the one its slot is bound to. */
  predicate Covered(w: World, found: set<ContainerId>) {
    forall c <- found :: w.HeldFor(c) ==> w.slots[w.owner[c]] == Some(c)
  }

  predicate ReapFits(w: World) {
    match w.reap
    case Before => true
    case Listed(found) => found <= w.used
    case Settled(found) => found <= w.used
    case Probed(found) => found <= w.used && Covered(w, found)
    case Reaping(todo, _) => todo <= w.used && Covered(w, todo)
    case Killing(c, todo, _) => todo <= w.used && Covered(w, todo) && c in w.used && !w.HeldFor(c)
    case Removing(c, todo, _) => todo <= w.used && Covered(w, todo) && c in w.used && !w.HeldFor(c)
    case Over => true
  }

  predicate Inv(w: World) {
    SlotsFit(w) && w.owner.Keys <= w.used && w.labelled <= w.used && ReapFits(w) && w.harmed == {}
  }

  lemma VisitKeeps(w: World, c: ContainerId)
    requires Inv(w) && Enabled(w, Visit(c))
    ensures Inv(DoVisit(w, c))
  {
    if w.HeldFor(c) {
      assert w.slots[w.owner[c]] == Some(c);
      assert c in Protected(w);
    }
  }

  /** Nothing is unbound at the probe, so every held slot is bound, and to its own only container. */
  lemma ProbeKeeps(w: World)
    requires Inv(w) && Enabled(w, Probe)
    ensures Inv(Next(w, Probe))
  {
  }

  predicate IsOutside(a: Step) {
    a.Claim? || a.Start? || a.Bind? || a.Discard? || a.Appear? || a.Disappear? || a.WriteRow?
  }

  lemma OutsideKeeps(w: World, a: Step)
    requires Inv(w) && Enabled(w, a) && IsOutside(a)
    ensures Inv(Next(w, a))
  {
  }

  lemma ReapKeeps(w: World, a: Step)
    requires Inv(w) && Enabled(w, a) && !IsOutside(a) && !a.Visit? && !a.Probe?
    ensures Inv(Next(w, a))
  {
  }

  lemma StepKeeps(w: World, a: Step)
    requires Inv(w) && Enabled(w, a)
    ensures Inv(Next(w, a))
  {
    match a
    case Visit(c) => VisitKeeps(w, c);
    case Probe => ProbeKeeps(w);
    case _ => if IsOutside(a) { OutsideKeeps(w, a); } else { ReapKeeps(w, a); }
  }

  lemma {:induction false} RunKeeps(w: World, steps: seq<Step>)
    requires Inv(w) && Valid(w, steps)
    ensures Inv(Exec(w, steps))
    decreases |steps|
  {
    if steps != [] {
      StepKeeps(w, steps[0]);
      RunKeeps(Next(w, steps[0]), steps[1..]);
    }
  }

  /**
   * For every interleaving of claims, starts, binds and discards with the boot reap, no container is
   * killed or removed while the slot of the run that started it is held.
   */
  lemma NoHeldRunIsReaped(w: World, steps: seq<Step>)
    requires Initial(w) && Valid(w, steps)
    ensures Exec(w, steps).harmed == {}
  {
    RunKeeps(w, steps);
  }

  /** The pass with the unbound probe moved in front of the listing. */
  predicate EnabledProbeFirst(w: World, a: Step) {
    match a
    case Probe => w.reap.Before?
    case List => w.reap.Probed?
    case Settle => w.reap.Listed?
    case ReadRows => w.reap.Settled?
    case _ => Enabled(w, a)
  }

  function NextProbeFirst(w: World, a: Step): World
    requires EnabledProbeFirst(w, a)
  {
    match a
    case Probe => w.(reap := if SomeUnbound(w) then Over else Probed({}))
    case List => w.(reap := if w.labelled == {} then Over else Listed(w.labelled))
    case Settle => w.(reap := Settled(w.reap.found))
    case ReadRows => w.(reap := Reaping(w.reap.found, w.rowBacked))
    case _ => Next(w, a)
  }

  predicate StepsProbeFirst(w: World, a: Step, u: World) {
    EnabledProbeFirst(w, a) && NextProbeFirst(w, a) == u
  }

  /** The reordered pass goes through `worlds` by these steps. */
  predicate RunsProbeFirst(worlds: seq<World>, steps: seq<Step>) {
    |worlds| == |steps| + 1 && forall i :: 0 <= i < |steps| ==> StepsProbeFirst(worlds[i], steps[i], worlds[i + 1])
  }

  /** A run that claims its slot and starts its container once the probe has passed. */
  function StartedLate(w: World, c: ContainerId): World {
    w.(reap := Probed({}), slots := map[0 := None], claimed := {0}, owner := map[c := 0],
       used := w.used + {c}, labelled := w.labelled + {c})
  }

  lemma StartsLate(w: World, c: ContainerId, w1: World, w2: World)
    requires Initial(w) && c !in w.used && w1 == w.(reap := Probed({}))
    requires w2 == w1.(slots := map[0 := None], claimed := {0})
    ensures StepsProbeFirst(w, Probe, w1) && StepsProbeFirst(w1, Claim(0), w2)
    ensures StepsProbeFirst(w2, Start(0, c), StartedLate(w, c))
  {
    assert !SomeUnbound(w);
  }

  lemma ReadsLate(w: World, w4: World, w5: World, w6: World)
    requires w.reap.Probed? && w.labelled != {} && w4 == w.(reap := Listed(w.labelled))
    requires w5 == w.(reap := Settled(w.labelled)) && w6 == w.(reap := Reaping(w.labelled, w.rowBacked))
    ensures StepsProbeFirst(w, List, w4) && StepsProbeFirst(w4, Settle, w5) && StepsProbeFirst(w5, ReadRows, w6)
  {
  }

  lemma KillsLate(w: World, c: ContainerId, w7: World, v: World)
    requires w.reap.Reaping? && c in w.reap.todo && c !in Protected(w) && c !in w.reap.rows
    requires w7 == w.(reap := Killing(c, w.reap.todo - {c}, w.reap.rows)) && v == DoKill(w7, Killed)
    ensures StepsProbeFirst(w, Visit(c), w7) && StepsProbeFirst(w7, Kill(Killed), v)
    ensures c in v.killed && v.harmed == if w.HeldFor(c) then w.harmed + {c} else w.harmed
  {
  }

  /** Probing before the listing would not do: a run that starts in between is killed while held. */
  lemma ProbingFirstIsNotEnough(w: World, c: ContainerId) returns (steps: seq<Step>, worlds: seq<World>)
    requires Initial(w) && c !in w.used && c !in w.rowBacked
    ensures steps == [Probe, Claim(0), Start(0, c), List, Settle, ReadRows, Visit(c), Kill(Killed)]
    ensures RunsProbeFirst(worlds, steps) && worlds[0] == w
    ensures worlds[8].HeldFor(c) && c in worlds[8].killed && worlds[8].harmed == {c}
  {
    var w1 := w.(reap := Probed({}));
    var w2 := w1.(slots := map[0 := None], claimed := {0});
    var w3 := StartedLate(w, c);
    StartsLate(w, c, w1, w2);
    var w4, w5 := w3.(reap := Listed(w3.labelled)), w3.(reap := Settled(w3.labelled));
    var w6 := w3.(reap := Reaping(w3.labelled, w3.rowBacked));
    assert c in w3.labelled;
    ReadsLate(w3, w4, w5, w6);
    var w7 := w6.(reap := Killing(c, w6.reap.todo - {c}, w6.reap.rows));
    KillsLate(w6, c, w7, DoKill(w7, Killed));
    steps := [Probe, Claim(0), Start(0, c), List, Settle, ReadRows, Visit(c), Kill(Killed)];
    worlds := [w, w1, w2, w3, w4, w5, w6, w7, DoKill(w7, Killed)];
  }

  // --- the pass itself ---------------------------------------------------------------------------

  lemma OutsideKeepsReap(w: World, a: Step)
    requires Enabled(w, a) && IsOutside(a)
    ensures Next(w, a).reap == w.reap && Next(w, a).killed == w.killed
  {
  }

  /** Of `found`, what neither a row nor a bound slot names. */
  function Unprotected(found: set<ContainerId>, rows: set<ContainerId>, protected: set<ContainerId>): set<ContainerId> {
    found - rows - protected
  }

  /** The kill loop's progress: what the undisturbed pass has killed once only `left` is still to be visited. */
  predicate Reaped(
    killed: set<ContainerId>, todo: set<ContainerId>, left: set<ContainerId>, rows: set<ContainerId>,
    protected: set<ContainerId>)
  {
    killed == Unprotected(todo - left, rows, protected)
  }

  lemma ReapedOneMore(
    killed: set<ContainerId>, todo: set<ContainerId>, left: set<ContainerId>, rows: set<ContainerId>,
    protected: set<ContainerId>, c: ContainerId)
    requires Reaped(killed, todo, left, rows, protected) && c in left && left <= todo
    ensures Reaped(if c in rows || c in protected then killed else killed + {c}, todo, left - {c}, rows, protected)
  {
  }

  /** What other tasks do during an await, and how the awaited call ends; a read fails unless it is fine. */
  datatype Turn = Turn(steps: seq<Step>, outcome: KillOutcome)

  class ZombieSweeper {
    var world: World
    var script: seq<Turn>

    constructor (world: World, script: seq<Turn>)
      ensures this.world == world && this.script == script
    {
      this.world, this.script := world, script;
    }

    method Await() returns (outcome: KillOutcome)
      requires Inv(world)
      modifies this
      ensures Inv(world) && world.reap == old(world).reap && world.killed == old(world).killed
      ensures old(script) == [] ==> script == [] && world == old(world) && outcome.Killed?
    {
      if script == [] {
        return Killed;
      }
      var steps := script[0].steps;
      outcome := script[0].outcome;
      script := script[1..];
      for i := 0 to |steps|
        invariant Inv(world) && world.reap == old(world).reap && world.killed == old(world).killed
      {
        if IsOutside(steps[i]) && Enabled(world, steps[i]) {
          StepKeeps(world, steps[i]);
          OutsideKeepsReap(world, steps[i]);
          world := Next(world, steps[i]);
        }
      }
    }

    /** One move of the reap. */
    method Move(a: Step)
      requires Inv(world) && Enabled(world, a)
      modifies this`world
      ensures Inv(world) && world == Next(old(world), a)
    {
      StepKeeps(world, a);
      world := Next(world, a);
    }

    /** One listed container: never killed when it is protected now, and counted exactly when its kill landed. */
    method ReapOne(c: ContainerId) returns (reaped: nat)
      requires Inv(world) && world.reap.Reaping? && c in world.reap.todo && c !in world.killed
      modifies this
      ensures Inv(world) && world.reap == Reaping(old(world).reap.todo - {c}, old(world).reap.rows)
      ensures world.killed == if reaped == 1 then old(world).killed + {c} else old(world).killed
      ensures reaped <= 1 && |world.killed| == |old(world).killed| + reaped
      ensures c in old(world).reap.rows || c in Protected(old(world)) ==> reaped == 0
      ensures old(script) == [] ==>
        && script == [] && Protected(world) == Protected(old(world))
        && (reaped == 0 <==> c in old(world).reap.rows || c in Protected(old(world)))
    {
      Move(Visit(c));
      if world.reap.Reaping? {
        return 0;
      }
      reaped := ReapBootOrphan();
    }

    /** The kill and the removal, each of which may fail. */
    method ReapBootOrphan() returns (reaped: nat)
      requires Inv(world) && world.reap.Killing? && world.reap.c !in world.killed
      modifies this
      ensures Inv(world) && world.reap == Reaping(old(world).reap.todo, old(world).reap.rows)
      ensures world.killed == if reaped == 1 then old(world).killed + {old(world).reap.c} else old(world).killed
      ensures reaped <= 1 && |world.killed| == |old(world).killed| + reaped
      ensures old(script) == [] ==> script == [] && Protected(world) == Protected(old(world)) && reaped == 1
    {
      var outcome := Await();
      Move(Kill(outcome));
      reaped := if outcome.Killed? then 1 else 0;
      if outcome.NotFound? {
        return;
      }
      outcome := Await();
      Move(Remove(outcome.Killed?));
    }

    /** The ordered reads: the listing, the settle delay, the probe, the rows. */
    method Prepare() returns (ready: bool)
      requires Inv(world) && world.reap.Before?
      modifies this
      ensures Inv(world) && world.killed == old(world).killed && (ready ==> world.reap.Reaping?)
      ensures old(script) == [] ==>
        && script == [] && Protected(world) == Protected(old(world))
        && (ready <==> old(world).labelled != {} && !SomeUnbound(old(world)))
        && (ready ==> world.reap == Reaping(old(world).labelled, old(world).rowBacked))
    {
      var outcome := Await();
      if !outcome.Killed? {
        return false;
      }
      Move(List);
      if world.reap.Over? {
        return false;
      }
      outcome := Await();
      Move(Settle);
      Move(Probe);
      if world.reap.Over? {
        return false;
      }
      outcome := Await();
      if !outcome.Killed? {
        return false;
      }
      Move(ReadRows);
      return true;
    }

    /** The kill loop: undisturbed, it kills exactly the listed containers nothing protects. */
    method ReapAll() returns (count: nat)
      requires Inv(world) && world.reap.Reaping? && world.killed == {}
      modifies this
      ensures Inv(world) && count == |world.killed|
      ensures old(script) == [] ==> world.killed == Unprotected(old(world).reap.todo, old(world).reap.rows, Protected(old(world)))
    {
      count := 0;
      var orphans := world.reap.todo;
      ghost var todo, rows, protected := orphans, world.reap.rows, Protected(world);
      ghost var undisturbed := script == [];
      while orphans != {}
        invariant Inv(world) && world.reap == Reaping(orphans, rows) && orphans <= todo
        invariant count == |world.killed| && world.killed !! orphans
        invariant undisturbed ==> script == [] && Protected(world) == protected
        invariant undisturbed ==> Reaped(world.killed, todo, orphans, rows, protected)
      {
        var c :| c in orphans;
        if undisturbed {
          ReapedOneMore(world.killed, todo, orphans, rows, protected, c);
        }
        var reaped := ReapOne(c);
        orphans := orphans - {c};
        count := count + reaped;
      }
    }

    /**
     * Never kills a container whose slot is held, and counts what it killed. Undisturbed, it kills
     * exactly the labelled containers that no slot and no row protects, unless a slot is unbound.
     */
    method KillBootRunOrphans() returns (count: nat)
      requires Inv(world) && world.reap.Before? && world.killed == {}
      modifies this
      ensures Inv(world) && world.harmed == {} && count == |world.killed|
      ensures old(script) == [] && SomeUnbound(old(world)) ==> world.killed == {}
      ensures old(script) == [] && !SomeUnbound(old(world)) ==>
        world.killed == Unprotected(old(world).labelled, old(world).rowBacked, Protected(old(world)))
    {
      var ready := Prepare();
      if ready {
        count := ReapAll();
      } else {
        count := 0;
      }
    }
  }
}
