/** Where the pointer stands against the marker at every step, and what that gives over whole runs. */
module CutoverSafety {
  import opened Common
  import opened CutoverMachine
  import opened CutoverMarker

  // --- the invariant -----------------------------------------------------------------------

  /** The armed marker still describes the container that was serving when it was armed. */
  predicate Describes(s: Sys, m: Marker) {
    s.row.container == Some(m.blue) && Listens(s, m.blue, s.PortOr(m.bluePort))
  }

  predicate DescribesIfAny(s: Sys, m: Option<Marker>) {
    m.Some? ==> Describes(s, m.value)
  }

  /** A leftover marker, matching or not, still describes the serving blue and its pointer. */
  predicate Leftover(s: Sys, m: Option<Marker>) {
    m.Some? ==> Describes(s, m.value) && s.active == m.value.bluePort
  }

  /** Where the pointer stands wherever the owner does, hence also right after a crash. */
  predicate PortStores(s: Sys) {
    && (!s.Matching() || s.committed ==> s.PointerCorrect())
    && (s.Matching() && !s.committed ==>
          var m := s.row.marker.value;
          Describes(s, m) && (s.active != m.bluePort ==> s.Effective() != s.PortOr(m.bluePort)))
  }

  predicate Untouched(s: Sys) {
    s.Matching() ==> s.active == s.row.marker.value.bluePort
  }

  /** The verify is under way and will write the pointer unless it stops first. */
  predicate WillPoint(s: Sys) {
    || s.pc.Spawning? || s.pc.Resolving? || s.pc.Starting? || s.pc.Pointing?
    || (s.pc.Probing? && s.IsRunning(s.pc.green))
  }

  /** The pointer has been written and the unwind has not put it back. */
  predicate HasPointed(pc: Pc) {
    pc.Repointing? || pc.Awaiting? || pc.Rechecking? || pc.Promoting? || pc.UnwindReading? || pc.UnwindPointing?
  }

  /** A marker that is gone by then was dropped when blue was no longer running. */
  predicate OvertakenWhenDown(s: Sys) {
    WillPoint(s) || HasPointed(s.pc) ==> s.row.marker.Some? || !s.Serving()
  }

  predicate ArmPorts(s: Sys) {
    && (s.pc.Arming? ==> s.active == s.pc.bluePort && Listens(s, s.pc.blue, s.PortOr(s.pc.bluePort)))
    && (s.pc.Spawning? || s.pc.Resolving? || s.pc.Starting? || s.pc.Probing? || s.pc.Pointing? ==> Untouched(s))
  }

  /** From f1 to the unwind's own pointer write, the pointer is off the one the marker holds. */
  predicate VerifyPorts(s: Sys) {
    HasPointed(s.pc) && s.Matching() ==> s.active != s.row.marker.value.bluePort
  }

  predicate UnwindPorts(s: Sys) {
    && (s.pc.UnwindPointing? && s.Matching() ==> s.pc.target == s.row.marker.value.bluePort)
    && (s.pc.UnwindAwaiting? || s.pc.Dropping? || s.pc.Settling? || s.pc.Failing? || s.pc.Reaping? || s.pc.Reverting?
        || ((s.pc.Popping? || s.pc.PopWriting?) && !s.committed) ==>
          Leftover(s, s.row.marker))
    && (s.pc.UnwindAwaiting? || s.pc.Dropping? || s.pc.Settling? || s.pc.Failing? || s.pc.Reaping? || s.pc.Reverting?
        || s.pc.Popping? || s.pc.PopWriting? ==>
          s.PointerCorrect())
    && (s.pc.Reverting? ==> Leftover(s, s.pc.snapshot.marker))
    && (s.pc.Restoring? ==>
          && s.row.container.Some? && Listens(s, s.row.container.value, s.PortOr(s.pc.target))
          && (s.row.marker.Some? ==> s.pc.target == s.row.marker.value.bluePort))
  }

  predicate CancelPorts(s: Sys) {
    && ((s.owner.VerifyTask? || s.pc.CancelReading?) && !s.committed ==> DescribesIfAny(s, s.row.marker))
    && (s.pc.CancelDropping? || s.pc.CancelPointing? ==> DescribesIfAny(s, s.pc.pending))
  }

  predicate LaunchPorts(s: Sys) {
    && (s.pc.LaunchPointing? || s.pc.LaunchRecording? ==> Listens(s, s.pc.born, s.hostPort))
    && (s.pc.LaunchRecording? ==> s.active.None?)
  }

  predicate PortInv(s: Sys) {
    && PortStores(s) && OvertakenWhenDown(s)
    && ArmPorts(s) && VerifyPorts(s) && UnwindPorts(s) && CancelPorts(s) && LaunchPorts(s)
  }

  predicate Inv(s: Sys) {
    MarkerInv(s) && PortInv(s)
  }

  // --- preservation ------------------------------------------------------------------------

  /**
   * What the environment owes a write that drops the marker while a container is serving: it may not
   * land while a verify will still write the pointer, nor over an uncommitted marker whose generation
   * has already moved it.
   */
  predicate RedeploySafe(s: Sys) {
    s.Serving() ==>
      && !WillPoint(s)
      && (s.Matching() ==> s.row.container != Some(s.row.marker.value.blue)
                           || s.active == s.row.marker.value.bluePort)
  }

  predicate Permitted(s: Sys, a: Action) {
    a.Outside? && (a.stepOutside.Redeploy? || a.stepOutside.Rollback?) ==> RedeploySafe(s)
  }

  lemma ArmKeepsPorts(s: Sys, a: ArmStep, t: Sys)
    requires Inv(s) && CanArm(s, a) && t == DoArm(s, a)
    ensures PortInv(t)
  {
  }

  lemma StartKeepsPorts(s: Sys, a: VerifyStep, t: Sys)
    requires Inv(s) && CanVerify(s, a) && t == DoVerify(s, a)
    requires a.EnvNotReady? || a.EnvReady? || a.SpecFailure? || a.StartGreen? || a.ProbeOk? || a.ProbeFail?
    ensures PortInv(t)
  {
  }

  lemma RepointKeepsPorts(s: Sys, a: VerifyStep, t: Sys)
    requires Inv(s) && CanVerify(s, a) && t == DoVerify(s, a)
    requires a.WritePointer? || a.Register? || a.DialsAgree? || a.DialsTimeout? || a.StillLive? || a.DiedLate?
    ensures PortInv(t)
  {
  }

  lemma VerifyKeepsPorts(s: Sys, a: VerifyStep, t: Sys)
    requires Inv(s) && CanVerify(s, a) && t == DoVerify(s, a)
    ensures PortInv(t)
  {
    if a.EnvNotReady? || a.EnvReady? || a.SpecFailure? || a.StartGreen? || a.ProbeOk? || a.ProbeFail? {
      StartKeepsPorts(s, a, t);
    } else {
      RepointKeepsPorts(s, a, t);
    }
  }

  lemma RecordKeepsPorts(s: Sys, a: CommitStep, t: Sys)
    requires Inv(s) && CanCommit(s, a) && t == DoCommit(s, a)
    requires a.Promote? || a.Audit? || a.Announce?
    ensures PortInv(t)
  {
  }

  lemma PopKeepsPorts(s: Sys, a: CommitStep, t: Sys)
    requires Inv(s) && CanCommit(s, a) && t == DoCommit(s, a)
    requires a.StampHealthy? || a.PopRead?
    ensures PortInv(t)
  {
  }

  lemma RetireKeepsPorts(s: Sys, a: CommitStep, t: Sys)
    requires Inv(s) && CanCommit(s, a) && t == DoCommit(s, a)
    requires a.PopWrite? || a.RetireBlue?
    ensures PortInv(t)
  {
  }

  lemma CommitKeepsPorts(s: Sys, a: CommitStep, t: Sys)
    requires Inv(s) && CanCommit(s, a) && t == DoCommit(s, a)
    ensures PortInv(t)
  {
    if a.Promote? || a.Audit? || a.Announce? {
      RecordKeepsPorts(s, a, t);
    } else if a.StampHealthy? || a.PopRead? {
      PopKeepsPorts(s, a, t);
    } else {
      RetireKeepsPorts(s, a, t);
    }
  }

  lemma UnwindKeepsPorts(s: Sys, a: UnwindStep, t: Sys)
    requires Inv(s) && CanUnwind(s, a) && t == DoUnwind(s, a)
    ensures PortInv(t)
  {
  }

  lemma RereadKeepsPorts(s: Sys, a: SettleStep, t: Sys)
    requires Inv(s) && CanSettle(s, a) && t == DoSettle(s, a)
    requires a.SettleRead?
    ensures PortInv(t)
  {
  }

  lemma RevertKeepsPorts(s: Sys, a: SettleStep, t: Sys)
    requires Inv(s) && CanSettle(s, a) && t == DoSettle(s, a)
    requires a.Revert? || a.Fail?
    ensures PortInv(t)
  {
  }

  lemma RecoveryKeepsPorts(s: Sys, a: SettleStep, t: Sys)
    requires Inv(s) && CanSettle(s, a) && t == DoSettle(s, a)
    requires a.TickSettle? || a.RestorePointer? || a.ReapOne? || a.ReapDone?
    ensures PortInv(t)
  {
  }

  lemma SettleKeepsPorts(s: Sys, a: SettleStep, t: Sys)
    requires Inv(s) && CanSettle(s, a) && t == DoSettle(s, a)
    ensures PortInv(t)
  {
    if a.SettleRead? {
      RereadKeepsPorts(s, a, t);
    } else if a.Revert? || a.Fail? {
      RevertKeepsPorts(s, a, t);
    } else {
      RecoveryKeepsPorts(s, a, t);
    }
  }

  lemma CancelTaskKeepsPorts(s: Sys, a: CancelStep, t: Sys)
    requires Inv(s) && CanCancel(s, a) && t == DoCancel(s, a)
    requires a.CancelTask?
    ensures PortInv(t)
  {
  }

  lemma CancelReadKeepsPorts(s: Sys, t: Sys)
    requires Inv(s) && CanCancel(s, CancelRead) && t == DoCancel(s, CancelRead)
    ensures PortInv(t)
  {
  }

  lemma CancelEndKeepsPorts(s: Sys, a: CancelStep, t: Sys)
    requires Inv(s) && CanCancel(s, a) && t == DoCancel(s, a)
    requires a.CancelDrop? || a.CancelPoint?
    ensures PortInv(t)
  {
  }

  lemma CancelKeepsPorts(s: Sys, a: CancelStep, t: Sys)
    requires Inv(s) && CanCancel(s, a) && t == DoCancel(s, a)
    ensures PortInv(t)
  {
    if a.CancelTask? {
      CancelTaskKeepsPorts(s, a, t);
    } else if a.CancelRead? {
      CancelReadKeepsPorts(s, t);
    } else {
      CancelEndKeepsPorts(s, a, t);
    }
  }

  lemma LaunchKeepsPorts(s: Sys, a: LaunchStep, t: Sys)
    requires Inv(s) && CanLaunch(s, a) && t == DoLaunch(s, a)
    ensures PortInv(t)
  {
  }

  lemma FramesKeepsPorts(s: Sys, t: Sys)
    requires Inv(s) && Frames(s, t)
    ensures PortInv(t)
  {
  }

  lemma CrashKeepsPorts(s: Sys, a: OutsideStep, t: Sys)
    requires Inv(s) && CanOutside(s, a) && a.Crash? && t == DoOutside(s, a)
    ensures PortInv(t)
  {
  }

  lemma WriteKeepsPorts(s: Sys, a: OutsideStep, t: Sys)
    requires Inv(s) && CanOutside(s, a) && (a.Redeploy? || a.Rollback?) && RedeploySafe(s) && t == DoOutside(s, a)
    ensures PortInv(t)
  {
  }

  lemma OutsideKeepsPorts(s: Sys, a: OutsideStep, t: Sys)
    requires Inv(s) && CanOutside(s, a) && Permitted(s, Outside(a)) && t == DoOutside(s, a)
    ensures PortInv(t)
  {
    if a.Crash? {
      CrashKeepsPorts(s, a, t);
    } else if a.Redeploy? || a.Rollback? {
      WriteKeepsPorts(s, a, t);
    } else {
      QuietFrames(s, a);
      FramesKeepsPorts(s, t);
    }
  }

  lemma StepKeeps(s: Sys, a: Action)
    requires Inv(s) && Enabled(s, a) && Permitted(s, a)
    ensures Inv(Next(s, a))
  {
    StepKeepsMarker(s, a);
    match a
    case Arm(x) => ArmKeepsPorts(s, x, DoArm(s, x));
    case Verify(x) => VerifyKeepsPorts(s, x, DoVerify(s, x));
    case Commit(x) => CommitKeepsPorts(s, x, DoCommit(s, x));
    case Unwind(x) => UnwindKeepsPorts(s, x, DoUnwind(s, x));
    case Settle(x) => SettleKeepsPorts(s, x, DoSettle(s, x));
    case Cancel(x) => CancelKeepsPorts(s, x, DoCancel(s, x));
    case Launch(x) => LaunchKeepsPorts(s, x, DoLaunch(s, x));
    case Outside(x) => OutsideKeepsPorts(s, x, DoOutside(s, x));
  }

  // --- whole runs --------------------------------------------------------------------------

  /** Every redeploy and rollback of the run lands where it is safe. */
  predicate PermittedRun(s: Sys, actions: seq<Action>)
    requires Valid(s, actions)
    decreases |actions|
  {
    actions == [] || (Permitted(s, actions[0]) && PermittedRun(Next(s, actions[0]), actions[1..]))
  }

  /** `actions` can be taken from `s` and lead to `t`. */
  predicate RunsTo(s: Sys, actions: seq<Action>, t: Sys) {
    Valid(s, actions) && Exec(s, actions) == t
  }

  lemma RunsOneMore(s: Sys, a: Action, t: Sys, rest: seq<Action>, u: Sys)
    requires Enabled(s, a) && Next(s, a) == t && RunsTo(t, rest, u)
    ensures RunsTo(s, [a] + rest, u)
  {
    assert ([a] + rest)[1..] == rest;
  }

  lemma {:induction false} RunsJoin(s: Sys, first: seq<Action>, t: Sys, second: seq<Action>, u: Sys)
    requires RunsTo(s, first, t) && RunsTo(t, second, u)
    ensures RunsTo(s, first + second, u)
    decreases |first|
  {
    if first == [] {
      assert first + second == second;
    } else {
      RunsJoin(Next(s, first[0]), first[1..], t, second, u);
      RunsOneMore(s, first[0], Next(s, first[0]), first[1..] + second, u);
      assert [first[0]] + (first[1..] + second) == first + second;
    }
  }

  lemma InitialHolds(s: Sys)
    requires Initial(s)
    ensures Inv(s)
  {
  }

  lemma {:induction false} RunKeeps(s: Sys, actions: seq<Action>)
    requires Inv(s) && Valid(s, actions) && PermittedRun(s, actions)
    ensures Inv(Exec(s, actions))
    decreases |actions|
  {
    if actions != [] {
      StepKeeps(s, actions[0]);
      RunKeeps(Next(s, actions[0]), actions[1..]);
    }
  }

  /**
   * Over any run of back-to-back cutovers, ordinary launches, cancels, deaths and crashes
   * between any two awaits, whenever no marker names the row's current version the effective
   * port is the port the row's running container was started on; and while one does, the
   * pointer is wrong only before the commit point, where the marker holds the way back.
   */
  lemma PointerNamesTheServingContainer(s: Sys, actions: seq<Action>)
    requires Initial(s) && Valid(s, actions) && PermittedRun(s, actions)
    ensures var t := Exec(s, actions);
      && (!t.Matching() || t.committed ==> t.PointerCorrect())
      && (t.Matching() && !t.committed ==>
            t.row.container == Some(t.row.marker.value.blue)
            && t.row.marker.value.blue in t.boxes
            && t.PortOr(t.row.marker.value.bluePort) == t.boxes[t.row.marker.value.blue].port)
  {
    InitialHolds(s);
    RunKeeps(s, actions);
  }
}
