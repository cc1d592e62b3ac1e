/**
 * What every step of the cutover machine keeps of row, marker, containers and program counter,
 * with nothing asked of the environment: redeploys and rollbacks may drop the marker at any await.
 */
module CutoverMarker {
  import opened Common
  import opened CutoverMachine

  // --- the invariant -----------------------------------------------------------------------

  /** The armed marker still names the row's container as its blue. */
  predicate Names(s: Sys, m: Marker) {
    s.row.container == Some(m.blue) && m.blue in s.boxes
  }

  /** Facts that hold wherever the owner stands, hence also right after a crash. */
  predicate MarkerStores(s: Sys) {
    && (s.row.container.Some? ==> s.row.container.value in s.boxes)
    && (s.Matching() && s.committed ==>
          s.row.container.Some? && s.row.container != Some(s.row.marker.value.blue))
    && (s.Matching() && !s.committed ==> Names(s, s.row.marker.value))
  }

  /** From the marker write to the commit point. */
  predicate BeforeCommit(pc: Pc) {
    || pc.Spawning? || pc.Resolving? || pc.Starting? || pc.Probing? || pc.Pointing?
    || pc.Repointing? || pc.Awaiting? || pc.Rechecking? || pc.Promoting?
  }

  /** The verify task's generation owns the row and the marker is armed for it, unless a write dropped it. */
  predicate Armed(s: Sys, v: Version, blue: ContainerId) {
    && !s.committed && s.row.container == Some(blue) && blue in s.boxes
    && ((s.Matching() && s.row.version == v && s.row.marker.value.blue == blue) || s.row.marker.None?)
  }

  predicate Listens(s: Sys, c: ContainerId, port: Port) {
    c in s.boxes && s.boxes[c].port == port
  }

  predicate GreenUp(s: Sys, green: ContainerId, greenPort: Port, blue: ContainerId) {
    Listens(s, green, greenPort) && green != blue && s.green == Some(green)
  }

  /** A leftover marker, matching or not, still names the row's container. */
  predicate NamesIfAny(s: Sys, m: Option<Marker>) {
    m.Some? ==> Names(s, m.value)
  }

  /** Settled, or on the way to it. */
  predicate Unwinding(s: Sys, v: Version) {
    && !s.committed
    && NamesIfAny(s, s.row.marker)
    && (s.row.marker.Some? ==> s.row.marker.value.version == v)
  }

  /** In the commit tail: the row names green, and any matching marker is this generation's. */
  predicate Committed(s: Sys, v: Version, green: ContainerId, next: Then) {
    && s.committed
    && s.row.container == Some(green)
    && (s.row.marker.Some? ==> s.row.marker.value.version == v && s.Matching())
    && TailDone(s, next)
  }

  /** Only the online path goes on to destroy blue, and never the container the row names. */
  predicate TailDone(s: Sys, next: Then) {
    next.Retire? ==>
      s.owner.VerifyTask? && s.row.container.Some? && s.row.container.value != next.retired
  }

  predicate OwnerFits(s: Sys) {
    && (s.pc.Idle? <==> s.owner.Nobody?)
    && (s.pc.Arming? || s.pc.Spawning? || s.pc.Restoring? || s.pc.Reaping? || s.pc.LaunchClearing?
        || s.pc.LaunchAcquiring? || s.pc.LaunchRunning? || s.pc.LaunchPointing? || s.pc.LaunchRecording?
        ==> s.owner.Tick?)
    && (s.pc.Resolving? || s.pc.Starting? || s.pc.Probing? || s.pc.Pointing? || s.pc.Repointing?
        || s.pc.Awaiting? || s.pc.Rechecking? || s.pc.Promoting? || s.pc.Retiring? || s.pc.UnwindReading?
        || s.pc.UnwindPointing? || s.pc.UnwindAwaiting? || s.pc.Dropping?
        ==> s.owner.VerifyTask?)
    && (s.pc.CancelReading? || s.pc.CancelDropping? || s.pc.CancelPointing? ==> s.owner.Canceller?)
  }

  predicate OldIsDown(s: Sys) {
    !s.Matching() && (s.row.container.Some? ==> !s.IsRunning(s.row.container.value))
  }

  // What the owner may rely on at the await where it stands.

  predicate ArmFits(s: Sys) {
    && (s.pc.Arming? ==> !s.Matching() && s.row.container == Some(s.pc.blue) && s.pc.blue in s.boxes)
    && (s.pc.Spawning? || s.pc.Resolving? || s.pc.Starting? ==> Armed(s, s.pc.v, s.pc.blue))
  }

  predicate VerifyFits(s: Sys) {
    && (s.pc.Resolving? || s.pc.Starting? ==> s.green.None?)
    && (s.pc.Probing? || s.pc.Pointing? || s.pc.Repointing? || s.pc.Awaiting? || s.pc.Rechecking? || s.pc.Promoting? ==>
          Armed(s, s.pc.v, s.pc.blue) && GreenUp(s, s.pc.green, s.pc.greenPort, s.pc.blue))
    && (s.pc.Starting? || s.pc.Probing? || s.pc.Pointing? ==> s.pc.greenPort != s.Effective())
    && (s.pc.Repointing? || s.pc.Awaiting? || s.pc.Rechecking? || s.pc.Promoting? ==>
          s.active == Some(s.pc.greenPort))
  }

  predicate TailFits(s: Sys) {
    && (s.pc.Auditing? || s.pc.Announcing? || s.pc.Stamping? ==> Committed(s, s.pc.v, s.pc.green, s.pc.next))
    && (s.pc.Popping? ==>
          TailDone(s, s.pc.next)
          && (if s.committed
              then s.row.container.Some? && Committed(s, s.pc.v, s.row.container.value, s.pc.next)
              else s.pc.next.Finish? && Unwinding(s, s.pc.v)))
    && (s.pc.PopWriting? ==>
          TailDone(s, s.pc.next) && (s.Matching() ==> s.row.version == s.pc.expected)
          && (if s.committed then s.row.marker.Some? ==> s.Matching()
              else s.pc.next.Finish? && NamesIfAny(s, s.row.marker)))
    && (s.pc.Retiring? ==>
          s.row.marker.None? && s.committed && s.row.container.Some? && s.row.container.value != s.pc.blue)
  }

  predicate UnwindFits(s: Sys) {
    && (s.pc.UnwindReading? || s.pc.UnwindPointing? || s.pc.UnwindAwaiting? || s.pc.Dropping? ==>
          && ((s.Matching() && s.row.version == s.pc.v) || s.row.marker.None?)
          && !s.committed && s.row.container != Some(s.pc.green))
    && (s.pc.UnwindReading? || s.pc.UnwindPointing? || s.pc.UnwindAwaiting? || s.pc.Dropping? || s.pc.Settling?
        || s.pc.Failing? || s.pc.Reaping? || s.pc.Reverting? ==>
          Unwinding(s, s.pc.v))
    && (s.pc.Reverting? ==>
          s.pc.snapshot.version == s.pc.v && NamesIfAny(s, s.pc.snapshot.marker)
          && (s.pc.snapshot.marker.Some? ==> s.pc.snapshot.marker.value.version == s.pc.v))
    && (s.pc.Restoring? ==>
          !s.committed && s.row.container.Some? && s.row.container.value in s.boxes
          && (s.row.marker.Some? ==> s.row.marker.value.version == s.pc.v && s.Matching()))
  }

  predicate CancelFits(s: Sys) {
    && (s.pc.CancelReading? ==> CancelReadable(s, s.pc.greens))
    && (s.pc.CancelDropping? || s.pc.CancelPointing? ==>
          && !s.committed && NamesIfAny(s, s.pc.pending)
          && (s.row.marker.Some? ==> s.row.marker == s.pc.pending))
    && (s.pc.CancelDropping? ==> s.row.container != Some(s.pc.green))
  }

  predicate LaunchFits(s: Sys) {
    && (s.pc.LaunchClearing? ==> !s.Matching())
    && (s.pc.LaunchAcquiring? || s.pc.LaunchRunning? || s.pc.LaunchPointing? || s.pc.LaunchRecording? ==> OldIsDown(s))
    && (s.pc.LaunchPointing? || s.pc.LaunchRecording? ==> s.pc.born in s.boxes)
  }

  /** What a cancel finds once the verify task is dead. */
  predicate CancelReadable(s: Sys, greens: Option<ContainerId>) {
    if s.committed then
      greens.Some? && greens == s.row.container && (s.row.marker.Some? ==> s.Matching())
    else
      (greens.Some? ==> greens != s.row.container) && NamesIfAny(s, s.row.marker)
  }

  /** While the verify task runs: what a cancel may be handed at any of its awaits. */
  predicate TaskCancellable(s: Sys) {
    s.owner.VerifyTask? ==> CancelReadable(s, s.green)
  }

  predicate MarkerInv(s: Sys) {
    && MarkerStores(s) && OwnerFits(s) && TaskCancellable(s)
    && ArmFits(s) && VerifyFits(s) && TailFits(s) && UnwindFits(s) && CancelFits(s) && LaunchFits(s)
  }

  // --- every step keeps it -----------------------------------------------------------------

  lemma ArmKeepsMarker(s: Sys, a: ArmStep, t: Sys)
    requires MarkerInv(s) && CanArm(s, a) && t == DoArm(s, a)
    ensures MarkerInv(t)
  {
  }

  lemma VerifyKeepsMarker(s: Sys, a: VerifyStep, t: Sys)
    requires MarkerInv(s) && CanVerify(s, a) && t == DoVerify(s, a)
    ensures MarkerInv(t)
  {
  }

  lemma RecordKeepsMarker(s: Sys, a: CommitStep, t: Sys)
    requires MarkerInv(s) && CanCommit(s, a) && t == DoCommit(s, a)
    requires a.Promote? || a.Audit? || a.Announce?
    ensures MarkerInv(t)
  {
  }

  lemma PopKeepsMarker(s: Sys, a: CommitStep, t: Sys)
    requires MarkerInv(s) && CanCommit(s, a) && t == DoCommit(s, a)
    requires a.StampHealthy? || a.PopRead?
    ensures MarkerInv(t)
  {
  }

  lemma RetireKeepsMarker(s: Sys, a: CommitStep, t: Sys)
    requires MarkerInv(s) && CanCommit(s, a) && t == DoCommit(s, a)
    requires a.PopWrite? || a.RetireBlue?
    ensures MarkerInv(t)
  {
  }

  lemma CommitKeepsMarker(s: Sys, a: CommitStep, t: Sys)
    requires MarkerInv(s) && CanCommit(s, a) && t == DoCommit(s, a)
    ensures MarkerInv(t)
  {
    if a.Promote? || a.Audit? || a.Announce? {
      RecordKeepsMarker(s, a, t);
    } else if a.StampHealthy? || a.PopRead? {
      PopKeepsMarker(s, a, t);
    } else {
      RetireKeepsMarker(s, a, t);
    }
  }

  lemma UnwindKeepsMarker(s: Sys, a: UnwindStep, t: Sys)
    requires MarkerInv(s) && CanUnwind(s, a) && t == DoUnwind(s, a)
    ensures MarkerInv(t)
  {
  }

  lemma RereadKeepsMarker(s: Sys, a: SettleStep, t: Sys)
    requires MarkerInv(s) && CanSettle(s, a) && t == DoSettle(s, a)
    requires a.SettleRead?
    ensures MarkerInv(t)
  {
  }

  lemma RevertKeepsMarker(s: Sys, a: SettleStep, t: Sys)
    requires MarkerInv(s) && CanSettle(s, a) && t == DoSettle(s, a)
    requires a.Revert? || a.Fail?
    ensures MarkerInv(t)
  {
  }

  lemma RecoveryKeepsMarker(s: Sys, a: SettleStep, t: Sys)
    requires MarkerInv(s) && CanSettle(s, a) && t == DoSettle(s, a)
    requires a.TickSettle? || a.RestorePointer? || a.ReapOne? || a.ReapDone?
    ensures MarkerInv(t)
  {
  }

  lemma SettleKeepsMarker(s: Sys, a: SettleStep, t: Sys)
    requires MarkerInv(s) && CanSettle(s, a) && t == DoSettle(s, a)
    ensures MarkerInv(t)
  {
    if a.SettleRead? {
      RereadKeepsMarker(s, a, t);
    } else if a.Revert? || a.Fail? {
      RevertKeepsMarker(s, a, t);
    } else {
      RecoveryKeepsMarker(s, a, t);
    }
  }

  lemma CancelTaskKeepsMarker(s: Sys, a: CancelStep, t: Sys)
    requires MarkerInv(s) && CanCancel(s, a) && t == DoCancel(s, a)
    requires a.CancelTask?
    ensures MarkerInv(t)
  {
  }

  lemma CancelReadKeepsMarker(s: Sys, t: Sys)
    requires MarkerInv(s) && CanCancel(s, CancelRead) && t == DoCancel(s, CancelRead)
    ensures MarkerInv(t)
  {
  }

  lemma CancelEndKeepsMarker(s: Sys, a: CancelStep, t: Sys)
    requires MarkerInv(s) && CanCancel(s, a) && t == DoCancel(s, a)
    requires a.CancelDrop? || a.CancelPoint?
    ensures MarkerInv(t)
  {
  }

  lemma CancelKeepsMarker(s: Sys, a: CancelStep, t: Sys)
    requires MarkerInv(s) && CanCancel(s, a) && t == DoCancel(s, a)
    ensures MarkerInv(t)
  {
    if a.CancelTask? {
      CancelTaskKeepsMarker(s, a, t);
    } else if a.CancelRead? {
      CancelReadKeepsMarker(s, t);
    } else {
      CancelEndKeepsMarker(s, a, t);
    }
  }

  lemma LaunchKeepsMarker(s: Sys, a: LaunchStep, t: Sys)
    requires MarkerInv(s) && CanLaunch(s, a) && t == DoLaunch(s, a)
    ensures MarkerInv(t)
  {
  }

  /** Nothing the invariants read changes, except that a container may have stopped. */
  predicate Frames(s: Sys, t: Sys) {
    && t.row == s.row.(status := t.row.status)
    && t.hostPort == s.hostPort && t.active == s.active && t.committed == s.committed
    && t.owner == s.owner && t.pc == s.pc && t.green == s.green
    && s.boxes.Keys == t.boxes.Keys
    && forall c <- s.boxes :: t.boxes[c].port == s.boxes[c].port && (t.boxes[c].running ==> s.boxes[c].running)
  }

  lemma QuietFrames(s: Sys, a: OutsideStep)
    requires CanOutside(s, a) && !a.Crash? && !a.Redeploy? && !a.Rollback?
    ensures Frames(s, DoOutside(s, a))
  {
  }

  lemma FramesKeepsMarker(s: Sys, t: Sys)
    requires MarkerInv(s) && Frames(s, t)
    ensures MarkerInv(t)
  {
  }

  lemma CrashKeepsMarker(s: Sys, a: OutsideStep, t: Sys)
    requires MarkerInv(s) && CanOutside(s, a) && a.Crash? && t == DoOutside(s, a)
    ensures MarkerInv(t)
  {
  }

  lemma WriteKeepsMarker(s: Sys, a: OutsideStep, t: Sys)
    requires MarkerInv(s) && CanOutside(s, a) && (a.Redeploy? || a.Rollback?) && t == DoOutside(s, a)
    ensures MarkerInv(t)
  {
  }

  lemma OutsideKeepsMarker(s: Sys, a: OutsideStep, t: Sys)
    requires MarkerInv(s) && CanOutside(s, a) && t == DoOutside(s, a)
    ensures MarkerInv(t)
  {
    if a.Crash? {
      CrashKeepsMarker(s, a, t);
    } else if a.Redeploy? || a.Rollback? {
      WriteKeepsMarker(s, a, t);
    } else {
      QuietFrames(s, a);
      FramesKeepsMarker(s, t);
    }
  }

  lemma StepKeepsMarker(s: Sys, a: Action)
    requires MarkerInv(s) && Enabled(s, a)
    ensures MarkerInv(Next(s, a))
  {
    match a
    case Arm(x) => ArmKeepsMarker(s, x, DoArm(s, x));
    case Verify(x) => VerifyKeepsMarker(s, x, DoVerify(s, x));
    case Commit(x) => CommitKeepsMarker(s, x, DoCommit(s, x));
    case Unwind(x) => UnwindKeepsMarker(s, x, DoUnwind(s, x));
    case Settle(x) => SettleKeepsMarker(s, x, DoSettle(s, x));
    case Cancel(x) => CancelKeepsMarker(s, x, DoCancel(s, x));
    case Launch(x) => LaunchKeepsMarker(s, x, DoLaunch(s, x));
    case Outside(x) => OutsideKeepsMarker(s, x, DoOutside(s, x));
  }

  lemma {:induction false} RunKeepsMarker(s: Sys, actions: seq<Action>)
    requires MarkerInv(s) && Valid(s, actions)
    ensures MarkerInv(Exec(s, actions))
    decreases |actions|
  {
    if actions != [] {
      StepKeepsMarker(s, actions[0]);
      RunKeepsMarker(Next(s, actions[0]), actions[1..]);
    }
  }
}
