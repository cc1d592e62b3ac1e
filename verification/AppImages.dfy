/**
 * The image builder in its own form: the row, the image store and the container list as fields
 * that the gate, the settle, the marker writes and the prune update in place. Each method is one
 * uninterrupted pass; `ReleaseMachine` interleaves their awaits with everything else.
 */
module AppImages {
  import opened Common
  import opened ReleaseMachine
  import opened ReleaseSafety
  import opened ReleaseProperties

  // --- one settle, start to finish -----------------------------------------------------------

  /** The previous generation's container is still known, so the row can go back to serving it. */
  predicate FallsBack(known: set<ContainerId>, f: Failure) {
    f.job.container.Some? && f.job.container.value in known
  }

  function SettledRow(row: Row, known: set<ContainerId>, f: Failure): Row {
    if FallsBack(known, f) then
      (if row.version == Some(f.target) then RevertedRow(row, row) else row)
    else if row.version == Some(f.target) then row.(status := Failed, desired := GivenUp, phase := Later)
    else if row.version.None? then row.(status := Failed, desired := GivenUp)
    else row
  }

  predicate IsReclaimable(row: Row, known: set<ContainerId>, f: Failure) {
    FallsBack(known, f) && row.version == Some(f.target)
  }

  /** The machine reaches that row by settle steps alone. */
  lemma SettleRuns(s: Sys) returns (actions: seq<Action>)
    requires s.pc.Looking?
    ensures RunsTo(s, actions, s.(row := SettledRow(s.row, s.known, s.pc.f),
                                  pc := AfterSettle(s.pc.f, IsReclaimable(s.row, s.known, s.pc.f))))
    ensures forall a <- actions :: a.Settle?
  {
    var f := s.pc.f;
    var u := s.(row := SettledRow(s.row, s.known, f), pc := AfterSettle(f, IsReclaimable(s.row, s.known, f)));
    actions := [];
    var after := u;
    if FallsBack(s.known, f) {
      if s.row.version == Some(f.target) {
        actions := [Settle(Revert)];
        after := s.(pc := Reverting(f, s.row));
        OneMore(after, Settle(Revert), u, [], u);
      }
      var reread := s.(pc := Rereading(f));
      OneMore(reread, Settle(Reread), after, actions, u);
      actions := [Settle(Reread)] + actions;
      after := reread;
    } else {
      if s.row.version.None? || s.row.version == Some(f.target) {
        after := s.(row := s.row.(status := Failed, desired := GivenUp), pc := Stamping(f));
        actions := [Settle(Stamp)];
        OneMore(after, Settle(Stamp), u, [], u);
      }
      var giving := s.(pc := GivingUp(f));
      OneMore(giving, Settle(GiveUp), after, actions, u);
      actions := [Settle(GiveUp)] + actions;
      after := giving;
    }
    OneMore(s, Settle(Look), after, actions, u);
    actions := [Settle(Look)] + actions;
  }

  /**
   * What a settle of the row's own generation leaves behind, under the invariant: a live previous
   * container keeps serving an image that owes no release and nothing can trigger a rebuild;
   * otherwise the row is failed for good, and keeps whatever marker makes the next tick settle again.
   */
  lemma SettleFailsClosed(s: Sys, f: Failure)
    requires Inv(s) && s.pc.Looking? && s.pc.f == f && s.row.version == Some(f.target)
    ensures var row := SettledRow(s.row, s.known, f);
      if FallsBack(s.known, f)
      then row.image !in s.dirty && !row.context && !row.Armed() && row.status.Running? && row.image != f.target
      else row.status.Failed? && row.desired.GivenUp? && row.image == f.target
           && (row.Armed() <==> f.target in s.dirty)
  {
  }

  // --- the prune ---------------------------------------------------------------------------

  function Newer(tags: set<Generation>, t: Generation): set<Generation> {
    set u <- tags | u > t
  }

  lemma SubsetSize(a: set<Generation>, b: set<Generation>)
    requires a <= b
    ensures |a| <= |b|
  {
    assert |b - a| + |a| == |b| by {
      assert b == (b - a) + a && (b - a) !! a;
    }
  }

  /** `top` holds the newest tags: what is left has at least |top| newer ones, what is in it fewer. */
  lemma NewestSplit(tags: set<Generation>, top: set<Generation>, t: Generation)
    requires top <= tags && t in tags
    requires forall u, w :: u in top && w in tags - top ==> u > w
    ensures t !in top ==> |Newer(tags, t)| >= |top|
    ensures t in top ==> |Newer(tags, t)| < |top|
  {
    if t !in top {
      assert t in tags - top;
      SubsetSize(top, Newer(tags, t));
    } else {
      forall u | u in Newer(tags, t)
        ensures u in top - {t}
      {
        assert u !in top ==> u in tags - top;
      }
      SubsetSize(Newer(tags, t), top - {t});
    }
  }

  method Newest(tags: set<Generation>) returns (best: Generation)
    requires tags != {}
    ensures best in tags && forall t <- tags :: t <= best
  {
    best :| best in tags;
    var rest := tags - {best};
    while rest != {}
      invariant rest <= tags && best in tags
      invariant forall t <- tags :: t in rest || t <= best
    {
      var t :| t in rest;
      if t > best {
        best := t;
      }
      rest := rest - {t};
    }
  }

  method NewestThree(tags: set<Generation>) returns (top: set<Generation>)
    ensures top <= tags
    ensures forall t <- tags :: t in top <==> |Newer(tags, t)| < 3
  {
    top := {};
    while |top| < 3 && tags - top != {}
      invariant top <= tags && |top| <= 3
      invariant forall u, w :: u in top && w in tags - top ==> u > w
      decreases tags - top
    {
      var best := Newest(tags - top);
      top := top + {best};
    }
    forall t | t in tags
      ensures t in top <==> |Newer(tags, t)| < 3
    {
      NewestSplit(tags, top, t);
      assert |top| < 3 ==> t !in tags - top;
    }
  }

  class AppImageBuilder {
    var row: Row
    var images: set<Generation>
    var known: set<ContainerId>

    constructor (row: Row, images: set<Generation>, known: set<ContainerId>)
      ensures this.row == row && this.images == images && this.known == known
    {
      this.row, this.images, this.known := row, images, known;
    }

    /** `patch_job_config` on the release marker: lands only on the expected generation. */
    method PatchPending(pending: Option<Generation>, expected: Generation) returns (landed: bool)
      modifies this`row
      ensures landed == (old(row).version == Some(expected))
      ensures row == if landed then old(row).(pending := pending) else old(row)
    {
      landed := row.version == Some(expected);
      if landed {
        row := row.(pending := pending);
      }
    }

    /** Afterwards the gate's layer 3 holds the generation, or the caller must not run its command. */
    method ArmReleasePending(target: Generation) returns (armed: bool)
      modifies this`row
      ensures armed <==> row.Armed() && row.version == Some(target) && old(row).version == Some(target)
      ensures !armed ==> row == old(row)
      ensures row == old(row).(pending := row.pending)
    {
      if row.version != Some(target) {
        return false;
      }
      armed := PatchPending(Some(target), target);
    }

    /** A newer generation's marker is never disarmed. */
    method ClearReleasePending(target: Generation)
      modifies this`row
      ensures old(row).version != Some(target) ==> row == old(row)
      ensures old(row).version == Some(target) ==> row == old(row).(pending := None)
    {
      if row.version != Some(target) || row.pending.None? {
        return;
      }
      var _ := PatchPending(None, target);
    }

    /** `revert_service_config_guarded`. */
    method WriteRevert(blob: Row, expected: Generation) returns (landed: bool)
      modifies this`row
      ensures landed == (old(row).version == Some(expected))
      ensures row == if landed then RevertedRow(old(row), blob) else old(row)
    {
      landed := row.version == Some(expected);
      if landed {
        row := RevertedRow(row, blob);
      }
    }

    /** `settle_failed_guarded`: a row without a version has no newer generation to protect. */
    method WriteTerminalSettle(expected: Generation) returns (landed: bool)
      modifies this`row
      ensures landed == (old(row).version.None? || old(row).version == Some(expected))
      ensures row == if landed then old(row).(status := Failed, desired := GivenUp) else old(row)
    {
      landed := row.version.None? || row.version == Some(expected);
      if landed {
        row := row.(status := Failed, desired := GivenUp);
      }
    }

    method SettleFailedGeneration(f: Failure) returns (reclaimable: bool)
      modifies this`row
      ensures row == SettledRow(old(row), known, f)
      ensures reclaimable == IsReclaimable(old(row), known, f)
    {
      if f.job.container.Some? && f.job.container.value in known {
        var current := row;
        if current.version != Some(f.target) {
          return false;
        }
        var landed := WriteRevert(current, f.target);
        return landed;
      }
      var landed := WriteTerminalSettle(f.target);
      if landed && row.version == Some(f.target) {
        row := row.(phase := Later);
      }
      return false;
    }

    /** The three layers of the gate: whether the tick must leave the containers alone, and what it starts. */
    method EnsureBuilt(job: Row, live: bool, inFlight: bool, onDisk: bool) returns (hold: bool, spawned: bool)
      modifies this`row
      ensures hold <==> inFlight || GateVerdict(job, images, live, onDisk) in {Hold, Build, SettleCrashed}
      ensures spawned <==> !inFlight && GateVerdict(job, images, live, onDisk).Build?
      ensures row ==
        if inFlight then old(row)
        else match GateVerdict(job, images, live, onDisk)
          case Build => if old(row).phase.InBuild? then old(row).(phase := Queued) else old(row)
          case SettleCrashed => SettledRow(old(row), known, Failure(job, job.pending.value, false, false, true))
          case _ => old(row)
    {
      hold, spawned := inFlight, false;
      if inFlight {
        return;
      }
      if live && !job.status.Building? && !job.status.Restarting? {
        return;
      }
      if job.context && (job.image !in images || (job.phase.Queued? && !job.rolledBack)) {
        if onDisk {
          if row.phase.InBuild? {
            row := row.(phase := Queued);
          }
          spawned := true;
        }
        return true, spawned;
      }
      if job.pending.Some? && job.pending == job.version {
        var _ := SettleFailedGeneration(Failure(job, job.pending.value, false, false, true));
        return true, false;
      }
    }

    /**
     * A tag goes exactly when it is neither the job's image nor its rollback target and at least
     * three newer ones exist.
     */
    method PruneOldImages(job: Row)
      modifies this`images
      ensures forall t <- old(images) ::
        t !in images <==> t != job.image && Some(t) != job.previous && |Newer(old(images), t)| >= 3
      ensures images <= old(images)
    {
      var tags := images;
      var top := NewestThree(tags);
      var keep := top + {job.image} + (if job.previous.Some? then {job.previous.value} else {});
      var todo := tags;
      while todo != {}
        invariant todo <= tags && images == todo + (tags - todo) * keep
      {
        var tag :| tag in todo;
        todo := todo - {tag};
        if tag !in keep {
          images := images - {tag};
        }
      }
    }
  }
}
