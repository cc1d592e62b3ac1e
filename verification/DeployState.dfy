/** The guarded writer of a deploy's phase: a read, its guards, and a write that may find a newer generation. */
module DeployState {
  import opened Common

  datatype Phase = Queued | Building | Launching | Healthy | Failed

  datatype LastDeploy = LastDeploy(phase: Phase, version: Option<nat>)

  /** The config keys the stamp reads or writes; `last` is none on rows without deploy metadata. */
  datatype Row = Row(version: Option<nat>, last: Option<LastDeploy>, ready: bool)

  datatype Guards = Guards(onlyFrom: Option<set<Phase>>, matchVersion: bool, needReady: bool, expected: Option<nat>)

  /** What the stamp decides on the row as read: the new metadata, or nothing. */
  function Decide(row: Row, g: Guards, phase: Phase): Option<LastDeploy> {
    if row.last.None? then None
    else
      var ld := row.last.value;
      if g.onlyFrom.Some? && ld.phase !in g.onlyFrom.value then None
      else if g.matchVersion && row.version != ld.version then None
      else if g.needReady && !row.ready then None
      else if g.expected.Some? && ld.version != g.expected then None
      else Some(ld.(phase := phase))
  }

  /** The version the write is conditional on, if any. */
  function WriteGuard(row: Row, g: Guards): Option<nat> {
    if g.matchVersion && row.last.Some? then row.last.value.version else None
  }

  function Write(now: Row, ld: LastDeploy, guard: Option<nat>): Row {
    if guard.None? || now.version == guard then now.(last := Some(ld)) else now
  }

  /** The outcome of a stamp that read `read` and writes onto `now`. */
  function Stamped(read: Row, now: Row, g: Guards, phase: Phase): Row {
    var ld := Decide(read, g, phase);
    if ld.None? then now else Write(now, ld.value, WriteGuard(read, g))
  }

  /** A generation later than everything the read saw. */
  predicate IsNewer(now: Row, read: Row) {
    && now.version.Some? && (read.version.Some? ==> read.version.value < now.version.value)
    && (read.last.Some? && read.last.value.version.Some? ==> read.last.value.version.value < now.version.value)
  }

  /**
   * A stamp leaves the metadata of a generation that landed between its read and its write alone
   * exactly when it decided to write nothing, or asked for the version match on a versioned deploy,
   * or happened to write what is there.
   */
  lemma NewerGenerationIsSparedExactlyWhen(read: Row, now: Row, g: Guards, phase: Phase)
    requires IsNewer(now, read)
    ensures Stamped(read, now, g, phase) == now <==>
      || Decide(read, g, phase).None?
      || (g.matchVersion && read.last.value.version.Some?)
      || now.last == Decide(read, g, phase)
  {
  }

  class Deploy {
    var row: Row
    /** The rows other writers leave behind while the stamp is between its read and its write. */
    var landing: seq<Row>

    constructor (row: Row, landing: seq<Row>)
      ensures this.row == row && this.landing == landing
    {
      this.row, this.landing := row, landing;
    }

    /** True only when the metadata was written; a newer generation that landed in between is spared exactly as above. */
    method StampLastDeploy(g: Guards, phase: Phase) returns (written: bool)
      modifies this
      ensures var read := old(row);
        var decided := Decide(read, g, phase);
        var now := if decided.None? || old(landing) == [] then read else old(landing)[|old(landing)| - 1];
        && row == Stamped(read, now, g, phase)
        && (written <==> decided.Some? && (WriteGuard(read, g).None? || now.version == WriteGuard(read, g)))
        && (written ==> row.last == decided)
        && (IsNewer(now, read) ==>
              (row == now <==> decided.None? || (g.matchVersion && read.last.value.version.Some?) || now.last == decided))
    {
      ghost var landed := if landing == [] then row else landing[|landing| - 1];
      if IsNewer(landed, row) {
        NewerGenerationIsSparedExactlyWhen(row, landed, g, phase);
      }
      var read := row;
      if read.last.None? {
        return false;
      }
      var ld := read.last.value;
      if g.onlyFrom.Some? && ld.phase !in g.onlyFrom.value {
        return false;
      }
      if g.matchVersion && read.version != ld.version {
        return false;
      }
      if g.needReady && !read.ready {
        return false;
      }
      if g.expected.Some? && ld.version != g.expected {
        return false;
      }
      if landing != [] {
        row := landing[|landing| - 1];
        landing := [];
      }
      var guard := if g.matchVersion then ld.version else None;
      written := guard.None? || row.version == guard;
      if written {
        row := row.(last := Some(ld.(phase := phase)));
      }
    }
  }
}
