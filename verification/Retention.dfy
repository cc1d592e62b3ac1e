/**
 * The audit log's archive-then-prune sweep. Every awaited operation lets other writers insert rows,
 * may raise, and may be the last thing the daemon does before it crashes; a script says which.
 */
module Retention {
  import opened Common

  type Id = nat
  type Time = nat
  type Rows = map<Id, Time>

  /** What happens while one operation is awaited. */
  datatype Fate = Proceeds | Raises | Crashes
  datatype Happening = Happening(arrivals: seq<Time>, fate: Fate)

  /** An archive file; it counts once it is written out and fsynced, and is trusted once anchored. */
  datatype Archive = Archive(rows: Rows, synced: bool, anchored: bool)

  /** How a sweep ends; an abandoned one raised before its first delete, an interrupted one during the deletes. */
  datatype Outcome = NothingToDo | Done(archived: nat, deleted: nat) | Abandoned | Interrupted | Crashed

  const DELETE_CHUNK := 500

  /** No await of the script raises or crashes. */
  predicate AllProceed(script: seq<Happening>) {
    forall h <- script :: h.fate.Proceeds?
  }

  /** The rows below the cutoff with ids in `(after, top]`. */
  function Eligible(table: Rows, cutoff: Time, after: Id, top: Id): Rows {
    map id | id in table && table[id] < cutoff && after < id <= top :: table[id]
  }

  predicate Holds(a: Archive, id: Id, ts: Time) {
    a.synced && a.anchored && id in a.rows && a.rows[id] == ts
  }

  /** A row is in the table, or in an archive that is complete, fsynced and anchored. */
  predicate Kept(table: Rows, archives: seq<Archive>, id: Id, ts: Time) {
    (id in table && table[id] == ts) || exists a <- archives :: Holds(a, id, ts)
  }

  predicate Safe(table: Rows, archives: seq<Archive>, ever: Rows, nextId: Id) {
    && (forall id <- ever :: id < nextId && Kept(table, archives, id, ever[id]))
    && (forall id <- table :: 0 < id < nextId && id in ever && table[id] == ever[id])
  }

  /** `after` is `before` and rows inserted since, all of higher ids. */
  predicate Grown(before: Rows, nextId: Id, after: Rows) {
    && (forall id <- before :: id in after && after[id] == before[id])
    && (forall id <- after :: id in before || id >= nextId)
  }

  lemma GrowthIsAbove(before: Rows, nextId: Id, after: Rows, cutoff: Time, low: Id, top: Id)
    requires Grown(before, nextId, after) && top < nextId
    ensures Eligible(after, cutoff, low, top) == Eligible(before, cutoff, low, top)
  {
  }

  lemma EligibleStep(table: Rows, cutoff: Time, after: Id, id: Id)
    requires after <= id
    ensures Eligible(table, cutoff, after, id + 1) ==
      if id + 1 in table && table[id + 1] < cutoff
      then Eligible(table, cutoff, after, id)[id + 1 := table[id + 1]]
      else Eligible(table, cutoff, after, id)
  {
  }

  lemma EligibleSplits(table: Rows, cutoff: Time, low: Id, mid: Id, top: Id)
    requires low <= mid <= top
    ensures Eligible(table, cutoff, low, top) ==
      Eligible(table, cutoff, low, mid) + Eligible(table, cutoff, mid, top)
    ensures Eligible(table, cutoff, low, mid).Keys !! Eligible(table, cutoff, mid, top).Keys
  {
  }

  /** Where a scan from `id` for at most `limit` eligible rows stops. */
  function ScanEnd(table: Rows, cutoff: Time, id: Id, top: Id, limit: nat): (end: Id)
    requires id <= top
    ensures id <= end <= top
    decreases top - id
  {
    if id == top || limit == 0 then id
    else ScanEnd(table, cutoff, id + 1, top, if id + 1 in table && table[id + 1] < cutoff then limit - 1 else limit)
  }

  /** It has found the first `limit` of them, or all there are. */
  lemma {:induction false} ScanFinds(table: Rows, cutoff: Time, id: Id, top: Id, limit: nat)
    requires id <= top
    ensures var end := ScanEnd(table, cutoff, id, top, limit);
      && |Eligible(table, cutoff, id, end)| <= limit
      && (end == top || |Eligible(table, cutoff, id, end)| == limit)
    decreases top - id
  {
    if id < top && limit > 0 {
      var next := if id + 1 in table && table[id + 1] < cutoff then limit - 1 else limit;
      ScanFinds(table, cutoff, id + 1, top, next);
      var end := ScanEnd(table, cutoff, id + 1, top, next);
      EligibleStep(table, cutoff, id, id);
      EligibleSplits(table, cutoff, id, id + 1, end);
      UnionSize(Eligible(table, cutoff, id, id + 1), Eligible(table, cutoff, id + 1, end));
    }
  }

  lemma GrowsOn(a: Rows, n: Id, b: Rows, m: Id, c: Rows)
    requires Grown(a, n, b) && Grown(b, m, c) && n <= m
    ensures Grown(a, n, c)
  {
  }

  lemma InsertIsSafe(table: Rows, archives: seq<Archive>, ever: Rows, nextId: Id, ts: Time)
    requires Safe(table, archives, ever, nextId) && nextId > 0
    ensures Safe(table[nextId := ts], archives, ever[nextId := ts], nextId + 1)
  {
    var more := ever[nextId := ts];
    forall id | id in more
      ensures Kept(table[nextId := ts], archives, id, more[id])
    {
      if id != nextId {
        assert Kept(table, archives, id, ever[id]);
      }
    }
  }

  /** A new or changed archive at the end loses nothing the earlier ones held. */
  lemma MoreArchivesAreSafe(table: Rows, archives: seq<Archive>, last: Archive, ever: Rows, nextId: Id)
    requires Safe(table, archives, ever, nextId)
    ensures Safe(table, archives + [last], ever, nextId)
  {
    forall id | id in ever
      ensures Kept(table, archives + [last], id, ever[id])
    {
      assert Kept(table, archives, id, ever[id]);
      assert forall a <- archives :: a in archives + [last];
    }
  }

  /** Removing rows that the last, anchored archive holds loses nothing. */
  lemma PrunedIsSafe(table: Rows, archives: seq<Archive>, ever: Rows, nextId: Id, last: Archive, gone: set<Id>)
    requires Safe(table, archives, ever, nextId) && last in archives
    requires forall id <- gone :: id in table && Holds(last, id, table[id])
    ensures Safe(table - gone, archives, ever, nextId)
  {
    forall id | id in ever
      ensures Kept(table - gone, archives, id, ever[id])
    {
      assert Kept(table, archives, id, ever[id]);
    }
  }

  class AuditLog {
    var table: Rows
    var nextId: Id
    var archives: seq<Archive>
    var script: seq<Happening>
    /** Every row that was ever inserted. */
    ghost var ever: Rows

    ghost predicate Valid()
      reads this
    {
      nextId > 0 && Safe(table, archives, ever, nextId)
    }

    constructor (script: seq<Happening>)
      ensures Valid() && table == map[] && archives == [] && this.script == script
    {
      this.script := script;
      table, nextId, archives, ever := map[], 1, [], map[];
    }

    /** An await: whatever the script has other writers insert, and how it ends. */
    method Await() returns (fate: Fate)
      requires Valid()
      modifies this`table, this`nextId, this`script, this`ever
      ensures Valid() && Grown(old(table), old(nextId), table) && nextId >= old(nextId)
      ensures AllProceed(old(script)) ==> AllProceed(script) && fate.Proceeds?
    {
      if script == [] {
        return Proceeds;
      }
      var h := script[0];
      assert h in script && forall g <- script[1..] :: g in script;
      script := script[1..];
      for i := 0 to |h.arrivals|
        invariant Valid() && Grown(old(table), old(nextId), table) && nextId >= old(nextId)
        invariant script == old(script)[1..]
      {
        InsertIsSafe(table, archives, ever, nextId, h.arrivals[i]);
        table, ever := table[nextId := h.arrivals[i]], ever[nextId := h.arrivals[i]];
        nextId := nextId + 1;
      }
      return h.fate;
    }

    /** `fetch_audit_for_archive`: the first `limit` eligible rows above `after`, as far as `top`. */
    method Fetch(cutoff: Time, after: Id, top: Id, limit: nat) returns (rows: Rows, last: Id)
      requires limit > 0 && after <= top
      ensures after <= last <= top && rows == Eligible(table, cutoff, after, last)
      ensures rows == map[] ==> Eligible(table, cutoff, after, top) == map[]
      ensures rows != map[] ==> last > after
      ensures |rows| <= limit
    {
      var end := ScanEnd(table, cutoff, after, top, limit);
      ScanFinds(table, cutoff, after, top, limit);
      rows, last := Eligible(table, cutoff, after, end), after;
      var todo := rows.Keys;
      while todo != {}
        invariant todo <= rows.Keys && after <= last <= end
        invariant forall id <- rows :: id in todo || id <= last
        invariant last == after ==> todo == rows.Keys
      {
        var id :| id in todo;
        todo := todo - {id};
        if id > last {
          last := id;
        }
      }
    }

    /** `delete_audit_range`: at most 500 rows below the cutoff, up to the watermark. */
    method DeleteChunk(cutoff: Time, watermark: Id) returns (gone: set<Id>)
      modifies this`table
      ensures gone <= Eligible(old(table), cutoff, 0, watermark).Keys && |gone| <= DELETE_CHUNK
      ensures gone == {} <==> Eligible(old(table), cutoff, 0, watermark) == map[]
      ensures table == old(table) - gone
    {
      var todo := Eligible(table, cutoff, 0, watermark).Keys;
      gone := {};
      while todo != {} && |gone| < DELETE_CHUNK
        invariant gone + todo == Eligible(table, cutoff, 0, watermark).Keys && gone !! todo
        invariant |gone| <= DELETE_CHUNK && table == old(table)
        invariant gone == {} ==> todo == Eligible(table, cutoff, 0, watermark).Keys
        decreases todo
      {
        var id :| id in todo;
        todo, gone := todo - {id}, gone + {id};
      }
      table := table - gone;
    }

    /** One turn of the export: a chunk is read and written, or there is nothing left to read. */
    method ExportChunk(cutoff: Time, watermark: Id, top: Id, limit: nat, front: seq<Archive>, file: Archive)
      returns (fate: Fate, rows: Rows, last: Id)
      requires Valid() && limit > 0 && watermark <= top < nextId
      requires archives == front + [file] && !file.synced && file.rows == Eligible(table, cutoff, 0, watermark)
      modifies this
      ensures Valid() && Grown(old(table), old(nextId), table) && nextId >= old(nextId)
      ensures fate.Proceeds? && rows != map[] ==>
        && watermark < last <= top && archives == front + [file.(rows := file.rows + rows)]
        && file.rows + rows == Eligible(table, cutoff, 0, last) && |file.rows + rows| == |file.rows| + |rows|
      ensures AllProceed(old(script)) ==> AllProceed(script) && fate.Proceeds?
      ensures !fate.Proceeds? || rows == map[] ==> archives == front + [file]
      ensures fate.Proceeds? && rows == map[] ==>
        Eligible(table, cutoff, watermark, top) == map[] && Eligible(table, cutoff, 0, watermark) == file.rows
    {
      rows, last := map[], watermark;
      ghost var before, n := table, nextId;
      fate := Await();
      GrowthIsAbove(before, n, table, cutoff, 0, watermark);
      if !fate.Proceeds? {
        return;
      }
      rows, last := Fetch(cutoff, watermark, top, limit);
      if rows == map[] {
        return;
      }
      OneMoreChunk(table, cutoff, watermark, last, file.rows, rows);
      ghost var read, m := table, nextId;
      fate := Await();
      AwaitedDuring(before, n, read, m, table, cutoff, last);
      if fate.Proceeds? {
        WriteIsSafe(table, front, file, file.(rows := file.rows + rows), ever, nextId);
        archives := front + [file.(rows := file.rows + rows)];
      }
    }

    /** The export loop: chunk by chunk into the file that was opened last. */
    method Export(cutoff: Time, top: Id, limit: nat, front: seq<Archive>) returns (fate: Fate, written: nat, watermark: Id)
      requires Valid() && limit > 0 && top < nextId && archives == front + [Archive(map[], false, false)]
      modifies this
      ensures Valid() && Grown(old(table), old(nextId), table) && nextId >= old(nextId)
      ensures AllProceed(old(script)) ==> AllProceed(script) && fate.Proceeds?
      ensures exists file :: archives == front + [file] && !file.synced && !file.anchored
      ensures watermark <= top
      ensures fate.Proceeds? ==>
        && archives == front + [Archive(Eligible(table, cutoff, 0, watermark), false, false)]
        && written == |Eligible(table, cutoff, 0, watermark)| && Eligible(table, cutoff, watermark, top) == map[]
    {
      written, watermark := 0, 0;
      var file := Archive(map[], false, false);
      while true
        invariant Valid() && Grown(old(table), old(nextId), table) && nextId >= old(nextId)
        invariant archives == front + [file] && !file.synced && !file.anchored
        invariant AllProceed(old(script)) ==> AllProceed(script)
        invariant watermark <= top && file.rows == Eligible(table, cutoff, 0, watermark) && written == |file.rows|
        decreases top - watermark
      {
        ghost var before, n := table, nextId;
        var rows, last;
        fate, rows, last := ExportChunk(cutoff, watermark, top, limit, front, file);
        GrowsOn(old(table), old(nextId), before, n, table);
        if !fate.Proceeds? || rows == map[] {
          return;
        }
        file := file.(rows := file.rows + rows);
        written, watermark := written + |rows|, last;
      }
    }

    /** One turn of the deletes: an await, and at most one chunk of rows the last archive holds. */
    method DeleteTurn(cutoff: Time, watermark: Id, ghost rest: Rows, ghost first: Id, ghost doomed: Rows)
      returns (fate: Fate, gone: set<Id>)
      requires Valid() && first <= nextId && Deleting(rest, first, table, doomed, cutoff, watermark) && archives != []
      requires var last := archives[|archives| - 1]; last.synced && last.anchored && last.rows == doomed
      modifies this`table, this`nextId, this`script, this`ever
      ensures Valid() && nextId >= old(nextId) && Deleting(rest, first, table, doomed, cutoff, watermark)
      ensures AllProceed(old(script)) ==> AllProceed(script) && fate.Proceeds?
      ensures fate.Proceeds? ==>
        && |Eligible(table, cutoff, 0, watermark)| + |gone| == |Eligible(old(table), cutoff, 0, watermark)|
        && (gone == {} ==> Eligible(table, cutoff, 0, watermark) == map[])
    {
      gone := {};
      ghost var before, n := table, nextId;
      fate := Await();
      DeletingAwaits(rest, first, before, n, table, doomed, cutoff, watermark);
      if fate.Proceeds? {
        ghost var now := table;
        gone := DeleteChunk(cutoff, watermark);
        PrunedIsSafe(now, archives, ever, nextId, archives[|archives| - 1], gone);
        DeletingGoesOn(rest, first, now, doomed, cutoff, watermark, gone);
      }
    }

    /** The delete loop: every row it removes is in the last archive. */
    method DeleteArchived(cutoff: Time, watermark: Id) returns (fate: Fate, deleted: nat)
      requires Valid() && watermark < nextId && archives != []
      requires var last := archives[|archives| - 1];
        last.synced && last.anchored && last.rows == Eligible(table, cutoff, 0, watermark)
      modifies this`table, this`nextId, this`script, this`ever
      ensures Valid() && nextId >= old(nextId)
      ensures AllProceed(old(script)) ==> AllProceed(script) && fate.Proceeds?
      ensures Grown(old(table) - Eligible(old(table), cutoff, 0, watermark).Keys, old(nextId),
                    table - Eligible(old(table), cutoff, 0, watermark).Keys)
      ensures fate.Proceeds? ==>
        Eligible(table, cutoff, 0, watermark) == map[] && deleted == |Eligible(old(table), cutoff, 0, watermark)|
      ensures forall id <- Eligible(old(table), cutoff, 0, watermark) :: id in table ==> table[id] == old(table)[id]
    {
      ghost var doomed := Eligible(table, cutoff, 0, watermark);
      ghost var rest, first := table - doomed.Keys, nextId;
      deleted := 0;
      while true
        invariant Valid() && nextId >= first
        invariant AllProceed(old(script)) ==> AllProceed(script)
        invariant Deleting(rest, first, table, doomed, cutoff, watermark)
        invariant deleted + |Eligible(table, cutoff, 0, watermark)| == |doomed|
        decreases |Eligible(table, cutoff, 0, watermark)|
      {
        var gone;
        fate, gone := DeleteTurn(cutoff, watermark, rest, first, doomed);
        if !fate.Proceeds? {
          return;
        }
        deleted := deleted + |gone|;
        if gone == {} {
          return;
        }
      }
    }

    /** `audit_archive_range`: the highest eligible id. */
    method Range(cutoff: Time) returns (top: Id)
      requires Valid()
      ensures top < nextId && Eligible(table, cutoff, top, nextId) == map[]
      ensures top == 0 <==> Eligible(table, cutoff, 0, nextId) == map[]
    {
      top := 0;
      var todo := Eligible(table, cutoff, 0, nextId).Keys;
      while todo != {}
        invariant todo <= Eligible(table, cutoff, 0, nextId).Keys && top < nextId
        invariant forall id <- Eligible(table, cutoff, 0, nextId) :: id in todo || id <= top
        invariant top != 0 ==> top in Eligible(table, cutoff, 0, nextId)
      {
        var id :| id in todo;
        todo := todo - {id};
        if id > top {
          top := id;
        }
      }
      assert forall id <- Eligible(table, cutoff, top, nextId) :: id in Eligible(table, cutoff, 0, nextId);
    }

    /** Opening and filling the archive; when that raises, the partial file is unlinked. */
    method OpenAndExport(cutoff: Time, top: Id, limit: nat) returns (fate: Fate, written: nat, watermark: Id)
      requires Valid() && limit > 0 && top < nextId
      modifies this
      ensures Valid() && Grown(old(table), old(nextId), table) && nextId >= old(nextId)
      ensures archives == old(archives) || exists file :: archives == old(archives) + [file] && !file.synced && !file.anchored
      ensures fate.Proceeds? ==>
        && watermark <= top && Eligible(table, cutoff, watermark, top) == map[]
        && archives == old(archives) + [Archive(Eligible(table, cutoff, 0, watermark), false, false)]
        && written == |Eligible(table, cutoff, 0, watermark)|
      ensures AllProceed(old(script)) ==> AllProceed(script) && fate.Proceeds?
    {
      var front := archives;
      written, watermark := 0, 0;
      fate := Await();
      if !fate.Proceeds? {
        return;
      }
      ghost var created, m := table, nextId;
      MoreArchivesAreSafe(table, archives, Archive(map[], false, false), ever, nextId);
      archives := archives + [Archive(map[], false, false)];
      fate, written, watermark := Export(cutoff, top, limit, front);
      GrowsOn(old(table), old(nextId), created, m, table);
      if fate.Raises? {
        var last := archives[|archives| - 1];
        assert archives == front + [last];
        WriteIsSafe(table, front, last, last, ever, nextId);
        archives := archives[..|archives| - 1];
      }
    }

    /** Fsync of the directory, the hash and the anchor callback: the file stays, the rows too. */
    method Anchor(ghost front: seq<Archive>, ghost file: Archive) returns (fate: Fate)
      requires Valid() && archives == front + [file] && !file.synced && !file.anchored
      modifies this
      ensures Valid() && Grown(old(table), old(nextId), table) && nextId >= old(nextId)
      ensures archives == front + [if fate.Proceeds? then Archive(file.rows, true, true) else file]
      ensures AllProceed(old(script)) ==> AllProceed(script) && fate.Proceeds?
    {
      fate := Await();
      if fate.Proceeds? {
        var last := archives[|archives| - 1];
        var whole := last.(synced := true, anchored := true);
        WriteIsSafe(table, front, last, whole, ever, nextId);
        archives := archives[..|archives| - 1] + [whole];
      }
    }

    /** Opening, filling, closing, fsyncing and anchoring the archive; no row is removed on the way. */
    method ExportAndAnchor(cutoff: Time, top: Id, limit: nat) returns (fate: Fate, written: nat, watermark: Id)
      requires Valid() && limit > 0 && top < nextId
      modifies this
      ensures Valid() && Grown(old(table), old(nextId), table) && nextId >= old(nextId)
      ensures archives == old(archives) || (|archives| == |old(archives)| + 1 && archives[..|old(archives)|] == old(archives))
      ensures fate.Proceeds? ==>
        && |archives| == |old(archives)| + 1 && watermark <= top
        && archives[|archives| - 1] == Archive(Eligible(old(table), cutoff, 0, top), true, true)
        && Eligible(old(table), cutoff, 0, watermark) == Eligible(old(table), cutoff, 0, top)
        && written == |Eligible(old(table), cutoff, 0, top)|
      ensures !fate.Proceeds? && |archives| > |old(archives)| ==> !archives[|archives| - 1].anchored
      ensures AllProceed(old(script)) ==> AllProceed(script) && fate.Proceeds?
    {
      ghost var start, n := table, nextId;
      ghost var front := archives;
      fate, written, watermark := OpenAndExport(cutoff, top, limit);
      if !fate.Proceeds? {
        return;
      }
      GrowthIsAbove(start, n, table, cutoff, 0, watermark);
      GrowthIsAbove(start, n, table, cutoff, 0, top);
      EligibleSplits(table, cutoff, 0, watermark, top);
      ghost var exported, k := table, nextId;
      fate := Anchor(front, archives[|front|]);
      GrowsOn(start, n, exported, k, table);
    }

    /** The deletes of one sweep, told in terms of the table it started on. */
    method PruneExported(cutoff: Time, watermark: Id, ghost start: Rows, ghost n: Id) returns (fate: Fate, deleted: nat)
      requires Valid() && Grown(start, n, table) && watermark < n <= nextId && archives != []
      requires archives[|archives| - 1] == Archive(Eligible(start, cutoff, 0, watermark), true, true)
      modifies this`table, this`nextId, this`script, this`ever
      ensures Valid()
      ensures AllProceed(old(script)) ==> fate.Proceeds?
      ensures forall id <- start :: id !in Eligible(start, cutoff, 0, watermark) ==> id in table
      ensures fate.Proceeds? ==>
        && deleted == |Eligible(start, cutoff, 0, watermark)|
        && forall id <- Eligible(start, cutoff, 0, watermark) :: id !in table
    {
      ghost var exported, m := table, nextId;
      GrowthIsAbove(start, n, table, cutoff, 0, watermark);
      fate, deleted := DeleteArchived(cutoff, watermark);
      NotDoomedStays(start, n, exported, m, table, cutoff, watermark);
      if fate.Proceeds? {
        GoneAreGone(start, table, cutoff, watermark);
      }
    }

    /**
     * One sweep. Whatever is inserted meanwhile and wherever it raises or crashes, no row is lost and
     * none is removed before the archive that holds it is anchored; a sweep that ends has archived
     * and removed exactly the rows that were eligible when it started, and one ends unless an await
     * raises or crashes.
     */
    method ArchiveAndPrune(cutoff: Time, limit: nat) returns (outcome: Outcome)
      requires Valid() && limit > 0
      modifies this
      ensures Valid()
      ensures var eligible := Eligible(old(table), cutoff, 0, old(nextId));
        && (outcome.NothingToDo? ==> eligible == map[] && archives == old(archives))
        && (outcome.Done? ==>
              && |archives| == |old(archives)| + 1
              && archives[|archives| - 1] == Archive(eligible, true, true)
              && outcome.archived == outcome.deleted == |eligible|
              && (forall id <- eligible :: id !in table))
        && (forall id <- old(table) :: id !in eligible ==> id in table)
      ensures AllProceed(old(script)) ==> outcome.NothingToDo? || outcome.Done?
      ensures outcome.Abandoned? ==> forall id <- old(table) :: id in table
      ensures archives == [] || |archives| == |old(archives)| || !archives[|archives| - 1].anchored ==>
        forall id <- old(table) :: id in table
    {
      ghost var start, n := table, nextId;
      var top := Range(cutoff);
      EligibleSplits(table, cutoff, 0, top, nextId);
      if top == 0 {
        return NothingToDo;
      }
      var fate, written, watermark := ExportAndAnchor(cutoff, top, limit);
      if !fate.Proceeds? {
        return if fate.Crashes? then Crashed else Abandoned;
      }
      assert Eligible(start, cutoff, 0, watermark) == Eligible(start, cutoff, 0, n);
      var deleted;
      fate, deleted := PruneExported(cutoff, watermark, start, n);
      if !fate.Proceeds? {
        return if fate.Crashes? then Crashed else Interrupted;
      }
      return Done(written, deleted);
    }
  }

  lemma NotDoomedStays(start: Rows, n: Id, exported: Rows, m: Id, table: Rows, cutoff: Time, watermark: Id)
    requires Grown(start, n, exported) && n <= m && watermark < n
    requires var doomed := Eligible(exported, cutoff, 0, watermark).Keys;
      Grown(exported - doomed, m, table - doomed)
    ensures Eligible(exported, cutoff, 0, watermark) == Eligible(start, cutoff, 0, watermark)
    ensures forall id <- start :: id !in Eligible(start, cutoff, 0, watermark) ==> id in table && table[id] == start[id]
  {
    GrowthIsAbove(start, n, exported, cutoff, 0, watermark);
    var doomed := Eligible(exported, cutoff, 0, watermark).Keys;
    forall id | id in start && id !in doomed
      ensures id in table && table[id] == start[id]
    {
      assert id in exported - doomed;
      assert id in table - doomed;
    }
  }

  lemma GoneAreGone(start: Rows, table: Rows, cutoff: Time, watermark: Id)
    requires Eligible(table, cutoff, 0, watermark) == map[]
    requires forall id <- Eligible(start, cutoff, 0, watermark) :: id in table ==> table[id] == start[id]
    ensures forall id <- Eligible(start, cutoff, 0, watermark) :: id !in table
  {
    var left := Eligible(table, cutoff, 0, watermark);
    assert left.Keys == {};
    assert forall id: Id :: id in Eligible(start, cutoff, 0, watermark) && id in table ==> id in left.Keys;
  }

  lemma AwaitedDuring(
    start: Rows, first: Id, before: Rows, n: Id, after: Rows, cutoff: Time, watermark: Id)
    requires Grown(start, first, before) && Grown(before, n, after) && first <= n && watermark < first
    ensures Grown(start, first, after)
    ensures Eligible(after, cutoff, 0, watermark) == Eligible(before, cutoff, 0, watermark)
  {
    GrowsOn(start, first, before, n, after);
    GrowthIsAbove(before, n, after, cutoff, 0, watermark);
  }

  lemma OneMoreChunk(table: Rows, cutoff: Time, watermark: Id, last: Id, rows: Rows, chunk: Rows)
    requires watermark <= last
    requires rows == Eligible(table, cutoff, 0, watermark) && chunk == Eligible(table, cutoff, watermark, last)
    ensures rows + chunk == Eligible(table, cutoff, 0, last) && |rows + chunk| == |rows| + |chunk|
  {
    EligibleSplits(table, cutoff, 0, watermark, last);
    UnionSize(rows, chunk);
  }

  lemma GrownWithout(before: Rows, n: Id, after: Rows, doomed: set<Id>, watermark: Id)
    requires Grown(before, n, after) && (forall id <- doomed :: id <= watermark) && watermark < n
    ensures Grown(before - doomed, n, after - doomed)
  {
  }

  /** Where the deletes stand: besides the doomed rows the table has only grown, and nothing else is eligible. */
  predicate Deleting(rest: Rows, first: Id, table: Rows, doomed: Rows, cutoff: Time, watermark: Id) {
    && watermark < first && (forall id <- doomed :: id <= watermark)
    && Grown(rest, first, table - doomed.Keys)
    && (forall id <- doomed :: id in table ==> table[id] == doomed[id])
    && (forall id <- Eligible(table, cutoff, 0, watermark) :: id in doomed)
  }

  lemma DeletingAwaits(
    rest: Rows, first: Id, before: Rows, n: Id, after: Rows, doomed: Rows, cutoff: Time, watermark: Id)
    requires Deleting(rest, first, before, doomed, cutoff, watermark) && Grown(before, n, after) && first <= n
    ensures Deleting(rest, first, after, doomed, cutoff, watermark)
    ensures Eligible(after, cutoff, 0, watermark) == Eligible(before, cutoff, 0, watermark)
  {
    GrowthIsAbove(before, n, after, cutoff, 0, watermark);
    GrownWithout(before, n, after, doomed.Keys, watermark);
    GrowsOn(rest, first, before - doomed.Keys, n, after - doomed.Keys);
  }

  lemma DeletingGoesOn(
    rest: Rows, first: Id, table: Rows, doomed: Rows, cutoff: Time, watermark: Id, gone: set<Id>)
    requires Deleting(rest, first, table, doomed, cutoff, watermark)
    requires gone <= Eligible(table, cutoff, 0, watermark).Keys
    ensures Deleting(rest, first, table - gone, doomed, cutoff, watermark)
    ensures |Eligible(table - gone, cutoff, 0, watermark)| + |gone| == |Eligible(table, cutoff, 0, watermark)|
  {
    DeletedIsCounted(table, cutoff, watermark, gone);
    assert table - gone - doomed.Keys == table - doomed.Keys;
  }

  lemma DeletedIsCounted(table: Rows, cutoff: Time, watermark: Id, gone: set<Id>)
    requires gone <= Eligible(table, cutoff, 0, watermark).Keys
    ensures |Eligible(table - gone, cutoff, 0, watermark)| + |gone| == |Eligible(table, cutoff, 0, watermark)|
  {
    var left := Eligible(table - gone, cutoff, 0, watermark);
    assert left.Keys + gone == Eligible(table, cutoff, 0, watermark).Keys && left.Keys !! gone;
    assert |left| == |left.Keys| && |Eligible(table, cutoff, 0, watermark)| == |Eligible(table, cutoff, 0, watermark).Keys|;
  }

  lemma UnionSize(a: Rows, b: Rows)
    requires a.Keys !! b.Keys
    ensures |a + b| == |a| + |b|
  {
    assert (a + b).Keys == a.Keys + b.Keys;
  }

  /** Whatever happens to an unsynced file at the end, nothing counted on it. */
  lemma WriteIsSafe(
    table: Rows, front: seq<Archive>, before: Archive, after: Archive, ever: Rows, nextId: Id)
    requires Safe(table, front + [before], ever, nextId) && !before.synced
    ensures Safe(table, front + [after], ever, nextId) && Safe(table, front, ever, nextId)
  {
    forall id | id in ever
      ensures Kept(table, front + [after], id, ever[id]) && Kept(table, front, id, ever[id])
    {
      assert Kept(table, front + [before], id, ever[id]);
      assert forall a <- front :: a in front + [after];
    }
  }
}
