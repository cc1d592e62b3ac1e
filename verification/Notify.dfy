/**
 * The webhook dispatcher's drain of one target: a durable cursor over the event feed, moved only past
 * batches that were delivered, given up on and audited, or matched nothing. Every await lets events
 * arrive and the event sweep prune the feed, may end the drain, and during a delivery brings an answer.
 */
module Notify {
  import opened Common

  type Id = nat
  type EventType = string
  type Feed = map<Id, EventType>

  /** What happens during one await; `ends` is an exception, a cancellation or a crash. */
  datatype Happening = Happening(arrivals: seq<EventType>, pruned: set<Id>, ends: bool, answer: Option<nat>)

  /** The events with ids in `(since, upto]`. */
  function Between(feed: Feed, since: Id, upto: Id): Feed {
    map id | id in feed && since < id <= upto :: feed[id]
  }

  /** An empty filter wants every type. */
  predicate Wants(types: set<EventType>, t: EventType) {
    types == {} || t in types
  }

  function Matched(batch: Feed, types: set<EventType>): set<Id> {
    set id | id in batch && Wants(types, batch[id]) :: id
  }

  /** Every wanted event newer than the seed and not ahead of the cursor is in `settled`. */
  predicate Accounted(ever: Feed, types: set<EventType>, seed: Id, cursor: Id, settled: set<Id>) {
    forall id <- ever :: seed < id <= cursor && Wants(types, ever[id]) ==> id in settled
  }

  /** An event ahead of the cursor is in the feed, or in `gone`: told, held by the pass, or lost. */
  predicate FeedFits(ever: Feed, feed: Feed, nextId: Id, cursor: Id, gone: set<Id>) {
    && (forall id <- feed :: id in ever && ever[id] == feed[id])
    && (forall id <- ever :: 0 < id < nextId)
    && (forall id <- ever :: id > cursor ==> id in feed || id in gone)
  }

  /** What is lost went before anybody was told of it, and is neither in the feed nor held by a pass. */
  predicate LostFits(ever: Feed, feed: Feed, lost: set<Id>, told: set<Id>, held: set<Id>) {
    lost <= ever.Keys && lost !! feed.Keys && lost !! told + held
  }

  /** What a sweep loses: events ahead of the cursor that nobody was told of and no pass holds. */
  function Losses(feed: Feed, pruned: set<Id>, cursor: Id, kept: set<Id>): set<Id> {
    set id | id in feed && id in pruned && id > cursor && id !in kept
  }

  lemma ArrivalFits(ever: Feed, feed: Feed, nextId: Id, cursor: Id, gone: set<Id>, t: EventType)
    requires FeedFits(ever, feed, nextId, cursor, gone) && nextId > 0
    ensures FeedFits(ever[nextId := t], feed[nextId := t], nextId + 1, cursor, gone)
  {
  }

  lemma ArrivalIsAhead(
    ever: Feed, nextId: Id, t: EventType, types: set<EventType>, seed: Id, cursor: Id, settled: set<Id>)
    requires Accounted(ever, types, seed, cursor, settled) && cursor < nextId
    ensures Accounted(ever[nextId := t], types, seed, cursor, settled)
  {
    var more := ever[nextId := t];
    forall id | id in more && seed < id <= cursor && Wants(types, more[id])
      ensures id in settled
    {
      assert id in ever;
    }
  }

  lemma PruneFits(ever: Feed, feed: Feed, nextId: Id, cursor: Id, gone: set<Id>, pruned: set<Id>, losses: set<Id>)
    requires FeedFits(ever, feed, nextId, cursor, gone)
    requires forall id <- feed :: id in pruned && id > cursor ==> id in gone || id in losses
    ensures FeedFits(ever, feed - pruned, nextId, cursor, gone + losses)
  {
  }

  /** Moving the cursor over a batch whose wanted events are told keeps everything accounted for. */
  lemma AdvanceAccounts(
    ever: Feed, types: set<EventType>, seed: Id, cursor: Id, next: Id, batch: Feed, settled: set<Id>)
    requires Accounted(ever, types, seed, cursor, settled)
    requires forall id <- ever :: cursor < id <= next ==> id in batch || id in settled
    requires forall id <- batch :: id in ever && batch[id] == ever[id]
    requires Matched(batch, types) <= settled
    ensures Accounted(ever, types, seed, next, settled)
  {
    forall id | id in ever && seed < id <= next && Wants(types, ever[id])
      ensures id in settled
    {
      if id > cursor && id in batch {
        assert id in Matched(batch, types);
      }
    }
  }

  /** Where a read of at most `limit` events after `id` stops. */
  function ReadEnd(feed: Feed, id: Id, top: Id, limit: nat): (end: Id)
    requires id <= top
    ensures id <= end <= top
    decreases top - id
  {
    if id == top || limit == 0 then id else ReadEnd(feed, id + 1, top, if id + 1 in feed then limit - 1 else limit)
  }

  lemma {:induction false} ReadFinds(feed: Feed, id: Id, top: Id, limit: nat)
    requires id <= top
    ensures var end := ReadEnd(feed, id, top, limit);
      && |Between(feed, id, end)| <= limit
      && (end == top || |Between(feed, id, end)| == limit)
    decreases top - id
  {
    if id < top && limit > 0 {
      var next := if id + 1 in feed then limit - 1 else limit;
      ReadFinds(feed, id + 1, top, next);
      var end := ReadEnd(feed, id + 1, top, next);
      var rest := Between(feed, id + 1, end);
      assert Between(feed, id, end) == if id + 1 in feed then rest[id + 1 := feed[id + 1]] else rest;
      assert id + 1 !in rest;
    }
  }

  predicate IsSuccess(answer: Option<nat>) {
    answer.Some? && 200 <= answer.value < 300
  }

  /** Whatever the event sweep will remove during the awaits of `script` is behind `position`. */
  predicate PrunesBehind(script: seq<Happening>, position: Id) {
    forall h <- script, id <- h.pruned :: id <= position
  }

  predicate NeverEnds(script: seq<Happening>) {
    forall h <- script :: !h.ends
  }

  /** How a pass over the target ends. */
  datatype DrainEnd = Seeded | Drained | GaveUp | CutShort

  datatype BatchEnd = Advanced | GivenUp | Interrupted

  /** The newest id of some events. */
  method LastOf(events: Feed) returns (last: Id)
    ensures forall id <- events :: id <= last
    ensures if events == map[] then last == 0 else last in events
  {
    last := 0;
    var todo := events.Keys;
    while todo != {}
      invariant todo <= events.Keys
      invariant forall id <- events :: id in todo || id <= last
      invariant if todo == events.Keys then last == 0 else last in events
    {
      var id :| id in todo;
      todo := todo - {id};
      if id > last || last !in events {
        last := id;
      }
    }
  }

  class WebhookDispatcher {
    const types: set<EventType>
    var feed: Feed
    var nextId: Id
    var cursor: Option<Id>
    var script: seq<Happening>
    /**
     * History: all events ever, the seed, the ids delivered and given up on, those a pass has read and
     * still holds, and those that went while ahead of the cursor, untold and held by nobody.
     */
    ghost var ever: Feed
    ghost var seed: Id
    ghost var delivered: set<Id>
    ghost var exhausted: set<Id>
    ghost var held: set<Id>
    ghost var lost: set<Id>

    ghost function Position(): Id
      reads this
    {
      if cursor.Some? then cursor.value else 0
    }

    /** The ids delivered, or given up on and passed to the failure audit. */
    ghost function Told(): set<Id>
      reads this
    {
      delivered + exhausted
    }

    /**
     * Of the wanted events the cursor has passed since the seed, each was told or is lost, and never
     * both: an event is passed over in silence exactly when it went while ahead of the cursor.
     */
    ghost predicate Valid()
      reads this
    {
      && Position() < nextId
      && FeedFits(ever, feed, nextId, Position(), lost + Told() + held)
      && LostFits(ever, feed, lost, Told(), held)
      && (cursor.Some? ==> seed <= cursor.value && Accounted(ever, types, seed, cursor.value, Told() + lost))
    }

    /** The wanted events the cursor has passed since the seed in silence. */
    ghost function Untold(): set<Id>
      reads this
    {
      set id | id in ever && seed < id <= Position() && Wants(types, ever[id]) && id !in Told()
    }

    constructor (types: set<EventType>, script: seq<Happening>)
      ensures Valid() && cursor.None? && feed == map[] && this.types == types && this.script == script
      ensures delivered == {} && exhausted == {} && held == {} && lost == {}
    {
      this.types, this.script := types, script;
      feed, nextId, cursor := map[], 1, None;
      ever, seed, delivered, exhausted, held, lost := map[], 0, {}, {}, {}, {};
    }

    /** What goes on around any await: history only grows, and what is out of the feed stays out. */
    twostate predicate GoesOn()
      reads this
    {
      && nextId >= old(nextId) && lost >= old(lost)
      && (forall id <- old(ever) :: id in ever && ever[id] == old(ever[id]))
      && (forall id <- ever :: id in old(ever) || id >= old(nextId))
      && (forall id <- old(ever) :: id !in old(feed) ==> id !in feed)
      && |script| <= |old(script)|
      && (old(script) == [] ==> script == [] && feed == old(feed) && nextId == old(nextId) && ever == old(ever))
      && (NeverEnds(old(script)) ==> NeverEnds(script))
    }

    /** A sweep that prunes behind the cursor only loses nothing, and leaves what is ahead in the feed. */
    twostate predicate Sheltered()
      reads this
    {
      PrunesBehind(old(script), Position()) ==>
        && PrunesBehind(script, Position()) && lost == old(lost)
        && forall id <- old(feed) :: id > Position() ==> id in feed
    }

    /** What the pass keeps however far it gets: who was told of what is gone, and where the cursor may stand. */
    twostate predicate PassesOn()
      reads this
    {
      && cursor.Some? && old(cursor).Some? && cursor.value >= old(cursor).value && seed == old(seed) && GoesOn()
      && (forall id <- old(ever) :: id !in old(feed) ==> (id in Told() <==> id in old(Told())))
      && (cursor != old(cursor) ==> cursor.value in ever && (cursor.value in old(ever) ==> cursor.value in old(feed)))
      && (PrunesBehind(old(script), old(Position())) ==> PrunesBehind(script, Position()) && lost == old(lost))
    }

    /** The event sweep, which looks at no cursor. */
    method Prune(pruned: set<Id>)
      requires Valid()
      modifies this`feed, this`lost
      ensures Valid() && feed == old(feed) - pruned
      ensures lost == old(lost) + Losses(old(feed), pruned, Position(), Told() + held)
    {
      var losses := Losses(feed, pruned, Position(), Told() + held);
      PruneFits(ever, feed, nextId, Position(), lost + Told() + held, pruned, losses);
      assert lost + Told() + held + losses == lost + losses + Told() + held;
      assert Told() + (lost + losses) >= Told() + lost;
      lost := lost + losses;
      feed := feed - pruned;
    }

    method Arrive(t: EventType)
      requires Valid()
      modifies this`feed, this`nextId, this`ever
      ensures Valid() && nextId == old(nextId) + 1
      ensures ever == old(ever)[old(nextId) := t] && feed == old(feed)[old(nextId) := t]
    {
      ArrivalFits(ever, feed, nextId, Position(), lost + Told() + held, t);
      if cursor.Some? {
        ArrivalIsAhead(ever, nextId, t, types, seed, cursor.value, Told() + lost);
      }
      assert nextId !in ever;
      ever, feed := ever[nextId := t], feed[nextId := t];
      nextId := nextId + 1;
    }

    method ArriveAll(arrivals: seq<EventType>)
      requires Valid()
      modifies this`feed, this`nextId, this`ever
      ensures Valid() && nextId >= old(nextId)
      ensures forall id <- old(ever) :: id in ever && ever[id] == old(ever)[id] && (id !in old(feed) ==> id !in feed)
      ensures forall id <- old(feed) :: id in feed
      ensures forall id <- ever :: id in old(ever) || id >= old(nextId)
    {
      for i := 0 to |arrivals|
        invariant Valid() && nextId >= old(nextId)
        invariant forall id <- old(ever) :: id in ever && ever[id] == old(ever)[id] && (id !in old(feed) ==> id !in feed)
        invariant forall id <- old(feed) :: id in feed
        invariant forall id <- ever :: id in old(ever) || id >= old(nextId)
      {
        Arrive(arrivals[i]);
      }
    }

    /** An await that only lets the rest of the daemon run. */
    method Await() returns (ends: bool, answer: Option<nat>)
      requires Valid()
      modifies this`feed, this`nextId, this`script, this`ever, this`lost
      ensures Valid() && GoesOn()
      ensures old(script) != [] ==> |script| < |old(script)|
      ensures old(script) == [] ==> answer.None? && lost == old(lost)
      ensures NeverEnds(old(script)) ==> !ends
      ensures Sheltered()
    {
      if script == [] {
        return false, None;
      }
      var h := script[0];
      assert h in script && forall g <- script[1..] :: g in script;
      script := script[1..];
      Prune(h.pruned);
      ArriveAll(h.arrivals);
      return h.ends, h.answer;
    }

    method LastEventId() returns (last: Id)
      requires Valid()
      ensures last < nextId && forall id <- feed :: id <= last
    {
      last := LastOf(feed);
    }

    /** `list_events(since_id=...)`: the first `limit` events ahead of the cursor, and the id of the last. */
    method ReadBatch(limit: nat) returns (batch: Feed, last: Id)
      requires Valid() && limit > 0
      ensures Position() <= last < nextId && batch == Between(feed, Position(), last) && |batch| <= limit
      ensures batch == map[] <==> last == Position()
      ensures batch != map[] ==> last in batch
      ensures batch == map[] ==> Between(feed, Position(), nextId) == map[]
    {
      var since := if cursor.Some? then cursor.value else 0;
      var end := ReadEnd(feed, since, nextId - 1, limit);
      ReadFinds(feed, since, nextId - 1, limit);
      batch, last := Between(feed, since, end), since;
      if batch != map[] {
        last := LastOf(batch);
      }
      assert forall id <- feed :: id < nextId;
    }

    /** The cursor write: only ever forward, and only past what is told or lost. */
    method SetCursor(next: Id, batch: Feed)
      requires Valid() && cursor.Some? && cursor.value < next < nextId
      requires forall id <- ever :: cursor.value < id <= next ==> id in batch || id in Told() + lost
      requires forall id <- batch :: id in ever && batch[id] == ever[id]
      requires Matched(batch, types) <= Told()
      modifies this`cursor
      ensures Valid() && cursor == Some(next)
    {
      AdvanceAccounts(ever, types, seed, cursor.value, next, batch, Told() + lost);
      cursor := Some(next);
    }

    /** Up to `retryMax` attempts, until one is answered 2xx. */
    method DeliverBatch(matched: set<Id>, retryMax: nat) returns (ends: bool, delivery: bool)
      requires Valid() && retryMax > 0 && matched <= held
      modifies this`feed, this`nextId, this`script, this`ever, this`lost, this`delivered
      ensures Valid() && GoesOn()
      ensures old(script) == [] ==> !delivery && lost == old(lost)
      ensures delivered == if delivery then old(delivered) + matched else old(delivered)
      ensures NeverEnds(old(script)) ==> !ends
      ensures Sheltered()
    {
      ends, delivery := false, false;
      var attempt := 0;
      while attempt < retryMax && !delivery
        invariant Valid() && GoesOn() && Sheltered()
        invariant old(script) == [] ==> !delivery && lost == old(lost)
        invariant NeverEnds(old(script)) ==> !ends
        invariant delivered == if delivery then old(delivered) + matched else old(delivered)
        decreases retryMax - attempt
      {
        attempt := attempt + 1;
        ends, delivery := Attempt(matched, attempt < retryMax);
        if ends {
          return;
        }
      }
    }

    /** One attempt, and the pause after it when another may follow. */
    method Attempt(matched: set<Id>, pause: bool) returns (ends: bool, delivery: bool)
      requires Valid() && matched <= held
      modifies this`feed, this`nextId, this`script, this`ever, this`lost, this`delivered
      ensures Valid() && GoesOn() && Sheltered()
      ensures old(script) == [] ==> !delivery && lost == old(lost)
      ensures delivered == if delivery then old(delivered) + matched else old(delivered)
      ensures NeverEnds(old(script)) ==> !ends
    {
      var answer;
      ends, answer := Await();
      delivery := !ends && IsSuccess(answer);
      if delivery {
        Deliver(matched);
      } else if !ends && pause {
        ends, answer := Await();
      }
    }

    method Deliver(matched: set<Id>)
      requires Valid() && matched <= held
      modifies this`delivered
      ensures Valid() && delivered == old(delivered) + matched
    {
      delivered := delivered + matched;
    }

    /** Every attempt failed: the batch goes to the failure audit. */
    method GiveUpOn(matched: set<Id>) returns (ends: bool)
      requires Valid() && matched <= held
      modifies this`feed, this`nextId, this`script, this`ever, this`lost, this`exhausted
      ensures Valid() && GoesOn() && exhausted == old(exhausted) + matched
      ensures old(script) == [] ==> lost == old(lost)
      ensures NeverEnds(old(script)) ==> !ends
      ensures Sheltered()
    {
      exhausted := exhausted + matched;
      assert Valid();
      var answer;
      ends, answer := Await();
    }

    /** Delivers what is wanted of a batch, or gives up on it; the cursor is not touched. */
    method Settle(batch: Feed, retryMax: nat) returns (r: BatchEnd)
      requires Valid() && retryMax > 0 && batch.Keys <= held
      modifies this`feed, this`nextId, this`script, this`ever, this`lost, this`delivered, this`exhausted
      ensures Valid() && GoesOn()
      ensures old(delivered) <= delivered <= old(delivered) + Matched(batch, types)
      ensures old(exhausted) <= exhausted <= old(exhausted) + Matched(batch, types)
      ensures r.Advanced? ==> Matched(batch, types) <= delivered
      ensures r.GivenUp? ==> Matched(batch, types) <= exhausted
      ensures old(script) == [] ==> lost == old(lost)
      ensures NeverEnds(old(script)) ==> !r.Interrupted?
      ensures Sheltered()
    {
      var matched := Matched(batch, types);
      if matched == {} {
        return Advanced;
      }
      var ends, delivery := DeliverBatch(matched, retryMax);
      if ends {
        return Interrupted;
      }
      if delivery {
        return Advanced;
      }
      ends := GiveUpOn(matched);
      return if ends then Interrupted else GivenUp;
    }

    /** The pass takes a batch into memory: what it holds can no longer be lost to the sweep. */
    ghost method Hold(batch: Feed)
      requires Valid() && held == {} && batch.Keys <= feed.Keys
      modifies this`held
      ensures Valid() && held == batch.Keys
    {
      held := batch.Keys;
    }

    /** The pass ends or goes on: what it held, untold and out of the feed by now, is lost. */
    ghost method LetGo()
      requires Valid() && held <= ever.Keys
      modifies this`held, this`lost
      ensures Valid() && held == {} && lost >= old(lost)
      ensures (forall id <- old(held) :: id <= Position() || id in feed || id in Told()) ==> lost == old(lost)
    {
      var dropped := Dropped(held, Position(), feed, Told());
      assert Told() + (lost + dropped) >= Told() + lost;
      lost, held := lost + dropped, {};
    }

    static ghost function Dropped(held: set<Id>, cursor: Id, feed: Feed, told: set<Id>): set<Id> {
      set id | id in held && id > cursor && id !in feed && id !in told
    }

    /** The batch in memory, delivered or given up on; what is ahead of the cursor up to `last` is then all accounted for. */
    method HoldAndSettle(batch: Feed, last: Id, retryMax: nat) returns (r: BatchEnd)
      requires Valid() && held == {} && retryMax > 0 && cursor.Some? && cursor.value < last < nextId
      requires batch == Between(feed, cursor.value, last)
      modifies this`feed, this`nextId, this`script, this`ever, this`lost, this`delivered, this`exhausted, this`held
      ensures Valid() && held == batch.Keys && GoesOn() && Sheltered()
      ensures old(delivered) <= delivered <= old(delivered) + Matched(batch, types)
      ensures old(exhausted) <= exhausted <= old(exhausted) + Matched(batch, types)
      ensures r.Advanced? ==> Matched(batch, types) <= delivered
      ensures r.GivenUp? ==> Matched(batch, types) <= exhausted
      ensures old(script) == [] ==> lost == old(lost)
      ensures NeverEnds(old(script)) ==> !r.Interrupted?
      ensures forall id <- batch :: id in ever && batch[id] == ever[id]
      ensures forall id <- old(ever) :: id !in old(feed) ==> (id in Told() <==> id in old(Told()))
      ensures forall id <- ever :: cursor.value < id <= last ==> id in batch || id in Told() + lost
    {
      assert forall id <- ever :: cursor.value < id <= last ==> id in batch || id in Told() + lost;
      Hold(batch);
      r := Settle(batch, retryMax);
    }

    /** The pass lets go of the batch; unless it was interrupted, the cursor first moves over all of it. */
    method Conclude(r: BatchEnd, last: Id, batch: Feed)
      requires Valid() && cursor.Some? && cursor.value < last < nextId && held == batch.Keys
      requires forall id <- batch :: id in ever && batch[id] == ever[id] && id <= last
      requires forall id <- ever :: cursor.value < id <= last ==> id in batch || id in Told() + lost
      requires !r.Interrupted? ==> Matched(batch, types) <= Told()
      modifies this`cursor, this`held, this`lost
      ensures Valid() && held == {} && cursor == (if r.Interrupted? then old(cursor) else Some(last)) && lost >= old(lost)
      ensures !r.Interrupted? || (forall id <- batch :: id <= old(Position()) || id in feed) ==> lost == old(lost)
    {
      if !r.Interrupted? {
        SetCursor(last, batch);
      }
      LetGo();
    }

    /** One batch that has been read: delivered, or given up on and audited, or not wanted at all. */
    method HandleBatch(batch: Feed, last: Id, retryMax: nat) returns (r: BatchEnd)
      requires Valid() && held == {} && retryMax > 0 && cursor.Some? && cursor.value < last < nextId
      requires batch == Between(feed, cursor.value, last) && last in batch
      modifies this
      ensures Valid() && held == {} && PassesOn() && cursor == (if r.Interrupted? then old(cursor) else Some(last))
      ensures old(delivered) <= delivered <= old(delivered) + Matched(batch, types)
      ensures old(exhausted) <= exhausted <= old(exhausted) + Matched(batch, types)
      ensures r.GivenUp? ==> Matched(batch, types) <= exhausted
      ensures old(script) == [] ==> lost == old(lost)
      ensures NeverEnds(old(script)) ==> !r.Interrupted?
    {
      r := HoldAndSettle(batch, last, retryMax);
      Conclude(r, last, batch);
    }

    /** The first encounter with the target: nothing is owed before the current feed head. */
    method Seed() returns (ends: bool)
      requires Valid() && cursor.None?
      modifies this
      ensures Valid() && delivered == old(delivered) && exhausted == old(exhausted) && held == old(held)
      ensures ends ==> cursor.None?
      ensures NeverEnds(old(script)) ==> NeverEnds(script) && !ends
      ensures old(script) == [] ==>
        script == [] && feed == old(feed) && ever == old(ever) && nextId == old(nextId) && lost == old(lost)
      ensures !ends ==> cursor == Some(seed) && forall id <- old(feed) :: id <= seed
    {
      var head := LastEventId();
      var answer;
      ends, answer := Await();
      if ends {
        return;
      }
      cursor, seed := Some(head), head;
    }

    /** One turn of the pass: a read, and its batch if there is one. */
    method Turn(limit: nat, retryMax: nat) returns (r: BatchEnd, empty: bool)
      requires Valid() && held == {} && cursor.Some? && limit > 0 && retryMax > 0
      modifies this
      ensures Valid() && held == {} && PassesOn()
      ensures empty ==> r.Advanced? && Between(feed, Position(), nextId) == map[]
      ensures !empty && !r.Interrupted? ==> cursor.value > old(cursor).value
      ensures NeverEnds(old(script)) ==> !r.Interrupted?
      ensures r.Advanced? && !empty ==> |script| < |old(script)| || nextId == old(nextId)
      ensures old(script) == [] ==> lost == old(lost)
    {
      var ends, answer := Await();
      if ends {
        return Interrupted, false;
      }
      var batch, last := ReadBatch(limit);
      if batch == map[] {
        return Advanced, true;
      }
      empty := false;
      r := HandleBatch(batch, last, retryMax);
    }

    /**
     * One pass. Wherever it is cut short, and whatever arrives or is pruned meanwhile, a wanted event
     * the cursor has passed since the seed was delivered, or given up on and audited, exactly when it
     * did not go while ahead of the cursor, untold and held by no pass; the cursor never moves back.
     * A pass that is not cut short ends with nothing ahead of the cursor, or with one batch given up on.
     */
    method Drain(batchMax: nat, retryMax: nat) returns (end: DrainEnd)
      requires Valid() && held == {} && batchMax > 0 && retryMax > 0
      modifies this
      ensures Valid() && held == {}
      ensures cursor.Some? ==> forall id <- ever :: seed < id <= cursor.value && Wants(types, ever[id]) ==>
        (id in delivered || id in exhausted <==> id !in lost)
      ensures old(cursor).Some? ==> PassesOn()
      ensures end.Seeded? <==> old(cursor).None? && cursor.Some?
      ensures old(cursor).None? ==> delivered == old(delivered) && exhausted == old(exhausted)
      ensures end.Drained? ==> Between(feed, Position(), nextId) == map[]
      ensures end.GaveUp? ==> old(cursor).Some? && cursor.value > old(cursor).value
      ensures NeverEnds(old(script)) ==> !end.CutShort?
      ensures old(cursor).Some? && old(script) == [] ==>
        && lost == old(lost)
        && (cursor == old(cursor) ==> Between(old(feed), old(cursor).value, old(nextId)) == map[])
    {
      if cursor.None? {
        var ends := Seed();
        return if ends then CutShort else Seeded;
      }
      var limit := if batchMax < 200 then batchMax else 200;
      while true
        invariant Valid() && held == {} && PassesOn()
        invariant old(script) == [] ==> lost == old(lost)
        decreases |script|, nextId - Position()
      {
        var r, empty := Turn(limit, retryMax);
        if empty {
          return Drained;
        }
        if !r.Advanced? {
          return if r.GivenUp? then GaveUp else CutShort;
        }
      }
    }

    /**
     * A sweep and the pass after it, nothing else pruning meanwhile: the pass passes in silence exactly
     * those wanted events it got beyond that the sweep's watermark reached ahead of the cursor before
     * anybody had been told of them, besides those lost before; undisturbed, it gets beyond all of them as soon as one
     * newer event is there.
     */
    method SweepThenDrain(watermark: Id, batchMax: nat, retryMax: nat) returns (end: DrainEnd)
      requires Valid() && held == {} && cursor.Some? && batchMax > 0 && retryMax > 0
      requires PrunesBehind(script, cursor.value)
      modifies this
      ensures Valid() && held == {} && cursor.Some? && cursor.value >= old(cursor).value
      ensures seed == old(seed) && forall id <- old(ever) :: id in ever && ever[id] == old(ever)[id]
      ensures Untold() == set id |
        && id in ever && Wants(types, ever[id]) && seed < id <= cursor.value
        && (|| id in old(lost)
            || (&& id in old(feed) && old(cursor).value < id <= watermark
                && id !in old(delivered) && id !in old(exhausted)))
      ensures old(script) == [] && (exists id <- old(feed) :: id > watermark && id > old(cursor).value) ==> cursor.value > watermark
    {
      SweepUpTo(watermark);
      ghost var was, after := cursor.value, feed;
      end := Drain(batchMax, retryMax);
      assert Untold() <= lost;
      assert feed == after ==> forall id <- after :: id > was && id < nextId ==> id in Between(after, was, nextId);
    }

    /** The event sweep below its watermark. */
    method SweepUpTo(watermark: Id)
      requires Valid() && held == {}
      modifies this`feed, this`lost
      ensures Valid() && feed == map id | id in old(feed) && id > watermark :: old(feed)[id]
      ensures forall id :: id in lost <==> id in old(lost) || (id in old(feed) && Position() < id <= watermark && id !in Told())
    {
      var pruned := set id | id in feed && id <= watermark;
      Prune(pruned);
      assert feed == old(feed) - pruned;
    }
  }

  /** So an event the sweep takes ahead of the cursor is passed over, without delivery and without audit. */
  method PrunedEventIsPassedOver(d: WebhookDispatcher, id: Id, later: Id, retryMax: nat)
    requires d.Valid() && d.held == {} && d.script == [] && d.cursor.Some? && retryMax > 0
    requires id in d.feed && Wants(d.types, d.feed[id]) && id !in d.delivered && id !in d.exhausted
    requires d.cursor.value < id < later && later in d.feed
    modifies d
    ensures d.Valid() && d.cursor.Some? && d.seed < id <= d.cursor.value && id !in d.delivered && id !in d.exhausted
  {
    var end := d.SweepThenDrain(id, 50, retryMax);
    assert id in d.Untold();
  }
}
