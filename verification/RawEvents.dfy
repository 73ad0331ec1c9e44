/** Raw event receipts: idempotent insertion, and pruning in chunks against deleting everything
    that is safe to delete at once. */
module RawEvents {
  import opened Values
  import opened Sequences
  import opened Outbox

  datatype RawEvent = RawEvent(id: nat, platform: string, payloadHash: string, payload: Json, receivedAt: int)

  /** The receipts, the receipt ids the stored messages refer to, and the outbox rows. */
  datatype Database = Database(events: seq<RawEvent>, messages: set<int>, rows: seq<Row>)

  predicate HasEvent(events: seq<RawEvent>, id: int) {
    exists i | 0 <= i < |events| :: events[i].id == id
  }

  /** Every message and every outbox row refers to a receipt that is there. */
  ghost predicate ForeignKeys(db: Database) {
    && (forall id | id in db.messages :: HasEvent(db.events, id))
    && (forall row | row in db.rows :: HasEvent(db.events, row.rawEventId))
  }

  ghost predicate Receipts(events: seq<RawEvent>) {
    && (forall i, j | 0 <= i < j < |events| :: events[i].id < events[j].id)
    && (forall i, j | 0 <= i < j < |events| ::
          events[i].platform != events[j].platform || events[i].payloadHash != events[j].payloadHash)
  }

  ghost predicate Consistent(db: Database) {
    Receipts(db.events) && ForeignKeys(db)
  }

  // ----- inserting -----

  function FindHash(events: seq<RawEvent>, platform: string, payloadHash: string): Option<RawEvent> {
    if events == [] then None
    else if events[0].platform == platform && events[0].payloadHash == payloadHash then Some(events[0])
    else FindHash(events[1..], platform, payloadHash)
  }

  function NextEventId(events: seq<RawEvent>): nat {
    if events == [] then 1 else events[|events| - 1].id + 1
  }

  /** The receipt with this payload, new or already there, and the receipts afterwards. */
  function Inserted(events: seq<RawEvent>, platform: string, payloadHash: string, payload: Json, now: int)
    : (RawEvent, seq<RawEvent>)
  {
    var existing := FindHash(events, platform, payloadHash);
    if existing.Some? then (existing.value, events)
    else
      var event := RawEvent(NextEventId(events), platform, payloadHash, payload, now);
      (event, events + [event])
  }

  lemma {:induction false} FindHashFinds(events: seq<RawEvent>, platform: string, payloadHash: string)
    ensures match FindHash(events, platform, payloadHash)
            case None => forall event | event in events :: event.platform != platform || event.payloadHash != payloadHash
            case Some(event) => event in events && event.platform == platform && event.payloadHash == payloadHash
  {
    if events != [] {
      FindHashFinds(events[1..], platform, payloadHash);
      assert events == [events[0]] + events[1..];
    }
  }

  lemma AddedKeepsReceipts(events: seq<RawEvent>, event: RawEvent)
    requires Receipts(events) && event.id == NextEventId(events)
    requires forall other | other in events :: other.platform != event.platform || other.payloadHash != event.payloadHash
    ensures Receipts(events + [event])
  {
    forall i | 0 <= i < |events|
      ensures Before(events[i], event)
    {
      assert events[i] in events;
    }
  }

  lemma AddedKeepsEvents(events: seq<RawEvent>, event: RawEvent, id: int)
    requires HasEvent(events, id)
    ensures HasEvent(events + [event], id)
  {
    var i :| 0 <= i < |events| && events[i].id == id;
    assert (events + [event])[i].id == id;
  }

  /** Inserting keeps the keys, adds at most one receipt, and returns one with this payload. */
  lemma InsertIsIdempotent(db: Database, platform: string, payloadHash: string, payload: Json, now: int)
    requires Consistent(db)
    ensures var (event, events) := Inserted(db.events, platform, payloadHash, payload, now);
            && Consistent(db.(events := events)) && event in events
            && event.platform == platform && event.payloadHash == payloadHash
            && (events == db.events || events == db.events + [event])
            && forall other, later :: Inserted(events, platform, payloadHash, other, later) == (event, events)
  {
    hide Receipts, HasEvent, FindHash, NextEventId;
    var (event, events) := Inserted(db.events, platform, payloadHash, payload, now);
    FindHashFinds(db.events, platform, payloadHash);
    FindHashFinds(events, platform, payloadHash);
    if events != db.events {
      AddedKeepsReceipts(db.events, event);
      forall id | HasEvent(db.events, id)
        ensures HasEvent(events, id)
      {
        AddedKeepsEvents(db.events, event, id);
      }
    }
    OneEventPerHash(events, event, FindHash(events, platform, payloadHash).value);
  }

  /** What one call of insert does: a payload seen before gives its receipt and changes nothing; a new
      one gets a receipt with a new id that carries it as it came, after the others. */
  lemma InsertExactly(events: seq<RawEvent>, platform: string, payloadHash: string, payload: Json, now: int)
    requires Receipts(events)
    ensures var (event, after) := Inserted(events, platform, payloadHash, payload, now);
            if exists known :: known in events && known.platform == platform && known.payloadHash == payloadHash then
              after == events && event in events && event.platform == platform && event.payloadHash == payloadHash
            else
              && after == events + [event] && event == RawEvent(event.id, platform, payloadHash, payload, now)
              && forall known | known in events :: known.id < event.id
  {
    hide FindHash;
    FindHashFinds(events, platform, payloadHash);
    forall known | known in events
      ensures known.id < NextEventId(events)
    {
      var i :| 0 <= i < |events| && events[i] == known;
      assert i < |events| - 1 ==> events[i].id < events[|events| - 1].id;
    }
  }

  lemma OneEventPerHash(events: seq<RawEvent>, a: RawEvent, b: RawEvent)
    requires Receipts(events) && a in events && b in events
    requires a.platform == b.platform && a.payloadHash == b.payloadHash
    ensures a == b
  {
  }

  // ----- pruning -----

  predicate InUse(db: Database, id: int) {
    id in db.messages || exists i | 0 <= i < |db.rows| :: db.rows[i].rawEventId == id && !db.rows[i].Terminal()
  }

  predicate Safe(db: Database, event: RawEvent, olderThan: int) {
    event.receivedAt < olderThan && !InUse(db, event.id)
  }

  /** The first `limit` safe receipts by id. */
  function Candidates(db: Database, events: seq<RawEvent>, olderThan: int, limit: nat): seq<int> {
    if events == [] || limit == 0 then []
    else if Safe(db, events[0], olderThan) then [events[0].id] + Candidates(db, events[1..], olderThan, limit - 1)
    else Candidates(db, events[1..], olderThan, limit)
  }

  /** The first statement of a chunk: the terminal outbox rows of the candidates go. */
  function Released(db: Database, ids: seq<int>): Database {
    db.(rows := Filter(db.rows, (row: Row) => !(row.rawEventId in ids && row.Terminal())))
  }

  function WithoutEvents(db: Database, ids: seq<int>): Database {
    db.(events := Filter(db.events, (event: RawEvent) => event.id as int !in ids))
  }

  /** One transaction. The second statement selects its candidates anew. */
  function Chunk(db: Database, olderThan: int, size: nat): Database {
    var released := Released(db, Candidates(db, db.events, olderThan, size));
    WithoutEvents(released, Candidates(released, released.events, olderThan, size))
  }

  /** Everything that is safe to delete, deleted at once. */
  function PrunedAtOnce(db: Database, olderThan: int): Database {
    Database(
      Filter(db.events, (event: RawEvent) => !Safe(db, event, olderThan)),
      db.messages,
      Filter(db.rows, (row: Row) => !(row.Terminal() && SafeId(db, row.rawEventId, olderThan))))
  }

  predicate SafeId(db: Database, id: int, olderThan: int) {
    exists i | 0 <= i < |db.events| :: db.events[i].id == id && Safe(db, db.events[i], olderThan)
  }

  // ----- filters -----

  ghost predicate Before(a: RawEvent, b: RawEvent) {
    a.id < b.id && (a.platform != b.platform || a.payloadHash != b.payloadHash)
  }

  lemma ReceiptsCons(first: RawEvent, rest: seq<RawEvent>)
    requires Receipts(rest) && forall event | event in rest :: Before(first, event)
    ensures Receipts([first] + rest)
  {
    var all := [first] + rest;
    forall i, j | 0 <= i < j < |all|
      ensures Before(all[i], all[j])
    {
      assert all[j] == rest[j - 1];
      assert i > 0 ==> all[i] == rest[i - 1];
    }
  }

  lemma TailReceipts(events: seq<RawEvent>)
    requires Receipts(events) && events != []
    ensures Receipts(events[1..]) && forall event | event in events[1..] :: Before(events[0], event)
  {
  }

  lemma {:induction false} FilterKeepsOrder(events: seq<RawEvent>, keep: RawEvent -> bool)
    requires Receipts(events)
    ensures Receipts(Filter(events, keep))
  {
    hide Before, Receipts;
    if events == [] {
      assert Filter(events, keep) == events;
    } else {
      TailReceipts(events);
      FilterKeepsOrder(events[1..], keep);
      FilterMembers(events[1..], keep);
      var rest := Filter(events[1..], keep);
      ReceiptsCons(events[0], rest);
      assert Filter(events, keep) == if keep(events[0]) then [events[0]] + rest else rest;
    }
  }

  // ----- one chunk -----

  lemma {:induction false} CandidatesAreSafe(db: Database, events: seq<RawEvent>, olderThan: int, limit: nat)
    ensures |Candidates(db, events, olderThan, limit)| <= limit
    ensures forall id | id in Candidates(db, events, olderThan, limit) ::
              exists i | 0 <= i < |events| :: events[i].id == id && Safe(db, events[i], olderThan)
    ensures |Candidates(db, events, olderThan, limit)| < limit ==>
              forall event | event in events && Safe(db, event, olderThan) ::
                event.id as int in Candidates(db, events, olderThan, limit)
  {
    hide Safe;
    if events != [] && limit > 0 {
      var safe := Safe(db, events[0], olderThan);
      var rest := Candidates(db, events[1..], olderThan, if safe then limit - 1 else limit);
      CandidatesAreSafe(db, events[1..], olderThan, if safe then limit - 1 else limit);
      assert events == [events[0]] + events[1..];
      forall id | id in rest
        ensures exists i | 0 <= i < |events| :: events[i].id == id && Safe(db, events[i], olderThan)
      {
        var i :| 0 <= i < |events[1..]| && events[1..][i].id == id && Safe(db, events[1..][i], olderThan);
        assert events[i + 1].id == id;
      }
    }
  }

  lemma {:induction false} SameCandidates(
      db: Database, other: Database, events: seq<RawEvent>, olderThan: int, limit: nat)
    requires forall event | event in events :: Safe(db, event, olderThan) == Safe(other, event, olderThan)
    ensures Candidates(db, events, olderThan, limit) == Candidates(other, events, olderThan, limit)
  {
    hide Safe;
    if events != [] && limit > 0 {
      assert events[0] in events;
      SameCandidates(db, other, events[1..], olderThan, if Safe(db, events[0], olderThan) then limit - 1 else limit);
    }
  }

  /** Releasing terminal rows makes no difference to what is safe. */
  lemma ReleasedIsAsSafe(db: Database, ids: seq<int>, id: int)
    ensures InUse(Released(db, ids), id) == InUse(db, id)
  {
    var keep := (row: Row) => !(row.rawEventId in ids && row.Terminal());
    FilterMembers(db.rows, keep);
    var after := Released(db, ids);
    if i :| 0 <= i < |db.rows| && db.rows[i].rawEventId == id && !db.rows[i].Terminal() {
      assert db.rows[i] in after.rows;
    }
    if i :| 0 <= i < |after.rows| && after.rows[i].rawEventId == id && !after.rows[i].Terminal() {
      assert after.rows[i] in db.rows;
    }
  }

  /** Both statements of a chunk have the same candidates. */
  lemma ChunkIs(db: Database, olderThan: int, size: nat)
    ensures var ids := Candidates(db, db.events, olderThan, size);
            Chunk(db, olderThan, size) == WithoutEvents(Released(db, ids), ids)
  {
    hide InUse, Released;
    var ids := Candidates(db, db.events, olderThan, size);
    forall event | event in db.events
      ensures Safe(db, event, olderThan) == Safe(Released(db, ids), event, olderThan)
    {
      ReleasedIsAsSafe(db, ids, event.id);
    }
    ReleasedKeepsEvents(db, ids);
    SameCandidates(db, Released(db, ids), db.events, olderThan, size);
  }

  lemma ReleasedKeepsEvents(db: Database, ids: seq<int>)
    ensures Released(db, ids).events == db.events && Released(db, ids).messages == db.messages
  {
  }

  lemma SameIdSameEvent(events: seq<RawEvent>, a: RawEvent, b: RawEvent)
    requires Receipts(events) && a in events && b in events && a.id == b.id
    ensures a == b
  {
  }

  /** What is in a chunk is safe, and nothing else has such an id. */
  lemma ChunkedIsSafe(db: Database, olderThan: int, size: nat, event: RawEvent)
    requires Receipts(db.events) && event in db.events
    requires event.id as int in Candidates(db, db.events, olderThan, size)
    ensures Safe(db, event, olderThan)
  {
    hide Safe, Receipts;
    CandidatesAreSafe(db, db.events, olderThan, size);
    var i :| 0 <= i < |db.events| && db.events[i].id == event.id && Safe(db, db.events[i], olderThan);
    SameIdSameEvent(db.events, db.events[i], event);
  }

  lemma ChunkMembers(db: Database, olderThan: int, size: nat)
    ensures var ids, after := Candidates(db, db.events, olderThan, size), Chunk(db, olderThan, size);
            && after.messages == db.messages
            && (forall event :: event in after.events <==> event in db.events && event.id as int !in ids)
            && (forall row :: row in after.rows <==> row in db.rows && !(row.rawEventId in ids && row.Terminal()))
  {
    hide Candidates, Chunk;
    ChunkIs(db, olderThan, size);
    var ids := Candidates(db, db.events, olderThan, size);
    FilterMembers(db.rows, (row: Row) => !(row.rawEventId in ids && row.Terminal()));
    FilterMembers(db.events, (event: RawEvent) => event.id as int !in ids);
  }

  lemma EventIsThere(events: seq<RawEvent>, event: RawEvent)
    requires event in events
    ensures HasEvent(events, event.id)
  {
  }

  /** Every foreign key holds after each chunk, however the database looked before it. */
  lemma ChunkKeepsKeys(db: Database, olderThan: int, size: nat)
    requires Consistent(db)
    ensures Consistent(Chunk(db, olderThan, size))
  {
    hide Candidates, Safe, Receipts;
    var ids, after := Candidates(db, db.events, olderThan, size), Chunk(db, olderThan, size);
    ChunkIs(db, olderThan, size);
    ChunkMembers(db, olderThan, size);
    FilterKeepsOrder(db.events, (event: RawEvent) => event.id as int !in ids);
    forall id | HasEvent(db.events, id) && (id in db.messages || exists row :: row in after.rows && row.rawEventId == id)
      ensures HasEvent(after.events, id)
    {
      var i :| 0 <= i < |db.events| && db.events[i].id == id;
      if id in ids {
        ChunkedIsSafe(db, olderThan, size, db.events[i]);
        SafeIsUnused(db, olderThan, db.events[i]);
      } else {
        EventIsThere(after.events, db.events[i]);
      }
    }
  }

  lemma SafeIsUnused(db: Database, olderThan: int, event: RawEvent)
    requires Safe(db, event, olderThan)
    ensures event.id as int !in db.messages
    ensures forall row | row in db.rows && row.rawEventId == event.id :: row.Terminal()
  {
  }

  lemma ChunkIsAsSafe(db: Database, olderThan: int, size: nat, id: int)
    ensures InUse(Chunk(db, olderThan, size), id) == InUse(db, id)
  {
    hide Candidates, Released;
    var ids := Candidates(db, db.events, olderThan, size);
    ChunkIs(db, olderThan, size);
    ReleasedIsAsSafe(db, ids, id);
  }

  /** A safe receipt that a chunk leaves is still there afterwards. */
  lemma ChunkKeepsSafeIds(db: Database, olderThan: int, size: nat, id: int)
    requires Receipts(db.events)
    ensures SafeId(Chunk(db, olderThan, size), id, olderThan)
            <==> SafeId(db, id, olderThan) && id !in Candidates(db, db.events, olderThan, size)
  {
    hide Candidates, Chunk, InUse, Receipts;
    var after := Chunk(db, olderThan, size);
    ChunkMembers(db, olderThan, size);
    ChunkIsAsSafe(db, olderThan, size, id);
    if i :| 0 <= i < |db.events| && db.events[i].id == id && Safe(db, db.events[i], olderThan)
            && id !in Candidates(db, db.events, olderThan, size) {
      assert db.events[i] in after.events;
    }
    if i :| 0 <= i < |after.events| && after.events[i].id == id && Safe(after, after.events[i], olderThan) {
      assert after.events[i] in after.events;
    }
  }

  lemma CandidateIdIsSafe(db: Database, olderThan: int, size: nat, id: int)
    requires id in Candidates(db, db.events, olderThan, size)
    ensures SafeId(db, id, olderThan)
  {
    hide Safe;
    CandidatesAreSafe(db, db.events, olderThan, size);
  }

  /** A chunk brings the database closer to the one-shot result, which it does not change. */
  lemma ChunkKeepsTheResult(db: Database, olderThan: int, size: nat)
    requires Receipts(db.events)
    ensures PrunedAtOnce(Chunk(db, olderThan, size), olderThan) == PrunedAtOnce(db, olderThan)
  {
    hide Candidates, Safe, SafeId, Receipts;
    var ids, after := Candidates(db, db.events, olderThan, size), Chunk(db, olderThan, size);
    ChunkIs(db, olderThan, size);
    forall event | event in db.events
      ensures !Safe(db, event, olderThan) <==> event.id as int !in ids && !Safe(after, event, olderThan)
    {
      SameSafety(db, olderThan, size, event);
      if event.id as int in ids {
        ChunkedIsSafe(db, olderThan, size, event);
      }
    }
    FilterTwice(db.events, (event: RawEvent) => event.id as int !in ids, (event: RawEvent) => !Safe(after, event, olderThan),
                    (event: RawEvent) => !Safe(db, event, olderThan));
    forall row: Row | row in db.rows
      ensures SafeId(db, row.rawEventId, olderThan)
              <==> row.rawEventId in ids || SafeId(after, row.rawEventId, olderThan)
    {
      ChunkKeepsSafeIds(db, olderThan, size, row.rawEventId);
      if row.rawEventId in ids {
        CandidateIdIsSafe(db, olderThan, size, row.rawEventId);
      }
    }
    FilterTwice(db.rows, (row: Row) => !(row.rawEventId in ids && row.Terminal()),
                  (row: Row) => !(row.Terminal() && SafeId(after, row.rawEventId, olderThan)),
                  (row: Row) => !(row.Terminal() && SafeId(db, row.rawEventId, olderThan)));
  }

  lemma SameSafety(db: Database, olderThan: int, size: nat, event: RawEvent)
    ensures Safe(Chunk(db, olderThan, size), event, olderThan) == Safe(db, event, olderThan)
  {
    hide InUse, Chunk;
    ChunkIsAsSafe(db, olderThan, size, event.id);
  }

  lemma {:induction false} CandidatesCount(
      db: Database, events: seq<RawEvent>, olderThan: int, size: nat, ids: seq<int>)
    requires Receipts(events)
    requires forall event | event in events ::
               event.id as int in ids <==> event.id as int in Candidates(db, events, olderThan, size)
    ensures |Filter(events, (event: RawEvent) => event.id as int !in ids)|
            == |events| - |Candidates(db, events, olderThan, size)|
  {
    hide Safe;
    if events == [] {
    } else if size == 0 {
      FilterAll(events, (event: RawEvent) => event.id as int !in ids);
    } else {
      TailReceipts(events);
      hide Receipts, Filter;
      var first, others := events[0], events[1..];
      var fewer := if Safe(db, first, olderThan) then size - 1 else size;
      var rest := Candidates(db, others, olderThan, fewer);
      assert Candidates(db, events, olderThan, size) == if Safe(db, first, olderThan) then [first.id] + rest else rest;
      CandidatesAreSafe(db, others, olderThan, fewer);
      MemberOfCons(events);
      forall event | event in others
        ensures event.id as int in ids <==> event.id as int in rest
      {
        assert first.id < event.id;
      }
      assert first.id as int !in rest;
      CandidatesCount(db, others, olderThan, fewer, ids);
      FilterCons(first, others, (event: RawEvent) => event.id as int !in ids);
      assert events == [first] + others;
    }
  }

  /** The number of receipts a chunk deletes is the number of its candidates. */
  lemma ChunkDeletes(db: Database, olderThan: int, size: nat)
    requires Receipts(db.events)
    ensures |Chunk(db, olderThan, size).events| == |db.events| - |Candidates(db, db.events, olderThan, size)|
    ensures |Candidates(db, db.events, olderThan, size)| <= size
  {
    hide Candidates, Receipts;
    ChunkIs(db, olderThan, size);
    CandidatesAreSafe(db, db.events, olderThan, size);
    CandidatesCount(db, db.events, olderThan, size, Candidates(db, db.events, olderThan, size));
  }

  /** A chunk that is not full was the last: nothing safe is left. */
  lemma LastChunk(db: Database, olderThan: int, size: nat)
    requires Receipts(db.events) && |Candidates(db, db.events, olderThan, size)| < size
    ensures Chunk(db, olderThan, size) == PrunedAtOnce(db, olderThan)
  {
    hide Candidates, Chunk, SafeId, InUse, Receipts;
    var after, ids := Chunk(db, olderThan, size), Candidates(db, db.events, olderThan, size);
    ChunkKeepsTheResult(db, olderThan, size);
    ChunkMembers(db, olderThan, size);
    CandidatesAreSafe(db, db.events, olderThan, size);
    forall event | event in after.events
      ensures !Safe(after, event, olderThan)
    {
      SameSafety(db, olderThan, size, event);
    }
    FilterAll(after.events, (event: RawEvent) => !Safe(after, event, olderThan));
    forall row: Row | row in after.rows
      ensures !SafeId(after, row.rawEventId, olderThan)
    {
      NothingSafe(after, row.rawEventId, olderThan);
    }
    FilterAll(after.rows, (row: Row) => !(row.Terminal() && SafeId(after, row.rawEventId, olderThan)));
  }

  lemma NothingSafe(db: Database, id: int, olderThan: int)
    requires forall event | event in db.events :: !Safe(db, event, olderThan)
    ensures !SafeId(db, id, olderThan)
  {
  }

  /** What pruning deletes: exactly the safe receipts and their terminal rows. No message and no
      pending or running row loses its receipt, and every foreign key holds. */
  lemma PruneDeletesExactlyTheSafe(db: Database, olderThan: int)
    requires Consistent(db)
    ensures var after := PrunedAtOnce(db, olderThan);
            && Consistent(after) && after.messages == db.messages
            && (forall event :: event in after.events <==> event in db.events && !Safe(db, event, olderThan))
            && (forall row :: row in after.rows <==>
                  row in db.rows && !(row.Terminal() && SafeId(db, row.rawEventId, olderThan)))
  {
    hide Safe, SafeId, Receipts;
    var after := PrunedAtOnce(db, olderThan);
    FilterMembers(db.events, (event: RawEvent) => !Safe(db, event, olderThan));
    FilterMembers(db.rows, (row: Row) => !(row.Terminal() && SafeId(db, row.rawEventId, olderThan)));
    FilterKeepsOrder(db.events, (event: RawEvent) => !Safe(db, event, olderThan));
    forall id | HasEvent(db.events, id) && (id in db.messages || exists row :: row in after.rows && row.rawEventId == id)
      ensures HasEvent(after.events, id)
    {
      var i :| 0 <= i < |db.events| && db.events[i].id == id;
      if Safe(db, db.events[i], olderThan) {
        SafeIsUnused(db, olderThan, db.events[i]);
        SafeEventHasSafeId(db, olderThan, i);
      } else {
        EventIsThere(after.events, db.events[i]);
      }
    }
  }

  /** No pending or running row refers to the receipt, and no message. */
  ghost predicate Unneeded(db: Database, id: int) {
    id !in db.messages && forall row | row in db.rows && row.rawEventId == id :: row.status in {Completed, Failed}
  }

  lemma SafeExactly(db: Database, event: RawEvent, olderThan: int)
    ensures Safe(db, event, olderThan) <==> event.receivedAt < olderThan && Unneeded(db, event.id)
  {
    if Safe(db, event, olderThan) {
      SafeIsUnused(db, olderThan, event);
    }
    if Unneeded(db, event.id) {
      forall i | 0 <= i < |db.rows| && db.rows[i].rawEventId == event.id
        ensures db.rows[i].Terminal()
      {
        assert db.rows[i] in db.rows;
      }
    }
  }

  /** Row by row: what a prune deletes, and nothing else. */
  lemma PrunedExactly(db: Database, olderThan: int)
    ensures var after := PrunedAtOnce(db, olderThan);
            && after.messages == db.messages
            && (forall event :: event in after.events
                  <==> event in db.events && !(event.receivedAt < olderThan && Unneeded(db, event.id)))
            && (forall row :: row in after.rows
                  <==> row in db.rows && !(row.status in {Completed, Failed} && exists event ::
                         event in db.events && event.id == row.rawEventId && event.receivedAt < olderThan
                         && Unneeded(db, event.id)))
  {
    hide Safe, SafeId, Unneeded;
    FilterMembers(db.events, (event: RawEvent) => !Safe(db, event, olderThan));
    FilterMembers(db.rows, (row: Row) => !(row.Terminal() && SafeId(db, row.rawEventId, olderThan)));
    forall event
      ensures Safe(db, event, olderThan) <==> event.receivedAt < olderThan && Unneeded(db, event.id)
    {
      SafeExactly(db, event, olderThan);
    }
    forall row: Row
      ensures SafeId(db, row.rawEventId, olderThan)
              <==> exists event :: event in db.events && event.id == row.rawEventId && Safe(db, event, olderThan)
    {
      SafeIdIsOfAnEvent(db, row.rawEventId, olderThan);
    }
  }

  lemma SafeIdIsOfAnEvent(db: Database, id: int, olderThan: int)
    ensures SafeId(db, id, olderThan)
            <==> exists event :: event in db.events && event.id == id && Safe(db, event, olderThan)
  {
    hide Safe;
  }

  lemma SafeEventHasSafeId(db: Database, olderThan: int, i: nat)
    requires i < |db.events| && Safe(db, db.events[i], olderThan)
    ensures SafeId(db, db.events[i].id, olderThan)
  {
  }

  /** How many receipts are older than the cutoff: no more can appear. */
  function OldCount(events: seq<RawEvent>, olderThan: int): nat {
    |Filter(events, (event: RawEvent) => event.receivedAt < olderThan)|
  }

  lemma ChunkDeletesOldOnes(db: Database, olderThan: int, size: nat)
    requires Receipts(db.events)
    ensures OldCount(Chunk(db, olderThan, size).events, olderThan)
            == OldCount(db.events, olderThan) - |Candidates(db, db.events, olderThan, size)|
  {
    hide Candidates, Receipts, InUse, Filter;
    var ids, after := Candidates(db, db.events, olderThan, size), Chunk(db, olderThan, size);
    var isOld, isNew := (event: RawEvent) => event.receivedAt < olderThan, (event: RawEvent) => event.receivedAt >= olderThan;
    ChunkIs(db, olderThan, size);
    ChunkDeletes(db, olderThan, size);
    FilterSplits(db.events, isOld, isNew);
    FilterSplits(after.events, isOld, isNew);
    forall event | event in db.events && isNew(event)
      ensures event.id as int !in ids
    {
      if event.id as int in ids {
        ChunkedIsSafe(db, olderThan, size, event);
      }
    }
    FilterTwice(db.events, (event: RawEvent) => event.id as int !in ids, isNew, isNew);
  }

  lemma NothingSafeIsLeft(db: Database, olderThan: int, size: nat)
    requires Receipts(db.events) && |Candidates(db, db.events, olderThan, size)| < size
    ensures forall event | event in Chunk(db, olderThan, size).events :: !Safe(Chunk(db, olderThan, size), event, olderThan)
  {
    hide Candidates, Chunk, Safe, Receipts;
    ChunkMembers(db, olderThan, size);
    CandidatesAreSafe(db, db.events, olderThan, size);
    forall event | event in Chunk(db, olderThan, size).events
      ensures !Safe(Chunk(db, olderThan, size), event, olderThan)
    {
      SameSafety(db, olderThan, size, event);
    }
  }

  // ----- the repository -----

  class RawEventRepository {
    var events: seq<RawEvent>
    var messages: set<int>
    var rows: seq<Row>

    ghost function Value(): Database
      reads this
    {
      Database(events, messages, rows)
    }

    constructor ()
      ensures Value() == Database([], {}, [])
    {
      events, messages, rows := [], {}, [];
    }

    method Insert(platform: string, payloadHash: string, payload: Json, now: int) returns (event: RawEvent)
      requires Consistent(Value())
      modifies this`events
      ensures Consistent(Value()) && (event, events) == Inserted(old(events), platform, payloadHash, payload, now)
      ensures event in events && event.platform == platform && event.payloadHash == payloadHash
      ensures (forall known | known in old(events) :: known.platform != platform || known.payloadHash != payloadHash) ==>
                && events == old(events) + [event] && event.payload == payload && event.receivedAt == now
                && forall known | known in old(events) :: known.id < event.id
    {
      InsertExactly(events, platform, payloadHash, payload, now);
      InsertIsIdempotent(Value(), platform, payloadHash, payload, now);
      var existing := FindHash(events, platform, payloadHash);
      if existing.Some? {
        return existing.value;
      }
      event := RawEvent(if |events| == 0 then 1 else events[|events| - 1].id + 1, platform, payloadHash, payload, now);
      events := events + [event];
    }

    /** Between two transactions of a prune others may run, unless the caller is alone. Nothing is
        known of them but that the keys hold and that no receipt arrives with a time before the
        cutoff. */
    method OtherTransactions(olderThan: int, alone: bool)
      requires Consistent(Value())
      modifies this
      ensures Consistent(Value()) && OldCount(events, olderThan) <= OldCount(old(events), olderThan)
      ensures alone ==> Value() == old(Value())
    {
    }

    /** Chunk by chunk until one is not full; the number of deleted receipts, or None for an
        invalid chunk size. */
    method PruneOlderThan(olderThan: int, chunkSize: int, alone: bool) returns (total: Option<nat>)
      requires Consistent(Value())
      modifies this
      ensures Consistent(Value())
      ensures chunkSize < 1 ==> total == None && Value() == old(Value())
      ensures chunkSize >= 1 ==> total.Some? && forall event | event in events :: !Safe(Value(), event, olderThan)
      ensures chunkSize >= 1 && alone ==>
                Value() == PrunedAtOnce(old(Value()), olderThan) && total == Some(|old(events)| - |events|)
    {
      hide Candidates, Safe, Chunk, PrunedAtOnce, Receipts, ForeignKeys, OldCount;
      if chunkSize < 1 {
        return None;
      }
      var totalDeleted: nat := 0;
      while true
        invariant Consistent(Value())
        invariant alone ==> PrunedAtOnce(Value(), olderThan) == PrunedAtOnce(old(Value()), olderThan)
        invariant alone ==> totalDeleted == |old(events)| - |events|
        decreases OldCount(events, olderThan)
      {
        ghost var before := Value();
        var deleted := PruneChunk(olderThan, chunkSize);
        ChunkKeepsTheResult(before, olderThan, chunkSize);
        totalDeleted := totalDeleted + deleted;
        if deleted < chunkSize {
          LastChunk(before, olderThan, chunkSize);
          NothingSafeIsLeft(before, olderThan, chunkSize);
          return Some(totalDeleted);
        }
        OtherTransactions(olderThan, alone);
      }
    }

    /** One transaction of the prune: the terminal rows of the candidates, then the candidates. */
    method PruneChunk(olderThan: int, chunkSize: nat) returns (deleted: nat)
      requires Consistent(Value())
      modifies this`events, this`rows
      ensures Consistent(Value()) && Value() == Chunk(old(Value()), olderThan, chunkSize)
      ensures deleted == |Candidates(old(Value()), old(events), olderThan, chunkSize)| == |old(events)| - |events|
      ensures OldCount(events, olderThan) == OldCount(old(events), olderThan) - deleted
    {
      hide Candidates, Safe, ForeignKeys, OldCount;
      ghost var before := Value();
      var first := Candidates(Database(events, messages, rows), events, olderThan, chunkSize);
      rows := Filter(rows, (row: Row) => !(row.rawEventId in first && row.Terminal()));
      var second := Candidates(Database(events, messages, rows), events, olderThan, chunkSize);
      var count := |events|;
      events := Filter(events, (event: RawEvent) => event.id as int !in second);
      assert Value() == Chunk(before, olderThan, chunkSize);
      ChunkDeletes(before, olderThan, chunkSize);
      ChunkKeepsKeys(before, olderThan, chunkSize);
      ChunkDeletesOldOnes(before, olderThan, chunkSize);
      deleted := count - |events|;
    }
  }
}
