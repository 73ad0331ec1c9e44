/** The producer: one inbound event becomes a raw receipt, then a normalized message, then at most
    one pending outbox row; a duplicate changes nothing. */
module EventProcessor {
  import opened Values
  import opened Domain
  import MessageRows
  import CodecBlocks
  import Parser
  import ParserAccounting
  import OfficialParser
  import Conversation
  import MessageStore
  import Outbox
  import RawEvents

  const PLATFORM := "qq_official"
  const PARSER_NAME := "qq_official_message_parser"
  const PARSER_VERSION := "3"

  /** The parts an event passes through. `hashOf` fingerprints a payload, and `kindOf` names the
      interaction a message asks for. */
  datatype Setup = Setup(
    lib: Library,
    referenceKey: (Json, Json, bool) -> Json,
    maxForwardDepth: nat,
    maxForwardNodes: nat,
    hashOf: Json -> string,
    kindOf: Message -> Option<Outbox.Kind>,
    maxAttempts: nat
  )

  datatype Tables = Tables(
    events: seq<RawEvents.RawEvent>,
    entries: seq<Conversation.Entry>,
    nextNode: int,
    rows: seq<Outbox.Row>
  )

  function EventIds(events: seq<RawEvents.RawEvent>): set<int> {
    set event | event in events :: event.id as int
  }

  function ReceiptsOf(entries: seq<Conversation.Entry>): set<int> {
    set entry | entry in entries :: Conversation.Receipt(entry)
  }

  function StoreOf(tables: Tables): MessageStore.Store {
    MessageStore.Store(EventIds(tables.events), tables.entries, tables.nextNode)
  }

  function DatabaseOf(tables: Tables): RawEvents.Database {
    RawEvents.Database(tables.events, ReceiptsOf(tables.entries), tables.rows)
  }

  ghost predicate KeysHold(tables: Tables) {
    RawEvents.Consistent(DatabaseOf(tables)) && Conversation.Table(tables.entries) && Outbox.Table(tables.rows)
  }

  datatype Processed = Processed(
    normalizedPersisted: bool,
    rawEventId: nat,
    interaction: Option<Outbox.Kind>,
    outboxId: Option<nat>,
    alreadyExisted: bool
  )

  /** The parser on a stored payload; it raises on anything but an object. */
  function ParsedFrom(setup: Setup, event: RawEvents.RawEvent): Option<Message> {
    if !event.payload.Obj? then None
    else Parser.MessageOf(setup.lib, setup.referenceKey, setup.maxForwardDepth, setup.maxForwardNodes,
                          event.payload, Some(event.id))
  }

  /** The normalized message of a stored receipt, persisted. */
  function Normalized(setup: Setup, tables: Tables, parsed: Message)
    : (Result<Message, MessageStore.StoreError>, MessageStore.Store)
  {
    MessageStore.Persisted(setup.lib, StoreOf(tables), parsed, PARSER_NAME, PARSER_VERSION)
  }

  function TextOr(text: Option<string>): string {
    if text.Some? then text.value else ""
  }

  function TriggerOf(message: Message, kind: Outbox.Kind): Outbox.Trigger {
    Outbox.Trigger(PLATFORM, TextOr(message.context.groupId), TextOr(message.platformMessageId), kind)
  }

  /** The last step: the outbox row of a normalized message. */
  function Enqueued(setup: Setup, tables: Tables, rawEventId: nat, message: Message): (Processed, Tables) {
    match setup.kindOf(message)
    case None => (Processed(true, rawEventId, None, None, false), tables)
    case Some(kind) =>
      var trigger := TriggerOf(message, kind);
      if trigger.groupId == "" || trigger.messageId == "" then
        (Processed(true, rawEventId, Some(kind), None, false), tables)
      else
        var existing := Outbox.Find(tables.rows, trigger);
        if existing.Some? then (Processed(true, rawEventId, Some(kind), Some(existing.value.id), true), tables)
        else (Processed(true, rawEventId, Some(kind), Some(Outbox.NextId(tables.rows)), false),
              tables.(rows := Outbox.Created(tables.rows, trigger, rawEventId, setup.maxAttempts)))
  }

  function Process(setup: Setup, tables: Tables, payload: Json, now: int): (Processed, Tables) {
    var (event, events) := RawEvents.Inserted(tables.events, PLATFORM, setup.hashOf(payload), payload, now);
    var received := tables.(events := events);
    var parsed := ParsedFrom(setup, event);
    if parsed.None? then (Processed(false, event.id, None, None, false), received)
    else
      var (message, store) := Normalized(setup, received, parsed.value);
      if message.Err? then (Processed(false, event.id, None, None, false), received)
      else Enqueued(setup, received.(entries := store.entries, nextNode := store.nextNode), event.id, message.value)
  }

  // ----- the keys -----

  lemma PersistedRefersToTheReceipt(lib: Library, store: MessageStore.Store, message: Message)
    ensures var after := MessageStore.Persisted(lib, store, message, PARSER_NAME, PARSER_VERSION).1;
            && after.receipts == store.receipts
            && (ReceiptsOf(after.entries) <= ReceiptsOf(store.entries) + store.receipts)
  {
  }

  lemma EventIdIsThere(events: seq<RawEvents.RawEvent>, id: int)
    ensures id in EventIds(events) <==> RawEvents.HasEvent(events, id)
  {
  }

  lemma EnqueuedKeepsKeys(setup: Setup, tables: Tables, rawEventId: nat, message: Message)
    requires KeysHold(tables) && RawEvents.HasEvent(tables.events, rawEventId) && setup.maxAttempts >= 1
    ensures KeysHold(Enqueued(setup, tables, rawEventId, message).1)
  {
    hide RawEvents.Receipts, Conversation.Table, Outbox.Table, RawEvents.HasEvent;
    var kind := setup.kindOf(message);
    if kind.Some? {
      var trigger := TriggerOf(message, kind.value);
      Outbox.CreationKeepsTable(tables.rows, trigger, rawEventId, setup.maxAttempts);
    }
  }

  /** Whatever arrives, every key of the three tables holds afterwards: one receipt per payload,
      one message per receipt and parser version, one row per trigger, and no dangling reference. */
  lemma {:induction false} ProcessKeepsKeys(setup: Setup, tables: Tables, payload: Json, now: int)
    requires KeysHold(tables) && setup.maxAttempts >= 1
    ensures KeysHold(Process(setup, tables, payload, now).1)
  {
    hide RawEvents.Receipts, Conversation.Table, Outbox.Table, RawEvents.HasEvent, MessageStore.Persisted,
         RawEvents.Inserted, Enqueued, ParsedFrom;
    var (event, events) := RawEvents.Inserted(tables.events, PLATFORM, setup.hashOf(payload), payload, now);
    RawEvents.InsertIsIdempotent(DatabaseOf(tables), PLATFORM, setup.hashOf(payload), payload, now);
    RawEvents.EventIsThere(events, event);
    var received, parsed := tables.(events := events), ParsedFrom(setup, event);
    if parsed.Some? {
      var (message, store) := Normalized(setup, received, parsed.value);
      PersistedRefersToTheReceipt(setup.lib, StoreOf(received), parsed.value);
      MessageStore.PersistKeepsTable(setup.lib, StoreOf(received), parsed.value, PARSER_NAME, PARSER_VERSION);
      if message.Ok? {
        var normalized := received.(entries := store.entries, nextNode := store.nextNode);
        forall id | id in ReceiptsOf(normalized.entries)
          ensures RawEvents.HasEvent(normalized.events, id)
        {
          EventIdIsThere(events, id);
        }
        EnqueuedKeepsKeys(setup, normalized, event.id, message.value);
      }
    }
  }

  // ----- duplicates -----

  /** The classifier does not look at the timestamp. */
  ghost predicate IgnoresTime(setup: Setup) {
    forall message: Message, timestamp :: setup.kindOf(message) == setup.kindOf(message.(timestamp := timestamp))
  }

  /** Persisting the same parsed message again returns it again, its timestamp perhaps in UTC. */
  lemma {:induction false} PersistTwice(
      setup: Setup, store: MessageStore.Store, event: RawEvents.RawEvent, message: Message)
    requires setup.lib.Lawful() && Conversation.Table(store.entries) && event.id as int in store.receipts
    requires ParsedFrom(setup, event) == Some(message)
    ensures var (first, after) := MessageStore.Persisted(setup.lib, store, message, PARSER_NAME, PARSER_VERSION);
            var (second, again) := MessageStore.Persisted(setup.lib, after, message, PARSER_NAME, PARSER_VERSION);
            && again == after && second.Ok? == first.Ok?
            && (first.Ok? ==> second.value == first.value.(timestamp := second.value.timestamp))
  {
    hide MessageRows.EncodeItems, MessageStore.DecodeEntry, MessageRows.Stored, Parser.MessageOf, Conversation.Table,
         CodecBlocks.ItemsOrdered, NumberedFrom, ParserAccounting.Placed, ParserAccounting.Charge;
    ParsedIsOrdered(setup, event, message);
    var record := MessageRows.RecordOf(message, PARSER_NAME, PARSER_VERSION);
    if MessageStore.FindVersion(store.entries, record).None? && MessageRows.StoredTime(message.timestamp).Ok? {
      MessageStore.PersistReturnsTheMessage(setup.lib, store, message, PARSER_NAME, PARSER_VERSION);
      MessageStore.PersistKeepsTable(setup.lib, store, message, PARSER_NAME, PARSER_VERSION);
      var after := MessageStore.Persisted(setup.lib, store, message, PARSER_NAME, PARSER_VERSION).1;
      var added := after.entries[|store.entries|];
      assert added in after.entries && Conversation.SameVersion(added, record);
      MessageStore.PersistAgainReturnsTheStored(setup.lib, after, added, message, PARSER_NAME, PARSER_VERSION);
    }
  }

  lemma ParsedIsOrdered(setup: Setup, event: RawEvents.RawEvent, message: Message)
    requires ParsedFrom(setup, event) == Some(message)
    ensures message.sourceRawEventId == Some(event.id as int)
    ensures CodecBlocks.ItemsOrdered(MessageRows.OfSegments(message.segments), 0)
  {
    hide Parser.MessageOf, NumberedFrom, ParserAccounting.Placed, ParserAccounting.Charge, CodecBlocks.ItemsOrdered;
    var _ := ParserAccounting.ParsedMessageIsAccounted(setup.lib, setup.referenceKey, setup.maxForwardDepth,
                                                       setup.maxForwardNodes, event.payload, Some(event.id));
    CodecBlocks.NumberedSegmentsAreOrdered(message.segments, 0);
  }

  lemma EnqueueTwice(setup: Setup, tables: Tables, rawEventId: nat, first: Message, second: Message)
    requires IgnoresTime(setup) && Outbox.Table(tables.rows)
    requires second == first.(timestamp := second.timestamp)
    ensures var (result, after) := Enqueued(setup, tables, rawEventId, first);
            Enqueued(setup, after, rawEventId, second)
            == (result.(alreadyExisted := result.outboxId.Some?), after)
  {
    hide Outbox.Table;
    assert setup.kindOf(first) == setup.kindOf(first.(timestamp := second.timestamp));
    var kind := setup.kindOf(first);
    if kind.Some? {
      var trigger := TriggerOf(first, kind.value);
      var created := Outbox.Created(tables.rows, trigger, rawEventId, setup.maxAttempts);
      FindCreated(tables.rows, trigger, rawEventId, setup.maxAttempts);
    }
  }

  lemma {:induction false} FindAppended(rows: seq<Outbox.Row>, row: Outbox.Row)
    ensures Outbox.Find(rows + [row], row.trigger)
            == if Outbox.Find(rows, row.trigger).Some? then Outbox.Find(rows, row.trigger) else Some(row)
  {
    if rows != [] {
      assert (rows + [row])[1..] == rows[1..] + [row];
      FindAppended(rows[1..], row);
    }
  }

  lemma FindCreated(rows: seq<Outbox.Row>, trigger: Outbox.Trigger, rawEventId: int, maxAttempts: nat)
    ensures var found := Outbox.Find(Outbox.Created(rows, trigger, rawEventId, maxAttempts), trigger);
            found.Some? && (Outbox.Find(rows, trigger).None? ==> found.value.id == Outbox.NextId(rows))
            && (Outbox.Find(rows, trigger).Some? ==> found == Outbox.Find(rows, trigger))
  {
    FindAppended(rows, Outbox.Row(Outbox.NextId(rows), trigger, rawEventId, Outbox.Pending, 0, maxAttempts, None, None));
  }

  /** A duplicate that follows its event leaves all three tables as they
      are and reports the same receipt and the same outbox row, as one that already existed. */
  lemma DuplicateChangesNothing(setup: Setup, tables: Tables, payload: Json, now: int, later: int)
    requires KeysHold(tables) && setup.lib.Lawful() && IgnoresTime(setup) && setup.maxAttempts >= 1
    ensures var (result, after) := Process(setup, tables, payload, now);
            Process(setup, after, payload, later) == (result.(alreadyExisted := result.outboxId.Some?), after)
  {
    hide RawEvents.Receipts, Conversation.Table, Outbox.Table, RawEvents.HasEvent, MessageStore.Persisted,
         RawEvents.Inserted, ParsedFrom, Enqueued, IgnoresTime;
    var (event, events) := RawEvents.Inserted(tables.events, PLATFORM, setup.hashOf(payload), payload, now);
    RawEvents.InsertIsIdempotent(DatabaseOf(tables), PLATFORM, setup.hashOf(payload), payload, now);
    var received, parsed := tables.(events := events), ParsedFrom(setup, event);
    if parsed.Some? {
      var (message, store) := Normalized(setup, received, parsed.value);
      PersistedRefersToTheReceipt(setup.lib, StoreOf(received), parsed.value);
      PersistTwice(setup, StoreOf(received), event, parsed.value);
      var normalized := received.(entries := store.entries, nextNode := store.nextNode);
      if message.Ok? {
        var again := MessageStore.Persisted(setup.lib, store, parsed.value, PARSER_NAME, PARSER_VERSION).0;
        EnqueueTwice(setup, normalized, event.id, message.value, again.value);
        EnqueuedKeepsOthers(setup, normalized, event.id, message.value);
      } else {
        FailedPersistAddsNothing(setup, StoreOf(received), event, parsed.value);
      }
    }
  }

  lemma EnqueuedKeepsOthers(setup: Setup, tables: Tables, rawEventId: nat, message: Message)
    ensures Enqueued(setup, tables, rawEventId, message).1
            == tables.(rows := Enqueued(setup, tables, rawEventId, message).1.rows)
  {
  }

  lemma FailedPersistAddsNothing(setup: Setup, store: MessageStore.Store, event: RawEvents.RawEvent, message: Message)
    requires setup.lib.Lawful() && event.id as int in store.receipts && ParsedFrom(setup, event) == Some(message)
    requires MessageStore.Persisted(setup.lib, store, message, PARSER_NAME, PARSER_VERSION).0.Err?
    ensures MessageStore.Persisted(setup.lib, store, message, PARSER_NAME, PARSER_VERSION).1 == store
  {
    hide MessageRows.EncodeItems, MessageStore.DecodeEntry, MessageRows.Stored, ParsedFrom, CodecBlocks.ItemsOrdered;
    ParsedIsOrdered(setup, event, message);
    var record := MessageRows.RecordOf(message, PARSER_NAME, PARSER_VERSION);
    if MessageStore.FindVersion(store.entries, record).None? && MessageRows.StoredTime(message.timestamp).Ok? {
      MessageStore.PersistReturnsTheMessage(setup.lib, store, message, PARSER_NAME, PARSER_VERSION);
    }
  }

  // ----- duplicates much later -----

  /** Every table has only grown. */
  ghost predicate Extends(before: Tables, after: Tables) {
    before.events <= after.events && before.entries <= after.entries && before.rows <= after.rows
  }

  lemma {:induction false} ProcessOnlyAdds(setup: Setup, tables: Tables, payload: Json, now: int)
    ensures Extends(tables, Process(setup, tables, payload, now).1)
  {
    hide MessageStore.Persisted, ParsedFrom;
    var (event, events) := RawEvents.Inserted(tables.events, PLATFORM, setup.hashOf(payload), payload, now);
    var received, parsed := tables.(events := events), ParsedFrom(setup, event);
    if parsed.Some? {
      MessageStore.PersistOnlyAdds(setup.lib, StoreOf(received), parsed.value, PARSER_NAME, PARSER_VERSION);
    }
  }

  /** What may happen to the tables between two receipts: another event, a prune of old receipts,
      row transitions by the workers, and a prune of old rows. */
  datatype Happening =
    | Arrives(payload: Json, now: int)
    | PruneReceipts(olderThan: int)
    | OutboxMoves(rows: seq<Outbox.Row>)
    | PruneOutbox(olderThan: int)

  ghost predicate Possible(tables: Tables, happening: Happening) {
    happening.OutboxMoves? ==> Outbox.AllMove(tables.rows, happening.rows)
  }

  function Happens(setup: Setup, tables: Tables, happening: Happening): Tables {
    match happening
    case Arrives(payload, now) => Process(setup, tables, payload, now).1
    case PruneReceipts(olderThan) =>
      var pruned := RawEvents.PrunedAtOnce(DatabaseOf(tables), olderThan);
      tables.(events := pruned.events, rows := pruned.rows)
    case OutboxMoves(rows) => tables.(rows := rows)
    case PruneOutbox(olderThan) => tables.(rows := Outbox.Pruned(tables.rows, olderThan))
  }

  function AfterAll(setup: Setup, tables: Tables, happenings: seq<Happening>): Tables
    decreases |happenings|
  {
    if happenings == [] then tables else AfterAll(setup, Happens(setup, tables, happenings[0]), happenings[1..])
  }

  ghost predicate AllPossible(setup: Setup, tables: Tables, happenings: seq<Happening>)
    decreases |happenings|
  {
    happenings == [] || (Possible(tables, happenings[0])
                         && AllPossible(setup, Happens(setup, tables, happenings[0]), happenings[1..]))
  }

  /** The receipt and the message made from it are stored. */
  ghost predicate Remembers(tables: Tables, event: RawEvents.RawEvent, entry: Conversation.Entry) {
    event in tables.events && entry in tables.entries && Conversation.Receipt(entry) == event.id
  }

  lemma ArrivalRemembers(setup: Setup, tables: Tables, payload: Json, now: int, event: RawEvents.RawEvent,
                         entry: Conversation.Entry)
    requires Remembers(tables, event, entry)
    ensures Remembers(Process(setup, tables, payload, now).1, event, entry)
  {
    hide Process;
    var after := Process(setup, tables, payload, now).1;
    ProcessOnlyAdds(setup, tables, payload, now);
    assert after.events[..|tables.events|] == tables.events && after.entries[..|tables.entries|] == tables.entries;
  }

  lemma PruneRemembers(tables: Tables, olderThan: int, event: RawEvents.RawEvent, entry: Conversation.Entry)
    requires KeysHold(tables) && Remembers(tables, event, entry)
    ensures event in RawEvents.PrunedAtOnce(DatabaseOf(tables), olderThan).events
  {
    hide RawEvents.PrunedAtOnce, RawEvents.Consistent, RawEvents.SafeId;
    RawEvents.PruneDeletesExactlyTheSafe(DatabaseOf(tables), olderThan);
    assert event.id as int in ReceiptsOf(tables.entries);
  }

  lemma PruneKeepsKeys(tables: Tables, olderThan: int)
    requires KeysHold(tables)
    ensures var pruned := RawEvents.PrunedAtOnce(DatabaseOf(tables), olderThan);
            KeysHold(tables.(events := pruned.events, rows := pruned.rows))
  {
    hide RawEvents.Safe, RawEvents.SafeId, Outbox.Table, Conversation.Table;
    var db := DatabaseOf(tables);
    RawEvents.PruneDeletesExactlyTheSafe(db, olderThan);
    Outbox.FilterKeepsTable(tables.rows, (row: Outbox.Row) => !(row.Terminal() && RawEvents.SafeId(db, row.rawEventId, olderThan)));
  }

  /** Rows that refer to the receipts the old ones refer to keep the keys. */
  lemma RowsKeepKeys(tables: Tables, rows: seq<Outbox.Row>)
    requires KeysHold(tables) && Outbox.Table(rows)
    requires forall row | row in rows :: exists former | former in tables.rows :: former.rawEventId == row.rawEventId
    ensures KeysHold(tables.(rows := rows))
  {
    hide RawEvents.Receipts, Outbox.Table, Conversation.Table, RawEvents.HasEvent;
  }

  lemma HappensRemembers(setup: Setup, tables: Tables, happening: Happening, event: RawEvents.RawEvent,
                         entry: Conversation.Entry)
    requires KeysHold(tables) && Remembers(tables, event, entry)
    ensures Remembers(Happens(setup, tables, happening), event, entry)
  {
    hide Process, RawEvents.PrunedAtOnce, KeysHold;
    match happening
    case Arrives(payload, now) => ArrivalRemembers(setup, tables, payload, now, event, entry);
    case PruneReceipts(olderThan) => PruneRemembers(tables, olderThan, event, entry);
    case _ =>
  }

  /** Whatever happens keeps every key of the three tables. */
  lemma HappensKeepsKeys(setup: Setup, tables: Tables, happening: Happening)
    requires KeysHold(tables) && Possible(tables, happening) && setup.maxAttempts >= 1
    ensures KeysHold(Happens(setup, tables, happening))
  {
    hide Process, RawEvents.PrunedAtOnce, RawEvents.Consistent, Outbox.Table, Conversation.Table, Outbox.Pruned,
         Outbox.Moves;
    match happening
    case Arrives(payload, now) => ProcessKeepsKeys(setup, tables, payload, now);
    case PruneReceipts(olderThan) => PruneKeepsKeys(tables, olderThan);
    case OutboxMoves(rows) =>
      Outbox.MovesKeepTable(tables.rows, rows);
      MovedRowsRefer(tables.rows, rows);
      RowsKeepKeys(tables, rows);
    case PruneOutbox(olderThan) =>
      Outbox.PruneKeepsOthers(tables.rows, olderThan);
      RowsKeepKeys(tables, Outbox.Pruned(tables.rows, olderThan));
  }

  lemma MovedRowsRefer(before: seq<Outbox.Row>, after: seq<Outbox.Row>)
    requires Outbox.AllMove(before, after)
    ensures forall row | row in after :: exists former | former in before :: former.rawEventId == row.rawEventId
  {
    forall row | row in after
      ensures exists former | former in before :: former.rawEventId == row.rawEventId
    {
      var i :| 0 <= i < |after| && after[i] == row;
      assert Outbox.Moves(before[i], after[i]) && before[i] in before;
    }
  }

  lemma {:induction false} AfterAllKeeps(setup: Setup, tables: Tables, happenings: seq<Happening>,
                                         event: RawEvents.RawEvent, entry: Conversation.Entry)
    requires KeysHold(tables) && AllPossible(setup, tables, happenings) && setup.maxAttempts >= 1
    requires Remembers(tables, event, entry)
    ensures var after := AfterAll(setup, tables, happenings);
            KeysHold(after) && Remembers(after, event, entry)
    decreases |happenings|
  {
    hide KeysHold, Happens, Remembers, Possible;
    if happenings != [] {
      HappensKeepsKeys(setup, tables, happenings[0]);
      HappensRemembers(setup, tables, happenings[0], event, entry);
      AfterAllKeeps(setup, Happens(setup, tables, happenings[0]), happenings[1..], event, entry);
    }
  }

  lemma PersistedHasEntry(lib: Library, store: MessageStore.Store, message: Message) returns (entry: Conversation.Entry)
    requires MessageStore.Persisted(lib, store, message, PARSER_NAME, PARSER_VERSION).0.Ok?
    ensures entry in MessageStore.Persisted(lib, store, message, PARSER_NAME, PARSER_VERSION).1.entries
    ensures message.sourceRawEventId.Some?
            && Conversation.SameVersion(entry, MessageRows.RecordOf(message, PARSER_NAME, PARSER_VERSION))
  {
    hide MessageRows.EncodeItems, MessageStore.DecodeEntry, MessageRows.Stored;
    var record := MessageRows.RecordOf(message, PARSER_NAME, PARSER_VERSION);
    MessageStore.FindVersionFinds(store.entries, record);
    var after := MessageStore.Persisted(lib, store, message, PARSER_NAME, PARSER_VERSION).1;
    entry := if MessageStore.FindVersion(store.entries, record).Some?
             then MessageStore.FindVersion(store.entries, record).value else after.entries[|store.entries|];
  }

  /** The outbox step for a message whose row may have been pruned meanwhile. */
  lemma EnqueueLater(setup: Setup, tables: Tables, later: Tables, rawEventId: nat, first: Message, second: Message)
    requires IgnoresTime(setup) && second == first.(timestamp := second.timestamp)
    requires Enqueued(setup, tables, rawEventId, first).0.outboxId.Some?
    ensures setup.kindOf(first).Some?
    ensures var trigger := TriggerOf(first, setup.kindOf(first).value);
            var (result, after) := Enqueued(setup, tables, rawEventId, first);
            var (again, end) := Enqueued(setup, later, rawEventId, second);
            var found := Outbox.Find(later.rows, trigger);
            && result.rawEventId == rawEventId && Outbox.Find(after.rows, trigger).Some?
            && result.outboxId == Some(Outbox.Find(after.rows, trigger).value.id)
            && again == result.(outboxId := Some(if found.Some? then found.value.id else Outbox.NextId(later.rows)),
                                alreadyExisted := found.Some?)
            && end == if found.Some? then later
                      else later.(rows := Outbox.Created(later.rows, trigger, rawEventId, setup.maxAttempts))
  {
    assert setup.kindOf(first) == setup.kindOf(first.(timestamp := second.timestamp));
    var trigger := TriggerOf(first, setup.kindOf(first).value);
    FindCreated(tables.rows, trigger, rawEventId, setup.maxAttempts);
  }

  /** What a late duplicate does, whatever happened in between: it names the same receipt, changes
      neither receipts nor messages, and adds one pending row exactly when the trigger's row is no
      longer there. */
  lemma LateDuplicateExactly(setup: Setup, tables: Tables, payload: Json, now: int, between: seq<Happening>, later: int)
    returns (trigger: Outbox.Trigger)
    requires KeysHold(tables) && setup.lib.Lawful() && IgnoresTime(setup) && setup.maxAttempts >= 1
    requires AllPossible(setup, Process(setup, tables, payload, now).1, between)
    ensures var (result, after) := Process(setup, tables, payload, now);
            var reached := AfterAll(setup, after, between);
            var (again, end) := Process(setup, reached, payload, later);
            var found := Outbox.Find(reached.rows, trigger);
            result.outboxId.Some? ==>
              && Outbox.Find(after.rows, trigger).Some?
              && result.outboxId == Some(Outbox.Find(after.rows, trigger).value.id)
              && again == result.(outboxId := Some(if found.Some? then found.value.id else Outbox.NextId(reached.rows)),
                                  alreadyExisted := found.Some?)
              && end == if found.Some? then reached
                        else reached.(rows := Outbox.Created(reached.rows, trigger, result.rawEventId, setup.maxAttempts))
  {
    hide Conversation.Table, Outbox.Table, MessageStore.Persisted, RawEvents.HasEvent, RawEvents.Receipts,
         RawEvents.Inserted, ParsedFrom, Enqueued, IgnoresTime, AfterAll, AllPossible;
    var (result, after) := Process(setup, tables, payload, now);
    trigger := Outbox.Trigger("", "", "", Outbox.Ping);
    if result.outboxId.Some? {
      var reached := AfterAll(setup, after, between);
      var (event, events) := RawEvents.Inserted(tables.events, PLATFORM, setup.hashOf(payload), payload, now);
      RawEvents.InsertIsIdempotent(DatabaseOf(tables), PLATFORM, setup.hashOf(payload), payload, now);
      var received, parsed := tables.(events := events), ParsedFrom(setup, event).value;
      var (message, store) := Normalized(setup, received, parsed);
      var normalized := received.(entries := store.entries, nextNode := store.nextNode);
      var entry := PersistedHasEntry(setup.lib, StoreOf(received), parsed);
      ParsedIsOrdered(setup, event, parsed);
      EnqueuedKeepsOthers(setup, normalized, event.id, message.value);
      ProcessKeepsKeys(setup, tables, payload, now);
      AfterAllKeeps(setup, after, between, event, entry);
      InsertLater(setup, reached.events, event, payload, later);
      var again := PersistLater(setup, StoreOf(received), StoreOf(reached), event, parsed, entry);
      EnqueueLater(setup, normalized, reached, event.id, message.value, again);
      trigger := TriggerOf(message.value, setup.kindOf(message.value).value);
    }
  }

  // ----- without a prune in between -----

  ghost predicate NothingPruned(happenings: seq<Happening>) {
    forall i | 0 <= i < |happenings| :: happenings[i].Arrives? || happenings[i].OutboxMoves?
  }

  ghost predicate HasRow(rows: seq<Outbox.Row>, trigger: Outbox.Trigger, id: nat) {
    exists i | 0 <= i < |rows| :: rows[i].trigger == trigger && rows[i].id == id
  }

  lemma FoundRow(rows: seq<Outbox.Row>, trigger: Outbox.Trigger, id: nat)
    requires Outbox.Table(rows)
    ensures HasRow(rows, trigger, id)
            <==> Outbox.Find(rows, trigger).Some? && Outbox.Find(rows, trigger).value.id == id
  {
    hide Outbox.Row.Valid;
    Outbox.FindFinds(rows, trigger);
    if i :| 0 <= i < |rows| && rows[i].trigger == trigger && rows[i].id == id {
      var j :| 0 <= j < |rows| && rows[j] == Outbox.Find(rows, trigger).value;
      assert !(i < j) && !(j < i);
    }
  }

  lemma HappensKeepsRow(setup: Setup, tables: Tables, happening: Happening, trigger: Outbox.Trigger, id: nat)
    requires Possible(tables, happening) && (happening.Arrives? || happening.OutboxMoves?)
    requires HasRow(tables.rows, trigger, id)
    ensures HasRow(Happens(setup, tables, happening).rows, trigger, id)
  {
    hide Process;
    var after := Happens(setup, tables, happening);
    var i :| 0 <= i < |tables.rows| && tables.rows[i].trigger == trigger && tables.rows[i].id == id;
    if happening.Arrives? {
      ProcessOnlyAdds(setup, tables, happening.payload, happening.now);
      assert after.rows[i] == tables.rows[i];
    } else {
      assert Outbox.Moves(tables.rows[i], after.rows[i]);
    }
  }

  lemma {:induction false} AfterAllKeepsRow(setup: Setup, tables: Tables, happenings: seq<Happening>,
                                            trigger: Outbox.Trigger, id: nat)
    requires AllPossible(setup, tables, happenings) && NothingPruned(happenings)
    requires HasRow(tables.rows, trigger, id)
    ensures HasRow(AfterAll(setup, tables, happenings).rows, trigger, id)
    decreases |happenings|
  {
    hide Happens, HasRow, Possible;
    if happenings != [] {
      assert happenings[0].Arrives? || happenings[0].OutboxMoves?;
      HappensKeepsRow(setup, tables, happenings[0], trigger, id);
      AfterAllKeepsRow(setup, Happens(setup, tables, happenings[0]), happenings[1..], trigger, id);
    }
  }

  /** Once an event has its outbox row, a duplicate of it leaves all three tables alone and names
      the same receipt and row, however many events and row transitions came in between. */
  lemma LateDuplicateChangesNothing(
    setup: Setup, tables: Tables, payload: Json, now: int, between: seq<Happening>, later: int)
    requires KeysHold(tables) && setup.lib.Lawful() && IgnoresTime(setup) && setup.maxAttempts >= 1
    requires AllPossible(setup, Process(setup, tables, payload, now).1, between) && NothingPruned(between)
    ensures var (result, after) := Process(setup, tables, payload, now);
            var reached := AfterAll(setup, after, between);
            result.outboxId.Some? ==>
              Process(setup, reached, payload, later) == (result.(alreadyExisted := true), reached)
  {
    hide Process, Outbox.Table, AfterAll, AllPossible, NothingPruned, HasRow, IgnoresTime, RawEvents.Consistent,
         Conversation.Table;
    var (result, after) := Process(setup, tables, payload, now);
    var reached := AfterAll(setup, after, between);
    var trigger := LateDuplicateExactly(setup, tables, payload, now, between, later);
    if result.outboxId.Some? {
      ProcessKeepsKeys(setup, tables, payload, now);
      AfterAllKeepsKeys(setup, after, between);
      FoundRow(after.rows, trigger, result.outboxId.value);
      AfterAllKeepsRow(setup, after, between, trigger, result.outboxId.value);
      FoundRow(reached.rows, trigger, result.outboxId.value);
    }
  }

  lemma {:induction false} AfterAllKeepsKeys(setup: Setup, tables: Tables, happenings: seq<Happening>)
    requires KeysHold(tables) && AllPossible(setup, tables, happenings) && setup.maxAttempts >= 1
    ensures KeysHold(AfterAll(setup, tables, happenings))
    decreases |happenings|
  {
    hide KeysHold, Happens, Possible;
    if happenings != [] {
      HappensKeepsKeys(setup, tables, happenings[0]);
      AfterAllKeepsKeys(setup, Happens(setup, tables, happenings[0]), happenings[1..]);
    }
  }

  lemma InsertLater(setup: Setup, longer: seq<RawEvents.RawEvent>, event: RawEvents.RawEvent, payload: Json, now: int)
    requires event in longer && RawEvents.Receipts(longer)
    requires event.platform == PLATFORM && event.payloadHash == setup.hashOf(payload)
    ensures RawEvents.Inserted(longer, PLATFORM, setup.hashOf(payload), payload, now) == (event, longer)
  {
    hide RawEvents.Receipts;
    RawEvents.FindHashFinds(longer, PLATFORM, setup.hashOf(payload));
    RawEvents.OneEventPerHash(longer, event, RawEvents.FindHash(longer, PLATFORM, setup.hashOf(payload)).value);
  }

  lemma PersistLater(setup: Setup, store: MessageStore.Store, later: MessageStore.Store, event: RawEvents.RawEvent,
                     message: Message, entry: Conversation.Entry)
    returns (again: Message)
    requires setup.lib.Lawful() && ParsedFrom(setup, event) == Some(message) && event.id as int in store.receipts
    requires Conversation.Table(store.entries) && Conversation.Table(later.entries)
    requires MessageStore.Persisted(setup.lib, store, message, PARSER_NAME, PARSER_VERSION).0.Ok?
    requires entry in MessageStore.Persisted(setup.lib, store, message, PARSER_NAME, PARSER_VERSION).1.entries
    requires entry in later.entries && message.sourceRawEventId.Some?
    requires Conversation.SameVersion(entry, MessageRows.RecordOf(message, PARSER_NAME, PARSER_VERSION))
    ensures MessageStore.Persisted(setup.lib, later, message, PARSER_NAME, PARSER_VERSION) == (Result.Ok(again), later)
    ensures again == MessageStore.Persisted(setup.lib, store, message, PARSER_NAME, PARSER_VERSION).0.value
                     .(timestamp := again.timestamp)
  {
    hide MessageStore.Persisted, ParsedFrom, Conversation.Table, MessageStore.DecodeEntry;
    var after := MessageStore.Persisted(setup.lib, store, message, PARSER_NAME, PARSER_VERSION).1;
    MessageStore.PersistKeepsTable(setup.lib, store, message, PARSER_NAME, PARSER_VERSION);
    PersistTwice(setup, store, event, message);
    MessageStore.PersistAgainReturnsTheStored(setup.lib, after, entry, message, PARSER_NAME, PARSER_VERSION);
    MessageStore.PersistAgainReturnsTheStored(setup.lib, later, entry, message, PARSER_NAME, PARSER_VERSION);
    again := MessageStore.DecodeEntry(setup.lib, entry).value;
  }

  // ----- the processor -----

  class QQOfficialEventProcessor {
    const setup: Setup
    const parser: OfficialParser.QQOfficialMessageParser
    var tables: Tables

    ghost predicate Valid()
      reads this
    {
      && setup.maxAttempts >= 1
      && parser.lib == setup.lib && parser.referenceKey == setup.referenceKey
      && parser.maxForwardDepth == setup.maxForwardDepth && parser.maxForwardNodes == setup.maxForwardNodes
    }

    constructor (setup: Setup)
      requires setup.maxAttempts >= 1 && setup.maxForwardDepth >= 1 && setup.maxForwardNodes >= 1
      ensures Valid() && this.setup == setup && tables == Tables([], [], 1, [])
    {
      this.setup := setup;
      parser := new OfficialParser.QQOfficialMessageParser(setup.lib, setup.referenceKey, setup.maxForwardDepth,
                                                           setup.maxForwardNodes);
      tables := Tables([], [], 1, []);
    }

    method ProcessEvent(payload: Json, now: int) returns (result: Processed)
      requires Valid() && KeysHold(tables)
      modifies this`tables
      ensures Valid() && KeysHold(tables)
      ensures (result, tables) == Process(setup, old(tables), payload, now)
    {
      hide KeysHold, Parser.MessageOf, MessageStore.Persisted, RawEvents.Inserted;
      ProcessKeepsKeys(setup, tables, payload, now);
      var (event, events) := RawEvents.Inserted(tables.events, PLATFORM, setup.hashOf(payload), payload, now);
      tables := tables.(events := events);
      if !event.payload.Obj? {
        return Processed(false, event.id, None, None, false);
      }
      var parsed := parser.Parse(event.payload, Some(event.id));
      if parsed.None? {
        return Processed(false, event.id, None, None, false);
      }
      var (message, store) := Normalized(setup, tables, parsed.value);
      if message.Err? {
        return Processed(false, event.id, None, None, false);
      }
      tables := tables.(entries := store.entries, nextNode := store.nextNode);
      var kind := setup.kindOf(message.value);
      if kind.None? {
        return Processed(true, event.id, None, None, false);
      }
      var trigger := TriggerOf(message.value, kind.value);
      if trigger.groupId == "" || trigger.messageId == "" {
        return Processed(true, event.id, kind, None, false);
      }
      var existing := Outbox.Find(tables.rows, trigger);
      if existing.Some? {
        return Processed(true, event.id, kind, Some(existing.value.id), true);
      }
      result := Processed(true, event.id, kind, Some(Outbox.NextId(tables.rows)), false);
      tables := tables.(rows := Outbox.Created(tables.rows, trigger, event.id, setup.maxAttempts));
    }
  }
}
