/** What a new event leaves behind: its receipt, the message it carries, and the row of the interaction
    it asks for. */
module EventOutcome {
  import opened Values
  import opened Domain
  import MessageRows
  import CodecBlocks
  import Parser
  import Conversation
  import MessageStore
  import Outbox
  import RawEvents
  import opened EventProcessor

  /** No receipt has this payload. */
  ghost predicate IsNew(setup: Setup, tables: Tables, payload: Json) {
    forall event | event in tables.events :: event.platform != "qq_official" || event.payloadHash != setup.hashOf(payload)
  }

  /** The receipt of a new event carries it as it came, under a new id. */
  ghost predicate HasReceipt(setup: Setup, before: Tables, after: Tables, id: nat, payload: Json, now: int) {
    && after.events == before.events + [RawEvents.RawEvent(id, "qq_official", setup.hashOf(payload), payload, now)]
    && forall event | event in before.events :: event.id < id
  }

  /** The timestamp, if any, has an offset: it can be stored. */
  predicate Storable(message: Message) {
    message.timestamp.Some? ==> message.timestamp.value.Aware?
  }

  /** One more entry, of this receipt and parser, which reads back as the message with its time in UTC. */
  ghost predicate HasMessage(setup: Setup, before: Tables, after: Tables, id: nat, message: Message)
    requires Storable(message)
  {
    && |after.entries| == |before.entries| + 1 && after.entries[..|before.entries|] == before.entries
    && var entry := after.entries[|before.entries|];
       && entry.record.sourceRawEventId == id
       && entry.record.parserName == "qq_official_message_parser" && entry.record.parserVersion == "3"
       && var stored := if message.timestamp.Some? then Some(Aware(message.timestamp.value.utc, 0)) else None;
          MessageStore.DecodeEntry(setup.lib, entry) == Result.Ok(message.(timestamp := stored))
  }

  /** The message asks for an interaction in a group it names, in reply to an id it names. */
  predicate AsksFor(setup: Setup, message: Message, trigger: Outbox.Trigger) {
    && setup.kindOf(message) == Some(trigger.kind) && trigger.platform == "qq_official"
    && message.context.groupId == Some(trigger.groupId) && trigger.groupId != ""
    && message.platformMessageId == Some(trigger.messageId) && trigger.messageId != ""
  }

  /** One more row, pending and untried, for the trigger and the receipt. */
  ghost predicate HasPendingRow(setup: Setup, before: Tables, after: Tables, trigger: Outbox.Trigger, id: nat, rowId: nat) {
    && after.rows == before.rows + [Outbox.Row(rowId, trigger, id, Outbox.Pending, 0, setup.maxAttempts, None, None)]
    && forall row | row in before.rows :: row.id < rowId
  }

  // ----- the steps -----

  lemma ReceiptIsNew(setup: Setup, tables: Tables, payload: Json, now: int)
    requires KeysHold(tables) && IsNew(setup, tables, payload)
    ensures var (event, events) := RawEvents.Inserted(tables.events, PLATFORM, setup.hashOf(payload), payload, now);
            && HasReceipt(setup, tables, tables.(events := events), event.id, payload, now)
            && event == RawEvents.RawEvent(event.id, PLATFORM, setup.hashOf(payload), payload, now)
            && event.id in EventIds(events)
            && forall entry | entry in tables.entries :: Conversation.Receipt(entry) != event.id
  {
    hide Conversation.Table, Outbox.Table;
    RawEvents.InsertExactly(tables.events, PLATFORM, setup.hashOf(payload), payload, now);
    var (event, events) := RawEvents.Inserted(tables.events, PLATFORM, setup.hashOf(payload), payload, now);
    assert event in events;
    forall entry | entry in tables.entries
      ensures Conversation.Receipt(entry) != event.id
    {
      assert Conversation.Receipt(entry) in ReceiptsOf(tables.entries);
      EventIdIsThere(tables.events, Conversation.Receipt(entry));
      assert RawEvents.HasEvent(tables.events, Conversation.Receipt(entry));
    }
  }

  lemma MessageIsStored(setup: Setup, before: Tables, received: Tables, event: RawEvents.RawEvent, message: Message)
    requires setup.lib.Lawful() && ParsedFrom(setup, event) == Some(message)
    requires received == before.(events := received.events) && event.id in EventIds(received.events)
    requires forall entry | entry in before.entries :: Conversation.Receipt(entry) != event.id
    ensures var (result, store) := Normalized(setup, received, message);
            var after := received.(entries := store.entries, nextNode := store.nextNode);
            if Storable(message) then result == Result.Ok(message) && HasMessage(setup, before, after, event.id, message)
            else result.Err? && store == StoreOf(received)
  {
    hide ParsedFrom, CodecBlocks.ItemsOrdered, MessageStore.DecodeEntry, MessageRows.EncodeItems, MessageRows.Stored;
    ParsedIsOrdered(setup, event, message);
    var record := MessageRows.RecordOf(message, PARSER_NAME, PARSER_VERSION);
    MessageStore.FindVersionFinds(received.entries, record);
    if Storable(message) {
      MessageStore.PersistReturnsTheMessage(setup.lib, StoreOf(received), message, PARSER_NAME, PARSER_VERSION);
    }
  }

  lemma RowIsCreated(setup: Setup, tables: Tables, id: nat, message: Message)
    requires Outbox.Table(tables.rows)
    ensures var (result, after) := Enqueued(setup, tables, id, message);
            && after == tables.(rows := after.rows)
            && result == Processed(true, id, setup.kindOf(message), result.outboxId, result.alreadyExisted)
            && (result.outboxId.Some? <==> exists trigger :: AsksFor(setup, message, trigger))
            && (result.outboxId.None? ==> after == tables && !result.alreadyExisted)
            && forall trigger | AsksFor(setup, message, trigger) ::
                 if exists row :: row in tables.rows && row.trigger == trigger then
                   && result.alreadyExisted && after == tables
                   && exists row :: row in tables.rows && row.trigger == trigger && result.outboxId == Some(row.id)
                 else !result.alreadyExisted && HasPendingRow(setup, tables, after, trigger, id, result.outboxId.value)
  {
    hide Outbox.Row.Valid;
    var kind := setup.kindOf(message);
    if kind.Some? {
      var trigger := TriggerOf(message, kind.value);
      Outbox.FindFinds(tables.rows, trigger);
      LastRowIsGreatest(tables.rows);
      if trigger.groupId != "" && trigger.messageId != "" {
        assert AsksFor(setup, message, trigger);
      }
    }
  }

  lemma LastRowIsGreatest(rows: seq<Outbox.Row>)
    requires Outbox.Table(rows)
    ensures forall row | row in rows :: row.id < Outbox.NextId(rows)
  {
    hide Outbox.Row.Valid;
    forall row | row in rows
      ensures row.id < Outbox.NextId(rows)
    {
      var i :| 0 <= i < |rows| && rows[i] == row;
      assert i < |rows| - 1 ==> rows[i].id < rows[|rows| - 1].id;
    }
  }

  // ----- the whole event -----

  /** Exactly what a new event leaves behind. It always has a receipt with its payload. If it parses to a
      message that can be stored, the message is stored and read back as it is; if that asks for an
      interaction of a group and message it names, its trigger has one row, pending and new unless there
      was one. Nothing else is added. */
  lemma NewEventExactly(setup: Setup, tables: Tables, payload: Json, now: int)
    requires KeysHold(tables) && setup.lib.Lawful() && IsNew(setup, tables, payload)
    ensures var (result, after) := Process(setup, tables, payload, now);
            var id := result.rawEventId;
            var parsed := if payload.Obj? then Parser.MessageOf(setup.lib, setup.referenceKey, setup.maxForwardDepth,
                                                                setup.maxForwardNodes, payload, Some(id))
                          else None;
            && HasReceipt(setup, tables, after, id, payload, now)
            && (result.normalizedPersisted <==> parsed.Some? && Storable(parsed.value))
            && (!result.normalizedPersisted ==>
                  && after.entries == tables.entries && after.rows == tables.rows
                  && result.interaction.None? && result.outboxId.None? && !result.alreadyExisted)
            && (result.normalizedPersisted ==>
                  && HasMessage(setup, tables, after, id, parsed.value)
                  && result.interaction == setup.kindOf(parsed.value)
                  && (result.outboxId.Some? <==> exists trigger :: AsksFor(setup, parsed.value, trigger))
                  && (result.outboxId.None? ==> after.rows == tables.rows && !result.alreadyExisted)
                  && forall trigger | AsksFor(setup, parsed.value, trigger) ::
                       if exists row :: row in tables.rows && row.trigger == trigger then
                         && result.alreadyExisted && after.rows == tables.rows
                         && exists row :: row in tables.rows && row.trigger == trigger && result.outboxId == Some(row.id)
                       else !result.alreadyExisted && HasPendingRow(setup, tables, after, trigger, id, result.outboxId.value))
  {
    hide RawEvents.Inserted, MessageStore.Persisted, Enqueued, Parser.MessageOf, AsksFor, Outbox.Table,
         Conversation.Table, RawEvents.Receipts, RawEvents.HasEvent, MessageStore.DecodeEntry;
    var (event, events) := RawEvents.Inserted(tables.events, PLATFORM, setup.hashOf(payload), payload, now);
    ReceiptIsNew(setup, tables, payload, now);
    var received, parsed := tables.(events := events), ParsedFrom(setup, event);
    if parsed.Some? {
      MessageIsStored(setup, tables, received, event, parsed.value);
      if Storable(parsed.value) {
        var store := Normalized(setup, received, parsed.value).1;
        RowIsCreated(setup, received.(entries := store.entries, nextNode := store.nextNode), event.id, parsed.value);
      }
    }
  }
}
