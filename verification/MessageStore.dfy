/** The message repository: one stored tree per receipt and parser version, persisted once and
    read back by the conversation queries. */
module MessageStore {
  import opened Values
  import opened Sequences
  import opened Domain
  import opened MessageRows
  import opened CodecBlocks
  import opened CodecRoundTrip
  import opened Conversation
  import MessageCodec
  import Parser
  import ParserAccounting

  datatype StoreError = Unencodable(error: CodecError) | Undecodable(error: CodecError) | NaiveTime | MissingRawEvent

  // ----- one call of persist, on values -----

  function FindVersion(entries: seq<Entry>, record: Record): Option<Entry> {
    if entries == [] then None
    else if SameVersion(entries[0], record) then Some(entries[0])
    else FindVersion(entries[1..], record)
  }

  function DecodeEntry(lib: Library, entry: Entry): Result<Message, StoreError> {
    match DecodeMessage(lib, entry.record, entry.id, entry.nodes)
    case Ok(message) => Ok(message)
    case Err(error) => Err(Undecodable(error))
  }

  function NextId(entries: seq<Entry>): nat {
    if entries == [] then 1 else entries[|entries| - 1].id + 1
  }

  /** The ids the database gives the next rows of a table. */
  function IdsFrom(first: int, count: nat): seq<int> {
    seq(count, i => first + i)
  }

  datatype Store = Store(receipts: set<int>, entries: seq<Entry>, nextNode: int)

  /** The entry a new representation becomes; its timestamp is stored in UTC. */
  function NewEntry(store: Store, encoded: Encoded, timestamp: Option<Time>): Entry
    requires ParentsEarlier(encoded.nodes)
  {
    var id := NextId(store.entries);
    Entry(id, encoded.record.(timestamp := timestamp),
          Stored(encoded.nodes, IdsFrom(store.nextNode, |encoded.nodes|), id))
  }

  function Persisted(lib: Library, store: Store, message: Message, name: string, version: string)
    : (Result<Message, StoreError>, Store)
  {
    match EncodeMessage(lib, message, name, version)
    case Err(error) => (Err(Unencodable(error)), store)
    case Ok(encoded) =>
      var existing := FindVersion(store.entries, encoded.record);
      if existing.Some? then (DecodeEntry(lib, existing.value), store)
      else if StoredTime(message.timestamp).Err? then (Err(NaiveTime), store)
      else if encoded.record.sourceRawEventId !in store.receipts then (Err(MissingRawEvent), store)
      else
        EncodingHasEarlierParents(lib, OfSegments(message.segments));
        var entry := NewEntry(store, encoded, StoredTime(message.timestamp).value);
        // The record just added is decoded as it is in memory, its timestamp not yet converted.
        (DecodeEntry(lib, entry.(record := encoded.record)),
         store.(entries := store.entries + [entry], nextNode := store.nextNode + |encoded.nodes|))
  }

  // ----- what it promises -----

  lemma {:induction false} FindVersionFinds(entries: seq<Entry>, record: Record)
    ensures FindVersion(entries, record).None? ==> forall entry | entry in entries :: !SameVersion(entry, record)
    ensures FindVersion(entries, record).Some? ==>
              FindVersion(entries, record).value in entries && SameVersion(FindVersion(entries, record).value, record)
  {
    if entries != [] {
      FindVersionFinds(entries[1..], record);
      assert entries == [entries[0]] + entries[1..];
    }
  }

  lemma AddedKeepsTable(entries: seq<Entry>, entry: Entry)
    requires Table(entries) && entry.id == NextId(entries)
    requires forall other | other in entries :: !SameVersion(other, entry.record)
    ensures Table(entries + [entry])
  {
  }

  /** At most one entry per receipt and parser version, whatever is persisted. */
  lemma PersistKeepsTable(lib: Library, store: Store, message: Message, name: string, version: string)
    requires Table(store.entries)
    ensures Table(Persisted(lib, store, message, name, version).1.entries)
  {
    hide EncodeItems, DecodeEntry, EncodeMessage, Table, Stored;
    var encoded := EncodeMessage(lib, message, name, version);
    if encoded.Ok? {
      FindVersionFinds(store.entries, encoded.value.record);
      if Persisted(lib, store, message, name, version).1 != store {
        EncodingHasEarlierParents(lib, OfSegments(message.segments));
        var after := Persisted(lib, store, message, name, version).1;
        AddedKeepsTable(store.entries, after.entries[|store.entries|]);
      }
    }
  }

  lemma FreshIdsAreDistinct(first: int, count: nat)
    ensures |IdsFrom(first, count)| == count && NoDuplicates(IdsFrom(first, count))
  {
  }

  /** A first representation comes back as it went in, and is read back later with its timestamp
      in UTC. */
  lemma PersistReturnsTheMessage(lib: Library, store: Store, message: Message, name: string, version: string)
    requires lib.Lawful() && ItemsOrdered(OfSegments(message.segments), 0)
    requires EncodeMessage(lib, message, name, version).Ok? && StoredTime(message.timestamp).Ok?
    requires message.sourceRawEventId.value in store.receipts
    requires FindVersion(store.entries, RecordOf(message, name, version)).None?
    ensures var (result, after) := Persisted(lib, store, message, name, version);
            && result == Ok(message)
            && |after.entries| == |store.entries| + 1 && after.entries[..|store.entries|] == store.entries
            && DecodeEntry(lib, after.entries[|store.entries|])
               == Ok(message.(timestamp := StoredTime(message.timestamp).value))
  {
    hide EncodeItems, ItemsOrdered, DecodeMessage, Stored, NoDuplicates;
    var encoded := EncodeMessage(lib, message, name, version).value;
    var id, ids := NextId(store.entries), IdsFrom(store.nextNode, |encoded.nodes|);
    EncodingHasEarlierParents(lib, OfSegments(message.segments));
    FreshIdsAreDistinct(store.nextNode, |encoded.nodes|);
    var rows := Stored(encoded.nodes, ids, id);
    MessageRoundTrips(lib, message, name, version, encoded, StoredTime(message.timestamp).value, ids, id, rows);
    MessageRoundTrips(lib, message, name, version, encoded, message.timestamp, ids, id, rows);
  }

  /** Persisting any representation of the same receipt and parser version again, with any other
      calls in between, changes nothing and returns the stored one. */
  lemma PersistAgainReturnsTheStored(lib: Library, store: Store, entry: Entry, message: Message, name: string,
                                     version: string)
    requires Table(store.entries) && entry in store.entries
    requires EncodeMessage(lib, message, name, version).Ok? && SameVersion(entry, RecordOf(message, name, version))
    ensures Persisted(lib, store, message, name, version) == (DecodeEntry(lib, entry), store)
  {
    hide EncodeItems, DecodeEntry, DecodeMessage;
    var record := RecordOf(message, name, version);
    FindVersionFinds(store.entries, record);
    var found := FindVersion(store.entries, record).value;
    var i :| 0 <= i < |store.entries| && store.entries[i] == entry;
    var j :| 0 <= j < |store.entries| && store.entries[j] == found;
    assert SameVersion(entry, found.record) && SameVersion(found, entry.record);
    assert !(i < j) && !(j < i);
  }

  /** The entry stores this receipt as this parser version read it. */
  predicate StoresVersion(entry: Entry, receipt: int, name: string, version: string) {
    && entry.record.sourceRawEventId == receipt
    && entry.record.parserName == name && entry.record.parserVersion == version
  }

  /** Exactly how a call ends. A message without a receipt and an unnamed parser are refused; a stored
      version is returned as it is stored; a time without an offset and an unknown receipt are refused;
      anything else is stored and returned as it came. Only the last adds anything. */
  lemma PersistExactly(lib: Library, store: Store, message: Message, name: string, version: string)
    requires lib.Lawful() && Table(store.entries) && ItemsOrdered(OfSegments(message.segments), 0)
    ensures var (result, after) := Persisted(lib, store, message, name, version);
            if message.sourceRawEventId.None? then result == Err(Unencodable(MissingReceipt)) && after == store
            else if name == "" then result == Err(Unencodable(EmptyParserName)) && after == store
            else if version == "" then result == Err(Unencodable(EmptyParserVersion)) && after == store
            else
              var receipt := message.sourceRawEventId.value;
              if exists entry :: entry in store.entries && StoresVersion(entry, receipt, name, version) then
                && after == store
                && forall entry | entry in store.entries && StoresVersion(entry, receipt, name, version) ::
                     result == DecodeEntry(lib, entry)
              else if message.timestamp.Some? && message.timestamp.value.Naive? then
                result == Err(NaiveTime) && after == store
              else if receipt !in store.receipts then result == Err(MissingRawEvent) && after == store
              else
                && result == Ok(message) && after.receipts == store.receipts
                && |after.entries| == |store.entries| + 1 && after.entries[..|store.entries|] == store.entries
                && StoresVersion(after.entries[|store.entries|], receipt, name, version)
                && var stored := if message.timestamp.Some? then Some(Aware(message.timestamp.value.utc, 0)) else None;
                   DecodeEntry(lib, after.entries[|store.entries|]) == Ok(message.(timestamp := stored))
  {
    hide EncodeItems, ItemsOrdered, DecodeEntry, Stored, Table;
    if message.sourceRawEventId.Some? && name != "" && version != "" {
      var record := RecordOf(message, name, version);
      FindVersionFinds(store.entries, record);
      forall entry | entry in store.entries && StoresVersion(entry, message.sourceRawEventId.value, name, version)
        ensures Persisted(lib, store, message, name, version) == (DecodeEntry(lib, entry), store)
      {
        PersistAgainReturnsTheStored(lib, store, entry, message, name, version);
      }
      if FindVersion(store.entries, record).None? && StoredTime(message.timestamp).Ok?
         && message.sourceRawEventId.value in store.receipts {
        PersistReturnsTheMessage(lib, store, message, name, version);
      }
    }
  }

  /** Entries are never changed or removed by persisting. */
  lemma PersistOnlyAdds(lib: Library, store: Store, message: Message, name: string, version: string)
    ensures var after := Persisted(lib, store, message, name, version).1;
            |store.entries| <= |after.entries| && after.entries[..|store.entries|] == store.entries
  {
  }

  /** From a raw receipt to the database and back: what the parser builds is what the first
      persist returns. */
  lemma ParsedMessageIsPersisted(lib: Library, referenceKey: (Json, Json, bool) -> Json, maxDepth: nat, maxNodes: nat,
                                 event: Json, rawEventId: int, store: Store, name: string, version: string)
    requires lib.Lawful() && event.Obj? && name != "" && version != ""
    requires Parser.MessageOf(lib, referenceKey, maxDepth, maxNodes, event, Some(rawEventId)).Some?
    requires var message := Parser.MessageOf(lib, referenceKey, maxDepth, maxNodes, event, Some(rawEventId)).value;
             && rawEventId in store.receipts && StoredTime(message.timestamp).Ok?
             && forall entry | entry in store.entries ::
                  Receipt(entry) != rawEventId || entry.record.parserName != name
                  || entry.record.parserVersion != version
    ensures Persisted(lib, store, Parser.MessageOf(lib, referenceKey, maxDepth, maxNodes, event, Some(rawEventId)).value,
                      name, version).0
            == Ok(Parser.MessageOf(lib, referenceKey, maxDepth, maxNodes, event, Some(rawEventId)).value)
  {
    hide EncodeItems, ItemsOrdered, Parser.MessageOf, NumberedFrom, ParserAccounting.Placed, ParserAccounting.Charge,
         Persisted;
    var message := Parser.MessageOf(lib, referenceKey, maxDepth, maxNodes, event, Some(rawEventId)).value;
    var _ := ParserAccounting.ParsedMessageIsAccounted(lib, referenceKey, maxDepth, maxNodes, event, Some(rawEventId));
    NumberedSegmentsAreOrdered(message.segments, 0);
    FindVersionFinds(store.entries, RecordOf(message, name, version));
    PersistReturnsTheMessage(lib, store, message, name, version);
  }

  // ----- reading -----

  function DecodeAll(lib: Library, entries: seq<Entry>): Result<seq<Message>, StoreError> {
    if entries == [] then Ok([])
    else
      match DecodeEntry(lib, entries[0])
      case Err(error) => Err(error)
      case Ok(message) =>
        match DecodeAll(lib, entries[1..])
        case Err(error) => Err(error)
        case Ok(rest) => Ok([message] + rest)
  }

  lemma {:induction false} DecodeMore(lib: Library, entries: seq<Entry>, k: nat)
    requires k < |entries|
    ensures DecodeAll(lib, entries[..k + 1])
            == match DecodeAll(lib, entries[..k])
               case Err(error) => Err(error)
               case Ok(messages) =>
                 match DecodeEntry(lib, entries[k])
                 case Err(error) => Err(error)
                 case Ok(message) => Ok(messages + [message])
    decreases k
  {
    hide DecodeEntry;
    assert entries[..k + 1][0] == entries[0] && entries[..1][1..] == [] && entries[..0] == [];
    if k == 0 {
      if DecodeEntry(lib, entries[0]).Ok? {
        var only := DecodeEntry(lib, entries[0]).value;
        assert [only] + [] == [] + [only];
      }
    } else {
      assert entries[..k][0] == entries[0];
      DecodeMore(lib, entries[1..], k - 1);
      assert entries[..k + 1][1..] == entries[1..][..k] && entries[..k][1..] == entries[1..][..k - 1];
      if DecodeEntry(lib, entries[0]).Ok? && DecodeAll(lib, entries[1..][..k - 1]).Ok? && DecodeEntry(lib, entries[k]).Ok? {
        var first, middle, last := DecodeEntry(lib, entries[0]).value, DecodeAll(lib, entries[1..][..k - 1]).value,
          DecodeEntry(lib, entries[k]).value;
        assert [first] + (middle + [last]) == [first] + middle + [last];
      }
    }
  }

  lemma {:induction false} FirstErrorStops(lib: Library, entries: seq<Entry>, k: nat)
    requires k <= |entries| && DecodeAll(lib, entries[..k]).Err?
    ensures DecodeAll(lib, entries) == DecodeAll(lib, entries[..k])
  {
    hide DecodeEntry;
    assert k > 0 ==> entries[..k][0] == entries[0] && entries[..k][1..] == entries[1..][..k - 1];
    if k > 0 && DecodeEntry(lib, entries[0]).Ok? {
      FirstErrorStops(lib, entries[1..], k - 1);
    }
  }

  /** Either all entries decode, and the messages are theirs in order, or the first that does not is to
      blame. */
  lemma {:induction false} DecodeAllExactly(lib: Library, entries: seq<Entry>)
    ensures match DecodeAll(lib, entries)
            case Ok(messages) =>
              |messages| == |entries| && forall i | 0 <= i < |entries| :: DecodeEntry(lib, entries[i]) == Ok(messages[i])
            case Err(error) =>
              exists k | 0 <= k < |entries| ::
                DecodeEntry(lib, entries[k]) == Err(error) && forall i | 0 <= i < k :: DecodeEntry(lib, entries[i]).Ok?
  {
    hide DecodeEntry;
    if entries != [] {
      var rest := entries[1..];
      DecodeAllExactly(lib, rest);
      assert forall i | 0 < i < |entries| :: entries[i] == rest[i - 1];
      if DecodeEntry(lib, entries[0]).Err? {
        assert DecodeEntry(lib, entries[0]) == Err(DecodeEntry(lib, entries[0]).error);
      } else if DecodeAll(lib, rest).Err? {
        var k :| 0 <= k < |rest| && DecodeEntry(lib, rest[k]) == Err(DecodeAll(lib, rest).error)
                 && forall i | 0 <= i < k :: DecodeEntry(lib, rest[i]).Ok?;
        assert entries[k + 1] == rest[k];
        forall i | 0 <= i < k + 1
          ensures DecodeEntry(lib, entries[i]).Ok?
        {
          assert i > 0 ==> entries[i] == rest[i - 1];
        }
      }
    }
  }

  // ----- the repository -----

  class MessageRepository {
    const lib: Library
    var receipts: set<int>
    var entries: seq<Entry>
    var nextNode: int

    ghost function Value(): Store
      reads this
    {
      Store(receipts, entries, nextNode)
    }

    constructor (lib: Library, receipts: set<int>)
      ensures this.lib == lib && Value() == Store(receipts, [], 1)
    {
      this.lib, this.receipts := lib, receipts;
      entries, nextNode := [], 1;
    }

    method Persist(message: Message, parserName: string, parserVersion: string)
      returns (result: Result<Message, StoreError>)
      modifies this
      ensures (result, Value()) == Persisted(lib, old(Value()), message, parserName, parserVersion)
    {
      hide EncodeMessage, DecodeMessage, Stored;
      var encoded := MessageCodec.Encode(lib, message, parserName, parserVersion);
      if encoded.Err? {
        return Err(Unencodable(encoded.error));
      }
      var existing := FindRow(encoded.value.record);
      if existing.Some? {
        result := Decode(existing.value);
        return;
      }
      var timestamp := StoredTime(message.timestamp);
      if timestamp.Err? {
        return Err(NaiveTime);
      }
      if encoded.value.record.sourceRawEventId !in receipts {
        return Err(MissingRawEvent);
      }
      EncodedHasEarlierParents(lib, message, parserName, parserVersion);
      var id := if |entries| == 0 then 1 else entries[|entries| - 1].id + 1;
      var ids := IdsFrom(nextNode, |encoded.value.nodes|);
      var nodes := Stored(encoded.value.nodes, ids, id);
      entries := entries + [Entry(id, encoded.value.record.(timestamp := timestamp.value), nodes)];
      nextNode := nextNode + |encoded.value.nodes|;
      result := Decode(Entry(id, encoded.value.record, nodes));
    }

    method FindRow(record: Record) returns (found: Option<Entry>)
      ensures found == FindVersion(entries, record)
    {
      assert entries[0..] == entries;
      for k := 0 to |entries|
        invariant FindVersion(entries[k..], record) == FindVersion(entries, record)
      {
        assert entries[k..][0] == entries[k] && entries[k..][1..] == entries[k + 1..];
        if SameVersion(entries[k], record) {
          return Some(entries[k]);
        }
      }
      return None;
    }

    method Decode(entry: Entry) returns (message: Result<Message, StoreError>)
      ensures message == DecodeEntry(lib, entry)
    {
      hide DecodeMessage;
      var decoded := MessageCodec.Decode(lib, entry.record, entry.id, entry.nodes);
      message := match decoded case Ok(value) => Ok(value) case Err(error) => Err(Undecodable(error));
    }

    /** Both queries end here: the rows are decoded in order, and the first that cannot be decoded
        ends the call. */
    method DecodeRecords(rows: seq<Entry>) returns (messages: Result<seq<Message>, StoreError>)
      ensures messages == DecodeAll(lib, rows)
    {
      hide DecodeEntry;
      var decoded := [];
      for k := 0 to |rows|
        invariant DecodeAll(lib, rows[..k]) == Ok(decoded)
      {
        DecodeMore(lib, rows, k);
        var message := Decode(rows[k]);
        if message.Err? {
          FirstErrorStops(lib, rows, k + 1);
          return Err(message.error);
        }
        decoded := decoded + [message.value];
      }
      assert rows[..|rows|] == rows;
      messages := Ok(decoded);
    }

    method ListConversation(platform: string, groupId: string, start: int, end: int, limit: int, scope: ParserScope)
      returns (messages: Result<seq<Message>, StoreError>)
      ensures messages == DecodeAll(lib, Listed(entries, platform, groupId, start, end, limit, scope))
    {
      hide Listed;
      messages := DecodeRecords(Listed(entries, platform, groupId, start, end, limit, scope));
    }

    /** The statement returns the newest first; the list is reversed in place. */
    method ListConversationBefore(platform: string, groupId: string, start: int, time: int, receipt: Option<int>,
                                  limit: int)
      returns (messages: Result<seq<Message>, StoreError>)
      ensures messages == DecodeAll(lib, ListedBefore(entries, platform, groupId, start, time, receipt, limit))
    {
      hide Query;
      var records := Query(ParserScope(None, None), entries,
                           entry => IsBefore(entry, platform, groupId, start, time, receipt), Newest, limit);
      ghost var newest := records;
      ReversedAt(newest);
      var low, high := 0, |records|;
      while low + 1 < high
        invariant 0 <= low <= high && low + high == |newest| && |records| == |newest|
        invariant forall k | low <= k < high :: records[k] == newest[k]
        invariant forall k | 0 <= k < low :: records[k] == newest[|newest| - 1 - k]
        invariant forall k | high <= k < |records| :: records[k] == newest[|newest| - 1 - k]
      {
        high := high - 1;
        records := records[low := records[high]][high := records[low]];
        low := low + 1;
      }
      assert records == Reversed(newest);
      messages := DecodeRecords(records);
    }
  }

  lemma EncodedHasEarlierParents(lib: Library, message: Message, name: string, version: string)
    ensures EncodeMessage(lib, message, name, version).Ok? ==>
              ParentsEarlier(EncodeMessage(lib, message, name, version).value.nodes)
  {
    hide EncodeItems;
    EncodingHasEarlierParents(lib, OfSegments(message.segments));
  }
}
