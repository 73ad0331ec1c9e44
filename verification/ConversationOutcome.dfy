/** What the two conversation queries return, said in the columns of the stored entries. */
module ConversationOutcome {
  import opened Values
  import opened Sequences
  import opened Domain
  import opened MessageRows
  import opened Conversation

  // ----- columns -----

  predicate ByParser(scope: ParserScope, record: Record) {
    && (scope.name == None || scope.name == Some(record.parserName))
    && (scope.version == None || scope.version == Some(record.parserVersion))
  }

  /** No entry of the same receipt and parser scope was stored later. */
  ghost predicate IsNewestVersion(scope: ParserScope, entries: seq<Entry>, entry: Entry) {
    && entry in entries && ByParser(scope, entry.record)
    && forall other | other in entries && ByParser(scope, other.record)
                      && other.record.sourceRawEventId == entry.record.sourceRawEventId :: other.id <= entry.id
  }

  /** A time with an offset, at or after `start`, in this group. */
  predicate InGroupSince(record: Record, platform: string, groupId: string, start: int) {
    && record.platform == platform && record.context.groupId == Some(groupId)
    && record.timestamp.Some? && record.timestamp.value.Aware? && record.timestamp.value.utc >= start
  }

  function Utc(record: Record): int {
    if record.timestamp.Some? && record.timestamp.value.Aware? then record.timestamp.value.utc else 0
  }

  /** Two receipts of one message of a group; a message without an id is only its own receipt. */
  predicate OfOneMessage(a: Record, b: Record) {
    && a.platform == b.platform && a.context.groupId == b.context.groupId
    && a.platformMessageId == b.platformMessageId
    && (a.platformMessageId.Some? || a.sourceRawEventId == b.sourceRawEventId)
  }

  /** The newest version of its receipt, which passes, and no newer receipt of its message does. */
  ghost predicate IsShown(scope: ParserScope, entries: seq<Entry>, passes: Record -> bool, entry: Entry) {
    && IsNewestVersion(scope, entries, entry) && passes(entry.record)
    && forall other | IsNewestVersion(scope, entries, other) && passes(other.record)
                      && OfOneMessage(other.record, entry.record) ::
         other.record.sourceRawEventId <= entry.record.sourceRawEventId
  }

  lemma ShownIsSelected(scope: ParserScope, entries: seq<Entry>, passes: Record -> bool, keep: Entry -> bool, entry: Entry)
    requires forall e: Entry :: keep(e) <==> passes(e.record)
    ensures IsShown(scope, entries, passes, entry) <==> Selected(scope, entries, keep, entry)
  {
    forall e
      ensures IsNewestVersion(scope, entries, e) <==> Authoritative(scope, entries, e)
    {
    }
    hide Authoritative, IsNewestVersion;
    forall a: Entry, b: Entry
      ensures OfOneMessage(a.record, b.record) <==> SameMessage(a, b)
    {
    }
  }

  // ----- the window -----

  /** Between the two times. */
  function Within(platform: string, groupId: string, start: int, end: int): Record -> bool {
    (record: Record) => InGroupSince(record, platform, groupId, start) && Utc(record) < end
  }

  ghost predicate InTimeOrder(rows: seq<Entry>) {
    forall i, j | 0 <= i < j < |rows| ::
      || Utc(rows[i].record) < Utc(rows[j].record)
      || (Utc(rows[i].record) == Utc(rows[j].record) && rows[i].id < rows[j].id)
  }

  /** Without a limit `list_conversation` returns exactly the shown entries by time and id; with one, the
      first of them. */
  lemma ListedExactly(entries: seq<Entry>, platform: string, groupId: string, start: int, end: int, limit: int,
                      scope: ParserScope)
    requires Table(entries)
    ensures var all := Listed(entries, platform, groupId, start, end, -1, scope);
            && (forall entry :: entry in all <==> IsShown(scope, entries, Within(platform, groupId, start, end), entry))
            && InTimeOrder(all)
            && Listed(entries, platform, groupId, start, end, limit, scope)
               == if 0 <= limit < |all| then all[..limit] else all
  {
    hide Selected, IsShown, Table;
    var keep := (entry: Entry) => InWindow(entry, platform, groupId, start, end);
    var all := Listed(entries, platform, groupId, start, end, -1, scope);
    ListedIsTheFirst(entries, platform, groupId, start, end, -1, scope);
    forall entry
      ensures IsShown(scope, entries, Within(platform, groupId, start, end), entry) <==> Selected(scope, entries, keep, entry)
    {
      ShownIsSelected(scope, entries, Within(platform, groupId, start, end), keep, entry);
    }
    forall entry | entry in all
      ensures InGroupSince(entry.record, platform, groupId, start)
    {
      SelectedIsCandidate(scope, entries, keep, entry);
    }
    forall i, j | 0 <= i < j < |all|
      ensures Utc(all[i].record) < Utc(all[j].record) || (Utc(all[i].record) == Utc(all[j].record) && all[i].id < all[j].id)
    {
      assert Less(ByTime(all[i]), ByTime(all[j]));
    }
  }

  // ----- before a trigger -----

  /** Before the trigger's time, or at it from an earlier receipt. */
  function Preceding(platform: string, groupId: string, start: int, time: int, receipt: Option<int>): Record -> bool {
    (record: Record) =>
      && InGroupSince(record, platform, groupId, start)
      && (Utc(record) < time || (Utc(record) == time && receipt.Some? && record.sourceRawEventId < receipt.value))
  }

  ghost predicate InReceiptOrder(rows: seq<Entry>) {
    forall i, j | 0 <= i < j < |rows| ::
      || Utc(rows[i].record) < Utc(rows[j].record)
      || (Utc(rows[i].record) == Utc(rows[j].record)
          && (|| rows[i].record.sourceRawEventId < rows[j].record.sourceRawEventId
              || (rows[i].record.sourceRawEventId == rows[j].record.sourceRawEventId && rows[i].id < rows[j].id)))
  }

  /** Without a limit `list_conversation_before` returns exactly the shown entries that precede the trigger,
      by time, receipt and id; with one, the last of them. */
  lemma ListedBeforeExactlyBy(entries: seq<Entry>, platform: string, groupId: string, start: int, time: int,
                              receipt: Option<int>, limit: int)
    requires Table(entries)
    ensures var all := ListedBefore(entries, platform, groupId, start, time, receipt, -1);
            && (forall entry :: entry in all
                  <==> IsShown(EVERY_PARSER, entries, Preceding(platform, groupId, start, time, receipt), entry))
            && InReceiptOrder(all)
            && ListedBefore(entries, platform, groupId, start, time, receipt, limit)
               == if 0 <= limit < |all| then all[|all| - limit..] else all
  {
    hide Selected, IsShown, Table, SortBy, Window, Rank, Filter;
    var keep := (entry: Entry) => IsBefore(entry, platform, groupId, start, time, receipt);
    var all := ListedBefore(entries, platform, groupId, start, time, receipt, -1);
    ListedBeforeIsTheNewest(entries, platform, groupId, start, time, receipt, -1);
    forall entry
      ensures IsShown(EVERY_PARSER, entries, Preceding(platform, groupId, start, time, receipt), entry)
              <==> Selected(EVERY_PARSER, entries, keep, entry)
    {
      ShownIsSelected(EVERY_PARSER, entries, Preceding(platform, groupId, start, time, receipt), keep, entry);
    }
    forall i, j | 0 <= i < j < |all|
      ensures Less(ByReceipt(all[i]), ByReceipt(all[j]))
    {
    }
    LimitedReversed(Query(EVERY_PARSER, entries, keep, Newest, -1), limit);
  }

  lemma LimitedReversed(rows: seq<Entry>, limit: int)
    ensures |Reversed(rows)| == |rows|
    ensures Reversed(Limited(rows, limit)) == if 0 <= limit < |rows| then Reversed(rows)[|rows| - limit..] else Reversed(rows)
  {
    ReversedAt(rows);
    if 0 <= limit < |rows| {
      ReversedAt(rows[..limit]);
    }
  }
}
