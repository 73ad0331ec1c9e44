/** The conversation queries over the stored messages: joins, ranks, orders and limits as the
    statements compute them, and what the rows they return are. */
module Conversation {
  import opened Values
  import opened Sequences
  import opened Domain
  import opened MessageRows

  /** One stored representation of a receipt, with its node rows. */
  datatype Entry = Entry(id: nat, record: Record, nodes: seq<Row>)

  ghost predicate Table(entries: seq<Entry>) {
    && (forall i, j | 0 <= i < j < |entries| :: entries[i].id < entries[j].id)
    && (forall i, j | 0 <= i < j < |entries| :: !SameVersion(entries[i], entries[j].record))
  }

  predicate SameVersion(entry: Entry, record: Record) {
    && entry.record.sourceRawEventId == record.sourceRawEventId
    && entry.record.parserName == record.parserName && entry.record.parserVersion == record.parserVersion
  }

  function Receipt(entry: Entry): int {
    entry.record.sourceRawEventId
  }

  /** The stored instant; naive datetimes cannot be stored. */
  function Instant(entry: Entry): Option<int> {
    match entry.record.timestamp
    case Some(Aware(utc, _)) => Some(utc)
    case _ => None
  }

  // ----- the statements -----

  /** The parser scope: an absent name or version does not restrict. */
  datatype ParserScope = ParserScope(name: Option<string>, version: Option<string>)

  predicate InScope(scope: ParserScope, entry: Entry) {
    && (scope.name.Some? ==> entry.record.parserName == scope.name.value)
    && (scope.version.Some? ==> entry.record.parserVersion == scope.version.value)
  }

  /** The greatest id of every receipt, among the entries in scope. */
  function LatestIds(scope: ParserScope, entries: seq<Entry>): map<int, nat> {
    if entries == [] then map[]
    else
      var earlier, last := LatestIds(scope, entries[..|entries| - 1]), entries[|entries| - 1];
      if !InScope(scope, last) then earlier
      else if Receipt(last) in earlier && earlier[Receipt(last)] >= last.id then earlier
      else earlier[Receipt(last) := last.id]
  }

  predicate IsLatest(latest: map<int, nat>, id: nat) {
    exists receipt | receipt in latest :: latest[receipt] == id
  }

  /** The join with the greatest ids, and the conversation filters. */
  function Window(scope: ParserScope, entries: seq<Entry>, keep: Entry -> bool): seq<Entry> {
    var latest := LatestIds(scope, entries);
    Filter(entries, (entry: Entry) => IsLatest(latest, entry.id) && keep(entry))
  }

  /** Two receipts of one platform message; without a message id every receipt is its own. */
  predicate SameMessage(a: Entry, b: Entry) {
    && a.record.platform == b.record.platform && a.record.context.groupId == b.record.context.groupId
    && a.record.platformMessageId == b.record.platformMessageId
    && (a.record.platformMessageId.None? ==> Receipt(a) == Receipt(b))
  }

  predicate RankedAbove(a: Entry, b: Entry) {
    Receipt(a) > Receipt(b) || (Receipt(a) == Receipt(b) && a.id > b.id)
  }

  /** `row_number()` over the partition of the entry. */
  function Rank(rows: seq<Entry>, entry: Entry): nat {
    if rows == [] then 1
    else (if SameMessage(rows[0], entry) && RankedAbove(rows[0], entry) then 1 else 0) + Rank(rows[1..], entry)
  }

  type Order = Entry -> (int, int, int)

  predicate Less(a: (int, int, int), b: (int, int, int)) {
    a.0 < b.0 || (a.0 == b.0 && (a.1 < b.1 || (a.1 == b.1 && a.2 < b.2)))
  }

  function Insert(sorted: seq<Entry>, entry: Entry, order: Order): seq<Entry> {
    if sorted == [] || !Less(order(sorted[0]), order(entry)) then [entry] + sorted
    else [sorted[0]] + Insert(sorted[1..], entry, order)
  }

  function SortBy(rows: seq<Entry>, order: Order): seq<Entry> {
    if rows == [] then [] else Insert(SortBy(rows[1..], order), rows[0], order)
  }

  /** A negative limit is none. */
  function Limited(rows: seq<Entry>, limit: int): seq<Entry> {
    if limit < 0 || |rows| <= limit then rows else rows[..limit]
  }

  function Query(scope: ParserScope, entries: seq<Entry>, keep: Entry -> bool, order: Order, limit: int): seq<Entry> {
    var rows := Window(scope, entries, keep);
    Limited(SortBy(Filter(rows, entry => Rank(rows, entry) == 1), order), limit)
  }

  // ----- the two queries -----

  predicate InConversation(entry: Entry, platform: string, groupId: string, start: int) {
    && entry.record.platform == platform && entry.record.context.groupId == Some(groupId)
    && Instant(entry).Some? && Instant(entry).value >= start
  }

  predicate InWindow(entry: Entry, platform: string, groupId: string, start: int, end: int) {
    InConversation(entry, platform, groupId, start) && Instant(entry).value < end
  }

  predicate IsBefore(entry: Entry, platform: string, groupId: string, start: int, time: int, receipt: Option<int>) {
    && InConversation(entry, platform, groupId, start)
    && (Instant(entry).value < time
        || (receipt.Some? && Instant(entry).value == time && Receipt(entry) < receipt.value))
  }

  function At(entry: Entry): int {
    if Instant(entry).Some? then Instant(entry).value else 0
  }

  /** Ascending time, then id. */
  function ByTime(entry: Entry): (int, int, int) {
    (At(entry), entry.id, 0)
  }

  /** Ascending time, then receipt, then id. */
  function ByReceipt(entry: Entry): (int, int, int) {
    (At(entry), Receipt(entry), entry.id)
  }

  function Newest(entry: Entry): (int, int, int) {
    (-At(entry), -Receipt(entry), -(entry.id as int))
  }

  function Reversed(rows: seq<Entry>): seq<Entry> {
    if rows == [] then [] else Reversed(rows[1..]) + [rows[0]]
  }

  function Listed(entries: seq<Entry>, platform: string, groupId: string, start: int, end: int, limit: int,
                  scope: ParserScope): seq<Entry>
  {
    Query(scope, entries, entry => InWindow(entry, platform, groupId, start, end), ByTime, limit)
  }

  function ListedBefore(entries: seq<Entry>, platform: string, groupId: string, start: int, time: int,
                        receipt: Option<int>, limit: int): seq<Entry>
  {
    Reversed(Query(ParserScope(None, None), entries,
                   entry => IsBefore(entry, platform, groupId, start, time, receipt), Newest, limit))
  }

  // ----- what they mean -----

  /** The newest representation of its receipt within the scope. */
  ghost predicate Authoritative(scope: ParserScope, entries: seq<Entry>, entry: Entry) {
    && entry in entries && InScope(scope, entry)
    && forall other | other in entries && InScope(scope, other) && Receipt(other) == Receipt(entry) ::
         other.id <= entry.id
  }

  ghost predicate Candidate(scope: ParserScope, entries: seq<Entry>, keep: Entry -> bool, entry: Entry) {
    Authoritative(scope, entries, entry) && keep(entry)
  }

  /** The newest candidate receipt of its logical message. */
  ghost predicate Selected(scope: ParserScope, entries: seq<Entry>, keep: Entry -> bool, entry: Entry) {
    && Candidate(scope, entries, keep, entry)
    && forall other | Candidate(scope, entries, keep, other) && SameMessage(other, entry) ::
         Receipt(other) <= Receipt(entry)
  }

  ghost predicate Ascending(rows: seq<Entry>, order: Order) {
    forall i, j | 0 <= i < j < |rows| :: Less(order(rows[i]), order(rows[j]))
  }

  /** The rows are the first `limit` selected entries in this order. */
  ghost predicate AreTheFirst(scope: ParserScope, entries: seq<Entry>, keep: Entry -> bool, order: Order, limit: int,
                              rows: seq<Entry>)
  {
    && Ascending(rows, order) && (limit >= 0 ==> |rows| <= limit)
    && (forall entry | entry in rows :: Selected(scope, entries, keep, entry))
    && (forall entry | Selected(scope, entries, keep, entry) && entry !in rows ::
          |rows| == limit && forall i | 0 <= i < |rows| :: Less(order(rows[i]), order(entry)))
  }

  /** No two entries of the table have the same place in the order. */
  ghost predicate Total(entries: seq<Entry>, order: Order) {
    forall i, j | 0 <= i < j < |entries| :: order(entries[i]) != order(entries[j])
  }

  // ----- the greatest ids -----

  lemma {:induction false} LatestIsGreatest(scope: ParserScope, entries: seq<Entry>)
    requires forall i, j | 0 <= i < j < |entries| :: entries[i].id < entries[j].id
    ensures forall receipt | receipt in LatestIds(scope, entries) ::
              exists entry :: Authoritative(scope, entries, entry) && Receipt(entry) == receipt
                              && LatestIds(scope, entries)[receipt] == entry.id
    ensures forall entry | entry in entries && InScope(scope, entry) :: Receipt(entry) in LatestIds(scope, entries)
  {
    if entries != [] {
      var earlier, last := entries[..|entries| - 1], entries[|entries| - 1];
      assert entries == earlier + [last];
      LatestIsGreatest(scope, earlier);
      forall receipt | receipt in LatestIds(scope, entries)
        ensures exists entry :: Authoritative(scope, entries, entry) && Receipt(entry) == receipt
                                && LatestIds(scope, entries)[receipt] == entry.id
      {
        LatestWithLast(scope, earlier, last, receipt);
      }
    }
  }

  lemma LatestWithLast(scope: ParserScope, earlier: seq<Entry>, last: Entry, receipt: int)
    requires forall entry | entry in earlier :: entry.id < last.id
    requires receipt in LatestIds(scope, earlier + [last])
    requires receipt in LatestIds(scope, earlier) ==>
               exists entry :: Authoritative(scope, earlier, entry) && Receipt(entry) == receipt
                               && LatestIds(scope, earlier)[receipt] == entry.id
    requires forall entry | entry in earlier && InScope(scope, entry) :: Receipt(entry) in LatestIds(scope, earlier)
    ensures exists entry :: Authoritative(scope, earlier + [last], entry) && Receipt(entry) == receipt
                            && LatestIds(scope, earlier + [last])[receipt] == entry.id
  {
  }

  lemma SameIdSameEntry(entries: seq<Entry>, a: Entry, b: Entry)
    requires forall i, j | 0 <= i < j < |entries| :: entries[i].id < entries[j].id
    requires a in entries && b in entries && a.id == b.id
    ensures a == b
  {
  }

  /** The join keeps exactly the authoritative entries. */
  lemma JoinIsAuthoritative(scope: ParserScope, entries: seq<Entry>, entry: Entry)
    requires Table(entries) && entry in entries
    ensures IsLatest(LatestIds(scope, entries), entry.id) <==> Authoritative(scope, entries, entry)
  {
    hide LatestIds;
    LatestIsGreatest(scope, entries);
    var latest := LatestIds(scope, entries);
    if IsLatest(latest, entry.id) {
      var receipt :| receipt in latest && latest[receipt] == entry.id;
      var newest :| Authoritative(scope, entries, newest) && Receipt(newest) == receipt && latest[receipt] == newest.id;
      SameIdSameEntry(entries, entry, newest);
    }
    if Authoritative(scope, entries, entry) {
      var newest :| Authoritative(scope, entries, newest) && Receipt(newest) == Receipt(entry)
                    && latest[Receipt(entry)] == newest.id;
      assert newest.id == entry.id;
      assert Receipt(entry) in latest.Keys;
    }
  }

  // ----- filters, ranks and sorting -----

  lemma {:induction false} FilterTotal(entries: seq<Entry>, keep: Entry -> bool, order: Order)
    requires Total(entries, order)
    ensures Total(Filter(entries, keep), order)
  {
    if entries != [] {
      FilterTotal(entries[1..], keep, order);
      FilterMembers(entries[1..], keep);
      forall entry | entry in Filter(entries[1..], keep)
        ensures order(entry) != order(entries[0])
      {
        var j :| 0 <= j < |entries[1..]| && entries[1..][j] == entry;
        assert entries[j + 1] == entry;
      }
    }
  }

  lemma {:induction false} RankIsOne(rows: seq<Entry>, entry: Entry)
    ensures Rank(rows, entry) >= 1
    ensures Rank(rows, entry) == 1 <==> forall other | other in rows && SameMessage(other, entry) ::
                                          !RankedAbove(other, entry)
  {
    if rows != [] {
      RankIsOne(rows[1..], entry);
      assert rows == [rows[0]] + rows[1..];
    }
  }

  lemma {:induction false} InsertKeeps(sorted: seq<Entry>, entry: Entry, order: Order)
    requires Ascending(sorted, order) && forall other | other in sorted :: order(other) != order(entry)
    ensures Ascending(Insert(sorted, entry, order), order)
    ensures forall other :: other in Insert(sorted, entry, order) <==> other in sorted || other == entry
  {
    if sorted != [] {
      assert sorted == [sorted[0]] + sorted[1..];
      if Less(order(sorted[0]), order(entry)) {
        InsertKeeps(sorted[1..], entry, order);
        var rest := Insert(sorted[1..], entry, order);
        forall k | 0 <= k < |rest|
          ensures Less(order(sorted[0]), order(rest[k]))
        {
          assert rest[k] in rest;
          if rest[k] != entry {
            var m :| 0 <= m < |sorted[1..]| && sorted[1..][m] == rest[k];
            assert sorted[m + 1] == rest[k];
          }
        }
      }
    }
  }

  lemma {:induction false} SortByKeeps(rows: seq<Entry>, order: Order)
    requires Total(rows, order)
    ensures Ascending(SortBy(rows, order), order)
    ensures forall entry :: entry in SortBy(rows, order) <==> entry in rows
  {
    if rows != [] {
      SortByKeeps(rows[1..], order);
      assert rows == [rows[0]] + rows[1..];
      forall other | other in rows[1..]
        ensures order(other) != order(rows[0])
      {
        var j :| 0 <= j < |rows[1..]| && rows[1..][j] == other;
        assert rows[j + 1] == other;
      }
      InsertKeeps(SortBy(rows[1..], order), rows[0], order);
    }
  }

  // ----- the theorem about every query -----

  lemma WindowIsCandidates(scope: ParserScope, entries: seq<Entry>, keep: Entry -> bool)
    requires Table(entries)
    ensures forall entry :: entry in Window(scope, entries, keep) <==> Candidate(scope, entries, keep, entry)
  {
    hide LatestIds;
    var latest := LatestIds(scope, entries);
    FilterMembers(entries, (entry: Entry) => IsLatest(latest, entry.id) && keep(entry));
    forall entry | entry in entries
      ensures IsLatest(latest, entry.id) <==> Authoritative(scope, entries, entry)
    {
      JoinIsAuthoritative(scope, entries, entry);
    }
  }

  lemma RankedIsSelected(scope: ParserScope, entries: seq<Entry>, keep: Entry -> bool, entry: Entry)
    requires Table(entries) && Candidate(scope, entries, keep, entry)
    ensures Rank(Window(scope, entries, keep), entry) == 1 <==> Selected(scope, entries, keep, entry)
  {
    hide Window, Authoritative;
    WindowIsCandidates(scope, entries, keep);
    var rows := Window(scope, entries, keep);
    RankIsOne(rows, entry);
    forall other | Candidate(scope, entries, keep, other) && Receipt(other) == Receipt(entry)
      ensures other.id <= entry.id
    {
      OneVersionEach(scope, entries, entry, other);
    }
  }

  lemma OneVersionEach(scope: ParserScope, entries: seq<Entry>, a: Entry, b: Entry)
    requires Authoritative(scope, entries, a) && Authoritative(scope, entries, b) && Receipt(a) == Receipt(b)
    ensures a.id == b.id
  {
  }

  /** Every query returns exactly the first `limit` selected entries in its order. */
  lemma QueryIsTheFirst(scope: ParserScope, entries: seq<Entry>, keep: Entry -> bool, order: Order, limit: int)
    requires Table(entries) && Total(entries, order)
    ensures AreTheFirst(scope, entries, keep, order, limit, Query(scope, entries, keep, order, limit))
  {
    hide Rank, Selected, Authoritative, Table;
    var rows := Window(scope, entries, keep);
    var ranked := Filter(rows, entry => Rank(rows, entry) == 1);
    var latest := LatestIds(scope, entries);
    WindowIsCandidates(scope, entries, keep);
    FilterMembers(rows, entry => Rank(rows, entry) == 1);
    FilterTotal(entries, (entry: Entry) => IsLatest(latest, entry.id) && keep(entry), order);
    FilterTotal(rows, entry => Rank(rows, entry) == 1, order);
    SortByKeeps(ranked, order);
    forall entry
      ensures entry in ranked <==> Selected(scope, entries, keep, entry)
    {
      SelectedIsCandidate(scope, entries, keep, entry);
      if Candidate(scope, entries, keep, entry) {
        RankedIsSelected(scope, entries, keep, entry);
      }
    }
    FirstOfSorted(scope, entries, keep, order, limit, SortBy(ranked, order));
  }

  lemma SelectedIsCandidate(scope: ParserScope, entries: seq<Entry>, keep: Entry -> bool, entry: Entry)
    ensures Selected(scope, entries, keep, entry) ==> Candidate(scope, entries, keep, entry)
  {
  }

  lemma FirstOfSorted(scope: ParserScope, entries: seq<Entry>, keep: Entry -> bool, order: Order, limit: int,
                      sorted: seq<Entry>)
    requires Ascending(sorted, order)
    requires forall entry :: entry in sorted <==> Selected(scope, entries, keep, entry)
    ensures AreTheFirst(scope, entries, keep, order, limit, Limited(sorted, limit))
  {
  }

  /** There is only one such answer. */
  lemma {:induction false} TheFirstAreUnique(scope: ParserScope, entries: seq<Entry>, keep: Entry -> bool,
                                             order: Order, limit: int, a: seq<Entry>, b: seq<Entry>)
    requires AreTheFirst(scope, entries, keep, order, limit, a) && AreTheFirst(scope, entries, keep, order, limit, b)
    ensures a == b
  {
    hide Selected;
    forall k | 0 <= k < |a| && k < |b|
      ensures a[k] == b[k]
    {
      SameAt(scope, entries, keep, order, limit, a, b, k);
    }
    NoMore(scope, entries, keep, order, limit, a, b);
    NoMore(scope, entries, keep, order, limit, b, a);
  }

  lemma {:induction false} SameAt(scope: ParserScope, entries: seq<Entry>, keep: Entry -> bool, order: Order,
                                  limit: int, a: seq<Entry>, b: seq<Entry>, k: nat)
    requires AreTheFirst(scope, entries, keep, order, limit, a) && AreTheFirst(scope, entries, keep, order, limit, b)
    requires k < |a| && k < |b|
    ensures a[..k + 1] == b[..k + 1]
  {
    hide Selected;
    if k > 0 {
      SameAt(scope, entries, keep, order, limit, a, b, k - 1);
    }
    NotLess(scope, entries, keep, order, limit, a, b, k);
    NotLess(scope, entries, keep, order, limit, b, a, k);
    NotBoth(scope, entries, keep, order, limit, a, b, k);
  }

  /** With equal prefixes, the next of one cannot come before the next of the other. */
  lemma NotLess(scope: ParserScope, entries: seq<Entry>, keep: Entry -> bool, order: Order, limit: int,
                a: seq<Entry>, b: seq<Entry>, k: nat)
    requires AreTheFirst(scope, entries, keep, order, limit, a) && AreTheFirst(scope, entries, keep, order, limit, b)
    requires k < |a| && k < |b| && a[..k] == b[..k]
    ensures !Less(order(a[k]), order(b[k]))
  {
  }

  lemma NotBoth(scope: ParserScope, entries: seq<Entry>, keep: Entry -> bool, order: Order, limit: int,
                a: seq<Entry>, b: seq<Entry>, k: nat)
    requires AreTheFirst(scope, entries, keep, order, limit, a) && AreTheFirst(scope, entries, keep, order, limit, b)
    requires k < |a| && k < |b| && a[..k] == b[..k]
    requires !Less(order(a[k]), order(b[k])) && !Less(order(b[k]), order(a[k]))
    ensures a[..k + 1] == b[..k + 1]
  {
  }

  /** With equal prefixes, neither is longer. */
  lemma NoMore(scope: ParserScope, entries: seq<Entry>, keep: Entry -> bool, order: Order, limit: int,
               a: seq<Entry>, b: seq<Entry>)
    requires AreTheFirst(scope, entries, keep, order, limit, a) && AreTheFirst(scope, entries, keep, order, limit, b)
    requires forall k | 0 <= k < |a| && k < |b| :: a[k] == b[k]
    ensures |b| <= |a|
  {
    hide Selected;
    if b != [] {
      var last := |b| - 1;
      assert b[last] in b && forall k | 0 <= k < last :: b[k] != b[last];
      assert b[last] in a ==> last < |a|;
    }
  }

  // ----- the two queries -----

  lemma {:induction false} ReversedAt(rows: seq<Entry>)
    ensures |Reversed(rows)| == |rows|
    ensures forall k | 0 <= k < |rows| :: Reversed(rows)[k] == rows[|rows| - 1 - k]
  {
    if rows != [] {
      ReversedAt(rows[1..]);
    }
  }

  lemma {:induction false} ReversedMembers(rows: seq<Entry>)
    ensures forall entry :: entry in Reversed(rows) <==> entry in rows
  {
    if rows != [] {
      ReversedMembers(rows[1..]);
      assert rows == [rows[0]] + rows[1..];
    }
  }

  lemma OrdersAreTotal(entries: seq<Entry>)
    requires Table(entries)
    ensures Total(entries, ByTime) && Total(entries, Newest) && Total(entries, ByReceipt)
  {
  }

  /** `list_conversation` returns exactly the first `limit` selected entries, by time and id. */
  lemma ListedIsTheFirst(entries: seq<Entry>, platform: string, groupId: string, start: int, end: int, limit: int,
                         scope: ParserScope)
    requires Table(entries)
    ensures AreTheFirst(scope, entries, entry => InWindow(entry, platform, groupId, start, end), ByTime, limit,
                        Listed(entries, platform, groupId, start, end, limit, scope))
  {
    hide Query, AreTheFirst;
    OrdersAreTotal(entries);
    QueryIsTheFirst(scope, entries, entry => InWindow(entry, platform, groupId, start, end), ByTime, limit);
  }

  /** The rows are the last `limit` selected entries before the trigger, oldest first. */
  ghost predicate AreTheNewest(entries: seq<Entry>, keep: Entry -> bool, limit: int, rows: seq<Entry>) {
    var scope := ParserScope(None, None);
    && Ascending(rows, ByReceipt) && (limit >= 0 ==> |rows| <= limit)
    && (forall entry | entry in rows :: Selected(scope, entries, keep, entry))
    && (forall entry | Selected(scope, entries, keep, entry) && entry !in rows ::
          |rows| == limit && forall i | 0 <= i < |rows| :: Less(ByReceipt(entry), ByReceipt(rows[i])))
  }

  /** `list_conversation_before` returns the newest `limit` selected entries in ascending order. */
  lemma ListedBeforeIsTheNewest(entries: seq<Entry>, platform: string, groupId: string, start: int, time: int,
                                receipt: Option<int>, limit: int)
    requires Table(entries)
    ensures AreTheNewest(entries, entry => IsBefore(entry, platform, groupId, start, time, receipt), limit,
                         ListedBefore(entries, platform, groupId, start, time, receipt, limit))
  {
    hide Query, Selected;
    var scope := ParserScope(None, None);
    var keep := entry => IsBefore(entry, platform, groupId, start, time, receipt);
    OrdersAreTotal(entries);
    QueryIsTheFirst(scope, entries, keep, Newest, limit);
    var newest := Query(scope, entries, keep, Newest, limit);
    ReversedAt(newest);
    ReversedMembers(newest);
    var rows := Reversed(newest);
    forall i, j | 0 <= i < j < |rows|
      ensures Less(ByReceipt(rows[i]), ByReceipt(rows[j]))
    {
      assert Less(Newest(newest[|rows| - 1 - j]), Newest(newest[|rows| - 1 - i]));
    }
    forall entry | Selected(scope, entries, keep, entry) && entry !in rows
      ensures |rows| == limit && forall i | 0 <= i < |rows| :: Less(ByReceipt(entry), ByReceipt(rows[i]))
    {
      forall i | 0 <= i < |rows|
        ensures Less(ByReceipt(entry), ByReceipt(rows[i]))
      {
        assert Less(Newest(newest[|rows| - 1 - i]), Newest(entry));
      }
    }
  }

  // ----- the trigger itself -----

  /** The statement's filter for a trigger. */
  function BeforeTrigger(platform: string, groupId: string, start: int, time: int, trigger: Entry): Entry -> bool {
    entry => IsBefore(entry, platform, groupId, start, time, Some(Receipt(trigger)))
  }

  const EVERY_PARSER := ParserScope(None, None)

  /** The selected entries that come after this one. */
  ghost function Newer(entries: seq<Entry>, keep: Entry -> bool, entry: Entry): set<Entry> {
    set other | other in entries && Selected(EVERY_PARSER, entries, keep, other)
                && Less(ByReceipt(entry), ByReceipt(other))
  }

  /** The entry is selected, and fewer than `limit` selected ones come after it. */
  ghost predicate WithinLimit(entries: seq<Entry>, keep: Entry -> bool, limit: int, entry: Entry) {
    Selected(EVERY_PARSER, entries, keep, entry) && (limit < 0 || |Newer(entries, keep, entry)| < limit)
  }

  lemma ListedHasFewNewer(entries: seq<Entry>, keep: Entry -> bool, limit: int, rows: seq<Entry>, entry: Entry)
    requires AreTheNewest(entries, keep, limit, rows) && entry in rows
    ensures WithinLimit(entries, keep, limit, entry)
  {
    hide Selected;
    var k :| 0 <= k < |rows| && rows[k] == entry;
    forall other | other in Newer(entries, keep, entry)
      ensures other in rows[k + 1..]
    {
      assert other in rows;
      var j :| 0 <= j < |rows| && rows[j] == other;
      assert k < j;
      assert rows[k + 1..][j - k - 1] == other;
    }
    SetOfSeq(rows[k + 1..], Newer(entries, keep, entry));
  }

  lemma FewNewerIsListed(entries: seq<Entry>, keep: Entry -> bool, limit: int, rows: seq<Entry>, entry: Entry)
    requires AreTheNewest(entries, keep, limit, rows) && WithinLimit(entries, keep, limit, entry)
    ensures entry in rows
  {
    hide Selected;
    if entry !in rows {
      forall other | other in rows
        ensures other in Newer(entries, keep, entry)
      {
        SelectedIsCandidate(EVERY_PARSER, entries, keep, other);
        var i :| 0 <= i < |rows| && rows[i] == other;
        assert Less(ByReceipt(entry), ByReceipt(rows[i]));
      }
      assert NoDuplicates(rows) by {
        assert forall i, j | 0 <= i < j < |rows| :: Less(ByReceipt(rows[i]), ByReceipt(rows[j]));
      }
      NoDuplicatesSize(rows, Newer(entries, keep, entry));
    }
  }

  /** Exactly which entries `list_conversation_before` returns, one by one and for every limit. */
  lemma ListedBeforeExactly(entries: seq<Entry>, platform: string, groupId: string, start: int, time: int,
                            trigger: Entry, limit: int, entry: Entry)
    requires Table(entries)
    ensures entry in ListedBefore(entries, platform, groupId, start, time, Some(Receipt(trigger)), limit)
            <==> WithinLimit(entries, BeforeTrigger(platform, groupId, start, time, trigger), limit, entry)
  {
    hide ListedBefore, AreTheNewest, WithinLimit, Table;
    var rows := ListedBefore(entries, platform, groupId, start, time, Some(Receipt(trigger)), limit);
    var keep := BeforeTrigger(platform, groupId, start, time, trigger);
    ListedBeforeIsTheNewest(entries, platform, groupId, start, time, Some(Receipt(trigger)), limit);
    if entry in rows {
      ListedHasFewNewer(entries, keep, limit, rows, entry);
    }
    if WithinLimit(entries, keep, limit, entry) {
      FewNewerIsListed(entries, keep, limit, rows, entry);
    }
  }

  /** The receipt of the trigger's newest representation is returned if and only if that lies in
      the group, strictly before the trigger's time, no candidate receipt of the same message is
      newer, and the limit reaches it. */
  lemma TriggerReceiptIsListedExactly(entries: seq<Entry>, platform: string, groupId: string, start: int, time: int,
                                      trigger: Entry, limit: int)
    requires Table(entries) && Authoritative(EVERY_PARSER, entries, trigger)
    ensures var keep := BeforeTrigger(platform, groupId, start, time, trigger);
            (exists entry :: entry in ListedBefore(entries, platform, groupId, start, time, Some(Receipt(trigger)), limit)
                             && Receipt(entry) == Receipt(trigger))
            <==> && InConversation(trigger, platform, groupId, start) && Instant(trigger).value < time
                 && (forall other | Candidate(EVERY_PARSER, entries, keep, other) && SameMessage(other, trigger) ::
                       Receipt(other) <= Receipt(trigger))
                 && (limit < 0 || |Newer(entries, keep, trigger)| < limit)
  {
    hide ListedBefore, Authoritative, Table, Newer;
    var keep := BeforeTrigger(platform, groupId, start, time, trigger);
    var rows := ListedBefore(entries, platform, groupId, start, time, Some(Receipt(trigger)), limit);
    ListedBeforeExactly(entries, platform, groupId, start, time, trigger, limit, trigger);
    if entry :| entry in rows && Receipt(entry) == Receipt(trigger) {
      ListedBeforeExactly(entries, platform, groupId, start, time, trigger, limit, entry);
      OneVersionEach(EVERY_PARSER, entries, entry, trigger);
      AuthoritativeIsThere(EVERY_PARSER, entries, entry);
      AuthoritativeIsThere(EVERY_PARSER, entries, trigger);
      TableIds(entries);
      SameIdSameEntry(entries, entry, trigger);
    }
  }

  lemma TableIds(entries: seq<Entry>)
    requires Table(entries)
    ensures forall i, j | 0 <= i < j < |entries| :: entries[i].id < entries[j].id
  {
  }

  lemma AuthoritativeIsThere(scope: ParserScope, entries: seq<Entry>, entry: Entry)
    requires Authoritative(scope, entries, entry)
    ensures entry in entries
  {
  }

  /** Some returned entry is a receipt of the trigger's message. */
  ghost predicate RepeatsTrigger(entries: seq<Entry>, platform: string, groupId: string, start: int, time: int,
                                 trigger: Entry, limit: int)
  {
    exists entry :: SameMessage(entry, trigger) &&
      entry in ListedBefore(entries, platform, groupId, start, time, Some(Receipt(trigger)), limit)
  }

  /** Some receipt of the trigger's message, as its newest representation stands, passes the filter. */
  ghost predicate TriggerPasses(entries: seq<Entry>, platform: string, groupId: string, start: int, time: int,
                                trigger: Entry)
  {
    exists entry :: SameMessage(entry, trigger) && Authoritative(EVERY_PARSER, entries, entry)
                    && IsBefore(entry, platform, groupId, start, time, Some(Receipt(trigger)))
  }

  /** The trigger's message is repeated if and only if the newest of its passing receipts is within
      the limit; so never unless one passes, and always then without a limit. */
  lemma TriggerMessageIsListedExactly(entries: seq<Entry>, platform: string, groupId: string, start: int, time: int,
                                      trigger: Entry, limit: int)
    requires Table(entries)
    ensures RepeatsTrigger(entries, platform, groupId, start, time, trigger, limit)
            <==> exists entry :: SameMessage(entry, trigger)
                   && WithinLimit(entries, BeforeTrigger(platform, groupId, start, time, trigger), limit, entry)
    ensures RepeatsTrigger(entries, platform, groupId, start, time, trigger, limit)
            ==> TriggerPasses(entries, platform, groupId, start, time, trigger)
    ensures limit < 0 ==> (RepeatsTrigger(entries, platform, groupId, start, time, trigger, limit)
                           <==> TriggerPasses(entries, platform, groupId, start, time, trigger))
  {
    hide ListedBefore, Authoritative, Table, Newer, SameMessage, WithinLimit, Selected;
    var keep := BeforeTrigger(platform, groupId, start, time, trigger);
    forall entry
      ensures entry in ListedBefore(entries, platform, groupId, start, time, Some(Receipt(trigger)), limit)
              <==> WithinLimit(entries, keep, limit, entry)
    {
      ListedBeforeExactly(entries, platform, groupId, start, time, trigger, limit, entry);
    }
    if entry :| SameMessage(entry, trigger) && WithinLimit(entries, keep, limit, entry) {
      WithinLimitPasses(entries, keep, limit, entry);
      assert keep(entry) == IsBefore(entry, platform, groupId, start, time, Some(Receipt(trigger)));
    }
    if limit < 0 && TriggerPasses(entries, platform, groupId, start, time, trigger) {
      PassingIsWithin(entries, platform, groupId, start, time, trigger, limit);
    }
  }

  lemma WithinLimitPasses(entries: seq<Entry>, keep: Entry -> bool, limit: int, entry: Entry)
    requires WithinLimit(entries, keep, limit, entry)
    ensures Authoritative(EVERY_PARSER, entries, entry) && keep(entry)
  {
  }

  lemma PassingIsWithin(entries: seq<Entry>, platform: string, groupId: string, start: int, time: int,
                        trigger: Entry, limit: int)
    requires limit < 0 && TriggerPasses(entries, platform, groupId, start, time, trigger)
    ensures exists entry :: SameMessage(entry, trigger)
              && WithinLimit(entries, BeforeTrigger(platform, groupId, start, time, trigger), limit, entry)
  {
    hide Authoritative, Newer, Selected;
    var keep := BeforeTrigger(platform, groupId, start, time, trigger);
    var entry :| SameMessage(entry, trigger) && Authoritative(EVERY_PARSER, entries, entry)
                 && IsBefore(entry, platform, groupId, start, time, Some(Receipt(trigger)));
    assert Candidate(EVERY_PARSER, entries, keep, entry);
    forall other | Candidate(EVERY_PARSER, entries, keep, other)
      ensures other in entries
    {
      AuthoritativeIsThere(EVERY_PARSER, entries, other);
    }
    var newest := NewestOfItsMessage(entries, keep, entry, entries);
    assert SameMessage(newest, trigger) && WithinLimit(entries, keep, limit, newest);
  }

  /** A candidate of the message with the greatest receipt is selected. */
  lemma {:induction false} NewestOfItsMessage(entries: seq<Entry>, keep: Entry -> bool, entry: Entry, rest: seq<Entry>)
    returns (newest: Entry)
    requires Candidate(EVERY_PARSER, entries, keep, entry)
    requires forall other | Candidate(EVERY_PARSER, entries, keep, other) && SameMessage(other, entry) ::
               other in rest || Receipt(other) <= Receipt(entry)
    ensures Selected(EVERY_PARSER, entries, keep, newest) && SameMessage(newest, entry)
    decreases |rest|
  {
    hide Authoritative;
    if rest == [] {
      newest := entry;
    } else {
      var better := Candidate(EVERY_PARSER, entries, keep, rest[0]) && SameMessage(rest[0], entry)
                    && Receipt(rest[0]) > Receipt(entry);
      newest := NewestOfItsMessage(entries, keep, if better then rest[0] else entry, rest[1..]);
    }
  }

  /** The trigger's own receipt is never listed when its time is the time its newest representation
      has. Another receipt of its message still may be. */
  lemma TriggerReceiptIsNeverListed(entries: seq<Entry>, platform: string, groupId: string, start: int, time: int,
                                    trigger: Entry, limit: int)
    requires Table(entries) && Authoritative(EVERY_PARSER, entries, trigger)
    requires Instant(trigger).Some? ==> Instant(trigger).value >= time
    ensures forall entry | entry in ListedBefore(entries, platform, groupId, start, time, Some(Receipt(trigger)), limit) ::
              Receipt(entry) != Receipt(trigger)
  {
    hide ListedBefore, Authoritative, Table, Newer, Candidate;
    TriggerReceiptIsListedExactly(entries, platform, groupId, start, time, trigger, limit);
  }

  lemma NothingIsNewer(entries: seq<Entry>, keep: Entry -> bool, entry: Entry)
    requires forall other | Selected(EVERY_PARSER, entries, keep, other) :: other == entry
    ensures Newer(entries, keep, entry) == {}
  {
  }

  /** Two stored representations of message "m" in group "g". */
  function Example(id: nat, receipt: int, version: string, time: int): Entry {
    Entry(id, Record(receipt, "p", version, "qq", Some("m"), Context(None, None, Some("g")), Some(Aware(time, 0)),
                     NO_IDENTITY, NO_IDENTITY, NO_PROVENANCE), [])
  }

  /** Receipt 1 was stored with time 10 and reparsed to time 5. As the trigger at time 10, as its
      first representation had it, it is listed itself. */
  lemma ReparsedTriggerIsListed() returns (entries: seq<Entry>)
    ensures entries == [Example(1, 1, "1", 10), Example(2, 1, "2", 5)] && Table(entries)
    ensures exists entry | entry in ListedBefore(entries, "qq", "g", 0, 10, Some(1), 20) :: Receipt(entry) == 1
  {
    var first, second := Example(1, 1, "1", 10), Example(2, 1, "2", 5);
    entries := [first, second];
    assert SameVersion(first, second.record) == ("1" == "2");
    var keep := BeforeTrigger("qq", "g", 0, 10, second);
    assert entries[0] == first && entries[1] == second;
    assert Selected(EVERY_PARSER, entries, keep, second);
    NothingIsNewer(entries, keep, second);
    ListedBeforeExactly(entries, "qq", "g", 0, 10, second, 20, second);
  }

  /** Receipts 1 and 2 carry the same message at time 10. With receipt 2 as the trigger at that
      time, receipt 1 is listed: the message is repeated although the trigger's receipt is not. */
  lemma TwinReceiptIsListed() returns (entries: seq<Entry>)
    ensures entries == [Example(1, 1, "1", 10), Example(2, 2, "1", 10)] && Table(entries)
    ensures Authoritative(EVERY_PARSER, entries, entries[1]) && Instant(entries[1]) == Some(10)
    ensures SameMessage(entries[0], entries[1])
    ensures entries[0] in ListedBefore(entries, "qq", "g", 0, 10, Some(2), 20)
  {
    var first, second := Example(1, 1, "1", 10), Example(2, 2, "1", 10);
    entries := [first, second];
    var keep := BeforeTrigger("qq", "g", 0, 10, second);
    assert entries[0] == first && entries[1] == second;
    assert Selected(EVERY_PARSER, entries, keep, first);
    NothingIsNewer(entries, keep, first);
    ListedBeforeExactly(entries, "qq", "g", 0, 10, second, 20, first);
  }
}
