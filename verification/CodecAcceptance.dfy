/** Exactly which row sets decode, read off the rows: every row on a way down from the roots must be
    sound by itself, and every row must be on such a way. */
module CodecAcceptance {
  import opened Values
  import opened Sequences
  import opened Domain
  import opened MessageRows
  import opened CodecBlocks
  import opened CodecMalformed

  // ----- what a row must be -----

  /** The payload has the fields its kind cannot do without, with known statuses. */
  predicate Readable(kind: Kind, values: map<Field, Json>) {
    match kind
    case KindAt => FIsAll in values
    case KindReply =>
      FResolutionStatus in values && values[FResolutionStatus].Str?
      && values[FResolutionStatus].text in {"unresolved", "resolved", "invalid_reference", "fetch_failed",
                                            "invalid_response", "depth_limit", "node_limit"}
    case KindForward =>
      FResolved in values && FResolutionStatus in values && values[FResolutionStatus].Str?
      && values[FResolutionStatus].text in {"unresolved", "embedded", "fetched", "invalid_content", "depth_limit",
                                            "node_limit", "invalid_reference", "fetch_failed", "invalid_response"}
    case _ => true
  }

  predicate IsSegmentKind(kind: Kind) {
    kind in {KindText, KindAt, KindImage, KindReply, KindFile, KindForward, KindUnknown}
  }

  /** Platform, source and availability are there, the last two with known names. */
  predicate HasIdentity(columns: IdentityColumns) {
    && columns.platform.Some?
    && columns.source.Some? && columns.source.value in {"event", "forward_node", "resolved_message", "unknown"}
    && columns.availability.Some? && columns.availability.value in {"known", "unknown", "unavailable"}
  }

  predicate HasProvenance(columns: ProvenanceColumns) {
    && columns.forwardDepth.Some? && columns.source.Some?
    && columns.source.value in {"direct_event", "resolved_reference", "forward_node", "nested_forward_node"}
  }

  /** No timestamp, or a text that is one. */
  predicate HasTime(lib: Library, values: map<Field, Json>) {
    FTimestamp in values && values[FTimestamp] != Null ==>
      values[FTimestamp].Str? && lib.timeOfText(values[FTimestamp].text).Some?
  }

  /** Every child hangs under a relation that this kind of row has. */
  ghost predicate ChildrenFit(rows: seq<Row>, row: Row) {
    forall child | child in rows && child.parent == Some(row.id) ::
      match row.columns.kind
      case KindReply => child.columns.relation == RelResolvedMessage
      case KindForward => child.columns.relation in {RelContent, RelNodes}
      case KindForwardNode => child.columns.relation == RelContent
      case KindResolvedMessage => child.columns.relation == RelSegments
      case _ => false
  }

  /** A reply has at most one resolved message. */
  ghost predicate OneResolved(rows: seq<Row>, row: Row) {
    forall i, j | 0 <= i < j < |rows| && rows[i].parent == Some(row.id) && rows[j].parent == Some(row.id) ::
      rows[i].columns.relation != RelResolvedMessage || rows[j].columns.relation != RelResolvedMessage
  }

  /** What is checked before a row's children are read. */
  ghost predicate Opens(lib: Library, rows: seq<Row>, row: Row, want: Want) {
    var columns := row.columns;
    && columns.payload.Fields?
    && match want
       case WantSegment => IsSegmentKind(columns.kind) && (columns.kind == KindReply ==> OneResolved(rows, row))
       case WantNode =>
         && columns.kind == KindForwardNode && HasTime(lib, columns.payload.values)
         && HasIdentity(columns.author) && HasProvenance(columns.provenance)
       case WantResolved =>
         && columns.kind == KindResolvedMessage && HasTime(lib, columns.payload.values) && HasIdentity(columns.author)
  }

  /** Nothing about this row and its children alone stands in the way of decoding it as what is wanted. */
  ghost predicate Sound(lib: Library, rows: seq<Row>, row: Row, want: Want) {
    && Opens(lib, rows, row, want) && ChildrenFit(rows, row)
    && (want == WantSegment ==> Readable(row.columns.kind, row.columns.payload.values))
  }

  /** There is a way of n steps from a root segment down to this row, each step along a relation of
      the row above, and the last one asks for this. */
  ghost predicate Reached(rows: seq<Row>, row: Row, want: Want, n: nat)
    decreases n, 0
  {
    && row in rows
    && if n == 0 then row.parent == None && row.columns.relation == RelSegments && want == WantSegment
       else exists up :: IsChild(row, want, up) && ReachedIn(rows, up, n - 1)
  }

  ghost predicate ReachedIn(rows: seq<Row>, row: Row, n: nat)
    decreases n, 1
  {
    || Reached(rows, row, WantSegment, n)
    || Reached(rows, row, WantNode, n)
    || Reached(rows, row, WantResolved, n)
  }

  /** The row is this kind of child of the other. */
  predicate IsChild(row: Row, want: Want, up: Row) {
    row.parent == Some(up.id)
    && match up.columns.kind
       case KindReply => row.columns.relation == RelResolvedMessage && want == WantResolved
       case KindForward => (row.columns.relation == RelContent && want == WantSegment)
                           || (row.columns.relation == RelNodes && want == WantNode)
       case KindForwardNode => row.columns.relation == RelContent && want == WantSegment
       case KindResolvedMessage => row.columns.relation == RelSegments && want == WantSegment
       case _ => false
  }

  lemma ChildExactly(row: Row, want: Want, up: Row)
    ensures IsChild(row, want, up) <==> row.parent == Some(up.id) && Part(row.columns.relation, want) in PartsOf(up.columns.kind)
  {
  }

  ghost predicate IsReached(rows: seq<Row>, row: Row) {
    exists n: nat :: ReachedIn(rows, row, n)
  }

  /** These are ids of reached rows. */
  ghost predicate AllReached(rows: seq<Row>, ids: set<int>) {
    ids <= IdsOf(rows) && forall row | row in rows && row.id in ids :: IsReached(rows, row)
  }

  /** Every row on a way down from the roots is sound. */
  ghost predicate Walkable(lib: Library, rows: seq<Row>) {
    forall row, want, n: nat | Reached(rows, row, want, n) :: Sound(lib, rows, row, want)
  }

  lemma IdentityExactly(columns: IdentityColumns)
    ensures IdentityFrom(columns).Ok? <==> HasIdentity(columns)
  {
  }

  lemma ProvenanceExactly(columns: ProvenanceColumns)
    ensures ProvenanceFrom(columns).Ok? <==> HasProvenance(columns)
  {
  }

  lemma TimeExactly(lib: Library, payload: Payload)
    requires payload.Fields?
    ensures DatetimeFrom(lib, payload.Get(FTimestamp)).Ok? <==> HasTime(lib, payload.values)
  {
  }

  lemma StatusesExactly(text: string)
    ensures ReplyStatusOf(text).Some?
            <==> text in {"unresolved", "resolved", "invalid_reference", "fetch_failed", "invalid_response",
                          "depth_limit", "node_limit"}
    ensures ForwardStatusOf(text).Some?
            <==> text in {"unresolved", "embedded", "fetched", "invalid_content", "depth_limit", "node_limit",
                          "invalid_reference", "fetch_failed", "invalid_response"}
  {
  }

  lemma OpensExactly(lib: Library, rows: seq<Row>, row: Row, want: Want)
    requires UniqueIds(rows)
    ensures KindFits(row.columns.kind, want) && Opening(lib, rows, row, want).None? <==> Opens(lib, rows, row, want)
  {
    hide IdentityFrom, ProvenanceFrom, DatetimeFrom, Related, HasIdentity, HasProvenance, HasTime, OneResolved, UniqueIds;
    IdentityExactly(row.columns.author);
    ProvenanceExactly(row.columns.provenance);
    NoColumns();
    if row.columns.payload.Fields? {
      TimeExactly(lib, row.columns.payload);
    }
    OneResolvedExactly(rows, row);
  }

  lemma NoColumns()
    ensures !HasIdentity(NO_IDENTITY) && !HasProvenance(NO_PROVENANCE)
  {
  }

  lemma OneResolvedExactly(rows: seq<Row>, row: Row)
    requires UniqueIds(rows)
    ensures |Related(rows, Some(row.id), RelResolvedMessage)| <= 1 <==> OneResolved(rows, row)
  {
    hide Related, Sorted;
    var list := Related(rows, Some(row.id), RelResolvedMessage);
    RelatedIsRow(rows, Some(row.id), RelResolvedMessage);
    RelatedIsSorted(rows, Some(row.id), RelResolvedMessage);
    if |list| > 1 {
      TwoOfSorted(list);
      assert list[0] in list && list[1] in list;
      var i :| 0 <= i < |rows| && rows[i] == list[0];
      var j :| 0 <= j < |rows| && rows[j] == list[1];
      assert i != j;
    }
    if !OneResolved(rows, row) {
      var i, j :| 0 <= i < j < |rows| && rows[i].parent == Some(row.id) && rows[j].parent == Some(row.id)
                  && rows[i].columns.relation == RelResolvedMessage && rows[j].columns.relation == RelResolvedMessage;
      assert rows[i] in list && rows[j] in list && rows[i].id != rows[j].id;
      var k :| 0 <= k < |list| && list[k] == rows[i];
      var m :| 0 <= m < |list| && list[m] == rows[j];
      assert k != m;
    }
  }

  lemma RelatedIsSorted(rows: seq<Row>, parent: Option<int>, relation: Relation)
    requires UniqueIds(rows)
    ensures Sorted(Related(rows, parent, relation))
  {
    ChildrenAreSorted(rows, parent);
    RelationKeepsOrder(Children(rows, parent), relation);
  }

  lemma TwoOfSorted(list: seq<Row>)
    requires Sorted(list) && |list| > 1
    ensures list[0].id != list[1].id
  {
    assert list[1] in list[1..];
  }

  lemma AssemblesExactly(lib: Library, rows: seq<Row>, row: Row, want: Want, lists: seq<seq<Item>>)
    requires UniqueIds(rows) && KindFits(row.columns.kind, want) && Opening(lib, rows, row, want).None?
    requires row.columns.payload.Fields? && Matches(lists, PartsOf(row.columns.kind))
    ensures Assemble(lib, row, want, lists).Ok? <==> want != WantSegment || Readable(row.columns.kind, row.columns.payload.values)
  {
    hide Related, ReplyStatusOf, ForwardStatusOf, IdentityFrom, ProvenanceFrom, DatetimeFrom, UniqueIds;
    if row.columns.payload.Get(FResolutionStatus).Str? {
      StatusesExactly(row.columns.payload.Get(FResolutionStatus).text);
    }
  }

  /** A row is sound exactly if it opens, assembles, and its children hang under its relations. */
  lemma SoundExactly(lib: Library, rows: seq<Row>, row: Row, want: Want)
    requires UniqueIds(rows)
    ensures Sound(lib, rows, row, want)
            <==> && KindFits(row.columns.kind, want) && Opening(lib, rows, row, want).None?
                 && (want == WantSegment ==> Readable(row.columns.kind, row.columns.payload.values))
                 && forall child | child in rows && child.parent == Some(row.id) ::
                      RelationOf(PartsOf(row.columns.kind), child.columns.relation)
  {
    hide Opening, KindFits, HasIdentity, HasProvenance, HasTime, Readable, OneResolved, UniqueIds;
    OpensExactly(lib, rows, row, want);
    forall relation
      ensures RelationOf(PartsOf(row.columns.kind), relation)
              <==> match row.columns.kind
                   case KindReply => relation == RelResolvedMessage
                   case KindForward => relation in {RelContent, RelNodes}
                   case KindForwardNode => relation == RelContent
                   case KindResolvedMessage => relation == RelSegments
                   case _ => false
    {
      RelationsExactly(row.columns.kind, relation);
    }
    hide RelationOf, PartsOf;
  }

  lemma RelationsExactly(kind: Kind, relation: Relation)
    ensures RelationOf(PartsOf(kind), relation)
            <==> match kind
                 case KindReply => relation == RelResolvedMessage
                 case KindForward => relation in {RelContent, RelNodes}
                 case KindForwardNode => relation == RelContent
                 case KindResolvedMessage => relation == RelSegments
                 case _ => false
  {
    var parts := PartsOf(kind);
    if relation == RelNodes && kind == KindForward {
      assert parts[1].relation == RelNodes;
    } else if parts != [] && parts[0].relation == relation {
      assert RelationOf(parts, relation);
    }
  }

  lemma ChildIsReached(rows: seq<Row>, up: Row, upWant: Want, n: nat, part: Part, child: Row)
    requires Reached(rows, up, upWant, n) && part in PartsOf(up.columns.kind)
    requires child in rows && child.parent == Some(up.id) && child.columns.relation == part.relation
    ensures Reached(rows, child, part.want, n + 1)
  {
    ChildExactly(child, part.want, up);
    assert IsChild(child, part.want, up) && ReachedIn(rows, up, n);
  }

  lemma HowReached(rows: seq<Row>, row: Row) returns (want: Want, n: nat)
    requires IsReached(rows, row)
    ensures Reached(rows, row, want, n)
  {
    n :| ReachedIn(rows, row, n);
    want := SomeWant(rows, row, n);
  }

  lemma SomeWant(rows: seq<Row>, row: Row, n: nat) returns (want: Want)
    requires ReachedIn(rows, row, n)
    ensures Reached(rows, row, want, n)
  {
    want := if Reached(rows, row, WantSegment, n) then WantSegment
            else if Reached(rows, row, WantNode, n) then WantNode else WantResolved;
  }

  /** A reached child of a row hangs under a relation of that row. */
  lemma ReachedChildFits(rows: seq<Row>, up: Row, child: Row)
    requires Keyed(rows) && up in rows && child.parent == Some(up.id) && IsReached(rows, child)
    ensures RelationOf(PartsOf(up.columns.kind), child.columns.relation)
  {
    hide PartsOf;
    var want, n := HowReached(rows, child);
    var parent :| IsChild(child, want, parent) && ReachedIn(rows, parent, n - 1);
    var parentWant := SomeWant(rows, parent, n - 1);
    assert parent in rows && parent == up by {
      ReachedIsRow(rows, parent, parentWant, n - 1);
    }
    var parts, part := PartsOf(up.columns.kind), Part(child.columns.relation, want);
    ChildExactly(child, want, parent);
    assert part in parts;
    var i :| 0 <= i < |parts| && parts[i] == part;
    assert parts[i].relation == child.columns.relation;
  }

  // ----- what was decoded is sound and reached -----

  /** The children under these relations were entered and are sound. */
  ghost predicate ChildrenSettled(lib: Library, rows: seq<Row>, parent: int, parts: seq<Part>, consumed: set<int>) {
    forall child, i | child in rows && child.parent == Some(parent)
                      && 0 <= i < |parts| && child.columns.relation == parts[i].relation ::
      child.id in consumed && Sound(lib, rows, child, parts[i].want)
  }

  ghost predicate Settled(lib: Library, rows: seq<Row>, ids: set<int>, consumed: set<int>) {
    forall row | row in rows && row.id in ids ::
      ChildrenSettled(lib, rows, row.id, PartsOf(row.columns.kind), consumed)
  }

  lemma SettledGrows(lib: Library, rows: seq<Row>, ids: set<int>, before: set<int>, after: set<int>)
    requires Settled(lib, rows, ids, before) && before <= after
    ensures Settled(lib, rows, ids, after)
  {
    hide Sound;
    forall row | row in rows && row.id in ids
      ensures ChildrenSettled(lib, rows, row.id, PartsOf(row.columns.kind), after)
    {
      assert ChildrenSettled(lib, rows, row.id, PartsOf(row.columns.kind), before);
    }
  }

  lemma SettledUnion(lib: Library, rows: seq<Row>, first: set<int>, second: set<int>, before: set<int>, consumed: set<int>)
    requires Settled(lib, rows, first, before) && before <= consumed && Settled(lib, rows, second, consumed)
    ensures Settled(lib, rows, first + second, consumed)
  {
    hide ChildrenSettled;
    SettledGrows(lib, rows, first, before, consumed);
  }

  lemma NothingToSettle(lib: Library, rows: seq<Row>, consumed: set<int>)
    ensures Settled(lib, rows, consumed - consumed, consumed)
  {
  }

  lemma {:induction false} RowIsSound(lib: Library, rows: seq<Row>, row: Row, want: Want, n: nat, active: set<int>,
                                      consumed: set<int>)
    requires Keyed(rows) && UniqueIds(rows) && row in rows && Reached(rows, row, want, n) && AllReached(rows, consumed)
    ensures var decoded := DecodeRow(lib, rows, row, want, active, consumed);
            decoded.Done? ==> && row.id in decoded.consumed && Sound(lib, rows, row, want)
                              && AllReached(rows, decoded.consumed)
                              && Settled(lib, rows, decoded.consumed - consumed, decoded.consumed)
    decreases IdsOf(rows) - consumed, 0, 0
  {
    hide Related, Opening, Assemble, Children, DecodeParts, PartsOf, Matches, KindFits, Readable, ChildrenSettled,
         Reached, Sound, UniqueIds;
    var decoded := DecodeRow(lib, rows, row, want, active, consumed);
    if decoded.Done? {
      ReachedIsRow(rows, row, want, n);
      SoundExactly(lib, rows, row, want);
      assert row.id in IdsOf(rows);
      var parts := PartsOf(row.columns.kind);
      assert AllReached(rows, consumed + {row.id}) by {
        forall r | r in rows && r.id in consumed + {row.id}
          ensures IsReached(rows, r)
        {
          assert r.id == row.id ==> r == row;
        }
      }
      PartsAreSound(lib, rows, row, want, n, parts, active + {row.id}, consumed + {row.id});
      var lists := DecodeParts(lib, rows, row.id, parts, active + {row.id}, consumed + {row.id});
      OpenedRow(lib, rows, row, want, active + {row.id}, consumed + {row.id});
      AssemblesExactly(lib, rows, row, want, lists.value);
      ChildIsRow(rows, Some(row.id));
      forall child | child in rows && child.parent == Some(row.id)
        ensures RelationOf(parts, child.columns.relation)
      {
        assert child in Children(rows, Some(row.id));
        ReachedChildFits(rows, row, child);
      }
      forall r | r in rows && r.id in lists.consumed - consumed
        ensures ChildrenSettled(lib, rows, r.id, PartsOf(r.columns.kind), lists.consumed)
      {
        assert r.id == row.id ==> r == row;
      }
    }
  }

  lemma ReachedIsRow(rows: seq<Row>, row: Row, want: Want, n: nat)
    requires Reached(rows, row, want, n)
    ensures row in rows && IsReached(rows, row)
  {
    assert ReachedIn(rows, row, n);
  }

  lemma {:induction false} PartsAreSound(lib: Library, rows: seq<Row>, up: Row, upWant: Want, n: nat,
                                         parts: seq<Part>, active: set<int>, consumed: set<int>)
    requires Keyed(rows) && UniqueIds(rows) && Reached(rows, up, upWant, n) && AllReached(rows, consumed)
    requires forall part | part in parts :: part in PartsOf(up.columns.kind)
    ensures var decoded := DecodeParts(lib, rows, up.id, parts, active, consumed);
            decoded.Done? ==> && AllReached(rows, decoded.consumed)
                              && ChildrenSettled(lib, rows, up.id, parts, decoded.consumed)
                              && Settled(lib, rows, decoded.consumed - consumed, decoded.consumed)
    decreases IdsOf(rows) - consumed, 2, |parts|
  {
    hide Related, DecodeRows, PartsOf, Reached, IsReached, Sound, Settled, UniqueIds;
    var decoded := DecodeParts(lib, rows, up.id, parts, active, consumed);
    if parts == [] {
      NothingToSettle(lib, rows, consumed);
    } else if decoded.Done? {
      RelatedIsRow(rows, Some(up.id), parts[0].relation);
      var list := Related(rows, Some(up.id), parts[0].relation);
      forall r | r in list
        ensures Reached(rows, r, parts[0].want, n + 1)
      {
        ChildIsReached(rows, up, upWant, n, parts[0], r);
      }
      RowsAreSound(lib, rows, list, parts[0].want, n + 1, active, consumed);
      var head := DecodeRows(lib, rows, list, parts[0].want, active, consumed);
      PartsAreSound(lib, rows, up, upWant, n, parts[1..], active, head.consumed);
      SettledUnion(lib, rows, head.consumed - consumed, decoded.consumed - head.consumed, head.consumed, decoded.consumed);
      assert (head.consumed - consumed) + (decoded.consumed - head.consumed) == decoded.consumed - consumed;
      forall child, i | child in rows && child.parent == Some(up.id)
                        && 0 <= i < |parts| && child.columns.relation == parts[i].relation
        ensures child.id in decoded.consumed && Sound(lib, rows, child, parts[i].want)
      {
        if i == 0 {
          assert child in list;
        } else {
          assert parts[i] == parts[1..][i - 1];
        }
      }
    }
  }

  lemma {:induction false} RowsAreSound(lib: Library, rows: seq<Row>, list: seq<Row>, want: Want, n: nat,
                                        active: set<int>, consumed: set<int>)
    requires Keyed(rows) && UniqueIds(rows) && AllReached(rows, consumed)
    requires forall r | r in list :: r in rows && Reached(rows, r, want, n)
    ensures var decoded := DecodeRows(lib, rows, list, want, active, consumed);
            decoded.Done? ==> && AllReached(rows, decoded.consumed)
                              && (forall r | r in list :: r.id in decoded.consumed && Sound(lib, rows, r, want))
                              && Settled(lib, rows, decoded.consumed - consumed, decoded.consumed)
    decreases IdsOf(rows) - consumed, 1, |list|
  {
    hide DecodeRow, Reached, IsReached, Sound, Settled, Keyed, UniqueIds;
    var decoded := DecodeRows(lib, rows, list, want, active, consumed);
    if list == [] {
      NothingToSettle(lib, rows, consumed);
    } else if decoded.Done? {
      MemberOfCons(list);
      RowIsSound(lib, rows, list[0], want, n, active, consumed);
      var head := DecodeRow(lib, rows, list[0], want, active, consumed);
      RowsAreSound(lib, rows, list[1..], want, n, active, head.consumed);
      SettledUnion(lib, rows, head.consumed - consumed, decoded.consumed - head.consumed, head.consumed, decoded.consumed);
      assert (head.consumed - consumed) + (decoded.consumed - head.consumed) == decoded.consumed - consumed;
    }
  }

  // ----- sound rows are decoded -----

  lemma {:induction false} RowWalks(lib: Library, rows: seq<Row>, row: Row, want: Want, n: nat, active: set<int>,
                                    consumed: set<int>)
    requires Keyed(rows) && UniqueIds(rows) && Walkable(lib, rows) && AllReached(rows, consumed)
    requires Reached(rows, row, want, n) && row in rows && row.id !in consumed && active <= consumed
    requires ParentClosed(rows, consumed) && (row.parent.Some? ==> row.parent.value in consumed)
    ensures DecodeRow(lib, rows, row, want, active, consumed).Done?
    decreases IdsOf(rows) - consumed, 0, 0
  {
    hide Related, Opening, Assemble, Children, DecodeParts, PartsOf, UniqueIds, Matches, KindFits, Readable, Reached,
         RelationsDistinct, Sound;
    assert Sound(lib, rows, row, want);
    SoundExactly(lib, rows, row, want);
    ReachedIsRow(rows, row, want, n);
    assert row.id in IdsOf(rows);
    PartsAreDistinct(row.columns.kind);
    var parts := PartsOf(row.columns.kind);
    forall r | r in rows && r.id in consumed + {row.id}
      ensures IsReached(rows, r)
    {
      assert r.id == row.id ==> r == row;
    }
    PartsWalk(lib, rows, row, want, n, parts, active + {row.id}, consumed + {row.id});
    PartsAreSound(lib, rows, row, want, n, parts, active + {row.id}, consumed + {row.id});
    var lists := DecodeParts(lib, rows, row.id, parts, active + {row.id}, consumed + {row.id});
    OpenedRow(lib, rows, row, want, active + {row.id}, consumed + {row.id});
    AssemblesExactly(lib, rows, row, want, lists.value);
    ChildIsRow(rows, Some(row.id));
    forall child | child in Children(rows, Some(row.id))
      ensures child.id in lists.consumed
    {
      var i :| 0 <= i < |parts| && parts[i].relation == child.columns.relation;
    }
  }

  lemma {:induction false} PartsWalk(lib: Library, rows: seq<Row>, up: Row, upWant: Want, n: nat, parts: seq<Part>,
                                     active: set<int>, consumed: set<int>)
    requires Keyed(rows) && UniqueIds(rows) && Walkable(lib, rows) && AllReached(rows, consumed)
    requires Reached(rows, up, upWant, n) && active <= consumed && up.id in consumed
    requires ParentClosed(rows, consumed) && RelationsDistinct(parts) && Untaken(rows, up.id, parts, consumed)
    requires forall part | part in parts :: part in PartsOf(up.columns.kind)
    ensures DecodeParts(lib, rows, up.id, parts, active, consumed).Done?
    decreases IdsOf(rows) - consumed, 2, |parts|
  {
    hide Related, DecodeRows, PartsOf, UniqueIds, Walkable, Reached, IsReached, AllReached, RelationsDistinct, Untaken,
         Sorted, Settled, Sound, Keyed, ParentClosed, NewUnder;
    if parts != [] {
      RelatedIsRow(rows, Some(up.id), parts[0].relation);
      FirstPartIsUntaken(rows, up.id, parts, consumed);
      var list := Related(rows, Some(up.id), parts[0].relation);
      forall r | r in list
        ensures Reached(rows, r, parts[0].want, n + 1)
      {
        ChildIsReached(rows, up, upWant, n, parts[0], r);
      }
      RowsWalk(lib, rows, list, Some(up.id), parts[0].want, n + 1, active, consumed);
      RowsEnterOnce(lib, rows, list, Some(up.id), parts[0].want, active, consumed);
      RowsAreSound(lib, rows, list, parts[0].want, n + 1, active, consumed);
      var head := DecodeRows(lib, rows, list, parts[0].want, active, consumed);
      OtherPartsAreUntaken(rows, up.id, parts, consumed, head.consumed);
      PartsWalk(lib, rows, up, upWant, n, parts[1..], active, head.consumed);
    }
  }

  lemma {:induction false} RowsWalk(lib: Library, rows: seq<Row>, list: seq<Row>, parent: Option<int>, want: Want,
                                    n: nat, active: set<int>, consumed: set<int>)
    requires Keyed(rows) && UniqueIds(rows) && Walkable(lib, rows) && AllReached(rows, consumed)
    requires active <= consumed && ParentClosed(rows, consumed) && (parent.Some? ==> parent.value in consumed)
    requires Sorted(list) && forall r | r in list :: r in rows && r.parent == parent && r.id !in consumed
    requires forall r | r in list :: Reached(rows, r, want, n)
    ensures DecodeRows(lib, rows, list, want, active, consumed).Done?
    decreases IdsOf(rows) - consumed, 1, |list|
  {
    hide DecodeRow, UniqueIds, Keyed, Walkable, Reached, IsReached, AllReached, Settled, Sound, ParentClosed;
    if list != [] {
      MemberOfCons(list);
      RowWalks(lib, rows, list[0], want, n, active, consumed);
      RowEntersOnce(lib, rows, list[0], want, active, consumed);
      RowIsSound(lib, rows, list[0], want, n, active, consumed);
      var head := DecodeRow(lib, rows, list[0], want, active, consumed);
      forall r | r in list[1..]
        ensures r.id !in head.consumed
      {
        assert r.id != list[0].id;
      }
      RowsWalk(lib, rows, list[1..], parent, want, n, active, head.consumed);
    }
  }

  // ----- which row sets decode -----

  lemma {:induction false} ReachedIsSettled(lib: Library, rows: seq<Row>, row: Row, want: Want, n: nat,
                                            consumed: set<int>)
    requires Reached(rows, row, want, n) && Settled(lib, rows, consumed, consumed)
    requires forall r | r in Related(rows, None, RelSegments) :: r.id in consumed && Sound(lib, rows, r, WantSegment)
    ensures row.id in consumed && Sound(lib, rows, row, want)
    decreases n
  {
    hide Sound, Related, PartsOf;
    if n == 0 {
      RelatedIsRow(rows, None, RelSegments);
    } else {
      var up :| IsChild(row, want, up) && ReachedIn(rows, up, n - 1);
      var upWant := SomeWant(rows, up, n - 1);
      ReachedIsSettled(lib, rows, up, upWant, n - 1, consumed);
      ChildExactly(row, want, up);
      var parts := PartsOf(up.columns.kind);
      assert ChildrenSettled(lib, rows, up.id, parts, consumed);
      var i :| 0 <= i < |parts| && parts[i] == Part(row.columns.relation, want);
      assert row.columns.relation == parts[i].relation;
    }
  }

  /** How decoding from the roots ends: with every reached row entered, or with an error of one row. */
  lemma {:induction false} RootsDecodeExactly(lib: Library, rows: seq<Row>)
    requires UniqueIds(rows)
    requires forall r | r in Related(rows, None, RelSegments) :: r in rows
    ensures var items := DecodeRows(lib, rows, Related(rows, None, RelSegments), WantSegment, {}, {});
            && (items.Done? <==> Walkable(lib, rows))
            && (items.Done? ==> items.consumed <= IdsOf(rows)
                                && forall row | row in rows :: row.id in items.consumed <==> IsReached(rows, row))
            && (items.Failed? ==> OfOneRow(items.error))
  {
    hide DecodeRows, Related, Sorted, Sound, Settled, UniqueIds, Keyed;
    var list := Related(rows, None, RelSegments);
    var items := DecodeRows(lib, rows, list, WantSegment, {}, {});
    RelatedIsRow(rows, None, RelSegments);
    RelatedIsSorted(rows, None, RelSegments);
    UniqueIsKeyed(rows);
    forall r | r in list
      ensures Reached(rows, r, WantSegment, 0)
    {
    }
    RowsEnterOnce(lib, rows, list, None, WantSegment, {}, {});
    RowsAreSound(lib, rows, list, WantSegment, 0, {}, {});
    if Walkable(lib, rows) {
      RowsWalk(lib, rows, list, None, WantSegment, 0, {}, {});
    }
    if items.Done? {
      assert items.consumed - {} == items.consumed;
      forall row, want, n: nat | Reached(rows, row, want, n)
        ensures row.id in items.consumed && Sound(lib, rows, row, want)
      {
        ReachedIsSettled(lib, rows, row, want, n, items.consumed);
      }
      forall row | row in rows
        ensures row.id in items.consumed <==> IsReached(rows, row)
      {
        if IsReached(rows, row) {
          var want, n := HowReached(rows, row);
        }
      }
    }
  }

  /** Exactly which row sets decode, and which are refused for rows left over: in both every row on a
      way down from the roots is sound, and the rows left over are those on no such way. */
  lemma DecodesExactly(lib: Library, rows: seq<Row>)
    requires UniqueIds(rows)
    ensures DecodeTree(lib, rows).Ok? <==> Walkable(lib, rows) && forall row | row in rows :: IsReached(rows, row)
    ensures DecodeTree(lib, rows) == Err(OrphanedRows)
            <==> Walkable(lib, rows) && exists row | row in rows :: !IsReached(rows, row)
    ensures !Walkable(lib, rows) ==> DecodeTree(lib, rows).Err? && OfOneRow(DecodeTree(lib, rows).error)
  {
    hide DecodeRows, Related, Walkable, IsReached, UniqueIds;
    RelatedIsRow(rows, None, RelSegments);
    RootsDecodeExactly(lib, rows);
    var items := DecodeRows(lib, rows, Related(rows, None, RelSegments), WantSegment, {}, {});
    if items.Done? {
      assert IdsOf(rows) == items.consumed <==> forall row | row in rows :: row.id in items.consumed;
    }
  }

  /** A row set with rows on or under a parent cycle is refused for rows left over if and only if every
      row on a way down from the roots is sound; otherwise it is refused for one of its other rows. */
  lemma UprootedIsOrphanedExactly(lib: Library, rows: seq<Row>, ids: set<int>)
    requires UniqueIds(rows) && ids != {} && ids <= IdsOf(rows) && Uprooted(rows, ids)
    ensures DecodeTree(lib, rows).Err?
    ensures DecodeTree(lib, rows).error == OrphanedRows <==> Walkable(lib, rows)
    ensures OfOneRow(DecodeTree(lib, rows).error) <==> !Walkable(lib, rows)
  {
    hide DecodeTree, Walkable, IsReached, UniqueIds;
    DecodesExactly(lib, rows);
    if DecodeTree(lib, rows).Ok? {
      DecodedTreeIsRooted(lib, rows, ids);
    }
  }

  /** Exactly which stored messages decode. */
  lemma MessageDecodesExactly(lib: Library, record: Record, recordId: int, rows: seq<Row>)
    requires UniqueIds(rows)
    ensures DecodeMessage(lib, record, recordId, rows).Ok?
            <==> && (forall row | row in rows :: row.messageId == recordId && IsReached(rows, row))
                 && Walkable(lib, rows)
                 && HasIdentity(record.actor) && HasIdentity(record.author) && HasProvenance(record.provenance)
  {
    hide DecodeTree, Walkable, IsReached, UniqueIds, IdentityFrom, ProvenanceFrom, HasIdentity, HasProvenance;
    DecodesExactly(lib, rows);
    IdentityExactly(record.actor);
    IdentityExactly(record.author);
    ProvenanceExactly(record.provenance);
    assert DecodeTree(lib, rows).Ok? ==> forall row | row in rows :: IsReached(rows, row);
  }
}
