/** What decoding guarantees for any set of rows, however malformed. */
module CodecMalformed {
  import opened Values
  import opened Sequences
  import opened Domain
  import opened MessageRows
  import opened CodecBlocks

  // ----- every consumed row is one node of the result -----

  lemma AssembledChildren(lib: Library, row: Row, want: Want, lists: seq<seq<Item>>)
    requires row.columns.payload.Fields? && Matches(lists, PartsOf(row.columns.kind)) && KindFits(row.columns.kind, want)
    requires row.columns.kind == KindReply ==> |lists[0]| <= 1
    requires Assemble(lib, row, want, lists).Ok?
    ensures ChildrenOf(Assemble(lib, row, want, lists).value) == lists
  {
    hide IdentityFrom, ProvenanceFrom, DatetimeFrom, ReplyStatusOf, ForwardStatusOf;
    match row.columns.kind {
      case KindReply =>
        assert AllWant(lists[0], PartsOf(row.columns.kind)[0].want);
        assert lists == [lists[0]];
        if lists[0] != [] {
          assert lists[0] == [lists[0][0]] && WantOf(lists[0][0]) == WantResolved;
        }
      case _ =>
    }
  }

  lemma {:induction false} RowIsCounted(
      lib: Library, rows: seq<Row>, row: Row, want: Want, active: set<int>, consumed: set<int>)
    requires row in rows
    ensures var decoded := DecodeRow(lib, rows, row, want, active, consumed);
            decoded.Done? ==> |decoded.consumed| == |consumed| + Size(decoded.value)
    decreases IdsOf(rows) - consumed, 0, 0
  {
    hide Size, Related, Opening, Assemble, Children, DecodeParts, ChildrenOf, PartsOf;
    var decoded := DecodeRow(lib, rows, row, want, active, consumed);
    if decoded.Done? {
      assert row.id in IdsOf(rows);
      var parts := PartsOf(row.columns.kind);
      PartsAreCounted(lib, rows, row.id, parts, active + {row.id}, consumed + {row.id});
      var lists := DecodeParts(lib, rows, row.id, parts, active + {row.id}, consumed + {row.id});
      OpenedRow(lib, rows, row, want, active + {row.id}, consumed + {row.id});
      AssembledChildren(lib, row, want, lists.value);
      SizeUnfolds(decoded.value);
    }
  }

  lemma OpenedRow(lib: Library, rows: seq<Row>, row: Row, want: Want, active: set<int>, consumed: set<int>)
    requires KindFits(row.columns.kind, want) && Opening(lib, rows, row, want).None?
    ensures row.columns.payload.Fields?
    ensures var lists := DecodeParts(lib, rows, row.id, PartsOf(row.columns.kind), active, consumed);
            lists.Done? && row.columns.kind == KindReply ==> |lists.value[0]| <= 1
  {
  }

  lemma {:induction false} PartsAreCounted(
      lib: Library, rows: seq<Row>, parent: int, parts: seq<Part>, active: set<int>, consumed: set<int>)
    ensures var decoded := DecodeParts(lib, rows, parent, parts, active, consumed);
            decoded.Done? ==> |decoded.consumed| == |consumed| + ListsSize(decoded.value)
    decreases IdsOf(rows) - consumed, 2, |parts|
  {
    hide Related, DecodeRows, ItemsSize;
    var decoded := DecodeParts(lib, rows, parent, parts, active, consumed);
    if parts != [] && decoded.Done? {
      RelatedIsRow(rows, Some(parent), parts[0].relation);
      var list := Related(rows, Some(parent), parts[0].relation);
      var head := DecodeRows(lib, rows, list, parts[0].want, active, consumed);
      RowsAreCounted(lib, rows, list, parts[0].want, active, consumed);
      PartsAreCounted(lib, rows, parent, parts[1..], active, head.consumed);
      assert decoded.value[1..] == DecodeParts(lib, rows, parent, parts[1..], active, head.consumed).value;
    }
  }

  lemma {:induction false} RowsAreCounted(lib: Library, rows: seq<Row>, list: seq<Row>, want: Want, active: set<int>,
                                          consumed: set<int>)
    requires forall r | r in list :: r in rows
    ensures var decoded := DecodeRows(lib, rows, list, want, active, consumed);
            decoded.Done? ==> |decoded.consumed| == |consumed| + ItemsSize(decoded.value)
    decreases IdsOf(rows) - consumed, 1, |list|
  {
    hide DecodeRow, Size;
    var decoded := DecodeRows(lib, rows, list, want, active, consumed);
    if list != [] && decoded.Done? {
      RowIsCounted(lib, rows, list[0], want, active, consumed);
      var head := DecodeRow(lib, rows, list[0], want, active, consumed);
      RowsAreCounted(lib, rows, list[1..], want, active, head.consumed);
      assert decoded.value[1..] == DecodeRows(lib, rows, list[1..], want, active, head.consumed).value;
    }
  }

  lemma {:induction false} UniqueRowsAreTheirIds(rows: seq<Row>)
    requires UniqueIds(rows)
    ensures |IdsOf(rows)| == |rows|
  {
    if rows != [] {
      var front, last := rows[..|rows| - 1], rows[|rows| - 1];
      UniqueRowsAreTheirIds(front);
      assert rows == front + [last];
      assert IdsOf(rows) == IdsOf(front) + {last.id};
      assert last.id !in IdsOf(front);
    }
  }

  /** A decoded tree has exactly one node for each row: nothing lost, nothing used twice. */
  lemma DecodedTreeHasEveryRow(lib: Library, rows: seq<Row>)
    requires DecodeTree(lib, rows).Ok?
    ensures SegmentsSize(DecodeTree(lib, rows).value) == |IdsOf(rows)|
    ensures UniqueIds(rows) ==> SegmentsSize(DecodeTree(lib, rows).value) == |rows|
  {
    hide DecodeRows, Related;
    RelatedIsRow(rows, None, RelSegments);
    RowsAreCounted(lib, rows, Related(rows, None, RelSegments), WantSegment, {}, {});
    SegmentItemsSize(DecodeTree(lib, rows).value);
    if UniqueIds(rows) {
      UniqueRowsAreTheirIds(rows);
    }
  }

  // ----- every consumed row is reached from a root -----

  /** Every row of these ids hangs under another of them: a parent cycle, or what hangs off one. */
  ghost predicate Uprooted(rows: seq<Row>, ids: set<int>) {
    forall row | row in rows && row.id in ids :: row.parent.Some? && row.parent.value in ids
  }

  lemma {:induction false} RowAvoidsUprooted(lib: Library, rows: seq<Row>, row: Row, want: Want, active: set<int>,
                                             consumed: set<int>, ids: set<int>)
    requires row in rows && Uprooted(rows, ids) && row.id !in ids && consumed !! ids
    ensures var decoded := DecodeRow(lib, rows, row, want, active, consumed);
            decoded.Done? ==> decoded.consumed !! ids
    decreases IdsOf(rows) - consumed, 0, 0
  {
    hide Related, Opening, Assemble, Children, DecodeParts, PartsOf;
    if row.id !in consumed {
      assert row.id in IdsOf(rows);
      PartsAvoidUprooted(lib, rows, row.id, PartsOf(row.columns.kind), active + {row.id}, consumed + {row.id}, ids);
    }
  }

  lemma {:induction false} PartsAvoidUprooted(lib: Library, rows: seq<Row>, parent: int, parts: seq<Part>,
                                              active: set<int>, consumed: set<int>, ids: set<int>)
    requires Uprooted(rows, ids) && parent !in ids && consumed !! ids
    ensures var decoded := DecodeParts(lib, rows, parent, parts, active, consumed);
            decoded.Done? ==> decoded.consumed !! ids
    decreases IdsOf(rows) - consumed, 2, |parts|
  {
    hide Related, DecodeRows;
    if parts != [] {
      RelatedIsRow(rows, Some(parent), parts[0].relation);
      var list := Related(rows, Some(parent), parts[0].relation);
      RowsAvoidUprooted(lib, rows, list, parts[0].want, active, consumed, ids);
      var head := DecodeRows(lib, rows, list, parts[0].want, active, consumed);
      if head.Done? {
        PartsAvoidUprooted(lib, rows, parent, parts[1..], active, head.consumed, ids);
      }
    }
  }

  lemma {:induction false} RowsAvoidUprooted(lib: Library, rows: seq<Row>, list: seq<Row>, want: Want,
                                             active: set<int>, consumed: set<int>, ids: set<int>)
    requires forall r | r in list :: r in rows && r.id !in ids
    requires Uprooted(rows, ids) && consumed !! ids
    ensures var decoded := DecodeRows(lib, rows, list, want, active, consumed);
            decoded.Done? ==> decoded.consumed !! ids
    decreases IdsOf(rows) - consumed, 1, |list|
  {
    hide DecodeRow;
    if list != [] {
      RowAvoidsUprooted(lib, rows, list[0], want, active, consumed, ids);
      var head := DecodeRow(lib, rows, list[0], want, active, consumed);
      if head.Done? {
        RowsAvoidUprooted(lib, rows, list[1..], want, active, head.consumed, ids);
      }
    }
  }

  /** In a decoded row set every group of rows holds one whose parent lies outside the group:
      following parents always ends at a root. So a row set with a parent cycle never decodes. */
  lemma DecodedTreeIsRooted(lib: Library, rows: seq<Row>, ids: set<int>)
    requires DecodeTree(lib, rows).Ok?
    requires ids != {} && ids <= IdsOf(rows)
    ensures !Uprooted(rows, ids)
  {
    hide DecodeRows, Related;
    if Uprooted(rows, ids) {
      RelatedIsRow(rows, None, RelSegments);
      RowsAvoidUprooted(lib, rows, Related(rows, None, RelSegments), WantSegment, {}, {}, ids);
    }
  }

  /** The rows that are not among these. */
  function Without(rows: seq<Row>, ids: set<int>): (rest: seq<Row>)
    ensures forall row :: row in rest <==> row in rows && row.id !in ids
  {
    if rows == [] then []
    else
      var front, last := rows[..|rows| - 1], rows[|rows| - 1];
      assert rows == front + [last];
      if last.id in ids then Without(front, ids) else Without(front, ids) + [last]
  }

  lemma {:induction false} SameChildren(rows: seq<Row>, ids: set<int>, parent: Option<int>)
    requires Uprooted(rows, ids) && (parent.Some? ==> parent.value !in ids)
    ensures Children(Without(rows, ids), parent) == Children(rows, parent)
  {
    if rows != [] {
      var front, last := rows[..|rows| - 1], rows[|rows| - 1];
      assert rows == front + [last];
      SameChildren(front, ids, parent);
      if last.id !in ids {
        assert Without(rows, ids)[..|Without(rows, ids)| - 1] == Without(front, ids);
      }
    }
  }

  lemma {:induction false} SameRow(lib: Library, rows: seq<Row>, row: Row, want: Want, active: set<int>,
                                   consumed: set<int>, ids: set<int>)
    requires row in rows && Uprooted(rows, ids) && row.id !in ids
    ensures DecodeRow(lib, Without(rows, ids), row, want, active, consumed)
            == DecodeRow(lib, rows, row, want, active, consumed)
    decreases IdsOf(rows) - consumed, 0, 0
  {
    hide Assemble, Children, DecodeParts, PartsOf, Without, IdentityFrom, ProvenanceFrom, DatetimeFrom, WithRelation;
    SameChildren(rows, ids, Some(row.id));
    if row.id !in consumed {
      assert row.id in IdsOf(rows);
      SameParts(lib, rows, row.id, PartsOf(row.columns.kind), active + {row.id}, consumed + {row.id}, ids);
    }
  }

  lemma {:induction false} SameParts(lib: Library, rows: seq<Row>, parent: int, parts: seq<Part>, active: set<int>,
                                     consumed: set<int>, ids: set<int>)
    requires Uprooted(rows, ids) && parent !in ids
    ensures DecodeParts(lib, Without(rows, ids), parent, parts, active, consumed)
            == DecodeParts(lib, rows, parent, parts, active, consumed)
    decreases IdsOf(rows) - consumed, 2, |parts|
  {
    hide Children, WithRelation, DecodeRows, Without;
    if parts != [] {
      SameChildren(rows, ids, Some(parent));
      RelatedIsRow(rows, Some(parent), parts[0].relation);
      var list := Related(rows, Some(parent), parts[0].relation);
      SameRows(lib, rows, list, parts[0].want, active, consumed, ids);
      var head := DecodeRows(lib, rows, list, parts[0].want, active, consumed);
      if head.Done? {
        SameParts(lib, rows, parent, parts[1..], active, head.consumed, ids);
      }
    }
  }

  lemma {:induction false} SameRows(lib: Library, rows: seq<Row>, list: seq<Row>, want: Want, active: set<int>,
                                    consumed: set<int>, ids: set<int>)
    requires forall r | r in list :: r in rows && r.id !in ids
    requires Uprooted(rows, ids)
    ensures DecodeRows(lib, Without(rows, ids), list, want, active, consumed)
            == DecodeRows(lib, rows, list, want, active, consumed)
    decreases IdsOf(rows) - consumed, 1, |list|
  {
    hide DecodeRow, Without;
    if list != [] {
      SameRow(lib, rows, list[0], want, active, consumed, ids);
      var head := DecodeRow(lib, rows, list[0], want, active, consumed);
      if head.Done? {
        SameRows(lib, rows, list[1..], want, active, head.consumed, ids);
      }
    }
  }

  /** Exactly what uprooted rows do: decoding goes as if they were not there, and a decoding that
      would have succeeded is refused as orphaned rows. */
  lemma {:induction false} UprootedRowsAreOrphans(lib: Library, rows: seq<Row>, ids: set<int>)
    requires ids != {} && ids <= IdsOf(rows) && Uprooted(rows, ids)
    ensures DecodeTree(lib, rows)
            == if DecodeTree(lib, Without(rows, ids)).Ok? then Err(OrphanedRows)
               else DecodeTree(lib, Without(rows, ids))
  {
    hide DecodeRows, Children, WithRelation;
    var list := Related(rows, None, RelSegments);
    RelatedIsRow(rows, None, RelSegments);
    SameChildren(rows, ids, None);
    SameRows(lib, rows, list, WantSegment, {}, {}, ids);
    RowsAvoidUprooted(lib, rows, list, WantSegment, {}, {}, ids);
    RelatedUnfolds(rows, None, RelSegments);
    RelatedUnfolds(Without(rows, ids), None, RelSegments);
    var items := DecodeRows(lib, rows, list, WantSegment, {}, {});
    if items.Done? {
      assert IdsOf(rows) != items.consumed;
    }
  }

  // ----- with unique ids no row is entered twice -----

  /** Ids identify rows. */
  ghost predicate Keyed(rows: seq<Row>) {
    forall a, b | a in rows && b in rows && a.id == b.id :: a == b
  }

  /** What is consumed hangs under what is consumed. */
  ghost predicate ParentClosed(rows: seq<Row>, consumed: set<int>) {
    forall row | row in rows && row.id in consumed :: row.parent.Some? ==> row.parent.value in consumed
  }

  /** Every row consumed in between is one of `tops` or hangs under another such row. */
  ghost predicate NewUnder(rows: seq<Row>, tops: set<int>, before: set<int>, after: set<int>) {
    forall row | row in rows && row.id in after - before ::
      row.id in tops || (row.parent.Some? && row.parent.value in after - before)
  }

  ghost predicate Reentered(error: CodecError) {
    error == CycleDetected || error == ReferencedTwice
  }

  /** An error that one row and its own children give: neither a re-entry nor a row left over. */
  ghost predicate OfOneRow(error: CodecError) {
    !Reentered(error) && error != OrphanedRows
  }

  lemma OpeningIsOfOneRow(lib: Library, rows: seq<Row>, row: Row, want: Want)
    ensures Opening(lib, rows, row, want).Some? ==> OfOneRow(Opening(lib, rows, row, want).value)
  {
  }

  lemma AssemblingIsOfOneRow(lib: Library, row: Row, want: Want, lists: seq<seq<Item>>)
    requires row.columns.payload.Fields? && KindFits(row.columns.kind, want)
    requires Matches(lists, PartsOf(row.columns.kind))
    ensures Assemble(lib, row, want, lists).Err? ==> OfOneRow(Assemble(lib, row, want, lists).error)
  {
  }

  lemma {:induction false} RowEntersOnce(lib: Library, rows: seq<Row>, row: Row, want: Want, active: set<int>,
                                         consumed: set<int>)
    requires Keyed(rows) && UniqueIds(rows) && row in rows && row.id !in consumed && active <= consumed
    requires ParentClosed(rows, consumed) && (row.parent.Some? ==> row.parent.value in consumed)
    ensures var decoded := DecodeRow(lib, rows, row, want, active, consumed);
            && (decoded.Failed? ==> OfOneRow(decoded.error))
            && (decoded.Done? ==> && ParentClosed(rows, decoded.consumed)
                                  && NewUnder(rows, {row.id}, consumed, decoded.consumed))
    decreases IdsOf(rows) - consumed, 0, 0
  {
    hide Related, Opening, Assemble, Children, DecodeParts, PartsOf, UniqueIds, Matches, KindFits;
    assert row.id in IdsOf(rows);
    OpeningIsOfOneRow(lib, rows, row, want);
    PartsAreDistinct(row.columns.kind);
    var parts := PartsOf(row.columns.kind);
    PartsEnterOnce(lib, rows, row.id, parts, active + {row.id}, consumed + {row.id});
    var lists := DecodeParts(lib, rows, row.id, parts, active + {row.id}, consumed + {row.id});
    if KindFits(row.columns.kind, want) && Opening(lib, rows, row, want).None? && lists.Done? {
      OpenedRow(lib, rows, row, want, active + {row.id}, consumed + {row.id});
      AssemblingIsOfOneRow(lib, row, want, lists.value);
    }
  }

  lemma {:induction false} PartsEnterOnce(lib: Library, rows: seq<Row>, parent: int, parts: seq<Part>,
                                          active: set<int>, consumed: set<int>)
    requires Keyed(rows) && UniqueIds(rows) && active <= consumed && parent in consumed
    requires ParentClosed(rows, consumed) && RelationsDistinct(parts)
    requires Untaken(rows, parent, parts, consumed)
    ensures var decoded := DecodeParts(lib, rows, parent, parts, active, consumed);
            && (decoded.Failed? ==> OfOneRow(decoded.error))
            && (decoded.Done? ==> && ParentClosed(rows, decoded.consumed)
                                  && NewUnderParent(rows, parent, consumed, decoded.consumed))
    decreases IdsOf(rows) - consumed, 2, |parts|
  {
    hide Related, DecodeRows, UniqueIds, RelationOf, RelationsDistinct, Sorted, Untaken;
    if parts != [] {
      var list := Related(rows, Some(parent), parts[0].relation);
      FirstPartIsUntaken(rows, parent, parts, consumed);
      RowsEnterOnce(lib, rows, list, Some(parent), parts[0].want, active, consumed);
      var head := DecodeRows(lib, rows, list, parts[0].want, active, consumed);
      if head.Done? {
        OtherPartsAreUntaken(rows, parent, parts, consumed, head.consumed);
        PartsEnterOnce(lib, rows, parent, parts[1..], active, head.consumed);
      }
    }
  }

  /** No child under these relations was consumed yet. */
  ghost predicate Untaken(rows: seq<Row>, parent: int, parts: seq<Part>, consumed: set<int>) {
    forall row | row in rows && row.parent == Some(parent) && row.id in consumed ::
      !RelationOf(parts, row.columns.relation)
  }

  lemma FirstPartIsUntaken(rows: seq<Row>, parent: int, parts: seq<Part>, consumed: set<int>)
    requires UniqueIds(rows) && parts != [] && Untaken(rows, parent, parts, consumed)
    ensures var list := Related(rows, Some(parent), parts[0].relation);
            Sorted(list) && forall r | r in list :: r in rows && r.parent == Some(parent) && r.id !in consumed
  {
    hide Related, UniqueIds, RelationOf, Sorted;
    RelatedIsRow(rows, Some(parent), parts[0].relation);
    ChildrenAreSorted(rows, Some(parent));
    RelationKeepsOrder(Children(rows, Some(parent)), parts[0].relation);
    RelatedUnfolds(rows, Some(parent), parts[0].relation);
    RelationCons(parts, parts[0].relation);
  }

  lemma OtherPartsAreUntaken(rows: seq<Row>, parent: int, parts: seq<Part>, before: set<int>, after: set<int>)
    requires Keyed(rows) && parts != [] && RelationsDistinct(parts) && Untaken(rows, parent, parts, before)
    requires parent in before
    requires NewUnder(rows, IdsOf(Related(rows, Some(parent), parts[0].relation)), before, after)
    ensures Untaken(rows, parent, parts[1..], after) && RelationsDistinct(parts[1..])
  {
    hide Related, RelationOf, RelationsDistinct;
    RelatedIsRow(rows, Some(parent), parts[0].relation);
    RelationCons(parts, parts[0].relation);
    forall row | row in rows && row.parent == Some(parent) && row.id in after
      ensures !RelationOf(parts[1..], row.columns.relation)
    {
      RelationCons(parts, row.columns.relation);
    }
  }

  lemma RelatedUnfolds(rows: seq<Row>, parent: Option<int>, relation: Relation)
    ensures Related(rows, parent, relation) == WithRelation(Children(rows, parent), relation)
  {
  }

  ghost predicate NewUnderParent(rows: seq<Row>, parent: int, before: set<int>, after: set<int>) {
    forall row | row in rows && row.id in after - before ::
      row.parent.Some? && (row.parent.value == parent || row.parent.value in after - before)
  }

  lemma {:induction false} RowsEnterOnce(lib: Library, rows: seq<Row>, list: seq<Row>, parent: Option<int>, want: Want,
                                         active: set<int>, consumed: set<int>)
    requires Keyed(rows) && UniqueIds(rows) && active <= consumed && ParentClosed(rows, consumed)
    requires parent.Some? ==> parent.value in consumed
    requires Sorted(list) && forall r | r in list :: r in rows && r.parent == parent && r.id !in consumed
    ensures var decoded := DecodeRows(lib, rows, list, want, active, consumed);
            && (decoded.Failed? ==> OfOneRow(decoded.error))
            && (decoded.Done? ==> && ParentClosed(rows, decoded.consumed)
                                  && NewUnder(rows, IdsOf(list), consumed, decoded.consumed))
    decreases IdsOf(rows) - consumed, 1, |list|
  {
    hide DecodeRow, UniqueIds, Keyed;
    if list != [] {
      MemberOfCons(list);
      RowEntersOnce(lib, rows, list[0], want, active, consumed);
      var head := DecodeRow(lib, rows, list[0], want, active, consumed);
      if head.Done? {
        forall r | r in list[1..]
          ensures r.id !in head.consumed
        {
          assert r.id != list[0].id;
        }
        RowsEnterOnce(lib, rows, list[1..], parent, want, active, head.consumed);
        assert IdsOf(list) == {list[0].id} + IdsOf(list[1..]);
      }
    }
  }

  /** With unique ids the two re-entry errors cannot occur, whatever else is wrong. */
  lemma UniqueRowsAreEnteredOnce(lib: Library, rows: seq<Row>)
    requires UniqueIds(rows)
    ensures DecodeTree(lib, rows).Err? ==> !Reentered(DecodeTree(lib, rows).error)
  {
    hide DecodeRows, Children, WithRelation, Sorted;
    RelatedIsRow(rows, None, RelSegments);
    ChildrenAreSorted(rows, None);
    RelationKeepsOrder(Children(rows, None), RelSegments);
    UniqueIsKeyed(rows);
    RowsEnterOnce(lib, rows, Related(rows, None, RelSegments), None, WantSegment, {}, {});
  }

  lemma UniqueIsKeyed(rows: seq<Row>)
    requires UniqueIds(rows)
    ensures Keyed(rows)
  {
  }

  // ----- witnesses -----

  function RowOf(id: int, parent: Option<int>, relation: Relation, kind: Kind): Row {
    Row(id, 1, parent, Columns(relation, kind, 0, 0, Fields(map[]), NO_IDENTITY, NO_PROVENANCE))
  }

  lemma OneMoreChild(rows: seq<Row>, row: Row, parent: Option<int>)
    ensures Children(rows + [row], parent)
            == if row.parent == parent then InsertSorted(Children(rows, parent), row) else Children(rows, parent)
  {
    assert (rows + [row])[..|rows|] == rows;
  }

  lemma OneRoot(row: Row)
    requires row.parent == None && row.columns.relation == RelSegments
    ensures Children([row], None) == [row] && Related([row], None, RelSegments) == [row]
  {
    assert [] + [row] == [row] && Children([], None) == [];
    OneMoreChild([], row, None);
    assert [row][1..] == [] && WithRelation([row][1..], RelSegments) == [];
  }

  /** A row set with a parent cycle whose decoding ends in another error: a root of an unknown kind is
      met first. */
  lemma CycleMayShowAnotherError(lib: Library) returns (rows: seq<Row>)
    ensures UniqueIds(rows) && Uprooted(rows, {2, 3}) && {2, 3} <= IdsOf(rows)
    ensures DecodeTree(lib, rows) == Err(UnsupportedKind)
  {
    hide DecodeRows, Related;
    var root := RowOf(1, None, RelSegments, KindOther("poll"));
    var a, b := RowOf(2, Some(3), RelContent, KindText), RowOf(3, Some(2), RelContent, KindText);
    rows := [root, a, b];
    assert rows[..2] == [root, a] && rows[..2][..1] == [root] && [root][..0] == [];
    assert Without([root], {2, 3}) == [root] && Without([root, a], {2, 3}) == [root];
    assert rows[1] in rows && rows[2] in rows;
    UprootedRowsAreOrphans(lib, rows, {2, 3});
    OneRoot(root);
    FirstError(lib, [root], root);
  }

  lemma FirstError(lib: Library, rows: seq<Row>, root: Row)
    requires Related(rows, None, RelSegments) == [root] && root in rows
    requires root.columns.kind.KindOther? && root.columns.payload.Fields?
    ensures DecodeTree(lib, rows) == Err(UnsupportedKind)
  {
    hide Related;
    RelatedIsRow(rows, None, RelSegments);
    assert Opening(lib, rows, root, WantSegment) == Some(UnsupportedKind);
    assert DecodeRow(lib, rows, root, WantSegment, {}, {}) == Failed(UnsupportedKind);
  }

  /** Without unique ids a row can be entered twice: two roots with the same id. */
  lemma RepeatedIdIsReferencedTwice(lib: Library) returns (rows: seq<Row>)
    ensures !UniqueIds(rows) && DecodeTree(lib, rows) == Err(ReferencedTwice)
  {
    var root := RowOf(1, None, RelSegments, KindUnknown);
    rows := [root, root];
    assert rows[0].id == rows[1].id;
    OneRoot(root);
    OneMoreChild([root], root, None);
    assert [root][1..] == [] && InsertSorted([root][1..], root) == [root];
    assert [root] + [root] == rows && rows[1..] == [root];
    assert WithRelation([root], RelSegments) == [root];
    NoChildren(rows, 1);
    EnteredTwice(lib, rows, root);
  }

  lemma NoChildren(rows: seq<Row>, id: int)
    requires forall row | row in rows :: row.parent == None
    ensures Children(rows, Some(id)) == []
  {
    ChildIsRow(rows, Some(id));
    assert Children(rows, Some(id)) != [] ==> Children(rows, Some(id))[0] in Children(rows, Some(id));
  }

  lemma EnteredTwice(lib: Library, rows: seq<Row>, root: Row)
    requires rows == [root, root] && root == RowOf(1, None, RelSegments, KindUnknown)
    requires Related(rows, None, RelSegments) == [root, root] && Children(rows, Some(1)) == []
    ensures DecodeTree(lib, rows) == Err(ReferencedTwice)
  {
    hide Children, WithRelation;
    RelatedIsRow(rows, None, RelSegments);
    assert [root, root][1..] == [root];
    assert Opening(lib, rows, root, WantSegment) == None;
    assert DecodeParts(lib, rows, root.id, PartsOf(root.columns.kind), {} + {root.id}, {} + {root.id})
           == Done([], {} + {root.id});
    assert Assemble(lib, root, WantSegment, []).Ok? && Children(rows, Some(root.id)) == [];
    var first := DecodeRow(lib, rows, root, WantSegment, {}, {});
    assert first.Done? && root.id in first.consumed;
    assert DecodeRows(lib, rows, [root], WantSegment, {}, first.consumed) == Failed(ReferencedTwice);
  }
}
