/** Encoding, storing under any ids, shuffling the rows and decoding gives the message back. */
module CodecRoundTrip {
  import opened Values
  import opened Sequences
  import opened Domain
  import opened Parser
  import opened ParserAccounting
  import opened MessageRows
  import opened CodecBlocks

  // ----- one row back -----

  lemma ColumnsReadBack(identity: Identity, provenance: Provenance)
    ensures IdentityAs(identity) != NO_IDENTITY && IdentityFrom(IdentityAs(identity)) == Ok(identity)
    ensures ProvenanceAs(provenance) != NO_PROVENANCE && ProvenanceFrom(ProvenanceAs(provenance)) == Ok(provenance)
  {
  }

  lemma DatetimeReadsBack(lib: Library, time: Option<Time>)
    requires lib.Lawful()
    ensures DatetimeFrom(lib, DatetimeAs(lib, time)) == Ok(time)
  {
  }

  lemma SegmentsReadBack(segments: seq<Segment>, nodes: seq<ForwardNode>)
    ensures SegmentsIn(OfSegments(segments)) == segments && NodesIn(OfNodes(nodes)) == nodes
  {
  }

  /** A row with the columns of an item passes every check and assembles to that item. */
  lemma RowReadsBack(lib: Library, rows: seq<Row>, row: Row, item: Item, index: nat, relation: Relation, depth: nat)
    requires lib.Lawful()
    requires row.columns == ColumnsOf(lib, item, index, relation, depth)
    requires row.columns.kind == KindReply ==> |Related(rows, Some(row.id), RelResolvedMessage)| <= 1
    ensures KindFits(row.columns.kind, WantOf(item)) && Opening(lib, rows, row, WantOf(item)).None?
    ensures Matches(ChildrenOf(item), PartsOf(row.columns.kind)) && row.columns.payload.Fields?
    ensures Assemble(lib, row, WantOf(item), ChildrenOf(item)) == Ok(item)
  {
    hide Related, IdentityAs, IdentityFrom, ProvenanceAs, ProvenanceFrom, DatetimeAs, DatetimeFrom;
    match item
    case OfNode(node) =>
      ColumnsReadBack(node.sender, node.provenance);
      DatetimeReadsBack(lib, node.timestamp);
      SegmentsReadBack(node.content, []);
    case OfResolved(message) =>
      ColumnsReadBack(message.author, Provenance(DirectEvent, None, None, 0));
      DatetimeReadsBack(lib, message.timestamp);
      SegmentsReadBack(message.segments, []);
    case OfSegment(segment) =>
      SegmentReadsBack(row.columns, segment);
  }

  lemma SegmentReadsBack(columns: Columns, segment: Segment)
    requires columns.payload == SegmentPayload(segment) && columns.kind == KindOf(OfSegment(segment))
    requires columns.position == segment.position
    ensures Matches(ChildrenOf(OfSegment(segment)), PartsOf(columns.kind))
    ensures SegmentFrom(columns, ChildrenOf(OfSegment(segment))) == Ok(segment)
  {
    hide SegmentFrom, SegmentPayload;
    match segment {
      case Forward(_, _, _, _, _, _, _, _) => ForwardReadsBack(columns, segment);
      case Reply(_, _, _, _, _, _, _) => ReplyReadsBack(columns, segment);
      case _ => LeafReadsBack(columns, segment);
    }
  }

  lemma ForwardReadsBack(columns: Columns, segment: Segment)
    requires columns.payload == SegmentPayload(segment) && columns.kind == KindForward && segment.Forward?
    requires columns.position == segment.position
    ensures SegmentFrom(columns, ChildrenOf(OfSegment(segment))) == Ok(segment)
  {
    hide ForwardStatusOf, ForwardStatusText;
    SegmentsReadBack(segment.content, segment.nodes);
  }

  lemma ReplyReadsBack(columns: Columns, segment: Segment)
    requires columns.payload == SegmentPayload(segment) && columns.kind == KindReply && segment.Reply?
    requires columns.position == segment.position
    ensures SegmentFrom(columns, ChildrenOf(OfSegment(segment))) == Ok(segment)
  {
    hide ReplyStatusOf, ReplyStatusText;
  }

  lemma LeafReadsBack(columns: Columns, segment: Segment)
    requires columns.payload == SegmentPayload(segment) && columns.kind == KindOf(OfSegment(segment))
    requires columns.position == segment.position && !segment.Forward? && !segment.Reply?
    ensures SegmentFrom(columns, ChildrenOf(OfSegment(segment))) == Ok(segment)
  {
  }

  // ----- rows of a stored encoding, in any order -----

  /** These rows are the stored nodes, shuffled. */
  ghost predicate Shuffled(rows: seq<Row>, nodes: seq<Node>, ids: seq<int>, messageId: int) {
    && |ids| == |nodes| && ParentsEarlier(nodes)
    && NoDuplicates(ids)
    && UniqueIds(rows)
    && forall r :: r in rows <==> r in Stored(nodes, ids, messageId)
  }

  lemma ShuffledFacts(rows: seq<Row>, nodes: seq<Node>, ids: seq<int>, messageId: int)
    requires Shuffled(rows, nodes, ids, messageId)
    ensures |ids| == |nodes| && ParentsEarlier(nodes) && NoDuplicates(ids)
    ensures forall r :: r in rows <==> r in Stored(nodes, ids, messageId)
  {
  }

  /** The block stands in the list of nodes at this index. */
  ghost predicate StandsAt(nodes: seq<Node>, low: nat, block: seq<Node>) {
    low + |block| <= |nodes| && nodes[low..low + |block|] == block
  }

  lemma SplitBlock(nodes: seq<Node>, low: nat, a: seq<Node>, b: seq<Node>)
    requires StandsAt(nodes, low, a + b)
    ensures StandsAt(nodes, low, a) && StandsAt(nodes, low + |a|, b)
  {
    assert nodes[low..low + |a + b|][..|a|] == nodes[low..low + |a|];
    assert nodes[low..low + |a + b|][|a|..] == nodes[low + |a|..low + |a| + |b|];
  }

  lemma InBlock(nodes: seq<Node>, low: nat, block: seq<Node>, j: nat)
    requires StandsAt(nodes, low, block) && low <= j < low + |block|
    ensures nodes[j] == block[j - low]
  {
  }

  /** No node outside the range hangs under a node inside it. */
  ghost predicate Owned(nodes: seq<Node>, low: nat, high: nat) {
    forall i | 0 <= i < |nodes| && !(low <= i < high) :: HangsOutside(nodes[i], low, high)
  }

  ghost predicate HangsOutside(node: Node, low: nat, high: nat) {
    node.parent.Some? ==> !(low <= node.parent.value < high)
  }

  lemma OwnedSplits(nodes: seq<Node>, low: nat, a: seq<Node>, b: seq<Node>, parent: Option<nat>)
    requires StandsAt(nodes, low, a) && StandsAt(nodes, low + |a|, b)
    requires Owned(nodes, low, low + |a| + |b|)
    requires Block(a, low, parent) && Block(b, low + |a|, parent)
    requires parent.Some? ==> parent.value < low
    ensures Owned(nodes, low, low + |a|) && Owned(nodes, low + |a|, low + |a| + |b|)
  {
  }

  function IdsIn(ids: seq<int>, low: nat, high: nat): set<int>
    requires low <= high <= |ids|
  {
    set j | low <= j < high :: ids[j]
  }

  function ParentId(ids: seq<int>, parent: Option<nat>): Option<int>
    requires parent.Some? ==> parent.value < |ids|
  {
    if parent.Some? then Some(ids[parent.value]) else None
  }

  ghost predicate Within(indices: seq<nat>, bound: int) {
    forall i | 0 <= i < |indices| :: indices[i] < bound
  }

  /** The stored rows at these indices. */
  function RowsAt(stored: seq<Row>, indices: seq<nat>): (rows: seq<Row>)
    requires Within(indices, |stored|)
  {
    seq(|indices|, i requires 0 <= i < |indices| => stored[indices[i]])
  }

  lemma RowsAtCons(stored: seq<Row>, indices: seq<nat>)
    requires Within(indices, |stored|) && indices != []
    ensures Within(indices[1..], |stored|)
    ensures RowsAt(stored, indices) == [stored[indices[0]]] + RowsAt(stored, indices[1..])
  {
  }

  lemma {:induction false} RootsAreInside(items: seq<Item>, base: nat)
    ensures |Roots(items, base)| == |items| && Within(Roots(items, base), base + ItemsSize(items))
  {
    hide Size;
    if items != [] {
      SizeUnfolds(items[0]);
      RootsAreInside(items[1..], base + Size(items[0]));
    }
  }

  /** The rows of an ordered list ascend. */
  lemma {:induction false} RootRowsAscend(
      lib: Library, nodes: seq<Node>, stored: seq<Row>, items: seq<Item>, index: nat, base: nat,
      parent: Option<nat>, relation: Relation, depth: nat)
    requires |stored| == |nodes| && forall i | 0 <= i < |nodes| :: stored[i].columns == nodes[i].columns
    requires StandsAt(nodes, base, EncodeItems(lib, items, index, base, parent, relation, depth))
    requires ItemsOrdered(items, index)
    requires parent.Some? ==> parent.value < base
    requires Within(Roots(items, base), |stored|)
    ensures Ascending(RowsAt(stored, Roots(items, base)))
    ensures items != [] ==> base < |stored| && stored[base].columns.position == PositionOf(items[0], index)
    decreases |items|
  {
    hide EncodeItem, ColumnsOf, Size, Ordered, PositionOf, RowsAt, Block;
    if items == [] {
      assert RowsAt(stored, []) == [] by {
        NoRows(stored);
      }
    } else {
      var head := EncodeItem(lib, items[0], index, base, parent, relation, depth);
      var rest := EncodeItems(lib, items[1..], index + 1, base + |head|, parent, relation, depth);
      ItemIsBlock(lib, items[0], index, base, parent, relation, depth);
      SizeUnfolds(items[0]);
      FirstNode(lib, items[0], index, base, parent, relation, depth);
      ColumnsKeepRelation(lib, items[0], index, relation, depth);
      SplitBlock(nodes, base, head, rest);
      InBlock(nodes, base, head, base);
      RowsAtCons(stored, Roots(items, base));
      assert Roots(items, base)[1..] == Roots(items[1..], base + |head|);
      RootRowsAscend(lib, nodes, stored, items[1..], index + 1, base + |head|, parent, relation, depth);
      if items[1..] != [] {
        RowsAtCons(stored, Roots(items[1..], base + |head|));
        assert items[1..][0] == items[1];
      } else {
        NoRows(stored);
      }
      AscendingCons(stored[base], RowsAt(stored, Roots(items[1..], base + |head|)));
    }
  }

  lemma NoRows(stored: seq<Row>)
    ensures RowsAt(stored, []) == []
  {
  }

  lemma AscendingCons(first: Row, rest: seq<Row>)
    requires Ascending(rest)
    requires rest != [] ==> first.columns.position < rest[0].columns.position
    ensures Ascending([first] + rest)
  {
  }

  /** In a whole list of nodes, those under the parent with the relation are exactly the roots. */
  lemma RootsInWhole(lib: Library, nodes: seq<Node>, items: seq<Item>, base: nat, parent: Option<nat>,
                     relation: Relation, depth: nat)
    requires parent.Some? ==> parent.value < base
    requires StandsAt(nodes, base, EncodeItems(lib, items, 0, base, parent, relation, depth))
    requires forall j | 0 <= j < |nodes| && !(base <= j < base + ItemsSize(items)) ::
               nodes[j].parent == parent ==> nodes[j].columns.relation != relation
    ensures forall j | 0 <= j < |nodes| ::
              nodes[j].parent == parent && nodes[j].columns.relation == relation <==> j in Roots(items, base)
  {
    hide EncodeItems, Roots, Block, ItemsSize;
    var block, roots := EncodeItems(lib, items, 0, base, parent, relation, depth), Roots(items, base);
    ItemsAreBlock(lib, items, 0, base, parent, relation, depth);
    RootsAreTheChildren(lib, items, 0, base, parent, relation, depth);
    RootsAreInside(items, base);
    RootsAreAbove(items, base);
    forall j | 0 <= j < |nodes|
      ensures nodes[j].parent == parent && nodes[j].columns.relation == relation <==> j in roots
    {
      if base <= j < base + |block| {
        InBlock(nodes, base, block, j);
        assert RootIff(block[j - base], parent, relation, base + (j - base) in roots);
      }
    }
  }

  lemma MatchingRowsAreTheRoots(rows: seq<Row>, nodes: seq<Node>, ids: seq<int>, messageId: int, roots: seq<nat>,
                                parent: Option<nat>, relation: Relation)
    requires Shuffled(rows, nodes, ids, messageId)
    requires parent.Some? ==> parent.value < |ids|
    requires Within(roots, |nodes|)
    requires forall j | 0 <= j < |nodes| ::
               nodes[j].parent == parent && nodes[j].columns.relation == relation <==> j in roots
    ensures forall r :: r in RowsAt(Stored(nodes, ids, messageId), roots)
                        <==> r in rows && r.parent == ParentId(ids, parent) && r.columns.relation == relation
  {
    hide UniqueIds;
    var stored := Stored(nodes, ids, messageId);
    var expected := RowsAt(stored, roots);
    forall r
      ensures r in expected <==> r in stored && r.parent == ParentId(ids, parent) && r.columns.relation == relation
    {
      if r in expected {
        var i :| 0 <= i < |expected| && expected[i] == r;
        assert roots[i] in roots && stored[roots[i]] == r;
      }
      if r in stored && r.parent == ParentId(ids, parent) && r.columns.relation == relation {
        var j :| 0 <= j < |stored| && stored[j] == r;
        assert nodes[j].parent == parent;
        var i :| 0 <= i < |roots| && roots[i] == j;
        assert expected[i] == r;
      }
    }
  }

  /** Reading the children of a stored parent finds exactly the roots of the encoded list. */
  lemma RelatedAreTheRoots(lib: Library, rows: seq<Row>, nodes: seq<Node>, ids: seq<int>, messageId: int,
                           items: seq<Item>, base: nat, parent: Option<nat>, relation: Relation, depth: nat)
    requires Shuffled(rows, nodes, ids, messageId)
    requires parent.Some? ==> parent.value < base
    requires parent.Some? ==> parent.value < |ids|
    requires StandsAt(nodes, base, EncodeItems(lib, items, 0, base, parent, relation, depth))
    requires ItemsOrdered(items, 0)
    requires forall j | 0 <= j < |nodes| && !(base <= j < base + ItemsSize(items)) ::
               nodes[j].parent == parent ==> nodes[j].columns.relation != relation
    ensures |Roots(items, base)| == |items| && Within(Roots(items, base), |nodes|)
    ensures Related(rows, ParentId(ids, parent), relation)
            == RowsAt(Stored(nodes, ids, messageId), Roots(items, base))
  {
    hide EncodeItems, ItemsOrdered, Ascending, Related, Roots, RowsAt, UniqueIds, ItemsSize;
    ItemsAreBlock(lib, items, 0, base, parent, relation, depth);
    RootsAreInside(items, base);
    RootsInWhole(lib, nodes, items, base, parent, relation, depth);
    MatchingRowsAreTheRoots(rows, nodes, ids, messageId, Roots(items, base), parent, relation);
    RootRowsAscend(lib, nodes, Stored(nodes, ids, messageId), items, 0, base, parent, relation, depth);
    RelatedIs(rows, ParentId(ids, parent), relation, RowsAt(Stored(nodes, ids, messageId), Roots(items, base)));
  }

  // ----- the whole tree back -----

  ghost predicate UsesRelations(node: Node, parent: nat, parts: seq<Part>) {
    node.parent == Some(parent) ==> RelationOf(parts, node.columns.relation)
  }

  ghost predicate AllUseRelations(nodes: seq<Node>, parent: nat, parts: seq<Part>) {
    forall j | 0 <= j < |nodes| :: UsesRelations(nodes[j], parent, parts)
  }

  lemma UsesCons(head: seq<Node>, rest: seq<Node>, base: nat, parent: nat, parts: seq<Part>, roots: seq<nat>)
    requires parts != []
    requires RootsIn(head, base, Some(parent), parts[0].relation, roots)
    requires AllUseRelations(rest, parent, parts[1..])
    ensures AllUseRelations(head + rest, parent, parts)
  {
  }

  /** Nodes directly under the parent, in the block of its parts, carry the parts' relations. */
  lemma {:induction false} PartsUseTheirRelations(lib: Library, parts: seq<Part>, lists: seq<seq<Item>>, base: nat,
                                                  parent: nat, depth: nat)
    requires |parts| == |lists| && parent < base
    ensures AllUseRelations(EncodeParts(lib, parts, lists, base, parent, depth), parent, parts)
    decreases |parts|
  {
    hide EncodeItems, Roots, RootsIn;
    if parts != [] {
      var head := EncodeItems(lib, lists[0], 0, base, Some(parent), parts[0].relation, depth);
      var rest := EncodeParts(lib, parts[1..], lists[1..], base + |head|, parent, depth);
      RootsAreTheChildren(lib, lists[0], 0, base, Some(parent), parts[0].relation, depth);
      PartsUseTheirRelations(lib, parts[1..], lists[1..], base + |head|, parent, depth);
      UsesCons(head, rest, base, parent, parts, Roots(lists[0], base));
    }
  }

  lemma OrderedUnfolds(item: Item)
    ensures Ordered(item) ==> ListsOrdered(ChildrenOf(item))
  {
  }

  lemma KindIsKept(lib: Library, item: Item, index: nat, relation: Relation, depth: nat)
    ensures ColumnsOf(lib, item, index, relation, depth).kind == KindOf(item)
    ensures RelationsDistinct(PartsOf(KindOf(item)))
    ensures KindOf(item) == KindReply ==>
              && PartsOf(KindOf(item)) != [] && PartsOf(KindOf(item))[0].relation == RelResolvedMessage
              && |ChildrenOf(item)[0]| <= 1
  {
  }

  lemma InnerIsOwned(nodes: seq<Node>, low: nat, high: nat)
    requires low < high <= |nodes| && Owned(nodes, low, high)
    requires nodes[low].parent.Some? ==> nodes[low].parent.value < low
    ensures Owned(nodes, low + 1, high)
  {
  }

  lemma IdsSplit(ids: seq<int>, low: nat, middle: nat, high: nat, consumed: set<int>)
    requires low <= middle <= high <= |ids|
    requires NoDuplicates(ids)
    requires IdsIn(ids, low, high) !! consumed
    ensures IdsIn(ids, low, middle) !! consumed
    ensures IdsIn(ids, middle, high) !! consumed + IdsIn(ids, low, middle)
    ensures consumed + IdsIn(ids, low, middle) + IdsIn(ids, middle, high) == consumed + IdsIn(ids, low, high)
  {
  }

  lemma NoIds(ids: seq<int>, at: nat)
    requires at <= |ids|
    ensures IdsIn(ids, at, at) == {}
  {
  }

  /** Decoding the stored rows of a list gives the list, and consumes exactly its block. */
  lemma {:induction false} ItemsDecodeBack(
    lib: Library, rows: seq<Row>, nodes: seq<Node>, ids: seq<int>, messageId: int,
    items: seq<Item>, index: nat, base: nat, parent: Option<nat>, relation: Relation, depth: nat, want: Want,
    active: set<int>, consumed: set<int>)
    requires lib.Lawful() && Shuffled(rows, nodes, ids, messageId)
    requires parent.Some? ==> parent.value < base
    requires StandsAt(nodes, base, EncodeItems(lib, items, index, base, parent, relation, depth))
    requires base + ItemsSize(items) <= |nodes| && Owned(nodes, base, base + ItemsSize(items))
    requires ItemsOrdered(items, index) && AllWant(items, want)
    requires Within(Roots(items, base), |nodes|)
    requires forall r | r in RowsAt(Stored(nodes, ids, messageId), Roots(items, base)) :: r in rows
    requires IdsIn(ids, base, base + ItemsSize(items)) !! consumed && active <= consumed
    ensures DecodeRows(lib, rows, RowsAt(Stored(nodes, ids, messageId), Roots(items, base)), want, active, consumed)
            == Done(items, consumed + IdsIn(ids, base, base + ItemsSize(items)))
    decreases ItemsSize(items), 1, |items|
  {
    hide EncodeItem, EncodeItems, Ordered, Size, DecodeRow, IdsOf, Shuffled, Owned, IdsIn, RowsAt, StandsAt,
         Stored, ParentsEarlier, NoDuplicates, Within, PositionOf, Roots, ItemsSize;
    ShuffledFacts(rows, nodes, ids, messageId);
    var stored := Stored(nodes, ids, messageId);
    if items == [] {
      NoItems(stored, base);
      NoIds(ids, base);
    } else {
      ListBlock(lib, nodes, items, index, base, parent, relation, depth);
      var middle, high := base + Size(items[0]), base + ItemsSize(items);
      IdsSplit(ids, base, middle, high, consumed);
      var list := RowsAt(stored, Roots(items, base));
      RowsAtCons(stored, Roots(items, base));
      MemberOfCons(list);
      ItemDecodesBack(lib, rows, nodes, ids, messageId, items[0], index, base, parent, relation, depth, active, consumed);
      assert active <= consumed + IdsIn(ids, base, middle);
      ItemsDecodeBack(lib, rows, nodes, ids, messageId, items[1..], index + 1, middle, parent, relation, depth, want,
                      active, consumed + IdsIn(ids, base, middle));
      assert items == [items[0]] + items[1..];
    }
  }

  lemma NoItems(stored: seq<Row>, base: nat)
    ensures Roots([], base) == [] && ItemsSize([]) == 0 && RowsAt(stored, []) == []
  {
  }

  /** Where the first item of a list and the others stand, and what each of them owns. */
  lemma ListBlock(lib: Library, nodes: seq<Node>, items: seq<Item>, index: nat, base: nat, parent: Option<nat>,
                  relation: Relation, depth: nat)
    requires items != [] && (parent.Some? ==> parent.value < base)
    requires StandsAt(nodes, base, EncodeItems(lib, items, index, base, parent, relation, depth))
    requires base + ItemsSize(items) <= |nodes| && Owned(nodes, base, base + ItemsSize(items))
    ensures Size(items[0]) > 0 && base + ItemsSize(items) == base + Size(items[0]) + ItemsSize(items[1..])
    ensures StandsAt(nodes, base, EncodeItem(lib, items[0], index, base, parent, relation, depth))
    ensures StandsAt(nodes, base + Size(items[0]),
                     EncodeItems(lib, items[1..], index + 1, base + Size(items[0]), parent, relation, depth))
    ensures Owned(nodes, base, base + Size(items[0]))
    ensures Owned(nodes, base + Size(items[0]), base + ItemsSize(items))
    ensures Roots(items, base) == [base] + Roots(items[1..], base + Size(items[0]))
  {
    hide EncodeItem, Size, StandsAt, Owned, Block;
    var head := EncodeItem(lib, items[0], index, base, parent, relation, depth);
    var rest := EncodeItems(lib, items[1..], index + 1, base + |head|, parent, relation, depth);
    ItemIsBlock(lib, items[0], index, base, parent, relation, depth);
    ItemsAreBlock(lib, items[1..], index + 1, base + |head|, parent, relation, depth);
    SizeUnfolds(items[0]);
    SplitBlock(nodes, base, head, rest);
    OwnedSplits(nodes, base, head, rest, parent);
  }

  /** Decoding the parts under a stored row gives their lists, and consumes exactly their block. */
  lemma {:induction false} PartsDecodeBack(
    lib: Library, rows: seq<Row>, nodes: seq<Node>, ids: seq<int>, messageId: int,
    parts: seq<Part>, lists: seq<seq<Item>>, base: nat, parent: nat, depth: nat,
    active: set<int>, consumed: set<int>)
    requires lib.Lawful() && Shuffled(rows, nodes, ids, messageId)
    requires Matches(lists, parts) && RelationsDistinct(parts) && ListsOrdered(lists)
    requires parent < base && parent < |ids|
    requires StandsAt(nodes, base, EncodeParts(lib, parts, lists, base, parent, depth))
    requires base + ListsSize(lists) <= |nodes| && Owned(nodes, base, base + ListsSize(lists))
    requires forall j | 0 <= j < |nodes| && !(base <= j < base + ListsSize(lists)) ::
               nodes[j].parent == Some(parent) ==> !RelationOf(parts, nodes[j].columns.relation)
    requires IdsIn(ids, base, base + ListsSize(lists)) !! consumed && active <= consumed
    ensures DecodeParts(lib, rows, ids[parent], parts, active, consumed)
            == Done(lists, consumed + IdsIn(ids, base, base + ListsSize(lists)))
    ensures parts != [] ==> |Related(rows, Some(ids[parent]), parts[0].relation)| == |lists[0]|
    decreases ListsSize(lists), 2, |lists|
  {
    hide EncodeItems, ItemsOrdered, ItemsSize, Stored, DecodeRows, Related, IdsOf, UniqueIds, Roots;
    if parts == [] {
      NoIds(ids, base);
    } else {
      var part, list := parts[0], lists[0];
      var head := EncodeItems(lib, list, 0, base, Some(parent), part.relation, depth);
      var rest := EncodeParts(lib, parts[1..], lists[1..], base + |head|, parent, depth);
      var middle, high := base + |head|, base + ListsSize(lists);
      ItemsAreBlock(lib, list, 0, base, Some(parent), part.relation, depth);
      PartsAreBlock(lib, parts[1..], lists[1..], middle, parent, depth);
      SplitBlock(nodes, base, head, rest);
      OwnedSplits(nodes, base, head, rest, Some(parent));
      IdsSplit(ids, base, middle, high, consumed);
      HeadRelationIsAlone(lib, nodes, parts, lists, base, parent, depth);
      RelatedAreTheRoots(lib, rows, nodes, ids, messageId, list, base, Some(parent), part.relation, depth);
      RelatedIsRow(rows, Some(ids[parent]), part.relation);
      ItemsDecodeBack(lib, rows, nodes, ids, messageId, list, 0, base, Some(parent), part.relation, depth, part.want,
                      active, consumed);
      RootsAreInside(list, base);
      assert active <= consumed + IdsIn(ids, base, middle);
      assert Matches(lists[1..], parts[1..]);
      PartsDecodeBack(lib, rows, nodes, ids, messageId, parts[1..], lists[1..], middle, parent, depth,
                      active, consumed + IdsIn(ids, base, middle));
      assert lists == [list] + lists[1..];
    }
  }

  /** Under one parent, only the head's block holds the head's relation, and only the rest's
      block holds the others. */
  lemma HeadRelationIsAlone(lib: Library, nodes: seq<Node>, parts: seq<Part>, lists: seq<seq<Item>>, base: nat,
                            parent: nat, depth: nat)
    requires |parts| == |lists| && parts != [] && RelationsDistinct(parts) && parent < base
    requires StandsAt(nodes, base, EncodeParts(lib, parts, lists, base, parent, depth))
    requires base + ListsSize(lists) <= |nodes|
    requires forall j | 0 <= j < |nodes| && !(base <= j < base + ListsSize(lists)) ::
               nodes[j].parent == Some(parent) ==> !RelationOf(parts, nodes[j].columns.relation)
    ensures forall j | 0 <= j < |nodes| && !(base <= j < base + ItemsSize(lists[0])) ::
              nodes[j].parent == Some(parent) ==> nodes[j].columns.relation != parts[0].relation
    ensures forall j | 0 <= j < |nodes| && !(base + ItemsSize(lists[0]) <= j < base + ListsSize(lists)) ::
              nodes[j].parent == Some(parent) ==> !RelationOf(parts[1..], nodes[j].columns.relation)
    ensures RelationsDistinct(parts[1..])
  {
    hide EncodeItems, ItemsSize, Roots, RelationOf, Block, StandsAt, RelationsDistinct;
    var head := EncodeItems(lib, lists[0], 0, base, Some(parent), parts[0].relation, depth);
    var rest := EncodeParts(lib, parts[1..], lists[1..], base + |head|, parent, depth);
    ItemsAreBlock(lib, lists[0], 0, base, Some(parent), parts[0].relation, depth);
    PartsAreBlock(lib, parts[1..], lists[1..], base + |head|, parent, depth);
    RootsAreTheChildren(lib, lists[0], 0, base, Some(parent), parts[0].relation, depth);
    PartsUseTheirRelations(lib, parts[1..], lists[1..], base + |head|, parent, depth);
    SplitBlock(nodes, base, head, rest);
    BlockFits(nodes, base, head);
    BlockFits(nodes, base + |head|, rest);
    RelationCons(parts, parts[0].relation);
    forall j | 0 <= j < |nodes| && nodes[j].parent == Some(parent)
      ensures !(base <= j < base + |head|) ==> nodes[j].columns.relation != parts[0].relation
      ensures !(base + |head| <= j < base + ListsSize(lists)) ==> !RelationOf(parts[1..], nodes[j].columns.relation)
    {
      RelationCons(parts, nodes[j].columns.relation);
      if base <= j < base + |head| {
        InBlock(nodes, base, head, j);
        assert RootIff(head[j - base], Some(parent), parts[0].relation, base + (j - base) in Roots(lists[0], base));
      } else if base + |head| <= j < base + ListsSize(lists) {
        InBlock(nodes, base + |head|, rest, j);
        assert UsesRelations(rest[j - base - |head|], parent, parts[1..]);
      }
    }
  }

  lemma BlockFits(nodes: seq<Node>, low: nat, block: seq<Node>)
    requires StandsAt(nodes, low, block)
    ensures low + |block| <= |nodes|
  {
  }

  /** Where the parts of an item stand: just behind its own node, owned by it alone. */
  lemma InnerBlock(lib: Library, nodes: seq<Node>, item: Item, index: nat, base: nat, parent: Option<nat>,
                   relation: Relation, depth: nat)
    requires parent.Some? ==> parent.value < base
    requires StandsAt(nodes, base, EncodeItem(lib, item, index, base, parent, relation, depth))
    requires base + Size(item) <= |nodes| && Owned(nodes, base, base + Size(item))
    ensures nodes[base] == Node(parent, ColumnsOf(lib, item, index, relation, depth))
    ensures base + Size(item) == base + 1 + ListsSize(ChildrenOf(item))
    ensures StandsAt(nodes, base + 1, EncodeParts(lib, PartsOf(KindOf(item)), ChildrenOf(item), base + 1, base, depth + 1))
    ensures Owned(nodes, base + 1, base + Size(item))
    ensures forall j | 0 <= j < |nodes| && !(base + 1 <= j < base + Size(item)) :: nodes[j].parent != Some(base)
  {
    hide EncodeItem, EncodeParts, ColumnsOf, Size, PartsOf;
    SizeUnfolds(item);
    var block := EncodeItem(lib, item, index, base, parent, relation, depth);
    ItemIsBlock(lib, item, index, base, parent, relation, depth);
    FirstNode(lib, item, index, base, parent, relation, depth);
    assert block == [block[0]] + block[1..];
    SplitBlock(nodes, base, [block[0]], block[1..]);
    InBlock(nodes, base, block, base);
    InnerIsOwned(nodes, base, base + Size(item));
    forall j | 0 <= j < |nodes| && !(base + 1 <= j < base + Size(item))
      ensures nodes[j].parent != Some(base)
    {
      if j != base {
        assert HangsOutside(nodes[j], base, base + Size(item));
      }
    }
  }

  /** Every stored child of a row is in the row's own block. */
  lemma ChildrenAreInBlock(rows: seq<Row>, nodes: seq<Node>, ids: seq<int>, messageId: int, base: nat, high: nat)
    requires Shuffled(rows, nodes, ids, messageId) && base < high <= |ids|
    requires forall j | 0 <= j < |nodes| && !(base + 1 <= j < high) :: nodes[j].parent != Some(base)
    ensures forall child | child in Children(rows, Some(ids[base])) :: child.id in IdsIn(ids, base + 1, high)
  {
    hide UniqueIds;
    var stored := Stored(nodes, ids, messageId);
    ChildIsRow(rows, Some(ids[base]));
    forall child | child in Children(rows, Some(ids[base]))
      ensures child.id in IdsIn(ids, base + 1, high)
    {
      assert child in stored;
      var j :| 0 <= j < |stored| && stored[j] == child;
      assert nodes[j].parent == Some(base);
    }
  }

  /** Decoding the stored row of an item gives the item, and consumes exactly its block. */
  lemma {:induction false} ItemDecodesBack(
    lib: Library, rows: seq<Row>, nodes: seq<Node>, ids: seq<int>, messageId: int,
    item: Item, index: nat, base: nat, parent: Option<nat>, relation: Relation, depth: nat,
    active: set<int>, consumed: set<int>)
    requires lib.Lawful() && Shuffled(rows, nodes, ids, messageId)
    requires parent.Some? ==> parent.value < base
    requires StandsAt(nodes, base, EncodeItem(lib, item, index, base, parent, relation, depth))
    requires base + Size(item) <= |nodes| && Owned(nodes, base, base + Size(item))
    requires Ordered(item) && base < |nodes| && Stored(nodes, ids, messageId)[base] in rows
    requires IdsIn(ids, base, base + Size(item)) !! consumed && active <= consumed
    ensures DecodeRow(lib, rows, Stored(nodes, ids, messageId)[base], WantOf(item), active, consumed)
            == Done(item, consumed + IdsIn(ids, base, base + Size(item)))
    decreases Size(item), 0, 0
  {
    hide EncodeItem, EncodeParts, ColumnsOf, Opening, Assemble, DecodeParts, Related, Ordered, ListsOrdered, Size,
         IdsOf, Shuffled, Owned, StandsAt, IdsIn, Children, PartsOf, ChildrenOf, KindFits, KindOf, Matches,
         ParentsEarlier, NoDuplicates, RelationsDistinct, RelationOf;
    ShuffledFacts(rows, nodes, ids, messageId);
    OrderedUnfolds(item);
    InnerBlock(lib, nodes, item, index, base, parent, relation, depth);
    KindIsKept(lib, item, index, relation, depth);
    var row, parts, lists := Stored(nodes, ids, messageId)[base], PartsOf(KindOf(item)), ChildrenOf(item);
    var high := base + Size(item);
    IdsSplit(ids, base, base + 1, high, consumed);
    OneId(ids, base);
    PartsDecodeBack(lib, rows, nodes, ids, messageId, parts, lists, base + 1, base, depth + 1,
                    active + {row.id}, consumed + {row.id});
    RowReadsBack(lib, rows, row, item, index, relation, depth);
    ChildrenAreInBlock(rows, nodes, ids, messageId, base, high);
  }

  lemma OneId(ids: seq<int>, at: nat)
    requires at < |ids|
    ensures IdsIn(ids, at, at + 1) == {ids[at]}
  {
  }

  // ----- the theorem -----

  lemma CountOne<T>(items: seq<T>, k: nat)
    requires k < |items|
    requires forall i | 0 <= i < |items| && i != k :: items[i] != items[k]
    ensures multiset(items)[items[k]] == 1
  {
    assert items == items[..k] + [items[k]] + items[k + 1..];
    assert items[k] !in items[..k] && items[k] !in items[k + 1..];
  }

  lemma CountTwo<T>(items: seq<T>, i: nat, j: nat)
    requires i < j < |items| && items[i] == items[j]
    ensures multiset(items)[items[i]] >= 2
  {
    assert items == items[..j] + [items[j]] + items[j + 1..];
    assert items[i] == items[..j][i] && items[i] in items[..j];
  }

  /** Any order of the stored rows. */
  lemma PermutationIsShuffled(rows: seq<Row>, nodes: seq<Node>, ids: seq<int>, messageId: int)
    requires |ids| == |nodes| && ParentsEarlier(nodes) && NoDuplicates(ids)
    requires multiset(rows) == multiset(Stored(nodes, ids, messageId))
    ensures Shuffled(rows, nodes, ids, messageId)
  {
    var stored := Stored(nodes, ids, messageId);
    assert forall r :: r in rows <==> r in multiset(rows);
    assert forall r :: r in stored <==> r in multiset(stored);
    forall i, j | 0 <= i < j < |rows|
      ensures rows[i].id != rows[j].id
    {
      assert rows[i] in stored && rows[j] in stored;
      var k :| 0 <= k < |stored| && stored[k] == rows[i];
      var l :| 0 <= l < |stored| && stored[l] == rows[j];
      CountOne(stored, k);
      if rows[i] == rows[j] {
        CountTwo(rows, i, j);
      }
    }
  }

  lemma EncodingHasEarlierParents(lib: Library, items: seq<Item>)
    ensures ParentsEarlier(EncodeItems(lib, items, 0, 0, None, RelSegments, 0))
    ensures |EncodeItems(lib, items, 0, 0, None, RelSegments, 0)| == ItemsSize(items)
  {
    hide EncodeItems;
    var nodes := EncodeItems(lib, items, 0, 0, None, RelSegments, 0);
    ItemsAreBlock(lib, items, 0, 0, None, RelSegments, 0);
    assert forall j | 0 <= j < |nodes| :: HangsIn(nodes[j], 0, 0 + j, None);
  }

  lemma TreeRoundTrips(lib: Library, segments: seq<Segment>, ids: seq<int>, messageId: int, rows: seq<Row>)
    requires lib.Lawful() && ItemsOrdered(OfSegments(segments), 0)
    requires ParentsEarlier(EncodeItems(lib, OfSegments(segments), 0, 0, None, RelSegments, 0))
    requires Shuffled(rows, EncodeItems(lib, OfSegments(segments), 0, 0, None, RelSegments, 0), ids, messageId)
    ensures DecodeTree(lib, rows) == Ok(segments)
  {
    hide EncodeItems, ItemsOrdered, Related, DecodeRows, UniqueIds, Roots, RowsAt;
    var items := OfSegments(segments);
    var nodes := EncodeItems(lib, items, 0, 0, None, RelSegments, 0);
    var stored := Stored(nodes, ids, messageId);
    EncodingHasEarlierParents(lib, items);
    assert nodes[0..|nodes|] == nodes;
    RelatedAreTheRoots(lib, rows, nodes, ids, messageId, items, 0, None, RelSegments, 0);
    RelatedIsRow(rows, None, RelSegments);
    ItemsDecodeBack(lib, rows, nodes, ids, messageId, items, 0, 0, None, RelSegments, 0, WantSegment, {}, {});
    assert IdsOf(rows) == IdsIn(ids, 0, |ids|) by {
      forall j | 0 <= j < |ids|
        ensures ids[j] in IdsOf(rows)
      {
        assert stored[j] in stored;
      }
    }
    SegmentsReadBack(segments, []);
  }

  /** The round trip: whatever ids the database gives the nodes and in whatever order the rows
      come back, decoding restores the message, with the timestamp its column gives back. */
  lemma MessageRoundTrips(lib: Library, message: Message, parserName: string, parserVersion: string,
                          encoded: Encoded, timestamp: Option<Time>, ids: seq<int>, messageId: int, rows: seq<Row>)
    requires lib.Lawful() && ItemsOrdered(OfSegments(message.segments), 0)
    requires EncodeMessage(lib, message, parserName, parserVersion) == Ok(encoded)
    requires ParentsEarlier(encoded.nodes) && |ids| == |encoded.nodes| && NoDuplicates(ids)
    requires multiset(rows) == multiset(Stored(encoded.nodes, ids, messageId))
    ensures DecodeMessage(lib, encoded.record.(timestamp := timestamp), messageId, rows)
            == Ok(message.(timestamp := timestamp))
  {
    hide EncodeItems, ItemsOrdered, DecodeTree, UniqueIds, IdentityAs, IdentityFrom, ProvenanceAs, ProvenanceFrom;
    PermutationIsShuffled(rows, encoded.nodes, ids, messageId);
    TreeRoundTrips(lib, message.segments, ids, messageId, rows);
    ColumnsReadBack(message.actor, message.provenance);
    ColumnsReadBack(message.author, message.provenance);
  }

  /** Every message the parser builds from a stored receipt can be encoded, and unless its
      timestamp is naive it comes back from any shuffle of its stored rows. */
  lemma ParsedMessageRoundTrips(lib: Library, referenceKey: (Json, Json, bool) -> Json, maxDepth: nat, maxNodes: nat,
                                event: Json, rawEventId: int, parserName: string, parserVersion: string,
                                ids: seq<int>, messageId: int, rows: seq<Row>)
    returns (message: Message, encoded: Encoded)
    requires lib.Lawful() && event.Obj? && parserName != "" && parserVersion != ""
    requires MessageOf(lib, referenceKey, maxDepth, maxNodes, event, Some(rawEventId)).Some?
    ensures MessageOf(lib, referenceKey, maxDepth, maxNodes, event, Some(rawEventId)) == Some(message)
    ensures EncodeMessage(lib, message, parserName, parserVersion) == Ok(encoded) && ParentsEarlier(encoded.nodes)
    ensures StoredTime(message.timestamp).Ok? && |ids| == |encoded.nodes| && NoDuplicates(ids)
            && multiset(rows) == multiset(Stored(encoded.nodes, ids, messageId))
            ==> DecodeMessage(lib, encoded.record.(timestamp := StoredTime(message.timestamp).value), messageId, rows)
                == Ok(message.(timestamp := StoredTime(message.timestamp).value))
  {
    hide EncodeItems, ItemsOrdered, DecodeMessage, MessageOf, NumberedFrom, Placed, Charge, RecordOf;
    message := MessageOf(lib, referenceKey, maxDepth, maxNodes, event, Some(rawEventId)).value;
    var _ := ParsedMessageIsAccounted(lib, referenceKey, maxDepth, maxNodes, event, Some(rawEventId));
    encoded := EncodeMessage(lib, message, parserName, parserVersion).value;
    EncodingHasEarlierParents(lib, OfSegments(message.segments));
    NumberedSegmentsAreOrdered(message.segments, 0);
    if StoredTime(message.timestamp).Ok? && |ids| == |encoded.nodes| && NoDuplicates(ids)
       && multiset(rows) == multiset(Stored(encoded.nodes, ids, messageId)) {
      MessageRoundTrips(lib, message, parserName, parserVersion, encoded, StoredTime(message.timestamp).value,
                        ids, messageId, rows);
    }
  }
}
