/** The shape of an encoding, and the one order sorting can give to rows of distinct positions. */
module CodecBlocks {
  import opened Values
  import opened Sequences
  import opened Domain
  import opened MessageRows

  // ----- which messages keep their order -----

  /** Positions grow strictly along every sibling list, at every level. */
  ghost predicate Ordered(item: Item)
    decreases Size(item), 0, 0
  {
    SizeUnfolds(item);
    ListsOrdered(ChildrenOf(item))
  }

  ghost predicate ListsOrdered(lists: seq<seq<Item>>)
    decreases ListsSize(lists), 2, |lists|
  {
    lists == [] || (ItemsOrdered(lists[0], 0) && ListsOrdered(lists[1..]))
  }

  ghost predicate ItemsOrdered(items: seq<Item>, index: nat)
    decreases ItemsSize(items), 1, |items|
  {
    items == []
    || (&& Ordered(items[0])
        && (|items| > 1 ==> PositionOf(items[0], index) < PositionOf(items[1], index + 1))
        && ItemsOrdered(items[1..], index + 1))
  }

  lemma OneListOrdered(list: seq<Item>)
    ensures ListsOrdered([list]) <==> ItemsOrdered(list, 0)
  {
  }

  lemma TwoListsOrdered(first: seq<Item>, second: seq<Item>)
    ensures ListsOrdered([first, second]) <==> ItemsOrdered(first, 0) && ItemsOrdered(second, 0)
  {
    OneListOrdered(second);
    assert [first, second][1..] == [second];
  }

  lemma OneItemOrdered(item: Item, index: nat)
    ensures ItemsOrdered([item], index) <==> Ordered(item)
    ensures ItemsOrdered([], index) && ListsOrdered([])
  {
  }

  lemma {:induction false} NumberedIsOrdered(item: Item)
    requires item.OfSegment? ==> NumberedInside(item.segment)
    requires item.OfNode? ==> NumberedFrom(item.node.content, 0)
    requires item.OfResolved? ==> NumberedFrom(item.message.segments, 0)
    ensures Ordered(item)
    decreases Size(item), 0, 0
  {
    hide ItemsOrdered, ListsOrdered, ItemsSize, ListsSize, NumberedFrom;
    SizeUnfolds(item);
    OneItemOrdered(item, 0);
    var lists := ChildrenOf(item);
    match item
    case OfNode(node) =>
      OneListOrdered(lists[0]);
      OneListSize(lists[0]);
      NumberedSegmentsAreOrdered(node.content, 0);
    case OfResolved(message) =>
      OneListOrdered(lists[0]);
      OneListSize(lists[0]);
      NumberedSegmentsAreOrdered(message.segments, 0);
    case OfSegment(segment) =>
      match segment {
        case Reply(_, _, _, _, _, resolved, _) =>
          OneListOrdered(lists[0]);
          if resolved.Some? {
            NumberedIsOrdered(OfResolved(resolved.value));
            OneItemOrdered(OfResolved(resolved.value), 0);
          }
        case Forward(_, _, _, _, _, content, nodes, _) =>
          TwoListsOrdered(lists[0], lists[1]);
          TwoListsSize(lists[0], lists[1]);
          NumberedSegmentsAreOrdered(content, 0);
          NumberedNodesAreOrdered(nodes, 0);
        case _ =>
      }
  }

  lemma {:induction false} NumberedSegmentsAreOrdered(segments: seq<Segment>, start: nat)
    requires NumberedFrom(segments, start)
    ensures ItemsOrdered(OfSegments(segments), start)
    decreases ItemsSize(OfSegments(segments)), 1, |segments|
  {
    if segments != [] {
      var items := OfSegments(segments);
      assert items[1..] == OfSegments(segments[1..]);
      NumberedIsOrdered(items[0]);
      NumberedSegmentsAreOrdered(segments[1..], start + 1);
    }
  }

  lemma {:induction false} NumberedNodesAreOrdered(nodes: seq<ForwardNode>, index: nat)
    requires forall i | 0 <= i < |nodes| :: NumberedFrom(nodes[i].content, 0)
    ensures ItemsOrdered(OfNodes(nodes), index)
    decreases ItemsSize(OfNodes(nodes)), 1, |nodes|
  {
    if nodes != [] {
      var items := OfNodes(nodes);
      assert items[1..] == OfNodes(nodes[1..]);
      NumberedIsOrdered(items[0]);
      NumberedNodesAreOrdered(nodes[1..], index + 1);
    }
  }

  // ----- the shape of an encoding -----

  /** Every node hangs either under `parent` or inside the block itself. */
  ghost predicate Block(nodes: seq<Node>, base: nat, parent: Option<nat>) {
    forall j | 0 <= j < |nodes| :: HangsIn(nodes[j], base, base + j, parent)
  }

  ghost predicate HangsIn(node: Node, low: nat, high: nat, parent: Option<nat>) {
    node.parent == parent || (node.parent.Some? && low <= node.parent.value < high)
  }

  lemma BlockConcat(a: seq<Node>, b: seq<Node>, base: nat, parent: Option<nat>)
    requires Block(a, base, parent) && Block(b, base + |a|, parent)
    ensures Block(a + b, base, parent)
  {
  }

  lemma {:induction false} ItemIsBlock(lib: Library, item: Item, index: nat, base: nat, parent: Option<nat>,
                                       relation: Relation, depth: nat)
    requires parent.Some? ==> parent.value < base
    ensures var nodes := EncodeItem(lib, item, index, base, parent, relation, depth);
            && |nodes| == Size(item)
            && Block(nodes, base, parent)
            && Block(nodes[1..], base + 1, Some(base))
    decreases Size(item), 0, 0
  {
    hide ColumnsOf, PartsOf, Block;
    SizeUnfolds(item);
    FirstNode(lib, item, index, base, parent, relation, depth);
    PartsAreBlock(lib, PartsOf(KindOf(item)), ChildrenOf(item), base + 1, base, depth + 1);
    var rest := EncodeParts(lib, PartsOf(KindOf(item)), ChildrenOf(item), base + 1, base, depth + 1);
    BlockCons(Node(parent, ColumnsOf(lib, item, index, relation, depth)), rest, base, parent);
  }

  lemma BlockCons(first: Node, rest: seq<Node>, base: nat, parent: Option<nat>)
    requires first.parent == parent && Block(rest, base + 1, Some(base))
    ensures Block([first] + rest, base, parent)
  {
  }

  lemma {:induction false} PartsAreBlock(lib: Library, parts: seq<Part>, lists: seq<seq<Item>>, base: nat,
                                         parent: nat, depth: nat)
    requires |parts| == |lists| && parent < base
    ensures var nodes := EncodeParts(lib, parts, lists, base, parent, depth);
            |nodes| == ListsSize(lists) && Block(nodes, base, Some(parent))
    decreases ListsSize(lists), 2, |lists|
  {
    hide EncodeItems;
    if parts != [] {
      var head := EncodeItems(lib, lists[0], 0, base, Some(parent), parts[0].relation, depth);
      ItemsAreBlock(lib, lists[0], 0, base, Some(parent), parts[0].relation, depth);
      PartsAreBlock(lib, parts[1..], lists[1..], base + |head|, parent, depth);
      BlockConcat(head, EncodeParts(lib, parts[1..], lists[1..], base + |head|, parent, depth), base, Some(parent));
    }
  }

  lemma {:induction false} ItemsAreBlock(lib: Library, items: seq<Item>, index: nat, base: nat, parent: Option<nat>,
                                         relation: Relation, depth: nat)
    requires parent.Some? ==> parent.value < base
    ensures var nodes := EncodeItems(lib, items, index, base, parent, relation, depth);
            |nodes| == ItemsSize(items) && Block(nodes, base, parent)
    decreases ItemsSize(items), 1, |items|
  {
    hide EncodeItem;
    if items != [] {
      var head := EncodeItem(lib, items[0], index, base, parent, relation, depth);
      ItemIsBlock(lib, items[0], index, base, parent, relation, depth);
      ItemsAreBlock(lib, items[1..], index + 1, base + |head|, parent, relation, depth);
      BlockConcat(head, EncodeItems(lib, items[1..], index + 1, base + |head|, parent, relation, depth), base, parent);
    }
  }

  /** Where the items of a list start. */
  function Roots(items: seq<Item>, base: nat): seq<nat> {
    if items == [] then [] else [base] + Roots(items[1..], base + Size(items[0]))
  }

  lemma {:induction false} RootsAreAbove(items: seq<Item>, base: nat)
    ensures forall r | r in Roots(items, base) :: base <= r
  {
    if items != [] {
      RootsAreAbove(items[1..], base + Size(items[0]));
    }
  }

  /** The nodes under `parent` are exactly those at `roots`, all with this relation. */
  ghost predicate RootsIn(nodes: seq<Node>, base: nat, parent: Option<nat>, relation: Relation, roots: seq<nat>) {
    forall j | 0 <= j < |nodes| :: RootIff(nodes[j], parent, relation, base + j in roots)
  }

  ghost predicate RootIff(node: Node, parent: Option<nat>, relation: Relation, root: bool) {
    (node.parent == parent <==> root) && (root ==> node.columns.relation == relation)
  }

  lemma RootsCons(head: seq<Node>, rest: seq<Node>, base: nat, parent: Option<nat>, relation: Relation, roots: seq<nat>)
    requires head != [] && head[0].parent == parent && head[0].columns.relation == relation
    requires parent.Some? ==> parent.value < base
    requires Block(head[1..], base + 1, Some(base))
    requires RootsIn(rest, base + |head|, parent, relation, roots)
    requires forall r | r in roots :: base + |head| <= r
    ensures RootsIn(head + rest, base, parent, relation, [base] + roots)
  {
  }

  /** In the block of a list, the nodes under the list's parent are exactly the roots. */
  lemma {:induction false} RootsAreTheChildren(lib: Library, items: seq<Item>, index: nat, base: nat,
                                               parent: Option<nat>, relation: Relation, depth: nat)
    requires parent.Some? ==> parent.value < base
    ensures RootsIn(EncodeItems(lib, items, index, base, parent, relation, depth), base, parent, relation,
                    Roots(items, base))
    decreases ItemsSize(items), 1, |items|
  {
    hide EncodeItem, ColumnsOf, Size, RootsIn, Block;
    if items == [] {
      NoRoots(base, parent, relation);
    } else {
      var head := EncodeItem(lib, items[0], index, base, parent, relation, depth);
      ItemIsBlock(lib, items[0], index, base, parent, relation, depth);
      SizeUnfolds(items[0]);
      FirstNode(lib, items[0], index, base, parent, relation, depth);
      ColumnsKeepRelation(lib, items[0], index, relation, depth);
      RootsAreTheChildren(lib, items[1..], index + 1, base + |head|, parent, relation, depth);
      RootsAreAbove(items[1..], base + |head|);
      RootsCons(head, EncodeItems(lib, items[1..], index + 1, base + |head|, parent, relation, depth),
                base, parent, relation, Roots(items[1..], base + |head|));
    }
  }

  lemma NoRoots(base: nat, parent: Option<nat>, relation: Relation)
    ensures RootsIn([], base, parent, relation, [])
  {
  }

  lemma ColumnsKeepRelation(lib: Library, item: Item, index: nat, relation: Relation, depth: nat)
    ensures ColumnsOf(lib, item, index, relation, depth).relation == relation
    ensures ColumnsOf(lib, item, index, relation, depth).position == PositionOf(item, index)
  {
  }

  lemma FirstNode(lib: Library, item: Item, index: nat, base: nat, parent: Option<nat>, relation: Relation, depth: nat)
    ensures EncodeItem(lib, item, index, base, parent, relation, depth)[0]
            == Node(parent, ColumnsOf(lib, item, index, relation, depth))
    ensures EncodeItem(lib, item, index, base, parent, relation, depth)[1..]
            == EncodeParts(lib, PartsOf(KindOf(item)), ChildrenOf(item), base + 1, base, depth + 1)
  {
  }

  // ----- one sorted order -----

  ghost predicate Sorted(rows: seq<Row>) {
    rows == []
    || (&& (forall r | r in rows[1..] :: rows[0].columns.position <= r.columns.position && rows[0].id != r.id)
        && Sorted(rows[1..]))
  }

  ghost predicate Ascending(rows: seq<Row>) {
    rows == []
    || (&& (forall r | r in rows[1..] :: rows[0].columns.position < r.columns.position)
        && Ascending(rows[1..]))
  }

  ghost predicate UniqueIds(rows: seq<Row>) {
    forall i, j | 0 <= i < j < |rows| :: rows[i].id != rows[j].id
  }

  lemma {:induction false} InsertSorts(sorted: seq<Row>, row: Row)
    requires Sorted(sorted)
    requires forall r | r in sorted :: r.id != row.id
    ensures Sorted(InsertSorted(sorted, row))
  {
    if sorted != [] {
      MemberOfCons(sorted);
      if row.columns.position < sorted[0].columns.position {
        assert ([row] + sorted)[1..] == sorted;
      } else {
        InsertSorts(sorted[1..], row);
        InsertedIsMember(sorted[1..], row);
        assert InsertSorted(sorted, row)[1..] == InsertSorted(sorted[1..], row);
      }
    }
  }

  lemma {:induction false} ChildrenAreSorted(rows: seq<Row>, parent: Option<int>)
    requires UniqueIds(rows)
    ensures Sorted(Children(rows, parent))
  {
    if rows != [] {
      var front, last := rows[..|rows| - 1], rows[|rows| - 1];
      ChildrenAreSorted(front, parent);
      ChildIsRow(front, parent);
      assert forall r | r in front :: r.id != last.id;
      if last.parent == parent {
        InsertSorts(Children(front, parent), last);
      }
    }
  }

  lemma {:induction false} RelationKeepsOrder(rows: seq<Row>, relation: Relation)
    requires Sorted(rows)
    ensures Sorted(WithRelation(rows, relation))
  {
    if rows != [] {
      RelationKeepsOrder(rows[1..], relation);
      RelationKeepsRows(rows[1..], relation);
      var rest := WithRelation(rows[1..], relation);
      assert [] + rest == rest && ([rows[0]] + rest)[1..] == rest;
    }
  }

  /** A sorted list of distinct rows is the strictly ascending list of the same rows. */
  lemma {:induction false} SortedIsUnique(actual: seq<Row>, expected: seq<Row>)
    requires Sorted(actual) && Ascending(expected)
    requires forall r :: r in actual <==> r in expected
    ensures actual == expected
  {
    if actual != [] {
      MemberOfCons(actual);
    }
    if expected != [] {
      MemberOfCons(expected);
    }
    if actual != [] && expected != [] {
      assert actual[0] == expected[0];
      SortedIsUnique(actual[1..], expected[1..]);
      assert actual == [actual[0]] + actual[1..] && expected == [expected[0]] + expected[1..];
    }
  }

  lemma RelatedIs(rows: seq<Row>, parent: Option<int>, relation: Relation, expected: seq<Row>)
    requires UniqueIds(rows) && Ascending(expected)
    requires forall r :: r in expected <==> r in rows && r.parent == parent && r.columns.relation == relation
    ensures Related(rows, parent, relation) == expected
  {
    ChildrenAreSorted(rows, parent);
    RelationKeepsOrder(Children(rows, parent), relation);
    RelatedIsRow(rows, parent, relation);
    SortedIsUnique(Related(rows, parent, relation), expected);
  }

  // ----- relations of parts -----

  ghost predicate RelationsDistinct(parts: seq<Part>) {
    forall i, j | 0 <= i < j < |parts| :: parts[i].relation != parts[j].relation
  }

  ghost predicate RelationOf(parts: seq<Part>, relation: Relation) {
    exists i | 0 <= i < |parts| :: parts[i].relation == relation
  }

  lemma RelationCons(parts: seq<Part>, relation: Relation)
    requires parts != []
    ensures RelationOf(parts, relation) <==> parts[0].relation == relation || RelationOf(parts[1..], relation)
    ensures RelationsDistinct(parts) ==> RelationsDistinct(parts[1..]) && !RelationOf(parts[1..], parts[0].relation)
  {
  }

  lemma PartsAreDistinct(kind: Kind)
    ensures RelationsDistinct(PartsOf(kind))
  {
  }
}
