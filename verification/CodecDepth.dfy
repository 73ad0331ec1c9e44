/** The depth column of an encoding. */
module CodecDepth {
  import opened Values
  import opened Domain
  import opened MessageRows
  import opened CodecBlocks

  /** The node hangs under `parent` at this depth, or one deeper than an earlier node of the block. */
  ghost predicate DeepAt(nodes: seq<Node>, j: nat, base: nat, parent: Option<nat>, depth: nat)
    requires j < |nodes|
  {
    var node := nodes[j];
    || (node.parent == parent && node.columns.depth == depth)
    || (node.parent.Some? && base <= node.parent.value < base + j
        && node.columns.depth == nodes[node.parent.value - base].columns.depth + 1)
  }

  ghost predicate Deep(nodes: seq<Node>, base: nat, parent: Option<nat>, depth: nat) {
    forall j | 0 <= j < |nodes| :: DeepAt(nodes, j, base, parent, depth)
  }

  lemma DeepConcat(a: seq<Node>, b: seq<Node>, base: nat, parent: Option<nat>, depth: nat)
    requires Deep(a, base, parent, depth) && Deep(b, base + |a|, parent, depth)
    ensures Deep(a + b, base, parent, depth)
  {
    forall j | 0 <= j < |a + b|
      ensures DeepAt(a + b, j, base, parent, depth)
    {
      if j < |a| {
        assert DeepAt(a, j, base, parent, depth);
      } else {
        assert DeepAt(b, j - |a|, base + |a|, parent, depth);
      }
    }
  }

  lemma DeepCons(first: Node, rest: seq<Node>, base: nat, parent: Option<nat>, depth: nat)
    requires first.parent == parent && first.columns.depth == depth && Deep(rest, base + 1, Some(base), depth + 1)
    ensures Deep([first] + rest, base, parent, depth)
  {
    var all := [first] + rest;
    forall j | 0 <= j < |all|
      ensures DeepAt(all, j, base, parent, depth)
    {
      if j > 0 {
        assert DeepAt(rest, j - 1, base + 1, Some(base), depth + 1);
      }
    }
  }

  lemma ColumnsKeepDepth(lib: Library, item: Item, index: nat, relation: Relation, depth: nat)
    ensures ColumnsOf(lib, item, index, relation, depth).depth == depth
  {
  }

  lemma {:induction false} ItemIsDeep(lib: Library, item: Item, index: nat, base: nat, parent: Option<nat>,
                                      relation: Relation, depth: nat)
    ensures Deep(EncodeItem(lib, item, index, base, parent, relation, depth), base, parent, depth)
    decreases Size(item), 0, 0
  {
    hide ColumnsOf, PartsOf, Deep;
    SizeUnfolds(item);
    ColumnsKeepDepth(lib, item, index, relation, depth);
    PartsAreDeep(lib, PartsOf(KindOf(item)), ChildrenOf(item), base + 1, base, depth + 1);
    DeepCons(Node(parent, ColumnsOf(lib, item, index, relation, depth)),
             EncodeParts(lib, PartsOf(KindOf(item)), ChildrenOf(item), base + 1, base, depth + 1), base, parent, depth);
  }

  lemma {:induction false} PartsAreDeep(lib: Library, parts: seq<Part>, lists: seq<seq<Item>>, base: nat, parent: nat,
                                        depth: nat)
    requires |parts| == |lists|
    ensures Deep(EncodeParts(lib, parts, lists, base, parent, depth), base, Some(parent), depth)
    decreases ListsSize(lists), 2, |lists|
  {
    hide EncodeItems;
    if parts != [] {
      var head := EncodeItems(lib, lists[0], 0, base, Some(parent), parts[0].relation, depth);
      ItemsAreDeep(lib, lists[0], 0, base, Some(parent), parts[0].relation, depth);
      PartsAreDeep(lib, parts[1..], lists[1..], base + |head|, parent, depth);
      DeepConcat(head, EncodeParts(lib, parts[1..], lists[1..], base + |head|, parent, depth), base, Some(parent), depth);
    }
  }

  lemma {:induction false} ItemsAreDeep(lib: Library, items: seq<Item>, index: nat, base: nat, parent: Option<nat>,
                                        relation: Relation, depth: nat)
    ensures Deep(EncodeItems(lib, items, index, base, parent, relation, depth), base, parent, depth)
    decreases ItemsSize(items), 1, |items|
  {
    hide EncodeItem;
    if items != [] {
      var head := EncodeItem(lib, items[0], index, base, parent, relation, depth);
      ItemIsDeep(lib, items[0], index, base, parent, relation, depth);
      ItemsAreDeep(lib, items[1..], index + 1, base + |head|, parent, relation, depth);
      DeepConcat(head, EncodeItems(lib, items[1..], index + 1, base + |head|, parent, relation, depth), base, parent, depth);
    }
  }

  /** The depth of a row is the number of rows above it: none for a row without a parent, and one more than
      its parent's otherwise, which comes before it. */
  lemma DepthsCountAncestors(lib: Library, segments: seq<Segment>)
    ensures var nodes := EncodeItems(lib, OfSegments(segments), 0, 0, None, RelSegments, 0);
            forall j | 0 <= j < |nodes| ::
              match nodes[j].parent
              case None => nodes[j].columns.depth == 0
              case Some(up) => up < j && nodes[j].columns.depth == nodes[up].columns.depth + 1
  {
    hide EncodeItems;
    var nodes := EncodeItems(lib, OfSegments(segments), 0, 0, None, RelSegments, 0);
    ItemsAreDeep(lib, OfSegments(segments), 0, 0, None, RelSegments, 0);
    forall j | 0 <= j < |nodes|
      ensures match nodes[j].parent
              case None => nodes[j].columns.depth == 0
              case Some(up) => up < j && nodes[j].columns.depth == nodes[up].columns.depth + 1
    {
      assert DeepAt(nodes, j, 0, None, 0);
    }
  }
}
