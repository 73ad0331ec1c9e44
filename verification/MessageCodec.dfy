/** The codec as the program runs it: encoding appends to the record's node list, and the decoder
    walks a child index with sets of consumed and active ids. */
module MessageCodec {
  import opened Values
  import opened Domain
  import opened MessageRows

  // ----- encoding -----

  class MessageRecord {
    const record: Record
    var nodes: seq<Node>

    constructor (record: Record)
      ensures this.record == record && nodes == []
    {
      this.record := record;
      nodes := [];
    }
  }

  method Encode(lib: Library, message: Message, parserName: string, parserVersion: string)
    returns (encoded: Result<Encoded, CodecError>)
    ensures encoded == EncodeMessage(lib, message, parserName, parserVersion)
  {
    hide EncodeItems;
    if message.sourceRawEventId.None? {
      return Err(MissingReceipt);
    }
    if parserName == "" {
      return Err(EmptyParserName);
    }
    if parserVersion == "" {
      return Err(EmptyParserVersion);
    }
    var record := new MessageRecord(RecordOf(message, parserName, parserVersion));
    ghost var whole := EncodeItems(lib, OfSegments(message.segments), 0, 0, None, RelSegments, 0);
    AppendSegments(lib, message.segments, record, None, RelSegments, 0);
    assert [] + whole == whole;
    encoded := Ok(Encoded(record.record, record.nodes));
  }

  lemma IndexIsIgnored(
      lib: Library, segment: Segment, index: nat, base: nat, parent: Option<nat>, relation: Relation, depth: nat)
    ensures EncodeItem(lib, OfSegment(segment), index, base, parent, relation, depth)
            == EncodeItem(lib, OfSegment(segment), 0, base, parent, relation, depth)
  {
  }

  lemma NothingToEncode(lib: Library, index: nat, base: nat, parent: Option<nat>, relation: Relation, depth: nat)
    ensures EncodeItems(lib, [], index, base, parent, relation, depth) == []
  {
  }

  /** One turn of a loop that appends items. */
  lemma EncodeStep(
      lib: Library, items: seq<Item>, k: nat, base: nat, parent: Option<nat>, relation: Relation, depth: nat)
    requires k < |items|
    ensures var head := EncodeItem(lib, items[k], k, base, parent, relation, depth);
            EncodeItems(lib, items[k..], k, base, parent, relation, depth)
            == head + EncodeItems(lib, items[k + 1..], k + 1, base + |head|, parent, relation, depth)
  {
    hide EncodeItem;
    assert items[k..][0] == items[k] && items[k..][1..] == items[k + 1..];
  }

  method AppendSegments(lib: Library, segments: seq<Segment>, message: MessageRecord, parent: Option<nat>,
                        relation: Relation, depth: nat)
    modifies message
    ensures message.nodes == old(message.nodes)
              + EncodeItems(lib, OfSegments(segments), 0, |old(message.nodes)|, parent, relation, depth)
    decreases segments, 1
  {
    hide EncodeItem, EncodeItems;
    var items := OfSegments(segments);
    ghost var whole := EncodeItems(lib, items, 0, |message.nodes|, parent, relation, depth);
    assert items[0..] == items;
    for k := 0 to |segments|
      invariant message.nodes + EncodeItems(lib, items[k..], k, |message.nodes|, parent, relation, depth)
                == old(message.nodes) + whole
    {
      EncodeStep(lib, items, k, |message.nodes|, parent, relation, depth);
      IndexIsIgnored(lib, segments[k], k, |message.nodes|, parent, relation, depth);
      EncodeSegment(lib, segments[k], message, parent, relation, depth);
    }
    NothingToEncode(lib, |segments|, |message.nodes|, parent, relation, depth);
    assert items[|segments|..] == [] && message.nodes + [] == message.nodes;
  }

  method EncodeSegment(lib: Library, segment: Segment, message: MessageRecord, parent: Option<nat>,
                       relation: Relation, depth: nat)
    modifies message
    ensures message.nodes == old(message.nodes)
              + EncodeItem(lib, OfSegment(segment), 0, |old(message.nodes)|, parent, relation, depth)
    decreases segment, 0
  {
    hide EncodeItems, ColumnsOf;
    var node := |message.nodes|;
    ghost var item := OfSegment(segment);
    ghost var inner := EncodeParts(lib, PartsOf(KindOf(item)), ChildrenOf(item), node + 1, node, depth + 1);
    message.nodes := message.nodes + [Node(parent, ColumnsOf(lib, OfSegment(segment), 0, relation, depth))];
    if segment.Reply? && segment.resolvedMessage.Some? {
      OnePart(lib, RelResolvedMessage, WantResolved, [OfResolved(segment.resolvedMessage.value)], node + 1, node, depth + 1);
      OneItem(lib, OfResolved(segment.resolvedMessage.value), node + 1, Some(node), RelResolvedMessage, depth + 1);
      EncodeResolvedMessage(lib, segment.resolvedMessage.value, message, node, depth + 1);
    } else if segment.Forward? {
      TwoParts(lib, OfSegments(segment.content), OfNodes(segment.nodes), node + 1, node, depth + 1);
      AppendSegments(lib, segment.content, message, Some(node), RelContent, depth + 1);
      AppendForwardNodes(lib, segment.nodes, message, node, depth + 1);
    } else if segment.Reply? {
      OnePart(lib, RelResolvedMessage, WantResolved, [], node + 1, node, depth + 1);
      NothingToEncode(lib, 0, node + 1, Some(node), RelResolvedMessage, depth + 1);
    }
    assert message.nodes == old(message.nodes) + ([Node(parent, ColumnsOf(lib, item, 0, relation, depth))] + inner);
  }

  /** The loop over the nodes of a forward. */
  method AppendForwardNodes(lib: Library, nodes: seq<ForwardNode>, message: MessageRecord, parent: nat, depth: nat)
    modifies message
    ensures message.nodes == old(message.nodes)
              + EncodeItems(lib, OfNodes(nodes), 0, |old(message.nodes)|, Some(parent), RelNodes, depth)
    decreases nodes, 0
  {
    hide EncodeItem, EncodeItems;
    var items := OfNodes(nodes);
    ghost var whole := EncodeItems(lib, items, 0, |message.nodes|, Some(parent), RelNodes, depth);
    assert items[0..] == items;
    for k := 0 to |nodes|
      invariant message.nodes + EncodeItems(lib, items[k..], k, |message.nodes|, Some(parent), RelNodes, depth)
                == old(message.nodes) + whole
    {
      EncodeStep(lib, items, k, |message.nodes|, Some(parent), RelNodes, depth);
      EncodeForwardNode(lib, nodes[k], message, parent, k, depth);
    }
    NothingToEncode(lib, |nodes|, |message.nodes|, Some(parent), RelNodes, depth);
    assert items[|nodes|..] == [] && message.nodes + [] == message.nodes;
  }

  method EncodeForwardNode(lib: Library, forwardNode: ForwardNode, message: MessageRecord, parent: nat,
                           position: nat, depth: nat)
    modifies message
    ensures message.nodes == old(message.nodes)
              + EncodeItem(lib, OfNode(forwardNode), position, |old(message.nodes)|, Some(parent), RelNodes, depth)
    decreases forwardNode, 0
  {
    hide EncodeItems, ColumnsOf;
    var node := |message.nodes|;
    OnePart(lib, RelContent, WantSegment, OfSegments(forwardNode.content), node + 1, node, depth + 1);
    message.nodes := message.nodes + [Node(Some(parent), ColumnsOf(lib, OfNode(forwardNode), position, RelNodes, depth))];
    AppendSegments(lib, forwardNode.content, message, Some(node), RelContent, depth + 1);
  }

  method EncodeResolvedMessage(lib: Library, resolved: ResolvedMessage, message: MessageRecord, parent: nat, depth: nat)
    modifies message
    ensures message.nodes == old(message.nodes)
              + EncodeItem(lib, OfResolved(resolved), 0, |old(message.nodes)|, Some(parent), RelResolvedMessage, depth)
    decreases resolved, 0
  {
    hide EncodeItems, ColumnsOf;
    var node := |message.nodes|;
    OnePart(lib, RelSegments, WantSegment, OfSegments(resolved.segments), node + 1, node, depth + 1);
    message.nodes := message.nodes
      + [Node(Some(parent), ColumnsOf(lib, OfResolved(resolved), 0, RelResolvedMessage, depth))];
    AppendSegments(lib, resolved.segments, message, Some(node), RelSegments, depth + 1);
  }

  lemma OnePart(lib: Library, relation: Relation, want: Want, list: seq<Item>, base: nat, parent: nat, depth: nat)
    ensures EncodeParts(lib, [Part(relation, want)], [list], base, parent, depth)
            == EncodeItems(lib, list, 0, base, Some(parent), relation, depth)
  {
  }

  lemma TwoParts(lib: Library, content: seq<Item>, nodes: seq<Item>, base: nat, parent: nat, depth: nat)
    ensures var first := EncodeItems(lib, content, 0, base, Some(parent), RelContent, depth);
            EncodeParts(lib, [Part(RelContent, WantSegment), Part(RelNodes, WantNode)], [content, nodes], base, parent, depth)
            == first + EncodeItems(lib, nodes, 0, base + |first|, Some(parent), RelNodes, depth)
  {
    hide EncodeItems;
    var first := EncodeItems(lib, content, 0, base, Some(parent), RelContent, depth);
    assert [Part(RelContent, WantSegment), Part(RelNodes, WantNode)][1..] == [Part(RelNodes, WantNode)];
    assert [content, nodes][1..] == [nodes];
    OnePart(lib, RelNodes, WantNode, nodes, base + |first|, parent, depth);
  }

  lemma OneItem(lib: Library, item: Item, base: nat, parent: Option<nat>, relation: Relation, depth: nat)
    ensures EncodeItems(lib, [item], 0, base, parent, relation, depth)
            == EncodeItem(lib, item, 0, base, parent, relation, depth)
  {
  }

  // ----- decoding -----

  function SortRows(rows: seq<Row>): seq<Row> {
    if rows == [] then [] else InsertSorted(SortRows(rows[..|rows| - 1]), rows[|rows| - 1])
  }

  /** The rows under one parent, in the order they were given. */
  function Siblings(rows: seq<Row>, parent: Option<int>): seq<Row> {
    if rows == [] then []
    else
      var before := Siblings(rows[..|rows| - 1], parent);
      if rows[|rows| - 1].parent == parent then before + [rows[|rows| - 1]] else before
  }

  lemma {:induction false} SortedSiblings(rows: seq<Row>, parent: Option<int>)
    ensures SortRows(Siblings(rows, parent)) == Children(rows, parent)
  {
    if rows != [] {
      var before := Siblings(rows[..|rows| - 1], parent);
      SortedSiblings(rows[..|rows| - 1], parent);
      if rows[|rows| - 1].parent == parent {
        assert (before + [rows[|rows| - 1]])[..|before|] == before;
      }
    }
  }

  /** Groups rows by parent, then sorts each group by position. */
  method IndexChildren(rows: seq<Row>) returns (children: map<Option<int>, seq<Row>>)
    ensures forall parent :: Children(rows, parent) == if parent in children then children[parent] else []
  {
    hide Children, SortRows;
    var groups: map<Option<int>, seq<Row>> := map[];
    for k := 0 to |rows|
      invariant forall parent :: Siblings(rows[..k], parent) == if parent in groups then groups[parent] else []
    {
      assert rows[..k + 1][..k] == rows[..k];
      var parent := rows[k].parent;
      groups := groups[parent := (if parent in groups then groups[parent] else []) + [rows[k]]];
    }
    assert rows[..|rows|] == rows;
    children := map parent | parent in groups :: SortRows(groups[parent]);
    forall parent
      ensures Children(rows, parent) == if parent in children then children[parent] else []
    {
      SortedSiblings(rows, parent);
      NothingToSort();
    }
  }

  lemma NothingToSort()
    ensures SortRows([]) == []
  {
  }

  class NodeDecoder {
    const lib: Library
    const nodeIds: set<int>
    const children: map<Option<int>, seq<Row>>
    ghost const rows: seq<Row>
    var consumed: set<int>
    var active: set<int>

    ghost predicate Valid() {
      && nodeIds == IdsOf(rows)
      && forall parent :: Children(rows, parent) == if parent in children then children[parent] else []
    }

    constructor (lib: Library, ghost rows: seq<Row>, nodeIds: set<int>, children: map<Option<int>, seq<Row>>)
      requires nodeIds == IdsOf(rows)
      requires forall parent :: Children(rows, parent) == if parent in children then children[parent] else []
      ensures Valid() && this.lib == lib && this.rows == rows && consumed == {} && active == {}
    {
      this.lib, this.rows, this.nodeIds, this.children := lib, rows, nodeIds, children;
      consumed, active := {}, {};
    }

    function RelatedRows(parent: Option<int>, relation: Relation): (related: seq<Row>)
      requires Valid()
      ensures related == Related(rows, parent, relation)
    {
      WithRelation(if parent in children then children[parent] else [], relation)
    }

    /** Enters a row, or says why it must not be entered. */
    method Enter(row: Row) returns (error: Option<CodecError>)
      modifies this
      ensures error == if row.id in old(active) then Some(CycleDetected)
                       else if row.id in old(consumed) then Some(ReferencedTwice) else None
      ensures error.Some? ==> active == old(active) && consumed == old(consumed)
      ensures error.None? ==> active == old(active) + {row.id} && consumed == old(consumed) + {row.id}
    {
      if row.id in active {
        return Some(CycleDetected);
      }
      if row.id in consumed {
        return Some(ReferencedTwice);
      }
      active := active + {row.id};
      consumed := consumed + {row.id};
      error := None;
    }

    /** Decodes one row and what hangs under it. Every way out restores `active`. */
    method DecodeItem(row: Row, want: Want) returns (item: Result<Item, CodecError>)
      requires Valid() && row in rows
      modifies this
      ensures active == old(active)
      ensures Agrees(DecodeRow(lib, rows, row, want, old(active), old(consumed)), item, consumed)
      decreases IdsOf(rows) - consumed, 0, 0
    {
      hide Related, Opening, OpeningWith, Assemble, DecodeParts, PartsOf, Children;
      if !KindFits(row.columns.kind, want) {
        return Err(WrongKind);
      }
      var reentry := Enter(row);
      if reentry.Some? {
        return Err(reentry.value);
      }
      assert row.id in IdsOf(rows);
      var error := OpeningWith(lib, row, want, |RelatedRows(Some(row.id), RelResolvedMessage)|);
      OpeningIsWith(lib, rows, row, want);
      if error.Some? {
        item := Err(error.value);
      } else {
        var lists := DecodeLists(row.id, PartsOf(row.columns.kind));
        if lists.Err? {
          item := Err(lists.error);
        } else {
          OpenRowHasFields(lib, rows, row, want);
          item := Assemble(lib, row, want, lists.value);
          if item.Ok? && !RelationsConsumed(row.id) {
            item := Err(UnexpectedRelations);
          }
        }
      }
      // Leaving, whatever happened.
      active := active - {row.id};
    }

    predicate RelationsConsumed(parent: int)
      requires Valid()
      reads this
      ensures RelationsConsumed(parent) <==> forall child | child in Children(rows, Some(parent)) :: child.id in consumed
    {
      Some(parent) in children ==> forall child | child in children[Some(parent)] :: child.id in consumed
    }

    method DecodeLists(parent: int, parts: seq<Part>) returns (lists: Result<seq<seq<Item>>, CodecError>)
      requires Valid()
      modifies this
      ensures active == old(active)
      ensures Agrees(DecodeParts(lib, rows, parent, parts, old(active), old(consumed)), lists, consumed)
      ensures lists.Ok? ==> Matches(lists.value, parts)
      decreases IdsOf(rows) - consumed, 2, |parts|
    {
      hide Related, DecodeRows;
      if parts == [] {
        return Ok([]);
      }
      RelatedIsRow(rows, Some(parent), parts[0].relation);
      var head := DecodeItems(RelatedRows(Some(parent), parts[0].relation), parts[0].want);
      if head.Err? {
        return Err(head.error);
      }
      var rest := DecodeLists(parent, parts[1..]);
      if rest.Err? {
        return Err(rest.error);
      }
      lists := Ok([head.value] + rest.value);
    }

    method DecodeItems(list: seq<Row>, want: Want) returns (items: Result<seq<Item>, CodecError>)
      requires Valid() && forall row | row in list :: row in rows
      modifies this
      ensures active == old(active)
      ensures Agrees(DecodeRows(lib, rows, list, want, old(active), old(consumed)), items, consumed)
      decreases IdsOf(rows) - consumed, 1, |list|
    {
      hide DecodeRow, DecodeRows;
      ghost var whole := DecodeRows(lib, rows, list, want, active, consumed);
      var done: seq<Item> := [];
      assert list[0..] == list && list[|list|..] == [];
      NoPrefix(whole);
      for k := 0 to |list|
        invariant active == old(active) && old(consumed) <= consumed
        invariant whole == WithPrefix(done, DecodeRows(lib, rows, list[k..], want, active, consumed))
      {
        DecodeStep(lib, rows, list, k, want, active, consumed);
        var item := DecodeItem(list[k], want);
        if item.Err? {
          return Err(item.error);
        }
        MorePrefix(done, [item.value], DecodeRows(lib, rows, list[k + 1..], want, active, consumed));
        done := done + [item.value];
      }
      NoRowsDecoded(lib, rows, want, active, consumed);
      assert done + [] == done;
      items := Ok(done);
    }
  }

  /** One turn of that loop. */
  lemma DecodeStep(
      lib: Library, rows: seq<Row>, list: seq<Row>, k: nat, want: Want, active: set<int>, consumed: set<int>)
    requires k < |list| && forall row | row in list :: row in rows
    ensures var head := DecodeRow(lib, rows, list[k], want, active, consumed);
            DecodeRows(lib, rows, list[k..], want, active, consumed)
            == if head.Failed? then Failed(head.error)
               else WithPrefix([head.value], DecodeRows(lib, rows, list[k + 1..], want, active, head.consumed))
  {
  }

  lemma NoRowsDecoded(lib: Library, rows: seq<Row>, want: Want, active: set<int>, consumed: set<int>)
    ensures DecodeRows(lib, rows, [], want, active, consumed) == Done([], consumed)
  {
  }

  lemma NoPrefix(rest: Decoded<seq<Item>>)
    ensures WithPrefix([], rest) == rest
  {
    if rest.Done? {
      assert [] + rest.value == rest.value;
    }
  }

  lemma MorePrefix(first: seq<Item>, second: seq<Item>, rest: Decoded<seq<Item>>)
    ensures WithPrefix(first, WithPrefix(second, rest)) == WithPrefix(first + second, rest)
  {
    if rest.Done? {
      assert first + (second + rest.value) == first + second + rest.value;
    }
  }

  lemma OpeningIsWith(lib: Library, rows: seq<Row>, row: Row, want: Want)
    ensures Opening(lib, rows, row, want) == OpeningWith(lib, row, want, |Related(rows, Some(row.id), RelResolvedMessage)|)
  {
  }

  lemma OpenRowHasFields(lib: Library, rows: seq<Row>, row: Row, want: Want)
    requires Opening(lib, rows, row, want).None?
    ensures row.columns.payload.Fields?
  {
  }

  /** Gluing decoded items in front of a decoded rest. */
  ghost function WithPrefix(prefix: seq<Item>, rest: Decoded<seq<Item>>): Decoded<seq<Item>> {
    if rest.Failed? then rest else Done(prefix + rest.value, rest.consumed)
  }

  /** A method's result and the decoder's state say what the function says. */
  ghost predicate Agrees<T(!new)>(expected: Decoded<T>, result: Result<T, CodecError>, consumed: set<int>) {
    match expected
    case Failed(error) => result == Err(error)
    case Done(value, after) => result == Ok(value) && consumed == after
  }

  method Decode(lib: Library, record: Record, recordId: int, rows: seq<Row>)
    returns (message: Result<Message, CodecError>)
    ensures message == DecodeMessage(lib, record, recordId, rows)
  {
    hide DecodeRows, Children, Related;
    for k := 0 to |rows|
      invariant forall j | 0 <= j < k :: rows[j].messageId == recordId
    {
      if rows[k].messageId != recordId {
        return Err(ForeignRow);
      }
    }
    var children := IndexChildren(rows);
    var decoder := new NodeDecoder(lib, rows, set row | row in rows :: row.id, children);
    RelatedIsRow(rows, None, RelSegments);
    var items := decoder.DecodeItems(decoder.RelatedRows(None, RelSegments), WantSegment);
    if items.Err? {
      return Err(items.error);
    }
    if decoder.nodeIds != decoder.consumed {
      return Err(OrphanedRows);
    }
    var segments := SegmentsIn(items.value);
    var actor, author, provenance :=
      IdentityFrom(record.actor), IdentityFrom(record.author), ProvenanceFrom(record.provenance);
    if actor.Err? {
      return Err(actor.error);
    }
    if author.Err? {
      return Err(author.error);
    }
    if provenance.Err? {
      return Err(provenance.error);
    }
    message := Ok(Message(record.platform, Some(record.sourceRawEventId), record.platformMessageId, record.context,
                          actor.value, author.value, record.timestamp, segments, provenance.value));
  }
}
