/** What every parse under limits keeps: sibling numbers, the node budget, the path depth and
    the provenance of forward nodes. */
module ParserAccounting {
  import opened Values
  import opened Domain
  import opened MessageBody
  import opened Parser

  /** The budget a parsed list has paid: one for each ForwardNode and one for each reply that
      stands for an element. */
  function Charge(segments: seq<Segment>): nat
    decreases segments, 1
  {
    if segments == [] then 0 else ChargeOf(segments[0]) + Charge(segments[1..])
  }

  function ChargeOf(segment: Segment): nat
    decreases segment, 2
  {
    match segment
    case Reply(_, rawData, _, _, _, resolved, _) =>
      (if rawData.Obj? && "msg_element" in rawData.fields then 1 else 0)
      + (if resolved.Some? then Charge(resolved.value.segments) else 0)
    case Forward(_, _, _, _, _, content, nodes, _) => Charge(content) + ChargeOfNodes(nodes)
    case _ => 0
  }

  function ChargeOfNodes(nodes: seq<ForwardNode>): nat
    decreases nodes, 1
  {
    if nodes == [] then 0 else 1 + Charge(nodes[0].content) + ChargeOfNodes(nodes[1..])
  }

  /** Counting `depth` forward nodes and `references` resolved messages above the list, no path
      into it holds more than maxDepth of them, and every forward node records its place. */
  ghost predicate Placed(o: Origin, maxDepth: nat, segments: seq<Segment>, references: nat, depth: nat)
    decreases segments, 1
  {
    forall i | 0 <= i < |segments| :: PlacedInside(o, maxDepth, segments[i], references, depth)
  }

  ghost predicate PlacedInside(o: Origin, maxDepth: nat, segment: Segment, references: nat, depth: nat)
    decreases segment, 0
  {
    match segment
    case Reply(_, _, _, _, _, Some(resolved), _) =>
      depth + references + 1 <= maxDepth && Placed(o, maxDepth, resolved.segments, references + 1, depth)
    case Forward(_, _, _, _, _, content, nodes, _) =>
      && Placed(o, maxDepth, content, references, depth)
      && forall i | 0 <= i < |nodes| ::
           && depth + references + 1 <= maxDepth
           && ProvenanceAt(o, nodes[i].provenance, depth)
           && Placed(o, maxDepth, nodes[i].content, references, depth + 1)
    case _ => true
  }

  /** One more than the ForwardNodes above it, nested exactly when there is one. */
  ghost predicate ProvenanceAt(o: Origin, provenance: Provenance, ancestors: nat) {
    && provenance.forwardDepth == ancestors + 1
    && provenance.source == (if ancestors == 0 then InForward else InNestedForward)
    && provenance.rawEventId == o.rawEventId && provenance.parentMessageId == o.parentMessageId
  }

  ghost predicate NodesPlaced(o: Origin, maxDepth: nat, nodes: seq<ForwardNode>, references: nat, depth: nat) {
    forall i | 0 <= i < |nodes| :: NodePlaced(o, maxDepth, nodes[i], references, depth)
  }

  ghost predicate NodePlaced(o: Origin, maxDepth: nat, node: ForwardNode, references: nat, depth: nat) {
    && depth + references + 1 <= maxDepth
    && ProvenanceAt(o, node.provenance, depth)
    && Placed(o, maxDepth, node.content, references, depth + 1)
    && NumberedFrom(node.content, 0)
  }

  lemma {:induction false} ChargeConcat(a: seq<Segment>, b: seq<Segment>)
    ensures Charge(a + b) == Charge(a) + Charge(b)
  {
    if a == [] {
      assert a + b == b;
    } else {
      assert (a + b)[0] == a[0] && (a + b)[1..] == a[1..] + b;
      ChargeConcat(a[1..], b);
    }
  }

  lemma {:induction false} FlatIsFree(segments: seq<Segment>, start: int)
    requires FlatFrom(segments, start)
    ensures Charge(segments) == 0
  {
    if segments != [] {
      assert FlatFrom(segments[1..], start + 1);
      FlatIsFree(segments[1..], start + 1);
    }
  }

  lemma BodyIsAccounted(o: Origin, maxDepth: nat, payload: Json, start: int, references: nat, depth: nat)
    requires payload.Obj?
    ensures NumberedFrom(BodyOf(o.lib, payload, start), start)
    ensures Placed(o, maxDepth, BodyOf(o.lib, payload, start), references, depth)
    ensures Charge(BodyOf(o.lib, payload, start)) == 0
  {
    hide BodyOf;
    BodyIsNumbered(o.lib, payload, start);
    FlatIsFree(BodyOf(o.lib, payload, start), start);
  }

  lemma Concat(o: Origin, maxDepth: nat, a: seq<Segment>, b: seq<Segment>, start: int, references: nat, depth: nat)
    requires NumberedFrom(a, start) && NumberedFrom(b, start + |a|)
    requires Placed(o, maxDepth, a, references, depth) && Placed(o, maxDepth, b, references, depth)
    ensures NumberedFrom(a + b, start) && Placed(o, maxDepth, a + b, references, depth)
    ensures Charge(a + b) == Charge(a) + Charge(b)
  {
    ChargeConcat(a, b);
  }

  lemma One(o: Origin, maxDepth: nat, segment: Segment, references: nat, depth: nat)
    requires NumberedInside(segment) && PlacedInside(o, maxDepth, segment, references, depth)
    ensures NumberedFrom([segment], segment.position) && Placed(o, maxDepth, [segment], references, depth)
    ensures Charge([segment]) == ChargeOf(segment)
  {
  }

  /** Every parse numbers all its sibling lists, pays for exactly the nodes and element replies
      it returns, stays within the depth, and stamps every forward node with its place. */
  lemma {:induction false} ParseIsAccounted(
    o: Origin, maxDepth: nat, payload: Json, remaining: nat, references: nat, depth: nat)
    requires payload.Obj?
    requires depth + references <= maxDepth
    ensures var parsed := SegmentsOf(o, maxDepth, payload, remaining, references, depth);
            && NumberedFrom(parsed.value, 0)
            && Placed(o, maxDepth, parsed.value, references, depth)
            && remaining == parsed.remaining + Charge(parsed.value)
    decreases payload, 2
  {
    hide BodyOf, TypeOf, NumberedFrom, NumberedInside, Placed, PlacedInside, Charge, ChargeOf;
    if TypeOf(o, payload) == Some(FORWARD_MESSAGE_TYPE) {
      ForwardIsAccounted(o, maxDepth, payload, remaining, references, depth);
      One(o, maxDepth, ForwardOf(o, maxDepth, payload, remaining, references, depth).value, references, depth);
    } else if TypeOf(o, payload) == Some(REPLY_MESSAGE_TYPE) {
      var replies := RepliesOf(o, maxDepth, payload, remaining, references, depth).value;
      RepliesAreAccounted(o, maxDepth, payload, remaining, references, depth);
      BodyIsAccounted(o, maxDepth, payload, |replies|, references, depth);
      Concat(o, maxDepth, replies, BodyOf(o.lib, payload, |replies|), 0, references, depth);
    } else {
      BodyIsAccounted(o, maxDepth, payload, 0, references, depth);
      assert [] + BodyOf(o.lib, payload, 0) == BodyOf(o.lib, payload, 0);
    }
  }

  lemma {:induction false} ForwardIsAccounted(
    o: Origin, maxDepth: nat, payload: Json, remaining: nat, references: nat, depth: nat)
    requires payload.Obj?
    requires depth + references <= maxDepth
    ensures var parsed := ForwardOf(o, maxDepth, payload, remaining, references, depth);
            && parsed.value.position == 0
            && NumberedInside(parsed.value)
            && PlacedInside(o, maxDepth, parsed.value, references, depth)
            && remaining == parsed.remaining + ChargeOf(parsed.value)
    decreases payload, 1
  {
    hide BodyOf, NumberedFrom, Placed, Charge;
    BodyIsAccounted(o, maxDepth, payload, 0, references, depth);
    if ElementsOf(payload) != [] && depth + references < maxDepth {
      NodesAreAccounted(o, maxDepth, ElementsOf(payload), remaining, references, depth, ForwardEmbedded);
    }
  }

  lemma {:induction false} NodesAreAccounted(
    o: Origin, maxDepth: nat, elements: seq<Json>, remaining: nat, references: nat, depth: nat,
    status: ForwardStatus)
    requires depth + references < maxDepth
    ensures var run := NodesOf(o, maxDepth, elements, remaining, references, depth, status);
            && NodesPlaced(o, maxDepth, run.nodes, references, depth)
            && remaining == run.remaining + ChargeOfNodes(run.nodes)
    decreases elements, 0
  {
    hide BodyOf, NumberedFrom, Placed, Charge, SegmentsOf;
    if elements != [] && remaining != 0 {
      var element := elements[0];
      var content := if element.Obj?
                     then SegmentsOf(o, maxDepth, element, remaining - 1, references, depth + 1)
                     else Parsed(OpaqueNode(element), remaining - 1);
      if element.Obj? {
        ParseIsAccounted(o, maxDepth, element, remaining - 1, references, depth + 1);
      } else {
        One(o, maxDepth, OpaqueNode(element)[0], references, depth + 1);
      }
      var next := if element.Obj? then status else ForwardInvalidContent;
      NodesAreAccounted(o, maxDepth, elements[1..], content.remaining, references, depth, next);
      NodesCons(o, maxDepth, NodeFor(o, element, content.value, depth),
                NodesOf(o, maxDepth, elements[1..], content.remaining, references, depth, next).nodes,
                references, depth);
    }
  }

  lemma NodesCons(o: Origin, maxDepth: nat, head: ForwardNode, tail: seq<ForwardNode>, references: nat, depth: nat)
    requires NodePlaced(o, maxDepth, head, references, depth)
    requires NodesPlaced(o, maxDepth, tail, references, depth)
    ensures NodesPlaced(o, maxDepth, [head] + tail, references, depth)
    ensures ChargeOfNodes([head] + tail) == 1 + Charge(head.content) + ChargeOfNodes(tail)
  {
  }

  lemma {:induction false} RepliesAreAccounted(
    o: Origin, maxDepth: nat, payload: Json, remaining: nat, references: nat, depth: nat)
    requires payload.Obj?
    requires depth + references <= maxDepth
    ensures var parsed := RepliesOf(o, maxDepth, payload, remaining, references, depth);
            && NumberedFrom(parsed.value, 0)
            && Placed(o, maxDepth, parsed.value, references, depth)
            && remaining == parsed.remaining + Charge(parsed.value)
    decreases payload, 1
  {
    hide NumberedFrom, Placed, Charge, BodyOf, ReplyRun;
    var elements := ElementsOf(payload);
    if elements == [] {
      One(o, maxDepth, UnresolvedReply(payload), references, depth);
    } else if depth + references >= maxDepth {
      One(o, maxDepth, ReplyWith(0, Obj(map["msg_elements" := List(elements)]), ReplyDepthLimit), references, depth);
    } else {
      RunIsAccounted(o, maxDepth, elements, 0, Get(payload, "message_scene"), |elements| == 1,
                     remaining, references, depth);
    }
  }

  lemma {:induction false} RunIsAccounted(
    o: Origin, maxDepth: nat, elements: seq<Json>, position: nat, scene: Json, alone: bool,
    remaining: nat, references: nat, depth: nat)
    requires depth + references < maxDepth
    ensures var run := ReplyRun(o, maxDepth, elements, position, scene, alone, remaining, references, depth);
            && NumberedFrom(run.value, position)
            && Placed(o, maxDepth, run.value, references, depth)
            && remaining == run.remaining + Charge(run.value)
    decreases elements, 0
  {
    hide NumberedFrom, Placed, Charge, BodyOf, ResolvedOf;
    if elements == [] {
      NoSegments(o, maxDepth, position, references, depth);
    } else if remaining == 0 {
      One(o, maxDepth, ReplyWith(position, Obj(map["msg_elements" := List(elements)]), ReplyNodeLimit),
          references, depth);
    } else {
      var resolved := ResolvedOf(o, maxDepth, elements[0], remaining - 1, references, depth);
      ResolvedIsAccounted(o, maxDepth, elements[0], remaining - 1, references, depth);
      RunIsAccounted(o, maxDepth, elements[1..], position + 1, scene, alone, resolved.remaining, references, depth);
      var head := ReplyFor(o, position, elements[0], scene, alone, resolved.value);
      One(o, maxDepth, head, references, depth);
      Concat(o, maxDepth, [head],
             ReplyRun(o, maxDepth, elements[1..], position + 1, scene, alone,
                      resolved.remaining, references, depth).value,
             position, references, depth);
    }
  }

  lemma NoSegments(o: Origin, maxDepth: nat, start: int, references: nat, depth: nat)
    ensures NumberedFrom([], start) && Placed(o, maxDepth, [], references, depth) && Charge([]) == 0
  {
  }

  lemma {:induction false} ResolvedIsAccounted(
    o: Origin, maxDepth: nat, element: Json, remaining: nat, references: nat, depth: nat)
    requires depth + references < maxDepth
    ensures var run := ResolvedOf(o, maxDepth, element, remaining, references, depth);
            && remaining == run.remaining + (if run.value.Some? then Charge(run.value.value.segments) else 0)
            && (run.value.Some? ==> && NumberedFrom(run.value.value.segments, 0)
                                    && Placed(o, maxDepth, run.value.value.segments, references + 1, depth))
    decreases element, 3
  {
    hide NumberedFrom, Placed, Charge, BodyOf, SegmentsOf;
    NoSegments(o, maxDepth, 0, references, depth);
    if element.Obj? {
      if QuotesOnlyBody(o, element) {
        BodyIsAccounted(o, maxDepth, element, 0, references + 1, depth);
      } else {
        ParseIsAccounted(o, maxDepth, element, remaining, references + 1, depth);
      }
    }
  }

  /** The message-level statement: numbering, depth and provenance hold from the top, and the
      nodes and element replies of the whole tree never exceed the configured budget. */
  lemma ParsedMessageIsAccounted(lib: Library, referenceKey: (Json, Json, bool) -> Json, maxDepth: nat,
                                 maxNodes: nat, event: Json, rawEventId: Option<int>)
    returns (o: Origin)
    requires event.Obj? && MessageOf(lib, referenceKey, maxDepth, maxNodes, event, rawEventId).Some?
    ensures var message := MessageOf(lib, referenceKey, maxDepth, maxNodes, event, rawEventId).value;
            && o.rawEventId == rawEventId && o.parentMessageId == message.platformMessageId
            && message.sourceRawEventId == rawEventId
            && NumberedFrom(message.segments, 0)
            && Placed(o, maxDepth, message.segments, 0, 0)
            && Charge(message.segments) <= maxNodes
  {
    hide NumberedFrom, Placed, Charge, SegmentsOf;
    var payload := EventPayload(lib, event).1;
    o := Origin(lib, referenceKey, rawEventId, AsString(lib, Get(payload, "id")));
    ParseIsAccounted(o, maxDepth, payload, maxNodes, 0, 0);
  }
}
