/** When the node budget and the depth limit do not matter, and how they show when they do. */
module ParserLimits {
  import opened Values
  import opened Domain
  import opened MessageBody
  import opened Parser

  // ----- the size of a payload -----

  /** Whether the payload's elements are followed at all. */
  predicate Follows(o: Origin, payload: Json)
    requires payload.Obj?
  {
    TypeOf(o, payload) == Some(FORWARD_MESSAGE_TYPE) || TypeOf(o, payload) == Some(REPLY_MESSAGE_TYPE)
  }

  /** How many elements can be reached. */
  function Count(o: Origin, payload: Json): nat
    requires payload.Obj?
    decreases payload, 1
  {
    if Follows(o, payload) && ElementsOf(payload) != [] then CountIn(o, ElementsOf(payload)) else 0
  }

  function CountIn(o: Origin, elements: seq<Json>): nat
    decreases elements, 0
  {
    if elements == [] then 0
    else 1 + (if elements[0].Obj? then Count(o, elements[0]) else 0) + CountIn(o, elements[1..])
  }

  /** How deep forwards and replies are nested, counted together. */
  function Levels(o: Origin, payload: Json): nat
    requires payload.Obj?
    decreases payload, 1
  {
    if Follows(o, payload) && ElementsOf(payload) != [] then 1 + LevelsIn(o, ElementsOf(payload)) else 0
  }

  function LevelsIn(o: Origin, elements: seq<Json>): nat
    decreases elements, 0
  {
    if elements == [] then 0
    else
      var here := if elements[0].Obj? then Levels(o, elements[0]) else 0;
      var rest := LevelsIn(o, elements[1..]);
      if here > rest then here else rest
  }

  /** No segment, at any level, was cut by a limit. */
  ghost predicate Unlimited(segments: seq<Segment>)
    decreases segments, 1
  {
    forall i | 0 <= i < |segments| :: UnlimitedInside(segments[i])
  }

  ghost predicate UnlimitedInside(segment: Segment)
    decreases segment, 0
  {
    match segment
    case Reply(_, _, _, _, status, resolved, _) =>
      && status != ReplyDepthLimit && status != ReplyNodeLimit
      && (resolved.Some? ==> Unlimited(resolved.value.segments))
    case Forward(_, _, _, _, status, content, nodes, _) =>
      && status != ForwardDepthLimit && status != ForwardNodeLimit
      && Unlimited(content)
      && forall i | 0 <= i < |nodes| :: Unlimited(nodes[i].content)
    case _ => true
  }

  ghost predicate UnlimitedNodes(nodes: seq<ForwardNode>) {
    forall i | 0 <= i < |nodes| :: Unlimited(nodes[i].content)
  }

  // ----- theorem: when the limits do not matter -----

  lemma BodyIsUnlimited(o: Origin, payload: Json, start: int)
    requires payload.Obj?
    ensures Unlimited(BodyOf(o.lib, payload, start))
  {
    BodyIsNumbered(o.lib, payload, start);
  }

  lemma UnlimitedConcat(a: seq<Segment>, b: seq<Segment>)
    ensures Unlimited(a + b) <==> Unlimited(a) && Unlimited(b)
  {
    assert forall i | 0 <= i < |a| :: a[i] == (a + b)[i];
    assert forall i | 0 <= i < |b| :: b[i] == (a + b)[|a| + i];
  }

  lemma UnlimitedOne(segment: Segment)
    ensures Unlimited([segment]) <==> UnlimitedInside(segment)
  {
    assert [segment][0] == segment;
  }

  lemma UnlimitedNodesCons(head: ForwardNode, tail: seq<ForwardNode>)
    ensures UnlimitedNodes([head] + tail) <==> Unlimited(head.content) && UnlimitedNodes(tail)
  {
    var all := [head] + tail;
    assert all[0] == head;
    if UnlimitedNodes(all) {
      forall i | 0 <= i < |tail|
        ensures Unlimited(tail[i].content)
      {
        assert all[i + 1] == tail[i];
      }
    }
  }

  /** The status the node loop ends with when it is not cut short. */
  function StatusAfter(elements: seq<Json>, status: ForwardStatus): ForwardStatus {
    if elements == [] then status
    else StatusAfter(elements[1..], if elements[0].Obj? then status else ForwardInvalidContent)
  }

  lemma {:induction false} StatusTellsObjects(elements: seq<Json>)
    ensures StatusAfter(elements, ForwardInvalidContent) == ForwardInvalidContent
    ensures StatusAfter(elements, ForwardEmbedded)
            == if forall e | e in elements :: e.Obj? then ForwardEmbedded else ForwardInvalidContent
  {
    if elements != [] {
      StatusTellsObjects(elements[1..]);
      assert forall e :: e in elements <==> e == elements[0] || e in elements[1..];
    }
  }

  /** Whether a payload fits the node budget and the depth that are left. */
  predicate Fits(o: Origin, payload: Json, remaining: nat, levels: int)
    requires payload.Obj?
  {
    Count(o, payload) <= remaining && Levels(o, payload) <= levels
  }

  predicate FitsIn(o: Origin, elements: seq<Json>, remaining: nat, levels: int) {
    CountIn(o, elements) <= remaining && LevelsIn(o, elements) <= levels
  }

  /** A parse shows no limit status exactly when the payload fits the node budget and the
      depth; then it is the parse without limits and has paid one node for each element. */
  lemma {:induction false} LimitsShowExactlyWhenExceeded(
    o: Origin, maxDepth: nat, payload: Json, remaining: nat, references: nat, depth: nat)
    requires payload.Obj?
    requires depth + references <= maxDepth
    ensures var bounded := SegmentsOf(o, maxDepth, payload, remaining, references, depth);
            var fits := Fits(o, payload, remaining, maxDepth - depth - references);
            && (Unlimited(bounded.value) <==> fits)
            && (fits ==> bounded == Parsed(FullSegments(o, payload, depth), remaining - Count(o, payload)))
    decreases payload, 2
  {
    hide BodyOf, Unlimited, TypeOf;
    if TypeOf(o, payload) == Some(FORWARD_MESSAGE_TYPE) {
      ForwardShowsLimits(o, maxDepth, payload, remaining, references, depth);
    } else if TypeOf(o, payload) == Some(REPLY_MESSAGE_TYPE) {
      ReplyShowsLimits(o, maxDepth, payload, remaining, references, depth);
    } else {
      BodyIsUnlimited(o, payload, 0);
      assert [] + BodyOf(o.lib, payload, 0) == BodyOf(o.lib, payload, 0);
    }
  }

  lemma {:induction false} ForwardShowsLimits(
    o: Origin, maxDepth: nat, payload: Json, remaining: nat, references: nat, depth: nat)
    requires payload.Obj? && TypeOf(o, payload) == Some(FORWARD_MESSAGE_TYPE)
    requires depth + references <= maxDepth
    ensures var bounded := ForwardOf(o, maxDepth, payload, remaining, references, depth);
            var fits := Fits(o, payload, remaining, maxDepth - depth - references);
            && (Unlimited([bounded.value]) <==> fits)
            && (fits ==> && [bounded.value] == FullSegments(o, payload, depth)
                         && bounded.remaining == remaining - Count(o, payload))
    decreases payload, 1
  {
    hide BodyOf, Unlimited;
    var elements := ElementsOf(payload);
    BodyIsUnlimited(o, payload, 0);
    UnlimitedOne(ForwardOf(o, maxDepth, payload, remaining, references, depth).value);
    if elements != [] && depth + references < maxDepth {
      NodesShowLimits(o, maxDepth, elements, remaining, references, depth, ForwardEmbedded);
      StatusTellsObjects(elements);
    }
  }

  lemma {:induction false} NodesShowLimits(
    o: Origin, maxDepth: nat, elements: seq<Json>, remaining: nat, references: nat, depth: nat,
    status: ForwardStatus)
    requires depth + references < maxDepth
    requires status == ForwardEmbedded || status == ForwardInvalidContent
    ensures var run := NodesOf(o, maxDepth, elements, remaining, references, depth, status);
            var fits := FitsIn(o, elements, remaining, maxDepth - depth - references - 1);
            && (run.status != ForwardNodeLimit && UnlimitedNodes(run.nodes) <==> fits)
            && run.status != ForwardDepthLimit
            && (fits ==> run == NodeRun(FullNodes(o, elements, depth), StatusAfter(elements, status),
                                        remaining - CountIn(o, elements)))
    decreases elements, 0
  {
    hide BodyOf, Unlimited, UnlimitedNodes, Count, Levels, SegmentsOf, FullSegments;
    if elements == [] {
      NoNodes();
    } else if remaining != 0 {
      var element := elements[0];
      var content := if element.Obj?
                     then SegmentsOf(o, maxDepth, element, remaining - 1, references, depth + 1)
                     else Parsed(OpaqueNode(element), remaining - 1);
      if element.Obj? {
        LimitsShowExactlyWhenExceeded(o, maxDepth, element, remaining - 1, references, depth + 1);
      } else {
        UnlimitedOne(OpaqueNode(element)[0]);
      }
      var next := if element.Obj? then status else ForwardInvalidContent;
      NodesShowLimits(o, maxDepth, elements[1..], content.remaining, references, depth, next);
      UnlimitedNodesCons(NodeFor(o, element, content.value, depth),
                         NodesOf(o, maxDepth, elements[1..], content.remaining, references, depth, next).nodes);
    }
  }

  lemma NoNodes()
    ensures UnlimitedNodes([]) && Unlimited([])
  {
  }

  lemma {:induction false} ReplyShowsLimits(
    o: Origin, maxDepth: nat, payload: Json, remaining: nat, references: nat, depth: nat)
    requires payload.Obj? && TypeOf(o, payload) == Some(REPLY_MESSAGE_TYPE)
    requires depth + references <= maxDepth
    ensures var bounded := SegmentsOf(o, maxDepth, payload, remaining, references, depth);
            var fits := Fits(o, payload, remaining, maxDepth - depth - references);
            && (Unlimited(bounded.value) <==> fits)
            && (fits ==> bounded == Parsed(FullSegments(o, payload, depth), remaining - Count(o, payload)))
    decreases payload, 1
  {
    hide BodyOf, Unlimited;
    var elements := ElementsOf(payload);
    var replies := RepliesOf(o, maxDepth, payload, remaining, references, depth).value;
    BodyIsUnlimited(o, payload, |replies|);
    UnlimitedConcat(replies, BodyOf(o.lib, payload, |replies|));
    if elements == [] || depth + references >= maxDepth {
      UnlimitedOne(replies[0]);
    } else {
      RepliesShowLimits(o, maxDepth, elements, 0, Get(payload, "message_scene"), |elements| == 1,
                        remaining, references, depth);
    }
  }

  lemma {:induction false} RepliesShowLimits(
    o: Origin, maxDepth: nat, elements: seq<Json>, position: nat, scene: Json, alone: bool,
    remaining: nat, references: nat, depth: nat)
    requires depth + references < maxDepth
    ensures var run := ReplyRun(o, maxDepth, elements, position, scene, alone, remaining, references, depth);
            var fits := FitsIn(o, elements, remaining, maxDepth - depth - references - 1);
            && (Unlimited(run.value) <==> fits)
            && (fits ==> run == Parsed(FullReplies(o, elements, position, scene, alone, depth),
                                       remaining - CountIn(o, elements)))
    decreases elements, 0
  {
    hide BodyOf, Unlimited, Count, Levels, ResolvedOf, FullResolved;
    if elements == [] {
      NoNodes();
    } else if remaining == 0 {
      UnlimitedOne(ReplyWith(position, Obj(map["msg_elements" := List(elements)]), ReplyNodeLimit));
    } else {
      var resolved := ResolvedOf(o, maxDepth, elements[0], remaining - 1, references, depth);
      ResolvedShowsLimits(o, maxDepth, elements[0], remaining - 1, references, depth);
      RepliesShowLimits(o, maxDepth, elements[1..], position + 1, scene, alone,
                        resolved.remaining, references, depth);
      var head := ReplyFor(o, position, elements[0], scene, alone, resolved.value);
      UnlimitedOne(head);
      UnlimitedConcat([head], ReplyRun(o, maxDepth, elements[1..], position + 1, scene, alone,
                                       resolved.remaining, references, depth).value);
    }
  }

  lemma {:induction false} ResolvedShowsLimits(
    o: Origin, maxDepth: nat, element: Json, remaining: nat, references: nat, depth: nat)
    requires depth + references < maxDepth
    ensures var run := ResolvedOf(o, maxDepth, element, remaining, references, depth);
            var fits := element.Obj? ==> Fits(o, element, remaining, maxDepth - depth - references - 1);
            && ((run.value.Some? ==> Unlimited(run.value.value.segments)) <==> fits)
            && (fits ==> run == Parsed(FullResolved(o, element, depth),
                                       remaining - if element.Obj? then Count(o, element) else 0))
    decreases element, 3
  {
    hide BodyOf, Unlimited, SegmentsOf, FullSegments;
    if element.Obj? {
      NoNodes();
      if QuotesOnlyBody(o, element) {
        BodyIsUnlimited(o, element, 0);
        assert ElementsOf(element) == [];
      } else {
        LimitsShowExactlyWhenExceeded(o, maxDepth, element, remaining, references + 1, depth);
      }
    }
  }
}
