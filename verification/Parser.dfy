/** The recursive parse of one QQ Official event: under a node budget and a depth limit, and
    without limits. */
module Parser {
  import opened Values
  import opened Domain
  import opened MessageBody

  const REPLY_MESSAGE_TYPE := 103
  const FORWARD_MESSAGE_TYPE := 102

  /** What stays fixed during one parse: the library, the opaque choice of a reply's reference
      key from (element, scene, whether the element is alone), and the two ids every
      provenance repeats. */
  datatype Origin = Origin(
    lib: Library,
    referenceKey: (Json, Json, bool) -> Json,
    rawEventId: Option<int>,
    parentMessageId: Option<string>
  )

  // ----- leaves -----

  function IdentityOf(lib: Library, value: Json, present: IdentitySource, missing: IdentitySource): Identity {
    var author := if value.Obj? then value else Obj(map[]);
    var userId := OrText(AsString(lib, Get(author, "id")), AsString(lib, Get(author, "member_openid")));
    Identity("qq_official", userId, AsString(lib, Get(author, "username")), None,
             if userId.Some? then present else missing,
             if userId.Some? then Known else Unavailable)
  }

  /** `text.replace("Z", "+00:00")`. */
  function WithOffset(text: string): string {
    if text == "" then ""
    else (if text[0] == 'Z' then "+00:00" else [text[0]]) + WithOffset(text[1..])
  }

  function TimeOf(lib: Library, value: Json): Option<Time> {
    if value.Str? then lib.timeOfText(WithOffset(value.text)) else None
  }

  function NodeFor(o: Origin, element: Json, content: seq<Segment>, depth: nat): ForwardNode {
    ForwardNode(
      IdentityOf(o.lib, if element.Obj? then Get(element, "author") else Null, FromForwardNode, FromForwardNode),
      None,
      content,
      Provenance(if depth == 0 then InForward else InNestedForward, o.rawEventId, o.parentMessageId, depth + 1),
      element)
  }

  /** The content of a forward element that is not an object. */
  function OpaqueNode(element: Json): seq<Segment> {
    [Unknown(0, element, Str("forward_node"))]
  }

  function ForwardWith(o: Origin, payload: Json, status: ForwardStatus, nodes: seq<ForwardNode>): Segment
    requires payload.Obj?
  {
    Forward(0, payload, Null, Bool(status == ForwardEmbedded), status, BodyOf(o.lib, payload, 0), nodes, Null)
  }

  function ReplyWith(position: int, rawData: Json, status: ReplyStatus): Segment {
    Reply(position, rawData, Null, Null, status, None, Null)
  }

  function UnresolvedReply(payload: Json): Segment
    requires payload.Obj?
  {
    ReplyWith(0, Obj(map["msg_elements" := Get(payload, "msg_elements"),
                         "message_scene" := Get(payload, "message_scene")]), ReplyUnresolved)
  }

  function ReplyFor(o: Origin, position: int, element: Json, scene: Json, alone: bool,
                    resolved: Option<ResolvedMessage>): Segment {
    Reply(position, Obj(map["msg_element" := element, "message_scene" := scene]), Null,
          o.referenceKey(element, scene, alone), ReplyUnresolved, resolved, Null)
  }

  /** A resolved reply with no segments is no resolved reply. */
  function ResolvedFor(o: Origin, element: Json, segments: seq<Segment>): Option<ResolvedMessage>
    requires element.Obj?
  {
    if segments == [] then None
    else Some(ResolvedMessage(
      OfText(AsString(o.lib, Get(element, "id"))),
      IdentityOf(o.lib, Get(element, "author"), FromResolvedMessage, FromResolvedMessage),
      TimeOf(o.lib, Get(element, "timestamp")),
      segments,
      element))
  }

  function TypeOf(o: Origin, payload: Json): Option<int>
    requires payload.Obj?
  {
    AsInt(o.lib, Get(payload, "message_type"))
  }

  function ElementsOf(payload: Json): seq<Json>
    requires payload.Obj?
    ensures forall e | e in ElementsOf(payload) :: e < payload
  {
    var elements := Get(payload, "msg_elements");
    if elements.List? then elements.items else []
  }

  /** A quoted reply that already carries its body and nothing deeper. */
  predicate QuotesOnlyBody(o: Origin, element: Json)
    requires element.Obj?
  {
    TypeOf(o, element) == Some(REPLY_MESSAGE_TYPE) && !Truthy(Get(element, "msg_elements"))
  }

  // ----- the parse under limits -----

  /** A value and the node budget left after producing it. */
  datatype Parsed<+T> = Parsed(value: T, remaining: nat)

  datatype NodeRun = NodeRun(nodes: seq<ForwardNode>, status: ForwardStatus, remaining: nat)

  function SegmentsOf(o: Origin, maxDepth: nat, payload: Json, remaining: nat, references: nat, depth: nat)
    : Parsed<seq<Segment>>
    requires payload.Obj?
    decreases payload, 2
  {
    if TypeOf(o, payload) == Some(FORWARD_MESSAGE_TYPE) then
      var forwarded := ForwardOf(o, maxDepth, payload, remaining, references, depth);
      Parsed([forwarded.value], forwarded.remaining)
    else
      var replies := if TypeOf(o, payload) == Some(REPLY_MESSAGE_TYPE)
                     then RepliesOf(o, maxDepth, payload, remaining, references, depth)
                     else Parsed([], remaining);
      Parsed(replies.value + BodyOf(o.lib, payload, |replies.value|), replies.remaining)
  }

  function ForwardOf(o: Origin, maxDepth: nat, payload: Json, remaining: nat, references: nat, depth: nat)
    : Parsed<Segment>
    requires payload.Obj?
    decreases payload, 1
  {
    var elements := Get(payload, "msg_elements");
    if elements != Null && !elements.List? then
      Parsed(ForwardWith(o, payload, ForwardInvalidContent, []), remaining)
    else if ElementsOf(payload) == [] then
      Parsed(ForwardWith(o, payload, ForwardUnresolved, []), remaining)
    else if depth + references >= maxDepth then
      Parsed(ForwardWith(o, payload, ForwardDepthLimit, []), remaining)
    else
      var run := NodesOf(o, maxDepth, ElementsOf(payload), remaining, references, depth, ForwardEmbedded);
      Parsed(ForwardWith(o, payload, run.status, run.nodes), run.remaining)
  }

  function NodesOf(o: Origin, maxDepth: nat, elements: seq<Json>, remaining: nat, references: nat, depth: nat,
                   status: ForwardStatus): NodeRun
    decreases elements, 0
  {
    if elements == [] then NodeRun([], status, remaining)
    else if remaining == 0 then NodeRun([], ForwardNodeLimit, 0)
    else
      var content := if elements[0].Obj?
                     then SegmentsOf(o, maxDepth, elements[0], remaining - 1, references, depth + 1)
                     else Parsed(OpaqueNode(elements[0]), remaining - 1);
      var next := if elements[0].Obj? then status else ForwardInvalidContent;
      var rest := NodesOf(o, maxDepth, elements[1..], content.remaining, references, depth, next);
      NodeRun([NodeFor(o, elements[0], content.value, depth)] + rest.nodes, rest.status, rest.remaining)
  }

  function RepliesOf(o: Origin, maxDepth: nat, payload: Json, remaining: nat, references: nat, depth: nat)
    : Parsed<seq<Segment>>
    requires payload.Obj?
    decreases payload, 1
  {
    var elements := ElementsOf(payload);
    if elements == [] then
      Parsed([UnresolvedReply(payload)], remaining)
    else if depth + references >= maxDepth then
      Parsed([ReplyWith(0, Obj(map["msg_elements" := List(elements)]), ReplyDepthLimit)], remaining)
    else
      ReplyRun(o, maxDepth, elements, 0, Get(payload, "message_scene"), |elements| == 1,
               remaining, references, depth)
  }

  function ReplyRun(o: Origin, maxDepth: nat, elements: seq<Json>, position: nat, scene: Json, alone: bool,
                    remaining: nat, references: nat, depth: nat): Parsed<seq<Segment>>
    decreases elements, 0
  {
    if elements == [] then Parsed([], remaining)
    else if remaining == 0 then
      Parsed([ReplyWith(position, Obj(map["msg_elements" := List(elements)]), ReplyNodeLimit)], 0)
    else
      var resolved := ResolvedOf(o, maxDepth, elements[0], remaining - 1, references, depth);
      var rest := ReplyRun(o, maxDepth, elements[1..], position + 1, scene, alone,
                           resolved.remaining, references, depth);
      Parsed([ReplyFor(o, position, elements[0], scene, alone, resolved.value)] + rest.value, rest.remaining)
  }

  function ResolvedOf(o: Origin, maxDepth: nat, element: Json, remaining: nat, references: nat, depth: nat)
    : Parsed<Option<ResolvedMessage>>
    decreases element, 3
  {
    if !element.Obj? then Parsed(None, remaining)
    else
      var segments := if QuotesOnlyBody(o, element) then Parsed(BodyOf(o.lib, element, 0), remaining)
                      else SegmentsOf(o, maxDepth, element, remaining, references + 1, depth);
      Parsed(ResolvedFor(o, element, segments.value), segments.remaining)
  }

  /** The whole parse of one event, or None for an unrelated event. */
  function MessageOf(lib: Library, referenceKey: (Json, Json, bool) -> Json, maxDepth: nat, maxNodes: nat,
                     event: Json, rawEventId: Option<int>): Option<Message>
    requires event.Obj?
  {
    var (eventType, payload) := EventPayload(lib, event);
    if eventType != Some("GROUP_MESSAGE_CREATE") && eventType != Some("GROUP_AT_MESSAGE_CREATE") then None
    else if !payload.Obj? then None
    else
      var o := Origin(lib, referenceKey, rawEventId, AsString(lib, Get(payload, "id")));
      Some(MessageWith(o, eventType, payload, SegmentsOf(o, maxDepth, payload, maxNodes, 0, 0).value))
  }

  function EventPayload(lib: Library, event: Json): (Option<string>, Json)
    requires event.Obj?
  {
    if "t" in event.fields || "d" in event.fields then (AsString(lib, Get(event, "t")), Get(event, "d"))
    else if !Get(event, "gateway").Obj? then (None, Get(event, "data"))
    else (AsString(lib, Get(Get(event, "gateway"), "t")), Get(event, "data"))
  }

  function MessageWith(o: Origin, eventType: Option<string>, payload: Json, segments: seq<Segment>): Message
    requires payload.Obj?
  {
    var author := IdentityOf(o.lib, Get(payload, "author"), FromEvent, FromUnknown);
    Message(
      "qq_official",
      o.rawEventId,
      AsString(o.lib, Get(payload, "id")),
      Context(AsString(o.lib, Get(payload, "message_type")), eventType,
              OrText(AsString(o.lib, Get(payload, "group_openid")), AsString(o.lib, Get(payload, "group_id")))),
      author,
      author,
      TimeOf(o.lib, Get(payload, "timestamp")),
      segments,
      Provenance(DirectEvent, o.rawEventId, None, 0))
  }

  // ----- the parse without limits -----

  /** Every element becomes a node or a reply, however deep and however many. */
  function FullSegments(o: Origin, payload: Json, depth: nat): seq<Segment>
    requires payload.Obj?
    decreases payload, 2
  {
    var elements := ElementsOf(payload);
    if TypeOf(o, payload) == Some(FORWARD_MESSAGE_TYPE) then
      var nodes := if elements == [] then [] else FullNodes(o, elements, depth);
      [ForwardWith(o, payload, FullStatus(payload), nodes)]
    else if TypeOf(o, payload) == Some(REPLY_MESSAGE_TYPE) then
      var replies := if elements == [] then [UnresolvedReply(payload)]
                     else FullReplies(o, elements, 0, Get(payload, "message_scene"), |elements| == 1, depth);
      replies + BodyOf(o.lib, payload, |replies|)
    else
      BodyOf(o.lib, payload, 0)
  }

  function FullStatus(payload: Json): ForwardStatus
    requires payload.Obj?
  {
    var elements := Get(payload, "msg_elements");
    if elements != Null && !elements.List? then ForwardInvalidContent
    else if ElementsOf(payload) == [] then ForwardUnresolved
    else if forall e | e in ElementsOf(payload) :: e.Obj? then ForwardEmbedded
    else ForwardInvalidContent
  }

  function FullNodes(o: Origin, elements: seq<Json>, depth: nat): seq<ForwardNode>
    decreases elements, 0
  {
    if elements == [] then []
    else
      var content := if elements[0].Obj? then FullSegments(o, elements[0], depth + 1) else OpaqueNode(elements[0]);
      [NodeFor(o, elements[0], content, depth)] + FullNodes(o, elements[1..], depth)
  }

  function FullReplies(o: Origin, elements: seq<Json>, position: nat, scene: Json, alone: bool, depth: nat)
    : seq<Segment>
    decreases elements, 0
  {
    if elements == [] then []
    else
      var resolved := FullResolved(o, elements[0], depth);
      [ReplyFor(o, position, elements[0], scene, alone, resolved)]
      + FullReplies(o, elements[1..], position + 1, scene, alone, depth)
  }

  function FullResolved(o: Origin, element: Json, depth: nat): Option<ResolvedMessage>
    decreases element, 3
  {
    if !element.Obj? then None
    else if QuotesOnlyBody(o, element) then ResolvedFor(o, element, BodyOf(o.lib, element, 0))
    else ResolvedFor(o, element, FullSegments(o, element, depth))
  }
}
