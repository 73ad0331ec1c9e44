/** What a message says is what its payload says: texts, attachments, quoted and forwarded elements and
    their authors, at every level and in order. */
module ParserContents {
  import opened Values
  import opened Sequences
  import opened Domain
  import opened MessageBody
  import opened Parser
  import ParserLimits

  // ----- what a tree and a payload say -----

  /** What is said, bit by bit: the characters of texts and mentions, attachments, and raw values that are
      no text and no element. */
  datatype Bit = Char(c: char) | Attachment(value: Json) | Odd(value: Json)

  function Chars(text: string): seq<Bit> {
    seq(|text|, i requires 0 <= i < |text| => Char(text[i]))
  }

  /** What a tree says in reading order: quoted messages come before what quotes them, and forwarded ones
      after what forwards them. */
  function Said(segments: seq<Segment>): seq<Bit>
    decreases segments, 1
  {
    if segments == [] then [] else SaidBy(segments[0]) + Said(segments[1..])
  }

  function SaidBy(segment: Segment): seq<Bit>
    decreases segment, 2
  {
    match segment
    case Reply(_, _, _, _, _, Some(resolved), _) => Said(resolved.segments)
    case Forward(_, _, _, _, _, content, nodes, _) => Said(content) + SaidInNodes(nodes)
    case Image(_, rawData, _, _, _, _, _, _, _, _, _) => [Attachment(rawData)]
    case File(_, rawData, _, _, _, _, _, _) => [Attachment(rawData)]
    case Unknown(_, rawData, originalType) =>
      if originalType == Str("unmatched_mention") then []
      else if originalType.Str? && "attachment" <= originalType.text then [Attachment(rawData)]
      else [Odd(rawData)]
    case _ => Chars(Rendered(segment))
  }

  function SaidInNodes(nodes: seq<ForwardNode>): seq<Bit>
    decreases nodes, 1
  {
    if nodes == [] then [] else Said(nodes[0].content) + SaidInNodes(nodes[1..])
  }

  /** The elements of a message that quotes (103) or forwards (102). */
  function Inner(lib: Library, payload: Json): seq<Json>
    requires payload.Obj?
    ensures forall e | e in Inner(lib, payload) :: e < payload
  {
    if AsInt(lib, Get(payload, "message_type")) in {Some(102), Some(103)} && Get(payload, "msg_elements").List?
    then Get(payload, "msg_elements").items else []
  }

  predicate Forwards(lib: Library, payload: Json)
    requires payload.Obj?
  {
    AsInt(lib, Get(payload, "message_type")) == Some(102)
  }

  function Attachments(values: seq<Json>): seq<Bit> {
    seq(|values|, i requires 0 <= i < |values| => Attachment(values[i]))
  }

  /** The payload's own content and then its attachments. */
  function Own(payload: Json): seq<Bit>
    requires payload.Obj?
  {
    var content := Get(payload, "content");
    (if content.Str? then Chars(content.text) else if content == Null then [] else [Odd(content)])
    + if Get(payload, "attachments").List? then Attachments(Get(payload, "attachments").items) else []
  }

  /** Everything written in a payload: a forward's own content comes before its elements, any other after. */
  function Written(lib: Library, payload: Json): seq<Bit>
    requires payload.Obj?
    decreases payload, 1
  {
    var inner := if Inner(lib, payload) == [] then [] else WrittenIn(lib, Inner(lib, payload), Forwards(lib, payload));
    if Forwards(lib, payload) then Own(payload) + inner else inner + Own(payload)
  }

  /** A forward also shows an element that is no object; a quote does not. */
  function WrittenIn(lib: Library, elements: seq<Json>, forwarded: bool): seq<Bit>
    decreases elements, 0
  {
    if elements == [] then []
    else
      (if elements[0].Obj? then Written(lib, elements[0]) else if forwarded then [Odd(elements[0])] else [])
      + WrittenIn(lib, elements[1..], forwarded)
  }

  // ----- lists -----

  lemma {:induction false} Both(a: seq<Segment>, b: seq<Segment>)
    ensures Said(a + b) == Said(a) + Said(b)
  {
    hide SaidBy;
    if a == [] {
      assert a + b == b;
    } else {
      assert (a + b)[0] == a[0] && (a + b)[1..] == a[1..] + b;
      Both(a[1..], b);
    }
  }

  lemma One(segment: Segment)
    ensures Said([segment]) == SaidBy(segment)
  {
    assert [segment][1..] == [];
  }

  lemma Nothing()
    ensures Said([]) == []
  {
  }

  // ----- one body -----

  lemma {:induction false} SpelledSays(segments: seq<Segment>)
    requires forall segment | segment in segments :: segment.Text? || segment.At?
    ensures Said(segments) == Chars(RenderedAll(segments))
  {
    hide Rendered;
    if segments != [] {
      SpelledSays(segments[1..]);
    }
  }

  lemma {:induction false} UnmatchedSayNothing(table: seq<Entry>, segments: seq<Segment>, ids: seq<string>)
    requires ReportsUnmatched(table, segments, ids)
    ensures Said(segments) == []
  {
    if segments != [] {
      assert ReportsEntry(table, segments[0], ids[0]);
      assert ReportsUnmatched(table, segments[1..], ids[1..]) by {
        assert forall i | 0 <= i < |segments[1..]| :: segments[1..][i] == segments[i + 1] && ids[1..][i] == ids[i + 1];
      }
      UnmatchedSayNothing(table, segments[1..], ids[1..]);
    }
  }

  lemma {:induction false} AttachmentsSay(lib: Library, attachments: seq<Json>, segments: seq<Segment>)
    requires |segments| == |attachments|
    requires forall i | 0 <= i < |segments| :: ShowsAttachment(lib, attachments[i], segments[i])
    ensures Said(segments) == Attachments(attachments)
  {
    hide AsString, AsInt, ShowsAttachment;
    if segments != [] {
      AttachmentsSay(lib, attachments[1..], segments[1..]);
      AttachmentSays(lib, attachments[0], segments[0]);
    }
  }

  lemma AttachmentSays(lib: Library, attachment: Json, segment: Segment)
    requires ShowsAttachment(lib, attachment, segment)
    ensures SaidBy(segment) == [Attachment(attachment)]
  {
    hide AsString, AsInt;
    assert segment.Unknown? ==> segment.originalType.text[0] == 'a' && "unmatched_mention"[0] == 'u';
  }

  lemma ContentSays(lib: Library, payload: Json, start: int)
    requires payload.Obj?
    ensures var content := Get(payload, "content");
            Said(ContentOf(lib, payload, start))
            == if content.Str? then Chars(content.text) else if content == Null then [] else [Odd(content)]
  {
    hide AllShow, AreTheTokens, MentionTable, Tokens, PiecesOf, Unmatched, TargetsOf, Filter, RenderedAll, Targets;
    var content := Get(payload, "content");
    Nothing();
    assert Chars("") == [];
    if content.Str? && content.text != "" {
      var body, rest, ids, tokens := ContentIsPreserved(lib, payload, start);
      forall segment: Segment | segment in body
        ensures segment.Text? || segment.At?
      {
        var i :| 0 <= i < |body| && body[i] == segment;
      }
      SpelledSays(body);
      UnmatchedSayNothing(MentionTable(lib, payload), rest, ids);
      Both(body, rest);
    } else if content != Null && !content.Str? {
      assert "unstructured_content"[0] == 'u' && "unstructured_content"[2] == 's' && "unmatched_mention"[2] == 'm';
      One(Unknown(start, content, Str("unstructured_content")));
    }
  }

  lemma BodySays(lib: Library, payload: Json, start: int)
    requires payload.Obj?
    ensures Said(BodyOf(lib, payload, start)) == Own(payload)
  {
    hide ContentOf, AttachmentsOf, ShowsAttachment;
    var content := ContentOf(lib, payload, start);
    var attachments := AttachmentsOf(lib, payload, start + |content|);
    ContentSays(lib, payload, start);
    AttachmentsAreShown(lib, payload, start + |content|);
    AttachmentsSay(lib, if Get(payload, "attachments").List? then Get(payload, "attachments").items else [], attachments);
    Both(content, attachments);
  }

  // ----- the whole tree -----

  /** Nothing a payload says is lost, repeated or moved: the tree says exactly what is written in it, quotes
      and forwards included. */
  lemma {:induction false} TreeSaysWhatIsWritten(o: Origin, payload: Json, depth: nat)
    requires payload.Obj?
    ensures Said(FullSegments(o, payload, depth)) == Written(o.lib, payload)
    decreases payload, 2
  {
    hide BodyOf, SaidBy, AsInt, Own;
    var elements := ElementsOf(payload);
    if TypeOf(o, payload) == Some(FORWARD_MESSAGE_TYPE) {
      if elements != [] {
        NodesSayWhatIsWritten(o, elements, depth);
      }
      BodySays(o.lib, payload, 0);
      ForwardSays(o, payload, FullStatus(payload), FullNodes(o, elements, depth));
      One(ForwardWith(o, payload, FullStatus(payload), FullNodes(o, elements, depth)));
    } else if TypeOf(o, payload) == Some(REPLY_MESSAGE_TYPE) {
      var replies := if elements == [] then [UnresolvedReply(payload)]
                     else FullReplies(o, elements, 0, Get(payload, "message_scene"), |elements| == 1, depth);
      if elements != [] {
        RepliesSayWhatIsWritten(o, elements, 0, Get(payload, "message_scene"), |elements| == 1, depth);
      }
      UnresolvedSaysNothing(payload);
      BodySays(o.lib, payload, |replies|);
      Both(replies, BodyOf(o.lib, payload, |replies|));
    } else {
      BodySays(o.lib, payload, 0);
    }
  }

  lemma ForwardSays(o: Origin, payload: Json, status: ForwardStatus, nodes: seq<ForwardNode>)
    requires payload.Obj?
    ensures SaidBy(ForwardWith(o, payload, status, nodes)) == Said(BodyOf(o.lib, payload, 0)) + SaidInNodes(nodes)
  {
    hide BodyOf;
  }

  lemma UnresolvedSaysNothing(payload: Json)
    requires payload.Obj?
    ensures Said([UnresolvedReply(payload)]) == []
  {
    One(UnresolvedReply(payload));
  }

  lemma {:induction false} NodesSayWhatIsWritten(o: Origin, elements: seq<Json>, depth: nat)
    ensures SaidInNodes(FullNodes(o, elements, depth)) == WrittenIn(o.lib, elements, true)
    decreases elements, 0
  {
    hide Said, FullSegments, Written;
    if elements != [] {
      NodesSayWhatIsWritten(o, elements[1..], depth);
      if elements[0].Obj? {
        TreeSaysWhatIsWritten(o, elements[0], depth + 1);
      } else {
        One(OpaqueNode(elements[0])[0]);
        assert "forward_node"[0] == 'f' && "unmatched_mention"[0] == 'u';
      }
    }
  }

  lemma {:induction false} RepliesSayWhatIsWritten(
      o: Origin, elements: seq<Json>, position: nat, scene: Json, alone: bool, depth: nat)
    ensures Said(FullReplies(o, elements, position, scene, alone, depth)) == WrittenIn(o.lib, elements, false)
    decreases elements, 0
  {
    hide Said, FullResolved, Written;
    if elements == [] {
      Nothing();
    } else {
      var resolved := FullResolved(o, elements[0], depth);
      var reply := ReplyFor(o, position, elements[0], scene, alone, resolved);
      var rest := FullReplies(o, elements[1..], position + 1, scene, alone, depth);
      QuoteSaysWhatIsWritten(o, elements[0], depth);
      RepliesSayWhatIsWritten(o, elements[1..], position + 1, scene, alone, depth);
      One(reply);
      Both([reply], rest);
    }
  }

  lemma {:induction false} QuoteSaysWhatIsWritten(o: Origin, element: Json, depth: nat)
    ensures var resolved := FullResolved(o, element, depth);
            (if resolved.Some? then Said(resolved.value.segments) else [])
            == (if element.Obj? then Written(o.lib, element) else [])
    decreases element, 3
  {
    hide BodyOf, Said, FullSegments, AsInt, Own;
    Nothing();
    if element.Obj? {
      if QuotesOnlyBody(o, element) {
        BodySays(o.lib, element, 0);
        assert Inner(o.lib, element) == [] && !Forwards(o.lib, element);
        assert [] + Own(element) == Own(element);
      } else {
        TreeSaysWhatIsWritten(o, element, depth);
      }
    }
  }

  // ----- what kind of message -----

  /** No quote and no forward. */
  ghost predicate Plain(segments: seq<Segment>) {
    forall i | 0 <= i < |segments| :: !segments[i].Reply? && !segments[i].Forward?
  }

  /** Whatever the limits: a message of type 102 is one forward; one of type 103 begins with its quotes, at
      least one; any other has neither. */
  lemma KindsOfMessages(o: Origin, maxDepth: nat, payload: Json, remaining: nat, references: nat, depth: nat)
    requires payload.Obj?
    ensures var segments := SegmentsOf(o, maxDepth, payload, remaining, references, depth).value;
            match AsInt(o.lib, Get(payload, "message_type"))
            case Some(102) => |segments| == 1 && segments[0].Forward?
            case Some(103) =>
              var replies := RepliesOf(o, maxDepth, payload, remaining, references, depth).value;
              && replies != [] && (forall i | 0 <= i < |replies| :: replies[i].Reply?)
              && replies <= segments && Plain(segments[|replies|..])
            case _ => Plain(segments)
  {
    hide BodyOf, AsInt, RepliesOf, ForwardOf, KeepsQuote, KeepsTheRest;
    var replies := RepliesOf(o, maxDepth, payload, remaining, references, depth).value;
    BodyIsNumbered(o.lib, payload, 0);
    BodyIsNumbered(o.lib, payload, |replies|);
    ElementsAreKept(o, maxDepth, payload, remaining, references, depth);
    forall i | 0 <= i < |replies|
      ensures replies[i].Reply?
    {
      QuotesAreReplies(o, payload, i, |replies|, replies[i]);
    }
    assert [] + BodyOf(o.lib, payload, 0) == BodyOf(o.lib, payload, 0);
    assert (replies + BodyOf(o.lib, payload, |replies|))[|replies|..] == BodyOf(o.lib, payload, |replies|);
  }

  lemma QuotesAreReplies(o: Origin, payload: Json, i: nat, count: nat, reply: Segment)
    requires payload.Obj?
    requires || (i < |ElementsOf(payload)|
                 && KeepsQuote(o, ElementsOf(payload)[i], Get(payload, "message_scene"), |ElementsOf(payload)| == 1, reply))
             || (i == count - 1 && KeepsTheRest(payload, i, reply))
    ensures reply.Reply?
  {
  }

  /** A quoted message that quotes without elements of its own is no quote again: it has its body and
      nothing else. */
  lemma QuotedBodyIsPlain(o: Origin, maxDepth: nat, element: Json, remaining: nat, references: nat, depth: nat)
    requires element.Obj? && AsInt(o.lib, Get(element, "message_type")) == Some(103)
    requires Get(element, "msg_elements") in {Null, List([]), Str(""), Bool(false)}
    ensures var resolved := ResolvedOf(o, maxDepth, element, remaining, references, depth);
            && resolved.remaining == remaining
            && (resolved.value.Some? ==> Plain(resolved.value.value.segments))
  {
    hide AsInt;
    BodyIsNumbered(o.lib, element, 0);
  }

  // ----- who says it, and from which element -----

  /** The identity is that of this author object: the id, or else the openid, and the name. */
  ghost predicate Speaks(lib: Library, author: Json, identity: Identity, present: IdentitySource, missing: IdentitySource) {
    var fields := if author.Obj? then author else Obj(map[]);
    var id := AsString(lib, Get(fields, "id"));
    && identity.platform == "qq_official" && identity.card == None
    && identity.userId == (if id.Some? && id.value != "" then id else AsString(lib, Get(fields, "member_openid")))
    && identity.displayName == AsString(lib, Get(fields, "username"))
    && identity.source == (if identity.userId.Some? then present else missing)
    && identity.availability == (if identity.userId.Some? then Known else Unavailable)
  }

  /** The node keeps its element and names the element's author. */
  ghost predicate KeepsElement(lib: Library, element: Json, node: ForwardNode) {
    && node.rawData == element && node.timestamp == None
    && Speaks(lib, if element.Obj? then Get(element, "author") else Null, node.sender, FromForwardNode, FromForwardNode)
  }

  /** The nodes are the elements in order, up to the one at which the budget ran out. */
  lemma {:induction false} NodesKeepElements(o: Origin, maxDepth: nat, elements: seq<Json>, remaining: nat,
                                             references: nat, depth: nat, status: ForwardStatus)
    ensures var run := NodesOf(o, maxDepth, elements, remaining, references, depth, status);
            && |run.nodes| <= |elements|
            && (|run.nodes| < |elements| ==> run.status == ForwardNodeLimit && run.remaining == 0)
            && forall i | 0 <= i < |run.nodes| :: KeepsElement(o.lib, elements[i], run.nodes[i])
    decreases elements
  {
    hide SegmentsOf, KeepsElement, NodeFor;
    if elements != [] && remaining != 0 {
      var content := if elements[0].Obj?
                     then SegmentsOf(o, maxDepth, elements[0], remaining - 1, references, depth + 1)
                     else Parsed(OpaqueNode(elements[0]), remaining - 1);
      var next := if elements[0].Obj? then status else ForwardInvalidContent;
      NodesKeepElements(o, maxDepth, elements[1..], content.remaining, references, depth, next);
      var rest := NodesOf(o, maxDepth, elements[1..], content.remaining, references, depth, next);
      NodeIsKept(o, elements[0], content.value, depth);
      KeepsCons(o.lib, elements, NodeFor(o, elements[0], content.value, depth), rest.nodes);
    }
  }

  lemma NodeIsKept(o: Origin, element: Json, content: seq<Segment>, depth: nat)
    ensures KeepsElement(o.lib, element, NodeFor(o, element, content, depth))
  {
    hide AsString;
  }

  lemma KeepsCons(lib: Library, elements: seq<Json>, node: ForwardNode, rest: seq<ForwardNode>)
    requires elements != [] && KeepsElement(lib, elements[0], node) && |rest| <= |elements| - 1
    requires forall i | 0 <= i < |rest| :: KeepsElement(lib, elements[1..][i], rest[i])
    ensures forall i | 0 <= i < |rest| + 1 :: KeepsElement(lib, elements[i], ([node] + rest)[i])
  {
    hide KeepsElement;
    forall i | 0 < i < |rest| + 1
      ensures ([node] + rest)[i] == rest[i - 1] && elements[i] == elements[1..][i - 1]
    {
    }
  }

  /** A run that was not cut ends with its status, unless an element was no object. */
  lemma {:induction false} NodesTellStatus(o: Origin, maxDepth: nat, elements: seq<Json>, remaining: nat,
                                           references: nat, depth: nat, status: ForwardStatus)
    ensures var run := NodesOf(o, maxDepth, elements, remaining, references, depth, status);
            |run.nodes| == |elements| ==>
              run.status == if forall e | e in elements :: e.Obj? then status else ForwardInvalidContent
    decreases elements
  {
    hide SegmentsOf, NodeFor;
    if elements != [] && remaining != 0 {
      var content := if elements[0].Obj?
                     then SegmentsOf(o, maxDepth, elements[0], remaining - 1, references, depth + 1)
                     else Parsed(OpaqueNode(elements[0]), remaining - 1);
      var next := if elements[0].Obj? then status else ForwardInvalidContent;
      NodesTellStatus(o, maxDepth, elements[1..], content.remaining, references, depth, next);
      MemberOfCons(elements);
    }
  }

  /** The reply keeps its element and the scene, and what it resolves to is the element's message. */
  ghost predicate KeepsQuote(o: Origin, element: Json, scene: Json, alone: bool, reply: Segment) {
    && reply.Reply? && reply.replyStatus == ReplyUnresolved
    && reply.rawData == Obj(map["msg_element" := element, "message_scene" := scene])
    && reply.referenceKey == o.referenceKey(element, scene, alone)
    && match reply.resolvedMessage
       case None => true
       case Some(resolved) =>
         && element.Obj? && resolved.rawData == element && resolved.segments != []
         && resolved.platformMessageId == OfText(AsString(o.lib, Get(element, "id")))
         && resolved.timestamp == TimeOf(o.lib, Get(element, "timestamp"))
         && Speaks(o.lib, Get(element, "author"), resolved.author, FromResolvedMessage, FromResolvedMessage)
  }

  /** The replies are the elements in order; when the budget runs out the last reply keeps the rest. */
  lemma {:induction false} RepliesKeepElements(o: Origin, maxDepth: nat, elements: seq<Json>, position: nat, scene: Json,
                                               alone: bool, remaining: nat, references: nat, depth: nat)
    ensures var replies := ReplyRun(o, maxDepth, elements, position, scene, alone, remaining, references, depth).value;
            && |replies| <= |elements| && (elements != [] ==> replies != [])
            && forall i | 0 <= i < |replies| ::
                 || KeepsQuote(o, elements[i], scene, alone, replies[i])
                 || (i == |replies| - 1 && replies[i].Reply? && replies[i].replyStatus == ReplyNodeLimit
                     && replies[i].resolvedMessage == None
                     && replies[i].rawData == Obj(map["msg_elements" := List(elements[i..])]))
    ensures var run := ReplyRun(o, maxDepth, elements, position, scene, alone, remaining, references, depth);
            |run.value| < |elements| ==> run.remaining == 0 && run.value != [] && run.value[|run.value| - 1].Reply?
                                         && run.value[|run.value| - 1].replyStatus == ReplyNodeLimit
    decreases elements
  {
    hide ResolvedOf, AsString, TimeOf;
    if elements != [] && remaining != 0 {
      var resolved := ResolvedOf(o, maxDepth, elements[0], remaining - 1, references, depth);
      QuoteIsKept(o, maxDepth, elements[0], position, scene, alone, remaining - 1, references, depth);
      RepliesKeepElements(o, maxDepth, elements[1..], position + 1, scene, alone, resolved.remaining, references, depth);
      var rest := ReplyRun(o, maxDepth, elements[1..], position + 1, scene, alone, resolved.remaining, references, depth).value;
      var replies := ReplyRun(o, maxDepth, elements, position, scene, alone, remaining, references, depth).value;
      forall i | 0 < i < |replies|
        ensures replies[i] == rest[i - 1] && elements[i] == elements[1..][i - 1] && elements[i..] == elements[1..][i - 1..]
      {
      }
    }
  }

  lemma QuoteIsKept(o: Origin, maxDepth: nat, element: Json, position: nat, scene: Json, alone: bool, remaining: nat,
                    references: nat, depth: nat)
    ensures var resolved := ResolvedOf(o, maxDepth, element, remaining, references, depth).value;
            KeepsQuote(o, element, scene, alone, ReplyFor(o, position, element, scene, alone, resolved))
  {
    hide SegmentsOf, BodyOf, AsString, TimeOf, Truthy;
  }

  /** Whatever the limits: a forward keeps its payload, and its nodes and a quoting message's replies
      keep the elements they stand for, with their authors. */
  lemma ElementsAreKept(o: Origin, maxDepth: nat, payload: Json, remaining: nat, references: nat, depth: nat)
    requires payload.Obj?
    ensures var forwarded := ForwardOf(o, maxDepth, payload, remaining, references, depth).value;
            && forwarded.Forward? && forwarded.rawData == payload
            && forwarded.resolved == Bool(forwarded.forwardStatus == ForwardEmbedded)
            && |forwarded.nodes| <= |ElementsOf(payload)|
            && StatusTells(payload, depth + references >= maxDepth, forwarded)
            && forall i | 0 <= i < |forwarded.nodes| :: KeepsElement(o.lib, ElementsOf(payload)[i], forwarded.nodes[i])
    ensures var replies, elements := RepliesOf(o, maxDepth, payload, remaining, references, depth).value, ElementsOf(payload);
            && replies != []
            && forall i | 0 <= i < |replies| ::
                 || (i < |elements| && KeepsQuote(o, elements[i], Get(payload, "message_scene"), |elements| == 1, replies[i]))
                 || (i == |replies| - 1 && KeepsTheRest(payload, i, replies[i]))
  {
    hide NodesOf, ReplyRun, BodyOf, KeepsElement, KeepsQuote;
    var elements := ElementsOf(payload);
    NodesKeepElements(o, maxDepth, elements, remaining, references, depth, ForwardEmbedded);
    NodesTellStatus(o, maxDepth, elements, remaining, references, depth, ForwardEmbedded);
    RepliesKeepElements(o, maxDepth, elements, 0, Get(payload, "message_scene"), |elements| == 1, remaining, references, depth);
    assert elements[0..] == elements;
  }

  /** What the status of a forward says: its elements are no list, there are none, the depth or the budget
      stopped it, one of them is no object, or all of them are embedded. */
  ghost predicate StatusTells(payload: Json, tooDeep: bool, forwarded: Segment)
    requires payload.Obj? && forwarded.Forward?
  {
    var value, elements := Get(payload, "msg_elements"), ElementsOf(payload);
    if value != Null && !value.List? then forwarded.forwardStatus == ForwardInvalidContent && forwarded.nodes == []
    else if elements == [] then forwarded.forwardStatus == ForwardUnresolved && forwarded.nodes == []
    else if tooDeep then forwarded.forwardStatus == ForwardDepthLimit && forwarded.nodes == []
    else if |forwarded.nodes| < |elements| then forwarded.forwardStatus == ForwardNodeLimit
    else forwarded.forwardStatus
         == if forall e | e in elements :: e.Obj? then ForwardEmbedded else ForwardInvalidContent
  }

  /** A reply that follows no element: without elements it keeps the payload's scene, and otherwise, where
      a limit was met, the elements that are left. */
  ghost predicate KeepsTheRest(payload: Json, i: nat, reply: Segment)
    requires payload.Obj?
  {
    && reply.Reply? && reply.resolvedMessage == None
    && if ElementsOf(payload) == [] then
         && reply.replyStatus == ReplyUnresolved
         && reply.rawData == Obj(map["msg_elements" := Get(payload, "msg_elements"),
                                     "message_scene" := Get(payload, "message_scene")])
       else
         && reply.replyStatus in {ReplyDepthLimit, ReplyNodeLimit} && i <= |ElementsOf(payload)|
         && reply.rawData == Obj(map["msg_elements" := List(ElementsOf(payload)[i..])])
  }

  // ----- scalars -----

  /** Texts and numbers are read as text, whole numbers and texts that are one as a number, and nothing
      else is, booleans included. */
  lemma ScalarsAreRead(lib: Library, value: Json)
    ensures AsString(lib, value).Some? <==> value.Str? || value.Int? || value.Float?
    ensures value.Str? ==> AsString(lib, value) == Some(value.text) && AsInt(lib, value) == lib.intOfText(value.text)
    ensures value.Int? ==> AsString(lib, value) == Some(lib.textOfInt(value.number)) && AsInt(lib, value) == Some(value.number)
    ensures value.Float? ==> AsString(lib, value) == Some(value.digits)
    ensures !value.Str? && !value.Int? ==> AsInt(lib, value) == None
  {
  }

  /** A timestamp is read with "+00:00" for every "Z", whose meaning it is, and is none if it is no text. */
  lemma OffsetsAreRead(lib: Library, a: string, b: string, c: char)
    ensures WithOffset("") == "" && WithOffset("Z") == "+00:00" && (c != 'Z' ==> WithOffset([c]) == [c])
    ensures WithOffset(a + b) == WithOffset(a) + WithOffset(b)
    ensures TimeOf(lib, Str(a)) == lib.timeOfText(WithOffset(a))
    ensures forall value: Json :: !value.Str? ==> TimeOf(lib, value) == None
  {
    assert "Z"[1..] == "" && [c][1..] == "";
    OffsetsOfBoth(a, b);
  }

  lemma {:induction false} OffsetsOfBoth(a: string, b: string)
    ensures WithOffset(a + b) == WithOffset(a) + WithOffset(b)
  {
    if a == "" {
      assert a + b == b;
    } else {
      assert (a + b)[0] == a[0] && (a + b)[1..] == a[1..] + b;
      OffsetsOfBoth(a[1..], b);
    }
  }

  // ----- the message -----

  /** The event is an envelope, of the current or the earlier form, of this type around this payload. */
  predicate Envelops(lib: Library, event: Json, kind: string, payload: Json)
    requires event.Obj?
  {
    if "t" in event.fields || "d" in event.fields
    then AsString(lib, Get(event, "t")) == Some(kind) && Get(event, "d") == payload
    else Get(event, "gateway").Obj? && AsString(lib, Get(Get(event, "gateway"), "t")) == Some(kind)
         && Get(event, "data") == payload
  }

  /** The message names the payload's id, group, author and time. */
  ghost predicate Describes(lib: Library, kind: string, payload: Json, message: Message)
    requires payload.Obj?
  {
    var group := AsString(lib, Get(payload, "group_openid"));
    && message.platform == "qq_official" && message.platformMessageId == AsString(lib, Get(payload, "id"))
    && message.context.subType == Some(kind)
    && message.context.messageType == AsString(lib, Get(payload, "message_type"))
    && message.context.groupId == (if group.Some? && group.value != "" then group else AsString(lib, Get(payload, "group_id")))
    && message.actor == message.author
    && Speaks(lib, Get(payload, "author"), message.author, FromEvent, FromUnknown)
    && message.timestamp == TimeOf(lib, Get(payload, "timestamp"))
    && message.provenance == Provenance(DirectEvent, message.sourceRawEventId, None, 0)
  }

  predicate GroupMessage(kind: string) {
    kind == "GROUP_MESSAGE_CREATE" || kind == "GROUP_AT_MESSAGE_CREATE"
  }

  /** Exactly the events that envelop an object as a group message give a message, and it describes
      that object. */
  lemma MessageDescribesTheEvent(lib: Library, referenceKey: (Json, Json, bool) -> Json, maxDepth: nat, maxNodes: nat,
                                 event: Json, rawEventId: Option<int>)
    requires event.Obj?
    ensures var message := MessageOf(lib, referenceKey, maxDepth, maxNodes, event, rawEventId);
            && (message.Some? <==> exists kind, payload ::
                  Envelops(lib, event, kind, payload) && GroupMessage(kind) && payload.Obj?)
            && (message.Some? ==>
                  && message.value.sourceRawEventId == rawEventId
                  && forall kind, payload | Envelops(lib, event, kind, payload) ::
                       payload.Obj? && GroupMessage(kind) && Describes(lib, kind, payload, message.value))
  {
    hide SegmentsOf, AsString, TimeOf;
    var (kind, payload) := EventPayload(lib, event);
    if kind.Some? {
      assert Envelops(lib, event, kind.value, payload);
    }
  }

  /** A message that no limit cut says exactly what is written in its event. */
  lemma UncutMessageSaysWhatIsWritten(lib: Library, referenceKey: (Json, Json, bool) -> Json, maxDepth: nat, maxNodes: nat,
                                      event: Json, rawEventId: Option<int>)
    requires event.Obj? && MessageOf(lib, referenceKey, maxDepth, maxNodes, event, rawEventId).Some?
    requires ParserLimits.Unlimited(MessageOf(lib, referenceKey, maxDepth, maxNodes, event, rawEventId).value.segments)
    ensures var segments := MessageOf(lib, referenceKey, maxDepth, maxNodes, event, rawEventId).value.segments;
            forall kind, payload | Envelops(lib, event, kind, payload) ::
              payload.Obj? && Said(segments) == Written(lib, payload)
  {
    hide SegmentsOf, AsString, Said, Written, FullSegments, ParserLimits.Unlimited, ParserLimits.Fits;
    var payload := EventPayload(lib, event).1;
    var o := Origin(lib, referenceKey, rawEventId, AsString(lib, Get(payload, "id")));
    ParserLimits.LimitsShowExactlyWhenExceeded(o, maxDepth, payload, maxNodes, 0, 0);
    TreeSaysWhatIsWritten(o, payload, 0);
  }
}
