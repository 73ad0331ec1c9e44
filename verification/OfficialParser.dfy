/** The parser class: it walks a payload with loops and one mutable parse state, and returns
    exactly what the functions of Parser define. */
module OfficialParser {
  import opened Values
  import opened Domain
  import opened MessageBody
  import opened Parser

  /** The state one parse shares over the whole tree. */
  class ForwardParseState {
    const origin: Origin
    var remainingNodes: nat
    var referenceDepth: nat

    constructor (origin: Origin, maxNodes: nat)
      ensures this.origin == origin && remainingNodes == maxNodes && referenceDepth == 0
    {
      this.origin := origin;
      remainingNodes := maxNodes;
      referenceDepth := 0;
    }
  }

  class QQOfficialMessageParser {
    const lib: Library
    const referenceKey: (Json, Json, bool) -> Json
    const maxForwardDepth: nat
    const maxForwardNodes: nat

    constructor (lib: Library, referenceKey: (Json, Json, bool) -> Json, maxForwardDepth: int, maxForwardNodes: int)
      requires maxForwardDepth >= 1 && maxForwardNodes >= 1
      ensures this.lib == lib && this.referenceKey == referenceKey
      ensures this.maxForwardDepth == maxForwardDepth && this.maxForwardNodes == maxForwardNodes
    {
      this.lib := lib;
      this.referenceKey := referenceKey;
      this.maxForwardDepth := maxForwardDepth;
      this.maxForwardNodes := maxForwardNodes;
    }

    method Parse(event: Json, rawEventId: Option<int>) returns (message: Option<Message>)
      requires event.Obj?
      ensures message == MessageOf(lib, referenceKey, maxForwardDepth, maxForwardNodes, event, rawEventId)
    {
      var (eventType, payload) := EventPayload(lib, event);
      if eventType != Some("GROUP_MESSAGE_CREATE") && eventType != Some("GROUP_AT_MESSAGE_CREATE") {
        return None;
      }
      if !payload.Obj? {
        return None;
      }
      var o := Origin(lib, referenceKey, rawEventId, AsString(lib, Get(payload, "id")));
      var state := new ForwardParseState(o, maxForwardNodes);
      var segments := ParseSegments(payload, state, 0);
      message := Some(MessageWith(o, eventType, payload, segments));
    }

    method ParseSegments(payload: Json, state: ForwardParseState, depth: nat) returns (segments: seq<Segment>)
      requires payload.Obj?
      modifies state
      ensures state.referenceDepth == old(state.referenceDepth)
      ensures Parsed(segments, state.remainingNodes)
              == SegmentsOf(state.origin, maxForwardDepth, payload, old(state.remainingNodes),
                            old(state.referenceDepth), depth)
      decreases payload, 2
    {
      hide BodyOf;
      var messageType := TypeOf(state.origin, payload);
      if messageType == Some(FORWARD_MESSAGE_TYPE) {
        var forwarded := ForwardSegment(payload, state, depth);
        return [forwarded];
      }
      segments := [];
      if messageType == Some(REPLY_MESSAGE_TYPE) {
        segments := ReplySegments(payload, state, depth);
      }
      var body := MessageLikeSegments(state.origin.lib, payload, |segments|);
      segments := segments + body;
    }

    method ForwardSegment(payload: Json, state: ForwardParseState, depth: nat) returns (segment: Segment)
      requires payload.Obj?
      modifies state
      ensures state.referenceDepth == old(state.referenceDepth)
      ensures Parsed(segment, state.remainingNodes)
              == ForwardOf(state.origin, maxForwardDepth, payload, old(state.remainingNodes),
                           old(state.referenceDepth), depth)
      decreases payload, 1
    {
      hide BodyOf, NodesOf;
      var content := MessageLikeSegments(state.origin.lib, payload, 0);
      var value, elements := Get(payload, "msg_elements"), ElementsOf(payload);
      var nodes: seq<ForwardNode>, status := [], ForwardUnresolved;
      if value != Null && !value.List? {
        status := ForwardInvalidContent;
      } else if elements != [] {
        status := ForwardEmbedded;
        if depth + state.referenceDepth >= maxForwardDepth {
          status := ForwardDepthLimit;
        } else {
          nodes, status := ForwardNodes(elements, state, depth);
        }
      }
      segment := Forward(0, payload, Null, Bool(status == ForwardEmbedded), status, content, nodes, Null);
    }

    /** The loop of ForwardSegment over the elements. */
    method ForwardNodes(elements: seq<Json>, state: ForwardParseState, depth: nat)
      returns (nodes: seq<ForwardNode>, status: ForwardStatus)
      modifies state
      ensures state.referenceDepth == old(state.referenceDepth)
      ensures NodeRun(nodes, status, state.remainingNodes)
              == NodesOf(state.origin, maxForwardDepth, elements, old(state.remainingNodes),
                         old(state.referenceDepth), depth, ForwardEmbedded)
      decreases elements, 0
    {
      hide NodeFor, SegmentsOf, NodesOf;
      var o, references := state.origin, state.referenceDepth;
      ghost var whole := NodesOf(o, maxForwardDepth, elements, state.remainingNodes, references, depth, ForwardEmbedded);
      nodes, status := [], ForwardEmbedded;
      var index := 0;
      assert elements[0..] == elements && nodes + whole.nodes == whole.nodes;
      while index < |elements|
        invariant 0 <= index <= |elements|
        invariant state.referenceDepth == references
        invariant var rest := NodesOf(o, maxForwardDepth, elements[index..], state.remainingNodes,
                                      references, depth, status);
                  whole == NodeRun(nodes + rest.nodes, rest.status, rest.remaining)
      {
        NodesStep(o, elements, index, state.remainingNodes, references, depth, status);
        if state.remainingNodes == 0 {
          status := ForwardNodeLimit;
          assert nodes + [] == nodes;
          return;
        }
        state.remainingNodes := state.remainingNodes - 1;
        var element := elements[index];
        var content := NodeContent(element, state, depth);
        if !element.Obj? {
          status := ForwardInvalidContent;
        }
        ghost var rest := NodesOf(o, maxForwardDepth, elements[index + 1..], state.remainingNodes, references, depth, status);
        var node := NodeFor(o, element, content, depth);
        assert nodes + ([node] + rest.nodes) == nodes + [node] + rest.nodes;
        nodes := nodes + [node];
        index := index + 1;
      }
      NoNodesLeft(o, elements, state.remainingNodes, references, depth, status);
      assert nodes + [] == nodes;
    }

    /** The content of one node: a payload, or one opaque segment for anything else. */
    method NodeContent(element: Json, state: ForwardParseState, depth: nat) returns (content: seq<Segment>)
      modifies state
      ensures state.referenceDepth == old(state.referenceDepth)
      ensures Parsed(content, state.remainingNodes)
              == if element.Obj? then SegmentsOf(state.origin, maxForwardDepth, element, old(state.remainingNodes),
                                                 old(state.referenceDepth), depth + 1)
                 else Parsed(OpaqueNode(element), old(state.remainingNodes))
      decreases element, 3
    {
      hide SegmentsOf;
      if element.Obj? {
        content := ParseSegments(element, state, depth + 1);
      } else {
        content := OpaqueNode(element);
      }
    }

    lemma NodesStep(o: Origin, elements: seq<Json>, k: nat, remaining: nat, references: nat, depth: nat,
                    status: ForwardStatus)
      requires k < |elements|
      ensures NodesOf(o, maxForwardDepth, elements[k..], remaining, references, depth, status)
              == if remaining == 0 then NodeRun([], ForwardNodeLimit, 0)
                 else
                   var content := if elements[k].Obj?
                                  then SegmentsOf(o, maxForwardDepth, elements[k], remaining - 1, references, depth + 1)
                                  else Parsed(OpaqueNode(elements[k]), remaining - 1);
                   var next := if elements[k].Obj? then status else ForwardInvalidContent;
                   var rest := NodesOf(o, maxForwardDepth, elements[k + 1..], content.remaining, references, depth, next);
                   NodeRun([NodeFor(o, elements[k], content.value, depth)] + rest.nodes, rest.status, rest.remaining)
    {
      hide SegmentsOf, NodeFor;
      assert elements[k..][0] == elements[k] && elements[k..][1..] == elements[k + 1..];
    }

    lemma NoNodesLeft(o: Origin, elements: seq<Json>, remaining: nat, references: nat, depth: nat, status: ForwardStatus)
      ensures NodesOf(o, maxForwardDepth, elements[|elements|..], remaining, references, depth, status)
              == NodeRun([], status, remaining)
    {
      assert elements[|elements|..] == [];
    }

    method ReplySegments(payload: Json, state: ForwardParseState, depth: nat) returns (replies: seq<Segment>)
      requires payload.Obj?
      modifies state
      ensures state.referenceDepth == old(state.referenceDepth)
      ensures Parsed(replies, state.remainingNodes)
              == RepliesOf(state.origin, maxForwardDepth, payload, old(state.remainingNodes),
                           old(state.referenceDepth), depth)
      decreases payload, 1
    {
      hide ReplyRun;
      var elements, scene := ElementsOf(payload), Get(payload, "message_scene");
      if elements == [] {
        return [UnresolvedReply(payload)];
      }
      if depth + state.referenceDepth >= maxForwardDepth {
        return [ReplyWith(0, Obj(map["msg_elements" := List(elements)]), ReplyDepthLimit)];
      }
      replies := ReplyElements(elements, scene, state, depth);
    }

    /** The loop of ReplySegments over the elements. */
    method ReplyElements(elements: seq<Json>, scene: Json, state: ForwardParseState, depth: nat)
      returns (replies: seq<Segment>)
      modifies state
      ensures state.referenceDepth == old(state.referenceDepth)
      ensures Parsed(replies, state.remainingNodes)
              == ReplyRun(state.origin, maxForwardDepth, elements, 0, scene, |elements| == 1,
                          old(state.remainingNodes), old(state.referenceDepth), depth)
      decreases elements, 0
    {
      hide ReplyFor, ResolvedOf;
      var o, references := state.origin, state.referenceDepth;
      ghost var whole := ReplyRun(o, maxForwardDepth, elements, 0, scene, |elements| == 1,
                                  state.remainingNodes, references, depth);
      replies := [];
      var index := 0;
      assert elements[0..] == elements && replies + whole.value == whole.value;
      while index < |elements|
        invariant 0 <= index <= |elements|
        invariant state.referenceDepth == references
        invariant var rest := ReplyRun(o, maxForwardDepth, elements[index..], index, scene, |elements| == 1,
                                       state.remainingNodes, references, depth);
                  whole == Parsed(replies + rest.value, rest.remaining)
      {
        assert elements[index..][0] == elements[index] && elements[index..][1..] == elements[index + 1..];
        if state.remainingNodes == 0 {
          replies := replies + [ReplyWith(index, Obj(map["msg_elements" := List(elements[index..])]), ReplyNodeLimit)];
          break;
        }
        state.remainingNodes := state.remainingNodes - 1;
        var resolved := ResolvedReplyMessage(elements[index], state, depth);
        ghost var rest := ReplyRun(o, maxForwardDepth, elements[index + 1..], index + 1, scene, |elements| == 1,
                                   state.remainingNodes, references, depth);
        var reply := ReplyFor(o, index, elements[index], scene, |elements| == 1, resolved);
        assert replies + ([reply] + rest.value) == replies + [reply] + rest.value;
        replies := replies + [reply];
        index := index + 1;
      }
      assert replies + [] == replies;
    }

    method ResolvedReplyMessage(element: Json, state: ForwardParseState, depth: nat)
      returns (resolved: Option<ResolvedMessage>)
      modifies state
      ensures state.referenceDepth == old(state.referenceDepth)
      ensures Parsed(resolved, state.remainingNodes)
              == ResolvedOf(state.origin, maxForwardDepth, element, old(state.remainingNodes),
                            old(state.referenceDepth), depth)
      decreases element, 3
    {
      hide BodyOf;
      if !element.Obj? {
        return None;
      }
      state.referenceDepth := state.referenceDepth + 1;
      var segments;
      if QuotesOnlyBody(state.origin, element) {
        segments := MessageLikeSegments(state.origin.lib, element, 0);
      } else {
        segments := ParseSegments(element, state, depth);
      }
      state.referenceDepth := state.referenceDepth - 1;
      resolved := ResolvedFor(state.origin, element, segments);
    }

    static method MessageLikeSegments(lib: Library, payload: Json, start: int) returns (segments: seq<Segment>)
      requires payload.Obj?
      ensures segments == BodyOf(lib, payload, start)
    {
      hide ContentOf, AttachmentsOf;
      segments := ContentSegments(lib, payload, start);
      var attachments := AttachmentSegments(lib, payload, start + |segments|);
      segments := segments + attachments;
    }

    static method ContentSegments(lib: Library, payload: Json, start: int) returns (segments: seq<Segment>)
      requires payload.Obj?
      ensures segments == ContentOf(lib, payload, start)
    {
      hide MentionTable, Tokens, PiecesOf, Unmatched;
      var value := Get(payload, "content");
      if value == Null || value == Str("") {
        return [];
      }
      if !value.Str? {
        return [Unknown(start, value, Str("unstructured_content"))];
      }
      var content, table := value.text, MentionTable(lib, payload);
      var pieces := MentionLoop(lib, content, table, start);
      segments := pieces.segments;
      if pieces.cursor < |content| || segments == [] {
        segments := segments + [TextFor(content[pieces.cursor..], start + |segments|)];
      }
      var unmatched := UnmatchedLoop(table, pieces.matched, start + |segments|);
      segments := segments + unmatched;
    }

    /** The loop over the mention tokens. */
    static method MentionLoop(lib: Library, content: string, table: seq<Entry>, start: int) returns (pieces: Pieces)
      ensures pieces == PiecesOf(lib, content, table, Tokens(content, 0), Pieces([], 0, []), start)
    {
      hide Tokens, AtFor, TextFor, Lookup;
      var matches := Tokens(content, 0);
      var segments: seq<Segment>, cursor: nat, matched: seq<string> := [], 0, [];
      for k := 0 to |matches|
        invariant cursor <= |content|
        invariant k < |matches| ==> cursor <= matches[k].start
        invariant PiecesOf(lib, content, table, matches[k..], Pieces(segments, cursor, matched), start)
                  == PiecesOf(lib, content, table, matches, Pieces([], 0, []), start)
      {
        var m := matches[k];
        assert matches[k..][0] == m && matches[k..][1..] == matches[k + 1..];
        var mention := Lookup(table, m.Target(content));
        assert segments + [] == segments;
        if mention.Some? {
          if m.start > cursor {
            segments := segments + [TextFor(content[cursor..m.start], start + |segments|)];
          }
          segments := segments + [AtFor(lib, content, m, mention.value, start + |segments|)];
          matched := matched + [m.Target(content)];
          cursor := m.stop;
        }
      }
      pieces := Pieces(segments, cursor, matched);
    }

    /** The loop over the mention table. */
    static method UnmatchedLoop(table: seq<Entry>, matched: seq<string>, position: int)
      returns (segments: seq<Segment>)
      ensures segments == Unmatched(table, matched, position)
    {
      segments := [];
      for k := 0 to |table|
        invariant segments + Unmatched(table[k..], matched, position + |segments|)
                  == Unmatched(table, matched, position)
      {
        assert table[k..][0] == table[k] && table[k..][1..] == table[k + 1..];
        if table[k].id !in matched {
          segments := segments + [Unknown(position + |segments|, Obj(table[k].fields), Str("unmatched_mention"))];
        }
      }
    }

    static method AttachmentSegments(lib: Library, payload: Json, start: int) returns (segments: seq<Segment>)
      requires payload.Obj?
      ensures segments == AttachmentsOf(lib, payload, start)
    {
      hide AttachmentOf;
      var attachments := Get(payload, "attachments");
      if !attachments.List? {
        return [];
      }
      segments := [];
      for k := 0 to |attachments.items|
        invariant segments == AttachmentsOf(lib, payload, start)[..k]
      {
        segments := segments + [AttachmentOf(lib, attachments.items[k], start + |segments|)];
      }
    }
  }
}
