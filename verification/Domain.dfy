/** Identities, provenance, the segment tree and one normalized message. A field the code
    copies without looking at it holds a plain Json value. */
module Domain {
  import opened Values

  datatype Availability = Known | UnknownIdentity | Unavailable

  datatype IdentitySource = FromEvent | FromForwardNode | FromResolvedMessage | FromUnknown

  datatype Identity = Identity(
    platform: string,
    userId: Option<string>,
    displayName: Option<string>,
    card: Option<string>,
    source: IdentitySource,
    availability: Availability
  )

  datatype ProvenanceSource = DirectEvent | ResolvedReference | InForward | InNestedForward

  datatype Provenance = Provenance(
    source: ProvenanceSource,
    rawEventId: Option<int>,
    parentMessageId: Option<string>,
    forwardDepth: int
  )

  datatype ReplyStatus =
    | ReplyUnresolved
    | ReplyResolved
    | ReplyInvalidReference
    | ReplyFetchFailed
    | ReplyInvalidResponse
    | ReplyDepthLimit
    | ReplyNodeLimit

  datatype ForwardStatus =
    | ForwardUnresolved
    | ForwardEmbedded
    | ForwardFetched
    | ForwardInvalidContent
    | ForwardDepthLimit
    | ForwardNodeLimit
    | ForwardInvalidReference
    | ForwardFetchFailed
    | ForwardInvalidResponse

  datatype Segment =
    | Text(position: int, rawData: Json, text: Json)
    | At(position: int, rawData: Json, target: Json, isAll: Json, displayName: Json, isSelf: Json)
    | Image(position: int, rawData: Json, file: Json, url: Json, summary: Json, subType: Json,
            fileSize: Json, contentType: Json, width: Json, height: Json, description: Json)
    | Reply(position: int, rawData: Json, referencedMessageId: Json, referenceKey: Json,
            replyStatus: ReplyStatus, resolvedMessage: Option<ResolvedMessage>, resolvedRawData: Json)
    | File(position: int, rawData: Json, file: Json, name: Json, fileId: Json, fileSize: Json,
           url: Json, path: Json)
    | Forward(position: int, rawData: Json, referenceId: Json, resolved: Json,
              forwardStatus: ForwardStatus, content: seq<Segment>, nodes: seq<ForwardNode>,
              resolvedRawData: Json)
    | Unknown(position: int, rawData: Json, originalType: Json)

  datatype ResolvedMessage = ResolvedMessage(
    platformMessageId: Json,
    author: Identity,
    timestamp: Option<Time>,
    segments: seq<Segment>,
    rawData: Json
  )

  datatype ForwardNode = ForwardNode(
    sender: Identity,
    timestamp: Option<Time>,
    content: seq<Segment>,
    provenance: Provenance,
    rawData: Json
  )

  datatype Context = Context(
    messageType: Option<string>,
    subType: Option<string>,
    groupId: Option<string>
  )

  datatype Message = Message(
    platform: string,
    sourceRawEventId: Option<int>,
    platformMessageId: Option<string>,
    context: Context,
    actor: Identity,
    author: Identity,
    timestamp: Option<Time>,
    segments: seq<Segment>,
    provenance: Provenance
  )

  /** Every sibling segment list, at every level, is numbered 0, 1, 2, ... */
  ghost predicate NumberedFrom(segments: seq<Segment>, start: int)
    decreases segments, 1
  {
    forall i | 0 <= i < |segments| :: segments[i].position == start + i && NumberedInside(segments[i])
  }

  ghost predicate NumberedInside(segment: Segment)
    decreases segment, 0
  {
    match segment
    case Reply(_, _, _, _, _, Some(resolved), _) => NumberedFrom(resolved.segments, 0)
    case Forward(_, _, _, _, _, content, nodes, _) =>
      NumberedFrom(content, 0) && forall i | 0 <= i < |nodes| :: NumberedFrom(nodes[i].content, 0)
    case _ => true
  }
}
