/** The relational form of a message tree: its rows, what encoding appends, and what decoding
    an arbitrary set of rows yields. */
module MessageRows {
  import opened Values
  import opened Domain

  // ----- rows -----

  datatype Relation = RelSegments | RelContent | RelNodes | RelResolvedMessage | RelOther(name: string)

  datatype Kind =
    | KindText | KindAt | KindImage | KindReply | KindFile | KindForward | KindUnknown
    | KindForwardNode | KindResolvedMessage | KindOther(name: string)

  /** The keys of payload objects. */
  datatype Field =
    | FRawData | FText | FTarget | FIsAll | FDisplayName | FIsSelf | FFile | FUrl | FSummary
    | FSubType | FFileSize | FContentType | FWidth | FHeight | FDescription
    | FReferencedMessageId | FReferenceKey | FResolutionStatus | FResolvedRawData
    | FName | FFileId | FPath | FReferenceId | FResolved | FOriginalType
    | FPlatformMessageId | FTimestamp

  datatype Payload = NotAnObject | Fields(values: map<Field, Json>) {
    function Get(field: Field): Json
      requires Fields?
    {
      if field in values then values[field] else Null
    }
  }

  datatype IdentityColumns = IdentityColumns(
    platform: Option<string>, userId: Option<string>, displayName: Option<string>,
    card: Option<string>, source: Option<string>, availability: Option<string>)

  datatype ProvenanceColumns = ProvenanceColumns(
    source: Option<string>, rawEventId: Option<int>, parentMessageId: Option<string>,
    forwardDepth: Option<int>)

  const NO_IDENTITY := IdentityColumns(None, None, None, None, None, None)
  const NO_PROVENANCE := ProvenanceColumns(None, None, None, None)

  datatype Columns = Columns(
    relation: Relation, kind: Kind, position: int, depth: nat, payload: Payload,
    author: IdentityColumns, provenance: ProvenanceColumns)

  /** A node before it is stored: its parent is the index of an earlier node. */
  datatype Node = Node(parent: Option<nat>, columns: Columns)

  /** A stored row. */
  datatype Row = Row(id: int, messageId: int, parent: Option<int>, columns: Columns)

  /** The columns of the message itself. */
  datatype Record = Record(
    sourceRawEventId: int, parserName: string, parserVersion: string, platform: string,
    platformMessageId: Option<string>, context: Context, timestamp: Option<Time>,
    actor: IdentityColumns, author: IdentityColumns, provenance: ProvenanceColumns)

  datatype CodecError =
    | MissingReceipt | EmptyParserName | EmptyParserVersion | NaiveTimestamp
    | ForeignRow | WrongKind | CycleDetected | ReferencedTwice | PayloadNotObject
    | UnsupportedKind | IncompleteIdentity | IncompleteProvenance | MissingIdentity
    | BadDatetime | ManyResolved | MissingField(field: Field) | BadEnum
    | UnexpectedRelations | OrphanedRows

  // ----- enumerations as text -----

  function SourceText(source: IdentitySource): string {
    match source
    case FromEvent => "event"
    case FromForwardNode => "forward_node"
    case FromResolvedMessage => "resolved_message"
    case FromUnknown => "unknown"
  }

  function SourceOf(text: string): (source: Option<IdentitySource>)
    ensures forall s :: SourceText(s) == text ==> source == Some(s)
  {
    if text == "event" then Some(FromEvent)
    else if text == "forward_node" then Some(FromForwardNode)
    else if text == "resolved_message" then Some(FromResolvedMessage)
    else if text == "unknown" then Some(FromUnknown)
    else None
  }

  function AvailabilityText(availability: Availability): string {
    match availability
    case Known => "known"
    case UnknownIdentity => "unknown"
    case Unavailable => "unavailable"
  }

  function AvailabilityOf(text: string): (availability: Option<Availability>)
    ensures forall a :: AvailabilityText(a) == text ==> availability == Some(a)
  {
    if text == "known" then Some(Known)
    else if text == "unknown" then Some(UnknownIdentity)
    else if text == "unavailable" then Some(Unavailable)
    else None
  }

  function ProvenanceText(source: ProvenanceSource): string {
    match source
    case DirectEvent => "direct_event"
    case ResolvedReference => "resolved_reference"
    case InForward => "forward_node"
    case InNestedForward => "nested_forward_node"
  }

  function ProvenanceSourceOf(text: string): (source: Option<ProvenanceSource>)
    ensures forall s :: ProvenanceText(s) == text ==> source == Some(s)
  {
    if text == "direct_event" then Some(DirectEvent)
    else if text == "resolved_reference" then Some(ResolvedReference)
    else if text == "forward_node" then Some(InForward)
    else if text == "nested_forward_node" then Some(InNestedForward)
    else None
  }

  function ReplyStatusText(status: ReplyStatus): string {
    match status
    case ReplyUnresolved => "unresolved"
    case ReplyResolved => "resolved"
    case ReplyInvalidReference => "invalid_reference"
    case ReplyFetchFailed => "fetch_failed"
    case ReplyInvalidResponse => "invalid_response"
    case ReplyDepthLimit => "depth_limit"
    case ReplyNodeLimit => "node_limit"
  }

  function ReplyStatusOf(text: string): (status: Option<ReplyStatus>)
    ensures forall s :: ReplyStatusText(s) == text ==> status == Some(s)
  {
    if text == "unresolved" then Some(ReplyUnresolved)
    else if text == "resolved" then Some(ReplyResolved)
    else if text == "invalid_reference" then Some(ReplyInvalidReference)
    else if text == "fetch_failed" then Some(ReplyFetchFailed)
    else if text == "invalid_response" then Some(ReplyInvalidResponse)
    else if text == "depth_limit" then Some(ReplyDepthLimit)
    else if text == "node_limit" then Some(ReplyNodeLimit)
    else None
  }

  function ForwardStatusText(status: ForwardStatus): string {
    match status
    case ForwardUnresolved => "unresolved"
    case ForwardEmbedded => "embedded"
    case ForwardFetched => "fetched"
    case ForwardInvalidContent => "invalid_content"
    case ForwardDepthLimit => "depth_limit"
    case ForwardNodeLimit => "node_limit"
    case ForwardInvalidReference => "invalid_reference"
    case ForwardFetchFailed => "fetch_failed"
    case ForwardInvalidResponse => "invalid_response"
  }

  function ForwardStatusOf(text: string): (status: Option<ForwardStatus>)
    ensures forall s :: ForwardStatusText(s) == text ==> status == Some(s)
  {
    if text == "unresolved" then Some(ForwardUnresolved)
    else if text == "embedded" then Some(ForwardEmbedded)
    else if text == "fetched" then Some(ForwardFetched)
    else if text == "invalid_content" then Some(ForwardInvalidContent)
    else if text == "depth_limit" then Some(ForwardDepthLimit)
    else if text == "node_limit" then Some(ForwardNodeLimit)
    else if text == "invalid_reference" then Some(ForwardInvalidReference)
    else if text == "fetch_failed" then Some(ForwardFetchFailed)
    else if text == "invalid_response" then Some(ForwardInvalidResponse)
    else None
  }

  // ----- the three things a row can stand for -----

  datatype Item =
    | OfSegment(segment: Segment)
    | OfNode(node: ForwardNode)
    | OfResolved(message: ResolvedMessage)

  datatype Want = WantSegment | WantNode | WantResolved

  function WantOf(item: Item): Want {
    match item
    case OfSegment(_) => WantSegment
    case OfNode(_) => WantNode
    case OfResolved(_) => WantResolved
  }

  function OfSegments(segments: seq<Segment>): seq<Item> {
    seq(|segments|, i requires 0 <= i < |segments| => OfSegment(segments[i]))
  }

  function OfNodes(nodes: seq<ForwardNode>): seq<Item> {
    seq(|nodes|, i requires 0 <= i < |nodes| => OfNode(nodes[i]))
  }

  function KindOf(item: Item): Kind {
    match item
    case OfNode(_) => KindForwardNode
    case OfResolved(_) => KindResolvedMessage
    case OfSegment(segment) =>
      match segment
      case Text(_, _, _) => KindText
      case At(_, _, _, _, _, _) => KindAt
      case Image(_, _, _, _, _, _, _, _, _, _, _) => KindImage
      case Reply(_, _, _, _, _, _, _) => KindReply
      case File(_, _, _, _, _, _, _, _) => KindFile
      case Forward(_, _, _, _, _, _, _, _) => KindForward
      case Unknown(_, _, _) => KindUnknown
  }

  /** A list of children a kind of row owns: under which relation, and of what. */
  datatype Part = Part(relation: Relation, want: Want)

  function PartsOf(kind: Kind): seq<Part> {
    match kind
    case KindReply => [Part(RelResolvedMessage, WantResolved)]
    case KindForward => [Part(RelContent, WantSegment), Part(RelNodes, WantNode)]
    case KindForwardNode => [Part(RelContent, WantSegment)]
    case KindResolvedMessage => [Part(RelSegments, WantSegment)]
    case _ => []
  }

  ghost predicate AllWant(items: seq<Item>, want: Want) {
    forall i | 0 <= i < |items| :: WantOf(items[i]) == want
  }

  /** One list of the wanted items for each part. */
  ghost predicate Matches(lists: seq<seq<Item>>, parts: seq<Part>) {
    |lists| == |parts| && forall i | 0 <= i < |lists| :: AllWant(lists[i], parts[i].want)
  }

  /** The children of an item, one list for each part of its kind. */
  function ChildrenOf(item: Item): (lists: seq<seq<Item>>)
    ensures Matches(lists, PartsOf(KindOf(item)))
  {
    match item
    case OfNode(node) => [OfSegments(node.content)]
    case OfResolved(message) => [OfSegments(message.segments)]
    case OfSegment(segment) =>
      match segment
      case Reply(_, _, _, _, _, resolved, _) => [if resolved.Some? then [OfResolved(resolved.value)] else []]
      case Forward(_, _, _, _, _, content, nodes, _) => [OfSegments(content), OfNodes(nodes)]
      case _ => []
  }

  // ----- size -----

  /** How many rows an item takes. */
  function Size(item: Item): nat {
    match item
    case OfSegment(segment) => SegmentSize(segment)
    case OfNode(node) => 1 + SegmentsSize(node.content)
    case OfResolved(message) => 1 + SegmentsSize(message.segments)
  }

  function SegmentSize(segment: Segment): nat
    decreases segment, 0
  {
    match segment
    case Reply(_, _, _, _, _, resolved, _) =>
      1 + if resolved.Some? then 1 + SegmentsSize(resolved.value.segments) else 0
    case Forward(_, _, _, _, _, content, nodes, _) => 1 + SegmentsSize(content) + NodesSize(nodes)
    case _ => 1
  }

  function SegmentsSize(segments: seq<Segment>): nat
    decreases segments, 1
  {
    if segments == [] then 0 else SegmentSize(segments[0]) + SegmentsSize(segments[1..])
  }

  function NodesSize(nodes: seq<ForwardNode>): nat
    decreases nodes, 1
  {
    if nodes == [] then 0 else 1 + SegmentsSize(nodes[0].content) + NodesSize(nodes[1..])
  }

  function ItemsSize(items: seq<Item>): nat {
    if items == [] then 0 else Size(items[0]) + ItemsSize(items[1..])
  }

  function ListsSize(lists: seq<seq<Item>>): nat {
    if lists == [] then 0 else ItemsSize(lists[0]) + ListsSize(lists[1..])
  }

  lemma {:induction false} SegmentItemsSize(segments: seq<Segment>)
    ensures ItemsSize(OfSegments(segments)) == SegmentsSize(segments)
  {
    if segments != [] {
      SegmentItemsSize(segments[1..]);
      assert OfSegments(segments)[1..] == OfSegments(segments[1..]);
    }
  }

  lemma {:induction false} NodeItemsSize(nodes: seq<ForwardNode>)
    ensures ItemsSize(OfNodes(nodes)) == NodesSize(nodes)
  {
    if nodes != [] {
      NodeItemsSize(nodes[1..]);
      assert OfNodes(nodes)[1..] == OfNodes(nodes[1..]);
    }
  }

  lemma OneItemSize(item: Item)
    ensures ItemsSize([item]) == Size(item)
  {
  }

  lemma OneListSize(list: seq<Item>)
    ensures ListsSize([list]) == ItemsSize(list)
  {
  }

  lemma SizeUnfolds(item: Item)
    ensures Size(item) == 1 + ListsSize(ChildrenOf(item))
  {
    hide ItemsSize, ListsSize;
    var lists := ChildrenOf(item);
    NoListsSize();
    match item
    case OfNode(node) =>
      SegmentItemsSize(node.content);
      OneListSize(lists[0]);
    case OfResolved(message) =>
      SegmentItemsSize(message.segments);
      OneListSize(lists[0]);
    case OfSegment(segment) =>
      match segment {
        case Reply(_, _, _, _, _, resolved, _) =>
          OneListSize(lists[0]);
          if resolved.Some? {
            OneItemSize(OfResolved(resolved.value));
          }
        case Forward(_, _, _, _, _, content, nodes, _) =>
          SegmentItemsSize(content);
          NodeItemsSize(nodes);
          TwoListsSize(lists[0], lists[1]);
        case _ =>
      }
  }

  lemma NoListsSize()
    ensures ItemsSize([]) == 0 && ListsSize([]) == 0
  {
  }

  lemma TwoListsSize(first: seq<Item>, second: seq<Item>)
    ensures ListsSize([first, second]) == ItemsSize(first) + ItemsSize(second)
  {
    OneListSize(second);
    assert [first, second][1..] == [second];
  }

  // ----- encoding -----

  function IdentityAs(identity: Identity): IdentityColumns {
    IdentityColumns(Some(identity.platform), identity.userId, identity.displayName, identity.card,
                    Some(SourceText(identity.source)), Some(AvailabilityText(identity.availability)))
  }

  function ProvenanceAs(provenance: Provenance): ProvenanceColumns {
    ProvenanceColumns(Some(ProvenanceText(provenance.source)), provenance.rawEventId,
                      provenance.parentMessageId, Some(provenance.forwardDepth))
  }

  function DatetimeAs(lib: Library, time: Option<Time>): Json {
    if time.Some? then Str(lib.textOfTime(time.value)) else Null
  }

  function PayloadOf(lib: Library, item: Item): Payload {
    match item
    case OfNode(node) =>
      Fields(map[FTimestamp := DatetimeAs(lib, node.timestamp), FRawData := node.rawData])
    case OfResolved(message) =>
      Fields(map[FPlatformMessageId := message.platformMessageId,
                 FTimestamp := DatetimeAs(lib, message.timestamp), FRawData := message.rawData])
    case OfSegment(segment) => SegmentPayload(segment)
  }

  function SegmentPayload(segment: Segment): Payload {
    match segment
    case Text(_, rawData, text) => Fields(map[FText := text, FRawData := rawData])
    case At(_, rawData, target, isAll, displayName, isSelf) =>
      Fields(map[FTarget := target, FIsAll := isAll, FDisplayName := displayName, FIsSelf := isSelf,
                 FRawData := rawData])
    case Image(_, rawData, file, url, summary, subType, fileSize, contentType, width, height, description) =>
      Fields(map[FFile := file, FUrl := url, FSummary := summary, FSubType := subType,
                 FFileSize := fileSize, FContentType := contentType, FWidth := width, FHeight := height,
                 FDescription := description, FRawData := rawData])
    case Reply(_, rawData, referencedMessageId, referenceKey, status, _, resolvedRawData) =>
      Fields(map[FReferencedMessageId := referencedMessageId, FReferenceKey := referenceKey,
                 FResolutionStatus := Str(ReplyStatusText(status)), FRawData := rawData,
                 FResolvedRawData := resolvedRawData])
    case File(_, rawData, file, name, fileId, fileSize, url, path) =>
      Fields(map[FFile := file, FName := name, FFileId := fileId, FFileSize := fileSize, FUrl := url,
                 FPath := path, FRawData := rawData])
    case Forward(_, rawData, referenceId, resolved, status, _, _, resolvedRawData) =>
      Fields(map[FReferenceId := referenceId, FResolved := resolved,
                 FResolutionStatus := Str(ForwardStatusText(status)), FRawData := rawData,
                 FResolvedRawData := resolvedRawData])
    case Unknown(_, rawData, originalType) => Fields(map[FOriginalType := originalType, FRawData := rawData])
  }

  /** Segments keep their own position; nodes and resolved messages are numbered. */
  function PositionOf(item: Item, index: nat): int {
    if item.OfSegment? then item.segment.position else index
  }

  function ColumnsOf(lib: Library, item: Item, index: nat, relation: Relation, depth: nat): Columns {
    Columns(relation, KindOf(item), PositionOf(item, index), depth, PayloadOf(lib, item),
            match item {
              case OfNode(node) => IdentityAs(node.sender)
              case OfResolved(message) => IdentityAs(message.author)
              case OfSegment(_) => NO_IDENTITY
            },
            if item.OfNode? then ProvenanceAs(item.node.provenance) else NO_PROVENANCE)
  }

  /** The nodes one item appends when `base` nodes are there already: itself, then its parts. */
  function EncodeItem(lib: Library, item: Item, index: nat, base: nat, parent: Option<nat>,
                      relation: Relation, depth: nat): seq<Node>
    decreases Size(item), 0, 0
  {
    SizeUnfolds(item);
    [Node(parent, ColumnsOf(lib, item, index, relation, depth))]
    + EncodeParts(lib, PartsOf(KindOf(item)), ChildrenOf(item), base + 1, base, depth + 1)
  }

  function EncodeParts(lib: Library, parts: seq<Part>, lists: seq<seq<Item>>, base: nat, parent: nat,
                       depth: nat): seq<Node>
    requires |parts| == |lists|
    decreases ListsSize(lists), 2, |lists|
  {
    if parts == [] then []
    else
      var head := EncodeItems(lib, lists[0], 0, base, Some(parent), parts[0].relation, depth);
      head + EncodeParts(lib, parts[1..], lists[1..], base + |head|, parent, depth)
  }

  function EncodeItems(lib: Library, items: seq<Item>, index: nat, base: nat, parent: Option<nat>,
                       relation: Relation, depth: nat): seq<Node>
    decreases ItemsSize(items), 1, |items|
  {
    if items == [] then []
    else
      var head := EncodeItem(lib, items[0], index, base, parent, relation, depth);
      head + EncodeItems(lib, items[1..], index + 1, base + |head|, parent, relation, depth)
  }

  datatype Encoded = Encoded(record: Record, nodes: seq<Node>)

  function EncodeMessage(lib: Library, message: Message, parserName: string, parserVersion: string)
    : Result<Encoded, CodecError>
  {
    if message.sourceRawEventId.None? then Err(MissingReceipt)
    else if parserName == "" then Err(EmptyParserName)
    else if parserVersion == "" then Err(EmptyParserVersion)
    else Ok(Encoded(RecordOf(message, parserName, parserVersion),
                    EncodeItems(lib, OfSegments(message.segments), 0, 0, None, RelSegments, 0)))
  }

  function RecordOf(message: Message, parserName: string, parserVersion: string): Record
    requires message.sourceRawEventId.Some?
  {
    Record(message.sourceRawEventId.value, parserName, parserVersion, message.platform,
           message.platformMessageId, message.context, message.timestamp,
           IdentityAs(message.actor), IdentityAs(message.author), ProvenanceAs(message.provenance))
  }

  // ----- storing -----

  /** What the datetime column does: no naive value goes in, and UTC comes out. */
  function StoredTime(time: Option<Time>): Result<Option<Time>, CodecError> {
    match time
    case None => Ok(None)
    case Some(Naive(_)) => Err(NaiveTimestamp)
    case Some(Aware(utc, _)) => Ok(Some(Aware(utc, 0)))
  }

  ghost predicate ParentsEarlier(nodes: seq<Node>) {
    forall i | 0 <= i < |nodes| :: nodes[i].parent.Some? ==> nodes[i].parent.value < i
  }

  /** The rows the nodes become when the database gives them these ids. */
  function Stored(nodes: seq<Node>, ids: seq<int>, messageId: int): (rows: seq<Row>)
    requires |ids| == |nodes|
    requires ParentsEarlier(nodes)
    ensures |rows| == |nodes|
  {
    seq(|nodes|, i requires 0 <= i < |nodes| =>
      Row(ids[i], messageId,
          if nodes[i].parent.Some? then Some(ids[nodes[i].parent.value]) else None,
          nodes[i].columns))
  }

  // ----- decoding -----

  /** Stable insertion by position. */
  function InsertSorted(sorted: seq<Row>, row: Row): seq<Row> {
    if sorted == [] || row.columns.position < sorted[0].columns.position then [row] + sorted
    else [sorted[0]] + InsertSorted(sorted[1..], row)
  }

  /** The rows under one parent, by position, rows with equal positions as they came. */
  function Children(rows: seq<Row>, parent: Option<int>): seq<Row> {
    if rows == [] then []
    else
      var before := Children(rows[..|rows| - 1], parent);
      var last := rows[|rows| - 1];
      if last.parent == parent then InsertSorted(before, last) else before
  }

  function WithRelation(rows: seq<Row>, relation: Relation): seq<Row> {
    if rows == [] then []
    else (if rows[0].columns.relation == relation then [rows[0]] else []) + WithRelation(rows[1..], relation)
  }

  function Related(rows: seq<Row>, parent: Option<int>, relation: Relation): seq<Row> {
    WithRelation(Children(rows, parent), relation)
  }

  function IdsOf(rows: seq<Row>): set<int> {
    set row | row in rows :: row.id
  }

  lemma {:induction false} InsertedIsMember(sorted: seq<Row>, row: Row)
    ensures forall r :: r in InsertSorted(sorted, row) <==> r in sorted || r == row
  {
    if sorted != [] && sorted[0].columns.position <= row.columns.position {
      InsertedIsMember(sorted[1..], row);
    }
  }

  lemma {:induction false} ChildIsRow(rows: seq<Row>, parent: Option<int>)
    ensures forall r :: r in Children(rows, parent) <==> r in rows && r.parent == parent
  {
    if rows != [] {
      var front, last := rows[..|rows| - 1], rows[|rows| - 1];
      ChildIsRow(front, parent);
      assert rows == front + [last];
      if last.parent == parent {
        InsertedIsMember(Children(front, parent), last);
      }
    }
  }

  lemma {:induction false} RelationKeepsRows(rows: seq<Row>, relation: Relation)
    ensures forall r :: r in WithRelation(rows, relation) <==> r in rows && r.columns.relation == relation
  {
    if rows != [] {
      RelationKeepsRows(rows[1..], relation);
      assert rows == [rows[0]] + rows[1..];
    }
  }

  lemma RelatedIsRow(rows: seq<Row>, parent: Option<int>, relation: Relation)
    ensures forall r :: r in Related(rows, parent, relation)
                        <==> r in rows && r.parent == parent && r.columns.relation == relation
  {
    ChildIsRow(rows, parent);
    RelationKeepsRows(Children(rows, parent), relation);
  }

  function IdentityFrom(columns: IdentityColumns): Result<Identity, CodecError> {
    if columns.platform.None? || columns.source.None? || columns.availability.None? then Err(IncompleteIdentity)
    else
      var source, availability := SourceOf(columns.source.value), AvailabilityOf(columns.availability.value);
      if source.None? || availability.None? then Err(BadEnum)
      else Ok(Identity(columns.platform.value, columns.userId, columns.displayName, columns.card,
                       source.value, availability.value))
  }

  function ProvenanceFrom(columns: ProvenanceColumns): Result<Provenance, CodecError> {
    if columns.source.None? || columns.forwardDepth.None? then Err(IncompleteProvenance)
    else
      var source := ProvenanceSourceOf(columns.source.value);
      if source.None? then Err(BadEnum)
      else Ok(Provenance(source.value, columns.rawEventId, columns.parentMessageId, columns.forwardDepth.value))
  }

  function DatetimeFrom(lib: Library, value: Json): Result<Option<Time>, CodecError> {
    if value == Null then Ok(None)
    else if !value.Str? then Err(BadDatetime)
    else if lib.timeOfText(value.text).None? then Err(BadDatetime)
    else Ok(lib.timeOfText(value.text))
  }

  /** What is checked after a row is entered and before its children are read. */
  function Opening(lib: Library, rows: seq<Row>, row: Row, want: Want): Option<CodecError> {
    OpeningWith(lib, row, want, |Related(rows, Some(row.id), RelResolvedMessage)|)
  }

  function OpeningWith(lib: Library, row: Row, want: Want, resolvedRows: nat): Option<CodecError> {
    var columns := row.columns;
    if columns.payload.NotAnObject? then Some(PayloadNotObject)
    else
      match want
      case WantSegment =>
        if columns.kind.KindOther? || columns.kind.KindForwardNode? || columns.kind.KindResolvedMessage?
        then Some(UnsupportedKind)
        else if columns.kind.KindReply? && resolvedRows > 1
        then Some(ManyResolved)
        else None
      case WantNode =>
        if columns.author == NO_IDENTITY then
          // The provenance is read before either is found missing.
          if columns.provenance != NO_PROVENANCE && ProvenanceFrom(columns.provenance).Err?
          then Some(ProvenanceFrom(columns.provenance).error) else Some(MissingIdentity)
        else if IdentityFrom(columns.author).Err? then Some(IdentityFrom(columns.author).error)
        else if columns.provenance == NO_PROVENANCE then Some(MissingIdentity)
        else if ProvenanceFrom(columns.provenance).Err? then Some(ProvenanceFrom(columns.provenance).error)
        else if DatetimeFrom(lib, columns.payload.Get(FTimestamp)).Err? then Some(BadDatetime)
        else None
      case WantResolved =>
        if columns.author == NO_IDENTITY then Some(MissingIdentity)
        else if IdentityFrom(columns.author).Err? then Some(IdentityFrom(columns.author).error)
        else if DatetimeFrom(lib, columns.payload.Get(FTimestamp)).Err? then Some(BadDatetime)
        else None
  }

  predicate KindFits(kind: Kind, want: Want) {
    match want
    case WantSegment => true
    case WantNode => kind == KindForwardNode
    case WantResolved => kind == KindResolvedMessage
  }

  function SegmentsIn(items: seq<Item>): (segments: seq<Segment>)
    requires AllWant(items, WantSegment)
    ensures OfSegments(segments) == items
  {
    var segments := seq(|items|, i requires 0 <= i < |items| => items[i].segment);
    assert forall i | 0 <= i < |items| :: OfSegments(segments)[i] == items[i];
    segments
  }

  function NodesIn(items: seq<Item>): (nodes: seq<ForwardNode>)
    requires AllWant(items, WantNode)
    ensures OfNodes(nodes) == items
  {
    var nodes := seq(|items|, i requires 0 <= i < |items| => items[i].node);
    assert forall i | 0 <= i < |items| :: OfNodes(nodes)[i] == items[i];
    nodes
  }

  /** The item of an opened row, once its children are there. */
  function Assemble(lib: Library, row: Row, want: Want, lists: seq<seq<Item>>): (item: Result<Item, CodecError>)
    requires row.columns.payload.Fields?
    requires Matches(lists, PartsOf(row.columns.kind))
    requires KindFits(row.columns.kind, want)
    ensures item.Ok? ==> WantOf(item.value) == want
  {
    match want
    case WantNode =>
      var sender, provenance := IdentityFrom(row.columns.author), ProvenanceFrom(row.columns.provenance);
      var timestamp := DatetimeFrom(lib, row.columns.payload.Get(FTimestamp));
      if sender.Err? || provenance.Err? || timestamp.Err? then Err(MissingIdentity)
      else Ok(OfNode(ForwardNode(sender.value, timestamp.value, SegmentsIn(lists[0]), provenance.value,
                                 row.columns.payload.Get(FRawData))))
    case WantResolved =>
      var author, timestamp := IdentityFrom(row.columns.author), DatetimeFrom(lib, row.columns.payload.Get(FTimestamp));
      if author.Err? || timestamp.Err? then Err(MissingIdentity)
      else Ok(OfResolved(ResolvedMessage(row.columns.payload.Get(FPlatformMessageId), author.value,
                                         timestamp.value, SegmentsIn(lists[0]), row.columns.payload.Get(FRawData))))
    case WantSegment =>
      var segment := SegmentFrom(row.columns, lists);
      if segment.Err? then Err(segment.error) else Ok(OfSegment(segment.value))
  }

  function SegmentFrom(columns: Columns, lists: seq<seq<Item>>): Result<Segment, CodecError>
    requires columns.payload.Fields?
    requires Matches(lists, PartsOf(columns.kind))
  {
    var p, position, rawData := columns.payload, columns.position, columns.payload.Get(FRawData);
    match columns.kind
    case KindText => Ok(Text(position, rawData, p.Get(FText)))
    case KindAt =>
      if FIsAll !in p.values then Err(MissingField(FIsAll))
      else Ok(At(position, rawData, p.Get(FTarget), p.Get(FIsAll), p.Get(FDisplayName), p.Get(FIsSelf)))
    case KindImage =>
      Ok(Image(position, rawData, p.Get(FFile), p.Get(FUrl), p.Get(FSummary), p.Get(FSubType),
               p.Get(FFileSize), p.Get(FContentType), p.Get(FWidth), p.Get(FHeight), p.Get(FDescription)))
    case KindReply =>
      if FResolutionStatus !in p.values then Err(MissingField(FResolutionStatus))
      else
        var status := if p.Get(FResolutionStatus).Str? then ReplyStatusOf(p.Get(FResolutionStatus).text) else None;
        if status.None? then Err(BadEnum)
        else
          var resolved := if lists[0] == [] then None else Some(lists[0][0].message);
          Ok(Reply(position, rawData, p.Get(FReferencedMessageId), p.Get(FReferenceKey), status.value,
                   resolved, p.Get(FResolvedRawData)))
    case KindFile =>
      Ok(File(position, rawData, p.Get(FFile), p.Get(FName), p.Get(FFileId), p.Get(FFileSize),
              p.Get(FUrl), p.Get(FPath)))
    case KindForward =>
      if FResolved !in p.values then Err(MissingField(FResolved))
      else if FResolutionStatus !in p.values then Err(MissingField(FResolutionStatus))
      else
        var status := if p.Get(FResolutionStatus).Str? then ForwardStatusOf(p.Get(FResolutionStatus).text) else None;
        if status.None? then Err(BadEnum)
        else Ok(Forward(position, rawData, p.Get(FReferenceId), p.Get(FResolved), status.value,
                        SegmentsIn(lists[0]), NodesIn(lists[1]), p.Get(FResolvedRawData)))
    case KindUnknown => Ok(Unknown(position, rawData, p.Get(FOriginalType)))
    case _ => Err(UnsupportedKind)
  }

  /** A decoded value with every id entered so far, or the error that ends decoding. */
  datatype Decoded<+T> = Done(value: T, consumed: set<int>) | Failed(error: CodecError)

  /** Decodes one row and everything below it. Rows being decoded are `active`; `consumed` grows
      with each row entered, so no row is entered twice and decoding ends. */
  function DecodeRow(lib: Library, rows: seq<Row>, row: Row, want: Want, active: set<int>, consumed: set<int>)
    : (decoded: Decoded<Item>)
    requires row in rows
    ensures decoded.Done? ==> consumed <= decoded.consumed && WantOf(decoded.value) == want
    decreases IdsOf(rows) - consumed, 0, 0
  {
    if !KindFits(row.columns.kind, want) then Failed(WrongKind)
    else if row.id in active then Failed(CycleDetected)
    else if row.id in consumed then Failed(ReferencedTwice)
    else if Opening(lib, rows, row, want).Some? then Failed(Opening(lib, rows, row, want).value)
    else
      assert row.id in IdsOf(rows);
      var lists := DecodeParts(lib, rows, row.id, PartsOf(row.columns.kind), active + {row.id}, consumed + {row.id});
      if lists.Failed? then Failed(lists.error)
      else
        var item := Assemble(lib, row, want, lists.value);
        if item.Err? then Failed(item.error)
        else if exists child | child in Children(rows, Some(row.id)) :: child.id !in lists.consumed
        then Failed(UnexpectedRelations)
        else Done(item.value, lists.consumed)
  }

  function DecodeParts(lib: Library, rows: seq<Row>, parent: int, parts: seq<Part>, active: set<int>,
                       consumed: set<int>): (decoded: Decoded<seq<seq<Item>>>)
    ensures decoded.Done? ==> consumed <= decoded.consumed && Matches(decoded.value, parts)
    decreases IdsOf(rows) - consumed, 2, |parts|
  {
    if parts == [] then Done([], consumed)
    else
      RelatedIsRow(rows, Some(parent), parts[0].relation);
      var head := DecodeRows(lib, rows, Related(rows, Some(parent), parts[0].relation), parts[0].want, active, consumed);
      if head.Failed? then Failed(head.error)
      else
        var rest := DecodeParts(lib, rows, parent, parts[1..], active, head.consumed);
        if rest.Failed? then Failed(rest.error) else Done([head.value] + rest.value, rest.consumed)
  }

  function DecodeRows(lib: Library, rows: seq<Row>, list: seq<Row>, want: Want, active: set<int>, consumed: set<int>)
    : (decoded: Decoded<seq<Item>>)
    requires forall r | r in list :: r in rows
    ensures decoded.Done? ==> && consumed <= decoded.consumed && |decoded.value| == |list|
                              && AllWant(decoded.value, want)
    decreases IdsOf(rows) - consumed, 1, |list|
  {
    if list == [] then Done([], consumed)
    else
      var head := DecodeRow(lib, rows, list[0], want, active, consumed);
      if head.Failed? then Failed(head.error)
      else
        var rest := DecodeRows(lib, rows, list[1..], want, active, head.consumed);
        if rest.Failed? then Failed(rest.error) else Done([head.value] + rest.value, rest.consumed)
  }

  /** The segments of a row set: the rows without a parent, and no row left over. */
  function DecodeTree(lib: Library, rows: seq<Row>): Result<seq<Segment>, CodecError> {
    RelatedIsRow(rows, None, RelSegments);
    var items := DecodeRows(lib, rows, Related(rows, None, RelSegments), WantSegment, {}, {});
    if items.Failed? then Err(items.error)
    else if IdsOf(rows) != items.consumed then Err(OrphanedRows)
    else Ok(SegmentsIn(items.value))
  }

  function DecodeMessage(lib: Library, record: Record, recordId: int, rows: seq<Row>): Result<Message, CodecError> {
    if exists row | row in rows :: row.messageId != recordId then Err(ForeignRow)
    else
      var segments := DecodeTree(lib, rows);
      if segments.Err? then Err(segments.error)
      else
        var actor, author, provenance :=
          IdentityFrom(record.actor), IdentityFrom(record.author), ProvenanceFrom(record.provenance);
        if actor.Err? then Err(actor.error)
        else if author.Err? then Err(author.error)
        else if provenance.Err? then Err(provenance.error)
        else Ok(Message(record.platform, Some(record.sourceRawEventId), record.platformMessageId, record.context,
                        actor.value, author.value, record.timestamp, segments.value, provenance.value))
  }
}
