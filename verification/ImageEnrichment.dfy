/** Image descriptions for message trees: a walk that hands every plain image and every line of
    displayed forward text to a teller, and the teller with the cache and budget of one batch. */
module ImageEnrichment {
  import opened Values
  import opened Domain

  // ----- the world outside -----

  /** What identifies an image resource: its query fields without the signature. */
  type Key = seq<(string, string)>

  datatype Picture = Picture(contentType: string, data: seq<bv8>)

  datatype Fault = TooLarge | InvalidUrl | Unsupported | OtherFault

  /** What a batch asked so far, in order. Done closes the work on one display URL. */
  datatype Call =
    | Fetch(url: string)
    | Look(digest: string, described: bool)
    | Done(url: string, success: bool)
    | FetchPlain(image: Segment)
    | LookPlain(picture: Picture)

  /** The text functions, the resolver and the vision model. An answer of the last two may depend
      on everything the batch asked before. */
  datatype World = World(
    lines: string -> seq<string>,
    urlOf: string -> Option<string>,
    keyOf: string -> Key,
    withDescription: (string, string) -> string,
    isForwardDisplay: string -> bool,
    isBlank: string -> bool,
    prepare: Picture -> Result<Picture, Fault>,
    digest: Picture -> string,
    resolve: (seq<Call>, Segment) -> Result<Picture, Fault>,
    describe: (seq<Call>, Picture) -> Result<string, Fault>
  )

  const UNAVAILABLE := "无法解析"
  const OVER_BUDGET := "超过本次转发图片识别上限，未下载"
  const TRIED_TWICE := "无法解析（同一图片的备用链接尝试已达上限）"

  datatype FailedStage = Download | Validation | Vision

  function Apology(stage: FailedStage, fault: Fault): string {
    "无法解析（" +
    (if fault == TooLarge then "图片大小或像素数量超过安全上限"
     else if fault == InvalidUrl then "图片地址未通过安全检查或域名解析失败"
     else if stage == Vision then "视觉模型调用失败"
     else if stage == Validation || fault == Unsupported then "图片格式或解码校验失败"
     else "图片下载失败，链接可能过期或网络异常") + "）"
  }

  // ----- one display URL -----

  datatype Batch = Batch(
    byUrl: map<string, string>,
    successes: map<Key, string>,
    byContent: map<string, string>,
    attempts: map<Key, nat>,
    calls: seq<Call>
  )

  const EMPTY_BATCH := Batch(map[], map[], map[], map[], [])

  datatype Outcome = Outcome(text: string, success: bool)

  function DisplayImage(position: int, url: string): Segment {
    Image(position, Null, Null, Str(url), Null, Null, Null, Null, Null, Null, Null)
  }

  function Log(b: Batch, call: Call): Batch {
    b.(calls := b.calls + [call])
  }

  /** Download and validation. */
  function PictureAt(world: World, calls: seq<Call>, position: int, url: string): Result<Picture, Outcome> {
    match world.resolve(calls, DisplayImage(position, url))
    case Err(fault) => Err(Outcome(Apology(Download, fault), false))
    case Ok(downloaded) =>
      match world.prepare(downloaded)
      case Err(fault) => Err(Outcome(Apology(Validation, fault), false))
      case Ok(picture) => Ok(picture)
  }

  /** The vision model; a blank description is a failure. */
  function Seen(world: World, calls: seq<Call>, picture: Picture): Outcome {
    match world.describe(calls, picture)
    case Err(fault) => Outcome(Apology(Vision, fault), false)
    case Ok(text) => if world.isBlank(text) then Outcome(Apology(Vision, OtherFault), false) else Outcome(text, true)
  }

  /** `_describe_display_image`. */
  function Attempt(world: World, b: Batch, position: int, url: string): (Outcome, Batch) {
    var asked := Log(b, Fetch(url));
    match PictureAt(world, b.calls, position, url)
    case Err(outcome) => (outcome, Log(asked, Done(url, false)))
    case Ok(picture) =>
      var digest := world.digest(picture);
      if digest in b.byContent then (Outcome(b.byContent[digest], true), Log(asked, Done(url, true)))
      else
        var outcome := Seen(world, asked.calls, picture);
        var looked := Log(Log(asked, Look(digest, outcome.success)), Done(url, outcome.success));
        (outcome, if outcome.success then looked.(byContent := looked.byContent[digest := outcome.text]) else looked)
  }

  function Tries(b: Batch, key: Key): nat {
    if key in b.attempts then b.attempts[key] else 0
  }

  lemma OneMoreKey(attempts: map<Key, nat>, key: Key, tries: nat)
    ensures |attempts[key := tries]| == |attempts| + if key in attempts then 0 else 1
  {
  }

  /** The cache, the budget and the two attempts of one resource. */
  function Described(world: World, max: nat, b: Batch, position: int, url: string): (string, Batch) {
    var key := world.keyOf(url);
    if key in b.successes then (b.successes[key], b)
    else if url in b.byUrl then (b.byUrl[url], b)
    else if key !in b.attempts && |b.attempts| >= max then (OVER_BUDGET, b)
    else if Tries(b, key) >= 2 then (TRIED_TWICE, b)
    else
      var (outcome, after) := Attempt(world, b.(attempts := b.attempts[key := Tries(b, key) + 1]), position, url);
      var known := after.(byUrl := after.byUrl[url := outcome.text]);
      (outcome.text, if outcome.success then known.(successes := known.successes[key := outcome.text]) else known)
  }

  // ----- one text -----

  function TextOf(text: Json): string {
    if text.Str? then text.text else ""
  }

  /** A source of descriptions with its own state: display URLs and plain images. */
  datatype Teller<!S> = Teller(
    url: (S, int, string) -> (string, S),
    plain: (S, Segment) -> (Segment, S)
  )

  function Lines<S>(world: World, teller: Teller<S>, s: S, position: int, lines: seq<string>): (string, S) {
    if lines == [] then ("", s)
    else
      match world.urlOf(lines[0])
      case None =>
        var (rest, after) := Lines(world, teller, s, position, lines[1..]);
        (lines[0] + rest, after)
      case Some(url) =>
        var (description, told) := teller.url(s, position, url);
        var (rest, after) := Lines(world, teller, told, position, lines[1..]);
        (world.withDescription(lines[0], description) + rest, after)
  }

  predicate HasUrl(world: World, lines: seq<string>) {
    lines != [] && (world.urlOf(lines[0]).Some? || HasUrl(world, lines[1..]))
  }

  /** `_describe_display`: a text without an image line stays as it is. */
  function Display<S>(world: World, teller: Teller<S>, s: S, segment: Segment): (Segment, S)
    requires segment.Text?
  {
    var lines := world.lines(TextOf(segment.text));
    var (text, after) := Lines(world, teller, s, segment.position, lines);
    (if HasUrl(world, lines) then segment.(text := Str(text)) else segment, after)
  }

  // ----- the walk -----

  /** `_enrich_segments`: text is displayed inside a forward, or in a quote that reads like one. */
  function Walk<S>(world: World, teller: Teller<S>, s: S, segments: seq<Segment>, display: bool, quoted: bool)
    : (seq<Segment>, S)
    decreases segments, 1
  {
    if segments == [] then ([], s)
    else
      var (first, told) := WalkOne(world, teller, s, segments[0], display, quoted);
      var (rest, after) := Walk(world, teller, told, segments[1..], display, quoted);
      ([first] + rest, after)
  }

  function WalkOne<S>(world: World, teller: Teller<S>, s: S, segment: Segment, display: bool, quoted: bool)
    : (Segment, S)
    decreases segment, 2
  {
    match segment
    case Text(_, _, text) =>
      if display || (quoted && world.isForwardDisplay(TextOf(text))) then Display(world, teller, s, segment)
      else (segment, s)
    case Image(_, _, _, _, _, _, _, _, _, _, _) => teller.plain(s, segment)
    case Reply(_, _, _, _, _, Some(resolved), _) =>
      var (inner, after) := Walk(world, teller, s, resolved.segments, false, true);
      (segment.(resolvedMessage := Some(resolved.(segments := inner))), after)
    case Forward(_, _, _, _, _, content, nodes, _) =>
      var (shown, told) := Walk(world, teller, s, content, true, false);
      var (inner, after) := WalkNodes(world, teller, told, nodes);
      (segment.(content := shown, nodes := inner), after)
    case _ => (segment, s)
  }

  function WalkNodes<S>(world: World, teller: Teller<S>, s: S, nodes: seq<ForwardNode>): (seq<ForwardNode>, S)
    decreases nodes, 1
  {
    if nodes == [] then ([], s)
    else
      var (content, told) := Walk(world, teller, s, nodes[0].content, true, false);
      var (rest, after) := WalkNodes(world, teller, told, nodes[1..]);
      ([nodes[0].(content := content)] + rest, after)
  }

  // ----- messages -----

  /** `_describe`: an image outside the display cache. */
  function PlainImage(world: World, b: Batch, image: Segment): (Segment, Batch)
    requires image.Image?
  {
    if Truthy(image.description) then (image, b)
    else
      var asked := Log(b, FetchPlain(image));
      match world.resolve(b.calls, image)
      case Err(_) => (image.(description := Str(UNAVAILABLE)), asked)
      case Ok(picture) =>
        match world.describe(asked.calls, picture)
        case Err(_) => (image.(description := Str(UNAVAILABLE)), Log(asked, LookPlain(picture)))
        case Ok(text) => (image.(description := Str(text)), Log(asked, LookPlain(picture)))
  }

  /** The teller of one batch. */
  function Cached(world: World, max: nat): Teller<Batch> {
    Teller((b, position, url) => Described(world, max, b, position, url),
           (b, image: Segment) => if image.Image? then PlainImage(world, b, image) else (image, b))
  }

  function Retold<S>(world: World, teller: Teller<S>, s: S, message: Message): (Message, S) {
    var (segments, after) := Walk(world, teller, s, message.segments, false, false);
    (message.(segments := segments), after)
  }

  /** A pass over messages that share one state. */
  function Pass<S>(world: World, teller: Teller<S>, s: S, messages: seq<Message>): (seq<Message>, S)
    decreases |messages|
  {
    if messages == [] then ([], s)
    else
      var (first, told) := Retold(world, teller, s, messages[0]);
      var (rest, after) := Pass(world, teller, told, messages[1..]);
      ([first] + rest, after)
  }

  function Enriched(world: World, max: nat, b: Batch, message: Message): (Message, Batch) {
    Retold(world, Cached(world, max), b, message)
  }

  /** The batch a message belongs to when it is not in the request's scope. */
  datatype BatchKey = OfGroup(platform: string, groupId: string) | OfMessage(platform: string, index: nat)

  datatype Scope = Scope(platform: string, groupId: string, batch: Batch)

  predicate InScope(scope: Option<Scope>, message: Message) {
    scope.Some? && scope.value.platform == message.platform && message.context.groupId == Some(scope.value.groupId)
  }

  function KeyFor(message: Message, index: nat): BatchKey {
    match message.context.groupId
    case Some(group) => OfGroup(message.platform, group)
    case None => OfMessage(message.platform, index)
  }

  function BatchFor(batches: map<BatchKey, Batch>, key: BatchKey): Batch {
    if key in batches then batches[key] else EMPTY_BATCH
  }

  datatype Batches = Batches(scope: Option<Scope>, local: map<BatchKey, Batch>)

  function One(world: World, max: nat, state: Batches, message: Message, index: nat): (Message, Batches) {
    if InScope(state.scope, message) then
      var (m, after) := Enriched(world, max, state.scope.value.batch, message);
      (m, state.(scope := Some(state.scope.value.(batch := after))))
    else
      var key := KeyFor(message, index);
      var (m, after) := Enriched(world, max, BatchFor(state.local, key), message);
      (m, state.(local := state.local[key := after]))
  }

  /** The loop of `enrich_messages`; `index` is the place of the first message. */
  function All(world: World, max: nat, state: Batches, messages: seq<Message>, index: nat)
    : (seq<Message>, Batches)
    decreases |messages|
  {
    if messages == [] then ([], state)
    else
      var (first, told) := One(world, max, state, messages[0], index);
      var (rest, after) := All(world, max, told, messages[1..], index + 1);
      ([first] + rest, after)
  }

  /** `enrich_messages` with enrichment enabled: the messages, and the scope's batch afterwards. */
  function EnrichedAll(world: World, max: nat, scope: Option<Scope>, messages: seq<Message>)
    : (seq<Message>, Option<Scope>)
  {
    var (enriched, state) := All(world, max, Batches(scope, map[]), messages, 0);
    (enriched, state.scope)
  }
}
