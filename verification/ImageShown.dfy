/** What an enriched message shows: every image line of a displayed text with its description, every
    plain image with its own, and everything else as it was. */
module ImageShown {
  import opened Values
  import opened Sequences
  import opened Domain
  import opened ImageEnrichment
  import opened ImageWalk
  import opened ImageIsolation
  import opened ImageCache

  /** The descriptions a URL may get, and the copies of a plain image that may take its place. */
  type Tells = (string, string) -> bool
  type Copies = (Segment, Segment) -> bool

  // ----- one text -----

  /** A line without a URL stays; one with a URL is shown with a description of that URL. */
  ghost predicate ShowsLine(world: World, tells: Tells, line: string, piece: string) {
    match world.urlOf(line)
    case None => piece == line
    case Some(url) => exists description | tells(url, description) :: piece == world.withDescription(line, description)
  }

  ghost predicate ShowsLines(world: World, tells: Tells, lines: seq<string>, pieces: seq<string>) {
    |pieces| == |lines| && forall i | 0 <= i < |lines| :: ShowsLine(world, tells, lines[i], pieces[i])
  }

  /** The text is one piece for each line, in order and with nothing in between. */
  ghost predicate ShowsText(world: World, tells: Tells, lines: seq<string>, text: string) {
    exists pieces :: ShowsLines(world, tells, lines, pieces) && text == Flatten(pieces)
  }

  ghost predicate NoImageLine(world: World, lines: seq<string>) {
    forall i | 0 <= i < |lines| :: world.urlOf(lines[i]).None?
  }

  // ----- trees -----

  ghost predicate Shows(world: World, tells: Tells, copies: Copies, before: seq<Segment>, after: seq<Segment>,
                        display: bool, quoted: bool)
    decreases before, 1
  {
    |after| == |before|
    && forall i | 0 <= i < |before| :: ShowsOne(world, tells, copies, before[i], after[i], display, quoted)
  }

  /** Text is displayed inside a forward, or in a quote that reads like one. */
  ghost predicate ShowsOne(world: World, tells: Tells, copies: Copies, before: Segment, after: Segment,
                           display: bool, quoted: bool)
    decreases before, 0
  {
    match before
    case Text(_, _, text) =>
      var written := if text.Str? then text.text else "";
      if (display || (quoted && world.isForwardDisplay(written))) && !NoImageLine(world, world.lines(written)) then
        after.Text? && after.text.Str? && after == before.(text := after.text)
        && ShowsText(world, tells, world.lines(written), after.text.text)
      else after == before
    case Image(_, _, _, _, _, _, _, _, _, _, _) => copies(before, after)
    case Reply(_, _, _, _, _, Some(resolved), _) =>
      && after.Reply? && after.resolvedMessage.Some?
      && after == before.(resolvedMessage := Some(resolved.(segments := after.resolvedMessage.value.segments)))
      && Shows(world, tells, copies, resolved.segments, after.resolvedMessage.value.segments, false, true)
    case Forward(_, _, _, _, _, content, nodes, _) =>
      && after.Forward? && after == before.(content := after.content, nodes := after.nodes)
      && Shows(world, tells, copies, content, after.content, true, false)
      && |after.nodes| == |nodes|
      && forall i | 0 <= i < |nodes| ::
           && after.nodes[i] == nodes[i].(content := after.nodes[i].content)
           && Shows(world, tells, copies, nodes[i].content, after.nodes[i].content, true, false)
    case _ => after == before
  }

  ghost predicate ShowsNodes(world: World, tells: Tells, copies: Copies, before: seq<ForwardNode>,
                             after: seq<ForwardNode>)
  {
    |after| == |before|
    && forall i | 0 <= i < |before| ::
         && after[i] == before[i].(content := after[i].content)
         && Shows(world, tells, copies, before[i].content, after[i].content, true, false)
  }

  ghost predicate ShowsMessages(world: World, tells: Tells, copies: Copies, before: seq<Message>, after: seq<Message>) {
    |after| == |before|
    && forall i | 0 <= i < |before| ::
         && after[i] == before[i].(segments := after[i].segments)
         && Shows(world, tells, copies, before[i].segments, after[i].segments, false, false)
  }

  // ----- every teller that answers so shows so -----

  ghost predicate UrlAnswer<S>(f: Teller<S>, inv: S -> bool, tells: Tells, s: S, position: int, url: string) {
    tells(url, f.url(s, position, url).0) && inv(f.url(s, position, url).1)
  }

  ghost predicate PlainAnswer<S>(f: Teller<S>, inv: S -> bool, copies: Copies, s: S, image: Segment) {
    copies(image, f.plain(s, image).0) && inv(f.plain(s, image).1)
  }

  /** While the invariant holds, the teller gives such descriptions and such copies, and keeps it. */
  ghost predicate Answers<S(!new)>(f: Teller<S>, inv: S -> bool, tells: Tells, copies: Copies) {
    && (forall s, position, url | inv(s) :: UrlAnswer(f, inv, tells, s, position, url))
    && (forall s, image: Segment | inv(s) && image.Image? :: PlainAnswer(f, inv, copies, s, image))
  }

  lemma {:induction false} LinesShow<S(!new)>(world: World, f: Teller<S>, inv: S -> bool, tells: Tells, copies: Copies,
                                              s: S, position: int, lines: seq<string>)
    returns (pieces: seq<string>)
    requires Answers(f, inv, tells, copies) && inv(s)
    ensures ShowsLines(world, tells, lines, pieces) && Lines(world, f, s, position, lines).0 == Flatten(pieces)
    ensures inv(Lines(world, f, s, position, lines).1)
    ensures HasUrl(world, lines) <==> !NoImageLine(world, lines)
  {
    pieces := [];
    if lines != [] {
      var found := world.urlOf(lines[0]);
      assert found.Some? ==> UrlAnswer(f, inv, tells, s, position, found.value);
      var rest := LinesShow(world, f, inv, tells, copies,
                            if found.None? then s else f.url(s, position, found.value).1, position, lines[1..]);
      pieces := [if found.None? then lines[0] else world.withDescription(lines[0], f.url(s, position, found.value).0)] + rest;
      assert pieces[1..] == rest && lines == [lines[0]] + lines[1..];
      forall i | 0 <= i < |lines|
        ensures ShowsLine(world, tells, lines[i], pieces[i])
      {
        assert i > 0 ==> lines[i] == lines[1..][i - 1] && pieces[i] == rest[i - 1];
      }
      assert NoImageLine(world, lines) <==> found.None? && NoImageLine(world, lines[1..]) by {
        assert forall i | 0 < i < |lines| :: lines[i] == lines[1..][i - 1];
      }
    }
  }

  lemma {:induction false} WalkShows<S(!new)>(world: World, f: Teller<S>, inv: S -> bool, tells: Tells, copies: Copies,
                                              s: S, segments: seq<Segment>, display: bool, quoted: bool)
    requires Answers(f, inv, tells, copies) && inv(s)
    ensures var (shown, after) := Walk(world, f, s, segments, display, quoted);
            Shows(world, tells, copies, segments, shown, display, quoted) && inv(after)
    decreases segments, 1
  {
    hide Answers, WalkOne, ShowsOne;
    if segments != [] {
      WalkOneShows(world, f, inv, tells, copies, s, segments[0], display, quoted);
      var (first, told) := WalkOne(world, f, s, segments[0], display, quoted);
      WalkShows(world, f, inv, tells, copies, told, segments[1..], display, quoted);
      var (rest, after) := Walk(world, f, told, segments[1..], display, quoted);
      var shown := Walk(world, f, s, segments, display, quoted).0;
      forall i | 0 <= i < |segments|
        ensures ShowsOne(world, tells, copies, segments[i], shown[i], display, quoted)
      {
        assert i > 0 ==> segments[i] == segments[1..][i - 1] && shown[i] == rest[i - 1];
      }
    }
  }

  lemma {:induction false} WalkOneShows<S(!new)>(world: World, f: Teller<S>, inv: S -> bool, tells: Tells,
                                                 copies: Copies, s: S, segment: Segment, display: bool, quoted: bool)
    requires Answers(f, inv, tells, copies) && inv(s)
    ensures var (shown, after) := WalkOne(world, f, s, segment, display, quoted);
            ShowsOne(world, tells, copies, segment, shown, display, quoted) && inv(after)
    decreases segment, 2
  {
    hide Walk, WalkNodes, Lines, Shows, ShowsLines;
    match segment {
      case Text(_, _, text) =>
        var lines := world.lines(TextOf(text));
        var pieces := LinesShow(world, f, inv, tells, copies, s, segment.position, lines);
      case Image(_, _, _, _, _, _, _, _, _, _, _) =>
        assert PlainAnswer(f, inv, copies, s, segment);
      case Reply(_, _, _, _, _, Some(resolved), _) =>
        WalkShows(world, f, inv, tells, copies, s, resolved.segments, false, true);
      case Forward(_, _, _, _, _, content, nodes, _) =>
        WalkShows(world, f, inv, tells, copies, s, content, true, false);
        WalkNodesShow(world, f, inv, tells, copies, Walk(world, f, s, content, true, false).1, nodes);
      case _ =>
    }
  }

  lemma {:induction false} WalkNodesShow<S(!new)>(world: World, f: Teller<S>, inv: S -> bool, tells: Tells,
                                                  copies: Copies, s: S, nodes: seq<ForwardNode>)
    requires Answers(f, inv, tells, copies) && inv(s)
    ensures var (shown, after) := WalkNodes(world, f, s, nodes);
            ShowsNodes(world, tells, copies, nodes, shown) && inv(after)
    decreases nodes, 1
  {
    hide Answers, Walk, Shows;
    if nodes != [] {
      WalkShows(world, f, inv, tells, copies, s, nodes[0].content, true, false);
      var (content, told) := Walk(world, f, s, nodes[0].content, true, false);
      WalkNodesShow(world, f, inv, tells, copies, told, nodes[1..]);
      var rest, shown := WalkNodes(world, f, told, nodes[1..]).0, WalkNodes(world, f, s, nodes).0;
      forall i | 0 < i < |nodes|
        ensures nodes[i] == nodes[1..][i - 1] && shown[i] == rest[i - 1]
      {
      }
    }
  }

  lemma {:induction false} PassShows<S(!new)>(world: World, f: Teller<S>, inv: S -> bool, tells: Tells, copies: Copies,
                                              s: S, messages: seq<Message>)
    requires Answers(f, inv, tells, copies) && inv(s)
    ensures var (shown, after) := Pass(world, f, s, messages);
            ShowsMessages(world, tells, copies, messages, shown) && inv(after)
    decreases |messages|
  {
    hide Answers, Walk, Shows;
    if messages != [] {
      WalkShows(world, f, inv, tells, copies, s, messages[0].segments, false, false);
      var told := Retold(world, f, s, messages[0]).1;
      PassShows(world, f, inv, tells, copies, told, messages[1..]);
      var rest, shown := Pass(world, f, told, messages[1..]).0, Pass(world, f, s, messages).0;
      forall i | 0 < i < |messages|
        ensures messages[i] == messages[1..][i - 1] && shown[i] == rest[i - 1]
      {
      }
    }
  }

  // ----- with steady answers -----

  /** What a display URL is worth by itself: the description of its downloaded and validated picture, or
      what went wrong on the way. */
  ghost predicate IsWorth(world: World, url: string, text: string) {
    match world.resolve([], Image(0, Null, Null, Str(url), Null, Null, Null, Null, Null, Null, Null))
    case Err(fault) => text == Apology(Download, fault)
    case Ok(downloaded) =>
      match world.prepare(downloaded)
      case Err(fault) => text == Apology(Validation, fault)
      case Ok(picture) =>
        match world.describe([], picture)
        case Err(fault) => text == Apology(Vision, fault)
        case Ok(description) =>
          text == if world.isBlank(description) then Apology(Vision, OtherFault) else description
  }

  /** A plain image with a description keeps it; otherwise it gets the one of its picture, and without
      one it is unavailable. Nothing else of it changes. */
  ghost predicate IsDescribed(world: World, before: Segment, after: Segment) {
    && before.Image? && after.Image? && after == before.(description := after.description)
    && if Truthy(before.description) then after == before
       else after.description
            == match world.resolve([], before)
               case Err(_) => Str(UNAVAILABLE)
               case Ok(picture) => match world.describe([], picture)
                                   case Err(_) => Str(UNAVAILABLE)
                                   case Ok(text) => Str(text)
  }

  lemma DirectIsWorth(world: World, url: string)
    ensures IsWorth(world, url, Direct(world, url).text)
  {
  }

  lemma PlainIsDescribed(world: World, image: Segment)
    requires image.Image? && Steady(world)
    ensures IsDescribed(world, image, PlainImage(world, EMPTY_BATCH, image).0)
  {
    var asked := Log(EMPTY_BATCH, FetchPlain(image));
    forall picture
      ensures world.describe(asked.calls, picture) == world.describe([], picture)
    {
    }
    hide Steady;
  }

  /** The pass without a cache shows every image line with what its URL is worth, describes every plain
      image, and leaves everything else as it is. */
  lemma UncachedShowsTheDescriptions(world: World, messages: seq<Message>)
    requires Steady(world)
    ensures ShowsMessages(world, (url, text) => IsWorth(world, url, text),
                          (before, after) => IsDescribed(world, before, after),
                          messages, WithoutCache(world, messages))
  {
    var tells: Tells := (url, text) => IsWorth(world, url, text);
    var copies: Copies := (before, after) => IsDescribed(world, before, after);
    var f, inv := Uncached(world), (s: ()) => true;
    hide ShowsMessages, Pass, IsWorth, IsDescribed, Direct, PlainImage, Steady;
    forall url
      ensures IsWorth(world, url, Direct(world, url).text)
    {
      DirectIsWorth(world, url);
    }
    forall image: Segment | image.Image?
      ensures IsDescribed(world, image, PlainImage(world, EMPTY_BATCH, image).0)
    {
      PlainIsDescribed(world, image);
    }
    assert Answers(f, inv, tells, copies);
    hide Answers;
    PassShows(world, f, inv, tells, copies, (), messages);
  }

  /** So does the cached pass when its budget is enough. */
  lemma CachedShowsTheDescriptions(world: World, max: nat, messages: seq<Message>)
    requires Steady(world) && Generous(world, max, UrlsOfAll(world, messages))
    ensures ShowsMessages(world, (url, text) => IsWorth(world, url, text),
                          (before, after) => IsDescribed(world, before, after),
                          messages, WithBatch(world, max, EMPTY_BATCH, messages).0)
  {
    hide ShowsMessages, WithBatch, WithoutCache, Steady, Generous;
    UncachedShowsTheDescriptions(world, messages);
    CachedIsUncached(world, max, messages);
  }

  /** What an apology says: the size and the address first, whatever was being done; then the vision model;
      then the format, which a failed download may show as well; and otherwise the download. */
  lemma ApologyTells(stage: FailedStage, fault: Fault)
    ensures fault == TooLarge ==> Apology(stage, fault) == "无法解析（" + "图片大小或像素数量超过安全上限" + "）"
    ensures fault == InvalidUrl ==> Apology(stage, fault) == "无法解析（" + "图片地址未通过安全检查或域名解析失败" + "）"
    ensures fault in {Unsupported, OtherFault} && stage == Vision ==> Apology(stage, fault) == "无法解析（" + "视觉模型调用失败" + "）"
    ensures (fault == Unsupported && stage != Vision) || (fault == OtherFault && stage == Validation) ==>
              Apology(stage, fault) == "无法解析（" + "图片格式或解码校验失败" + "）"
    ensures fault == OtherFault && stage == Download ==> Apology(stage, fault) == "无法解析（" + "图片下载失败，链接可能过期或网络异常" + "）"
  {
  }

  // ----- whatever is answered -----

  /** A limit text, an apology, or something the vision model said of some picture. */
  ghost predicate IsAnswer(world: World, text: string) {
    || text == OVER_BUDGET || text == TRIED_TWICE
    || (exists stage, fault :: text == Apology(stage, fault))
    || (exists calls, picture :: Said(world, calls, picture, text))
  }

  predicate Said(world: World, calls: seq<Call>, picture: Picture, text: string) {
    world.describe(calls, picture) == Ok(text) && !world.isBlank(text)
  }

  ghost predicate HoldsAnswers(world: World, b: Batch) {
    && (forall url | url in b.byUrl :: IsAnswer(world, b.byUrl[url]))
    && (forall key | key in b.successes :: IsAnswer(world, b.successes[key]))
    && (forall digest | digest in b.byContent :: IsAnswer(world, b.byContent[digest]))
  }

  /** Only the description of a plain image changes. */
  ghost predicate OnlyDescribed(before: Segment, after: Segment) {
    before.Image? && after.Image? && after == before.(description := after.description)
    && (Truthy(before.description) ==> after == before)
  }

  lemma SeenIsAnswer(world: World, calls: seq<Call>, picture: Picture)
    ensures IsAnswer(world, Seen(world, calls, picture).text)
  {
    var answer := world.describe(calls, picture);
    if answer.Ok? && !world.isBlank(answer.value) {
      assert Said(world, calls, picture, answer.value);
    }
  }

  lemma PictureFails(world: World, calls: seq<Call>, position: int, url: string)
    ensures PictureAt(world, calls, position, url).Err? ==> IsAnswer(world, PictureAt(world, calls, position, url).error.text)
  {
  }

  lemma AttemptAnswers(world: World, b: Batch, position: int, url: string)
    requires HoldsAnswers(world, b)
    ensures var (outcome, after) := Attempt(world, b, position, url);
            IsAnswer(world, outcome.text) && HoldsAnswers(world, after)
  {
    hide PictureAt, Seen, IsAnswer;
    PictureFails(world, b.calls, position, url);
    var picture := PictureAt(world, b.calls, position, url);
    if picture.Ok? {
      SeenIsAnswer(world, Log(b, Fetch(url)).calls, picture.value);
    }
  }

  lemma LimitsAreAnswers(world: World)
    ensures IsAnswer(world, OVER_BUDGET) && IsAnswer(world, TRIED_TWICE)
  {
  }

  lemma DescribedAnswers(world: World, max: nat, b: Batch, position: int, url: string)
    requires HoldsAnswers(world, b)
    ensures var (text, after) := Described(world, max, b, position, url);
            IsAnswer(world, text) && HoldsAnswers(world, after)
  {
    hide Attempt, IsAnswer;
    LimitsAreAnswers(world);
    AttemptAnswers(world, b.(attempts := b.attempts[world.keyOf(url) := Tries(b, world.keyOf(url)) + 1]), position, url);
  }

  lemma PlainAnswers(world: World, b: Batch, image: Segment)
    requires HoldsAnswers(world, b) && image.Image?
    ensures OnlyDescribed(image, PlainImage(world, b, image).0) && HoldsAnswers(world, PlainImage(world, b, image).1)
  {
    hide IsAnswer;
  }

  /** Whatever the resolver and the vision model answer, also when they change their minds: the cached
      pass shows every image line with an answer, and changes nothing but image lines and the
      descriptions of plain images. */
  lemma CachedShowsAnswers(world: World, max: nat, b: Batch, messages: seq<Message>)
    requires HoldsAnswers(world, b)
    ensures ShowsMessages(world, (url, text) => IsAnswer(world, text), (before, after) => OnlyDescribed(before, after),
                          messages, WithBatch(world, max, b, messages).0)
  {
    hide Pass, ShowsMessages;
    var tells: Tells := (url, text) => IsAnswer(world, text);
    var copies: Copies := (before, after) => OnlyDescribed(before, after);
    var f, inv := Cached(world, max), (s: Batch) => HoldsAnswers(world, s);
    hide Described, PlainImage, HoldsAnswers, IsAnswer, OnlyDescribed;
    forall s, position, url | inv(s)
      ensures UrlAnswer(f, inv, tells, s, position, url)
    {
      DescribedAnswers(world, max, s, position, url);
    }
    forall s, image: Segment | inv(s) && image.Image?
      ensures PlainAnswer(f, inv, copies, s, image)
    {
      PlainAnswers(world, s, image);
    }
    assert Answers(f, inv, tells, copies);
    hide Answers;
    PassShows(world, f, inv, tells, copies, b, messages);
  }
}
