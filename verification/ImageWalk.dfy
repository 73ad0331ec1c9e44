/** Two tellers that keep a relation between their states, and answer alike while it holds,
    enrich every tree alike. */
module ImageWalk {
  import opened Values
  import opened Domain
  import opened ImageEnrichment

  // ----- the display URLs of a tree -----

  function LineUrls(world: World, lines: seq<string>): set<string> {
    if lines == [] then {}
    else (match world.urlOf(lines[0]) case None => {} case Some(url) => {url}) + LineUrls(world, lines[1..])
  }

  function Urls(world: World, segments: seq<Segment>, display: bool, quoted: bool): set<string>
    decreases segments, 1
  {
    if segments == [] then {}
    else UrlsOfOne(world, segments[0], display, quoted) + Urls(world, segments[1..], display, quoted)
  }

  function UrlsOfOne(world: World, segment: Segment, display: bool, quoted: bool): set<string>
    decreases segment, 2
  {
    match segment
    case Text(_, _, text) =>
      if display || (quoted && world.isForwardDisplay(TextOf(text))) then LineUrls(world, world.lines(TextOf(text)))
      else {}
    case Reply(_, _, _, _, _, Some(resolved), _) => Urls(world, resolved.segments, false, true)
    case Forward(_, _, _, _, _, content, nodes, _) => Urls(world, content, true, false) + UrlsOfNodes(world, nodes)
    case _ => {}
  }

  function UrlsOfNodes(world: World, nodes: seq<ForwardNode>): set<string>
    decreases nodes, 1
  {
    if nodes == [] then {} else Urls(world, nodes[0].content, true, false) + UrlsOfNodes(world, nodes[1..])
  }

  // ----- simulation -----

  ghost predicate UrlFollows<S, T>(
      f: Teller<S>, g: Teller<T>, R: (S, T) -> bool, s: S, t: T, position: int, url: string)
  {
    var (told, after) := f.url(s, position, url);
    var (alike, next) := g.url(t, position, url);
    told == alike && R(after, next)
  }

  ghost predicate PlainFollows<S, T>(f: Teller<S>, g: Teller<T>, R: (S, T) -> bool, s: S, t: T, image: Segment)
  {
    var (told, after) := f.plain(s, image);
    var (alike, next) := g.plain(t, image);
    told == alike && R(after, next)
  }

  /** While R holds, both tellers answer alike about these URLs and every plain image, and keep R. */
  ghost predicate Follows<S(!new), T(!new)>(f: Teller<S>, g: Teller<T>, R: (S, T) -> bool, urls: set<string>) {
    && (forall s, t, position, url | R(s, t) && url in urls :: UrlFollows(f, g, R, s, t, position, url))
    && (forall s, t, image: Segment | R(s, t) && image.Image? :: PlainFollows(f, g, R, s, t, image))
  }

  lemma {:induction false} LinesFollow<S(!new), T(!new)>(
      world: World, f: Teller<S>, g: Teller<T>, R: (S, T) -> bool, urls: set<string>, s: S, t: T, position: int,
      lines: seq<string>)
    requires Follows(f, g, R, urls) && R(s, t) && LineUrls(world, lines) <= urls
    ensures Lines(world, f, s, position, lines).0 == Lines(world, g, t, position, lines).0
    ensures R(Lines(world, f, s, position, lines).1, Lines(world, g, t, position, lines).1)
  {
    if lines != [] {
      var found := world.urlOf(lines[0]);
      if found.None? {
        LinesFollow(world, f, g, R, urls, s, t, position, lines[1..]);
      } else {
        assert UrlFollows(f, g, R, s, t, position, found.value);
        LinesFollow(world, f, g, R, urls, f.url(s, position, found.value).1, g.url(t, position, found.value).1,
                    position, lines[1..]);
      }
    }
  }

  lemma {:induction false} WalkFollows<S(!new), T(!new)>(
      world: World, f: Teller<S>, g: Teller<T>, R: (S, T) -> bool, urls: set<string>, s: S, t: T,
      segments: seq<Segment>, display: bool, quoted: bool)
    requires Follows(f, g, R, urls) && R(s, t) && Urls(world, segments, display, quoted) <= urls
    ensures Walk(world, f, s, segments, display, quoted).0 == Walk(world, g, t, segments, display, quoted).0
    ensures R(Walk(world, f, s, segments, display, quoted).1, Walk(world, g, t, segments, display, quoted).1)
    decreases segments, 1
  {
    hide Follows, WalkOne, UrlsOfOne;
    if segments != [] {
      WalkOneFollows(world, f, g, R, urls, s, t, segments[0], display, quoted);
      WalkFollows(world, f, g, R, urls, WalkOne(world, f, s, segments[0], display, quoted).1,
                  WalkOne(world, g, t, segments[0], display, quoted).1, segments[1..], display, quoted);
    }
  }

  lemma {:induction false} WalkOneFollows<S(!new), T(!new)>(
      world: World, f: Teller<S>, g: Teller<T>, R: (S, T) -> bool, urls: set<string>, s: S, t: T, segment: Segment,
      display: bool, quoted: bool)
    requires Follows(f, g, R, urls) && R(s, t) && UrlsOfOne(world, segment, display, quoted) <= urls
    ensures WalkOne(world, f, s, segment, display, quoted).0 == WalkOne(world, g, t, segment, display, quoted).0
    ensures R(WalkOne(world, f, s, segment, display, quoted).1, WalkOne(world, g, t, segment, display, quoted).1)
    decreases segment, 2
  {
    hide Walk, Lines, WalkNodes, Urls, UrlsOfNodes, LineUrls;
    match segment {
      case Text(_, _, text) =>
        if display || (quoted && world.isForwardDisplay(TextOf(text))) {
          LinesFollow(world, f, g, R, urls, s, t, segment.position, world.lines(TextOf(text)));
        }
      case Image(_, _, _, _, _, _, _, _, _, _, _) =>
        assert PlainFollows(f, g, R, s, t, segment);
      case Reply(_, _, _, _, _, Some(resolved), _) =>
        WalkFollows(world, f, g, R, urls, s, t, resolved.segments, false, true);
      case Forward(_, _, _, _, _, content, nodes, _) =>
        WalkFollows(world, f, g, R, urls, s, t, content, true, false);
        WalkNodesFollows(world, f, g, R, urls, Walk(world, f, s, content, true, false).1,
                         Walk(world, g, t, content, true, false).1, nodes);
      case _ =>
    }
  }

  lemma {:induction false} WalkNodesFollows<S(!new), T(!new)>(
      world: World, f: Teller<S>, g: Teller<T>, R: (S, T) -> bool, urls: set<string>, s: S, t: T,
      nodes: seq<ForwardNode>)
    requires Follows(f, g, R, urls) && R(s, t) && UrlsOfNodes(world, nodes) <= urls
    ensures WalkNodes(world, f, s, nodes).0 == WalkNodes(world, g, t, nodes).0
    ensures R(WalkNodes(world, f, s, nodes).1, WalkNodes(world, g, t, nodes).1)
    decreases nodes, 1
  {
    hide Follows, Walk, Urls;
    if nodes != [] {
      WalkFollows(world, f, g, R, urls, s, t, nodes[0].content, true, false);
      WalkNodesFollows(world, f, g, R, urls, Walk(world, f, s, nodes[0].content, true, false).1,
                       Walk(world, g, t, nodes[0].content, true, false).1, nodes[1..]);
    }
  }

  function UrlsOfAll(world: World, messages: seq<Message>): set<string>
    decreases |messages|
  {
    if messages == [] then {}
    else Urls(world, messages[0].segments, false, false) + UrlsOfAll(world, messages[1..])
  }

  lemma {:induction false} PassFollows<S(!new), T(!new)>(
      world: World, f: Teller<S>, g: Teller<T>, R: (S, T) -> bool, urls: set<string>, s: S, t: T,
      messages: seq<Message>)
    requires Follows(f, g, R, urls) && R(s, t) && UrlsOfAll(world, messages) <= urls
    ensures Pass(world, f, s, messages).0 == Pass(world, g, t, messages).0
    ensures R(Pass(world, f, s, messages).1, Pass(world, g, t, messages).1)
    decreases |messages|
  {
    hide Follows, Walk, Urls;
    if messages != [] {
      WalkFollows(world, f, g, R, urls, s, t, messages[0].segments, false, false);
      PassFollows(world, f, g, R, urls, Retold(world, f, s, messages[0]).1, Retold(world, g, t, messages[0]).1,
                  messages[1..]);
    }
  }

  // ----- what a pass meets -----

  /** A teller whose state is the URLs it was asked about, whatever it answers. */
  ghost predicate Remembers(teller: Teller<seq<string>>) {
    && (forall seen, position, url :: teller.url(seen, position, url).1 == seen + [url])
    && (forall seen, image: Segment :: teller.plain(seen, image).1 == seen)
  }

  function Elements(urls: seq<string>): set<string> {
    set url | url in urls
  }

  lemma {:induction false} LinesMeet(
      world: World, teller: Teller<seq<string>>, seen: seq<string>, position: int, lines: seq<string>)
    requires Remembers(teller)
    ensures Elements(Lines(world, teller, seen, position, lines).1) == Elements(seen) + LineUrls(world, lines)
    decreases |lines|
  {
    if lines != [] {
      var found := world.urlOf(lines[0]);
      LinesMeet(world, teller, if found.None? then seen else teller.url(seen, position, found.value).1, position,
                lines[1..]);
    }
  }

  lemma {:induction false} WalkMeets(world: World, teller: Teller<seq<string>>, seen: seq<string>,
                                     segments: seq<Segment>, display: bool, quoted: bool)
    requires Remembers(teller)
    ensures Elements(Walk(world, teller, seen, segments, display, quoted).1)
            == Elements(seen) + Urls(world, segments, display, quoted)
    decreases segments, 1
  {
    hide Remembers, WalkOne, UrlsOfOne, Elements;
    if segments != [] {
      WalkOneMeets(world, teller, seen, segments[0], display, quoted);
      WalkMeets(world, teller, WalkOne(world, teller, seen, segments[0], display, quoted).1, segments[1..],
                display, quoted);
    }
  }

  lemma {:induction false} WalkOneMeets(world: World, teller: Teller<seq<string>>, seen: seq<string>,
                                        segment: Segment, display: bool, quoted: bool)
    requires Remembers(teller)
    ensures Elements(WalkOne(world, teller, seen, segment, display, quoted).1)
            == Elements(seen) + UrlsOfOne(world, segment, display, quoted)
    decreases segment, 2
  {
    hide Walk, Lines, WalkNodes, Urls, UrlsOfNodes, LineUrls, Elements;
    match segment {
      case Text(_, _, text) =>
        if display || (quoted && world.isForwardDisplay(TextOf(text))) {
          LinesMeet(world, teller, seen, segment.position, world.lines(TextOf(text)));
        }
      case Reply(_, _, _, _, _, Some(resolved), _) =>
        WalkMeets(world, teller, seen, resolved.segments, false, true);
      case Forward(_, _, _, _, _, content, nodes, _) =>
        WalkMeets(world, teller, seen, content, true, false);
        WalkNodesMeet(world, teller, Walk(world, teller, seen, content, true, false).1, nodes);
      case _ =>
    }
  }

  lemma {:induction false} WalkNodesMeet(
      world: World, teller: Teller<seq<string>>, seen: seq<string>, nodes: seq<ForwardNode>)
    requires Remembers(teller)
    ensures Elements(WalkNodes(world, teller, seen, nodes).1) == Elements(seen) + UrlsOfNodes(world, nodes)
    decreases nodes, 1
  {
    hide Remembers, Walk, Urls, Elements;
    if nodes != [] {
      WalkMeets(world, teller, seen, nodes[0].content, true, false);
      WalkNodesMeet(world, teller, Walk(world, teller, seen, nodes[0].content, true, false).1, nodes[1..]);
    }
  }

  /** A pass asks about exactly the display URLs of its messages. */
  lemma {:induction false} PassMeets(
      world: World, teller: Teller<seq<string>>, seen: seq<string>, messages: seq<Message>)
    requires Remembers(teller)
    ensures Elements(Pass(world, teller, seen, messages).1) == Elements(seen) + UrlsOfAll(world, messages)
    decreases |messages|
  {
    hide Remembers, Walk, Urls, Elements;
    if messages != [] {
      WalkMeets(world, teller, seen, messages[0].segments, false, false);
      PassMeets(world, teller, Retold(world, teller, seen, messages[0]).1, messages[1..]);
    }
  }
}
