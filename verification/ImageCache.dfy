/** The cached pass against a pass without a cache, when the resolver answers by resource and the
    vision model by content. */
module ImageCache {
  import opened Values
  import opened Sequences
  import opened Domain
  import opened ImageEnrichment
  import opened ImageWalk
  import opened ImageIsolation

  /** Answers do not change over time, depend only on the resource, and only on the content. */
  ghost predicate Steady(world: World) {
    && (forall calls, image: Segment :: world.resolve(calls, image) == world.resolve([], image))
    && (forall calls, picture :: world.describe(calls, picture) == world.describe([], picture))
    && (forall i, url, j, other | world.keyOf(url) == world.keyOf(other) ::
          world.resolve([], DisplayImage(i, url)) == world.resolve([], DisplayImage(j, other)))
    && (forall p, q | world.digest(p) == world.digest(q) :: world.describe([], p) == world.describe([], q))
  }

  /** One line without any cache: fetch, validate, describe. */
  function Direct(world: World, url: string): Outcome {
    match PictureAt(world, [], 0, url)
    case Err(outcome) => outcome
    case Ok(picture) => Seen(world, [], picture)
  }

  lemma DirectByKey(world: World, url: string, other: string)
    requires Steady(world) && world.keyOf(url) == world.keyOf(other)
    ensures Direct(world, url) == Direct(world, other)
  {
  }

  /** The pass without a cache. */
  function Uncached(world: World): Teller<()> {
    Teller((s, _, url) => (Direct(world, url).text, s),
           (s, image: Segment) => if image.Image? then (PlainImage(world, EMPTY_BATCH, image).0, s) else (image, s))
  }

  function WithoutCache(world: World, messages: seq<Message>): seq<Message> {
    Pass(world, Uncached(world), (), messages).0
  }

  // ----- what the cached pass shows, by what came before -----

  function Take<T>(n: nat, s: seq<T>): seq<T> {
    if |s| <= n then s else s[..n]
  }

  function KeysOf(world: World, urls: seq<string>): seq<Key> {
    if urls == [] then [] else KeysOf(world, urls[..|urls| - 1]) + [world.keyOf(urls[|urls| - 1])]
  }

  function UrlsFor(world: World, key: Key, urls: seq<string>): seq<string> {
    if urls == [] then []
    else
      var last := urls[|urls| - 1];
      UrlsFor(world, key, urls[..|urls| - 1]) + if world.keyOf(last) == key then [last] else []
  }

  /** The first `max` resources. */
  function Admitted(world: World, max: nat, urls: seq<string>): seq<Key> {
    Take(max, Distinct(KeysOf(world, urls)))
  }

  /** The first two URLs of a resource. */
  function Tried(world: World, key: Key, urls: seq<string>): seq<string> {
    Take(2, Distinct(UrlsFor(world, key, urls)))
  }

  /** The verdict on a URL after these. */
  function Verdict(world: World, max: nat, seen: seq<string>, url: string): string {
    var now := seen + [url];
    if world.keyOf(url) !in Admitted(world, max, now) then OVER_BUDGET
    else if Direct(world, url).success || url in Tried(world, world.keyOf(url), now) then Direct(world, url).text
    else TRIED_TWICE
  }

  /** The pass that remembers nothing but the URLs it has met. */
  function Judged(world: World, max: nat): Teller<seq<string>> {
    Teller((seen, _, url) => (Verdict(world, max, seen, url), seen + [url]),
           (seen, image: Segment) =>
             if image.Image? then (PlainImage(world, EMPTY_BATCH, image).0, seen) else (image, seen))
  }

  function WithVerdicts(world: World, max: nat, seen: seq<string>, messages: seq<Message>)
    : (seq<Message>, seq<string>)
  {
    Pass(world, Judged(world, max), seen, messages)
  }

  // ----- distinct prefixes -----

  lemma MoreKeys(world: World, urls: seq<string>, url: string)
    ensures KeysOf(world, urls + [url]) == KeysOf(world, urls) + [world.keyOf(url)]
  {
  }

  lemma MoreUrls(world: World, key: Key, urls: seq<string>, url: string)
    ensures UrlsFor(world, key, urls + [url])
            == if world.keyOf(url) == key then UrlsFor(world, key, urls) + [url] else UrlsFor(world, key, urls)
  {
  }

  lemma {:induction false} NewKeyHasNoUrls(world: World, key: Key, urls: seq<string>)
    requires key !in Distinct(KeysOf(world, urls))
    ensures UrlsFor(world, key, urls) == []
  {
    DistinctMembers(KeysOf(world, urls));
    if urls != [] {
      DistinctMembers(KeysOf(world, urls[..|urls| - 1]));
      NewKeyHasNoUrls(world, key, urls[..|urls| - 1]);
    }
  }

  lemma TakeMore<T>(n: nat, s: seq<T>, x: T)
    ensures Take(n, s + [x]) == if |Take(n, s)| < n then Take(n, s) + [x] else Take(n, s)
    ensures |Take(n, s)| < n ==> Take(n, s) == s
    ensures forall y :: y in Take(n, s) ==> y in s
  {
  }

  /** What one more URL of a resource met before admits: nothing. */
  lemma OldKeyAdmitsNothing(world: World, max: nat, seen: seq<string>, url: string)
    requires world.keyOf(url) in Distinct(KeysOf(world, seen))
    ensures Admitted(world, max, seen + [url]) == Admitted(world, max, seen)
    ensures world.keyOf(url) !in Admitted(world, max, seen) ==> |Admitted(world, max, seen)| >= max
  {
    hide Distinct, KeysOf;
    MoreKeys(world, seen, url);
    DistinctMore(KeysOf(world, seen), world.keyOf(url));
  }

  lemma NewKeyIsAdmitted(world: World, max: nat, seen: seq<string>, url: string)
    requires world.keyOf(url) !in Distinct(KeysOf(world, seen))
    ensures var before := Admitted(world, max, seen);
            && world.keyOf(url) !in before
            && Admitted(world, max, seen + [url]) == if |before| < max then before + [world.keyOf(url)] else before
    ensures Tried(world, world.keyOf(url), seen) == []
  {
    hide Distinct, KeysOf, Take, UrlsFor;
    MoreKeys(world, seen, url);
    DistinctMore(KeysOf(world, seen), world.keyOf(url));
    TakeMore(max, Distinct(KeysOf(world, seen)), world.keyOf(url));
    NewKeyHasNoUrls(world, world.keyOf(url), seen);
    NothingTried();
  }

  lemma NothingTried()
    ensures Take(2, Distinct<string>([])) == []
  {
  }

  /** What one more URL admits. */
  lemma AdmittedMore(world: World, max: nat, seen: seq<string>, url: string)
    ensures var before := Admitted(world, max, seen);
            var key := world.keyOf(url);
            && Admitted(world, max, seen + [url])
               == (if key !in before && |before| < max then before + [key] else before)
            && (key !in before && |before| < max ==> Tried(world, key, seen) == [])
  {
    hide Admitted, Tried, Distinct, KeysOf;
    if world.keyOf(url) in Distinct(KeysOf(world, seen)) {
      OldKeyAdmitsNothing(world, max, seen, url);
    } else {
      NewKeyIsAdmitted(world, max, seen, url);
    }
  }

  lemma TriedMore(world: World, key: Key, seen: seq<string>, url: string)
    ensures var before := Tried(world, key, seen);
            Tried(world, key, seen + [url])
            == if world.keyOf(url) == key && url !in before && |before| < 2 then before + [url] else before
  {
    hide Distinct, UrlsFor, Take;
    MoreUrls(world, key, seen, url);
    DistinctMore(UrlsFor(world, key, seen), url);
    TakeMore(2, Distinct(UrlsFor(world, key, seen)), url);
  }

  // ----- the batch mirrors the URLs met -----

  ghost predicate ContentOk(world: World, b: Batch) {
    forall picture | world.digest(picture) in b.byContent ::
      Seen(world, [], picture) == Outcome(b.byContent[world.digest(picture)], true)
  }

  ghost predicate UrlOk(world: World, max: nat, b: Batch, seen: seq<string>, url: string) {
    var key, direct := world.keyOf(url), Direct(world, url);
    && (key in b.attempts <==> key in Admitted(world, max, seen))
    && (key in b.successes <==> key in b.attempts && direct.success)
    && (key in b.successes ==> b.successes[key] == direct.text)
    && (url in b.byUrl ==> key in b.attempts && b.byUrl[url] == direct.text)
    && (key in b.attempts && !direct.success ==>
          && (url in b.byUrl <==> url in Tried(world, key, seen))
          && Tries(b, key) == |Tried(world, key, seen)|)
  }

  ghost predicate Mirrors(world: World, max: nat, b: Batch, seen: seq<string>) {
    && ContentOk(world, b)
    && |b.attempts| == |Admitted(world, max, seen)|
    && forall url :: UrlOk(world, max, b, seen, url)
  }

  lemma AttemptIsDirect(world: World, b: Batch, position: int, url: string)
    requires Steady(world) && ContentOk(world, b)
    ensures var (outcome, after) := Attempt(world, b, position, url);
            && outcome == Direct(world, url) && ContentOk(world, after)
            && after.byUrl == b.byUrl && after.successes == b.successes && after.attempts == b.attempts
  {
  }

  lemma {:induction false} VerdictIsDescribed(
      world: World, max: nat, b: Batch, seen: seq<string>, position: int, url: string)
    requires Steady(world) && Mirrors(world, max, b, seen)
    ensures Described(world, max, b, position, url).0 == Verdict(world, max, seen, url)
  {
    hide Attempt, Direct, Admitted, Tried, ContentOk, Steady;
    var key := world.keyOf(url);
    assert UrlOk(world, max, b, seen, url);
    AdmittedMore(world, max, seen, url);
    TriedMore(world, key, seen, url);
    AttemptIsDirect(world, b.(attempts := b.attempts[key := Tries(b, key) + 1]), position, url) by {
      assert ContentOk(world, b.(attempts := b.attempts[key := Tries(b, key) + 1])) by { SameContent(world, b, key); }
    }
  }

  lemma SameContent(world: World, b: Batch, key: Key)
    requires ContentOk(world, b)
    ensures ContentOk(world, b.(attempts := b.attempts[key := Tries(b, key) + 1]))
  {
  }

  /** The batch after one URL, seen from any URL. */
  lemma {:induction false} UrlStaysOk(
      world: World, max: nat, b: Batch, seen: seq<string>, position: int, url: string, other: string)
    requires Steady(world) && ContentOk(world, b) && |b.attempts| == |Admitted(world, max, seen)|
    requires UrlOk(world, max, b, seen, url) && UrlOk(world, max, b, seen, other)
    ensures UrlOk(world, max, Described(world, max, b, position, url).1, seen + [url], other)
  {
    hide Attempt, Direct, Admitted, Tried, ContentOk, Steady;
    var key := world.keyOf(url);
    AdmittedMore(world, max, seen, url);
    TriedMore(world, key, seen, url);
    TriedMore(world, world.keyOf(other), seen, url);
    if world.keyOf(other) == key {
      DirectByKey(world, url, other);
    }
    SameContent(world, b, key);
    AttemptIsDirect(world, b.(attempts := b.attempts[key := Tries(b, key) + 1]), position, url);
  }

  lemma {:induction false} CountsStayOk(world: World, max: nat, b: Batch, seen: seq<string>, position: int, url: string)
    requires Steady(world) && Mirrors(world, max, b, seen)
    ensures var after := Described(world, max, b, position, url).1;
            ContentOk(world, after) && |after.attempts| == |Admitted(world, max, seen + [url])|
  {
    hide Attempt, Direct, Admitted, Tried, Steady;
    var key := world.keyOf(url);
    assert UrlOk(world, max, b, seen, url);
    AdmittedMore(world, max, seen, url);
    OneMoreKey(b.attempts, key, Tries(b, key) + 1);
    SameContent(world, b, key);
    AttemptIsDirect(world, b.(attempts := b.attempts[key := Tries(b, key) + 1]), position, url);
  }

  lemma {:induction false} DescribedMirrors(
      world: World, max: nat, b: Batch, seen: seq<string>, position: int, url: string)
    requires Steady(world) && Mirrors(world, max, b, seen)
    ensures Described(world, max, b, position, url).0 == Verdict(world, max, seen, url)
    ensures Mirrors(world, max, Described(world, max, b, position, url).1, seen + [url])
  {
    hide Described, Verdict, UrlOk, Steady, ContentOk;
    VerdictIsDescribed(world, max, b, seen, position, url);
    CountsStayOk(world, max, b, seen, position, url);
    forall other
      ensures UrlOk(world, max, Described(world, max, b, position, url).1, seen + [url], other)
    {
      UrlStaysOk(world, max, b, seen, position, url, other);
    }
  }

  lemma PlainIsSteady(world: World, b: Batch, image: Segment)
    requires Steady(world) && image.Image?
    ensures PlainImage(world, b, image).0 == PlainImage(world, EMPTY_BATCH, image).0
    ensures PlainImage(world, b, image).1 == b.(calls := PlainImage(world, b, image).1.calls)
  {
  }

  lemma SameMapsMirror(world: World, max: nat, b: Batch, seen: seq<string>, calls: seq<Call>)
    requires Mirrors(world, max, b, seen)
    ensures Mirrors(world, max, b.(calls := calls), seen)
  {
    hide Direct, Admitted, Tried, Seen;
    forall url
      ensures UrlOk(world, max, b.(calls := calls), seen, url)
    {
      assert UrlOk(world, max, b, seen, url);
    }
  }

  lemma PlainMirrors(world: World, max: nat, b: Batch, seen: seq<string>, image: Segment)
    requires Steady(world) && Mirrors(world, max, b, seen) && image.Image?
    ensures PlainImage(world, b, image).0 == PlainImage(world, EMPTY_BATCH, image).0
    ensures Mirrors(world, max, PlainImage(world, b, image).1, seen)
  {
    hide PlainImage, Mirrors, Steady;
    PlainIsSteady(world, b, image);
    SameMapsMirror(world, max, b, seen, PlainImage(world, b, image).1.calls);
  }

  lemma CachedFollows(world: World, max: nat, urls: set<string>)
    requires Steady(world)
    ensures Follows(Cached(world, max), Judged(world, max),
                    (x: Batch, y: seq<string>) => Mirrors(world, max, x, y), urls)
  {
    hide Steady, Mirrors, Described, PlainImage, Verdict;
    var f, g, R := Cached(world, max), Judged(world, max), (x: Batch, y: seq<string>) => Mirrors(world, max, x, y);
    forall x, y, position, url | R(x, y) && url in urls
      ensures UrlFollows(f, g, R, x, y, position, url)
    {
      DescribedMirrors(world, max, x, y, position, url);
    }
    forall x, y, image: Segment | R(x, y) && image.Image?
      ensures PlainFollows(f, g, R, x, y, image)
    {
      PlainMirrors(world, max, x, y, image);
    }
  }

  lemma NothingMirrors(world: World, max: nat)
    ensures Mirrors(world, max, EMPTY_BATCH, [])
  {
    hide Direct;
  }

  /** Exactly what a batch shows: the direct answer, except beyond the first `max` resources, and
      beyond the first two URLs of a resource that cannot be described. */
  lemma CacheShowsTheVerdicts(world: World, max: nat, messages: seq<Message>)
    requires Steady(world)
    ensures WithBatch(world, max, EMPTY_BATCH, messages).0 == WithVerdicts(world, max, [], messages).0
  {
    hide Follows, Mirrors, Steady, Pass;
    var urls := UrlsOfAll(world, messages);
    CachedFollows(world, max, urls);
    NothingMirrors(world, max);
    PassFollows(world, Cached(world, max), Judged(world, max),
                (x: Batch, y: seq<string>) => Mirrors(world, max, x, y), urls, EMPTY_BATCH, [], messages);
  }

  // ----- with enough budget -----

  /** At most `max` resources, and at most two URLs of each that cannot be described. */
  ghost predicate Generous(world: World, max: nat, urls: set<string>) {
    && |set url | url in urls :: world.keyOf(url)| <= max
    && forall url | url in urls && !Direct(world, url).success ::
         |set other | other in urls && world.keyOf(other) == world.keyOf(url)| <= 2
  }

  lemma {:induction false} KeysAreMembers(world: World, urls: seq<string>, all: set<string>)
    requires forall url | url in urls :: url in all
    ensures forall key | key in KeysOf(world, urls) :: key in (set url | url in all :: world.keyOf(url))
  {
    if urls != [] {
      KeysAreMembers(world, urls[..|urls| - 1], all);
      assert urls[|urls| - 1] in urls;
    }
  }

  lemma {:induction false} UrlsAreMembers(world: World, key: Key, urls: seq<string>)
    ensures forall url :: url in UrlsFor(world, key, urls) <==> url in urls && world.keyOf(url) == key
  {
    if urls != [] {
      UrlsAreMembers(world, key, urls[..|urls| - 1]);
      assert urls == urls[..|urls| - 1] + [urls[|urls| - 1]];
    }
  }

  ghost predicate Refused(world: World, max: nat, seen: seq<string>, url: string) {
    var now := seen + [url];
    || world.keyOf(url) !in Admitted(world, max, now)
    || (!Direct(world, url).success && url !in Tried(world, world.keyOf(url), now))
  }

  lemma NotRefused(world: World, max: nat, seen: seq<string>, url: string, all: set<string>)
    requires Generous(world, max, all) && url in all && forall u | u in seen :: u in all
    ensures !Refused(world, max, seen, url) && Verdict(world, max, seen, url) == Direct(world, url).text
  {
    hide Direct;
    var now, key := seen + [url], world.keyOf(url);
    KeysAreMembers(world, now, all);
    DistinctSize(KeysOf(world, now), set u | u in all :: world.keyOf(u));
    MoreKeys(world, seen, url);
    DistinctMembers(KeysOf(world, now));
    if !Direct(world, url).success {
      UrlsAreMembers(world, key, now);
      DistinctSize(UrlsFor(world, key, now), set other | other in all && world.keyOf(other) == key);
      DistinctMembers(UrlsFor(world, key, now));
    }
  }

  lemma JudgedFollows(world: World, max: nat, all: set<string>)
    requires Generous(world, max, all)
    ensures Follows(Judged(world, max), Uncached(world), (x: seq<string>, y: ()) => forall u | u in x :: u in all, all)
  {
    hide Generous, Verdict, Direct, Refused, PlainImage;
    var f, g, R := Judged(world, max), Uncached(world), (x: seq<string>, y: ()) => forall u | u in x :: u in all;
    forall x, y, position, url | R(x, y) && url in all
      ensures UrlFollows(f, g, R, x, y, position, url)
    {
      NotRefused(world, max, x, url, all);
    }
  }

  /** With enough budget the cached pass over any message sequence shows exactly what a pass
      without a cache shows. */
  lemma {:induction false} CachedIsUncached(world: World, max: nat, messages: seq<Message>)
    requires Steady(world) && Generous(world, max, UrlsOfAll(world, messages))
    ensures WithBatch(world, max, EMPTY_BATCH, messages).0 == WithoutCache(world, messages)
  {
    hide Follows, Generous, Steady, Pass;
    var all := UrlsOfAll(world, messages);
    CacheShowsTheVerdicts(world, max, messages);
    JudgedFollows(world, max, all);
    PassFollows(world, Judged(world, max), Uncached(world),
                (x: seq<string>, y: ()) => forall u | u in x :: u in all, all, [], (), messages);
  }

  /** So does every group of a mixed sequence, whatever the other groups need. */
  lemma {:induction false} EveryGroupIsUncached(
      world: World, max: nat, messages: seq<Message>, platform: string, groupId: string)
    requires Steady(world) && Generous(world, max, UrlsOfAll(world, OfThe(messages, platform, groupId)))
    ensures OfThe(EnrichedAll(world, max, None, messages).0, platform, groupId)
            == WithoutCache(world, OfThe(messages, platform, groupId))
  {
    hide All, WithBatch, WithoutCache, Generous, Steady, OfThe;
    AllOfTheGroup(world, max, Batches(None, map[]), messages, 0, platform, groupId);
    CachedIsUncached(world, max, OfThe(messages, platform, groupId));
  }

  // ----- enough budget is exactly what it takes -----

  /** No URL of the sequence is refused. */
  ghost predicate NoneRefused(world: World, max: nat, urls: seq<string>) {
    urls == [] || (NoneRefused(world, max, urls[..|urls| - 1])
                   && !Refused(world, max, urls[..|urls| - 1], urls[|urls| - 1]))
  }

  lemma {:induction false} AllAdmitted(world: World, max: nat, urls: seq<string>)
    requires NoneRefused(world, max, urls)
    ensures forall url | url in urls ::
              && world.keyOf(url) in Admitted(world, max, urls)
              && (!Direct(world, url).success ==> url in Tried(world, world.keyOf(url), urls))
  {
    hide Admitted, Tried, Direct;
    if urls != [] {
      var earlier, last := urls[..|urls| - 1], urls[|urls| - 1];
      assert urls == earlier + [last];
      AllAdmitted(world, max, earlier);
      AdmittedMore(world, max, earlier, last);
      forall url | url in urls
        ensures world.keyOf(url) in Admitted(world, max, urls)
        ensures !Direct(world, url).success ==> url in Tried(world, world.keyOf(url), urls)
      {
        TriedMore(world, world.keyOf(url), earlier, last);
      }
    }
  }

  lemma {:induction false} GenerousIsEnough(world: World, max: nat, urls: seq<string>, all: set<string>)
    requires Generous(world, max, all) && forall url | url in urls :: url in all
    ensures NoneRefused(world, max, urls)
  {
    hide Generous, Direct;
    if urls != [] {
      var earlier, last := urls[..|urls| - 1], urls[|urls| - 1];
      GenerousIsEnough(world, max, earlier, all);
      NotRefused(world, max, earlier, last, all);
    }
  }

  /** No URL of a sequence is refused exactly when the budget is enough for all of them. */
  lemma NoneRefusedExactlyWhenGenerous(world: World, max: nat, urls: seq<string>)
    requires Steady(world)
    ensures NoneRefused(world, max, urls) <==> Generous(world, max, Elements(urls))
  {
    hide Direct, Steady, NoneRefused;
    var all := Elements(urls);
    if Generous(world, max, all) {
      GenerousIsEnough(world, max, urls, all);
    }
    if NoneRefused(world, max, urls) {
      AllAdmitted(world, max, urls);
      SetOfSeq(Admitted(world, max, urls), set url | url in all :: world.keyOf(url));
      forall url | url in all && !Direct(world, url).success
        ensures |set other | other in all && world.keyOf(other) == world.keyOf(url)| <= 2
      {
        var same := set other | other in all && world.keyOf(other) == world.keyOf(url);
        forall other | other in same
          ensures other in Tried(world, world.keyOf(url), urls)
        {
          DirectByKey(world, url, other);
        }
        SetOfSeq(Tried(world, world.keyOf(url), urls), same);
      }
    }
  }

  // ----- the cached pass turns nothing away exactly then -----

  /** The batch answers about this URL with a limit text: the resource is beyond the budget, or was
      tried twice. */
  predicate TurnsAway(world: World, max: nat, b: Batch, url: string) {
    var key := world.keyOf(url);
    && key !in b.successes && url !in b.byUrl
    && ((key !in b.attempts && |b.attempts| >= max) || Tries(b, key) >= 2)
  }

  /** A URL turned away gets a limit text and changes nothing; any other gets what is cached or is
      looked up. */
  lemma TurnedAwayIsNotLookedUp(world: World, max: nat, b: Batch, position: int, url: string)
    ensures TurnsAway(world, max, b, url) ==>
              Described(world, max, b, position, url).0 in {OVER_BUDGET, TRIED_TWICE}
              && Described(world, max, b, position, url).1 == b
    ensures !TurnsAway(world, max, b, url) ==>
              || world.keyOf(url) in b.successes || url in b.byUrl
              || Fetch(url) in Described(world, max, b, position, url).1.calls
  {
    hide PictureAt, Seen;
    var key := world.keyOf(url);
    if !TurnsAway(world, max, b, url) && key !in b.successes && url !in b.byUrl {
      AttemptFetches(world, b.(attempts := b.attempts[key := Tries(b, key) + 1]), position, url);
    }
  }

  lemma AttemptFetches(world: World, b: Batch, position: int, url: string)
    ensures Fetch(url) in Attempt(world, b, position, url).1.calls
  {
    hide PictureAt, Seen;
    var calls := Attempt(world, b, position, url).1.calls;
    assert calls[|b.calls|] == Fetch(url);
  }

  /** The batch turns a URL away exactly when the specification refuses it. */
  lemma TurnsAwayIsRefused(world: World, max: nat, b: Batch, seen: seq<string>, url: string)
    requires Mirrors(world, max, b, seen)
    ensures TurnsAway(world, max, b, url) <==> Refused(world, max, seen, url)
  {
    hide Direct, Admitted, Tried, ContentOk;
    assert UrlOk(world, max, b, seen, url);
    AdmittedMore(world, max, seen, url);
    TriedMore(world, world.keyOf(url), seen, url);
  }

  /** The cached pass, also noting whether it has turned a URL away. */
  function Watched(world: World, max: nat): Teller<(Batch, bool)> {
    Teller(
      (s: (Batch, bool), position, url) =>
        var (text, after) := Described(world, max, s.0, position, url);
        (text, (after, s.1 || TurnsAway(world, max, s.0, url))),
      (s: (Batch, bool), image: Segment) =>
        if image.Image? then
          var (told, after) := PlainImage(world, s.0, image);
          (told, (after, s.1))
        else (image, s))
  }

  /** Whether the cached pass over these messages turns a URL away. */
  predicate PassTurnsAway(world: World, max: nat, messages: seq<Message>) {
    Pass(world, Watched(world, max), (EMPTY_BATCH, false), messages).1.1
  }

  /** Watching changes neither what is shown nor the batch. */
  lemma WatchingIsThePass(world: World, max: nat, messages: seq<Message>)
    ensures var (shown, state) := Pass(world, Watched(world, max), (EMPTY_BATCH, false), messages);
            (shown, state.0) == WithBatch(world, max, EMPTY_BATCH, messages)
  {
    hide Described, PlainImage, TurnsAway, Pass;
    var f, g, R := Watched(world, max), Cached(world, max), (x: (Batch, bool), y: Batch) => x.0 == y;
    var urls := UrlsOfAll(world, messages);
    assert Follows(f, g, R, urls) by {
      forall x, y, position, url | R(x, y) && url in urls
        ensures UrlFollows(f, g, R, x, y, position, url)
      {
      }
      forall x, y, image: Segment | R(x, y) && image.Image?
        ensures PlainFollows(f, g, R, x, y, image)
      {
      }
    }
    hide Follows;
    PassFollows(world, f, g, R, urls, (EMPTY_BATCH, false), EMPTY_BATCH, messages);
  }

  ghost predicate WatchMirrors(world: World, max: nat, state: (Batch, bool), seen: seq<string>) {
    Mirrors(world, max, state.0, seen) && (state.1 <==> !NoneRefused(world, max, seen))
  }

  lemma OneMoreMayBeRefused(world: World, max: nat, seen: seq<string>, url: string)
    ensures NoneRefused(world, max, seen + [url]) <==> NoneRefused(world, max, seen) && !Refused(world, max, seen, url)
  {
    hide Refused;
    assert (seen + [url])[..|seen|] == seen;
  }

  lemma WatchedFollows(world: World, max: nat, urls: set<string>)
    requires Steady(world)
    ensures Follows(Watched(world, max), Judged(world, max),
                    (x: (Batch, bool), y: seq<string>) => WatchMirrors(world, max, x, y), urls)
  {
    hide Steady, Mirrors, Described, PlainImage, Verdict, TurnsAway, NoneRefused, Refused;
    var f, g := Watched(world, max), Judged(world, max);
    var R := (x: (Batch, bool), y: seq<string>) => WatchMirrors(world, max, x, y);
    forall x, y, position, url | R(x, y) && url in urls
      ensures UrlFollows(f, g, R, x, y, position, url)
    {
      DescribedMirrors(world, max, x.0, y, position, url);
      TurnsAwayIsRefused(world, max, x.0, y, url);
      OneMoreMayBeRefused(world, max, y, url);
    }
    forall x, y, image: Segment | R(x, y) && image.Image?
      ensures PlainFollows(f, g, R, x, y, image)
    {
      PlainMirrors(world, max, x.0, y, image);
    }
  }

  lemma JudgedRemembers(world: World, max: nat)
    ensures Remembers(Judged(world, max))
  {
    hide Verdict, PlainImage;
  }

  /** The cached pass over any messages turns no URL away if and only if the budget is enough for
      all their display URLs. */
  lemma NothingTurnedAwayExactlyWhenGenerous(world: World, max: nat, messages: seq<Message>)
    requires Steady(world)
    ensures !PassTurnsAway(world, max, messages) <==> Generous(world, max, UrlsOfAll(world, messages))
  {
    hide Steady, Follows, Remembers, Generous, NoneRefused, Pass, Mirrors;
    var urls := UrlsOfAll(world, messages);
    WatchedFollows(world, max, urls);
    NothingMirrors(world, max);
    NothingIsRefused(world, max);
    PassFollows(world, Watched(world, max), Judged(world, max),
                (x: (Batch, bool), y: seq<string>) => WatchMirrors(world, max, x, y), urls,
                (EMPTY_BATCH, false), [], messages);
    JudgedRemembers(world, max);
    PassMeets(world, Judged(world, max), [], messages);
    assert Elements([]) + urls == urls;
    NoneRefusedExactlyWhenGenerous(world, max, Pass(world, Judged(world, max), [], messages).1);
  }

  lemma NothingIsRefused(world: World, max: nat)
    ensures NoneRefused(world, max, [])
  {
  }
}
