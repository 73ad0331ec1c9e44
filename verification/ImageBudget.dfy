/** Whatever the resolver and the vision model answer: what one batch can ask them. */
module ImageBudget {
  import opened Values
  import opened Domain
  import opened ImageEnrichment
  import opened ImageWalk

  // ----- the bounds -----

  /** How often resources with this key were fetched. */
  function FetchesOf(world: World, key: Key, calls: seq<Call>): nat {
    if calls == [] then 0
    else
      var last := calls[|calls| - 1];
      FetchesOf(world, key, calls[..|calls| - 1]) + if last.Fetch? && world.keyOf(last.url) == key then 1 else 0
  }

  function KeysFetched(world: World, calls: seq<Call>): set<Key> {
    set i | 0 <= i < |calls| && calls[i].Fetch? :: world.keyOf(calls[i].url)
  }

  /** What an earlier call forbids a later one: the same URL again, a resource that was already
      described, and content that was already described. */
  ghost predicate May(world: World, earlier: Call, later: Call) {
    && (earlier.Fetch? && later.Fetch? ==> earlier.url != later.url)
    && (earlier.Done? && earlier.success && later.Fetch? ==> world.keyOf(earlier.url) != world.keyOf(later.url))
    && (earlier.Look? && earlier.described && later.Look? ==> earlier.digest != later.digest)
  }

  ghost predicate Orderly(world: World, calls: seq<Call>) {
    forall i, j | 0 <= i < j < |calls| :: May(world, calls[i], calls[j])
  }

  ghost predicate Bounded(world: World, max: nat, calls: seq<Call>) {
    && |KeysFetched(world, calls)| <= max
    && (forall key :: FetchesOf(world, key, calls) <= 2)
    && Orderly(world, calls)
  }

  // ----- the invariant -----

  /** The maps of the batch are what its calls say. */
  ghost predicate Recorded(world: World, b: Batch) {
    && (forall url :: Fetch(url) in b.calls <==> url in b.byUrl)
    && (forall url | Done(url, true) in b.calls :: world.keyOf(url) in b.successes)
    && (forall digest :: Look(digest, true) in b.calls <==> digest in b.byContent)
  }

  ghost predicate Counted(world: World, b: Batch) {
    && KeysFetched(world, b.calls) == b.attempts.Keys
    && forall key :: FetchesOf(world, key, b.calls) == Tries(b, key) <= 2
  }

  ghost predicate Kept(world: World, max: nat, b: Batch) {
    |b.attempts| <= max && Counted(world, b) && Recorded(world, b) && Orderly(world, b.calls)
  }

  lemma {:induction false} NothingAskedYet(world: World, max: nat)
    ensures Kept(world, max, EMPTY_BATCH)
  {
  }

  lemma KeptIsBounded(world: World, max: nat, b: Batch)
    requires Kept(world, max, b)
    ensures Bounded(world, max, b.calls)
  {
  }

  // ----- one more call -----

  ghost predicate Allowed(world: World, calls: seq<Call>, call: Call) {
    forall i | 0 <= i < |calls| :: May(world, calls[i], call)
  }

  lemma OneMoreCall(world: World, calls: seq<Call>, call: Call)
    requires Orderly(world, calls) && Allowed(world, calls, call)
    ensures Orderly(world, calls + [call])
  {
    hide May;
    forall i, j | 0 <= i < j < |calls| + 1
      ensures May(world, (calls + [call])[i], (calls + [call])[j])
    {
    }
  }

  lemma OneMoreMember(calls: seq<Call>, call: Call, other: Call)
    ensures other in calls + [call] <==> other in calls || other == call
  {
  }

  lemma OneMoreFetch(world: World, key: Key, calls: seq<Call>, call: Call)
    ensures FetchesOf(world, key, calls + [call])
            == FetchesOf(world, key, calls) + if call.Fetch? && world.keyOf(call.url) == key then 1 else 0
  {
    assert (calls + [call])[..|calls|] == calls;
  }

  lemma OneMoreKeyFetched(world: World, calls: seq<Call>, call: Call)
    ensures KeysFetched(world, calls + [call])
            == KeysFetched(world, calls) + if call.Fetch? then {world.keyOf(call.url)} else {}
  {
    var more := calls + [call];
    forall i | 0 <= i < |calls| && calls[i].Fetch?
      ensures world.keyOf(calls[i].url) in KeysFetched(world, more)
    {
      assert more[i] == calls[i];
    }
    assert more[|calls|] == call;
    forall i | 0 <= i < |more| && more[i].Fetch?
      ensures more[i] == call || world.keyOf(more[i].url) in KeysFetched(world, calls)
    {
      assert i < |calls| ==> more[i] == calls[i];
    }
  }

  lemma OrderlyAfter(world: World, b: Batch, call: Call)
    requires Orderly(world, b.calls) && Recorded(world, b)
    requires call.Fetch? ==> call.url !in b.byUrl && world.keyOf(call.url) !in b.successes
    requires call.Look? ==> call.digest !in b.byContent
    ensures Orderly(world, b.calls + [call])
  {
    hide Orderly;
    forall i | 0 <= i < |b.calls|
      ensures May(world, b.calls[i], call)
    {
      assert b.calls[i] in b.calls;
    }
    OneMoreCall(world, b.calls, call);
  }

  lemma RecordedAfter(world: World, b: Batch, c: Batch, call: Call)
    requires Recorded(world, b) && c.calls == b.calls + [call]
    requires forall url :: url in c.byUrl <==> url in b.byUrl || call == Fetch(url)
    requires forall digest :: digest in c.byContent <==> digest in b.byContent || call == Look(digest, true)
    requires forall key | key in b.successes :: key in c.successes
    requires call.Done? && call.success ==> world.keyOf(call.url) in c.successes
    ensures Recorded(world, c)
  {
    forall other
      ensures other in c.calls <==> other in b.calls || other == call
    {
      OneMoreMember(b.calls, call, other);
    }
  }

  lemma CountedAfter(world: World, b: Batch, c: Batch, call: Call)
    requires Counted(world, b) && c.calls == b.calls + [call]
    requires c.attempts == if call.Fetch?
                           then b.attempts[world.keyOf(call.url) := Tries(b, world.keyOf(call.url)) + 1] else b.attempts
    requires call.Fetch? ==> Tries(b, world.keyOf(call.url)) < 2
    ensures Counted(world, c)
  {
    hide FetchesOf, KeysFetched;
    OneMoreKeyFetched(world, b.calls, call);
    forall key
      ensures FetchesOf(world, key, c.calls) == Tries(c, key) <= 2
    {
      OneMoreFetch(world, key, b.calls, call);
      assert FetchesOf(world, key, b.calls) == Tries(b, key);
    }
  }

  /** A call that neither fetches nor describes display content, nor ends with a success. */
  lemma AsideKeeps(world: World, max: nat, b: Batch, call: Call)
    requires Kept(world, max, b)
    requires !call.Fetch? && !call.Look? && !call.Done?
    ensures Kept(world, max, Log(b, call))
  {
    hide Recorded, Counted, Orderly;
    OrderlyAfter(world, b, call);
    RecordedAfter(world, b, Log(b, call), call);
    CountedAfter(world, b, Log(b, call), call);
  }

  // ----- one display URL -----

  /** During an attempt: its URL, fetched already, is not in `byUrl` before the attempt ends. */
  ghost predicate Asked(world: World, max: nat, b: Batch, url: string) {
    Kept(world, max, b.(byUrl := b.byUrl[url := ""]))
  }

  function Trying(world: World, b: Batch, url: string): Batch {
    b.(attempts := b.attempts[world.keyOf(url) := Tries(b, world.keyOf(url)) + 1])
  }

  lemma FetchKeeps(world: World, max: nat, b: Batch, url: string)
    requires Kept(world, max, b)
    requires world.keyOf(url) !in b.successes && url !in b.byUrl
    requires world.keyOf(url) in b.attempts || |b.attempts| < max
    requires Tries(b, world.keyOf(url)) < 2
    ensures Asked(world, max, Log(Trying(world, b, url), Fetch(url)), url)
  {
    hide Recorded, Counted, Orderly;
    var asked := Log(Trying(world, b, url), Fetch(url));
    var c := asked.(byUrl := asked.byUrl[url := ""]);
    OrderlyAfter(world, b, Fetch(url));
    RecordedAfter(world, b, c, Fetch(url));
    CountedAfter(world, b, c, Fetch(url));
    OneMoreKey(b.attempts, world.keyOf(url), Tries(b, world.keyOf(url)) + 1);
  }

  /** The end of an attempt: the description is cached by URL, and by resource if it succeeded. */
  function Closed(world: World, b: Batch, url: string, outcome: Outcome): Batch {
    var done := Log(b, Done(url, outcome.success));
    var known := done.(byUrl := done.byUrl[url := outcome.text]);
    if outcome.success then known.(successes := known.successes[world.keyOf(url) := outcome.text]) else known
  }

  lemma DoneKeeps(world: World, max: nat, b: Batch, url: string, outcome: Outcome)
    requires Asked(world, max, b, url)
    ensures Kept(world, max, Closed(world, b, url, outcome))
  {
    hide Recorded, Counted, Orderly;
    var before, call := b.(byUrl := b.byUrl[url := ""]), Done(url, outcome.success);
    OrderlyAfter(world, before, call);
    RecordedAfter(world, before, Closed(world, b, url, outcome), call);
    CountedAfter(world, before, Closed(world, b, url, outcome), call);
  }

  function Looked(b: Batch, digest: string, outcome: Outcome): Batch {
    var looked := Log(b, Look(digest, outcome.success));
    if outcome.success then looked.(byContent := looked.byContent[digest := outcome.text]) else looked
  }

  lemma LookKeeps(world: World, max: nat, b: Batch, url: string, digest: string, outcome: Outcome)
    requires Asked(world, max, b, url) && digest !in b.byContent
    ensures Asked(world, max, Looked(b, digest, outcome), url)
  {
    hide Recorded, Counted, Orderly;
    var before, call := b.(byUrl := b.byUrl[url := ""]), Look(digest, outcome.success);
    var after := Looked(b, digest, outcome);
    OrderlyAfter(world, before, call);
    RecordedAfter(world, before, after.(byUrl := after.byUrl[url := ""]), call);
    CountedAfter(world, before, after.(byUrl := after.byUrl[url := ""]), call);
  }

  lemma DescribedKeeps(world: World, max: nat, b: Batch, position: int, url: string)
    requires Kept(world, max, b)
    ensures Kept(world, max, Described(world, max, b, position, url).1)
  {
    hide Asked, Kept, PictureAt, Seen;
    var key := world.keyOf(url);
    if key !in b.successes && url !in b.byUrl && (key in b.attempts || |b.attempts| < max) && Tries(b, key) < 2 {
      FetchKeeps(world, max, b, url);
      var asked := Log(Trying(world, b, url), Fetch(url));
      var answer := PictureAt(world, b.calls, position, url);
      if answer.Err? {
        FailedPicture(world, b.calls, position, url);
        DoneKeeps(world, max, asked, url, answer.error);
      } else {
        var digest := world.digest(answer.value);
        if digest in b.byContent {
          DoneKeeps(world, max, asked, url, Outcome(b.byContent[digest], true));
        } else {
          var outcome := Seen(world, asked.calls, answer.value);
          LookKeeps(world, max, asked, url, digest, outcome);
          DoneKeeps(world, max, Looked(asked, digest, outcome), url, outcome);
        }
      }
    }
  }

  lemma FailedPicture(world: World, calls: seq<Call>, position: int, url: string)
    ensures PictureAt(world, calls, position, url).Err? ==> !PictureAt(world, calls, position, url).error.success
  {
  }

  lemma PlainKeeps(world: World, max: nat, b: Batch, image: Segment)
    requires Kept(world, max, b) && image.Image?
    ensures Kept(world, max, PlainImage(world, b, image).1)
  {
    hide Kept;
    var asked := Log(b, FetchPlain(image));
    AsideKeeps(world, max, b, FetchPlain(image));
    if !Truthy(image.description) {
      var answer := world.resolve(b.calls, image);
      if answer.Ok? {
        AsideKeeps(world, max, asked, LookPlain(answer.value));
      }
    }
  }

  // ----- every tree, every message sequence -----

  lemma EnrichedKeeps(world: World, max: nat, b: Batch, message: Message)
    requires Kept(world, max, b)
    ensures Kept(world, max, Enriched(world, max, b, message).1)
  {
    hide Kept, Walk, Urls;
    var teller := Cached(world, max);
    var R := (x: Batch, y: Batch) => x == y && Kept(world, max, x);
    var urls := Urls(world, message.segments, false, false);
    forall x, y, position, url | R(x, y) && url in urls
      ensures UrlFollows(teller, teller, R, x, y, position, url)
    {
      DescribedKeeps(world, max, x, position, url);
    }
    forall x, y, image: Segment | R(x, y) && image.Image?
      ensures PlainFollows(teller, teller, R, x, y, image)
    {
      PlainKeeps(world, max, x, image);
    }
    WalkFollows(world, teller, teller, R, urls, b, b, message.segments, false, false);
  }

  ghost predicate AllKept(world: World, max: nat, state: Batches) {
    && (state.scope.Some? ==> Kept(world, max, state.scope.value.batch))
    && (forall key | key in state.local :: Kept(world, max, state.local[key]))
  }

  lemma {:induction false} AllKeeps(world: World, max: nat, state: Batches, messages: seq<Message>, index: nat)
    requires AllKept(world, max, state)
    ensures AllKept(world, max, All(world, max, state, messages, index).1)
    decreases |messages|
  {
    hide Kept, Enriched;
    if messages != [] {
      NothingAskedYet(world, max);
      EnrichedKeeps(world, max, if InScope(state.scope, messages[0]) then state.scope.value.batch
                                else BatchFor(state.local, KeyFor(messages[0], index)), messages[0]);
      AllKeeps(world, max, One(world, max, state, messages[0], index).1, messages[1..], index + 1);
    }
  }

  /** Over any message sequence, every batch, the request's as well as each local one, fetches at
      most `max` resources, each at most twice, each URL at most once and none again after it was
      described, and describes the same content at most once. */
  lemma EveryBatchIsBounded(world: World, max: nat, scope: Option<Scope>, messages: seq<Message>)
    requires scope.Some? ==> Kept(world, max, scope.value.batch)
    ensures var state := All(world, max, Batches(scope, map[]), messages, 0).1;
            && (state.scope.Some? ==> Kept(world, max, state.scope.value.batch)
                                      && Bounded(world, max, state.scope.value.batch.calls))
            && (forall key | key in state.local :: Bounded(world, max, state.local[key].calls))
  {
    hide Kept, Bounded, All;
    var state := All(world, max, Batches(scope, map[]), messages, 0).1;
    AllKeeps(world, max, Batches(scope, map[]), messages, 0);
    if state.scope.Some? {
      KeptIsBounded(world, max, state.scope.value.batch);
    }
    forall key | key in state.local
      ensures Bounded(world, max, state.local[key].calls)
    {
      KeptIsBounded(world, max, state.local[key]);
    }
  }
}
