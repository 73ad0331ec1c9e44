/** The image enrichment service: batches updated in place, loops over segments, lines and
    messages, proved equal to the functions of ImageEnrichment. */
module ImageService {
  import opened Values
  import opened Domain
  import opened ImageEnrichment

  class DisplayBatch {
    var byUrl: map<string, string>
    var successes: map<Key, string>
    var byContent: map<string, string>
    var attempts: map<Key, nat>
    var calls: seq<Call>

    constructor ()
      ensures Value() == EMPTY_BATCH
    {
      byUrl, successes, byContent, attempts, calls := map[], map[], map[], map[], [];
    }

    ghost function Value(): Batch
      reads this
    {
      Batch(byUrl, successes, byContent, attempts, calls)
    }
  }

  /** The scope of a request: the task that opened it, its group and its batch. */
  datatype RequestBatch = RequestBatch(task: nat, platform: string, groupId: string, batch: DisplayBatch)

  class ImageEnrichmentService {
    const enabled: bool
    const world: World
    const max: nat
    var requestBatch: Option<RequestBatch>

    constructor (enabled: bool, world: World, max: int)
      requires max >= 1
      ensures this.enabled == enabled && this.world == world && this.max == max && requestBatch == None
    {
      this.enabled, this.world, this.max := enabled, world, max;
      requestBatch := None;
    }

    /** The scope this task sees. Another task may carry the same request batch; it is not its own. */
    ghost function CurrentScope(task: nat): Option<Scope>
      reads this, if requestBatch.Some? then {requestBatch.value.batch} else {}
    {
      if requestBatch.Some? && requestBatch.value.task == task then
        var request := requestBatch.value;
        Some(Scope(request.platform, request.groupId, request.batch.Value()))
      else None
    }

    /** The start of `request_scope`: the token restores what was there before. */
    method EnterScope(task: nat, platform: string, groupId: string) returns (token: Option<RequestBatch>)
      modifies this
      ensures token == old(requestBatch)
      ensures requestBatch.Some? && fresh(requestBatch.value.batch)
      ensures CurrentScope(task) == Some(Scope(platform, groupId, EMPTY_BATCH))
      ensures forall other | other != task :: CurrentScope(other) == None
    {
      token := requestBatch;
      var batch := new DisplayBatch();
      requestBatch := Some(RequestBatch(task, platform, groupId, batch));
    }

    method ExitScope(token: Option<RequestBatch>)
      modifies this
      ensures requestBatch == token
    {
      requestBatch := token;
    }

    method EnrichMessages(task: nat, messages: seq<Message>) returns (enriched: seq<Message>)
      modifies if requestBatch.Some? then {requestBatch.value.batch} else {}
      ensures !enabled ==> enriched == messages && CurrentScope(task) == old(CurrentScope(task))
      ensures enabled ==> (enriched, CurrentScope(task)) == EnrichedAll(world, max, old(CurrentScope(task)), messages)
      ensures requestBatch.Some? && requestBatch.value.task != task ==>
                requestBatch.value.batch.Value() == old(requestBatch.value.batch.Value())
    {
      hide All, One, Local, CurrentScope;
      if !enabled {
        return messages;
      }
      var batches: map<BatchKey, DisplayBatch> := map[];
      NoneYet();
      ghost var whole := All(world, max, Batches(CurrentScope(task), map[]), messages, 0);
      enriched := [];
      assert messages[0..] == messages && enriched + whole.0 == whole.0;
      for index := 0 to |messages|
        invariant requestBatch == old(requestBatch)
        invariant requestBatch.Some? && requestBatch.value.task != task ==>
                    requestBatch.value.batch.Value() == old(requestBatch.value.batch.Value())
        invariant LocalOk(batches)
        invariant forall key | key in batches :: fresh(batches[key])
        invariant var rest := All(world, max, Batches(CurrentScope(task), Local(batches)), messages[index..], index);
                  whole == (enriched + rest.0, rest.1)
      {
        var message := messages[index];
        assert messages[index..][0] == message && messages[index..][1..] == messages[index + 1..];
        ghost var before := Batches(CurrentScope(task), Local(batches));
        var m;
        m, batches := EnrichNext(task, message, index, batches);
        Unfold(before, messages[index..], index);
        ghost var rest := All(world, max, Batches(CurrentScope(task), Local(batches)), messages[index + 1..], index + 1);
        assert enriched + ([m] + rest.0) == enriched + [m] + rest.0;
        enriched := enriched + [m];
      }
      assert messages[|messages|..] == [];
      Unfold(Batches(CurrentScope(task), Local(batches)), [], |messages|);
      assert enriched + [] == enriched;
    }

    /** The body of the loop: the message is enriched with the request's batch or its own. */
    method EnrichNext(task: nat, message: Message, index: nat, batches: map<BatchKey, DisplayBatch>)
      returns (enriched: Message, more: map<BatchKey, DisplayBatch>)
      requires LocalOk(batches)
      modifies batches.Values, if requestBatch.Some? then {requestBatch.value.batch} else {}
      ensures LocalOk(more)
      ensures forall key | key in more :: fresh(more[key]) || (key in batches && more[key] == batches[key])
      ensures requestBatch.Some? && requestBatch.value.task != task ==>
                requestBatch.value.batch.Value() == old(requestBatch.value.batch.Value())
      ensures (enriched, Batches(CurrentScope(task), Local(more)))
              == One(world, max, old(Batches(CurrentScope(task), Local(batches))), message, index)
    {
      hide Enriched;
      more := batches;
      ghost var local := Local(batches);
      if requestBatch.Some? && requestBatch.value.task == task && requestBatch.value.platform == message.platform
         && message.context.groupId == Some(requestBatch.value.groupId) {
        enriched := EnrichMessage(message, requestBatch.value.batch);
        assert Local(more) == local;
      } else {
        var key := KeyFor(message, index);
        more := SetDefault(batches, key);
        assert Local(more)[key] == BatchFor(local, key);
        enriched := EnrichLocal(message, key, more);
        ghost var start := BatchFor(local, key);
        assert Local(more) == local[key := Enriched(world, max, start, message).1];
      }
    }

    method EnrichLocal(
        message: Message, key: BatchKey, batches: map<BatchKey, DisplayBatch>) returns (enriched: Message)
      requires LocalOk(batches) && key in batches
      modifies batches[key]
      ensures LocalOk(batches)
      ensures requestBatch.Some? ==> requestBatch.value.batch.Value() == old(requestBatch.value.batch.Value())
      ensures var (m, after) := Enriched(world, max, old(Local(batches))[key], message);
              enriched == m && Local(batches) == old(Local(batches))[key := after]
    {
      hide Enriched;
      enriched := EnrichMessage(message, batches[key]);
    }

    lemma NoneYet()
      ensures Local(map[]) == map[]
    {
    }

    /** `batches.setdefault(key, _DisplayBatch())`. */
    method SetDefault(batches: map<BatchKey, DisplayBatch>, key: BatchKey) returns (more: map<BatchKey, DisplayBatch>)
      requires LocalOk(batches)
      ensures LocalOk(more) && key in more
      ensures forall other | other in more :: fresh(more[other]) || (other in batches && more[other] == batches[other])
      ensures Local(more) == Local(batches)[key := BatchFor(Local(batches), key)]
    {
      more := batches;
      if key !in batches {
        var batch := new DisplayBatch();
        more := batches[key := batch];
      }
    }

    lemma Unfold(state: Batches, messages: seq<Message>, index: nat)
      ensures All(world, max, state, messages, index)
              == if messages == [] then ([], state)
                 else var (first, told) := One(world, max, state, messages[0], index);
                      var (rest, after) := All(world, max, told, messages[1..], index + 1);
                      ([first] + rest, after)
    {
    }

    /** Every key has a batch of its own, and none has the request's. */
    ghost predicate LocalOk(batches: map<BatchKey, DisplayBatch>)
      reads this
    {
      && (forall key | key in batches :: requestBatch.Some? ==> batches[key] != requestBatch.value.batch)
      && (forall key, other | key in batches && other in batches && key != other :: batches[key] != batches[other])
    }

    ghost function Local(batches: map<BatchKey, DisplayBatch>): map<BatchKey, Batch>
      reads batches.Values
    {
      map key | key in batches :: batches[key].Value()
    }

    method EnrichMessage(message: Message, cache: DisplayBatch) returns (enriched: Message)
      modifies cache
      ensures (enriched, cache.Value()) == Enriched(world, max, old(cache.Value()), message)
    {
      var segments := EnrichSegments(message.segments, cache, false, false);
      enriched := message.(segments := segments);
    }

    method EnrichSegments(segments: seq<Segment>, cache: DisplayBatch, forwardDisplay: bool, quoted: bool)
      returns (enriched: seq<Segment>)
      modifies cache
      ensures (enriched, cache.Value())
              == Walk(world, Cached(world, max), old(cache.Value()), segments, forwardDisplay, quoted)
      decreases segments, 1
    {
      hide WalkOne, Display;
      ghost var whole := Walk(world, Cached(world, max), cache.Value(), segments, forwardDisplay, quoted);
      enriched := [];
      assert segments[0..] == segments && enriched + whole.0 == whole.0;
      for index := 0 to |segments|
        invariant var rest := Walk(world, Cached(world, max), cache.Value(), segments[index..], forwardDisplay, quoted);
                  whole == (enriched + rest.0, rest.1)
      {
        var segment := segments[index];
        assert segments[index..][0] == segment && segments[index..][1..] == segments[index + 1..];
        var replacement := EnrichOne(segment, cache, forwardDisplay, quoted);
        ghost var rest := Walk(world, Cached(world, max), cache.Value(), segments[index + 1..], forwardDisplay, quoted);
        assert enriched + ([replacement] + rest.0) == enriched + [replacement] + rest.0;
        enriched := enriched + [replacement];
      }
      assert enriched + [] == enriched;
    }

    /** The body of the loop of EnrichSegments. */
    method EnrichOne(segment: Segment, cache: DisplayBatch, forwardDisplay: bool, quoted: bool)
      returns (enriched: Segment)
      modifies cache
      ensures (enriched, cache.Value())
              == WalkOne(world, Cached(world, max), old(cache.Value()), segment, forwardDisplay, quoted)
      decreases segment, 2
    {
      hide Display, Walk, WalkNodes, PlainImage;
      if segment.Text? && (forwardDisplay || (quoted && world.isForwardDisplay(TextOf(segment.text)))) {
        enriched := DescribeDisplay(segment, cache);
      } else {
        enriched := EnrichSegment(segment, cache, forwardDisplay, quoted);
      }
    }

    method EnrichSegment(segment: Segment, cache: DisplayBatch, ghost forwardDisplay: bool, ghost quoted: bool)
      returns (enriched: Segment)
      requires segment.Text? ==> !forwardDisplay && !(quoted && world.isForwardDisplay(TextOf(segment.text)))
      modifies cache
      ensures (enriched, cache.Value())
              == WalkOne(world, Cached(world, max), old(cache.Value()), segment, forwardDisplay, quoted)
      decreases segment, 1
    {
      hide Display, Walk, WalkNodes, PlainImage;
      match segment {
        case Image(_, _, _, _, _, _, _, _, _, _, _) =>
          enriched := Describe(segment, cache);
        case Reply(_, _, _, _, _, Some(resolved), _) =>
          var inner := EnrichSegments(resolved.segments, cache, false, true);
          enriched := segment.(resolvedMessage := Some(resolved.(segments := inner)));
        case Forward(_, _, _, _, _, content, nodes, _) =>
          var shown := EnrichSegments(content, cache, true, false);
          var inner := EnrichNodes(nodes, cache);
          enriched := segment.(content := shown, nodes := inner);
        case _ =>
          enriched := segment;
      }
    }

    /** The loop over the nodes of a forward. */
    method EnrichNodes(nodes: seq<ForwardNode>, cache: DisplayBatch) returns (enriched: seq<ForwardNode>)
      modifies cache
      ensures (enriched, cache.Value()) == WalkNodes(world, Cached(world, max), old(cache.Value()), nodes)
      decreases nodes, 1
    {
      hide Walk;
      ghost var whole := WalkNodes(world, Cached(world, max), cache.Value(), nodes);
      enriched := [];
      assert nodes[0..] == nodes && enriched + whole.0 == whole.0;
      for index := 0 to |nodes|
        invariant var rest := WalkNodes(world, Cached(world, max), cache.Value(), nodes[index..]);
                  whole == (enriched + rest.0, rest.1)
      {
        assert nodes[index..][0] == nodes[index] && nodes[index..][1..] == nodes[index + 1..];
        var content := EnrichSegments(nodes[index].content, cache, true, false);
        var node := nodes[index].(content := content);
        ghost var rest := WalkNodes(world, Cached(world, max), cache.Value(), nodes[index + 1..]);
        assert enriched + ([node] + rest.0) == enriched + [node] + rest.0;
        enriched := enriched + [node];
      }
      assert enriched + [] == enriched;
    }

    method DescribeDisplay(segment: Segment, cache: DisplayBatch) returns (enriched: Segment)
      requires segment.Text?
      modifies cache
      ensures (enriched, cache.Value()) == Display(world, Cached(world, max), old(cache.Value()), segment)
    {
      hide Described;
      var lines, text, changed := world.lines(TextOf(segment.text)), "", false;
      ghost var whole := Lines(world, Cached(world, max), cache.Value(), segment.position, lines);
      assert lines[0..] == lines && text + whole.0 == whole.0;
      for index := 0 to |lines|
        invariant var rest := Lines(world, Cached(world, max), cache.Value(), segment.position, lines[index..]);
                  whole == (text + rest.0, rest.1)
        invariant HasUrl(world, lines) == (changed || HasUrl(world, lines[index..]))
      {
        var line := lines[index];
        assert lines[index..][0] == line && lines[index..][1..] == lines[index + 1..];
        var url := world.urlOf(line);
        if url.None? {
          ghost var rest := Lines(world, Cached(world, max), cache.Value(), segment.position, lines[index + 1..]);
          assert text + (line + rest.0) == text + line + rest.0;
          text := text + line;
        } else {
          changed := true;
          var description := DescribeUrl(url.value, segment.position, cache);
          var shown := world.withDescription(line, description);
          ghost var rest := Lines(world, Cached(world, max), cache.Value(), segment.position, lines[index + 1..]);
          assert text + (shown + rest.0) == text + shown + rest.0;
          text := text + shown;
        }
      }
      assert text + "" == text;
      enriched := if changed then segment.(text := Str(text)) else segment;
    }

    /** One image line: the cache, the budget and the attempts. */
    method DescribeUrl(url: string, position: int, cache: DisplayBatch) returns (description: string)
      modifies cache
      ensures (description, cache.Value()) == Described(world, max, old(cache.Value()), position, url)
    {
      hide Attempt;
      var key := world.keyOf(url);
      if key in cache.successes {
        description := cache.successes[key];
      } else if url in cache.byUrl {
        description := cache.byUrl[url];
      } else if key !in cache.attempts && |cache.attempts| >= max {
        description := OVER_BUDGET;
      } else if key in cache.attempts && cache.attempts[key] >= 2 {
        description := TRIED_TWICE;
      } else {
        cache.attempts := cache.attempts[key := (if key in cache.attempts then cache.attempts[key] else 0) + 1];
        var outcome := DescribeDisplayImage(url, cache, position);
        description := outcome.text;
        cache.byUrl := cache.byUrl[url := description];
        if outcome.success {
          cache.successes := cache.successes[key := description];
        }
      }
    }

    method DescribeDisplayImage(url: string, cache: DisplayBatch, position: int) returns (outcome: Outcome)
      modifies cache
      ensures (outcome, cache.Value()) == Attempt(world, old(cache.Value()), position, url)
      ensures cache.byUrl == old(cache.byUrl) && cache.successes == old(cache.successes)
    {
      hide PictureAt, Seen;
      var answer := PictureAt(world, cache.calls, position, url);
      cache.calls := cache.calls + [Fetch(url)];
      if answer.Err? {
        outcome := answer.error;
        cache.calls := cache.calls + [Done(url, false)];
        return;
      }
      var digest := world.digest(answer.value);
      if digest in cache.byContent {
        outcome := Outcome(cache.byContent[digest], true);
      } else {
        outcome := Seen(world, cache.calls, answer.value);
        if outcome.success {
          cache.byContent := cache.byContent[digest := outcome.text];
        }
        cache.calls := cache.calls + [Look(digest, outcome.success)];
      }
      cache.calls := cache.calls + [Done(url, outcome.success)];
    }

    method Describe(image: Segment, cache: DisplayBatch) returns (described: Segment)
      requires image.Image?
      modifies cache
      ensures (described, cache.Value()) == PlainImage(world, old(cache.Value()), image)
    {
      if Truthy(image.description) {
        return image;
      }
      var answer := world.resolve(cache.calls, image);
      cache.calls := cache.calls + [FetchPlain(image)];
      if answer.Err? {
        return image.(description := Str(UNAVAILABLE));
      }
      var seen := world.describe(cache.calls, answer.value);
      cache.calls := cache.calls + [LookPlain(answer.value)];
      described := image.(description := Str(if seen.Ok? then seen.value else UNAVAILABLE));
    }
  }
}
