/** The summary service class: prompts appended by a recursive helper, loops over provider calls,
    and the merge with its sets of seen items. */
module SummaryService {
  import opened Values
  import opened Domain
  import opened Sequences
  import opened Summary
  import opened SummaryRun

  /** The list the recursive helper appends to. */
  class PromptList {
    var prompts: seq<string>

    constructor ()
      ensures prompts == []
    {
      prompts := [];
    }
  }

  class Service {
    const setup: Setup
    var calls: seq<Request>

    constructor (setup: Setup)
      requires setup.Valid()
      ensures this.setup == setup && calls == []
    {
      this.setup := setup;
      calls := [];
    }

    method Summarize(stored: seq<Message>, limit: int) returns (result: Result<SummaryResult, SummaryError>)
      requires setup.Valid()
      modifies this
      ensures (result, calls) == Summarized(setup, old(calls), stored, limit)
    {
      hide Chunks, CallAll, Synthesized, Whole;
      if limit < 1 || limit > setup.maxMessages {
        return Err(InvalidLimit);
      }
      var fetched := if |stored| <= limit + 1 then stored else stored[..limit + 1];
      if |fetched| > limit {
        return Err(WindowTooLarge);
      }
      if fetched == [] {
        return Ok(EMPTY_RESULT);
      }
      var messages := setup.enrich(fetched);
      if |setup.windowPrompt(messages)| <= setup.maxInputChars {
        result := FinalSummarize(messages);
        return;
      }
      var prompts := ChunkPrompts(messages);
      if prompts.None? {
        return Err(WindowTooLarge);
      }
      ChunksCoverTheWindow(setup, messages);
      var answers := CompleteAll(prompts.value);
      if answers.Err? {
        return Err(answers.error);
      }
      CallAllAnswers(setup, old(calls), prompts.value);
      result := Synthesize(messages, answers.value);
    }

    method Complete(request: Request) returns (answer: Result<Answer, SummaryError>)
      modifies this
      ensures (answer, calls) == Call(setup, old(calls), request)
    {
      var response := setup.complete(calls, request);
      calls := calls + [request];
      if response.None? {
        return Err(ProviderFailed);
      }
      var payload := Validated(setup, response.value);
      if payload.None? {
        return Err(InvalidResponse);
      }
      answer := Ok(Answer(payload.value, response.value));
    }

    method CompleteAll(prompts: seq<string>) returns (answers: Result<seq<Answer>, SummaryError>)
      modifies this
      ensures (answers, calls) == CallAll(setup, old(calls), prompts)
    {
      hide Call;
      var done: seq<Answer> := [];
      ghost var whole := CallAll(setup, calls, prompts);
      assert prompts[0..] == prompts;
      NoAnswers(whole.0);
      for k := 0 to |prompts|
        invariant var rest := CallAll(setup, calls, prompts[k..]);
                  whole == (After(done, rest.0), rest.1)
      {
        assert prompts[k..][0] == prompts[k] && prompts[k..][1..] == prompts[k + 1..];
        var answer := Complete(Request(Summarizing, prompts[k]));
        if answer.Err? {
          return Err(answer.error);
        }
        MoreAnswers(done, answer.value, CallAll(setup, calls, prompts[k + 1..]).0);
        done := done + [answer.value];
      }
      assert done + [] == done;
      answers := Ok(done);
    }

    method ChunkPrompts(messages: seq<Message>) returns (prompts: Option<seq<string>>)
      requires setup.chunkMessages >= 1
      ensures prompts == match Chunks(setup, messages)
                         case None => None
                         case Some(chunks) => Some(Prompts(setup, chunks))
    {
      hide Halved;
      var list := new PromptList();
      var chunks := SplitMessages(messages, setup.chunkMessages);
      SplitIsNonEmpty(messages, setup.chunkMessages);
      ghost var made: seq<seq<Message>> := [];
      assert chunks[0..] == chunks;
      ChunksAfter(made, AllHalved(setup, chunks));
      for k := 0 to |chunks|
        invariant list.prompts == Prompts(setup, made)
        invariant ChunksOf(made, AllHalved(setup, chunks[k..])) == AllHalved(setup, chunks)
      {
        assert chunks[k..][0] == chunks[k] && chunks[k..][1..] == chunks[k + 1..];
        var fits := AppendChunk(chunks[k], list);
        if !fits {
          return None;
        }
        MoreChunks(made, Halved(setup, chunks[k]).value, AllHalved(setup, chunks[k + 1..]));
        made := made + Halved(setup, chunks[k]).value;
      }
      assert made + [] == made;
      prompts := Some(list.prompts);
    }

    method AppendChunk(chunk: seq<Message>, list: PromptList) returns (fits: bool)
      requires chunk != []
      modifies list
      ensures fits == Halved(setup, chunk).Some?
      ensures fits ==> list.prompts == old(list.prompts) + Prompts(setup, Halved(setup, chunk).value)
      decreases |chunk|
    {
      var prompt := setup.chunkPrompt(chunk);
      if |prompt| <= setup.maxInputChars {
        list.prompts := list.prompts + [prompt];
        return true;
      }
      if |chunk| == 1 {
        return false;
      }
      var middle := |chunk| / 2;
      fits := AppendChunk(chunk[..middle], list);
      if fits {
        fits := AppendChunk(chunk[middle..], list);
      }
    }

    method FinalSummarize(messages: seq<Message>) returns (result: Result<SummaryResult, SummaryError>)
      modifies this
      ensures (result, calls) == Whole(setup, old(calls), messages)
    {
      hide Call;
      var answer := Complete(Request(Summarizing, setup.windowPrompt(messages)));
      if answer.Err? {
        return Err(answer.error);
      }
      var response := answer.value.response;
      result := Ok(ResultOf(|messages|, |setup.rendered(messages)|, answer.value.payload, response, response.finishReason,
                            if response.usage.Some? then response.usage.value else Usage(None, None, None)));
    }

    method Synthesize(
        messages: seq<Message>, answers: seq<Answer>) returns (result: Result<SummaryResult, SummaryError>)
      requires answers != []
      modifies this
      ensures (result, calls) == Synthesized(setup, old(calls), messages, answers)
    {
      hide Call, Union, TotalUsage;
      var prompt := setup.synthesisPrompt(Payloads(answers));
      var inputChars := |setup.rendered(messages)|;
      if |prompt| > setup.maxInputChars {
        var merged := UnionPayloads(Payloads(answers));
        return Ok(ResultOf(|messages|, inputChars, merged, answers[|answers| - 1].response,
                           Some("deterministic_merge"), TotalUsage(answers)));
      }
      var answer := Complete(Request(Synthesizing, prompt));
      if answer.Err? {
        return Err(answer.error);
      }
      var last := answer.value;
      result := Ok(ResultOf(|messages|, inputChars, last.payload, last.response, last.response.finishReason,
                            TotalUsage(answers + [last])));
    }
  }

  // ----- the helpers of the module -----

  method SplitMessages(messages: seq<Message>, size: nat) returns (chunks: seq<seq<Message>>)
    requires size >= 1
    ensures chunks == Split(messages, size)
  {
    chunks := [];
    var index := 0;
    assert messages[0..] == messages;
    while index < |messages|
      invariant 0 <= index <= |messages|
      invariant chunks + Split(messages[index..], size) == Split(messages, size)
    {
      var stop := if index + size <= |messages| then index + size else |messages|;
      SplitStep(messages[index..], size);
      assert messages[index..][..stop - index] == messages[index..stop];
      assert messages[index..][stop - index..] == messages[stop..];
      chunks := chunks + [messages[index..stop]];
      index := stop;
    }
  }

  lemma SplitStep(rest: seq<Message>, size: nat)
    requires size >= 1 && rest != []
    ensures var stop := if size <= |rest| then size else |rest|;
            Split(rest, size) == [rest[..stop]] + Split(rest[stop..], size)
  {
    if |rest| <= size {
      assert rest[..|rest|] == rest && Split(rest[|rest|..], size) == [];
    }
  }

  /** One list without what was seen before, in first-seen order. */
  method DedupStrings(sources: seq<seq<string>>) returns (result: seq<string>)
    ensures result == Distinct(Flatten(sources))
  {
    hide Distinct;
    var seen: set<string> := {};
    result := [];
    assert sources[..0] == [] && sources[..|sources|] == sources;
    NothingDistinct();
    for k := 0 to |sources|
      invariant result == Distinct(Flatten(sources[..k]))
      invariant forall x :: x in seen <==> x in result
    {
      var source := sources[k];
      ghost var before := Flatten(sources[..k]);
      assert before + source[..0] == before && source[..|source|] == source;
      for i := 0 to |source|
        invariant result == Distinct(before + source[..i])
        invariant forall x :: x in seen <==> x in result
      {
        assert before + source[..i + 1] == (before + source[..i]) + [source[i]];
        DistinctMore(before + source[..i], source[i]);
        if source[i] !in seen {
          seen := seen + {source[i]};
          result := result + [source[i]];
        }
      }
      FlattenAppend(sources, k);
    }
  }

  lemma NothingDistinct()
    ensures Distinct<string>([]) == []
  {
  }

  lemma FlattenAppend<T>(lists: seq<seq<T>>, k: nat)
    requires k < |lists|
    ensures Flatten(lists[..k + 1]) == Flatten(lists[..k]) + lists[k]
  {
    assert lists[..k + 1] == lists[..k] + [lists[k]];
    FlattenMore(lists[..k], [lists[k]]);
    FlattenOne(lists[k]);
  }

  method UnionPayloads(payloads: seq<Payload>) returns (merged: Payload)
    ensures merged == Union(payloads)
  {
    hide Distinct, Flatten, Lists, Sections, Join;
    var sections := NonEmptySummaries(payloads);
    var actions := DedupActions(payloads);
    var topics := DedupStrings(Lists(payloads, (p: Payload) => p.topics));
    var keyPoints := DedupStrings(Lists(payloads, (p: Payload) => p.keyPoints));
    var decisions := DedupStrings(Lists(payloads, (p: Payload) => p.decisions));
    var questions := DedupStrings(Lists(payloads, (p: Payload) => p.questions));
    merged := Payload(Join(sections), topics, keyPoints, decisions, actions, questions);
  }

  method NonEmptySummaries(payloads: seq<Payload>) returns (sections: seq<string>)
    ensures sections == Sections(payloads)
  {
    hide Sections;
    sections := [];
    assert payloads[..0] == [] && payloads[..|payloads|] == payloads;
    OneSection([]);
    for k := 0 to |payloads|
      invariant sections == Sections(payloads[..k])
    {
      assert payloads[..k + 1] == payloads[..k] + [payloads[k]];
      SectionsMore(payloads[..k], [payloads[k]]);
      OneSection([payloads[k]]);
      if payloads[k].summary != "" {
        sections := sections + [payloads[k].summary];
      }
    }
  }

  lemma OneSection(payloads: seq<Payload>)
    requires |payloads| <= 1
    ensures Sections(payloads) == if payloads == [] || payloads[0].summary == "" then [] else [payloads[0].summary]
  {
  }

  type ActionKey = (string, Option<string>, Option<string>)

  function KeyOf(item: ActionItem): ActionKey {
    (item.description, item.owner, item.deadline)
  }

  ghost function KeysOf(actions: seq<ActionItem>): set<ActionKey> {
    set item | item in actions :: KeyOf(item)
  }

  lemma KeysMore(actions: seq<ActionItem>, item: ActionItem)
    ensures KeysOf(actions + [item]) == KeysOf(actions) + {KeyOf(item)}
    ensures KeyOf(item) in KeysOf(actions) <==> item in actions
  {
  }

  /** The loop over the action items, keyed by description, owner and deadline. */
  method DedupActions(payloads: seq<Payload>) returns (actions: seq<ActionItem>)
    ensures actions == Distinct(Flatten(Lists(payloads, (p: Payload) => p.actions)))
  {
    hide Distinct, Flatten, KeysOf;
    var seen: set<ActionKey> := {};
    ghost var lists := Lists(payloads, (p: Payload) => p.actions);
    actions := [];
    NoActions();
    assert lists[..0] == [] && lists[..|lists|] == lists;
    for k := 0 to |payloads|
      invariant actions == Distinct(Flatten(lists[..k]))
      invariant seen == KeysOf(actions)
    {
      actions, seen := AddActions(payloads[k].actions, actions, seen, Flatten(lists[..k]));
      FlattenAppend(lists, k);
    }
  }

  lemma NoActions()
    ensures Distinct(Flatten<ActionItem>([])) == [] && KeysOf([]) == {}
  {
  }

  /** The inner loop: the items of one payload after `before`. */
  method AddActions(
      items: seq<ActionItem>, actions: seq<ActionItem>, seen: set<ActionKey>, ghost before: seq<ActionItem>)
    returns (more: seq<ActionItem>, known: set<ActionKey>)
    requires actions == Distinct(before) && seen == KeysOf(actions)
    ensures more == Distinct(before + items) && known == KeysOf(more)
  {
    hide Distinct, KeysOf;
    more, known := actions, seen;
    assert before + items[..0] == before && items[..|items|] == items;
    for i := 0 to |items|
      invariant more == Distinct(before + items[..i]) && known == KeysOf(more)
    {
      assert before + items[..i + 1] == (before + items[..i]) + [items[i]];
      DistinctMore(before + items[..i], items[i]);
      KeysMore(more, items[i]);
      if KeyOf(items[i]) !in known {
        known := known + {KeyOf(items[i])};
        more := more + [items[i]];
      }
    }
  }

  // ----- gluing what is done in front of the rest -----

  ghost function After(done: seq<Answer>, rest: Result<seq<Answer>, SummaryError>): Result<seq<Answer>, SummaryError> {
    match rest case Err(error) => Err(error) case Ok(answers) => Ok(done + answers)
  }

  lemma NoAnswers(rest: Result<seq<Answer>, SummaryError>)
    ensures After([], rest) == rest
  {
    if rest.Ok? {
      assert [] + rest.value == rest.value;
    }
  }

  lemma MoreAnswers(done: seq<Answer>, answer: Answer, rest: Result<seq<Answer>, SummaryError>)
    ensures After(done, After([answer], rest)) == After(done + [answer], rest)
  {
    if rest.Ok? {
      assert done + ([answer] + rest.value) == done + [answer] + rest.value;
    }
  }

  ghost function ChunksOf(made: seq<seq<Message>>, rest: Option<seq<seq<Message>>>): Option<seq<seq<Message>>> {
    match rest case None => None case Some(chunks) => Some(made + chunks)
  }

  lemma ChunksAfter(made: seq<seq<Message>>, rest: Option<seq<seq<Message>>>)
    requires made == []
    ensures ChunksOf(made, rest) == rest
  {
    if rest.Some? {
      assert [] + rest.value == rest.value;
    }
  }

  lemma MoreChunks(made: seq<seq<Message>>, more: seq<seq<Message>>, rest: Option<seq<seq<Message>>>)
    ensures ChunksOf(made, ChunksOf(more, rest)) == ChunksOf(made + more, rest)
  {
    if rest.Some? {
      assert made + (more + rest.value) == made + more + rest.value;
    }
  }
}
