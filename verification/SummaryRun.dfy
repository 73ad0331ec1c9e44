/** One call of the summary service, as a function of everything the provider was asked before. */
module SummaryRun {
  import opened Values
  import opened Domain
  import opened Sequences
  import opened Summary

  // ----- provider calls -----

  function Validated(setup: Setup, response: Response): Option<Payload> {
    if response.finishReason == Some("length") then None else setup.parse(response.content)
  }

  datatype Answer = Answer(payload: Payload, response: Response)

  function Call(setup: Setup, calls: seq<Request>, request: Request): (Result<Answer, SummaryError>, seq<Request>) {
    (match setup.complete(calls, request)
     case None => Err(ProviderFailed)
     case Some(response) =>
       match Validated(setup, response)
       case None => Err(InvalidResponse)
       case Some(payload) => Ok(Answer(payload, response)),
     calls + [request])
  }

  function CallAll(setup: Setup, calls: seq<Request>, prompts: seq<string>)
    : (Result<seq<Answer>, SummaryError>, seq<Request>)
    decreases |prompts|
  {
    if prompts == [] then (Ok([]), calls)
    else
      var (first, told) := Call(setup, calls, Request(Summarizing, prompts[0]));
      if first.Err? then (Err(first.error), told)
      else
        var (rest, after) := CallAll(setup, told, prompts[1..]);
        (match rest case Err(error) => Err(error) case Ok(answers) => Ok([first.value] + answers), after)
  }

  function Payloads(answers: seq<Answer>): seq<Payload> {
    seq(|answers|, i requires 0 <= i < |answers| => answers[i].payload)
  }

  /** The sum of a usage field, unknown as soon as one answer does not report it. */
  function Total(answers: seq<Answer>, field: Usage -> Option<int>): Option<int> {
    if answers == [] then Some(0)
    else
      var first := if answers[0].response.usage.None? then None else field(answers[0].response.usage.value);
      var rest := Total(answers[1..], field);
      if first.None? || rest.None? then None else Some(first.value + rest.value)
  }

  function TotalUsage(answers: seq<Answer>): Usage {
    Usage(Total(answers, (u: Usage) => u.prompt), Total(answers, (u: Usage) => u.completion),
          Total(answers, (u: Usage) => u.total))
  }

  // ----- one call -----

  const EMPTY_RESULT :=
    SummaryResult(0, Payload(EMPTY_SUMMARY, [], [], [], [], []), "none", "none", None, 0, Usage(None, None, None))

  function ResultOf(count: nat, inputChars: nat, payload: Payload, response: Response, finishReason: Option<string>,
                    usage: Usage): SummaryResult
  {
    SummaryResult(count, payload, response.provider, response.model, finishReason, inputChars, usage)
  }

  /** `_final_summarize`. */
  function Whole(setup: Setup, calls: seq<Request>, messages: seq<Message>)
    : (Result<SummaryResult, SummaryError>, seq<Request>)
  {
    var (answer, after) := Call(setup, calls, Request(Summarizing, setup.windowPrompt(messages)));
    (match answer
     case Err(error) => Err(error)
     case Ok(Answer(payload, response)) =>
       Ok(ResultOf(|messages|, |setup.rendered(messages)|, payload, response, response.finishReason,
                   if response.usage.Some? then response.usage.value else Usage(None, None, None))),
     after)
  }

  /** `_synthesize`: a last call, or the deterministic merge when its prompt is too long. */
  function Synthesized(setup: Setup, calls: seq<Request>, messages: seq<Message>, answers: seq<Answer>)
    : (Result<SummaryResult, SummaryError>, seq<Request>)
    requires answers != []
  {
    var prompt, inputChars := setup.synthesisPrompt(Payloads(answers)), |setup.rendered(messages)|;
    if |prompt| > setup.maxInputChars then
      (Ok(ResultOf(|messages|, inputChars, Union(Payloads(answers)), answers[|answers| - 1].response,
                   Some("deterministic_merge"), TotalUsage(answers))), calls)
    else
      var (answer, after) := Call(setup, calls, Request(Synthesizing, prompt));
      (match answer
       case Err(error) => Err(error)
       case Ok(last) =>
         Ok(ResultOf(|messages|, inputChars, last.payload, last.response, last.response.finishReason,
                     TotalUsage(answers + [last]))),
       after)
  }

  lemma {:induction false} CallAllAnswers(setup: Setup, calls: seq<Request>, prompts: seq<string>)
    ensures CallAll(setup, calls, prompts).0.Ok? ==> |CallAll(setup, calls, prompts).0.value| == |prompts|
    decreases |prompts|
  {
    hide Call;
    if prompts != [] {
      CallAllAnswers(setup, Call(setup, calls, Request(Summarizing, prompts[0])).1, prompts[1..]);
    }
  }

  /** A window that does not fit in one prompt. */
  function InChunks(setup: Setup, calls: seq<Request>, messages: seq<Message>)
    : (Result<SummaryResult, SummaryError>, seq<Request>)
    requires setup.chunkMessages >= 1 && messages != []
  {
    var chunks := Chunks(setup, messages);
    if chunks.None? then (Err(WindowTooLarge), calls)
    else
      ChunksCoverTheWindow(setup, messages);
      CallAllAnswers(setup, calls, Prompts(setup, chunks.value));
      var (answers, after) := CallAll(setup, calls, Prompts(setup, chunks.value));
      if answers.Err? then (Err(answers.error), after)
      else Synthesized(setup, after, messages, answers.value)
  }

  /** `summarize`, given the stored messages of the window in order. */
  function Summarized(setup: Setup, calls: seq<Request>, stored: seq<Message>, limit: int)
    : (Result<SummaryResult, SummaryError>, seq<Request>)
    requires setup.Valid()
  {
    if limit < 1 || limit > setup.maxMessages then (Err(InvalidLimit), calls)
    else
      var fetched := if |stored| <= limit + 1 then stored else stored[..limit + 1];
      if |fetched| > limit then (Err(WindowTooLarge), calls)
      else if fetched == [] then (Ok(EMPTY_RESULT), calls)
      else
        var messages := setup.enrich(fetched);
        if |setup.windowPrompt(messages)| <= setup.maxInputChars then Whole(setup, calls, messages)
        else InChunks(setup, calls, messages)
  }

  // ----- what a call promises -----

  /** The calls added since, all within the prompt limit. */
  ghost predicate Added(setup: Setup, before: seq<Request>, after: seq<Request>) {
    && before <= after
    && forall i | |before| <= i < |after| :: |after[i].userPrompt| <= setup.maxInputChars
  }

  ghost predicate AllShort(setup: Setup, prompts: seq<string>) {
    forall i | 0 <= i < |prompts| :: |prompts[i]| <= setup.maxInputChars
  }

  function Requests(prompts: seq<string>): seq<Request> {
    seq(|prompts|, i requires 0 <= i < |prompts| => Request(Summarizing, prompts[i]))
  }

  lemma {:induction false} CallAllAdds(setup: Setup, calls: seq<Request>, prompts: seq<string>)
    requires AllShort(setup, prompts)
    ensures Added(setup, calls, CallAll(setup, calls, prompts).1)
    ensures CallAll(setup, calls, prompts).0.Ok? ==> CallAll(setup, calls, prompts).1 == calls + Requests(prompts)
    ensures CallAll(setup, calls, prompts).0.Err? ==> CallAll(setup, calls, prompts).0.error in {ProviderFailed, InvalidResponse}
    decreases |prompts|
  {
    if prompts != [] {
      var (first, told) := Call(setup, calls, Request(Summarizing, prompts[0]));
      assert told == calls + [Request(Summarizing, prompts[0])];
      CallAllAdds(setup, told, prompts[1..]);
      assert Requests(prompts) == [Request(Summarizing, prompts[0])] + Requests(prompts[1..]);
      assert told + Requests(prompts[1..]) == calls + Requests(prompts);
    }
  }

  lemma ChunkPromptsAreShort(setup: Setup, messages: seq<Message>)
    requires setup.chunkMessages >= 1 && Chunks(setup, messages).Some?
    ensures AllShort(setup, Prompts(setup, Chunks(setup, messages).value))
  {
    ChunksCoverTheWindow(setup, messages);
  }

  lemma SynthesizedAdds(setup: Setup, calls: seq<Request>, messages: seq<Message>, answers: seq<Answer>)
    requires answers != []
    ensures var (result, after) := Synthesized(setup, calls, messages, answers);
            && Added(setup, calls, after) && |after| <= |calls| + 1
            && (result.Err? ==> result.error in {ProviderFailed, InvalidResponse})
            && (result.Ok? ==> result.value.messageCount == |messages|)
            && (result.Ok? && after == calls ==> result.value.payload == Union(Payloads(answers)))
  {
  }

  /** No text provider call is over budget, and a window reported as too large caused none. */
  lemma CallsAreBounded(setup: Setup, calls: seq<Request>, stored: seq<Message>, limit: int)
    requires setup.Valid()
    ensures var (result, after) := Summarized(setup, calls, stored, limit);
            && Added(setup, calls, after)
            && (result.Err? && result.error in {WindowTooLarge, InvalidLimit} ==> after == calls)
  {
    hide Chunks, CallAll, Synthesized;
    if 1 <= limit <= setup.maxMessages && 0 < |stored| <= limit {
      var messages := setup.enrich(stored);
      if |setup.windowPrompt(messages)| > setup.maxInputChars && Chunks(setup, messages).Some? {
        InChunksAdds(setup, calls, messages);
      }
    }
  }

  lemma InChunksAdds(setup: Setup, calls: seq<Request>, messages: seq<Message>)
    requires setup.chunkMessages >= 1 && messages != [] && Chunks(setup, messages).Some?
    ensures var (result, after) := InChunks(setup, calls, messages);
            Added(setup, calls, after) && (result.Err? ==> result.error in {ProviderFailed, InvalidResponse})
  {
    hide Chunks, CallAll, Synthesized, Prompts;
    var prompts := Prompts(setup, Chunks(setup, messages).value);
    ChunkPromptsAreShort(setup, messages);
    CallAllAdds(setup, calls, prompts);
    var (answers, after) := CallAll(setup, calls, prompts);
    ChunksCoverTheWindow(setup, messages);
    CallAllAnswers(setup, calls, prompts);
    PromptsCount(setup, Chunks(setup, messages).value);
    if answers.Ok? {
      SynthesizedAdds(setup, after, messages, answers.value);
    }
  }

  /** The requests of a summary: the whole window at once, or one for each chunk of a cover of it,
      in order, and at most one that merges them. */
  ghost predicate AsksForAll(setup: Setup, messages: seq<Message>, requests: seq<Request>)
    requires setup.chunkMessages >= 1
  {
    || requests == [Request(Summarizing, setup.windowPrompt(messages))]
    || exists chunks | Covers(setup, chunks, messages, setup.chunkMessages) ::
         InOrder(setup, chunks, requests)
  }

  ghost predicate InOrder(setup: Setup, chunks: seq<seq<Message>>, requests: seq<Request>) {
    |chunks| <= |requests| <= |chunks| + 1 && requests[..|chunks|] == Requests(Prompts(setup, chunks))
  }

  lemma InChunksAsksForAll(setup: Setup, calls: seq<Request>, messages: seq<Message>)
    requires setup.chunkMessages >= 1 && messages != [] && InChunks(setup, calls, messages).0.Ok?
    ensures var (result, after) := InChunks(setup, calls, messages);
            && calls <= after && AsksForAll(setup, messages, after[|calls|..])
            && result.value.messageCount == |messages|
  {
    hide Chunks, CallAll, Synthesized, Covers, Prompts;
    var chunks := Chunks(setup, messages).value;
    var prompts := Prompts(setup, chunks);
    ChunksCoverTheWindow(setup, messages);
    ChunkPromptsAreShort(setup, messages);
    CallAllAdds(setup, calls, prompts);
    var (answers, told) := CallAll(setup, calls, prompts);
    CallAllAnswers(setup, calls, prompts);
    PromptsCount(setup, chunks);
    CoverOfSome(setup, chunks, messages);
    SynthesizedAdds(setup, told, messages, answers.value);
    var after := InChunks(setup, calls, messages).1;
    assert after[|calls|..][..|chunks|] == Requests(prompts);
    assert InOrder(setup, chunks, after[|calls|..]);
  }

  lemma CoverOfSome(setup: Setup, chunks: seq<seq<Message>>, messages: seq<Message>)
    requires setup.chunkMessages >= 1 && messages != [] && Covers(setup, chunks, messages, setup.chunkMessages)
    ensures chunks != []
  {
  }

  lemma PromptsCount(setup: Setup, chunks: seq<seq<Message>>)
    ensures |Prompts(setup, chunks)| == |chunks|
  {
  }

  /** A summary that is returned counts every message of the window, and every message was put in
      front of the provider exactly once, in order. */
  lemma {:induction false} SummaryCoversTheWindow(setup: Setup, calls: seq<Request>, stored: seq<Message>, limit: int)
    requires setup.Valid()
    ensures var (result, after) := Summarized(setup, calls, stored, limit);
            result.Ok? ==>
              && |stored| <= limit && result.value.messageCount == |stored| && calls <= after
              && (if stored == [] then after == calls
                  else AsksForAll(setup, setup.enrich(stored), after[|calls|..]))
  {
    hide Chunks, CallAll, Synthesized;
    if Summarized(setup, calls, stored, limit).0.Ok? && stored != [] {
      var messages := setup.enrich(stored);
      if |setup.windowPrompt(messages)| > setup.maxInputChars {
        InChunksAsksForAll(setup, calls, messages);
      }
    }
  }

  /** When a window is refused: too many messages, or a long window with a message that is over the
      limit in every block of it the splitting makes. */
  lemma RefusedExactly(setup: Setup, calls: seq<Request>, stored: seq<Message>, limit: int)
    requires setup.Valid() && 1 <= limit <= setup.maxMessages
    ensures Summarized(setup, calls, stored, limit).0 == Err(WindowTooLarge)
            <==> || |stored| > limit
                 || (stored != [] && |setup.windowPrompt(setup.enrich(stored))| > setup.maxInputChars
                     && exists i | 0 <= i < |setup.enrich(stored)| ::
                          NeverFitsIn(setup, setup.enrich(stored), setup.chunkMessages, i))
  {
    hide Chunks, CallAll, Synthesized, NeverFitsIn;
    if 0 < |stored| <= limit {
      var messages := setup.enrich(stored);
      ChunksFailExactly(setup, messages);
      if |setup.windowPrompt(messages)| > setup.maxInputChars && Chunks(setup, messages).Some? {
        InChunksAdds(setup, calls, messages);
      }
    }
  }

  lemma ChunksFailExactly(setup: Setup, messages: seq<Message>)
    requires setup.chunkMessages >= 1
    ensures Chunks(setup, messages).None?
            <==> exists i | 0 <= i < |messages| :: NeverFitsIn(setup, messages, setup.chunkMessages, i)
  {
    hide AllHalved, NeverFitsIn;
    ChunkingFailsExactly(setup, messages, setup.chunkMessages);
  }

  /** When a longer window never has a shorter prompt, that is a message that does not fit alone. */
  lemma RefusedExactlyWhenMonotone(setup: Setup, calls: seq<Request>, stored: seq<Message>, limit: int)
    requires setup.Valid() && 1 <= limit <= setup.maxMessages && Monotone(setup)
    ensures Summarized(setup, calls, stored, limit).0 == Err(WindowTooLarge)
            <==> || |stored| > limit
                 || (stored != [] && |setup.windowPrompt(setup.enrich(stored))| > setup.maxInputChars
                     && !EverySingleFits(setup, setup.enrich(stored)))
  {
    hide Chunks, Summarized, Monotone, EverySingleFits, NeverFitsIn;
    RefusedExactly(setup, calls, stored, limit);
    ChunksFailExactly(setup, setup.enrich(stored));
    ChunkingSucceedsExactly(setup, setup.enrich(stored));
  }
}
