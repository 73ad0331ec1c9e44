/** What a summary says is what the provider answered: which answers its payload, its usage and its other
    fields come from. */
module SummaryOutcome {
  import opened Values
  import opened Domain
  import opened Sequences
  import opened Summary
  import opened SummaryRun

  // ----- answers -----

  /** The provider's answer to the k-th request of this history. */
  ghost predicate Answered(setup: Setup, history: seq<Request>, k: nat, response: Response)
    requires k < |history|
  {
    setup.complete(history[..k], history[k]) == Some(response)
  }

  /** The answer is complete and parses to this payload. */
  ghost predicate ReadsAs(setup: Setup, response: Response, payload: Payload) {
    response.finishReason != Some("length") && setup.parse(response.content) == Some(payload)
  }

  /** These are the provider's answers to the requests from `from` on, and what they say. */
  ghost predicate AreTheAnswers(setup: Setup, history: seq<Request>, from: nat, responses: seq<Response>,
                                payloads: seq<Payload>)
  {
    && from + |responses| == |history| && |payloads| == |responses|
    && forall i | 0 <= i < |responses| ::
         Answered(setup, history, from + i, responses[i]) && ReadsAs(setup, responses[i], payloads[i])
  }

  // ----- usage -----

  function Sum(values: seq<int>): int {
    if values == [] then 0 else values[0] + Sum(values[1..])
  }

  /** The total of a field over all responses, or nothing if one of them does not report it. */
  ghost predicate IsTotal(responses: seq<Response>, field: Usage -> Option<int>, total: Option<int>) {
    if AllReport(responses, field) then total == Some(Sum(Reported(responses, field))) else total == None
  }

  ghost predicate AllReport(responses: seq<Response>, field: Usage -> Option<int>) {
    forall i | 0 <= i < |responses| :: Reports(responses[i], field)
  }

  ghost function Reported(responses: seq<Response>, field: Usage -> Option<int>): seq<int>
    requires AllReport(responses, field)
  {
    seq(|responses|, i requires 0 <= i < |responses| => field(responses[i].usage.value).value)
  }

  predicate Reports(response: Response, field: Usage -> Option<int>) {
    response.usage.Some? && field(response.usage.value).Some?
  }

  ghost predicate IsTotalUsage(responses: seq<Response>, usage: Usage) {
    && IsTotal(responses, (u: Usage) => u.prompt, usage.prompt)
    && IsTotal(responses, (u: Usage) => u.completion, usage.completion)
    && IsTotal(responses, (u: Usage) => u.total, usage.total)
  }

  // ----- the result -----

  /** The provider, model and finish reason are those of this response. */
  predicate Credits(result: SummaryResult, response: Response, finishReason: Option<string>) {
    result.provider == response.provider && result.model == response.model && result.finishReason == finishReason
  }

  /** One request for the whole window: the summary is what its answer says. */
  ghost predicate SaysTheAnswer(setup: Setup, messages: seq<Message>, requests: seq<Request>, responses: seq<Response>,
                                payloads: seq<Payload>, result: SummaryResult)
  {
    && requests == [Request(Summarizing, setup.windowPrompt(messages))] && |responses| == |payloads| == 1
    && result.payload == payloads[0] && Credits(result, responses[0], responses[0].finishReason)
    && result.usage == (if responses[0].usage.Some? then responses[0].usage.value else Usage(None, None, None))
  }

  /** One request for each chunk, then one that merges what they said: the summary is what the last answer
      says. When the merging prompt is too long the payloads are merged without asking. */
  ghost predicate MergesTheAnswers(setup: Setup, requests: seq<Request>, responses: seq<Response>, payloads: seq<Payload>,
                                   chunks: nat, result: SummaryResult)
  {
    && 1 <= chunks <= |requests| == |responses| == |payloads|
    && (forall i | 0 <= i < chunks :: requests[i].instructions == Summarizing)
    && IsTotalUsage(responses, result.usage)
    && var last, prompt := |responses| - 1, setup.synthesisPrompt(payloads[..chunks]);
       if |prompt| <= setup.maxInputChars then
         && |requests| == chunks + 1 && requests[chunks] == Request(Synthesizing, prompt)
         && result.payload == payloads[last] && Credits(result, responses[last], responses[last].finishReason)
       else
         && |requests| == chunks && result.payload == Union(payloads)
         && Credits(result, responses[last], Some("deterministic_merge"))
  }

  // ----- the steps -----

  function ResponsesOf(answers: seq<Answer>): seq<Response> {
    seq(|answers|, i requires 0 <= i < |answers| => answers[i].response)
  }

  lemma CallAnswers(setup: Setup, calls: seq<Request>, request: Request)
    ensures var (answer, after) := Call(setup, calls, request);
            && after == calls + [request]
            && (answer.Ok? ==> AreTheAnswers(setup, after, |calls|, [answer.value.response], [answer.value.payload]))
  {
    assert (calls + [request])[..|calls|] == calls;
  }

  lemma MoreAnswers(setup: Setup, history: seq<Request>, later: seq<Request>, from: nat, first: seq<Answer>, second: seq<Answer>)
    requires AreTheAnswers(setup, history, from, ResponsesOf(first), Payloads(first))
    requires AreTheAnswers(setup, later, |history|, ResponsesOf(second), Payloads(second))
    requires history <= later
    ensures AreTheAnswers(setup, later, from, ResponsesOf(first + second), Payloads(first + second))
  {
    hide ReadsAs;
    var responses, payloads := ResponsesOf(first + second), Payloads(first + second);
    forall i | 0 <= i < |responses|
      ensures Answered(setup, later, from + i, responses[i]) && ReadsAs(setup, responses[i], payloads[i])
    {
      if i < |first| {
        assert Answered(setup, history, from + i, ResponsesOf(first)[i]);
        assert later[..from + i] == history[..from + i] && later[from + i] == history[from + i];
      } else {
        assert Answered(setup, later, |history| + (i - |first|), ResponsesOf(second)[i - |first|]);
        assert ReadsAs(setup, ResponsesOf(second)[i - |first|], Payloads(second)[i - |first|]);
      }
    }
  }

  lemma {:induction false} CallAllIsAnswered(setup: Setup, calls: seq<Request>, prompts: seq<string>)
    ensures var (answers, after) := CallAll(setup, calls, prompts);
            answers.Ok? ==> && after == calls + Requests(prompts) && |answers.value| == |prompts|
                            && AreTheAnswers(setup, after, |calls|, ResponsesOf(answers.value), Payloads(answers.value))
    decreases |prompts|
  {
    hide Call, AreTheAnswers;
    if prompts == [] {
      NothingAnswered(setup, calls);
      assert calls + Requests([]) == calls;
    } else {
      var (first, told) := Call(setup, calls, Request(Summarizing, prompts[0]));
      CallAnswers(setup, calls, Request(Summarizing, prompts[0]));
      CallAllIsAnswered(setup, told, prompts[1..]);
      if CallAll(setup, calls, prompts).0.Ok? {
        var rest := CallAll(setup, told, prompts[1..]).0.value;
        assert [first.value.response] == ResponsesOf([first.value]) && [first.value.payload] == Payloads([first.value]);
        MoreAnswers(setup, told, CallAll(setup, calls, prompts).1, |calls|, [first.value], rest);
        assert told + Requests(prompts[1..]) == calls + Requests(prompts);
      }
    }
  }

  lemma NothingAnswered(setup: Setup, calls: seq<Request>)
    ensures AreTheAnswers(setup, calls, |calls|, ResponsesOf([]), Payloads([]))
  {
  }

  lemma {:induction false} TotalIsTotal(answers: seq<Answer>, field: Usage -> Option<int>)
    ensures IsTotal(ResponsesOf(answers), field, Total(answers, field))
  {
    hide Sum, Reported, AllReport, Reports;
    if answers == [] {
      NothingReported(field);
      assert ResponsesOf(answers) == [];
    } else {
      TotalIsTotal(answers[1..], field);
      assert ResponsesOf(answers) == [answers[0].response] + ResponsesOf(answers[1..]);
      ReportedMore(answers[0].response, ResponsesOf(answers[1..]), field);
    }
  }

  lemma NothingReported(field: Usage -> Option<int>)
    ensures AllReport([], field) && Sum(Reported([], field)) == 0
  {
  }

  lemma ReportedMore(first: Response, rest: seq<Response>, field: Usage -> Option<int>)
    ensures Reports(first, field) <==> first.usage.Some? && field(first.usage.value).Some?
    ensures AllReport([first] + rest, field) <==> Reports(first, field) && AllReport(rest, field)
    ensures AllReport([first] + rest, field) ==>
              Sum(Reported([first] + rest, field)) == field(first.usage.value).value + Sum(Reported(rest, field))
  {
    var all := [first] + rest;
    assert forall i | 0 <= i < |rest| :: rest[i] == all[i + 1];
    if AllReport(all, field) {
      assert all[0] == first;
      assert AllReport(rest, field);
      assert Reported(all, field)[1..] == Reported(rest, field);
    }
  }

  lemma TotalUsageIsTotal(answers: seq<Answer>)
    ensures IsTotalUsage(ResponsesOf(answers), TotalUsage(answers))
  {
    hide IsTotal, Total;
    TotalIsTotal(answers, (u: Usage) => u.prompt);
    TotalIsTotal(answers, (u: Usage) => u.completion);
    TotalIsTotal(answers, (u: Usage) => u.total);
  }

  lemma SynthesizedMerges(setup: Setup, from: nat, calls: seq<Request>, messages: seq<Message>, answers: seq<Answer>)
    returns (responses: seq<Response>, payloads: seq<Payload>)
    requires answers != [] && AreTheAnswers(setup, calls, from, ResponsesOf(answers), Payloads(answers))
    requires forall i | from <= i < |calls| :: calls[i].instructions == Summarizing
    ensures var (result, after) := Synthesized(setup, calls, messages, answers);
            result.Ok? ==>
              && calls <= after && AreTheAnswers(setup, after, from, responses, payloads)
              && MergesTheAnswers(setup, after[from..], responses, payloads, |answers|, result.value)
              && result.value.inputChars == |setup.rendered(messages)|
  {
    hide AreTheAnswers, IsTotalUsage, TotalUsage, Union;
    var prompt := setup.synthesisPrompt(Payloads(answers));
    responses, payloads := ResponsesOf(answers), Payloads(answers);
    AnswersFit(setup, calls, from, answers);
    TotalUsageIsTotal(answers);
    assert payloads[..|answers|] == payloads;
    if |prompt| <= setup.maxInputChars {
      var (answer, after) := Call(setup, calls, Request(Synthesizing, prompt));
      CallAnswers(setup, calls, Request(Synthesizing, prompt));
      if answer.Ok? {
        var all := answers + [answer.value];
        responses, payloads := ResponsesOf(all), Payloads(all);
        assert [answer.value.response] == ResponsesOf([answer.value]) && [answer.value.payload] == Payloads([answer.value]);
        MoreAnswers(setup, calls, after, from, answers, [answer.value]);
        TotalUsageIsTotal(all);
        assert payloads[..|answers|] == Payloads(answers);
      }
    }
  }

  lemma AnswersFit(setup: Setup, history: seq<Request>, from: nat, answers: seq<Answer>)
    requires AreTheAnswers(setup, history, from, ResponsesOf(answers), Payloads(answers))
    ensures from + |answers| == |history|
  {
  }

  lemma WholeSaysTheAnswer(setup: Setup, calls: seq<Request>, messages: seq<Message>)
    returns (responses: seq<Response>, payloads: seq<Payload>)
    ensures var (result, after) := Whole(setup, calls, messages);
            result.Ok? ==>
              && calls <= after && AreTheAnswers(setup, after, |calls|, responses, payloads)
              && SaysTheAnswer(setup, messages, after[|calls|..], responses, payloads, result.value)
              && result.value.inputChars == |setup.rendered(messages)|
  {
    hide Call, AreTheAnswers;
    var request := Request(Summarizing, setup.windowPrompt(messages));
    CallAnswers(setup, calls, request);
    var answer := Call(setup, calls, request).0;
    responses, payloads := [], [];
    if answer.Ok? {
      responses, payloads := [answer.value.response], [answer.value.payload];
    }
  }

  lemma InChunksMerges(setup: Setup, calls: seq<Request>, messages: seq<Message>)
    returns (responses: seq<Response>, payloads: seq<Payload>, chunks: nat)
    requires setup.chunkMessages >= 1 && messages != [] && InChunks(setup, calls, messages).0.Ok?
    ensures var (result, after) := InChunks(setup, calls, messages);
            && calls <= after && AreTheAnswers(setup, after, |calls|, responses, payloads)
            && MergesTheAnswers(setup, after[|calls|..], responses, payloads, chunks, result.value)
            && result.value.inputChars == |setup.rendered(messages)|
  {
    hide Chunks, CallAll, Synthesized, AreTheAnswers, MergesTheAnswers, Prompts;
    var prompts := Prompts(setup, Chunks(setup, messages).value);
    ChunksCoverTheWindow(setup, messages);
    CallAllIsAnswered(setup, calls, prompts);
    var (answers, after) := CallAll(setup, calls, prompts);
    SomeAnswers(setup, messages);
    chunks := |answers.value|;
    responses, payloads := SynthesizedMerges(setup, |calls|, after, messages, answers.value);
  }

  lemma SomeAnswers(setup: Setup, messages: seq<Message>)
    requires setup.chunkMessages >= 1 && messages != [] && Chunks(setup, messages).Some?
    ensures Prompts(setup, Chunks(setup, messages).value) != []
  {
    hide Chunks;
    ChunksCoverTheWindow(setup, messages);
    CoverOfSome(setup, Chunks(setup, messages).value, messages);
  }

  // ----- every summary -----

  /** Every summary of a window with messages says what the provider answered to this call's requests:
      the answer for the whole window when its prompt fits, and otherwise the answer that merges the
      chunks' answers, or their deterministic merge. */
  lemma SummarySaysWhatWasAnswered(setup: Setup, calls: seq<Request>, stored: seq<Message>, limit: int)
    returns (responses: seq<Response>, payloads: seq<Payload>, chunks: nat)
    requires setup.Valid() && stored != [] && Summarized(setup, calls, stored, limit).0.Ok?
    ensures var (result, after) := Summarized(setup, calls, stored, limit);
            var messages := setup.enrich(stored);
            && calls <= after && AreTheAnswers(setup, after, |calls|, responses, payloads)
            && result.value.inputChars == |setup.rendered(messages)|
            && if |setup.windowPrompt(messages)| <= setup.maxInputChars
               then SaysTheAnswer(setup, messages, after[|calls|..], responses, payloads, result.value)
               else MergesTheAnswers(setup, after[|calls|..], responses, payloads, chunks, result.value)
  {
    hide Whole, InChunks, AreTheAnswers, SaysTheAnswer, MergesTheAnswers;
    var messages := setup.enrich(stored);
    chunks := 0;
    if |setup.windowPrompt(messages)| <= setup.maxInputChars {
      responses, payloads := WholeSaysTheAnswer(setup, calls, messages);
    } else {
      responses, payloads, chunks := InChunksMerges(setup, calls, messages);
    }
  }

  /** A window without messages is summarized without asking anyone. */
  lemma NothingToSummarize(setup: Setup, calls: seq<Request>, limit: int)
    requires setup.Valid() && 1 <= limit <= setup.maxMessages
    ensures var (result, after) := Summarized(setup, calls, [], limit);
            && after == calls && result.Ok?
            && result.value == SummaryResult(0, Payload(EMPTY_SUMMARY, [], [], [], [], []), "none", "none", None, 0,
                                             Usage(None, None, None))
  {
  }

  // ----- failures -----

  /** The last request of this history is to blame: it was not answered, or its answer was cut or does
      not parse. */
  ghost predicate IsToBlame(setup: Setup, history: seq<Request>, error: SummaryError)
    requires history != []
  {
    var last := |history| - 1;
    match setup.complete(history[..last], history[last])
    case None => error == ProviderFailed
    case Some(response) =>
      error == InvalidResponse && (response.finishReason == Some("length") || setup.parse(response.content).None?)
  }

  lemma CallFails(setup: Setup, calls: seq<Request>, request: Request)
    ensures var (answer, after) := Call(setup, calls, request);
            && after == calls + [request]
            && (answer.Err? ==> answer.error in {ProviderFailed, InvalidResponse} && IsToBlame(setup, after, answer.error))
  {
    assert (calls + [request])[..|calls|] == calls;
  }

  lemma {:induction false} CallAllFails(setup: Setup, calls: seq<Request>, prompts: seq<string>)
    ensures var (answers, after) := CallAll(setup, calls, prompts);
            && |after| >= |calls|
            && (answers.Err? ==> && |after| > |calls| && answers.error in {ProviderFailed, InvalidResponse}
                                 && IsToBlame(setup, after, answers.error))
    decreases |prompts|
  {
    hide Call, IsToBlame;
    if prompts != [] {
      CallFails(setup, calls, Request(Summarizing, prompts[0]));
      CallAllFails(setup, Call(setup, calls, Request(Summarizing, prompts[0])).1, prompts[1..]);
    }
  }

  /** A failed run ends with the request to blame. */
  ghost predicate Blames(setup: Setup, calls: seq<Request>, result: Result<SummaryResult, SummaryError>, after: seq<Request>) {
    result.Err? ==> && result.error in {ProviderFailed, InvalidResponse} && |after| > |calls|
                    && IsToBlame(setup, after, result.error)
  }

  lemma WholeFails(setup: Setup, calls: seq<Request>, messages: seq<Message>)
    ensures var (result, after) := Whole(setup, calls, messages);
            Blames(setup, calls, result, after)
  {
    CallFails(setup, calls, Request(Summarizing, setup.windowPrompt(messages)));
  }

  lemma SynthesizedFails(setup: Setup, calls: seq<Request>, messages: seq<Message>, answers: seq<Answer>)
    requires answers != []
    ensures var (result, after) := Synthesized(setup, calls, messages, answers);
            |after| >= |calls| && Blames(setup, calls, result, after)
  {
    hide Union, TotalUsage, Payloads;
    CallFails(setup, calls, Request(Synthesizing, setup.synthesisPrompt(Payloads(answers))));
  }

  lemma InChunksFails(setup: Setup, calls: seq<Request>, messages: seq<Message>)
    requires setup.chunkMessages >= 1 && messages != [] && Chunks(setup, messages).Some?
    ensures var (result, after) := InChunks(setup, calls, messages);
            Blames(setup, calls, result, after)
  {
    hide Chunks, CallAll, Synthesized, IsToBlame, Prompts;
    var prompts := Prompts(setup, Chunks(setup, messages).value);
    CallAllFails(setup, calls, prompts);
    SomeAnswers(setup, messages);
    CallAllAnswers(setup, calls, prompts);
    var (answers, after) := CallAll(setup, calls, prompts);
    if answers.Ok? {
      SynthesizedFails(setup, after, messages, answers.value);
    }
  }

  /** A call that fails for the provider stops at the request that failed. */
  lemma FailureIsTheLastAnswer(setup: Setup, calls: seq<Request>, stored: seq<Message>, limit: int)
    requires setup.Valid()
    ensures var (result, after) := Summarized(setup, calls, stored, limit);
            && (result == Err(InvalidLimit) <==> limit < 1 || limit > setup.maxMessages)
            && (result.Err? && result.error in {ProviderFailed, InvalidResponse} ==>
                  |after| > |calls| && IsToBlame(setup, after, result.error))
  {
    hide Chunks, Whole, InChunks, IsToBlame;
    if 1 <= limit <= setup.maxMessages && 0 < |stored| <= limit {
      var messages := setup.enrich(stored);
      WholeFails(setup, calls, messages);
      if Chunks(setup, messages).Some? {
        InChunksFails(setup, calls, messages);
      } else {
        NoChunks(setup, calls, messages);
      }
    }
  }

  lemma NoChunks(setup: Setup, calls: seq<Request>, messages: seq<Message>)
    requires setup.chunkMessages >= 1 && messages != [] && Chunks(setup, messages).None?
    ensures InChunks(setup, calls, messages) == (Err(WindowTooLarge), calls)
  {
  }

  // ----- the merged text -----

  /** The text of the merge, chunk by chunk: blank summaries are skipped, the others follow each other on
      lines of their own. */
  lemma MergedTextGrows(payloads: seq<Payload>, payload: Payload)
    ensures Union([]).summary == ""
    ensures Union(payloads + [payload]).summary
            == if payload.summary == "" then Union(payloads).summary
               else if Union(payloads).summary == "" then payload.summary
               else Union(payloads).summary + "\n" + payload.summary
  {
    hide Distinct, Lists, Flatten;
    var sections := Sections(payloads);
    SectionsMore(payloads, [payload]);
    SectionsAreNotBlank(payloads);
    JoinIsBlank(sections);
    assert [payload][1..] == [] && Sections([payload]) == if payload.summary == "" then [] else [payload.summary];
    assert sections + [] == sections && [] + [payload.summary] == [payload.summary];
    if payload.summary != "" && sections != [] {
      JoinBoth(sections, [payload.summary]);
    }
  }
}
