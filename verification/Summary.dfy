/** Summaries of long conversation windows: splitting under a prompt limit, the provider calls, and
    the deterministic merge. */
module Summary {
  import opened Values
  import opened Domain
  import opened Sequences

  // ----- payloads -----

  datatype ActionItem = ActionItem(description: string, owner: Option<string>, deadline: Option<string>)

  datatype Payload = Payload(
    summary: string,
    topics: seq<string>,
    keyPoints: seq<string>,
    decisions: seq<string>,
    actions: seq<ActionItem>,
    questions: seq<string>
  )

  datatype Usage = Usage(prompt: Option<int>, completion: Option<int>, total: Option<int>)

  datatype Response = Response(content: string, provider: string, model: string, finishReason: Option<string>,
                               usage: Option<Usage>)

  datatype Instructions = Summarizing | Synthesizing

  datatype Request = Request(instructions: Instructions, userPrompt: string)

  datatype SummaryError = InvalidLimit | WindowTooLarge | ProviderFailed | InvalidResponse

  datatype SummaryResult = SummaryResult(
    messageCount: nat, payload: Payload, provider: string, model: string, finishReason: Option<string>,
    inputChars: nat, usage: Usage)

  const EMPTY_SUMMARY := "该时间范围内没有可总结的消息。"

  /** The service with everything around it: the rendered text of messages, the prompts built from
      it, the schema check, image enrichment, and a provider whose answers may depend on all
      earlier requests. */
  datatype Setup = Setup(
    rendered: seq<Message> -> string,
    windowPrompt: seq<Message> -> string,
    chunkPrompt: seq<Message> -> string,
    synthesisPrompt: seq<Payload> -> string,
    parse: string -> Option<Payload>,
    enrich: seq<Message> -> seq<Message>,
    complete: (seq<Request>, Request) -> Option<Response>,
    maxMessages: int,
    maxInputChars: int,
    chunkMessages: int
  ) {
    ghost predicate Valid() {
      && 1 <= chunkMessages <= maxMessages && 1 <= maxInputChars
      && forall messages :: |enrich(messages)| == |messages|
    }

    predicate Fits(chunk: seq<Message>) {
      |chunkPrompt(chunk)| <= maxInputChars
    }
  }

  // ----- splitting -----

  /** `_split_messages`. */
  function Split(messages: seq<Message>, size: nat): seq<seq<Message>>
    requires size >= 1
  {
    if |messages| <= size then if messages == [] then [] else [messages]
    else [messages[..size]] + Split(messages[size..], size)
  }

  /** `append_chunk`: halves until every piece fits; None for a single message that does not. */
  function Halved(setup: Setup, chunk: seq<Message>): Option<seq<seq<Message>>>
    requires chunk != []
    decreases |chunk|
  {
    if setup.Fits(chunk) then Some([chunk])
    else if |chunk| == 1 then None
    else
      match Halved(setup, chunk[..|chunk| / 2])
      case None => None
      case Some(first) =>
        match Halved(setup, chunk[|chunk| / 2..])
        case None => None
        case Some(second) => Some(first + second)
  }

  predicate NonEmpty(chunks: seq<seq<Message>>) {
    forall i | 0 <= i < |chunks| :: chunks[i] != []
  }

  function AllHalved(setup: Setup, chunks: seq<seq<Message>>): Option<seq<seq<Message>>>
    requires NonEmpty(chunks)
  {
    if chunks == [] then Some([])
    else
      match Halved(setup, chunks[0])
      case None => None
      case Some(first) =>
        match AllHalved(setup, chunks[1..])
        case None => None
        case Some(rest) => Some(first + rest)
  }

  function Prompts(setup: Setup, chunks: seq<seq<Message>>): seq<string> {
    seq(|chunks|, i requires 0 <= i < |chunks| => setup.chunkPrompt(chunks[i]))
  }

  lemma {:induction false} SplitIsNonEmpty(messages: seq<Message>, size: nat)
    requires size >= 1
    ensures NonEmpty(Split(messages, size))
    decreases |messages|
  {
    if |messages| > size {
      SplitIsNonEmpty(messages[size..], size);
    }
  }

  /** The chunks whose prompts `_chunk_prompts` returns. */
  function Chunks(setup: Setup, messages: seq<Message>): Option<seq<seq<Message>>>
    requires setup.chunkMessages >= 1
  {
    SplitIsNonEmpty(messages, setup.chunkMessages);
    AllHalved(setup, Split(messages, setup.chunkMessages))
  }

  // ----- what splitting promises -----

  /** In order and without overlap the chunks are all the messages; none is empty or longer than
      `size`, and every prompt fits. */
  ghost predicate Covers(setup: Setup, chunks: seq<seq<Message>>, messages: seq<Message>, size: nat) {
    && Flatten(chunks) == messages
    && forall i | 0 <= i < |chunks| :: 1 <= |chunks[i]| <= size && setup.Fits(chunks[i])
  }

  lemma CoversBoth(setup: Setup, a: seq<seq<Message>>, first: seq<Message>, b: seq<seq<Message>>, second: seq<Message>,
                   size: nat)
    requires Covers(setup, a, first, size) && Covers(setup, b, second, size)
    ensures Covers(setup, a + b, first + second, size)
  {
    FlattenMore(a, b);
  }

  lemma {:induction false} HalvedCovers(setup: Setup, chunk: seq<Message>, size: nat)
    requires 1 <= |chunk| <= size
    ensures Halved(setup, chunk).Some? ==> Covers(setup, Halved(setup, chunk).value, chunk, size)
    decreases |chunk|
  {
    hide Setup.Fits;
    if setup.Fits(chunk) {
      FlattenOne(chunk);
    } else if |chunk| > 1 {
      var middle := |chunk| / 2;
      HalvedCovers(setup, chunk[..middle], size);
      HalvedCovers(setup, chunk[middle..], size);
      assert chunk[..middle] + chunk[middle..] == chunk;
      if Halved(setup, chunk).Some? {
        CoversBoth(setup, Halved(setup, chunk[..middle]).value, chunk[..middle],
                   Halved(setup, chunk[middle..]).value, chunk[middle..], size);
      }
    }
  }

  lemma {:induction false} SplitCovers(messages: seq<Message>, size: nat)
    requires size >= 1
    ensures Flatten(Split(messages, size)) == messages
    decreases |messages|
  {
    if |messages| > size {
      SplitCovers(messages[size..], size);
      var rest := Split(messages[size..], size);
      FlattenMore([messages[..size]], rest);
      FlattenOne(messages[..size]);
      assert messages[..size] + messages[size..] == messages;
    } else if messages != [] {
      FlattenOne(messages);
    }
  }

  lemma {:induction false} SplitIsBounded(messages: seq<Message>, size: nat)
    requires size >= 1
    ensures forall i | 0 <= i < |Split(messages, size)| :: 1 <= |Split(messages, size)[i]| <= size
    decreases |messages|
  {
    if |messages| > size {
      SplitIsBounded(messages[size..], size);
    }
  }

  lemma {:induction false} AllHalvedCovers(setup: Setup, chunks: seq<seq<Message>>, size: nat)
    requires forall i | 0 <= i < |chunks| :: 1 <= |chunks[i]| <= size
    requires NonEmpty(chunks)
    ensures AllHalved(setup, chunks).Some? ==> Covers(setup, AllHalved(setup, chunks).value, Flatten(chunks), size)
  {
    hide Setup.Fits;
    if chunks != [] {
      HalvedCovers(setup, chunks[0], size);
      AllHalvedCovers(setup, chunks[1..], size);
      if AllHalved(setup, chunks).Some? {
        CoversBoth(setup, Halved(setup, chunks[0]).value, chunks[0], AllHalved(setup, chunks[1..]).value,
                   Flatten(chunks[1..]), size);
      }
    }
  }

  /** Long-window splitting covers every message exactly once. */
  lemma ChunksCoverTheWindow(setup: Setup, messages: seq<Message>)
    requires setup.chunkMessages >= 1
    ensures Chunks(setup, messages).Some? ==>
              Covers(setup, Chunks(setup, messages).value, messages, setup.chunkMessages)
  {
    SplitIsNonEmpty(messages, setup.chunkMessages);
    SplitCovers(messages, setup.chunkMessages);
    SplitIsBounded(messages, setup.chunkMessages);
    AllHalvedCovers(setup, Split(messages, setup.chunkMessages), setup.chunkMessages);
  }

  /** The prompt of some messages is at least as long as the prompt of a part of them. */
  ghost predicate Monotone(setup: Setup) {
    forall a, b, c :: |setup.chunkPrompt(b)| <= |setup.chunkPrompt(a + b + c)|
  }

  ghost predicate EverySingleFits(setup: Setup, messages: seq<Message>) {
    forall i | 0 <= i < |messages| :: setup.Fits([messages[i]])
  }

  lemma {:induction false} HalvedExactly(setup: Setup, chunk: seq<Message>)
    requires chunk != []
    ensures EverySingleFits(setup, chunk) ==> Halved(setup, chunk).Some?
    ensures Monotone(setup) && Halved(setup, chunk).Some? ==> EverySingleFits(setup, chunk)
    decreases |chunk|
  {
    if setup.Fits(chunk) {
      if Monotone(setup) {
        forall i | 0 <= i < |chunk|
          ensures setup.Fits([chunk[i]])
        {
          assert chunk[..i] + [chunk[i]] + chunk[i + 1..] == chunk;
        }
      }
    } else if |chunk| == 1 {
      assert [chunk[0]] == chunk;
    } else {
      var middle := |chunk| / 2;
      HalvedExactly(setup, chunk[..middle]);
      HalvedExactly(setup, chunk[middle..]);
      SinglesOfBoth(setup, chunk[..middle], chunk[middle..]);
      assert chunk[..middle] + chunk[middle..] == chunk;
    }
  }

  lemma SinglesOfBoth(setup: Setup, a: seq<Message>, b: seq<Message>)
    ensures EverySingleFits(setup, a + b) <==> EverySingleFits(setup, a) && EverySingleFits(setup, b)
  {
    hide Setup.Fits;
    if EverySingleFits(setup, a + b) {
      forall i | 0 <= i < |a|
        ensures setup.Fits([a[i]])
      {
        assert (a + b)[i] == a[i];
      }
      forall i | 0 <= i < |b|
        ensures setup.Fits([b[i]])
      {
        assert (a + b)[|a| + i] == b[i];
      }
    }
  }

  lemma {:induction false} AllHalvedExactly(setup: Setup, chunks: seq<seq<Message>>)
    requires NonEmpty(chunks)
    ensures EverySingleFits(setup, Flatten(chunks)) ==> AllHalved(setup, chunks).Some?
    ensures Monotone(setup) && AllHalved(setup, chunks).Some? ==> EverySingleFits(setup, Flatten(chunks))
  {
    hide Setup.Fits, Monotone, EverySingleFits;
    if chunks == [] {
      NothingToFit(setup);
    } else {
      HalvedExactly(setup, chunks[0]);
      AllHalvedExactly(setup, chunks[1..]);
      SinglesOfBoth(setup, chunks[0], Flatten(chunks[1..]));
    }
  }

  lemma NothingToFit(setup: Setup)
    ensures EverySingleFits(setup, [])
  {
  }

  /** Splitting succeeds when every message fits alone, and only then if longer windows never have
      shorter prompts. */
  lemma ChunkingSucceedsExactly(setup: Setup, messages: seq<Message>)
    requires setup.chunkMessages >= 1
    ensures EverySingleFits(setup, messages) ==> Chunks(setup, messages).Some?
    ensures Monotone(setup) && Chunks(setup, messages).Some? ==> EverySingleFits(setup, messages)
  {
    SplitIsNonEmpty(messages, setup.chunkMessages);
    SplitCovers(messages, setup.chunkMessages);
    AllHalvedExactly(setup, Split(messages, setup.chunkMessages));
  }

  /** No block that halving makes around the i-th message has a prompt that fits. */
  predicate NeverFits(setup: Setup, chunk: seq<Message>, i: nat)
    requires i < |chunk|
    decreases |chunk|
  {
    && !setup.Fits(chunk)
    && (|chunk| == 1
        || if i < |chunk| / 2 then NeverFits(setup, chunk[..|chunk| / 2], i)
           else NeverFits(setup, chunk[|chunk| / 2..], i - |chunk| / 2))
  }

  /** The same for a whole window, cut into blocks of `size` first. */
  predicate NeverFitsIn(setup: Setup, messages: seq<Message>, size: nat, i: nat)
    requires size >= 1 && i < |messages|
    decreases |messages|
  {
    if |messages| <= size then NeverFits(setup, messages, i)
    else if i < size then NeverFits(setup, messages[..size], i)
    else NeverFitsIn(setup, messages[size..], size, i - size)
  }

  lemma {:induction false} HalvedFails(setup: Setup, chunk: seq<Message>, i: nat)
    requires i < |chunk| && NeverFits(setup, chunk, i)
    ensures Halved(setup, chunk).None?
    decreases |chunk|
  {
    hide Setup.Fits;
    var middle := |chunk| / 2;
    if |chunk| > 1 && i < middle {
      HalvedFails(setup, chunk[..middle], i);
    } else if |chunk| > 1 {
      HalvedFails(setup, chunk[middle..], i - middle);
    }
  }

  lemma {:induction false} FailingMessage(setup: Setup, chunk: seq<Message>) returns (i: nat)
    requires chunk != [] && Halved(setup, chunk).None?
    ensures i < |chunk| && NeverFits(setup, chunk, i)
    decreases |chunk|
  {
    hide Setup.Fits;
    var middle := |chunk| / 2;
    if |chunk| == 1 {
      i := 0;
    } else if Halved(setup, chunk[..middle]).None? {
      i := FailingMessage(setup, chunk[..middle]);
    } else {
      i := FailingMessage(setup, chunk[middle..]);
      i := middle + i;
    }
  }

  lemma {:induction false} SplitFails(setup: Setup, messages: seq<Message>, size: nat, i: nat)
    requires size >= 1 && i < |messages| && NeverFitsIn(setup, messages, size, i)
    ensures NonEmpty(Split(messages, size)) && AllHalved(setup, Split(messages, size)).None?
    decreases |messages|
  {
    hide Halved, NeverFits;
    SplitIsNonEmpty(messages, size);
    SplitStepwise(messages, size);
    var head, rest := if |messages| <= size then messages else messages[..size], if |messages| <= size then [] else messages[size..];
    SplitIsNonEmpty(rest, size);
    PieceByPiece(setup, head, Split(rest, size));
    if i < |head| {
      HalvedFails(setup, head, i);
    } else {
      SplitFails(setup, rest, size, i - size);
    }
  }

  lemma {:induction false} FailingMessageOf(setup: Setup, messages: seq<Message>, size: nat) returns (i: nat)
    requires size >= 1 && NonEmpty(Split(messages, size)) && AllHalved(setup, Split(messages, size)).None?
    ensures i < |messages| && NeverFitsIn(setup, messages, size, i)
    decreases |messages|
  {
    hide Halved, NeverFits;
    assert AllHalved(setup, []) == Some([]);
    SplitStepwise(messages, size);
    var head, rest := if |messages| <= size then messages else messages[..size], if |messages| <= size then [] else messages[size..];
    SplitIsNonEmpty(rest, size);
    PieceByPiece(setup, head, Split(rest, size));
    if Halved(setup, head).None? {
      i := FailingMessage(setup, head);
    } else {
      i := FailingMessageOf(setup, rest, size);
      i := size + i;
    }
  }

  lemma SplitStepwise(messages: seq<Message>, size: nat)
    requires size >= 1 && messages != []
    ensures Split(messages, size)
            == if |messages| <= size then [messages] + Split([], size)
               else [messages[..size]] + Split(messages[size..], size)
  {
    assert [messages] + [] == [messages];
  }

  /** Splitting fails if and only if some message is over the limit in every block that contains it. */
  lemma ChunkingFailsExactly(setup: Setup, messages: seq<Message>, size: nat)
    requires size >= 1
    ensures NonEmpty(Split(messages, size))
    ensures AllHalved(setup, Split(messages, size)).None?
            <==> exists i | 0 <= i < |messages| :: NeverFitsIn(setup, messages, size, i)
  {
    hide AllHalved, NeverFitsIn;
    SplitIsNonEmpty(messages, size);
    if AllHalved(setup, Split(messages, size)).None? {
      var i := FailingMessageOf(setup, messages, size);
    }
    if i :| 0 <= i < |messages| && NeverFitsIn(setup, messages, size, i) {
      SplitFails(setup, messages, size, i);
    }
  }

  lemma PieceByPiece(setup: Setup, first: seq<Message>, rest: seq<seq<Message>>)
    requires first != [] && NonEmpty(rest)
    ensures NonEmpty([first] + rest)
    ensures AllHalved(setup, [first] + rest).None? <==> Halved(setup, first).None? || AllHalved(setup, rest).None?
  {
    var all := [first] + rest;
    assert all[0] == first && all[1..] == rest;
  }

  // ----- the deterministic merge -----

  function Join(texts: seq<string>): string {
    if texts == [] then ""
    else if |texts| == 1 then texts[0]
    else texts[0] + "\n" + Join(texts[1..])
  }

  function Sections(payloads: seq<Payload>): seq<string> {
    if payloads == [] then []
    else (if payloads[0].summary != "" then [payloads[0].summary] else []) + Sections(payloads[1..])
  }

  function Lists<T>(payloads: seq<Payload>, list: Payload -> seq<T>): seq<seq<T>> {
    seq(|payloads|, i requires 0 <= i < |payloads| => list(payloads[i]))
  }

  /** `_union_payloads`. */
  function Union(payloads: seq<Payload>): Payload {
    Payload(
      Join(Sections(payloads)),
      Distinct(Flatten(Lists(payloads, (p: Payload) => p.topics))),
      Distinct(Flatten(Lists(payloads, (p: Payload) => p.keyPoints))),
      Distinct(Flatten(Lists(payloads, (p: Payload) => p.decisions))),
      Distinct(Flatten(Lists(payloads, (p: Payload) => p.actions))),
      Distinct(Flatten(Lists(payloads, (p: Payload) => p.questions))))
  }

  lemma {:induction false} FlattenMembers<T>(lists: seq<seq<T>>, x: T)
    ensures x in Flatten(lists) <==> exists i | 0 <= i < |lists| :: x in lists[i]
  {
    if lists != [] {
      FlattenMembers(lists[1..], x);
      if x in Flatten(lists[1..]) {
        var i :| 0 <= i < |lists[1..]| && x in lists[1..][i];
        assert x in lists[i + 1];
      }
      if i :| 0 <= i < |lists| && x in lists[i] {
        assert i > 0 ==> lists[1..][i - 1] == lists[i];
      }
    }
  }

  /** Each list of the merge holds every item of every chunk once, in first-seen order. */
  lemma MergeKeepsEveryItemOnce(payloads: seq<Payload>)
    ensures var merged := Union(payloads);
            && MergedList(Lists(payloads, (p: Payload) => p.topics), merged.topics)
            && MergedList(Lists(payloads, (p: Payload) => p.keyPoints), merged.keyPoints)
            && MergedList(Lists(payloads, (p: Payload) => p.decisions), merged.decisions)
            && MergedList(Lists(payloads, (p: Payload) => p.actions), merged.actions)
            && MergedList(Lists(payloads, (p: Payload) => p.questions), merged.questions)
  {
    hide MergedList, Distinct, Flatten;
    DistinctIsMerged(Lists(payloads, (p: Payload) => p.topics));
    DistinctIsMerged(Lists(payloads, (p: Payload) => p.keyPoints));
    DistinctIsMerged(Lists(payloads, (p: Payload) => p.decisions));
    DistinctIsMerged(Lists(payloads, (p: Payload) => p.actions));
    DistinctIsMerged(Lists(payloads, (p: Payload) => p.questions));
  }

  ghost predicate MergedList<T(!new)>(lists: seq<seq<T>>, merged: seq<T>) {
    && NoDuplicates(merged) && InFirstOrder(Flatten(lists), merged)
    && forall x :: x in merged <==> exists i | 0 <= i < |lists| :: x in lists[i]
  }

  lemma DistinctIsMerged<T(!new)>(lists: seq<seq<T>>)
    ensures MergedList(lists, Distinct(Flatten(lists)))
  {
    hide NoDuplicates, InFirstOrder;
    DistinctKeepsFirstOrder(Flatten(lists));
    forall x
      ensures x in Flatten(lists) <==> exists i | 0 <= i < |lists| :: x in lists[i]
    {
      FlattenMembers(lists, x);
    }
  }

  // ----- merging merged groups -----

  function Unions(groups: seq<seq<Payload>>): seq<Payload> {
    seq(|groups|, i requires 0 <= i < |groups| => Union(groups[i]))
  }

  lemma UnionsTail(groups: seq<seq<Payload>>)
    requires groups != []
    ensures Unions(groups) == [Union(groups[0])] + Unions(groups[1..])
  {
  }

  lemma {:induction false} ListsMore<T>(a: seq<Payload>, b: seq<Payload>, list: Payload -> seq<T>)
    ensures Lists(a + b, list) == Lists(a, list) + Lists(b, list)
  {
  }

  /** Removing duplicates in each group first changes nothing. */
  lemma {:induction false} GroupedDistinct<T(!new)>(groups: seq<seq<Payload>>, list: Payload -> seq<T>)
    requires forall group: seq<Payload> :: list(Union(group)) == Distinct(Flatten(Lists(group, list)))
    ensures Distinct(Flatten(Lists(Unions(groups), list))) == Distinct(Flatten(Lists(Flatten(groups), list)))
  {
    hide Distinct, Union, Unions;
    if groups == [] {
      NoGroups();
    } else {
      UnionsTail(groups);
      GroupedDistinct(groups[1..], list);
      var head, rest := Flatten(Lists(groups[0], list)), Flatten(Lists(Flatten(groups[1..]), list));
      var mergedRest := Flatten(Lists(Unions(groups[1..]), list));
      ListsMore([Union(groups[0])], Unions(groups[1..]), list);
      ListsMore(groups[0], Flatten(groups[1..]), list);
      FlattenMore(Lists([Union(groups[0])], list), Lists(Unions(groups[1..]), list));
      FlattenMore(Lists(groups[0], list), Lists(Flatten(groups[1..]), list));
      assert Lists([Union(groups[0])], list) == [Distinct(head)];
      FlattenOne(Distinct(head));
      DistinctOfPrefix(head, mergedRest);
      DistinctOfSuffix(head, mergedRest);
      DistinctOfSuffix(head, rest);
    }
  }

  lemma NoGroups()
    ensures Unions([]) == []
  {
  }

  lemma {:induction false} SectionsMore(a: seq<Payload>, b: seq<Payload>)
    ensures Sections(a + b) == Sections(a) + Sections(b)
  {
    if a == [] {
      assert a + b == b;
    } else {
      assert (a + b)[1..] == a[1..] + b;
      SectionsMore(a[1..], b);
    }
  }

  ghost predicate NoneBlank(texts: seq<string>) {
    forall i | 0 <= i < |texts| :: texts[i] != ""
  }

  lemma {:induction false} SectionsAreNotBlank(payloads: seq<Payload>)
    ensures NoneBlank(Sections(payloads))
  {
    if payloads != [] {
      SectionsAreNotBlank(payloads[1..]);
    }
  }

  /** Joining the joins of two groups, leaving out a blank one, joins both groups. */
  lemma {:induction false} JoinBoth(a: seq<string>, b: seq<string>)
    requires a != [] && b != []
    ensures Join(a) + "\n" + Join(b) == Join(a + b)
  {
    if |a| == 1 {
      assert (a + b)[1..] == b;
    } else {
      assert (a + b)[1..] == a[1..] + b;
      JoinBoth(a[1..], b);
      assert Join(a) + "\n" + Join(b) == a[0] + "\n" + (Join(a[1..]) + "\n" + Join(b));
    }
  }

  lemma JoinIsBlank(texts: seq<string>)
    requires NoneBlank(texts)
    ensures Join(texts) == "" <==> texts == []
  {
  }

  lemma {:induction false} GroupedSections(groups: seq<seq<Payload>>)
    ensures Join(Sections(Unions(groups))) == Join(Sections(Flatten(groups)))
    ensures Sections(Unions(groups)) == [] <==> Sections(Flatten(groups)) == []
  {
    hide Union, Join;
    if groups == [] {
      NoGroups();
    } else {
      GroupedSections(groups[1..]);
      UnionsTail(groups);
      var head, rest, merged := Sections(groups[0]), Sections(Flatten(groups[1..])), Sections(Unions(groups[1..]));
      SectionsMore(groups[0], Flatten(groups[1..]));
      SectionsMore([Union(groups[0])], Unions(groups[1..]));
      UnionSection(groups[0]);
      if head == [] {
        assert [] + rest == rest && [] + merged == merged;
      } else if rest == [] {
        assert head + rest == head;
        JoinOne(Join(head));
      } else {
        JoinBoth(head, rest);
        JoinBoth([Join(head)], merged);
        JoinOne(Join(head));
      }
    }
  }

  lemma JoinOne(text: string)
    ensures Join([text]) == text
  {
  }

  /** The section of a merged group. */
  lemma UnionSection(group: seq<Payload>)
    ensures Sections([Union(group)]) == if Sections(group) == [] then [] else [Join(Sections(group))]
  {
    hide Distinct, Join, Lists;
    SectionsAreNotBlank(group);
    JoinIsBlank(Sections(group));
    var one := [Union(group)];
    assert one[1..] == [] && Sections(one[1..]) == [];
    assert one[0].summary == Join(Sections(group));
  }

  /** Merging merged groups of chunks gives the same payload as merging all chunks at once. */
  lemma MergingInGroupsIsTheSame(groups: seq<seq<Payload>>)
    ensures Union(Unions(groups)) == Union(Flatten(groups))
  {
    hide Distinct, Unions, Flatten, Lists, Join, Sections;
    GroupedSections(groups);
    GroupedDistinct(groups, (p: Payload) => p.topics);
    GroupedDistinct(groups, (p: Payload) => p.keyPoints);
    GroupedDistinct(groups, (p: Payload) => p.decisions);
    GroupedDistinct(groups, (p: Payload) => p.actions);
    GroupedDistinct(groups, (p: Payload) => p.questions);
  }
}
