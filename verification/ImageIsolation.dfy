/** Groups do not see each other's descriptions or budget. */
module ImageIsolation {
  import opened Values
  import opened Domain
  import opened ImageEnrichment

  predicate InGroup(message: Message, platform: string, groupId: string) {
    message.platform == platform && message.context.groupId == Some(groupId)
  }

  /** The messages of one group, in order. */
  function OfThe(messages: seq<Message>, platform: string, groupId: string): seq<Message> {
    if messages == [] then []
    else (if InGroup(messages[0], platform, groupId) then [messages[0]] else [])
         + OfThe(messages[1..], platform, groupId)
  }

  /** Messages that share one batch from the start. */
  function WithBatch(world: World, max: nat, b: Batch, messages: seq<Message>): (seq<Message>, Batch) {
    Pass(world, Cached(world, max), b, messages)
  }

  function GroupBatch(state: Batches, platform: string, groupId: string): Batch {
    if state.scope.Some? && state.scope.value.platform == platform && state.scope.value.groupId == groupId
    then state.scope.value.batch
    else BatchFor(state.local, OfGroup(platform, groupId))
  }

  lemma OneOfTheGroup(world: World, max: nat, state: Batches, message: Message, index: nat,
                      platform: string, groupId: string)
    requires InGroup(message, platform, groupId)
    ensures var (m, after) := One(world, max, state, message, index);
            && InGroup(m, platform, groupId)
            && (m, GroupBatch(after, platform, groupId))
               == Enriched(world, max, GroupBatch(state, platform, groupId), message)
  {
  }

  lemma OneOfAnotherGroup(world: World, max: nat, state: Batches, message: Message, index: nat,
                          platform: string, groupId: string)
    requires !InGroup(message, platform, groupId)
    ensures var (m, after) := One(world, max, state, message, index);
            && !InGroup(m, platform, groupId)
            && GroupBatch(after, platform, groupId) == GroupBatch(state, platform, groupId)
  {
  }

  lemma {:induction false} AllOfTheGroup(world: World, max: nat, state: Batches, messages: seq<Message>, index: nat,
                                         platform: string, groupId: string)
    ensures var (enriched, after) := All(world, max, state, messages, index);
            (OfThe(enriched, platform, groupId), GroupBatch(after, platform, groupId))
            == WithBatch(world, max, GroupBatch(state, platform, groupId), OfThe(messages, platform, groupId))
    decreases |messages|
  {
    hide One, Retold, GroupBatch, InGroup;
    if messages != [] {
      var (first, told) := One(world, max, state, messages[0], index);
      var (rest, after) := All(world, max, told, messages[1..], index + 1);
      AllOfTheGroup(world, max, told, messages[1..], index + 1, platform, groupId);
      var kept := OfThe(messages[1..], platform, groupId);
      assert ([first] + rest)[1..] == rest && [] + kept == kept;
      assert [] + OfThe(rest, platform, groupId) == OfThe(rest, platform, groupId);
      if InGroup(messages[0], platform, groupId) {
        OneOfTheGroup(world, max, state, messages[0], index, platform, groupId);
        assert ([messages[0]] + kept)[1..] == kept;
        assert OfThe([first] + rest, platform, groupId) == [first] + OfThe(rest, platform, groupId);
      } else {
        OneOfAnotherGroup(world, max, state, messages[0], index, platform, groupId);
      }
    }
  }

  lemma {:induction false} OfTheSame(messages: seq<Message>, platform: string, groupId: string)
    ensures forall i | 0 <= i < |OfThe(messages, platform, groupId)| ::
              InGroup(OfThe(messages, platform, groupId)[i], platform, groupId)
  {
    if messages != [] {
      OfTheSame(messages[1..], platform, groupId);
    }
  }

  lemma {:induction false} AllInGroup(messages: seq<Message>, platform: string, groupId: string)
    requires forall i | 0 <= i < |messages| :: InGroup(messages[i], platform, groupId)
    ensures OfThe(messages, platform, groupId) == messages
  {
    if messages != [] {
      assert InGroup(messages[0], platform, groupId);
      AllInGroup(messages[1..], platform, groupId);
    }
  }

  lemma {:induction false} EnrichedStaysInGroup(world: World, max: nat, state: Batches, messages: seq<Message>,
                                                index: nat, platform: string, groupId: string)
    requires forall i | 0 <= i < |messages| :: InGroup(messages[i], platform, groupId)
    ensures forall i | 0 <= i < |All(world, max, state, messages, index).0| ::
              InGroup(All(world, max, state, messages, index).0[i], platform, groupId)
    decreases |messages|
  {
    hide One;
    if messages != [] {
      assert InGroup(messages[0], platform, groupId);
      OneOfTheGroup(world, max, state, messages[0], index, platform, groupId);
      EnrichedStaysInGroup(world, max, One(world, max, state, messages[0], index).1, messages[1..], index + 1,
                           platform, groupId);
    }
  }

  /** Enriching a mixed sequence and keeping one group gives what enriching only that group's
      messages gives, with or without an active request scope; and the scope's own batch
      ends up the same as if its group had been alone. */
  lemma GroupsAreIsolated(world: World, max: nat, scope: Option<Scope>, messages: seq<Message>,
                          platform: string, groupId: string)
    ensures var alone := EnrichedAll(world, max, scope, OfThe(messages, platform, groupId));
            && OfThe(EnrichedAll(world, max, scope, messages).0, platform, groupId) == alone.0
            && (scope.Some? && scope.value.platform == platform && scope.value.groupId == groupId ==>
                  EnrichedAll(world, max, scope, messages).1 == alone.1)
  {
    hide One, Enriched, OfThe, WithBatch, InGroup;
    var start, group := Batches(scope, map[]), OfThe(messages, platform, groupId);
    AllOfTheGroup(world, max, start, messages, 0, platform, groupId);
    AllOfTheGroup(world, max, start, group, 0, platform, groupId);
    OfTheSame(messages, platform, groupId);
    AllInGroup(group, platform, groupId);
    EnrichedStaysInGroup(world, max, start, group, 0, platform, groupId);
    AllInGroup(All(world, max, start, group, 0).0, platform, groupId);
    ScopeIsKept(world, max, start, messages, 0);
    ScopeIsKept(world, max, start, group, 0);
  }

  lemma {:induction false} ScopeIsKept(world: World, max: nat, state: Batches, messages: seq<Message>, index: nat)
    ensures var after := All(world, max, state, messages, index).1;
            && after.scope.Some? == state.scope.Some?
            && (state.scope.Some? ==> after.scope.value.platform == state.scope.value.platform
                                      && after.scope.value.groupId == state.scope.value.groupId)
    decreases |messages|
  {
    hide Enriched;
    if messages != [] {
      ScopeIsKept(world, max, One(world, max, state, messages[0], index).1, messages[1..], index + 1);
    }
  }

  /** The messages of the scope's group share the scope's batch, whatever else is enriched with them. */
  lemma ScopeIsShared(world: World, max: nat, scope: Scope, messages: seq<Message>)
    ensures var (enriched, after) := EnrichedAll(world, max, Some(scope), messages);
            && after.Some? && after.value == scope.(batch := after.value.batch)
            && (OfThe(enriched, scope.platform, scope.groupId), after.value.batch)
               == WithBatch(world, max, scope.batch, OfThe(messages, scope.platform, scope.groupId))
  {
    hide One, OfThe, WithBatch;
    AllOfTheGroup(world, max, Batches(Some(scope), map[]), messages, 0, scope.platform, scope.groupId);
    ScopeIsKept(world, max, Batches(Some(scope), map[]), messages, 0);
  }

  // ----- messages without a group -----

  ghost predicate EarlierOnly(local: map<BatchKey, Batch>, index: nat) {
    forall key: BatchKey | key in local && key.OfMessage? :: key.index < index
  }

  lemma {:induction false} AloneFrom(world: World, max: nat, state: Batches, messages: seq<Message>, index: nat, i: nat)
    requires i < |messages| && messages[i].context.groupId == None && EarlierOnly(state.local, index)
    ensures |All(world, max, state, messages, index).0| == |messages|
    ensures All(world, max, state, messages, index).0[i] == Enriched(world, max, EMPTY_BATCH, messages[i]).0
    decreases |messages|
  {
    hide Enriched;
    var told := One(world, max, state, messages[0], index).1;
    AllHasEvery(world, max, told, messages[1..], index + 1);
    if i > 0 {
      assert EarlierOnly(told.local, index + 1);
      AloneFrom(world, max, told, messages[1..], index + 1, i - 1);
    }
  }

  lemma {:induction false} AllHasEvery(world: World, max: nat, state: Batches, messages: seq<Message>, index: nat)
    ensures |All(world, max, state, messages, index).0| == |messages|
    decreases |messages|
  {
    hide One;
    if messages != [] {
      AllHasEvery(world, max, One(world, max, state, messages[0], index).1, messages[1..], index + 1);
    }
  }

  /** A message without a group is enriched with a batch of its own. */
  lemma UngroupedMessageIsAlone(world: World, max: nat, scope: Option<Scope>, messages: seq<Message>, i: nat)
    requires i < |messages| && messages[i].context.groupId == None
    ensures |EnrichedAll(world, max, scope, messages).0| == |messages|
    ensures EnrichedAll(world, max, scope, messages).0[i] == Enriched(world, max, EMPTY_BATCH, messages[i]).0
  {
    hide All, Enriched;
    AloneFrom(world, max, Batches(scope, map[]), messages, 0, i);
  }
}
