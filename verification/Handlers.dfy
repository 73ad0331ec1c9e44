/** The handlers in program order, with other workers' steps at every await. Each execution extends
    a run of the step relation of Protocol by its own actions and the others' steps. */
module Handlers {
  import opened Values
  import opened Outbox
  import opened Protocol

  datatype HandlerStatus =
    | Disabled | NotTrigger | InvalidContext | Duplicate | InProgress | Cooldown
    | GenerationFailed | PersistenceFailed | SendFailed | Succeeded | UsageSent

  predicate Delivers(status: HandlerStatus) {
    status == Succeeded || status == UsageSent
  }

  /** Nothing was sent. */
  predicate Silent(status: HandlerStatus) {
    status == Disabled || status == NotTrigger || status == InvalidContext || status == Duplicate
    || status == InProgress || status == Cooldown
  }

  /** How the calls of one execution end. A call that raises may have been committed. */
  datatype Fate = Fate(
    claimRaises: Option<bool>,
    generated: bool,
    sent: bool,
    persisted: bool,
    committed: bool
  )

  // ----- runs, seen from one worker -----

  /** A run of the protocol in which one worker is followed. */
  datatype Trace = Trace(config: Config, start: State, worker: nat, steps: seq<Step>) {
    function Now(): State {
      Run(config, start, steps)
    }

    function Then(action: Action): Trace {
      this.(steps := steps + [Work(worker, action)])
    }

    function OwnSends(): nat {
      SendsBy(worker, steps)
    }
  }

  function SendsBy(w: nat, steps: seq<Step>): nat {
    if steps == [] then 0
    else
      var last := steps[|steps| - 1];
      SendsBy(w, steps[..|steps| - 1]) + if last.Work? && last.worker == w && last.action.Send? then 1 else 0
  }

  /** A step of anyone else. A crash would end the execution instead. */
  predicate OtherStep(w: nat, step: Step) {
    !step.Crash? && (step.Work? ==> step.worker != w)
  }

  ghost predicate OtherSteps(w: nat, steps: seq<Step>) {
    forall i | 0 <= i < |steps| :: OtherStep(w, steps[i])
  }

  ghost predicate Continues(before: Trace, after: Trace) {
    after == before.(steps := after.steps) && before.steps <= after.steps
  }

  /** The followed worker did nothing in between. */
  ghost predicate Resumes(before: Trace, after: Trace) {
    Continues(before, after) && OtherSteps(before.worker, after.steps[|before.steps|..])
  }

  ghost predicate Standing(s: State, w: nat, row: nat, trigger: Trigger, stage: Stage) {
    s.started && w < |s.workers| && s.workers[w] == At(row, trigger, stage)
  }

  lemma {:induction false} RunMore(config: Config, s: State, steps: seq<Step>, more: seq<Step>)
    ensures Run(config, s, steps + more) == Run(config, Run(config, s, steps), more)
    decreases |steps|
  {
    hide Next;
    if steps == [] {
      assert steps + more == more;
    } else {
      assert (steps + more)[0] == steps[0] && (steps + more)[1..] == steps[1..] + more;
      RunMore(config, Next(config, s, steps[0]), steps[1..], more);
    }
  }

  /** At most this worker's entry differs. */
  ghost predicate OnlyMoves(s: State, t: State, v: nat) {
    && t.started == s.started && |t.workers| == |s.workers|
    && forall u | 0 <= u < |s.workers| && u != v :: t.workers[u] == s.workers[u]
  }

  lemma TakenMoves(s: State, v: nat, now: int)
    requires v < |s.workers|
    ensures OnlyMoves(s, Taken(s, v, now), v)
  {
    hide Claimed, Claimable;
  }

  lemma RecordedMoves(s: State, v: nat, action: Action)
    requires v < |s.workers| && s.workers[v].At? && action.Record?
    ensures OnlyMoves(s, Recorded(s, v, action), v)
  {
    hide Each;
  }

  lemma InvokedMoves(s: State, v: nat, row: nat)
    requires v < |s.workers| && s.workers[v].At?
    ensures OnlyMoves(s, Invoked(s, v, row), v)
  {
  }

  lemma UnbusyMoves(s: State, t: State, trigger: Trigger, v: nat)
    requires OnlyMoves(s, t, v)
    ensures OnlyMoves(s, Unbusy(t, trigger), v)
  {
  }

  lemma ToMoves(s: State, v: nat, stage: Stage)
    requires v < |s.workers| && s.workers[v].At?
    ensures OnlyMoves(s, To(s, v, stage), v)
  {
  }

  lemma ActMoves(s: State, v: nat, action: Action)
    requires v < |s.workers|
    ensures OnlyMoves(s, Act(s, v, action), v)
  {
    hide Taken, Recorded, Unbusy, To, Invoked;
    if s.workers[v].Idle? {
      if action.Take? {
        TakenMoves(s, v, action.now);
      }
    } else {
      forall stage
        ensures OnlyMoves(s, To(s, v, stage), v)
      {
        ToMoves(s, v, stage);
      }
      forall t: State, trigger | OnlyMoves(s, t, v)
        ensures OnlyMoves(s, Unbusy(t, trigger), v)
      {
        UnbusyMoves(s, t, trigger, v);
      }
      if action.Record? {
        RecordedMoves(s, v, action);
      }
      InvokedMoves(s, v, s.workers[v].row);
    }
  }

  lemma OtherStepKeepsWorker(config: Config, s: State, w: nat, step: Step)
    requires s.started && w < |s.workers| && OtherStep(w, step)
    ensures var t := Next(config, s, step);
            t.started && |t.workers| == |s.workers| && t.workers[w] == s.workers[w]
  {
    hide Act, Created, Pruned, Each, Known;
    if step.Work? && step.worker < |s.workers| {
      ActMoves(s, step.worker, step.action);
    }
  }

  lemma {:induction false} OtherStepsKeepWorker(config: Config, s: State, w: nat, steps: seq<Step>)
    requires s.started && w < |s.workers| && OtherSteps(w, steps)
    ensures var t := Run(config, s, steps);
            t.started && |t.workers| == |s.workers| && t.workers[w] == s.workers[w]
    decreases |steps|
  {
    hide Next;
    if steps != [] {
      OtherStepKeepsWorker(config, s, w, steps[0]);
      OtherStepsKeepWorker(config, Next(config, s, steps[0]), w, steps[1..]);
    }
  }

  lemma {:induction false} OtherStepsSendNothing(w: nat, steps: seq<Step>, more: seq<Step>)
    requires OtherSteps(w, more)
    ensures SendsBy(w, steps + more) == SendsBy(w, steps)
    decreases |more|
  {
    if more == [] {
      assert steps + more == steps;
    } else {
      var earlier, last := more[..|more| - 1], more[|more| - 1];
      assert (steps + more)[..|steps + more| - 1] == steps + earlier && OtherStep(w, last);
      OtherStepsSendNothing(w, steps, earlier);
    }
  }

  /** Whatever the others do, the worker stands where it stood, and it has sent nothing. */
  lemma ResumesWhereItStood(before: Trace, after: Trace)
    requires Resumes(before, after) && before.Now().started && before.worker < |before.Now().workers|
    ensures after.Now().started && |after.Now().workers| == |before.Now().workers|
    ensures after.Now().workers[before.worker] == before.Now().workers[before.worker]
    ensures after.OwnSends() == before.OwnSends()
  {
    hide Run, SendsBy;
    var others := after.steps[|before.steps|..];
    assert after.steps == before.steps + others;
    RunMore(before.config, before.start, before.steps, others);
    OtherStepsKeepWorker(before.config, before.Now(), before.worker, others);
    OtherStepsSendNothing(before.worker, before.steps, others);
  }

  /** An own action is the next step of the run. */
  lemma ThenActs(trace: Trace, action: Action)
    requires trace.Now().started && trace.worker < |trace.Now().workers|
    ensures Continues(trace, trace.Then(action))
    ensures trace.Then(action).Now() == Act(trace.Now(), trace.worker, action)
    ensures trace.Then(action).OwnSends() == trace.OwnSends() + if action.Send? then 1 else 0
  {
    hide Act;
    var step := Work(trace.worker, action);
    RunMore(trace.config, trace.start, trace.steps, [step]);
    assert [step][1..] == [] && (trace.steps + [step])[..|trace.steps|] == trace.steps;
    assert Run(trace.config, trace.Now(), [step]) == Act(trace.Now(), trace.worker, action);
  }

  // ----- nothing that happened is undone -----

  /** Claims, interactions, deliveries and sends are only added. */
  ghost predicate OnlyAdds(s: State, t: State) {
    s.claims <= t.claims && s.interactions <= t.interactions && s.confirmed <= t.confirmed && s.sends <= t.sends
  }

  lemma ActOnlyAdds(s: State, w: nat, action: Action)
    requires w < |s.workers|
    ensures OnlyAdds(s, Act(s, w, action))
  {
    hide Taken, Recorded, Unbusy, To;
    if s.workers[w].Idle? {
      if action.Take? {
        TakenAdds(s, w, action.now);
      }
    } else {
      forall stage
        ensures SameRecords(s, To(s, w, stage))
      {
        ToAdds(s, w, stage);
      }
      forall t: State, trigger
        ensures SameRecords(t, Unbusy(t, trigger))
      {
        UnbusyAdds(t, trigger);
      }
      if action.Record? {
        RecordedAdds(s, w, action);
      }
    }
  }

  ghost predicate SameRecords(s: State, t: State) {
    t.claims == s.claims && t.interactions == s.interactions && t.confirmed == s.confirmed && t.sends == s.sends
  }

  lemma TakenAdds(s: State, w: nat, now: int)
    requires w < |s.workers|
    ensures SameRecords(s, Taken(s, w, now))
  {
    hide Claimed, Claimable;
  }

  lemma ToAdds(s: State, w: nat, stage: Stage)
    requires w < |s.workers| && s.workers[w].At?
    ensures SameRecords(s, To(s, w, stage))
  {
  }

  lemma UnbusyAdds(s: State, trigger: Trigger)
    ensures SameRecords(s, Unbusy(s, trigger))
  {
  }

  lemma RecordedAdds(s: State, w: nat, action: Action)
    requires w < |s.workers| && s.workers[w].At? && action.Record?
    ensures SameRecords(s, Recorded(s, w, action))
  {
    hide Each;
  }

  lemma StepOnlyAdds(config: Config, s: State, step: Step)
    ensures OnlyAdds(s, Next(config, s, step))
  {
    hide Act, Created, Pruned, Each, Known;
    if step.Work? && step.worker < |s.workers| {
      ActOnlyAdds(s, step.worker, step.action);
    }
  }

  lemma {:induction false} RunOnlyAdds(config: Config, s: State, steps: seq<Step>)
    ensures OnlyAdds(s, Run(config, s, steps))
    decreases |steps|
  {
    hide Next;
    if steps != [] {
      StepOnlyAdds(config, s, steps[0]);
      RunOnlyAdds(config, Next(config, s, steps[0]), steps[1..]);
    }
  }

  /** Whoever takes the steps. */
  lemma ContinuingOnlyAdds(before: Trace, after: Trace)
    requires Continues(before, after)
    ensures OnlyAdds(before.Now(), after.Now())
  {
    hide Run, OnlyAdds;
    var more := after.steps[|before.steps|..];
    assert after.steps == before.steps + more;
    RunMore(before.config, before.start, before.steps, more);
    RunOnlyAdds(before.config, before.Now(), more);
  }

  // ----- what each action does -----

  lemma DeclineActs(s: State, w: nat, row: nat, trigger: Trigger)
    requires Standing(s, w, row, trigger, Claiming)
    ensures var t := Act(s, w, Decline);
            Standing(t, w, row, trigger, Failing(true)) && t == s.(workers := t.workers)
  {
  }

  lemma ClaimActs(s: State, w: nat, row: nat, trigger: Trigger)
    requires Standing(s, w, row, trigger, Claiming)
    ensures var t := Act(s, w, Claim);
            && Standing(t, w, row, trigger, if trigger in s.claims then Failing(true) else Guarding)
            && t == s.(workers := t.workers, claims := s.claims + {trigger})
  {
    assert trigger in s.claims ==> s.claims + {trigger} == s.claims;
  }

  lemma ClaimRaisesActs(s: State, w: nat, row: nat, trigger: Trigger, committed: bool)
    requires Standing(s, w, row, trigger, Claiming)
    ensures var t := Act(s, w, ClaimRaises(committed));
            && Standing(t, w, row, trigger, Failing(true))
            && t == s.(workers := t.workers, claims := if committed then s.claims + {trigger} else s.claims)
  {
  }

  lemma GuardActs(s: State, w: nat, row: nat, trigger: Trigger, cooling: bool)
    requires Standing(s, w, row, trigger, Guarding)
    ensures var t := Act(s, w, Guard(cooling));
            var stopped := cooling || (trigger.kind == Summary && Group(trigger) in s.busy);
            && Standing(t, w, row, trigger, if stopped then Failing(true) else Working)
            && t == s.(workers := t.workers,
                       busy := if !stopped && trigger.kind == Summary then s.busy + {Group(trigger)} else s.busy)
  {
  }

  /** A summary clears its group's mark when it gives up. */
  lemma GiveUpActs(s: State, w: nat, row: nat, trigger: Trigger)
    requires Standing(s, w, row, trigger, Working)
    ensures var t := Act(s, w, GiveUp);
            && Standing(t, w, row, trigger, Failing(true))
            && t == s.(workers := t.workers,
                       busy := if trigger.kind == Summary then s.busy - {Group(trigger)} else s.busy)
  {
  }

  lemma SendActs(s: State, w: nat, row: nat, trigger: Trigger, purpose: Purpose)
    requires Standing(s, w, row, trigger, Working) && (purpose == Reply || IsAssistant(trigger.kind))
    ensures var t := Act(s, w, Send(purpose));
            && Standing(t, w, row, trigger, InFlight(purpose))
            && t == s.(workers := t.workers, sends := s.sends + [trigger])
  {
  }

  /** Where the worker is after its send returned. */
  function Returned(trigger: Trigger, purpose: Purpose, ok: bool): Stage {
    if !ok || purpose == Notice then Failing(true)
    else if purpose == Reply && IsAssistant(trigger.kind) then Persisting
    else Completing(false)
  }

  lemma ReturnActs(s: State, w: nat, row: nat, trigger: Trigger, purpose: Purpose, ok: bool)
    requires Standing(s, w, row, trigger, InFlight(purpose)) && (purpose == Reply || IsAssistant(trigger.kind))
    ensures var t := Act(s, w, Return(ok));
            && Standing(t, w, row, trigger, Returned(trigger, purpose, ok))
            && t == s.(workers := t.workers,
                       confirmed := if ok && purpose != Notice then s.confirmed + {trigger} else s.confirmed,
                       permits := s.permits + (if Returned(trigger, purpose, ok) == Completing(false) then 1 else 0),
                       busy := if trigger.kind == Summary then s.busy - {Group(trigger)} else s.busy)
  {
  }

  lemma PersistActs(s: State, w: nat, row: nat, trigger: Trigger, ok: bool, committed: bool)
    requires Standing(s, w, row, trigger, Persisting)
    ensures var t := Act(s, w, Persist(ok, committed));
            && Standing(t, w, row, trigger, if ok then Completing(false) else Failing(true))
            && t == s.(workers := t.workers, permits := s.permits + (if ok then 1 else 0),
                       interactions := if ok || committed then s.interactions + {trigger} else s.interactions)
  {
  }

  // ----- what the workers share -----

  /** The durable tables, the platform, the permits of the pool and the groups with a summary in
      progress. The ghost field records what was reported delivered. Claims are never deleted. */
  class Shared {
    const repository: InteractionOutboxRepository
    var claims: set<Trigger>
    var interactions: set<Trigger>
    var sends: seq<Trigger>
    var activeGroups: set<(string, string)>
    var permits: int
    ghost var confirmed: set<Trigger>

    ghost predicate Mirrors(s: State)
      reads this, repository
    {
      && repository.Valid() && repository.rows == s.rows
      && claims == s.claims && interactions == s.interactions && sends == s.sends && confirmed == s.confirmed
      && activeGroups == s.busy && permits == s.permits
    }

    constructor (repository: InteractionOutboxRepository, maxConcurrent: nat)
      requires maxConcurrent >= 1
      ensures this.repository == repository && permits == maxConcurrent
      ensures claims == {} && interactions == {} && sends == [] && activeGroups == {} && confirmed == {}
    {
      this.repository, permits := repository, maxConcurrent;
      claims, interactions, sends, activeGroups, confirmed := {}, {}, [], {}, {};
    }

    /** An await. Until this worker goes on, the others may take any steps: nothing else is known
        here of what they did to anything that is shared. */
    method Pause(ghost trace: Trace) returns (ghost later: Trace)
      requires Mirrors(trace.Now())
      modifies this, repository
      ensures Resumes(trace, later) && Mirrors(later.Now())
    {
      later := trace;
    }

    /** True for the first claim only; None when the call raises. */
    method ClaimTrigger(trigger: Trigger, raises: Option<bool>) returns (claimed: Option<bool>)
      modifies this`claims
      ensures raises.None? ==> claimed == Some(trigger !in old(claims)) && claims == old(claims) + {trigger}
      ensures raises.Some? ==>
                claimed == None && claims == if raises.value then old(claims) + {trigger} else old(claims)
    {
      if raises.Some? {
        if raises.value {
          claims := claims + {trigger};
        }
        return None;
      }
      claimed := Some(trigger !in claims);
      claims := claims + {trigger};
    }

    /** The message leaves. Whether it arrived is known when the call returns. */
    method SendGroupMessage(trigger: Trigger)
      modifies this`sends
      ensures sends == old(sends) + [trigger]
    {
      sends := sends + [trigger];
    }

    /** The call returns; an answer that was delivered is recorded. */
    method SendReturns(trigger: Trigger, ok: bool, ghost answers: bool) returns (delivered: bool)
      modifies this`confirmed
      ensures delivered == ok
      ensures confirmed == if ok && answers then old(confirmed) + {trigger} else old(confirmed)
    {
      if ok && answers {
        confirmed := confirmed + {trigger};
      }
      delivered := ok;
    }

    method InsertInteraction(trigger: Trigger, ok: bool, committed: bool) returns (stored: bool)
      modifies this`interactions
      ensures stored == ok
      ensures interactions == if ok || committed then old(interactions) + {trigger} else old(interactions)
    {
      if ok || committed {
        interactions := interactions + {trigger};
      }
      stored := ok;
    }
  }

  /** The end of a handler: its outcome decides how the row is recorded. */
  function Ended(status: HandlerStatus): Stage {
    if Delivers(status) then Completing(false) else Failing(true)
  }

  /** The state in which the worker has not yet returned the permit of a delivered answer. */
  function Unreturned(s: State, status: HandlerStatus): State {
    s.(permits := s.permits - if Delivers(status) then 1 else 0)
  }

  /** The handler went from its claim to its outcome, and sent at most once: once if it delivered,
      never if its outcome is a silent one. */
  ghost predicate Handled(before: Trace, after: Trace, row: nat, trigger: Trigger, status: HandlerStatus) {
    && Continues(before, after) && Standing(after.Now(), after.worker, row, trigger, Ended(status))
    && after.OwnSends() <= before.OwnSends() + 1
    && (Delivers(status) ==> after.OwnSends() == before.OwnSends() + 1)
    && (Silent(status) ==> after.OwnSends() == before.OwnSends())
  }

  /** What a handler found on its way: the run when it claimed its trigger and when it looked at the
      guards, and whether its cooldown was still running. */
  datatype Found = Found(claiming: Trace, guarding: Trace, cooling: bool)

  /** The handler claims, and is the first. */
  ghost predicate Wins(found: Found, trigger: Trigger, fate: Fate) {
    fate.claimRaises.None? && trigger !in found.claiming.Now().claims
  }

  // ----- cooldowns -----

  predicate IsFree<K>(lastStarted: map<K, int>, key: K, now: int, cooldown: nat) {
    !(key in lastStarted && now - lastStarted[key] < cooldown)
  }

  /** Which calls are starts, call by call. */
  function Starts<K(==)>(lastStarted: map<K, int>, calls: seq<(K, int)>, cooldown: nat): (starts: seq<bool>)
    ensures |starts| == |calls|
    decreases |calls|
  {
    if calls == [] then []
    else
      var (key, now) := calls[0];
      var free := IsFree(lastStarted, key, now, cooldown);
      [free] + Starts(if free then lastStarted[key := now] else lastStarted, calls[1..], cooldown)
  }

  lemma {:induction false} StartsAfter<K>(lastStarted: map<K, int>, calls: seq<(K, int)>, cooldown: nat, key: K,
                                          since: int, j: nat)
    requires j < |calls| && calls[j].0 == key && Starts(lastStarted, calls, cooldown)[j]
    requires key in lastStarted && lastStarted[key] >= since
    ensures calls[j].1 - since >= cooldown
    decreases |calls|
  {
    if j > 0 {
      var free := IsFree(lastStarted, calls[0].0, calls[0].1, cooldown);
      var next := if free then lastStarted[calls[0].0 := calls[0].1] else lastStarted;
      assert Starts(next, calls[1..], cooldown)[j - 1];
      StartsAfter(next, calls[1..], cooldown, key, since, j - 1);
    }
  }

  /** Over any sequence of calls, with whatever clock, two starts of one key are a cooldown apart. */
  lemma {:induction false} StartsAreApart<K>(lastStarted: map<K, int>, calls: seq<(K, int)>, cooldown: nat,
                                             i: nat, j: nat)
    requires i < j < |calls| && calls[i].0 == calls[j].0
    requires Starts(lastStarted, calls, cooldown)[i] && Starts(lastStarted, calls, cooldown)[j]
    ensures calls[j].1 - calls[i].1 >= cooldown
    decreases |calls|
  {
    var free := IsFree(lastStarted, calls[0].0, calls[0].1, cooldown);
    var next := if free then lastStarted[calls[0].0 := calls[0].1] else lastStarted;
    assert Starts(lastStarted, calls, cooldown) == [free] + Starts(next, calls[1..], cooldown);
    assert Starts(next, calls[1..], cooldown)[j - 1];
    if i == 0 {
      StartsAfter(next, calls[1..], cooldown, calls[0].0, calls[0].1, j - 1);
    } else {
      assert Starts(next, calls[1..], cooldown)[i - 1];
      StartsAreApart(next, calls[1..], cooldown, i - 1, j - 1);
    }
  }

  /** Call i is a start of call j's key, and none lies between them. */
  ghost predicate IsLastStart<K>(starts: seq<bool>, calls: seq<(K, int)>, i: nat, j: nat)
    requires j < |calls| == |starts|
  {
    && i < j && calls[i].0 == calls[j].0 && starts[i]
    && forall k | i < k < j && calls[k].0 == calls[j].0 :: !starts[k]
  }

  ghost predicate NoStartYet<K>(starts: seq<bool>, calls: seq<(K, int)>, j: nat)
    requires j < |calls| == |starts|
  {
    forall k | 0 <= k < j && calls[k].0 == calls[j].0 :: !starts[k]
  }

  /** A call is refused exactly when the last start of its key, in this sequence or before it, is less
      than a cooldown ago. */
  lemma {:induction false} RefusedExactly<K>(lastStarted: map<K, int>, calls: seq<(K, int)>, cooldown: nat, j: nat)
    requires j < |calls|
    ensures var starts := Starts(lastStarted, calls, cooldown);
            !starts[j] <==> || (exists i: nat :: IsLastStart(starts, calls, i, j) && calls[j].1 - calls[i].1 < cooldown)
                            || (NoStartYet(starts, calls, j) && calls[j].0 in lastStarted
                                && calls[j].1 - lastStarted[calls[j].0] < cooldown)
    decreases |calls|
  {
    var starts, key := Starts(lastStarted, calls, cooldown), calls[j].0;
    if j > 0 {
      var free := IsFree(lastStarted, calls[0].0, calls[0].1, cooldown);
      var next := if free then lastStarted[calls[0].0 := calls[0].1] else lastStarted;
      var rest, later := Starts(next, calls[1..], cooldown), calls[1..];
      RefusedExactly(next, later, cooldown, j - 1);
      assert starts == [free] + rest && later[j - 1] == calls[j];
      forall i: nat | i > 0
        ensures IsLastStart(starts, calls, i, j) <==> IsLastStart(rest, later, i - 1, j - 1)
      {
        LastStartInTail(free, rest, calls, i - 1, j);
      }
      NoStartInTail(free, rest, calls, j);
      if i: nat :| IsLastStart(starts, calls, i, j) && calls[j].1 - calls[i].1 < cooldown {
        if i > 0 {
          assert IsLastStart(rest, later, i - 1, j - 1) && later[i - 1] == calls[i];
        }
      }
      if i: nat :| IsLastStart(rest, later, i, j - 1) && later[j - 1].1 - later[i].1 < cooldown {
        assert IsLastStart(starts, calls, i + 1, j) && later[i] == calls[i + 1];
      }
    }
  }

  lemma LastStartInTail<K>(free: bool, rest: seq<bool>, calls: seq<(K, int)>, i: nat, j: nat)
    requires 0 < j < |calls| == |rest| + 1
    ensures IsLastStart(rest, calls[1..], i, j - 1) <==> IsLastStart([free] + rest, calls, i + 1, j)
  {
    var starts, later := [free] + rest, calls[1..];
    assert forall k | 0 < k <= j :: starts[k] == rest[k - 1] && calls[k] == later[k - 1];
    if IsLastStart(starts, calls, i + 1, j) {
      forall k | i < k < j - 1 && later[k].0 == calls[j].0
        ensures !rest[k]
      {
        assert !starts[k + 1];
      }
    }
  }

  lemma NoStartInTail<K>(free: bool, rest: seq<bool>, calls: seq<(K, int)>, j: nat)
    requires 0 < j < |calls| == |rest| + 1
    ensures var starts := [free] + rest;
            && (NoStartYet(starts, calls, j)
                <==> NoStartYet(rest, calls[1..], j - 1) && !(free && calls[0].0 == calls[j].0))
            && (IsLastStart(starts, calls, 0, j)
                <==> NoStartYet(rest, calls[1..], j - 1) && free && calls[0].0 == calls[j].0)
  {
    var starts, later := [free] + rest, calls[1..];
    assert forall k | 0 < k <= j :: starts[k] == rest[k - 1] && calls[k] == later[k - 1];
    if NoStartYet(starts, calls, j) || IsLastStart(starts, calls, 0, j) {
      forall k | 0 <= k < j - 1 && later[k].0 == calls[j].0
        ensures !rest[k]
      {
        assert !starts[k + 1];
      }
    }
  }

  // ----- the assistant -----

  class GroupAssistantHandler {
    const shared: Shared
    const enabled: bool
    const cooldownSeconds: nat
    var lastStarted: map<(string, string, string), int>

    constructor (shared: Shared, enabled: bool, cooldownSeconds: int)
      requires cooldownSeconds >= 0
      ensures this.shared == shared && this.enabled == enabled && this.cooldownSeconds == cooldownSeconds
      ensures lastStarted == map[]
    {
      this.shared, this.enabled, this.cooldownSeconds := shared, enabled, cooldownSeconds;
      lastStarted := map[];
    }

    /** False while the requester's last start is too recent; otherwise this is a start. */
    method ClaimCooldown(key: (string, string, string), now: int) returns (free: bool)
      modifies this`lastStarted
      ensures free <==> !(key in old(lastStarted) && now - old(lastStarted)[key] < cooldownSeconds)
      ensures Starts(old(lastStarted), [(key, now)], cooldownSeconds) == [free]
      ensures lastStarted == if free then old(lastStarted)[key := now] else old(lastStarted)
    {
      if key in lastStarted && now - lastStarted[key] < cooldownSeconds {
        return false;
      }
      lastStarted := lastStarted[key := now];
      free := true;
    }

    /** An await, during which other calls of this handler may start cooldowns. */
    method Await(ghost trace: Trace) returns (ghost later: Trace)
      requires shared.Mirrors(trace.Now())
      modifies this`lastStarted, shared, shared.repository
      ensures Resumes(trace, later) && shared.Mirrors(later.Now())
    {
      later := shared.Pause(trace);
    }

    /** Exactly how a call ends. A disabled handler, a message that is no trigger and an invalid context
        claim nothing; a trigger that was claimed before is a duplicate. A won claim without input is
        answered with the usage; one with input is answered and stored unless the requester is cooling
        down or a call fails. */
    method Handle(trigger: Trigger, detected: bool, validContext: bool, hasInput: bool, requester: string, now: int,
                  fate: Fate, ghost before: Trace, ghost row: nat)
      returns (status: HandlerStatus, ghost trace: Trace, ghost found: Found,
               ghost started: map<(string, string, string), int>)
      requires IsAssistant(trigger.kind) && Standing(before.Now(), before.worker, row, trigger, Claiming)
      requires shared.Mirrors(before.Now())
      modifies this`lastStarted, shared, shared.repository
      ensures Handled(before, trace, row, trigger, status) && shared.Mirrors(Unreturned(trace.Now(), status))
      ensures status == Disabled <==> !enabled
      ensures status == NotTrigger <==> enabled && !detected
      ensures status == InvalidContext <==> enabled && detected && !validContext
      ensures !(enabled && detected && validContext) ==> trace.Now().claims == before.Now().claims
      ensures Resumes(before, found.claiming) && Continues(found.claiming, trace)
      ensures found.cooling <==> (trigger.platform, trigger.groupId, requester) in started
                                 && now - started[(trigger.platform, trigger.groupId, requester)] < cooldownSeconds
      ensures var passes := enabled && detected && validContext;
              var wins := passes && Wins(found, trigger, fate);
              var answers := wins && hasInput && !found.cooling;
              && (status == Duplicate <==> passes && fate.claimRaises.None? && !wins)
              && (status == UsageSent <==> wins && !hasInput && fate.sent)
              && (status == Cooldown <==> wins && hasInput && found.cooling)
              && (status == GenerationFailed <==> answers && !fate.generated)
              && (status == SendFailed <==> (wins && !hasInput && !fate.sent) || (answers && fate.generated && !fate.sent))
              && (status == PersistenceFailed <==> (passes && fate.claimRaises.Some?)
                                                   || (answers && fate.generated && fate.sent && !fate.persisted))
              && (status == Succeeded <==> answers && fate.generated && fate.sent && fate.persisted)
              && trace.OwnSends() == before.OwnSends() + (if (wins && !hasInput) || answers then 1 else 0)
              && (passes && fate.claimRaises.None? ==> trigger in trace.Now().claims)
              && (status == Succeeded ==> trigger in trace.Now().interactions)
              && (Delivers(status) ==> trigger in trace.Now().confirmed)
    {
      hide Run, SendsBy, Act, Trace.Now, Trace.OwnSends, Trace.Then, Table, OtherSteps;
      found, started := Found(before, before, false), map[];
      ResumesAtOnce(before);
      if !enabled || !detected || !validContext {
        status := if !enabled then Disabled else if !detected then NotTrigger else InvalidContext;
        trace := Declined(before, row, trigger);
        return;
      }
      var claimed;
      ghost var claiming;
      claimed, trace, claiming := Claims(shared, trigger, fate.claimRaises, before, row);
      found := found.(claiming := claiming);
      if claimed != Some(true) {
        status := if claimed.None? then PersistenceFailed else Duplicate;
        return;
      }
      ghost var won, cooling := trace, false;
      status, trace, cooling, started := HandleClaimed(trigger, hasInput, requester, now, fate, trace, row);
      found := found.(cooling := cooling);
      ContinuingOnlyAdds(won, trace);
    }

    /** The rest of Handle, after the claim is won. */
    method HandleClaimed(trigger: Trigger, hasInput: bool, requester: string, now: int, fate: Fate,
                         ghost before: Trace, ghost row: nat)
      returns (status: HandlerStatus, ghost trace: Trace, ghost cooling: bool,
               ghost started: map<(string, string, string), int>)
      requires IsAssistant(trigger.kind) && Standing(before.Now(), before.worker, row, trigger, Guarding)
      requires shared.Mirrors(before.Now())
      modifies this`lastStarted, shared, shared.repository
      ensures Handled(before, trace, row, trigger, status) && shared.Mirrors(Unreturned(trace.Now(), status))
      ensures cooling <==> (trigger.platform, trigger.groupId, requester) in started
                           && now - started[(trigger.platform, trigger.groupId, requester)] < cooldownSeconds
      ensures var answers := hasInput && !cooling;
              && (status == UsageSent <==> !hasInput && fate.sent)
              && (status == Cooldown <==> hasInput && cooling)
              && (status == GenerationFailed <==> answers && !fate.generated)
              && (status == SendFailed <==> (!hasInput && !fate.sent) || (answers && fate.generated && !fate.sent))
              && (status == PersistenceFailed <==> answers && fate.generated && fate.sent && !fate.persisted)
              && (status == Succeeded <==> answers && fate.generated && fate.sent && fate.persisted)
              && trace.OwnSends() == before.OwnSends() + (if !hasInput || answers then 1 else 0)
              && (status == Succeeded ==> trigger in trace.Now().interactions)
              && (Delivers(status) ==> trigger in trace.Now().confirmed)
    {
      hide Run, SendsBy, Act, Trace.Now, Trace.OwnSends, Trace.Then, Table, OtherSteps;
      cooling, started := false, map[];
      if !hasInput {
        status, trace := SendUsage(trigger, fate, before, row);
        return;
      }
      ghost var waited := Await(before);
      ResumesWhereItStood(before, waited);
      started := lastStarted;
      var free := ClaimCooldown((trigger.platform, trigger.groupId, requester), now);
      cooling := !free;
      trace := waited.Then(Guard(!free));
      ThenActs(waited, Guard(!free));
      GuardActs(waited.Now(), waited.worker, row, trigger, !free);
      if !free {
        status := Cooldown;
        return;
      }
      status, trace := HandleStarted(trigger, fate, trace, row);
    }

    /** A claim without input. */
    method SendUsage(trigger: Trigger, fate: Fate, ghost before: Trace, ghost row: nat)
      returns (status: HandlerStatus, ghost trace: Trace)
      requires IsAssistant(trigger.kind) && Standing(before.Now(), before.worker, row, trigger, Guarding)
      requires shared.Mirrors(before.Now())
      modifies shared, shared.repository
      ensures Handled(before, trace, row, trigger, status) && shared.Mirrors(Unreturned(trace.Now(), status))
      ensures trace.OwnSends() == before.OwnSends() + 1
      ensures status == if fate.sent then UsageSent else SendFailed
      ensures status == UsageSent ==> trigger in trace.Now().confirmed
    {
      hide Run, SendsBy, Act, Trace.Now, Trace.OwnSends, Trace.Then, Table, OtherSteps;
      ghost var passed := Passed(before, row, trigger);
      var delivered, sent := Send(trigger, Usage, fate.sent, passed, row);
      status, trace := if delivered then UsageSent else SendFailed, sent;
    }

    /** Generate, send, persist. A failed generation is excused with a message of its own. */
    method HandleStarted(trigger: Trigger, fate: Fate, ghost before: Trace, ghost row: nat)
      returns (status: HandlerStatus, ghost trace: Trace)
      requires IsAssistant(trigger.kind) && Standing(before.Now(), before.worker, row, trigger, Working)
      requires shared.Mirrors(before.Now())
      modifies shared, shared.repository
      ensures Handled(before, trace, row, trigger, status) && shared.Mirrors(Unreturned(trace.Now(), status))
      ensures trace.OwnSends() == before.OwnSends() + 1
      ensures status == GenerationFailed <==> !fate.generated
      ensures status == SendFailed <==> fate.generated && !fate.sent
      ensures status == PersistenceFailed <==> fate.generated && fate.sent && !fate.persisted
      ensures status == Succeeded <==> fate.generated && fate.sent && fate.persisted
      ensures status in {GenerationFailed, SendFailed, PersistenceFailed, Succeeded}
      ensures status == Succeeded ==> trigger in trace.Now().interactions && trigger in trace.Now().confirmed
    {
      hide Run, SendsBy, Act, Trace.Now, Trace.OwnSends, Trace.Then, Table, OtherSteps;
      var delivered, replied := Send(trigger, if fate.generated then Reply else Notice, fate.sent, before, row);
      if !fate.generated || !delivered {
        status, trace := if fate.generated then SendFailed else GenerationFailed, replied;
        return;
      }
      ghost var persisting := shared.Pause(replied);
      ResumesWhereItStood(replied, persisting);
      ContinuingOnlyAdds(replied, persisting);
      var stored := shared.InsertInteraction(trigger, fate.persisted, fate.committed);
      trace := persisting.Then(Persist(fate.persisted, fate.committed));
      ThenActs(persisting, Persist(fate.persisted, fate.committed));
      PersistActs(persisting.Now(), persisting.worker, row, trigger, fate.persisted, fate.committed);
      status := if stored then Succeeded else PersistenceFailed;
    }

    /** One send from start to return, with others in between. */
    method Send(trigger: Trigger, purpose: Purpose, ok: bool, ghost before: Trace, ghost row: nat)
      returns (delivered: bool, ghost trace: Trace)
      requires IsAssistant(trigger.kind) && Standing(before.Now(), before.worker, row, trigger, Working)
      requires shared.Mirrors(before.Now())
      modifies shared, shared.repository
      ensures delivered == ok && Continues(before, trace) && trace.OwnSends() == before.OwnSends() + 1
      ensures Standing(trace.Now(), trace.worker, row, trigger, Returned(trigger, purpose, ok))
      ensures shared.Mirrors(Unreturned(trace.Now(), if ok && purpose == Usage then UsageSent else SendFailed))
      ensures ok && purpose != Notice ==> trigger in trace.Now().confirmed
    {
      hide Run, SendsBy, Act, Trace.Now, Trace.OwnSends, Trace.Then, Table, OtherSteps;
      ghost var waited := shared.Pause(before);
      ResumesWhereItStood(before, waited);
      shared.SendGroupMessage(trigger);
      ghost var sent := waited.Then(Action.Send(purpose));
      ThenActs(waited, Action.Send(purpose));
      SendActs(waited.Now(), waited.worker, row, trigger, purpose);
      ghost var flying := shared.Pause(sent);
      ResumesWhereItStood(sent, flying);
      delivered := shared.SendReturns(trigger, ok, purpose != Notice);
      trace := flying.Then(Return(ok));
      ThenActs(flying, Return(ok));
      ReturnActs(flying.Now(), flying.worker, row, trigger, purpose, ok);
    }
  }

  /** The claim of a handler: the worker goes on only if it won, and it wins if it is the first. */
  method Claims(shared: Shared, trigger: Trigger, raises: Option<bool>, ghost before: Trace, ghost row: nat)
    returns (claimed: Option<bool>, ghost trace: Trace, ghost claiming: Trace)
    requires Standing(before.Now(), before.worker, row, trigger, Claiming) && shared.Mirrors(before.Now())
    modifies shared, shared.repository
    ensures Continues(before, trace) && trace.OwnSends() == before.OwnSends() && shared.Mirrors(trace.Now())
    ensures Resumes(before, claiming) && Continues(claiming, trace)
    ensures claimed == if raises.Some? then None else Some(trigger !in claiming.Now().claims)
    ensures claimed.Some? ==> trigger in trace.Now().claims
    ensures Standing(trace.Now(), trace.worker, row, trigger, if claimed == Some(true) then Guarding else Failing(true))
  {
    hide Run, SendsBy, Act, Trace.Now, Trace.OwnSends, Trace.Then, Table, OtherSteps;
    claiming := shared.Pause(before);
    ResumesWhereItStood(before, claiming);
    claimed := shared.ClaimTrigger(trigger, raises);
    if claimed.None? {
      trace := claiming.Then(ClaimRaises(raises.value));
      ThenActs(claiming, ClaimRaises(raises.value));
      ClaimRaisesActs(claiming.Now(), claiming.worker, row, trigger, raises.value);
    } else {
      trace := claiming.Then(Claim);
      ThenActs(claiming, Claim);
      ClaimActs(claiming.Now(), claiming.worker, row, trigger);
    }
  }

  /** No await at all. */
  lemma ResumesAtOnce(trace: Trace)
    ensures Resumes(trace, trace)
  {
    assert trace.steps[|trace.steps|..] == [];
  }

  ghost method Declined(before: Trace, row: nat, trigger: Trigger) returns (trace: Trace)
    requires Standing(before.Now(), before.worker, row, trigger, Claiming)
    ensures Continues(before, trace) && Standing(trace.Now(), trace.worker, row, trigger, Failing(true))
    ensures trace.Now() == before.Now().(workers := trace.Now().workers) && trace.OwnSends() == before.OwnSends()
  {
    hide Run, SendsBy, Act, Trace.Now, Trace.OwnSends, Trace.Then;
    trace := before.Then(Decline);
    ThenActs(before, Decline);
    DeclineActs(before.Now(), before.worker, row, trigger);
  }

  ghost method Passed(before: Trace, row: nat, trigger: Trigger) returns (trace: Trace)
    requires Standing(before.Now(), before.worker, row, trigger, Guarding) && trigger.kind != Summary
    ensures Continues(before, trace) && Standing(trace.Now(), trace.worker, row, trigger, Working)
    ensures trace.Now() == before.Now().(workers := trace.Now().workers) && trace.OwnSends() == before.OwnSends()
  {
    hide Run, SendsBy, Act, Trace.Now, Trace.OwnSends, Trace.Then;
    trace := before.Then(Guard(false));
    ThenActs(before, Guard(false));
    GuardActs(before.Now(), before.worker, row, trigger, false);
  }

  // ----- commands -----

  class PingCommandHandler {
    const shared: Shared

    constructor (shared: Shared)
      ensures this.shared == shared
    {
      this.shared := shared;
    }

    /** Exactly how a call ends: a first claim is answered. */
    method Handle(trigger: Trigger, detected: bool, validContext: bool, fate: Fate, ghost before: Trace, ghost row: nat)
      returns (status: HandlerStatus, ghost trace: Trace, ghost found: Found)
      requires trigger.kind == Ping && Standing(before.Now(), before.worker, row, trigger, Claiming)
      requires shared.Mirrors(before.Now())
      modifies shared, shared.repository
      ensures Handled(before, trace, row, trigger, status) && shared.Mirrors(Unreturned(trace.Now(), status))
      ensures status == NotTrigger <==> !detected
      ensures status == InvalidContext <==> detected && !validContext
      ensures !(detected && validContext) ==> trace.Now().claims == before.Now().claims
      ensures Resumes(before, found.claiming) && Continues(found.claiming, trace)
      ensures var passes := detected && validContext;
              var wins := passes && Wins(found, trigger, fate);
              && (status == PersistenceFailed <==> passes && fate.claimRaises.Some?)
              && (status == Duplicate <==> passes && fate.claimRaises.None? && !wins)
              && (status == Succeeded <==> wins && fate.sent)
              && (status == SendFailed <==> wins && !fate.sent)
              && trace.OwnSends() == before.OwnSends() + (if wins then 1 else 0)
              && (passes && fate.claimRaises.None? ==> trigger in trace.Now().claims)
              && (status == Succeeded ==> trigger in trace.Now().confirmed)
    {
      hide Run, SendsBy, Act, Trace.Now, Trace.OwnSends, Trace.Then, Table, OtherSteps;
      found := Found(before, before, false);
      ResumesAtOnce(before);
      if !detected || !validContext {
        status := if detected then InvalidContext else NotTrigger;
        trace := Declined(before, row, trigger);
        return;
      }
      var claimed;
      ghost var claiming;
      claimed, trace, claiming := Claims(shared, trigger, fate.claimRaises, before, row);
      found := found.(claiming := claiming);
      if claimed != Some(true) {
        status := if claimed.None? then PersistenceFailed else Duplicate;
        return;
      }
      ghost var won := Passed(trace, row, trigger);
      ContinuingOnlyAdds(trace, won);
      var delivered;
      delivered, trace := SendReply(shared, trigger, fate.sent, won, row);
      ContinuingOnlyAdds(won, trace);
      status := if delivered then Succeeded else SendFailed;
    }
  }

  /** The reply of a command. The mark of a summary's group is cleared in the same breath as the send
      returns. */
  method SendReply(shared: Shared, trigger: Trigger, ok: bool, ghost before: Trace, ghost row: nat)
    returns (delivered: bool, ghost trace: Trace)
    requires !IsAssistant(trigger.kind) && Standing(before.Now(), before.worker, row, trigger, Working)
    requires shared.Mirrors(before.Now())
    modifies shared, shared.repository
    ensures delivered == ok && Continues(before, trace) && trace.OwnSends() == before.OwnSends() + 1
    ensures Standing(trace.Now(), trace.worker, row, trigger, Returned(trigger, Reply, ok))
    ensures shared.Mirrors(Unreturned(trace.Now(), if ok then Succeeded else SendFailed))
    ensures trigger.kind == Summary ==> Group(trigger) !in trace.Now().busy
    ensures ok ==> trigger in trace.Now().confirmed
  {
    hide Run, SendsBy, Act, Trace.Now, Trace.OwnSends, Trace.Then, Table, OtherSteps;
    ghost var waited := shared.Pause(before);
    ResumesWhereItStood(before, waited);
    shared.SendGroupMessage(trigger);
    ghost var sent := waited.Then(Send(Reply));
    ThenActs(waited, Send(Reply));
    SendActs(waited.Now(), waited.worker, row, trigger, Reply);
    ghost var flying := shared.Pause(sent);
    ResumesWhereItStood(sent, flying);
    delivered := shared.SendReturns(trigger, ok, true);
    if trigger.kind == Summary {
      shared.activeGroups := shared.activeGroups - {Group(trigger)};
    }
    trace := flying.Then(Return(ok));
    ThenActs(flying, Return(ok));
    ReturnActs(flying.Now(), flying.worker, row, trigger, Reply, ok);
  }

  class SummaryCommandHandler {
    const shared: Shared
    const enabled: bool
    const cooldownSeconds: nat
    var lastStarted: map<(string, string), int>

    constructor (shared: Shared, enabled: bool, cooldownSeconds: int)
      requires cooldownSeconds >= 0
      ensures this.shared == shared && this.enabled == enabled && this.cooldownSeconds == cooldownSeconds
      ensures lastStarted == map[]
    {
      this.shared, this.enabled, this.cooldownSeconds := shared, enabled, cooldownSeconds;
      lastStarted := map[];
    }

    /** An await, during which other calls of this handler may start summaries. */
    method Await(ghost trace: Trace) returns (ghost later: Trace)
      requires shared.Mirrors(trace.Now())
      modifies this`lastStarted, shared, shared.repository
      ensures Resumes(trace, later) && shared.Mirrors(later.Now())
    {
      later := shared.Pause(trace);
    }

    /** Exactly how a call ends; `groupEnabled` is the group's configuration. A won claim is summarized
        unless a summary of the group is in progress or was started too recently, and the summary is
        persisted before it is sent. */
    method Handle(trigger: Trigger, detected: bool, validContext: bool, groupEnabled: bool, now: int, fate: Fate,
                  ghost before: Trace, ghost row: nat)
      returns (status: HandlerStatus, ghost trace: Trace, ghost found: Found, ghost started: map<(string, string), int>)
      requires trigger.kind == Summary && Standing(before.Now(), before.worker, row, trigger, Claiming)
      requires shared.Mirrors(before.Now())
      modifies this`lastStarted, shared, shared.repository
      ensures Handled(before, trace, row, trigger, status) && shared.Mirrors(Unreturned(trace.Now(), status))
      ensures status == Disabled <==> !enabled || (detected && validContext && !groupEnabled)
      ensures status == NotTrigger <==> enabled && !detected
      ensures status == InvalidContext <==> enabled && detected && !validContext
      ensures Continues(before, found.claiming) && Continues(found.claiming, found.guarding)
      ensures Continues(found.guarding, trace)
      ensures !(enabled && detected && validContext && groupEnabled) ==> trace.Now().claims == found.claiming.Now().claims
      ensures found.cooling <==> Group(trigger) in started && now - started[Group(trigger)] < cooldownSeconds
      ensures var passes := enabled && detected && validContext && groupEnabled;
              var wins := passes && Wins(found, trigger, fate);
              var busy := Group(trigger) in found.guarding.Now().busy;
              var summarizes := wins && !busy && !found.cooling;
              && (status == Duplicate <==> passes && fate.claimRaises.None? && !wins)
              && (status == InProgress <==> wins && busy)
              && (status == Cooldown <==> wins && !busy && found.cooling)
              && (status == GenerationFailed <==> summarizes && !fate.generated)
              && (status == PersistenceFailed <==> (passes && fate.claimRaises.Some?)
                                                   || (summarizes && fate.generated && !fate.persisted))
              && (status == SendFailed <==> summarizes && fate.generated && fate.persisted && !fate.sent)
              && (status == Succeeded <==> summarizes && fate.generated && fate.persisted && fate.sent)
              && trace.OwnSends()
                 == before.OwnSends() + (if summarizes && fate.generated && fate.persisted then 1 else 0)
              && (passes && fate.claimRaises.None? ==> trigger in trace.Now().claims)
              && (status == Succeeded ==> trigger in trace.Now().confirmed)
    {
      hide Run, SendsBy, Act, Trace.Now, Trace.OwnSends, Trace.Then, Table, OtherSteps;
      found, started := Found(before, before, false), map[];
      if !enabled || !detected || !validContext {
        status := if !enabled then Disabled else if !detected then NotTrigger else InvalidContext;
        trace := Declined(before, row, trigger);
        return;
      }
      ghost var waited := shared.Pause(before);
      ResumesWhereItStood(before, waited);
      found := Found(waited, waited, false);
      if !groupEnabled {
        status := Disabled;
        trace := Declined(waited, row, trigger);
        return;
      }
      var claimed;
      ghost var claiming;
      claimed, trace, claiming := Claims(shared, trigger, fate.claimRaises, waited, row);
      found := Found(claiming, claiming, false);
      if claimed != Some(true) {
        status := if claimed.None? then PersistenceFailed else Duplicate;
        return;
      }
      ghost var won, guarding, cooling := trace, trace, false;
      status, trace, guarding, cooling, started := HandleClaimed(trigger, now, fate, trace, row);
      found := Found(claiming, guarding, cooling);
      ContinuingOnlyAdds(won, trace);
    }

    /** The guards, and the start: no await lies between the look at the active groups and the mark. */
    method Begin(group: (string, string), now: int) returns (refused: Option<HandlerStatus>)
      modifies this`lastStarted, shared`activeGroups
      ensures refused == if group in old(shared.activeGroups) then Some(InProgress)
                         else if group in old(lastStarted) && now - old(lastStarted)[group] < cooldownSeconds then Some(Cooldown)
                         else None
      ensures refused.None? ==> Starts(old(lastStarted), [(group, now)], cooldownSeconds) == [true]
      ensures refused.None? ==> shared.activeGroups == old(shared.activeGroups) + {group}
                                && lastStarted == old(lastStarted)[group := now]
      ensures refused.Some? ==> shared.activeGroups == old(shared.activeGroups) && lastStarted == old(lastStarted)
    {
      if group in shared.activeGroups {
        return Some(InProgress);
      }
      if group in lastStarted && now - lastStarted[group] < cooldownSeconds {
        return Some(Cooldown);
      }
      shared.activeGroups := shared.activeGroups + {group};
      lastStarted := lastStarted[group := now];
      refused := None;
    }

    /** The rest of Handle, after the claim is won. */
    method HandleClaimed(trigger: Trigger, now: int, fate: Fate, ghost before: Trace, ghost row: nat)
      returns (status: HandlerStatus, ghost trace: Trace, ghost guarding: Trace, ghost cooling: bool,
               ghost started: map<(string, string), int>)
      requires trigger.kind == Summary && Standing(before.Now(), before.worker, row, trigger, Guarding)
      requires shared.Mirrors(before.Now())
      modifies this`lastStarted, shared, shared.repository
      ensures Handled(before, trace, row, trigger, status) && shared.Mirrors(Unreturned(trace.Now(), status))
      ensures Resumes(before, guarding) && Continues(guarding, trace)
      ensures cooling <==> Group(trigger) in started && now - started[Group(trigger)] < cooldownSeconds
      ensures var busy := Group(trigger) in guarding.Now().busy;
              var summarizes := !busy && !cooling;
              && (status == InProgress <==> busy)
              && (status == Cooldown <==> !busy && cooling)
              && (status == GenerationFailed <==> summarizes && !fate.generated)
              && (status == PersistenceFailed <==> summarizes && fate.generated && !fate.persisted)
              && (status == SendFailed <==> summarizes && fate.generated && fate.persisted && !fate.sent)
              && (status == Succeeded <==> summarizes && fate.generated && fate.persisted && fate.sent)
              && status in {InProgress, Cooldown, GenerationFailed, PersistenceFailed, SendFailed, Succeeded}
              && trace.OwnSends()
                 == before.OwnSends() + (if summarizes && fate.generated && fate.persisted then 1 else 0)
              && (status == Succeeded ==> trigger in trace.Now().confirmed)
              && (summarizes ==> Group(trigger) !in trace.Now().busy)
    {
      hide Run, SendsBy, Act, Trace.Now, Trace.OwnSends, Trace.Then, Table, OtherSteps;
      guarding := Await(before);
      ResumesWhereItStood(before, guarding);
      started := lastStarted;
      cooling := Group(trigger) in lastStarted && now - lastStarted[Group(trigger)] < cooldownSeconds;
      trace := guarding.Then(Guard(cooling));
      ThenActs(guarding, Guard(cooling));
      GuardActs(guarding.Now(), guarding.worker, row, trigger, cooling);
      var refused := Begin((trigger.platform, trigger.groupId), now);
      if refused.Some? {
        status := refused.value;
      } else {
        status, trace := HandleStarted(trigger, fate, trace, row);
      }
    }

    /** Generate, persist, send: the group stays marked meanwhile, and every path clears the mark. */
    method HandleStarted(trigger: Trigger, fate: Fate, ghost before: Trace, ghost row: nat)
      returns (status: HandlerStatus, ghost trace: Trace)
      requires trigger.kind == Summary && Standing(before.Now(), before.worker, row, trigger, Working)
      requires shared.Mirrors(before.Now())
      modifies shared, shared.repository
      ensures Handled(before, trace, row, trigger, status) && shared.Mirrors(Unreturned(trace.Now(), status))
      ensures trace.OwnSends() == before.OwnSends() + (if fate.generated && fate.persisted then 1 else 0)
      ensures status == GenerationFailed <==> !fate.generated
      ensures status == PersistenceFailed <==> fate.generated && !fate.persisted
      ensures status == SendFailed <==> fate.generated && fate.persisted && !fate.sent
      ensures status == Succeeded <==> fate.generated && fate.persisted && fate.sent
      ensures status == Succeeded ==> trigger in trace.Now().confirmed
      ensures Group(trigger) !in trace.Now().busy
      ensures status in {GenerationFailed, PersistenceFailed, SendFailed, Succeeded}
    {
      hide Run, SendsBy, Act, Trace.Now, Trace.OwnSends, Trace.Then, Table, OtherSteps;
      ghost var waited := shared.Pause(before);
      ResumesWhereItStood(before, waited);
      if !fate.generated || !fate.persisted {
        shared.activeGroups := shared.activeGroups - {Group(trigger)};
        trace := waited.Then(GiveUp);
        ThenActs(waited, GiveUp);
        GiveUpActs(waited.Now(), waited.worker, row, trigger);
        status := if fate.generated then PersistenceFailed else GenerationFailed;
      } else {
        var delivered;
        delivered, trace := SendReply(shared, trigger, fate.sent, waited, row);
        status := if delivered then Succeeded else SendFailed;
      }
    }
  }
}
