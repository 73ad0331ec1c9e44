/** The worker in program order, with other workers' steps at every await: one turn of its loop, from
    claiming a row to its recorded outcome, extends the run by this worker's steps, whatever fails. */
module OutboxWorker {
  import opened Values
  import opened Outbox
  import opened Protocol
  import opened Handlers
  import opened Sequences
  import ProtocolSafety

  datatype Reload = ReloadRaises | NoMessage | Reloaded

  /** What the handlers read from the message, and what happens around them. A claim that raises
      says whether it was committed. */
  datatype Circumstances = Circumstances(
    takeRaises: Option<bool>,
    reload: Reload,
    lookupRaises: bool,
    expired: bool,
    handlerRaises: bool,
    validContext: bool,
    groupEnabled: bool,
    hasInput: bool,
    requester: string,
    fate: Fate,
    recorded: bool,
    responseId: Option<string>,
    clock: int,
    now: int
  )

  /** How a turn ends: the claim raised, nothing was pending, the worker still waits for a permit, or
      the row is done. */
  datatype Turn = ClaimRaised | NothingPending | StillWaiting(row: Row) | Finished

  /** How a claimed row ends for its worker: it waits for a permit, the delivered check raised, or an
      outcome is recorded. */
  datatype Ending = StillWaits | LookupFailed | Recorded(stage: Stage)

  /** The way of a claimed row: its end, the run at the delivered check, the handler's status and what it
      found, and the run when the outcome was recorded. */
  datatype Course = Course(ending: Ending, checking: Trace, status: Option<HandlerStatus>, found: Found, recording: Trace)

  // ----- what each action does -----

  lemma TakeActs(s: State, w: nat, now: int)
    requires s.started && w < |s.workers| && s.workers[w].Idle?
    ensures Act(s, w, Take(now))
            == match Claimable(s.rows, now)
               case None => s.(rows := Claimed(s.rows, now))
               case Some(row) => Put(s.(rows := Claimed(s.rows, now)), w, At(row.id, row.trigger, Loading))
  {
    hide Claimable, Claimed;
  }

  lemma TakeRaisesActs(s: State, w: nat, committed: bool, now: int)
    requires s.started && w < |s.workers| && s.workers[w].Idle?
    ensures Act(s, w, TakeRaises(committed, now)) == if committed then s.(rows := Claimed(s.rows, now)) else s
  {
    hide Claimed;
  }

  /** The stage a reload leads to. */
  function ReloadedTo(reload: Reload): Stage {
    match reload
    case ReloadRaises => Requeueing
    case NoMessage => Failing(false)
    case Reloaded => Waiting
  }

  function ReloadAction(reload: Reload): Action {
    match reload
    case ReloadRaises => LoadFails
    case NoMessage => LoadMissing
    case Reloaded => Load
  }

  lemma ReloadActs(s: State, w: nat, row: nat, trigger: Trigger, reload: Reload)
    requires Standing(s, w, row, trigger, Loading)
    ensures var t := Act(s, w, ReloadAction(reload));
            Standing(t, w, row, trigger, ReloadedTo(reload)) && t == s.(workers := t.workers)
  {
  }

  lemma AcquireActs(s: State, w: nat, row: nat, trigger: Trigger)
    requires Standing(s, w, row, trigger, Waiting) && s.permits > 0
    ensures var t := Act(s, w, Acquire);
            Standing(t, w, row, trigger, Checking) && t == s.(workers := t.workers, permits := s.permits - 1)
  {
  }

  lemma RaiseActs(s: State, w: nat, row: nat, trigger: Trigger)
    requires Standing(s, w, row, trigger, Checking)
    ensures Act(s, w, Raise) == Put(s, w, Idle).(permits := s.permits + 1)
  {
  }

  lemma CheckActs(s: State, w: nat, row: nat, trigger: Trigger, expired: bool)
    requires Standing(s, w, row, trigger, Checking)
    ensures var t := Act(s, w, Check(expired));
            && Standing(t, w, row, trigger, if IsAssistant(trigger.kind) && trigger in s.interactions then Completing(true)
                                            else if expired then Failing(true) else Claiming)
            && t == s.(workers := t.workers, invoked := t.invoked, epoch := t.epoch)
  {
  }

  predicate IsOutcome(stage: Stage) {
    stage == Requeueing || stage.Failing? || stage.Completing?
  }

  /** The permit is held until the outcome is recorded. */
  predicate HoldsPermit(stage: Stage) {
    stage == Failing(true) || stage == Completing(true)
  }

  function RecordedRows(rows: seq<Row>, stage: Stage, id: nat, responseId: Option<string>, now: int): seq<Row>
    requires IsOutcome(stage)
  {
    match stage
    case Requeueing => Each(rows, row => RequeueRow(row, id, now))
    case Completing(_) => Each(rows, row => CompleteRow(row, id, responseId, now))
    case _ => Each(rows, row => FailRow(row, id, now))
  }

  lemma RecordActs(s: State, w: nat, row: nat, trigger: Trigger, stage: Stage, applied: bool,
                   responseId: Option<string>, now: int)
    requires Standing(s, w, row, trigger, stage) && IsOutcome(stage)
    ensures Act(s, w, Record(applied, responseId, now))
            == Put(s, w, Idle).(
                 rows := if applied then RecordedRows(s.rows, stage, row, responseId, now) else s.rows,
                 permits := s.permits + if HoldsPermit(stage) then 1 else 0)
  {
    assert s.workers[w].row == row;
  }

  /** What recording does to the table: the row, if it is running, gets the status of the outcome, and no
      other row changes. */
  lemma RecordedRowsExactly(rows: seq<Row>, stage: Stage, id: nat, responseId: Option<string>, now: int)
    requires IsOutcome(stage)
    ensures var after := RecordedRows(rows, stage, id, responseId, now);
            && |after| == |rows|
            && forall i | 0 <= i < |rows| ::
                 if rows[i].id == id && rows[i].status == Running then
                   if stage.Completing? then
                     after[i] == rows[i].(status := Completed, completedAt := Some(now), responseId := responseId)
                   else if stage == Requeueing && rows[i].attempts < rows[i].maxAttempts then
                     after[i] == rows[i].(status := Pending)
                   else after[i] == rows[i].(status := Failed, completedAt := Some(now))
                 else after[i] == rows[i]
  {
  }

  ghost predicate NonePending(rows: seq<Row>) {
    forall i | 0 <= i < |rows| :: rows[i].status != Pending
  }

  ghost predicate IsFirstPending(rows: seq<Row>, k: nat) {
    k < |rows| && rows[k].status == Pending && forall i | 0 <= i < k :: rows[i].status != Pending
  }

  /** What a claim takes from a valid table. */
  lemma FirstPendingRow(rows: seq<Row>, now: int) returns (k: nat)
    requires Table(rows)
    ensures Claimable(rows, now).None? <==> NonePending(rows)
    ensures Claimable(rows, now).Some? ==> IsFirstPending(rows, k) && Claimable(rows, now).value == rows[k]
  {
    hide Claimable, Claimed, Table;
    ClaimTakesTheFirst(rows, now);
    k := 0;
    if Claimable(rows, now).Some? {
      k :| 0 <= k < |rows| && rows[k] == Claimable(rows, now).value && rows[k].status == Pending
           && forall i | 0 <= i < k :: rows[i].status != Pending;
    }
  }

  /** The worker is done with its row, and sent at most once. */
  ghost predicate Done(before: Trace, after: Trace) {
    && Continues(before, after) && after.OwnSends() <= before.OwnSends() + 1
    && after.Now().started && after.worker < |after.Now().workers| && after.Now().workers[after.worker].Idle?
  }

  /** The worker waits for a permit, and sent nothing. */
  ghost predicate Waits(before: Trace, after: Trace, row: Row) {
    && Continues(before, after) && after.OwnSends() == before.OwnSends()
    && Standing(after.Now(), after.worker, row.id, row.trigger, Waiting)
  }

  /** Every execution that begins with the process is part of a run, so what holds of all runs holds
      after it: no trigger is sent to twice, and completed rows were delivered. */
  lemma TracesAreSafe(trace: Trace)
    requires trace.config.Valid() && trace.start == Init(trace.config)
    ensures NoDuplicates(trace.Now().sends)
    ensures forall i | 0 <= i < |trace.Now().rows| ::
              trace.Now().rows[i].status == Completed ==> trace.Now().rows[i].trigger in trace.Now().confirmed
  {
    hide Run, Init;
    ProtocolSafety.AtMostOneSend(trace.config, trace.steps);
    ProtocolSafety.CompletedMeansDelivered(trace.config, trace.steps);
  }

  // ----- the worker -----

  class InteractionOutboxWorker {
    const shared: Shared
    const ping: PingCommandHandler
    const summary: SummaryCommandHandler
    const assistant: GroupAssistantHandler

    constructor (ping: PingCommandHandler, summary: SummaryCommandHandler, assistant: GroupAssistantHandler)
      requires ping.shared == summary.shared == assistant.shared
      ensures this.ping == ping && this.summary == summary && this.assistant == assistant
      ensures shared == ping.shared && Wired()
    {
      this.ping, this.summary, this.assistant := ping, summary, assistant;
      shared := ping.shared;
    }

    ghost predicate Wired() {
      ping.shared == shared && summary.shared == shared && assistant.shared == shared
    }

    /** One turn of the worker loop: claim the next pending row, and run it if there was one. A claim
        that raises, committed or not, leaves the worker idle. */
    method TakeTurn(c: Circumstances, ghost before: Trace)
      returns (turn: Turn, ghost trace: Trace, ghost taking: Trace, ghost course: Course)
      requires Wired() && shared.Mirrors(before.Now())
      requires before.Now().started && before.worker < |before.Now().workers|
      requires before.Now().workers[before.worker].Idle?
      modifies shared, shared.repository, summary, assistant
      ensures shared.Mirrors(trace.Now())
      ensures if turn.StillWaiting? then Waits(before, trace, turn.row) else Done(before, trace)
      ensures Resumes(before, taking)
      ensures turn.ClaimRaised? <==> c.takeRaises.Some?
      ensures turn.NothingPending? <==> c.takeRaises.None? && NonePending(taking.Now().rows)
      ensures turn.ClaimRaised? || turn.NothingPending? ==> trace.OwnSends() == before.OwnSends()
      ensures turn.Finished? || turn.StillWaiting? ==>
                exists k: nat | IsFirstPending(taking.Now().rows, k) ::
                  var row := taking.Now().rows[k];
                  && (turn.StillWaiting? <==> course.ending == StillWaits)
                  && (turn.StillWaiting? ==> turn.row == row.(status := Running, attempts := row.attempts + 1))
                  && Runs(c, row.trigger, row.id, taking, course, trace)
    {
      hide Run, SendsBy, Act, Trace.Now, Trace.OwnSends, Trace.Then, Table, OtherSteps;
      hide NonePending, IsFirstPending, Runs;
      taking := shared.Pause(before);
      course := Course(StillWaits, taking, None, Found(taking, taking, false), taking);
      ResumesWhereItStood(before, taking);
      if c.takeRaises.Some? {
        if c.takeRaises.value {
          var _ := shared.repository.ClaimNextPending(c.now);
        }
        trace := taking.Then(TakeRaises(c.takeRaises.value, c.now));
        ThenActs(taking, TakeRaises(c.takeRaises.value, c.now));
        TakeRaisesActs(taking.Now(), taking.worker, c.takeRaises.value, c.now);
        return ClaimRaised, trace, taking, course;
      }
      ghost var k := FirstPendingRow(taking.Now().rows, c.now);
      var claimed := shared.repository.ClaimNextPending(c.now);
      trace := taking.Then(Take(c.now));
      ThenActs(taking, Take(c.now));
      TakeActs(taking.Now(), taking.worker, c.now);
      if claimed.None? {
        return NothingPending, trace, taking, course;
      }
      var waiting;
      ghost var taken := trace;
      waiting, trace, course := RunClaimedRow(claimed.value, c, taken);
      RunsSince(c, claimed.value.trigger, claimed.value.id, taking, taken, course, trace);
      turn := if waiting then StillWaiting(claimed.value) else Finished;
    }

    lemma RunsSince(c: Circumstances, trigger: Trigger, id: nat, earlier: Trace, before: Trace, course: Course, trace: Trace)
      requires Continues(earlier, before) && Runs(c, trigger, id, before, course, trace)
      ensures Runs(c, trigger, id, earlier, course, trace)
    {
    }

    /** `_run_claimed_row`: true when it still waits for a permit. */
    method RunClaimedRow(claimed: Row, c: Circumstances, ghost before: Trace)
      returns (waiting: bool, ghost trace: Trace, ghost course: Course)
      requires Wired() && shared.Mirrors(before.Now())
      requires Standing(before.Now(), before.worker, claimed.id, claimed.trigger, Loading)
      modifies shared, shared.repository, summary, assistant
      ensures shared.Mirrors(trace.Now())
      ensures if waiting then Waits(before, trace, claimed) else Done(before, trace)
      ensures waiting <==> course.ending == StillWaits
      ensures Runs(c, claimed.trigger, claimed.id, before, course, trace)
    {
      hide Run, SendsBy, Act, Trace.Now, Trace.OwnSends, Trace.Then, Table, OtherSteps;
      ghost var waited := shared.Pause(before);
      ResumesWhereItStood(before, waited);
      trace := waited.Then(ReloadAction(c.reload));
      ThenActs(waited, ReloadAction(c.reload));
      ReloadActs(waited.Now(), waited.worker, claimed.id, claimed.trigger, c.reload);
      if c.reload == ReloadRaises || c.reload == NoMessage {
        ghost var recording;
        trace, recording := RecordOutcome(claimed, ReloadedTo(c.reload), c, trace);
        waiting := false;
        course := Course(Recorded(ReloadedTo(c.reload)), waited, None, Found(waited, waited, false), recording);
      } else {
        waiting, trace, course := RunInPermit(claimed, c, trace);
      }
    }

    /** From waiting for a permit on. Without a permit the worker keeps waiting, and can be asked to
        go on from there. */
    method RunInPermit(claimed: Row, c: Circumstances, ghost before: Trace)
      returns (waiting: bool, ghost trace: Trace, ghost course: Course)
      requires Wired() && shared.Mirrors(before.Now()) && c.reload == Reloaded
      requires Standing(before.Now(), before.worker, claimed.id, claimed.trigger, Waiting)
      modifies shared, shared.repository, summary, assistant
      ensures shared.Mirrors(trace.Now())
      ensures if waiting then Waits(before, trace, claimed) else Done(before, trace)
      ensures waiting <==> course.ending == StillWaits
      ensures Runs(c, claimed.trigger, claimed.id, before, course, trace)
    {
      hide Run, SendsBy, Act, Trace.Now, Trace.OwnSends, Trace.Then, Table, OtherSteps;
      ghost var waited := shared.Pause(before);
      ResumesWhereItStood(before, waited);
      if shared.permits <= 0 {
        return true, waited, Course(StillWaits, waited, None, Found(waited, waited, false), waited);
      }
      shared.permits := shared.permits - 1;
      ghost var held := waited.Then(Acquire);
      ThenActs(waited, Acquire);
      AcquireActs(waited.Now(), waited.worker, claimed.id, claimed.trigger);
      waiting := false;
      trace, course := CheckAndHandle(claimed, c, held);
    }

    /** In the permit: the delivered check, the expiry and the handler. */
    method CheckAndHandle(claimed: Row, c: Circumstances, ghost before: Trace) returns (ghost trace: Trace, ghost course: Course)
      requires Wired() && shared.Mirrors(before.Now()) && c.reload == Reloaded
      requires Standing(before.Now(), before.worker, claimed.id, claimed.trigger, Checking)
      modifies shared, shared.repository, summary, assistant
      ensures shared.Mirrors(trace.Now()) && Done(before, trace)
      ensures course.ending != StillWaits && Runs(c, claimed.trigger, claimed.id, before, course, trace)
    {
      hide Run, SendsBy, Act, Trace.Now, Trace.OwnSends, Trace.Then, Table, OtherSteps;
      ghost var waited := shared.Pause(before);
      ResumesWhereItStood(before, waited);
      course := Course(LookupFailed, waited, None, Found(waited, waited, false), waited);
      if c.lookupRaises {
        shared.permits := shared.permits + 1;
        trace := waited.Then(Raise);
        ThenActs(waited, Raise);
        RaiseActs(waited.Now(), waited.worker, claimed.id, claimed.trigger);
        return;
      }
      ghost var checked := waited.Then(Check(c.expired));
      ThenActs(waited, Check(c.expired));
      CheckActs(waited.Now(), waited.worker, claimed.id, claimed.trigger, c.expired);
      trace, course := FinishChecked(claimed, c, checked, course);
    }

    /** A stored interaction completes the row, an expired trigger fails it, anything else is handled. */
    method FinishChecked(claimed: Row, c: Circumstances, ghost before: Trace, ghost soFar: Course)
      returns (ghost trace: Trace, ghost course: Course)
      requires Wired() && shared.Mirrors(before.Now())
      requires Standing(before.Now(), before.worker, claimed.id, claimed.trigger,
                        if IsAssistant(claimed.trigger.kind) && claimed.trigger in before.Now().interactions then Completing(true)
                        else if c.expired then Failing(true) else Claiming)
      modifies shared, shared.repository, summary, assistant
      ensures shared.Mirrors(trace.Now()) && Done(before, trace)
      ensures course == soFar.(ending := course.ending, status := course.status, found := course.found,
                               recording := course.recording)
      ensures Records(c, claimed.id, course, trace)
      ensures var delivered := IsAssistant(claimed.trigger.kind) && claimed.trigger in before.Now().interactions;
              if delivered || c.expired then
                course.status == None && course.ending == Recorded(if delivered then Completing(true) else Failing(true))
              else
                && course.status.Some? && HandlerEnds(c, claimed.trigger, course.found, course.status.value)
                && course.ending == Recorded(if Delivers(course.status.value) then Completing(false) else Failing(true))
                && Continues(before, course.found.claiming) && Continues(course.found.claiming, trace)
    {
      hide Run, SendsBy, Act, Trace.Now, Trace.OwnSends, Trace.Then, Table, OtherSteps, HandlerEnds;
      ghost var recording;
      course := soFar.(status := None);
      if IsAssistant(claimed.trigger.kind) && claimed.trigger in shared.interactions {
        trace, recording := RecordOutcome(claimed, Completing(true), c, before);
        course := course.(ending := Recorded(Completing(true)), recording := recording);
      } else if c.expired {
        trace, recording := RecordOutcome(claimed, Failing(true), c, before);
        course := course.(ending := Recorded(Failing(true)), recording := recording);
      } else {
        trace, course := HandleAndRecord(claimed, c, before, course);
      }
    }

    /** The handler, the permit of a delivered answer, and the outcome. */
    method HandleAndRecord(claimed: Row, c: Circumstances, ghost before: Trace, ghost soFar: Course)
      returns (ghost trace: Trace, ghost course: Course)
      requires Wired() && shared.Mirrors(before.Now())
      requires Standing(before.Now(), before.worker, claimed.id, claimed.trigger, Claiming)
      modifies shared, shared.repository, summary, assistant
      ensures shared.Mirrors(trace.Now()) && Done(before, trace)
      ensures course == soFar.(ending := course.ending, status := course.status, found := course.found,
                               recording := course.recording)
      ensures course.status.Some? && HandlerEnds(c, claimed.trigger, course.found, course.status.value)
      ensures Continues(before, course.found.claiming) && Continues(course.found.claiming, trace)
      ensures course.ending == Recorded(if Delivers(course.status.value) then Completing(false) else Failing(true))
      ensures Records(c, claimed.id, course, trace)
    {
      hide Run, SendsBy, Act, Trace.Now, Trace.OwnSends, Trace.Then, Table, OtherSteps;
      var status, handled, found := Handle(claimed, c, before);
      if Delivers(status) {
        shared.permits := shared.permits + 1;
      }
      ghost var recording;
      trace, recording := RecordOutcome(claimed, Ended(status), c, handled);
      course := soFar.(ending := Recorded(Ended(status)), status := Some(status), found := found, recording := recording);
    }

    /** `on_handle`: commands first, the assistant otherwise. A handler that raises does so before
        its claim. */
    method Handle(claimed: Row, c: Circumstances, ghost before: Trace)
      returns (status: HandlerStatus, ghost trace: Trace, ghost found: Found)
      requires Wired() && shared.Mirrors(before.Now())
      requires Standing(before.Now(), before.worker, claimed.id, claimed.trigger, Claiming)
      modifies shared, shared.repository, summary, assistant
      ensures Handled(before, trace, claimed.id, claimed.trigger, status)
      ensures shared.Mirrors(Unreturned(trace.Now(), status))
      ensures HandlerEnds(c, claimed.trigger, found, status)
      ensures Continues(before, found.claiming) && Continues(found.claiming, trace)
    {
      hide Run, SendsBy, Act, Trace.Now, Trace.OwnSends, Trace.Then, Table, OtherSteps;
      var trigger := claimed.trigger;
      found := Found(before, before, false);
      if c.handlerRaises {
        status := InvalidContext;
        trace := Declined(before, claimed.id, trigger);
        return;
      }
      match trigger.kind {
        case Ping =>
          status, trace, found := ping.Handle(trigger, true, c.validContext, c.fate, before, claimed.id);
        case Summary =>
          ghost var started;
          status, trace, found, started := summary.Handle(trigger, true, c.validContext, c.groupEnabled, c.clock, c.fate,
                                                          before, claimed.id);
        case _ =>
          ghost var started;
          status, trace, found, started := assistant.Handle(trigger, true, c.validContext, c.hasInput, c.requester,
                                                            c.clock, c.fate, before, claimed.id);
      }
    }

    /** Exactly when a handler delivers, by what it found and how its calls ended. */
    ghost predicate HandlerEnds(c: Circumstances, trigger: Trigger, found: Found, status: HandlerStatus) {
      var begins := !c.handlerRaises && c.validContext && Wins(found, trigger, c.fate);
      match trigger.kind
      case Ping => Delivers(status) <==> begins && c.fate.sent
      case Summary =>
        Delivers(status) <==> && begins && summary.enabled && c.groupEnabled
                              && Group(trigger) !in found.guarding.Now().busy && !found.cooling
                              && c.fate.generated && c.fate.persisted && c.fate.sent
      case _ =>
        Delivers(status) <==> && begins && assistant.enabled && c.fate.sent
                              && (c.hasInput ==> !found.cooling && c.fate.generated && c.fate.persisted)
    }

    /** The outcome was recorded as the last thing, unless that call raised. */
    ghost predicate Records(c: Circumstances, id: nat, course: Course, trace: Trace) {
      course.ending.Recorded? ==>
        && IsOutcome(course.ending.stage) && Continues(course.recording, trace)
        && trace.Now().rows
           == if c.recorded then RecordedRows(course.recording.Now().rows, course.ending.stage, id, c.responseId, c.now)
              else course.recording.Now().rows
    }

    /** Exactly how a claimed row runs: a failed reload sends it back and a missing message fails it; then
        a stored interaction completes it, an expired trigger fails it, and otherwise the handler decides. */
    ghost predicate Runs(c: Circumstances, trigger: Trigger, id: nat, before: Trace, course: Course, trace: Trace) {
      var delivered := IsAssistant(trigger.kind) && trigger in course.checking.Now().interactions;
      && Records(c, id, course, trace)
      && Continues(before, course.checking) && Continues(course.checking, trace)
      && (course.status.Some? ==> Continues(course.checking, course.found.claiming) && Continues(course.found.claiming, trace))
      && (course.ending == StillWaits ==> trace.Now().permits <= 0)
      && (course.ending == Recorded(Requeueing) <==> c.reload == ReloadRaises)
      && (course.ending == Recorded(Failing(false)) <==> c.reload == NoMessage)
      && (c.reload == Reloaded && course.ending != StillWaits ==>
            && (course.ending == LookupFailed <==> c.lookupRaises)
            && (course.ending == Recorded(Completing(true)) <==> !c.lookupRaises && delivered)
            && (course.status.Some? <==> !c.lookupRaises && !delivered && !c.expired)
            && (course.status.Some? ==>
                  && HandlerEnds(c, trigger, course.found, course.status.value)
                  && (course.ending == Recorded(Completing(false)) <==> Delivers(course.status.value)))
            && (course.ending == Recorded(Failing(true)) <==>
                  && !c.lookupRaises && !delivered
                  && (c.expired || (course.status.Some? && !Delivers(course.status.value)))))
    }

    /** The last call. When it raises without having been committed the row stays running, and the
        worker goes on without replaying anything. */
    method RecordOutcome(claimed: Row, stage: Stage, c: Circumstances, ghost before: Trace)
      returns (ghost trace: Trace, ghost recording: Trace)
      requires IsOutcome(stage) && shared.Mirrors(before.Now())
      requires Standing(before.Now(), before.worker, claimed.id, claimed.trigger, stage)
      modifies shared, shared.repository
      ensures shared.Mirrors(trace.Now()) && Done(before, trace) && trace.OwnSends() == before.OwnSends()
      ensures Continues(before, recording) && Continues(recording, trace)
      ensures trace.Now().rows
              == if c.recorded then RecordedRows(recording.Now().rows, stage, claimed.id, c.responseId, c.now)
                 else recording.Now().rows
    {
      hide Run, SendsBy, Act, Trace.Now, Trace.OwnSends, Trace.Then, Table, OtherSteps;
      recording := shared.Pause(before);
      ResumesWhereItStood(before, recording);
      trace := recording.Then(Record(c.recorded, c.responseId, c.now));
      ThenActs(recording, Record(c.recorded, c.responseId, c.now));
      RecordActs(recording.Now(), recording.worker, claimed.id, claimed.trigger, stage, c.recorded, c.responseId, c.now);
      if c.recorded {
        if stage == Requeueing {
          var _ := shared.repository.RequeueForRetry(claimed.id, c.now);
        } else if stage.Completing? {
          var _ := shared.repository.MarkCompleted(claimed.id, c.responseId, c.now);
        } else {
          var _ := shared.repository.MarkFailed(claimed.id, c.now);
        }
      }
      if HoldsPermit(stage) {
        shared.permits := shared.permits + 1;
      }
    }
  }
}
