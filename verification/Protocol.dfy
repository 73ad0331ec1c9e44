/** The outbox protocol as a state machine: receipts, workers with their handlers, crashes,
    restarts with recovery, and pruning, in any interleaving. */
module Protocol {
  import opened Values
  import opened Sequences
  import opened Outbox

  datatype Config = Config(maxAttempts: nat, maxConcurrent: nat, workers: nat) {
    ghost predicate Valid() {
      maxAttempts >= 1 && maxConcurrent >= 1
    }
  }

  // ----- states -----

  datatype Purpose = Reply | Usage | Notice

  /** Where a worker is with the row it claimed. */
  datatype Stage =
    | Loading             // reading the trigger message back
    | Requeueing          // the read failed; about to send the row back
    | Waiting             // has the message, waits for a permit
    | Checking            // holds a permit, looks for a delivered interaction
    | Claiming            // the handler was invoked and is about to claim the trigger
    | Guarding            // the claim is won; active-group and cooldown guards
    | Working             // generating, or persisting a summary
    | InFlight(purpose: Purpose)  // the send was started
    | Persisting          // the answer was delivered; about to store the interaction
    | Failing(held: bool)     // about to mark the row failed
    | Completing(held: bool)  // about to mark the row completed

  datatype Worker = Idle | At(row: nat, trigger: Trigger, stage: Stage)

  datatype State = State(
    // the database
    rows: seq<Row>,
    claims: set<Trigger>,
    interactions: set<Trigger>,
    // the process
    started: bool,
    workers: seq<Worker>,
    permits: int,
    busy: set<(string, string)>,
    // what happened so far: sends attempted, in order; triggers whose reply or usage text was
    // reported delivered; handler invocations of each present row, in all and since recovery
    sends: seq<Trigger>,
    confirmed: set<Trigger>,
    invoked: map<nat, nat>,
    epoch: map<nat, nat>
  )

  function Times(counts: map<nat, nat>, id: nat): nat {
    if id in counts then counts[id] else 0
  }

  predicate IsAssistant(kind: Kind) {
    kind == GroundedQa || kind == MentionChat || kind == ReplyToBot
  }

  function Group(trigger: Trigger): (string, string) {
    (trigger.platform, trigger.groupId)
  }

  predicate Holds(worker: Worker) {
    worker.At? &&
    match worker.stage
    case Checking => true
    case Claiming => true
    case Guarding => true
    case Working => true
    case InFlight(_) => true
    case Persisting => true
    case Failing(held) => held
    case Completing(held) => held
    case _ => false
  }

  function Holding(workers: seq<Worker>): nat {
    if workers == [] then 0 else (if Holds(workers[0]) then 1 else 0) + Holding(workers[1..])
  }

  function Init(config: Config): State {
    State([], {}, {}, false, AllIdle(config), config.maxConcurrent, {}, [], {}, map[], map[])
  }

  function AllIdle(config: Config): seq<Worker> {
    seq(config.workers, _ => Idle)
  }

  // ----- steps -----

  datatype Action =
    | Take(now: int)
    | TakeRaises(committed: bool, now: int)
    | LoadFails
    | LoadMissing
    | Load
    | Acquire
    | Check(expired: bool)
    | Raise
    | Decline
    | Claim
    | ClaimRaises(committed: bool)
    | Guard(cooling: bool)
    | GiveUp
    | Send(purpose: Purpose)
    | Return(ok: bool)
    | Persist(ok: bool, committed: bool)
    | Record(applied: bool, responseId: Option<string>, now: int)

  datatype Step =
    | Receive(trigger: Trigger, rawEventId: int)
    | Work(worker: nat, action: Action)
    | Crash
    | Start(recover: bool, now: int)
    | Prune(olderThan: int)

  /** A step that is not enabled changes nothing. */
  function Next(config: Config, s: State, step: Step): State {
    match step
    case Receive(trigger, rawEventId) =>
      s.(rows := Created(s.rows, trigger, rawEventId, config.maxAttempts))
    case Work(w, action) =>
      if s.started && w < |s.workers| then Act(s, w, action) else s
    case Crash =>
      s.(started := false, workers := AllIdle(config), permits := config.maxConcurrent, busy := {})
    case Start(recover, now) =>
      if s.started then s
      else if recover then
        s.(started := true, rows := Each(s.rows, row => RecoverRow(row, now)), epoch := map[])
      else s.(started := true)
    case Prune(olderThan) =>
      var rows := Pruned(s.rows, olderThan);
      s.(rows := rows, invoked := Known(s.invoked, rows), epoch := Known(s.epoch, rows))
  }

  predicate HasId(rows: seq<Row>, id: nat) {
    exists i | 0 <= i < |rows| :: rows[i].id == id
  }

  /** Counts of the rows that are still there. */
  function Known(counts: map<nat, nat>, rows: seq<Row>): map<nat, nat> {
    map id | id in counts && HasId(rows, id) :: counts[id]
  }

  function Run(config: Config, s: State, steps: seq<Step>): State
    decreases |steps|
  {
    if steps == [] then s else Run(config, Next(config, s, steps[0]), steps[1..])
  }

  function Put(s: State, w: nat, worker: Worker): State
    requires w < |s.workers|
  {
    s.(workers := s.workers[w := worker])
  }

  function To(s: State, w: nat, stage: Stage): State
    requires w < |s.workers| && s.workers[w].At?
  {
    Put(s, w, s.workers[w].(stage := stage))
  }

  /** The handler of a summary clears its group when it returns. */
  function Unbusy(s: State, trigger: Trigger): State {
    if trigger.kind == Summary then s.(busy := s.busy - {Group(trigger)}) else s
  }

  function Act(s: State, w: nat, action: Action): State
    requires w < |s.workers|
  {
    match s.workers[w]
    case Idle =>
      (match action
       case Take(now) => Taken(s, w, now)
       case TakeRaises(committed, now) => if committed then s.(rows := Claimed(s.rows, now)) else s
       case _ => s)
    case At(row, trigger, stage) =>
      match stage
      case Loading =>
        (match action
         case LoadFails => To(s, w, Requeueing)
         case LoadMissing => To(s, w, Failing(false))
         case Load => To(s, w, Waiting)
         case _ => s)
      case Waiting =>
        if action.Acquire? && s.permits > 0 then To(s, w, Checking).(permits := s.permits - 1) else s
      case Checking =>
        (match action
         case Check(expired) =>
           if IsAssistant(trigger.kind) && trigger in s.interactions then To(s, w, Completing(true))
           else if expired then To(s, w, Failing(true))
           else Invoked(s, w, row)
         case Raise => Put(s, w, Idle).(permits := s.permits + 1)
         case _ => s)
      case Claiming =>
        (match action
         case Decline => To(s, w, Failing(true))
         case Claim =>
           if trigger in s.claims then To(s, w, Failing(true))
           else To(s, w, Guarding).(claims := s.claims + {trigger})
         case ClaimRaises(committed) =>
           To(s, w, Failing(true)).(claims := if committed then s.claims + {trigger} else s.claims)
         case _ => s)
      case Guarding =>
        if !action.Guard? then s
        else if action.cooling || (trigger.kind == Summary && Group(trigger) in s.busy) then To(s, w, Failing(true))
        else To(s, w, Working).(busy := if trigger.kind == Summary then s.busy + {Group(trigger)} else s.busy)
      case Working =>
        (match action
         case GiveUp => Unbusy(To(s, w, Failing(true)), trigger)
         case Send(purpose) =>
           if purpose == Reply || IsAssistant(trigger.kind)
           then To(s, w, InFlight(purpose)).(sends := s.sends + [trigger]) else s
         case _ => s)
      case InFlight(purpose) =>
        if !action.Return? then s
        else if !action.ok || purpose == Notice then Unbusy(To(s, w, Failing(true)), trigger)
        else if purpose == Reply && IsAssistant(trigger.kind) then
          To(s, w, Persisting).(confirmed := s.confirmed + {trigger})
        else
          Unbusy(To(s, w, Completing(false)).(confirmed := s.confirmed + {trigger}, permits := s.permits + 1), trigger)
      case Persisting =>
        if !action.Persist? then s
        else
          var stored := if action.ok || action.committed then s.interactions + {trigger} else s.interactions;
          if action.ok then To(s, w, Completing(false)).(interactions := stored, permits := s.permits + 1)
          else To(s, w, Failing(true)).(interactions := stored)
      case _ =>
        if action.Record? then Recorded(s, w, action) else s
  }

  /** `claim_next_pending`. When the call raises after its commit the row is running and nobody has
      it, until a recovery. */
  function Taken(s: State, w: nat, now: int): State
    requires w < |s.workers|
  {
    var claimed := Claimable(s.rows, now);
    var swept := s.(rows := Claimed(s.rows, now));
    if claimed.None? then swept else Put(swept, w, At(claimed.value.id, claimed.value.trigger, Loading))
  }

  /** The handler starts; the history counts it. */
  function Invoked(s: State, w: nat, row: nat): State
    requires w < |s.workers| && s.workers[w].At?
  {
    To(s, w, Claiming).(invoked := s.invoked[row := Times(s.invoked, row) + 1],
                        epoch := s.epoch[row := Times(s.epoch, row) + 1])
  }

  /** The last call of a claimed row. It may raise with or without having been committed; either
      way the worker goes on, and an unrecorded row stays running. */
  function Recorded(s: State, w: nat, action: Action): State
    requires w < |s.workers| && s.workers[w].At? && action.Record?
  {
    var worker := s.workers[w];
    var rows := if !action.applied then s.rows
                else match worker.stage
                     case Requeueing => Each(s.rows, row => RequeueRow(row, worker.row, action.now))
                     case Completing(_) =>
                       Each(s.rows, row => CompleteRow(row, worker.row, action.responseId, action.now))
                     case _ => Each(s.rows, row => FailRow(row, worker.row, action.now));
    Put(s, w, Idle).(rows := rows, permits := s.permits + if Holds(worker) then 1 else 0)
  }

  // ----- the invariant -----

  /** The handler has not run yet for this claim of the row. */
  predicate Fresh(stage: Stage) {
    stage == Loading || stage == Requeueing || stage == Waiting || stage == Checking
  }

  /** The claim is won and nothing was sent yet. */
  predicate MaySend(stage: Stage) {
    stage == Guarding || stage == Working
  }

  predicate Delivered(stage: Stage) {
    stage == Persisting || stage.Completing?
  }

  predicate Summarizing(worker: Worker) {
    worker.At? && worker.trigger.kind == Summary && (worker.stage == Working || worker.stage.InFlight?)
  }

  ghost predicate RowOk(s: State, row: Row) {
    && Times(s.invoked, row.id) <= row.attempts
    && Times(s.epoch, row.id) <= 1
    && (row.status == Pending ==> Times(s.epoch, row.id) == 0)
    && (row.status == Completed ==> row.trigger in s.confirmed)
  }

  ghost predicate RowsOk(s: State) {
    Table(s.rows) && forall i | 0 <= i < |s.rows| :: RowOk(s, s.rows[i])
  }

  ghost predicate CountsKnown(s: State) {
    && (forall id | id in s.invoked :: HasId(s.rows, id))
    && (forall id | id in s.epoch :: HasId(s.rows, id))
  }

  ghost predicate HistoryOk(s: State) {
    && NoDuplicates(s.sends)
    && (forall i | 0 <= i < |s.sends| :: s.sends[i] in s.claims)
    && (forall t | t in s.confirmed :: t in s.sends)
    && s.interactions <= s.confirmed
  }

  /** The worker's row is running, and has an attempt left over for a handler still to come. */
  ghost predicate Owned(row: Row, worker: Worker, invoked: nat)
    requires worker.At?
  {
    && row.id == worker.row && row.trigger == worker.trigger && row.status == Running
    && (Fresh(worker.stage) ==> invoked < row.attempts)
  }

  ghost predicate WorkerOk(s: State, worker: Worker) {
    worker.At? ==>
      && (exists i | 0 <= i < |s.rows| :: Owned(s.rows[i], worker, Times(s.invoked, worker.row)))
      && (Fresh(worker.stage) ==> Times(s.epoch, worker.row) == 0)
      && (MaySend(worker.stage) ==> worker.trigger in s.claims && worker.trigger !in s.sends)
      && (worker.stage.InFlight? || worker.stage == Persisting ==> worker.trigger in s.sends)
      && (Delivered(worker.stage) ==> worker.trigger in s.confirmed)
      && (Summarizing(worker) ==> Group(worker.trigger) in s.busy)
  }

  ghost predicate WorkersOk(s: State) {
    forall v | 0 <= v < |s.workers| :: WorkerOk(s, s.workers[v])
  }

  /** No two workers have the same row, and no two summaries run for the same group. */
  ghost predicate Apart(workers: seq<Worker>) {
    forall v, u | 0 <= v < u < |workers| :: Separate(workers[v], workers[u])
  }

  ghost predicate Separate(a: Worker, b: Worker) {
    && (a.At? && b.At? ==> a.row != b.row)
    && (Summarizing(a) && Summarizing(b) ==> Group(a.trigger) != Group(b.trigger))
  }

  ghost predicate Stopped(s: State) {
    forall v | 0 <= v < |s.workers| :: s.workers[v].Idle?
  }

  ghost predicate Inv(config: Config, s: State) {
    && RowsOk(s) && CountsKnown(s) && HistoryOk(s) && WorkersOk(s) && Apart(s.workers)
    && |s.workers| == config.workers
    && s.permits >= 0 && s.permits + Holding(s.workers) == config.maxConcurrent
    && (!s.started ==> Stopped(s))
  }
}
