/** The marks of groups with a summary in progress are never stale, and what the steps outside the
    workers do. */
module ProtocolMarks {
  import opened Values
  import opened Outbox
  import opened Protocol
  import opened ProtocolSafety

  // ----- marks -----

  /** Worker v is summarizing this group. */
  predicate Marks(workers: seq<Worker>, v: nat, group: (string, string)) {
    v < |workers| && Summarizing(workers[v]) && Group(workers[v].trigger) == group
  }

  ghost predicate MarksAreLive(s: State) {
    forall group | group in s.busy :: exists v: nat :: Marks(s.workers, v, group)
  }

  lemma MarkStays(before: seq<Worker>, after: seq<Worker>, w: nat, group: (string, string))
    requires w < |before| == |after| && after == before[w := after[w]]
    requires exists v: nat :: Marks(before, v, group)
    requires Marks(before, w, group) ==> Marks(after, w, group)
    ensures exists v: nat :: Marks(after, v, group)
  {
    var v: nat :| Marks(before, v, group);
    assert Marks(after, v, group);
  }

  /** One worker moves on: the marks it leaves go with it, and a mark it sets is its own. */
  lemma MarksAfter(s: State, t: State, w: nat, worker: Worker)
    requires MarksAreLive(s) && w < |s.workers| && t.workers == s.workers[w := worker]
    requires forall group | group in t.busy && group !in s.busy :: Summarizing(worker) && Group(worker.trigger) == group
    requires forall group | group in t.busy && Marks(s.workers, w, group) :: Summarizing(worker) && Group(worker.trigger) == group
    ensures MarksAreLive(t)
  {
    forall group | group in t.busy
      ensures exists v: nat :: Marks(t.workers, v, group)
    {
      if group in s.busy {
        MarkStays(s.workers, t.workers, w, group);
      } else {
        assert Marks(t.workers, w, group);
      }
    }
  }

  lemma ActKeepsMarks(s: State, w: nat, action: Action)
    requires MarksAreLive(s) && w < |s.workers|
    ensures MarksAreLive(Act(s, w, action))
  {
    hide Claimed, Claimable, Recorded, Taken, MarksAreLive, To, Unbusy, Invoked;
    var t := Act(s, w, action);
    if s.workers[w].Idle? {
      if action.Take? {
        TakenKeepsMarks(s, w, action.now);
      } else {
        SameMarks(s, t);
      }
    } else if s.workers[w].stage.Failing? || s.workers[w].stage.Completing? || s.workers[w].stage == Requeueing {
      if action.Record? {
        RecordedKeepsMarks(s, w, action);
      }
    } else if s.workers[w].stage == Working || s.workers[w].stage.InFlight? {
      SummaryKeepsMarks(s, w, action);
    } else {
      StageKeepsMarks(s, w, action);
    }
  }

  lemma SummaryKeepsMarks(s: State, w: nat, action: Action)
    requires MarksAreLive(s) && w < |s.workers| && s.workers[w].At?
    requires s.workers[w].stage == Working || s.workers[w].stage.InFlight?
    ensures MarksAreLive(Act(s, w, action))
  {
    hide MarksAreLive;
    var t := Act(s, w, action);
    if t != s {
      MarksAfter(s, t, w, t.workers[w]);
    }
  }

  lemma StageKeepsMarks(s: State, w: nat, action: Action)
    requires MarksAreLive(s) && w < |s.workers| && s.workers[w].At?
    requires s.workers[w].stage in {Loading, Waiting, Checking, Claiming, Guarding, Persisting}
    ensures MarksAreLive(Act(s, w, action))
  {
    hide MarksAreLive;
    var t := Act(s, w, action);
    if t != s {
      MarksAfter(s, t, w, t.workers[w]);
    }
  }

  lemma SameMarks(s: State, t: State)
    requires MarksAreLive(s) && t.workers == s.workers && t.busy == s.busy
    ensures MarksAreLive(t)
  {
  }

  lemma TakenKeepsMarks(s: State, w: nat, now: int)
    requires MarksAreLive(s) && w < |s.workers| && s.workers[w].Idle?
    ensures MarksAreLive(Taken(s, w, now))
  {
    hide Claimed, Claimable;
    var t := Taken(s, w, now);
    if Claimable(s.rows, now).Some? {
      MarksAfter(s, t, w, t.workers[w]);
    }
  }

  lemma RecordedKeepsMarks(s: State, w: nat, action: Action)
    requires MarksAreLive(s) && w < |s.workers| && s.workers[w].At? && action.Record?
    requires !Summarizing(s.workers[w])
    ensures MarksAreLive(Recorded(s, w, action))
  {
    hide Each;
    MarksAfter(s, Recorded(s, w, action), w, Idle);
  }

  lemma StepKeepsMarks(config: Config, s: State, step: Step)
    requires MarksAreLive(s)
    ensures MarksAreLive(Next(config, s, step))
  {
    hide Act, MarksAreLive, Created, Each, Pruned, Known;
    match step
    case Work(w, action) =>
      if s.started && w < |s.workers| {
        ActKeepsMarks(s, w, action);
      }
    case Crash => NothingMarked(Next(config, s, step));
    case _ => SameMarks(s, Next(config, s, step));
  }

  lemma NothingMarked(s: State)
    requires s.busy == {}
    ensures MarksAreLive(s)
  {
  }

  lemma {:induction false} RunKeepsMarks(config: Config, s: State, steps: seq<Step>)
    requires MarksAreLive(s)
    ensures MarksAreLive(Run(config, s, steps))
    decreases |steps|
  {
    hide MarksAreLive, Next;
    if steps != [] {
      StepKeepsMarks(config, s, steps[0]);
      RunKeepsMarks(config, Next(config, s, steps[0]), steps[1..]);
    }
  }

  /** Over every run a group is marked if and only if some worker is summarizing it: no group stays in
      progress after its summary ended, crashed or was never started. */
  lemma MarksExactly(config: Config, steps: seq<Step>, group: (string, string))
    requires config.Valid()
    ensures var s := Run(config, Init(config), steps);
            group in s.busy <==> exists v: nat :: Marks(s.workers, v, group)
  {
    hide Run, RowsOk, HistoryOk, CountsKnown, Apart, Holding;
    var s := Run(config, Init(config), steps);
    ReachableInv(config, steps);
    NothingMarked(Init(config));
    RunKeepsMarks(config, Init(config), steps);
    if v: nat :| Marks(s.workers, v, group) {
      assert WorkerOk(s, s.workers[v]);
    }
  }

  // ----- the steps outside the workers -----

  /** A receipt adds one pending row, untried, unless its trigger has a row; a crash stops every worker and
      forgets what the process held, and only that; a start may first send unfinished rows back or fail
      them; a prune removes old rows that ended. */
  lemma OuterStepsExactly(config: Config, s: State, step: Step)
    requires RowsOk(s) && !step.Work?
    ensures var t := Next(config, s, step);
            && t.claims == s.claims && t.interactions == s.interactions && t.sends == s.sends && t.confirmed == s.confirmed
            && match step
               case Receive(trigger, rawEventId) =>
                 && t == s.(rows := t.rows)
                 && if exists row :: row in s.rows && row.trigger == trigger then t.rows == s.rows
                    else exists id: nat | (forall row | row in s.rows :: row.id < id) ::
                           t.rows == s.rows + [Row(id, trigger, rawEventId, Pending, 0, config.maxAttempts, None, None)]
               case Crash =>
                 && t.rows == s.rows && !t.started && t.permits == config.maxConcurrent && t.busy == {}
                 && |t.workers| == config.workers && forall v | 0 <= v < |t.workers| :: t.workers[v].Idle?
               case Start(recover, now) =>
                 && t.started && t.workers == s.workers && t.permits == s.permits && t.busy == s.busy
                 && |t.rows| == |s.rows|
                 && forall i | 0 <= i < |s.rows| ::
                      t.rows[i] == if s.started || !recover || s.rows[i].status != Running then s.rows[i]
                                   else if s.rows[i].attempts < s.rows[i].maxAttempts then s.rows[i].(status := Pending)
                                   else s.rows[i].(status := Failed, completedAt := Some(now))
               case Prune(olderThan) =>
                 && t.started == s.started && t.workers == s.workers && t.permits == s.permits && t.busy == s.busy
                 && forall row :: row in t.rows
                      <==> (&& row in s.rows
                            && !(row.status in {Completed, Failed} && row.completedAt.Some? && row.completedAt.value < olderThan))
  {
    hide Row.Valid, Pruned, Known;
    match step
    case Receive(trigger, rawEventId) =>
      FindFinds(s.rows, trigger);
      IdsBelowNext(s.rows);
    case Prune(olderThan) => PruneKeepsOthers(s.rows, olderThan);
    case _ =>
  }

  lemma IdsBelowNext(rows: seq<Row>)
    requires Table(rows)
    ensures forall row | row in rows :: row.id < NextId(rows)
  {
    hide Row.Valid;
    forall row | row in rows
      ensures row.id < NextId(rows)
    {
      var i :| 0 <= i < |rows| && rows[i] == row;
      assert i < |rows| - 1 ==> rows[i].id < rows[|rows| - 1].id;
    }
  }
}
