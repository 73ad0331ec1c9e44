/** Every run of the outbox protocol keeps its invariant: at most one send for each trigger,
    completed rows only for delivered triggers, bounded handler invocations. */
module ProtocolSafety {
  import opened Values
  import opened Sequences
  import opened Outbox
  import opened Protocol

  // ----- one worker moves on -----

  lemma {:induction false} HoldingUpdate(workers: seq<Worker>, w: nat, worker: Worker)
    requires w < |workers|
    ensures Holding(workers[w := worker]) + (if Holds(workers[w]) then 1 else 0)
            == Holding(workers) + (if Holds(worker) then 1 else 0)
  {
    hide Holds;
    if w == 0 {
      assert workers[w := worker][1..] == workers[1..];
    } else {
      assert workers[w := worker][1..] == workers[1..][w - 1 := worker];
      HoldingUpdate(workers[1..], w - 1, worker);
    }
  }

  ghost predicate OthersOk(s: State, workers: seq<Worker>, w: nat) {
    forall v | 0 <= v < |workers| && v != w :: WorkerOk(s, workers[v])
  }

  ghost predicate OthersSeparate(workers: seq<Worker>, w: nat, worker: Worker) {
    forall v | 0 <= v < |workers| && v != w :: Separate(workers[v], worker) && Separate(worker, workers[v])
  }

  /** The invariant after one worker changed and the rest of the state was accounted for. */
  lemma Replaced(config: Config, s: State, t: State, w: nat, worker: Worker)
    requires Inv(config, s) && w < |s.workers| && t.workers == s.workers[w := worker] && s.started && t.started
    requires RowsOk(t) && CountsKnown(t) && HistoryOk(t)
    requires OthersOk(t, s.workers, w) && WorkerOk(t, worker)
    requires OthersSeparate(s.workers, w, worker)
    requires t.permits >= 0
    requires t.permits + (if Holds(worker) then 1 else 0) == s.permits + (if Holds(s.workers[w]) then 1 else 0)
    ensures Inv(config, t)
  {
    hide RowsOk, CountsKnown, HistoryOk, WorkerOk, Holds, Holding, Separate, Stopped;
    HoldingUpdate(s.workers, w, worker);
    forall v, u | 0 <= v < u < |t.workers|
      ensures Separate(t.workers[v], t.workers[u])
    {
      assert v != w && u != w ==> Separate(s.workers[v], s.workers[u]);
    }
  }

  lemma SameRowStaysSeparate(workers: seq<Worker>, w: nat, worker: Worker)
    requires Apart(workers) && w < |workers|
    requires worker.At? ==> workers[w].At? && worker.row == workers[w].row && worker.trigger == workers[w].trigger
    requires Summarizing(worker) ==> Summarizing(workers[w])
    ensures OthersSeparate(workers, w, worker)
  {
  }

  /** A worker only depends on these parts of the state, and more claims or confirmations never
      hurt it. */
  lemma OthersUntouched(s: State, t: State, w: nat)
    requires WorkersOk(s)
    requires t.rows == s.rows && t.sends == s.sends && t.invoked == s.invoked && t.epoch == s.epoch
    requires s.claims <= t.claims && s.confirmed <= t.confirmed && s.busy <= t.busy
    ensures OthersOk(t, s.workers, w)
  {
  }

  ghost predicate SameButWorker(s: State, t: State) {
    && t.rows == s.rows && t.sends == s.sends && t.invoked == s.invoked && t.epoch == s.epoch
    && t.busy == s.busy && t.started == s.started
    && s.claims <= t.claims && s.confirmed <= t.confirmed
  }

  lemma SameRowsOk(s: State, t: State)
    requires RowsOk(s) && CountsKnown(s) && SameButWorker(s, t)
    ensures RowsOk(t) && CountsKnown(t)
  {
  }

  /** The worker goes to another stage of the same row. */
  lemma Restaged(config: Config, s: State, t: State, w: nat, stage: Stage)
    requires Inv(config, s) && s.started && w < |s.workers| && s.workers[w].At?
    requires SameButWorker(s, t) && t.workers == s.workers[w := s.workers[w].(stage := stage)]
    requires HistoryOk(t)
    requires var worker := s.workers[w];
             && (Fresh(stage) ==> Fresh(worker.stage))
             && (MaySend(stage) ==> worker.trigger in t.claims && worker.trigger !in t.sends)
             && (stage.InFlight? || stage == Persisting ==> worker.trigger in t.sends)
             && (Delivered(stage) ==> worker.trigger in t.confirmed)
             && (Summarizing(worker.(stage := stage)) ==> Summarizing(worker))
    requires t.permits >= 0
    requires t.permits + (if Holds(s.workers[w].(stage := stage)) then 1 else 0)
             == s.permits + (if Holds(s.workers[w]) then 1 else 0)
    ensures Inv(config, t)
  {
    hide RowsOk, CountsKnown, HistoryOk, Holds, Holding, Separate, Stopped, OthersOk, OthersSeparate, RowOk, Apart;
    var worker := s.workers[w];
    SameRowsOk(s, t);
    OthersUntouched(s, t, w);
    SameRowStaysSeparate(s.workers, w, worker.(stage := stage));
    assert WorkerOk(s, worker);
    var i :| 0 <= i < |s.rows| && Owned(s.rows[i], worker, Times(s.invoked, worker.row));
    assert Owned(t.rows[i], worker.(stage := stage), Times(t.invoked, worker.row));
    Replaced(config, s, t, w, worker.(stage := stage));
  }

  /** The worker drops its row and nothing else changes but its permit. */
  lemma Dropped(config: Config, s: State, t: State, w: nat)
    requires Inv(config, s) && s.started && w < |s.workers| && s.workers[w].At?
    requires t == Put(s, w, Idle).(permits := s.permits + if Holds(s.workers[w]) then 1 else 0)
    ensures Inv(config, t)
  {
    hide RowsOk, CountsKnown, HistoryOk, Holds, Holding, Separate, Stopped, OthersOk, OthersSeparate, Apart;
    SameRowsOk(s, t);
    assert HistoryOk(t) by {
      SameHistory(s, t);
    }
    OthersUntouched(s, t, w);
    SameRowStaysSeparate(s.workers, w, Idle);
    assert !Holds(Idle) by {
      IdleHoldsNothing();
    }
    Replaced(config, s, t, w, Idle);
  }

  lemma IdleHoldsNothing()
    ensures !Holds(Idle) && !Summarizing(Idle)
  {
  }

  lemma SameHistory(s: State, t: State)
    requires HistoryOk(s)
    requires t.sends == s.sends && t.confirmed == s.confirmed && t.interactions == s.interactions && s.claims <= t.claims
    ensures HistoryOk(t)
  {
  }

  /** A summary that ended clears its group, which no other worker is summarizing. */
  lemma Unbusied(config: Config, s: State, t: State, trigger: Trigger)
    requires Inv(config, s) && t == Unbusy(s, trigger)
    requires trigger.kind == Summary ==> NobodySummarizes(s.workers, Group(trigger))
    ensures Inv(config, t)
  {
  }

  lemma CountsFrame(s: State, t: State)
    requires CountsKnown(s) && t.rows == s.rows && t.invoked == s.invoked && t.epoch == s.epoch
    ensures CountsKnown(t)
  {
  }

  lemma StoppedFrame(s: State, t: State)
    requires t.workers == s.workers
    ensures Stopped(s) == Stopped(t)
  {
  }

  ghost predicate NobodySummarizes(workers: seq<Worker>, group: (string, string)) {
    forall v | 0 <= v < |workers| :: Summarizing(workers[v]) ==> Group(workers[v].trigger) != group
  }

  /** Once this worker is done with its summary, nobody summarizes its group. */
  lemma NoOtherSummary(workers: seq<Worker>, w: nat, worker: Worker)
    requires Apart(workers) && w < |workers| && Summarizing(workers[w]) && !Summarizing(worker)
    ensures NobodySummarizes(workers[w := worker], Group(workers[w].trigger))
  {
  }

  // ----- the steps that touch more -----

  /** A worker whose row is not this one does not notice a change of this one. */
  lemma OthersKeepTheirRows(s: State, t: State, w: nat, k: nat)
    requires RowsOk(s) && WorkersOk(s) && k < |s.rows| && |t.rows| == |s.rows|
    requires forall v | 0 <= v < |s.workers| && v != w && s.workers[v].At? :: s.workers[v].row != s.rows[k].id
    requires forall i | 0 <= i < |s.rows| && i != k :: t.rows[i] == s.rows[i]
    requires forall id | id != s.rows[k].id :: Times(t.invoked, id) == Times(s.invoked, id) && Times(t.epoch, id) == Times(s.epoch, id)
    requires t.sends == s.sends && t.claims == s.claims && t.confirmed == s.confirmed && t.busy == s.busy
    ensures OthersOk(t, s.workers, w)
  {
  }

  /** The row a worker owns. */
  lemma OwnedRow(s: State, w: nat) returns (k: nat)
    requires WorkersOk(s) && w < |s.workers| && s.workers[w].At?
    ensures k < |s.rows| && Owned(s.rows[k], s.workers[w], Times(s.invoked, s.workers[w].row))
  {
    hide Owned;
    assert WorkerOk(s, s.workers[w]);
    k :| 0 <= k < |s.rows| && Owned(s.rows[k], s.workers[w], Times(s.invoked, s.workers[w].row));
  }

  /** A change of one row that keeps its identity and its own counts in order. */
  lemma OneRowChanged(s: State, t: State, k: nat)
    requires RowsOk(s) && CountsKnown(s) && k < |s.rows| && |t.rows| == |s.rows| && Table(t.rows)
    requires forall i | 0 <= i < |s.rows| && i != k :: t.rows[i] == s.rows[i]
    requires t.rows[k].id == s.rows[k].id && RowOk(t, t.rows[k])
    requires forall id | id != s.rows[k].id :: Times(t.invoked, id) == Times(s.invoked, id) && Times(t.epoch, id) == Times(s.epoch, id)
    requires forall id | id in t.invoked :: id in s.invoked || id == s.rows[k].id
    requires forall id | id in t.epoch :: id in s.epoch || id == s.rows[k].id
    requires s.confirmed <= t.confirmed
    ensures RowsOk(t) && CountsKnown(t)
  {
    hide Table, Times, HasId;
    forall i | 0 <= i < |t.rows|
      ensures RowOk(t, t.rows[i])
    {
      assert RowOk(s, s.rows[i]);
      IdsAreUnique(s.rows, i, k);
    }
    forall id | HasId(s.rows, id) || id == s.rows[k].id
      ensures HasId(t.rows, id)
    {
      SameIds(s.rows, t.rows, id, k);
    }
  }

  lemma SameIds(before: seq<Row>, after: seq<Row>, id: nat, k: nat)
    requires |after| == |before| && forall i | 0 <= i < |before| :: after[i].id == before[i].id
    requires k < |before| && (HasId(before, id) || id == before[k].id)
    ensures HasId(after, id)
  {
  }

  lemma {:induction false} CheckKeepsInv(config: Config, s: State, w: nat)
    requires Inv(config, s) && s.started && w < |s.workers|
    requires s.workers[w].At? && s.workers[w].stage == Checking
    ensures Inv(config, Invoked(s, w, s.workers[w].row))
  {
    hide Holding, Stopped, Table, HistoryOk, Separate, RowsOk, CountsKnown, Apart, OthersOk, OthersSeparate;
    var worker := s.workers[w];
    var t := Invoked(s, w, worker.row);
    var k := OwnedRow(s, w);
    assert WorkerOk(s, worker);
    RowIsOk(s, k);
    OneRowChanged(s, t, k);
    OthersHaveOtherRows(s.workers, w);
    OthersKeepTheirRows(s, t, w, k);
    assert Owned(t.rows[k], worker.(stage := Claiming), Times(t.invoked, worker.row));
    SameRowStaysSeparate(s.workers, w, worker.(stage := Claiming));
    SameHistory(s, t);
    Replaced(config, s, t, w, worker.(stage := Claiming));
  }

  lemma TableOf(s: State)
    requires RowsOk(s)
    ensures Table(s.rows)
  {
  }

  lemma RowIsOk(s: State, k: nat)
    requires RowsOk(s) && k < |s.rows|
    ensures RowOk(s, s.rows[k]) && Table(s.rows) && s.rows[k].Valid()
  {
  }

  lemma OthersHaveOtherRows(workers: seq<Worker>, w: nat)
    requires Apart(workers) && w < |workers| && workers[w].At?
    ensures forall v | 0 <= v < |workers| && v != w && workers[v].At? :: workers[v].row != workers[w].row
  {
  }

  lemma ClaimedRowIsOk(s: State, t: State, k: nat)
    requires RowsOk(s) && k < |s.rows| && s.rows[k].status == Pending
    requires t == s.(rows := t.rows, workers := t.workers)
    requires t.rows == s.rows[k := s.rows[k].(status := Running, attempts := s.rows[k].attempts + 1)]
    ensures RowOk(t, t.rows[k]) && Times(s.invoked, s.rows[k].id) < t.rows[k].attempts && Times(s.epoch, s.rows[k].id) == 0
  {
    hide Table;
    assert RowOk(s, s.rows[k]);
  }

  lemma TakeKeepsInv(config: Config, s: State, w: nat, now: int)
    requires Inv(config, s) && s.started && w < |s.workers| && s.workers[w].Idle?
    ensures Inv(config, Taken(s, w, now))
  {
    hide Holding, Stopped, Table, HistoryOk, Claimed, Claimable, RowsOk, RowOk, CountsKnown, Apart, OthersOk, Moves,
         Row.Valid;
    var t := Taken(s, w, now);
    TableOf(s);
    ClaimTakesTheFirst(s.rows, now);
    if Claimable(s.rows, now).None? {
      assert t == s;
    } else {
      var k :| 0 <= k < |s.rows| && s.rows[k] == Claimable(s.rows, now).value && s.rows[k].status == Pending
               && Claimed(s.rows, now) == s.rows[k := s.rows[k].(status := Running, attempts := s.rows[k].attempts + 1)];
      var worker := At(s.rows[k].id, s.rows[k].trigger, Loading);
      ClaimedRowIsOk(s, t, k);
      ClaimMoves(s.rows, now);
      MovesKeepTable(s.rows, t.rows);
      OneRowChanged(s, t, k);
      PendingIsNobodys(s, k);
      OthersKeepTheirRows(s, t, w, k);
      assert Owned(t.rows[k], worker, Times(t.invoked, worker.row));
      forall v | 0 <= v < |s.workers| && v != w
        ensures Separate(s.workers[v], worker) && Separate(worker, s.workers[v])
      {
      }
      SameHistory(s, t);
      Replaced(config, s, t, w, worker);
    }
  }

  /** The row of a committed claim that raised is running like a claimed row whose worker dropped it. */
  lemma TakeRaisesKeepsInv(config: Config, s: State, w: nat, now: int)
    requires Inv(config, s) && s.started && w < |s.workers| && s.workers[w].Idle?
    ensures Inv(config, s.(rows := Claimed(s.rows, now)))
  {
    hide Inv, Claimed, Claimable, Holds;
    var taken := Taken(s, w, now);
    TakeKeepsInv(config, s, w, now);
    if Claimable(s.rows, now).Some? {
      LoadingHoldsNothing(taken.workers[w]);
      Dropped(config, taken, Put(taken, w, Idle), w);
      assert Put(taken, w, Idle) == s.(rows := Claimed(s.rows, now)) by {
        assert s.workers[w := taken.workers[w]][w := Idle] == s.workers;
      }
    }
  }

  lemma LoadingHoldsNothing(worker: Worker)
    requires worker.At? && worker.stage == Loading
    ensures !Holds(worker)
  {
  }

  lemma PendingIsNobodys(s: State, k: nat)
    requires RowsOk(s) && WorkersOk(s) && k < |s.rows| && s.rows[k].status != Running
    ensures forall v | 0 <= v < |s.workers| && s.workers[v].At? :: s.workers[v].row != s.rows[k].id
  {
  }

  lemma SendKeepsRows(s: State, t: State)
    requires RowsOk(s) && CountsKnown(s) && t.rows == s.rows
    requires t.invoked == s.invoked && t.epoch == s.epoch && t.confirmed == s.confirmed
    ensures RowsOk(t) && CountsKnown(t)
  {
    hide Table;
    forall i | 0 <= i < |t.rows|
      ensures RowOk(t, t.rows[i])
    {
      assert RowOk(s, s.rows[i]);
    }
    CountsFrame(s, t);
  }

  /** A send concerns no other worker: their rows have other triggers. */
  lemma SendKeepsOther(s: State, t: State, w: nat, k: nat, v: nat)
    requires RowsOk(s) && WorkersOk(s) && Apart(s.workers) && w < |s.workers| && v < |s.workers| && v != w
    requires s.workers[w].At? && k < |s.rows| && Owned(s.rows[k], s.workers[w], Times(s.invoked, s.workers[w].row))
    requires t == s.(workers := t.workers, sends := s.sends + [s.workers[w].trigger])
    ensures WorkerOk(t, s.workers[v])
  {
    hide Table;
    assert WorkerOk(s, s.workers[v]);
    if s.workers[v].At? {
      OthersHaveOtherRows(s.workers, w);
      var i :| 0 <= i < |s.rows| && Owned(s.rows[i], s.workers[v], Times(s.invoked, s.workers[v].row));
      assert Owned(t.rows[i], s.workers[v], Times(t.invoked, s.workers[v].row));
      TriggersAreUnique(s.rows, i, k);
    }
  }

  lemma SendKeepsHistory(s: State, t: State, trigger: Trigger)
    requires HistoryOk(s) && trigger in s.claims && trigger !in s.sends
    requires t.sends == s.sends + [trigger]
    requires t.claims == s.claims && t.confirmed == s.confirmed && t.interactions == s.interactions
    ensures HistoryOk(t)
  {
  }

  lemma SendKeepsInv(config: Config, s: State, w: nat, purpose: Purpose)
    requires Inv(config, s) && s.started && w < |s.workers|
    requires s.workers[w].At? && s.workers[w].stage == Working
    ensures Inv(config, To(s, w, InFlight(purpose)).(sends := s.sends + [s.workers[w].trigger]))
  {
    hide Holding, Stopped, Table, RowsOk, CountsKnown, HistoryOk, Apart, OthersSeparate;
    var worker := s.workers[w];
    var t := To(s, w, InFlight(purpose)).(sends := s.sends + [worker.trigger]);
    assert WorkerOk(s, worker);
    var k :| 0 <= k < |s.rows| && Owned(s.rows[k], worker, Times(s.invoked, worker.row));
    SendKeepsRows(s, t);
    SendKeepsHistory(s, t, worker.trigger);
    forall v | 0 <= v < |s.workers| && v != w
      ensures WorkerOk(t, s.workers[v])
    {
      SendKeepsOther(s, t, w, k, v);
    }
    assert worker.trigger in t.sends;
    assert Owned(t.rows[k], worker.(stage := InFlight(purpose)), Times(t.invoked, worker.row));
    SameRowStaysSeparate(s.workers, w, worker.(stage := InFlight(purpose)));
    Replaced(config, s, t, w, worker.(stage := InFlight(purpose)));
  }

  lemma TriggersAreUnique(rows: seq<Row>, i: nat, j: nat)
    requires Table(rows) && i < |rows| && j < |rows|
    ensures rows[i].trigger == rows[j].trigger ==> i == j
  {
  }

  lemma SummaryGuardKeepsInv(config: Config, s: State, w: nat)
    requires Inv(config, s) && s.started && w < |s.workers|
    requires s.workers[w].At? && s.workers[w].stage == Guarding && s.workers[w].trigger.kind == Summary
    requires Group(s.workers[w].trigger) !in s.busy
    ensures Inv(config, To(s, w, Working).(busy := s.busy + {Group(s.workers[w].trigger)}))
  {
    hide Holding, Stopped, Table, CountsKnown, HistoryOk;
    var worker := s.workers[w];
    var t := To(s, w, Working).(busy := s.busy + {Group(worker.trigger)});
    assert WorkerOk(s, worker);
    var k :| 0 <= k < |s.rows| && Owned(s.rows[k], worker, Times(s.invoked, worker.row));
    forall i | 0 <= i < |t.rows|
      ensures RowOk(t, t.rows[i])
    {
      assert RowOk(s, s.rows[i]);
    }
    CountsFrame(s, t);
    SameHistory(s, t);
    OthersUntouched(s, t, w);
    assert Owned(t.rows[k], worker.(stage := Working), Times(t.invoked, worker.row));
    forall v | 0 <= v < |s.workers| && v != w
      ensures Separate(s.workers[v], worker.(stage := Working)) && Separate(worker.(stage := Working), s.workers[v])
    {
      OthersHaveOtherRows(s.workers, w);
      assert WorkerOk(s, s.workers[v]);
    }
    Replaced(config, s, t, w, worker.(stage := Working));
  }

  lemma {:induction false} RecordKeepsInv(config: Config, s: State, w: nat, action: Action)
    requires Inv(config, s) && s.started && w < |s.workers| && action.Record?
    requires s.workers[w].At?
    requires s.workers[w].stage.Failing? || s.workers[w].stage.Completing? || s.workers[w].stage == Requeueing
    ensures Inv(config, Recorded(s, w, action))
  {
    hide Holding, Stopped, Table, HistoryOk, RowsOk, CountsKnown, Apart, OthersOk, OthersSeparate, Separate, Holds;
    var worker, t := s.workers[w], Recorded(s, w, action);
    if !action.applied {
      Dropped(config, s, t, w);
    } else {
      var k := OwnedRow(s, w);
      RecordChangesOneRow(s, w, action, k);
      OneRowChanged(s, t, k);
      OthersHaveOtherRows(s.workers, w);
      OthersKeepTheirRows(s, t, w, k);
      SameHistory(s, t);
      IdleHoldsNothing();
      SameRowStaysSeparate(s.workers, w, Idle);
      Replaced(config, s, t, w, Idle);
    }
  }

  lemma {:induction false} RecordChangesOneRow(s: State, w: nat, action: Action, k: nat)
    requires RowsOk(s) && WorkersOk(s) && w < |s.workers| && action.Record? && action.applied
    requires s.workers[w].At?
    requires s.workers[w].stage.Failing? || s.workers[w].stage.Completing? || s.workers[w].stage == Requeueing
    requires k < |s.rows| && Owned(s.rows[k], s.workers[w], Times(s.invoked, s.workers[w].row))
    ensures var t := Recorded(s, w, action);
            && |t.rows| == |s.rows| && Table(t.rows)
            && (forall i | 0 <= i < |s.rows| && i != k :: t.rows[i] == s.rows[i])
            && t.rows[k].id == s.rows[k].id && RowOk(t, t.rows[k])
  {
    hide Table, Holds;
    var worker, t := s.workers[w], Recorded(s, w, action);
    assert WorkerOk(s, worker);
    OutcomesMove(s.rows, worker.row, action.responseId, action.now);
    MovesKeepTable(s.rows, t.rows);
    RowIsOk(s, k);
    forall i | 0 <= i < |s.rows| && i != k
      ensures t.rows[i] == s.rows[i]
    {
      IdsAreUnique(s.rows, i, k);
    }
  }

  // ----- every step -----

  /** The handler returns: the worker goes on, then a summary clears its group. */
  lemma EndsKeepInv(config: Config, s: State, t: State, w: nat, stage: Stage)
    requires Inv(config, s) && s.started && w < |s.workers| && s.workers[w].At?
    requires s.workers[w].stage == Working || s.workers[w].stage.InFlight?
    requires stage == Failing(true) || stage == Completing(false)
    requires SameButWorker(s, t) && t.workers == s.workers[w := s.workers[w].(stage := stage)]
    requires HistoryOk(t) && (Delivered(stage) ==> s.workers[w].trigger in t.confirmed)
    requires t.permits == s.permits + if stage == Completing(false) then 1 else 0
    ensures Inv(config, Unbusy(t, s.workers[w].trigger))
  {
    hide RowsOk, CountsKnown, Holding, Stopped, HistoryOk, WorkersOk, Separate;
    Restaged(config, s, t, w, stage);
    if s.workers[w].trigger.kind == Summary {
      NoOtherSummary(s.workers, w, s.workers[w].(stage := stage));
    }
    Unbusied(config, t, Unbusy(t, s.workers[w].trigger), s.workers[w].trigger);
  }

  lemma BeforeHandlerKeepsInv(config: Config, s: State, w: nat, action: Action)
    requires Inv(config, s) && s.started && w < |s.workers|
    requires s.workers[w].Idle? || s.workers[w].stage == Loading || s.workers[w].stage == Waiting
             || s.workers[w].stage == Checking
    ensures Inv(config, Act(s, w, action))
  {
    hide RowsOk, CountsKnown, Apart, Holding, Stopped, Taken, Invoked, Owned;
    var t, worker := Act(s, w, action), s.workers[w];
    if t != s {
      assert WorkerOk(s, worker);
      if worker.Idle? {
        if action.Take? {
          TakeKeepsInv(config, s, w, action.now);
        } else {
          TakeRaisesKeepsInv(config, s, w, action.now);
        }
      } else if worker.stage != Checking {
        Restaged(config, s, t, w, t.workers[w].stage);
      } else if action.Raise? {
        Dropped(config, s, t, w);
      } else if (IsAssistant(worker.trigger.kind) && worker.trigger in s.interactions) || action.expired {
        Restaged(config, s, t, w, t.workers[w].stage);
      } else {
        CheckKeepsInv(config, s, w);
      }
    }
  }

  lemma ClaimingKeepsInv(config: Config, s: State, w: nat, action: Action)
    requires Inv(config, s) && s.started && w < |s.workers| && s.workers[w].At?
    requires s.workers[w].stage == Claiming || s.workers[w].stage == Guarding
    ensures Inv(config, Act(s, w, action))
  {
    hide RowsOk, CountsKnown, Apart, Holding, Stopped, Owned;
    var t, worker := Act(s, w, action), s.workers[w];
    if t != s {
      assert WorkerOk(s, worker);
      if t.workers[w].stage == Working && worker.trigger.kind == Summary {
        SummaryGuardKeepsInv(config, s, w);
      } else {
        Restaged(config, s, t, w, t.workers[w].stage);
      }
    }
  }

  lemma {:induction false} WorkingKeepsInv(config: Config, s: State, w: nat, action: Action)
    requires Inv(config, s) && s.started && w < |s.workers| && s.workers[w].At? && s.workers[w].stage == Working
    ensures Inv(config, Act(s, w, action))
  {
    hide RowsOk, CountsKnown, Apart, Holding, Stopped, Owned, WorkersOk, HistoryOk;
    if Act(s, w, action) != s {
      if action.Send? {
        SendKeepsInv(config, s, w, action.purpose);
      } else {
        SameHistory(s, To(s, w, Failing(true)));
        EndsKeepInv(config, s, To(s, w, Failing(true)), w, Failing(true));
      }
    }
  }

  lemma SentMayBeConfirmed(s: State, w: nat, t: State)
    requires WorkersOk(s) && HistoryOk(s) && w < |s.workers| && s.workers[w].At? && s.workers[w].stage.InFlight?
    requires t.sends == s.sends && t.claims == s.claims && t.interactions == s.interactions
    requires t.confirmed == s.confirmed + {s.workers[w].trigger}
    ensures HistoryOk(t)
  {
  }

  lemma {:induction false} InFlightKeepsInv(config: Config, s: State, w: nat, action: Action)
    requires Inv(config, s) && s.started && w < |s.workers| && s.workers[w].At? && s.workers[w].stage.InFlight?
    ensures Inv(config, Act(s, w, action))
  {
    hide RowsOk, CountsKnown, Apart, Holding, Stopped, Owned, WorkersOk, HistoryOk, Unbusy;
    var worker := s.workers[w];
    if action.Return? {
      if !action.ok || worker.stage == InFlight(Notice) {
        SameHistory(s, To(s, w, Failing(true)));
        EndsKeepInv(config, s, To(s, w, Failing(true)), w, Failing(true));
      } else if worker.stage == InFlight(Reply) && IsAssistant(worker.trigger.kind) {
        SentMayBeConfirmed(s, w, Act(s, w, action));
        Restaged(config, s, Act(s, w, action), w, Persisting);
      } else {
        var done := To(s, w, Completing(false)).(confirmed := s.confirmed + {worker.trigger}, permits := s.permits + 1);
        SentMayBeConfirmed(s, w, done);
        EndsKeepInv(config, s, done, w, Completing(false));
      }
    }
  }

  lemma {:induction false} PersistingKeepsInv(config: Config, s: State, w: nat, action: Action)
    requires Inv(config, s) && s.started && w < |s.workers| && s.workers[w].At? && s.workers[w].stage == Persisting
    ensures Inv(config, Act(s, w, action))
  {
    hide RowsOk, CountsKnown, Apart, Holding, Stopped, Owned;
    var t := Act(s, w, action);
    assert WorkerOk(s, s.workers[w]);
    if t != s {
      Restaged(config, s, t, w, t.workers[w].stage);
    }
  }

  lemma {:induction false} ActKeepsInv(config: Config, s: State, w: nat, action: Action)
    requires Inv(config, s) && s.started && w < |s.workers|
    ensures Inv(config, Act(s, w, action))
  {
    hide Inv, Taken, Invoked, Recorded, Unbusy;
    if s.workers[w].Idle? || s.workers[w].stage == Loading || s.workers[w].stage == Waiting
       || s.workers[w].stage == Checking {
      BeforeHandlerKeepsInv(config, s, w, action);
    } else if s.workers[w].stage == Claiming || s.workers[w].stage == Guarding {
      ClaimingKeepsInv(config, s, w, action);
    } else if s.workers[w].stage == Working {
      WorkingKeepsInv(config, s, w, action);
    } else if s.workers[w].stage.InFlight? {
      InFlightKeepsInv(config, s, w, action);
    } else if s.workers[w].stage == Persisting {
      PersistingKeepsInv(config, s, w, action);
    } else if action.Record? {
      RecordKeepsInv(config, s, w, action);
    }
  }

  /** A row that is appended disturbs no worker. */
  lemma MoreRowsKeepWorkers(s: State, t: State)
    requires WorkersOk(s) && |s.rows| <= |t.rows| && t.rows[..|s.rows|] == s.rows && t == s.(rows := t.rows)
    ensures WorkersOk(t)
  {
  }

  lemma ReceiveKeepsInv(config: Config, s: State, trigger: Trigger, rawEventId: int)
    requires config.Valid() && Inv(config, s)
    ensures Inv(config, Next(config, s, Receive(trigger, rawEventId)))
  {
    hide Table, Holding, Apart, Stopped, HistoryOk, WorkersOk;
    var t := Next(config, s, Receive(trigger, rawEventId));
    CreationKeepsTable(s.rows, trigger, rawEventId, config.maxAttempts);
    if t.rows != s.rows {
      NewIdIsUnknown(s.rows);
      assert t.rows[..|s.rows|] == s.rows;
      forall i | 0 <= i < |t.rows|
        ensures RowOk(t, t.rows[i])
      {
        if i < |s.rows| {
          assert RowOk(s, s.rows[i]);
        }
      }
      forall id | HasId(s.rows, id)
        ensures HasId(t.rows, id)
      {
        var i :| 0 <= i < |s.rows| && s.rows[i].id == id;
        assert t.rows[i].id == id;
      }
      MoreRowsKeepWorkers(s, t);
      SameHistory(s, t);
      StoppedFrame(s, t);
    }
  }

  lemma NewIdIsUnknown(rows: seq<Row>)
    requires Table(rows)
    ensures !HasId(rows, NextId(rows))
  {
  }

  lemma {:induction false} IdleHoldNothing(workers: seq<Worker>)
    requires forall v | 0 <= v < |workers| :: workers[v].Idle?
    ensures Holding(workers) == 0
  {
    if workers != [] {
      IdleHoldNothing(workers[1..]);
    }
  }

  lemma CrashKeepsInv(config: Config, s: State)
    requires config.Valid() && Inv(config, s)
    ensures Inv(config, Next(config, s, Crash))
  {
    hide Table;
    var t := Next(config, s, Crash);
    IdleHoldNothing(t.workers);
    forall i | 0 <= i < |t.rows|
      ensures RowOk(t, t.rows[i])
    {
      assert RowOk(s, s.rows[i]);
    }
  }

  lemma StartKeepsInv(config: Config, s: State, recover: bool, now: int)
    requires Inv(config, s)
    ensures Inv(config, Next(config, s, Start(recover, now)))
  {
    hide Table, Holding, HistoryOk, Moves;
    var t := Next(config, s, Start(recover, now));
    SameHistory(s, t);
    if !s.started && recover {
      OutcomesMove(s.rows, 0, None, now);
      MovesKeepTable(s.rows, t.rows);
      forall i | 0 <= i < |t.rows|
        ensures RowOk(t, t.rows[i])
      {
        assert RowOk(s, s.rows[i]);
      }
      forall id | HasId(s.rows, id)
        ensures HasId(t.rows, id)
      {
        var i :| 0 <= i < |s.rows| && s.rows[i].id == id;
        assert t.rows[i].id == id;
      }
    } else {
      assert RowsOk(t) && CountsKnown(t) by {
        forall i | 0 <= i < |t.rows|
          ensures RowOk(t, t.rows[i])
        {
          assert RowOk(s, s.rows[i]);
        }
      }
      forall v | 0 <= v < |t.workers|
        ensures WorkerOk(t, t.workers[v])
      {
        assert WorkerOk(s, s.workers[v]);
      }
    }
  }

  lemma PruneKeepsInv(config: Config, s: State, olderThan: int)
    requires Inv(config, s)
    ensures Inv(config, Next(config, s, Step.Prune(olderThan)))
  {
    hide Table, Holding, Apart, Stopped, HistoryOk, Pruned;
    var t := Next(config, s, Step.Prune(olderThan));
    PruneKeepsOthers(s.rows, olderThan);
    forall id | HasId(t.rows, id)
      ensures Times(t.invoked, id) == Times(s.invoked, id) && Times(t.epoch, id) == Times(s.epoch, id)
    {
    }
    forall i | 0 <= i < |t.rows|
      ensures RowOk(t, t.rows[i])
    {
      assert t.rows[i] in s.rows && HasId(t.rows, t.rows[i].id);
      var k :| 0 <= k < |s.rows| && s.rows[k] == t.rows[i];
      assert RowOk(s, s.rows[k]);
    }
    forall v | 0 <= v < |t.workers|
      ensures WorkerOk(t, t.workers[v])
    {
      assert WorkerOk(s, s.workers[v]);
      if s.workers[v].At? {
        var k := OwnedRow(s, v);
        assert s.rows[k] in t.rows;
        var i :| 0 <= i < |t.rows| && t.rows[i] == s.rows[k];
        assert HasId(t.rows, s.workers[v].row);
        assert Owned(t.rows[i], t.workers[v], Times(t.invoked, t.workers[v].row));
      }
    }
    SameHistory(s, t);
    StoppedFrame(s, t);
  }

  lemma {:induction false} StepKeepsInv(config: Config, s: State, step: Step)
    requires config.Valid() && Inv(config, s)
    ensures Inv(config, Next(config, s, step))
  {
    hide Inv, Act;
    match step
    case Receive(trigger, rawEventId) => ReceiveKeepsInv(config, s, trigger, rawEventId);
    case Work(w, action) =>
      if s.started && w < |s.workers| {
        ActKeepsInv(config, s, w, action);
      }
    case Crash => CrashKeepsInv(config, s);
    case Start(recover, now) => StartKeepsInv(config, s, recover, now);
    case Prune(olderThan) => PruneKeepsInv(config, s, olderThan);
  }

  lemma {:induction false} RunKeepsInv(config: Config, s: State, steps: seq<Step>)
    requires config.Valid() && Inv(config, s)
    ensures Inv(config, Run(config, s, steps))
    decreases |steps|
  {
    hide Inv, Next;
    if steps != [] {
      StepKeepsInv(config, s, steps[0]);
      RunKeepsInv(config, Next(config, s, steps[0]), steps[1..]);
    }
  }

  lemma ReachableInv(config: Config, steps: seq<Step>)
    requires config.Valid()
    ensures Inv(config, Run(config, Init(config), steps))
  {
    IdleHoldNothing(AllIdle(config));
    assert Inv(config, Init(config));
    RunKeepsInv(config, Init(config), steps);
  }

  // ----- what every run satisfies -----

  /** Over every run, however receipts, workers, crashes, restarts and prunes interleave, no
      trigger is sent to twice. */
  lemma AtMostOneSend(config: Config, steps: seq<Step>)
    requires config.Valid()
    ensures NoDuplicates(Run(config, Init(config), steps).sends)
  {
    hide Run, Init;
    ReachableInv(config, steps);
  }

  /** A completed row's trigger had a send that was reported delivered, and so did every trigger
      with a stored interaction. */
  lemma CompletedMeansDelivered(config: Config, steps: seq<Step>)
    requires config.Valid()
    ensures var s := Run(config, Init(config), steps);
            && (forall i | 0 <= i < |s.rows| :: s.rows[i].status == Completed ==> s.rows[i].trigger in s.confirmed)
            && (forall t | t in s.interactions :: t in s.confirmed)
            && (forall t | t in s.confirmed :: t in s.sends)
  {
    hide Run, Init, Table;
    ReachableInv(config, steps);
    var s := Run(config, Init(config), steps);
    forall i | 0 <= i < |s.rows|
      ensures s.rows[i].status == Completed ==> s.rows[i].trigger in s.confirmed
    {
      assert RowOk(s, s.rows[i]);
    }
  }

  /** Attempts stay within the limit, a pending row always has one left, and a row's handler runs
      at most once between two recoveries and at most once for each attempt. */
  lemma AttemptsAreBounded(config: Config, steps: seq<Step>, i: nat)
    requires config.Valid() && i < |Run(config, Init(config), steps).rows|
    ensures var s := Run(config, Init(config), steps);
            var row := s.rows[i];
            && 0 <= row.attempts <= row.maxAttempts
            && (row.status == Pending ==> row.attempts < row.maxAttempts)
            && Times(s.invoked, row.id) <= row.attempts
            && Times(s.epoch, row.id) <= 1
  {
    hide Run, Init;
    ReachableInv(config, steps);
    var s := Run(config, Init(config), steps);
    RowIsOk(s, i);
  }

  /** Each worker has a running row of its own; at most maxConcurrent of them are in a handler;
      no two summarize the same group. */
  lemma WorkersAreBounded(config: Config, steps: seq<Step>)
    requires config.Valid()
    ensures var s := Run(config, Init(config), steps);
            && Holding(s.workers) <= config.maxConcurrent
            && Apart(s.workers)
            && forall v | 0 <= v < |s.workers| && s.workers[v].At? ::
                 exists k | 0 <= k < |s.rows| :: s.rows[k].id == s.workers[v].row && s.rows[k].status == Running
  {
    hide Run, Init, Holding, Apart;
    ReachableInv(config, steps);
    var s := Run(config, Init(config), steps);
    forall v | 0 <= v < |s.workers| && s.workers[v].At?
      ensures exists k | 0 <= k < |s.rows| :: s.rows[k].id == s.workers[v].row && s.rows[k].status == Running
    {
      var k := OwnedRow(s, v);
    }
  }
}
