/** Rows move forward only: a rank that every row transition lowers bounds the transitions of any
    run by the work it received. */
module ProtocolProgress {
  import opened Values
  import opened Outbox
  import opened Protocol
  import opened ProtocolSafety

  function TotalRank(rows: seq<Row>): int {
    if rows == [] then 0 else rows[0].Rank() + TotalRank(rows[1..])
  }

  /** How many rows differ. */
  function Changed(before: seq<Row>, after: seq<Row>): nat
    requires |before| == |after|
  {
    if before == [] then 0 else (if before[0] == after[0] then 0 else 1) + Changed(before[1..], after[1..])
  }

  lemma {:induction false} MovesLowerRank(before: seq<Row>, after: seq<Row>)
    requires AllMove(before, after) && forall i | 0 <= i < |before| :: before[i].Valid()
    ensures 0 <= TotalRank(after) && TotalRank(after) + Changed(before, after) <= TotalRank(before)
  {
    hide Moves;
    if before != [] {
      assert Moves(before[0], after[0]);
      MovesDescend(before[0], after[0]);
      forall i | 0 <= i < |before[1..]|
        ensures Moves(before[1..][i], after[1..][i]) && before[1..][i].Valid()
      {
        assert Moves(before[i + 1], after[i + 1]);
      }
      MovesLowerRank(before[1..], after[1..]);
    }
  }

  lemma {:induction false} RankOfAppend(rows: seq<Row>, row: Row)
    ensures TotalRank(rows + [row]) == TotalRank(rows) + row.Rank()
  {
    if rows == [] {
      assert TotalRank([row]) == row.Rank() + TotalRank([]);
    } else {
      assert (rows + [row])[1..] == rows[1..] + [row];
      RankOfAppend(rows[1..], row);
    }
  }

  lemma {:induction false} PruneKeepsRank(rows: seq<Row>, olderThan: int)
    ensures TotalRank(Pruned(rows, olderThan)) == TotalRank(rows)
  {
    if rows != [] {
      PruneKeepsRank(rows[1..], olderThan);
      assert ([rows[0]] + Pruned(rows[1..], olderThan))[1..] == Pruned(rows[1..], olderThan);
      assert [] + Pruned(rows[1..], olderThan) == Pruned(rows[1..], olderThan);
    }
  }

  lemma {:induction false} RankIsNonNegative(rows: seq<Row>)
    requires forall i | 0 <= i < |rows| :: rows[i].Valid()
    ensures TotalRank(rows) >= 0
  {
    if rows != [] {
      assert rows[0].Valid();
      forall i | 0 <= i < |rows[1..]|
        ensures rows[1..][i].Valid()
      {
        assert rows[i + 1].Valid();
      }
      RankIsNonNegative(rows[1..]);
    }
  }

  /** Apart from receipts and prunes, a step only moves rows forward. */
  lemma {:induction false} StepMovesRows(config: Config, s: State, step: Step)
    requires Inv(config, s) && !step.Receive? && !step.Prune?
    ensures AllMove(s.rows, Next(config, s, step).rows)
  {
    hide Claimed, Claimable, WorkersOk, Apart, CountsKnown, HistoryOk, Stopped, Holding, Moves;
    TableOf(s);
    SameRowsMove(s.rows);
    match step
    case Work(w, action) =>
      if s.started && w < |s.workers| {
        if s.workers[w].Idle? && (action.Take? || action.TakeRaises?) {
          ClaimMoves(s.rows, action.now);
        } else if s.workers[w].At? && action.Record? {
          OutcomesMove(s.rows, s.workers[w].row, action.responseId, action.now);
        }
      }
    case Start(recover, now) => OutcomesMove(s.rows, 0, None, now);
    case _ =>
  }

  lemma SameRowsMove(rows: seq<Row>)
    ensures AllMove(rows, rows)
  {
  }

  /** The row transitions a step makes; creating and pruning rows is not counted. */
  function Transitions(config: Config, s: State, step: Step): nat {
    var after := Next(config, s, step).rows;
    if step.Receive? || step.Prune? || |after| != |s.rows| then 0 else Changed(s.rows, after)
  }

  function AllTransitions(config: Config, s: State, steps: seq<Step>): nat
    decreases |steps|
  {
    if steps == [] then 0
    else Transitions(config, s, steps[0]) + AllTransitions(config, Next(config, s, steps[0]), steps[1..])
  }

  /** How many rows a run creates. */
  function Creations(config: Config, s: State, steps: seq<Step>): nat
    decreases |steps|
  {
    if steps == [] then 0
    else
      var t := Next(config, s, steps[0]);
      (if steps[0].Receive? && t.rows != s.rows then 1 else 0) + Creations(config, t, steps[1..])
  }

  lemma StepPays(config: Config, s: State, step: Step)
    requires config.Valid() && Inv(config, s)
    ensures var t := Next(config, s, step);
            Transitions(config, s, step) + TotalRank(t.rows)
            <= TotalRank(s.rows) + if step.Receive? && t.rows != s.rows then 2 * config.maxAttempts else 0
  {
    hide Table, TotalRank, Changed, Act, Pruned, WorkersOk, Apart, CountsKnown, HistoryOk, Stopped, Holding;
    var t := Next(config, s, step);
    if step.Receive? {
      if t.rows != s.rows {
        RankOfAppend(s.rows, t.rows[|s.rows|]);
      }
    } else if step.Prune? {
      PruneKeepsRank(s.rows, step.olderThan);
    } else {
      StepMovesRows(config, s, step);
      ValidRows(s);
      MovesLowerRank(s.rows, t.rows);
    }
  }

  lemma ValidRows(s: State)
    requires RowsOk(s)
    ensures forall i | 0 <= i < |s.rows| :: s.rows[i].Valid()
  {
  }

  lemma {:induction false} RunPays(config: Config, s: State, steps: seq<Step>)
    requires config.Valid() && Inv(config, s)
    ensures AllTransitions(config, s, steps) + TotalRank(Run(config, s, steps).rows)
            <= TotalRank(s.rows) + 2 * config.maxAttempts * Creations(config, s, steps)
    decreases |steps|
  {
    hide Inv, Next, TotalRank, Transitions;
    if steps != [] {
      var t := Next(config, s, steps[0]);
      StepPays(config, s, steps[0]);
      StepKeepsInv(config, s, steps[0]);
      RunPays(config, t, steps[1..]);
      Distribute(2 * config.maxAttempts, if steps[0].Receive? && t.rows != s.rows then 1 else 0,
                 Creations(config, t, steps[1..]));
    }
  }

  lemma Distribute(a: int, b: int, c: int)
    ensures a * (b + c) == a * b + a * c
  {
  }

  /** A run makes at most twice maxAttempts row transitions for each row it creates, so without
      new work it stops changing rows. */
  lemma TransitionsAreBounded(config: Config, steps: seq<Step>)
    requires config.Valid()
    ensures AllTransitions(config, Init(config), steps)
            <= 2 * config.maxAttempts * Creations(config, Init(config), steps)
  {
    hide AllTransitions, Creations, Run, Next;
    ReachableInv(config, []);
    assert Run(config, Init(config), []) == Init(config) by {
      NoSteps(config, Init(config));
    }
    RunPays(config, Init(config), steps);
    ReachableInv(config, steps);
    ValidRows(Run(config, Init(config), steps));
    RankIsNonNegative(Run(config, Init(config), steps).rows);
  }

  lemma NoSteps(config: Config, s: State)
    ensures Run(config, s, []) == s
  {
  }

  /** Nothing but a prune removes a row or changes a terminal one, and no step removes a row that
      is still to be worked on. */
  lemma StepKeepsRows(config: Config, s: State, step: Step, row: Row)
    requires config.Valid() && Inv(config, s) && row in s.rows
    ensures row.Terminal() && !step.Prune? ==> row in Next(config, s, step).rows
    ensures !row.Terminal() ==> exists after | after in Next(config, s, step).rows :: Moves(row, after)
  {
    hide Act, Pruned, WorkersOk, Apart, CountsKnown, HistoryOk, Stopped, Holding, Table;
    var t := Next(config, s, step);
    var k :| 0 <= k < |s.rows| && s.rows[k] == row;
    if step.Receive? {
      assert t.rows[k] == row;
      assert row in t.rows && Moves(row, row);
    } else if step.Prune? {
      PruneKeepsOthers(s.rows, step.olderThan);
      if !row.Terminal() {
        assert row in t.rows && Moves(row, row);
      }
    } else {
      StepMovesRows(config, s, step);
      assert Moves(s.rows[k], t.rows[k]) && t.rows[k] in t.rows;
    }
  }
}
