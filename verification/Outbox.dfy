/** The interaction outbox: its rows, the transitions the repository performs on them, and the
    repository class. */
module Outbox {
  import opened Values
  import opened Sequences

  datatype Kind = Ping | Summary | GroundedQa | MentionChat | ReplyToBot

  /** What one row is for: the unique key of the outbox and of the durable claims. */
  datatype Trigger = Trigger(platform: string, groupId: string, messageId: string, kind: Kind)

  datatype Status = Pending | Running | Completed | Failed

  datatype Row = Row(
    id: nat,
    trigger: Trigger,
    rawEventId: int,
    status: Status,
    attempts: nat,
    maxAttempts: nat,
    completedAt: Option<int>,
    responseId: Option<string>
  ) {
    predicate Terminal() {
      status == Completed || status == Failed
    }

    /** What a stored row always satisfies. */
    ghost predicate Valid() {
      && 1 <= maxAttempts && attempts <= maxAttempts
      && (status == Pending ==> attempts < maxAttempts)
      && (status == Running ==> 1 <= attempts)
      && (Terminal() <==> completedAt.Some?)
    }

    /** How many more transitions a row can make: twice the attempts left, and one while running. */
    function Rank(): int {
      if Terminal() then 0 else 2 * (maxAttempts - attempts) + if status == Running then 1 else 0
    }
  }

  // ----- the table -----

  ghost predicate Table(rows: seq<Row>) {
    && (forall i | 0 <= i < |rows| :: rows[i].Valid())
    && (forall i, j | 0 <= i < j < |rows| :: rows[i].id < rows[j].id)
    && (forall i, j | 0 <= i < j < |rows| :: rows[i].trigger != rows[j].trigger)
  }

  function Find(rows: seq<Row>, trigger: Trigger): Option<Row> {
    if rows == [] then None
    else if rows[0].trigger == trigger then Some(rows[0])
    else Find(rows[1..], trigger)
  }

  function FindId(rows: seq<Row>, id: nat): Option<Row> {
    if rows == [] then None
    else if rows[0].id == id then Some(rows[0])
    else FindId(rows[1..], id)
  }

  /** The id the database gives the next row: one more than the greatest in use. */
  function NextId(rows: seq<Row>): nat {
    if rows == [] then 1 else rows[|rows| - 1].id + 1
  }

  function Created(rows: seq<Row>, trigger: Trigger, rawEventId: int, maxAttempts: nat): seq<Row> {
    if Find(rows, trigger).Some? then rows
    else rows + [Row(NextId(rows), trigger, rawEventId, Pending, 0, maxAttempts, None, None)]
  }

  /** `UPDATE` without inserting or deleting: every row through one function. */
  function Each(rows: seq<Row>, update: Row -> Row): seq<Row> {
    seq(|rows|, i requires 0 <= i < |rows| => update(rows[i]))
  }

  function SweepRow(row: Row, now: int): Row {
    if row.status == Pending && row.attempts >= row.maxAttempts
    then row.(status := Failed, completedAt := Some(now)) else row
  }

  function ClaimRow(row: Row, id: nat): Row {
    if row.id == id then row.(status := Running, attempts := row.attempts + 1) else row
  }

  function CompleteRow(row: Row, id: nat, responseId: Option<string>, now: int): Row {
    if row.id == id && row.status == Running
    then row.(status := Completed, completedAt := Some(now), responseId := responseId) else row
  }

  function FailRow(row: Row, id: nat, now: int): Row {
    if row.id == id && row.status == Running
    then row.(status := Failed, completedAt := Some(now)) else row
  }

  function RequeueRow(row: Row, id: nat, now: int): Row {
    if row.id == id && row.status == Running then
      if row.attempts >= row.maxAttempts then row.(status := Failed, completedAt := Some(now))
      else row.(status := Pending)
    else row
  }

  function RecoverRow(row: Row, now: int): Row {
    if row.status == Running then
      if row.attempts >= row.maxAttempts then row.(status := Failed, completedAt := Some(now))
      else row.(status := Pending)
    else row
  }

  /** The pending row with the smallest id. */
  function FirstPending(rows: seq<Row>): Option<Row> {
    if rows == [] then None
    else if rows[0].status == Pending then Some(rows[0])
    else FirstPending(rows[1..])
  }

  /** The row `claim_next_pending` takes, after the sweep of exhausted pending rows. */
  function Claimable(rows: seq<Row>, now: int): Option<Row> {
    FirstPending(Each(rows, row => SweepRow(row, now)))
  }

  function Claimed(rows: seq<Row>, now: int): seq<Row> {
    var swept := Each(rows, row => SweepRow(row, now));
    var first := FirstPending(swept);
    if first.None? then swept else Each(swept, row => ClaimRow(row, first.value.id))
  }

  predicate Prunable(row: Row, olderThan: int) {
    row.Terminal() && row.completedAt.Some? && row.completedAt.value < olderThan
  }

  function Pruned(rows: seq<Row>, olderThan: int): seq<Row> {
    Filter(rows, row => !Prunable(row, olderThan))
  }

  // ----- what a transition may do to a row -----

  /** Pending rows start running at the cost of one attempt, running rows end or go back to
      pending while attempts are left, and terminal rows stay as they are. */
  ghost predicate Moves(before: Row, after: Row) {
    && after.id == before.id && after.trigger == before.trigger && after.rawEventId == before.rawEventId
    && after.maxAttempts == before.maxAttempts
    && match before.status
       case Pending => after == before || (after.status == Running && after.attempts == before.attempts + 1
                                           && after.completedAt.None?)
       case Running => after == before
                       || (after.status == Pending && after.attempts == before.attempts
                           && before.attempts < before.maxAttempts && after.completedAt.None?)
                       || (after.Terminal() && after.attempts == before.attempts && after.completedAt.Some?)
       case _ => after == before
  }

  lemma MovesDescend(before: Row, after: Row)
    requires before.Valid() && Moves(before, after)
    ensures after.Valid() && 0 <= after.Rank() <= before.Rank()
    ensures after != before ==> after.Rank() < before.Rank()
  {
  }

  ghost predicate AllMove(before: seq<Row>, after: seq<Row>) {
    |after| == |before| && forall i | 0 <= i < |before| :: Moves(before[i], after[i])
  }

  lemma MovesKeepTable(before: seq<Row>, after: seq<Row>)
    requires Table(before) && AllMove(before, after)
    ensures Table(after)
  {
    forall i | 0 <= i < |after|
      ensures after[i].Valid()
    {
      assert Moves(before[i], after[i]);
      MovesDescend(before[i], after[i]);
    }
    forall i, j | 0 <= i < j < |after|
      ensures after[i].id < after[j].id && after[i].trigger != after[j].trigger
    {
      assert Moves(before[i], after[i]) && Moves(before[j], after[j]);
    }
  }

  /** On a valid table no pending row has used up its attempts, so the sweep changes nothing. */
  lemma SweepIsIdle(rows: seq<Row>, now: int)
    requires Table(rows)
    ensures Each(rows, row => SweepRow(row, now)) == rows
  {
  }

  lemma {:induction false} FirstPendingIsFirst(rows: seq<Row>)
    ensures FirstPending(rows).None? ==> forall i | 0 <= i < |rows| :: rows[i].status != Pending
    ensures FirstPending(rows).Some? ==>
              exists k | 0 <= k < |rows| :: rows[k] == FirstPending(rows).value && rows[k].status == Pending
                                            && forall i | 0 <= i < k :: rows[i].status != Pending
  {
    if rows != [] && rows[0].status != Pending {
      FirstPendingIsFirst(rows[1..]);
      if FirstPending(rows).Some? {
        var k :| 0 <= k < |rows[1..]| && rows[1..][k] == FirstPending(rows).value && rows[1..][k].status == Pending
                 && forall i | 0 <= i < k :: rows[1..][i].status != Pending;
        assert rows[k + 1] == FirstPending(rows).value;
        assert forall i | 0 <= i < k + 1 :: rows[i].status != Pending by {
          assert forall i | 1 <= i < k + 1 :: rows[i] == rows[1..][i - 1];
        }
      }
    } else if rows != [] {
      assert rows[0] == FirstPending(rows).value;
    }
  }

  /** Starting by id starts one row only. */
  lemma StartsOnlyThat(rows: seq<Row>, k: nat)
    requires Table(rows) && k < |rows|
    ensures Each(rows, row => ClaimRow(row, rows[k].id))
            == rows[k := rows[k].(status := Running, attempts := rows[k].attempts + 1)]
  {
    hide Row.Valid;
    forall i | 0 <= i < |rows| && i != k
      ensures rows[i].id != rows[k].id
    {
      assert i < k ==> rows[i].id < rows[k].id;
      assert k < i ==> rows[k].id < rows[i].id;
    }
  }

  /** Claiming takes the first pending row, starts it, and touches no other. */
  lemma ClaimTakesTheFirst(rows: seq<Row>, now: int)
    requires Table(rows)
    ensures Claimable(rows, now).None? ==> Claimed(rows, now) == rows && forall i | 0 <= i < |rows| :: rows[i].status != Pending
    ensures Claimable(rows, now).Some? ==>
              exists k | 0 <= k < |rows| ::
                && rows[k] == Claimable(rows, now).value && rows[k].status == Pending
                && (forall i | 0 <= i < k :: rows[i].status != Pending)
                && Claimed(rows, now) == rows[k := rows[k].(status := Running, attempts := rows[k].attempts + 1)]
  {
    SweepIsIdle(rows, now);
    FirstPendingIsFirst(rows);
    hide Each, ClaimRow, Table;
    if Claimable(rows, now).Some? {
      var k :| 0 <= k < |rows| && rows[k] == FirstPending(rows).value && rows[k].status == Pending
               && forall i | 0 <= i < k :: rows[i].status != Pending;
      StartsOnlyThat(rows, k);
    }
  }

  lemma ClaimMoves(rows: seq<Row>, now: int)
    requires Table(rows)
    ensures AllMove(rows, Claimed(rows, now))
  {
    hide Claimed, Claimable;
    ClaimTakesTheFirst(rows, now);
    if Claimable(rows, now).Some? {
      var k :| 0 <= k < |rows| && rows[k] == Claimable(rows, now).value && rows[k].status == Pending
               && Claimed(rows, now) == rows[k := rows[k].(status := Running, attempts := rows[k].attempts + 1)];
      assert rows[k].Valid();
    }
  }

  lemma OutcomeMoves(row: Row, id: nat, responseId: Option<string>, now: int)
    requires row.Valid()
    ensures Moves(row, CompleteRow(row, id, responseId, now)) && Moves(row, FailRow(row, id, now))
    ensures Moves(row, RequeueRow(row, id, now)) && Moves(row, RecoverRow(row, now))
  {
  }

  /** Every outcome moves every row legally. */
  lemma OutcomesMove(rows: seq<Row>, id: nat, responseId: Option<string>, now: int)
    requires Table(rows)
    ensures AllMove(rows, Each(rows, row => CompleteRow(row, id, responseId, now)))
    ensures AllMove(rows, Each(rows, row => FailRow(row, id, now)))
    ensures AllMove(rows, Each(rows, row => RequeueRow(row, id, now)))
    ensures AllMove(rows, Each(rows, row => RecoverRow(row, now)))
  {
    hide CompleteRow, FailRow, RequeueRow, RecoverRow, Moves;
    forall i | 0 <= i < |rows|
      ensures Moves(rows[i], CompleteRow(rows[i], id, responseId, now)) && Moves(rows[i], FailRow(rows[i], id, now))
      ensures Moves(rows[i], RequeueRow(rows[i], id, now)) && Moves(rows[i], RecoverRow(rows[i], now))
    {
      assert rows[i].Valid();
      OutcomeMoves(rows[i], id, responseId, now);
    }
  }

  lemma {:induction false} FindFinds(rows: seq<Row>, trigger: Trigger)
    ensures Find(rows, trigger).Some? <==> exists i | 0 <= i < |rows| :: rows[i].trigger == trigger
    ensures Find(rows, trigger).Some? ==> Find(rows, trigger).value in rows && Find(rows, trigger).value.trigger == trigger
  {
    if rows != [] {
      FindFinds(rows[1..], trigger);
      if Find(rows[1..], trigger).Some? {
        var i :| 0 <= i < |rows[1..]| && rows[1..][i].trigger == trigger;
        assert rows[i + 1].trigger == trigger;
      }
    }
  }

  lemma CreationKeepsTable(rows: seq<Row>, trigger: Trigger, rawEventId: int, maxAttempts: nat)
    requires Table(rows) && maxAttempts >= 1
    ensures Table(Created(rows, trigger, rawEventId, maxAttempts))
  {
    FindFinds(rows, trigger);
    if Find(rows, trigger).None? {
      var after := Created(rows, trigger, rawEventId, maxAttempts);
      forall i | 0 <= i < |rows|
        ensures rows[i].id < NextId(rows) && rows[i].trigger != trigger
      {
        assert i < |rows| - 1 ==> rows[i].id < rows[|rows| - 1].id;
      }
    }
  }

  /** The row comes before every row of a table and shares no trigger with it. */
  ghost predicate Before(row: Row, rows: seq<Row>) {
    forall other | other in rows :: row.id < other.id && row.trigger != other.trigger
  }

  lemma TableTail(rows: seq<Row>)
    requires Table(rows) && rows != []
    ensures rows[0].Valid() && Table(rows[1..]) && Before(rows[0], rows[1..])
  {
    hide Row.Valid;
    forall other | other in rows[1..]
      ensures rows[0].id < other.id && rows[0].trigger != other.trigger
    {
      var k :| 0 <= k < |rows[1..]| && rows[1..][k] == other;
      assert rows[k + 1] == other;
    }
    forall i | 0 <= i < |rows[1..]|
      ensures rows[1..][i].Valid()
    {
      assert rows[1..][i] == rows[i + 1];
    }
  }

  lemma TableCons(row: Row, rows: seq<Row>)
    requires row.Valid() && Table(rows) && Before(row, rows)
    ensures Table([row] + rows)
  {
    hide Row.Valid;
    var all := [row] + rows;
    forall i | 0 < i < |all|
      ensures all[i] == rows[i - 1] && all[i] in rows
    {
    }
  }

  lemma {:induction false} FilterKeepsTable(rows: seq<Row>, keep: Row -> bool)
    requires Table(rows)
    ensures Table(Filter(rows, keep))
  {
    hide Table, Row.Valid;
    if rows == [] {
      assert Filter(rows, keep) == rows;
    } else {
      TableTail(rows);
      FilterKeepsTable(rows[1..], keep);
      FilterMembers(rows[1..], keep);
      var rest := Filter(rows[1..], keep);
      TableCons(rows[0], rest);
      assert Filter(rows, keep) == if keep(rows[0]) then [rows[0]] + rest else rest;
    }
  }

  lemma PruneKeepsOthers(rows: seq<Row>, olderThan: int)
    ensures forall row :: row in Pruned(rows, olderThan) <==> row in rows && !Prunable(row, olderThan)
    ensures Table(rows) ==> Table(Pruned(rows, olderThan))
  {
    hide Prunable, Table;
    FilterMembers(rows, row => !Prunable(row, olderThan));
    if Table(rows) {
      FilterKeepsTable(rows, row => !Prunable(row, olderThan));
    }
  }

  // ----- the repository -----

  class InteractionOutboxRepository {
    var rows: seq<Row>

    ghost predicate Valid()
      reads this
    {
      Table(rows)
    }

    constructor ()
      ensures Valid() && rows == []
    {
      rows := [];
    }

    /** The new row, or the one that already holds the trigger; None for an invalid limit. */
    method CreatePending(trigger: Trigger, rawEventId: int, maxAttempts: int)
      returns (row: Option<Row>, created: bool)
      requires Valid()
      modifies this
      ensures Valid()
      ensures maxAttempts < 1 ==> row.None? && !created && rows == old(rows)
      ensures maxAttempts >= 1 ==>
                && rows == Created(old(rows), trigger, rawEventId, maxAttempts)
                && row.Some? && row.value in rows && row.value.trigger == trigger
                && (created <==> forall r | r in old(rows) :: r.trigger != trigger)
                && (!created ==> rows == old(rows))
                && (created ==>
                      && rows == old(rows) + [row.value]
                      && row.value.rawEventId == rawEventId && row.value.maxAttempts == maxAttempts
                      && row.value.status == Pending && row.value.attempts == 0
                      && row.value.completedAt.None? && row.value.responseId.None?
                      && forall r | r in old(rows) :: r.id < row.value.id)
    {
      if maxAttempts < 1 {
        return None, false;
      }
      CreationKeepsTable(rows, trigger, rawEventId, maxAttempts);
      FindFinds(rows, trigger);
      var existing := Find(rows, trigger);
      if existing.Some? {
        return existing, false;
      }
      var added := Row(NextId(rows), trigger, rawEventId, Pending, 0, maxAttempts, None, None);
      rows := rows + [added];
      return Some(added), true;
    }

    method ClaimNextPending(now: int) returns (claimed: Option<Row>)
      requires Valid()
      modifies this
      ensures Valid() && AllMove(old(rows), rows) && rows == Claimed(old(rows), now)
      ensures claimed == match Claimable(old(rows), now)
                         case None => None
                         case Some(row) => Some(row.(status := Running, attempts := row.attempts + 1))
      ensures claimed.None? ==> rows == old(rows) && forall i | 0 <= i < |rows| :: rows[i].status != Pending
      ensures claimed.Some? ==>
                exists k | 0 <= k < |rows| ::
                  && old(rows[k].status) == Pending && claimed.value == rows[k] && rows[k].status == Running
                  && rows == old(rows)[k := claimed.value]
                  && forall i | 0 <= i < k :: old(rows[i].status) != Pending
    {
      ClaimTakesTheFirst(rows, now);
      ClaimMoves(rows, now);
      MovesKeepTable(rows, Claimed(rows, now));
      rows := Each(rows, row => SweepRow(row, now));
      var first := FirstPending(rows);
      if first.None? {
        return None;
      }
      rows := Each(rows, row => ClaimRow(row, first.value.id));
      claimed := Some(first.value.(status := Running, attempts := first.value.attempts + 1));
    }

    /** Whether the row is there and running: the guard of every outcome. */
    predicate IsRunning(id: nat)
      reads this
    {
      FindId(rows, id).Some? && FindId(rows, id).value.status == Running
    }

    method MarkCompleted(id: nat, responseId: Option<string>, now: int) returns (marked: bool)
      requires Valid()
      modifies this
      ensures Valid() && AllMove(old(rows), rows)
      ensures rows == Each(old(rows), row => CompleteRow(row, id, responseId, now))
      ensures |rows| == |old(rows)| && forall i | 0 <= i < |rows| ::
                rows[i] == if old(rows)[i].id == id && old(rows)[i].status == Running
                           then old(rows)[i].(status := Completed, completedAt := Some(now), responseId := responseId) else old(rows)[i]
      ensures marked <==> exists i | 0 <= i < |old(rows)| :: old(rows)[i].id == id && old(rows)[i].status == Running
      ensures !marked ==> rows == old(rows)
    {
      OutcomesMove(rows, id, responseId, now);
      MovesKeepTable(rows, Each(rows, row => CompleteRow(row, id, responseId, now)));
      RunningExactly(rows, id);
      marked := IsRunning(id);
      if marked {
        rows := Each(rows, row => CompleteRow(row, id, responseId, now));
      }
    }

    method MarkFailed(id: nat, now: int) returns (marked: bool)
      requires Valid()
      modifies this
      ensures Valid() && AllMove(old(rows), rows)
      ensures rows == Each(old(rows), row => FailRow(row, id, now))
      ensures |rows| == |old(rows)| && forall i | 0 <= i < |rows| ::
                rows[i] == if old(rows)[i].id == id && old(rows)[i].status == Running
                           then old(rows)[i].(status := Failed, completedAt := Some(now)) else old(rows)[i]
      ensures marked <==> exists i | 0 <= i < |old(rows)| :: old(rows)[i].id == id && old(rows)[i].status == Running
      ensures !marked ==> rows == old(rows)
    {
      OutcomesMove(rows, id, None, now);
      MovesKeepTable(rows, Each(rows, row => FailRow(row, id, now)));
      RunningExactly(rows, id);
      marked := IsRunning(id);
      if marked {
        rows := Each(rows, row => FailRow(row, id, now));
      }
    }

    method RequeueForRetry(id: nat, now: int) returns (marked: bool)
      requires Valid()
      modifies this
      ensures Valid() && AllMove(old(rows), rows)
      ensures rows == Each(old(rows), row => RequeueRow(row, id, now))
      ensures |rows| == |old(rows)| && forall i | 0 <= i < |rows| ::
                rows[i] == if old(rows)[i].id != id || old(rows)[i].status != Running then old(rows)[i]
                           else if old(rows)[i].attempts < old(rows)[i].maxAttempts then old(rows)[i].(status := Pending)
                           else old(rows)[i].(status := Failed, completedAt := Some(now))
      ensures marked <==> exists i | 0 <= i < |old(rows)| :: old(rows)[i].id == id && old(rows)[i].status == Running
      ensures !marked ==> rows == old(rows)
    {
      OutcomesMove(rows, id, None, now);
      MovesKeepTable(rows, Each(rows, row => RequeueRow(row, id, now)));
      RunningExactly(rows, id);
      marked := IsRunning(id);
      if marked {
        rows := Each(rows, row => RequeueRow(row, id, now));
      }
    }

    /** Fails the exhausted running rows first, then sends the others back to pending. */
    method RecoverStaleRunning(now: int)
      requires Valid()
      modifies this
      ensures Valid() && AllMove(old(rows), rows)
      ensures rows == Each(old(rows), row => RecoverRow(row, now))
      ensures |rows| == |old(rows)| && forall i | 0 <= i < |rows| ::
                rows[i] == if old(rows)[i].status != Running then old(rows)[i]
                           else if old(rows)[i].attempts < old(rows)[i].maxAttempts then old(rows)[i].(status := Pending)
                           else old(rows)[i].(status := Failed, completedAt := Some(now))
      ensures forall i | 0 <= i < |rows| :: rows[i].status != Running
    {
      OutcomesMove(rows, 0, None, now);
      MovesKeepTable(rows, Each(rows, row => RecoverRow(row, now)));
      ghost var recovered := Each(rows, row => RecoverRow(row, now));
      rows := Each(rows, (row: Row) => if row.status == Running && row.attempts >= row.maxAttempts
                                then row.(status := Failed, completedAt := Some(now)) else row);
      rows := Each(rows, (row: Row) => if row.status == Running then row.(status := Pending) else row);
      assert rows == recovered;
    }

    method PruneTerminal(olderThan: int)
      requires Valid()
      modifies this
      ensures Valid()
      ensures rows == Pruned(old(rows), olderThan)
      ensures forall row :: row in rows
                <==> (&& row in old(rows)
                      && !(row.status in {Completed, Failed} && row.completedAt.Some? && row.completedAt.value < olderThan))
    {
      PruneKeepsOthers(rows, olderThan);
      rows := Pruned(rows, olderThan);
    }
  }

  lemma {:induction false} FindIdFinds(rows: seq<Row>, id: nat)
    ensures FindId(rows, id).None? ==> forall i | 0 <= i < |rows| :: rows[i].id != id
    ensures FindId(rows, id).Some? ==> FindId(rows, id).value in rows && FindId(rows, id).value.id == id
  {
    if rows != [] {
      FindIdFinds(rows[1..], id);
      assert forall i | 1 <= i < |rows| :: rows[i] == rows[1..][i - 1];
    }
  }

  lemma IdsAreUnique(rows: seq<Row>, i: nat, j: nat)
    requires Table(rows) && i < |rows| && j < |rows|
    ensures rows[i].id == rows[j].id ==> i == j
  {
    assert i < j ==> rows[i].id < rows[j].id;
    assert j < i ==> rows[j].id < rows[i].id;
  }

  /** The guard of every outcome: some row has this id and is running. */
  lemma RunningExactly(rows: seq<Row>, id: nat)
    requires Table(rows)
    ensures FindId(rows, id).Some? && FindId(rows, id).value.status == Running
            <==> exists i | 0 <= i < |rows| :: rows[i].id == id && rows[i].status == Running
  {
    FindIdFinds(rows, id);
    if FindId(rows, id).Some? {
      var k :| 0 <= k < |rows| && rows[k] == FindId(rows, id).value;
      forall i | 0 <= i < |rows|
        ensures rows[i].id == rows[k].id ==> i == k
      {
        IdsAreUnique(rows, i, k);
      }
    }
  }
}
