/** The notify outbox: one asynchronous executor per task, started with the task, and the compensation job,
    whose passes exclude each other. Both decide on what they read, however old. */
module Outbox {
  import opened Counting
  import opened TradeModel
  import opened NotifyTask

  /** The executor of a task, which carries the row as it was inserted. */
  datatype Async = Waiting | Replied(reply: Reply) | Finished

  /** The job's pass: the rows it read and has not dealt with, and the one it has just delivered. */
  datatype Pass = Idle | Running(snaps: map<nat, Snap>, current: Option<(nat, Reply)>)

  datatype Box = Box(rows: seq<Row>, asyncs: seq<Async>, pass: Pass)

  /** written says whether the database took the update. */
  datatype Label =
    | Insert
    | AsyncDelivers(i: nat, reply: Reply)
    | AsyncWrites(i: nat, written: bool)
    | PassStarts
    | PassDelivers(i: nat, reply: Reply)
    | PassWrites(written: bool)
    | PassEnds

  const NEW_TASK: Snap := Snap(Init, 0)
  const EMPTY: Box := Box([], [], Idle)
  const BATCH: nat := 50

  function IsPending(): Row -> bool {
    (r: Row) => r.status == Init || r.status == Retry
  }

  /** WHERE notify_status IN (0, 2) ORDER BY id LIMIT 50. */
  predicate Selected(rows: seq<Row>, i: nat) {
    i < |rows| && IsPending()(rows[i]) && Count(rows[..i], IsPending()) < BATCH
  }

  function Read(rows: seq<Row>): map<nat, Snap> {
    map i: nat | i < |rows| && Selected(rows, i) :: Snap(rows[i].status, rows[i].count)
  }

  function Delivered(rows: seq<Row>, i: nat, reply: Reply): seq<Row>
    requires i < |rows|
  {
    if reply.SuccessReply? then rows[i := rows[i].(delivered := true)] else rows
  }

  function Update(rows: seq<Row>, i: nat, s: Option<NotifyStatus>, written: bool): seq<Row>
    requires i < |rows|
  {
    if s.Some? && written then rows[i := Written(rows[i], s.value)] else rows
  }

  function Step(b: Box, l: Label): Box {
    match l
    case Insert => b.(rows := b.rows + [Row(Init, 0, false)], asyncs := b.asyncs + [Waiting])
    case AsyncDelivers(i, reply) =>
      if i < |b.asyncs| && i < |b.rows| && b.asyncs[i].Waiting? then
        b.(asyncs := b.asyncs[i := Replied(reply)], rows := Delivered(b.rows, i, reply))
      else b
    case AsyncWrites(i, written) =>
      if i < |b.asyncs| && i < |b.rows| && b.asyncs[i].Replied? then
        b.(asyncs := b.asyncs[i := Finished], rows := Update(b.rows, i, Decide(NEW_TASK, b.asyncs[i].reply), written))
      else b
    case PassStarts => if b.pass.Idle? then b.(pass := Running(Read(b.rows), None)) else b
    case PassDelivers(i, reply) =>
      if b.pass.Running? && b.pass.current.None? && i in b.pass.snaps && i < |b.rows| then
        b.(pass := b.pass.(current := Some((i, reply))), rows := Delivered(b.rows, i, reply))
      else b
    case PassWrites(written) =>
      if b.pass.Running? && b.pass.current.Some?
         && b.pass.current.value.0 in b.pass.snaps && b.pass.current.value.0 < |b.rows| then
        var (i, reply) := b.pass.current.value;
        b.(pass := Running(b.pass.snaps - {i}, None), rows := Update(b.rows, i, Decide(b.pass.snaps[i], reply), written))
      else b
    case PassEnds => b.(pass := Idle)
  }

  function Run(b: Box, run: seq<Label>): Box {
    if run == [] then b else Step(Run(b, run[..|run| - 1]), run[|run| - 1])
  }

  // ---- the invariant --------------------------------------------------------------------------

  /** What the running pass holds of row i. */
  function Held(pass: Pass, i: nat): Option<Snap> {
    if pass.Running? && i in pass.snaps then Some(pass.snaps[i]) else None
  }

  /** How many more times a row can be written: by its executor if that has not finished, by the pass from a
      snapshot it holds, and by later passes from the states these leave. */
  function Budget(s: NotifyStatus, open: bool, held: Option<Snap>): nat {
    if s == Init then (if open then 4 else 2)
    else if s == Retry then (if open then 3 else if held.Some? && held.value.status == Init then 2 else 1)
    else if open then 2
    else if held.None? then 0
    else if held.value.status == Init then 2 else 1
  }

  /** The same while no delivery has succeeded. */
  function FailingBudget(s: NotifyStatus, open: bool, held: Option<Snap>): nat {
    Bit(open) + Bit(s == Init || (held.Some? && held.value.status == Init))
  }

  ghost predicate RowOk(row: Row, async: Async, held: Option<Snap>) {
    var open := !async.Finished?;
    && row.status != Error
    && 0 <= row.count && row.count + Budget(row.status, open, held) <= 4
    && (held.Some? ==> held.value.count <= row.count && (held.value.status == Init || held.value.status == Retry))
    && (held.Some? && open ==> row.status == held.value.status)
    && (held.Some? && held.value.status == Retry ==> row.status != Init)
    && (!row.delivered ==> row.status != Success && row.count + FailingBudget(row.status, open, held) <= 2)
    && (async == Replied(SuccessReply) ==> row.delivered)
  }

  ghost predicate Inv(b: Box) {
    && |b.asyncs| == |b.rows|
    && (forall i: nat :: i < |b.rows| ==> RowOk(b.rows[i], b.asyncs[i], Held(b.pass, i)))
    && (b.pass.Running? ==> forall i :: i in b.pass.snaps ==> i < |b.rows|)
    && (b.pass.Running? && b.pass.current.Some? ==> ReplyNoted(b.rows, b.pass.current.value))
    && (b.pass.Running? && b.pass.current.Some? ==> b.pass.current.value.0 in b.pass.snaps)
  }

  ghost predicate ReplyNoted(rows: seq<Row>, current: (nat, Reply)) {
    current.0 < |rows| && (current.1.SuccessReply? ==> rows[current.0].delivered)
  }

  lemma ExecutorKeepsRow(b: Box, l: Label, i: nat)
    requires |b.asyncs| == |b.rows| && i < |b.rows| && RowOk(b.rows[i], b.asyncs[i], Held(b.pass, i))
    requires b.pass.Running? && b.pass.current.Some? ==> ReplyNoted(b.rows, b.pass.current.value)
    requires l.Insert? || l.AsyncDelivers? || l.AsyncWrites?
    ensures var next := Step(b, l);
            i < |next.rows| && i < |next.asyncs| && RowOk(next.rows[i], next.asyncs[i], Held(next.pass, i))
            && (b.rows[i].delivered ==> next.rows[i].delivered)
  {
  }

  lemma PassKeepsRow(b: Box, l: Label, i: nat)
    requires |b.asyncs| == |b.rows| && i < |b.rows| && RowOk(b.rows[i], b.asyncs[i], Held(b.pass, i))
    requires b.pass.Running? && b.pass.current.Some? ==> ReplyNoted(b.rows, b.pass.current.value)
    requires l.PassStarts? || l.PassDelivers? || l.PassWrites? || l.PassEnds?
    ensures var next := Step(b, l);
            i < |next.rows| && i < |next.asyncs| && RowOk(next.rows[i], next.asyncs[i], Held(next.pass, i))
            && (b.rows[i].delivered ==> next.rows[i].delivered)
  {
  }

  lemma StepKeepsRow(b: Box, l: Label, i: nat)
    requires |b.asyncs| == |b.rows| && i < |b.rows| && RowOk(b.rows[i], b.asyncs[i], Held(b.pass, i))
    requires b.pass.Running? && b.pass.current.Some? ==> ReplyNoted(b.rows, b.pass.current.value)
    ensures var next := Step(b, l);
            i < |next.rows| && i < |next.asyncs| && RowOk(next.rows[i], next.asyncs[i], Held(next.pass, i))
            && (b.rows[i].delivered ==> next.rows[i].delivered)
  {
    if l.Insert? || l.AsyncDelivers? || l.AsyncWrites? {
      ExecutorKeepsRow(b, l, i);
    } else {
      PassKeepsRow(b, l, i);
    }
  }

  lemma StepKeepsCurrent(b: Box, l: Label)
    requires Inv(b)
    ensures var next := Step(b, l);
            next.pass.Running? && next.pass.current.Some? ==>
              ReplyNoted(next.rows, next.pass.current.value) && next.pass.current.value.0 in next.pass.snaps
  {
  }

  lemma StepKeepsInv(b: Box, l: Label)
    requires Inv(b)
    ensures Inv(Step(b, l))
  {
    var next := Step(b, l);
    StepKeepsCurrent(b, l);
    forall i: nat | i < |next.rows|
      ensures RowOk(next.rows[i], next.asyncs[i], Held(next.pass, i))
    {
      if i < |b.rows| {
        assert RowOk(b.rows[i], b.asyncs[i], Held(b.pass, i));
        StepKeepsRow(b, l, i);
      }
    }
  }

  lemma {:induction false} RunKeepsInv(run: seq<Label>)
    ensures Inv(Run(EMPTY, run))
  {
    if run != [] {
      RunKeepsInv(run[..|run| - 1]);
      StepKeepsInv(Run(EMPTY, run[..|run| - 1]), run[|run| - 1]);
    }
  }

  // ---- theorems -------------------------------------------------------------------------------

  /** In every run a task is written at most four times and never with status 3: the branch for more than four
      failures is not reached. */
  lemma NeverGivenUp(run: seq<Label>, i: nat)
    requires i < |Run(EMPTY, run).rows|
    ensures var row := Run(EMPTY, run).rows[i]; row.count <= 4 && row.status != Error
  {
    RunKeepsInv(run);
    var b := Run(EMPTY, run);
    assert RowOk(b.rows[i], b.asyncs[i], Held(b.pass, i));
  }

  /** A task whose deliveries have all failed so far is still one the job looks for, after at most two
      recorded failures. */
  lemma UndeliveredStaysPending(run: seq<Label>, i: nat)
    requires i < |Run(EMPTY, run).rows| && !Run(EMPTY, run).rows[i].delivered
    ensures var row := Run(EMPTY, run).rows[i]; IsPending()(row) && row.count <= 2
  {
    RunKeepsInv(run);
    var b := Run(EMPTY, run);
    assert RowOk(b.rows[i], b.asyncs[i], Held(b.pass, i));
  }

  /** Such a task is in the next pass exactly when fewer than fifty older tasks are pending. */
  lemma UndeliveredIsSelected(run: seq<Label>, i: nat)
    requires i < |Run(EMPTY, run).rows| && !Run(EMPTY, run).rows[i].delivered && Run(EMPTY, run).pass.Idle?
    ensures var b := Run(EMPTY, run);
            Held(Step(b, PassStarts).pass, i).Some? <==> Count(b.rows[..i], IsPending()) < 50
  {
    UndeliveredStaysPending(run, i);
  }

  // ---- starvation -----------------------------------------------------------------------------

  function Undelivered(): Row -> bool { (r: Row) => !r.delivered }

  /** An undelivered task is pending, so fifty of them before task i keep it out of every pass. */
  lemma StarvedStep(b: Box, l: Label, i: nat)
    requires Inv(b) && i < |b.rows| && Held(b.pass, i).None? && Count(b.rows[..i], Undelivered()) >= BATCH
    ensures i < |Step(b, l).rows| && Held(Step(b, l).pass, i).None?
  {
    forall j | 0 <= j < i && Undelivered()(b.rows[..i][j])
      ensures IsPending()(b.rows[..i][j])
    {
      assert RowOk(b.rows[j], b.asyncs[j], Held(b.pass, j));
    }
    CountMono(b.rows[..i], Undelivered(), IsPending());
    assert !Selected(b.rows, i);
  }

  /** A delivered task stays delivered. */
  lemma DeliveredStays(b: Box, l: Label, i: nat)
    requires Inv(b) && i < |b.rows|
    ensures i <= |Step(b, l).rows| && Count(Step(b, l).rows[..i], Undelivered()) <= Count(b.rows[..i], Undelivered())
  {
    var next := Step(b, l);
    forall j | 0 <= j < i && Undelivered()(next.rows[..i][j])
      ensures Undelivered()(b.rows[..i][j])
    {
      assert RowOk(b.rows[j], b.asyncs[j], Held(b.pass, j));
      StepKeepsRow(b, l, j);
    }
    CountPointwise(b.rows[..i], next.rows[..i], Undelivered());
  }

  /** A task that no pass holds is held by none for as long as fifty older tasks are undelivered, however many
      passes there are. */
  lemma {:induction false} StarvedTaskIsNeverHeld(run: seq<Label>, more: seq<Label>, i: nat)
    requires i < |Run(EMPTY, run).rows| && Held(Run(EMPTY, run).pass, i).None?
    requires i <= |Run(EMPTY, run + more).rows| && Count(Run(EMPTY, run + more).rows[..i], Undelivered()) >= 50
    ensures var b := Run(EMPTY, run + more); i < |b.rows| && Held(b.pass, i).None?
  {
    if more == [] {
      assert run + more == run;
    } else {
      var n := |more| - 1;
      var before, l := run + more[..n], more[n];
      assert run + more == before + [l];
      Extend(before, l);
      RowsStay(run, more[..n]);
      RunKeepsInv(before);
      DeliveredStays(Run(EMPTY, before), l, i);
      StarvedTaskIsNeverHeld(run, more[..n], i);
      StarvedStep(Run(EMPTY, before), l, i);
    }
  }

  lemma {:induction false} RowsStay(run: seq<Label>, more: seq<Label>)
    ensures |Run(EMPTY, run).rows| <= |Run(EMPTY, run + more).rows|
  {
    if more == [] {
      assert run + more == run;
    } else {
      var n := |more| - 1;
      RowsStay(run, more[..n]);
      assert run + more == run + more[..n] + [more[n]];
      Extend(run + more[..n], more[n]);
      StepKeepsRows(Run(EMPTY, run + more[..n]), more[n]);
    }
  }

  lemma StepKeepsRows(b: Box, l: Label)
    ensures |b.rows| <= |Step(b, l).rows|
  {
  }

  lemma Extend(run: seq<Label>, l: Label)
    ensures Run(EMPTY, run + [l]) == Step(Run(EMPTY, run), l)
  {
    assert (run + [l])[..|run|] == run;
  }

  // ---- when a success is lost -----------------------------------------------------------------

  predicate Failing(r: Reply) { r.ErrorReply? || r.OtherReply? }

  /** The database takes the write of a failure: of the task's own executor, or of a pass that had read the task
      as new. */
  predicate Overwrites(b: Box, l: Label, i: nat) {
    || (l == AsyncWrites(i, true) && i < |b.asyncs| && b.asyncs[i].Replied? && Failing(b.asyncs[i].reply))
    || (l == PassWrites(true) && b.pass.Running? && b.pass.current.Some? && b.pass.current.value.0 == i
        && Failing(b.pass.current.value.1) && i in b.pass.snaps && b.pass.snaps[i].status == Init)
  }

  /** A step changes a success exactly when it is such a write. */
  lemma SuccessLostExactly(run: seq<Label>, l: Label, i: nat)
    requires i < |Run(EMPTY, run).rows| && Run(EMPTY, run).rows[i].status == Success
    ensures var b := Run(EMPTY, run);
            && i < |Step(b, l).rows|
            && (Step(b, l).rows[i].status != Success <==> Overwrites(b, l, i))
  {
    RunKeepsInv(run);
    StepOnSuccess(Run(EMPTY, run), l, i);
  }

  lemma StepOnSuccess(b: Box, l: Label, i: nat)
    requires Inv(b) && i < |b.rows| && b.rows[i].status == Success
    ensures i < |Step(b, l).rows| && (Step(b, l).rows[i].status != Success <==> Overwrites(b, l, i))
  {
    assert RowOk(b.rows[i], b.asyncs[i], Held(b.pass, i));
  }

  /** Somebody may still write a failure to row i: its executor, which has not delivered or has failed, or the
      pass, which read it as new and is not about to write a success, or nothing, to it. */
  predicate Endangered(b: Box, i: nat) {
    || (i < |b.asyncs| && (b.asyncs[i].Waiting? || (b.asyncs[i].Replied? && Failing(b.asyncs[i].reply))))
    || (b.pass.Running? && i in b.pass.snaps && b.pass.snaps[i].status == Init
        && (b.pass.current.None? || b.pass.current.value.0 != i || Failing(b.pass.current.value.1)))
  }

  predicate Safe(b: Box, i: nat) {
    i < |b.rows| && b.rows[i].status == Success && !Endangered(b, i)
  }

  lemma SafeStaysSafe(b: Box, l: Label, i: nat)
    requires Inv(b) && Safe(b, i)
    ensures Safe(Step(b, l), i)
  {
    StepOnSuccess(b, l, i);
    assert !Selected(b.rows, i);
  }

  predicate StillSuccess(run: seq<Label>, more: seq<Label>, i: nat) {
    i < |Run(EMPTY, run + more).rows| && Run(EMPTY, run + more).rows[i].status == Success
  }

  lemma SafeOneMore(run: seq<Label>, l: Label, i: nat)
    requires Safe(Run(EMPTY, run), i)
    ensures Safe(Run(EMPTY, run + [l]), i)
  {
    RunKeepsInv(run);
    SafeStaysSafe(Run(EMPTY, run), l, i);
    Extend(run, l);
  }

  lemma {:induction false} SafeForever(run: seq<Label>, more: seq<Label>, i: nat)
    requires Safe(Run(EMPTY, run), i)
    ensures Safe(Run(EMPTY, run + more), i)
  {
    if more == [] {
      assert run + more == run;
    } else {
      var n := |more| - 1;
      var before, l := run + more[..n], more[n];
      SafeForever(run, more[..n], i);
      SafeOneMore(before, l, i);
      assert run + more == before + [l];
    }
  }

  lemma Write(run: seq<Label>, more: seq<Label>, l: Label, i: nat)
    requires StillSuccess(run, more, i) && Overwrites(Run(EMPTY, run + more), l, i)
    ensures !StillSuccess(run, more + [l], i)
  {
    var b := Run(EMPTY, run + more);
    assert Step(b, l).rows[i].status != Success by {
      RunKeepsInv(run + more);
      StepOnSuccess(b, l, i);
    }
    assert Run(EMPTY, run + (more + [l])) == Step(b, l) by {
      Extend(run + more, l);
      assert run + (more + [l]) == run + more + [l];
    }
  }

  lemma ExecutorLoses(run: seq<Label>, i: nat) returns (more: seq<Label>)
    requires i < |Run(EMPTY, run).rows| && Run(EMPTY, run).rows[i].status == Success
    requires var b := Run(EMPTY, run);
             i < |b.asyncs| && (b.asyncs[i].Waiting? || (b.asyncs[i].Replied? && Failing(b.asyncs[i].reply)))
    ensures !StillSuccess(run, more, i)
  {
    var b := Run(EMPTY, run);
    assert run + [] == run;
    var before: seq<Label> := [];
    if b.asyncs[i].Waiting? {
      Extend(run, AsyncDelivers(i, ErrorReply));
      before := [AsyncDelivers(i, ErrorReply)];
    }
    Write(run, before, AsyncWrites(i, true), i);
    more := before + [AsyncWrites(i, true)];
  }

  /** The steps by which the pass comes to a failed delivery of a task it has read. */
  lemma PassFails(b: Box, i: nat)
    requires Inv(b) && b.pass.Running? && i in b.pass.snaps && i < |b.rows|
    ensures b.pass.current.Some? && b.pass.current.value.0 != i ==>
              var c := Step(b, PassWrites(false));
              && c.rows == b.rows && c.pass.Running? && c.pass.current.None?
              && i in c.pass.snaps && c.pass.snaps[i] == b.pass.snaps[i]
    ensures b.pass.current.None? ==>
              Step(b, PassDelivers(i, ErrorReply)) == b.(pass := b.pass.(current := Some((i, ErrorReply))))
  {
  }

  lemma PassLoses(run: seq<Label>, i: nat) returns (more: seq<Label>)
    requires i < |Run(EMPTY, run).rows| && Run(EMPTY, run).rows[i].status == Success
    requires var b := Run(EMPTY, run);
             && b.pass.Running? && i in b.pass.snaps && b.pass.snaps[i].status == Init
             && (b.pass.current.None? || b.pass.current.value.0 != i || Failing(b.pass.current.value.1))
    ensures !StillSuccess(run, more, i)
  {
    var b := Run(EMPTY, run);
    RunKeepsInv(run);
    assert run + [] == run;
    if b.pass.current.Some? && b.pass.current.value.0 == i {
      Write(run, [], PassWrites(true), i);
      more := [] + [PassWrites(true)];
    } else {
      var before: seq<Label> := [];
      PassFails(b, i);
      if b.pass.current.Some? {
        before := [PassWrites(false)];
        Extend(run, PassWrites(false));
        RunKeepsInv(run + before);
        PassFails(Run(EMPTY, run + before), i);
      }
      more := FailedDelivery(run, before, i);
    }
  }

  lemma FailedDelivery(run: seq<Label>, before: seq<Label>, i: nat) returns (more: seq<Label>)
    requires StillSuccess(run, before, i)
    requires var b := Run(EMPTY, run + before);
             && b.pass.Running? && b.pass.current.None? && i in b.pass.snaps && b.pass.snaps[i].status == Init
             && Step(b, PassDelivers(i, ErrorReply)) == b.(pass := b.pass.(current := Some((i, ErrorReply))))
    ensures !StillSuccess(run, more, i)
  {
    var deliver := before + [PassDelivers(i, ErrorReply)];
    Extend(run + before, PassDelivers(i, ErrorReply));
    assert run + deliver == run + before + [PassDelivers(i, ErrorReply)];
    Write(run, deliver, PassWrites(true), i);
    more := deliver + [PassWrites(true)];
  }

  /** A success survives every continuation exactly when it is not endangered. */
  lemma SuccessSurvivesExactly(run: seq<Label>, i: nat)
    requires i < |Run(EMPTY, run).rows| && Run(EMPTY, run).rows[i].status == Success
    ensures (forall more: seq<Label> :: StillSuccess(run, more, i)) <==> !Endangered(Run(EMPTY, run), i)
  {
    if Endangered(Run(EMPTY, run), i) {
      var b := Run(EMPTY, run);
      if i < |b.asyncs| && (b.asyncs[i].Waiting? || (b.asyncs[i].Replied? && Failing(b.asyncs[i].reply))) {
        var more := ExecutorLoses(run, i);
      } else {
        var more := PassLoses(run, i);
      }
    } else {
      forall more: seq<Label>
        ensures StillSuccess(run, more, i)
      {
        SafeForever(run, more, i);
      }
    }
  }

  // ---- a run that meets the bounds ------------------------------------------------------------

  lemma OneRow(row: Row, async: Async)
    requires IsPending()(row)
    ensures Step(Box([row], [async], Idle), PassStarts)
         == Box([row], [async], Running(map[0 := Snap(row.status, row.count)], None))
  {
    assert Count([row][..0], IsPending()) == 0;
    assert Selected([row], 0);
    assert Read([row]) == map[0 := Snap(row.status, row.count)];
  }

  /** A pass over the only task, from its start to its end. */
  lemma PassSteps(row: Row, async: Async, reply: Reply, s: NotifyStatus)
    requires IsPending()(row) && Decide(Snap(row.status, row.count), reply) == Some(s)
    ensures Step(Step(Step(Step(Box([row], [async], Idle), PassStarts), PassDelivers(0, reply)), PassWrites(true)), PassEnds)
         == Box([Row(s, row.count + 1, row.delivered || reply == SuccessReply)], [async], Idle)
  {
    OneRow(row, async);
  }

  lemma PassOver(run: seq<Label>, row: Row, async: Async, reply: Reply, s: NotifyStatus)
    requires Run(EMPTY, run) == Box([row], [async], Idle) && IsPending()(row)
    requires Decide(Snap(row.status, row.count), reply) == Some(s)
    ensures Run(EMPTY, run + [PassStarts] + [PassDelivers(0, reply)] + [PassWrites(true)] + [PassEnds])
         == Box([Row(s, row.count + 1, row.delivered || reply == SuccessReply)], [async], Idle)
  {
    PassSteps(row, async, reply, s);
    Extend(run, PassStarts);
    Extend(run + [PassStarts], PassDelivers(0, reply));
    Extend(run + [PassStarts] + [PassDelivers(0, reply)], PassWrites(true));
    Extend(run + [PassStarts] + [PassDelivers(0, reply)] + [PassWrites(true)], PassEnds);
  }

  /** The bound is met, by a run in which the executor's late failure overwrites a success: a terminal status
      in the table is not final. */
  lemma SuccessIsOverwritten() returns (early: seq<Label>, late: seq<Label>, full: seq<Label>)
    ensures Run(EMPTY, early).rows == [Row(Success, 2, true)]
    ensures Run(EMPTY, late).rows == [Row(Retry, 3, true)] && |late| > |early| && late[..|early|] == early
    ensures Run(EMPTY, full).rows == [Row(Success, 4, true)] && |full| > |late| && full[..|late|] == late
  {
    var start := [Insert];
    Extend([], Insert);
    assert [] + [Insert] == start;
    PassOver(start, Row(Init, 0, false), Waiting, ErrorReply, Retry);
    var once := start + [PassStarts] + [PassDelivers(0, ErrorReply)] + [PassWrites(true)] + [PassEnds];
    PassOver(once, Row(Retry, 1, false), Waiting, SuccessReply, Success);
    early := once + [PassStarts] + [PassDelivers(0, SuccessReply)] + [PassWrites(true)] + [PassEnds];
    Extend(early, AsyncDelivers(0, ErrorReply));
    Extend(early + [AsyncDelivers(0, ErrorReply)], AsyncWrites(0, true));
    late := early + [AsyncDelivers(0, ErrorReply)] + [AsyncWrites(0, true)];
    PassOver(late, Row(Retry, 3, true), Finished, SuccessReply, Success);
    full := late + [PassStarts] + [PassDelivers(0, SuccessReply)] + [PassWrites(true)] + [PassEnds];
  }
}
