/** Where the protocol does not do what one would expect: runs and steps that show what the assumptions
    and fresh snapshots are needed for. */
module TradeLimits {
  import opened Counting
  import opened TradeModel
  import opened TradeTransactions
  import opened TradeInvariant
  import opened TradeProtocol
  import opened TradeSafety
  import opened TradeScenarios
  import opened TradeTheorems

  // ---- two payers with the same stale count ---------------------------------------------------

  /** From any reachable state in which a team lacks two payments and has two unpaid orders, a run leads to a
      state in which all have paid and the team's status is what it was: both settlements had read the count
      before either was counted. A team in progress is left unformed, one that had lost members is full again. */
  lemma StalePayersKeepStatus(acts: map<int, Activity>, s: Sys, x: nat, y: nat, payTime: int) returns (end: Sys)
    requires ActivitiesOk(acts) && Reachable(acts, s)
    requires x != y && x < |s.db.orders| && y < |s.db.orders|
    requires s.db.orders[x].status == OrderCreate && s.db.orders[y].status == OrderCreate
    requires var t := s.db.orders[x].team;
             && s.db.orders[y].team == t && t in s.db.teams && payTime < s.db.teams[t].validEnd
             && s.db.teams[t].complete == s.db.teams[t].target - 2
    ensures Reachable(acts, end) && end.procs == s.procs + [Done, Done] && end.db.tasks == s.db.tasks
    ensures var t := s.db.orders[x].team;
            && t in end.db.teams && end.db.teams[t].complete == end.db.teams[t].target
            && end.db.teams[t].status == s.db.teams[t].status
  {
    var s1 := SettlementReads(acts, s, x, payTime);
    var s2 := SettlementReads(acts, s1, y, payTime);
    var n := |s.procs|;
    assert s2.procs[n] == s1.procs[n];
    var s3 := SettlementCounts(acts, s2, n);
    assert s3.procs[n + 1] == s2.procs[n + 1];
    assert s3.db.orders[y] == s.db.orders[y];
    end := SettlementCounts(acts, s3, n + 1);
    assert end.procs == s.procs + [Done, Done];
  }

  // ---- a payment refunded under a last payer --------------------------------------------------

  /** The tables once a payment is refunded and then the last payer, who had read the count before, settles. */
  lemma EarlyCommit(acts: map<int, Activity>, s: Sys, i: nat) returns (next: Db)
    requires ActivitiesOk(acts) && Reachable(acts, s) && i < |s.procs| && s.procs[i].SettleCommit?
    requires var p := s.procs[i];
             && p.row < |s.db.orders| && s.db.orders[p.row].status == OrderCreate
             && p.team in s.db.teams && s.db.teams[p.team].status == Progress
             && p.snap.complete == s.db.teams[p.team].target - 1 && s.db.teams[p.team].complete == s.db.teams[p.team].target - 2
    ensures var p := s.procs[i];
            && SettleTx(s.db, p.user, p.outTradeNo, p.payTime, p.team, p.snap) == Commit(next)
            && p.team in next.teams && next.teams[p.team].status == Complete
            && next.teams[p.team].target == s.db.teams[p.team].target
            && next.teams[p.team].complete == next.teams[p.team].target - 1
            && |next.tasks| == |s.db.tasks| + 1 && next.tasks[|s.db.tasks|].Settlement?
            && next.tasks[|s.db.tasks|].team == p.team
            && |next.tasks[|s.db.tasks|].outTradeNos| == next.teams[p.team].target - 1
  {
    var p := s.procs[i];
    assert p.snap.target == s.db.teams[p.team].target by {
      ProcessKnows(acts, s, i);
    }
    SettlementOutcome(acts, s, i);
    next := SettleTx(s.db, p.user, p.outTradeNo, p.payTime, p.team, p.snap).db;
    FormedIsFullExactlyWhenFresh(acts, s, i, next);
  }

  /** From any reachable state in which a team in progress lacks one payment, a run leads to a state in which
      it still lacks one, is formed, and has a settlement task that lists one order too few: a paid member was
      refunded between the last payer's read and commit. */
  lemma RefundUnderLastPayerFormsEarly(acts: map<int, Activity>, s: Sys, x: nat, y: nat, payTime: int) returns (end: Sys)
    requires ActivitiesOk(acts) && Reachable(acts, s) && x < |s.db.orders| && y < |s.db.orders|
    requires s.db.orders[x].status == OrderCreate && s.db.orders[y].status == OrderComplete
    requires var t := s.db.orders[x].team;
             && s.db.orders[y].team == t && t in s.db.teams && payTime < s.db.teams[t].validEnd
             && s.db.teams[t].status == Progress && s.db.teams[t].complete == s.db.teams[t].target - 1
    ensures Reachable(acts, end) && end.procs == s.procs + [Done, Done] && |end.db.tasks| == |s.db.tasks| + 2
    ensures var t := s.db.orders[x].team; var k := end.db.tasks[|s.db.tasks| + 1];
            && t in end.db.teams && end.db.teams[t].status == Complete
            && end.db.teams[t].complete == end.db.teams[t].target - 1
            && k.Settlement? && k.team == t && |k.outTradeNos| == end.db.teams[t].target - 1
  {
    var n := |s.procs|;
    var s1 := SettlementReads(acts, s, x, payTime);
    var s2 := RefundReads(acts, s1, y, PaidUnformed);
    var o := s.db.orders[y];
    var refunded := RefundTx(s.db, PaidUnformed, o.user, y, o.team, s.db.teams[o.team].activity, o.outTradeNo).db;
    var s3 := Put(s2, n + 1, Done).(db := refunded);
    Commits(acts, s2, n + 1, refunded);
    assert s3.procs[n] == s1.procs[n];
    var db := EarlyCommit(acts, s3, n);
    Commits(acts, s3, n, db);
    end := Put(s3, n, Done).(db := db);
    assert end.procs == s.procs + [Done, Done];
  }

  // ---- a refund that chose its strategy before the team was formed ----------------------------

  /** The last payment, with a true count, forms the team; its list holds every paid number. */
  lemma LastPaymentForms(acts: map<int, Activity>, s: Sys, i: nat, y: nat) returns (next: Db)
    requires ActivitiesOk(acts) && Reachable(acts, s) && i < |s.procs| && s.procs[i].SettleCommit?
    requires var p := s.procs[i];
             && p.row < |s.db.orders| && s.db.orders[p.row].status == OrderCreate
             && p.team in s.db.teams && s.db.teams[p.team].status == Progress
             && s.db.teams[p.team].complete == s.db.teams[p.team].target - 1 && p.snap == s.db.teams[p.team]
             && y < |s.db.orders| && PaidIn(p.team)(s.db.orders[y])
    ensures var p := s.procs[i];
            && SettleTx(s.db, p.user, p.outTradeNo, p.payTime, p.team, p.snap) == Commit(next)
            && p.team in next.teams && next.teams[p.team] == s.db.teams[p.team].(complete := s.db.teams[p.team].target, status := Complete)
            && y < |next.orders| && next.orders[y] == s.db.orders[y]
            && |next.tasks| == |s.db.tasks| + 1 && next.tasks[|s.db.tasks|].Settlement?
            && next.tasks[|s.db.tasks|].team == p.team
            && |next.tasks[|s.db.tasks|].outTradeNos| == s.db.teams[p.team].target
            && s.db.orders[y].outTradeNo in next.tasks[|s.db.tasks|].outTradeNos
  {
    var p := s.procs[i];
    FormsExactlyWhenFresh(acts, s, i);
    next := SettleTx(s.db, p.user, p.outTradeNo, p.payTime, p.team, p.snap).db;
    FormedIsFullExactlyWhenFresh(acts, s, i, next);
    assert SettledRow(s.db, p.row, next) by {
      ProcessKnows(acts, s, i);
      SettleTxOk(acts, s.db, p.user, p.outTradeNo, p.payTime, p.row, p.snap, next);
    }
    PaidNosHold(next.orders, p.team, y);
  }

  /** The refund, by the strategy for unformed teams, of a payment in a formed team. */
  lemma LateRefundCommits(db: Db, y: nat, activity: int, next: Db)
    requires y < |db.orders| && db.orders[y].status == OrderComplete && db.orders[y].team in db.teams
    requires var o := db.orders[y];
             && next.teams == db.teams[o.team := db.teams[o.team].(lock := db.teams[o.team].lock - 1,
                                                                   complete := db.teams[o.team].complete - 1)]
             && next.orders == db.orders[y := o.(status := OrderClose)]
             && next.tasks == db.tasks + [Refund(PaidUnformed, o.team, activity, o.user, y, o.outTradeNo)]
    ensures var o := db.orders[y];
            RefundTx(db, PaidUnformed, o.user, y, o.team, activity, o.outTradeNo) == Commit(next)
  {
  }

  /** From any reachable state in which a team in progress lacks one payment, a run leads to a state in which it is
      formed and lacks one, with a settlement list that names a closed order: a refund had read the team before
      the last payer, with a true count, formed it. */
  lemma LateRefundLeavesFormed(acts: map<int, Activity>, s: Sys, x: nat, y: nat, payTime: int) returns (end: Sys)
    requires ActivitiesOk(acts) && Reachable(acts, s) && x < |s.db.orders| && y < |s.db.orders|
    requires s.db.orders[x].status == OrderCreate && s.db.orders[y].status == OrderComplete
    requires var t := s.db.orders[x].team;
             && s.db.orders[y].team == t && t in s.db.teams && payTime < s.db.teams[t].validEnd
             && s.db.teams[t].status == Progress && s.db.teams[t].complete == s.db.teams[t].target - 1
    ensures Reachable(acts, end) && end.procs == s.procs + [Done, Done] && |end.db.tasks| == |s.db.tasks| + 2
    ensures var t := s.db.orders[x].team; var k := end.db.tasks[|s.db.tasks|];
            && t in end.db.teams && end.db.teams[t].status == Complete
            && end.db.teams[t].complete == end.db.teams[t].target - 1
            && k.Settlement? && k.team == t && |k.outTradeNos| == end.db.teams[t].target
            && y < |end.db.orders| && end.db.orders[y].status == OrderClose
            && end.db.orders[y].outTradeNo in k.outTradeNos
  {
    var n := |s.procs|;
    var s1 := RefundReads(acts, s, y, PaidUnformed);
    var s2 := SettlementReads(acts, s1, x, payTime);
    var db := LastPaymentForms(acts, s2, n + 1, y);
    Commits(acts, s2, n + 1, db);
    var s3 := Put(s2, n + 1, Done).(db := db);
    assert s3.procs[n] == s1.procs[n];
    var o, m := db.orders[y], db.teams[db.orders[y].team];
    var refunded := Db(db.teams[o.team := m.(lock := m.lock - 1, complete := m.complete - 1)],
                       db.orders[y := o.(status := OrderClose)],
                       db.tasks + [Refund(PaidUnformed, o.team, s.db.teams[o.team].activity, o.user, y, o.outTradeNo)]);
    LateRefundCommits(db, y, s.db.teams[o.team].activity, refunded);
    Commits(acts, s3, n, refunded);
    end := Put(s3, n, Done).(db := refunded);
    assert end.procs == s.procs + [Done, Done];
  }

  // ---- such a state exists --------------------------------------------------------------------

  const ACTS: map<int, Activity> := map[1 := Activity(2, 0, 1, 100)]
  const TEAM: string := "10000001"
  const OPEN: Env := Env(false, 0, TEAM)
  const ANN: JoinReq := JoinReq("a", "n1", 1, "")
  const BOB: JoinReq := JoinReq("b", "n2", 1, TEAM)

  function AnnsOrder(): Order { NewOrder(ACTS[1], ANN, TEAM, 0) }
  function BobsOrder(): Order { NewOrder(ACTS[1], BOB, TEAM, 0) }

  /** Ann has opened the team. */
  function Opened(): Sys {
    INIT.(db := Db(map[TEAM := Team(1, 2, 0, 1, Progress, 60)], [AnnsOrder()], []), procs := [Done])
  }

  const SEAT_ONE: Redis := Redis(map[(1, TEAM) := 1], NO_KEYS, {((1, TEAM), 1)}, {})

  /** Bob has joined it. */
  function BothIn(): Sys {
    Sys(Db(map[TEAM := Team(1, 2, 0, 2, Progress, 60)], [AnnsOrder(), BobsOrder()], []), SEAT_ONE, [Done, Done], NO_KEYS, {})
  }

  lemma AnnStarts()
    ensures Step(ACTS, INIT, NewJoin(ANN)) == INIT.(procs := [JoinStart(ANN)])
    ensures Step(ACTS, INIT.(procs := [JoinStart(ANN)]), Advance(0, OPEN)) == INIT.(procs := [JoinCount(ANN)])
    ensures Step(ACTS, INIT.(procs := [JoinCount(ANN)]), Advance(0, OPEN)) == INIT.(procs := [JoinTx(ANN, 0)])
  {
  }

  lemma AnnCommits()
    ensures Step(ACTS, INIT.(procs := [JoinTx(ANN, 0)]), Advance(0, OPEN)) == Opened()
  {
  }

  lemma BobCanJoin()
    ensures CanJoin(ACTS, Opened(), BOB) && LockTx(Opened().db, ACTS[1], BOB, 0, "", 0) == Commit(BothIn().db)
    ensures Count([AnnsOrder()], OfTaker(1, "b")) == 0
  {
    CountZero([AnnsOrder()], OfTaker(1, "b"));
    assert !BizIdTaken([AnnsOrder()], BizKey(1, "b", 1));
  }

  lemma AnnIsIn()
    ensures Reachable(ACTS, Opened())
  {
    InitReachable(ACTS);
    AnnStarts();
    Next(ACTS, INIT, NewJoin(ANN));
    Next(ACTS, INIT.(procs := [JoinStart(ANN)]), Advance(0, OPEN));
    Next(ACTS, INIT.(procs := [JoinCount(ANN)]), Advance(0, OPEN));
    AnnCommits();
    Next(ACTS, INIT.(procs := [JoinTx(ANN, 0)]), Advance(0, OPEN));
  }

  /** The state the run above starts from, with a target of two. */
  lemma TwoUnpaidMembersReachable()
    ensures Reachable(ACTS, BothIn())
  {
    AnnIsIn();
    BobCanJoin();
    var s := Joins(ACTS, Opened(), BOB);
    assert s == BothIn();
  }

  /** Complete does not imply formed: a reachable state with all seats paid, the team in progress, every
      request finished and no notification stored. */
  lemma CompleteTeamUnformed() returns (s: Sys)
    ensures Reachable(ACTS, s)
    ensures TEAM in s.db.teams && s.db.teams[TEAM].complete == s.db.teams[TEAM].target && s.db.teams[TEAM].status == Progress
    ensures (forall i :: 0 <= i < |s.procs| ==> s.procs[i] == Done) && s.db.tasks == []
  {
    TwoUnpaidMembersReachable();
    s := StalePayersKeepStatus(ACTS, BothIn(), 0, 1, 5);
  }

  /** Ann has paid, Bob has not. */
  lemma OnePaidMemberReachable() returns (s: Sys)
    ensures Reachable(ACTS, s) && |s.procs| == 3 && s.db.tasks == []
    ensures forall i :: 0 <= i < |s.procs| ==> s.procs[i] == Done
    ensures s.db.teams == map[TEAM := Team(1, 2, 1, 2, Progress, 60)] && s.redis == SEAT_ONE
    ensures s.db.orders == [AnnsOrder().(status := OrderComplete, paidAt := Some(5)), BobsOrder()]
  {
    TwoUnpaidMembersReachable();
    var s1 := SettlementReads(ACTS, BothIn(), 0, 5);
    s := SettlementCounts(ACTS, s1, 2);
  }

  /** Formed does not imply complete either: a reachable state in which the team is formed with one payment of
      two and its settlement task lists a single order. */
  lemma FormedTeamIncomplete() returns (s: Sys)
    ensures Reachable(ACTS, s) && forall i :: 0 <= i < |s.procs| ==> s.procs[i] == Done
    ensures TEAM in s.db.teams && s.db.teams[TEAM].status == Complete && s.db.teams[TEAM].complete == 1 < s.db.teams[TEAM].target
    ensures |s.db.tasks| == 2 && s.db.tasks[1].Settlement? && |s.db.tasks[1].outTradeNos| == 1
  {
    var paid := OnePaidMemberReachable();
    s := RefundUnderLastPayerFormsEarly(ACTS, paid, 1, 0, 5);
    CounterConservation(ACTS, s, TEAM);
  }

  /** And with a true count: the team of two is formed with one payment, and its settlement task lists both
      orders, of which one is closed. */
  lemma FormedTeamLosesPayment() returns (s: Sys)
    ensures Reachable(ACTS, s) && forall i :: 0 <= i < |s.procs| ==> s.procs[i] == Done
    ensures TEAM in s.db.teams && s.db.teams[TEAM].status == Complete && s.db.teams[TEAM].complete == 1 < s.db.teams[TEAM].target
    ensures |s.db.tasks| == 2 && s.db.tasks[0].Settlement? && |s.db.tasks[0].outTradeNos| == 2
    ensures |s.db.orders| > 0 && s.db.orders[0].status == OrderClose && s.db.orders[0].outTradeNo in s.db.tasks[0].outTradeNos
  {
    var paid := OnePaidMemberReachable();
    s := LateRefundLeavesFormed(ACTS, paid, 1, 0, 5);
    CounterConservation(ACTS, s, TEAM);
  }

  // ---- a refund lock left behind --------------------------------------------------------------

  /** With the lock left behind, the handler of a message of the order finds it taken and lets the message go. */
  lemma StuckMessageIsSkipped(acts: map<int, Activity>, s: Sys, i: nat) returns (next: Sys)
    requires Reachable(acts, s) && i < |s.procs| && (s.procs[i].MsgQueued? || s.procs[i].MsgLock?)
    requires s.procs[i].msg.row in s.redis.refundLocks
    ensures Reachable(acts, next) && next == Put(s, i, MsgAck(s.procs[i].msg))
  {
    var m := s.procs[i].msg;
    SkipSteps(acts, s, i, m);
    var t := s;
    if s.procs[i].MsgQueued? {
      Next(acts, s, Advance(i, OK));
      t := Put(s, i, MsgLock(m));
    } else {
      assert t == Put(s, i, MsgLock(m));
    }
    Next(acts, t, Advance(i, OK));
    next := Put(s, i, MsgAck(m));
  }

  lemma SkipSteps(acts: map<int, Activity>, s: Sys, i: nat, m: RefundMsg)
    requires i < |s.procs| && m.row in s.redis.refundLocks
    ensures s.procs[i] == MsgQueued(m) ==> Step(acts, s, Advance(i, OK)) == Put(s, i, MsgLock(m))
    ensures Step(acts, Put(s, i, MsgLock(m)), Advance(i, OK)) == Put(s, i, MsgAck(m))
  {
    assert Put(Put(s, i, MsgLock(m)), i, MsgAck(m)) == Put(s, i, MsgAck(m));
  }

  lemma {:induction false} StuckMessagesDrain(acts: map<int, Activity>, s: Sys, row: nat) returns (end: Sys)
    requires ActivitiesOk(acts) && Reachable(acts, s) && row in s.stuck
    ensures Reachable(acts, end) && end.db == s.db && end.stuck == s.stuck
    ensures Count(end.procs, Pending(row)) == 0 && Count(end.procs, Published(row)) == Count(s.procs, Published(row))
    decreases Count(s.procs, Pending(row))
  {
    if Count(s.procs, Pending(row)) == 0 {
      end := s;
    } else {
      CountZero(s.procs, Pending(row));
      var i :| 0 <= i < |s.procs| && Pending(row)(s.procs[i]);
      StuckNeverRecovers(acts, s, row);
      CountZero(s.procs, Recovering(row));
      assert !Recovering(row)(s.procs[i]);
      var t := StuckMessageIsSkipped(acts, s, i);
      CountUpdate(s.procs, i, t.procs[i], Pending(row));
      CountUpdate(s.procs, i, t.procs[i], Published(row));
      end := StuckMessagesDrain(acts, t, row);
    }
  }

  lemma DeathLeavesLock(acts: map<int, Activity>, s: Sys, i: nat)
    requires i < |s.procs| && (s.procs[i].MsgIncr? || s.procs[i].MsgDel?)
    ensures var m := s.procs[i].msg;
            Step(acts, s, ConsumerDies(i)) == Put(s, i, MsgQueued(m)).(stuck := s.stuck + {m.row})
  {
  }

  /** From any reachable state with a consumer between SETNX and INCR or DEL, its death leads to a state in which
      every message of the order is handled and the seat has not come back, nor ever will. */
  lemma DeathLosesSeat(acts: map<int, Activity>, s: Sys, i: nat) returns (end: Sys)
    requires ActivitiesOk(acts) && Reachable(acts, s) && i < |s.procs| && (s.procs[i].MsgIncr? || s.procs[i].MsgDel?)
    ensures var row := s.procs[i].msg.row;
            && Reachable(acts, end) && end.db == s.db && row in end.stuck
            && Count(end.procs, Published(row)) > 0 && Count(end.procs, Pending(row)) == 0
            && row < |end.db.orders| && end.db.orders[row].status == OrderClose && end.db.orders[row].credits == 0
  {
    var m := s.procs[i].msg;
    var t := Put(s, i, MsgQueued(m)).(stuck := s.stuck + {m.row});
    assert m.row < |s.db.orders| && s.db.orders[m.row].status == OrderClose && s.db.orders[m.row].credits == 0 by {
      ReachableInv(acts, s);
      RecoveringIsExclusive(acts, s, i);
    }
    DeathLeavesLock(acts, s, i);
    Next(acts, s, ConsumerDies(i));
    CountAtLeastOne(t.procs, i, Published(m.row));
    end := StuckMessagesDrain(acts, t, m.row);
  }

  /** Such a run from the empty system: Ann opens a team, her unpaid order is refunded, and the consumer dies. */
  lemma LostSeatReachable() returns (end: Sys)
    ensures Reachable(ACTS, end) && |end.db.orders| == 1
    ensures end.db.orders[0].status == OrderClose && end.db.orders[0].credits == 0 && 0 in end.stuck
    ensures Count(end.procs, Published(0)) > 0 && Count(end.procs, Pending(0)) == 0
  {
    AnnIsIn();
    var s := RefundReads(ACTS, Opened(), 0, UnpaidUnlock);
    var refunded := RefundTx(s.db, UnpaidUnlock, "a", 0, TEAM, 1, "n1").db;
    Commits(ACTS, s, 1, refunded);
    var t := Put(s, 1, Done).(db := refunded);
    assert t.db.tasks == [Refund(UnpaidUnlock, TEAM, 1, "a", 0, "n1")];
    var u := TakesRefundLock(ACTS, t, 0);
    end := DeathLosesSeat(ACTS, u, 2);
  }

  // ---- a broken team filled by stale payers ---------------------------------------------------

  const CID: JoinReq := JoinReq("c", "n3", 1, TEAM)
  const DAN: JoinReq := JoinReq("d", "n4", 1, TEAM)

  function Gone(o: Order, credits: nat): Order {
    o.(status := OrderClose, paidAt := Some(5), credits := credits)
  }

  function ClosedOrders(): seq<Order> { [Gone(AnnsOrder(), 1), Gone(BobsOrder(), 0)] }

  const SETTLED: Task := Settlement(TEAM, 1, "n2", ["n1", "n2"])
  const ANN_OUT: Task := Refund(PaidFormed, TEAM, 1, "a", 0, "n1")
  const BOB_OUT: Task := Refund(PaidFormed, TEAM, 1, "b", 1, "n2")

  function Paid(o: Order): Order { o.(status := OrderComplete, paidAt := Some(5)) }

  lemma FormingPayment(db: Db)
    requires db == Db(map[TEAM := Team(1, 2, 1, 2, Progress, 60)], [Paid(AnnsOrder()), BobsOrder()], [])
    ensures SettleTx(db, "b", "n2", 5, TEAM, db.teams[TEAM])
         == Commit(Db(map[TEAM := Team(1, 2, 2, 2, Complete, 60)], [Paid(AnnsOrder()), Paid(BobsOrder())], [SETTLED]))
  {
    SettleFindsRow(db, "b", "n2", 1);
    var orders := [Paid(AnnsOrder()), Paid(BobsOrder())];
    assert orders[..1] == [Paid(AnnsOrder())] && orders[..1][..0] == [];
    assert PaidNos(orders[..1], TEAM) == ["n1"];
    assert PaidNos(orders, TEAM) == ["n1", "n2"];
    assert db.orders[1 := Paid(BobsOrder())] == orders;
    assert db.teams[TEAM := Team(1, 2, 2, 2, Complete, 60)] == map[TEAM := Team(1, 2, 2, 2, Complete, 60)];
  }

  /** Ann and Bob have paid and the team is formed. */
  lemma FormedTeamReachable() returns (s: Sys)
    ensures Reachable(ACTS, s) && s.redis == SEAT_ONE
    ensures s.db == Db(map[TEAM := Team(1, 2, 2, 2, Complete, 60)], [Paid(AnnsOrder()), Paid(BobsOrder())], [SETTLED])
  {
    var one := OnePaidMemberReachable();
    var t := SettlementReads(ACTS, one, 1, 5);
    FormingPayment(one.db);
    var db := Db(map[TEAM := Team(1, 2, 2, 2, Complete, 60)], [Paid(AnnsOrder()), Paid(BobsOrder())], [SETTLED]);
    Commits(ACTS, t, 3, db);
    s := Put(t, 3, Done).(db := db);
  }

  lemma AnnRefunded() returns (s: Sys)
    ensures Reachable(ACTS, s) && s.redis == SEAT_ONE
    ensures s.db == Db(map[TEAM := Team(1, 2, 1, 1, CompleteFail, 60)],
                       [Gone(AnnsOrder(), 0), Paid(BobsOrder())], [SETTLED, ANN_OUT])
  {
    var formed := FormedTeamReachable();
    s := RefundCommits(ACTS, formed, 0, PaidFormed);
  }

  lemma BothRefunded() returns (s: Sys)
    ensures Reachable(ACTS, s) && s.redis == SEAT_ONE
    ensures s.db == Db(map[TEAM := Team(1, 2, 0, 0, Fail, 60)],
                       [Gone(AnnsOrder(), 0), Gone(BobsOrder(), 0)], [SETTLED, ANN_OUT, BOB_OUT])
  {
    var one := AnnRefunded();
    s := RefundCommits(ACTS, one, 1, PaidFormed);
  }

  /** Both have been refunded, and Ann's seat has come back. */
  lemma FailedTeamReachable() returns (s: Sys)
    ensures Reachable(ACTS, s)
    ensures Get(s.redis.stock, (1, TEAM)) == 1 && Get(s.redis.recovery, (1, TEAM)) == 1
    ensures s.db == Db(map[TEAM := Team(1, 2, 0, 0, Fail, 60)], ClosedOrders(), [SETTLED, ANN_OUT, BOB_OUT])
  {
    var both := BothRefunded();
    var t := TakesRefundLock(ACTS, both, 1);
    s := Recovers(ACTS, t, |both.procs|);
    assert s.db.orders == ClosedOrders();
  }

  lemma NewcomerCanJoin(s: Sys, req: JoinReq)
    requires Reachable(ACTS, s) && req.team == TEAM && req.activity == 1 && TEAM in s.db.teams
    requires s.db.teams[TEAM].activity == 1 && s.db.teams[TEAM].lock < s.db.teams[TEAM].target
    requires Get(s.redis.stock, (1, TEAM)) < 2 + Get(s.redis.recovery, (1, TEAM))
    requires forall i :: 0 <= i < |s.db.orders| ==> s.db.orders[i].user != req.user
    ensures CanJoin(ACTS, s, req) && Count(s.db.orders, OfTaker(1, req.user)) == 0
  {
    CountZero(s.db.orders, OfTaker(1, req.user));
    SlotIsFree(ACTS, s, (1, TEAM), 2);
    assert TakerOk(ACTS, s.db, 1, req.user) && DbOk(ACTS, s.db) by {
      ReachableInv(ACTS, s);
    }
    StaleCountCaught(ACTS, s.db, req, 0);
  }

  /** A team that failed after both members were refunded is full again, in status 2: two newcomers joined and
      paid with the same stale count. */
  lemma FailedTeamFullAgain() returns (s: Sys)
    ensures Reachable(ACTS, s)
    ensures TEAM in s.db.teams && s.db.teams[TEAM].complete == s.db.teams[TEAM].target && s.db.teams[TEAM].status == Fail
  {
    var s0 := FailedTeamReachable();
    NewcomerCanJoin(s0, CID);
    var s1 := Joins(ACTS, s0, CID);
    assert s1.db.orders == ClosedOrders() + [NewOrder(ACTS[1], CID, TEAM, 0)];
    NewcomerCanJoin(s1, DAN);
    var s2 := Joins(ACTS, s1, DAN);
    assert s2.db.orders == s1.db.orders + [NewOrder(ACTS[1], DAN, TEAM, 0)];
    s := StalePayersKeepStatus(ACTS, s2, 2, 3, 5);
    CounterConservation(ACTS, s, TEAM);
  }

  // ---- and one that still has a paid member ---------------------------------------------------

  const TRIO: map<int, Activity> := map[1 := Activity(3, 0, 1, 100)]

  function Request(user: string): JoinReq { JoinReq(user, "n", 1, TEAM) }

  function Seat(user: string): Order { NewOrder(TRIO[1], Request(user), TEAM, 0) }

  /** One row is closed and waits for its recovery, at most. */
  lemma FewUncredited(orders: seq<Order>, i: nat)
    requires i < |orders| && forall j :: 0 <= j < |orders| && j != i ==> !Uncredited(TEAM)(orders[j])
    ensures Count(orders, Uncredited(TEAM)) <= 1
  {
    var p := Uncredited(TEAM);
    var open := orders[i].(status := OrderCreate);
    CountUpdate(orders, i, open, p);
    CountZero(orders[i := open], p);
  }

  /** A newcomer takes a seat of the team, of which one row at most waits for its recovery. */
  lemma TakesSeat(s: Sys, m: Team, i: nat, user: string) returns (next: Sys)
    requires Reachable(TRIO, s) && Quiet(s) && s.db.teams == map[TEAM := m] && m.activity == 1 && m.lock < m.target
    requires i < |s.db.orders| && forall j :: 0 <= j < |s.db.orders| && j != i ==> !Uncredited(TEAM)(s.db.orders[j])
    requires forall j :: 0 <= j < |s.db.orders| ==> s.db.orders[j].user != user
    ensures Reachable(TRIO, next) && Quiet(next) && next.redis.refundLocks == s.redis.refundLocks
    ensures next.db == Db(map[TEAM := m.(lock := m.lock + 1)], s.db.orders + [Seat(user)], s.db.tasks)
  {
    FewUncredited(s.db.orders, i);
    assert s.db.teams[TEAM := m.(lock := m.lock + 1)] == map[TEAM := m.(lock := m.lock + 1)];
    next := NewcomerJoins(TRIO, s, Request(user));
  }

  lemma OneIn() returns (s: Sys)
    ensures Reachable(TRIO, s) && Quiet(s) && s.redis.refundLocks == {} && s.db.tasks == []
    ensures s.db.teams == map[TEAM := Team(1, 3, 0, 1, Progress, 60)] && s.db.orders == [Seat("a")]
  {
    InitReachable(TRIO);
    s := Opens(TRIO, INIT, JoinReq("a", "n", 1, ""), TEAM);
  }

  lemma TwoIn() returns (s: Sys)
    ensures Reachable(TRIO, s) && Quiet(s) && s.redis.refundLocks == {} && s.db.tasks == []
    ensures s.db.teams == map[TEAM := Team(1, 3, 0, 2, Progress, 60)] && s.db.orders == [Seat("a"), Seat("b")]
  {
    var one := OneIn();
    s := TakesSeat(one, Team(1, 3, 0, 1, Progress, 60), 0, "b");
  }

  lemma ThreeIn() returns (s: Sys)
    ensures Reachable(TRIO, s) && Quiet(s) && s.redis.refundLocks == {} && s.db.tasks == []
    ensures s.db.teams == map[TEAM := Team(1, 3, 0, 3, Progress, 60)] && s.db.orders == [Seat("a"), Seat("b"), Seat("c")]
  {
    var two := TwoIn();
    s := TakesSeat(two, Team(1, 3, 0, 2, Progress, 60), 0, "c");
  }

  /** A member pays; the third payment forms the team. */
  lemma PaysSeat(s: Sys, m: Team, row: nat) returns (next: Sys)
    requires Reachable(TRIO, s) && Quiet(s) && s.db.teams == map[TEAM := m] && m.validEnd > 5 && m.status == Progress
    requires row < |s.db.orders| && s.db.orders[row].status == OrderCreate && s.db.orders[row].team == TEAM
    ensures Reachable(TRIO, next) && Quiet(next) && next.redis == s.redis
    ensures next.db.orders == s.db.orders[row := Paid(s.db.orders[row])]
    ensures var full := m.target - m.complete == 1;
            && next.db.teams == map[TEAM := m.(complete := m.complete + 1, status := if full then Complete else Progress)]
            && |next.db.tasks| == |s.db.tasks| + Bit(full)
  {
    next := Pays(TRIO, s, row, 5);
  }

  lemma ThreePaid() returns (s: Sys)
    ensures Reachable(TRIO, s) && Quiet(s) && s.redis.refundLocks == {} && |s.db.tasks| == 1
    ensures s.db.teams == map[TEAM := Team(1, 3, 3, 3, Complete, 60)]
    ensures s.db.orders == [Paid(Seat("a")), Paid(Seat("b")), Paid(Seat("c"))]
  {
    var s0 := ThreeIn();
    var s1 := PaysSeat(s0, Team(1, 3, 0, 3, Progress, 60), 0);
    assert s1.db.orders == [Paid(Seat("a")), Seat("b"), Seat("c")];
    var s2 := PaysSeat(s1, Team(1, 3, 1, 3, Progress, 60), 1);
    assert s2.db.orders == [Paid(Seat("a")), Paid(Seat("b")), Seat("c")];
    s := PaysSeat(s2, Team(1, 3, 2, 3, Progress, 60), 2);
    assert s.db.orders == [Paid(Seat("a")), Paid(Seat("b")), Paid(Seat("c"))];
  }

  lemma OneRefunded() returns (s: Sys)
    ensures Reachable(TRIO, s) && Quiet(s) && s.redis.refundLocks == {}
    ensures |s.db.tasks| == 2 && s.db.tasks[1] == Refund(PaidFormed, TEAM, 1, "a", 0, "n")
    ensures s.db.teams == map[TEAM := Team(1, 3, 2, 2, CompleteFail, 60)]
    ensures s.db.orders == [Gone(Seat("a"), 0), Paid(Seat("b")), Paid(Seat("c"))]
  {
    var paid := ThreePaid();
    s := RefundCommits(TRIO, paid, 0, PaidFormed);
    assert s.db.teams == map[TEAM := Team(1, 3, 2, 2, CompleteFail, 60)];
    assert s.db.orders == [Gone(Seat("a"), 0), Paid(Seat("b")), Paid(Seat("c"))];
  }

  lemma TwoRefunded() returns (s: Sys)
    ensures Reachable(TRIO, s) && Quiet(s) && s.redis.refundLocks == {}
    ensures |s.db.tasks| > 1 && s.db.tasks[1] == Refund(PaidFormed, TEAM, 1, "a", 0, "n")
    ensures s.db.teams == map[TEAM := Team(1, 3, 1, 1, CompleteFail, 60)]
    ensures s.db.orders == [Gone(Seat("a"), 0), Gone(Seat("b"), 0), Paid(Seat("c"))]
  {
    var one := OneRefunded();
    s := RefundCommits(TRIO, one, 1, PaidFormed);
    assert s.db.teams == map[TEAM := Team(1, 3, 1, 1, CompleteFail, 60)];
    assert s.db.orders == [Gone(Seat("a"), 0), Gone(Seat("b"), 0), Paid(Seat("c"))];
  }

  /** Two of three have been refunded, and one seat has come back. */
  lemma OneLeft() returns (s: Sys)
    ensures Reachable(TRIO, s) && Quiet(s)
    ensures s.db.teams == map[TEAM := Team(1, 3, 1, 1, CompleteFail, 60)]
    ensures s.db.orders == [Gone(Seat("a"), 1), Gone(Seat("b"), 0), Paid(Seat("c"))]
  {
    var two := TwoRefunded();
    var locked := TakesRefundLock(TRIO, two, 1);
    s := Recovers(TRIO, locked, |two.procs|);
    assert s.db.orders == [Gone(Seat("a"), 1), Gone(Seat("b"), 0), Paid(Seat("c"))];
  }

  lemma OneNewcomer() returns (s: Sys)
    ensures Reachable(TRIO, s) && Quiet(s) && s.db.teams == map[TEAM := Team(1, 3, 1, 2, CompleteFail, 60)]
    ensures s.db.orders == [Gone(Seat("a"), 1), Gone(Seat("b"), 0), Paid(Seat("c")), Seat("d")]
  {
    var left := OneLeft();
    s := TakesSeat(left, Team(1, 3, 1, 1, CompleteFail, 60), 1, "d");
  }

  lemma TwoNewcomers() returns (s: Sys)
    ensures Reachable(TRIO, s) && s.db.teams == map[TEAM := Team(1, 3, 1, 3, CompleteFail, 60)]
    ensures s.db.orders == [Gone(Seat("a"), 1), Gone(Seat("b"), 0), Paid(Seat("c")), Seat("d"), Seat("e")]
  {
    var one := OneNewcomer();
    s := TakesSeat(one, Team(1, 3, 1, 2, CompleteFail, 60), 1, "e");
  }

  /** A team of three that lost two members after forming is full again, in status 3. */
  lemma CompleteFailTeamFullAgain() returns (s: Sys)
    ensures Reachable(TRIO, s)
    ensures TEAM in s.db.teams && s.db.teams[TEAM].complete == s.db.teams[TEAM].target && s.db.teams[TEAM].status == CompleteFail
  {
    var s0 := TwoNewcomers();
    assert s0.db.orders[3] == Seat("d") && s0.db.orders[4] == Seat("e");
    s := StalePayersKeepStatus(TRIO, s0, 3, 4, 5);
    CounterConservation(TRIO, s, TEAM);
  }

  // ---- what the assumptions rule out ----------------------------------------------------------

  /** A settlement of a pair counts for the team of the first order of the pair, and pays the unpaid one: that
      team's complete_count stays the number of its paid orders exactly when the unpaid order is its own. */
  lemma SettlementCreditsOwnTeamExactly(
    db: Db, user: string, no: string, payTime: int, id: string, snap: Team, next: Db)
    requires SettleTx(db, user, no, payTime, id, snap) == Commit(next)
    requires id in db.teams && db.teams[id].complete == Count(db.orders, PaidIn(id))
    ensures var row := FindFirst(db.orders, UnpaidOfPair(user, no));
            && row < |db.orders| && id in next.teams
            && (next.teams[id].complete == Count(next.orders, PaidIn(id)) <==> db.orders[row].team == id)
  {
    var row := FindFirst(db.orders, UnpaidOfPair(user, no));
    CountUpdate(db.orders, row, next.orders[row], PaidIn(id));
  }

  const OTHER: string := "20000002"
  const AGAIN: Env := Env(false, 0, OTHER)

  function AnnsSecond(): Order { NewOrder(ACTS[1], ANN, OTHER, 1) }

  /** Ann has paid her order in the team she opened. */
  const ONE_PAID: Db := Db(map[TEAM := Team(1, 2, 1, 1, Progress, 60)], [Paid(AnnsOrder())], [])

  /** Under the same pair she has opened a second team. */
  const PAIR_REUSED: Db :=
    Db(map[TEAM := Team(1, 2, 1, 1, Progress, 60), OTHER := Team(1, 2, 0, 1, Progress, 60)], [Paid(AnnsOrder()), AnnsSecond()], [])

  /** Her payment for the second has formed the first. */
  const WRONG_TEAM: Db :=
    Db(map[TEAM := Team(1, 2, 2, 1, Complete, 60), OTHER := Team(1, 2, 0, 1, Progress, 60)],
       [Paid(AnnsOrder()), Paid(AnnsSecond())], [Settlement(TEAM, 1, "n1", ["n1"])])

  lemma SecondOrder(s: Sys)
    requires s.db == ONE_PAID && |s.procs| == 2
    ensures Takes(ACTS, s, NewJoin(ANN), s.(procs := s.procs + [JoinStart(ANN)]))
    ensures var t := s.(procs := s.procs + [JoinStart(ANN)]);
            && Takes(ACTS, t, Advance(2, AGAIN), Put(t, 2, JoinCount(ANN)))
            && Takes(ACTS, Put(t, 2, JoinCount(ANN)), Advance(2, AGAIN), Put(t, 2, JoinTx(ANN, 1)))
            && Takes(ACTS, Put(t, 2, JoinTx(ANN, 1)), Advance(2, AGAIN), Put(t, 2, Done).(db := PAIR_REUSED))
  {
    var orders := [Paid(AnnsOrder())];
    assert OfPair("a", "n1")(orders[0]);
    assert orders[..0] == [];
    assert Count(orders, OfTaker(1, "a")) == 1;
    assert FindFirst(orders, OfPair("a", "n1")) == 0;
    assert !BizIdTaken(orders, BizKey(1, "a", 2));
    assert LockTx(ONE_PAID, ACTS[1], ANN, 1, OTHER, 0) == Commit(PAIR_REUSED);
  }

  lemma WrongSettlement()
    ensures SettleTx(PAIR_REUSED, "a", "n1", 5, TEAM, PAIR_REUSED.teams[TEAM]) == Commit(WRONG_TEAM)
    ensures Count(WRONG_TEAM.orders, PaidIn(TEAM)) == 1 && Count(WRONG_TEAM.orders, PaidIn(OTHER)) == 1
  {
    var orders, paid := PAIR_REUSED.orders, WRONG_TEAM.orders;
    var p := UnpaidOfPair("a", "n1");
    assert orders[..1][..0] == [] && paid[..1][..0] == [];
    assert Count(orders[..1], p) == 0 && Count(orders, p) == 1;
    assert FindFirst(orders, p) == 1;
    assert PaidNos(paid[..1], TEAM) == ["n1"] && PaidNos(paid, TEAM) == ["n1"];
    assert Count(paid[..1], PaidIn(TEAM)) == 1 && Count(paid[..1], PaidIn(OTHER)) == 0;
    assert orders[1 := Paid(AnnsSecond())] == paid;
    assert PAIR_REUSED.teams[TEAM := Team(1, 2, 2, 1, Complete, 60)] == WRONG_TEAM.teams;
  }

  lemma SecondPayment(s: Sys)
    requires s.db == PAIR_REUSED && |s.procs| == 3
    ensures Takes(ACTS, s, NewSettle("a", "n1", 5), s.(procs := s.procs + [SettleStart("a", "n1", 5)]))
    ensures var t := s.(procs := s.procs + [SettleStart("a", "n1", 5)]);
            var ready := Put(t, 3, SettleCommit("a", "n1", 5, 0, TEAM, PAIR_REUSED.teams[TEAM]));
            && Takes(ACTS, t, Advance(3, OK), Put(t, 3, SettleTeam("a", "n1", 5, 0, TEAM)))
            && Takes(ACTS, Put(t, 3, SettleTeam("a", "n1", 5, 0, TEAM)), Advance(3, OK), ready)
            && Takes(ACTS, ready, Advance(3, OK), Put(t, 3, Done).(db := WRONG_TEAM))
  {
    assert OfPair("a", "n1")(s.db.orders[0]);
    assert FindFirst(s.db.orders, OfPair("a", "n1")) == 0;
    WrongSettlement();
  }

  lemma AnnHasPaid() returns (s: Sys)
    ensures Reachable(ACTS, s) && s.db == ONE_PAID && |s.procs| == 2
  {
    AnnIsIn();
    var t := SettlementReads(ACTS, Opened(), 0, 5);
    s := SettlementCounts(ACTS, t, 1);
  }

  /** A run that uses a pair again: a team of two is formed and its settlement task stored, with one payment
      in it; the other payment is in a team that does not count it. */
  lemma ReusedPairCreditsWrongTeam() returns (s: Sys)
    ensures FreelyReachable(ACTS, s) && s.db == WRONG_TEAM
    ensures s.db.teams[TEAM].complete == 2 && Count(s.db.orders, PaidIn(TEAM)) == 1
    ensures s.db.teams[OTHER].complete == 0 && Count(s.db.orders, PaidIn(OTHER)) == 1
  {
    var s0 := AnnHasPaid();
    FreeAsWell(ACTS, s0);
    SecondOrder(s0);
    var t := s0.(procs := s0.procs + [JoinStart(ANN)]);
    FreeNext(ACTS, s0, NewJoin(ANN), t);
    FreeNext(ACTS, t, Advance(2, AGAIN), Put(t, 2, JoinCount(ANN)));
    FreeNext(ACTS, Put(t, 2, JoinCount(ANN)), Advance(2, AGAIN), Put(t, 2, JoinTx(ANN, 1)));
    var s1 := Put(t, 2, Done).(db := PAIR_REUSED);
    FreeNext(ACTS, Put(t, 2, JoinTx(ANN, 1)), Advance(2, AGAIN), s1);
    s := SecondPaymentRun(s1);
    WrongSettlement();
  }

  lemma SecondPaymentRun(s: Sys) returns (end: Sys)
    requires FreelyReachable(ACTS, s) && s.db == PAIR_REUSED && |s.procs| == 3
    ensures FreelyReachable(ACTS, end) && end.db == WRONG_TEAM
  {
    SecondPayment(s);
    var t := s.(procs := s.procs + [SettleStart("a", "n1", 5)]);
    var read := Put(t, 3, SettleTeam("a", "n1", 5, 0, TEAM));
    var ready := Put(t, 3, SettleCommit("a", "n1", 5, 0, TEAM, PAIR_REUSED.teams[TEAM]));
    end := Put(t, 3, Done).(db := WRONG_TEAM);
    FreeNext(ACTS, s, NewSettle("a", "n1", 5), t);
    FreeNext(ACTS, t, Advance(3, OK), read);
    FreeNext(ACTS, read, Advance(3, OK), ready);
    FreeNext(ACTS, ready, Advance(3, OK), end);
  }

  /** The join of a team under another activity: the seat is booked under that activity's key while the team
      counts it, so the accounting of the team's own key holds after the commit exactly when the activities
      were the same. */
  lemma ForeignActivityBreaksSeats(acts: map<int, Activity>, s: Sys, i: nat, newTeam: string, now: int)
    requires i < |s.procs| && s.procs[i].JoinTx? && s.procs[i].req.activity in acts
    requires var req := s.procs[i].req;
             req.team != "" && req.team in s.db.teams && SeatsOk(s, (s.db.teams[req.team].activity, req.team))
    requires LockTx(s.db, acts[s.procs[i].req.activity], s.procs[i].req, s.procs[i].take, newTeam, now).Commit?
    ensures var req := s.procs[i].req;
            var next := Step(acts, s, Advance(i, Env(false, now, newTeam)));
            SeatsOk(next, (s.db.teams[req.team].activity, req.team)) <==> req.activity == s.db.teams[req.team].activity
  {
    var req := s.procs[i].req;
    var next := Step(acts, s, Advance(i, Env(false, now, newTeam)));
    var k := (s.db.teams[req.team].activity, req.team);
    CountUpdate(s.procs, i, Done, Holds(k));
    CountAppend(s.db.orders, next.db.orders[|s.db.orders|], Uncredited(req.team));
  }
}
