/** Requests that nothing hinders, as pieces to build runs from. */
module TradeScenarios {
  import opened Counting
  import opened TradeModel
  import opened TradeTransactions
  import opened TradeInvariant
  import opened TradeProtocol
  import opened TradeSafety
  import opened TradeTheorems

  lemma Next(acts: map<int, Activity>, s: Sys, l: Label)
    requires Reachable(acts, s) && Assumed(acts, s, l)
    ensures Reachable(acts, Step(acts, s, l))
  {
    var states, labels :| IsRun(acts, states, labels) && s == states[|labels|];
    var t := Step(acts, s, l);
    OneMore(acts, states, labels, l, t);
  }

  lemma OneMore(acts: map<int, Activity>, states: seq<Sys>, labels: seq<Label>, l: Label, t: Sys)
    requires IsRun(acts, states, labels) && Moves(acts, states[|labels|], l, t)
    ensures IsRun(acts, states + [t], labels + [l]) && Reachable(acts, t)
  {
    var n := |labels|;
    var after, taken := states + [t], labels + [l];
    forall j | 0 <= j < |taken|
      ensures Moves(acts, after[j], taken[j], after[j + 1])
    {
      if j < n {
        assert taken[j] == labels[j];
      }
    }
    assert IsRun(acts, after, taken) && t == after[|taken|];
  }

  lemma InitReachable(acts: map<int, Activity>)
    ensures Reachable(acts, INIT)
  {
    var states, labels: seq<Label> := [INIT], [];
    assert IsRun(acts, states, labels) && INIT == states[|labels|];
  }

  lemma FreeAsWell(acts: map<int, Activity>, s: Sys)
    requires Reachable(acts, s)
    ensures FreelyReachable(acts, s)
  {
    var states, labels :| IsRun(acts, states, labels) && s == states[|labels|];
    forall j | 0 <= j < |labels|
      ensures Takes(acts, states[j], labels[j], states[j + 1])
    {
      assert Moves(acts, states[j], labels[j], states[j + 1]);
    }
    assert IsFreeRun(acts, states, labels);
  }

  lemma FreeNext(acts: map<int, Activity>, s: Sys, l: Label, t: Sys)
    requires FreelyReachable(acts, s) && Takes(acts, s, l, t)
    ensures FreelyReachable(acts, t)
  {
    var states, labels :| IsFreeRun(acts, states, labels) && s == states[|labels|];
    var after, taken := states + [t], labels + [l];
    forall j | 0 <= j < |taken|
      ensures Takes(acts, after[j], taken[j], after[j + 1])
    {
      if j < |labels| {
        assert taken[j] == labels[j];
      }
    }
    assert IsFreeRun(acts, after, taken) && t == after[|taken|];
  }

  // ---- single requests that nothing hinders ---------------------------------------------------

  const OK: Env := Env(false, 0, "")

  /** The states a settlement request passes through on its way to the transaction. */
  lemma SettlementPath(acts: map<int, Activity>, s: Sys, row: nat, payTime: int, s1: Sys, s2: Sys, s3: Sys)
    requires row < |s.db.orders| && s.db.orders[row].status == OrderCreate && PairsUnique(s.db)
    requires var t := s.db.orders[row].team; t in s.db.teams && payTime < s.db.teams[t].validEnd
    requires var o := s.db.orders[row];
             && s1 == s.(procs := s.procs + [SettleStart(o.user, o.outTradeNo, payTime)])
             && s2 == Put(s1, |s.procs|, SettleTeam(o.user, o.outTradeNo, payTime, row, o.team))
             && s3 == Put(s1, |s.procs|, SettleCommit(o.user, o.outTradeNo, payTime, row, o.team, s.db.teams[o.team]))
    ensures var o := s.db.orders[row]; Step(acts, s, NewSettle(o.user, o.outTradeNo, payTime)) == s1
    ensures Step(acts, s1, Advance(|s.procs|, OK)) == s2
    ensures Step(acts, s2, Advance(|s.procs|, OK)) == s3
  {
    var o := s.db.orders[row];
    var f := FindFirst(s.db.orders, OfPair(o.user, o.outTradeNo));
    assert f == row;
  }

  lemma PairsAreUnique(acts: map<int, Activity>, s: Sys)
    requires ActivitiesOk(acts) && Reachable(acts, s)
    ensures PairsUnique(s.db)
  {
    ReachableInv(acts, s);
  }

  lemma SettlementReads(acts: map<int, Activity>, s: Sys, row: nat, payTime: int) returns (next: Sys)
    requires ActivitiesOk(acts) && Reachable(acts, s) && row < |s.db.orders| && s.db.orders[row].status == OrderCreate
    requires var t := s.db.orders[row].team; t in s.db.teams && payTime < s.db.teams[t].validEnd
    ensures var o := s.db.orders[row];
            next == s.(procs := s.procs + [SettleCommit(o.user, o.outTradeNo, payTime, row, o.team, s.db.teams[o.team])])
    ensures Reachable(acts, next)
  {
    PairsAreUnique(acts, s);
    var o, i := s.db.orders[row], |s.procs|;
    var s1 := s.(procs := s.procs + [SettleStart(o.user, o.outTradeNo, payTime)]);
    var s2 := Put(s1, i, SettleTeam(o.user, o.outTradeNo, payTime, row, o.team));
    next := Put(s1, i, SettleCommit(o.user, o.outTradeNo, payTime, row, o.team, s.db.teams[o.team]));
    SettlementPath(acts, s, row, payTime, s1, s2, next);
    Next(acts, s, NewSettle(o.user, o.outTradeNo, payTime));
    Next(acts, s1, Advance(i, OK));
    Next(acts, s2, Advance(i, OK));
  }

  /** The states a refund request passes through on its way to the transaction. */
  lemma RefundPath(acts: map<int, Activity>, s: Sys, row: nat, kind: RefundType, s1: Sys, s2: Sys, s3: Sys)
    requires row < |s.db.orders| && s.db.orders[row].status != OrderClose && PairsUnique(s.db)
    requires var o := s.db.orders[row];
             && o.team in s.db.teams && GetRefundStrategy(s.db.teams[o.team].status, o.status) == Some(kind)
             && s1 == s.(procs := s.procs + [RefundStart(o.user, o.outTradeNo)])
             && s2 == Put(s1, |s.procs|, RefundTeam(o.user, o.outTradeNo, row, o.team, o.status))
             && s3 == Put(s1, |s.procs|, RefundCommit(o.user, o.outTradeNo, row, o.team, kind, s.db.teams[o.team]))
    ensures var o := s.db.orders[row]; Step(acts, s, NewRefund(o.user, o.outTradeNo)) == s1
    ensures Step(acts, s1, Advance(|s.procs|, OK)) == s2
    ensures Step(acts, s2, Advance(|s.procs|, OK)) == s3
  {
    var o := s.db.orders[row];
    var f := FindFirst(s.db.orders, OfPair(o.user, o.outTradeNo));
    assert f == row;
  }

  lemma RefundReads(acts: map<int, Activity>, s: Sys, row: nat, kind: RefundType) returns (next: Sys)
    requires ActivitiesOk(acts) && Reachable(acts, s) && row < |s.db.orders| && s.db.orders[row].status != OrderClose
    requires var o := s.db.orders[row];
             o.team in s.db.teams && GetRefundStrategy(s.db.teams[o.team].status, o.status) == Some(kind)
    ensures var o := s.db.orders[row];
            next == s.(procs := s.procs + [RefundCommit(o.user, o.outTradeNo, row, o.team, kind, s.db.teams[o.team])])
    ensures Reachable(acts, next)
  {
    PairsAreUnique(acts, s);
    var o, i := s.db.orders[row], |s.procs|;
    var s1 := s.(procs := s.procs + [RefundStart(o.user, o.outTradeNo)]);
    var s2 := Put(s1, i, RefundTeam(o.user, o.outTradeNo, row, o.team, o.status));
    next := Put(s1, i, RefundCommit(o.user, o.outTradeNo, row, o.team, kind, s.db.teams[o.team]));
    RefundPath(acts, s, row, kind, s1, s2, next);
    Next(acts, s, NewRefund(o.user, o.outTradeNo));
    Next(acts, s1, Advance(i, OK));
    Next(acts, s2, Advance(i, OK));
  }

  lemma CommitStep(acts: map<int, Activity>, s: Sys, i: nat, next: Db)
    requires i < |s.procs|
    requires var p := s.procs[i];
             || (p.SettleCommit? && SettleTx(s.db, p.user, p.outTradeNo, p.payTime, p.team, p.snap) == Commit(next))
             || (p.RefundCommit? && RefundTx(s.db, p.kind, p.user, p.row, p.team, p.snap.activity, p.outTradeNo) == Commit(next))
    ensures Step(acts, s, Advance(i, OK)) == Put(s, i, Done).(db := next)
  {
  }

  lemma Commits(acts: map<int, Activity>, s: Sys, i: nat, next: Db)
    requires Reachable(acts, s) && i < |s.procs|
    requires var p := s.procs[i];
             || (p.SettleCommit? && SettleTx(s.db, p.user, p.outTradeNo, p.payTime, p.team, p.snap) == Commit(next))
             || (p.RefundCommit? && RefundTx(s.db, p.kind, p.user, p.row, p.team, p.snap.activity, p.outTradeNo) == Commit(next))
    ensures Reachable(acts, Put(s, i, Done).(db := next))
  {
    CommitStep(acts, s, i, next);
    Next(acts, s, Advance(i, OK));
  }

  /** The tables after a settlement that only counts its order. */
  function Counted(db: Db, p: Proc): Db
    requires p.SettleCommit? && p.row < |db.orders| && p.team in db.teams
  {
    Db(db.teams[p.team := db.teams[p.team].(complete := db.teams[p.team].complete + 1)],
       db.orders[p.row := db.orders[p.row].(status := OrderComplete, paidAt := Some(p.payTime))],
       db.tasks)
  }

  lemma CountingCommit(acts: map<int, Activity>, db: Db, p: Proc)
    requires DbOk(acts, db) && p.SettleCommit? && ProcOk(acts, db, p)
    requires p.row < |db.orders| && db.orders[p.row].status == OrderCreate && p.snap.target - p.snap.complete != 1
    ensures p.team in db.teams
    ensures SettleTx(db, p.user, p.outTradeNo, p.payTime, p.team, p.snap) == Commit(Counted(db, p))
  {
    SettleFindsRow(db, p.user, p.outTradeNo, p.row);
    SettleGuardHolds(acts, db, p.row);
  }

  /** The commit of a settlement whose snapshot is not one short: the team is counted, not formed. */
  lemma SettlementCounts(acts: map<int, Activity>, s: Sys, i: nat) returns (next: Sys)
    requires ActivitiesOk(acts) && Reachable(acts, s) && i < |s.procs| && s.procs[i].SettleCommit?
    requires var p := s.procs[i];
             p.row < |s.db.orders| && s.db.orders[p.row].status == OrderCreate && p.snap.target - p.snap.complete != 1
    ensures s.procs[i].team in s.db.teams && next == Put(s, i, Done).(db := Counted(s.db, s.procs[i]))
    ensures Reachable(acts, next)
  {
    ProcessKnows(acts, s, i);
    CountingCommit(acts, s.db, s.procs[i]);
    next := Put(s, i, Done).(db := Counted(s.db, s.procs[i]));
    Commits(acts, s, i, next.db);
  }

  // ---- a join -------------------------------------------------------------------------------

  /** A request that finds a free seat in an existing team of its own activity, without a take limit. */
  ghost predicate CanJoin(acts: map<int, Activity>, s: Sys, req: JoinReq) {
    && req.team != "" && req.team in s.db.teams && s.db.teams[req.team].activity == req.activity
    && s.db.teams[req.team].lock < s.db.teams[req.team].target
    && req.activity in acts && acts[req.activity].takeLimit == 0
    && FreshPair(s.db, req)
    && OccupyScript(s.redis, KeyOf(req), acts[req.activity].target).1
    && !BizIdTaken(s.db.orders, BizKey(req.activity, req.user, Count(s.db.orders, OfTaker(req.activity, req.user)) + 1))
  }

  lemma JoinReads(acts: map<int, Activity>, s: Sys, req: JoinReq, i: nat)
    requires CanJoin(acts, s, req) && i < |s.procs|
    ensures Step(acts, Put(s, i, JoinStart(req)), Advance(i, OK)) == Put(s, i, JoinProgress(req))
    ensures Step(acts, Put(s, i, JoinProgress(req)), Advance(i, OK)) == Put(s, i, JoinCount(req))
    ensures var take := Count(s.db.orders, OfTaker(req.activity, req.user));
            Step(acts, Put(s, i, JoinCount(req)), Advance(i, OK)) == Put(s, i, JoinOccupy(req, take))
  {
    assert FindFirst(s.db.orders, OfPair(req.user, req.outTradeNo)) == |s.db.orders|;
  }

  lemma JoinWrites(acts: map<int, Activity>, s: Sys, req: JoinReq, i: nat, take: int, redis: Redis, db: Db)
    requires CanJoin(acts, s, req) && i < |s.procs| && take == Count(s.db.orders, OfTaker(req.activity, req.user))
    requires redis == OccupyScript(s.redis, KeyOf(req), acts[req.activity].target).0
    requires LockTx(s.db, acts[req.activity], req, take, "", 0) == Commit(db)
    ensures Step(acts, Put(s, i, JoinOccupy(req, take)), Advance(i, OK)) == Put(s, i, JoinTx(req, take)).(redis := redis)
    ensures Step(acts, Put(s, i, JoinTx(req, take)).(redis := redis), Advance(i, OK))
         == Put(s, i, Done).(redis := redis, db := db)
  {
  }

  lemma Joins(acts: map<int, Activity>, s: Sys, req: JoinReq) returns (next: Sys)
    requires Reachable(acts, s) && CanJoin(acts, s, req)
    ensures Reachable(acts, next)
    ensures var take := Count(s.db.orders, OfTaker(req.activity, req.user));
            && LockTx(s.db, acts[req.activity], req, take, "", 0) == Commit(next.db)
            && next == s.(procs := s.procs + [Done], db := next.db,
                          redis := OccupyScript(s.redis, KeyOf(req), acts[req.activity].target).0)
  {
    var i, take := |s.procs|, Count(s.db.orders, OfTaker(req.activity, req.user));
    var redis := OccupyScript(s.redis, KeyOf(req), acts[req.activity].target).0;
    var db := LockTx(s.db, acts[req.activity], req, take, "", 0).db;
    var t := s.(procs := s.procs + [JoinStart(req)]);
    JoinReads(acts, t, req, i);
    JoinWrites(acts, t, req, i, take, redis, db);
    assert t == Put(t, i, JoinStart(req));
    Next(acts, s, NewJoin(req));
    Next(acts, t, Advance(i, OK));
    Next(acts, Put(t, i, JoinProgress(req)), Advance(i, OK));
    Next(acts, Put(t, i, JoinCount(req)), Advance(i, OK));
    Next(acts, Put(t, i, JoinOccupy(req, take)), Advance(i, OK));
    Next(acts, Put(t, i, JoinTx(req, take)).(redis := redis), Advance(i, OK));
    next := Put(t, i, Done).(redis := redis, db := db);
    assert next.procs == s.procs + [Done];
  }

  // ---- a refund message -----------------------------------------------------------------------

  lemma MessagePath(acts: map<int, Activity>, s: Sys, j: nat, m: RefundMsg)
    requires j < |s.db.tasks| && s.db.tasks[j].Refund?
    requires m == RefundMsg(s.db.tasks[j].activity, s.db.tasks[j].team, s.db.tasks[j].row) && m.row !in s.redis.refundLocks
    ensures var i := |s.procs|; var t := s.(procs := s.procs + [MsgQueued(m)]);
            && Step(acts, s, PublishRefund(j)) == t
            && Step(acts, t, Advance(i, OK)) == Put(t, i, MsgLock(m))
            && Step(acts, Put(t, i, MsgLock(m)), Advance(i, OK))
               == Put(t, i, MsgIncr(m)).(redis := s.redis.(refundLocks := s.redis.refundLocks + {m.row}))
  {
  }

  /** Publishes the message of a refund task and takes its lock. */
  lemma TakesRefundLock(acts: map<int, Activity>, s: Sys, j: nat) returns (next: Sys)
    requires Reachable(acts, s) && j < |s.db.tasks| && s.db.tasks[j].Refund? && s.db.tasks[j].row !in s.redis.refundLocks
    ensures Reachable(acts, next)
    ensures var k := s.db.tasks[j];
            next == s.(procs := s.procs + [MsgIncr(RefundMsg(k.activity, k.team, k.row))],
                       redis := s.redis.(refundLocks := s.redis.refundLocks + {k.row}))
  {
    var i, m := |s.procs|, RefundMsg(s.db.tasks[j].activity, s.db.tasks[j].team, s.db.tasks[j].row);
    var t := s.(procs := s.procs + [MsgQueued(m)]);
    MessagePath(acts, s, j, m);
    Next(acts, s, PublishRefund(j));
    Next(acts, t, Advance(i, OK));
    Next(acts, Put(t, i, MsgLock(m)), Advance(i, OK));
    next := Put(t, i, MsgIncr(m)).(redis := s.redis.(refundLocks := s.redis.refundLocks + {m.row}));
    assert next.procs == s.procs + [MsgIncr(m)];
  }

  lemma Recovers(acts: map<int, Activity>, s: Sys, i: nat) returns (next: Sys)
    requires ActivitiesOk(acts) && Reachable(acts, s) && i < |s.procs| && s.procs[i].MsgIncr?
    ensures Reachable(acts, next)
    ensures var m := s.procs[i].msg;
            && m.row < |s.db.orders|
            && next == Put(s, i, MsgAck(m)).(db := Credit(s.db, m.row),
                         redis := s.redis.(recovery := Bump(s.redis.recovery, (m.activity, m.team))))
  {
    var m := s.procs[i].msg;
    assert m.row < |s.db.orders| by {
      ProcessKnows(acts, s, i);
    }
    next := Put(s, i, MsgAck(m)).(db := Credit(s.db, m.row),
              redis := s.redis.(recovery := Bump(s.redis.recovery, (m.activity, m.team))));
    RecoveryStep(acts, s, i, m);
    Next(acts, s, Advance(i, OK));
  }

  lemma RecoveryStep(acts: map<int, Activity>, s: Sys, i: nat, m: RefundMsg)
    requires i < |s.procs| && s.procs[i] == MsgIncr(m) && m.row < |s.db.orders|
    ensures Step(acts, s, Advance(i, OK))
         == Put(s, i, MsgAck(m)).(db := Credit(s.db, m.row),
              redis := s.redis.(recovery := Bump(s.redis.recovery, (m.activity, m.team))))
  {
  }

  // ---- whole requests -------------------------------------------------------------------------

  /** A request that opens a team: whose user has no order yet, in an activity without a take limit. */
  ghost predicate CanOpen(acts: map<int, Activity>, s: Sys, req: JoinReq, team: string) {
    && req.team == "" && req.activity in acts && acts[req.activity].takeLimit == 0 && team !in s.db.teams
    && (forall i :: 0 <= i < |s.db.orders| ==> s.db.orders[i].user != req.user)
  }

  lemma FreshUser(acts: map<int, Activity>, s: Sys, req: JoinReq)
    requires ActivitiesOk(acts) && Reachable(acts, s) && req.activity in acts && acts[req.activity].takeLimit == 0
    requires forall i :: 0 <= i < |s.db.orders| ==> s.db.orders[i].user != req.user
    ensures FreshPair(s.db, req) && Count(s.db.orders, OfTaker(req.activity, req.user)) == 0
    ensures !BizIdTaken(s.db.orders, BizKey(req.activity, req.user, 1))
  {
    CountZero(s.db.orders, OfTaker(req.activity, req.user));
    assert DbOk(acts, s.db) by {
      ReachableInv(acts, s);
    }
    StaleCountCaught(acts, s.db, req, 0);
  }

  lemma OpenSteps(acts: map<int, Activity>, s: Sys, req: JoinReq, team: string, i: nat, db: Db)
    requires CanOpen(acts, s, req, team) && FreshPair(s.db, req) && Count(s.db.orders, OfTaker(req.activity, req.user)) == 0
    requires i < |s.procs| && LockTx(s.db, acts[req.activity], req, 0, team, 0) == Commit(db)
    ensures Step(acts, Put(s, i, JoinStart(req)), Advance(i, OK)) == Put(s, i, JoinCount(req))
    ensures Step(acts, Put(s, i, JoinCount(req)), Advance(i, OK)) == Put(s, i, JoinTx(req, 0))
    ensures Step(acts, Put(s, i, JoinTx(req, 0)), Advance(i, Env(false, 0, team))) == Put(s, i, Done).(db := db)
  {
    assert FindFirst(s.db.orders, OfPair(req.user, req.outTradeNo)) == |s.db.orders|;
  }

  lemma Opens(acts: map<int, Activity>, s: Sys, req: JoinReq, team: string) returns (next: Sys)
    requires ActivitiesOk(acts) && Reachable(acts, s) && CanOpen(acts, s, req, team)
    ensures Reachable(acts, next)
    ensures var act := acts[req.activity];
            next == s.(procs := s.procs + [Done],
                       db := s.db.(teams := s.db.teams[team := Team(req.activity, act.target, 0, 1, Progress, act.validTime * MINUTE)],
                                   orders := s.db.orders + [NewOrder(act, req, team, 0)]))
  {
    FreshUser(acts, s, req);
    var i, act := |s.procs|, acts[req.activity];
    var db := s.db.(teams := s.db.teams[team := Team(req.activity, act.target, 0, 1, Progress, act.validTime * MINUTE)],
                    orders := s.db.orders + [NewOrder(act, req, team, 0)]);
    var t := s.(procs := s.procs + [JoinStart(req)]);
    OpenSteps(acts, t, req, team, i, db);
    assert t == Put(t, i, JoinStart(req));
    Next(acts, s, NewJoin(req));
    Next(acts, t, Advance(i, OK));
    Next(acts, Put(t, i, JoinCount(req)), Advance(i, OK));
    Next(acts, Put(t, i, JoinTx(req, 0)), Advance(i, Env(false, 0, team)));
    next := Put(t, i, Done).(db := db);
    assert next.procs == s.procs + [Done];
  }

  /** No join holds a seat and no compensation was lost. */
  ghost predicate Quiet(s: Sys) {
    s.lost == NO_KEYS && forall i :: 0 <= i < |s.procs| ==> s.procs[i].Done? || s.procs[i].MsgAck?
  }

  lemma QuietGate(acts: map<int, Activity>, s: Sys, team: string)
    requires ActivitiesOk(acts) && Reachable(acts, s) && team in s.db.teams && Quiet(s)
    requires s.db.teams[team].lock + Count(s.db.orders, Uncredited(team)) <= s.db.teams[team].target
    ensures s.db.teams[team].activity in acts && GateAdmits(acts, s, team)
  {
    CountZero(s.procs, Holds((s.db.teams[team].activity, team)));
    GateAdmitsExactly(acts, s, team);
  }

  /** The team has a seat for a newcomer in both stores. */
  ghost predicate HasRoom(acts: map<int, Activity>, db: Db, req: JoinReq) {
    && req.team != "" && req.team in db.teams
    && var m := db.teams[req.team];
    && req.activity == m.activity && m.lock < m.target
    && m.lock + Count(db.orders, Uncredited(req.team)) <= m.target
    && req.activity in acts && acts[req.activity].takeLimit == 0
    && (forall i :: 0 <= i < |db.orders| ==> db.orders[i].user != req.user)
  }

  /** A newcomer joins such a team. */
  lemma NewcomerJoins(acts: map<int, Activity>, s: Sys, req: JoinReq) returns (next: Sys)
    requires ActivitiesOk(acts) && Reachable(acts, s) && Quiet(s) && HasRoom(acts, s.db, req)
    ensures Reachable(acts, next) && Quiet(next) && next.redis.refundLocks == s.redis.refundLocks
    ensures var m := s.db.teams[req.team];
            next.db == s.db.(teams := s.db.teams[req.team := m.(lock := m.lock + 1)],
                             orders := s.db.orders + [NewOrder(acts[req.activity], req, req.team, 0)])
  {
    FreshUser(acts, s, req);
    QuietGate(acts, s, req.team);
    CounterConservation(acts, s, req.team);
    next := Joins(acts, s, req);
  }

  /** A payment that finds the team as it read it, and does not fill one that has left status 0. */
  lemma Pays(acts: map<int, Activity>, s: Sys, row: nat, payTime: int) returns (next: Sys)
    requires ActivitiesOk(acts) && Reachable(acts, s) && row < |s.db.orders| && s.db.orders[row].status == OrderCreate
    requires var t := s.db.orders[row].team;
             && t in s.db.teams && payTime < s.db.teams[t].validEnd
             && (s.db.teams[t].target - s.db.teams[t].complete == 1 ==> s.db.teams[t].status == Progress)
    ensures Reachable(acts, next) && next == s.(procs := s.procs + [Done], db := next.db)
    ensures var o := s.db.orders[row]; var m := s.db.teams[o.team];
            && next.db.orders == s.db.orders[row := o.(status := OrderComplete, paidAt := Some(payTime))]
            && next.db.teams == s.db.teams[o.team := m.(complete := m.complete + 1,
                                  status := if m.target - m.complete == 1 then Complete else m.status)]
            && |next.db.tasks| == |s.db.tasks| + Bit(m.target - m.complete == 1)
            && next.db.tasks[..|s.db.tasks|] == s.db.tasks
  {
    var o := s.db.orders[row];
    var t := SettlementReads(acts, s, row, payTime);
    var i := |s.procs|;
    SettlementOutcome(acts, t, i);
    var p := t.procs[i];
    var db := SettleTx(t.db, p.user, p.outTradeNo, p.payTime, p.team, p.snap).db;
    PairsAreUnique(acts, s);
    SettleFindsRow(s.db, o.user, o.outTradeNo, row);
    Commits(acts, t, i, db);
    next := Put(t, i, Done).(db := db);
    assert next.procs == s.procs + [Done];
  }

  lemma RefundCommits(acts: map<int, Activity>, s: Sys, row: nat, kind: RefundType) returns (next: Sys)
    requires ActivitiesOk(acts) && Reachable(acts, s) && row < |s.db.orders| && s.db.orders[row].status == RefundFrom(kind)
    requires var o := s.db.orders[row];
             o.team in s.db.teams && GetRefundStrategy(s.db.teams[o.team].status, o.status) == Some(kind)
    ensures Reachable(acts, next) && next == s.(procs := s.procs + [Done], db := next.db)
    ensures var o := s.db.orders[row];
            RefundTx(s.db, kind, o.user, row, o.team, s.db.teams[o.team].activity, o.outTradeNo) == Commit(next.db)
  {
    var o := s.db.orders[row];
    var t := RefundReads(acts, s, row, kind);
    var db := RefundTx(s.db, kind, o.user, row, o.team, s.db.teams[o.team].activity, o.outTradeNo).db;
    Commits(acts, t, |s.procs|, db);
    next := Put(t, |s.procs|, Done).(db := db);
    assert next.procs == s.procs + [Done];
  }
}
