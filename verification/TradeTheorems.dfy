/** What holds in every state of every run, however requests interleave, snapshots age, transactions
    fail and compensations get lost. */
module TradeTheorems {
  import opened Counting
  import opened TradeModel
  import opened TradeTransactions
  import opened TradeInvariant
  import opened TradeProtocol
  import opened TradeSafety

  lemma {:induction false} RunKeepsInv(acts: map<int, Activity>, states: seq<Sys>, labels: seq<Label>, n: nat)
    requires ActivitiesOk(acts) && IsRun(acts, states, labels) && n <= |labels|
    ensures Inv(acts, states[n])
  {
    if n == 0 {
      EmptyOk(acts);
    } else {
      RunKeepsInv(acts, states, labels, n - 1);
      assert Moves(acts, states[n - 1], labels[n - 1], states[n]);
      StepKeepsInv(acts, states[n - 1], labels[n - 1]);
    }
  }

  lemma MoveEvolves(acts: map<int, Activity>, states: seq<Sys>, labels: seq<Label>, n: nat)
    requires ActivitiesOk(acts) && IsRun(acts, states, labels) && n < |labels|
    ensures Evolves(states[n].db, states[n + 1].db)
  {
    RunKeepsInv(acts, states, labels, n);
    assert Moves(acts, states[n], labels[n], states[n + 1]);
    StepKeepsInv(acts, states[n], labels[n]);
  }

  /** Between any two points of a run the tables only evolve forward. */
  lemma {:induction false} RunEvolves(acts: map<int, Activity>, states: seq<Sys>, labels: seq<Label>, n: nat, m: nat)
    requires ActivitiesOk(acts) && IsRun(acts, states, labels) && n <= m <= |labels|
    ensures Evolves(states[n].db, states[m].db)
    decreases m - n
  {
    if n == m {
      EvolvesReflexive(states[n].db);
    } else {
      RunEvolves(acts, states, labels, n, m - 1);
      MoveEvolves(acts, states, labels, m - 1);
      RowsHaveTeams(acts, states, labels, n);
      EvolvesTransitive(states[n].db, states[m - 1].db, states[m].db);
    }
  }

  lemma RowsHaveTeams(acts: map<int, Activity>, states: seq<Sys>, labels: seq<Label>, n: nat)
    requires ActivitiesOk(acts) && IsRun(acts, states, labels) && n <= |labels|
    ensures var db := states[n].db; forall i: nat :: i < |db.orders| ==> db.orders[i].team in db.teams
  {
    RunKeepsInv(acts, states, labels, n);
    var db := states[n].db;
    forall i: nat | i < |db.orders|
      ensures db.orders[i].team in db.teams
    {
      assert RowOk(db, i);
    }
  }

  lemma ReachableInv(acts: map<int, Activity>, s: Sys)
    requires ActivitiesOk(acts) && Reachable(acts, s)
    ensures Inv(acts, s)
  {
    var states, labels :| IsRun(acts, states, labels) && s == states[|labels|];
    RunKeepsInv(acts, states, labels, |labels|);
  }

  // ---- conservation ---------------------------------------------------------------------------

  /** stock = recovery + (lock_count - 1) + unfinished joins + lost compensations + unrecovered refunds;
      the table terms are 0 for a key without a team row. */
  lemma SeatAccounting(acts: map<int, Activity>, s: Sys, activity: int, team: string)
    requires ActivitiesOk(acts) && Reachable(acts, s)
    ensures var k := (activity, team);
            Get(s.redis.stock, k) == Get(s.redis.recovery, k) + Count(s.procs, Holds(k)) + Get(s.lost, k) +
              (if team in s.db.teams && s.db.teams[team].activity == activity
               then s.db.teams[team].lock - 1 + Count(s.db.orders, Uncredited(team)) else 0)
  {
    ReachableInv(acts, s);
    assert SeatsOk(s, (activity, team));
  }

  /** lock_count and complete_count count the team's rows, within the target. */
  lemma CounterConservation(acts: map<int, Activity>, s: Sys, team: string)
    requires ActivitiesOk(acts) && Reachable(acts, s) && team in s.db.teams
    ensures var m := s.db.teams[team];
            && m.lock == Count(s.db.orders, LiveIn(team)) && m.complete == Count(s.db.orders, PaidIn(team))
            && 0 <= m.complete <= m.lock <= m.target
            && m.activity in acts && m.target == acts[m.activity].target
  {
    ReachableInv(acts, s);
    assert TeamOk(acts, s.db, team);
    CountersOrdered(acts, s.db, team);
  }

  // ---- the Redis gate -------------------------------------------------------------------------

  /** The script's second refusal never fires: the slots taken are among 1..stock, so that the quota alone
      decides. */
  lemma SlotIsFree(acts: map<int, Activity>, s: Sys, k: Key, target: nat)
    requires ActivitiesOk(acts) && Reachable(acts, s)
    ensures forall n: nat :: (k, n) in s.redis.slots ==> 1 <= n <= Get(s.redis.stock, k)
    ensures OccupyScript(s.redis, k, target).1 <==> Get(s.redis.stock, k) < target + Get(s.redis.recovery, k)
  {
    ReachableInv(acts, s);
    forall n: nat | (k, n) in s.redis.slots
      ensures 1 <= n <= Get(s.redis.stock, k)
    {
      assert SlotOk(s.redis, (k, n));
    }
  }

  /** A slot key that expires is gone, and no join of any team is answered differently for it. */
  lemma SlotExpiryIsHarmless(acts: map<int, Activity>, s: Sys, k: Key, n: nat, other: Key, target: nat)
    requires ActivitiesOk(acts) && Reachable(acts, s)
    ensures var next := Step(acts, s, SlotExpires(k, n));
            && (forall x: (Key, nat) :: x in next.redis.slots <==> x in s.redis.slots && x != (k, n))
            && next == s.(redis := s.redis.(slots := next.redis.slots))
            && OccupyScript(next.redis, other, target).1 == OccupyScript(s.redis, other, target).1
  {
    SlotIsFree(acts, s, other, target);
  }

  /** The key under which joins of a team meet, and the quota the script is given for it. */
  predicate GateAdmits(acts: map<int, Activity>, s: Sys, team: string)
    requires team in s.db.teams && s.db.teams[team].activity in acts
  {
    var a := s.db.teams[team].activity;
    OccupyScript(s.redis, (a, team), acts[a].target).1
  }

  /** Exactly when the gate admits a join of an existing team. */
  lemma GateAdmitsExactly(acts: map<int, Activity>, s: Sys, team: string)
    requires ActivitiesOk(acts) && Reachable(acts, s) && team in s.db.teams
    ensures s.db.teams[team].activity in acts
    ensures var m := s.db.teams[team]; var k := (m.activity, team);
            GateAdmits(acts, s, team)
            <==> m.lock + Count(s.procs, Holds(k)) + Get(s.lost, k) + Count(s.db.orders, Uncredited(team)) <= m.target
  {
    CounterConservation(acts, s, team);
    var k := (s.db.teams[team].activity, team);
    SeatAccounting(acts, s, k.0, team);
    SlotIsFree(acts, s, k, acts[k.0].target);
  }

  /** With nothing in flight, lost or waiting for recovery, the gate admits whenever the table would. */
  lemma NoWrongfulRefusal(acts: map<int, Activity>, s: Sys, team: string)
    requires ActivitiesOk(acts) && Reachable(acts, s) && team in s.db.teams
    requires var k := (s.db.teams[team].activity, team);
             Count(s.procs, Holds(k)) == 0 && Get(s.lost, k) == 0 && Count(s.db.orders, Uncredited(team)) == 0
    ensures s.db.teams[team].activity in acts && GateAdmits(acts, s, team)
  {
    GateAdmitsExactly(acts, s, team);
    CounterConservation(acts, s, team);
  }

  /** The gate lets at most one join through beyond the seats the table still has. */
  lemma AdmissionBound(acts: map<int, Activity>, s: Sys, team: string)
    requires ActivitiesOk(acts) && Reachable(acts, s) && team in s.db.teams
    ensures var m := s.db.teams[team]; var k := (m.activity, team);
            && Get(s.redis.stock, k) <= m.target + Get(s.redis.recovery, k)
            && m.lock + Count(s.procs, Holds(k)) <= m.target + 1
  {
    CounterConservation(acts, s, team);
    SeatAccounting(acts, s, s.db.teams[team].activity, team);
    ReachableInv(acts, s);
    assert QuotaOk(acts, s.redis, (s.db.teams[team].activity, team));
  }

  /** A join of an existing team whose transaction fails gives its seat back to the recovery counter, or, if that
      fails too, to none: exactly one of the two rises, by one, and nothing else changes. */
  lemma FailedJoinReturnsSeat(acts: map<int, Activity>, s: Sys, i: nat, lost: bool)
    requires i < |s.procs| && s.procs[i].JoinTx? && s.procs[i].req.team != ""
    ensures var k := (s.procs[i].req.activity, s.procs[i].req.team);
            var next := Step(acts, Step(acts, s, Advance(i, Env(true, 0, ""))), Advance(i, Env(lost, 0, "")));
            && next.db == s.db && next.procs == s.procs[i := Done] && next.stuck == s.stuck
            && next.redis == s.redis.(recovery := next.redis.recovery)
            && Get(next.redis.recovery, k) + Get(next.lost, k) == Get(s.redis.recovery, k) + Get(s.lost, k) + 1
            && Get(next.lost, k) == Get(s.lost, k) + Bit(lost)
            && (forall j: Key :: j != k ==>
                  Get(next.redis.recovery, j) == Get(s.redis.recovery, j) && Get(next.lost, j) == Get(s.lost, j))
  {
    assert s.procs[i := JoinCompensate(s.procs[i].req)][i := Done] == s.procs[i := Done];
  }

  // ---- take limit -----------------------------------------------------------------------------

  lemma SuffixesAreCounted(acts: map<int, Activity>, db: Db, a: int, u: string, k: int)
    requires TakerOk(acts, db, a, u)
    ensures HasSuffix(db, a, u, k) <==> 1 <= k <= Count(db.orders, OfTaker(a, u))
  {
    var n := Count(db.orders, OfTaker(a, u));
    if HasSuffix(db, a, u, k) {
      var i :| 0 <= i < |db.orders| && OfTaker(a, u)(db.orders[i]) && db.orders[i].bizId == BizKey(a, u, k);
      assert SuffixWithin(db.orders[i], n);
      var j :| 1 <= j <= n && db.orders[i].bizId == BizKey(db.orders[i].activity, db.orders[i].user, j);
    }
  }

  /** A user's biz_id suffixes in an activity are exactly 1..n, n being the number of their orders, and n
      stays within a positive take limit although no lock guards the count. */
  lemma TakeLimitHolds(acts: map<int, Activity>, s: Sys, activity: int, user: string)
    requires ActivitiesOk(acts) && Reachable(acts, s)
    ensures var n := Count(s.db.orders, OfTaker(activity, user));
            && (forall k :: HasSuffix(s.db, activity, user, k) <==> 1 <= k <= n)
            && (activity in acts && acts[activity].takeLimit > 0 ==> n <= acts[activity].takeLimit)
  {
    assert TakerOk(acts, s.db, activity, user) by {
      ReachableInv(acts, s);
    }
    forall k
      ensures HasSuffix(s.db, activity, user, k) <==> 1 <= k <= Count(s.db.orders, OfTaker(activity, user))
    {
      SuffixesAreCounted(acts, s.db, activity, user, k);
    }
  }

  // ---- what each transaction does with a stale snapshot --------------------------------------

  /** What a process of a reachable state knows, with the tables it runs on in order. */
  lemma ProcessKnows(acts: map<int, Activity>, s: Sys, i: nat)
    requires ActivitiesOk(acts) && Reachable(acts, s) && i < |s.procs|
    ensures DbOk(acts, s.db) && ProcOk(acts, s.db, s.procs[i])
  {
    ReachableInv(acts, s);
  }

  /** A lock commits exactly when its count is still true and there is a seat (or a new id). */
  lemma LockOutcome(acts: map<int, Activity>, s: Sys, i: nat, newTeam: string, now: int)
    requires ActivitiesOk(acts) && Reachable(acts, s) && i < |s.procs| && s.procs[i].JoinTx?
    ensures var req := s.procs[i].req;
            && req.activity in acts
            && (LockTx(s.db, acts[req.activity], req, s.procs[i].take, newTeam, now).Commit?
                <==> s.procs[i].take == Count(s.db.orders, OfTaker(req.activity, req.user))
                     && (if req.team == "" then newTeam !in s.db.teams
                         else req.team in s.db.teams && s.db.teams[req.team].lock < s.db.teams[req.team].target))
  {
    var req, take := s.procs[i].req, s.procs[i].take;
    assert TakeRead(acts, s.db, req, take)
        && (BizIdTaken(s.db.orders, BizKey(req.activity, req.user, take + 1))
            <==> take < Count(s.db.orders, OfTaker(req.activity, req.user))) by {
      ProcessKnows(acts, s, i);
      StaleCountCaught(acts, s.db, req, take);
    }
  }

  /** A settlement commits exactly when its order is still unpaid and, if its snapshot says it is the last
      one, the team is still in progress. The seat guard complete_count < target_count never decides. */
  lemma SettlementOutcome(acts: map<int, Activity>, s: Sys, i: nat)
    requires ActivitiesOk(acts) && Reachable(acts, s) && i < |s.procs| && s.procs[i].SettleCommit?
    ensures var p := s.procs[i];
            && p.row < |s.db.orders| && p.team in s.db.teams
            && (SettleTx(s.db, p.user, p.outTradeNo, p.payTime, p.team, p.snap).Commit?
                <==> s.db.orders[p.row].status == OrderCreate
                     && (p.snap.target - p.snap.complete == 1 ==> s.db.teams[p.team].status == Progress))
  {
    ProcessKnows(acts, s, i);
    var p := s.procs[i];
    assert RowOk(s.db, p.row);
    SettleFindsRow(s.db, p.user, p.outTradeNo, p.row);
    if s.db.orders[p.row].status == OrderCreate {
      SettleGuardHolds(acts, s.db, p.row);
    }
  }

  /** The settlement that fills a team in progress marks it formed exactly when its snapshot of
      complete_count is still true. */
  lemma FormsExactlyWhenFresh(acts: map<int, Activity>, s: Sys, i: nat)
    requires ActivitiesOk(acts) && Reachable(acts, s) && i < |s.procs| && s.procs[i].SettleCommit?
    requires var p := s.procs[i];
             && p.row < |s.db.orders| && s.db.orders[p.row].status == OrderCreate
             && p.team in s.db.teams && s.db.teams[p.team].status == Progress
             && s.db.teams[p.team].complete == s.db.teams[p.team].target - 1
    ensures var p := s.procs[i];
            var next := SettleTx(s.db, p.user, p.outTradeNo, p.payTime, p.team, p.snap);
            && next.Commit? && p.team in next.db.teams
            && next.db.teams[p.team].complete == next.db.teams[p.team].target
            && (next.db.teams[p.team].status == Complete <==> p.snap.complete == s.db.teams[p.team].complete)
  {
    SettlementOutcome(acts, s, i);
    assert ProcOk(acts, s.db, s.procs[i]) by {
      ProcessKnows(acts, s, i);
    }
  }

  lemma FormationIsExact(acts: map<int, Activity>, db: Db, p: Proc, next: Db)
    requires DbOk(acts, db) && p.SettleCommit? && ProcOk(acts, db, p)
    requires SettleTx(db, p.user, p.outTradeNo, p.payTime, p.team, p.snap) == Commit(next)
    requires db.teams[p.team].status == Progress && p.team in next.teams && next.teams[p.team].status == Complete
    ensures next.teams[p.team].complete == next.teams[p.team].target <==> p.snap.complete == db.teams[p.team].complete
    ensures |next.tasks| == |db.tasks| + 1 && next.tasks[|db.tasks|].Settlement? && next.tasks[|db.tasks|].team == p.team
    ensures |next.tasks[|db.tasks|].outTradeNos| == next.teams[p.team].complete
  {
    SettleTxOk(acts, db, p.user, p.outTradeNo, p.payTime, p.row, p.snap, next);
    assert TeamOk(acts, next, p.team);
    PaidNosLength(next.orders, p.team);
  }

  /** A settlement that marks a team formed leaves it full exactly when its snapshot of complete_count is still
      true, and its task lists as many orders as are paid then. With a stale snapshot a payment was refunded in
      between: the team is formed too early and the list is short. */
  lemma FormedIsFullExactlyWhenFresh(acts: map<int, Activity>, s: Sys, i: nat, next: Db)
    requires ActivitiesOk(acts) && Reachable(acts, s) && i < |s.procs| && s.procs[i].SettleCommit?
    requires var p := s.procs[i];
             && SettleTx(s.db, p.user, p.outTradeNo, p.payTime, p.team, p.snap) == Commit(next)
             && p.team in s.db.teams && s.db.teams[p.team].status == Progress
             && p.team in next.teams && next.teams[p.team].status == Complete
    ensures var p := s.procs[i];
            && (next.teams[p.team].complete == next.teams[p.team].target <==> p.snap.complete == s.db.teams[p.team].complete)
            && |next.tasks| == |s.db.tasks| + 1 && next.tasks[|s.db.tasks|].Settlement?
            && |next.tasks[|s.db.tasks|].outTradeNos| == next.teams[p.team].complete
  {
    ProcessKnows(acts, s, i);
    FormationIsExact(acts, s.db, s.procs[i], next);
  }

  /** A team that has left status 0 and lacks a payment, because it lost members or was formed too early, takes
      payments again. With a fresh snapshot the one that would fill it rolls back; whatever the snapshot, that
      one commits exactly when the snapshot is stale. */
  lemma BrokenTeamRefusesLastPayment(acts: map<int, Activity>, s: Sys, i: nat)
    requires ActivitiesOk(acts) && Reachable(acts, s) && i < |s.procs| && s.procs[i].SettleCommit?
    requires var p := s.procs[i];
             p.team in s.db.teams && s.db.teams[p.team].status != Progress
    ensures var p := s.procs[i]; var m := s.db.teams[p.team];
            var commits := SettleTx(s.db, p.user, p.outTradeNo, p.payTime, p.team, p.snap).Commit?;
            && p.row < |s.db.orders|
            && (p.snap == m ==> (commits <==> s.db.orders[p.row].status == OrderCreate && m.complete + 1 < m.target))
            && (m.complete + 1 == m.target ==>
                  (commits <==> s.db.orders[p.row].status == OrderCreate && p.snap.complete != m.complete))
  {
    SettlementOutcome(acts, s, i);
    ProcessKnows(acts, s, i);
    BrokenTeamOutcome(acts, s.db, s.procs[i]);
  }

  lemma BrokenTeamOutcome(acts: map<int, Activity>, db: Db, p: Proc)
    requires DbOk(acts, db) && p.SettleCommit? && ProcOk(acts, db, p)
    ensures p.snap.target == db.teams[p.team].target
    ensures db.orders[p.row].status == OrderCreate ==> db.teams[p.team].complete < db.teams[p.team].target
  {
    if db.orders[p.row].status == OrderCreate {
      SettleGuardHolds(acts, db, p.row);
    }
  }

  /** A refund commits exactly when the order still has the status its strategy was chosen for. */
  lemma RefundOutcome(acts: map<int, Activity>, s: Sys, i: nat)
    requires ActivitiesOk(acts) && Reachable(acts, s) && i < |s.procs| && s.procs[i].RefundCommit?
    ensures var p := s.procs[i];
            && p.row < |s.db.orders|
            && (RefundTx(s.db, p.kind, p.user, p.row, p.team, p.snap.activity, p.outTradeNo).Commit?
                <==> s.db.orders[p.row].status == RefundFrom(p.kind))
  {
    ProcessKnows(acts, s, i);
    assert RowOk(s.db, s.procs[i].row);
  }

  lemma RefundStatus(acts: map<int, Activity>, db: Db, kind: RefundType, row: nat, next: Db)
    requires DbOk(acts, db) && row < |db.orders| && FormedIfPaid(db, kind, row)
    requires var o := db.orders[row];
             RefundTx(db, kind, o.user, row, o.team, o.activity, o.outTradeNo) == Commit(next)
    ensures var t := db.orders[row].team;
            && t in db.teams && t in next.teams
            && (kind != PaidFormed ==> next.teams[t].status == db.teams[t].status)
            && (kind == PaidFormed ==>
                  next.teams[t].status == if Count(next.orders, PaidIn(t)) == 0 then Fail else CompleteFail)
  {
    RefundTxTeams(acts, db, kind, row, next, db.orders[row].team);
  }

  /** After a refund of a formed team the team has failed exactly when no paid order is left in it; the other
      refunds leave its status. */
  lemma RefundedTeamStatus(acts: map<int, Activity>, s: Sys, i: nat, next: Db)
    requires ActivitiesOk(acts) && Reachable(acts, s) && i < |s.procs| && s.procs[i].RefundCommit?
    requires var p := s.procs[i];
             RefundTx(s.db, p.kind, p.user, p.row, p.team, p.snap.activity, p.outTradeNo) == Commit(next)
    ensures var p := s.procs[i];
            && p.team in s.db.teams && p.team in next.teams
            && (p.kind != PaidFormed ==> next.teams[p.team].status == s.db.teams[p.team].status)
            && (p.kind == PaidFormed ==>
                  next.teams[p.team].status == if Count(next.orders, PaidIn(p.team)) == 0 then Fail else CompleteFail)
  {
    ProcessKnows(acts, s, i);
    RefundStatus(acts, s.db, s.procs[i].kind, s.procs[i].row, next);
  }

  // ---- statuses -------------------------------------------------------------------------------

  /** A step that changes the tables is a committed transaction of the process that moved, or the note of
      a recovery. */
  lemma OnlyTransactionsWrite(acts: map<int, Activity>, s: Sys, l: Label)
    requires Step(acts, s, l).db != s.db
    ensures l.Advance? && l.i < |s.procs|
    ensures var p := s.procs[l.i]; var next := Step(acts, s, l).db;
            || (p.JoinTx? && p.req.activity in acts
                && LockTx(s.db, acts[p.req.activity], p.req, p.take, l.env.newTeam, l.env.now) == Commit(next))
            || (p.SettleCommit? && SettleTx(s.db, p.user, p.outTradeNo, p.payTime, p.team, p.snap) == Commit(next))
            || (p.RefundCommit?
                && RefundTx(s.db, p.kind, p.user, p.row, p.team, p.snap.activity, p.outTradeNo) == Commit(next))
            || (p.MsgIncr? && p.msg.row < |s.db.orders| && next == Credit(s.db, p.msg.row))
  {
  }

  /** One step moves a team's status by at most one edge: 0 to 1, 1 to 3 or 2, 3 to 2. */
  lemma StatusStepsForward(acts: map<int, Activity>, s: Sys, l: Label, team: string)
    requires ActivitiesOk(acts) && Reachable(acts, s) && Assumed(acts, s, l) && team in s.db.teams
    ensures var next := Step(acts, s, l).db;
            team in next.teams && StatusStep(s.db.teams[team].status, next.teams[team].status)
  {
    var next := Step(acts, s, l).db;
    if next != s.db {
      OnlyTransactionsWrite(acts, s, l);
      ProcessKnows(acts, s, l.i);
      WriteStatus(acts, s.db, s.procs[l.i], l.env, next, team);
    }
  }

  lemma WriteStatus(acts: map<int, Activity>, db: Db, p: Proc, env: Env, next: Db, team: string)
    requires DbOk(acts, db) && ProcOk(acts, db, p) && team in db.teams
    requires || (p.JoinTx? && p.req.activity in acts
                 && LockTx(db, acts[p.req.activity], p.req, p.take, env.newTeam, env.now) == Commit(next))
             || (p.SettleCommit? && SettleTx(db, p.user, p.outTradeNo, p.payTime, p.team, p.snap) == Commit(next))
             || (p.RefundCommit?
                 && RefundTx(db, p.kind, p.user, p.row, p.team, p.snap.activity, p.outTradeNo) == Commit(next))
             || (p.MsgIncr? && p.msg.row < |db.orders| && next == Credit(db, p.msg.row))
    ensures team in next.teams && StatusStep(db.teams[team].status, next.teams[team].status)
  {
    if p.JoinTx? {
      LockTxEvolves(acts, db, p.req, p.take, env.newTeam, env.now, next);
    } else if p.SettleCommit? {
      SettleTxShape(db, p.user, p.outTradeNo, p.payTime, p.row, p.snap, next);
      SettledEvolves(db, p.row, next);
    } else if p.RefundCommit? {
      RefundTxEvolves(acts, db, p.kind, p.row, next);
    }
  }

  /** Over any stretch of a run a team's status only moves forward, an order's too, and a team or order,
      once there, stays. A failed team and a closed order are final. */
  lemma StatusesOnlyMoveForward(
    acts: map<int, Activity>, states: seq<Sys>, labels: seq<Label>, n: nat, m: nat, team: string, row: nat)
    requires ActivitiesOk(acts) && IsRun(acts, states, labels) && n <= m <= |labels|
    requires team in states[n].db.teams && row < |states[n].db.orders|
    ensures var db, later := states[n].db, states[m].db;
            && team in later.teams && StatusForward(db.teams[team].status, later.teams[team].status)
            && (db.teams[team].status == Fail ==> later.teams[team].status == Fail)
            && row < |later.orders| && OrderForward(db.orders[row].status, later.orders[row].status)
            && (db.orders[row].status == OrderClose ==> later.orders[row].status == OrderClose)
            && later.orders[row].team == db.orders[row].team && later.orders[row].bizId == db.orders[row].bizId
  {
    RunEvolves(acts, states, labels, n, m);
    var db, later := states[n].db, states[m].db;
    assert RowEvolves(db.orders[row], later.orders[row]);
    assert TeamEvolves(db.teams[team], later.teams[team]);
  }

  // ---- formed and full ------------------------------------------------------------------------

  /** Marked formed exactly when all seats are paid. */
  predicate FormedIfFull(db: Db, team: string)
    requires team in db.teams
  {
    db.teams[team].status == Complete <==> db.teams[team].complete == db.teams[team].target
  }

  /** The writes that part the two: the payment that fills the team, with a stale count; a payment whose stale
      count says it is the last one; and the refund of a payment in a formed team by the strategy for unformed
      ones, chosen before the team was formed. */
  predicate PartsFormedAndFull(db: Db, p: Proc, team: string)
    requires team in db.teams
  {
    var m := db.teams[team];
    || (p.SettleCommit? && p.team == team && m.complete == m.target - 1 && p.snap.complete != m.complete)
    || (p.SettleCommit? && p.team == team && m.complete < m.target - 1 && m.status == Progress
        && p.snap.complete == m.target - 1)
    || (p.RefundCommit? && p.team == team && p.kind == PaidUnformed && m.status == Complete)
  }

  /** A committed settlement keeps the two together except in the first two ways. */
  lemma SettlementParts(acts: map<int, Activity>, db: Db, p: Proc, next: Db, team: string)
    requires DbOk(acts, db) && ProcOk(acts, db, p) && p.SettleCommit? && team in db.teams && FormedIfFull(db, team)
    requires SettleTx(db, p.user, p.outTradeNo, p.payTime, p.team, p.snap) == Commit(next)
    ensures team in next.teams && (!FormedIfFull(next, team) <==> PartsFormedAndFull(db, p, team))
  {
    SettleFindsRow(db, p.user, p.outTradeNo, p.row);
    SettleGuardHolds(acts, db, p.row);
  }

  /** A committed refund keeps them together except in the third. */
  lemma RefundParts(acts: map<int, Activity>, db: Db, p: Proc, next: Db, team: string)
    requires ActivitiesOk(acts) && DbOk(acts, db) && ProcOk(acts, db, p) && p.RefundCommit?
    requires team in db.teams && FormedIfFull(db, team)
    requires RefundTx(db, p.kind, p.user, p.row, p.team, p.snap.activity, p.outTradeNo) == Commit(next)
    ensures team in next.teams && (!FormedIfFull(next, team) <==> PartsFormedAndFull(db, p, team))
  {
    assert RowOk(db, p.row) && TeamOk(acts, db, team);
    CountersOrdered(acts, db, team);
    if p.team == team && p.kind == UnpaidUnlock {
      CountStrict(db.orders, p.row, PaidIn(team), LiveIn(team));
    }
  }

  /** In every reachable state in which a team is formed exactly when it is full, a step parts the two exactly when
      it is one of these three writes, committed. */
  lemma FormedAndFullPartExactly(acts: map<int, Activity>, s: Sys, l: Label, team: string)
    requires ActivitiesOk(acts) && Reachable(acts, s) && Assumed(acts, s, l)
    requires team in s.db.teams && FormedIfFull(s.db, team)
    ensures var next := Step(acts, s, l).db;
            && team in next.teams
            && (!FormedIfFull(next, team)
                <==> next != s.db && l.Advance? && l.i < |s.procs| && PartsFormedAndFull(s.db, s.procs[l.i], team))
  {
    var next := Step(acts, s, l).db;
    if next != s.db {
      OnlyTransactionsWrite(acts, s, l);
      ProcessKnows(acts, s, l.i);
      var p := s.procs[l.i];
      if p.SettleCommit? {
        SettlementParts(acts, s.db, p, next, team);
      } else if p.RefundCommit? {
        RefundParts(acts, s.db, p, next, team);
      }
    }
  }

  /** A team that a step adds is neither formed nor full. */
  lemma NewTeamIsUnformed(acts: map<int, Activity>, s: Sys, l: Label, team: string)
    requires ActivitiesOk(acts) && team !in s.db.teams && team in Step(acts, s, l).db.teams
    ensures FormedIfFull(Step(acts, s, l).db, team)
  {
    OnlyTransactionsWrite(acts, s, l);
  }

  /** None of the three writes is committed by the step. */
  ghost predicate PartsNothing(acts: map<int, Activity>, s: Sys, l: Label) {
    Step(acts, s, l).db != s.db && l.Advance? && l.i < |s.procs| ==>
      forall team :: team in s.db.teams ==> !PartsFormedAndFull(s.db, s.procs[l.i], team)
  }

  /** So as long as none of them happens, every team of the run is formed exactly when it is full. */
  lemma {:induction false} FormedIsFullUntilParted(acts: map<int, Activity>, states: seq<Sys>, labels: seq<Label>, n: nat, team: string)
    requires ActivitiesOk(acts) && IsRun(acts, states, labels) && n <= |labels|
    requires forall j {:trigger labels[j]} :: 0 <= j < n ==> PartsNothing(acts, states[j], labels[j])
    requires team in states[n].db.teams
    ensures FormedIfFull(states[n].db, team)
  {
    if n > 0 {
      var s, l := states[n - 1], labels[n - 1];
      assert Moves(acts, s, l, states[n]) && PartsNothing(acts, s, l);
      if team in s.db.teams {
        FormedIsFullUntilParted(acts, states, labels, n - 1, team);
        StateIsReachable(acts, states, labels, n - 1);
        FormedAndFullPartExactly(acts, s, l, team);
      } else {
        NewTeamIsUnformed(acts, s, l, team);
      }
    }
  }

  lemma StateIsReachable(acts: map<int, Activity>, states: seq<Sys>, labels: seq<Label>, n: nat)
    requires IsRun(acts, states, labels) && n <= |labels|
    ensures Reachable(acts, states[n])
  {
    var before, taken := states[..n + 1], labels[..n];
    forall j | 0 <= j < |taken|
      ensures Moves(acts, before[j], taken[j], before[j + 1])
    {
      assert taken[j] == labels[j];
    }
    assert IsRun(acts, before, taken) && states[n] == before[|taken|];
  }

  // ---- the outbox -----------------------------------------------------------------------------

  /** A team has one settlement task exactly when its status is not 0, an order has one refund task
      exactly when it is closed, and there are no others. */
  lemma OutboxMirrorsTables(acts: map<int, Activity>, s: Sys, team: string, row: nat)
    requires ActivitiesOk(acts) && Reachable(acts, s)
    ensures Count(s.db.tasks, SettlementOf(team)) == Bit(team in s.db.teams && s.db.teams[team].status != Progress)
    ensures Count(s.db.tasks, RefundOf(row)) == Bit(row < |s.db.orders| && s.db.orders[row].status == OrderClose)
  {
    ReachableInv(acts, s);
    assert TeamOk(acts, s.db, team) && RefundTasksOk(s.db, row);
  }

  // ---- refund recovery ------------------------------------------------------------------------

  /** The recovery counter rises at most once for an order, and only after the order is closed, under any
      redelivery, concurrent consumers, Redis failures and consumer deaths. */
  lemma RecoveredAtMostOnce(acts: map<int, Activity>, s: Sys, row: nat)
    requires ActivitiesOk(acts) && Reachable(acts, s) && row < |s.db.orders|
    ensures s.db.orders[row].credits <= 1
    ensures s.db.orders[row].credits == 1 ==> s.db.orders[row].status == OrderClose
  {
    ReachableInv(acts, s);
    assert RefundLockOk(s, row) && RowOk(s.db, row);
  }

  /** Once an order's messages are all handled, and there was one, the recovery has happened exactly once
      unless some consumer was cut off with the refund lock set; then it never happened. */
  lemma RecoveredExactlyOnce(acts: map<int, Activity>, s: Sys, row: nat)
    requires ActivitiesOk(acts) && Reachable(acts, s) && row < |s.db.orders|
    requires Count(s.procs, Published(row)) > 0 && Count(s.procs, Pending(row)) == 0
    ensures s.db.orders[row].credits == if row in s.stuck then 0 else 1
  {
    ReachableInv(acts, s);
    assert RefundLockOk(s, row) && HandledOk(s, row);
    CountMono(s.procs, Recovering(row), Pending(row));
  }

  /** A refund lock left behind blocks the recovery: it stays, and while it is there the order is neither
      recovered nor under recovery. */
  lemma StuckNeverRecovers(acts: map<int, Activity>, s: Sys, row: nat)
    requires ActivitiesOk(acts) && Reachable(acts, s) && row in s.stuck
    ensures row < |s.db.orders| ==> s.db.orders[row].credits == 0
    ensures row in s.redis.refundLocks && Count(s.procs, Recovering(row)) == 0
    ensures forall l: Label :: row in Step(acts, s, l).stuck
  {
    ReachableInv(acts, s);
    assert RefundLockOk(s, row);
    forall l: Label
      ensures row in Step(acts, s, l).stuck
    {
      StuckStays(acts, s, row, l);
    }
  }

  lemma StuckStays(acts: map<int, Activity>, s: Sys, row: nat, l: Label)
    requires row in s.stuck
    ensures row in Step(acts, s, l).stuck
  {
  }
}
