/** What the tables satisfy after every transaction, and how they may evolve. */
module TradeInvariant {
  import opened Counting
  import opened TradeModel
  import opened TradeTransactions

  ghost predicate ActivitiesOk(acts: map<int, Activity>) {
    forall a :: a in acts ==> acts[a].target >= 1
  }

  /** Counter conservation: lock_count and complete_count are the numbers of the team's orders in
      status 0 or 1 and in status 1, there are no more than target of them, and the team has its
      one settlement task exactly when its status is not 0. */
  ghost predicate TeamOk(acts: map<int, Activity>, db: Db, t: string) {
    if t in db.teams then
      var m := db.teams[t];
      && m.activity in acts && m.target == acts[m.activity].target
      && m.lock == Count(db.orders, LiveIn(t))
      && m.complete == Count(db.orders, PaidIn(t))
      && m.lock <= m.target
      && Count(db.tasks, SettlementOf(t)) == Bit(m.status != Progress)
    else
      && Count(db.orders, LiveIn(t)) == 0
      && Count(db.orders, PaidIn(t)) == 0
      && Count(db.tasks, SettlementOf(t)) == 0
  }

  ghost predicate RowOk(db: Db, i: nat)
    requires i < |db.orders|
  {
    var o := db.orders[i];
    && o.team in db.teams && o.activity == db.teams[o.team].activity
    && (o.credits > 0 ==> o.status == OrderClose)
    && (o.status == OrderCreate ==> o.paidAt == None)
    && (o.status == OrderComplete ==> o.paidAt.Some?)
  }

  /** An order is closed exactly when one refund task exists for it; otherwise none does. */
  ghost predicate RefundTasksOk(db: Db, i: nat) {
    Count(db.tasks, RefundOf(i)) == Bit(i < |db.orders| && db.orders[i].status == OrderClose)
  }

  /** A refund task names the order, team and activity it was written for. */
  ghost predicate TaskOk(db: Db, k: Task) {
    k.Refund? ==>
      && k.row < |db.orders| && db.orders[k.row].status == OrderClose
      && k.team == db.orders[k.row].team && k.activity == db.orders[k.row].activity
  }

  /** A (user, out_trade_no) pair names at most one order. */
  ghost predicate PairsUnique(db: Db) {
    forall i, j :: 0 <= i < j < |db.orders| ==>
      db.orders[i].user != db.orders[j].user || db.orders[i].outTradeNo != db.orders[j].outTradeNo
  }

  ghost predicate HasSuffix(db: Db, a: int, u: string, k: int) {
    exists i :: 0 <= i < |db.orders| && OfTaker(a, u)(db.orders[i]) && db.orders[i].bizId == BizKey(a, u, k)
  }

  ghost predicate SuffixWithin(o: Order, n: nat) {
    exists k :: 1 <= k <= n && o.bizId == BizKey(o.activity, o.user, k)
  }

  /** A user's biz_id suffixes in an activity are exactly 1..n, n the number of their orders, and n
      respects a positive take limit. */
  ghost predicate TakerOk(acts: map<int, Activity>, db: Db, a: int, u: string) {
    var n := Count(db.orders, OfTaker(a, u));
    && (forall k :: 1 <= k <= n ==> HasSuffix(db, a, u, k))
    && (forall i :: 0 <= i < |db.orders| && OfTaker(a, u)(db.orders[i]) ==> SuffixWithin(db.orders[i], n))
    && (a in acts && acts[a].takeLimit > 0 ==> n <= acts[a].takeLimit)
  }

  ghost predicate DbOk(acts: map<int, Activity>, db: Db) {
    && (forall t: string :: TeamOk(acts, db, t))
    && (forall i: nat :: i < |db.orders| ==> RowOk(db, i))
    && (forall i: nat :: RefundTasksOk(db, i))
    && (forall j :: 0 <= j < |db.tasks| ==> TaskOk(db, db.tasks[j]))
    && PairsUnique(db)
    && (forall a: int, u: string :: TakerOk(acts, db, a, u))
  }

  ghost predicate RowEvolves(o: Order, p: Order) {
    && p.user == o.user && p.team == o.team && p.activity == o.activity
    && p.outTradeNo == o.outTradeNo && p.bizId == o.bizId && p.endTime == o.endTime
    && OrderForward(o.status, p.status) && o.credits <= p.credits
    && (o.paidAt.Some? ==> p.paidAt == o.paidAt)
  }

  ghost predicate TeamEvolves(m: Team, n: Team) {
    m.activity == n.activity && m.target == n.target && m.validEnd == n.validEnd && StatusForward(m.status, n.status)
  }

  /** While order i stays paid, its team, once formed, stays formed. */
  ghost predicate KeepsFormed(db: Db, next: Db, i: nat)
    requires i < |db.orders| <= |next.orders|
  {
    var t := db.orders[i].team;
    (t in db.teams && t in next.teams && IsFormed(db.teams[t].status)
     && db.orders[i].status == OrderComplete && next.orders[i].status == OrderComplete)
    ==> IsFormed(next.teams[t].status)
  }

  /** How tables change over any stretch of a run: nothing is deleted, identities are kept, statuses
      only move forward. */
  ghost predicate Evolves(db: Db, next: Db) {
    && |db.orders| <= |next.orders|
    && (forall i: nat :: i < |db.orders| ==> RowEvolves(db.orders[i], next.orders[i]))
    && (forall t :: t in db.teams ==> t in next.teams && TeamEvolves(db.teams[t], next.teams[t]))
    && (forall i: nat :: i < |db.orders| ==> KeepsFormed(db, next, i))
    && |db.tasks| <= |next.tasks| && next.tasks[..|db.tasks|] == db.tasks
    && (forall a: int, u: string :: Count(db.orders, OfTaker(a, u)) <= Count(next.orders, OfTaker(a, u)))
  }

  lemma EvolvesReflexive(db: Db)
    ensures Evolves(db, db)
  {
    assert db.tasks[..|db.tasks|] == db.tasks;
  }

  lemma EvolvesTransitive(x: Db, y: Db, z: Db)
    requires Evolves(x, y) && Evolves(y, z)
    requires forall i: nat :: i < |x.orders| ==> x.orders[i].team in x.teams
    ensures Evolves(x, z)
  {
    forall i: nat | i < |x.orders|
      ensures RowEvolves(x.orders[i], z.orders[i]) && KeepsFormed(x, z, i)
    {
      assert RowEvolves(x.orders[i], y.orders[i]) && RowEvolves(y.orders[i], z.orders[i]);
      assert KeepsFormed(x, y, i) && KeepsFormed(y, z, i);
    }
    forall t | t in x.teams
      ensures t in z.teams && TeamEvolves(x.teams[t], z.teams[t])
    {
      assert TeamEvolves(x.teams[t], y.teams[t]) && TeamEvolves(y.teams[t], z.teams[t]);
    }
    assert z.tasks[..|x.tasks|] == z.tasks[..|y.tasks|][..|x.tasks|];
    forall a: int, u: string
      ensures Count(x.orders, OfTaker(a, u)) <= Count(z.orders, OfTaker(a, u))
    {
      assert Count(x.orders, OfTaker(a, u)) <= Count(y.orders, OfTaker(a, u));
    }
  }

  /** 0 <= complete_count <= lock_count <= target_count. */
  lemma CountersOrdered(acts: map<int, Activity>, db: Db, t: string)
    requires DbOk(acts, db) && t in db.teams
    ensures 0 <= db.teams[t].complete <= db.teams[t].lock <= db.teams[t].target
  {
    assert TeamOk(acts, db, t);
    CountMono(db.orders, PaidIn(t), LiveIn(t));
  }

  lemma EmptyOk(acts: map<int, Activity>)
    ensures DbOk(acts, EMPTY)
  {
  }

  // ---- LockMarketPayOrder -------------------------------------------------------------------

  /** What the lock filters established about the order count they read. */
  ghost predicate TakeRead(acts: map<int, Activity>, db: Db, req: JoinReq, take: int) {
    && req.activity in acts
    && 0 <= take <= Count(db.orders, OfTaker(req.activity, req.user))
    && (acts[req.activity].takeLimit > 0 ==> take < acts[req.activity].takeLimit)
  }

  /** The unique biz_id lets a stale count through only when it is still the true count. */
  lemma StaleCountCaught(acts: map<int, Activity>, db: Db, req: JoinReq, take: int)
    requires DbOk(acts, db) && TakeRead(acts, db, req, take)
    ensures BizIdTaken(db.orders, BizKey(req.activity, req.user, take + 1))
         <==> take < Count(db.orders, OfTaker(req.activity, req.user))
  {
    var a, u, id := req.activity, req.user, BizKey(req.activity, req.user, take + 1);
    assert TakerOk(acts, db, a, u);
    if take < Count(db.orders, OfTaker(a, u)) {
      assert HasSuffix(db, a, u, take + 1);
    } else if BizIdTaken(db.orders, id) {
      var i :| 0 <= i < |db.orders| && db.orders[i].bizId == id;
      assert TakerOk(acts, db, db.orders[i].activity, db.orders[i].user);
      TakenSuffixIsCounted(acts, db, a, u, take + 1, i);
    }
  }

  lemma TakenSuffixIsCounted(acts: map<int, Activity>, db: Db, a: int, u: string, k: int, i: nat)
    requires i < |db.orders| && db.orders[i].bizId == BizKey(a, u, k)
    requires TakerOk(acts, db, db.orders[i].activity, db.orders[i].user)
    ensures db.orders[i].activity == a && db.orders[i].user == u && 1 <= k <= Count(db.orders, OfTaker(a, u))
  {
    var o := db.orders[i];
    var n := Count(db.orders, OfTaker(o.activity, o.user));
    assert SuffixWithin(o, n);
    var j :| 1 <= j <= n && o.bizId == BizKey(o.activity, o.user, j);
  }

  lemma SuffixKept(db: Db, next: Db, a: int, u: string, k: int)
    requires HasSuffix(db, a, u, k) && |db.orders| <= |next.orders|
    requires forall i: nat :: i < |db.orders| ==> RowEvolves(db.orders[i], next.orders[i])
    ensures HasSuffix(next, a, u, k)
  {
    var i :| 0 <= i < |db.orders| && OfTaker(a, u)(db.orders[i]) && db.orders[i].bizId == BizKey(a, u, k);
    assert RowEvolves(db.orders[i], next.orders[i]);
    assert OfTaker(a, u)(next.orders[i]) && next.orders[i].bizId == BizKey(a, u, k);
  }

  lemma LockTxTaker(acts: map<int, Activity>, db: Db, o: Order, next: Db, a: int, u: string)
    requires TakerOk(acts, db, a, u) && next.orders == db.orders + [o]
    requires o.bizId == BizKey(o.activity, o.user, Count(db.orders, OfTaker(o.activity, o.user)) + 1)
    requires o.activity in acts && acts[o.activity].takeLimit > 0 ==>
               Count(db.orders, OfTaker(o.activity, o.user)) < acts[o.activity].takeLimit
    ensures TakerOk(acts, next, a, u)
  {
    CountAppend(db.orders, o, OfTaker(a, u));
    var n, m := Count(db.orders, OfTaker(a, u)), Count(next.orders, OfTaker(a, u));
    forall k | 1 <= k <= m
      ensures HasSuffix(next, a, u, k)
    {
      if k <= n {
        SuffixKept(db, next, a, u, k);
      } else {
        assert next.orders[|db.orders|] == o;
      }
    }
    forall i | 0 <= i < |next.orders| && OfTaker(a, u)(next.orders[i])
      ensures SuffixWithin(next.orders[i], m)
    {
      if i < |db.orders| {
        assert next.orders[i] == db.orders[i];
        assert SuffixWithin(db.orders[i], n);
      } else {
        assert next.orders[i] == o && m == n + 1;
      }
    }
  }

  lemma LockTxTeams(acts: map<int, Activity>, db: Db, req: JoinReq, take: int, newTeam: string, now: int, t: string)
    requires ActivitiesOk(acts) && DbOk(acts, db) && req.activity in acts
    requires LockTx(db, acts[req.activity], req, take, newTeam, now).Commit?
    ensures TeamOk(acts, LockTx(db, acts[req.activity], req, take, newTeam, now).db, t)
  {
    var id := if req.team == "" then newTeam else req.team;
    assert TeamOk(acts, db, t) && TeamOk(acts, db, id);
    CountAppend(db.orders, NewOrder(acts[req.activity], req, id, take), LiveIn(t));
    CountAppend(db.orders, NewOrder(acts[req.activity], req, id, take), PaidIn(t));
  }

  lemma LockTxRows(acts: map<int, Activity>, db: Db, req: JoinReq, take: int, newTeam: string, now: int, next: Db)
    requires DbOk(acts, db) && req.activity in acts && OwnTeam(db, req) && FreshPair(db, req)
    requires LockTx(db, acts[req.activity], req, take, newTeam, now) == Commit(next)
    ensures forall i: nat :: i < |next.orders| ==> RowOk(next, i)
    ensures forall i: nat :: RefundTasksOk(next, i)
    ensures forall j :: 0 <= j < |next.tasks| ==> TaskOk(next, next.tasks[j])
    ensures PairsUnique(next)
  {
    forall i: nat | i < |next.orders|
      ensures RowOk(next, i)
    {
      if i < |db.orders| {
        assert RowOk(db, i);
      }
    }
    forall i: nat
      ensures RefundTasksOk(next, i)
    {
      assert RefundTasksOk(db, i);
    }
    forall j | 0 <= j < |next.tasks|
      ensures TaskOk(next, next.tasks[j])
    {
      assert TaskOk(db, db.tasks[j]);
    }
    forall i, j | 0 <= i < j < |next.orders|
      ensures next.orders[i].user != next.orders[j].user || next.orders[i].outTradeNo != next.orders[j].outTradeNo
    {
      if j == |db.orders| {
        assert !OfPair(req.user, req.outTradeNo)(db.orders[i]);
      }
    }
  }

  lemma LockTxEvolves(acts: map<int, Activity>, db: Db, req: JoinReq, take: int, newTeam: string, now: int, next: Db)
    requires DbOk(acts, db) && req.activity in acts
    requires LockTx(db, acts[req.activity], req, take, newTeam, now) == Commit(next)
    ensures Evolves(db, next)
    ensures forall t :: t in db.teams ==> next.teams[t].status == db.teams[t].status
  {
    var o := next.orders[|db.orders|];
    assert next.tasks[..|db.tasks|] == db.tasks;
    forall a: int, u: string
      ensures Count(db.orders, OfTaker(a, u)) <= Count(next.orders, OfTaker(a, u))
    {
      CountAppend(db.orders, o, OfTaker(a, u));
    }
  }

  /** Whatever count the request read, a lock that commits keeps the tables in order. */
  lemma LockTxOk(acts: map<int, Activity>, db: Db, req: JoinReq, take: int, newTeam: string, now: int, next: Db)
    requires ActivitiesOk(acts) && DbOk(acts, db)
    requires TakeRead(acts, db, req, take) && OwnTeam(db, req) && FreshPair(db, req)
    requires LockTx(db, acts[req.activity], req, take, newTeam, now) == Commit(next)
    ensures DbOk(acts, next) && Evolves(db, next)
  {
    StaleCountCaught(acts, db, req, take);
    forall a: int, u: string
      ensures TakerOk(acts, next, a, u)
    {
      assert TakerOk(acts, db, a, u);
      LockTxTaker(acts, db, next.orders[|db.orders|], next, a, u);
    }
    forall t: string
      ensures TeamOk(acts, next, t)
    {
      LockTxTeams(acts, db, req, take, newTeam, now, t);
    }
    LockTxRows(acts, db, req, take, newTeam, now, next);
    LockTxEvolves(acts, db, req, take, newTeam, now, next);
  }

  // ---- row updates ----------------------------------------------------------------------------

  /** An update that keeps a row's identity keeps every table condition on users and pairs. */
  lemma RowUpdateKeeps(acts: map<int, Activity>, db: Db, row: nat, o: Order, next: Db)
    requires DbOk(acts, db) && row < |db.orders| && RowEvolves(db.orders[row], o)
    requires next.orders == db.orders[row := o]
    ensures PairsUnique(next)
    ensures forall a: int, u: string :: TakerOk(acts, next, a, u)
    ensures forall a: int, u: string :: Count(db.orders, OfTaker(a, u)) == Count(next.orders, OfTaker(a, u))
    ensures |next.orders| == |db.orders| && forall i: nat :: i < |db.orders| ==> RowEvolves(db.orders[i], next.orders[i])
  {
    forall a: int, u: string
      ensures TakerOk(acts, next, a, u)
      ensures Count(db.orders, OfTaker(a, u)) == Count(next.orders, OfTaker(a, u))
    {
      assert TakerOk(acts, db, a, u);
      CountUpdate(db.orders, row, o, OfTaker(a, u));
      var n := Count(db.orders, OfTaker(a, u));
      forall k | 1 <= k <= n
        ensures HasSuffix(next, a, u, k)
      {
        SuffixKept(db, next, a, u, k);
      }
      forall i | 0 <= i < |next.orders| && OfTaker(a, u)(next.orders[i])
        ensures SuffixWithin(next.orders[i], n)
      {
        assert SuffixWithin(db.orders[i], n);
      }
    }
  }

  lemma SameTakers(db: Db, row: nat, o: Order, next: Db)
    requires row < |db.orders| && RowEvolves(db.orders[row], o) && next.orders == db.orders[row := o]
    ensures forall a: int, u: string :: Count(db.orders, OfTaker(a, u)) == Count(next.orders, OfTaker(a, u))
  {
    forall a: int, u: string
      ensures Count(db.orders, OfTaker(a, u)) == Count(next.orders, OfTaker(a, u))
    {
      CountUpdate(db.orders, row, o, OfTaker(a, u));
    }
  }

  // ---- SettlementMarketPayOrder ---------------------------------------------------------------

  /** The rows a settlement's update finds, when pairs are unique: the one the filter read, if unpaid. */
  lemma SettleFindsRow(db: Db, user: string, outTradeNo: string, row: nat)
    requires PairsUnique(db) && row < |db.orders| && OfPair(user, outTradeNo)(db.orders[row])
    ensures Count(db.orders, UnpaidOfPair(user, outTradeNo)) == Bit(db.orders[row].status == OrderCreate)
    ensures db.orders[row].status == OrderCreate ==> FindFirst(db.orders, UnpaidOfPair(user, outTradeNo)) == row
  {
    var p := UnpaidOfPair(user, outTradeNo);
    if db.orders[row].status == OrderCreate {
      var closed := db.orders[row].(status := OrderClose);
      CountUpdate(db.orders, row, closed, p);
      CountZero(db.orders[row := closed], p);
      var f := FindFirst(db.orders, p);
      assert f == row;
    } else {
      CountZero(db.orders, p);
    }
  }

  /** complete_count < target_count cannot fail once the row update of the transaction found its row. */
  lemma SettleGuardHolds(acts: map<int, Activity>, db: Db, row: nat)
    requires DbOk(acts, db) && row < |db.orders| && db.orders[row].status == OrderCreate
    ensures db.orders[row].team in db.teams
    ensures db.teams[db.orders[row].team].complete < db.teams[db.orders[row].team].target
  {
    var t := db.orders[row].team;
    assert RowOk(db, row) && TeamOk(acts, db, t);
    CountStrict(db.orders, row, PaidIn(t), LiveIn(t));
  }

  /** What a committed settlement of order row did: counted it, and perhaps marked its team formed and stored
      one task for it. */
  ghost predicate SettledRow(db: Db, row: nat, next: Db) {
    && row < |db.orders| == |next.orders| && db.orders[row].status == OrderCreate && db.orders[row].team in db.teams
    && next.orders == db.orders[row := db.orders[row].(status := OrderComplete, paidAt := next.orders[row].paidAt)]
    && db.orders[row].paidAt == None && next.orders[row].paidAt.Some?
    && var t := db.orders[row].team; var counted := db.teams[t].(complete := db.teams[t].complete + 1);
    && counted.complete <= counted.target
    && |db.tasks| <= |next.tasks| <= |db.tasks| + 1 && next.tasks[..|db.tasks|] == db.tasks
    && if |next.tasks| == |db.tasks| then next.teams == db.teams[t := counted]
       else counted.status == Progress && next.teams == db.teams[t := counted.(status := Complete)]
            && next.tasks[|db.tasks|].Settlement? && next.tasks[|db.tasks|].team == t
            && next.tasks[|db.tasks|].outTradeNos == PaidNos(next.orders, t)
  }

  lemma SettleTxShape(db: Db, user: string, outTradeNo: string, payTime: int, row: nat, snap: Team, next: Db)
    requires PairsUnique(db) && row < |db.orders| && OfPair(user, outTradeNo)(db.orders[row]) && RowOk(db, row)
    requires SettleTx(db, user, outTradeNo, payTime, db.orders[row].team, snap) == Commit(next)
    ensures SettledRow(db, row, next)
    ensures |next.tasks| > |db.tasks| <==> snap.target - snap.complete == 1
  {
    SettleFindsRow(db, user, outTradeNo, row);
  }

  lemma {:induction false} PaidNosLength(orders: seq<Order>, team: string)
    ensures |PaidNos(orders, team)| == Count(orders, PaidIn(team))
  {
    if orders != [] {
      PaidNosLength(orders[..|orders| - 1], team);
    }
  }

  lemma {:induction false} PaidNosHold(orders: seq<Order>, team: string, row: nat)
    requires row < |orders| && PaidIn(team)(orders[row])
    ensures orders[row].outTradeNo in PaidNos(orders, team)
    decreases |orders|
  {
    var n := |orders| - 1;
    if row < n {
      PaidNosHold(orders[..n], team, row);
    }
  }

  lemma SettledTeams(acts: map<int, Activity>, db: Db, row: nat, next: Db, t: string)
    requires SettledRow(db, row, next) && TeamOk(acts, db, t)
    ensures TeamOk(acts, next, t)
  {
    CountUpdate(db.orders, row, next.orders[row], LiveIn(t));
    CountUpdate(db.orders, row, next.orders[row], PaidIn(t));
    SettledTasks(db, row, next, SettlementOf(t));
  }

  lemma SettledTasks(db: Db, row: nat, next: Db, p: Task -> bool)
    requires SettledRow(db, row, next)
    ensures Count(next.tasks, p) == Count(db.tasks, p)
              + (if |next.tasks| > |db.tasks| then Bit(p(next.tasks[|db.tasks|])) else 0)
  {
    if |next.tasks| > |db.tasks| {
      assert next.tasks == db.tasks + [next.tasks[|db.tasks|]];
      CountAppend(db.tasks, next.tasks[|db.tasks|], p);
    } else {
      assert next.tasks == db.tasks;
    }
  }

  lemma SettledRows(acts: map<int, Activity>, db: Db, row: nat, next: Db)
    requires DbOk(acts, db) && SettledRow(db, row, next)
    ensures forall i: nat :: i < |next.orders| ==> RowOk(next, i)
    ensures forall i: nat :: RefundTasksOk(next, i)
    ensures forall j :: 0 <= j < |next.tasks| ==> TaskOk(next, next.tasks[j])
  {
    forall i: nat | i < |next.orders|
      ensures RowOk(next, i)
    {
      assert RowOk(db, i);
    }
    forall i: nat
      ensures RefundTasksOk(next, i)
    {
      assert RefundTasksOk(db, i);
      SettledTasks(db, row, next, RefundOf(i));
    }
    forall j | 0 <= j < |next.tasks|
      ensures TaskOk(next, next.tasks[j])
    {
      if j < |db.tasks| {
        assert next.tasks[..|db.tasks|][j] == db.tasks[j];
        assert TaskOk(db, db.tasks[j]);
      }
    }
  }

  lemma SettledEvolves(db: Db, row: nat, next: Db)
    requires SettledRow(db, row, next)
    ensures Evolves(db, next)
    ensures forall t :: t in db.teams ==> t in next.teams && StatusStep(db.teams[t].status, next.teams[t].status)
  {
    SameTakers(db, row, next.orders[row], next);
  }

  /** Whatever team snapshot the request read, a settlement that commits keeps the tables in order. */
  lemma SettleTxOk(
    acts: map<int, Activity>, db: Db, user: string, outTradeNo: string, payTime: int, row: nat, snap: Team, next: Db)
    requires DbOk(acts, db)
    requires row < |db.orders| && OfPair(user, outTradeNo)(db.orders[row])
    requires SettleTx(db, user, outTradeNo, payTime, db.orders[row].team, snap) == Commit(next)
    ensures DbOk(acts, next) && Evolves(db, next) && SettledRow(db, row, next)
    ensures |next.tasks| > |db.tasks| <==> snap.target - snap.complete == 1
  {
    assert RowOk(db, row);
    SettleTxShape(db, user, outTradeNo, payTime, row, snap, next);
    RowUpdateKeeps(acts, db, row, next.orders[row], next);
    forall t: string
      ensures TeamOk(acts, next, t)
    {
      assert TeamOk(acts, db, t);
      SettledTeams(acts, db, row, next, t);
    }
    SettledRows(acts, db, row, next);
    SettledEvolves(db, row, next);
  }

  // ---- Unpaid2Refund, Paid2Refund, PaidTeam2Refund --------------------------------------------

  /** What a refund that chose PaidTeam2Refund still knows of its team. */
  ghost predicate FormedIfPaid(db: Db, kind: RefundType, row: nat)
    requires row < |db.orders|
  {
    (kind == PaidFormed && db.orders[row].status == OrderComplete && db.orders[row].team in db.teams)
    ==> IsFormed(db.teams[db.orders[row].team].status)
  }

  lemma RefundTxTeams(acts: map<int, Activity>, db: Db, kind: RefundType, row: nat, next: Db, t: string)
    requires DbOk(acts, db) && row < |db.orders| && FormedIfPaid(db, kind, row)
    requires var o := db.orders[row];
             RefundTx(db, kind, o.user, row, o.team, o.activity, o.outTradeNo) == Commit(next)
    ensures TeamOk(acts, next, t)
  {
    assert TeamOk(acts, db, t) && TeamOk(acts, db, db.orders[row].team);
    CountUpdate(db.orders, row, next.orders[row], LiveIn(t));
    CountUpdate(db.orders, row, next.orders[row], PaidIn(t));
    CountAppend(db.tasks, next.tasks[|db.tasks|], SettlementOf(t));
  }

  lemma RefundTxRows(acts: map<int, Activity>, db: Db, kind: RefundType, row: nat, next: Db)
    requires DbOk(acts, db) && row < |db.orders|
    requires var o := db.orders[row];
             RefundTx(db, kind, o.user, row, o.team, o.activity, o.outTradeNo) == Commit(next)
    ensures forall i: nat :: i < |next.orders| ==> RowOk(next, i)
    ensures forall i: nat :: RefundTasksOk(next, i)
    ensures forall j :: 0 <= j < |next.tasks| ==> TaskOk(next, next.tasks[j])
  {
    forall i: nat | i < |next.orders|
      ensures RowOk(next, i)
    {
      assert RowOk(db, i);
    }
    forall i: nat
      ensures RefundTasksOk(next, i)
    {
      assert RefundTasksOk(db, i);
      CountAppend(db.tasks, next.tasks[|db.tasks|], RefundOf(i));
    }
    forall j | 0 <= j < |next.tasks|
      ensures TaskOk(next, next.tasks[j])
    {
      if j < |db.tasks| {
        assert TaskOk(db, db.tasks[j]);
      }
    }
  }

  lemma RefundTxEvolves(acts: map<int, Activity>, db: Db, kind: RefundType, row: nat, next: Db)
    requires DbOk(acts, db) && row < |db.orders| && FormedIfPaid(db, kind, row)
    requires var o := db.orders[row];
             RefundTx(db, kind, o.user, row, o.team, o.activity, o.outTradeNo) == Commit(next)
    ensures Evolves(db, next)
    ensures forall t :: t in db.teams ==> t in next.teams && StatusStep(db.teams[t].status, next.teams[t].status)
  {
    RowUpdateKeeps(acts, db, row, next.orders[row], next);
    assert next.tasks[..|db.tasks|] == db.tasks;
    var id := db.orders[row].team;
    assert TeamOk(acts, db, id);
    forall i: nat | i < |db.orders|
      ensures KeepsFormed(db, next, i)
    {
      if i != row && db.orders[i].team == id && db.orders[i].status == OrderComplete && kind != UnpaidUnlock {
        CountAtLeastTwo(db.orders, if i < row then i else row, if i < row then row else i, PaidIn(id));
      }
    }
  }

  /** A refund that commits keeps the tables in order. */
  lemma RefundTxOk(acts: map<int, Activity>, db: Db, kind: RefundType, row: nat, next: Db)
    requires DbOk(acts, db) && row < |db.orders| && FormedIfPaid(db, kind, row)
    requires var o := db.orders[row];
             RefundTx(db, kind, o.user, row, o.team, o.activity, o.outTradeNo) == Commit(next)
    ensures DbOk(acts, next) && Evolves(db, next)
  {
    RowUpdateKeeps(acts, db, row, next.orders[row], next);
    forall t: string
      ensures TeamOk(acts, next, t)
    {
      RefundTxTeams(acts, db, kind, row, next, t);
    }
    RefundTxRows(acts, db, kind, row, next);
    RefundTxEvolves(acts, db, kind, row, next);
  }

  /** Noting a recovery of a closed order changes nothing the tables hold. */
  lemma CreditOk(acts: map<int, Activity>, db: Db, row: nat)
    requires DbOk(acts, db) && row < |db.orders| && db.orders[row].status == OrderClose
    ensures DbOk(acts, Credit(db, row)) && Evolves(db, Credit(db, row))
  {
    var next := Credit(db, row);
    RowUpdateKeeps(acts, db, row, next.orders[row], next);
    assert next.tasks[..|db.tasks|] == db.tasks;
    forall t: string
      ensures TeamOk(acts, next, t)
    {
      assert TeamOk(acts, db, t);
      CountUpdate(db.orders, row, next.orders[row], LiveIn(t));
      CountUpdate(db.orders, row, next.orders[row], PaidIn(t));
    }
    forall i: nat | i < |next.orders|
      ensures RowOk(next, i)
    {
      assert RowOk(db, i);
    }
    forall i: nat
      ensures RefundTasksOk(next, i)
    {
      assert RefundTasksOk(db, i);
    }
    forall j | 0 <= j < |next.tasks|
      ensures TaskOk(next, next.tasks[j])
    {
      assert TaskOk(db, db.tasks[j]);
    }
  }
}
