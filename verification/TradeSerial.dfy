/** Runs in which every transaction still finds the team it read: what a serial execution of the
    requests of a team guarantees beyond the interleaved one. */
module TradeSerial {
  import opened Counting
  import opened TradeModel
  import opened TradeTransactions
  import opened TradeInvariant
  import opened TradeProtocol
  import opened TradeSafety
  import opened TradeTheorems

  /** The team row a settlement or refund carries is still the team's row when its transaction runs. Serial
      requests are always fresh. */
  ghost predicate Fresh(s: Sys, l: Label) {
    l.Advance? && l.i < |s.procs| && (s.procs[l.i].SettleCommit? || s.procs[l.i].RefundCommit?) ==>
      s.procs[l.i].team in s.db.teams && s.procs[l.i].snap == s.db.teams[s.procs[l.i].team]
  }

  ghost predicate SerialRun(acts: map<int, Activity>, states: seq<Sys>, labels: seq<Label>) {
    IsRun(acts, states, labels) && forall j {:trigger labels[j]} :: 0 <= j < |labels| ==> Fresh(states[j], labels[j])
  }

  ghost predicate SeriallyReachable(acts: map<int, Activity>, s: Sys) {
    exists states: seq<Sys>, labels: seq<Label> :: SerialRun(acts, states, labels) && s == states[|labels|]
  }

  // ---- the settlement list --------------------------------------------------------------------

  /** rows are distinct orders of the team that were paid, and nos are their out_trade_nos. */
  ghost predicate Lists(orders: seq<Order>, team: string, nos: seq<string>, rows: seq<nat>) {
    && |rows| == |nos|
    && (forall j :: 0 <= j < |rows| ==>
          rows[j] < |orders| && orders[rows[j]].team == team && orders[rows[j]].paidAt.Some?
          && orders[rows[j]].outTradeNo == nos[j])
    && (forall i, j :: 0 <= i < j < |rows| ==> rows[i] < rows[j])
  }

  ghost predicate TaskLists(db: Db, k: Task) {
    k.Settlement? ==>
      && k.team in db.teams && |k.outTradeNos| == db.teams[k.team].target
      && exists rows: seq<nat> :: Lists(db.orders, k.team, k.outTradeNos, rows)
  }

  lemma {:induction false} PaidNosListPaidRows(orders: seq<Order>, team: string) returns (rows: seq<nat>)
    requires forall i :: 0 <= i < |orders| && orders[i].status == OrderComplete ==> orders[i].paidAt.Some?
    ensures Lists(orders, team, PaidNos(orders, team), rows)
  {
    if orders == [] {
      rows := [];
    } else {
      var n := |orders| - 1;
      rows := PaidNosListPaidRows(orders[..n], team);
      assert Lists(orders, team, PaidNos(orders[..n], team), rows);
      if PaidIn(team)(orders[n]) {
        rows := rows + [n];
      }
    }
  }

  lemma ListsStable(db: Db, next: Db, team: string, nos: seq<string>, rows: seq<nat>)
    requires Lists(db.orders, team, nos, rows) && Evolves(db, next)
    ensures Lists(next.orders, team, nos, rows)
  {
    forall j | 0 <= j < |rows|
      ensures rows[j] < |next.orders| && next.orders[rows[j]].team == team && next.orders[rows[j]].paidAt.Some?
              && next.orders[rows[j]].outTradeNo == nos[j]
    {
      assert RowEvolves(db.orders[rows[j]], next.orders[rows[j]]);
    }
  }

  lemma TaskListsStable(db: Db, next: Db, k: Task)
    requires TaskLists(db, k) && Evolves(db, next)
    ensures TaskLists(next, k)
  {
    if k.Settlement? {
      var rows: seq<nat> :| Lists(db.orders, k.team, k.outTradeNos, rows);
      ListsStable(db, next, k.team, k.outTradeNos, rows);
      assert TeamEvolves(db.teams[k.team], next.teams[k.team]);
    }
  }

  // ---- the serial invariant -------------------------------------------------------------------

  /** A team is in status 1 exactly when it is complete, and its settlement lists target orders. */
  ghost predicate SerialOk(db: Db) {
    && (forall t :: t in db.teams ==> (db.teams[t].status == Complete <==> db.teams[t].complete == db.teams[t].target))
    && (forall j :: 0 <= j < |db.tasks| ==> TaskLists(db, db.tasks[j]))
  }

  lemma ListsAfterWrite(db: Db, next: Db)
    requires SerialOk(db) && Evolves(db, next)
    requires |next.tasks| <= |db.tasks| + 1
    requires |next.tasks| == |db.tasks| + 1 ==> TaskLists(next, next.tasks[|db.tasks|])
    ensures forall j :: 0 <= j < |next.tasks| ==> TaskLists(next, next.tasks[j])
  {
    forall j | 0 <= j < |next.tasks|
      ensures TaskLists(next, next.tasks[j])
    {
      if j < |db.tasks| {
        assert next.tasks[..|db.tasks|][j] == db.tasks[j];
        TaskListsStable(db, next, db.tasks[j]);
      }
    }
  }

  lemma SettledSerial(acts: map<int, Activity>, db: Db, row: nat, team: string, next: Db)
    requires SerialOk(db) && DbOk(acts, next) && Evolves(db, next) && SettledRow(db, row, next)
    requires team == db.orders[row].team
    requires |next.tasks| > |db.tasks| <==> db.teams[team].complete == db.teams[team].target - 1
    ensures SerialOk(next)
  {
    if |next.tasks| > |db.tasks| {
      forall i | 0 <= i < |next.orders| && next.orders[i].status == OrderComplete
        ensures next.orders[i].paidAt.Some?
      {
        assert RowOk(next, i);
      }
      var rows := PaidNosListPaidRows(next.orders, team);
      PaidNosLength(next.orders, team);
      assert TeamOk(acts, next, team);
    }
    ListsAfterWrite(db, next);
  }

  lemma SettleSerial(acts: map<int, Activity>, db: Db, user: string, no: string, payTime: int, row: nat, team: string, next: Db)
    requires DbOk(acts, db) && SerialOk(db) && RowRead(db, user, no, row, team) && team in db.teams
    requires SettleTx(db, user, no, payTime, team, db.teams[team]) == Commit(next)
    ensures SerialOk(next)
  {
    SettleTxOk(acts, db, user, no, payTime, row, db.teams[team], next);
    SettledSerial(acts, db, row, team, next);
  }

  lemma RefundSerial(acts: map<int, Activity>, db: Db, p: Proc, next: Db)
    requires ActivitiesOk(acts) && DbOk(acts, db) && SerialOk(db) && p.RefundCommit? && ProcOk(acts, db, p)
    requires p.team in db.teams && p.snap == db.teams[p.team]
    requires RefundTx(db, p.kind, p.user, p.row, p.team, p.snap.activity, p.outTradeNo) == Commit(next)
    ensures SerialOk(next)
  {
    RefundTxOk(acts, db, p.kind, p.row, next);
    CountersOrdered(acts, db, p.team);
    ListsAfterWrite(db, next);
  }

  lemma LockSerial(acts: map<int, Activity>, db: Db, p: Proc, newTeam: string, now: int, next: Db)
    requires ActivitiesOk(acts) && DbOk(acts, db) && SerialOk(db) && p.JoinTx? && ProcOk(acts, db, p)
    requires OwnTeam(db, p.req) && FreshPair(db, p.req)
    requires LockTx(db, acts[p.req.activity], p.req, p.take, newTeam, now) == Commit(next)
    ensures SerialOk(next)
  {
    LockTxOk(acts, db, p.req, p.take, newTeam, now, next);
    ListsAfterWrite(db, next);
  }

  lemma SerialStep(acts: map<int, Activity>, s: Sys, l: Label)
    requires Inv(acts, s) && Assumed(acts, s, l) && Fresh(s, l) && SerialOk(s.db)
    ensures SerialOk(Step(acts, s, l).db)
  {
    var next := Step(acts, s, l).db;
    if next != s.db {
      OnlyTransactionsWrite(acts, s, l);
      var p := s.procs[l.i];
      assert ProcOk(acts, s.db, p);
      if p.JoinTx? {
        LockSerial(acts, s.db, p, l.env.newTeam, l.env.now, next);
      } else if p.SettleCommit? {
        SettleSerial(acts, s.db, p.user, p.outTradeNo, p.payTime, p.row, p.team, next);
      } else if p.RefundCommit? {
        RefundSerial(acts, s.db, p, next);
      } else {
        CreditOk(acts, s.db, p.msg.row);
        ListsAfterWrite(s.db, next);
      }
    }
  }

  lemma {:induction false} SerialRunOk(acts: map<int, Activity>, states: seq<Sys>, labels: seq<Label>, n: nat)
    requires ActivitiesOk(acts) && SerialRun(acts, states, labels) && n <= |labels|
    ensures Inv(acts, states[n]) && SerialOk(states[n].db)
  {
    if n == 0 {
      EmptyOk(acts);
    } else {
      SerialRunOk(acts, states, labels, n - 1);
      var s, l := states[n - 1], labels[n - 1];
      assert Moves(acts, s, l, states[n]) && Fresh(s, l);
      StepKeepsInv(acts, s, l);
      SerialStep(acts, s, l);
    }
  }

  lemma SerialTables(acts: map<int, Activity>, s: Sys)
    requires ActivitiesOk(acts) && SeriallyReachable(acts, s)
    ensures DbOk(acts, s.db) && SerialOk(s.db)
  {
    var states, labels :| SerialRun(acts, states, labels) && s == states[|labels|];
    SerialRunOk(acts, states, labels, |labels|);
  }

  // ---- theorems -------------------------------------------------------------------------------

  /** Status 1 is completeness; a formed team then has no unpaid order. */
  lemma FormedIsComplete(acts: map<int, Activity>, s: Sys, team: string)
    requires ActivitiesOk(acts) && SeriallyReachable(acts, s) && team in s.db.teams
    ensures s.db.teams[team].status == Complete <==> s.db.teams[team].complete == s.db.teams[team].target
    ensures s.db.teams[team].status == Complete ==>
              forall i :: 0 <= i < |s.db.orders| && s.db.orders[i].team == team ==> s.db.orders[i].status != OrderCreate
  {
    SerialTables(acts, s);
    CountersOrdered(acts, s.db, team);
    assert TeamOk(acts, s.db, team);
    if s.db.teams[team].status == Complete {
      forall i | 0 <= i < |s.db.orders| && s.db.orders[i].team == team
        ensures s.db.orders[i].status != OrderCreate
      {
        if s.db.orders[i].status == OrderCreate {
          CountStrict(s.db.orders, i, PaidIn(team), LiveIn(team));
        }
      }
    }
  }

  /** In serial runs a team that lost a paid member after forming is never complete again. */
  lemma BrokenTeamStaysIncomplete(
    acts: map<int, Activity>, states: seq<Sys>, labels: seq<Label>, n: nat, m: nat, team: string)
    requires ActivitiesOk(acts) && SerialRun(acts, states, labels) && n <= m <= |labels|
    requires var db := states[n].db;
             team in db.teams && (db.teams[team].status == CompleteFail || db.teams[team].status == Fail)
    ensures var db := states[m].db;
            team in db.teams && db.teams[team].complete < db.teams[team].target
            && (db.teams[team].status == CompleteFail || db.teams[team].status == Fail)
  {
    RunEvolves(acts, states, labels, n, m);
    SerialRunOk(acts, states, labels, m);
    assert TeamEvolves(states[n].db.teams[team], states[m].db.teams[team]);
    CountersOrdered(acts, states[m].db, team);
  }

  /** The settlement task of a team lists the out_trade_nos of exactly target distinct orders that were paid;
      the numbers themselves are distinct when the team's orders carry distinct ones. */
  lemma SettlementListsTargetOrders(acts: map<int, Activity>, s: Sys, j: nat)
    requires ActivitiesOk(acts) && SeriallyReachable(acts, s) && j < |s.db.tasks| && s.db.tasks[j].Settlement?
    ensures var k := s.db.tasks[j];
            && k.team in s.db.teams && |k.outTradeNos| == s.db.teams[k.team].target
            && (exists rows: seq<nat> :: Lists(s.db.orders, k.team, k.outTradeNos, rows))
            && ((forall x, y :: 0 <= x < y < |s.db.orders| && s.db.orders[x].team == k.team && s.db.orders[y].team == k.team
                   ==> s.db.orders[x].outTradeNo != s.db.orders[y].outTradeNo)
                ==> forall x, y :: 0 <= x < y < |k.outTradeNos| ==> k.outTradeNos[x] != k.outTradeNos[y])
  {
    SerialTables(acts, s);
    var k := s.db.tasks[j];
    assert TaskLists(s.db, k);
    var rows: seq<nat> :| Lists(s.db.orders, k.team, k.outTradeNos, rows);
    assert forall x, y :: 0 <= x < y < |rows| ==> rows[x] < rows[y];
  }

  /** Exactly which open orders a refund has a strategy for in serial runs: all those of a team in status 0
      or 1, and the paid ones of a team in status 3. The chosen transaction then commits. */
  lemma RefundDispatch(acts: map<int, Activity>, s: Sys, row: nat)
    requires ActivitiesOk(acts) && SeriallyReachable(acts, s) && row < |s.db.orders| && s.db.orders[row].status != OrderClose
    ensures var o := s.db.orders[row];
            && o.team in s.db.teams
            && var m := s.db.teams[o.team]; var kind := GetRefundStrategy(m.status, o.status);
            && (kind.Some? <==> m.status == Progress || m.status == Complete
                                || (m.status == CompleteFail && o.status == OrderComplete))
            && (kind.Some? ==> RefundTx(s.db, kind.value, o.user, row, o.team, m.activity, o.outTradeNo).Commit?)
  {
    SerialTables(acts, s);
    assert RowOk(s.db, row);
    FormedIsComplete(acts, s, s.db.orders[row].team);
  }
}
