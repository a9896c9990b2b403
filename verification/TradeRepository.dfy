/** internal/infrastructure/repository/trade_repository.go: the three tables, updated in place by
    transactions that work on copies and install them when every statement succeeded. */
module TradeRepository {
  import opened Counting
  import opened TradeModel
  import opened TradeTransactions

  /** What a transaction reports to its caller. */
  ghost predicate Reports(tx: Tx, before: Db, after: Db, failure: Option<Error>) {
    match tx
    case Commit(db) => after == db && failure == None
    case Rollback(e) => after == before && failure == Some(e)
  }

  /** UPDATE group_buy_order_list SET status = 1 WHERE out_trade_no, user_id AND status = 0: every matching
      row, and how many there were. */
  method MarkPaid(orders: seq<Order>, user: string, outTradeNo: string, payTime: int)
    returns (updated: seq<Order>, affected: nat)
    ensures affected == Count(orders, UnpaidOfPair(user, outTradeNo))
    ensures affected == |set i | 0 <= i < |orders| && orders[i].user == user && orders[i].outTradeNo == outTradeNo
                                 && orders[i].status == OrderCreate|
    ensures |updated| == |orders|
    ensures forall i :: 0 <= i < |orders| ==>
              updated[i] == if UnpaidOfPair(user, outTradeNo)(orders[i])
                            then orders[i].(status := OrderComplete, paidAt := Some(payTime)) else orders[i]
    ensures forall i :: 0 <= i < |orders| ==>
              updated[i] == if orders[i].user == user && orders[i].outTradeNo == outTradeNo && orders[i].status == OrderCreate
                            then orders[i].(status := OrderComplete, paidAt := Some(payTime)) else orders[i]
  {
    updated, affected := [], 0;
    for i := 0 to |orders|
      invariant affected == Count(orders[..i], UnpaidOfPair(user, outTradeNo))
      invariant |updated| == i
      invariant forall j :: 0 <= j < i ==>
                  updated[j] == if UnpaidOfPair(user, outTradeNo)(orders[j])
                                then orders[j].(status := OrderComplete, paidAt := Some(payTime)) else orders[j]
    {
      var o := orders[i];
      CountNext(orders, i, UnpaidOfPair(user, outTradeNo));
      if o.user == user && o.outTradeNo == outTradeNo && o.status == OrderCreate {
        o := o.(status := OrderComplete, paidAt := Some(payTime));
        affected := affected + 1;
      }
      updated := updated + [o];
    }
    CountWhole(orders, UnpaidOfPair(user, outTradeNo));
    UnpaidAreThose(orders, user, outTradeNo);
  }

  /** The rows the three counting conditions mean, by their columns. */
  lemma UnpaidAreThose(orders: seq<Order>, user: string, outTradeNo: string)
    ensures Count(orders, UnpaidOfPair(user, outTradeNo))
         == |set i | 0 <= i < |orders| && orders[i].user == user && orders[i].outTradeNo == outTradeNo
                     && orders[i].status == OrderCreate|
  {
    CountIsSize(orders, UnpaidOfPair(user, outTradeNo),
                set i | 0 <= i < |orders| && orders[i].user == user && orders[i].outTradeNo == outTradeNo
                        && orders[i].status == OrderCreate);
  }

  lemma TakenAreThose(orders: seq<Order>, activity: int, user: string)
    ensures Count(orders, OfTaker(activity, user))
         == |set i | 0 <= i < |orders| && orders[i].user == user && orders[i].activity == activity|
  {
    CountIsSize(orders, OfTaker(activity, user),
                set i | 0 <= i < |orders| && orders[i].user == user && orders[i].activity == activity);
  }

  lemma ExpiredAreThose(orders: seq<Order>, now: int)
    ensures Count(orders, Expired(now))
         == |set i | 0 <= i < |orders| && orders[i].status == OrderCreate && orders[i].paidAt == None && orders[i].endTime < now|
  {
    CountIsSize(orders, Expired(now),
                set i | 0 <= i < |orders| && orders[i].status == OrderCreate && orders[i].paidAt == None && orders[i].endTime < now);
  }

  /** nos are the numbers of rows, and rows are all those of the team below n that are paid, in order. */
  ghost predicate PaidRows(orders: seq<Order>, n: nat, team: string, nos: seq<string>, rows: seq<nat>)
    requires n <= |orders|
  {
    && |rows| == |nos|
    && (forall j :: 0 <= j < |rows| ==>
          rows[j] < n && orders[rows[j]].team == team && orders[rows[j]].status == OrderComplete
          && nos[j] == orders[rows[j]].outTradeNo)
    && (forall i, j :: 0 <= i < j < |rows| ==> rows[i] < rows[j])
    && (forall i: nat :: i < n && orders[i].team == team && orders[i].status == OrderComplete ==> i in rows)
  }

  lemma OneMoreRow(orders: seq<Order>, n: nat, team: string, nos: seq<string>, rows: seq<nat>)
    requires n < |orders| && PaidRows(orders, n, team, nos, rows)
    ensures if orders[n].team == team && orders[n].status == OrderComplete
            then PaidRows(orders, n + 1, team, nos + [orders[n].outTradeNo], rows + [n])
            else PaidRows(orders, n + 1, team, nos, rows)
  {
    if orders[n].team == team && orders[n].status == OrderComplete {
      var more := rows + [n];
      assert more[|rows|] == n;
      forall i: nat | i < n + 1 && orders[i].team == team && orders[i].status == OrderComplete
        ensures i in more
      {
        assert i < n ==> i in rows;
      }
    }
  }

  /** SELECT out_trade_no WHERE team_id AND status = 1. */
  method PluckPaid(orders: seq<Order>, team: string) returns (nos: seq<string>, ghost rows: seq<nat>)
    ensures nos == PaidNos(orders, team) && PaidRows(orders, |orders|, team, nos, rows)
  {
    nos, rows := [], [];
    for i := 0 to |orders|
      invariant nos == PaidNos(orders[..i], team) && PaidRows(orders, i, team, nos, rows)
    {
      assert orders[..i + 1][..i] == orders[..i];
      OneMoreRow(orders, i, team, nos, rows);
      if orders[i].team == team && orders[i].status == OrderComplete {
        nos := nos + [orders[i].outTradeNo];
        rows := rows + [i];
      }
    }
    assert orders[..|orders|] == orders;
  }

  method SameText(key: BizKey, text: string, ghost bizId: BizKey) returns (same: bool)
    requires text == BizText(bizId)
    ensures same == (key == bizId)
  {
    BizTextInjective(key, bizId);
    same := BizText(key) == text;
  }

  /** The unique index on biz_id: whether some row has this text. */
  method TextTaken(orders: seq<Order>, text: string, ghost bizId: BizKey) returns (taken: bool)
    requires text == BizText(bizId)
    ensures taken == BizIdTaken(orders, bizId)
  {
    var i := 0;
    taken := false;
    while i < |orders| && !taken
      invariant 0 <= i <= |orders|
      invariant taken ==> BizIdTaken(orders, bizId)
      invariant !taken ==> forall j :: 0 <= j < i ==> orders[j].bizId != bizId
      decreases |orders| - i
    {
      taken := SameText(orders[i].bizId, text, bizId);
      i := i + 1;
    }
  }

  /** Order i is the pair's first. */
  ghost predicate FirstOfPair(orders: seq<Order>, user: string, outTradeNo: string, i: nat) {
    && i < |orders| && orders[i].user == user && orders[i].outTradeNo == outTradeNo
    && forall j :: 0 <= j < i ==> orders[j].user != user || orders[j].outTradeNo != outTradeNo
  }

  /** When a single row matches, updating all matches is updating the first. */
  lemma SingleMatch(orders: seq<Order>, updated: seq<Order>, user: string, outTradeNo: string, payTime: int)
    requires Count(orders, UnpaidOfPair(user, outTradeNo)) == 1 && |updated| == |orders|
    requires forall i :: 0 <= i < |orders| ==>
               updated[i] == if UnpaidOfPair(user, outTradeNo)(orders[i])
                             then orders[i].(status := OrderComplete, paidAt := Some(payTime)) else orders[i]
    ensures var row := FindFirst(orders, UnpaidOfPair(user, outTradeNo));
            row < |orders| && updated == orders[row := orders[row].(status := OrderComplete, paidAt := Some(payTime))]
  {
    var p := UnpaidOfPair(user, outTradeNo);
    var row := FindFirst(orders, p);
    CountZero(orders, p);
    forall i | 0 <= i < |orders| && i != row
      ensures updated[i] == orders[i]
    {
      if p(orders[i]) {
        CountOneUnique(orders, i, row, p);
      }
    }
  }

  /** The update as the settlement uses it: fine only when it changed a single row. */
  method MarkSinglePaid(orders: seq<Order>, user: string, outTradeNo: string, payTime: int)
    returns (updated: seq<Order>, single: bool)
    ensures single == (Count(orders, UnpaidOfPair(user, outTradeNo)) == 1)
    ensures single == (|set i | 0 <= i < |orders| && orders[i].user == user && orders[i].outTradeNo == outTradeNo
                                && orders[i].status == OrderCreate| == 1)
    ensures single ==> |updated| == |orders| && forall i :: 0 <= i < |orders| ==>
              updated[i] == if orders[i].user == user && orders[i].outTradeNo == outTradeNo && orders[i].status == OrderCreate
                            then orders[i].(status := OrderComplete, paidAt := Some(payTime)) else orders[i]
    ensures single ==>
              var row := FindFirst(orders, UnpaidOfPair(user, outTradeNo));
              row < |orders| && updated == orders[row := orders[row].(status := OrderComplete, paidAt := Some(payTime))]
  {
    var affected;
    updated, affected := MarkPaid(orders, user, outTradeNo, payTime);
    single := affected == 1;
    if single {
      SingleMatch(orders, updated, user, outTradeNo, payTime);
    }
  }

  /** The last payer's part of a settlement: the team row it leaves, and the notification to store. */
  method FormTeam(counted: Team, rows: seq<Order>, id: string, snap: Team, outTradeNo: string)
    returns (team: Team, notify: Option<Task>, refused: bool)
    ensures refused <==> snap.target - snap.complete == 1 && counted.status != Progress
    ensures !refused ==> team == counted.(status := if snap.target - snap.complete == 1 then Complete else counted.status)
    ensures notify.Some? <==> !refused && snap.target - snap.complete == 1
    ensures notify.Some? ==>
              && notify.value == Settlement(id, snap.activity, outTradeNo, PaidNos(rows, id))
              && exists paid: seq<nat> :: PaidRows(rows, |rows|, id, notify.value.outTradeNos, paid)
  {
    team, notify, refused := counted, None, false;
    if snap.target - snap.complete == 1 {
      if counted.status != Progress {
        return counted, None, true;
      }
      team := counted.(status := Complete);
      var nos, paid := PluckPaid(rows, id);
      notify := Some(Settlement(id, snap.activity, outTradeNo, nos));
    }
  }

  /** The parts of a settlement that succeeds make up its transaction. */
  lemma SettlementParts(
    db: Db, user: string, outTradeNo: string, payTime: int, id: string, snap: Team, rows: seq<Order>, team: Team, task: Option<Task>)
    requires Count(db.orders, UnpaidOfPair(user, outTradeNo)) == 1
    requires var row := FindFirst(db.orders, UnpaidOfPair(user, outTradeNo));
             row < |db.orders| && rows == db.orders[row := db.orders[row].(status := OrderComplete, paidAt := Some(payTime))]
    requires id in db.teams && db.teams[id].complete < db.teams[id].target
    requires var counted, last := db.teams[id].(complete := db.teams[id].complete + 1), snap.target - snap.complete == 1;
             && (last ==> counted.status == Progress)
             && team == counted.(status := if last then Complete else counted.status)
             && task == if last then Some(Settlement(id, snap.activity, outTradeNo, PaidNos(rows, id))) else None
    ensures SettleTx(db, user, outTradeNo, payTime, id, snap)
         == Commit(Db(db.teams[id := team], rows, db.tasks + (if task.Some? then [task.value] else [])))
  {
    assert db.tasks + [] == db.tasks;
  }

  class TradeRepository {
    var teams: map<string, Team>
    var orders: seq<Order>
    var tasks: seq<Task>

    constructor ()
      ensures Tables() == EMPTY
    {
      teams, orders, tasks := map[], [], [];
    }

    function Tables(): Db
      reads this
    {
      Db(teams, orders, tasks)
    }

    /** First(&row) of the pair: the row with the lowest id. */
    method QueryMarketPayOrder(user: string, outTradeNo: string) returns (row: Option<nat>)
      ensures row == var i := FindFirst(orders, OfPair(user, outTradeNo)); if i < |orders| then Some(i) else None
      ensures row.Some? ==>
                && row.value < |orders| && orders[row.value].user == user && orders[row.value].outTradeNo == outTradeNo
                && forall j :: 0 <= j < row.value ==> orders[j].user != user || orders[j].outTradeNo != outTradeNo
      ensures row.None? <==> forall i :: 0 <= i < |orders| ==> orders[i].user != user || orders[i].outTradeNo != outTradeNo
    {
      var i := 0;
      while i < |orders|
        invariant 0 <= i <= |orders|
        invariant forall j :: 0 <= j < i ==> !OfPair(user, outTradeNo)(orders[j])
      {
        if orders[i].user == user && orders[i].outTradeNo == outTradeNo {
          return Some(i);
        }
        i := i + 1;
      }
      return None;
    }

    method QueryOrderCount(activity: int, user: string) returns (count: nat)
      ensures count == Count(orders, OfTaker(activity, user))
      ensures count == |set i | 0 <= i < |orders| && orders[i].user == user && orders[i].activity == activity|
    {
      count := 0;
      for i := 0 to |orders|
        invariant count == Count(orders[..i], OfTaker(activity, user))
      {
        CountNext(orders, i, OfTaker(activity, user));
        if orders[i].user == user && orders[i].activity == activity {
          count := count + 1;
        }
      }
      CountWhole(orders, OfTaker(activity, user));
      TakenAreThose(orders, activity, user);
    }

    /** Opens a team that runs for validTime minutes from now, or takes a seat in one that has one left, and inserts
        the order, whose biz_id no other has. */
    method LockMarketPayOrder(act: Activity, req: JoinReq, take: int, newTeam: string, now: int)
      returns (failure: Option<Error>)
      modifies this
      ensures Reports(LockTx(old(Tables()), act, req, take, newTeam, now), old(Tables()), Tables(), failure)
      ensures failure == Some(DuplicateKey) <==> req.team == "" && newTeam in old(teams)
      ensures failure == Some(E0005) <==>
                req.team != "" && !(req.team in old(teams) && old(teams)[req.team].lock < old(teams)[req.team].target)
      ensures failure == Some(IndexException) <==>
                && failure != Some(DuplicateKey) && failure != Some(E0005)
                && exists i :: 0 <= i < |old(orders)| && old(orders)[i].bizId == BizKey(req.activity, req.user, take + 1)
      ensures failure in {None, Some(DuplicateKey), Some(E0005), Some(IndexException)} && tasks == old(tasks)
      ensures failure.Some? ==> teams == old(teams) && orders == old(orders)
      ensures failure.None? ==>
                var id := if req.team == "" then newTeam else req.team;
                && orders == old(orders) + [Order(req.user, id, req.activity, OrderCreate, req.outTradeNo,
                                                  BizKey(req.activity, req.user, take + 1), act.endTime, None, 0)]
                && teams == old(teams)[id := if req.team == "" then Team(req.activity, act.target, 0, 1, Progress, now + 60 * act.validTime)
                                             else old(teams)[id].(lock := old(teams)[id].lock + 1)]
    {
      var id, draft := req.team, teams;
      if id == "" {
        id := newTeam;
        if id in draft {
          return Some(DuplicateKey);
        }
        draft := draft[id := Team(req.activity, act.target, 0, 1, Progress, now + act.validTime * MINUTE)];
      } else {
        if id !in draft || draft[id].lock >= draft[id].target {
          return Some(E0005);
        }
        draft := draft[id := draft[id].(lock := draft[id].lock + 1)];
      }
      var bizId := BizKey(req.activity, req.user, take + 1);
      var taken := TextTaken(orders, BizText(bizId), bizId);
      if taken {
        return Some(IndexException);
      }
      var row := Order(req.user, id, req.activity, OrderCreate, req.outTradeNo, bizId, act.endTime, None, 0);
      teams, orders := draft, orders + [row];
      return None;
    }

    method SettlementMarketPayOrder(user: string, outTradeNo: string, payTime: int, id: string, snap: Team)
      returns (failure: Option<Error>, notify: Option<Task>)
      modifies this
      ensures Reports(SettleTx(old(Tables()), user, outTradeNo, payTime, id, snap), old(Tables()), Tables(), failure)
      ensures tasks == old(tasks) + (if notify.Some? then [notify.value] else [])
      ensures failure.None? <==>
                && |set i | 0 <= i < |old(orders)| && old(orders)[i].user == user && old(orders)[i].outTradeNo == outTradeNo
                            && old(orders)[i].status == OrderCreate| == 1
                && id in old(teams) && old(teams)[id].complete < old(teams)[id].target
                && (snap.target - snap.complete == 1 ==> old(teams)[id].status == Progress)
      ensures failure.Some? ==> failure == Some(UpdateZero) && notify == None && teams == old(teams) && orders == old(orders)
      ensures failure.None? ==>
                && |orders| == |old(orders)|
                && forall i :: 0 <= i < |old(orders)| ==>
                     orders[i] == if old(orders)[i].user == user && old(orders)[i].outTradeNo == outTradeNo && old(orders)[i].status == OrderCreate
                                  then old(orders)[i].(status := OrderComplete, paidAt := Some(payTime)) else old(orders)[i]
      ensures failure.None? ==>
                && teams == old(teams)[id := old(teams)[id].(
                     complete := old(teams)[id].complete + 1,
                     status := if snap.target - snap.complete == 1 then Complete else old(teams)[id].status)]
      ensures failure.None? ==> (notify.Some? <==> snap.target - snap.complete == 1)
      ensures notify.Some? ==>
                && notify.value.Settlement? && notify.value.team == id && notify.value.activity == snap.activity
                && notify.value.payer == outTradeNo
                && exists rows: seq<nat> :: PaidRows(orders, |orders|, id, notify.value.outTradeNos, rows)
    {
      ghost var db := Tables();
      ghost var tx := SettleTx(db, user, outTradeNo, payTime, id, snap);
      var rows, single := MarkSinglePaid(orders, user, outTradeNo, payTime);
      if !single || id !in teams || teams[id].complete >= teams[id].target {
        assert tx == Rollback(UpdateZero);
        return Some(UpdateZero), None;
      }
      var team, task, refused := FormTeam(teams[id].(complete := teams[id].complete + 1), rows, id, snap, outTradeNo);
      if refused {
        assert tx == Rollback(UpdateZero);
        return Some(UpdateZero), None;
      }
      SettlementParts(db, user, outTradeNo, payTime, id, snap, rows, team, task);
      if task.Some? {
        tasks := tasks + [task.value];
      }
      teams, orders := teams[id := team], rows;
      assert tx == Commit(Tables());
      return None, task;
    }

    /** Unpaid2Refund and Paid2Refund. */
    method DoRefund(kind: RefundType, user: string, row: nat, id: string, activity: int, outTradeNo: string)
      returns (failure: Option<Error>)
      requires kind != PaidFormed
      modifies this
      ensures Reports(RefundTx(old(Tables()), kind, user, row, id, activity, outTradeNo), old(Tables()), Tables(), failure)
      ensures failure.None? <==>
                && row < |old(orders)| && old(orders)[row].user == user
                && old(orders)[row].status == (if kind == UnpaidUnlock then OrderCreate else OrderComplete)
                && id in old(teams)
      ensures failure.Some? ==>
                failure == Some(UpdateZero) && teams == old(teams) && orders == old(orders) && tasks == old(tasks)
      ensures failure.None? ==>
                && orders == old(orders)[row := old(orders)[row].(status := OrderClose)]
                && teams == old(teams)[id := old(teams)[id].(
                     lock := old(teams)[id].lock - 1,
                     complete := old(teams)[id].complete - (if kind == UnpaidUnlock then 0 else 1))]
                && tasks == old(tasks) + [Refund(kind, id, activity, user, row, outTradeNo)]
    {
      var fromStatus := if kind == UnpaidUnlock then OrderCreate else OrderComplete;
      if row >= |orders| || orders[row].user != user || orders[row].status != fromStatus {
        return Some(UpdateZero);
      }
      if id !in teams {
        return Some(UpdateZero);
      }
      var (dLock, dComplete) := RefundDeltas(kind);
      var team := teams[id].(lock := teams[id].lock + dLock);
      if kind == PaidUnformed {
        team := team.(complete := team.complete + dComplete);
      }
      teams := teams[id := team];
      orders := orders[row := orders[row].(status := OrderClose)];
      tasks := tasks + [Refund(kind, id, activity, user, row, outTradeNo)];
      return None;
    }

    method PaidTeam2Refund(user: string, row: nat, id: string, activity: int, outTradeNo: string)
      returns (failure: Option<Error>)
      modifies this
      ensures Reports(RefundTx(old(Tables()), PaidFormed, user, row, id, activity, outTradeNo), old(Tables()), Tables(), failure)
      ensures failure == Some(UpdateZero) <==>
                row >= |old(orders)| || old(orders)[row].user != user || old(orders)[row].status != OrderComplete
      ensures failure == Some(RecordNotFound) <==> failure != Some(UpdateZero) && id !in old(teams)
      ensures failure in {None, Some(UpdateZero), Some(RecordNotFound)}
      ensures failure.Some? ==> teams == old(teams) && orders == old(orders) && tasks == old(tasks)
      ensures failure.None? ==>
                && orders == old(orders)[row := old(orders)[row].(status := OrderClose)]
                && teams == old(teams)[id := old(teams)[id].(
                     lock := old(teams)[id].lock - 1,
                     complete := old(teams)[id].complete - 1,
                     status := if old(teams)[id].complete <= 1 then Fail else CompleteFail)]
                && tasks == old(tasks) + [Refund(PaidFormed, id, activity, user, row, outTradeNo)]
    {
      if row >= |orders| || orders[row].user != user || orders[row].status != OrderComplete {
        return Some(UpdateZero);
      }
      if id !in teams {
        return Some(RecordNotFound);
      }
      var newComplete, newLock := teams[id].complete - 1, teams[id].lock - 1;
      var newStatus := CompleteFail;
      if newComplete <= 0 {
        newStatus := Fail;
      }
      teams := teams[id := teams[id].(lock := newLock, complete := newComplete, status := newStatus)];
      orders := orders[row := orders[row].(status := OrderClose)];
      tasks := tasks + [Refund(PaidFormed, id, activity, user, row, outTradeNo)];
      return None;
    }

    /** At most ten unpaid rows past their end time (which ones is up to the database), without those whose team
        is missing. */
    method QueryTimeoutUnpaid(now: int) returns (rows: seq<nat>)
      ensures forall j :: 0 <= j < |rows| ==>
                rows[j] < |orders| && Expired(now)(orders[rows[j]]) && orders[rows[j]].team in teams
      ensures forall j :: 0 <= j < |rows| ==>
                var o := orders[rows[j]]; o.status == OrderCreate && o.paidAt == None && o.endTime < now
      ensures forall i, j :: 0 <= i < j < |rows| ==> rows[i] < rows[j]
      ensures var due := set i | 0 <= i < |orders| && orders[i].status == OrderCreate && orders[i].paidAt == None && orders[i].endTime < now;
              && |rows| <= |due| && |rows| <= 10
              && ((forall i :: i in due ==> orders[i].team in teams) ==> |rows| == if |due| < 10 then |due| else 10)
      ensures (forall i :: 0 <= i < |orders| && Expired(now)(orders[i]) ==> orders[i].team in teams) ==>
                |rows| == if Count(orders, Expired(now)) < 10 then Count(orders, Expired(now)) else 10
    {
      var lists := ScanExpired(orders, now);
      ExpiredAreThose(orders, now);
      rows := [];
      for j := 0 to |lists|
        invariant |rows| <= j
        invariant forall k :: 0 <= k < |rows| ==>
                    rows[k] < |orders| && Expired(now)(orders[rows[k]]) && orders[rows[k]].team in teams
        invariant forall k :: 0 <= k < |rows| && j < |lists| ==> rows[k] < lists[j]
        invariant forall i, k :: 0 <= i < k < |rows| ==> rows[i] < rows[k]
        invariant (forall i :: 0 <= i < |orders| && Expired(now)(orders[i]) ==> orders[i].team in teams) ==> |rows| == j
      {
        if orders[lists[j]].team in teams {
          rows := rows + [lists[j]];
        }
      }
    }
  }

  /** WHERE status = 0 AND out_trade_time IS NULL AND now > end_time LIMIT 10. */
  method ScanExpired(orders: seq<Order>, now: int) returns (lists: seq<nat>)
    ensures forall j :: 0 <= j < |lists| ==> lists[j] < |orders| && Expired(now)(orders[lists[j]])
    ensures forall j :: 0 <= j < |lists| ==>
              var o := orders[lists[j]]; o.status == OrderCreate && o.paidAt == None && o.endTime < now
    ensures forall i, j :: 0 <= i < j < |lists| ==> lists[i] < lists[j]
    ensures |lists| == if Count(orders, Expired(now)) < 10 then Count(orders, Expired(now)) else 10
    ensures var due := set i | 0 <= i < |orders| && orders[i].status == OrderCreate && orders[i].paidAt == None && orders[i].endTime < now;
            |lists| == if |due| < 10 then |due| else 10
  {
    lists := [];
    var i := 0;
    while i < |orders| && |lists| < 10
      invariant 0 <= i <= |orders| && |lists| <= 10
      invariant |lists| == Count(orders[..i], Expired(now))
      invariant forall j :: 0 <= j < |lists| ==> lists[j] < i && Expired(now)(orders[lists[j]])
      invariant forall j, k :: 0 <= j < k < |lists| ==> lists[j] < lists[k]
    {
      CountNext(orders, i, Expired(now));
      if orders[i].status == OrderCreate && orders[i].paidAt == None && now > orders[i].endTime {
        lists := lists + [i];
      }
      i := i + 1;
    }
    CountPrefix(orders, i, Expired(now));
    CountWhole(orders, Expired(now));
    ExpiredAreThose(orders, now);
  }

  /** Unpaid, never paid, and past the activity's end. */
  function Expired(now: int): Order -> bool {
    (o: Order) => o.status == OrderCreate && o.paidAt == None && now > o.endTime
  }
}
