/** The MySQL transactions of the trade repository, as functions of the tables they run on. */
module TradeTransactions {
  import opened Counting
  import opened TradeModel

  datatype Db = Db(teams: map<string, Team>, orders: seq<Order>, tasks: seq<Task>)

  /** A transaction either commits new tables or leaves the old ones. */
  datatype Tx = Commit(db: Db) | Rollback(error: Error)

  /** A lock request; team is empty when it opens a new team. */
  datatype JoinReq = JoinReq(user: string, outTradeNo: string, activity: int, team: string)

  const EMPTY: Db := Db(map[], [], [])

  // ---- row conditions -----------------------------------------------------------------------

  function OfPair(user: string, outTradeNo: string): Order -> bool {
    (o: Order) => o.user == user && o.outTradeNo == outTradeNo
  }

  function UnpaidOfPair(user: string, outTradeNo: string): Order -> bool {
    (o: Order) => o.user == user && o.outTradeNo == outTradeNo && o.status == OrderCreate
  }

  function OfTaker(activity: int, user: string): Order -> bool {
    (o: Order) => o.user == user && o.activity == activity
  }

  /** Orders that hold a seat: status 0 or 1. */
  function LiveIn(team: string): Order -> bool {
    (o: Order) => o.team == team && o.status != OrderClose
  }

  function PaidIn(team: string): Order -> bool {
    (o: Order) => o.team == team && o.status == OrderComplete
  }

  function SettlementOf(team: string): Task -> bool {
    (k: Task) => k.Settlement? && k.team == team
  }

  function RefundOf(row: nat): Task -> bool {
    (k: Task) => k.Refund? && k.row == row
  }

  predicate BizIdTaken(orders: seq<Order>, bizId: BizKey) {
    exists i :: 0 <= i < |orders| && orders[i].bizId == bizId
  }

  /** Pluck: the out_trade_nos of the team's paid rows, in row order. */
  function PaidNos(orders: seq<Order>, team: string): seq<string> {
    if orders == [] then []
    else
      var o := orders[|orders| - 1];
      PaidNos(orders[..|orders| - 1], team) + (if PaidIn(team)(o) then [o.outTradeNo] else [])
  }

  /** The two facts about a request that the code does not check. */
  ghost predicate OwnTeam(db: Db, req: JoinReq) {
    req.team != "" && req.team in db.teams ==> db.teams[req.team].activity == req.activity
  }

  ghost predicate FreshPair(db: Db, req: JoinReq) {
    forall i :: 0 <= i < |db.orders| ==> !OfPair(req.user, req.outTradeNo)(db.orders[i])
  }

  // ---- transactions ---------------------------------------------------------------------------

  function NewOrder(act: Activity, req: JoinReq, team: string, take: int): Order {
    Order(req.user, team, req.activity, OrderCreate, req.outTradeNo,
          BizKey(req.activity, req.user, take + 1), act.endTime, None, 0)
  }

  /** Opens a team or takes one more seat in it, and inserts the order. */
  function LockTx(db: Db, act: Activity, req: JoinReq, take: int, newTeam: string, now: int): Tx {
    if req.team == "" && newTeam in db.teams then Rollback(DuplicateKey)
    else if req.team != "" && !(req.team in db.teams && db.teams[req.team].lock < db.teams[req.team].target) then
      Rollback(E0005)
    else if BizIdTaken(db.orders, BizKey(req.activity, req.user, take + 1)) then Rollback(IndexException)
    else
      var id := if req.team == "" then newTeam else req.team;
      var team :=
        if req.team == "" then Team(req.activity, act.target, 0, 1, Progress, now + act.validTime * MINUTE)
        else db.teams[id].(lock := db.teams[id].lock + 1);
      Commit(db.(teams := db.teams[id := team], orders := db.orders + [NewOrder(act, req, id, take)]))
  }

  /** Marks the payer's single unpaid row paid and counts it; when the snapshot says it is the last
      one missing, the team is marked formed and its notification is stored. */
  function SettleTx(db: Db, user: string, outTradeNo: string, payTime: int, id: string, snap: Team): Tx {
    if Count(db.orders, UnpaidOfPair(user, outTradeNo)) != 1 then Rollback(UpdateZero)
    else
      var row := FindFirst(db.orders, UnpaidOfPair(user, outTradeNo));
      if row == |db.orders| then Rollback(UpdateZero)
      else if !(id in db.teams && db.teams[id].complete < db.teams[id].target) then Rollback(UpdateZero)
      else
        var orders := db.orders[row := db.orders[row].(status := OrderComplete, paidAt := Some(payTime))];
        var counted := db.teams[id].(complete := db.teams[id].complete + 1);
        if snap.target - snap.complete != 1 then Commit(Db(db.teams[id := counted], orders, db.tasks))
        else if counted.status != Progress then Rollback(UpdateZero)
        else
          Commit(Db(db.teams[id := counted.(status := Complete)], orders,
                    db.tasks + [Settlement(id, snap.activity, outTradeNo, PaidNos(orders, id))]))
  }

  /** The team row after a refund: doRefund adds the deltas; PaidTeam2Refund also sets the status. */
  function RefundedTeam(kind: RefundType, team: Team): Team {
    var (dLock, dComplete) := RefundDeltas(kind);
    var counted := team.(lock := team.lock + dLock, complete := team.complete + dComplete);
    if kind != PaidFormed then counted
    else counted.(status := if counted.complete <= 0 then Fail else CompleteFail)
  }

  /** Closes the order, gives its seat back and stores the refund notification. */
  function RefundTx(db: Db, kind: RefundType, user: string, row: nat, id: string, activity: int, outTradeNo: string): Tx {
    if !(row < |db.orders| && db.orders[row].user == user && db.orders[row].status == RefundFrom(kind)) then
      Rollback(UpdateZero)
    else if id !in db.teams then Rollback(if kind == PaidFormed then RecordNotFound else UpdateZero)
    else
      Commit(Db(db.teams[id := RefundedTeam(kind, db.teams[id])],
                db.orders[row := db.orders[row].(status := OrderClose)],
                db.tasks + [Refund(kind, id, activity, user, row, outTradeNo)]))
  }

  /** Raises the history count of an order whose recovery was just counted. */
  function Credit(db: Db, row: nat): Db
    requires row < |db.orders|
  {
    db.(orders := db.orders[row := db.orders[row].(credits := db.orders[row].credits + 1)])
  }
}
