/** The rows of the trading context and the value objects the services decide on. */
module TradeModel {
  import KeyScheme

  datatype Option<+T> = None | Some(value: T)

  /** group_buy_order.status: 0, 1, 2 and 3. */
  datatype TeamStatus = Progress | Complete | Fail | CompleteFail

  /** group_buy_order_list.status: 0, 1 and 2. */
  datatype OrderStatus = OrderCreate | OrderComplete | OrderClose

  /** Points in time are in seconds, an activity's validTime is in minutes. */
  const MINUTE: int := 60

  /** What the trade reads of an activity; it does not change while teams run. */
  datatype Activity = Activity(target: nat, takeLimit: int, validTime: int, endTime: int)

  /** A group_buy_order row; the team id is its key in the table. */
  datatype Team = Team(activity: int, target: int, complete: int, lock: int, status: TeamStatus, validEnd: int)

  /** What a biz_id is printed from; KeyScheme.BizId is the text, one per key. */
  datatype BizKey = BizKey(activity: int, user: string, take: int)

  /** A group_buy_order_list row. Its order id is its row number.
      credits is a history variable, not a column: how many times the recovery counter was
      raised on behalf of this order. */
  datatype Order = Order(
    user: string, team: string, activity: int, status: OrderStatus, outTradeNo: string,
    bizId: BizKey, endTime: int, paidAt: Option<int>, credits: nat)

  /** RefundUnpaidUnlock, RefundPaidUnformed and RefundPaidFormed. */
  datatype RefundType = UnpaidUnlock | PaidUnformed | PaidFormed

  /** A notify_task row with its parameters left unencoded. */
  datatype Task =
    | Settlement(team: string, activity: int, payer: string, outTradeNos: seq<string>)
    | Refund(kind: RefundType, team: string, activity: int, user: string, row: nat, outTradeNo: string)

  datatype Error = E0005 | IndexException | UpdateZero | DuplicateKey | RecordNotFound

  /** The strategy for a (team, order) pair of statuses; None is the unsupported combination. */
  function GetRefundStrategy(team: TeamStatus, order: OrderStatus): (r: Option<RefundType>)
    ensures r.Some? ==> (r.value == UnpaidUnlock <==> order == OrderCreate) && order != OrderClose
    ensures r.Some? ==> (r.value == PaidFormed <==> team != Progress)
    ensures r.None? <==> order == OrderClose || team == Fail || (order == OrderCreate && team != Progress)
  {
    if team.Progress? && order.OrderCreate? then Some(UnpaidUnlock)
    else if team.Progress? && order.OrderComplete? then Some(PaidUnformed)
    else if (team.Complete? || team.CompleteFail?) && order.OrderComplete? then Some(PaidFormed)
    else None
  }

  /** The deltas the three aggregates carry: (lock_count, complete_count). */
  function RefundDeltas(kind: RefundType): (int, int) {
    match kind
    case UnpaidUnlock => (-1, 0)
    case PaidUnformed => (-1, -1)
    case PaidFormed => (-1, -1)
  }

  /** The order status the refund transaction demands. */
  function RefundFrom(kind: RefundType): OrderStatus {
    if kind == UnpaidUnlock then OrderCreate else OrderComplete
  }

  /** Statuses of a team that was marked formed. */
  predicate IsFormed(s: TeamStatus) { s == Complete || s == CompleteFail }

  /** The forward order of team statuses: 0, then 1, then 3, then 2. */
  predicate StatusForward(s: TeamStatus, t: TeamStatus) {
    s == t || s == Progress || (s == Complete && t != Progress) || (s == CompleteFail && t == Fail)
  }

  /** One step of a team's status: 0 to 1, 1 to 3 or 2, 3 to 2, or unchanged. */
  predicate StatusStep(s: TeamStatus, t: TeamStatus) {
    s == t || (s == Progress && t == Complete) || (s == Complete && t != Progress) || (s == CompleteFail && t == Fail)
  }

  predicate OrderForward(s: OrderStatus, t: OrderStatus) {
    s == OrderCreate || s == t || (s == OrderComplete && t == OrderClose)
  }

  function BizText(k: BizKey): string { KeyScheme.BizId(k.activity, k.user, k.take) }

  /** The unique index compares texts; that is comparing keys. */
  lemma BizTextInjective(k: BizKey, j: BizKey)
    ensures BizText(k) == BizText(j) <==> k == j
  {
    if BizText(k) == BizText(j) {
      KeyScheme.BizIdInjective(k.activity, k.user, k.take, j.activity, j.user, j.take);
    }
  }
}
