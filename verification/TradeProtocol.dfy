/** Lock, settlement, refund and recovery requests as processes whose atomic steps interleave.
    Each database read, each transaction, each Lua script and each Redis command is one step; what a
    process read stays in its state until it uses it. */
module TradeProtocol {
  import opened Counting
  import opened TradeModel
  import opened TradeTransactions

  /** (activity, team): what a pair of stock and recovery keys is built from. */
  type Key = (int, string)

  /** The counters, seat slots and refund locks. A missing counter reads as 0. */
  datatype Redis = Redis(stock: map<Key, nat>, recovery: map<Key, nat>, slots: set<(Key, nat)>, refundLocks: set<nat>)

  /** A refund message: the fields of the refund task its consumer uses. */
  datatype RefundMsg = RefundMsg(activity: int, team: string, row: nat)

  datatype Proc =
    // LockMarketPayOrder
    | JoinStart(req: JoinReq)
    | JoinProgress(req: JoinReq)
    | JoinCount(req: JoinReq)
    | JoinOccupy(req: JoinReq, take: int)
    | JoinTx(req: JoinReq, take: int)
    | JoinCompensate(req: JoinReq)
    // SettlementMarketPayOrder
    | SettleStart(user: string, outTradeNo: string, payTime: int)
    | SettleTeam(user: string, outTradeNo: string, payTime: int, row: nat, team: string)
    | SettleCommit(user: string, outTradeNo: string, payTime: int, row: nat, team: string, snap: Team)
    // RefundOrder
    | RefundStart(user: string, outTradeNo: string)
    | RefundTeam(user: string, outTradeNo: string, row: nat, team: string, status: OrderStatus)
    | RefundCommit(user: string, outTradeNo: string, row: nat, team: string, kind: RefundType, snap: Team)
    | Done
    // a refund message in RabbitMQ, from its publication to its acknowledgement
    | MsgQueued(msg: RefundMsg)
    | MsgLock(msg: RefundMsg)
    | MsgIncr(msg: RefundMsg)
    | MsgDel(msg: RefundMsg)
    | MsgAck(msg: RefundMsg)
    | MsgAcked(msg: RefundMsg)

  /** lost and stuck are history: compensations whose INCR failed, and refund locks left behind
      without a recovery. */
  datatype Sys = Sys(db: Db, redis: Redis, procs: seq<Proc>, lost: map<Key, nat>, stuck: set<nat>)

  /** What the outside decides at a step: whether the store refuses (or an eligibility check does),
      the clock, and the team id drawn. */
  datatype Env = Env(fails: bool, now: int, newTeam: string)

  datatype Label =
    | NewJoin(req: JoinReq)
    | NewSettle(user: string, outTradeNo: string, payTime: int)
    | NewRefund(user: string, outTradeNo: string)
    | PublishRefund(task: nat)
    | Advance(i: nat, env: Env)
    | ConsumerDies(i: nat)
    | SlotExpires(key: Key, slot: nat)

  function Get(m: map<Key, nat>, k: Key): nat { if k in m then m[k] else 0 }

  function Bump(m: map<Key, nat>, k: Key): map<Key, nat> { m[k := Get(m, k) + 1] }

  const NO_KEYS: map<Key, nat> := map[]
  const INIT: Sys := Sys(EMPTY, Redis(NO_KEYS, NO_KEYS, {}, {}), [], NO_KEYS, {})

  /** The Lua script: count up, back out above the quota or on a taken slot, else take the slot. */
  function OccupyScript(r: Redis, k: Key, target: nat): (Redis, bool) {
    var occupy := Get(r.stock, k) + 1;
    if occupy > target + Get(r.recovery, k) then (r, false)
    else if (k, occupy) in r.slots then (r, false)
    else (r.(stock := r.stock[k := occupy], slots := r.slots + {(k, occupy)}), true)
  }

  function Put(s: Sys, i: nat, p: Proc): Sys
    requires i < |s.procs|
  {
    s.(procs := s.procs[i := p])
  }

  function KeyOf(req: JoinReq): Key { (req.activity, req.team) }

  // ---- LockMarketPayOrder ---------------------------------------------------------------------

  function JoinStep(acts: map<int, Activity>, s: Sys, i: nat, env: Env): Sys
    requires i < |s.procs|
    requires s.procs[i].JoinStart? || s.procs[i].JoinProgress? || s.procs[i].JoinCount?
          || s.procs[i].JoinOccupy? || s.procs[i].JoinTx? || s.procs[i].JoinCompensate?
  {
    var p, db := s.procs[i], s.db;
    var req := p.req;
    match p
    case JoinStart(_) =>
      var row := FindFirst(db.orders, OfPair(req.user, req.outTradeNo));
      if env.fails || (row < |db.orders| && db.orders[row].status == OrderCreate) then Put(s, i, Done)
      else Put(s, i, if req.team == "" then JoinCount(req) else JoinProgress(req))
    case JoinProgress(_) =>
      if env.fails || (req.team in db.teams && db.teams[req.team].target == db.teams[req.team].lock) then Put(s, i, Done)
      else Put(s, i, JoinCount(req))
    case JoinCount(_) =>
      var take := Count(db.orders, OfTaker(req.activity, req.user));
      if env.fails || req.activity !in acts then Put(s, i, Done)
      else if acts[req.activity].takeLimit > 0 && take >= acts[req.activity].takeLimit then Put(s, i, Done)
      else Put(s, i, if req.team == "" then JoinTx(req, take) else JoinOccupy(req, take))
    case JoinOccupy(_, take) =>
      if env.fails || req.activity !in acts then Put(s, i, Done)
      else
        var (redis, ok) := OccupyScript(s.redis, KeyOf(req), acts[req.activity].target);
        Put(s, i, if ok then JoinTx(req, take) else Done).(redis := redis)
    case JoinTx(_, take) =>
      var failed := Put(s, i, if req.team == "" then Done else JoinCompensate(req));
      if env.fails || req.activity !in acts then failed
      else
        var tx := LockTx(db, acts[req.activity], req, take, env.newTeam, env.now);
        if tx.Commit? then Put(s, i, Done).(db := tx.db) else failed
    case JoinCompensate(_) =>
      if env.fails then Put(s, i, Done).(lost := Bump(s.lost, KeyOf(req)))
      else Put(s, i, Done).(redis := s.redis.(recovery := Bump(s.redis.recovery, KeyOf(req))))
  }

  // ---- SettlementMarketPayOrder ---------------------------------------------------------------

  function SettleStep(s: Sys, i: nat, env: Env): Sys
    requires i < |s.procs|
    requires s.procs[i].SettleStart? || s.procs[i].SettleTeam? || s.procs[i].SettleCommit?
  {
    var db := s.db;
    match s.procs[i]
    case SettleStart(user, no, payTime) =>
      var row := FindFirst(db.orders, OfPair(user, no));
      if env.fails || row == |db.orders| || db.orders[row].status == OrderClose then Put(s, i, Done)
      else Put(s, i, SettleTeam(user, no, payTime, row, db.orders[row].team))
    case SettleTeam(user, no, payTime, row, team) =>
      if env.fails || team !in db.teams || payTime >= db.teams[team].validEnd then Put(s, i, Done)
      else Put(s, i, SettleCommit(user, no, payTime, row, team, db.teams[team]))
    case SettleCommit(user, no, payTime, row, team, snap) =>
      var tx := SettleTx(db, user, no, payTime, team, snap);
      if env.fails || tx.Rollback? then Put(s, i, Done) else Put(s, i, Done).(db := tx.db)
  }

  // ---- RefundOrder ----------------------------------------------------------------------------

  function RefundStep(s: Sys, i: nat, env: Env): Sys
    requires i < |s.procs|
    requires s.procs[i].RefundStart? || s.procs[i].RefundTeam? || s.procs[i].RefundCommit?
  {
    var db := s.db;
    match s.procs[i]
    case RefundStart(user, no) =>
      var row := FindFirst(db.orders, OfPair(user, no));
      if env.fails || row == |db.orders| then Put(s, i, Done)
      else Put(s, i, RefundTeam(user, no, row, db.orders[row].team, db.orders[row].status))
    case RefundTeam(user, no, row, team, status) =>
      if env.fails || team !in db.teams || status == OrderClose then Put(s, i, Done)
      else
        var kind := GetRefundStrategy(db.teams[team].status, status);
        Put(s, i, if kind.None? then Done else RefundCommit(user, no, row, team, kind.value, db.teams[team]))
    case RefundCommit(user, no, row, team, kind, snap) =>
      var tx := RefundTx(db, kind, user, row, team, snap.activity, no);
      if env.fails || tx.Rollback? then Put(s, i, Done) else Put(s, i, Done).(db := tx.db)
  }

  // ---- refund consumer ------------------------------------------------------------------------

  /** Refund2AddRecovery between delivery and acknowledgement. A negative acknowledgement, and an
      acknowledgement that gets lost, put the message back in the queue. */
  function MsgStep(s: Sys, i: nat, env: Env): Sys
    requires i < |s.procs|
    requires s.procs[i].MsgQueued? || s.procs[i].MsgLock? || s.procs[i].MsgIncr? || s.procs[i].MsgDel? || s.procs[i].MsgAck?
  {
    var r := s.redis;
    match s.procs[i]
    case MsgQueued(m) => Put(s, i, MsgLock(m))
    case MsgLock(m) =>
      if env.fails then Put(s, i, MsgQueued(m))
      else if m.row in r.refundLocks then Put(s, i, MsgAck(m))
      else Put(s, i, MsgIncr(m)).(redis := r.(refundLocks := r.refundLocks + {m.row}))
    case MsgIncr(m) =>
      if env.fails || m.row >= |s.db.orders| then Put(s, i, MsgDel(m))
      else Put(s, i, MsgAck(m)).(redis := r.(recovery := Bump(r.recovery, (m.activity, m.team))), db := Credit(s.db, m.row))
    case MsgDel(m) =>
      if env.fails then Put(s, i, MsgQueued(m)).(stuck := s.stuck + {m.row})
      else Put(s, i, MsgQueued(m)).(redis := r.(refundLocks := r.refundLocks - {m.row}))
    case MsgAck(m) => Put(s, i, if env.fails then MsgQueued(m) else MsgAcked(m))
  }

  // ---- steps and runs -------------------------------------------------------------------------

  /** One step; a label that names no such process or task changes nothing. */
  function Step(acts: map<int, Activity>, s: Sys, l: Label): Sys {
    match l
    case NewJoin(req) => s.(procs := s.procs + [JoinStart(req)])
    case NewSettle(user, no, payTime) => s.(procs := s.procs + [SettleStart(user, no, payTime)])
    case NewRefund(user, no) => s.(procs := s.procs + [RefundStart(user, no)])
    case PublishRefund(j) =>
      if j < |s.db.tasks| && s.db.tasks[j].Refund? then
        s.(procs := s.procs + [MsgQueued(RefundMsg(s.db.tasks[j].activity, s.db.tasks[j].team, s.db.tasks[j].row))])
      else s
    case Advance(i, env) =>
      if i >= |s.procs| then s
      else (
        match s.procs[i]
        case JoinStart(_) => JoinStep(acts, s, i, env)
        case JoinProgress(_) => JoinStep(acts, s, i, env)
        case JoinCount(_) => JoinStep(acts, s, i, env)
        case JoinOccupy(_, _) => JoinStep(acts, s, i, env)
        case JoinTx(_, _) => JoinStep(acts, s, i, env)
        case JoinCompensate(_) => JoinStep(acts, s, i, env)
        case SettleStart(_, _, _) => SettleStep(s, i, env)
        case SettleTeam(_, _, _, _, _) => SettleStep(s, i, env)
        case SettleCommit(_, _, _, _, _, _) => SettleStep(s, i, env)
        case RefundStart(_, _) => RefundStep(s, i, env)
        case RefundTeam(_, _, _, _, _) => RefundStep(s, i, env)
        case RefundCommit(_, _, _, _, _, _) => RefundStep(s, i, env)
        case Done => s
        case MsgAcked(_) => s
        case _ => MsgStep(s, i, env))
    case ConsumerDies(i) =>
      if i >= |s.procs| then s
      else (
        match s.procs[i]
        case MsgLock(m) => Put(s, i, MsgQueued(m))
        case MsgIncr(m) => Put(s, i, MsgQueued(m)).(stuck := s.stuck + {m.row})
        case MsgDel(m) => Put(s, i, MsgQueued(m)).(stuck := s.stuck + {m.row})
        case MsgAck(m) => Put(s, i, MsgQueued(m))
        case _ => s)
    case SlotExpires(k, n) => s.(redis := s.redis.(slots := s.redis.slots - {(k, n)}))
  }

  /** A step of process i changes no other. */
  predicate MovesOne(s: Sys, next: Sys, i: nat)
    requires i < |s.procs|
  {
    |next.procs| == |s.procs| && next.procs == s.procs[i := next.procs[i]]
  }

  lemma JoinMovesOne(acts: map<int, Activity>, s: Sys, i: nat, env: Env)
    requires i < |s.procs|
    requires s.procs[i].JoinStart? || s.procs[i].JoinProgress? || s.procs[i].JoinCount?
          || s.procs[i].JoinOccupy? || s.procs[i].JoinTx? || s.procs[i].JoinCompensate?
    ensures MovesOne(s, JoinStep(acts, s, i, env), i)
  {
  }

  lemma SettlementMovesOne(s: Sys, i: nat, env: Env)
    requires i < |s.procs|
    requires s.procs[i].SettleStart? || s.procs[i].SettleTeam? || s.procs[i].SettleCommit?
    ensures MovesOne(s, SettleStep(s, i, env), i)
  {
  }

  lemma RefundMovesOne(s: Sys, i: nat, env: Env)
    requires i < |s.procs|
    requires s.procs[i].RefundStart? || s.procs[i].RefundTeam? || s.procs[i].RefundCommit?
    ensures MovesOne(s, RefundStep(s, i, env), i)
  {
  }

  lemma MessageMovesOne(s: Sys, i: nat, env: Env)
    requires i < |s.procs|
    requires s.procs[i].MsgQueued? || s.procs[i].MsgLock? || s.procs[i].MsgIncr? || s.procs[i].MsgDel? || s.procs[i].MsgAck?
    ensures MovesOne(s, MsgStep(s, i, env), i)
  {
  }

  lemma AdvanceMovesOne(acts: map<int, Activity>, s: Sys, i: nat, env: Env)
    requires i < |s.procs|
    ensures MovesOne(s, Step(acts, s, Advance(i, env)), i)
  {
    var p := s.procs[i];
    if p.SettleStart? || p.SettleTeam? || p.SettleCommit? {
      SettlementMovesOne(s, i, env);
    } else if p.RefundStart? || p.RefundTeam? || p.RefundCommit? {
      RefundMovesOne(s, i, env);
    } else if p.MsgQueued? || p.MsgLock? || p.MsgIncr? || p.MsgDel? || p.MsgAck? {
      MessageMovesOne(s, i, env);
    } else if !p.Done? && !p.MsgAcked? {
      JoinMovesOne(acts, s, i, env);
    }
  }

  /** The facts the code leaves to its callers: a join that is written names the team's own activity, and a
      (user, out_trade_no) pair that no order has yet. A join that the transaction refuses may name any. */
  ghost predicate Assumed(acts: map<int, Activity>, s: Sys, l: Label) {
    l.Advance? && l.i < |s.procs| && s.procs[l.i].JoinTx? && Step(acts, s, l).db != s.db ==>
      OwnTeam(s.db, s.procs[l.i].req) && FreshPair(s.db, s.procs[l.i].req)
  }

  /** A step that meets the assumptions. */
  ghost predicate Moves(acts: map<int, Activity>, s: Sys, l: Label, t: Sys) {
    Assumed(acts, s, l) && t == Step(acts, s, l)
  }

  /** A run: the states it passes through and the labels of the steps between them. */
  ghost predicate IsRun(acts: map<int, Activity>, states: seq<Sys>, labels: seq<Label>) {
    && |states| == |labels| + 1 && states[0] == INIT
    && (forall j {:trigger labels[j]} :: 0 <= j < |labels| ==> Moves(acts, states[j], labels[j], states[j + 1]))
  }

  /** A state some run leads to. */
  ghost predicate Reachable(acts: map<int, Activity>, s: Sys) {
    exists states: seq<Sys>, labels: seq<Label> :: IsRun(acts, states, labels) && s == states[|labels|]
  }

  /** Runs in which a pair may be used again and a join may name any activity. */
  ghost predicate FreelyReachable(acts: map<int, Activity>, s: Sys) {
    exists states: seq<Sys>, labels: seq<Label> :: IsFreeRun(acts, states, labels) && s == states[|labels|]
  }

  ghost predicate IsFreeRun(acts: map<int, Activity>, states: seq<Sys>, labels: seq<Label>) {
    && |states| == |labels| + 1 && states[0] == INIT
    && (forall j {:trigger labels[j]} :: 0 <= j < |labels| ==> Takes(acts, states[j], labels[j], states[j + 1]))
  }

  ghost predicate Takes(acts: map<int, Activity>, s: Sys, l: Label, t: Sys) { t == Step(acts, s, l) }
}
