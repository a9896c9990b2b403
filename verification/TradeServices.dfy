/** The lock, settlement and refund services running one request from start to end. A request on its own does what
    its process does in the protocol. */
module TradeServices {
  import opened Counting
  import opened TradeModel
  import opened TradeTransactions
  import opened TradeInvariant
  import opened TradeProtocol
  import opened TradeRepository
  import opened RedisStore
  import KeyScheme

  /** The rule chain of a join: the take-limit read and, for an existing team, the occupy script. */
  ghost function JoinFiltered(acts: map<int, Activity>, s: Sys, count: Env, occupy: Env): Sys
    requires |s.procs| == 1 && s.procs[0].JoinCount?
  {
    var s1 := JoinStep(acts, s, 0, count);
    if s1.procs[0].JoinOccupy? then JoinStep(acts, s1, 0, occupy) else s1
  }

  /** What follows it: the transaction and, if that fails, the compensation. */
  ghost function JoinFinished(acts: map<int, Activity>, s: Sys, lock: Env, back: Env): Sys
    requires |s.procs| == 1
  {
    var s1 := if s.procs[0].JoinTx? then JoinStep(acts, s, 0, lock) else s;
    if s1.procs[0].JoinCompensate? then JoinStep(acts, s1, 0, back) else s1
  }

  /** The steps of a join that nothing interrupts, from its take-limit read on. */
  ghost function JoinAlone(acts: map<int, Activity>, s: Sys, count: Env, occupy: Env, lock: Env, back: Env): Sys
    requires |s.procs| == 1 && s.procs[0].JoinCount?
  {
    JoinFinished(acts, JoinFiltered(acts, s, count, occupy), lock, back)
  }

  /** The two checks of a join request before the lock service. */
  ghost function RequestChecked(acts: map<int, Activity>, s: Sys, exist: Env, progress: Env): Sys
    requires |s.procs| == 1 && s.procs[0].JoinStart?
  {
    var s1 := JoinStep(acts, s, 0, exist);
    if s1.procs[0].JoinProgress? then JoinStep(acts, s1, 0, progress) else s1
  }

  /** A join from its arrival, with the checks that come before the lock service. */
  ghost function RequestAlone(
    acts: map<int, Activity>, s: Sys, exist: Env, progress: Env, count: Env, occupy: Env, lock: Env, back: Env): Sys
    requires |s.procs| == 1 && s.procs[0].JoinStart?
  {
    var s2 := RequestChecked(acts, s, exist, progress);
    if s2.procs[0].JoinCount? then JoinAlone(acts, s2, count, occupy, lock, back) else s2
  }

  /** The two reads of a settlement that nothing interrupts. */
  ghost function SettleFiltered(s: Sys, order: Env, team: Env): Sys
    requires |s.procs| == 1 && s.procs[0].SettleStart?
  {
    var s1 := SettleStep(s, 0, order);
    if s1.procs[0].SettleTeam? then SettleStep(s1, 0, team) else s1
  }

  ghost function SettleAlone(s: Sys, order: Env, team: Env, pay: Env): Sys
    requires |s.procs| == 1 && s.procs[0].SettleStart?
  {
    var s2 := SettleFiltered(s, order, team);
    if s2.procs[0].SettleCommit? then SettleStep(s2, 0, pay) else s2
  }

  /** And of a refund. */
  ghost function RefundFiltered(s: Sys, order: Env, team: Env): Sys
    requires |s.procs| == 1 && s.procs[0].RefundStart?
  {
    var s1 := RefundStep(s, 0, order);
    if s1.procs[0].RefundTeam? then RefundStep(s1, 0, team) else s1
  }

  ghost function RefundAlone(s: Sys, order: Env, team: Env, refund: Env): Sys
    requires |s.procs| == 1 && s.procs[0].RefundStart?
  {
    var s2 := RefundFiltered(s, order, team);
    if s2.procs[0].RefundCommit? then RefundStep(s2, 0, refund) else s2
  }

  /** The tables seen as a system with one process and an untouched Redis. */
  ghost function Only(db: Db, p: Proc): Sys { INIT.(db := db, procs := [p]) }

  /** What a refund request comes to; Failed and Unsupported are errors, the others are not. */
  datatype RefundBehavior = NotFound | Repeat | Unsupported | Failed | Success

  /** What its reads come to: an answer, or a strategy for an order. */
  datatype RefundChoice = Answer(behavior: RefundBehavior) | Chosen(row: nat, kind: RefundType)

  /** What the rule chain asks of a join: a count within the limit and, for an existing team, a seat in Redis. */
  ghost predicate PassesFilter(acts: map<int, Activity>, db: Db, r: Redis, req: JoinReq, count: Env, occupy: Env) {
    && !count.fails && req.activity in acts
    && var act, k := acts[req.activity], KeyOf(req);
    && (act.takeLimit <= 0 || Count(db.orders, OfTaker(req.activity, req.user)) < act.takeLimit)
    && (req.team == ""
        || (!occupy.fails && Get(r.stock, k) < act.target + Get(r.recovery, k) && (k, Get(r.stock, k) + 1) !in r.slots))
  }

  /** What the transaction asks of it: a seat, and a biz_id that no order has. */
  ghost predicate Writable(db: Db, req: JoinReq, take: int, lock: Env) {
    && !lock.fails
    && (if req.team == "" then lock.newTeam !in db.teams
        else req.team in db.teams && db.teams[req.team].lock < db.teams[req.team].target)
    && forall i :: 0 <= i < |db.orders| ==> db.orders[i].bizId != BizKey(req.activity, req.user, take + 1)
  }

  /** What a lock that succeeds writes: one unpaid order, in a team that it opens or takes a seat in. */
  ghost predicate Locks(acts: map<int, Activity>, db: Db, req: JoinReq, take: int, lock: Env, next: Db) {
    && req.activity in acts && next.tasks == db.tasks
    && var id, act := if req.team == "" then lock.newTeam else req.team, acts[req.activity];
    && next.orders == db.orders + [Order(req.user, id, req.activity, OrderCreate, req.outTradeNo,
                                         BizKey(req.activity, req.user, take + 1), act.endTime, None, 0)]
    && (req.team == "" ==> next.teams == db.teams[id := Team(req.activity, act.target, 0, 1, Progress, lock.now + 60 * act.validTime)])
    && (req.team != "" ==> id in db.teams && next.teams == db.teams[id := db.teams[id].(lock := db.teams[id].lock + 1)])
  }

  class TradeLockOrderService {
    const acts: map<int, Activity>
    const repo: TradeRepository
    const redis: RedisStore
    ghost var lost: map<Key, nat>

    constructor (acts: map<int, Activity>, repo: TradeRepository, redis: RedisStore)
      ensures this.acts == acts && this.repo == repo && this.redis == redis && lost == NO_KEYS
    {
      this.acts, this.repo, this.redis, lost := acts, repo, redis, NO_KEYS;
    }

    ghost function System(p: Proc): Sys
      reads this, repo, redis
    {
      Sys(repo.Tables(), redis.view, [p], lost, {})
    }

    /** The rule chain: the order count it read, or None when it refused. */
    method Filter(req: JoinReq, count: Env, occupy: Env) returns (r: Option<int>)
      requires redis.Valid()
      modifies redis
      ensures redis.Valid()
      ensures KeyScheme.Plain(req.team) ==>
                System(if r.Some? then JoinTx(req, r.value) else Done)
                == JoinFiltered(acts, old(System(JoinCount(req))), count, occupy)
      ensures r.Some? ==> req.activity in acts && r.value == Count(repo.orders, OfTaker(req.activity, req.user))
      ensures KeyScheme.Plain(req.team) ==>
                (r.Some? <==> PassesFilter(acts, repo.Tables(), old(redis.view), req, count, occupy))
      ensures r.Some? ==> r.value == |set i | 0 <= i < |repo.orders| && repo.orders[i].user == req.user
                                              && repo.orders[i].activity == req.activity|
      ensures var taken := |set i | 0 <= i < |repo.orders| && repo.orders[i].user == req.user
                                    && repo.orders[i].activity == req.activity|;
              var k, was := (req.activity, req.team), old(redis.view);
              KeyScheme.Plain(req.team) ==>
                && (r.Some? <==>
                      && !count.fails && req.activity in acts
                      && (acts[req.activity].takeLimit <= 0 || taken < acts[req.activity].takeLimit)
                      && (req.team == ""
                          || (!occupy.fails && Get(was.stock, k) < acts[req.activity].target + Get(was.recovery, k)
                              && (k, Get(was.stock, k) + 1) !in was.slots)))
                && redis.view == if r.None? || req.team == "" then was
                                 else was.(stock := was.stock[k := Get(was.stock, k) + 1],
                                           slots := was.slots + {(k, Get(was.stock, k) + 1)})
    {
      ghost var s0 := System(JoinCount(req));
      Alone(s0, Done);
      if count.fails || req.activity !in acts {
        return None;
      }
      var act := acts[req.activity];
      var take := repo.QueryOrderCount(req.activity, req.user);
      if act.takeLimit > 0 && take >= act.takeLimit {
        return None;
      }
      Alone(s0, JoinTx(req, take));
      if req.team != "" {
        ghost var s1 := System(JoinOccupy(req, take));
        Alone(s0, JoinOccupy(req, take));
        Alone(s1, Done);
        Alone(s1, JoinTx(req, take));
        if occupy.fails {
          return None;
        }
        var seat := redis.OccupyTeamStock(req.activity, req.team, act.target);
        if !seat {
          return None;
        }
      }
      return Some(take);
    }

    /** The transaction, and the seat given back to the recovery counter if it fails. */
    method Finish(req: JoinReq, take: int, lock: Env, back: Env) returns (ok: bool)
      requires redis.Valid() && req.activity in acts
      modifies this, repo, redis
      ensures redis.Valid()
      ensures System(Done) == JoinFinished(acts, old(System(JoinTx(req, take))), lock, back)
      ensures !ok ==> repo.Tables() == old(repo.Tables())
      ensures ok ==>
                LockTx(old(repo.Tables()), acts[req.activity], req, take, lock.newTeam, lock.now) == Commit(repo.Tables())
      ensures ok <==> Writable(old(repo.Tables()), req, take, lock)
      ensures ok ==> Locks(acts, old(repo.Tables()), req, take, lock, repo.Tables())
      ensures ok <==>
                && !lock.fails
                && (if req.team == "" then lock.newTeam !in old(repo.teams)
                    else req.team in old(repo.teams) && old(repo.teams)[req.team].lock < old(repo.teams)[req.team].target)
                && forall i :: 0 <= i < |old(repo.orders)| ==>
                     old(repo.orders)[i].bizId != BizKey(req.activity, req.user, take + 1)
      ensures var k, was := (req.activity, req.team), old(redis.view);
              redis.view == if ok || req.team == "" || back.fails then was
                            else was.(recovery := was.recovery[k := Get(was.recovery, k) + 1])
      ensures var k := (req.activity, req.team);
              lost == if ok || req.team == "" || !back.fails then old(lost) else old(lost)[k := Get(old(lost), k) + 1]
      ensures ok ==>
                var id := if req.team == "" then lock.newTeam else req.team;
                && repo.orders == old(repo.orders) + [Order(req.user, id, req.activity, OrderCreate, req.outTradeNo,
                     BizKey(req.activity, req.user, take + 1), acts[req.activity].endTime, None, 0)]
                && repo.tasks == old(repo.tasks)
                && repo.teams == old(repo.teams)[id :=
                     if req.team == "" then
                       Team(req.activity, acts[req.activity].target, 0, 1, Progress, lock.now + 60 * acts[req.activity].validTime)
                     else old(repo.teams)[id].(lock := old(repo.teams)[id].lock + 1)]
    {
      ghost var s0 := System(JoinTx(req, take));
      Alone(s0, Done);
      Alone(s0, JoinCompensate(req));
      ok := !lock.fails;
      if ok {
        var failure := repo.LockMarketPayOrder(acts[req.activity], req, take, lock.newTeam, lock.now);
        ok := failure.None?;
      }
      if !ok && req.team != "" {
        Alone(System(JoinCompensate(req)), Done);
        if back.fails {
          lost := Bump(lost, KeyOf(req));
        } else {
          redis.RecoveryTeamStock(req.activity, req.team);
        }
      }
    }

    /** Checks the take limit, occupies a seat in Redis, writes the tables and, if that fails, gives the seat
        back to the recovery counter. */
    method LockMarketPayOrder(req: JoinReq, count: Env, occupy: Env, lock: Env, back: Env) returns (ok: bool)
      requires redis.Valid()
      modifies this, repo, redis
      ensures redis.Valid()
      ensures KeyScheme.Plain(req.team) ==>
                System(Done) == JoinAlone(acts, old(System(JoinCount(req))), count, occupy, lock, back)
      ensures !ok ==> repo.Tables() == old(repo.Tables())
      ensures ok ==>
                && req.activity in acts
                && LockTx(old(repo.Tables()), acts[req.activity], req, Count(old(repo.orders), OfTaker(req.activity, req.user)),
                          lock.newTeam, lock.now) == Commit(repo.Tables())
      ensures ok ==> Locks(acts, old(repo.Tables()), req, Count(old(repo.orders), OfTaker(req.activity, req.user)), lock, repo.Tables())
      ensures KeyScheme.Plain(req.team) ==>
                (ok <==>
                   && PassesFilter(acts, old(repo.Tables()), old(redis.view), req, count, occupy)
                   && Writable(old(repo.Tables()), req, Count(old(repo.orders), OfTaker(req.activity, req.user)), lock))
    {
      ghost var db, taken := repo.Tables(), Count(repo.orders, OfTaker(req.activity, req.user));
      var take := Filter(req, count, occupy);
      if take.None? {
        return false;
      }
      assert take.value == taken && repo.Tables() == db;
      ok := Finish(req, take.value, lock, back);
      assert ok <==> Writable(db, req, taken, lock);
      assert ok ==> Locks(acts, db, req, taken, lock, repo.Tables());
    }
  }

  datatype LockReply = Existing(row: nat) | Full | Refused | Locked

  class MarketTradeApp {
    const service: TradeLockOrderService

    constructor (service: TradeLockOrderService)
      ensures this.service == service
    {
      this.service := service;
    }

    /** The order the pair already has while it is unpaid, and the test for a full team. */
    method Check(req: JoinReq, exist: Env, progress: Env) returns (r: Option<LockReply>)
      ensures service.System(if r.Some? then Done else JoinCount(req))
           == RequestChecked(service.acts, service.System(JoinStart(req)), exist, progress)
      ensures var orders := service.repo.orders;
              forall row: nat :: r == Some(Existing(row)) <==>
                && !exist.fails && row < |orders|
                && orders[row].user == req.user && orders[row].outTradeNo == req.outTradeNo && orders[row].status == OrderCreate
                && forall j :: 0 <= j < row ==> orders[j].user != req.user || orders[j].outTradeNo != req.outTradeNo
      ensures var teams := service.repo.teams;
              r == Some(Full) <==>
                && !exist.fails && !(r.Some? && r.value.Existing?) && req.team != "" && !progress.fails
                && req.team in teams && teams[req.team].lock == teams[req.team].target
      ensures r != Some(Locked)
      ensures r == Some(Refused) <==>
                exist.fails || (!(r.Some? && r.value.Existing?) && req.team != "" && progress.fails)
    {
      ghost var s0 := service.System(JoinStart(req));
      Alone(s0, Done);
      Alone(s0, JoinCount(req));
      Alone(s0, JoinProgress(req));
      if exist.fails {
        return Some(Refused);
      }
      var row := service.repo.QueryMarketPayOrder(req.user, req.outTradeNo);
      if row.Some? && service.repo.orders[row.value].status == OrderCreate {
        return Some(Existing(row.value));
      }
      if req.team != "" {
        Alone(service.System(JoinProgress(req)), Done);
        Alone(service.System(JoinProgress(req)), JoinCount(req));
        if progress.fails {
          return Some(Refused);
        }
        if req.team in service.repo.teams && service.repo.teams[req.team].target == service.repo.teams[req.team].lock {
          return Some(Full);
        }
      }
      return None;
    }

    /** Returns the order the pair already has while it is unpaid, refuses a full team, and otherwise locks. A
        refusal of the trial shows as a failure of the count. */
    method LockMarketPayOrder(req: JoinReq, exist: Env, progress: Env, count: Env, occupy: Env, lock: Env, back: Env)
      returns (r: LockReply)
      requires service.redis.Valid()
      modifies service, service.repo, service.redis
      ensures service.redis.Valid()
      ensures KeyScheme.Plain(req.team) ==>
                (service.System(Done)
                 == RequestAlone(service.acts, old(service.System(JoinStart(req))), exist, progress, count, occupy, lock, back))
      ensures var orders := old(service.repo.orders);
              forall row: nat :: r == Existing(row) <==>
                && !exist.fails && row < |orders|
                && orders[row].user == req.user && orders[row].outTradeNo == req.outTradeNo && orders[row].status == OrderCreate
                && forall j :: 0 <= j < row ==> orders[j].user != req.user || orders[j].outTradeNo != req.outTradeNo
      ensures r.Existing? || r == Full ==> service.System(Done) == old(service.System(Done))
      ensures var teams := old(service.repo.teams);
              r == Full <==>
                && !exist.fails && !r.Existing? && req.team != "" && !progress.fails
                && req.team in teams && teams[req.team].lock == teams[req.team].target
      ensures r == Locked <==> |service.repo.orders| == old(|service.repo.orders|) + 1
      ensures r != Locked ==> service.repo.Tables() == old(service.repo.Tables())
      ensures r == Locked ==> Locks(service.acts, old(service.repo.Tables()), req,
                                    Count(old(service.repo.orders), OfTaker(req.activity, req.user)), lock, service.repo.Tables())
      ensures KeyScheme.Plain(req.team) ==>
                (r == Locked <==>
                   && !exist.fails && !r.Existing? && (req.team != "" ==> !progress.fails) && r != Full
                   && PassesFilter(service.acts, old(service.repo.Tables()), old(service.redis.view), req, count, occupy)
                   && Writable(old(service.repo.Tables()), req, Count(old(service.repo.orders), OfTaker(req.activity, req.user)), lock))
    {
      var answer := Check(req, exist, progress);
      if answer.Some? {
        return answer.value;
      }
      var ok := service.LockMarketPayOrder(req, count, occupy, lock, back);
      return if ok then Locked else Refused;
    }
  }

  /** Replacing the only process. */
  lemma Alone(s: Sys, p: Proc)
    requires |s.procs| == 1
    ensures s.procs[0 := p] == [p]
  {
  }

  class TradeSettlementOrderService {
    const repo: TradeRepository

    constructor (repo: TradeRepository)
      ensures this.repo == repo
    {
      this.repo := repo;
    }

    /** The rule chain: the first order of the pair, unless it is closed, and its team, unless the payment is late. */
    method Filter(user: string, outTradeNo: string, payTime: int, order: Env, team: Env) returns (r: Option<nat>)
      ensures r.Some? ==>
                && r.value == FindFirst(repo.orders, OfPair(user, outTradeNo))
                && FirstOfPair(repo.orders, user, outTradeNo, r.value) && repo.orders[r.value].status != OrderClose
                && repo.orders[r.value].team in repo.teams && payTime < repo.teams[repo.orders[r.value].team].validEnd
      ensures var i := FindFirst(repo.orders, OfPair(user, outTradeNo));
              r.None? <==>
                || order.fails || team.fails || i == |repo.orders|
                || repo.orders[i].status == OrderClose || repo.orders[i].team !in repo.teams
                || payTime >= repo.teams[repo.orders[i].team].validEnd
      ensures SettleFiltered(Only(repo.Tables(), SettleStart(user, outTradeNo, payTime)), order, team)
           == Only(repo.Tables(),
                   if r.None? then Done
                   else var id := repo.orders[r.value].team; SettleCommit(user, outTradeNo, payTime, r.value, id, repo.teams[id]))
    {
      if order.fails {
        return None;
      }
      var row := repo.QueryMarketPayOrder(user, outTradeNo);
      if row.None? || repo.orders[row.value].status == OrderClose {
        return None;
      }
      var id := repo.orders[row.value].team;
      if team.fails || id !in repo.teams || payTime >= repo.teams[id].validEnd {
        return None;
      }
      return row;
    }

    /** Reads the order, then the team, and carries that team row into the transaction. */
    method SettlementMarketPayOrder(user: string, outTradeNo: string, payTime: int, order: Env, team: Env, pay: Env)
      returns (ok: bool, notify: Option<Task>)
      modifies repo
      ensures Only(repo.Tables(), Done)
           == SettleAlone(Only(old(repo.Tables()), SettleStart(user, outTradeNo, payTime)), order, team, pay)
      ensures repo.tasks == old(repo.tasks) + (if notify.Some? then [notify.value] else [])
      ensures var orders, teams := old(repo.orders), old(repo.teams);
              var i := FindFirst(orders, OfPair(user, outTradeNo));
              ok <==>
                && !order.fails && i < |orders| && orders[i].status != OrderClose
                && !team.fails && orders[i].team in teams && payTime < teams[orders[i].team].validEnd
                && !pay.fails && Count(orders, UnpaidOfPair(user, outTradeNo)) == 1
                && var m := teams[orders[i].team];
                m.complete < m.target && (m.target - m.complete == 1 ==> m.status == Progress)
      ensures ok ==>
                var orders, teams := old(repo.orders), old(repo.teams);
                var i := FindFirst(orders, OfPair(user, outTradeNo));
                && i < |orders| && orders[i].team in teams
                && var m := teams[orders[i].team];
                && (notify.Some? <==> m.target - m.complete == 1)
                && repo.teams == teams[orders[i].team := m.(complete := m.complete + 1,
                                                            status := if m.target - m.complete == 1 then Complete else m.status)]
      ensures ok ==>
                && |repo.orders| == |old(repo.orders)|
                && forall i :: 0 <= i < |repo.orders| ==>
                     var o := old(repo.orders)[i];
                     repo.orders[i] == if o.user == user && o.outTradeNo == outTradeNo && o.status == OrderCreate
                                       then o.(status := OrderComplete, paidAt := Some(payTime)) else o
      ensures !ok ==> repo.Tables() == old(repo.Tables()) && notify == None
    {
      notify := None;
      var row := Filter(user, outTradeNo, payTime, order, team);
      if row.None? {
        return false, None;
      }
      var id := repo.orders[row.value].team;
      var snap := repo.teams[id];
      if pay.fails {
        return false, None;
      }
      UnpaidAreThose(repo.orders, user, outTradeNo);
      var failure;
      failure, notify := repo.SettlementMarketPayOrder(user, outTradeNo, payTime, id, snap);
      return failure.None?, notify;
    }
  }

  class TradeRefundOrderService {
    const repo: TradeRepository

    constructor (repo: TradeRepository)
      ensures this.repo == repo
    {
      this.repo := repo;
    }

    /** The strategy for a refund type, on the repository. */
    method RunStrategy(kind: RefundType, user: string, row: nat, id: string, activity: int, outTradeNo: string)
      returns (failure: Option<Error>)
      modifies repo
      ensures Reports(RefundTx(old(repo.Tables()), kind, user, row, id, activity, outTradeNo),
                      old(repo.Tables()), repo.Tables(), failure)
    {
      if kind == PaidFormed {
        failure := repo.PaidTeam2Refund(user, row, id, activity, outTradeNo);
      } else {
        failure := repo.DoRefund(kind, user, row, id, activity, outTradeNo);
      }
    }

    /** Loads the first order of the pair and its team, stops on a repeated refund, and looks up the strategy. */
    method Choose(user: string, outTradeNo: string, order: Env, team: Env) returns (r: RefundChoice)
      ensures r == Answer(NotFound) <==>
                !order.fails && forall i :: 0 <= i < |repo.orders| ==> repo.orders[i].user != user || repo.orders[i].outTradeNo != outTradeNo
      ensures order.fails ==> r == Answer(Failed)
      ensures r != Answer(Success)
      ensures var i := FindFirst(repo.orders, OfPair(user, outTradeNo));
              i < |repo.orders| ==>
                var o := repo.orders[i];
                && (r == Answer(Repeat) <==> !order.fails && !team.fails && o.status == OrderClose)
                && (r == Answer(Failed) <==> order.fails || team.fails || (o.status != OrderClose && o.team !in repo.teams))
                && (r == Answer(Unsupported) <==>
                      && !order.fails && !team.fails && o.status != OrderClose && o.team in repo.teams
                      && (repo.teams[o.team].status == Fail || (o.status == OrderCreate && repo.teams[o.team].status != Progress)))
      ensures r.Chosen? ==>
                && r.row == FindFirst(repo.orders, OfPair(user, outTradeNo))
                && FirstOfPair(repo.orders, user, outTradeNo, r.row)
                && var o := repo.orders[r.row];
                && o.team in repo.teams && o.status != OrderClose
                && r.kind == if o.status == OrderCreate then UnpaidUnlock
                             else if repo.teams[o.team].status == Progress then PaidUnformed else PaidFormed
      ensures RefundFiltered(Only(repo.Tables(), RefundStart(user, outTradeNo)), order, team)
           == Only(repo.Tables(),
                   if r.Answer? then Done
                   else var id := repo.orders[r.row].team; RefundCommit(user, outTradeNo, r.row, id, r.kind, repo.teams[id]))
    {
      if order.fails {
        return Answer(Failed);
      }
      var row := repo.QueryMarketPayOrder(user, outTradeNo);
      if row.None? {
        return Answer(NotFound);
      }
      var o := repo.orders[row.value];
      if team.fails {
        return Answer(Failed);
      }
      if o.status == OrderClose {
        return Answer(Repeat);
      }
      if o.team !in repo.teams {
        return Answer(Failed);
      }
      var kind := GetRefundStrategy(repo.teams[o.team].status, o.status);
      return if kind.None? then Answer(Unsupported) else Chosen(row.value, kind.value);
    }

    /** Loads the order and team, stops on a repeated refund, and runs the strategy for their statuses. */
    method RefundOrder(user: string, outTradeNo: string, order: Env, team: Env, refund: Env) returns (r: RefundBehavior)
      modifies repo
      ensures Only(repo.Tables(), Done)
           == RefundAlone(Only(old(repo.Tables()), RefundStart(user, outTradeNo)), order, team, refund)
      ensures r == Success <==> |repo.tasks| > old(|repo.tasks|)
      ensures r != Success ==> repo.Tables() == old(repo.Tables())
      ensures r == NotFound <==>
                !order.fails && forall i :: 0 <= i < |old(repo.orders)| ==>
                  old(repo.orders)[i].user != user || old(repo.orders)[i].outTradeNo != outTradeNo
      ensures order.fails ==> r == Failed
      ensures var i := FindFirst(old(repo.orders), OfPair(user, outTradeNo));
              i < |old(repo.orders)| ==>
                var o, teams := old(repo.orders)[i], old(repo.teams);
                var unsupported := o.team in teams && (teams[o.team].status == Fail
                                                       || (o.status == OrderCreate && teams[o.team].status != Progress));
                && (r == Repeat <==> !order.fails && !team.fails && o.status == OrderClose)
                && (r == Unsupported <==> !order.fails && !team.fails && o.status != OrderClose && unsupported)
                && (r == Failed <==> order.fails || team.fails
                                     || (o.status != OrderClose && (o.team !in teams || (!unsupported && refund.fails))))
      ensures r == Success ==>
                var i, teams := FindFirst(old(repo.orders), OfPair(user, outTradeNo)), old(repo.teams);
                && i < |old(repo.orders)| && old(repo.orders)[i].team in teams
                && var o := old(repo.orders)[i];
                && var m, paid := teams[o.team], o.status == OrderComplete;
                && repo.orders == old(repo.orders)[i := o.(status := OrderClose)]
                && repo.teams == teams[o.team := m.(lock := m.lock - 1, complete := m.complete - (if paid then 1 else 0),
                     status := if m.status == Progress then Progress else if m.complete <= 1 then Fail else CompleteFail)]
                && repo.tasks == old(repo.tasks) + [Refund(if !paid then UnpaidUnlock else if m.status == Progress then PaidUnformed
                                                           else PaidFormed, o.team, m.activity, user, i, outTradeNo)]
    {
      var choice := Choose(user, outTradeNo, order, team);
      if choice.Answer? {
        return choice.behavior;
      }
      var id := repo.orders[choice.row].team;
      if refund.fails {
        return Failed;
      }
      var failure := RunStrategy(choice.kind, user, choice.row, id, repo.teams[id].activity, outTradeNo);
      return if failure.None? then Success else Failed;
    }
  }
}
