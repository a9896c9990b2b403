/** The invariant of the interleaved protocol and its preservation by every step. */
module TradeSafety {
  import opened Counting
  import opened TradeModel
  import opened TradeTransactions
  import opened TradeInvariant
  import opened TradeProtocol

  // ---- who holds what -------------------------------------------------------------------------

  /** A join that took a seat of k in Redis and has neither committed nor compensated. */
  function Holds(k: Key): Proc -> bool {
    (p: Proc) => (p.JoinTx? || p.JoinCompensate?) && p.req.team != "" && KeyOf(p.req) == k
  }

  /** A consumer between a successful SETNX for the order and the INCR or DEL that follows. */
  function Recovering(row: nat): Proc -> bool {
    (p: Proc) => (p.MsgIncr? || p.MsgDel?) && p.msg.row == row
  }

  /** A message of the order that no handler has finished with. */
  function Pending(row: nat): Proc -> bool {
    (p: Proc) => (p.MsgQueued? || p.MsgLock? || p.MsgIncr? || p.MsgDel?) && p.msg.row == row
  }

  function Published(row: nat): Proc -> bool {
    (p: Proc) => (p.MsgQueued? || p.MsgLock? || p.MsgIncr? || p.MsgDel? || p.MsgAck? || p.MsgAcked?) && p.msg.row == row
  }

  /** Closed orders whose seat has not come back to the recovery counter. */
  function Uncredited(team: string): Order -> bool {
    (o: Order) => o.team == team && o.status == OrderClose && o.credits == 0
  }

  // ---- the invariant --------------------------------------------------------------------------

  function SeatsInTable(db: Db, k: Key): int {
    if k.1 in db.teams && db.teams[k.1].activity == k.0 then
      db.teams[k.1].lock - 1 + Count(db.orders, Uncredited(k.1))
    else 0
  }

  /** Seat accounting across both stores. */
  ghost predicate SeatsOk(s: Sys, k: Key) {
    Get(s.redis.stock, k) ==
      Get(s.redis.recovery, k) + SeatsInTable(s.db, k) + Count(s.procs, Holds(k)) + Get(s.lost, k)
  }

  ghost predicate QuotaOk(acts: map<int, Activity>, r: Redis, k: Key) {
    k.0 in acts ==> Get(r.stock, k) <= acts[k.0].target + Get(r.recovery, k)
  }

  ghost predicate SlotOk(r: Redis, slot: (Key, nat)) {
    1 <= slot.1 <= Get(r.stock, slot.0)
  }

  function CreditsOf(db: Db, row: nat): nat { if row < |db.orders| then db.orders[row].credits else 0 }

  /** The refund lock of an order is held by one recovery that happened, is happening or was cut off. */
  ghost predicate RefundLockOk(s: Sys, row: nat) {
    CreditsOf(s.db, row) + Count(s.procs, Recovering(row)) + Bit(row in s.stuck) == Bit(row in s.redis.refundLocks)
  }

  /** Once every published message of an order is handled, its lock is set. */
  ghost predicate HandledOk(s: Sys, row: nat) {
    Count(s.procs, Published(row)) > 0 && Count(s.procs, Pending(row)) == 0 ==> row in s.redis.refundLocks
  }

  ghost predicate RowRead(db: Db, user: string, no: string, row: nat, team: string) {
    row < |db.orders| && OfPair(user, no)(db.orders[row]) && db.orders[row].team == team
  }

  /** What a process knows from what it read, whatever happened since. */
  ghost predicate ProcOk(acts: map<int, Activity>, db: Db, p: Proc) {
    match p
    case JoinOccupy(req, take) => TakeRead(acts, db, req, take) && req.team != ""
    case JoinTx(req, take) => TakeRead(acts, db, req, take)
    case JoinCompensate(req) => req.team != ""
    case SettleTeam(user, no, _, row, team) => RowRead(db, user, no, row, team)
    case SettleCommit(user, no, _, row, team, snap) =>
      RowRead(db, user, no, row, team) && team in db.teams && snap.target == db.teams[team].target
    case RefundTeam(user, no, row, team, status) =>
      RowRead(db, user, no, row, team) && OrderForward(status, db.orders[row].status)
    case RefundCommit(user, no, row, team, kind, snap) =>
      && RowRead(db, user, no, row, team)
      && snap.activity == db.orders[row].activity
      && (kind != UnpaidUnlock ==> db.orders[row].status != OrderCreate)
      && FormedIfPaid(db, kind, row)
      && (kind != PaidFormed ==> snap.status == Progress)
    case MsgQueued(m) => MsgOk(db, m)
    case MsgLock(m) => MsgOk(db, m)
    case MsgIncr(m) => MsgOk(db, m)
    case MsgDel(m) => MsgOk(db, m)
    case MsgAck(m) => MsgOk(db, m)
    case MsgAcked(m) => MsgOk(db, m)
    case _ => true
  }

  ghost predicate MsgOk(db: Db, m: RefundMsg) {
    && m.row < |db.orders| && db.orders[m.row].status == OrderClose
    && m.team == db.orders[m.row].team && m.activity == db.orders[m.row].activity
  }

  ghost predicate Inv(acts: map<int, Activity>, s: Sys) {
    && ActivitiesOk(acts)
    && DbOk(acts, s.db)
    && (forall i :: 0 <= i < |s.procs| ==> ProcOk(acts, s.db, s.procs[i]))
    && (forall k: Key :: SeatsOk(s, k))
    && (forall k: Key :: QuotaOk(acts, s.redis, k))
    && (forall x :: x in s.redis.slots ==> SlotOk(s.redis, x))
    && (forall row: nat :: RefundLockOk(s, row))
    && (forall row: nat :: HandledOk(s, row))
  }

  // ---- counting processes ---------------------------------------------------------------------

  lemma CountsOnPut(procs: seq<Proc>, i: nat, p: Proc)
    requires i < |procs|
    ensures forall k: Key ::
      Count(procs[i := p], Holds(k)) + Bit(Holds(k)(procs[i])) == Count(procs, Holds(k)) + Bit(Holds(k)(p))
    ensures forall row: nat ::
      Count(procs[i := p], Recovering(row)) + Bit(Recovering(row)(procs[i])) == Count(procs, Recovering(row)) + Bit(Recovering(row)(p))
    ensures forall row: nat ::
      Count(procs[i := p], Pending(row)) + Bit(Pending(row)(procs[i])) == Count(procs, Pending(row)) + Bit(Pending(row)(p))
    ensures forall row: nat ::
      Count(procs[i := p], Published(row)) + Bit(Published(row)(procs[i])) == Count(procs, Published(row)) + Bit(Published(row)(p))
  {
    forall k: Key
      ensures Count(procs[i := p], Holds(k)) + Bit(Holds(k)(procs[i])) == Count(procs, Holds(k)) + Bit(Holds(k)(p))
    {
      CountUpdate(procs, i, p, Holds(k));
    }
    forall row: nat
      ensures Count(procs[i := p], Recovering(row)) + Bit(Recovering(row)(procs[i]))
           == Count(procs, Recovering(row)) + Bit(Recovering(row)(p))
      ensures Count(procs[i := p], Pending(row)) + Bit(Pending(row)(procs[i]))
           == Count(procs, Pending(row)) + Bit(Pending(row)(p))
      ensures Count(procs[i := p], Published(row)) + Bit(Published(row)(procs[i]))
           == Count(procs, Published(row)) + Bit(Published(row)(p))
    {
      CountUpdate(procs, i, p, Recovering(row));
      CountUpdate(procs, i, p, Pending(row));
      CountUpdate(procs, i, p, Published(row));
    }
  }

  lemma CountsOnSpawn(procs: seq<Proc>, p: Proc)
    ensures forall k: Key :: Count(procs + [p], Holds(k)) == Count(procs, Holds(k)) + Bit(Holds(k)(p))
    ensures forall row: nat ::
      Count(procs + [p], Recovering(row)) == Count(procs, Recovering(row)) + Bit(Recovering(row)(p))
    ensures forall row: nat :: Count(procs + [p], Pending(row)) == Count(procs, Pending(row)) + Bit(Pending(row)(p))
    ensures forall row: nat ::
      Count(procs + [p], Published(row)) == Count(procs, Published(row)) + Bit(Published(row)(p))
  {
    forall k: Key
      ensures Count(procs + [p], Holds(k)) == Count(procs, Holds(k)) + Bit(Holds(k)(p))
    {
      CountAppend(procs, p, Holds(k));
    }
    forall row: nat
      ensures Count(procs + [p], Recovering(row)) == Count(procs, Recovering(row)) + Bit(Recovering(row)(p))
      ensures Count(procs + [p], Pending(row)) == Count(procs, Pending(row)) + Bit(Pending(row)(p))
      ensures Count(procs + [p], Published(row)) == Count(procs, Published(row)) + Bit(Published(row)(p))
    {
      CountAppend(procs, p, Recovering(row));
      CountAppend(procs, p, Pending(row));
      CountAppend(procs, p, Published(row));
    }
  }

  /** What a process knows survives every evolution of the tables. */
  lemma ProcStable(acts: map<int, Activity>, db: Db, next: Db, p: Proc)
    requires ProcOk(acts, db, p) && Evolves(db, next)
    requires forall i: nat :: i < |db.orders| ==> RowOk(db, i)
    ensures ProcOk(acts, next, p)
  {
    match p
    case JoinOccupy(req, take) =>
      assert Count(db.orders, OfTaker(req.activity, req.user)) <= Count(next.orders, OfTaker(req.activity, req.user));
    case JoinTx(req, take) =>
      assert Count(db.orders, OfTaker(req.activity, req.user)) <= Count(next.orders, OfTaker(req.activity, req.user));
    case RefundCommit(_, _, row, _, _, _) =>
      assert RowEvolves(db.orders[row], next.orders[row]) && KeepsFormed(db, next, row) && RowOk(db, row);
    case _ =>
  }

  lemma ProcsStable(acts: map<int, Activity>, s: Sys, next: Sys, i: nat)
    requires Inv(acts, s) && Evolves(s.db, next.db) && i < |s.procs| == |next.procs|
    requires ProcOk(acts, next.db, next.procs[i])
    requires forall j :: 0 <= j < |s.procs| && j != i ==> next.procs[j] == s.procs[j]
    ensures forall j :: 0 <= j < |next.procs| ==> ProcOk(acts, next.db, next.procs[j])
  {
    forall j | 0 <= j < |next.procs|
      ensures ProcOk(acts, next.db, next.procs[j])
    {
      if j != i {
        assert ProcOk(acts, s.db, s.procs[j]);
        ProcStable(acts, s.db, next.db, s.procs[j]);
      }
    }
  }

  /** A step of a process that is no message leaves the refund locks as they are. */
  lemma LocksFrame(s: Sys, next: Sys, i: nat)
    requires forall row: nat :: RefundLockOk(s, row) && HandledOk(s, row)
    requires i < |s.procs| && |s.procs| == |next.procs| && next.procs == s.procs[i := next.procs[i]]
    requires forall row: nat :: !Published(row)(s.procs[i]) && !Published(row)(next.procs[i])
    requires next.stuck == s.stuck && next.redis.refundLocks == s.redis.refundLocks
    requires forall row: nat :: CreditsOf(next.db, row) == CreditsOf(s.db, row)
    ensures forall row: nat :: RefundLockOk(next, row)
    ensures forall row: nat :: HandledOk(next, row)
  {
    CountsOnPut(s.procs, i, next.procs[i]);
    forall row: nat
      ensures RefundLockOk(next, row) && HandledOk(next, row)
    {
      assert RefundLockOk(s, row) && HandledOk(s, row);
      assert !Published(row)(s.procs[i]) && !Published(row)(next.procs[i]);
    }
  }

  // ---- steps that only read -------------------------------------------------------------------

  /** Neither a seat holder nor a message. */
  predicate Bystander(p: Proc) {
    p.Done? || p.JoinStart? || p.JoinProgress? || p.JoinCount? || p.JoinOccupy? || (p.JoinTx? && p.req.team == "")
    || p.SettleStart? || p.SettleTeam? || p.SettleCommit? || p.RefundStart? || p.RefundTeam? || p.RefundCommit?
  }

  lemma ReadKeepsInv(acts: map<int, Activity>, s: Sys, i: nat, p: Proc)
    requires Inv(acts, s) && i < |s.procs| && ProcOk(acts, s.db, p)
    requires Bystander(s.procs[i]) && Bystander(p)
    ensures Inv(acts, Put(s, i, p))
  {
    var next := Put(s, i, p);
    LocksFrame(s, next, i);
    SeatsFrame(s, next, i);
    forall j | 0 <= j < |next.procs|
      ensures ProcOk(acts, next.db, next.procs[j])
    {
      assert j != i ==> ProcOk(acts, s.db, s.procs[j]);
    }
  }

  /** A step between two states that hold no seat leaves the seat accounting as it is. */
  lemma SeatsFrame(s: Sys, next: Sys, i: nat)
    requires forall k: Key :: SeatsOk(s, k)
    requires i < |s.procs| && |s.procs| == |next.procs| && next.procs == s.procs[i := next.procs[i]]
    requires forall k: Key :: !Holds(k)(s.procs[i]) && !Holds(k)(next.procs[i])
    requires next.lost == s.lost && next.db == s.db
    requires next.redis.stock == s.redis.stock && next.redis.recovery == s.redis.recovery
    ensures forall k: Key :: SeatsOk(next, k)
  {
    forall k: Key
      ensures SeatsOk(next, k)
    {
      assert SeatsOk(s, k);
      CountUpdate(s.procs, i, next.procs[i], Holds(k));
    }
  }

  lemma SpawnKeepsInv(acts: map<int, Activity>, s: Sys, p: Proc)
    requires Inv(acts, s) && ProcOk(acts, s.db, p) && (Bystander(p) || p.MsgQueued?)
    ensures Inv(acts, s.(procs := s.procs + [p]))
  {
    var next := s.(procs := s.procs + [p]);
    CountsOnSpawn(s.procs, p);
    forall k: Key
      ensures SeatsOk(next, k)
    {
      assert SeatsOk(s, k);
    }
    forall row: nat
      ensures RefundLockOk(next, row) && HandledOk(next, row)
    {
      assert RefundLockOk(s, row) && HandledOk(s, row);
    }
  }

  // ---- lock -----------------------------------------------------------------------------------

  lemma OccupySucceeds(acts: map<int, Activity>, s: Sys, i: nat, req: JoinReq, take: int, next: Sys)
    requires Inv(acts, s) && i < |s.procs| && s.procs[i] == JoinOccupy(req, take) && req.activity in acts
    requires OccupyScript(s.redis, KeyOf(req), acts[req.activity].target) == (next.redis, true)
    requires next == Put(s, i, JoinTx(req, take)).(redis := next.redis)
    ensures Inv(acts, next)
  {
    LocksFrame(s, next, i);
    forall k: Key
      ensures SeatsOk(next, k) && QuotaOk(acts, next.redis, k)
    {
      assert SeatsOk(s, k) && QuotaOk(acts, s.redis, k);
      CountUpdate(s.procs, i, JoinTx(req, take), Holds(k));
    }
    forall x | x in next.redis.slots
      ensures SlotOk(next.redis, x)
    {
      if x in s.redis.slots {
        assert SlotOk(s.redis, x);
      }
    }
  }

  lemma OccupyKeepsInv(acts: map<int, Activity>, s: Sys, i: nat, env: Env)
    requires Inv(acts, s) && i < |s.procs| && s.procs[i].JoinOccupy?
    ensures Inv(acts, JoinStep(acts, s, i, env)) && JoinStep(acts, s, i, env).db == s.db
  {
    var req, take := s.procs[i].req, s.procs[i].take;
    if !env.fails && req.activity in acts && OccupyScript(s.redis, KeyOf(req), acts[req.activity].target).1 {
      OccupySucceeds(acts, s, i, req, take, JoinStep(acts, s, i, env));
    } else {
      ReadKeepsInv(acts, s, i, Done);
    }
  }

  lemma CompensateKeepsInv(acts: map<int, Activity>, s: Sys, i: nat, env: Env)
    requires Inv(acts, s) && i < |s.procs| && s.procs[i].JoinCompensate?
    ensures Inv(acts, JoinStep(acts, s, i, env)) && JoinStep(acts, s, i, env).db == s.db
  {
    var next := JoinStep(acts, s, i, env);
    LocksFrame(s, next, i);
    forall k: Key
      ensures SeatsOk(next, k) && QuotaOk(acts, next.redis, k)
    {
      assert SeatsOk(s, k) && QuotaOk(acts, s.redis, k);
      CountUpdate(s.procs, i, Done, Holds(k));
    }
    forall x | x in next.redis.slots
      ensures SlotOk(next.redis, x)
    {
      assert SlotOk(s.redis, x);
    }
  }

  lemma LockFailsKeepsInv(acts: map<int, Activity>, s: Sys, i: nat)
    requires Inv(acts, s) && i < |s.procs| && s.procs[i].JoinTx? && s.procs[i].req.team != ""
    ensures Inv(acts, Put(s, i, JoinCompensate(s.procs[i].req)))
  {
    var next := Put(s, i, JoinCompensate(s.procs[i].req));
    CountsOnPut(s.procs, i, next.procs[i]);
    forall k: Key
      ensures SeatsOk(next, k)
    {
      assert SeatsOk(s, k);
    }
    forall row: nat
      ensures RefundLockOk(next, row) && HandledOk(next, row)
    {
      assert RefundLockOk(s, row) && HandledOk(s, row);
    }
  }

  lemma LockCommitSeats(
    acts: map<int, Activity>, s: Sys, i: nat, req: JoinReq, take: int, newTeam: string, now: int, next: Sys, k: Key)
    requires Inv(acts, s) && i < |s.procs| && s.procs[i] == JoinTx(req, take) && req.activity in acts && OwnTeam(s.db, req)
    requires LockTx(s.db, acts[req.activity], req, take, newTeam, now) == Commit(next.db)
    requires next == Put(s, i, Done).(db := next.db)
    ensures SeatsOk(next, k)
  {
    CountUpdate(s.procs, i, Done, Holds(k));
    assert SeatsOk(s, k);
    CountAppend(s.db.orders, next.db.orders[|s.db.orders|], Uncredited(k.1));
    if k.1 !in s.db.teams {
      NoRowsNoTeam(acts, s.db, k.1);
    }
  }

  lemma LockCommitKeepsInv(
    acts: map<int, Activity>, s: Sys, i: nat, req: JoinReq, take: int, newTeam: string, now: int, next: Sys)
    requires Inv(acts, s) && i < |s.procs| && s.procs[i] == JoinTx(req, take) && req.activity in acts
    requires OwnTeam(s.db, req) && FreshPair(s.db, req)
    requires LockTx(s.db, acts[req.activity], req, take, newTeam, now) == Commit(next.db)
    requires next == Put(s, i, Done).(db := next.db)
    ensures Inv(acts, next) && Evolves(s.db, next.db)
  {
    assert ProcOk(acts, s.db, s.procs[i]);
    LockTxOk(acts, s.db, req, take, newTeam, now, next.db);
    ProcsStable(acts, s, next, i);
    LocksFrame(s, next, i);
    forall k: Key
      ensures SeatsOk(next, k)
    {
      LockCommitSeats(acts, s, i, req, take, newTeam, now, next, k);
    }
  }

  lemma NoRowsNoTeam(acts: map<int, Activity>, db: Db, t: string)
    requires DbOk(acts, db) && t !in db.teams
    ensures Count(db.orders, Uncredited(t)) == 0
  {
    forall i | 0 <= i < |db.orders|
      ensures !Uncredited(t)(db.orders[i])
    {
      assert RowOk(db, i);
    }
    CountZero(db.orders, Uncredited(t));
  }

  lemma JoinTxKeepsInv(acts: map<int, Activity>, s: Sys, i: nat, env: Env)
    requires Inv(acts, s) && i < |s.procs| && s.procs[i].JoinTx? && Assumed(acts, s, Advance(i, env))
    ensures Inv(acts, JoinStep(acts, s, i, env)) && Evolves(s.db, JoinStep(acts, s, i, env).db)
  {
    EvolvesReflexive(s.db);
    var req, take := s.procs[i].req, s.procs[i].take;
    if !env.fails && req.activity in acts && LockTx(s.db, acts[req.activity], req, take, env.newTeam, env.now).Commit? {
      LockCommitKeepsInv(acts, s, i, req, take, env.newTeam, env.now, JoinStep(acts, s, i, env));
    } else if req.team == "" {
      ReadKeepsInv(acts, s, i, Done);
    } else {
      LockFailsKeepsInv(acts, s, i);
    }
  }

  lemma JoinReadKeepsInv(acts: map<int, Activity>, s: Sys, i: nat, env: Env)
    requires Inv(acts, s) && i < |s.procs|
    requires s.procs[i].JoinStart? || s.procs[i].JoinProgress? || s.procs[i].JoinCount?
    ensures Inv(acts, JoinStep(acts, s, i, env)) && JoinStep(acts, s, i, env).db == s.db
  {
    var next := JoinStep(acts, s, i, env);
    assert ProcOk(acts, s.db, s.procs[i]);
    ReadKeepsInv(acts, s, i, next.procs[i]);
  }

  // ---- settlement -----------------------------------------------------------------------------

  /** Closing no order and taking no seat leaves the seat accounting as it is. */
  lemma SettleCommitSeats(s: Sys, i: nat, row: nat, next: Sys, k: Key)
    requires SeatsOk(s, k) && i < |s.procs| && s.procs[i].SettleCommit?
    requires next.procs == s.procs[i := Done] && next.redis == s.redis && next.lost == s.lost
    requires SettledRow(s.db, row, next.db)
    ensures SeatsOk(next, k)
  {
    CountUpdate(s.procs, i, Done, Holds(k));
    CountUpdate(s.db.orders, row, next.db.orders[row], Uncredited(k.1));
  }

  /** A transaction of a process that holds no seat and is no message, seen from the rest of the system. */
  lemma TablesStepKeepsInv(acts: map<int, Activity>, s: Sys, i: nat, next: Sys)
    requires Inv(acts, s) && i < |s.procs| && Bystander(s.procs[i])
    requires next == Put(s, i, Done).(db := next.db)
    requires DbOk(acts, next.db) && Evolves(s.db, next.db)
    requires forall row: nat :: CreditsOf(next.db, row) == CreditsOf(s.db, row)
    requires forall k: Key :: SeatsOk(next, k)
    ensures Inv(acts, next)
  {
    ProcsStable(acts, s, next, i);
    LocksFrame(s, next, i);
  }

  lemma SettledKeepsInv(acts: map<int, Activity>, s: Sys, i: nat, row: nat, next: Sys)
    requires Inv(acts, s) && i < |s.procs| && s.procs[i].SettleCommit?
    requires next == Put(s, i, Done).(db := next.db)
    requires DbOk(acts, next.db) && Evolves(s.db, next.db) && SettledRow(s.db, row, next.db)
    ensures Inv(acts, next)
  {
    forall k: Key
      ensures SeatsOk(next, k)
    {
      assert SeatsOk(s, k);
      SettleCommitSeats(s, i, row, next, k);
    }
    TablesStepKeepsInv(acts, s, i, next);
  }

  lemma SettleCommitKeepsInv(acts: map<int, Activity>, s: Sys, i: nat, next: Sys)
    requires Inv(acts, s) && i < |s.procs| && s.procs[i].SettleCommit?
    requires var p := s.procs[i];
             SettleTx(s.db, p.user, p.outTradeNo, p.payTime, p.team, p.snap) == Commit(next.db)
    requires next == Put(s, i, Done).(db := next.db)
    ensures Inv(acts, next) && Evolves(s.db, next.db)
  {
    var p := s.procs[i];
    assert ProcOk(acts, s.db, p);
    SettleTxOk(acts, s.db, p.user, p.outTradeNo, p.payTime, p.row, p.snap, next.db);
    SettledKeepsInv(acts, s, i, p.row, next);
  }

  lemma SettleKeepsInv(acts: map<int, Activity>, s: Sys, i: nat, env: Env)
    requires Inv(acts, s) && i < |s.procs|
    requires s.procs[i].SettleStart? || s.procs[i].SettleTeam? || s.procs[i].SettleCommit?
    ensures Inv(acts, SettleStep(s, i, env)) && Evolves(s.db, SettleStep(s, i, env).db)
  {
    EvolvesReflexive(s.db);
    var next := SettleStep(s, i, env);
    assert ProcOk(acts, s.db, s.procs[i]);
    if s.procs[i].SettleCommit? && next != Put(s, i, Done) {
      SettleCommitKeepsInv(acts, s, i, next);
    } else {
      ReadKeepsInv(acts, s, i, next.procs[i]);
    }
  }

  // ---- refund ---------------------------------------------------------------------------------

  /** A refund turns a taken seat into a closed order that waits for its recovery. */
  lemma RefundCommitSeats(s: Sys, i: nat, row: nat, kind: RefundType, next: Sys, k: Key)
    requires SeatsOk(s, k) && i < |s.procs| && s.procs[i].RefundCommit?
    requires next.procs == s.procs[i := Done] && next.redis == s.redis && next.lost == s.lost
    requires row < |s.db.orders| && RowOk(s.db, row)
    requires var o := s.db.orders[row];
             RefundTx(s.db, kind, o.user, row, o.team, o.activity, o.outTradeNo) == Commit(next.db)
    ensures SeatsOk(next, k)
  {
    CountUpdate(s.procs, i, Done, Holds(k));
    CountUpdate(s.db.orders, row, next.db.orders[row], Uncredited(k.1));
  }

  lemma RefundCommitKeepsInv(acts: map<int, Activity>, s: Sys, i: nat, next: Sys)
    requires Inv(acts, s) && i < |s.procs| && s.procs[i].RefundCommit?
    requires var p := s.procs[i];
             RefundTx(s.db, p.kind, p.user, p.row, p.team, p.snap.activity, p.outTradeNo) == Commit(next.db)
    requires next == Put(s, i, Done).(db := next.db)
    ensures Inv(acts, next) && Evolves(s.db, next.db)
  {
    var RefundCommit(_, _, row, _, kind, _) := s.procs[i];
    assert ProcOk(acts, s.db, s.procs[i]);
    RefundTxOk(acts, s.db, kind, row, next.db);
    forall k: Key
      ensures SeatsOk(next, k)
    {
      assert SeatsOk(s, k) && RowOk(s.db, row);
      RefundCommitSeats(s, i, row, kind, next, k);
    }
    TablesStepKeepsInv(acts, s, i, next);
  }

  lemma RefundReadKeepsInv(acts: map<int, Activity>, s: Sys, i: nat, env: Env)
    requires Inv(acts, s) && i < |s.procs| && (s.procs[i].RefundStart? || s.procs[i].RefundTeam?)
    ensures Inv(acts, RefundStep(s, i, env)) && RefundStep(s, i, env).db == s.db
  {
    var p := RefundStep(s, i, env).procs[i];
    assert ProcOk(acts, s.db, p) by {
      assert ProcOk(acts, s.db, s.procs[i]);
      if s.procs[i].RefundTeam? {
        assert RowOk(s.db, s.procs[i].row);
      }
    }
    ReadKeepsInv(acts, s, i, p);
  }

  lemma RefundKeepsInv(acts: map<int, Activity>, s: Sys, i: nat, env: Env)
    requires Inv(acts, s) && i < |s.procs|
    requires s.procs[i].RefundStart? || s.procs[i].RefundTeam? || s.procs[i].RefundCommit?
    ensures Inv(acts, RefundStep(s, i, env)) && Evolves(s.db, RefundStep(s, i, env).db)
  {
    EvolvesReflexive(s.db);
    var next := RefundStep(s, i, env);
    if !s.procs[i].RefundCommit? {
      RefundReadKeepsInv(acts, s, i, env);
    } else if next != Put(s, i, Done) {
      RefundCommitKeepsInv(acts, s, i, next);
    } else {
      ReadKeepsInv(acts, s, i, Done);
    }
  }

  // ---- refund messages ------------------------------------------------------------------------

  predicate IsMessage(p: Proc) {
    p.MsgQueued? || p.MsgLock? || p.MsgIncr? || p.MsgDel? || p.MsgAck? || p.MsgAcked?
  }

  /** A message step that touches neither counters nor tables: what it may do to the lock set. */
  ghost predicate MessageMoves(s: Sys, i: nat, p: Proc, next: Sys) {
    && i < |s.procs| && IsMessage(s.procs[i]) && IsMessage(p) && p.msg == s.procs[i].msg
    && next.procs == s.procs[i := p] && next.db == s.db && next.lost == s.lost
    && next.redis == s.redis.(refundLocks := next.redis.refundLocks)
    && (forall row: nat :: row != p.msg.row ==>
          (row in next.redis.refundLocks <==> row in s.redis.refundLocks) && (row in next.stuck <==> row in s.stuck))
    && var row := p.msg.row;
    && Bit(Recovering(row)(p)) + Bit(row in next.stuck) + Bit(row in s.redis.refundLocks)
         == Bit(Recovering(row)(s.procs[i])) + Bit(row in s.stuck) + Bit(row in next.redis.refundLocks)
    && (Pending(row)(p) || row in next.redis.refundLocks
        || (next.redis.refundLocks == s.redis.refundLocks && !Pending(row)(s.procs[i])))
  }

  lemma MessageLocks(s: Sys, i: nat, p: Proc, next: Sys, row: nat)
    requires MessageMoves(s, i, p, next) && RefundLockOk(s, row) && HandledOk(s, row)
    ensures RefundLockOk(next, row) && HandledOk(next, row)
  {
    CountUpdate(s.procs, i, p, Recovering(row));
    CountUpdate(s.procs, i, p, Pending(row));
    CountUpdate(s.procs, i, p, Published(row));
    if row == p.msg.row && Pending(row)(p) {
      CountAtLeastOne(next.procs, i, Pending(row));
    }
  }

  lemma MessageKeepsInv(acts: map<int, Activity>, s: Sys, i: nat, p: Proc, next: Sys)
    requires Inv(acts, s) && MessageMoves(s, i, p, next)
    ensures Inv(acts, next)
  {
    assert ProcOk(acts, s.db, s.procs[i]);
    forall k: Key
      ensures SeatsOk(next, k) && QuotaOk(acts, next.redis, k)
    {
      assert SeatsOk(s, k) && QuotaOk(acts, s.redis, k);
      CountUpdate(s.procs, i, p, Holds(k));
    }
    forall x | x in next.redis.slots
      ensures SlotOk(next.redis, x)
    {
      assert SlotOk(s.redis, x);
    }
    forall row: nat
      ensures RefundLockOk(next, row) && HandledOk(next, row)
    {
      assert RefundLockOk(s, row) && HandledOk(s, row);
      MessageLocks(s, i, p, next, row);
    }
  }

  /** A recovery that is under way holds the order's lock, alone, and has not counted it yet. */
  lemma RecoveringIsExclusive(acts: map<int, Activity>, s: Sys, i: nat)
    requires Inv(acts, s) && i < |s.procs| && (s.procs[i].MsgIncr? || s.procs[i].MsgDel?)
    ensures var row := s.procs[i].msg.row;
            && row < |s.db.orders| && s.db.orders[row].status == OrderClose && s.db.orders[row].credits == 0
            && row in s.redis.refundLocks && row !in s.stuck
            && Count(s.procs, Recovering(row)) == 1
  {
    var row := s.procs[i].msg.row;
    assert ProcOk(acts, s.db, s.procs[i]) && RefundLockOk(s, row);
    CountAtLeastOne(s.procs, i, Recovering(row));
  }

  lemma RecoverSeats(acts: map<int, Activity>, s: Sys, i: nat, m: RefundMsg, next: Sys, k: Key)
    requires SeatsOk(s, k) && QuotaOk(acts, s.redis, k) && i < |s.procs| && s.procs[i] == MsgIncr(m)
    requires MsgOk(s.db, m) && RowOk(s.db, m.row) && s.db.orders[m.row].credits == 0
    requires next == Put(s, i, MsgAck(m)).(db := Credit(s.db, m.row),
                       redis := s.redis.(recovery := Bump(s.redis.recovery, (m.activity, m.team))))
    ensures SeatsOk(next, k) && QuotaOk(acts, next.redis, k)
  {
    CountUpdate(s.procs, i, MsgAck(m), Holds(k));
    CountUpdate(s.db.orders, m.row, next.db.orders[m.row], Uncredited(k.1));
  }

  lemma RecoverLocks(acts: map<int, Activity>, s: Sys, i: nat, next: Sys)
    requires Inv(acts, s) && i < |s.procs| && s.procs[i].MsgIncr?
    requires next == MsgStep(s, i, Env(false, 0, ""))
    ensures forall row: nat :: RefundLockOk(next, row)
    ensures forall row: nat :: HandledOk(next, row)
  {
    var m := s.procs[i].msg;
    RecoveringIsExclusive(acts, s, i);
    CountsOnPut(s.procs, i, MsgAck(m));
    forall row: nat
      ensures RefundLockOk(next, row) && HandledOk(next, row)
    {
      assert RefundLockOk(s, row) && HandledOk(s, row);
    }
  }

  lemma RecoverKeepsInv(acts: map<int, Activity>, s: Sys, i: nat, next: Sys)
    requires Inv(acts, s) && i < |s.procs| && s.procs[i].MsgIncr?
    requires next == MsgStep(s, i, Env(false, 0, ""))
    ensures Inv(acts, next) && Evolves(s.db, next.db)
  {
    var m := s.procs[i].msg;
    RecoveringIsExclusive(acts, s, i);
    CreditOk(acts, s.db, m.row);
    assert ProcOk(acts, s.db, s.procs[i]);
    ProcsStable(acts, s, next, i);
    RecoverLocks(acts, s, i, next);
    forall k: Key
      ensures SeatsOk(next, k) && QuotaOk(acts, next.redis, k)
    {
      assert SeatsOk(s, k) && QuotaOk(acts, s.redis, k) && RowOk(s.db, m.row);
      RecoverSeats(acts, s, i, m, next, k);
    }
    forall x | x in next.redis.slots
      ensures SlotOk(next.redis, x)
    {
      assert SlotOk(s.redis, x);
    }
  }

  lemma MsgKeepsInv(acts: map<int, Activity>, s: Sys, i: nat, env: Env)
    requires Inv(acts, s) && i < |s.procs|
    requires s.procs[i].MsgQueued? || s.procs[i].MsgLock? || s.procs[i].MsgIncr? || s.procs[i].MsgDel? || s.procs[i].MsgAck?
    ensures Inv(acts, MsgStep(s, i, env)) && Evolves(s.db, MsgStep(s, i, env).db)
  {
    EvolvesReflexive(s.db);
    var next := MsgStep(s, i, env);
    if s.procs[i].MsgIncr? || s.procs[i].MsgDel? {
      RecoveringIsExclusive(acts, s, i);
    }
    if s.procs[i].MsgIncr? && !env.fails {
      RecoverKeepsInv(acts, s, i, next);
    } else {
      MessageKeepsInv(acts, s, i, next.procs[i], next);
    }
  }

  lemma DeathKeepsInv(acts: map<int, Activity>, s: Sys, i: nat)
    requires Inv(acts, s)
    ensures Inv(acts, Step(acts, s, ConsumerDies(i))) && Step(acts, s, ConsumerDies(i)).db == s.db
  {
    if i < |s.procs| && (s.procs[i].MsgLock? || s.procs[i].MsgIncr? || s.procs[i].MsgDel? || s.procs[i].MsgAck?) {
      if s.procs[i].MsgIncr? || s.procs[i].MsgDel? {
        RecoveringIsExclusive(acts, s, i);
      }
      MessageKeepsInv(acts, s, i, MsgQueued(s.procs[i].msg), Step(acts, s, ConsumerDies(i)));
    }
  }

  lemma ExpiryKeepsInv(acts: map<int, Activity>, s: Sys, k: Key, n: nat)
    requires Inv(acts, s)
    ensures Inv(acts, Step(acts, s, SlotExpires(k, n)))
  {
    var next := Step(acts, s, SlotExpires(k, n));
    forall k: Key
      ensures SeatsOk(next, k) && QuotaOk(acts, next.redis, k)
    {
      assert SeatsOk(s, k) && QuotaOk(acts, s.redis, k);
    }
    forall x | x in next.redis.slots
      ensures SlotOk(next.redis, x)
    {
      assert SlotOk(s.redis, x);
    }
    forall row: nat
      ensures RefundLockOk(next, row) && HandledOk(next, row)
    {
      assert RefundLockOk(s, row) && HandledOk(s, row);
    }
  }

  // ---- all steps ------------------------------------------------------------------------------

  lemma AdvanceKeepsInv(acts: map<int, Activity>, s: Sys, i: nat, env: Env)
    requires Inv(acts, s) && i < |s.procs| && Assumed(acts, s, Advance(i, env))
    ensures Inv(acts, Step(acts, s, Advance(i, env))) && Evolves(s.db, Step(acts, s, Advance(i, env)).db)
  {
    EvolvesReflexive(s.db);
    var p := s.procs[i];
    if p.JoinTx? {
      JoinTxKeepsInv(acts, s, i, env);
    } else if p.JoinOccupy? {
      OccupyKeepsInv(acts, s, i, env);
    } else if p.JoinCompensate? {
      CompensateKeepsInv(acts, s, i, env);
    } else if p.JoinStart? || p.JoinProgress? || p.JoinCount? {
      JoinReadKeepsInv(acts, s, i, env);
    } else if p.SettleStart? || p.SettleTeam? || p.SettleCommit? {
      SettleKeepsInv(acts, s, i, env);
    } else if p.RefundStart? || p.RefundTeam? || p.RefundCommit? {
      RefundKeepsInv(acts, s, i, env);
    } else if IsMessage(p) && !p.MsgAcked? {
      MsgKeepsInv(acts, s, i, env);
    }
  }

  /** Every step of every process, with any snapshot and any failure, keeps the invariant, and the
      tables evolve forward. */
  lemma StepKeepsInv(acts: map<int, Activity>, s: Sys, l: Label)
    requires Inv(acts, s) && Assumed(acts, s, l)
    ensures Inv(acts, Step(acts, s, l)) && Evolves(s.db, Step(acts, s, l).db)
  {
    EvolvesReflexive(s.db);
    match l
    case NewJoin(req) => SpawnKeepsInv(acts, s, JoinStart(req));
    case NewSettle(user, no, payTime) => SpawnKeepsInv(acts, s, SettleStart(user, no, payTime));
    case NewRefund(user, no) => SpawnKeepsInv(acts, s, RefundStart(user, no));
    case PublishRefund(j) =>
      if j < |s.db.tasks| && s.db.tasks[j].Refund? {
        var k := s.db.tasks[j];
        assert TaskOk(s.db, k);
        SpawnKeepsInv(acts, s, MsgQueued(RefundMsg(k.activity, k.team, k.row)));
      }
    case Advance(i, env) =>
      if i < |s.procs| {
        AdvanceKeepsInv(acts, s, i, env);
      }
    case ConsumerDies(i) => DeathKeepsInv(acts, s, i);
    case SlotExpires(k, n) => ExpiryKeepsInv(acts, s, k, n);
  }
}
