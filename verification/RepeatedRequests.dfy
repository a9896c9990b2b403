/** What the check for an existing unpaid order gives, without the assumption that a pair is used once. */
module RepeatedRequests {
  import opened Counting
  import opened TradeModel
  import opened TradeTransactions
  import opened TradeProtocol
  import opened TradeTheorems
  import opened TradeScenarios
  import opened TradeLimits

  // ---- the reads of a join --------------------------------------------------------------------

  /** Each read of a join goes on exactly when the store answers and: the first order of the pair, if any, is not
      unpaid; the team, if it exists, is not full; the activity exists and the user is within its take limit. */
  lemma JoinReadsExactly(acts: map<int, Activity>, s: Sys, i: nat, env: Env)
    requires i < |s.procs| && (s.procs[i].JoinStart? || s.procs[i].JoinProgress? || s.procs[i].JoinCount?)
    ensures var p := s.procs[i]; var next := Step(acts, s, Advance(i, env)); var orders := s.db.orders;
            && next == s.(procs := s.procs[i := next.procs[i]])
            && (p.JoinStart? ==>
                  && (next.procs[i] != Done <==>
                        && !env.fails
                        && forall k :: 0 <= k < |orders| && orders[k].user == p.req.user && orders[k].outTradeNo == p.req.outTradeNo ==>
                             || orders[k].status != OrderCreate
                             || exists j :: 0 <= j < k && orders[j].user == p.req.user && orders[j].outTradeNo == p.req.outTradeNo)
                  && (next.procs[i] != Done ==> next.procs[i] == if p.req.team == "" then JoinCount(p.req) else JoinProgress(p.req)))
            && (p.JoinProgress? ==>
                  && (next.procs[i] != Done <==>
                        !env.fails && (p.req.team in s.db.teams ==> s.db.teams[p.req.team].lock != s.db.teams[p.req.team].target))
                  && (next.procs[i] != Done ==> next.procs[i] == JoinCount(p.req)))
            && (p.JoinCount? ==>
                  var taken := Count(orders, OfTaker(p.req.activity, p.req.user));
                  && (next.procs[i] != Done <==>
                        && !env.fails && p.req.activity in acts
                        && (acts[p.req.activity].takeLimit <= 0 || taken < acts[p.req.activity].takeLimit))
                  && (next.procs[i] != Done ==>
                        next.procs[i] == if p.req.team == "" then JoinTx(p.req, taken) else JoinOccupy(p.req, taken)))
  {
    var p, orders := s.procs[i], s.db.orders;
    if p.JoinStart? {
      var row := FindFirst(orders, OfPair(p.req.user, p.req.outTradeNo));
      assert forall j :: 0 <= j < row ==> !OfPair(p.req.user, p.req.outTradeNo)(orders[j]);
      if row < |orders| {
        assert OfPair(p.req.user, p.req.outTradeNo)(orders[row]);
      }
    }
  }

  // ---- requests for a pair, one after the other -----------------------------------------------

  /** A join of the pair that may still write. */
  function InFlight(user: string, no: string): Proc -> bool {
    (p: Proc) => (p.JoinStart? || Checking(p)) && p.req.user == user && p.req.outTradeNo == no
  }

  predicate Checking(p: Proc) { p.JoinProgress? || p.JoinCount? || p.JoinOccupy? || p.JoinTx? }

  /** One that has passed the check. */
  function Checked(user: string, no: string): Proc -> bool {
    (p: Proc) => Checking(p) && p.req.user == user && p.req.outTradeNo == no
  }

  ghost predicate InTurn(s: Sys, user: string, no: string) { Count(s.procs, InFlight(user, no)) <= 1 }

  /** A run in which at most one join of the pair is in flight at a time; everything else interleaves. */
  ghost predicate TurnRun(acts: map<int, Activity>, states: seq<Sys>, labels: seq<Label>, user: string, no: string) {
    IsFreeRun(acts, states, labels) && forall n :: 0 <= n < |states| ==> InTurn(states[n], user, no)
  }

  /** The pair has no order, or its first is unpaid. */
  predicate FirstUnpaid(orders: seq<Order>, user: string, no: string) {
    var first := FindFirst(orders, OfPair(user, no));
    first == |orders| || orders[first].status == OrderCreate
  }

  /** Then it has no other, and none is on its way. */
  ghost predicate OnlyOne(s: Sys, user: string, no: string) {
    FirstUnpaid(s.db.orders, user, no) ==> Count(s.db.orders, OfPair(user, no)) + Count(s.procs, Checked(user, no)) <= 1
  }

  /** Rows that keep their pair and do not become unpaid again. */
  ghost predicate RowsKept(orders: seq<Order>, next: seq<Order>) {
    && |next| == |orders|
    && (forall i :: 0 <= i < |orders| ==>
          next[i].user == orders[i].user && next[i].outTradeNo == orders[i].outTradeNo
          && (next[i].status == OrderCreate ==> orders[i].status == OrderCreate))
  }

  /** A row more, of the pair of the request. */
  ghost predicate RowAdded(orders: seq<Order>, next: seq<Order>, req: JoinReq) {
    && |next| == |orders| + 1 && next[..|orders|] == orders
    && next[|orders|].user == req.user && next[|orders|].outTradeNo == req.outTradeNo
  }

  lemma SettlementKeepsRows(db: Db, user: string, no: string, payTime: int, id: string, snap: Team, next: Db)
    requires SettleTx(db, user, no, payTime, id, snap) == Commit(next)
    ensures RowsKept(db.orders, next.orders)
  {
  }

  lemma RefundKeepsRows(db: Db, kind: RefundType, user: string, row: nat, id: string, activity: int, no: string, next: Db)
    requires RefundTx(db, kind, user, row, id, activity, no) == Commit(next)
    ensures RowsKept(db.orders, next.orders)
  {
  }

  lemma LockAddsRow(db: Db, act: Activity, req: JoinReq, take: int, id: string, now: int, next: Db)
    requires LockTx(db, act, req, take, id, now) == Commit(next)
    ensures RowAdded(db.orders, next.orders, req)
  {
  }

  /** What a step does to the orders: a join adds a row of its pair, or all are kept. */
  lemma StepOnOrders(acts: map<int, Activity>, s: Sys, l: Label)
    ensures var next := Step(acts, s, l);
            || RowsKept(s.db.orders, next.db.orders)
            || (l.Advance? && l.i < |s.procs| && s.procs[l.i].JoinTx? && next.procs == s.procs[l.i := Done]
                && RowAdded(s.db.orders, next.db.orders, s.procs[l.i].req))
  {
    var next := Step(acts, s, l).db;
    if next != s.db {
      OnlyTransactionsWrite(acts, s, l);
      var p := s.procs[l.i];
      if p.JoinTx? {
        LockAddsRow(s.db, acts[p.req.activity], p.req, p.take, l.env.newTeam, l.env.now, next);
      } else if p.SettleCommit? {
        SettlementKeepsRows(s.db, p.user, p.outTradeNo, p.payTime, p.team, p.snap, next);
      } else if p.RefundCommit? {
        RefundKeepsRows(s.db, p.kind, p.user, p.row, p.team, p.snap.activity, p.outTradeNo, next);
      }
    }
  }

  /** A step of a join changes that process only, and takes it past the check only if it finds no unpaid first
      order. */
  lemma JoinMoves(acts: map<int, Activity>, s: Sys, i: nat, env: Env)
    requires i < |s.procs| && (s.procs[i].JoinStart? || Checking(s.procs[i]) || s.procs[i].JoinCompensate?)
    ensures var next := JoinStep(acts, s, i, env);
            && |next.procs| == |s.procs| && next.procs == s.procs[i := next.procs[i]]
            && PassesCheck(s.db, s.procs[i], next.procs[i])
            && (s.procs[i].JoinStart? ==> next.db == s.db)
  {
  }

  /** A step of any other process changes that one only, to one that is no join. */
  lemma OtherMoves(acts: map<int, Activity>, s: Sys, i: nat, env: Env)
    requires i < |s.procs| && !s.procs[i].JoinStart? && !Checking(s.procs[i]) && !s.procs[i].JoinCompensate?
    ensures var next := Step(acts, s, Advance(i, env));
            |next.procs| == |s.procs| && next.procs == s.procs[i := next.procs[i]] && !Checking(next.procs[i])
  {
    AdvanceMovesOne(acts, s, i, env);
  }

  lemma DeathMoves(acts: map<int, Activity>, s: Sys, i: nat)
    requires i < |s.procs|
    ensures var next := Step(acts, s, ConsumerDies(i));
            && |next.procs| == |s.procs| && next.procs == s.procs[i := next.procs[i]]
            && (next.procs[i] == s.procs[i] || !Checking(next.procs[i]))
  {
  }

  /** What a step does to the processes: one is added that has passed no check, or one moves, and comes to have
      passed it only as a join that finds no unpaid first order. */
  lemma StepOnProcs(acts: map<int, Activity>, s: Sys, l: Label)
    ensures var procs, next := s.procs, Step(acts, s, l).procs;
            || next == procs
            || (|next| == |procs| + 1 && next == procs + [next[|procs|]] && !Checking(next[|procs|]))
            || ((l.Advance? || l.ConsumerDies?) && l.i < |procs| == |next| && next == procs[l.i := next[l.i]]
                && PassesCheck(s.db, procs[l.i], next[l.i]))
    ensures l.Advance? && l.i < |s.procs| && s.procs[l.i].JoinStart? ==> Step(acts, s, l).db == s.db
  {
    if l.Advance? && l.i < |s.procs| {
      var p := s.procs[l.i];
      if p.JoinStart? || Checking(p) || p.JoinCompensate? {
        JoinMoves(acts, s, l.i, l.env);
      } else {
        OtherMoves(acts, s, l.i, l.env);
      }
    } else if l.ConsumerDies? && l.i < |s.procs| {
      DeathMoves(acts, s, l.i);
    }
  }

  predicate PassesCheck(db: Db, p: Proc, q: Proc) {
    Checking(q) ==>
      || (Checking(p) && q.req == p.req)
      || (p.JoinStart? && q.req == p.req
          && (FirstUnpaid(db.orders, p.req.user, p.req.outTradeNo) ==>
                FindFirst(db.orders, OfPair(p.req.user, p.req.outTradeNo)) == |db.orders|))
  }

  lemma CheckedIsInFlight(procs: seq<Proc>, user: string, no: string)
    ensures Count(procs, Checked(user, no)) <= Count(procs, InFlight(user, no))
  {
    CountMono(procs, Checked(user, no), InFlight(user, no));
  }

  lemma KeptRows(orders: seq<Order>, next: seq<Order>, user: string, no: string)
    requires RowsKept(orders, next)
    ensures Count(next, OfPair(user, no)) == Count(orders, OfPair(user, no))
    ensures FindFirst(next, OfPair(user, no)) == FindFirst(orders, OfPair(user, no))
    ensures FirstUnpaid(next, user, no) ==> FirstUnpaid(orders, user, no)
  {
    CountPointwise(orders, next, OfPair(user, no));
    CountPointwise(next, orders, OfPair(user, no));
    var f, g := FindFirst(orders, OfPair(user, no)), FindFirst(next, OfPair(user, no));
    if f < |orders| {
      assert OfPair(user, no)(next[f]);
    }
    if g < |orders| {
      assert OfPair(user, no)(orders[g]);
    }
  }

  lemma AddedRow(orders: seq<Order>, next: seq<Order>, req: JoinReq, user: string, no: string)
    requires RowAdded(orders, next, req)
    ensures Count(next, OfPair(user, no)) == Count(orders, OfPair(user, no)) + Bit(OfPair(user, no)(next[|orders|]))
    ensures FirstUnpaid(next, user, no) ==> FirstUnpaid(orders, user, no)
  {
    var f, g := FindFirst(orders, OfPair(user, no)), FindFirst(next, OfPair(user, no));
    if f < |orders| {
      assert next[f] == orders[f];
      assert g < |orders| ==> orders[g] == next[g];
    }
  }

  lemma MovedProcs(acts: map<int, Activity>, s: Sys, l: Label, user: string, no: string)
    ensures var next := Step(acts, s, l);
            || Count(next.procs, Checked(user, no)) <= Count(s.procs, Checked(user, no))
            || (next.db == s.db && (FirstUnpaid(s.db.orders, user, no) ==> Count(s.db.orders, OfPair(user, no)) == 0))
  {
    var procs, next, p := s.procs, Step(acts, s, l).procs, Checked(user, no);
    StepOnProcs(acts, s, l);
    CountZero(s.db.orders, OfPair(user, no));
    if next != procs {
      if |next| > |procs| {
        CountAppend(procs, next[|procs|], p);
      } else {
        CountUpdate(procs, l.i, next[l.i], p);
      }
    }
  }

  lemma StepKeepsOnlyOne(acts: map<int, Activity>, s: Sys, l: Label, user: string, no: string)
    requires OnlyOne(s, user, no) && InTurn(Step(acts, s, l), user, no)
    ensures OnlyOne(Step(acts, s, l), user, no)
  {
    var next := Step(acts, s, l);
    CheckedIsInFlight(next.procs, user, no);
    MovedProcs(acts, s, l, user, no);
    StepOnOrders(acts, s, l);
    if RowsKept(s.db.orders, next.db.orders) {
      KeptRows(s.db.orders, next.db.orders, user, no);
    } else {
      AddedRow(s.db.orders, next.db.orders, s.procs[l.i].req, user, no);
      CountUpdate(s.procs, l.i, Done, Checked(user, no));
    }
  }

  lemma MoveKeepsOnlyOne(acts: map<int, Activity>, s: Sys, l: Label, next: Sys, user: string, no: string)
    requires Takes(acts, s, l, next) && OnlyOne(s, user, no) && InTurn(next, user, no)
    ensures OnlyOne(next, user, no)
  {
    StepKeepsOnlyOne(acts, s, l, user, no);
  }

  lemma {:induction false} RunKeepsOnlyOne(
    acts: map<int, Activity>, states: seq<Sys>, labels: seq<Label>, user: string, no: string, n: nat)
    requires TurnRun(acts, states, labels, user, no) && n <= |labels|
    ensures OnlyOne(states[n], user, no)
  {
    if n == 0 {
      assert states[0] == INIT;
    } else {
      var s, l, next := states[n - 1], labels[n - 1], states[n];
      assert Takes(acts, s, l, next) && InTurn(next, user, no) by {
        assert IsFreeRun(acts, states, labels);
      }
      assert OnlyOne(s, user, no) by {
        RunKeepsOnlyOne(acts, states, labels, user, no, n - 1);
      }
      MoveKeepsOnlyOne(acts, s, l, next, user, no);
    }
  }

  /** While the first order of a pair is unpaid it is the pair's only one, as long as requests for the pair come one
      after the other: of two orders of a pair, the first or an earlier one has been paid or closed. So two orders of
      a pair are never both unpaid, unless an earlier one was paid or closed. */
  lemma OnlyOrderWhileUnpaid(
    acts: map<int, Activity>, states: seq<Sys>, labels: seq<Label>, user: string, no: string, i: nat, j: nat)
    returns (k: nat)
    requires TurnRun(acts, states, labels, user, no)
    requires var orders := states[|labels|].db.orders;
             && i < j < |orders| && orders[i].user == orders[j].user == user
             && orders[i].outTradeNo == orders[j].outTradeNo == no
    ensures var orders := states[|labels|].db.orders;
            && k <= i && orders[k].user == user && orders[k].outTradeNo == no && orders[k].status != OrderCreate
            && (orders[i].status == OrderCreate ==> k < i)
  {
    RunKeepsOnlyOne(acts, states, labels, user, no, |labels|);
    var orders := states[|labels|].db.orders;
    CountAtLeastTwo(orders, i, j, OfPair(user, no));
    k := FindFirst(orders, OfPair(user, no));
    assert OfPair(user, no)(orders[i]);
  }

  // ---- both hypotheses are needed -------------------------------------------------------------

  ghost predicate TurnReachable(acts: map<int, Activity>, s: Sys, user: string, no: string) {
    exists states: seq<Sys>, labels: seq<Label> :: TurnRun(acts, states, labels, user, no) && s == states[|labels|]
  }

  lemma TurnNext(acts: map<int, Activity>, s: Sys, l: Label, t: Sys, user: string, no: string)
    requires TurnReachable(acts, s, user, no) && Takes(acts, s, l, t) && InTurn(t, user, no)
    ensures TurnReachable(acts, t, user, no)
  {
    var states, labels :| TurnRun(acts, states, labels, user, no) && s == states[|labels|];
    TurnOneMore(acts, states, labels, l, t, user, no);
    assert t == (states + [t])[|labels + [l]|];
  }

  lemma TurnOneMore(
    acts: map<int, Activity>, states: seq<Sys>, labels: seq<Label>, l: Label, t: Sys, user: string, no: string)
    requires TurnRun(acts, states, labels, user, no) && Takes(acts, states[|labels|], l, t) && InTurn(t, user, no)
    ensures TurnRun(acts, states + [t], labels + [l], user, no)
  {
    var after, taken := states + [t], labels + [l];
    forall j | 0 <= j < |taken|
      ensures Takes(acts, after[j], taken[j], after[j + 1])
    {
      if j < |labels| {
        assert taken[j] == labels[j];
      }
    }
    forall n | 0 <= n < |after|
      ensures InTurn(after[n], user, no)
    {
      if n < |states| {
        assert InTurn(states[n], user, no);
      }
    }
    assert IsFreeRun(acts, after, taken);
  }

  /** A request that opens a team although its pair may have orders, the first of them no longer unpaid. */
  ghost predicate CanReopen(acts: map<int, Activity>, db: Db, req: JoinReq, team: string) {
    && req.team == "" && req.activity in acts && acts[req.activity].takeLimit == 0 && team !in db.teams
    && (FirstUnpaid(db.orders, req.user, req.outTradeNo) ==> FindFirst(db.orders, OfPair(req.user, req.outTradeNo)) == |db.orders|)
    && !BizIdTaken(db.orders, BizKey(req.activity, req.user, Count(db.orders, OfTaker(req.activity, req.user)) + 1))
  }

  /** The tables it leaves. */
  function Reopened(acts: map<int, Activity>, db: Db, req: JoinReq, team: string): Db
    requires req.activity in acts
  {
    var act := acts[req.activity];
    db.(teams := db.teams[team := Team(req.activity, act.target, 0, 1, Progress, act.validTime * MINUTE)],
        orders := db.orders + [NewOrder(act, req, team, Count(db.orders, OfTaker(req.activity, req.user)))])
  }

  lemma ReopenSteps(acts: map<int, Activity>, s: Sys, req: JoinReq, team: string, take: nat, db: Db)
    requires CanReopen(acts, s.db, req, team)
    requires take == Count(s.db.orders, OfTaker(req.activity, req.user)) && db == Reopened(acts, s.db, req, team)
    ensures var i := |s.procs|;
            && Takes(acts, s, NewJoin(req), s.(procs := s.procs + [JoinStart(req)]))
            && Takes(acts, s.(procs := s.procs + [JoinStart(req)]), Advance(i, OK), s.(procs := s.procs + [JoinCount(req)], db := s.db))
            && Takes(acts, s.(procs := s.procs + [JoinCount(req)]), Advance(i, OK), s.(procs := s.procs + [JoinTx(req, take)], db := s.db))
            && Takes(acts, s.(procs := s.procs + [JoinTx(req, take)]), Advance(i, Env(false, 0, team)), s.(procs := s.procs + [Done], db := db))
  {
    assert LockTx(s.db, acts[req.activity], req, take, team, 0) == Commit(db);
  }

  /** Whatever becomes of the last process, it is the only one in flight. */
  lemma LastInTurn(s: Sys, p: Proc, user: string, no: string)
    requires Count(s.procs, InFlight(user, no)) == 0
    ensures var t := s.(procs := s.procs + [p]);
            Count(t.procs, InFlight(user, no)) == Bit(InFlight(user, no)(p)) && InTurn(t, user, no)
  {
    CountAppend(s.procs, p, InFlight(user, no));
  }

  /** A step of the only process in flight. */
  lemma LastMoves(acts: map<int, Activity>, s: Sys, p: Proc, l: Label, q: Proc, db: Db, user: string, no: string)
    requires Count(s.procs, InFlight(user, no)) == 0
    requires TurnReachable(acts, s.(procs := s.procs + [p]), user, no)
    requires Takes(acts, s.(procs := s.procs + [p]), l, s.(procs := s.procs + [q], db := db))
    ensures TurnReachable(acts, s.(procs := s.procs + [q], db := db), user, no)
    ensures InTurn(s.(procs := s.procs + [q], db := db), user, no)
    ensures Count(s.procs + [q], InFlight(user, no)) == Bit(InFlight(user, no)(q))
  {
    CountAppend(s.procs, q, InFlight(user, no));
    TurnNext(acts, s.(procs := s.procs + [p]), l, s.(procs := s.procs + [q], db := db), user, no);
  }

  /** From every state with no request for the pair in flight, whose first order is not unpaid, one more request
      inserts one more unpaid order. */
  lemma Reopens(acts: map<int, Activity>, s: Sys, req: JoinReq, team: string) returns (next: Sys)
    requires TurnReachable(acts, s, req.user, req.outTradeNo) && Count(s.procs, InFlight(req.user, req.outTradeNo)) == 0
    requires CanReopen(acts, s.db, req, team)
    ensures TurnReachable(acts, next, req.user, req.outTradeNo) && Count(next.procs, InFlight(req.user, req.outTradeNo)) == 0
    ensures next == s.(procs := s.procs + [Done], db := Reopened(acts, s.db, req, team))
  {
    var i, take, u, n := |s.procs|, Count(s.db.orders, OfTaker(req.activity, req.user)), req.user, req.outTradeNo;
    var db := Reopened(acts, s.db, req, team);
    ReopenSteps(acts, s, req, team, take, db);
    LastInTurn(s, JoinStart(req), u, n);
    TurnNext(acts, s, NewJoin(req), s.(procs := s.procs + [JoinStart(req)]), u, n);
    LastMoves(acts, s, JoinStart(req), Advance(i, OK), JoinCount(req), s.db, u, n);
    LastMoves(acts, s, JoinCount(req), Advance(i, OK), JoinTx(req, take), s.db, u, n);
    LastMoves(acts, s, JoinTx(req, take), Advance(i, Env(false, 0, team)), Done, db, u, n);
    next := s.(procs := s.procs + [Done], db := db);
  }

  /** Where one of the pair's later orders is unpaid then, two are. */
  lemma TwoUnpaidFollow(acts: map<int, Activity>, s: Sys, req: JoinReq, team: string, j: nat) returns (next: Sys)
    requires TurnReachable(acts, s, req.user, req.outTradeNo) && Count(s.procs, InFlight(req.user, req.outTradeNo)) == 0
    requires CanReopen(acts, s.db, req, team)
    requires j < |s.db.orders| && UnpaidOfPair(req.user, req.outTradeNo)(s.db.orders[j])
    ensures TurnReachable(acts, next, req.user, req.outTradeNo) && |next.db.orders| == |s.db.orders| + 1
    ensures UnpaidOfPair(req.user, req.outTradeNo)(next.db.orders[j])
    ensures UnpaidOfPair(req.user, req.outTradeNo)(next.db.orders[|s.db.orders|])
  {
    next := Reopens(acts, s, req, team);
  }

  function Pending(s: Sys, p: Proc): Sys { s.(procs := s.procs + [p]) }

  lemma AnnPays(s: Sys, read: Proc, ready: Proc)
    requires s == Opened()
    requires read == SettleTeam("a", "n1", 5, 0, TEAM) && ready == SettleCommit("a", "n1", 5, 0, TEAM, s.db.teams[TEAM])
    ensures Takes(ACTS, s, NewSettle("a", "n1", 5), Pending(s, SettleStart("a", "n1", 5)))
    ensures Takes(ACTS, Pending(s, SettleStart("a", "n1", 5)), Advance(1, OK), Pending(s, read).(db := s.db))
    ensures Takes(ACTS, Pending(s, read), Advance(1, OK), Pending(s, ready).(db := s.db))
    ensures Takes(ACTS, Pending(s, ready), Advance(1, OK), Pending(s, Done).(db := ONE_PAID))
  {
    var orders, p := [AnnsOrder()], UnpaidOfPair("a", "n1");
    assert orders[..0] == [] && Count(orders, p) == 1;
    assert FindFirst(orders, OfPair("a", "n1")) == 0 && FindFirst(orders, p) == 0;
    assert orders[0 := Paid(AnnsOrder())] == [Paid(AnnsOrder())];
    assert s.db.teams[TEAM := Team(1, 2, 1, 1, Progress, 60)] == ONE_PAID.teams;
  }

  lemma AnnOpensInTurn()
    ensures TurnReachable(ACTS, Opened(), "a", "n1")
  {
    var states, labels: seq<Label> := [INIT], [];
    assert TurnRun(ACTS, states, labels, "a", "n1") && INIT == states[|labels|];
    var s := Reopens(ACTS, INIT, ANN, TEAM);
    assert s == Opened();
  }

  lemma AnnPaidInTurn() returns (s: Sys)
    ensures TurnReachable(ACTS, s, "a", "n1") && s == INIT.(db := ONE_PAID, procs := [Done, Done])
  {
    var s0, u, n := Opened(), "a", "n1";
    var first, read := SettleStart(u, n, 5), SettleTeam(u, n, 5, 0, TEAM);
    var ready := SettleCommit(u, n, 5, 0, TEAM, s0.db.teams[TEAM]);
    AnnOpensInTurn();
    AnnPays(s0, read, ready);
    LastInTurn(s0, first, u, n);
    TurnNext(ACTS, s0, NewSettle(u, n, 5), Pending(s0, first), u, n);
    LastMoves(ACTS, s0, first, Advance(1, OK), read, s0.db, u, n);
    LastMoves(ACTS, s0, read, Advance(1, OK), ready, s0.db, u, n);
    LastMoves(ACTS, s0, ready, Advance(1, OK), Done, ONE_PAID, u, n);
    s := Pending(s0, Done).(db := ONE_PAID);
  }

  const THIRD: string := "30000003"

  /** Her pair can be used again, and again. */
  lemma AnnCanReopen()
    ensures CanReopen(ACTS, ONE_PAID, ANN, OTHER) && Reopened(ACTS, ONE_PAID, ANN, OTHER) == PAIR_REUSED
    ensures CanReopen(ACTS, PAIR_REUSED, ANN, THIRD)
  {
    var one, two := ONE_PAID.orders, PAIR_REUSED.orders;
    assert one[..0] == [] && two[..1] == one;
    assert Count(one, OfTaker(1, "a")) == 1 && Count(two, OfTaker(1, "a")) == 2;
    assert FindFirst(one, OfPair("a", "n1")) == 0 && FindFirst(two, OfPair("a", "n1")) == 0;
  }

  /** Requests for one pair that come one after the other may hold two unpaid orders: Ann opens a team and pays, and
      the same request opens two more, because the first order of the pair is no longer unpaid. */
  lemma TwoUnpaidInTurn() returns (s: Sys)
    ensures TurnReachable(ACTS, s, "a", "n1") && |s.db.orders| == 3
    ensures UnpaidOfPair("a", "n1")(s.db.orders[1]) && UnpaidOfPair("a", "n1")(s.db.orders[2])
  {
    var s0 := AnnPaidInTurn();
    AnnCanReopen();
    var s1 := Reopens(ACTS, s0, ANN, OTHER);
    s := TwoUnpaidFollow(ACTS, s1, ANN, THIRD, 1);
  }

  const TWICE: Sys := INIT.(procs := [JoinStart(ANN), JoinStart(ANN)])

  /** The tables after both have opened their team. */
  const BOTH_OPENED: Db :=
    Db(map[TEAM := Team(1, 2, 0, 1, Progress, 60), OTHER := Team(1, 2, 0, 1, Progress, 60)], [AnnsOrder(), AnnsSecond()], [])

  lemma BothPassTheCheck()
    ensures Takes(ACTS, INIT, NewJoin(ANN), INIT.(procs := [JoinStart(ANN)]))
    ensures Takes(ACTS, INIT.(procs := [JoinStart(ANN)]), NewJoin(ANN), TWICE)
    ensures Takes(ACTS, TWICE, Advance(0, OK), TWICE.(procs := [JoinCount(ANN), JoinStart(ANN)]))
    ensures Takes(ACTS, TWICE.(procs := [JoinCount(ANN), JoinStart(ANN)]), Advance(1, OK), TWICE.(procs := [JoinCount(ANN), JoinCount(ANN)]))
  {
  }

  lemma BothCommit(s: Sys)
    requires s == TWICE.(procs := [JoinCount(ANN), JoinCount(ANN)])
    ensures Takes(ACTS, s, Advance(0, OPEN), s.(procs := [JoinTx(ANN, 0), JoinCount(ANN)]))
    ensures Takes(ACTS, s.(procs := [JoinTx(ANN, 0), JoinCount(ANN)]), Advance(0, OPEN), Opened().(procs := [Done, JoinCount(ANN)]))
    ensures Takes(ACTS, Opened().(procs := [Done, JoinCount(ANN)]), Advance(1, AGAIN), Opened().(procs := [Done, JoinTx(ANN, 1)]))
    ensures Takes(ACTS, Opened().(procs := [Done, JoinTx(ANN, 1)]), Advance(1, AGAIN), Opened().(procs := [Done, Done], db := BOTH_OPENED))
  {
    assert [AnnsOrder()][..0] == [] && Count([AnnsOrder()], OfTaker(1, "a")) == 1;
    assert !BizIdTaken([AnnsOrder()], BizKey(1, "a", 2));
    assert LockTx(Opened().db, ACTS[1], ANN, 1, OTHER, 0) == Commit(BOTH_OPENED);
  }

  /** Two requests for one pair at the same time both pass the check: two unpaid orders, and none else. */
  lemma TwoUnpaidAtOnce() returns (s: Sys)
    ensures FreelyReachable(ACTS, s) && |s.db.orders| == 2
    ensures UnpaidOfPair("a", "n1")(s.db.orders[0]) && UnpaidOfPair("a", "n1")(s.db.orders[1])
  {
    InitReachable(ACTS);
    FreeAsWell(ACTS, INIT);
    BothPassTheCheck();
    FreeNext(ACTS, INIT, NewJoin(ANN), INIT.(procs := [JoinStart(ANN)]));
    FreeNext(ACTS, INIT.(procs := [JoinStart(ANN)]), NewJoin(ANN), TWICE);
    FreeNext(ACTS, TWICE, Advance(0, OK), TWICE.(procs := [JoinCount(ANN), JoinStart(ANN)]));
    FreeNext(ACTS, TWICE.(procs := [JoinCount(ANN), JoinStart(ANN)]), Advance(1, OK), TWICE.(procs := [JoinCount(ANN), JoinCount(ANN)]));
    s := BothCommitted(TWICE.(procs := [JoinCount(ANN), JoinCount(ANN)]));
  }

  lemma BothCommitted(s: Sys) returns (end: Sys)
    requires s == TWICE.(procs := [JoinCount(ANN), JoinCount(ANN)]) && FreelyReachable(ACTS, s)
    ensures FreelyReachable(ACTS, end) && end.db == BOTH_OPENED
  {
    BothCommit(s);
    var s1 := s.(procs := [JoinTx(ANN, 0), JoinCount(ANN)]);
    var s2, s3 := Opened().(procs := [Done, JoinCount(ANN)]), Opened().(procs := [Done, JoinTx(ANN, 1)]);
    end := Opened().(procs := [Done, Done], db := BOTH_OPENED);
    FreeNext(ACTS, s, Advance(0, OPEN), s1);
    FreeNext(ACTS, s1, Advance(0, OPEN), s2);
    FreeNext(ACTS, s2, Advance(1, AGAIN), s3);
    FreeNext(ACTS, s3, Advance(1, AGAIN), end);
  }
}
