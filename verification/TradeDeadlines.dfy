/** Points in time: when a team and an order end, and that no late payment counts. */
module TradeDeadlines {
  import opened Counting
  import opened TradeModel
  import opened TradeTransactions
  import opened TradeInvariant
  import opened TradeProtocol
  import opened TradeSafety
  import opened TradeTheorems

  // ---- the invariant --------------------------------------------------------------------------

  /** An order ends with its activity, and was paid, if ever, before its team's end. */
  ghost predicate OrderInTime(acts: map<int, Activity>, db: Db, i: nat)
    requires i < |db.orders|
  {
    var o := db.orders[i];
    && o.activity in acts && o.endTime == acts[o.activity].endTime
    && (o.paidAt.Some? ==> o.team in db.teams && o.paidAt.value < db.teams[o.team].validEnd)
  }

  /** A payment on its way to the transaction was in time. */
  ghost predicate PaymentInTime(db: Db, p: Proc) {
    p.SettleCommit? ==>
      p.team in db.teams && p.payTime < p.snap.validEnd && p.snap.validEnd == db.teams[p.team].validEnd
  }

  ghost predicate InTime(acts: map<int, Activity>, s: Sys) {
    && (forall i: nat :: i < |s.db.orders| ==> OrderInTime(acts, s.db, i))
    && (forall i :: 0 <= i < |s.procs| ==> PaymentInTime(s.db, s.procs[i]))
  }

  lemma PaymentStaysInTime(db: Db, next: Db, p: Proc)
    requires PaymentInTime(db, p) && Evolves(db, next)
    ensures PaymentInTime(next, p)
  {
    if p.SettleCommit? {
      assert TeamEvolves(db.teams[p.team], next.teams[p.team]);
    }
  }

  /** An order that a step leaves as it was, or changes without paying it. */
  lemma OrderStaysInTime(acts: map<int, Activity>, db: Db, next: Db, i: nat)
    requires i < |db.orders| && OrderInTime(acts, db, i) && Evolves(db, next)
    requires next.orders[i].paidAt == db.orders[i].paidAt
    ensures OrderInTime(acts, next, i)
  {
    assert RowEvolves(db.orders[i], next.orders[i]);
    if db.orders[i].paidAt.Some? {
      assert TeamEvolves(db.teams[db.orders[i].team], next.teams[db.orders[i].team]);
    }
  }

  /** A committed payment that was in time. */
  lemma PaidInTime(acts: map<int, Activity>, db: Db, p: Proc, next: Db, i: nat)
    requires DbOk(acts, db) && p.SettleCommit? && ProcOk(acts, db, p) && PaymentInTime(db, p)
    requires SettleTx(db, p.user, p.outTradeNo, p.payTime, p.team, p.snap) == Commit(next) && Evolves(db, next)
    requires i < |db.orders| && OrderInTime(acts, db, i)
    ensures i < |next.orders| && OrderInTime(acts, next, i)
  {
    SettleFindsRow(db, p.user, p.outTradeNo, p.row);
    if i == p.row {
      assert TeamEvolves(db.teams[p.team], next.teams[p.team]);
    } else {
      OrderStaysInTime(acts, db, next, i);
    }
  }

  lemma WriteInTime(acts: map<int, Activity>, s: Sys, l: Label, i: nat)
    requires Inv(acts, s) && Assumed(acts, s, l) && InTime(acts, s) && Step(acts, s, l).db != s.db
    requires i < |Step(acts, s, l).db.orders|
    ensures OrderInTime(acts, Step(acts, s, l).db, i)
  {
    var next := Step(acts, s, l).db;
    OnlyTransactionsWrite(acts, s, l);
    var p := s.procs[l.i];
    assert Evolves(s.db, next) && ProcOk(acts, s.db, p) && DbOk(acts, s.db) by {
      StepKeepsInv(acts, s, l);
    }
    if i < |s.db.orders| {
      assert OrderInTime(acts, s.db, i);
      if p.SettleCommit? {
        PaidInTime(acts, s.db, p, next, i);
      } else {
        OrderStaysInTime(acts, s.db, next, i);
      }
    }
  }

  /** A payment comes to its transaction by reading a team that has not ended. */
  lemma PaymentArrives(acts: map<int, Activity>, s: Sys, l: Label, i: nat)
    requires i < |Step(acts, s, l).procs| && Step(acts, s, l).procs[i].SettleCommit?
    ensures i < |s.procs|
    ensures var next := Step(acts, s, l);
            next.procs[i] == s.procs[i] || (next.db == s.db && PaymentInTime(s.db, next.procs[i]))
  {
    if l.Advance? && l.i < |s.procs| {
      AdvanceMovesOne(acts, s, l.i, l.env);
      if i == l.i && Step(acts, s, l).procs[i] != s.procs[i] {
        ReadsTeam(acts, s, i, l.env);
      }
    }
  }

  lemma ReadsTeam(acts: map<int, Activity>, s: Sys, i: nat, env: Env)
    requires i < |s.procs| && i < |Step(acts, s, Advance(i, env)).procs|
    requires Step(acts, s, Advance(i, env)).procs[i].SettleCommit? && Step(acts, s, Advance(i, env)).procs[i] != s.procs[i]
    ensures s.procs[i].SettleTeam?
  {
  }

  /** What a step makes of the processes' knowledge. */
  lemma ProcessesInTime(acts: map<int, Activity>, s: Sys, l: Label, i: nat)
    requires Inv(acts, s) && Assumed(acts, s, l) && InTime(acts, s) && i < |Step(acts, s, l).procs|
    ensures PaymentInTime(Step(acts, s, l).db, Step(acts, s, l).procs[i])
  {
    var next := Step(acts, s, l);
    assert Evolves(s.db, next.db) by {
      StepKeepsInv(acts, s, l);
    }
    if next.procs[i].SettleCommit? {
      PaymentArrives(acts, s, l, i);
      assert PaymentInTime(s.db, s.procs[i]);
      PaymentStaysInTime(s.db, next.db, s.procs[i]);
    }
  }

  lemma StepKeepsInTime(acts: map<int, Activity>, s: Sys, l: Label)
    requires Inv(acts, s) && Assumed(acts, s, l) && InTime(acts, s)
    ensures InTime(acts, Step(acts, s, l))
  {
    var next := Step(acts, s, l);
    forall i: nat | i < |next.db.orders|
      ensures OrderInTime(acts, next.db, i)
    {
      if next.db == s.db {
        assert OrderInTime(acts, s.db, i);
      } else {
        WriteInTime(acts, s, l, i);
      }
    }
    forall i | 0 <= i < |next.procs|
      ensures PaymentInTime(next.db, next.procs[i])
    {
      ProcessesInTime(acts, s, l, i);
    }
  }

  lemma {:induction false} RunKeepsInTime(acts: map<int, Activity>, states: seq<Sys>, labels: seq<Label>, n: nat)
    requires ActivitiesOk(acts) && IsRun(acts, states, labels) && n <= |labels|
    ensures InTime(acts, states[n])
  {
    if n > 0 {
      RunKeepsInTime(acts, states, labels, n - 1);
      RunKeepsInv(acts, states, labels, n - 1);
      assert Moves(acts, states[n - 1], labels[n - 1], states[n]);
      StepKeepsInTime(acts, states[n - 1], labels[n - 1]);
    }
  }

  // ---- orders ---------------------------------------------------------------------------------

  /** In every reachable state an order's payment was before the end of its team, and its own end is its
      activity's. */
  lemma NoLatePaymentCounts(acts: map<int, Activity>, s: Sys, i: nat)
    requires ActivitiesOk(acts) && Reachable(acts, s) && i < |s.db.orders|
    ensures var o := s.db.orders[i];
            && o.team in s.db.teams && o.activity in acts
            && o.endTime == acts[o.activity].endTime
            && (o.paidAt.Some? ==> o.paidAt.value < s.db.teams[o.team].validEnd)
            && (o.status == OrderComplete ==> o.paidAt.Some?)
  {
    var states, labels :| IsRun(acts, states, labels) && s == states[|labels|];
    RunKeepsInTime(acts, states, labels, |labels|);
    RunKeepsInv(acts, states, labels, |labels|);
    assert OrderInTime(acts, s.db, i) && RowOk(s.db, i);
  }

  /** The two reads of a settlement: each goes on exactly when the store answers and, the first, when the pair's
      first order is not closed, the second, when the order's team exists and the payment is before its end. */
  lemma SettlementReadsExactly(acts: map<int, Activity>, s: Sys, i: nat, env: Env)
    requires i < |s.procs| && (s.procs[i].SettleStart? || s.procs[i].SettleTeam?)
    ensures var p := s.procs[i]; var next := Step(acts, s, Advance(i, env));
            && next.db == s.db && next.redis == s.redis && |next.procs| == |s.procs|
            && (p.SettleStart? ==>
                  var row := FindFirst(s.db.orders, OfPair(p.user, p.outTradeNo));
                  && (next.procs[i] != Done <==> !env.fails && row < |s.db.orders| && s.db.orders[row].status != OrderClose)
                  && (next.procs[i] != Done ==>
                        next.procs[i] == SettleTeam(p.user, p.outTradeNo, p.payTime, row, s.db.orders[row].team)))
            && (p.SettleTeam? ==>
                  && (next.procs[i] != Done <==>
                        !env.fails && p.team in s.db.teams && p.payTime < s.db.teams[p.team].validEnd)
                  && (next.procs[i] != Done ==>
                        next.procs[i] == SettleCommit(p.user, p.outTradeNo, p.payTime, p.row, p.team, s.db.teams[p.team])))
  {
  }

  // ---- teams ----------------------------------------------------------------------------------

  /** A step that adds a team is a join's transaction, and the team ends its activity's valid time, in minutes,
      after the clock of that step. */
  lemma NewTeamEnds(acts: map<int, Activity>, s: Sys, l: Label, team: string)
    requires team !in s.db.teams && team in Step(acts, s, l).db.teams
    ensures l.Advance? && l.i < |s.procs| && s.procs[l.i].JoinTx?
    ensures var m := Step(acts, s, l).db.teams[team]; var req := s.procs[l.i].req;
            && req.team == "" && l.env.newTeam == team
            && m.activity == req.activity && m.activity in acts && m.target == acts[m.activity].target
            && m.validEnd == l.env.now + 60 * acts[m.activity].validTime
            && m.status == Progress && m.complete == 0 && m.lock == 1
  {
    OnlyTransactionsWrite(acts, s, l);
  }

  lemma TeamKeepsEnd(acts: map<int, Activity>, states: seq<Sys>, labels: seq<Label>, n: nat, team: string)
    requires ActivitiesOk(acts) && IsRun(acts, states, labels) && n < |labels| && team in states[n].db.teams
    ensures team in states[n + 1].db.teams
    ensures states[n + 1].db.teams[team].validEnd == states[n].db.teams[team].validEnd
    ensures states[n + 1].db.teams[team].activity == states[n].db.teams[team].activity
  {
    MoveEvolves(acts, states, labels, n);
    assert TeamEvolves(states[n].db.teams[team], states[n + 1].db.teams[team]);
  }

  /** In every run a team was opened by one of its steps, and ends that long after the clock of that step, however
      long the run goes on. */
  lemma {:induction false} TeamEnds(acts: map<int, Activity>, states: seq<Sys>, labels: seq<Label>, n: nat, team: string)
    returns (k: nat)
    requires ActivitiesOk(acts) && IsRun(acts, states, labels) && n <= |labels| && team in states[n].db.teams
    ensures k < n && team !in states[k].db.teams && team in states[k + 1].db.teams && labels[k].Advance?
    ensures var m := states[n].db.teams[team];
            m.activity in acts && m.validEnd == labels[k].env.now + 60 * acts[m.activity].validTime
  {
    var s, l := states[n - 1], labels[n - 1];
    assert Moves(acts, s, l, states[n]);
    if team in s.db.teams {
      k := TeamEnds(acts, states, labels, n - 1, team);
      TeamKeepsEnd(acts, states, labels, n - 1, team);
    } else {
      k := n - 1;
      NewTeamEnds(acts, s, l, team);
    }
  }
}
