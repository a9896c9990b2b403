/** The timeout job starved: a run to a state in which the query may return, for ever, ten orders that no refund can
    close, while another one waits. */
module TimeoutStarvation {
  import opened Counting
  import opened TradeModel
  import opened TradeTransactions
  import opened TradeInvariant
  import opened TradeProtocol
  import opened TradeSafety
  import opened TradeTheorems
  import opened TradeScenarios
  import opened TradeRepository
  import opened TimeoutRefund

  /** An activity whose teams have one seat; it ends at time 100. */
  const SOLO: map<int, Activity> := map[1 := Activity(1, 0, 1, 100)]

  function Name(n: nat): string { seq(n, _ => '1') }

  /** Tables with k blocked orders, made of k teams whose ids have at most k characters and users with at most 2k. */
  ghost predicate Blocks(db: Db, k: nat, now: int) {
    ShortIds(db.teams.Keys, k) && RowsNamed(db.orders, db.teams.Keys, 2 * k) && Count(db.orders, Blocked(now, Open(db))) == k
  }

  ghost predicate ShortIds(ids: set<string>, k: nat) { forall t :: t in ids ==> |t| <= k }

  ghost predicate RowsNamed(orders: seq<Order>, ids: set<string>, n: nat) {
    forall i :: 0 <= i < |orders| ==> |orders[i].user| <= n && orders[i].team in ids
  }

  lemma NamedOneMore(orders: seq<Order>, ids: set<string>, n: nat, o: Order, more: set<string>, m: nat)
    requires RowsNamed(orders, ids, n) && ids <= more && n <= m && |o.user| <= m && o.team in more
    ensures RowsNamed(orders + [o], more, m)
  {
  }

  lemma UpdateTwice<K, V>(m: map<K, V>, k: K, x: V, y: V)
    ensures m[k := x][k := y] == m[k := y]
  {
  }

  /** The tables after an order that was paid on opening a team is refunded. */
  lemma BrokenTables(db: Db, o: Order, paid: Db, next: Db)
    requires o.status == OrderCreate && o.credits == 0
    requires paid.orders == db.orders + [o.(status := OrderComplete, paidAt := Some(5))]
    requires paid.teams == db.teams[o.team := Team(1, 1, 1, 1, Complete, 60)]
    requires RefundTx(paid, PaidFormed, o.user, |db.orders|, o.team, 1, o.outTradeNo) == Commit(next)
    ensures next.teams == db.teams[o.team := Team(1, 1, 0, 0, Fail, 60)]
    ensures next.orders == db.orders + [o.(status := OrderClose, paidAt := Some(5))]
  {
    UpdateTwice(db.teams, o.team, Team(1, 1, 1, 1, Complete, 60), Team(1, 1, 0, 0, Fail, 60));
  }

  /** Ids and users that no row of such tables has. */
  predicate NewNames(k: nat, t: string, u: string, v: string) {
    |t| == k + 1 && |u| == 2 * k + 1 && |v| == 2 * k + 2
  }

  /** A team opened and paid. */
  lemma PaidTeam(s: Sys, k: nat, now: int, t: string, u: string) returns (paid: Sys, o: Order)
    requires Reachable(SOLO, s) && Quiet(s) && Blocks(s.db, k, now) && |t| == k + 1 && |u| == 2 * k + 1
    ensures Reachable(SOLO, paid) && Quiet(paid)
    ensures o == NewOrder(SOLO[1], JoinReq(u, "n", 1, ""), t, 0)
    ensures paid.db.orders == s.db.orders + [o.(status := OrderComplete, paidAt := Some(5))]
    ensures paid.db.teams == s.db.teams[o.team := Team(1, 1, 1, 1, Complete, 60)]
  {
    var n, req := |s.db.orders|, JoinReq(u, "n", 1, "");
    o := NewOrder(SOLO[1], req, t, 0);
    assert CanOpen(SOLO, s, req, t);
    var begun := Opens(SOLO, s, req, t);
    assert begun.db.orders[n] == o;
    paid := Pays(SOLO, begun, n, 5);
    UpdateTwice(s.db.teams, t, Team(1, 1, 0, 1, Progress, 60), Team(1, 1, 1, 1, Complete, 60));
  }

  /** A team opened, paid and refunded. */
  lemma BrokenTeam(s: Sys, k: nat, now: int, t: string, u: string) returns (next: Sys, gone: Order)
    requires Reachable(SOLO, s) && Quiet(s) && Blocks(s.db, k, now) && |t| == k + 1 && |u| == 2 * k + 1
    ensures Reachable(SOLO, next) && Quiet(next) && Breaks(s.db, next.db, gone, t, u)
  {
    var paid, o := PaidTeam(s, k, now, t, u);
    var n := |s.db.orders|;
    assert paid.db.orders[n] == o.(status := OrderComplete, paidAt := Some(5));
    next := RefundCommits(SOLO, paid, n, PaidFormed);
    BrokenTables(s.db, o, paid.db, next.db);
    gone := o.(status := OrderClose, paidAt := Some(5));
  }

  /** The tables with one broken team more. */
  ghost predicate Breaks(db: Db, next: Db, gone: Order, t: string, u: string) {
    && next.teams == db.teams[t := Team(1, 1, 0, 0, Fail, 60)] && next.orders == db.orders + [gone]
    && gone.user == u && gone.team == t && gone.status == OrderClose && gone.credits == 0
  }

  /** The only order of a broken team is closed and has not come back. */
  lemma OneUncredited(orders: seq<Order>, gone: Order, t: string)
    requires Uncredited(t)(gone) && forall i :: 0 <= i < |orders| ==> orders[i].team != t
    ensures Count(orders + [gone], Uncredited(t)) == 1
  {
    CountAppend(orders, gone, Uncredited(t));
    CountZero(orders, Uncredited(t));
  }

  lemma SameBlocked(db: Db, next: Db, now: int)
    requires forall u :: u in db.teams ==> u in next.teams && next.teams[u] == db.teams[u]
    requires forall i :: 0 <= i < |db.orders| ==> db.orders[i].team in db.teams
    ensures Count(db.orders, Blocked(now, Open(next))) == Count(db.orders, Blocked(now, Open(db)))
  {
    CountMono(db.orders, Blocked(now, Open(next)), Blocked(now, Open(db)));
    CountMono(db.orders, Blocked(now, Open(db)), Blocked(now, Open(next)));
  }

  lemma BrokenTeamHasRoom(db: Db, broken: Db, gone: Order, k: nat, now: int, t: string, u: string, v: string)
    requires Blocks(db, k, now) && NewNames(k, t, u, v) && Breaks(db, broken, gone, t, u)
    ensures HasRoom(SOLO, broken, Late(t, v))
  {
    OneUncredited(db.orders, gone, t);
  }

  function Late(t: string, v: string): JoinReq { JoinReq(v, "n", 1, t) }

  /** The tables when it is joined again. */
  ghost predicate Rejoined(broken: Db, next: Db, t: string, v: string) {
    && next.teams == broken.teams[t := Team(1, 1, 0, 1, Fail, 60)]
    && next.orders == broken.orders + [NewOrder(SOLO[1], Late(t, v), t, 0)]
  }

  lemma Rejoins(broken: Sys, t: string, v: string) returns (next: Sys)
    requires Reachable(SOLO, broken) && Quiet(broken) && HasRoom(SOLO, broken.db, Late(t, v))
    requires broken.db.teams[t] == Team(1, 1, 0, 0, Fail, 60)
    ensures Reachable(SOLO, next) && Quiet(next) && Rejoined(broken.db, next.db, t, v)
  {
    next := NewcomerJoins(SOLO, broken, Late(t, v));
  }

  lemma OneMoreCounted(db: Db, broken: Db, next: Db, gone: Order, now: int, t: string, u: string, v: string)
    requires t !in db.teams && Breaks(db, broken, gone, t, u) && Rejoined(broken, next, t, v) && now > 100
    requires forall i :: 0 <= i < |db.orders| ==> db.orders[i].team in db.teams
    ensures next.teams == db.teams[t := Team(1, 1, 0, 1, Fail, 60)]
    ensures Count(next.orders, Blocked(now, Open(next))) == Count(db.orders, Blocked(now, Open(db))) + 1
  {
    var late, p := NewOrder(SOLO[1], Late(t, v), t, 0), Blocked(now, Open(next));
    UpdateTwice(db.teams, t, Team(1, 1, 0, 0, Fail, 60), Team(1, 1, 0, 1, Fail, 60));
    assert t !in Open(next) && Expired(now)(late) && !Expired(now)(gone);
    CountAppend(db.orders, gone, p);
    CountAppend(broken.orders, late, p);
    SameBlocked(db, next, now);
  }

  lemma BlocksOneMore(db: Db, broken: Db, next: Db, gone: Order, k: nat, now: int, t: string, u: string, v: string)
    requires Blocks(db, k, now) && NewNames(k, t, u, v) && now > 100
    requires Breaks(db, broken, gone, t, u) && Rejoined(broken, next, t, v)
    ensures Blocks(next, k + 1, now)
  {
    OneMoreCounted(db, broken, next, gone, now, t, u, v);
    var ids, more := db.teams.Keys, next.teams.Keys;
    assert more == ids + {t};
    NamedOneMore(db.orders, ids, 2 * k, gone, more, 2 * k + 2);
    NamedOneMore(db.orders + [gone], more, 2 * k + 2, NewOrder(SOLO[1], Late(t, v), t, 0), more, 2 * k + 2);
    assert ShortIds(more, k + 1);
  }

  /** One more blocked order, from any such state. */
  lemma OneMoreBlocked(s: Sys, k: nat, now: int, t: string, u: string, v: string) returns (next: Sys)
    requires Reachable(SOLO, s) && Quiet(s) && Blocks(s.db, k, now) && now > 100 && NewNames(k, t, u, v)
    ensures Reachable(SOLO, next) && Quiet(next) && Blocks(next.db, k + 1, now)
  {
    var broken, gone := BrokenTeam(s, k, now, t, u);
    assert HasRoom(SOLO, broken.db, Late(t, v)) by {
      BrokenTeamHasRoom(s.db, broken.db, gone, k, now, t, u, v);
    }
    next := Rejoins(broken, t, v);
    assert Blocks(next.db, k + 1, now) by {
      BlocksOneMore(s.db, broken.db, next.db, gone, k, now, t, u, v);
    }
  }

  lemma {:induction false} ManyBlocked(k: nat, now: int) returns (s: Sys)
    requires now > 100
    ensures Reachable(SOLO, s) && Quiet(s) && Blocks(s.db, k, now)
  {
    if k == 0 {
      InitReachable(SOLO);
      s := INIT;
    } else {
      s := ManyBlocked(k - 1, now);
      s := OneMoreBlocked(s, k - 1, now, Name(k), Name(2 * k - 1), Name(2 * k));
    }
  }

  /** An order more that can be closed. */
  lemma OneClosable(db: Db, next: Db, t: string, o: Order, k: nat, now: int)
    requires Blocks(db, k, now) && t !in db.teams && Expired(now)(o) && o.team == t
    requires next.teams == db.teams[t := Team(1, 1, 0, 1, Progress, 60)] && next.orders == db.orders + [o]
    ensures Count(next.orders, Closable(now, Open(next))) > 0 && Count(next.orders, Blocked(now, Open(next))) >= k
  {
    assert t in Open(next);
    CountAppend(db.orders, o, Closable(now, Open(next)));
    CountAppend(db.orders, o, Blocked(now, Open(next)));
    SameBlocked(db, next, now);
  }

  /** A state reached from the empty system, with every request finished, in which some expired order could be
      closed and the query may yet return a batch with none: the pass over it changes nothing, and the next may
      meet the same. */
  lemma StarvedJobReachable(now: int) returns (s: Sys, list: seq<nat>)
    requires now > 100
    ensures Reachable(SOLO, s) && Quiet(s)
    ensures Count(s.db.orders, Closable(now, Open(s.db))) > 0
    ensures Batch(s.db, now, list) && NoneClosable(s.db, list)
  {
    var ten := ManyBlocked(10, now);
    var t, req := Name(11), JoinReq(Name(21), "n", 1, "");
    assert CanOpen(SOLO, ten, req, t);
    s := Opens(SOLO, ten, req, t);
    OneClosable(ten.db, s.db, t, NewOrder(SOLO[1], req, t, 0), 10, now);
    PassCanStarve(s.db, now);
    list :| Batch(s.db, now, list) && NoneClosable(s.db, list);
  }
}
