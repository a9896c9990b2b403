/** internal/trigger/job/jobs.go: the job that refunds expired unpaid orders, on top of the refund service. */
module TimeoutRefund {
  import opened Counting
  import opened TradeModel
  import opened TradeTransactions
  import opened TradeInvariant
  import opened TradeProtocol
  import opened TradeRepository
  import opened TradeServices

  /** The teams whose unpaid orders a refund can close. */
  ghost function Open(db: Db): set<string> {
    set t | t in db.teams && db.teams[t].status == Progress
  }

  /** Expired orders the job can close, and those it cannot: their teams have left status 0. */
  ghost function Closable(now: int, open: set<string>): Order -> bool {
    (o: Order) => Expired(now)(o) && o.team in open
  }

  ghost function Blocked(now: int, open: set<string>): Order -> bool {
    (o: Order) => Expired(now)(o) && o.team !in open
  }

  ghost function ClosableIn(now: int, open: set<string>, team: string): Order -> bool {
    (o: Order) => Expired(now)(o) && o.team in open && o.team == team
  }

  lemma {:induction false} ClosableAndBlocked(orders: seq<Order>, now: int, open: set<string>)
    ensures Count(orders, Closable(now, open)) + Count(orders, Blocked(now, open)) == Count(orders, Expired(now))
  {
    if orders != [] {
      ClosableAndBlocked(orders[..|orders| - 1], now, open);
    }
  }

  /** Closing order row of a team in progress, as the job's refund of it does. */
  ghost predicate ClosesRow(db: Db, next: Db, row: nat) {
    && row < |db.orders| && db.orders[row].team in db.teams
    && next.orders == db.orders[row := db.orders[row].(status := OrderClose)]
    && var t := db.orders[row].team;
       next.teams == db.teams[t := db.teams[t].(lock := db.teams[t].lock - 1)]
  }

  const QUIET: Env := Env(false, 0, "")

  /** The job's request for an unpaid order: it closes that order, when the team is in progress. */
  ghost function TryRefund(db: Db, row: nat): Db
    requires row < |db.orders|
  {
    var o := db.orders[row];
    if o.team !in Open(db) then db
    else
      Db(db.teams[o.team := db.teams[o.team].(lock := db.teams[o.team].lock - 1)],
         db.orders[row := o.(status := OrderClose)],
         db.tasks + [Refund(UnpaidUnlock, o.team, db.teams[o.team].activity, o.user, row, o.outTradeNo)])
  }

  /** What the job's requests need of the tables. */
  ghost predicate Orderly(db: Db) {
    PairsUnique(db) && forall i :: 0 <= i < |db.orders| ==> RowInTeam(db, i)
  }

  ghost predicate RowInTeam(db: Db, i: nat)
    requires i < |db.orders|
  {
    db.orders[i].team in db.teams
  }

  lemma TablesAreOrderly(acts: map<int, Activity>, db: Db)
    requires DbOk(acts, db)
    ensures Orderly(db)
  {
    forall i | 0 <= i < |db.orders|
      ensures RowInTeam(db, i)
    {
      assert RowOk(db, i);
    }
  }

  /** The refund of an unpaid order of a team in progress closes exactly that order; of any other team, it changes
      nothing. */
  lemma RefundTriesRow(db: Db, row: nat)
    requires Orderly(db) && row < |db.orders| && db.orders[row].status == OrderCreate
    ensures var o := db.orders[row];
            && o.team in db.teams && FindFirst(db.orders, OfPair(o.user, o.outTradeNo)) == row
            && RefundAlone(Only(db, RefundStart(o.user, o.outTradeNo)), QUIET, QUIET, QUIET).db == TryRefund(db, row)
  {
    var o := db.orders[row];
    assert RowInTeam(db, row);
    assert FindFirst(db.orders, OfPair(o.user, o.outTradeNo)) == row by {
      var f := FindFirst(db.orders, OfPair(o.user, o.outTradeNo));
      assert f <= row;
    }
  }

  lemma TryRefundCloses(db: Db, row: nat)
    requires Orderly(db) && row < |db.orders| && db.orders[row].status == OrderCreate
    ensures Orderly(TryRefund(db, row))
    ensures db.orders[row].team in Open(db) ==> ClosesRow(db, TryRefund(db, row), row)
  {
    var next := TryRefund(db, row);
    forall i | 0 <= i < |next.orders|
      ensures RowInTeam(next, i)
    {
      assert RowInTeam(db, i);
    }
  }

  lemma TryRefundOk(acts: map<int, Activity>, db: Db, row: nat)
    requires DbOk(acts, db) && row < |db.orders| && db.orders[row].status == OrderCreate
    ensures DbOk(acts, TryRefund(db, row))
  {
    assert RowOk(db, row);
    if db.orders[row].team in Open(db) {
      RefundTxOk(acts, db, UnpaidUnlock, row, TryRefund(db, row));
    }
  }

  lemma CloseCounts(db: Db, next: Db, row: nat, now: int, open: set<string>)
    requires ClosesRow(db, next, row) && Closable(now, open)(db.orders[row])
    ensures Count(next.orders, Closable(now, open)) == Count(db.orders, Closable(now, open)) - 1
    ensures Count(next.orders, Blocked(now, open)) == Count(db.orders, Blocked(now, open))
    ensures forall t: string ::
              Count(next.orders, ClosableIn(now, open, t)) == Count(db.orders, ClosableIn(now, open, t)) - Bit(t == db.orders[row].team)
  {
    assert !Expired(now)(next.orders[row]);
    CountUpdate(db.orders, row, next.orders[row], Closable(now, open));
    CountUpdate(db.orders, row, next.orders[row], Blocked(now, open));
    forall t: string
      ensures Count(next.orders, ClosableIn(now, open, t)) == Count(db.orders, ClosableIn(now, open, t)) - Bit(t == db.orders[row].team)
    {
      CountUpdate(db.orders, row, next.orders[row], ClosableIn(now, open, t));
    }
  }

  function Min10(n: nat): nat { if n < 10 then n else 10 }

  /** The rows of a batch that fail stand for as many blocked orders. */
  lemma {:induction false} FailuresAreBlocked(orders: seq<Order>, rows: seq<nat>, p: Order -> bool)
    requires forall j :: 0 <= j < |rows| ==> rows[j] < |orders| && p(orders[rows[j]])
    requires forall i, j :: 0 <= i < j < |rows| ==> rows[i] < rows[j]
    ensures |rows| <= Count(orders, p)
    decreases |orders|
  {
    if rows != [] {
      var n, last := |orders| - 1, |rows| - 1;
      if rows[last] == n {
        FailuresAreBlocked(orders[..n], rows[..last], p);
      } else {
        forall j | 0 <= j < |rows|
          ensures rows[j] < n
        {
          assert j < last ==> rows[j] < rows[last];
        }
        FailuresAreBlocked(orders[..n], rows, p);
      }
    }
  }

  /** A list the query may return. */
  ghost predicate Batch(db: Db, now: int, list: seq<nat>) {
    && (forall j :: 0 <= j < |list| ==> list[j] < |db.orders| && Expired(now)(db.orders[list[j]]))
    && (forall i, j :: 0 <= i < j < |list| ==> list[i] < list[j])
    && |list| == Min10(Count(db.orders, Expired(now)))
  }

  /** What the pass has done to the tables after closing the given number of orders. */
  ghost predicate ClosedSoMany(now: int, start: Db, db: Db, closed: int) {
    var open := Open(start);
    && Open(db) == open && |db.orders| == |start.orders| && db.teams.Keys == start.teams.Keys
    && Count(db.orders, Closable(now, open)) == Count(start.orders, Closable(now, open)) - closed
    && Count(db.orders, Blocked(now, open)) == Count(start.orders, Blocked(now, open))
    && (forall t :: t in db.teams ==>
          db.teams[t] == start.teams[t].(lock := start.teams[t].lock
            - (Count(start.orders, ClosableIn(now, open, t)) - Count(db.orders, ClosableIn(now, open, t)))))
    && (forall i :: 0 <= i < |start.orders| && !Closable(now, open)(start.orders[i]) ==> db.orders[i] == start.orders[i])
    && (forall i :: 0 <= i < |start.orders| ==>
          db.orders[i] == start.orders[i] || db.orders[i] == start.orders[i].(status := OrderClose))
  }

  /** After the first j orders of its list, the rest are still to be done, and those it could not close, failed,
      are blocked. */
  ghost predicate PassRows(now: int, open: set<string>, orders: seq<Order>, list: seq<nat>, j: nat, failed: seq<nat>)
    requires j <= |list|
  {
    && (forall i, k :: 0 <= i < k < |list| ==> list[i] < list[k])
    && (forall i :: j <= i < |list| ==> list[i] < |orders| && Expired(now)(orders[list[i]]))
    && (forall k :: 0 <= k < |failed| ==> failed[k] < |orders| && Blocked(now, open)(orders[failed[k]]))
    && (forall i, k :: 0 <= i < k < |failed| ==> failed[i] < failed[k])
    && (forall k :: 0 <= k < |failed| && j < |list| ==> failed[k] < list[j])
  }

  ghost predicate PassDone(now: int, start: Db, db: Db, list: seq<nat>, j: nat, failed: seq<nat>)
    requires j <= |list|
  {
    Orderly(db) && ClosedSoMany(now, start, db, j - |failed|) && PassRows(now, Open(start), db.orders, list, j, failed)
  }

  lemma OneMoreClosed(now: int, start: Db, db: Db, closed: int, row: nat, next: Db)
    requires ClosedSoMany(now, start, db, closed) && ClosesRow(db, next, row) && Closable(now, Open(start))(db.orders[row])
    ensures ClosedSoMany(now, start, next, closed + 1)
  {
    CloseCounts(db, next, row, now, Open(start));
  }

  lemma PassCloses(now: int, start: Db, db: Db, list: seq<nat>, j: nat, failed: seq<nat>, next: Db)
    requires j < |list| && |failed| <= j && PassDone(now, start, db, list, j, failed)
    requires db.orders[list[j]].team in Open(db) && Orderly(next) && ClosesRow(db, next, list[j])
    ensures PassDone(now, start, next, list, j + 1, failed)
  {
    OneMoreClosed(now, start, db, j - |failed|, list[j], next);
  }

  lemma PassFails(now: int, start: Db, db: Db, list: seq<nat>, j: nat, failed: seq<nat>)
    requires j < |list| && |failed| <= j && PassDone(now, start, db, list, j, failed)
    requires db.orders[list[j]].team !in Open(db)
    ensures PassDone(now, start, db, list, j + 1, failed + [list[j]])
  {
  }

  /** What a pass does: of n expired orders, b of them blocked, min(10, n) are tried; all but at most b of these
      are closed, each team's lock_count falls by the number of its orders among them, and every other order
      stays as it was. */
  ghost predicate PassResult(now: int, start: Db, db: Db, success: nat, fail: nat) {
    && success + fail == Min10(Count(start.orders, Expired(now)))
    && fail <= Count(start.orders, Blocked(now, Open(start)))
    && ClosedSoMany(now, start, db, success)
  }

  /** A pass changes exactly the rows that stop being closable. */
  lemma ChangedRows(now: int, start: Db, db: Db, closed: int, i: nat)
    requires ClosedSoMany(now, start, db, closed) && i < |start.orders|
    ensures db.orders[i] != start.orders[i] <==>
              Closable(now, Open(start))(start.orders[i]) && !Closable(now, Open(start))(db.orders[i])
    ensures Closable(now, Open(start))(db.orders[i]) ==> db.orders[i] == start.orders[i]
  {
    var o := start.orders[i];
    assert db.orders[i] == o || db.orders[i] == o.(status := OrderClose);
    assert !Expired(now)(o.(status := OrderClose));
  }

  /** The same by columns: only orders that were unpaid, never paid, past their end and in a team in progress are
      changed, and these are closed; there are as many of them as the pass reports, and each gives its team one seat
      back. */
  lemma PassInColumns(now: int, start: Db, db: Db, success: nat, fail: nat)
    requires PassResult(now, start, db, success, fail)
    ensures |db.orders| == |start.orders| && db.teams.Keys == start.teams.Keys
    ensures forall i :: 0 <= i < |db.orders| && db.orders[i] != start.orders[i] ==>
              var o := start.orders[i];
              && o.status == OrderCreate && o.paidAt == None && o.endTime < now
              && o.team in start.teams && start.teams[o.team].status == Progress
              && db.orders[i] == o.(status := OrderClose)
    ensures success == |set i | 0 <= i < |db.orders| && db.orders[i] != start.orders[i]|
    ensures var due := set i | 0 <= i < |start.orders| && start.orders[i].status == OrderCreate && start.orders[i].paidAt == None
                               && start.orders[i].endTime < now;
            success + fail == if |due| < 10 then |due| else 10
    ensures forall t :: t in db.teams ==>
              db.teams[t] == start.teams[t].(lock := start.teams[t].lock
                - |set i | 0 <= i < |db.orders| && db.orders[i] != start.orders[i] && start.orders[i].team == t|)
  {
    var open, changed := Open(start), set i | 0 <= i < |db.orders| && db.orders[i] != start.orders[i];
    ExpiredAreThose(start.orders, now);
    forall i: nat | i < |start.orders|
      ensures db.orders[i] != start.orders[i] <==> Closable(now, open)(start.orders[i]) && !Closable(now, open)(db.orders[i])
      ensures Closable(now, open)(db.orders[i]) ==> db.orders[i] == start.orders[i]
    {
      ChangedRows(now, start, db, success, i);
    }
    CountFalls(start.orders, db.orders, Closable(now, open), changed);
    forall t | t in db.teams
      ensures db.teams[t] == start.teams[t].(lock := start.teams[t].lock
                - |set i | 0 <= i < |db.orders| && db.orders[i] != start.orders[i] && start.orders[i].team == t|)
    {
      PassInTeam(now, start, db, success, t);
    }
  }

  lemma PassInTeam(now: int, start: Db, db: Db, closed: int, t: string)
    requires ClosedSoMany(now, start, db, closed) && t in db.teams
    ensures db.teams[t] == start.teams[t].(lock := start.teams[t].lock
              - |set i | 0 <= i < |db.orders| && db.orders[i] != start.orders[i] && start.orders[i].team == t|)
  {
    var open := Open(start);
    forall i: nat | i < |start.orders|
      ensures db.orders[i] != start.orders[i] <==> Closable(now, open)(start.orders[i]) && !Closable(now, open)(db.orders[i])
      ensures Closable(now, open)(db.orders[i]) ==> db.orders[i] == start.orders[i]
    {
      ChangedRows(now, start, db, closed, i);
    }
    CountFalls(start.orders, db.orders, ClosableIn(now, open, t),
               set i | 0 <= i < |db.orders| && db.orders[i] != start.orders[i] && start.orders[i].team == t);
  }

  /** Rows that are paid, closed or not yet at their end stay; the others may be closed. */
  ghost predicate ClosesOnlyDue(before: seq<Order>, after: seq<Order>, now: int) {
    && |after| == |before|
    && (forall i :: 0 <= i < |after| ==>
          && (after[i] == before[i] || after[i] == before[i].(status := OrderClose))
          && (before[i].status != OrderCreate || before[i].paidAt.Some? || before[i].endTime >= now ==> after[i] == before[i]))
  }

  lemma DueTwice(x: seq<Order>, y: seq<Order>, z: seq<Order>, now: int)
    requires ClosesOnlyDue(x, y, now)
    requires |z| == |y| && forall i :: 0 <= i < |z| && z[i] != y[i] ==>
               y[i].status == OrderCreate && y[i].paidAt == None && y[i].endTime < now && z[i] == y[i].(status := OrderClose)
    ensures ClosesOnlyDue(x, z, now)
  {
  }

  lemma PassStep(now: int, start: Db, db: Db, list: seq<nat>, j: nat, failed: seq<nat>) returns (next: Db, rows: seq<nat>)
    requires j < |list| && |failed| <= j && PassDone(now, start, db, list, j, failed)
    ensures list[j] < |db.orders| && next == TryRefund(db, list[j])
    ensures rows == if db.orders[list[j]].team in Open(start) then failed else failed + [list[j]]
    ensures |rows| <= j + 1 && PassDone(now, start, next, list, j + 1, rows)
  {
    var row := list[j];
    TryRefundCloses(db, row);
    next, rows := TryRefund(db, row), failed;
    if db.orders[row].team in Open(start) {
      PassCloses(now, start, db, list, j, failed, next);
    } else {
      rows := failed + [row];
      PassFails(now, start, db, list, j, failed);
    }
  }

  /** The tables a pass comes to, one after the other, with the number of orders that failed up to each. */
  datatype Trace = Trace(dbs: seq<Db>, fails: seq<int>)

  /** The trace of a pass over the first j orders of its list. */
  ghost predicate IsPass(start: Db, list: seq<nat>, j: nat, p: Trace) {
    && j <= |list| && |p.dbs| == |p.fails| == j + 1 && p.dbs[0] == start && p.fails[0] == 0
    && (forall i {:trigger list[i]} :: 0 <= i < j ==> Tries(p.dbs[i], p.fails[i], list[i], p.dbs[i + 1], p.fails[i + 1]))
  }

  lemma PassExtends(start: Db, list: seq<nat>, j: nat, p: Trace, next: Db, fail: int)
    requires IsPass(start, list, j, p) && j < |list| && Tries(p.dbs[j], p.fails[j], list[j], next, fail)
    ensures IsPass(start, list, j + 1, Trace(p.dbs + [next], p.fails + [fail]))
  {
  }

  ghost predicate Tries(db: Db, f: int, row: nat, next: Db, fail: int) {
    row < |db.orders| && next == TryRefund(db, row) && fail == f + Bit(db.orders[row].team !in Open(db))
  }

  /** What then holds. */
  ghost predicate PassOk(acts: map<int, Activity>, now: int, start: Db, list: seq<nat>, j: nat, db: Db, fail: int)
    requires j <= |list|
  {
    DbOk(acts, db) && exists failed: seq<nat> :: FailedSoFar(now, start, db, list, j, fail, failed)
  }

  ghost predicate FailedSoFar(now: int, start: Db, db: Db, list: seq<nat>, j: nat, fail: int, failed: seq<nat>)
    requires j <= |list|
  {
    |failed| == fail <= j && PassDone(now, start, db, list, j, failed)
  }

  lemma PassStarts(acts: map<int, Activity>, now: int, start: Db, list: seq<nat>)
    requires DbOk(acts, start) && Batch(start, now, list)
    ensures PassOk(acts, now, start, list, 0, start, 0)
  {
    TablesAreOrderly(acts, start);
    assert FailedSoFar(now, start, start, list, 0, 0, []);
  }

  lemma PassAdvances(
    acts: map<int, Activity>, now: int, start: Db, list: seq<nat>, j: nat, db: Db, f: int, next: Db, fail: int)
    requires j < |list| && PassOk(acts, now, start, list, j, db, f)
    requires Tries(db, f, list[j], next, fail)
    ensures PassOk(acts, now, start, list, j + 1, next, fail)
  {
    var failed: seq<nat> :| FailedSoFar(now, start, db, list, j, f, failed);
    assert Open(db) == Open(start);
    var after, rows := PassStep(now, start, db, list, j, failed);
    assert after == next && |rows| == fail;
    assert FailedSoFar(now, start, next, list, j + 1, fail, rows);
    assert DbOk(acts, next) by {
      TryRefundOk(acts, db, list[j]);
    }
  }

  lemma {:induction false} PassInvariant(acts: map<int, Activity>, now: int, start: Db, list: seq<nat>, j: nat, p: Trace, i: nat)
    requires DbOk(acts, start) && Batch(start, now, list) && IsPass(start, list, j, p) && i <= j
    ensures PassOk(acts, now, start, list, i, p.dbs[i], p.fails[i])
  {
    if i == 0 {
      PassStarts(acts, now, start, list);
    } else {
      var k := i - 1;
      var db, f, next, fail := p.dbs[k], p.fails[k], p.dbs[i], p.fails[i];
      assert PassOk(acts, now, start, list, k, db, f) by {
        PassInvariant(acts, now, start, list, j, p, k);
      }
      assert Tries(db, f, list[k], next, fail);
      PassAdvances(acts, now, start, list, k, db, f, next, fail);
    }
  }

  /** Before order j is tried, it is unpaid and its team exists. */
  lemma PassReady(acts: map<int, Activity>, now: int, start: Db, list: seq<nat>, j: nat, p: Trace)
    requires DbOk(acts, start) && Batch(start, now, list) && j < |list| && IsPass(start, list, j, p)
    ensures var db := p.dbs[j];
            Orderly(db) && list[j] < |db.orders| && db.orders[list[j]].status == OrderCreate
  {
    PassInvariant(acts, now, start, list, j, p, j);
  }

  lemma PassEnds(acts: map<int, Activity>, now: int, start: Db, list: seq<nat>, p: Trace, success: nat, fail: nat)
    requires DbOk(acts, start) && Batch(start, now, list) && success + fail == |list|
    requires IsPass(start, list, |list|, p) && fail == p.fails[|list|]
    ensures DbOk(acts, p.dbs[|list|]) && PassResult(now, start, p.dbs[|list|], success, fail)
  {
    PassInvariant(acts, now, start, list, |list|, p, |list|);
    var db := p.dbs[|list|];
    var failed: seq<nat> :| FailedSoFar(now, start, db, list, |list|, fail, failed);
    FailuresAreBlocked(db.orders, failed, Blocked(now, Open(start)));
  }

  lemma {:induction false} SomeRows(orders: seq<Order>, p: Order -> bool, k: nat) returns (rows: seq<nat>)
    requires k <= Count(orders, p)
    ensures |rows| == k
    ensures forall j :: 0 <= j < |rows| ==> rows[j] < |orders| && p(orders[rows[j]])
    ensures forall i, j :: 0 <= i < j < |rows| ==> rows[i] < rows[j]
    decreases |orders|
  {
    if k == 0 {
      rows := [];
    } else {
      var n := |orders| - 1;
      if p(orders[n]) {
        rows := SomeRows(orders[..n], p, k - 1);
        rows := rows + [n];
      } else {
        rows := SomeRows(orders[..n], p, k);
      }
    }
  }

  ghost predicate NoneClosable(db: Db, list: seq<nat>)
    requires forall j :: 0 <= j < |list| ==> list[j] < |db.orders|
  {
    forall j :: 0 <= j < |list| ==> db.orders[list[j]].team !in Open(db)
  }

  /** The query can return a batch the job can do nothing with exactly when ten expired orders are blocked, or
      there is nothing to close anyway. */
  lemma PassCanStarve(db: Db, now: int)
    ensures (exists list: seq<nat> :: Batch(db, now, list) && NoneClosable(db, list))
       <==> Count(db.orders, Blocked(now, Open(db))) >= 10 || Count(db.orders, Closable(now, Open(db))) == 0
  {
    var open := Open(db);
    ClosableAndBlocked(db.orders, now, open);
    if Count(db.orders, Blocked(now, open)) >= 10 || Count(db.orders, Closable(now, open)) == 0 {
      var list := SomeRows(db.orders, Blocked(now, open), Min10(Count(db.orders, Expired(now))));
      assert Batch(db, now, list) && NoneClosable(db, list);
    }
    if list: seq<nat> :| Batch(db, now, list) && NoneClosable(db, list) {
      FailuresAreBlocked(db.orders, list, Blocked(now, open));
    }
  }

  class TimeoutRefundJob {
    const repo: TradeRepository
    const refund: TradeRefundOrderService

    constructor (repo: TradeRepository, refund: TradeRefundOrderService)
      requires refund.repo == repo
      ensures this.repo == repo && this.refund == refund
    {
      this.repo, this.refund := repo, refund;
    }

    /** The request the job makes for one order of its list; it is an error exactly when the team has left
        status 0. */
    method RefundExpired(row: nat) returns (r: RefundBehavior)
      requires refund.repo == repo && Orderly(repo.Tables())
      requires row < |repo.orders| && repo.orders[row].status == OrderCreate
      modifies repo
      ensures repo.Tables() == TryRefund(old(repo.Tables()), row)
      ensures r == Failed || r == Unsupported <==> old(repo.orders)[row].team !in old(Open(repo.Tables()))
      ensures var o, teams := old(repo.orders)[row], old(repo.teams);
              && o.team in teams
              && var open := teams[o.team].status == Progress;
              && r == (if open then Success else Unsupported)
              && repo.orders == (if open then old(repo.orders)[row := o.(status := OrderClose)] else old(repo.orders))
              && repo.teams == (if open then teams[o.team := teams[o.team].(lock := teams[o.team].lock - 1)] else teams)
    {
      RefundTriesRow(repo.Tables(), row);
      r := refund.RefundOrder(repo.orders[row].user, repo.orders[row].outTradeNo, QUIET, QUIET, QUIET);
    }

    method QueryTimeoutUnpaidOrderList(now: int) returns (list: seq<nat>)
      requires Orderly(repo.Tables())
      ensures Batch(repo.Tables(), now, list)
    {
      forall i | 0 <= i < |repo.orders|
        ensures repo.orders[i].team in repo.teams
      {
        assert RowInTeam(repo.Tables(), i);
      }
      list := repo.QueryTimeoutUnpaid(now);
    }

    /** The next order of the list, and whether its refund was an error. */
    method TryOrder(now: int, row: nat, ghost acts: map<int, Activity>, ghost start: Db, ghost list: seq<nat>, ghost j: nat,
                    ghost p: Trace) returns (error: bool, ghost longer: Trace)
      requires refund.repo == repo && DbOk(acts, start) && Batch(start, now, list) && j < |list| && list[j] == row
      requires IsPass(start, list, j, p) && p.dbs[j] == repo.Tables()
      modifies repo
      ensures IsPass(start, list, j + 1, longer) && longer.dbs[j + 1] == repo.Tables()
      ensures longer.fails[j + 1] == p.fails[j] + Bit(error)
    {
      PassReady(acts, now, start, list, j, p);
      var r := RefundExpired(row);
      error := r == Failed || r == Unsupported;
      PassExtends(start, list, j, p, repo.Tables(), p.fails[j] + Bit(error));
      longer := Trace(p.dbs + [repo.Tables()], p.fails + [p.fails[j] + Bit(error)]);
    }

    /** The loop over the list. */
    method RefundAll(now: int, list: seq<nat>, ghost acts: map<int, Activity>)
      returns (success: nat, fail: nat, ghost p: Trace)
      requires refund.repo == repo && DbOk(acts, repo.Tables()) && Batch(repo.Tables(), now, list)
      modifies repo
      ensures IsPass(old(repo.Tables()), list, |list|, p) && p.dbs[|list|] == repo.Tables()
      ensures success + fail == |list| && fail == p.fails[|list|]
    {
      ghost var start := repo.Tables();
      success, fail := 0, 0;
      p := Trace([start], [0]);
      for j := 0 to |list|
        invariant IsPass(start, list, j, p) && p.dbs[j] == repo.Tables()
        invariant success + fail == j && fail == p.fails[j]
      {
        var error;
        error, p := TryOrder(now, list[j], acts, start, list, j, p);
        if error {
          fail := fail + 1;
        } else {
          success := success + 1;
        }
      }
    }

    /** One pass, with nothing else running and no store failing. */
    method Exec(now: int, ghost acts: map<int, Activity>) returns (success: nat, fail: nat)
      requires refund.repo == repo && DbOk(acts, repo.Tables())
      modifies repo
      ensures DbOk(acts, repo.Tables())
      ensures PassResult(now, old(repo.Tables()), repo.Tables(), success, fail)
      ensures |repo.orders| == old(|repo.orders|) && repo.teams.Keys == old(repo.teams).Keys
      ensures forall i :: 0 <= i < |repo.orders| && repo.orders[i] != old(repo.orders)[i] ==>
                var o := old(repo.orders)[i];
                && o.status == OrderCreate && o.paidAt == None && o.endTime < now
                && o.team in old(repo.teams) && old(repo.teams)[o.team].status == Progress
                && repo.orders[i] == o.(status := OrderClose)
      ensures success == |set i | 0 <= i < |repo.orders| && repo.orders[i] != old(repo.orders)[i]|
      ensures var orders := old(repo.orders);
              var due := set i | 0 <= i < |orders| && orders[i].status == OrderCreate && orders[i].paidAt == None && orders[i].endTime < now;
              success + fail == if |due| < 10 then |due| else 10
      ensures forall t :: t in repo.teams ==>
                repo.teams[t] == old(repo.teams)[t].(lock := old(repo.teams)[t].lock
                  - |set i | 0 <= i < |repo.orders| && repo.orders[i] != old(repo.orders)[i] && old(repo.orders)[i].team == t|)
    {
      ghost var start := repo.Tables();
      TablesAreOrderly(acts, start);
      var list := QueryTimeoutUnpaidOrderList(now);
      ghost var p;
      success, fail, p := RefundAll(now, list, acts);
      PassEnds(acts, now, start, list, p, success, fail);
      PassInColumns(now, start, repo.Tables(), success, fail);
    }

    /** Passes one after the other. With b < 10 orders blocked, each closes at least 10 - b of those that can be
        closed while there are any, so they run out; with none blocked, k passes close exactly min(10k, n). */
    method Passes(now: int, k: nat, ghost acts: map<int, Activity>)
      requires refund.repo == repo && DbOk(acts, repo.Tables())
      modifies repo
      ensures DbOk(acts, repo.Tables()) && Open(repo.Tables()) == old(Open(repo.Tables()))
      ensures var b := old(Count(repo.orders, Blocked(now, Open(repo.Tables()))));
              var m := old(Count(repo.orders, Closable(now, Open(repo.Tables()))));
              var left := Count(repo.orders, Closable(now, old(Open(repo.Tables()))));
              && (b < 10 ==> left <= Left(m, k, 10 - b))
              && (b == 0 ==> left == Left(m, k, 10))
              && left <= m
      ensures |repo.orders| == old(|repo.orders|)
      ensures forall i :: 0 <= i < |repo.orders| ==>
                var o := old(repo.orders)[i];
                && (repo.orders[i] == o || repo.orders[i] == o.(status := OrderClose))
                && (o.status != OrderCreate || o.paidAt.Some? || o.endTime >= now ==> repo.orders[i] == o)
    {
      ghost var open := Open(repo.Tables());
      ghost var b, m := Count(repo.orders, Blocked(now, open)), Count(repo.orders, Closable(now, open));
      for j := 0 to k
        invariant DbOk(acts, repo.Tables()) && Open(repo.Tables()) == open
        invariant Count(repo.orders, Blocked(now, open)) == b && Count(repo.orders, Closable(now, open)) <= m
        invariant b < 10 ==> Count(repo.orders, Closable(now, open)) <= Left(m, j, 10 - b)
        invariant b == 0 ==> Count(repo.orders, Closable(now, open)) == Left(m, j, 10)
        invariant ClosesOnlyDue(old(repo.orders), repo.orders, now)
      {
        ghost var before := repo.Tables();
        var success, fail := Exec(now, acts);
        PassLeaves(now, before, repo.Tables(), success, fail, m, j, b);
        assert ClosesOnlyDue(old(repo.orders), repo.orders, now) by {
          DueTwice(old(repo.orders), before.orders, repo.orders, now);
        }
      }
    }
  }

  /** What a pass leaves of the orders that can be closed, after j others. */
  lemma PassLeaves(now: int, start: Db, db: Db, success: nat, fail: nat, m: nat, j: nat, b: nat)
    requires PassResult(now, start, db, success, fail) && b == Count(start.orders, Blocked(now, Open(start)))
    ensures Open(db) == Open(start) && Count(db.orders, Blocked(now, Open(start))) == b
    ensures var was, left := Count(start.orders, Closable(now, Open(start))), Count(db.orders, Closable(now, Open(start)));
            && left <= was
            && (b < 10 && was <= Left(m, j, 10 - b) ==> left <= Left(m, j + 1, 10 - b))
            && (b == 0 && was == Left(m, j, 10) ==> left == Left(m, j + 1, 10))
  {
    ClosableAndBlocked(start.orders, now, Open(start));
  }

  /** What is left of m after k passes that close d each. */
  function Left(m: nat, k: nat, d: nat): (r: nat)
    ensures r == if m <= k * d then 0 else m - k * d
  {
    if k == 0 then m
    else
      var r := Left(m, k - 1, d);
      assert k * d == (k - 1) * d + d;
      if r <= d then 0 else r - d
  }
}
