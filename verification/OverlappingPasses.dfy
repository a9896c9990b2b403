/** The notify outbox when passes of the job overlap, as they do once a pass outlives the lease of its lock. */
module OverlappingPasses {
  import opened Counting
  import opened TradeModel
  import opened NotifyTask
  import Outbox

  /** The outbox with any number of passes in place of one. */
  datatype Crowd = Crowd(rows: seq<Row>, asyncs: seq<Outbox.Async>, passes: seq<Outbox.Pass>)

  /** The outbox as pass k sees it. */
  function View(c: Crowd, k: nat): Outbox.Box
    requires k < |c.passes|
  {
    Outbox.Box(c.rows, c.asyncs, c.passes[k])
  }

  /** A step of the outbox; if it is one of the job, then of its pass k. */
  function Step(c: Crowd, k: nat, l: Outbox.Label): Crowd {
    if k >= |c.passes| then c
    else
      var b := Outbox.Step(View(c, k), l);
      Crowd(b.rows, b.asyncs, c.passes[k := b.pass])
  }

  function Start(size: nat): Crowd { Crowd([], [], seq(size, _ => Outbox.Idle)) }

  datatype Label = Label(pass: nat, step: Outbox.Label)

  function Run(c: Crowd, run: seq<Label>): Crowd {
    if run == [] then c else Step(Run(c, run[..|run| - 1]), run[|run| - 1].pass, run[|run| - 1].step)
  }

  // ---- how often a task can be written --------------------------------------------------------

  /** A pass that holds a task as it was when new, or as it was to be retried. */
  function HoldsNew(i: nat): Outbox.Pass -> bool {
    (p: Outbox.Pass) => p.Running? && i in p.snaps && p.snaps[i].status == Init
  }

  function HoldsRetry(i: nat): Outbox.Pass -> bool {
    (p: Outbox.Pass) => p.Running? && i in p.snaps && p.snaps[i].status == Retry
  }

  /** m + (m - 1) + ... + (m - n): the passes free to retry while n, n - 1, ..., 0 others hold the task as new. */
  function Free(m: nat, n: nat): (r: nat)
    requires n <= m
  {
    if n == 0 then m else Free(m, n - 1) + (m - n)
  }

  /** What can still be written to a task in status 2, with n of m passes holding it as new; open says that its
      executor has not finished. */
  function RetryBudget(m: nat, n: nat, open: bool): nat
    requires n <= m
  {
    Free(m, n) + n + (if open then 1 + m else 0)
  }

  /** To one in status 1 or 3, apart from the passes that hold it to retry. */
  function FinalBudget(m: nat, n: nat, open: bool): nat
    requires n <= m
  {
    if n > 0 then 1 + RetryBudget(m, n - 1, open) else if open then 1 + m else 0
  }

  function NewBudget(m: nat, open: bool): nat {
    if m > 0 then 1 + RetryBudget(m, m - 1, open) else if open then 1 else 0
  }

  /** How often a task is written at most, with m passes. */
  function Bound(m: nat): nat { NewBudget(m, true) }

  lemma {:induction false} FreeIsSum(m: nat, n: nat)
    requires n <= m
    ensures 2 * Free(m, n) == (n + 1) * (2 * m - n)
  {
    if n > 0 {
      FreeIsSum(m, n - 1);
      assert (n + 1) * (2 * m - n) == n * (2 * m - (n - 1)) + 2 * (m - n);
    }
  }

  /** 1, 4, 8, 13, ... */
  lemma BoundIsQuadratic(m: nat)
    ensures 2 * Bound(m) == m * m + 5 * m + 2
  {
    if m > 0 {
      FreeIsSum(m, m - 1);
      assert (m - 1 + 1) * (2 * m - (m - 1)) == m * m + m;
    }
  }

  ghost predicate RowOk(row: Row, open: bool, n: nat, r: nat, m: nat) {
    && n + r <= m && row.count >= 0
    && match row.status
       case Init => row.count == 0 && r == 0
       case Retry => row.count + RetryBudget(m, n, open) <= Bound(m)
       case _ => row.count + r + FinalBudget(m, n, open) <= Bound(m)
  }

  ghost predicate SnapOk(row: Row, p: Outbox.Pass, i: nat) {
    p.Running? && i in p.snaps ==>
      && (p.snaps[i].status == Init || p.snaps[i].status == Retry)
      && (p.snaps[i].status == Init ==> p.snaps[i].count == 0)
      && 0 <= p.snaps[i].count <= row.count
  }

  /** The rows a pass holds exist, and it has delivered one of those. */
  ghost predicate PassOk(rows: seq<Row>, p: Outbox.Pass) {
    p.Running? ==>
      && (forall i :: i in p.snaps ==> i < |rows|)
      && (p.current.Some? ==> p.current.value.0 in p.snaps)
  }

  ghost predicate RowInv(c: Crowd, i: nat)
    requires i < |c.rows| == |c.asyncs|
  {
    && RowOk(c.rows[i], !c.asyncs[i].Finished?, Count(c.passes, HoldsNew(i)), Count(c.passes, HoldsRetry(i)), |c.passes|)
    && (forall k :: 0 <= k < |c.passes| ==> SnapOk(c.rows[i], c.passes[k], i))
  }

  ghost predicate Inv(c: Crowd) {
    && |c.asyncs| == |c.rows|
    && (forall k :: 0 <= k < |c.passes| ==> PassOk(c.rows, c.passes[k]))
    && (forall i: nat :: i < |c.rows| ==> RowInv(c, i))
  }

  // ---- one write ------------------------------------------------------------------------------

  lemma {:induction false} HoldersFit(passes: seq<Outbox.Pass>, i: nat)
    ensures Count(passes, HoldsNew(i)) + Count(passes, HoldsRetry(i)) <= |passes|
  {
    if passes != [] {
      HoldersFit(passes[..|passes| - 1], i);
    }
  }

  /** The executor's write. */
  lemma ExecutorWrites(row: Row, n: nat, r: nat, m: nat, s: NotifyStatus)
    requires RowOk(row, true, n, r, m) && (s == Success || s == Retry)
    ensures RowOk(Written(row, s), false, n, r, m)
  {
    if n > 0 {
      assert Free(m, n) == Free(m, n - 1) + (m - n);
      FreeGrows(m, n - 1);
    } else {
      assert Free(m, 0) == m;
    }
    FreeGrows(m, n);
  }

  /** The write of a pass that held the task as new. */
  lemma NewHolderWrites(row: Row, open: bool, n: nat, r: nat, m: nat, s: NotifyStatus)
    requires RowOk(row, open, n, r, m) && n > 0 && (s == Success || s == Retry)
    ensures RowOk(Written(row, s), open, n - 1, r, m)
  {
    assert Free(m, n) == Free(m, n - 1) + (m - n);
    FreeGrows(m, n - 1);
  }

  /** The write of a pass that held it to retry. */
  lemma RetryHolderWrites(row: Row, open: bool, n: nat, r: nat, m: nat, s: NotifyStatus)
    requires RowOk(row, open, n, r, m) && r > 0 && (s == Success || s == Error)
    ensures RowOk(Written(row, s), open, n, r - 1, m)
  {
    if n > 0 {
      assert Free(m, n) == Free(m, n - 1) + (m - n);
    }
  }

  lemma {:induction false} FreeGrows(m: nat, n: nat)
    requires n <= m
    ensures m > 0 && n < m ==> Free(m, n) <= Free(m, m - 1)
    ensures n == m && m > 0 ==> Free(m, n) == Free(m, m - 1)
    decreases m - n
  {
    if n + 1 < m {
      FreeGrows(m, n + 1);
      assert Free(m, n + 1) == Free(m, n) + (m - n - 1);
    }
  }

  /** A pass that lets go of a task, or a new one that gets it. */
  lemma HoldersChange(row: Row, open: bool, n: nat, r: nat, m: nat, x: nat, y: nat)
    requires RowOk(row, open, n, r, m) && x + y <= m && x <= n
    requires row.status != Init ==> y <= r || row.status == Retry
    requires row.status == Init ==> y == 0
    ensures RowOk(row, open, x, y, m)
    decreases n - x
  {
    if x < n {
      assert Free(m, n) == Free(m, n - 1) + (m - n);
      assert RowOk(row, open, n - 1, r, m) by {
        if n - 1 > 0 {
          assert Free(m, n - 1) == Free(m, n - 2) + (m - (n - 1));
        }
      }
      HoldersChange(row, open, n - 1, r, m, x, y);
    }
  }

  /** The executor is done without a write. */
  lemma ExecutorFinishes(row: Row, n: nat, r: nat, m: nat)
    requires RowOk(row, true, n, r, m)
    ensures RowOk(row, false, n, r, m)
  {
  }

  // ---- all steps ------------------------------------------------------------------------------

  /** The bound of row i after a step that leaves the passes alone. */
  lemma ExecutorKeepsBound(c: Crowd, k: nat, l: Outbox.Label, i: nat)
    requires k < |c.passes| && i < |c.rows| == |c.asyncs| && RowInv(c, i)
    requires l.Insert? || l.AsyncDelivers? || l.AsyncWrites?
    ensures var next := Step(c, k, l);
            && i < |next.rows| == |next.asyncs| && next.passes == c.passes
            && next.rows[i].count >= c.rows[i].count
            && RowOk(next.rows[i], !next.asyncs[i].Finished?, Count(c.passes, HoldsNew(i)), Count(c.passes, HoldsRetry(i)), |c.passes|)
  {
    var row, n, r, m := c.rows[i], Count(c.passes, HoldsNew(i)), Count(c.passes, HoldsRetry(i)), |c.passes|;
    if l.AsyncWrites? && l.i == i && c.asyncs[i].Replied? {
      var w := Decide(Outbox.NEW_TASK, c.asyncs[i].reply);
      if w.Some? && l.written {
        ExecutorWrites(row, n, r, m, w.value);
      } else {
        ExecutorFinishes(row, n, r, m);
      }
    }
  }

  lemma ExecutorKeepsRow(c: Crowd, k: nat, l: Outbox.Label, i: nat)
    requires Inv(c) && k < |c.passes| && i < |c.rows| && (l.Insert? || l.AsyncDelivers? || l.AsyncWrites?)
    ensures var next := Step(c, k, l);
            i < |next.rows| == |next.asyncs| && RowInv(next, i)
  {
    var next := Step(c, k, l);
    assert RowInv(c, i);
    ExecutorKeepsBound(c, k, l, i);
    forall j | 0 <= j < |next.passes|
      ensures SnapOk(next.rows[i], next.passes[j], i)
    {
      assert SnapOk(c.rows[i], c.passes[j], i);
    }
  }

  /** How many passes hold the task, when pass k becomes q. */
  lemma HoldersUpdate(passes: seq<Outbox.Pass>, k: nat, q: Outbox.Pass, i: nat)
    requires k < |passes|
    ensures Count(passes[k := q], HoldsNew(i)) + Bit(HoldsNew(i)(passes[k])) == Count(passes, HoldsNew(i)) + Bit(HoldsNew(i)(q))
    ensures Count(passes[k := q], HoldsRetry(i)) + Bit(HoldsRetry(i)(passes[k])) == Count(passes, HoldsRetry(i)) + Bit(HoldsRetry(i)(q))
    ensures Count(passes[k := q], HoldsNew(i)) + Count(passes[k := q], HoldsRetry(i)) <= |passes|
  {
    CountUpdate(passes, k, q, HoldsNew(i));
    CountUpdate(passes, k, q, HoldsRetry(i));
    HoldersFit(passes[k := q], i);
  }

  /** What a step of pass k does to row i: nothing but note a success, and perhaps take hold of it as it is; or
      write it, and let go of it. */
  ghost predicate Affects(row: Row, after: Row, p: Outbox.Pass, q: Outbox.Pass, i: nat) {
    || (after.status == row.status && after.count == row.count
        && (HoldsNew(i)(q) ==> HoldsNew(i)(p) || row.status == Init)
        && (HoldsRetry(i)(q) ==> HoldsRetry(i)(p) || row.status == Retry))
    || (HoldsNew(i)(p) && !HoldsNew(i)(q) && !HoldsRetry(i)(q)
        && (after == Written(row, Success) || after == Written(row, Retry)))
    || (HoldsRetry(i)(p) && !HoldsNew(i)(q) && !HoldsRetry(i)(q)
        && (after == Written(row, Success) || after == Written(row, Error)))
  }

  lemma PassAffects(c: Crowd, k: nat, l: Outbox.Label, i: nat)
    requires k < |c.passes| && i < |c.rows| == |c.asyncs| && SnapOk(c.rows[i], c.passes[k], i)
    requires l.PassStarts? || l.PassDelivers? || l.PassWrites? || l.PassEnds?
    ensures var next := Step(c, k, l);
            && |next.rows| == |c.rows| && next.asyncs == c.asyncs && next.passes == c.passes[k := next.passes[k]]
            && Affects(c.rows[i], next.rows[i], c.passes[k], next.passes[k], i)
  {
  }

  lemma BoundAfter(row: Row, after: Row, open: bool, p: Outbox.Pass, q: Outbox.Pass, i: nat, n: nat, r: nat, m: nat, x: nat, y: nat)
    requires RowOk(row, open, n, r, m) && Affects(row, after, p, q, i) && x + y <= m
    requires x + Bit(HoldsNew(i)(p)) == n + Bit(HoldsNew(i)(q)) && y + Bit(HoldsRetry(i)(p)) == r + Bit(HoldsRetry(i)(q))
    ensures RowOk(after, open, x, y, m)
  {
    if after.status == row.status && after.count == row.count {
      if row.status != Init {
        HoldersChange(row, open, n, r, m, x, y);
      }
    } else if HoldsNew(i)(p) {
      NewHolderWrites(row, open, n, r, m, after.status);
    } else {
      RetryHolderWrites(row, open, n, r, m, after.status);
    }
  }

  /** The bound of row i after a step of pass k. */
  lemma PassKeepsBound(c: Crowd, k: nat, l: Outbox.Label, i: nat)
    requires Inv(c) && k < |c.passes| && i < |c.rows|
    requires l.PassStarts? || l.PassDelivers? || l.PassWrites? || l.PassEnds?
    ensures var next := Step(c, k, l);
            && |next.rows| == |next.asyncs| == |c.rows| && next.asyncs == c.asyncs && |next.passes| == |c.passes|
            && RowOk(next.rows[i], !next.asyncs[i].Finished?, Count(next.passes, HoldsNew(i)), Count(next.passes, HoldsRetry(i)), |c.passes|)
  {
    var next := Step(c, k, l);
    var p, q := c.passes[k], next.passes[k];
    assert RowInv(c, i) && SnapOk(c.rows[i], p, i);
    PassAffects(c, k, l, i);
    HoldersUpdate(c.passes, k, q, i);
    BoundAfter(c.rows[i], next.rows[i], !c.asyncs[i].Finished?, p, q, i, Count(c.passes, HoldsNew(i)),
               Count(c.passes, HoldsRetry(i)), |c.passes|, Count(next.passes, HoldsNew(i)), Count(next.passes, HoldsRetry(i)));
  }

  lemma PassKeepsRow(c: Crowd, k: nat, l: Outbox.Label, i: nat)
    requires Inv(c) && k < |c.passes| && i < |c.rows|
    requires l.PassStarts? || l.PassDelivers? || l.PassWrites? || l.PassEnds?
    ensures var next := Step(c, k, l);
            |next.rows| == |next.asyncs| == |c.rows| && RowInv(next, i)
  {
    var next := Step(c, k, l);
    PassKeepsBound(c, k, l, i);
    assert RowInv(c, i);
    forall j | 0 <= j < |next.passes|
      ensures SnapOk(next.rows[i], next.passes[j], i)
    {
      assert SnapOk(c.rows[i], c.passes[j], i);
    }
  }

  lemma StepKeepsPass(c: Crowd, k: nat, l: Outbox.Label, j: nat)
    requires Inv(c) && k < |c.passes| && j < |c.passes|
    ensures var next := Step(c, k, l);
            |next.rows| == |next.asyncs| && PassOk(next.rows, next.passes[j])
  {
    assert PassOk(c.rows, c.passes[j]) && PassOk(c.rows, c.passes[k]);
  }

  lemma NewRowOk(c: Crowd)
    requires Inv(c) && |c.passes| > 0
    ensures var next := Step(c, 0, Outbox.Insert); RowInv(next, |c.rows|)
  {
    var i, next := |c.rows|, Step(c, 0, Outbox.Insert);
    assert next.passes == c.passes;
    forall k | 0 <= k < |c.passes|
      ensures !HoldsNew(i)(c.passes[k]) && !HoldsRetry(i)(c.passes[k])
    {
      assert PassOk(c.rows, c.passes[k]);
    }
    CountZero(c.passes, HoldsNew(i));
    CountZero(c.passes, HoldsRetry(i));
  }

  lemma StepKeepsInv(c: Crowd, k: nat, l: Outbox.Label)
    requires Inv(c)
    ensures Inv(Step(c, k, l))
  {
    var next := Step(c, k, l);
    if k < |c.passes| {
      forall j | 0 <= j < |next.passes|
        ensures PassOk(next.rows, next.passes[j])
      {
        StepKeepsPass(c, k, l, j);
      }
      forall i: nat | i < |next.rows|
        ensures |next.rows| == |next.asyncs| && RowInv(next, i)
      {
        if i == |c.rows| {
          NewRowOk(c);
          assert next == Step(c, 0, Outbox.Insert);
        } else if l.Insert? || l.AsyncDelivers? || l.AsyncWrites? {
          ExecutorKeepsRow(c, k, l, i);
        } else {
          PassKeepsRow(c, k, l, i);
        }
      }
      StepKeepsPass(c, k, l, k);
    }
  }

  lemma {:induction false} RunKeepsInv(size: nat, run: seq<Label>)
    ensures Inv(Run(Start(size), run)) && |Run(Start(size), run).passes| == size
  {
    if run != [] {
      var n := |run| - 1;
      RunKeepsInv(size, run[..n]);
      StepKeepsInv(Run(Start(size), run[..n]), run[n].pass, run[n].step);
    }
  }

  // ---- theorems -------------------------------------------------------------------------------

  /** With m passes that may overlap, a task is written at most 1 + 2m + m(m + 1)/2 times. */
  lemma WrittenAtMost(size: nat, run: seq<Label>, i: nat)
    requires i < |Run(Start(size), run).rows|
    ensures 2 * Run(Start(size), run).rows[i].count <= size * size + 5 * size + 2
  {
    RunKeepsInv(size, run);
    var c := Run(Start(size), run);
    assert RowInv(c, i);
    BoundIsQuadratic(size);
  }

  /** Only a count above 4 leads to status 3. */
  lemma ErrorNeedsCount(c: Crowd, k: nat, l: Outbox.Label, i: nat)
    requires Inv(c) && i < |c.rows| && c.rows[i].status != Error
    ensures i < |Step(c, k, l).rows| && (Step(c, k, l).rows[i].status == Error ==> c.rows[i].count > 4)
  {
    assert RowInv(c, i);
    if k < |c.passes| {
      assert SnapOk(c.rows[i], c.passes[k], i);
    }
  }

  lemma CountAlone(size: nat, run: seq<Label>, i: nat)
    requires size < 2 && i < |Run(Start(size), run).rows|
    ensures Run(Start(size), run).rows[i].count <= 4
  {
    WrittenAtMost(size, run, i);
    assert size == 0 || size == 1;
  }

  lemma {:induction false} NoErrorAlone(size: nat, run: seq<Label>, i: nat)
    requires size < 2 && i < |Run(Start(size), run).rows|
    ensures Run(Start(size), run).rows[i].status != Error
  {
    if run != [] {
      var n := |run| - 1;
      var c := Run(Start(size), run[..n]);
      RunKeepsInv(size, run[..n]);
      if i < |c.rows| {
        NoErrorAlone(size, run[..n], i);
        CountAlone(size, run[..n], i);
        ErrorNeedsCount(c, run[n].pass, run[n].step, i);
      }
    }
  }

  ghost predicate Reachable(size: nat, c: Crowd) {
    exists run: seq<Label> :: c == Run(Start(size), run)
  }

  lemma Next(size: nat, c: Crowd, k: nat, l: Outbox.Label)
    requires Reachable(size, c)
    ensures Reachable(size, Step(c, k, l))
  {
    var run: seq<Label> :| c == Run(Start(size), run);
    var longer := run + [Label(k, l)];
    assert longer[..|run|] == run;
    assert Step(c, k, l) == Run(Start(size), longer);
  }

  /** Pass k reads the only task. */
  lemma Reads(size: nat, c: Crowd, k: nat) returns (next: Crowd)
    requires Reachable(size, c) && k < |c.passes| && |c.rows| == 1 && c.passes[k] == Outbox.Idle
    requires Outbox.IsPending()(c.rows[0])
    ensures Reachable(size, next)
    ensures next == c.(passes := c.passes[k := Outbox.Running(map[0 := Snap(c.rows[0].status, c.rows[0].count)], None)])
  {
    next := Step(c, k, Outbox.PassStarts);
    Next(size, c, k, Outbox.PassStarts);
    assert Count(c.rows[..0], Outbox.IsPending()) == 0;
    assert Outbox.Selected(c.rows, 0);
    assert Outbox.Read(c.rows) == map[0 := Snap(c.rows[0].status, c.rows[0].count)];
  }

  lemma DeliverySteps(c: Crowd, k: nat, snap: Snap, reply: Reply, w: NotifyStatus, c1: Crowd, c2: Crowd)
    requires k < |c.passes| && |c.rows| == 1 && c.passes[k] == Outbox.Running(map[0 := snap], None)
    requires Decide(snap, reply) == Some(w)
    requires c1 == Crowd([c.rows[0].(delivered := c.rows[0].delivered || reply.SuccessReply?)], c.asyncs,
                         c.passes[k := Outbox.Running(map[0 := snap], Some((0, reply)))])
    requires c2 == Crowd([Written(c1.rows[0], w)], c.asyncs, c.passes[k := Outbox.Running(map[], None)])
    ensures Step(c, k, Outbox.PassDelivers(0, reply)) == c1
    ensures Step(c1, k, Outbox.PassWrites(true)) == c2
    ensures Step(c2, k, Outbox.PassEnds) == c2.(passes := c.passes[k := Outbox.Idle])
  {
    assert map[0 := snap] - {0} == map[];
  }

  lemma ThreeSteps(size: nat, c: Crowd, k: nat, l1: Outbox.Label, l2: Outbox.Label, l3: Outbox.Label)
    requires Reachable(size, c)
    ensures Reachable(size, Step(Step(Step(c, k, l1), k, l2), k, l3))
  {
    Next(size, c, k, l1);
    Next(size, Step(c, k, l1), k, l2);
    Next(size, Step(Step(c, k, l1), k, l2), k, l3);
  }

  /** Pass k delivers it, writes what it decides, and ends. */
  lemma Delivers(size: nat, c: Crowd, k: nat, snap: Snap, reply: Reply, w: NotifyStatus) returns (next: Crowd)
    requires Reachable(size, c) && k < |c.passes| && |c.rows| == 1 && c.passes[k] == Outbox.Running(map[0 := snap], None)
    requires Decide(snap, reply) == Some(w)
    ensures Reachable(size, next)
    ensures var row := c.rows[0];
            next == Crowd([Row(w, row.count + 1, row.delivered || reply.SuccessReply?)], c.asyncs, c.passes[k := Outbox.Idle])
  {
    var c1 := Crowd([c.rows[0].(delivered := c.rows[0].delivered || reply.SuccessReply?)], c.asyncs,
                    c.passes[k := Outbox.Running(map[0 := snap], Some((0, reply)))]);
    var c2 := Crowd([Written(c1.rows[0], w)], c.asyncs, c.passes[k := Outbox.Running(map[], None)]);
    DeliverySteps(c, k, snap, reply, w, c1, c2);
    ThreeSteps(size, c, k, Outbox.PassDelivers(0, reply), Outbox.PassWrites(true), Outbox.PassEnds);
    next := c2.(passes := c.passes[k := Outbox.Idle]);
  }

  lemma Inserts(size: nat) returns (c: Crowd)
    requires size > 0
    ensures Reachable(size, c) && c == Crowd([Row(Init, 0, false)], [Outbox.Waiting], seq(size, _ => Outbox.Idle))
  {
    assert Run(Start(size), []) == Start(size);
    Next(size, Start(size), 0, Outbox.Insert);
    c := Step(Start(size), 0, Outbox.Insert);
    assert c.passes == Start(size).passes;
  }

  /** The executor's failure is written at last. */
  lemma ExecutorFails(size: nat, c: Crowd) returns (next: Crowd)
    requires Reachable(size, c) && |c.passes| > 0 && |c.rows| == 1 && c.asyncs == [Outbox.Waiting]
    ensures Reachable(size, next)
    ensures next == Crowd([Row(Retry, c.rows[0].count + 1, c.rows[0].delivered)], [Outbox.Finished], c.passes)
  {
    var c1 := Step(c, 0, Outbox.AsyncDelivers(0, ErrorReply));
    next := Step(c1, 0, Outbox.AsyncWrites(0, true));
    Next(size, c, 0, Outbox.AsyncDelivers(0, ErrorReply));
    Next(size, c1, 0, Outbox.AsyncWrites(0, true));
    assert c1.passes == c.passes && next.passes == c.passes;
  }

  /** Two passes that hold the task as new, and its executor, bring it to status 2 with a count of 6. */
  lemma CountOfSix(size: nat) returns (c: Crowd)
    requires size >= 2
    ensures Reachable(size, c) && |c.passes| == size && c.passes[0] == Outbox.Idle
    ensures c.rows == [Row(Retry, 6, true)]
  {
    c := Inserts(size);
    c := Reads(size, c, 0);
    c := Reads(size, c, 1);
    c := Delivers(size, c, 0, Snap(Init, 0), ErrorReply, Retry);
    c := Reads(size, c, 0);
    c := Delivers(size, c, 0, Snap(Retry, 1), SuccessReply, Success);
    c := Delivers(size, c, 1, Snap(Init, 0), ErrorReply, Retry);
    c := Reads(size, c, 0);
    c := Reads(size, c, 1);
    c := Delivers(size, c, 0, Snap(Retry, 3), SuccessReply, Success);
    c := Delivers(size, c, 1, Snap(Retry, 3), SuccessReply, Success);
    c := ExecutorFails(size, c);
  }

  /** Status 3 can be written exactly when two passes may overlap. */
  lemma ErrorNeedsOverlap(size: nat)
    ensures (exists run: seq<Label>, i: nat :: HasError(Run(Start(size), run), i)) <==> size >= 2
  {
    if size >= 2 {
      var c := CountOfSix(size);
      c := Reads(size, c, 0);
      c := Delivers(size, c, 0, Snap(Retry, 6), ErrorReply, Error);
      var run: seq<Label> :| c == Run(Start(size), run);
      assert HasError(Run(Start(size), run), 0);
    } else {
      forall run: seq<Label>, i: nat
        ensures !HasError(Run(Start(size), run), i)
      {
        if i < |Run(Start(size), run).rows| {
          NoErrorAlone(size, run, i);
        }
      }
    }
  }

  predicate HasError(c: Crowd, i: nat) { i < |c.rows| && c.rows[i].status == Error }
}
