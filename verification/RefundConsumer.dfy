/** The loop of internal/infrastructure/mq/rabbitmq.go on the refund queue: each delivery is handled, then
    acknowledged or put back. */
module RefundConsumer {
  import opened TradeModel
  import opened TradeProtocol
  import opened RedisStore

  /** Which Redis commands fail during one handling. */
  datatype Faults = Faults(setNx: bool, incr: bool, del: bool)

  const NO_FAULTS: Faults := Faults(false, false, false)

  /** Handling one message: the counters and locks it leaves, and whether it goes back to the queue. */
  function Handle(view: Redis, m: RefundMsg, f: Faults): (Redis, bool) {
    if f.setNx then (view, true)
    else if m.row in view.refundLocks then (view, false)
    else
      var locked := view.(refundLocks := view.refundLocks + {m.row});
      if !f.incr then (locked.(recovery := Bump(view.recovery, (m.activity, m.team))), false)
      else (if f.del then locked else view, true)
  }

  /** The counters and locks after the first n deliveries, and the messages put back. */
  function HandleAll(view: Redis, queue: seq<RefundMsg>, faults: seq<Faults>, n: nat): (Redis, seq<RefundMsg>)
    requires n <= |queue| == |faults|
  {
    if n == 0 then (view, [])
    else
      var (before, back) := HandleAll(view, queue, faults, n - 1);
      var (after, failed) := Handle(before, queue[n - 1], faults[n - 1]);
      (after, if failed then back + [queue[n - 1]] else back)
  }

  /** Takes the deliveries in turn. A failed one is returned for redelivery, a handled one is not. */
  method Consume(redis: RedisStore, queue: seq<RefundMsg>, faults: seq<Faults>) returns (requeued: seq<RefundMsg>)
    requires redis.Valid() && |queue| == |faults|
    modifies redis
    ensures redis.Valid()
    ensures (redis.view, requeued) == HandleAll(old(redis.view), queue, faults, |queue|)
    ensures old(redis.view).refundLocks <= redis.view.refundLocks
    ensures forall j :: 0 <= j < |queue| && faults[j].setNx ==> queue[j] in requeued
    ensures forall m :: m in requeued ==> exists j :: 0 <= j < |queue| && queue[j] == m && (faults[j].setNx || faults[j].incr)
    ensures forall j :: 0 <= j < |queue| ==> queue[j] in requeued || queue[j].row in redis.view.refundLocks
  {
    requeued := [];
    for j := 0 to |queue|
      invariant redis.Valid()
      invariant (redis.view, requeued) == HandleAll(old(redis.view), queue, faults, j)
    {
      var m, f := queue[j], faults[j];
      var failed := redis.Refund2AddRecovery(m.activity, m.team, m.row, f.setNx, f.incr, f.del);
      if failed {
        requeued := requeued + [m];
      }
    }
    PutsBack(old(redis.view), queue, faults, |queue|);
  }

  /** A delivery that cannot take its lock is put back; one that is not put back finds its lock set, or sets it. */
  lemma {:induction false} PutsBack(view: Redis, queue: seq<RefundMsg>, faults: seq<Faults>, n: nat)
    requires n <= |queue| == |faults|
    ensures var (after, back) := HandleAll(view, queue, faults, n);
            && view.refundLocks <= after.refundLocks
            && (forall j :: 0 <= j < n && faults[j].setNx ==> queue[j] in back)
            && (forall m :: m in back ==> exists j :: 0 <= j < n && queue[j] == m && (faults[j].setNx || faults[j].incr))
            && (forall j :: 0 <= j < n ==> queue[j] in back || queue[j].row in after.refundLocks)
  {
    if n > 0 {
      PutsBack(view, queue, faults, n - 1);
    }
  }

  /** Handling in the protocol, from delivery to acknowledgement, is this handling; an acknowledgement that is lost
      puts the message back as well. */
  lemma HandlesAsInProtocol(s: Sys, i: nat, m: RefundMsg, f: Faults, ackLost: bool)
    requires i < |s.procs| && s.procs[i] == MsgLock(m) && m.row < |s.db.orders|
    ensures var s1 := MsgStep(s, i, Env(f.setNx, 0, ""));
            var s2 := if s1.procs[i].MsgIncr? then MsgStep(s1, i, Env(f.incr, 0, "")) else s1;
            var s3 := if s2.procs[i].MsgDel? then MsgStep(s2, i, Env(f.del, 0, "")) else s2;
            var s4 := if s3.procs[i].MsgAck? then MsgStep(s3, i, Env(ackLost, 0, "")) else s3;
            var (view, failed) := Handle(s.redis, m, f);
            && s3.redis == view && s3.procs[i] == (if failed then MsgQueued(m) else MsgAck(m))
            && s4.redis == view && s4.procs[i] == if failed || ackLost then MsgQueued(m) else MsgAcked(m)
  {
    var s1 := MsgStep(s, i, Env(f.setNx, 0, ""));
    if s1.procs[i].MsgIncr? && f.incr && !f.del {
      assert s1.redis.refundLocks - {m.row} == s.redis.refundLocks;
    }
  }

  /** A message may be delivered again as long as it is not acknowledged, and no longer. */
  lemma RedeliveredUntilAcknowledged(acts: map<int, Activity>, s: Sys, i: nat, m: RefundMsg)
    requires i < |s.procs| && Delivered(s.procs[i], m)
    ensures (exists l: Label :: MayReturn(acts, s, l, i, m)) <==> s.procs[i] != MsgAcked(m)
  {
    if s.procs[i] != MsgAcked(m) {
      assert MayReturn(acts, s, ConsumerDies(i), i, m);
    } else {
      forall l: Label
        ensures !MayReturn(acts, s, l, i, m)
      {
        AcknowledgedStays(acts, s, l, i);
      }
    }
  }

  lemma AcknowledgedStays(acts: map<int, Activity>, s: Sys, l: Label, i: nat)
    requires i < |s.procs| && s.procs[i].MsgAcked?
    ensures i < |Step(acts, s, l).procs| && Step(acts, s, l).procs[i] == s.procs[i]
  {
    if l.Advance? && l.i < |s.procs| {
      AdvanceMovesOne(acts, s, l.i, l.env);
    }
  }

  predicate Delivered(p: Proc, m: RefundMsg) {
    (p.MsgLock? || p.MsgIncr? || p.MsgDel? || p.MsgAck? || p.MsgAcked?) && p.msg == m
  }

  /** The step puts the message back into the queue. */
  predicate MayReturn(acts: map<int, Activity>, s: Sys, l: Label, i: nat, m: RefundMsg) {
    var procs := Step(acts, s, l).procs;
    i < |procs| && procs[i] == MsgQueued(m)
  }

  lemma {:induction false} LocksAfter(view: Redis, queue: seq<RefundMsg>, faults: seq<Faults>, n: nat)
    requires n <= |queue| == |faults| && forall j :: 0 <= j < n ==> faults[j] == NO_FAULTS
    ensures var (after, back) := HandleAll(view, queue, faults, n);
            && back == []
            && (forall row: nat :: row in after.refundLocks <==>
                  row in view.refundLocks || exists j :: 0 <= j < n && queue[j].row == row)
  {
    if n > 0 {
      LocksAfter(view, queue, faults, n - 1);
    }
  }

  /** Redelivering, in any order and any number of times, messages that were handled without failure changes
      nothing and puts nothing back. */
  lemma {:induction false} RedeliveryChangesNothing(
    view: Redis, queue: seq<RefundMsg>, faults: seq<Faults>, again: seq<RefundMsg>, quiet: seq<Faults>, n: nat)
    requires |queue| == |faults| && forall j :: 0 <= j < |faults| ==> faults[j] == NO_FAULTS
    requires n <= |again| == |quiet| && forall j :: 0 <= j < |quiet| ==> quiet[j] == NO_FAULTS
    requires forall j :: 0 <= j < |again| ==> again[j] in queue
    ensures var after := HandleAll(view, queue, faults, |queue|).0;
            HandleAll(after, again, quiet, n) == (after, [])
  {
    LocksAfter(view, queue, faults, |queue|);
    if n > 0 {
      RedeliveryChangesNothing(view, queue, faults, again, quiet, n - 1);
      assert again[n - 1] in queue;
    }
  }
}
