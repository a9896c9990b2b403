/** The Redis lease lock (SET NX with an expiry, unconditional DEL) over timed runs, and the delivery of a
    task inside it. Times are in milliseconds. */
module LeaseLock {
  import opened NotifyTask
  import opened TradeModel

  /** An executor outside, or inside the lock of a key with the end of its lease. */
  datatype Executor = Outside | Inside(key: string, until: nat)

  /** keys maps a key to the time it expires at; past that time it counts as absent. */
  datatype State = State(now: nat, keys: map<string, nat>, execs: seq<Executor>)

  /** Crashes leaves the key to expire by itself. */
  datatype Label = Tick(d: nat) | TryLock(i: nat, key: string, lease: nat) | Unlock(i: nat) | Crashes(i: nat)

  predicate Present(keys: map<string, nat>, key: string, now: nat) { key in keys && now < keys[key] }

  function Step(s: State, l: Label): State {
    match l
    case Tick(d) => s.(now := s.now + d)
    case TryLock(i, key, lease) =>
      if i < |s.execs| && s.execs[i].Outside? && !Present(s.keys, key, s.now) then
        s.(keys := s.keys[key := s.now + lease], execs := s.execs[i := Inside(key, s.now + lease)])
      else s
    case Unlock(i) =>
      if i < |s.execs| && s.execs[i].Inside? then
        s.(keys := s.keys - {s.execs[i].key}, execs := s.execs[i := Outside])
      else s
    case Crashes(i) => if i < |s.execs| then s.(execs := s.execs[i := Outside]) else s
  }

  function Run(s: State, run: seq<Label>): State {
    if run == [] then s else Step(Run(s, run[..|run| - 1]), run[|run| - 1])
  }

  /** No executor is inside past the end of its lease. */
  predicate Timely(s: State) {
    forall i :: 0 <= i < |s.execs| && s.execs[i].Inside? ==> s.now < s.execs[i].until
  }

  ghost predicate TimelyRun(s: State, run: seq<Label>) {
    forall n :: 0 <= n <= |run| ==> Timely(Run(s, run[..n]))
  }

  function Idle(n: nat): State { State(0, map[], seq(n, _ => Outside)) }

  /** The lock of a key is the lease of the one executor inside it. */
  ghost predicate Exclusive(s: State) {
    && (forall i :: 0 <= i < |s.execs| && s.execs[i].Inside? ==>
          s.execs[i].key in s.keys && s.keys[s.execs[i].key] == s.execs[i].until)
    && (forall i, j :: 0 <= i < j < |s.execs| && s.execs[i].Inside? && s.execs[j].Inside? ==> s.execs[i].key != s.execs[j].key)
  }

  lemma {:induction false} TimelyRunIsExclusive(n: nat, run: seq<Label>)
    requires TimelyRun(Idle(n), run)
    ensures Exclusive(Run(Idle(n), run))
  {
    if run != [] {
      var m := |run| - 1;
      forall k | 0 <= k <= m
        ensures Timely(Run(Idle(n), run[..m][..k]))
      {
        assert run[..m][..k] == run[..k];
        assert Timely(Run(Idle(n), run[..k]));
      }
      TimelyRunIsExclusive(n, run[..m]);
      assert Timely(Run(Idle(n), run[..m]));
    }
  }

  /** If every holder leaves before its lease ends, at most one executor is inside a key at any time, and the
      DEL of Unlock removes the holder's own lock: the key's expiry is the holder's, and it has not passed. */
  lemma LeaseLockIsSafe(n: nat, run: seq<Label>, i: nat)
    requires TimelyRun(Idle(n), run)
    requires i < |Run(Idle(n), run).execs| && Run(Idle(n), run).execs[i].Inside?
    ensures var s := Run(Idle(n), run); var key := s.execs[i].key;
            && Present(s.keys, key, s.now) && s.keys[key] == s.execs[i].until
            && (forall j :: 0 <= j < |s.execs| && j != i ==> !(s.execs[j].Inside? && s.execs[j].key == key))
            && (forall other :: other in s.keys && other != key ==> other in Step(s, Unlock(i)).keys)
  {
    TimelyRunIsExclusive(n, run);
    assert run[..|run|] == run;
    assert Timely(Run(Idle(n), run[..|run|]));
  }

  /** In any state where the locks are the leases of their executors, an attempt breaks that exactly when the
      lease of the key has run out while another executor is still inside. */
  lemma OverstayingBreaksExclusion(s: State, i: nat, key: string, lease: nat)
    requires Exclusive(s) && i < |s.execs| && s.execs[i].Outside?
    ensures !Exclusive(Step(s, TryLock(i, key, lease)))
       <==> exists j :: 0 <= j < |s.execs| && s.execs[j].Inside? && s.execs[j].key == key && s.execs[j].until <= s.now
  {
    var next := Step(s, TryLock(i, key, lease));
    if j :| 0 <= j < |s.execs| && s.execs[j].Inside? && s.execs[j].key == key && s.execs[j].until <= s.now {
      assert next.execs[i].Inside? && next.execs[i].key == key;
      assert next.execs[j] == s.execs[j];
    }
  }

  /** And then the overstaying executor's own DEL removes the newcomer's lock, so that a third one gets in beside
      it with its lease running. */
  lemma OverstayerUnlocksTheNext(s: State, i: nat, j: nat, k: nat, lease: nat, later: nat)
    requires Exclusive(s) && i < |s.execs| && j < |s.execs| && k < |s.execs| && i != k
    requires s.execs[i].Outside? && s.execs[k].Outside? && s.execs[j].Inside? && s.execs[j].until <= s.now
    requires lease > 0 && later > 0
    ensures var key := s.execs[j].key;
            var t := Step(Step(Step(s, TryLock(i, key, lease)), Unlock(j)), TryLock(k, key, later));
            t.execs[i] == Inside(key, s.now + lease) && t.execs[k] == Inside(key, s.now + later) && t.now == s.now
  {
  }

  /** An executor that crashes leaves its lock behind: others get in when its lease has run out, and not before. */
  lemma CrashedLockExpires(s: State, i: nat, j: nat, d: nat, lease: nat)
    requires Exclusive(s) && i < |s.execs| && j < |s.execs| && i != j
    requires s.execs[i].Inside? && s.execs[j].Outside? && lease > 0
    ensures var key := s.execs[i].key;
            var t := Step(Step(Step(s, Crashes(i)), Tick(d)), TryLock(j, key, lease));
            && t.now == s.now + d && |t.execs| == |s.execs| && t.execs[i] == Outside
            && (t.execs[j].Inside? <==> s.now + d >= s.execs[i].until)
  {
  }

  // ---- the lock as one caller uses it ---------------------------------------------------------

  /** What GroupBuyNotify sends: to an HTTP address (none means nothing to do), to RabbitMQ, or neither. */
  datatype Channel = Http(address: bool) | Mq | Unknown

  /** How a wait for a lock ends. */
  datatype WaitResult = Locked | Refused | TimedOut | Cancelled

  class RedisService {
    var now: nat
    var keys: map<string, nat>

    constructor (now: nat)
      ensures this.now == now && keys == map[]
    {
      this.now := now;
      keys := map[];
    }

    method TryLock(key: string, lease: nat) returns (ok: bool)
      modifies this`keys
      ensures ok == !Present(old(keys), key, now)
      ensures keys == if ok then old(keys)[key := now + lease] else old(keys)
    {
      ok := !Present(keys, key, now);
      if ok {
        keys := keys[key := now + lease];
      }
    }

    method Unlock(key: string)
      modifies this`keys
      ensures keys == old(keys) - {key}
    {
      keys := keys - {key};
    }

    /** Polls every 50 ms until the lock is free, Redis refuses, the deadline has passed or the caller cancels.
        refusedAt and cancelledAt are the times from which Redis refuses and the caller has cancelled. */
    method TryLockWait(key: string, wait: nat, lease: nat, refusedAt: Option<nat>, cancelledAt: Option<nat>)
      returns (r: WaitResult)
      modifies this
      ensures old(now) <= now <= old(now) + wait + 50
      ensures keys == if r == Locked then old(keys)[key := now + lease] else old(keys)
      ensures r == Refused <==> refusedAt.Some? && refusedAt.value <= now && r != Cancelled
      ensures r == Locked ==> !Present(old(keys), key, now)
      ensures r == TimedOut ==> Present(old(keys), key, now) && now > old(now) + wait
      ensures r == Locked && now >= old(now) + 50 ==> Present(old(keys), key, now - 50)
      ensures r == Locked || r == TimedOut || r == Refused ==> (now - old(now)) % 50 == 0
      ensures r == Cancelled ==> Present(old(keys), key, old(now)) && cancelledAt.Some? && cancelledAt.value <= now
      ensures r == Cancelled ==> now == if cancelledAt.value < old(now) then old(now) else cancelledAt.value
      ensures !Present(old(keys), key, old(now)) && !(refusedAt.Some? && refusedAt.value <= old(now)) ==>
                r == Locked && now == old(now)
    {
      var deadline := now + wait;
      while true
        invariant old(now) <= now <= old(now) + wait + 50 && keys == old(keys)
        invariant now > old(now) ==> Present(keys, key, old(now))
        invariant now >= old(now) + 50 ==> Present(keys, key, now - 50)
        invariant (now - old(now)) % 50 == 0
        invariant now > old(now) && cancelledAt.Some? ==> now <= cancelledAt.value
        decreases deadline + 50 - now
      {
        if refusedAt.Some? && refusedAt.value <= now {
          return Refused;
        }
        var ok := TryLock(key, lease);
        if ok {
          return Locked;
        }
        if now > deadline {
          return TimedOut;
        }
        if cancelledAt.Some? && cancelledAt.value < now + 50 {
          now := if cancelledAt.value < now then now else cancelledAt.value;
          return Cancelled;
        }
        now := now + 50;
      }
    }

    /** One delivery inside the lock of its task; sent is what the gateway or the broker reports, takes how long
        that lasts, and newcomer the lease of another executor that gets in if the lock has expired by then. The
        lock is released on every path that took it: the holder's own if it was in time, else the newcomer's. A
        lock not obtained, for whatever reason, changes nothing and reports Null. */
    method GroupBuyNotify(lockKey: string, channel: Channel, sent: bool, takes: nat, newcomer: Option<nat>,
                          refusedAt: Option<nat>, cancelledAt: Option<nat>)
      returns (reply: Reply, wait: WaitResult, ghost removed: Option<nat>)
      modifies this
      ensures wait != Locked ==> reply == NullReply && keys == old(keys) && removed == None
      ensures wait == TimedOut ==> old(now) + 3000 < now <= old(now) + 3050
      ensures wait == Locked ==>
                && keys == old(keys) - {lockKey}
                && reply == if sent || channel == Unknown || channel == Http(false) then SuccessReply else ErrorReply
      ensures wait == Locked ==>
                && old(now) + takes <= now && removed.Some?
                && removed.value == if takes >= 30000 && newcomer.Some? then now + newcomer.value else now - takes + 30000
      ensures !Present(old(keys), lockKey, old(now)) && !(refusedAt.Some? && refusedAt.value <= old(now)) ==> wait == Locked
    {
      removed := None;
      wait := TryLockWait(lockKey, 3000, 30000, refusedAt, cancelledAt);
      if wait != Locked {
        return NullReply, wait, None;
      }
      match channel {
        case Http(address) =>
          if !address {
            reply := SuccessReply;
          } else {
            reply := if sent then SuccessReply else ErrorReply;
          }
        case Mq => reply := if sent then SuccessReply else ErrorReply;
        case Unknown => reply := SuccessReply;
      }
      now := now + takes;
      if takes >= 30000 && newcomer.Some? {
        var ok := TryLock(lockKey, newcomer.value);
      }
      removed := Some(keys[lockKey]);
      Unlock(lockKey);
    }
  }
}
