/** internal/infrastructure/dcc/dcc_service.go: four settings per instance, changed locally and by messages on
    one ordered channel that every instance, the sender included, handles. */
module Dcc {
  import opened TradeModel

  datatype Settings = Settings(downgradeSwitch: string, cutRange: string, scBlacklist: string, cacheSwitch: string)

  datatype Msg = Msg(key: string, value: string)

  const KEYS: set<string> := {"downgradeSwitch", "cutRange", "scBlacklist", "cacheSwitch"}

  /** Snapshot()[key]. */
  function Value(s: Settings, key: string): string
    requires key in KEYS
  {
    if key == "downgradeSwitch" then s.downgradeSwitch
    else if key == "cutRange" then s.cutRange
    else if key == "scBlacklist" then s.scBlacklist
    else s.cacheSwitch
  }

  function ApplyLocal(s: Settings, m: Msg): Settings {
    if m.key == "downgradeSwitch" then s.(downgradeSwitch := m.value)
    else if m.key == "cutRange" then s.(cutRange := m.value)
    else if m.key == "scBlacklist" then s.(scBlacklist := m.value)
    else if m.key == "cacheSwitch" then s.(cacheSwitch := m.value)
    else s
  }

  /** A change reaches its own key and no other; an unknown key reaches none. */
  lemma ApplySetsOneKey(s: Settings, m: Msg, key: string)
    requires key in KEYS
    ensures Value(ApplyLocal(s, m), key) == if m.key == key then m.value else Value(s, key)
    ensures m.key !in KEYS ==> ApplyLocal(s, m) == s
  {
  }

  lemma SettingsAreTheirValues(s: Settings, t: Settings)
    requires forall key :: key in KEYS ==> Value(s, key) == Value(t, key)
    ensures s == t
  {
    assert Value(s, "downgradeSwitch") == Value(t, "downgradeSwitch");
    assert Value(s, "cutRange") == Value(t, "cutRange");
    assert Value(s, "scBlacklist") == Value(t, "scBlacklist");
    assert Value(s, "cacheSwitch") == Value(t, "cacheSwitch");
  }

  class DccService {
    var downgradeSwitch: string
    var cutRange: string
    var scBlacklist: string
    var cacheSwitch: string

    constructor (s: Settings)
      ensures Snapshot() == s
    {
      downgradeSwitch, cutRange, scBlacklist, cacheSwitch := s.downgradeSwitch, s.cutRange, s.scBlacklist, s.cacheSwitch;
    }

    function Snapshot(): Settings
      reads this
    {
      Settings(downgradeSwitch, cutRange, scBlacklist, cacheSwitch)
    }

    /** The switch of applyLocal; an unknown key is ignored. */
    method Apply(key: string, value: string)
      modifies this
      ensures Snapshot() == ApplyLocal(old(Snapshot()), Msg(key, value))
      ensures forall k :: k in KEYS ==> Value(Snapshot(), k) == if k == key then value else Value(old(Snapshot()), k)
      ensures downgradeSwitch == if key == "downgradeSwitch" then value else old(downgradeSwitch)
      ensures cutRange == if key == "cutRange" then value else old(cutRange)
      ensures scBlacklist == if key == "scBlacklist" then value else old(scBlacklist)
      ensures cacheSwitch == if key == "cacheSwitch" then value else old(cacheSwitch)
    {
      match key {
        case "downgradeSwitch" => downgradeSwitch := value;
        case "cutRange" => cutRange := value;
        case "scBlacklist" => scBlacklist := value;
        case "cacheSwitch" => cacheSwitch := value;
        case _ =>
      }
    }

    /** Applies locally, then publishes, if broadcasting is enabled; a publication the channel refuses is logged
        and forgotten. */
    method Update(key: string, value: string, enabled: bool, channel: Channel, refused: bool)
      modifies this, channel
      ensures Snapshot() == ApplyLocal(old(Snapshot()), Msg(key, value))
      ensures forall k :: k in KEYS ==> Value(Snapshot(), k) == if k == key then value else Value(old(Snapshot()), k)
      ensures channel.log == old(channel.log) + (if enabled && !refused then [Msg(key, value)] else [])
    {
      Apply(key, value);
      if !enabled {
        return;
      }
      var _ := channel.Publish(Msg(key, value), refused);
    }
  }

  /** The Redis channel, in the order in which it delivers. */
  class Channel {
    var log: seq<Msg>

    constructor ()
      ensures log == []
    {
      log := [];
    }

    method Publish(m: Msg, refused: bool) returns (failed: bool)
      modifies this
      ensures failed == refused && log == if refused then old(log) else old(log) + [m]
    {
      failed := refused;
      if !refused {
        log := log + [m];
      }
    }
  }

  /** What an update of instance i does alone: in the network, its local change and the publication that follows. */
  lemma UpdateInNet(n: Net, i: nat, key: string, value: string, refused: bool)
    requires i < |n.instances|
    ensures var m := Msg(key, value); var j := |n.pending|;
            var next := Step(Step(n, Update(i, key, value)), if refused then PublishFails(j) else Publish(j));
            && next.instances == n.instances[i := ApplyLocal(n.instances[i], m)]
            && next.log == n.log + (if refused then [] else [m])
            && next.pending == n.pending
            && next.dropped == n.dropped + (if refused then {(i, key)} else {})
  {
    assert Without(n.pending + [(i, Msg(key, value))], |n.pending|) == n.pending;
  }

  // ---- many instances -------------------------------------------------------------------------

  /** read[i] is how many messages instance i has handled; pending are updates applied at their instance and
      not yet published; dropped notes instances and keys whose publication failed. */
  datatype Net = Net(
    instances: seq<Settings>, read: seq<nat>, log: seq<Msg>, pending: seq<(nat, Msg)>, dropped: set<(nat, string)>)

  datatype Label =
    | Update(i: nat, key: string, value: string)
    | Publish(j: nat)
    | PublishFails(j: nat)
    | Handle(i: nat)

  function Without<T>(s: seq<T>, j: nat): seq<T>
    requires j < |s|
  {
    s[..j] + s[j + 1..]
  }

  function Step(n: Net, l: Label): Net {
    match l
    case Update(i, key, value) =>
      if i >= |n.instances| then n
      else n.(instances := n.instances[i := ApplyLocal(n.instances[i], Msg(key, value))],
              pending := n.pending + [(i, Msg(key, value))])
    case Publish(j) =>
      if j >= |n.pending| then n
      else n.(pending := Without(n.pending, j), log := n.log + [n.pending[j].1])
    case PublishFails(j) =>
      if j >= |n.pending| then n
      else n.(pending := Without(n.pending, j), dropped := n.dropped + {(n.pending[j].0, n.pending[j].1.key)})
    case Handle(i) =>
      if i >= |n.instances| || i >= |n.read| || n.read[i] >= |n.log| then n
      else
        var m := n.log[n.read[i]];
        n.(instances := n.instances[i := ApplyLocal(n.instances[i], m)], read := n.read[i := n.read[i] + 1],
           dropped := n.dropped - {(i, m.key)})
  }

  function Run(n: Net, run: seq<Label>): Net {
    if run == [] then n else Step(Run(n, run[..|run| - 1]), run[|run| - 1])
  }

  /** size instances with equal settings. */
  function Start(size: nat, s: Settings): Net {
    Net(seq(size, _ => s), seq(size, _ => 0), [], [], {})
  }

  /** The last value a log publishes for a key, and what was there before it. */
  function Last(log: seq<Msg>, key: string, initial: string): string {
    if log == [] then initial
    else if log[|log| - 1].key == key then log[|log| - 1].value
    else Last(log[..|log| - 1], key, initial)
  }

  /** Instance i has nothing outstanding on the key: no update waiting to be published, no message waiting to
      be handled, no failed publication since the last one handled. */
  ghost predicate Settled(n: Net, i: nat, key: string)
    requires i < |n.read|
  {
    && (forall j :: 0 <= j < |n.pending| ==> n.pending[j].0 != i || n.pending[j].1.key != key)
    && (forall j :: n.read[i] <= j < |n.log| ==> n.log[j].key != key)
    && (i, key) !in n.dropped
  }

  ghost predicate InstanceOk(n: Net, initial: Settings, i: nat, key: string)
    requires key in KEYS && i < |n.instances| == |n.read|
  {
    && n.read[i] <= |n.log|
    && (Settled(n, i, key) ==> Value(n.instances[i], key) == Last(n.log[..n.read[i]], key, Value(initial, key)))
  }

  ghost predicate Inv(n: Net, initial: Settings) {
    && |n.instances| == |n.read|
    && (forall i: nat, key: string :: i < |n.read| && key in KEYS ==> InstanceOk(n, initial, i, key))
  }

  lemma PublishKeeps(n: Net, next: Net, initial: Settings, j: nat, i: nat, key: string)
    requires Inv(n, initial) && i < |n.read| && key in KEYS && j < |n.pending|
    requires next == Step(n, Publish(j)) || next == Step(n, PublishFails(j))
    ensures InstanceOk(next, initial, i, key)
  {
    assert InstanceOk(n, initial, i, key);
    assert next.log[..n.read[i]] == n.log[..n.read[i]];
    if Settled(next, i, key) {
      var p := n.pending;
      forall k | 0 <= k < |p|
        ensures p[k].0 != i || p[k].1.key != key
      {
        if k < j {
          assert next.pending[k] == p[k];
        } else if k > j {
          assert next.pending[k - 1] == p[k];
        } else if next == Step(n, Publish(j)) && next.log == n.log + [p[j].1] {
          assert next.log[|n.log|] == p[j].1;
        }
      }
      forall k | n.read[i] <= k < |n.log|
        ensures n.log[k].key != key
      {
        assert next.log[k] == n.log[k];
      }
    }
  }

  lemma UpdateKeeps(n: Net, initial: Settings, at: nat, k: string, value: string, i: nat, key: string)
    requires Inv(n, initial) && i < |n.read| && key in KEYS && at < |n.instances|
    ensures InstanceOk(Step(n, Update(at, k, value)), initial, i, key)
  {
    var next := Step(n, Update(at, k, value));
    assert InstanceOk(n, initial, i, key);
    ApplySetsOneKey(n.instances[at], Msg(k, value), key);
    if Settled(next, i, key) {
      assert next.pending[|n.pending|] == (at, Msg(k, value));
      forall j | 0 <= j < |n.pending|
        ensures n.pending[j].0 != i || n.pending[j].1.key != key
      {
        assert next.pending[j] == n.pending[j];
      }
    }
  }

  lemma HandleKeeps(n: Net, initial: Settings, at: nat, i: nat, key: string)
    requires Inv(n, initial) && i < |n.read| && key in KEYS && at < |n.read| && n.read[at] < |n.log|
    ensures InstanceOk(Step(n, Handle(at)), initial, i, key)
  {
    var next := Step(n, Handle(at));
    var m := n.log[n.read[at]];
    assert InstanceOk(n, initial, i, key);
    ApplySetsOneKey(n.instances[at], m, key);
    if i == at {
      assert n.log[..n.read[i] + 1][..n.read[i]] == n.log[..n.read[i]];
    }
  }

  lemma StepKeepsInv(n: Net, initial: Settings, l: Label)
    requires Inv(n, initial)
    ensures Inv(Step(n, l), initial)
  {
    var next := Step(n, l);
    forall i: nat, key: string | i < |next.read| && key in KEYS
      ensures InstanceOk(next, initial, i, key)
    {
      assert InstanceOk(n, initial, i, key);
      if next != n {
        match l
        case Update(at, k, value) => UpdateKeeps(n, initial, at, k, value, i, key);
        case Publish(j) => PublishKeeps(n, next, initial, j, i, key);
        case PublishFails(j) => PublishKeeps(n, next, initial, j, i, key);
        case Handle(at) => HandleKeeps(n, initial, at, i, key);
      }
    }
  }

  lemma {:induction false} RunKeepsInv(size: nat, initial: Settings, run: seq<Label>)
    ensures var n := Run(Start(size, initial), run); Inv(n, initial) && |n.read| == size
  {
    if run != [] {
      RunKeepsInv(size, initial, run[..|run| - 1]);
      StepKeepsInv(Run(Start(size, initial), run[..|run| - 1]), initial, run[|run| - 1]);
    }
  }

  lemma RunSizes(size: nat, initial: Settings, run: seq<Label>)
    ensures var n := Run(Start(size, initial), run); |n.instances| == |n.read| == size
  {
    RunKeepsInv(size, initial, run);
  }

  /** Once all messages are published and handled, an instance holds the last published value of every key for
      which its own publications have not failed since. */
  lemma SettledHoldsLast(size: nat, initial: Settings, run: seq<Label>, i: nat, key: string)
    requires i < size && key in KEYS
    requires var n := Run(Start(size, initial), run);
             |n.read| == size && n.pending == [] && n.read[i] == |n.log| && (i, key) !in n.dropped
    ensures var n := Run(Start(size, initial), run);
            |n.instances| == size && Value(n.instances[i], key) == Last(n.log, key, Value(initial, key))
  {
    RunKeepsInv(size, initial, run);
    var n := Run(Start(size, initial), run);
    assert InstanceOk(n, initial, i, key);
    assert n.log[..|n.log|] == n.log;
  }

  /** Convergence: with every publication successful, all instances end with the same snapshot, the last
      published value of each key. */
  lemma Converges(size: nat, initial: Settings, run: seq<Label>)
    requires var n := Run(Start(size, initial), run);
             n.pending == [] && n.dropped == {} && forall i :: 0 <= i < |n.read| ==> n.read[i] == |n.log|
    ensures var n := Run(Start(size, initial), run);
            && |n.instances| == size
            && (forall i: nat, j: nat :: i < j < size ==> n.instances[i] == n.instances[j])
            && (forall i: nat, key: string :: i < size && key in KEYS ==>
                  Value(n.instances[i], key) == Last(n.log, key, Value(initial, key)))
  {
    RunSizes(size, initial, run);
    var n := Run(Start(size, initial), run);
    forall i: nat, key: string | i < size && key in KEYS
      ensures Value(n.instances[i], key) == Last(n.log, key, Value(initial, key))
    {
      SettledHoldsLast(size, initial, run, i, key);
    }
    forall i: nat, j: nat | i < j < size
      ensures n.instances[i] == n.instances[j]
    {
      forall key | key in KEYS
        ensures Value(n.instances[i], key) == Value(n.instances[j], key)
      {
        SettledHoldsLast(size, initial, run, i, key);
        SettledHoldsLast(size, initial, run, j, key);
      }
      SettingsAreTheirValues(n.instances[i], n.instances[j]);
    }
  }

  // ---- without the echo -----------------------------------------------------------------------

  /** The same network if instances skipped their own messages; senders[j] is who published log[j]. */
  datatype Deaf = Deaf(net: Net, senders: seq<nat>)

  function DeafStep(d: Deaf, l: Label): Deaf {
    var n := d.net;
    match l
    case Publish(j) =>
      if j >= |n.pending| then d else Deaf(Step(n, l), d.senders + [n.pending[j].0])
    case Handle(i) =>
      if i < |n.read| && n.read[i] < |d.senders| && d.senders[n.read[i]] == i then
        d.(net := n.(read := n.read[i := n.read[i] + 1]))
      else d.(net := Step(n, l))
    case _ => d.(net := Step(n, l))
  }

  function DeafRun(d: Deaf, run: seq<Label>): Deaf {
    if run == [] then d else DeafStep(DeafRun(d, run[..|run| - 1]), run[|run| - 1])
  }

  lemma DeafExtend(d: Deaf, run: seq<Label>, l: Label)
    ensures DeafRun(d, run + [l]) == DeafStep(DeafRun(d, run), l)
  {
    assert (run + [l])[..|run|] == run;
  }

  /** Two instances change a key at the same time, and both messages are published. */
  function BothPublished(s: Settings, key: string, x: string, y: string): Deaf {
    var mx, my := Msg(key, x), Msg(key, y);
    Deaf(Net([ApplyLocal(s, mx), ApplyLocal(s, my)], [0, 0], [mx, my], [], {}), [0, 1])
  }

  /** Each has gone through both messages, but applied only the other's. */
  function BothHandled(s: Settings, key: string, x: string, y: string): Deaf {
    var mx, my := Msg(key, x), Msg(key, y);
    Deaf(Net([ApplyLocal(ApplyLocal(s, mx), my), ApplyLocal(ApplyLocal(s, my), mx)], [2, 2], [mx, my], [], {}), [0, 1])
  }

  /** The labels of the run. */
  function Publishing(key: string, x: string, y: string): seq<Label> {
    [Update(0, key, x)] + [Update(1, key, y)] + [Publish(0)] + [Publish(0)]
  }

  const HANDLING: seq<Label> := [Handle(0)] + [Handle(0)] + [Handle(1)] + [Handle(1)]

  lemma UpdatesAreApplied(s: Settings, key: string, x: string, y: string)
    ensures DeafRun(Deaf(Start(2, s), []), [Update(0, key, x)] + [Update(1, key, y)])
         == Deaf(Net([ApplyLocal(s, Msg(key, x)), ApplyLocal(s, Msg(key, y))], [0, 0], [], [(0, Msg(key, x)), (1, Msg(key, y))], {}), [])
  {
    var d := Deaf(Start(2, s), []);
    assert [] + [Update(0, key, x)] == [Update(0, key, x)];
    DeafExtend(d, [], Update(0, key, x));
    DeafExtend(d, [Update(0, key, x)], Update(1, key, y));
  }

  lemma UpdatesArePublished(s: Settings, key: string, x: string, y: string)
    ensures DeafRun(Deaf(Start(2, s), []), Publishing(key, x, y)) == BothPublished(s, key, x, y)
  {
    var d, mx, my := Deaf(Start(2, s), []), Msg(key, x), Msg(key, y);
    var updates := [Update(0, key, x)] + [Update(1, key, y)];
    UpdatesAreApplied(s, key, x, y);
    DeafExtend(d, updates, Publish(0));
    DeafExtend(d, updates + [Publish(0)], Publish(0));
    assert Without([(0, mx), (1, my)], 0) == [(1, my)] && Without([(1, my)], 0) == [];
    assert [] + [mx] == [mx] && [mx] + [my] == [mx, my];
  }

  lemma MessagesAreHandled(s: Settings, key: string, x: string, y: string)
    ensures DeafRun(BothPublished(s, key, x, y), HANDLING) == BothHandled(s, key, x, y)
  {
    var d := BothPublished(s, key, x, y);
    assert [] + [Handle(0)] == [Handle(0)];
    DeafExtend(d, [], Handle(0));
    DeafExtend(d, [Handle(0)], Handle(0));
    DeafExtend(d, [Handle(0)] + [Handle(0)], Handle(1));
    DeafExtend(d, [Handle(0)] + [Handle(0)] + [Handle(1)], Handle(1));
  }

  lemma {:induction false} DeafConcat(d: Deaf, run: seq<Label>, more: seq<Label>)
    ensures DeafRun(d, run + more) == DeafRun(DeafRun(d, run), more)
  {
    if more == [] {
      assert run + more == run;
    } else {
      var n := |more| - 1;
      var middle, rest, l := DeafRun(d, run), more[..n], more[n];
      var state := DeafRun(middle, rest);
      assert DeafRun(d, run + rest) == state by {
        DeafConcat(d, run, rest);
      }
      assert DeafRun(d, run + more) == DeafStep(state, l) by {
        assert run + more == run + rest + [l];
        DeafExtend(d, run + rest, l);
      }
      assert DeafRun(middle, more) == DeafStep(state, l) by {
        assert more == rest + [l];
        DeafExtend(middle, rest, l);
      }
    }
  }

  lemma EndsApart(s: Settings, key: string, x: string, y: string)
    requires key in KEYS
    ensures var n := BothHandled(s, key, x, y).net;
            && n.pending == [] && n.dropped == {} && n.read == [2, 2] && |n.log| == 2 && |n.instances| == 2
            && Value(n.instances[0], key) == y && Value(n.instances[1], key) == x
  {
    ApplySetsOneKey(ApplyLocal(s, Msg(key, x)), Msg(key, y), key);
    ApplySetsOneKey(ApplyLocal(s, Msg(key, y)), Msg(key, x), key);
  }

  /** The echo is needed, not just harmless: for every key and any two different values there is a run in which
      everything is published and handled, nothing is dropped, and two instances that skip their own messages end
      apart. Converges says that they would agree had they handled them. */
  lemma EchoIsNeeded(s: Settings, key: string, x: string, y: string) returns (run: seq<Label>)
    requires key in KEYS && x != y
    ensures var n := DeafRun(Deaf(Start(2, s), []), run).net;
            && n.pending == [] && n.dropped == {} && n.read == [2, 2] && |n.log| == 2 && |n.instances| == 2
            && Value(n.instances[0], key) == y && Value(n.instances[1], key) == x
  {
    run := Publishing(key, x, y) + HANDLING;
    assert DeafRun(Deaf(Start(2, s), []), run) == BothHandled(s, key, x, y) by {
      DeafConcat(Deaf(Start(2, s), []), Publishing(key, x, y), HANDLING);
      UpdatesArePublished(s, key, x, y);
      MessagesAreHandled(s, key, x, y);
    }
    EndsApart(s, key, x, y);
  }
}
