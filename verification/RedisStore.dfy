/** The Redis keyspace the trade uses, under its real string keys: the occupy script and the recovery
    commands on it do what the protocol says, as long as stock keys are not other keys too. */
module RedisStore {
  import opened KeyScheme
  import opened TradeProtocol

  function Cell(data: map<string, int>, key: string): int { if key in data then data[key] else 0 }

  /** The counters, slots and locks a keyspace holds. A stock key counts as one when its team id is plain; else
      it is a recovery or slot key of another team. */
  ghost predicate Represents(data: map<string, int>, view: Redis) {
    && (forall a: int, t: string :: Plain(t) ==> StockMatches(data, view, a, t))
    && (forall a: int, t: string :: RecoveryMatches(data, view, a, t))
    && (forall a: int, t: string, n: nat :: SlotMatches(data, view, a, t, n))
    && (forall row: nat :: LockMatches(data, view, row))
  }

  predicate StockMatches(data: map<string, int>, view: Redis, a: int, t: string) {
    Cell(data, TeamStockKey(a, t)) == Get(view.stock, (a, t))
  }

  predicate RecoveryMatches(data: map<string, int>, view: Redis, a: int, t: string) {
    Cell(data, RecoveryTeamStockKey(a, t)) == Get(view.recovery, (a, t))
  }

  predicate SlotMatches(data: map<string, int>, view: Redis, a: int, t: string, n: nat) {
    && (SlotKey(a, t, n) in data <==> ((a, t), n) in view.slots)
    && Cell(data, SlotKey(a, t, n)) >= 0
  }

  predicate LockMatches(data: map<string, int>, view: Redis, row: nat) {
    RefundLockKey(row) in data <==> row in view.refundLocks
  }

  lemma StockKeyApart(a: int, t: string, b: int, u: string, n: nat, row: nat)
    requires Plain(t)
    ensures TeamStockKey(b, u) == TeamStockKey(a, t) ==> b == a && u == t
    ensures RecoveryTeamStockKey(b, u) != TeamStockKey(a, t)
    ensures SlotKey(b, u, n) != TeamStockKey(a, t)
    ensures RefundLockKey(row) != TeamStockKey(a, t)
  {
    if TeamStockKey(b, u) == TeamStockKey(a, t) {
      TeamStockKeyInjective(b, u, a, t);
    }
    KeyCollisions(a, t, b, u, n);
    RefundLocksApart(row, a, t);
  }

  lemma RecoveryKeyApart(a: int, t: string, b: int, u: string, n: nat, row: nat)
    ensures RecoveryTeamStockKey(b, u) == RecoveryTeamStockKey(a, t) ==> b == a && u == t
    ensures Plain(u) ==> TeamStockKey(b, u) != RecoveryTeamStockKey(a, t)
    ensures SlotKey(b, u, n) != RecoveryTeamStockKey(a, t)
    ensures RefundLockKey(row) != RecoveryTeamStockKey(a, t)
  {
    if RecoveryTeamStockKey(b, u) == RecoveryTeamStockKey(a, t) {
      RecoveryKeyInjective(b, u, a, t);
    }
    KeyCollisions(b, u, a, t, n);
    KeyCollisions(a, t, b, u, n);
    RecoveryKeyIsStockKey(a, t);
    RefundLocksApart(row, a, RecoveryId(t));
  }

  lemma SlotKeyApart(a: int, t: string, n: nat, b: int, u: string, m: nat, row: nat)
    ensures SlotKey(b, u, m) == SlotKey(a, t, n) ==> b == a && u == t && m == n
    ensures Plain(u) ==> TeamStockKey(b, u) != SlotKey(a, t, n)
    ensures RecoveryTeamStockKey(b, u) != SlotKey(a, t, n)
    ensures RefundLockKey(row) != SlotKey(a, t, n)
  {
    if SlotKey(b, u, m) == SlotKey(a, t, n) {
      SlotKeyInjective(b, u, m, a, t, n);
    }
    KeyCollisions(b, u, a, t, n);
    SlotKeyIsStockKey(a, t, n);
    RefundLocksApart(row, a, SlotId(t, n));
  }

  lemma LockKeyApart(row: nat, b: int, u: string, m: nat, other: nat)
    ensures RefundLockKey(other) == RefundLockKey(row) ==> other == row
    ensures TeamStockKey(b, u) != RefundLockKey(row)
    ensures RecoveryTeamStockKey(b, u) != RefundLockKey(row)
    ensures SlotKey(b, u, m) != RefundLockKey(row)
  {
    if RefundLockKey(other) == RefundLockKey(row) {
      RefundLockKeyInjective(other, row);
    }
    RefundLocksApart(row, b, u);
    RecoveryKeyApart(b, u, b, u, m, row);
    SlotKeyApart(b, u, m, b, u, m, row);
  }

  lemma WriteStock(data: map<string, int>, view: Redis, a: int, t: string, v: nat)
    requires Represents(data, view) && Plain(t)
    ensures Represents(data[TeamStockKey(a, t) := v], view.(stock := view.stock[(a, t) := v]))
  {
    var next, now := data[TeamStockKey(a, t) := v], view.(stock := view.stock[(a, t) := v]);
    forall b: int, u: string | Plain(u)
      ensures StockMatches(next, now, b, u)
    {
      assert StockMatches(data, view, b, u);
      StockKeyApart(a, t, b, u, 0, 0);
    }
    forall b: int, u: string
      ensures RecoveryMatches(next, now, b, u)
    {
      assert RecoveryMatches(data, view, b, u);
      StockKeyApart(a, t, b, u, 0, 0);
    }
    forall b: int, u: string, n: nat
      ensures SlotMatches(next, now, b, u, n)
    {
      assert SlotMatches(data, view, b, u, n);
      StockKeyApart(a, t, b, u, n, 0);
    }
    forall r: nat
      ensures LockMatches(next, now, r)
    {
      assert LockMatches(data, view, r);
      StockKeyApart(a, t, 0, "", 0, r);
    }
  }

  lemma WriteRecovery(data: map<string, int>, view: Redis, a: int, t: string, v: nat)
    requires Represents(data, view)
    ensures Represents(data[RecoveryTeamStockKey(a, t) := v], view.(recovery := view.recovery[(a, t) := v]))
  {
    var next, now := data[RecoveryTeamStockKey(a, t) := v], view.(recovery := view.recovery[(a, t) := v]);
    forall b: int, u: string | Plain(u)
      ensures StockMatches(next, now, b, u)
    {
      assert StockMatches(data, view, b, u);
      RecoveryKeyApart(a, t, b, u, 0, 0);
    }
    forall b: int, u: string
      ensures RecoveryMatches(next, now, b, u)
    {
      assert RecoveryMatches(data, view, b, u);
      RecoveryKeyApart(a, t, b, u, 0, 0);
    }
    forall b: int, u: string, n: nat
      ensures SlotMatches(next, now, b, u, n)
    {
      assert SlotMatches(data, view, b, u, n);
      RecoveryKeyApart(a, t, b, u, n, 0);
    }
    forall r: nat
      ensures LockMatches(next, now, r)
    {
      assert LockMatches(data, view, r);
      RecoveryKeyApart(a, t, 0, "", 0, r);
    }
  }

  lemma WriteSlot(data: map<string, int>, view: Redis, a: int, t: string, k: nat, v: nat)
    requires Represents(data, view)
    ensures Represents(data[SlotKey(a, t, k) := v], view.(slots := view.slots + {((a, t), k)}))
  {
    var next, now := data[SlotKey(a, t, k) := v], view.(slots := view.slots + {((a, t), k)});
    forall b: int, u: string | Plain(u)
      ensures StockMatches(next, now, b, u)
    {
      assert StockMatches(data, view, b, u);
      SlotKeyApart(a, t, k, b, u, 0, 0);
    }
    forall b: int, u: string
      ensures RecoveryMatches(next, now, b, u)
    {
      assert RecoveryMatches(data, view, b, u);
      SlotKeyApart(a, t, k, b, u, 0, 0);
    }
    forall b: int, u: string, n: nat
      ensures SlotMatches(next, now, b, u, n)
    {
      assert SlotMatches(data, view, b, u, n);
      SlotKeyApart(a, t, k, b, u, n, 0);
    }
    forall r: nat
      ensures LockMatches(next, now, r)
    {
      assert LockMatches(data, view, r);
      SlotKeyApart(a, t, k, 0, "", 0, r);
    }
  }

  lemma WriteLock(data: map<string, int>, view: Redis, row: nat)
    requires Represents(data, view)
    ensures Represents(data[RefundLockKey(row) := 1], view.(refundLocks := view.refundLocks + {row}))
  {
    var next, now := data[RefundLockKey(row) := 1], view.(refundLocks := view.refundLocks + {row});
    forall b: int, u: string | Plain(u)
      ensures StockMatches(next, now, b, u)
    {
      assert StockMatches(data, view, b, u);
      LockKeyApart(row, b, u, 0, 0);
    }
    forall b: int, u: string
      ensures RecoveryMatches(next, now, b, u)
    {
      assert RecoveryMatches(data, view, b, u);
      LockKeyApart(row, b, u, 0, 0);
    }
    forall b: int, u: string, n: nat
      ensures SlotMatches(next, now, b, u, n)
    {
      assert SlotMatches(data, view, b, u, n);
      LockKeyApart(row, b, u, n, 0);
    }
    forall r: nat
      ensures LockMatches(next, now, r)
    {
      assert LockMatches(data, view, r);
      LockKeyApart(row, 0, "", 0, r);
    }
  }

  lemma DeleteLock(data: map<string, int>, view: Redis, row: nat)
    requires Represents(data, view)
    ensures Represents(data - {RefundLockKey(row)}, view.(refundLocks := view.refundLocks - {row}))
  {
    var next, now := data - {RefundLockKey(row)}, view.(refundLocks := view.refundLocks - {row});
    forall b: int, u: string | Plain(u)
      ensures StockMatches(next, now, b, u)
    {
      assert StockMatches(data, view, b, u);
      LockKeyApart(row, b, u, 0, 0);
    }
    forall b: int, u: string
      ensures RecoveryMatches(next, now, b, u)
    {
      assert RecoveryMatches(data, view, b, u);
      LockKeyApart(row, b, u, 0, 0);
    }
    forall b: int, u: string, n: nat
      ensures SlotMatches(next, now, b, u, n)
    {
      assert SlotMatches(data, view, b, u, n);
      LockKeyApart(row, b, u, n, 0);
    }
    forall r: nat
      ensures LockMatches(next, now, r)
    {
      assert LockMatches(data, view, r);
      LockKeyApart(row, 0, "", 0, r);
    }
  }

  /** Writing back the value a counter has changes nothing that is read. */
  lemma SameStock(data: map<string, int>, view: Redis, k: Key)
    requires Represents(data, view.(stock := view.stock[k := Get(view.stock, k)]))
    ensures Represents(data, view)
  {
    var same := view.(stock := view.stock[k := Get(view.stock, k)]);
    forall a: int, t: string | Plain(t)
      ensures StockMatches(data, view, a, t)
    {
      assert StockMatches(data, same, a, t);
    }
    forall a: int, t: string
      ensures RecoveryMatches(data, view, a, t)
    {
      assert RecoveryMatches(data, same, a, t);
    }
    forall a: int, t: string, n: nat
      ensures SlotMatches(data, view, a, t, n)
    {
      assert SlotMatches(data, same, a, t, n);
    }
    forall row: nat
      ensures LockMatches(data, view, row)
    {
      assert LockMatches(data, same, row);
    }
  }

  lemma SameRecovery(data: map<string, int>, view: Redis, k: Key)
    requires Represents(data, view.(recovery := view.recovery[k := Get(view.recovery, k)]))
    ensures Represents(data, view)
  {
    var same := view.(recovery := view.recovery[k := Get(view.recovery, k)]);
    forall a: int, t: string | Plain(t)
      ensures StockMatches(data, view, a, t)
    {
      assert StockMatches(data, same, a, t);
    }
    forall a: int, t: string
      ensures RecoveryMatches(data, view, a, t)
    {
      assert RecoveryMatches(data, same, a, t);
    }
    forall a: int, t: string, n: nat
      ensures SlotMatches(data, view, a, t, n)
    {
      assert SlotMatches(data, same, a, t, n);
    }
    forall row: nat
      ensures LockMatches(data, view, row)
    {
      assert LockMatches(data, same, row);
    }
  }

  // ---- the occupy script ----------------------------------------------------------------------

  /** What the script does to the keyspace, given its two keys. */
  ghost predicate RanOccupyLua(
    data: map<string, int>, stockKey: string, recoveryKey: string, target: nat, ok: bool, after: map<string, int>)
  {
    var occupy := Cell(data, stockKey) + 1;
    var counted, slot := data[stockKey := occupy], stockKey + "_" + Decimal(occupy);
    && ok == (occupy <= target + Cell(counted, recoveryKey) && slot !in counted)
    && after == if ok then counted[slot := 1] else counted[stockKey := occupy - 1]
  }

  /** The script's outcome, and its writes under the names of the keys it touches. */
  lemma LuaOutcome(
    data: map<string, int>, view: Redis, a: int, t: string, target: nat, ok: bool, after: map<string, int>, occupy: nat)
    requires Represents(data, view) && occupy == Cell(data, TeamStockKey(a, t)) + 1
    requires RanOccupyLua(data, TeamStockKey(a, t), RecoveryTeamStockKey(a, t), target, ok, after)
    ensures ok == (occupy <= target + Get(view.recovery, (a, t)) && ((a, t), occupy) !in view.slots)
    ensures after == if ok then data[TeamStockKey(a, t) := occupy][SlotKey(a, t, occupy) := 1]
                     else data[TeamStockKey(a, t) := occupy - 1]
  {
    assert RecoveryMatches(data, view, a, t) && SlotMatches(data, view, a, t, occupy);
    assert SlotKey(a, t, occupy) == TeamStockKey(a, t) + "_" + Decimal(occupy);
    OwnKeysDiffer(a, t, occupy);
    var key := TeamStockKey(a, t);
    assert data[key := occupy][key := occupy - 1] == data[key := occupy - 1];
  }

  /** A team's own three keys are never the same. */
  lemma OwnKeysDiffer(a: int, t: string, n: nat)
    ensures TeamStockKey(a, t) != RecoveryTeamStockKey(a, t) && TeamStockKey(a, t) != SlotKey(a, t, n)
  {
    KeyCollisions(a, t, a, t, n);
    assert |RecoveryId(t)| > |t| && |SlotId(t, n)| > |t|;
  }

  lemma OccupyRefused(data: map<string, int>, view: Redis, a: int, t: string, after: map<string, int>)
    requires Represents(data, view) && Plain(t)
    requires after == data[TeamStockKey(a, t) := Get(view.stock, (a, t))]
    ensures Represents(after, view)
  {
    WriteStock(data, view, a, t, Get(view.stock, (a, t)));
    SameStock(after, view, (a, t));
  }

  lemma OccupyGranted(data: map<string, int>, view: Redis, a: int, t: string, occupy: nat, after: map<string, int>)
    requires Represents(data, view) && Plain(t)
    requires after == data[TeamStockKey(a, t) := occupy][SlotKey(a, t, occupy) := 1]
    ensures Represents(after,
                       view.(stock := view.stock[(a, t) := occupy], slots := view.slots + {((a, t), occupy)}))
  {
    WriteStock(data, view, a, t, occupy);
    WriteSlot(data[TeamStockKey(a, t) := occupy], view.(stock := view.stock[(a, t) := occupy]), a, t, occupy, 1);
  }

  /** On the real keys of a plain team id the script is the protocol's occupy step. */
  lemma LuaIsOccupyScript(
    data: map<string, int>, view: Redis, a: int, t: string, target: nat, ok: bool, after: map<string, int>)
    requires Represents(data, view) && Plain(t)
    requires RanOccupyLua(data, TeamStockKey(a, t), RecoveryTeamStockKey(a, t), target, ok, after)
    ensures ok == OccupyScript(view, (a, t), target).1
    ensures Represents(after, OccupyScript(view, (a, t), target).0)
  {
    assert StockMatches(data, view, a, t);
    var occupy := Get(view.stock, (a, t)) + 1;
    LuaOutcome(data, view, a, t, target, ok, after, occupy);
    if ok {
      OccupyGranted(data, view, a, t, occupy, after);
    } else {
      OccupyRefused(data, view, a, t, after);
    }
  }

  // ---- joins under the other team ids ---------------------------------------------------------

  /** The script for the team id that ends in "_recovery": it counts up the recovery counter of team u. */
  function OccupyAsRecovery(view: Redis, a: int, u: string, target: nat): (Redis, bool) {
    var t := RecoveryId(u);
    var occupy := Get(view.recovery, (a, u)) + 1;
    if occupy <= target + Get(view.recovery, (a, t)) && ((a, t), occupy) !in view.slots then
      (view.(recovery := view.recovery[(a, u) := occupy], slots := view.slots + {((a, t), occupy)}), true)
    else (view, false)
  }

  lemma RecoveryRefused(data: map<string, int>, view: Redis, a: int, u: string, after: map<string, int>)
    requires Represents(data, view)
    requires after == data[RecoveryTeamStockKey(a, u) := Get(view.recovery, (a, u))]
    ensures Represents(after, view)
  {
    WriteRecovery(data, view, a, u, Get(view.recovery, (a, u)));
    SameRecovery(after, view, (a, u));
  }

  lemma RecoveryGranted(data: map<string, int>, view: Redis, a: int, u: string, t: string, occupy: nat, after: map<string, int>)
    requires Represents(data, view)
    requires after == data[RecoveryTeamStockKey(a, u) := occupy][SlotKey(a, t, occupy) := 1]
    ensures Represents(after,
                       view.(recovery := view.recovery[(a, u) := occupy], slots := view.slots + {((a, t), occupy)}))
  {
    WriteRecovery(data, view, a, u, occupy);
    WriteSlot(data[RecoveryTeamStockKey(a, u) := occupy], view.(recovery := view.recovery[(a, u) := occupy]), a, t, occupy, 1);
  }

  lemma RecoveryIdOutcome(
    data: map<string, int>, view: Redis, a: int, u: string, target: nat, ok: bool, after: map<string, int>, occupy: nat)
    requires Represents(data, view) && occupy == Get(view.recovery, (a, u)) + 1
    requires var t := RecoveryId(u);
             RanOccupyLua(data, TeamStockKey(a, t), RecoveryTeamStockKey(a, t), target, ok, after)
    ensures var t := RecoveryId(u);
            && ok == (occupy <= target + Get(view.recovery, (a, t)) && ((a, t), occupy) !in view.slots)
            && after == if ok then data[RecoveryTeamStockKey(a, u) := occupy][SlotKey(a, t, occupy) := 1]
                        else data[RecoveryTeamStockKey(a, u) := Get(view.recovery, (a, u))]
  {
    RecoveryKeyIsStockKey(a, u);
    assert RecoveryMatches(data, view, a, u);
    LuaOutcome(data, view, a, RecoveryId(u), target, ok, after, occupy);
  }

  lemma RecoveryIdOccupies(
    data: map<string, int>, view: Redis, a: int, u: string, target: nat, ok: bool, after: map<string, int>)
    requires Represents(data, view)
    requires var t := RecoveryId(u);
             RanOccupyLua(data, TeamStockKey(a, t), RecoveryTeamStockKey(a, t), target, ok, after)
    ensures ok == OccupyAsRecovery(view, a, u, target).1
    ensures Represents(after, OccupyAsRecovery(view, a, u, target).0)
  {
    var t, occupy := RecoveryId(u), Get(view.recovery, (a, u)) + 1;
    var next := OccupyAsRecovery(view, a, u, target).0;
    RecoveryIdOutcome(data, view, a, u, target, ok, after, occupy);
    if ok {
      assert next == view.(recovery := view.recovery[(a, u) := occupy], slots := view.slots + {((a, t), occupy)});
      assert Represents(after, next) by {
        RecoveryGranted(data, view, a, u, t, occupy, after);
      }
    } else {
      assert next == view;
      assert Represents(after, next) by {
        RecoveryRefused(data, view, a, u, after);
      }
    }
  }

  /** What that does to team u: a granted join under its recovery id lets one more join of u through the gate, for
      every quota, and a refused one none. */
  lemma RecoveryIdRaisesQuota(view: Redis, a: int, u: string, target: nat, quota: nat)
    requires ((a, u), Get(view.stock, (a, u)) + 1) !in view.slots
    ensures var (next, ok) := OccupyAsRecovery(view, a, u, target);
            && (OccupyScript(view, (a, u), quota).1 <==> Get(view.stock, (a, u)) < quota + Get(view.recovery, (a, u)))
            && (OccupyScript(next, (a, u), quota).1
                <==> Get(view.stock, (a, u)) < quota + Get(view.recovery, (a, u)) + (if ok then 1 else 0))
  {
    assert |RecoveryId(u)| > |u|;
  }

  /** The script for the team id of a slot of team u: that slot is taken afterwards, whether it grants or not. */
  function OccupyAsSlot(view: Redis, a: int, u: string, n: nat, occupy: nat, ok: bool): Redis {
    var taken := view.(slots := view.slots + {((a, u), n)});
    if ok then taken.(slots := taken.slots + {((a, SlotId(u, n)), occupy)}) else taken
  }

  lemma SlotIdOutcome(
    data: map<string, int>, view: Redis, a: int, u: string, n: nat, target: nat, ok: bool, after: map<string, int>, occupy: nat)
    requires Represents(data, view) && occupy == Cell(data, SlotKey(a, u, n)) + 1
    requires var t := SlotId(u, n);
             RanOccupyLua(data, TeamStockKey(a, t), RecoveryTeamStockKey(a, t), target, ok, after)
    ensures occupy > 0
    ensures after == if ok then data[SlotKey(a, u, n) := occupy][SlotKey(a, SlotId(u, n), occupy) := 1]
                     else data[SlotKey(a, u, n) := occupy - 1]
  {
    SlotCellIsNatural(data, view, a, u, n);
    SlotKeyIsStockKey(a, u, n);
    LuaOutcome(data, view, a, SlotId(u, n), target, ok, after, occupy);
  }

  lemma SlotIdOccupies(
    data: map<string, int>, view: Redis, a: int, u: string, n: nat, target: nat, ok: bool, after: map<string, int>, occupy: nat)
    requires Represents(data, view) && occupy == Cell(data, SlotKey(a, u, n)) + 1
    requires var t := SlotId(u, n);
             RanOccupyLua(data, TeamStockKey(a, t), RecoveryTeamStockKey(a, t), target, ok, after)
    ensures Represents(after, OccupyAsSlot(view, a, u, n, occupy, ok))
  {
    SlotIdOutcome(data, view, a, u, n, target, ok, after, occupy);
    SlotIdWrites(data, view, a, u, n, ok, after, occupy);
  }

  lemma SlotIdWrites(
    data: map<string, int>, view: Redis, a: int, u: string, n: nat, ok: bool, after: map<string, int>, occupy: nat)
    requires Represents(data, view) && occupy > 0
    requires after == if ok then data[SlotKey(a, u, n) := occupy][SlotKey(a, SlotId(u, n), occupy) := 1]
                      else data[SlotKey(a, u, n) := occupy - 1]
    ensures Represents(after, OccupyAsSlot(view, a, u, n, occupy, ok))
  {
    if ok {
      SlotGranted(data, view, a, u, n, occupy, after);
    } else {
      SlotRefused(data, view, a, u, n, occupy - 1, after);
      assert OccupyAsSlot(view, a, u, n, occupy, ok) == view.(slots := view.slots + {((a, u), n)});
    }
  }

  lemma SlotGranted(data: map<string, int>, view: Redis, a: int, u: string, n: nat, occupy: nat, after: map<string, int>)
    requires Represents(data, view)
    requires after == data[SlotKey(a, u, n) := occupy][SlotKey(a, SlotId(u, n), occupy) := 1]
    ensures Represents(after, OccupyAsSlot(view, a, u, n, occupy, true))
  {
    WriteSlot(data, view, a, u, n, occupy);
    WriteSlot(data[SlotKey(a, u, n) := occupy], view.(slots := view.slots + {((a, u), n)}), a, SlotId(u, n), occupy, 1);
  }

  lemma SlotRefused(data: map<string, int>, view: Redis, a: int, u: string, n: nat, v: nat, after: map<string, int>)
    requires Represents(data, view) && after == data[SlotKey(a, u, n) := v]
    ensures Represents(after, view.(slots := view.slots + {((a, u), n)}))
  {
    WriteSlot(data, view, a, u, n, v);
  }

  lemma SlotCellIsNatural(data: map<string, int>, view: Redis, a: int, u: string, n: nat)
    requires Represents(data, view)
    ensures Cell(data, SlotKey(a, u, n)) >= 0
  {
    assert SlotMatches(data, view, a, u, n);
  }

  lemma CountRecovery(data: map<string, int>, view: Redis, a: int, t: string)
    requires Represents(data, view)
    ensures var key := RecoveryTeamStockKey(a, t);
            Represents(data[key := Cell(data, key) + 1], view.(recovery := Bump(view.recovery, (a, t))))
  {
    assert RecoveryMatches(data, view, a, t);
    WriteRecovery(data, view, a, t, Get(view.recovery, (a, t)) + 1);
  }

  /** What that does to team u: once its next slot is taken this way, the gate refuses every join of u, with any
      quota. The key was created by the script's INCR, so it has no expiry. */
  lemma SlotIdClosesGate(view: Redis, a: int, u: string, occupy: nat, ok: bool, quota: nat)
    ensures var n := Get(view.stock, (a, u)) + 1;
            !OccupyScript(OccupyAsSlot(view, a, u, n, occupy, ok), (a, u), quota).1
  {
  }

  /** No other team has this id for its recovery or a slot key. */
  lemma OnlyRecoveryId(u: string)
    ensures forall v: string :: RecoveryId(u) == RecoveryId(v) ==> u == v
    ensures forall v: string, n: nat :: RecoveryId(u) != SlotId(v, n)
  {
    forall v: string | RecoveryId(u) == RecoveryId(v)
      ensures u == v
    {
      RecoveryIdInjective(u, v);
    }
    forall v: string, n: nat
      ensures RecoveryId(u) != SlotId(v, n)
    {
      RecoveryIdIsNoSlotId(u, v, n);
    }
  }

  lemma OnlySlotId(u: string, n: nat)
    ensures forall v: string, m: nat :: SlotId(u, n) == SlotId(v, m) ==> u == v && n == m
    ensures forall v: string :: SlotId(u, n) != RecoveryId(v)
  {
    forall v: string, m: nat | SlotId(u, n) == SlotId(v, m)
      ensures u == v && n == m
    {
      SlotIdInjective(u, n, v, m);
    }
    forall v: string
      ensures SlotId(u, n) != RecoveryId(v)
    {
      RecoveryIdIsNoSlotId(v, u, n);
    }
  }

  class RedisStore {
    var data: map<string, int>
    ghost var view: Redis

    ghost predicate Valid()
      reads this
    {
      Represents(data, view)
    }

    constructor ()
      ensures Valid() && view == INIT.redis
    {
      data := map[];
      view := INIT.redis;
    }

    method Incr(key: string) returns (n: int)
      modifies this`data
      ensures n == Cell(old(data), key) + 1 && data == old(data)[key := n]
    {
      n := Cell(data, key) + 1;
      data := data[key := n];
    }

    method Decr(key: string) returns (n: int)
      modifies this`data
      ensures n == Cell(old(data), key) - 1 && data == old(data)[key := n]
    {
      n := Cell(data, key) - 1;
      data := data[key := n];
    }

    method SetNX(key: string) returns (ok: bool)
      modifies this`data
      ensures ok == (key !in old(data)) && data == if ok then old(data)[key := 1] else old(data)
    {
      ok := key !in data;
      if ok {
        data := data[key := 1];
      }
    }

    method Del(key: string)
      modifies this`data
      ensures data == old(data) - {key}
    {
      data := data - {key};
    }

    /** The Lua script, command by command. Its second key is read after the first was counted up. */
    method OccupyLua(stockKey: string, recoveryKey: string, target: nat) returns (ok: bool)
      modifies this`data
      ensures RanOccupyLua(old(data), stockKey, recoveryKey, target, ok, data)
    {
      var occupy := Incr(stockKey);
      var recovery := Cell(data, recoveryKey);
      if occupy > target + recovery {
        var _ := Decr(stockKey);
        return false;
      }
      ok := SetNX(stockKey + "_" + Decimal(occupy));
      if !ok {
        var _ := Decr(stockKey);
      }
    }

    /** For a plain team id the protocol's step; for the others, what the aliased counter or slot makes of it. */
    method OccupyTeamStock(activity: int, team: string, target: nat) returns (ok: bool)
      requires Valid()
      modifies this
      ensures Valid()
      ensures RanOccupyLua(old(data), TeamStockKey(activity, team), RecoveryTeamStockKey(activity, team), target, ok, data)
      ensures Plain(team) ==> (view, ok) == OccupyScript(old(view), (activity, team), target)
      ensures forall u: string :: team == RecoveryId(u) ==> (view, ok) == OccupyAsRecovery(old(view), activity, u, target)
      ensures forall u: string, n: nat :: team == SlotId(u, n) ==>
                exists occupy: nat :: view == OccupyAsSlot(old(view), activity, u, n, occupy, ok)
    {
      ghost var before := data;
      ok := OccupyLua(TeamStockKey(activity, team), RecoveryTeamStockKey(activity, team), target);
      if Plain(team) {
        LuaIsOccupyScript(before, view, activity, team, target, ok, data);
        view := OccupyScript(view, (activity, team), target).0;
      } else if u: string :| team == RecoveryId(u) {
        RecoveryIdOccupies(before, view, activity, u, target, ok, data);
        OnlyRecoveryId(u);
        view := OccupyAsRecovery(view, activity, u, target).0;
      } else {
        ghost var u: string, n: nat :| team == SlotId(u, n);
        SlotCellIsNatural(before, view, activity, u, n);
        ghost var occupy: nat := Cell(before, SlotKey(activity, u, n)) + 1;
        SlotIdOccupies(before, view, activity, u, n, target, ok, data, occupy);
        OnlySlotId(u, n);
        view := OccupyAsSlot(view, activity, u, n, occupy, ok);
      }
    }

    method RecoveryTeamStock(activity: int, team: string)
      requires Valid()
      modifies this
      ensures Valid() && view == old(view).(recovery := Bump(old(view).recovery, (activity, team)))
    {
      CountRecovery(data, view, activity, team);
      var _ := Incr(RecoveryTeamStockKey(activity, team));
      view := view.(recovery := Bump(view.recovery, (activity, team)));
    }

    /** Guarded by a lock per order; a failed INCR gives the lock back, if DEL succeeds. The three flags say
        which commands Redis refuses. The result is the error that makes the consumer send the message back. */
    method Refund2AddRecovery(activity: int, team: string, row: nat, setNxFails: bool, incrFails: bool, delFails: bool)
      returns (failed: bool)
      requires Valid()
      modifies this
      ensures Valid()
      ensures failed == (setNxFails || (row !in old(view).refundLocks && incrFails))
      ensures view ==
        if setNxFails || row in old(view).refundLocks then old(view)
        else if !incrFails then
          old(view).(refundLocks := old(view).refundLocks + {row}, recovery := Bump(old(view).recovery, (activity, team)))
        else if delFails then old(view).(refundLocks := old(view).refundLocks + {row})
        else old(view)
    {
      var lockKey := RefundLockKey(row);
      if setNxFails {
        return true;
      }
      assert LockMatches(data, view, row);
      WriteLock(data, view, row);
      var ok := SetNX(lockKey);
      if !ok {
        return false;
      }
      view := view.(refundLocks := view.refundLocks + {row});
      if incrFails {
        if !delFails {
          DeleteLock(data, view, row);
          Del(lockKey);
          view := view.(refundLocks := view.refundLocks - {row});
          assert view.refundLocks == old(view).refundLocks;
        }
        return true;
      }
      RecoveryTeamStock(activity, team);
      return false;
    }
  }
}
