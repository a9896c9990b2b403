/** internal/domain/trade/service/lock/factory/lock_context.go: the hand-written itoa and the
    Redis keys built from it, with the other identifiers that are glued together with '_'. */
module KeyScheme {

  const MIN_INT64: int := -0x8000_0000_0000_0000
  const MAX_INT64: int := 0x7fff_ffff_ffff_ffff
  const DIGITS: string := "0123456789"
  const TEAM_STOCK_KEY_PREFIX: string := "group_buy_market_team_stock_key_"

  newtype int64 = v: int | -0x8000_0000_0000_0000 <= v <= 0x7fff_ffff_ffff_ffff

  predicate IsDigit(c: char) { '0' <= c <= '9' }

  predicate AllDigits(s: string) { forall i :: 0 <= i < |s| ==> IsDigit(s[i]) }

  /** The digits of n, most significant first; none at all for 0. */
  function Digits(n: nat): (s: string)
    ensures AllDigits(s)
    ensures n > 0 ==> |s| > 0 && s[0] != '0'
  {
    if n == 0 then "" else Digits(n / 10) + [DIGITS[n % 10]]
  }

  /** The decimal numeral of v. */
  function Decimal(v: int): string {
    if v == 0 then "0" else if v > 0 then Digits(v) else "-" + Digits(-v)
  }

  function ParseDigits(s: string): nat
    requires AllDigits(s)
  {
    if s == "" then 0 else 10 * ParseDigits(s[..|s| - 1]) + (s[|s| - 1] - '0') as nat
  }

  /** Reads a numeral back. */
  function Parse(s: string): int
    requires IsNumeral(s)
  {
    if s[0] == '-' then 0 - ParseDigits(s[1..]) else ParseDigits(s)
  }

  lemma {:induction false} ParseDigitsOfDigits(n: nat)
    ensures ParseDigits(Digits(n)) == n
  {
    if n > 0 {
      ParseDigitsOfDigits(n / 10);
      assert Digits(n)[..|Digits(n)| - 1] == Digits(n / 10);
      assert DIGITS[n % 10] == '0' + (n % 10) as char;
    }
  }

  predicate IsNumeral(s: string) {
    s != "" && AllDigits(if s[0] == '-' then s[1..] else s)
  }

  lemma ParsePositive(n: nat)
    requires n > 0
    ensures IsNumeral(Decimal(n)) && Parse(Decimal(n)) == n
  {
    ParseDigitsOfDigits(n);
    assert IsDigit(Digits(n)[0]);
  }

  lemma ParseNegative(n: nat)
    requires n > 0
    ensures IsNumeral(Decimal(0 - n)) && Parse(Decimal(0 - n)) == 0 - n
  {
    var s := "-" + Digits(n);
    ParseDigitsOfDigits(n);
    assert Decimal(0 - n) == s && s[0] == '-' && s[1..] == Digits(n);
  }

  lemma ParseZero()
    ensures IsNumeral(Decimal(0)) && Parse(Decimal(0)) == 0
  {
    var s := "0";
    assert s[..0] == "";
    assert ParseDigits(s) == 0;
  }

  /** A numeral parses back to the number it renders, for every integer. */
  lemma ParseDecimal(v: int)
    ensures IsNumeral(Decimal(v))
    ensures Parse(Decimal(v)) == v
  {
    if v > 0 {
      ParsePositive(v);
    } else if v < 0 {
      ParseNegative(-v);
    } else {
      ParseZero();
    }
  }

  function Power10(k: nat): nat { if k == 0 then 1 else 10 * Power10(k - 1) }

  /** A number below 10^k has at most k digits: what keeps itoa inside its buffer. */
  lemma {:induction false} DigitsLength(n: nat, k: nat)
    requires n < Power10(k)
    ensures |Digits(n)| <= k
  {
    if n > 0 {
      DigitsLength(n / 10, k - 1);
    }
  }

  lemma MaxInt64Digits()
    ensures Power10(19) > 0x8000_0000_0000_0000
  {
    assert Power10(5) == 100000;
    assert Power10(10) == 100000 * Power10(5);
    assert Power10(15) == 100000 * Power10(10);
    assert Power10(19) == 10000 * Power10(15);
  }

  /** Two's complement negation: the minimum is its own negation. */
  function Negate(v: int64): int64 {
    if v as int == MIN_INT64 then v else -v
  }

  /** Writing a character in front of what a buffer holds from i on. */
  method PutBefore(buf: array<char>, i: nat, c: char)
    requires 0 < i <= buf.Length
    modifies buf
    ensures buf[i - 1..] == [c] + old(buf[i..])
  {
    ghost var tail := buf[i..];
    buf[i - 1] := c;
    assert buf[i..] == tail;
    assert buf[i - 1..] == [buf[i - 1]] + buf[i..];
  }

  /** itoa fills a 20-byte buffer from the right. Every int64 but the minimum comes out as its
      numeral; the minimum, whose negation overflows, comes out as a bare sign. */
  method Itoa(value: int64) returns (s: string)
    ensures s == if value as int == MIN_INT64 then "-" else Decimal(value as int)
  {
    if value == 0 {
      return "0";
    }
    var v := value;
    var neg := v < 0;
    if neg {
      v := Negate(v);
    }
    ghost var whole := Positive(v);
    assert |Digits(whole)| <= 19 by {
      MaxInt64Digits();
      DigitsLength(whole, 19);
    }
    var buf := new char[20];
    var i := WriteDigits(buf, v);
    ghost var digits := buf[i..];
    if neg {
      PutBefore(buf, i, '-');
      i := i - 1;
    }
    s := buf[i..];
  }

  /** The digit loop: the numeral of a positive v at the end of the buffer, nothing for any other. */
  method WriteDigits(buf: array<char>, value: int64) returns (i: nat)
    requires buf.Length == 20 && |Digits(Positive(value))| <= 20
    modifies buf
    ensures i == 20 - |Digits(Positive(value))| && buf[i..] == Digits(Positive(value))
  {
    var v := value;
    ghost var whole := Digits(Positive(value));
    i := 20;
    while v > 0
      invariant i <= 20 && |whole| == |Digits(Positive(v))| + 20 - i
      invariant whole == Digits(Positive(v)) + buf[i..]
      decreases Positive(v)
    {
      DigitsStep(v as int);
      PutBefore(buf, i, DIGITS[v % 10]);
      i := i - 1;
      v := v / 10;
    }
  }

  function Positive(v: int64): nat { if v > 0 then v as int else 0 }

  lemma DigitsStep(n: nat)
    requires n > 0
    ensures Digits(n) == Digits(n / 10) + [DIGITS[n % 10]]
  {
  }

  // ---- keys -----------------------------------------------------------------------------

  function TeamStockKey(activity: int, team: string): string {
    TEAM_STOCK_KEY_PREFIX + Decimal(activity) + "_" + team
  }

  function RecoveryTeamStockKey(activity: int, team: string): string {
    TEAM_STOCK_KEY_PREFIX + Decimal(activity) + "_" + team + "_recovery"
  }

  /** The per-seat lock the occupy script sets: KEYS[1] .. '_' .. occupy. */
  function SlotKey(activity: int, team: string, slot: nat): string {
    TeamStockKey(activity, team) + "_" + Decimal(slot)
  }

  function RefundLockKey(order: nat): string { "refund_lock_" + Decimal(order) }

  /** Sprintf("%d_%s_%d"): the unique key that carries the take limit. */
  function BizId(activity: int, user: string, take: int): string {
    Decimal(activity) + "_" + user + "_" + Decimal(take)
  }

  predicate NoUnderscore(s: string) { forall i :: 0 <= i < |s| ==> s[i] != '_' }

  lemma DecimalHasNoUnderscore(v: int)
    ensures NoUnderscore(Decimal(v))
  {
  }

  lemma DecimalInjective(v: int, w: int)
    requires Decimal(v) == Decimal(w)
    ensures v == w
  {
    ParseDecimal(v);
    ParseDecimal(w);
  }

  /** Text up to the first '_' determines the rest. */
  lemma SplitAtFirst(a: string, r: string, b: string, t: string)
    requires NoUnderscore(a) && NoUnderscore(b)
    requires a + "_" + r == b + "_" + t
    ensures a == b && r == t
  {
    var x, y := a + "_" + r, b + "_" + t;
    assert x[|a|] == '_' && y[|b|] == '_';
    assert forall k :: 0 <= k < |a| ==> x[k] == a[k] != '_';
    assert forall k :: 0 <= k < |b| ==> y[k] == b[k] != '_';
    assert |a| == |b|;
    assert a == x[..|a|] && b == y[..|b|];
    assert r == x[|a| + 1..] && t == y[|b| + 1..];
  }

  /** Text after the last '_' determines what stands before it. */
  lemma SplitAtLast(r: string, a: string, t: string, b: string)
    requires NoUnderscore(a) && NoUnderscore(b)
    requires r + "_" + a == t + "_" + b
    ensures a == b && r == t
  {
    var x, y := r + "_" + a, t + "_" + b;
    assert x[|r|] == '_' && y[|t|] == '_';
    assert forall k :: |r| < k < |x| ==> x[k] == a[k - |r| - 1] != '_';
    assert forall k :: |t| < k < |y| ==> y[k] == b[k - |t| - 1] != '_';
    assert |r| == |t|;
    assert a == x[|r| + 1..] && b == y[|t| + 1..];
    assert r == x[..|r|] && t == y[..|t|];
  }

  /** A biz_id names one (activity, user, suffix), whatever characters the user id holds. */
  lemma BizIdInjective(a: int, u: string, n: int, b: int, v: string, m: int)
    requires BizId(a, u, n) == BizId(b, v, m)
    ensures a == b && u == v && n == m
  {
    DecimalHasNoUnderscore(a);
    DecimalHasNoUnderscore(b);
    DecimalHasNoUnderscore(n);
    DecimalHasNoUnderscore(m);
    var left, right := Decimal(a) + "_" + u, Decimal(b) + "_" + v;
    SplitAtLast(left, Decimal(n), right, Decimal(m));
    SplitAtFirst(Decimal(a), u, Decimal(b), v);
    DecimalInjective(a, b);
    DecimalInjective(n, m);
  }

  /** The part of a key that follows the prefix. */
  lemma DropPrefix(a: int, r: string, b: int, t: string)
    requires TEAM_STOCK_KEY_PREFIX + Decimal(a) + "_" + r == TEAM_STOCK_KEY_PREFIX + Decimal(b) + "_" + t
    ensures a == b && r == t
  {
    SamePrefix(TEAM_STOCK_KEY_PREFIX, Decimal(a), "_", r, Decimal(b), t);
    DecimalHasNoUnderscore(a);
    DecimalHasNoUnderscore(b);
    SplitAtFirst(Decimal(a), r, Decimal(b), t);
    DecimalInjective(a, b);
  }

  lemma SamePrefix(p: string, x: string, sep: string, r: string, y: string, t: string)
    requires p + x + sep + r == p + y + sep + t
    ensures x + sep + r == y + sep + t
  {
    assert x + sep + r == (p + x + sep + r)[|p|..];
    assert y + sep + t == (p + y + sep + t)[|p|..];
  }

  lemma SameTail(r: string, t: string, tail: string)
    requires r + tail == t + tail
    ensures r == t
  {
    assert |r| == |t|;
    assert r == (r + tail)[..|r|] && t == (t + tail)[..|t|];
  }

  lemma TeamStockKeyInjective(a: int, t: string, b: int, u: string)
    requires TeamStockKey(a, t) == TeamStockKey(b, u)
    ensures a == b && t == u
  {
    DropPrefix(a, t, b, u);
  }

  lemma RecoveryKeyInjective(a: int, t: string, b: int, u: string)
    requires RecoveryTeamStockKey(a, t) == RecoveryTeamStockKey(b, u)
    ensures a == b && t == u
  {
    RecoveryKeyIsStockKey(a, t);
    RecoveryKeyIsStockKey(b, u);
    DropPrefix(a, t + "_recovery", b, u + "_recovery");
    SameTail(t, u, "_recovery");
  }

  /** The recovery key of a team is the stock key of the id that ends in "_recovery". */
  lemma RecoveryKeyIsStockKey(a: int, t: string)
    ensures RecoveryTeamStockKey(a, t) == TeamStockKey(a, RecoveryId(t))
  {
    assert RecoveryTeamStockKey(a, t) == TEAM_STOCK_KEY_PREFIX + Decimal(a) + "_" + (t + "_recovery");
  }

  lemma Regroup(x: string, y: string, z: string)
    ensures x + y + "_" + z == x + (y + "_" + z)
  {
  }

  lemma SlotKeyIsStockKey(a: int, t: string, n: nat)
    ensures SlotKey(a, t, n) == TeamStockKey(a, SlotId(t, n))
  {
    Regroup(TEAM_STOCK_KEY_PREFIX + Decimal(a) + "_", t, Decimal(n));
  }

  lemma SlotKeyInjective(a: int, t: string, n: nat, b: int, u: string, m: nat)
    requires SlotKey(a, t, n) == SlotKey(b, u, m)
    ensures a == b && t == u && n == m
  {
    SlotKeyIsStockKey(a, t, n);
    SlotKeyIsStockKey(b, u, m);
    DropPrefix(a, t + "_" + Decimal(n), b, u + "_" + Decimal(m));
    DecimalHasNoUnderscore(n);
    DecimalHasNoUnderscore(m);
    SplitAtLast(t, Decimal(n), u, Decimal(m));
    DecimalInjective(n, m);
  }

  /** The team ids whose stock key is another team's recovery key, or slot key. */
  function RecoveryId(team: string): string { team + "_recovery" }

  function SlotId(team: string, slot: nat): string { team + "_" + Decimal(slot) }

  /** Every other team id; ids come from the request and are not checked. */
  ghost predicate Plain(t: string) {
    && (forall u: string :: t != RecoveryId(u))
    && (forall u: string, n: nat :: t != SlotId(u, n))
  }

  /** When two kinds of counter keys coincide, for team ids of any characters. */
  lemma KeyCollisions(a: int, t: string, b: int, u: string, n: nat)
    ensures TeamStockKey(a, t) == RecoveryTeamStockKey(b, u) <==> a == b && t == RecoveryId(u)
    ensures TeamStockKey(a, t) == SlotKey(b, u, n) <==> a == b && t == SlotId(u, n)
    ensures RecoveryTeamStockKey(a, t) != SlotKey(b, u, n)
  {
    RecoveryKeyIsStockKey(a, t);
    RecoveryKeyIsStockKey(b, u);
    SlotKeyIsStockKey(b, u, n);
    if TeamStockKey(a, t) == RecoveryTeamStockKey(b, u) {
      TeamStockKeyInjective(a, t, b, RecoveryId(u));
    }
    if TeamStockKey(a, t) == SlotKey(b, u, n) {
      TeamStockKeyInjective(a, t, b, SlotId(u, n));
    }
    if RecoveryTeamStockKey(a, t) == SlotKey(b, u, n) {
      TeamStockKeyInjective(a, RecoveryId(t), b, SlotId(u, n));
      RecoveryIdIsNoSlotId(t, u, n);
    }
  }

  /** No id is of both kinds, and each is of its kind in one way only. */
  lemma RecoveryIdIsNoSlotId(t: string, u: string, n: nat)
    ensures RecoveryId(t) != SlotId(u, n)
  {
    var word := "recovery";
    assert RecoveryId(t) == t + "_" + word;
    DecimalHasNoUnderscore(n);
    assert Decimal(n) != word by {
      assert IsDigit(Decimal(n)[0]) && !IsDigit(word[0]);
    }
    if t + "_" + word == u + "_" + Decimal(n) {
      SplitAtLast(t, word, u, Decimal(n));
    }
  }

  lemma RecoveryIdInjective(t: string, u: string)
    requires RecoveryId(t) == RecoveryId(u)
    ensures t == u
  {
    SameTail(t, u, "_recovery");
  }

  lemma SlotIdInjective(t: string, n: nat, u: string, m: nat)
    requires SlotId(t, n) == SlotId(u, m)
    ensures t == u && n == m
  {
    DecimalHasNoUnderscore(n);
    DecimalHasNoUnderscore(m);
    SplitAtLast(t, Decimal(n), u, Decimal(m));
    DecimalInjective(n, m);
  }

  /** The stock key of t is neither the recovery key nor a slot key of u. */
  predicate Apart(a: int, t: string, u: string, n: nat) {
    TeamStockKey(a, t) != RecoveryTeamStockKey(a, u) && TeamStockKey(a, t) != SlotKey(a, u, n)
  }

  /** A stock key is apart from all recovery and slot keys exactly when its team id is plain. */
  lemma PlainTeamsDoNotCollide(a: int, t: string)
    ensures Plain(t) <==> forall u: string, n: nat :: Apart(a, t, u, n)
  {
    forall u: string, n: nat
      ensures Apart(a, t, u, n) <==> t != RecoveryId(u) && t != SlotId(u, n)
    {
      KeyCollisions(a, t, a, u, n);
    }
    if u: string :| t == RecoveryId(u) {
      assert !Apart(a, t, u, 0);
    }
    if u: string, n: nat :| t == SlotId(u, n) {
      assert !Apart(a, t, u, n);
    }
  }

  lemma DigitsContainNoJoin(t: string, u: string, tail: string)
    requires AllDigits(t)
    ensures t != u + "_" + tail
  {
    var joined := u + "_" + tail;
    assert joined[|u|] == '_';
    assert |u| < |t| ==> IsDigit(t[|u|]);
  }

  lemma DigitsAreNoRecoveryId(t: string, u: string)
    requires AllDigits(t)
    ensures t != RecoveryId(u)
  {
    var word := "recovery";
    assert RecoveryId(u) == u + "_" + word;
    DigitsContainNoJoin(t, u, word);
  }

  /** Team ids of digits alone, as the server draws them, are plain. */
  lemma DigitTeamsArePlain(t: string)
    requires AllDigits(t)
    ensures Plain(t)
  {
    forall u: string
      ensures t != RecoveryId(u)
    {
      DigitsAreNoRecoveryId(t, u);
    }
    forall u: string, n: nat
      ensures t != SlotId(u, n)
    {
      DigitsContainNoJoin(t, u, Decimal(n));
    }
  }

  lemma DigitTeamsDoNotCollide(a: int, t: string, b: int, u: string, n: nat)
    requires AllDigits(t)
    ensures TeamStockKey(a, t) != RecoveryTeamStockKey(b, u)
    ensures TeamStockKey(a, t) != SlotKey(b, u, n)
    ensures RecoveryTeamStockKey(a, t) != SlotKey(b, u, n)
  {
    DigitTeamsArePlain(t);
    KeyCollisions(a, t, b, u, n);
  }

  /** The refund locks live under another prefix. */
  lemma RefundLocksApart(order: nat, a: int, t: string)
    ensures RefundLockKey(order) != TeamStockKey(a, t)
  {
    assert RefundLockKey(order)[0] == 'r';
    assert TeamStockKey(a, t)[0] == 'g';
  }

  lemma RefundLockKeyInjective(i: nat, j: nat)
    requires RefundLockKey(i) == RefundLockKey(j)
    ensures i == j
  {
    assert Decimal(i) == RefundLockKey(i)[12..] && Decimal(j) == RefundLockKey(j)[12..];
    DecimalInjective(i, j);
  }
}
