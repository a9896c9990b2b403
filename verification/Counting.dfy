/** Counting the rows of an append-only table that satisfy a condition: the
    SELECT COUNT(*) of the repository, and the arithmetic the invariants rest on. */
module Counting {

  function Bit(b: bool): nat { if b then 1 else 0 }

  function Count<T>(s: seq<T>, p: T -> bool): nat {
    if s == [] then 0 else Count(s[..|s| - 1], p) + Bit(p(s[|s| - 1]))
  }

  lemma CountAppend<T>(s: seq<T>, x: T, p: T -> bool)
    ensures Count(s + [x], p) == Count(s, p) + Bit(p(x))
  {
    assert (s + [x])[..|s|] == s;
  }

  /** One more row of a table that is scanned from the front. */
  lemma CountNext<T>(s: seq<T>, i: nat, p: T -> bool)
    requires i < |s|
    ensures Count(s[..i + 1], p) == Count(s[..i], p) + Bit(p(s[i]))
  {
    assert s[..i + 1] == s[..i] + [s[i]];
    CountAppend(s[..i], s[i], p);
  }

  lemma CountWhole<T>(s: seq<T>, p: T -> bool)
    ensures Count(s[..|s|], p) == Count(s, p)
  {
    assert s[..|s|] == s;
  }

  lemma {:induction false} CountUpdate<T>(s: seq<T>, i: nat, x: T, p: T -> bool)
    requires i < |s|
    ensures Count(s[i := x], p) + Bit(p(s[i])) == Count(s, p) + Bit(p(x))
    decreases |s|
  {
    var n := |s| - 1;
    if i < n {
      CountUpdate(s[..n], i, x, p);
      assert s[i := x][..n] == s[..n][i := x];
    } else {
      assert s[i := x][..n] == s[..n];
    }
  }

  lemma {:induction false} CountMono<T>(s: seq<T>, p: T -> bool, q: T -> bool)
    requires forall i :: 0 <= i < |s| && p(s[i]) ==> q(s[i])
    ensures Count(s, p) <= Count(s, q)
  {
    if s != [] {
      CountMono(s[..|s| - 1], p, q);
    }
  }

  /** The same between two states of a table, row by row. */
  lemma {:induction false} CountPointwise<T>(s: seq<T>, t: seq<T>, p: T -> bool)
    requires |s| == |t| && forall i :: 0 <= i < |s| && p(t[i]) ==> p(s[i])
    ensures Count(t, p) <= Count(s, p)
  {
    if s != [] {
      CountPointwise(s[..|s| - 1], t[..|t| - 1], p);
    }
  }

  /** A row that satisfies only the wider condition separates the two counts. */
  lemma {:induction false} CountStrict<T>(s: seq<T>, i: nat, p: T -> bool, q: T -> bool)
    requires forall j :: 0 <= j < |s| && p(s[j]) ==> q(s[j])
    requires i < |s| && q(s[i]) && !p(s[i])
    ensures Count(s, p) < Count(s, q)
    decreases |s|
  {
    var n := |s| - 1;
    if i < n {
      CountStrict(s[..n], i, p, q);
    } else {
      CountMono(s[..n], p, q);
    }
  }

  lemma {:induction false} CountAtLeastOne<T>(s: seq<T>, i: nat, p: T -> bool)
    requires i < |s| && p(s[i])
    ensures Count(s, p) >= 1
    decreases |s|
  {
    if i < |s| - 1 {
      CountAtLeastOne(s[..|s| - 1], i, p);
    }
  }

  lemma {:induction false} CountAtLeastTwo<T>(s: seq<T>, i: nat, j: nat, p: T -> bool)
    requires i < j < |s| && p(s[i]) && p(s[j])
    ensures Count(s, p) >= 2
    decreases |s|
  {
    var n := |s| - 1;
    if j < n {
      CountAtLeastTwo(s[..n], i, j, p);
    } else {
      CountAtLeastOne(s[..n], i, p);
    }
  }

  lemma {:induction false} CountZero<T>(s: seq<T>, p: T -> bool)
    ensures Count(s, p) == 0 <==> forall i :: 0 <= i < |s| ==> !p(s[i])
  {
    if s != [] {
      var n := |s| - 1;
      CountZero(s[..n], p);
      if Count(s, p) == 0 {
        forall i | 0 <= i < |s|
          ensures !p(s[i])
        {
          if i < n {
            assert s[..n][i] == s[i];
          }
        }
      } else if !p(s[n]) {
        var i :| 0 <= i < n && p(s[..n][i]);
        assert p(s[i]);
      }
    }
  }

  lemma {:induction false} CountPrefix<T>(s: seq<T>, n: nat, p: T -> bool)
    requires n <= |s|
    ensures Count(s[..n], p) <= Count(s, p)
    decreases |s|
  {
    if n < |s| {
      CountPrefix(s[..|s| - 1], n, p);
      assert s[..|s| - 1][..n] == s[..n];
    } else {
      assert s[..n] == s;
    }
  }

  /** With a count of one there is a single matching row. */
  lemma CountOneUnique<T>(s: seq<T>, i: nat, j: nat, p: T -> bool)
    requires i < |s| && j < |s| && p(s[i]) && p(s[j]) && Count(s, p) == 1
    ensures i == j
  {
    if i < j {
      CountAtLeastTwo(s, i, j, p);
    } else if j < i {
      CountAtLeastTwo(s, j, i, p);
    }
  }

  /** Counting rows is taking the size of the set of their numbers. */
  lemma {:induction false} CountIsSize<T>(s: seq<T>, p: T -> bool, rows: set<int>)
    requires forall i :: i in rows <==> 0 <= i < |s| && p(s[i])
    ensures Count(s, p) == |rows|
  {
    if s == [] {
      assert rows == {} by {
        assert forall i :: i in rows ==> 0 <= i < |s|;
      }
    } else {
      var n := |s| - 1;
      var before := rows - {n};
      forall i
        ensures i in before <==> 0 <= i < n && p(s[..n][i])
      {
        assert i in rows <==> 0 <= i < |s| && p(s[i]);
      }
      CountIsSize(s[..n], p, before);
      if p(s[n]) {
        assert n in rows && rows == before + {n};
      } else {
        assert n !in rows && rows == before;
      }
    }
  }

  /** How far a count falls when rows stop matching. */
  lemma CountFalls<T>(s: seq<T>, t: seq<T>, p: T -> bool, changed: set<int>)
    requires |s| == |t| && forall i :: 0 <= i < |s| && p(t[i]) ==> p(s[i])
    requires forall i :: i in changed <==> 0 <= i < |s| && p(s[i]) && !p(t[i])
    ensures Count(s, p) - Count(t, p) == |changed|
  {
    var was, left := set i | 0 <= i < |s| && p(s[i]), set i | 0 <= i < |t| && p(t[i]);
    CountIsSize(s, p, was);
    CountIsSize(t, p, left);
    assert was == left + changed && left !! changed;
  }

  /** The first row that matches, as SELECT ... ORDER BY id LIMIT 1 returns it; |s| when none does. */
  function FindFirst<T>(s: seq<T>, p: T -> bool): (i: nat)
    ensures i <= |s|
    ensures i < |s| ==> p(s[i])
    ensures forall j :: 0 <= j < i ==> !p(s[j])
  {
    if s == [] then 0
    else if p(s[0]) then 0
    else
      var r := FindFirst(s[1..], p);
      assert forall j :: 1 <= j < 1 + r ==> s[j] == s[1..][j - 1];
      1 + r
  }
}
