/** Counting in a cyclic sequence of positions: each of `m` positions is hit the floor or the
    ceiling of an equal share of the steps. */
module Cycles {

  function Times(x: int, y: int): int {
    x * y
  }

  lemma TimesStep(x: int, m: int)
    ensures Times(x + 1, m) == Times(x, m) + m
  {
  }

  lemma TimesGrows(x: int, y: int, m: int)
    requires x <= y && m >= 0
    ensures Times(x, m) <= Times(y, m)
  {
  }

  lemma TimesFar(d: int, m: int)
    requires m >= 0
    ensures d >= 1 ==> Times(d, m) >= m
    ensures d <= -1 ==> Times(d, m) <= -m
  {
  }

  /** Division with remainder is unique. */
  lemma DivModIs(x: nat, m: nat, q: nat, r: nat)
    requires m > 0 && r < m && x == Times(q, m) + r
    ensures x % m == r && x / m == q
  {
    var d := x / m - q;
    assert x == Times(x / m, m) + x % m;
    assert Times(d, m) == Times(x / m, m) - Times(q, m);
    TimesFar(d, m);
  }

  /** How often `x` occurs. */
  function Count<T(==)>(s: seq<T>, x: T): nat {
    if s == [] then 0 else Count(s[..|s| - 1], x) + if s[|s| - 1] == x then 1 else 0
  }

  /** The picks follow the counter, which stood at `start`. */
  ghost predicate Cyclic(picks: seq<nat>, start: nat, m: nat)
    requires m > 0
  {
    forall i | 0 <= i < |picks| :: picks[i] == (start + i) % m
  }

  lemma NextPosition(count: nat, m: nat)
    requires m > 0
    ensures (count + 1) % m == if count % m + 1 == m then 0 else count % m + 1
  {
    var q, r := count / m, count % m;
    assert count == Times(q, m) + r;
    TimesStep(q, m);
    if r + 1 == m {
      DivModIs(count + 1, m, q + 1, 0);
    } else {
      DivModIs(count + 1, m, q, r + 1);
    }
  }

  /** Steps until position `j` is next, from position `p`. */
  function Ahead(p: nat, j: nat, m: nat): (d: nat)
    requires p < m && j < m
    ensures d < m
  {
    if j >= p then j - p else j - p + m
  }

  lemma {:induction false} CyclicCount(picks: seq<nat>, start: nat, m: nat, j: nat)
    requires j < m && Cyclic(picks, start, m)
    ensures |picks| == Times(Count(picks, j), m) + Ahead(start % m, j, m) - Ahead((start + |picks|) % m, j, m)
    decreases picks
  {
    if picks != [] {
      var n := |picks| - 1;
      CyclicCount(picks[..n], start, m, j);
      NextPosition(start + n, m);
      assert picks[n] == (start + n) % m;
      TimesStep(Count(picks[..n], j), m);
    }
  }

  lemma Share(picks: seq<nat>, start: nat, m: nat, j: nat)
    requires j < m && Cyclic(picks, start, m)
    ensures Count(picks, j) == |picks| / m || Count(picks, j) == (|picks| + m - 1) / m
  {
    CyclicCount(picks, start, m, j);
    var k, c := |picks|, Count(picks, j);
    var rest := k - Times(c, m);
    if rest >= 0 {
      DivModIs(k, m, c, rest);
    } else {
      DivModIs(k + m - 1, m, c, rest + m - 1);
    }
  }
}
