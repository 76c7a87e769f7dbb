/** Small vocabulary shared by every component: optional values and totals over maps. */
module Basics {
  datatype Option<+T> = None | Some(value: T)

  function Min(a: int, b: int): int { if a <= b then a else b }

  function Max(a: int, b: int): int { if a >= b then a else b }

  /** Python's `math.ceil`. */
  function Ceil(r: real): int { -((-r).Floor) }

  function Pow(b: nat, e: nat): (p: nat)
    ensures b >= 1 ==> p >= 1
  {
    if e == 0 then 1 else Pow(b, e - 1) * b
  }

  /** A member of a non-empty set. */
  lemma Member<T>(s: set<T>) returns (x: T)
    requires s != {}
    ensures x in s
  {
    x :| x in s;
  }

  /** A key of a non-empty map. */
  lemma SomeKey<K, V>(m: map<K, V>) returns (k: K)
    requires m != map[]
    ensures k in m
  {
    k :| k in m;
  }

  lemma {:induction false} Smaller<T>(a: set<T>, b: set<T>)
    requires a <= b
    ensures |a| <= |b|
    decreases |a|
  {
    if a != {} {
      var x := Member(a);
      Smaller(a - {x}, b - {x});
    }
  }

  /** `LIMIT n` without an order: at most `n` members of a set, all of them when there are fewer. */
  method AtMost<T(==)>(s: set<T>, n: nat) returns (l: seq<T>, chosen: set<T>)
    ensures chosen <= s && |chosen| == |l| <= n && (|l| < n ==> chosen == s)
    ensures forall x :: x in l <==> x in chosen
  {
    l, chosen := [], {};
    var rest := s;
    while |l| < n && rest != {}
      invariant |chosen| == |l| <= n && chosen + rest == s && chosen !! rest
      invariant forall x :: x in l <==> x in chosen
      decreases |rest|
    {
      ghost var some := Member(rest);
      var x :| x in rest;
      l, chosen, rest := l + [x], chosen + {x}, rest - {x};
    }
  }

  lemma {:induction false} DistinctSize<T>(s: seq<T>, within: set<T>)
    requires Distinct(s) && forall x :: x in s ==> x in within
    ensures |s| <= |within|
    decreases |s|
  {
    if s != [] {
      var front, last := s[..|s| - 1], s[|s| - 1];
      forall x | x in front
        ensures x in within - {last}
      {
        var i :| 0 <= i < |front| && front[i] == x;
        assert s[i] != last;
      }
      DistinctSize(front, within - {last});
    }
  }

  predicate Distinct<T(==)>(s: seq<T>) {
    forall i, j :: 0 <= i < j < |s| ==> s[i] != s[j]
  }
}

/** Sums of a row function over a table held as a map. */
module MapTotals {
  import opened Basics

  ghost function Total<K, V>(m: map<K, V>, f: V -> nat): nat {
    if m == map[] then 0 else var k :| k in m; f(m[k]) + Total(m - {k}, f)
  }

  lemma {:induction false} TotalRemove<K, V>(m: map<K, V>, k: K, f: V -> nat)
    requires k in m
    ensures Total(m, f) == f(m[k]) + Total(m - {k}, f)
    decreases m
  {
    var c :| c in m && Total(m, f) == f(m[c]) + Total(m - {c}, f);
    if c != k {
      TotalRemove(m - {c}, k, f);
      TotalRemove(m - {k}, c, f);
      assert m - {c} - {k} == m - {k} - {c};
    }
  }

  lemma TotalUpdate<K, V>(m: map<K, V>, k: K, v: V, f: V -> nat)
    ensures Total(m[k := v], f) == Total(m, f) + f(v) - (if k in m then f(m[k]) else 0)
  {
    TotalRemove(m[k := v], k, f);
    assert m[k := v] - {k} == m - {k};
    if k in m {
      TotalRemove(m, k, f);
    } else {
      assert m - {k} == m;
    }
  }

  /** Rows that agree under `f` have the same total. */
  lemma {:induction false} TotalSame<K, V>(m: map<K, V>, n: map<K, V>, f: V -> nat)
    requires m.Keys == n.Keys
    requires forall k :: k in m ==> f(m[k]) == f(n[k])
    ensures Total(m, f) == Total(n, f)
    decreases m
  {
    if m == map[] {
      assert n == map[];
    } else {
      var k :| k in m;
      TotalRemove(m, k, f);
      TotalRemove(n, k, f);
      TotalSame(m - {k}, n - {k}, f);
    }
  }

  /** A column with the same value `b` in every row totals `b` per row. */
  lemma {:induction false} TotalConstant<K, V>(m: map<K, V>, f: V -> nat, b: nat)
    requires forall k :: k in m ==> f(m[k]) == b
    ensures Total(m, f) == b * |m|
    decreases m
  {
    if m != map[] {
      var k :| k in m;
      TotalRemove(m, k, f);
      TotalConstant(m - {k}, f, b);
      assert |m - {k}| == |m| - 1;
      assert b * |m| == b * (|m| - 1) + b;
    }
  }

  /** The total of two tables without a common key. */
  lemma {:induction false} TotalJoin<K, V>(added: map<K, V>, m: map<K, V>, f: V -> nat)
    requires added.Keys !! m.Keys
    ensures Total(added + m, f) == Total(added, f) + Total(m, f)
    decreases added
  {
    if added == map[] {
      assert added + m == m;
    } else {
      var k := SomeKey(added);
      TotalJoin(added - {k}, m, f);
      TotalRemove(added, k, f);
      TotalRemove(added + m, k, f);
      assert added + m - {k} == (added - {k}) + m;
    }
  }

  lemma SizeJoin<K, V>(added: map<K, V>, m: map<K, V>)
    requires added.Keys !! m.Keys
    ensures |added + m| == |added| + |m|
  {
    assert (added + m).Keys == added.Keys + m.Keys;
    assert |added| == |added.Keys| && |m| == |m.Keys| && |added + m| == |(added + m).Keys|;
  }

  /** A 0/1 column totals the number of rows that carry a 1. */
  lemma {:induction false} TotalIndicator<K, V>(m: map<K, V>, f: V -> nat, ones: set<K>)
    requires ones <= m.Keys
    requires forall k :: k in m ==> f(m[k]) == if k in ones then 1 else 0
    ensures Total(m, f) == |ones|
    decreases m
  {
    if m != map[] {
      var k :| k in m;
      TotalRemove(m, k, f);
      TotalIndicator(m - {k}, f, ones - {k});
      if k !in ones {
        assert ones - {k} == ones;
      }
    } else {
      assert ones == {};
    }
  }
}

/** Clocks the components read. */
module Clocks {
  /** A wall clock that never runs backwards. */
  class Clock {
    var time: int

    constructor (start: int)
      ensures time == start
    {
      time := start;
    }

    method Now() returns (t: int)
      modifies this
      ensures old(time) <= time == t
    {
      var passed: int := *;
      time := time + if passed < 0 then 0 else passed;
      t := time;
    }
  }
}
