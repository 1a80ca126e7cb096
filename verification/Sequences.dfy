/** Array helpers the TypeScript code takes from its standard library: filter, map and find. */
module Sequences {
  function Filter<T>(s: seq<T>, keep: T -> bool): (r: seq<T>)
    ensures |r| <= |s|
    ensures forall x | x in r :: x in s && keep(x)
    ensures forall x | x in s && keep(x) :: x in r
  {
    if s == [] then []
    else if keep(s[0]) then [s[0]] + Filter(s[1..], keep)
    else Filter(s[1..], keep)
  }

  function Map<T, U>(s: seq<T>, f: T -> U): (r: seq<U>)
    ensures |r| == |s|
    ensures forall i | 0 <= i < |s| :: r[i] == f(s[i])
  {
    seq(|s|, i requires 0 <= i < |s| => f(s[i]))
  }

  /** slice(-n): the last n elements, or all of them. */
  function LastN<T>(s: seq<T>, n: nat): (r: seq<T>)
    ensures |r| == if |s| <= n then |s| else n
  {
    if |s| <= n then s else s[|s| - n..]
  }

  lemma LastNAfterPush<T>(s: seq<T>, x: T, n: nat)
    requires n > 0
    ensures LastN(LastN(s, n) + [x], n) == LastN(s + [x], n)
  {
  }

  lemma LastNOfLastN<T>(s: seq<T>, n: nat, keep: nat)
    requires n <= keep
    ensures LastN(LastN(s, keep), n) == LastN(s, n)
  {
    if n < keep < |s| {
      assert s[|s| - keep..][keep - n..] == s[|s| - n..];
    }
  }

  /** Array.prototype.sort is stable: x goes before the first element it does not come after. */
  function Insert<T>(x: T, s: seq<T>, before: (T, T) -> bool): (r: seq<T>)
    ensures multiset(r) == multiset{x} + multiset(s)
  {
    if s == [] then [x]
    else if before(x, s[0]) then [x] + s
    else
      assert s == [s[0]] + s[1..];
      [s[0]] + Insert(x, s[1..], before)
  }

  function Sort<T>(s: seq<T>, before: (T, T) -> bool): (r: seq<T>)
    ensures multiset(r) == multiset(s)
  {
    if s == [] then []
    else
      assert s == [s[0]] + s[1..];
      Insert(s[0], Sort(s[1..], before), before)
  }

  /** x occurs in s at some position before an occurrence of y. */
  ghost predicate Precedes<T(!new)>(s: seq<T>, x: T, y: T) {
    exists i, j :: 0 <= i < j < |s| && s[i] == x && s[j] == y
  }

  lemma {:induction false} InsertedPrecedes<T(!new)>(x: T, s: seq<T>, y: T, before: (T, T) -> bool)
    requires y in s && before(x, y)
    ensures Precedes(Insert(x, s, before), x, y)
  {
    var r := Insert(x, s, before);
    if before(x, s[0]) {
      var j :| 0 <= j < |s| && s[j] == y;
      assert r[0] == x && r[j + 1] == y;
    } else {
      InsertedPrecedes(x, s[1..], y, before);
      var t := Insert(x, s[1..], before);
      var i, j :| 0 <= i < j < |t| && t[i] == x && t[j] == y;
      assert r[i + 1] == x && r[j + 1] == y;
    }
  }

  lemma {:induction false} InsertKeepsOrder<T(!new)>(z: T, s: seq<T>, x: T, y: T, before: (T, T) -> bool)
    requires Precedes(s, x, y)
    ensures Precedes(Insert(z, s, before), x, y)
  {
    var r, t := Insert(z, s, before), Insert(z, s[1..], before);
    var i, j :| 0 <= i < j < |s| && s[i] == x && s[j] == y;
    if before(z, s[0]) {
      assert r[i + 1] == x && r[j + 1] == y;
    } else if i == 0 {
      assert s[1..][j - 1] == y;
      assert y in multiset(t);
      var k :| 0 <= k < |t| && t[k] == y;
      assert r[0] == x && r[k + 1] == y;
    } else {
      assert s[1..][i - 1] == x && s[1..][j - 1] == y;
      InsertKeepsOrder(z, s[1..], x, y, before);
      var a, b :| 0 <= a < b < |t| && t[a] == x && t[b] == y;
      assert r[a + 1] == x && r[b + 1] == y;
    }
  }

  /** The sort is stable, whatever `before` does elsewhere: of two elements that may stand in this order,
      the one that came first stays first. */
  lemma {:induction false} SortIsStable<T(!new)>(s: seq<T>, x: T, y: T, before: (T, T) -> bool)
    requires Precedes(s, x, y) && before(x, y)
    ensures Precedes(Sort(s, before), x, y)
  {
    var i, j :| 0 <= i < j < |s| && s[i] == x && s[j] == y;
    var t := Sort(s[1..], before);
    if i == 0 {
      assert s[1..][j - 1] == y;
      assert y in multiset(t);
      InsertedPrecedes(x, t, y, before);
    } else {
      assert s[1..][i - 1] == x && s[1..][j - 1] == y;
      SortIsStable(s[1..], x, y, before);
      InsertKeepsOrder(s[0], t, x, y, before);
    }
  }

  lemma {:induction false} FilterSplits<T>(a: seq<T>, b: seq<T>, keep: T -> bool)
    ensures Filter(a + b, keep) == Filter(a, keep) + Filter(b, keep)
  {
    if a == [] {
      assert a + b == b;
    } else {
      assert (a + b)[1..] == a[1..] + b;
      FilterSplits(a[1..], b, keep);
    }
  }

  lemma {:induction false} FilterAgrees<T>(s: seq<T>, p: T -> bool, q: T -> bool)
    requires forall x | x in s :: p(x) == q(x)
    ensures Filter(s, p) == Filter(s, q)
  {
    if s != [] {
      FilterAgrees(s[1..], p, q);
    }
  }

  lemma {:induction false} FilterAll<T>(s: seq<T>, p: T -> bool)
    requires forall x | x in s :: p(x)
    ensures Filter(s, p) == s
  {
    if s != [] {
      FilterAll(s[1..], p);
    }
  }

  lemma {:induction false} FilterNone<T>(s: seq<T>, p: T -> bool)
    requires forall x | x in s :: !p(x)
    ensures Filter(s, p) == []
  {
    if s != [] {
      FilterNone(s[1..], p);
    }
  }

  lemma {:induction false} FilterTwice<T>(s: seq<T>, p: T -> bool, q: T -> bool, both: T -> bool)
    requires forall x | x in s :: both(x) == (p(x) && q(x))
    ensures Filter(Filter(s, p), q) == Filter(s, both)
  {
    if s != [] {
      FilterTwice(s[1..], p, q, both);
      if p(s[0]) {
        assert Filter(s, p)[1..] == Filter(s[1..], p);
      }
    }
  }

  lemma {:induction false} FilterKeepsOrder<T(!new)>(s: seq<T>, keep: T -> bool, x: T, y: T)
    requires Precedes(s, x, y) && keep(x) && keep(y)
    ensures Precedes(Filter(s, keep), x, y)
  {
    var i, j :| 0 <= i < j < |s| && s[i] == x && s[j] == y;
    assert s == s[..j] + s[j..];
    FilterSplits(s[..j], s[j..], keep);
    assert x in s[..j] by { assert s[..j][i] == x; }
    assert y in s[j..] by { assert s[j..][0] == y; }
    var a, b := Filter(s[..j], keep), Filter(s[j..], keep);
    var p :| 0 <= p < |a| && a[p] == x;
    var q :| 0 <= q < |b| && b[q] == y;
    assert (a + b)[p] == x && (a + b)[|a| + q] == y;
  }
}
