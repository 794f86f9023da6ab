/** Sets of texts listed in UTF-16 order. */
module Ordered {
  import opened Utf16

  predicate IsLeast(s: set<Text>, c: Text)
  {
    c in s && forall d | d in s :: Le(c, d)
  }

  lemma {:induction false} LeastExists(s: set<Text>)
    requires s != {}
    ensures exists c :: IsLeast(s, c)
    decreases |s|
  {
    hide Le;
    var x :| x in s;
    LeReflexive(x);
    if s == {x} {
      assert IsLeast(s, x);
    } else {
      var t := s - {x};
      assert t != {};
      LeastExists(t);
      var m :| IsLeast(t, m);
      LeTotal(x, m);
      if Le(x, m) {
        forall d | d in t ensures Le(x, d) { LeTransitive(x, m, d); }
        assert IsLeast(s, x);
      } else {
        assert IsLeast(s, m);
      }
    }
  }

  /** `ORDER BY … LIMIT`: the least `limit` members of a set, in order. */
  method FirstInOrder(all: set<Text>, limit: nat) returns (found: seq<Text>)
    ensures |found| <= limit && (forall c | c in found :: c in all)
    ensures forall i, j | 0 <= i < j < |found| :: Le(found[i], found[j]) && found[i] != found[j]
    ensures forall c | c in all && c !in found :: |found| == limit && forall i | 0 <= i < |found| :: Le(found[i], c)
  {
    found := [];
    var rest := all;
    while rest != {} && |found| < limit
      invariant |found| <= limit && rest <= all
      invariant forall c :: c in all <==> c in rest || c in found
      invariant forall c | c in rest :: c !in found
      invariant forall i, c | 0 <= i < |found| && c in rest :: Le(found[i], c)
      invariant forall i, j | 0 <= i < j < |found| :: Le(found[i], found[j]) && found[i] != found[j]
      decreases |rest|
    {
      LeastExists(rest);
      var c :| c in rest && IsLeast(rest, c);
      rest := rest - {c};
      found := found + [c];
    }
  }

  /** Strictly ascending, so without repetition. */
  predicate Increasing(a: seq<Text>)
  {
    forall i, j | 0 <= i < j < |a| :: Le(a[i], a[j]) && a[i] != a[j]
  }

  /** A set has one ascending list. */
  lemma {:induction false} IncreasingUnique(a: seq<Text>, b: seq<Text>)
    requires Increasing(a) && Increasing(b) && forall x :: x in a <==> x in b
    ensures a == b
  {
    hide Le;
    assert |b| > 0 ==> b[0] in b;
    if |a| > 0 {
      assert a[0] in a;
      SameHead(a, b);
      forall x ensures x in a[1..] <==> x in b[1..] { TailHas(a, x); TailHas(b, x); }
      IncreasingUnique(a[1..], b[1..]);
      assert a == [a[0]] + a[1..] && b == [b[0]] + b[1..];
    }
  }

  lemma SameHead(a: seq<Text>, b: seq<Text>)
    requires Increasing(a) && Increasing(b) && |a| > 0 && |b| > 0 && forall x :: x in a <==> x in b
    ensures a[0] == b[0]
  {
    hide Le;
    assert a[0] in b && b[0] in a;
    var i :| 0 <= i < |b| && b[i] == a[0];
    var j :| 0 <= j < |a| && a[j] == b[0];
    LeReflexive(a[0]);
    assert Le(a[0], a[j]) && Le(b[0], b[i]);
    LeAntisymmetric(a[0], b[0]);
  }

  lemma TailHas(a: seq<Text>, x: Text)
    requires Increasing(a) && |a| > 0
    ensures x in a[1..] <==> x in a && x != a[0]
  {
    hide Le;
    if x in a && x != a[0] {
      var i :| 0 <= i < |a| && a[i] == x;
      assert a[1..][i - 1] == x;
    }
  }

  lemma {:induction false} DistinctCount(a: seq<Text>)
    requires Increasing(a)
    ensures |set x | x in a| == |a|
  {
    hide Le;
    if |a| > 0 {
      var t := a[1..];
      DistinctCount(t);
      forall x ensures x in t <==> x in a && x != a[0] { TailHas(a, x); }
      assert (set x | x in a) == (set x | x in t) + {a[0]};
      assert a[0] !in (set x | x in t);
    } else {
      assert (set x | x in a) == {};
    }
  }

  lemma SubsetSame(a: set<Text>, b: set<Text>)
    requires a <= b && |a| == |b|
    ensures a == b
  {
    assert |b - a| == 0;
  }

  /** The members of a set, in order. */
  method InOrder(all: set<Text>) returns (r: seq<Text>)
    ensures Increasing(r) && forall x :: x in r <==> x in all
  {
    hide Le;
    r := FirstInOrder(all, |all|);
    if |r| == |all| {
      DistinctCount(r);
      SubsetSame((set x | x in r), all);
      assert forall x :: x in all ==> x in (set y | y in r);
    }
  }
}
