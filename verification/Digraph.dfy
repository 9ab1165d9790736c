/** Paths, cycles and topological orders of a finite directed graph given by successor lists. */
module Digraph {

  type Graph = map<string, seq<string>>

  predicate Edge(g: Graph, a: string, b: string) {
    a in g && b in g && b in g[a]
  }

  /** Consecutive nodes are joined by edges; a single node is a path of its own. */
  predicate IsPath(g: Graph, p: seq<string>) {
    && p != []
    && (forall i :: 0 <= i < |p| ==> p[i] in g)
    && (forall i :: 0 <= i < |p| - 1 ==> Edge(g, p[i], p[i + 1]))
  }

  predicate IsCycle(g: Graph, p: seq<string>) {
    IsPath(g, p) && |p| >= 2 && p[0] == p[|p| - 1]
  }

  ghost predicate Acyclic(g: Graph) {
    forall p :: !IsCycle(g, p)
  }

  /** `b` lies one or more edges away from `a`. */
  ghost predicate Reaches(g: Graph, a: string, b: string) {
    exists p :: IsPath(g, p) && |p| >= 2 && p[0] == a && p[|p| - 1] == b
  }

  predicate Distinct<T(==)>(s: seq<T>) {
    forall i, j :: 0 <= i < j < |s| ==> s[i] != s[j]
  }

  /** Every edge leads from a node of `order` to an earlier one. */
  ghost predicate EdgesGoBack(g: Graph, order: seq<string>) {
    forall i, b :: 0 <= i < |order| && Edge(g, order[i], b) ==> b in order[..i]
  }

  ghost predicate TopologicalOrder(g: Graph, order: seq<string>) {
    && Distinct(order)
    && (forall x :: x in order <==> x in g)
    && EdgesGoBack(g, order)
  }

  function IndexOf(s: seq<string>, x: string): (i: nat)
    requires x in s
    ensures i < |s| && s[i] == x && x !in s[..i]
  {
    if s[0] == x then 0 else
      assert x in s[1..];
      var i := 1 + IndexOf(s[1..], x);
      assert s[..i] == [s[0]] + s[1..][..i - 1];
      i
  }

  lemma {:induction false} PositionsFall(g: Graph, order: seq<string>, p: seq<string>)
    requires TopologicalOrder(g, order) && IsPath(g, p) && |p| >= 2
    ensures IndexOf(order, p[|p| - 1]) < IndexOf(order, p[0])
  {
    assert Edge(g, p[0], p[1]);
    assert p[1] in order[..IndexOf(order, p[0])];
    if |p| > 2 {
      var rest := p[1..];
      assert forall i :: 0 <= i < |rest| - 1 ==> Edge(g, rest[i], rest[i + 1]) by {
        forall i | 0 <= i < |rest| - 1
          ensures Edge(g, rest[i], rest[i + 1])
        {
          assert Edge(g, p[i + 1], p[i + 2]);
        }
      }
      PositionsFall(g, order, rest);
    }
  }

  lemma OrderedMeansAcyclic(g: Graph, order: seq<string>)
    requires TopologicalOrder(g, order)
    ensures Acyclic(g)
  {
    forall p | IsCycle(g, p)
      ensures false
    {
      PositionsFall(g, order, p);
    }
  }

  lemma PathExtends(g: Graph, p: seq<string>, b: string)
    requires IsPath(g, p) && Edge(g, p[|p| - 1], b)
    ensures IsPath(g, p + [b])
  {
  }

  lemma PathSuffix(g: Graph, p: seq<string>, n: nat)
    requires IsPath(g, p) && n < |p|
    ensures IsPath(g, p[n..])
  {
    forall i | 0 <= i < |p[n..]| - 1
      ensures Edge(g, p[n..][i], p[n..][i + 1])
    {
      assert Edge(g, p[n + i], p[n + i + 1]);
    }
  }

  /** A path that steps back to one of its own nodes closes a cycle. */
  lemma StepBackIsCycle(g: Graph, p: seq<string>, i: nat)
    requires IsPath(g, p) && i < |p| && Edge(g, p[|p| - 1], p[i])
    ensures IsCycle(g, p[i..] + [p[i]])
  {
    PathSuffix(g, p, i);
    PathExtends(g, p[i..], p[i]);
  }

  lemma OrderGrows(g: Graph, order: seq<string>, x: string)
    requires EdgesGoBack(g, order) && forall b :: Edge(g, x, b) ==> b in order
    ensures EdgesGoBack(g, order + [x])
  {
    forall i, b | 0 <= i < |order + [x]| && Edge(g, (order + [x])[i], b)
      ensures b in (order + [x])[..i]
    {
      assert (order + [x])[..i] == order[..i];
    }
  }

  /** A set that holds the successors of `a` and is closed under edges holds all that `a` reaches. */
  lemma {:induction false} ClosedSetHoldsReachable(g: Graph, a: string, s: set<string>, p: seq<string>)
    requires IsPath(g, p) && |p| >= 2 && p[0] == a
    requires forall b :: Edge(g, a, b) ==> b in s
    requires forall x, b :: x in s && Edge(g, x, b) ==> b in s
    ensures p[|p| - 1] in s
  {
    var before := p[..|p| - 1];
    assert Edge(g, p[|p| - 2], p[|p| - 1]);
    if |p| > 2 {
      assert IsPath(g, before) by {
        forall i | 0 <= i < |before| - 1
          ensures Edge(g, before[i], before[i + 1])
        {
          assert Edge(g, p[i], p[i + 1]);
        }
      }
      ClosedSetHoldsReachable(g, a, s, before);
    }
  }

  function Without(s: seq<string>, x: string): (r: seq<string>)
    ensures x !in r && forall y :: y in r <==> y in s && y != x
    ensures Distinct(s) ==> Distinct(r)
  {
    if s == [] then []
    else
      var n := |s| - 1;
      assert forall y :: y in s <==> y in s[..n] || y == s[n];
      var before := Without(s[..n], x);
      assert Distinct(s) ==> s[n] !in s[..n];
      assert forall i :: 0 <= i < |before| ==> before[i] in s[..n];
      if s[n] == x then before else before + [s[n]]
  }

  lemma {:induction false} WithoutKeepsOrder(g: Graph, s: seq<string>, x: string)
    requires Distinct(s) && EdgesGoBack(g, s)
    requires forall y :: y in s && y != x ==> !Edge(g, y, x)
    ensures EdgesGoBack(g, Without(s, x))
  {
    if s != [] {
      var n := |s| - 1;
      var before := s[..n];
      assert forall i :: 0 <= i < n ==> before[..i] == s[..i];
      assert EdgesGoBack(g, before) by {
        forall i, b | 0 <= i < |before| && Edge(g, before[i], b)
          ensures b in before[..i]
        {
          assert b in s[..i];
        }
      }
      WithoutKeepsOrder(g, before, x);
      var r := Without(s, x);
      if s[n] != x {
        forall i, b | 0 <= i < |r| && Edge(g, r[i], b)
          ensures b in r[..i]
        {
          if i == |r| - 1 {
            assert r[..i] == Without(before, x);
            assert b in s[..n];
          } else {
            assert r[..i] == Without(before, x)[..i];
          }
        }
      }
    }
  }
}
