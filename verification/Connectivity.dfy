/** Undirected reachability over a list of edges, its classes, and how one more node or edge
    changes their number. */
module Connectivity {

  datatype Edge = Edge(from: nat, to: nat)

  ghost predicate Adjacent(es: seq<Edge>, u: nat, v: nat) {
    Edge(u, v) in es || Edge(v, u) in es
  }

  ghost predicate IsPath(es: seq<Edge>, p: seq<nat>) {
    |p| > 0 && forall i, j :: 0 <= i && j == i + 1 && j < |p| ==> Adjacent(es, p[i], p[j])
  }

  ghost predicate Joins(es: seq<Edge>, p: seq<nat>, u: nat, v: nat) {
    IsPath(es, p) && p[0] == u && p[|p| - 1] == v
  }

  ghost predicate Connected(es: seq<Edge>, u: nat, v: nat) {
    exists p :: Joins(es, p, u, v)
  }

  lemma Reflexive(es: seq<Edge>, u: nat)
    ensures Connected(es, u, u)
  {
    assert Joins(es, [u], u, u);
  }

  lemma Neighbours(es: seq<Edge>, u: nat, v: nat)
    requires Adjacent(es, u, v)
    ensures Connected(es, u, v)
  {
    assert Joins(es, [u, v], u, v);
  }

  lemma Transitive(es: seq<Edge>, u: nat, v: nat, x: nat)
    requires Connected(es, u, v) && Connected(es, v, x)
    ensures Connected(es, u, x)
  {
    var p :| Joins(es, p, u, v);
    var q :| Joins(es, q, v, x);
    var r := p + q[1..];
    forall i, j | 0 <= i && j == i + 1 && j < |r| ensures Adjacent(es, r[i], r[j]) {
      if j < |p| {
        assert Adjacent(es, p[i], p[j]);
      } else {
        assert Adjacent(es, q[j - |p|], q[j - |p| + 1]);
        assert r[i] == q[j - |p|];
      }
    }
    assert Joins(es, r, u, x);
  }

  lemma {:induction false} Symmetric(es: seq<Edge>, u: nat, v: nat)
    requires Connected(es, u, v)
    ensures Connected(es, v, u)
  {
    var p :| Joins(es, p, u, v);
    BackAlong(es, p);
  }

  lemma {:induction false} BackAlong(es: seq<Edge>, p: seq<nat>)
    requires IsPath(es, p)
    ensures Connected(es, p[|p| - 1], p[0])
    decreases |p|
  {
    hide Connected;
    if |p| == 1 {
      Reflexive(es, p[0]);
    } else {
      var last := |p| - 1;
      assert Adjacent(es, p[last - 1], p[last]);
      PathPrefix(es, p);
      BackAlong(es, p[..last]);
      Neighbours(es, p[last], p[last - 1]);
      Transitive(es, p[last], p[last - 1], p[0]);
    }
  }

  lemma PathPrefix(es: seq<Edge>, p: seq<nat>)
    requires IsPath(es, p) && |p| > 1
    ensures IsPath(es, p[..|p| - 1])
  {
  }

  /** A set that is closed under adjacency contains everything connected to its members. */
  lemma {:induction false} ClosedUnderPaths(es: seq<Edge>, c: set<nat>, p: seq<nat>)
    requires IsPath(es, p) && p[0] in c
    requires forall u, v :: u in c && Adjacent(es, u, v) ==> v in c
    ensures p[|p| - 1] in c
    decreases |p|
  {
    if |p| > 1 {
      var last := |p| - 1;
      PathPrefix(es, p);
      ClosedUnderPaths(es, c, p[..last]);
      assert Adjacent(es, p[last - 1], p[last]);
    }
  }

  // ---------- classes ----------

  /** The nodes connected to `u`. */
  ghost function Class(nodes: set<nat>, es: seq<Edge>, u: nat): set<nat> {
    set v | v in nodes && Connected(es, u, v)
  }

  ghost function Classes(nodes: set<nat>, es: seq<Edge>): set<set<nat>> {
    set u | u in nodes :: Class(nodes, es, u)
  }

  /** The number of classes of undirected reachability. */
  ghost function Components(nodes: set<nat>, es: seq<Edge>): nat {
    |Classes(nodes, es)|
  }

  lemma ClassEq(nodes: set<nat>, es: seq<Edge>, u: nat, v: nat)
    requires u in nodes && v in nodes
    ensures Class(nodes, es, u) == Class(nodes, es, v) <==> Connected(es, u, v)
  {
    hide Connected;
    Reflexive(es, v);
    if Class(nodes, es, u) == Class(nodes, es, v) {
      assert v in Class(nodes, es, u);
    }
    if Connected(es, u, v) {
      Symmetric(es, u, v);
      forall x | x in nodes ensures Connected(es, u, x) <==> Connected(es, v, x) {
        if Connected(es, u, x) { Transitive(es, v, u, x); }
        if Connected(es, v, x) { Transitive(es, u, v, x); }
      }
    }
  }

  // ---------- one more edge ----------

  lemma MoreEdges(es: seq<Edge>, e: Edge, u: nat, v: nat)
    requires Connected(es, u, v)
    ensures Connected(es + [e], u, v)
  {
    var p :| Joins(es, p, u, v);
    forall i, j | 0 <= i && j == i + 1 && j < |p| ensures Adjacent(es + [e], p[i], p[j]) {
      assert Adjacent(es, p[i], p[j]);
    }
    assert Joins(es + [e], p, u, v);
  }

  /** Connected in the old graph, or through the new edge. */
  ghost predicate ConnectedVia(es: seq<Edge>, e: Edge, u: nat, v: nat) {
    || Connected(es, u, v)
    || (Connected(es, u, e.from) && Connected(es, e.to, v))
    || (Connected(es, u, e.to) && Connected(es, e.from, v))
  }

  /** One more step: along an old edge or along the new one. */
  lemma ViaStep(es: seq<Edge>, e: Edge, u: nat, v: nat, x: nat)
    requires ConnectedVia(es, e, u, v) && Adjacent(es + [e], v, x)
    ensures ConnectedVia(es, e, u, x)
  {
    hide Connected;
    if Adjacent(es, v, x) {
      Neighbours(es, v, x);
      if Connected(es, u, v) { Transitive(es, u, v, x); }
      if Connected(es, e.to, v) { Transitive(es, e.to, v, x); }
      if Connected(es, e.from, v) { Transitive(es, e.from, v, x); }
    } else {
      Reflexive(es, e.from);
      Reflexive(es, e.to);
      if Connected(es, e.to, v) { Symmetric(es, e.to, v); }
      if Connected(es, e.from, v) { Symmetric(es, e.from, v); }
    }
  }

  lemma {:induction false} ViaPath(es: seq<Edge>, e: Edge, p: seq<nat>)
    requires IsPath(es + [e], p)
    ensures ConnectedVia(es, e, p[0], p[|p| - 1])
    decreases |p|
  {
    hide Connected, ConnectedVia;
    if |p| == 1 {
      Reflexive(es, p[0]);
      ViaOld(es, e, p[0], p[0]);
    } else {
      var last := |p| - 1;
      PathPrefix(es + [e], p);
      ViaPath(es, e, p[..last]);
      assert Adjacent(es + [e], p[last - 1], p[last]);
      ViaStep(es, e, p[0], p[last - 1], p[last]);
    }
  }

  lemma ViaOld(es: seq<Edge>, e: Edge, u: nat, v: nat)
    requires Connected(es, u, v)
    ensures ConnectedVia(es, e, u, v)
  {
  }

  /** Reachability after one more edge. */
  lemma ConnectedAfterEdge(es: seq<Edge>, e: Edge, u: nat, v: nat)
    ensures Connected(es + [e], u, v) <==> ConnectedVia(es, e, u, v)
  {
    if Connected(es + [e], u, v) {
      var p :| Joins(es + [e], p, u, v);
      ViaPath(es, e, p);
    }
    if ConnectedVia(es, e, u, v) {
      ViaBack(es, e, u, v);
    }
  }

  lemma ViaBack(es: seq<Edge>, e: Edge, u: nat, v: nat)
    requires ConnectedVia(es, e, u, v)
    ensures Connected(es + [e], u, v)
  {
    hide Connected;
    var es' := es + [e];
    assert Adjacent(es', e.from, e.to) && Adjacent(es', e.to, e.from);
    Neighbours(es', e.from, e.to);
    Neighbours(es', e.to, e.from);
    if Connected(es, u, v) {
      MoreEdges(es, e, u, v);
    } else if Connected(es, u, e.from) && Connected(es, e.to, v) {
      MoreEdges(es, e, u, e.from);
      MoreEdges(es, e, e.to, v);
      Transitive(es', u, e.from, e.to);
      Transitive(es', u, e.to, v);
    } else {
      MoreEdges(es, e, u, e.to);
      MoreEdges(es, e, e.from, v);
      Transitive(es', u, e.to, e.from);
      Transitive(es', u, e.from, v);
    }
  }

  lemma SameClassesWhenConnected(nodes: set<nat>, es: seq<Edge>, e: Edge)
    requires Connected(es, e.from, e.to)
    ensures Classes(nodes, es + [e]) == Classes(nodes, es)
  {
    hide Connected;
    Symmetric(es, e.from, e.to);
    forall u, v ensures Connected(es + [e], u, v) <==> Connected(es, u, v) {
      ConnectedAfterEdge(es, e, u, v);
      if Connected(es, u, e.from) && Connected(es, e.to, v) {
        Transitive(es, u, e.from, e.to);
        Transitive(es, u, e.to, v);
      }
      if Connected(es, u, e.to) && Connected(es, e.from, v) {
        Transitive(es, u, e.to, e.from);
        Transitive(es, u, e.from, v);
      }
    }
    forall u | u in nodes ensures Class(nodes, es + [e], u) == Class(nodes, es, u) {}
  }

  /** Joining two classes: their members get the union, all others keep their class. */
  lemma MergedClass(nodes: set<nat>, es: seq<Edge>, e: Edge, u: nat)
    requires e.from in nodes && e.to in nodes && u in nodes
    ensures var a, b := Class(nodes, es, e.from), Class(nodes, es, e.to);
      Class(nodes, es + [e], u) == if u in a || u in b then a + b else Class(nodes, es, u)
  {
    hide Connected;
    var a, b := Class(nodes, es, e.from), Class(nodes, es, e.to);
    SymmetricIff(es, u, e.from);
    SymmetricIff(es, u, e.to);
    forall v | v in nodes
      ensures Connected(es + [e], u, v) <==> if u in a || u in b then v in a || v in b else Connected(es, u, v)
    {
      ConnectedAfterEdge(es, e, u, v);
      if Connected(es, u, v) {
        if u in a { Transitive(es, e.from, u, v); }
        if u in b { Transitive(es, e.to, u, v); }
      }
      if u in a && v in a { Transitive(es, u, e.from, v); }
      if u in b && v in b { Transitive(es, u, e.to, v); }
    }
  }

  lemma SymmetricIff(es: seq<Edge>, u: nat, v: nat)
    ensures Connected(es, u, v) <==> Connected(es, v, u)
  {
    hide Connected;
    if Connected(es, u, v) { Symmetric(es, u, v); }
    if Connected(es, v, u) { Symmetric(es, v, u); }
  }

  lemma ClassesAfterMerge(nodes: set<nat>, es: seq<Edge>, e: Edge)
    requires e.from in nodes && e.to in nodes && !Connected(es, e.from, e.to)
    ensures var a, b := Class(nodes, es, e.from), Class(nodes, es, e.to);
      && a in Classes(nodes, es) && b in Classes(nodes, es) && a != b && a + b !in Classes(nodes, es) - {a, b}
      && Classes(nodes, es + [e]) == Classes(nodes, es) - {a, b} + {a + b}
  {
    hide Connected;
    var a, b := Class(nodes, es, e.from), Class(nodes, es, e.to);
    ClassEq(nodes, es, e.from, e.to);
    var before, after := Classes(nodes, es), Classes(nodes, es + [e]);
    Reflexive(es, e.from);
    forall u | u in nodes
      ensures u in a <==> Class(nodes, es, u) == a
      ensures u in b <==> Class(nodes, es, u) == b
      ensures Class(nodes, es + [e], u) == if u in a || u in b then a + b else Class(nodes, es, u)
    {
      ClassEq(nodes, es, e.from, u);
      ClassEq(nodes, es, e.to, u);
      MergedClass(nodes, es, e, u);
    }
    assert e.from in a;
    assert Class(nodes, es + [e], e.from) == a + b;
    forall c ensures c in after <==> c in before - {a, b} + {a + b} {
      if c in after {
        var u :| u in nodes && c == Class(nodes, es + [e], u);
      }
      if c in before - {a, b} {
        var u :| u in nodes && c == Class(nodes, es, u);
        assert Class(nodes, es + [e], u) == c;
      }
    }
    forall c | c in before - {a, b} ensures c != a + b {
      var u :| u in nodes && c == Class(nodes, es, u);
      Reflexive(es, u);
      assert u in c;
    }
  }

  /** One more edge between known nodes lowers the number of components by exactly one if its
      ends were not connected, and leaves it otherwise. */
  lemma EdgeEffect(nodes: set<nat>, es: seq<Edge>, e: Edge)
    requires e.from in nodes && e.to in nodes
    ensures Components(nodes, es + [e]) == Components(nodes, es) - (if Connected(es, e.from, e.to) then 0 else 1)
  {
    hide Connected, Classes;
    if Connected(es, e.from, e.to) {
      SameClassesWhenConnected(nodes, es, e);
    } else {
      ClassesAfterMerge(nodes, es, e);
      var a, b := Class(nodes, es, e.from), Class(nodes, es, e.to);
      var before := Classes(nodes, es);
      assert |before - {a, b}| == |before| - 2 by {
        assert before == (before - {a, b}) + {a, b};
      }
    }
  }

  // ---------- one more node ----------

  ghost predicate EdgesWithin(nodes: set<nat>, es: seq<Edge>) {
    forall e :: e in es ==> e.from in nodes && e.to in nodes
  }

  lemma IsolatedNode(nodes: set<nat>, es: seq<Edge>, x: nat, v: nat)
    requires EdgesWithin(nodes, es) && x !in nodes
    ensures Connected(es, x, v) <==> v == x
    ensures Connected(es, v, x) <==> v == x
  {
    Reflexive(es, x);
    SymmetricIff(es, x, v);
    if Connected(es, x, v) {
      var p :| Joins(es, p, x, v);
      ClosedUnderPaths(es, {x}, p);
    }
  }

  /** A new node is a component of its own; the others are unchanged. */
  lemma NodeEffect(nodes: set<nat>, es: seq<Edge>, x: nat)
    requires EdgesWithin(nodes, es) && x !in nodes
    ensures Components(nodes + {x}, es) == Components(nodes, es) + 1
  {
    hide Connected;
    var more := nodes + {x};
    forall v ensures (Connected(es, x, v) <==> v == x) && (Connected(es, v, x) <==> v == x) {
      IsolatedNode(nodes, es, x, v);
    }
    assert Class(more, es, x) == {x};
    forall u | u in nodes ensures Class(more, es, u) == Class(nodes, es, u) {}
    assert Classes(more, es) == Classes(nodes, es) + {{x}};
    forall c | c in Classes(nodes, es) ensures c != {x} {
      assert x !in c;
    }
  }

  lemma NoNodes(es: seq<Edge>)
    ensures Components({}, es) == 0
  {
    assert Classes({}, es) == {};
  }

  /** Over every graph: components + edges >= nodes. */
  lemma {:induction false} EulerBound(nodes: set<nat>, es: seq<Edge>)
    requires EdgesWithin(nodes, es)
    ensures Components(nodes, es) + |es| >= |nodes|
    decreases |es|, |nodes|
  {
    hide Components, Connected;
    if es != [] {
      var init, e := es[..|es| - 1], es[|es| - 1];
      assert e in es && forall d :: d in init ==> d in es;
      EulerBound(nodes, init);
      EdgeEffect(nodes, init, e);
      assert es == init + [e];
    } else if nodes != {} {
      var x :| x in nodes;
      EulerBound(nodes - {x}, []);
      NodeEffect(nodes - {x}, [], x);
      assert nodes == (nodes - {x}) + {x};
    } else {
      NoNodes([]);
    }
  }
}
