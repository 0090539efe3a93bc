/** TrajectoryGraph: points, adjacency lists and edges updated in place, and the nested
    breadth-first search that counts the connected components. */
module TrajectoryGraph {
  import opened Connectivity

  datatype Point = Point(id: nat, x: real, y: real)

  class Graph {
    var points: map<nat, Point>
    var adjacency: map<nat, seq<nat>>
    var edges: seq<Edge>

    /** Adjacency lists and edge list tell the same graph over the known points. */
    ghost predicate Valid()
      reads this
    {
      && adjacency.Keys == points.Keys
      && EdgesWithin(points.Keys, edges)
      && (forall u :: u in adjacency ==> forall v :: v in adjacency[u] <==> Adjacent(edges, u, v))
    }

    constructor ()
      ensures Valid() && points == map[] && edges == []
    {
      points, adjacency, edges := map[], map[], [];
    }

    predicate HasPoint(id: nat)
      reads this
    {
      id in points
    }

    method AddPoint(p: Point)
      requires Valid()
      modifies this
      ensures Valid() && points == old(points)[p.id := p] && edges == old(edges)
      ensures Components(points.Keys, edges) ==
        Components(old(points).Keys, edges) + (if p.id in old(points) then 0 else 1)
    {
      if p.id !in points {
        NodeEffect(points.Keys, edges, p.id);
        FreshNodeIsolated(points.Keys, edges, p.id);
        assert points[p.id := p].Keys == points.Keys + {p.id};
      } else {
        assert points[p.id := p].Keys == points.Keys;
      }
      points := points[p.id := p];
      if p.id !in adjacency {
        adjacency := adjacency[p.id := []];
      }
    }

    /** Refused (the source throws) exactly when an end is unknown. */
    method AddEdge(from: nat, to: nat) returns (ok: bool)
      requires Valid()
      modifies this
      ensures Valid() && points == old(points)
      ensures ok <==> from in points && to in points
      ensures edges == if ok then old(edges) + [Edge(from, to)] else old(edges)
      ensures Components(points.Keys, edges) ==
              Components(points.Keys, old(edges)) - (if ok && !Connected(old(edges), from, to) then 1 else 0)
    {
      if !HasPoint(from) || !HasPoint(to) { return false; }
      EdgeEffect(points.Keys, edges, Edge(from, to));
      edges := edges + [Edge(from, to)];
      adjacency := adjacency[from := adjacency[from] + [to]];
      adjacency := adjacency[to := adjacency[to] + [from]];
      return true;
    }

    method NodeCount() returns (n: nat)
      ensures n == |points.Keys|
    {
      n := |points|;
    }

    method EdgeCount() returns (n: nat)
      ensures n == |edges|
    {
      n := |edges|;
    }

    /** Number of classes of undirected reachability, whatever order the points come in. */
    method ConnectedComponents() returns (components: nat)
      requires Valid()
      ensures components == Components(points.Keys, edges)
      ensures components + |edges| >= |points.Keys|
    {
      hide Connected, Class, Classes', Union;
      var visited: set<nat> := {};
      components := 0;
      ghost var seen: set<nat> := {};
      NothingSeen(points.Keys, edges);
      var todo := points.Keys;
      while todo != {}
        invariant seen + todo == points.Keys && seen !! todo
        invariant visited == Union(points.Keys, edges, seen)
        invariant components == |Classes'(points.Keys, edges, seen)|
        decreases todo
      {
        var id :| id in todo;
        todo := todo - {id};
        ClassesGrow(points.Keys, edges, seen, id);
        OneMore(Classes'(points.Keys, edges, seen), Class(points.Keys, edges, id));
        if id !in visited {
          components := components + 1;
          visited := Search(id, visited, seen);
        }
        seen := seen + {id};
      }
      AllSeen(points.Keys, edges);
      EulerBound(points.Keys, edges);
    }

    /** The inner loop: visit everything reachable from `id`. */
    method Search(id: nat, before: set<nat>, ghost seen: set<nat>) returns (visited: set<nat>)
      requires Valid() && id in points && id !in before && seen <= points.Keys
      requires before == Union(points.Keys, edges, seen)
      ensures visited == before + Class(points.Keys, edges, id)
    {
      hide Connected;
      ghost var own := Class(points.Keys, edges, id);
      var pending := [id];
      visited := before + {id};
      Reflexive(edges, id);
      UnionClosed(points.Keys, edges, seen);
      ghost var left := points.Keys - visited;
      while pending != []
        invariant forall x :: x in pending ==> x in own && x in visited
        invariant before + {id} <= visited <= before + own
        invariant forall u, v :: u in visited && u !in pending && Adjacent(edges, u, v) ==> v in visited
        invariant left == points.Keys - visited
        decreases left, |pending|
      {
        var current := pending[0];
        pending := pending[1..];
        ghost var old_pending := [current] + pending;
        assert current in own;
        var list := if current in adjacency then adjacency[current] else [];
        var rest := pending;
        ghost var start := visited;
        for k := 0 to |list|
          invariant start <= visited <= before + own && rest <= pending
          invariant forall x :: x in pending ==> x in own && x in visited
          invariant forall j :: 0 <= j < k ==> list[j] in visited
          invariant forall x :: x in visited && x !in start ==> x in pending
          invariant visited == start ==> pending == rest
          invariant points.Keys - visited <= points.Keys - start
          invariant visited != start ==> points.Keys - visited < points.Keys - start
        {
          var neighbor := list[k];
          if neighbor !in visited {
            assert Adjacent(edges, current, neighbor);
            NeighbourInClass(points.Keys, edges, id, current, neighbor);
            visited := visited + {neighbor};
            pending := pending + [neighbor];
          }
        }
        left := points.Keys - visited;
        assert forall u :: u in visited && u !in pending ==> u == current || (u in start && u !in old_pending);
      }
      forall v | v in own ensures v in visited {
        var p := PathOf(edges, id, v);
        ClosedUnderPaths(edges, visited, p);
      }
    }
  }

  lemma PathOf(es: seq<Edge>, u: nat, v: nat) returns (p: seq<nat>)
    requires Connected(es, u, v)
    ensures Joins(es, p, u, v)
  {
    p :| Joins(es, p, u, v);
  }

  lemma FreshNodeIsolated(nodes: set<nat>, es: seq<Edge>, x: nat)
    requires EdgesWithin(nodes, es) && x !in nodes
    ensures forall v :: !Adjacent(es, x, v)
  {
  }

  /** The classes of the nodes seen so far, and what they contain. */
  ghost function Classes'(nodes: set<nat>, es: seq<Edge>, seen: set<nat>): set<set<nat>> {
    set u | u in seen :: Class(nodes, es, u)
  }

  ghost predicate InUnion(nodes: set<nat>, es: seq<Edge>, seen: set<nat>, v: nat) {
    exists u :: u in seen && v in Class(nodes, es, u)
  }

  ghost function Union(nodes: set<nat>, es: seq<Edge>, seen: set<nat>): set<nat> {
    set v | v in nodes && InUnion(nodes, es, seen, v)
  }

  lemma OneMore(s: set<set<nat>>, c: set<nat>)
    ensures |s + {c}| == |s| + (if c in s then 0 else 1)
  {
    if c in s {
      assert s + {c} == s;
    }
  }

  lemma NothingSeen(nodes: set<nat>, es: seq<Edge>)
    ensures Classes'(nodes, es, {}) == {} && Union(nodes, es, {}) == {}
  {
  }

  lemma AllSeen(nodes: set<nat>, es: seq<Edge>)
    ensures Classes'(nodes, es, nodes) == Classes(nodes, es)
  {
  }

  /** A node already visited brings no new class; an unvisited one brings exactly its own. */
  lemma ClassesGrow(nodes: set<nat>, es: seq<Edge>, seen: set<nat>, id: nat)
    requires seen <= nodes && id in nodes
    ensures Classes'(nodes, es, seen + {id}) == Classes'(nodes, es, seen) + {Class(nodes, es, id)}
    ensures Union(nodes, es, seen + {id}) == Union(nodes, es, seen) + Class(nodes, es, id)
    ensures id in Union(nodes, es, seen) <==> Class(nodes, es, id) in Classes'(nodes, es, seen)
    ensures id in Union(nodes, es, seen) ==> Class(nodes, es, id) <= Union(nodes, es, seen)
  {
    hide Connected;
    Reflexive(es, id);
    forall u | u in seen ensures id in Class(nodes, es, u) <==> Class(nodes, es, u) == Class(nodes, es, id) {
      ClassEq(nodes, es, u, id);
    }
    assert id in Class(nodes, es, id);
    forall v | v in nodes
      ensures InUnion(nodes, es, seen + {id}, v) <==> InUnion(nodes, es, seen, v) || v in Class(nodes, es, id)
    {
      if v in Class(nodes, es, id) {
        assert id in seen + {id};
      }
      if InUnion(nodes, es, seen, v) {
        var u :| u in seen && v in Class(nodes, es, u);
        assert u in seen + {id};
      }
    }
    if InUnion(nodes, es, seen, id) {
      var u :| u in seen && id in Class(nodes, es, u);
      assert Class(nodes, es, u) == Class(nodes, es, id);
      forall v | v in Class(nodes, es, id) ensures InUnion(nodes, es, seen, v) {}
    }
  }

  /** What has been visited before is closed under adjacency. */
  lemma UnionClosed(nodes: set<nat>, es: seq<Edge>, seen: set<nat>)
    requires EdgesWithin(nodes, es)
    ensures forall u, v :: u in Union(nodes, es, seen) && Adjacent(es, u, v) ==> v in Union(nodes, es, seen)
  {
    hide Connected;
    forall u, v | u in Union(nodes, es, seen) && Adjacent(es, u, v) ensures v in Union(nodes, es, seen) {
      var w :| w in seen && u in Class(nodes, es, w);
      NeighbourInClass(nodes, es, w, u, v);
    }
  }

  lemma NeighbourInClass(nodes: set<nat>, es: seq<Edge>, id: nat, u: nat, v: nat)
    requires EdgesWithin(nodes, es) && u in Class(nodes, es, id) && Adjacent(es, u, v)
    ensures v in Class(nodes, es, id)
  {
    hide Connected;
    Neighbours(es, u, v);
    Transitive(es, id, u, v);
  }
}
