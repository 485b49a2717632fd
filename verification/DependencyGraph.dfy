/** The graph of dependencies between rules, and its topological sort. */
module DependencyGraph {
  import opened Syntax

  type Edges<T> = map<T, set<T>>

  function Dependencies<T(==)>(adj: Edges<T>, u: T): set<T> {
    if u in adj then adj[u] else {}
  }

  ghost predicate Edge<T>(adj: Edges<T>, u: T, v: T) {
    v in Dependencies(adj, u)
  }

  ghost predicate Within<T(!new)>(nodes: set<T>, adj: Edges<T>) {
    forall u, v | Edge(adj, u, v) :: u in nodes && v in nodes
  }

  // Paths and cycles.

  ghost predicate IsPath<T>(adj: Edges<T>, p: seq<T>) {
    forall i | 0 <= i < |p| - 1 :: Edge(adj, p[i], p[i + 1])
  }

  ghost predicate IsCycle<T>(adj: Edges<T>, p: seq<T>) {
    |p| >= 2 && IsPath(adj, p) && p[0] == p[|p| - 1]
  }

  ghost predicate Acyclic<T(!new)>(adj: Edges<T>) {
    forall p: seq<T> :: !IsCycle(adj, p)
  }

  // Orders.

  ghost predicate Distinct<T>(s: seq<T>) {
    forall i, j | 0 <= i < j < |s| :: s[i] != s[j]
  }

  /** Every listed node comes after all it depends on. */
  ghost predicate Grounded<T(!new)>(adj: Edges<T>, s: seq<T>) {
    forall i | 0 <= i < |s| :: forall v | Edge(adj, s[i], v) :: v in s[..i]
  }

  /** The nodes, each once, dependencies before dependents. */
  ghost predicate Topological<T(!new)>(nodes: set<T>, adj: Edges<T>, s: seq<T>) {
    Distinct(s) && Grounded(adj, s) && (forall x | x in nodes :: x in s) && (forall x | x in s :: x in nodes)
  }

  lemma {:induction false} PathDescends<T(!new)>(adj: Edges<T>, s: seq<T>, p: seq<T>, i: nat, k: nat) returns (l: nat)
    requires Grounded(adj, s) && IsPath(adj, p) && i < |p| && k < |s| && p[0] == s[k]
    ensures l <= k && s[l] == p[i] && (i > 0 ==> l < k)
  {
    if i == 0 {
      l := k;
    } else {
      var m := PathDescends(adj, s, p, i - 1, k);
      assert Edge(adj, p[i - 1], p[i - 1 + 1]);
      l :| 0 <= l < m && s[l] == p[i];
    }
  }

  /** A graph that can be listed in order has no cycle. */
  lemma {:induction false} OrderedMeansAcyclic<T(!new)>(nodes: set<T>, adj: Edges<T>, s: seq<T>)
    requires Within(nodes, adj) && Topological(nodes, adj, s)
    ensures Acyclic(adj)
  {
    forall p: seq<T> ensures !IsCycle(adj, p) {
      if IsCycle(adj, p) {
        assert Edge(adj, p[0], p[0 + 1]);
        var k :| 0 <= k < |s| && s[k] == p[0];
        var l := PathDescends(adj, s, p, |p| - 1, k);
      }
    }
  }

  lemma {:induction false} CycleFound<T>(adj: Edges<T>, stack: seq<T>, node: T)
    requires IsPath(adj, stack + [node]) && node in stack
    ensures exists p: seq<T> :: IsCycle(adj, p)
  {
    var k :| 0 <= k < |stack| && stack[k] == node;
    var all := stack + [node];
    var p := all[k..];
    forall i | 0 <= i < |p| - 1 ensures Edge(adj, p[i], p[i + 1]) {
      assert Edge(adj, all[k + i], all[k + i + 1]);
    }
    assert IsCycle(adj, p);
  }

  lemma {:induction false} PathSnoc<T>(adj: Edges<T>, stack: seq<T>, node: T, other: T)
    requires IsPath(adj, stack + [node]) && Edge(adj, node, other)
    ensures IsPath(adj, stack + [node] + [other])
  {
  }

  class GraphSort<T(==, !new)> {
    const adj: Edges<T>
    ghost const nodes: set<T>
    var sorted: seq<T>
    var marked: set<T>
    var temp: set<T>

    constructor (adj: Edges<T>, ghost nodes: set<T>)
      ensures this.adj == adj && this.nodes == nodes && sorted == [] && marked == {} && temp == {}
    {
      this.adj, this.nodes := adj, nodes;
      sorted, marked, temp := [], {}, {};
    }

    /** Finished nodes are listed in order; unfinished ones form a path. */
    ghost predicate Valid(stack: seq<T>)
      reads this
    {
      && Within(nodes, adj)
      && Distinct(sorted) && Grounded(adj, sorted)
      && marked <= nodes && (forall x :: x in marked <==> x in sorted)
      && temp <= nodes && temp !! marked && (forall x :: x in temp <==> x in stack)
    }

    method Visit(node: T, ghost stack: seq<T>) returns (ok: bool)
      requires Valid(stack) && node in nodes && IsPath(adj, stack + [node])
      modifies this
      ensures ok ==> Valid(stack) && temp == old(temp) && old(marked) <= marked && node in marked
      ensures !ok ==> !Acyclic(adj)
      decreases |nodes - temp|
    {
      if node in temp {
        CycleFound(adj, stack, node);
        return false;
      }
      if node in marked {
        return true;
      }
      ghost var before := temp;
      temp := temp + {node};
      ghost var deeper := stack + [node];
      assert nodes - temp < nodes - before;
      SmallerSet(nodes - temp, nodes - before);
      var todo := Dependencies(adj, node);
      while todo != {}
        invariant todo <= Dependencies(adj, node)
        invariant Valid(deeper) && temp == before + {node} && old(marked) <= marked
        invariant forall v | v in Dependencies(adj, node) - todo :: v in marked
        decreases todo
      {
        var other :| other in todo;
        todo := todo - {other};
        assert Edge(adj, node, other);
        PathSnoc(adj, stack, node, other);
        ok := Visit(other, deeper);
        if !ok {
          return;
        }
      }
      GroundedSnoc(adj, sorted, node);
      marked := marked + {node};
      temp := temp - {node};
      sorted := sorted + [node];
      assert temp == before;
      return true;
    }
  }

  lemma {:induction false} SmallerSet<T>(a: set<T>, b: set<T>)
    requires a < b
    ensures |a| < |b|
  {
    assert b == a + (b - a);
  }

  lemma {:induction false} GroundedSnoc<T(!new)>(adj: Edges<T>, s: seq<T>, x: T)
    requires Distinct(s) && Grounded(adj, s) && x !in s && forall v | Edge(adj, x, v) :: v in s
    ensures Distinct(s + [x]) && Grounded(adj, s + [x])
  {
    var t := s + [x];
    forall i | 0 <= i < |t| ensures forall v | Edge(adj, t[i], v) :: v in t[..i] {
      assert t[..i] == s[..i];
      if i < |s| { assert t[i] == s[i]; } else { assert s[..i] == s; }
    }
  }

  lemma {:induction false} NewEdge<T(!new)>(adj: Edges<T>, u: T, v: T)
    ensures forall x, y :: Edge(adj[u := Dependencies(adj, u) + {v}], x, y) <==> Edge(adj, x, y) || (x == u && y == v)
  {
  }

  class Graph<T(==, !new)> {
    var nodes: set<T>
    var adj: Edges<T>
    var radj: Edges<T>
    var sorted: Option<seq<T>>

    ghost predicate Valid()
      reads this
    {
      && Within(nodes, adj)
      && (forall u, v :: Edge(radj, v, u) <==> Edge(adj, u, v))
      && (sorted.Some? ==> Topological(nodes, adj, sorted.value))
    }

    constructor ()
      ensures Valid() && nodes == {} && adj == map[] && sorted == None
    {
      nodes, adj, radj, sorted := {}, map[], map[], None;
    }

    method AddNode(n: T)
      modifies `nodes
      ensures nodes == old(nodes) + {n}
      ensures old(Valid()) && sorted == None ==> Valid()
    {
      nodes := nodes + {n};
    }

    /** Adds an edge and its reverse. A sort made before is not forgotten, so none may have been made. */
    method AddDependency(u: T, v: T)
      modifies `nodes, `adj, `radj
      ensures nodes == old(nodes) + {u, v}
      ensures forall x, y :: Edge(adj, x, y) <==> Edge(old(adj), x, y) || (x == u && y == v)
      ensures old(Valid()) && sorted == None ==> Valid()
    {
      if u !in nodes {
        AddNode(u);
      }
      if v !in nodes {
        AddNode(v);
      }
      NewEdge(adj, u, v);
      NewEdge(radj, v, u);
      adj := adj[u := Dependencies(adj, u) + {v}];
      radj := radj[v := Dependencies(radj, v) + {u}];
    }

    /** Succeeds exactly when there is no cycle, and then lists dependencies before dependents. */
    method Sort() returns (r: Option<seq<T>>)
      requires Valid()
      modifies `sorted
      ensures Valid()
      ensures r.Some? <==> Acyclic(adj)
      ensures r.Some? ==> Topological(nodes, adj, r.value) && sorted == r
      ensures r.None? ==> sorted == old(sorted)
    {
      if sorted.Some? {
        OrderedMeansAcyclic(nodes, adj, sorted.value);
        return sorted;
      }
      var sorter := new GraphSort(adj, nodes);
      var todo := nodes;
      while todo != {}
        invariant sorter.adj == adj && sorter.nodes == nodes && fresh(sorter) && sorter.Valid([]) && todo <= nodes
        invariant forall x | x in nodes - todo :: x in sorter.marked
        invariant sorted == None
        decreases todo
      {
        var node :| node in todo;
        todo := todo - {node};
        var ok := sorter.Visit(node, []);
        if !ok {
          return None;
        }
      }
      OrderedMeansAcyclic(nodes, adj, sorter.sorted);
      sorted := Some(sorter.sorted);
      return sorted;
    }
  }
}
