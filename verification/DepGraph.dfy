// The dependency graph of cascading views (include/dbsp_cdc.hpp).
module DepGraph {
  datatype Name = Name(text: string)
  type Edges = map<Name, set<Name>>

  function Out(e: Edges, n: Name): set<Name> {
    if n in e then e[n] else {}
  }

  // ---- paths ----

  predicate IsPath(e: Edges, p: seq<Name>) {
    |p| >= 2 && forall i :: 0 <= i < |p| - 1 ==> p[i + 1] in Out(e, p[i])
  }

  // There is a path of at least one edge from a to b.
  ghost predicate Reach(e: Edges, a: Name, b: Name) {
    exists p :: IsPath(e, p) && p[0] == a && p[|p| - 1] == b
  }

  ghost predicate Acyclic(e: Edges) {
    forall n :: !Reach(e, n, n)
  }

  lemma ReachEdge(e: Edges, a: Name, b: Name)
    requires b in Out(e, a)
    ensures Reach(e, a, b)
  {
    assert IsPath(e, [a, b]);
  }

  lemma ReachStep(e: Edges, a: Name, b: Name, c: Name)
    requires Reach(e, a, b) && c in Out(e, b)
    ensures Reach(e, a, c)
  {
    var p :| IsPath(e, p) && p[0] == a && p[|p| - 1] == b;
    assert IsPath(e, p + [c]) && (p + [c])[0] == a && (p + [c])[|p + [c]| - 1] == c;
  }

  // Whatever is closed under edges and holds the successors of a holds all
  // that a reaches.
  lemma {:induction false} ClosedUnderPath(e: Edges, s: set<Name>, p: seq<Name>)
    requires IsPath(e, p) && Out(e, p[0]) <= s
    requires forall n :: n in s ==> Out(e, n) <= s
    ensures p[|p| - 1] in s
  {
    if |p| > 2 {
      assert IsPath(e, p[1..]);
      assert p[1] in Out(e, p[0]);
      ClosedUnderPath(e, s, p[1..]);
    } else {
      assert p[1] in Out(e, p[0]);
    }
  }

  function Targets(e: Edges): set<Name> {
    set k, x | k in e && x in e[k] :: x
  }

  function Elements(s: seq<Name>): set<Name> {
    set x | x in s
  }

  predicate NoDuplicates(s: seq<Name>) {
    forall i, j :: 0 <= i < j < |s| ==> s[i] != s[j]
  }

  lemma ElementsAppend(s: seq<Name>, n: Name)
    ensures Elements(s + [n]) == Elements(s) + {n}
  {
  }

  // Push a set of nodes onto a queue, in some order.
  method Enqueue(queue0: seq<Name>, nodes: set<Name>) returns (queue: seq<Name>)
    ensures Elements(queue) == Elements(queue0) + nodes
    ensures NoDuplicates(queue0) && Elements(queue0) !! nodes ==> NoDuplicates(queue)
  {
    queue := queue0;
    var todo := nodes;
    while todo != {}
      invariant todo <= nodes
      invariant Elements(queue) == Elements(queue0) + (nodes - todo)
      invariant NoDuplicates(queue0) && Elements(queue0) !! nodes ==> NoDuplicates(queue)
      decreases todo
    {
      var n :| n in todo;
      todo := todo - {n};
      assert n !in Elements(queue) || n in Elements(queue0);
      ElementsAppend(queue, n);
      queue := queue + [n];
    }
  }

  // get_all_dependents: breadth-first search over the dependents edges.
  method AllDependents(e: Edges, node: Name) returns (result: seq<Name>)
    ensures NoDuplicates(result)
    ensures forall x :: x in result <==> Reach(e, node, x)
  {
    result := [];
    var visited: set<Name> := {};
    var queue := Enqueue([], Out(e, node));
    forall x | x in queue ensures Reach(e, node, x) && x in Targets(e) {
      assert x in Elements(queue);
      ReachEdge(e, node, x);
    }
    while queue != []
      invariant NoDuplicates(result) && Elements(result) == visited
      invariant forall x :: x in visited || x in queue ==> Reach(e, node, x) && x in Targets(e)
      invariant Out(e, node) <= visited + Elements(queue)
      invariant forall n :: n in visited ==> Out(e, n) <= visited + Elements(queue)
      decreases Targets(e) - visited, |queue|
    {
      var current := queue[0];
      ghost var before := queue;
      queue := queue[1..];
      assert Elements(before) == {current} + Elements(queue);
      if current in visited {
        continue;
      }
      visited := visited + {current};
      result := result + [current];
      ghost var rest := queue;
      queue := Enqueue(queue, Out(e, current) - visited);
      forall x | x in queue ensures Reach(e, node, x) && x in Targets(e) {
        assert x in Elements(queue);
        if x in Out(e, current) {
          ReachStep(e, node, current, x);
        } else {
          assert x in Elements(rest);
        }
      }
    }
    forall x | Reach(e, node, x) ensures x in result {
      var p :| IsPath(e, p) && p[0] == node && p[|p| - 1] == x;
      ClosedUnderPath(e, visited, p);
      assert x in Elements(result);
    }
    forall x | x in result ensures Reach(e, node, x) {
      assert x in Elements(result);
    }
  }

  // would_create_cycle: is the dependency reachable from the dependent?
  method WouldCreateCycle(e: Edges, dependent: Name, dependency: Name) returns (cycle: bool)
    ensures cycle <==> dependent == dependency || Reach(e, dependent, dependency)
  {
    var visited: set<Name> := {};
    var queue := [dependent];
    var all := Targets(e) + {dependent};
    while queue != []
      invariant forall x :: x in visited || x in queue ==> (x == dependent || Reach(e, dependent, x)) && x in all
      invariant dependent in visited || dependent in queue
      invariant forall n :: n in visited ==> n != dependency && Out(e, n) <= visited + Elements(queue)
      decreases all - visited, |queue|
    {
      var current := queue[0];
      ghost var before := queue;
      queue := queue[1..];
      assert Elements(before) == {current} + Elements(queue);
      if current == dependency {
        return true;
      }
      if current in visited {
        continue;
      }
      visited := visited + {current};
      ghost var rest := queue;
      queue := Enqueue(queue, Out(e, current));
      forall x | x in queue ensures (x == dependent || Reach(e, dependent, x)) && x in all {
        assert x in Elements(queue);
        if x in Out(e, current) {
          if current == dependent {
            ReachEdge(e, dependent, x);
          } else {
            ReachStep(e, dependent, current, x);
          }
        } else {
          assert x in Elements(rest);
        }
      }
    }
    if Reach(e, dependent, dependency) {
      var p :| IsPath(e, p) && p[0] == dependent && p[|p| - 1] == dependency;
      ClosedUnderPath(e, visited, p);
    }
    return false;
  }

  // ---- adding an edge ----

  function WithEdge(e: Edges, from: Name, to: Name): (r: Edges)
    ensures forall n {:trigger Out(r, n)} :: Out(r, n) == if n == from then Out(e, n) + {to} else Out(e, n)
  {
    e[from := Out(e, from) + {to}]
  }

  // A path through the new edge starts with a way to `from` and ends with a
  // way from `to`, both in the old graph.
  lemma {:induction false} PathThroughEdge(e: Edges, from: Name, to: Name, p: seq<Name>)
    requires IsPath(WithEdge(e, from, to), p) && !IsPath(e, p)
    ensures p[0] == from || Reach(e, p[0], from)
    ensures p[|p| - 1] == to || Reach(e, to, p[|p| - 1])
  {
    var n := |p| - 1;
    if n > 1 {
      assert IsPath(WithEdge(e, from, to), p[..n]);
      if IsPath(e, p[..n]) {
        assert p[n - 1] == from && p[n] == to;
        assert p[..n][0] == p[0] && p[..n][n - 1] == from;
      } else {
        PathThroughEdge(e, from, to, p[..n]);
        if p[n] in Out(e, p[n - 1]) {
          if p[n - 1] == to {
            ReachEdge(e, to, p[n]);
          } else {
            ReachStep(e, to, p[n - 1], p[n]);
          }
        }
      }
    }
  }

  lemma ReachTransitive(e: Edges, a: Name, b: Name, c: Name)
    requires Reach(e, a, b) && Reach(e, b, c)
    ensures Reach(e, a, c)
  {
    var p :| IsPath(e, p) && p[0] == a && p[|p| - 1] == b;
    var q :| IsPath(e, q) && q[0] == b && q[|q| - 1] == c;
    var r := p + q[1..];
    assert r[0] == a && r[|r| - 1] == c;
    assert IsPath(e, r);
  }

  // The guard of create_view keeps the graph acyclic.
  lemma GuardedEdgeKeepsAcyclic(e: Edges, from: Name, to: Name)
    requires Acyclic(e) && from != to && !Reach(e, to, from)
    ensures Acyclic(WithEdge(e, from, to))
  {
    forall n ensures !Reach(WithEdge(e, from, to), n, n) {
      if Reach(WithEdge(e, from, to), n, n) {
        var p :| IsPath(WithEdge(e, from, to), p) && p[0] == n && p[|p| - 1] == n;
        CycleThroughEdge(e, from, to, p);
      }
    }
  }

  lemma CycleThroughEdge(e: Edges, from: Name, to: Name, p: seq<Name>)
    requires IsPath(WithEdge(e, from, to), p) && p[0] == p[|p| - 1]
    ensures Reach(e, p[0], p[0]) || from == to || Reach(e, to, from)
  {
    if !IsPath(e, p) {
      PathThroughEdge(e, from, to, p);
      if p[0] != to && p[0] != from {
        ReachTransitive(e, to, p[0], from);
      }
    }
  }

  // Without the guard the new edge closes a cycle.
  lemma UnguardedEdgeMakesCycle(e: Edges, from: Name, to: Name)
    requires from == to || Reach(e, to, from)
    ensures !Acyclic(WithEdge(e, from, to))
  {
    var f := WithEdge(e, from, to);
    assert to in Out(f, from);
    if from == to {
      ReachEdge(f, from, from);
    } else {
      var p :| IsPath(e, p) && p[0] == to && p[|p| - 1] == from;
      assert IsPath(f, p);
      ReachStep(f, to, from, to);
    }
  }

  // Several edges into the same new node do not disturb each other's guards.
  lemma GuardSurvives(e: Edges, from: Name, to: Name, x: Name)
    requires !Reach(e, to, x) && x != to
    ensures !Reach(WithEdge(e, from, to), to, x)
  {
    if Reach(WithEdge(e, from, to), to, x) {
      var p :| IsPath(WithEdge(e, from, to), p) && p[0] == to && p[|p| - 1] == x;
      assert !IsPath(e, p);
      PathThroughEdge(e, from, to, p);
    }
  }

  lemma GuardsSurvive(e: Edges, from: Name, to: Name, sources: seq<Name>)
    requires forall s :: s in sources ==> s != to && !Reach(e, to, s)
    ensures forall s :: s in sources ==> s != to && !Reach(WithEdge(e, from, to), to, s)
  {
    forall s | s in sources ensures !Reach(WithEdge(e, from, to), to, s) {
      GuardSurvives(e, from, to, s);
    }
  }

  // ---- both edge maps ----

  datatype Graph = Graph(dependencies: Edges, dependents: Edges)

  ghost predicate Inverse(g: Graph) {
    forall a, b {:trigger b in Out(g.dependencies, a)} {:trigger a in Out(g.dependents, b)} ::
      b in Out(g.dependencies, a) <==> a in Out(g.dependents, b)
  }

  predicate DependsOn(g: Graph, dependent: Name, dependency: Name) {
    dependency in Out(g.dependencies, dependent)
  }

  function AddDependency(g: Graph, dependent: Name, dependency: Name): (r: Graph)
    ensures Inverse(g) ==> Inverse(r)
    ensures forall a, b {:trigger DependsOn(r, a, b)} ::
              DependsOn(r, a, b) <==> DependsOn(g, a, b) || (a == dependent && b == dependency)
  {
    Graph(WithEdge(g.dependencies, dependent, dependency), WithEdge(g.dependents, dependency, dependent))
  }

  // Remove one node from the edge sets of some others.
  method EraseFrom(e: Edges, nodes: set<Name>, node: Name) returns (r: Edges)
    ensures forall n :: Out(r, n) == if n in nodes then Out(e, n) - {node} else Out(e, n)
  {
    r := e;
    var todo := nodes;
    while todo != {}
      invariant todo <= nodes
      invariant forall n :: Out(r, n) == if n in nodes && n !in todo then Out(e, n) - {node} else Out(e, n)
      decreases todo
    {
      var n :| n in todo;
      todo := todo - {n};
      ghost var was := r;
      r := r[n := Out(r, n) - {node}];
      assert forall m :: m != n ==> Out(r, m) == Out(was, m);
    }
  }

  // Every edge at `node` is gone, every other one is kept.
  ghost predicate Removed(g: Graph, r: Graph, node: Name) {
    && (forall n :: Out(r.dependencies, n) == if n == node then {} else Out(g.dependencies, n) - {node})
    && (forall n :: Out(r.dependents, n) == if n == node then {} else Out(g.dependents, n) - {node})
  }

  // The edges out of n after the dependents of `node` have dropped it...
  lemma DependenciesLeft(g: Graph, node: Name, n: Name, asked: set<Name>, before: set<Name>, after: set<Name>)
    requires Inverse(g)
    requires asked == if node in Out(g.dependencies, node) then Out(g.dependents, node) - {node} else Out(g.dependents, node)
    requires before == if n == node then {} else Out(g.dependencies, n)
    requires after == if n in asked then before - {node} else before
    ensures after == if n == node then {} else Out(g.dependencies, n) - {node}
  {
    if n != node && n !in asked {
      assert n !in Out(g.dependents, node);
      assert node !in Out(g.dependencies, n);
    }
  }

  // ... and after its dependencies have.
  lemma DependentsLeft(g: Graph, node: Name, n: Name, before: set<Name>, after: set<Name>)
    requires Inverse(g)
    requires before == if n in Out(g.dependencies, node) then Out(g.dependents, n) - {node} else Out(g.dependents, n)
    requires after == if n == node then {} else before
    ensures after == if n == node then {} else Out(g.dependents, n) - {node}
  {
    if n !in Out(g.dependencies, node) {
      assert node !in Out(g.dependents, n);
    }
  }

  method RemoveNode(g: Graph, node: Name) returns (r: Graph)
    requires Inverse(g)
    ensures Removed(g, r, node)
  {
    var dependents1 := EraseFrom(g.dependents, Out(g.dependencies, node), node);
    var dependencies1 := g.dependencies - {node};
    var dependencies2 := EraseFrom(dependencies1, Out(dependents1, node), node);
    var dependents2 := dependents1 - {node};
    r := Graph(dependencies2, dependents2);
    forall n ensures Out(dependencies2, n) == if n == node then {} else Out(g.dependencies, n) - {node} {
      DependenciesLeft(g, node, n, Out(dependents1, node), Out(dependencies1, n), Out(dependencies2, n));
    }
    forall n ensures Out(dependents2, n) == if n == node then {} else Out(g.dependents, n) - {node} {
      DependentsLeft(g, node, n, Out(dependents1, n), Out(dependents2, n));
    }
  }

  lemma RemovedKeeps(g: Graph, r: Graph, node: Name)
    requires Inverse(g) && Removed(g, r, node)
    ensures Inverse(r)
    ensures forall a, b {:trigger DependsOn(r, a, b)} :: DependsOn(r, a, b) <==> DependsOn(g, a, b) && a != node && b != node
  {
  }

  lemma FewerEdgesStayAcyclic(g: Graph, next: Graph)
    requires Inverse(g) && Inverse(next) && Acyclic(g.dependents)
    requires forall a, b {:trigger DependsOn(next, a, b)} :: DependsOn(next, a, b) ==> DependsOn(g, a, b)
    ensures Acyclic(next.dependents)
  {
    forall n ensures !Reach(next.dependents, n, n) {
      if Reach(next.dependents, n, n) {
        forall a, b | b in Out(next.dependents, a) ensures b in Out(g.dependents, a) {
          assert DependsOn(next, b, a);
          assert DependsOn(g, b, a);
        }
        ReachMonotone(next.dependents, g.dependents, n, n);
      }
    }
  }

  lemma ReachMonotone(e: Edges, f: Edges, a: Name, b: Name)
    requires forall x, y :: y in Out(e, x) ==> y in Out(f, x)
    requires Reach(e, a, b)
    ensures Reach(f, a, b)
  {
    var p :| IsPath(e, p) && p[0] == a && p[|p| - 1] == b;
    assert IsPath(f, p);
  }

  lemma EmptyAcyclic()
    ensures Acyclic(map[])
  {
    forall p: seq<Name> ensures !IsPath(map[], p) {
      if |p| >= 2 {
        assert p[0 + 1] !in Out(map[], p[0]);
      }
    }
  }
}

// The state of the topological sort.
module KahnState {
  import opened DepGraph

  // The union of the sources' dependent cones, sources left out.
  ghost predicate InCone(e: Edges, changed: seq<Name>, x: Name) {
    x !in changed && exists c :: c in changed && Reach(e, c, x)
  }

  // Dependencies of n inside the affected set that are not listed yet.
  function Waiting(g: Graph, affected: set<Name>, done: set<Name>, n: Name): set<Name> {
    set d | d in Out(g.dependencies, n) && d in affected && d !in done
  }

  // Every listed node has all its affected dependencies listed before it.
  ghost predicate Ordered(g: Graph, affected: set<Name>, result: seq<Name>) {
    forall i {:trigger result[i]} :: 0 <= i < |result| ==> Waiting(g, affected, Elements(result[..i]), result[i]) == {}
  }

  lemma OrderedAppend(g: Graph, affected: set<Name>, result: seq<Name>, n: Name)
    requires Ordered(g, affected, result) && Waiting(g, affected, Elements(result), n) == {}
    ensures Ordered(g, affected, result + [n])
  {
    var next := result + [n];
    forall i | 0 <= i < |next| ensures Waiting(g, affected, Elements(next[..i]), next[i]) == {} {
      assert next[..i] == result[..i];
      if i == |result| {
        assert result[..i] == result;
      } else {
        assert next[i] == result[i];
      }
    }
  }

  ghost predicate DegreesTrue(g: Graph, affected: set<Name>, done: set<Name>, degree: map<Name, int>) {
    && degree.Keys == affected
    && forall n :: n in affected ==> degree[n] == |Waiting(g, affected, done, n)|
  }

  // Listed and queued nodes are exactly those that wait for nothing.
  ghost predicate QueueTrue(degree: map<Name, int>, result: seq<Name>, queue: seq<Name>) {
    && NoDuplicates(result + queue)
    && forall n :: n in result + queue <==> n in degree && degree[n] == 0
  }

  lemma RelaxedNode(g: Graph, affected: set<Name>, done: set<Name>, current: Name, n: Name)
    requires Inverse(g) && current in affected && current !in done
    ensures |Waiting(g, affected, done + {current}, n)|
         == |Waiting(g, affected, done, n)| - (if n in Out(g.dependents, current) then 1 else 0)
  {
    if n in Out(g.dependents, current) {
      WaitingShrinks(g, affected, done, current, n);
    } else {
      assert current !in Out(g.dependencies, n);
      assert Waiting(g, affected, done + {current}, n) == Waiting(g, affected, done, n);
    }
  }

  lemma RelaxDone(g: Graph, affected: set<Name>, done: set<Name>, current: Name, degree: map<Name, int>)
    requires Inverse(g) && HalfRelaxed(g, affected, done, current, degree, {})
    requires current in affected && current !in done
    ensures DegreesTrue(g, affected, done + {current}, degree)
  {
    forall n | n in affected ensures degree[n] == |Waiting(g, affected, done + {current}, n)| {
      RelaxedNode(g, affected, done, current, n);
    }
  }

  // The dependents of `current` outside `todo` have been lowered.
  ghost predicate HalfRelaxed(g: Graph, affected: set<Name>, done: set<Name>, current: Name,
                              degree: map<Name, int>, todo: set<Name>)
  {
    && degree.Keys == affected
    && forall n :: n in affected ==> degree[n] == Half(g, affected, done, current, todo, n)
  }

  function Half(g: Graph, affected: set<Name>, done: set<Name>, current: Name, todo: set<Name>, n: Name): int {
    |Waiting(g, affected, done, n)| - (if n in Out(g.dependents, current) && n !in todo then 1 else 0)
  }

  lemma RelaxOne(g: Graph, affected: set<Name>, done: set<Name>, current: Name, degree: map<Name, int>, todo: set<Name>,
                 n: Name, rest: set<Name>)
    requires HalfRelaxed(g, affected, done, current, degree, todo)
    requires n in todo && rest == todo - {n} && n in Out(g.dependents, current)
    ensures n !in affected ==> HalfRelaxed(g, affected, done, current, degree, rest)
    ensures n in affected ==> HalfRelaxed(g, affected, done, current, degree[n := degree[n] - 1], rest)
  {
    forall m | m in affected && m != n
      ensures Half(g, affected, done, current, rest, m) == Half(g, affected, done, current, todo, m)
    {
      assert m in rest <==> m in todo;
    }
  }

  lemma QueueStep(degree: map<Name, int>, n: Name, result: seq<Name>, queue: seq<Name>)
    requires n in degree && degree[n] >= 1
    requires QueueTrue(degree, result, queue)
    ensures QueueTrue(degree[n := degree[n] - 1], result, if degree[n] == 1 then queue + [n] else queue)
  {
    if degree[n] == 1 {
      assert n !in result + queue;
      assert result + (queue + [n]) == (result + queue) + [n];
    }
  }

  lemma WaitingShrinks(g: Graph, affected: set<Name>, done: set<Name>, current: Name, n: Name)
    requires Inverse(g) && n in Out(g.dependents, current) && current in affected && current !in done
    ensures |Waiting(g, affected, done + {current}, n)| == |Waiting(g, affected, done, n)| - 1
  {
    assert current in Out(g.dependencies, n);
    assert Waiting(g, affected, done + {current}, n) == Waiting(g, affected, done, n) - {current};
  }

  // A non-empty finite set whose members all wait for members contains a cycle.
  lemma {:induction false} Pigeonhole(p: seq<Name>, s: set<Name>)
    requires Elements(p) <= s && |p| > |s|
    ensures !NoDuplicates(p)
  {
    if NoDuplicates(p) {
      DistinctLength(p);
      SubsetSize(Elements(p), s);
    }
  }

  lemma {:induction false} DistinctLength(p: seq<Name>)
    requires NoDuplicates(p)
    ensures |Elements(p)| == |p|
  {
    if p != [] {
      var q := p[..|p| - 1];
      DistinctLength(q);
      assert p == q + [p[|p| - 1]];
      ElementsAppend(q, p[|p| - 1]);
    }
  }

  lemma {:induction false} SubsetSize(a: set<Name>, b: set<Name>)
    requires a <= b
    ensures |a| <= |b|
  {
    assert b == a + (b - a);
  }

  // Every member of s has a dependency in s.
  ghost predicate Blocked(g: Graph, s: set<Name>) {
    forall x {:trigger HasDependencyIn(g, s, x)} :: x in s ==> HasDependencyIn(g, s, x)
  }

  ghost predicate HasDependencyIn(g: Graph, s: set<Name>, x: Name) {
    exists d :: d in s && DependsOn(g, x, d)
  }

  lemma {:induction false} LongPath(g: Graph, s: set<Name>, n: nat) returns (p: seq<Name>)
    requires Inverse(g) && s != {} && Blocked(g, s)
    ensures |p| == n + 1 && p[0] in s && Elements(p) <= s && (n > 0 ==> IsPath(g.dependents, p))
  {
    if n == 0 {
      var x :| x in s;
      p := [x];
    } else {
      var q := LongPath(g, s, n - 1);
      assert HasDependencyIn(g, s, q[0]);
      var d :| d in s && DependsOn(g, q[0], d);
      p := [d] + q;
      PrependPath(g.dependents, d, q);
      assert Elements(p) == {d} + Elements(q);
    }
  }

  lemma PrependPath(e: Edges, d: Name, q: seq<Name>)
    requires q != [] && q[0] in Out(e, d) && (|q| >= 2 ==> IsPath(e, q))
    ensures IsPath(e, [d] + q)
  {
  }

  lemma WaitingForEachOtherIsACycle(g: Graph, s: set<Name>)
    requires Inverse(g) && s != {} && Blocked(g, s)
    ensures !Acyclic(g.dependents)
  {
    SubsetSize({}, s);
    var p := LongPath(g, s, |s|);
    Pigeonhole(p, s);
    var i, j :| 0 <= i < j < |p| && p[i] == p[j];
    SubPath(g.dependents, p, i, j);
  }

  lemma SubPath(e: Edges, p: seq<Name>, i: nat, j: nat)
    requires IsPath(e, p) && i < j < |p|
    ensures Reach(e, p[i], p[j])
  {
    var c := p[i..j + 1];
    assert IsPath(e, c) && c[0] == p[i] && c[|c| - 1] == p[j];
  }

  lemma QueueAdvances(degree: map<Name, int>, result: seq<Name>, queue: seq<Name>)
    requires queue != [] && QueueTrue(degree, result, queue)
    ensures queue[0] in degree && degree[queue[0]] == 0 && queue[0] !in result
    ensures QueueTrue(degree, result + [queue[0]], queue[1..])
  {
    assert (result + [queue[0]]) + queue[1..] == result + queue;
    assert (result + queue)[|result|] == queue[0];
    forall i | 0 <= i < |result| ensures result[i] != queue[0] {
      assert (result + queue)[i] == result[i];
    }
  }

  lemma KahnStep(g: Graph, affected: set<Name>, degree: map<Name, int>, result: seq<Name>, queue: seq<Name>)
    requires queue != [] && Ordered(g, affected, result)
    requires DegreesTrue(g, affected, Elements(result), degree) && QueueTrue(degree, result, queue)
    ensures queue[0] in affected && queue[0] !in Elements(result)
    ensures Elements(result + [queue[0]]) == Elements(result) + {queue[0]}
    ensures Ordered(g, affected, result + [queue[0]])
    ensures NoDuplicates(result) ==> NoDuplicates(result + [queue[0]])
    ensures QueueTrue(degree, result + [queue[0]], queue[1..])
  {
    QueueAdvances(degree, result, queue);
    ElementsAppend(result, queue[0]);
    OrderedAppend(g, affected, result, queue[0]);
  }

  // The queue starts with the nodes that wait for nothing.
  lemma QueueStarts(degree: map<Name, int>, queue: seq<Name>)
    requires NoDuplicates(queue) && Elements(queue) == set n | n in degree && degree[n] == 0
    ensures QueueTrue(degree, [], queue)
  {
    assert [] + queue == queue;
    forall n ensures n in queue <==> n in degree && degree[n] == 0 {
      assert n in queue <==> n in Elements(queue);
    }
  }

  lemma UnlistedWaits(g: Graph, affected: set<Name>, degree: map<Name, int>, result: seq<Name>, x: Name)
    requires DegreesTrue(g, affected, Elements(result), degree) && QueueTrue(degree, result, [])
    requires x in affected - Elements(result)
    ensures HasDependencyIn(g, affected - Elements(result), x)
  {
    assert x !in result + [];
    assert Waiting(g, affected, Elements(result), x) != {};
    var d :| d in Waiting(g, affected, Elements(result), x);
    assert d in affected - Elements(result) && DependsOn(g, x, d);
  }

  // With an empty queue every unlisted node waits for an unlisted one.
  lemma KahnComplete(g: Graph, affected: set<Name>, degree: map<Name, int>, result: seq<Name>)
    requires Inverse(g) && Acyclic(g.dependents)
    requires DegreesTrue(g, affected, Elements(result), degree) && QueueTrue(degree, result, [])
    ensures Elements(result) == affected
  {
    assert result + [] == result;
    var rest := affected - Elements(result);
    forall x | x in rest ensures HasDependencyIn(g, rest, x) {
      UnlistedWaits(g, affected, degree, result, x);
    }
    if rest != {} {
      WaitingForEachOtherIsACycle(g, rest);
    }
    forall x ensures x in Elements(result) <==> x in affected {
      assert x in result + [] ==> x in affected;
      assert x !in rest;
    }
  }
}

module TopologicalOrders {
  import opened DepGraph
  import opened KahnState

  method Cone(e: Edges, changed: seq<Name>) returns (dependents: set<Name>)
    ensures forall x :: x in dependents <==> InCone(e, changed, x)
  {
    dependents := {};
    for i := 0 to |changed|
      invariant forall x :: x in dependents <==> x !in changed && exists j :: 0 <= j < i && Reach(e, changed[j], x)
    {
      var all := AllDependents(e, changed[i]);
      dependents := dependents + (set x | x in all && x !in changed);
    }
  }

  method InDegrees(g: Graph, affected: set<Name>) returns (degree: map<Name, int>)
    ensures DegreesTrue(g, affected, {}, degree)
  {
    degree := map n | n in affected :: |Waiting(g, affected, {}, n)|;
  }

  // Lower one degree; a node that waits for nothing any more is queued.
  method Lower(degree0: map<Name, int>, n: Name, queue0: seq<Name>, ghost result: seq<Name>)
    returns (degree: map<Name, int>, queue: seq<Name>)
    requires n in degree0 && degree0[n] >= 1 && QueueTrue(degree0, result, queue0)
    ensures degree == degree0[n := degree0[n] - 1] && QueueTrue(degree, result, queue)
  {
    QueueStep(degree0, n, result, queue0);
    degree, queue := degree0[n := degree0[n] - 1], queue0;
    if degree[n] == 0 {
      queue := queue + [n];
    }
  }

  // Listing one node lowers the degree of its affected dependents.
  method Relax(g: Graph, affected: set<Name>, ghost done: set<Name>, current: Name,
               degree0: map<Name, int>, queue0: seq<Name>, ghost result: seq<Name>)
    returns (degree: map<Name, int>, queue: seq<Name>)
    requires Inverse(g) && DegreesTrue(g, affected, done, degree0)
    requires current in affected && current !in done
    requires QueueTrue(degree0, result, queue0)
    ensures DegreesTrue(g, affected, done + {current}, degree)
    ensures QueueTrue(degree, result, queue)
  {
    degree, queue := degree0, queue0;
    var todo := Out(g.dependents, current);
    while todo != {}
      invariant todo <= Out(g.dependents, current)
      invariant HalfRelaxed(g, affected, done, current, degree, todo)
      invariant QueueTrue(degree, result, queue)
      decreases todo
    {
      var n :| n in todo;
      WaitingShrinks(g, affected, done, current, n);
      RelaxOne(g, affected, done, current, degree, todo, n, todo - {n});
      if n in degree {
        degree, queue := Lower(degree, n, queue, result);
      }
      todo := todo - {n};
    }
    RelaxDone(g, affected, done, current, degree);
  }

  method KahnOrder(g: Graph, affected: set<Name>) returns (result: seq<Name>)
    requires Inverse(g) && Acyclic(g.dependents)
    ensures NoDuplicates(result) && Elements(result) == affected
    ensures Ordered(g, affected, result)
  {
    var degree := InDegrees(g, affected);
    result := [];
    var queue := Enqueue([], set n | n in degree && degree[n] == 0);
    QueueStarts(degree, queue);
    assert Elements(result) == {};
    while queue != []
      invariant NoDuplicates(result) && Elements(result) <= affected && Ordered(g, affected, result)
      invariant DegreesTrue(g, affected, Elements(result), degree)
      invariant QueueTrue(degree, result, queue)
      decreases affected - Elements(result)
    {
      var current := queue[0];
      KahnStep(g, affected, degree, result, queue);
      ghost var listed := Elements(result);
      result := result + [current];
      degree, queue := Relax(g, affected, listed, current, degree, queue[1..], result);
    }
    KahnComplete(g, affected, degree, result);
  }

  // topological_order: every dependent of the changed nodes exactly once,
  // after all its dependencies inside that set.
  method TopologicalOrder(g: Graph, changed: seq<Name>) returns (result: seq<Name>)
    requires Inverse(g) && Acyclic(g.dependents)
    ensures NoDuplicates(result)
    ensures forall x :: x in result <==> InCone(g.dependents, changed, x)
    ensures forall i, d :: 0 <= i < |result| && d in Out(g.dependencies, result[i]) && InCone(g.dependents, changed, d)
              ==> d in result[..i]
  {
    var affected := Cone(g.dependents, changed);
    result := KahnOrder(g, affected);
    forall i, d | 0 <= i < |result| && d in Out(g.dependencies, result[i]) && InCone(g.dependents, changed, d)
      ensures d in result[..i]
    {
      assert d !in Waiting(g, affected, Elements(result[..i]), result[i]);
    }
    forall x ensures x in result <==> x in affected {
      assert x in result <==> x in Elements(result);
    }
  }
}

// The graph as the manager holds it.
module DependencyGraphs {
  import opened DepGraph

  // create_view's use of the graph: all sources are checked, then all edges
  // are added.
  method SourcesAcceptable(g: Graph, view: Name, sources: seq<Name>) returns (ok: bool)
    ensures ok <==> forall s :: s in sources ==> s != view && !Reach(g.dependents, view, s)
  {
    for i := 0 to |sources|
      invariant forall j :: 0 <= j < i ==> sources[j] != view && !Reach(g.dependents, view, sources[j])
    {
      var cycle := WouldCreateCycle(g.dependents, view, sources[i]);
      if cycle {
        assert sources[i] in sources;
        return false;
      }
    }
    return true;
  }

  method AddSources(g: Graph, view: Name, sources: seq<Name>) returns (next: Graph)
    requires Inverse(g) && Acyclic(g.dependents)
    requires forall s :: s in sources ==> s != view && !Reach(g.dependents, view, s)
    ensures Inverse(next) && Acyclic(next.dependents)
    ensures forall a, b {:trigger DependsOn(next, a, b)} ::
              DependsOn(next, a, b) <==> DependsOn(g, a, b) || (a == view && b in sources)
  {
    next := g;
    for i := 0 to |sources|
      invariant Inverse(next) && Acyclic(next.dependents)
      invariant forall s :: s in sources ==> s != view && !Reach(next.dependents, view, s)
      invariant forall a, b {:trigger DependsOn(next, a, b)} ::
                  DependsOn(next, a, b) <==> DependsOn(g, a, b) || (a == view && b in sources[..i])
    {
      assert sources[i] in sources;
      GuardedEdgeKeepsAcyclic(next.dependents, sources[i], view);
      GuardsSurvive(next.dependents, sources[i], view, sources);
      assert forall b :: b in sources[..i + 1] <==> b in sources[..i] || b == sources[i];
      next := AddDependency(next, view, sources[i]);
    }
    assert sources[..|sources|] == sources;
  }

  class DependencyGraph {
    var g: Graph

    // In every reachable state the two maps are inverse and acyclic.
    ghost predicate Valid()
      reads this
    {
      Inverse(g) && Acyclic(g.dependents)
    }

    constructor ()
      ensures Valid() && g == Graph(map[], map[])
    {
      EmptyAcyclic();
      g := Graph(map[], map[]);
    }

    // create_view: a view whose sources would close a cycle is refused.
    method RegisterView(view: Name, sources: seq<Name>) returns (ok: bool)
      requires Valid()
      modifies this
      ensures Valid()
      ensures ok <==> forall s :: s in sources ==> s != view && !Reach(old(g).dependents, view, s)
      ensures !ok ==> g == old(g)
      ensures ok ==> forall a, b {:trigger DependsOn(g, a, b)} ::
                DependsOn(g, a, b) <==> DependsOn(old(g), a, b) || (a == view && b in sources)
    {
      ok := SourcesAcceptable(g, view, sources);
      if ok {
        g := AddSources(g, view, sources);
      }
    }

    method Remove(node: Name)
      requires Valid()
      modifies this
      ensures Valid()
      ensures forall a, b {:trigger DependsOn(g, a, b)} :: DependsOn(g, a, b) <==> DependsOn(old(g), a, b) && a != node && b != node
    {
      var next := RemoveNode(g, node);
      RemovedKeeps(g, next, node);
      FewerEdgesStayAcyclic(g, next);
      g := next;
    }
  }
}
