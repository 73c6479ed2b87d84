/** The dependency graph of an execution plan. */
module PlanGraph {
  import opened Walks

  /** Every block id with the ids it depends on. */
  type Graph = map<string, seq<string>>

  predicate Closed(g: Graph) {
    forall id :: id in g ==> forall dep :: dep in g[id] ==> dep in g
  }

  predicate DependsOn(g: Graph, id: string, dep: string) {
    id in g && dep in g[id]
  }

  function Dependencies(g: Graph): Edges {
    (id, dep) => DependsOn(g, id, dep)
  }

  ghost predicate Acyclic(g: Graph) {
    !Cyclic(Dependencies(g))
  }

  predicate NoRepeats(s: seq<string>) {
    forall i, j :: 0 <= i < j < |s| ==> s[i] != s[j]
  }

  /** Every dependency of an element of `order` stands before it. */
  predicate DependenciesFirst(g: Graph, order: seq<string>) {
    forall i :: 0 <= i < |order| ==> order[i] in g && forall dep :: dep in g[order[i]] ==> dep in order[..i]
  }

  /** `order` lists every block once, each after the blocks it depends on. */
  ghost predicate TopologicalOrder(g: Graph, order: seq<string>) {
    && NoRepeats(order)
    && (forall id :: id in order <==> id in g)
    && DependenciesFirst(g, order)
  }

  /** Along a path the position in a topological order goes down with every step. */
  lemma {:induction false} PathDescends(g: Graph, order: seq<string>, p: seq<string>, i: nat, k: nat)
    requires NoRepeats(order) && DependenciesFirst(g, order) && Path(Dependencies(g), p)
    requires |p| >= 2 && i < |order| && k < |order| && order[i] == p[0] && order[k] == p[|p| - 1]
    ensures k < i
    decreases |p|
  {
    assert Dependencies(g)(p[0], p[1]);
    assert p[1] in order[..i];
    var j :| 0 <= j < i && order[j] == p[1];
    if |p| > 2 {
      PartOfWalk(Dependencies(g), p, 1, |p|);
      PathDescends(g, order, p[1..], j, k);
    }
  }

  lemma OrderedIsAcyclic(g: Graph, order: seq<string>)
    requires TopologicalOrder(g, order)
    ensures Acyclic(g)
  {
    forall p | ClosedWalk(Dependencies(g), p) ensures false {
      assert Dependencies(g)(p[0], p[1]);
      var i :| 0 <= i < |order| && order[i] == p[0];
      PathDescends(g, order, p, i, i);
    }
  }

  // ---------- Every acyclic closed graph has a topological order ----------

  lemma {:induction false} CountOfNoRepeats(p: seq<string>, among: set<string>)
    requires NoRepeats(p) && forall x :: x in p ==> x in among
    ensures |p| <= |among|
  {
    if p != [] {
      var rest := p[..|p| - 1];
      assert forall x :: x in rest ==> x in p;
      CountOfNoRepeats(rest, among - {p[|p| - 1]});
    }
  }

  /** Following dependencies inside `left` ends at a block whose dependencies are all outside. */
  lemma {:induction false} UnblockedBlock(g: Graph, left: set<string>, walk: seq<string>) returns (id: string)
    requires Acyclic(g) && left <= g.Keys && walk != []
    requires Path(Dependencies(g), walk) && NoRepeats(walk) && forall x :: x in walk ==> x in left
    ensures id in left && forall dep :: dep in g[id] ==> dep !in left
    decreases |left| - |walk|
  {
    CountOfNoRepeats(walk, left);
    id := walk[|walk| - 1];
    if dep :| dep in g[id] && dep in left {
      if dep in walk {
        PathClosesCycle(Dependencies(g), walk, dep);
        CyclicIff(Dependencies(g));
        assert false;
      }
      PathExtends(Dependencies(g), walk, dep);
      CountOfNoRepeats(walk + [dep], left);
      id := UnblockedBlock(g, left, walk + [dep]);
    }
  }

  lemma {:induction false} AcyclicHasOrder(g: Graph, done: seq<string>) returns (order: seq<string>)
    requires Acyclic(g) && Closed(g) && NoRepeats(done) && DependenciesFirst(g, done)
    requires forall x :: x in done ==> x in g
    ensures TopologicalOrder(g, order)
    decreases g.Keys - (set x | x in done)
  {
    var left := g.Keys - (set x | x in done);
    if start :| start in left {
      var id := UnblockedBlock(g, left, [start]);
      var next := done + [id];
      assert DependenciesFirst(g, next) by {
        forall i | 0 <= i < |next| ensures forall dep :: dep in g[next[i]] ==> dep in next[..i] {
          assert i < |done| ==> next[..i] == done[..i] && next[i] == done[i];
          assert i == |done| ==> next[..i] == done;
        }
      }
      assert id !in done;
      order := AcyclicHasOrder(g, next);
    } else {
      assert left == {};
      forall id | id in g ensures id in done {
        assert id !in left;
      }
      order := done;
    }
  }

  /** A plan can be executed dependency by dependency exactly when its dependency relation has no cycle. */
  lemma AcyclicIffOrderable(g: Graph)
    requires Closed(g)
    ensures Acyclic(g) <==> exists order :: TopologicalOrder(g, order)
  {
    if Acyclic(g) {
      var order := AcyclicHasOrder(g, []);
    }
    forall order | TopologicalOrder(g, order) ensures Acyclic(g) {
      OrderedIsAcyclic(g, order);
    }
  }
}
