/** Walks and cycles of a relation on ids, and what changing the edges of one id does to its cycles. */
module Walks {

  type Edges = (string, string) -> bool

  predicate Path(e: Edges, p: seq<string>) {
    forall i :: 0 <= i < |p| - 1 ==> e(p[i], p[i + 1])
  }

  predicate Walk(e: Edges, p: seq<string>) {
    |p| >= 2 && Path(e, p)
  }

  predicate ClosedWalk(e: Edges, p: seq<string>) {
    Walk(e, p) && p[0] == p[|p| - 1]
  }

  ghost predicate Cyclic(e: Edges) {
    exists p :: ClosedWalk(e, p)
  }

  /** `id` can be reached from itself in at least one step. */
  ghost predicate OnCycle(e: Edges, id: string) {
    exists p :: WalkBetween(e, p, id, id)
  }

  lemma CyclicIff(e: Edges)
    ensures Cyclic(e) <==> exists id :: OnCycle(e, id)
  {
    if p :| ClosedWalk(e, p) {
      assert WalkBetween(e, p, p[0], p[0]);
      assert OnCycle(e, p[0]);
    }
    if id :| OnCycle(e, id) {
      var p :| WalkBetween(e, p, id, id);
      assert ClosedWalk(e, p);
    }
  }

  lemma PathExtends(e: Edges, p: seq<string>, b: string)
    requires Path(e, p) && p != [] && e(p[|p| - 1], b)
    ensures Path(e, p + [b])
  {
  }

  lemma PathClosesCycle(e: Edges, p: seq<string>, b: string)
    requires Path(e, p) && b in p && e(p[|p| - 1], b)
    ensures OnCycle(e, b)
  {
    var k :| 0 <= k < |p| && p[k] == b;
    PathExtends(e, p, b);
    var circuit := (p + [b])[k..];
    forall i | 0 <= i < |circuit| - 1 ensures e(circuit[i], circuit[i + 1]) {
      assert e((p + [b])[k + i], (p + [b])[k + i + 1]);
    }
    assert WalkBetween(e, circuit, b, b);
  }

  predicate WalkBetween(e: Edges, p: seq<string>, a: string, b: string) {
    Walk(e, p) && p[0] == a && p[|p| - 1] == b
  }

  ghost predicate Reaches(e: Edges, a: string, b: string) {
    a == b || exists p :: WalkBetween(e, p, a, b)
  }

  lemma PartOfWalk(e: Edges, p: seq<string>, i: nat, j: nat)
    requires Walk(e, p) && i + 1 < j <= |p|
    ensures Walk(e, p[i..j])
  {
    forall k | 0 <= k < |p[i..j]| - 1 ensures e(p[i..j][k], p[i..j][k + 1]) {
      assert e(p[i + k], p[i + k + 1]);
    }
  }

  lemma ExtendWalk(e: Edges, a: string, p: seq<string>)
    requires Walk(e, p) && e(a, p[0])
    ensures Walk(e, [a] + p)
  {
    var q := [a] + p;
    forall i | 0 <= i < |q| - 1 ensures e(q[i], q[i + 1]) {
      if i > 0 { assert e(p[i - 1], p[i]); }
    }
  }

  lemma RotatedWalk(e: Edges, p: seq<string>, k: nat)
    requires ClosedWalk(e, p) && k < |p| - 1
    ensures WalkBetween(e, p[k..] + p[1..k + 1], p[k], p[k])
  {
    var q := p[k..] + p[1..k + 1];
    var cut := |p| - k - 1;
    forall i | 0 <= i < |q| - 1 ensures e(q[i], q[i + 1]) {
      if i < cut {
        assert e(p[k + i], p[k + i + 1]);
      } else {
        assert e(p[i - cut], p[i - cut + 1]);
      }
    }
  }

  /** Where a walk first comes to an id after its start. */
  lemma {:induction false} FirstVisit(p: seq<string>, id: string, k: nat) returns (n: nat)
    requires 0 < k < |p| && p[k] == id
    ensures 0 < n <= k && p[n] == id && forall i :: 0 < i < n ==> p[i] != id
    decreases k
  {
    if i :| 0 < i < k && p[i] == id {
      n := FirstVisit(p, id, i);
    } else {
      n := k;
    }
  }

  /** The relations differ in the edges of `id` at most. */
  ghost predicate Redirects(before: Edges, after: Edges, id: string) {
    forall a, b :: a != id ==> after(a, b) == before(a, b)
  }

  lemma SameWalk(before: Edges, after: Edges, id: string, p: seq<string>)
    requires Redirects(before, after, id) && forall i :: 0 <= i < |p| - 1 ==> p[i] != id
    ensures Walk(before, p) <==> Walk(after, p)
  {
    assert forall i :: 0 <= i < |p| - 1 ==> after(p[i], p[i + 1]) == before(p[i], p[i + 1]);
  }

  lemma ClosingMakesCycle(before: Edges, after: Edges, id: string, c: string)
    requires Redirects(before, after, id) && after(id, c) && Reaches(before, c, id)
    ensures Cyclic(after)
  {
    if c == id {
      assert ClosedWalk(after, [c, c]);
    } else {
      var p :| WalkBetween(before, p, c, id);
      var n := FirstVisit(p, id, |p| - 1);
      var q := p[0..n + 1];
      PartOfWalk(before, p, 0, n + 1);
      SameWalk(before, after, id, q);
      ExtendWalk(after, id, q);
      assert ClosedWalk(after, [id] + q);
    }
  }

  lemma VisitsRedirected(before: Edges, after: Edges, id: string, p: seq<string>) returns (k: nat)
    requires Redirects(before, after, id) && !Cyclic(before) && ClosedWalk(after, p)
    ensures k < |p| - 1 && p[k] == id
  {
    assert !ClosedWalk(before, p);
    if forall i :: 0 <= i < |p| - 1 ==> p[i] != id {
      SameWalk(before, after, id, p);
      assert false;
    }
    k :| 0 <= k < |p| - 1 && p[k] == id;
  }

  lemma CycleWasClosed(before: Edges, after: Edges, id: string, p: seq<string>) returns (c: string)
    requires Redirects(before, after, id) && !Cyclic(before) && ClosedWalk(after, p)
    ensures after(id, c) && Reaches(before, c, id)
  {
    var k := VisitsRedirected(before, after, id, p);
    var q := p[k..] + p[1..k + 1];
    RotatedWalk(after, p, k);
    var n := FirstVisit(q, id, |q| - 1);
    c := q[1];
    assert after(q[0], q[1]);
    if n > 1 {
      var w := q[1..n + 1];
      PartOfWalk(after, q, 1, n + 1);
      assert forall i :: 0 <= i < |w| ==> w[i] == q[i + 1];
      SameWalk(before, after, id, w);
      ReachesBy(before, w, c, id);
    }
  }

  lemma ReachesBy(e: Edges, p: seq<string>, a: string, b: string)
    requires WalkBetween(e, p, a, b)
    ensures Reaches(e, a, b)
  {
  }

  lemma ReachesDirectly(e: Edges, a: string, b: string)
    requires e(a, b)
    ensures Reaches(e, a, b)
  {
    ReachesBy(e, [a, b], a, b);
  }

  /** New edges of one id make an acyclic relation cyclic exactly when one of them leads to where the id could be reached
      from. */
  lemma RedirectedCyclicIff(before: Edges, after: Edges, id: string)
    requires Redirects(before, after, id) && !Cyclic(before)
    ensures Cyclic(after) <==> exists c :: after(id, c) && Reaches(before, c, id)
  {
    if c :| after(id, c) && Reaches(before, c, id) {
      ClosingMakesCycle(before, after, id, c);
    }
    if p :| ClosedWalk(after, p) {
      var c := CycleWasClosed(before, after, id, p);
    }
  }
}
