/** Runs of memory writes: what the supersedes and conflict relations mean after any sequence of writes, and exactly
    when a write makes the supersedes relation cyclic. */
module MemoryHistory {
  import opened MemoryStore
  import opened MemoryRecords
  import opened MemoryRelations
  import opened MemoryWriter
  import opened Walks
  import Text

  function Rec(t: Tables, id: string): MemoryRecord
    requires id in t.records
  {
    t.records[id].record
  }

  /** Every stored record was updated before `now`. */
  predicate Before(t: Tables, now: int) {
    forall id :: id in t.records ==> Rec(t, id).updatedAt < now
  }

  /** The tables as they were when `id` was written: only older records. */
  function Earlier(t: Tables, id: string): Tables
    requires id in t.records
  {
    t.(records := map other | other in t.records && Rec(t, other).updatedAt < Rec(t, id).updatedAt :: t.records[other])
  }

  /** Every record is linked exactly to the older records it is related to. */
  ghost predicate History(t: Tables) {
    && t.relations.Keys == t.records.Keys
    && (forall id :: id in t.records ==> LinkedToPast(t, id))
  }

  ghost predicate LinkedToPast(t: Tables, id: string)
    requires id in t.records
  {
    Rec(t, id).id == id && Unadorned(Rec(t, id)) && id in t.relations && t.relations[id] == Links(Earlier(t, id), Rec(t, id))
  }

  /** A write of a new record, later than everything stored, or a rejected one. */
  ghost predicate FreshStep(before: Tables, r: MemoryRecord, now: int, after: Tables) {
    || after == before
    || (Unadorned(r) && r.id !in before.records && Before(before, now) && Wrote(before, r, now, after))
  }

  lemma OldLinksKept(before: Tables, r: MemoryRecord, now: int, after: Tables, id: string)
    requires r.id !in before.records && Before(before, now) && Wrote(before, r, now, after) && id in before.records
    ensures id in after.records && Rec(after, id) == Rec(before, id)
    ensures Earlier(after, id).records == Earlier(before, id).records
    ensures Links(Earlier(after, id), Rec(after, id)) == Links(Earlier(before, id), Rec(before, id))
  {
    assert Rec(after, r.id).updatedAt == now;
  }

  lemma NewLinks(before: Tables, r: MemoryRecord, now: int, after: Tables)
    requires Unadorned(r) && r.id !in before.records && Before(before, now) && Wrote(before, r, now, after)
    ensures Rec(after, r.id) == Stamped(r, now)
    ensures Earlier(after, r.id).records == before.records
    ensures Links(Earlier(after, r.id), Rec(after, r.id)) == Links(before, Stamped(r, now))
  {
  }

  lemma StepKeepsHistory(before: Tables, r: MemoryRecord, now: int, after: Tables)
    requires History(before) && FreshStep(before, r, now, after)
    ensures History(after)
  {
    if after != before {
      NewLinks(before, r, now, after);
      forall id | id in after.records ensures LinkedToPast(after, id) {
        if id != r.id {
          assert LinkedToPast(before, id);
          OldLinksKept(before, r, now, after, id);
        }
      }
    }
  }

  /** Any run of writes with fresh ids, an advancing clock and no caller-supplied references keeps the history exact. */
  lemma {:induction false} RunKeepsHistory(ts: seq<Tables>, rs: seq<MemoryRecord>, clock: seq<int>)
    requires |ts| == |rs| + 1 == |clock| + 1 && History(ts[0])
    requires forall i :: 0 <= i < |rs| ==> FreshStep(ts[i], rs[i], clock[i], ts[i + 1])
    ensures History(ts[|ts| - 1])
  {
    if rs != [] {
      StepKeepsHistory(ts[0], rs[0], clock[0], ts[1]);
      forall i | 0 <= i < |rs[1..]| ensures FreshStep(ts[1..][i], rs[1..][i], clock[1..][i], ts[1..][i + 1]) {
        assert FreshStep(ts[i + 1], rs[i + 1], clock[i + 1], ts[i + 2]);
      }
      RunKeepsHistory(ts[1..], rs[1..], clock[1..]);
    }
  }

  lemma EmptyHistory()
    ensures History(Empty())
  {
  }

  // ---------- What a history means ----------

  predicate Edge(t: Tables, a: string, b: string) {
    a in t.relations && RelationKey("supersedes", b) in t.relations[a]
  }

  predicate ListsConflict(t: Tables, a: string, b: string) {
    a in t.relations && RelationKey("conflicts_with", b) in t.relations[a]
  }

  lemma LinkKeys(t: Tables, r: MemoryRecord, id: string)
    ensures RelationKey("supersedes", id) in Links(t, r) <==> Linked(SupersedesLink, t, r, id)
    ensures RelationKey("conflicts_with", id) in Links(t, r) <==> Linked(ConflictLink, t, r, id)
  {
    LinksOfIff(SupersedesLink, t, r, RelationKey("supersedes", id));
    LinksOfIff(ConflictLink, t, r, RelationKey("supersedes", id));
    LinksOfIff(SupersedesLink, t, r, RelationKey("conflicts_with", id));
    LinksOfIff(ConflictLink, t, r, RelationKey("conflicts_with", id));
    assert "supersedes"[0] != "conflicts_with"[0];
    NoPlainRow(r, RelationKey("supersedes", id));
    NoPlainRow(r, RelationKey("conflicts_with", id));
  }

  lemma NoPlainRow(r: MemoryRecord, k: RelationKey)
    requires k.kind in {"supersedes", "conflicts_with"}
    ensures k !in Inserted(PlainRows(r))
  {
    KindsApart(r);
    InsertedKeys(PlainRows(r), k);
    var rows := PlainRows(r);
    forall i | 0 <= i < |rows| ensures rows[i].0 != k { assert rows[i] in rows; }
  }

  lemma UnadornedLinked(link: Link, t: Tables, r: MemoryRecord, id: string)
    requires Unadorned(r)
    ensures Linked(link, t, r, id) <==> id in t.records && Related(link, r, t.records[id].record)
  {
    assert SuppliedRefs(link, r) == [] && DedupedRefs([]) == [];
  }

  lemma ConflictListed(t: Tables, a: string, b: string)
    requires History(t) && a in t.records && b in t.records
    ensures ListsConflict(t, a, b) <==> ConflictsWith(Rec(t, a), Rec(t, b)) && Rec(t, b).updatedAt < Rec(t, a).updatedAt
  {
    assert LinkedToPast(t, a);
    LinkKeys(Earlier(t, a), Rec(t, a), b);
    UnadornedLinked(ConflictLink, Earlier(t, a), Rec(t, a), b);
  }

  /** A record lists a conflict exactly with the older records of its kind that give some key another value. */
  lemma ConflictListedIff(t: Tables, a: string, b: string)
    requires History(t) && a in t.records && b in t.records
    ensures ListsConflict(t, a, b) <==>
              && Rec(t, b).updatedAt < Rec(t, a).updatedAt && Rec(t, b).kind == Rec(t, a).kind
              && exists f, g :: f in Rec(t, a).facts && g in Rec(t, b).facts && f.key == g.key && f.value != g.value
  {
    ConflictListed(t, a, b);
    SameKeyOtherValue(Rec(t, a), Rec(t, b));
    assert a != b ==> Rec(t, a).id != Rec(t, b).id;
  }

  lemma SameKeyOtherValue(x: MemoryRecord, y: MemoryRecord)
    ensures ConflictsWith(x, y) <==>
              && y.id != x.id && y.kind == x.kind
              && exists f, g :: f in x.facts && g in y.facts && f.key == g.key && f.value != g.value
  {
    if f, g :| f in x.facts && g in y.facts && f.key == g.key && f.value != g.value { assert Clash(f, g); }
    if f, g :| f in x.facts && g in y.facts && Clash(f, g) { assert f.key == g.key && f.value != g.value; }
  }

  lemma EdgeSupersedes(t: Tables, a: string, b: string)
    requires History(t) && a in t.records
    ensures Edge(t, a, b) <==> b in t.records && Supersedes(Rec(t, a), Rec(t, b))
  {
    assert LinkedToPast(t, a);
    LinkKeys(Earlier(t, a), Rec(t, a), b);
    UnadornedLinked(SupersedesLink, Earlier(t, a), Rec(t, a), b);
  }

  /** Supersedes links lead from a record exactly to the older records it restates, never to itself. */
  lemma EdgeIff(t: Tables, a: string, b: string)
    requires History(t) && a in t.records
    ensures Edge(t, a, b) <==>
              && b in t.records && Rec(t, b).updatedAt < Rec(t, a).updatedAt && Rec(t, b).kind == Rec(t, a).kind
              && Text.Lower(Text.Trim(Rec(t, b).summary)) == Text.Lower(Text.Trim(Rec(t, a).summary))
    ensures Edge(t, a, b) ==> b != a && Rec(t, b).updatedAt < Rec(t, a).updatedAt && SameStory(Rec(t, a), Rec(t, b))
  {
    EdgeSupersedes(t, a, b);
    assert b in t.records && a != b ==> Rec(t, a).id != Rec(t, b).id;
  }

  /** The supersedes relation. */
  function Supersession(t: Tables): Edges {
    (a, b) => Edge(t, a, b)
  }

  ghost predicate SupersedesCyclic(t: Tables) {
    Cyclic(Supersession(t))
  }

  predicate SameStory(a: MemoryRecord, b: MemoryRecord) {
    a.kind == b.kind && SameSummary(a.summary, b.summary)
  }

  /** Every supersedes link leads to another, older record that tells the same story. */
  ghost predicate LinksLeadBack(t: Tables) {
    forall a, b :: Edge(t, a, b) ==> LeadsBack(t, a, b)
  }

  predicate LeadsBack(t: Tables, a: string, b: string) {
    && a in t.records && b in t.records && b != a
    && Rec(t, b).updatedAt < Rec(t, a).updatedAt && SameStory(Rec(t, a), Rec(t, b))
  }

  lemma HistoryLeadsBack(t: Tables)
    requires History(t)
    ensures LinksLeadBack(t)
  {
    forall a, b | Edge(t, a, b) ensures LeadsBack(t, a, b) {
      EdgeIff(t, a, b);
    }
  }

  /** A walk leads to an older record that tells the same story. */
  lemma {:induction false} WalkDescends(t: Tables, p: seq<string>)
    requires LinksLeadBack(t) && Walk(Supersession(t), p)
    ensures p[0] in t.records && p[|p| - 1] in t.records
    ensures Rec(t, p[|p| - 1]).updatedAt < Rec(t, p[0]).updatedAt
    ensures SameStory(Rec(t, p[0]), Rec(t, p[|p| - 1]))
  {
    assert Supersession(t)(p[0], p[1]);
    assert LeadsBack(t, p[0], p[1]);
    if |p| > 2 {
      PartOfWalk(Supersession(t), p, 1, |p|);
      WalkDescends(t, p[1..]);
      SameStoryTransitive(Rec(t, p[0]), Rec(t, p[1]), Rec(t, p[|p| - 1]));
    }
  }

  lemma SameStoryTransitive(a: MemoryRecord, b: MemoryRecord, c: MemoryRecord)
    requires SameStory(a, b) && SameStory(b, c)
    ensures SameStory(a, c)
  {
  }

  lemma SupersedesAcyclic(t: Tables)
    requires History(t)
    ensures !SupersedesCyclic(t)
  {
    HistoryLeadsBack(t);
    forall p | ClosedWalk(Supersession(t), p) ensures false {
      WalkDescends(t, p);
    }
  }

  // ---------- What one write does to the relation ----------

  /** The tables after an accepted write. */
  ghost function After(t: Tables, r: MemoryRecord, now: int): Tables {
    t.(records := t.records[r.id := RowOf(Stamped(r, now))], relations := t.relations[r.id := Links(t, Stamped(r, now))])
  }

  lemma WriteEdges(before: Tables, r: MemoryRecord, now: int, after: Tables, a: string, b: string)
    requires Wrote(before, r, now, after)
    ensures a != r.id ==> (Edge(after, a, b) <==> Edge(before, a, b))
    ensures a == r.id ==> (Edge(after, a, b) <==> NewEdge(before, r, now, b))
  {
    if a == r.id {
      LinkKeys(before, Stamped(r, now), b);
      assert after.relations[a] == Links(before, Stamped(r, now));
    } else {
      assert a in after.relations <==> a in before.relations;
    }
  }

  predicate Restated(before: Tables, r: MemoryRecord, now: int, c: string) {
    c in before.records && Supersedes(Stamped(r, now), Rec(before, c))
  }

  /** What the written record will supersede: what its writer names, and what it restates. */
  predicate NewEdge(before: Tables, r: MemoryRecord, now: int, c: string) {
    Linked(SupersedesLink, before, Stamped(r, now), c)
  }

  /** One of them leads to the record being written. */
  ghost predicate ClosesCycle(before: Tables, r: MemoryRecord, now: int) {
    exists c :: NewEdge(before, r, now, c) && Reaches(Supersession(before), c, r.id)
  }

  /** From any acyclic state, whatever was written before and whatever references the record carries: a write makes the
      relation cyclic exactly when it names or restates a record from which the written one can be reached. */
  lemma WriteCyclicIff(before: Tables, r: MemoryRecord, now: int, after: Tables)
    requires Wrote(before, r, now, after) && !SupersedesCyclic(before)
    ensures SupersedesCyclic(after) <==> ClosesCycle(before, r, now)
  {
    var e, f := Supersession(before), Supersession(after);
    forall a, b ensures a != r.id ==> f(a, b) == e(a, b) { WriteEdges(before, r, now, after, a, b); }
    RedirectedCyclicIff(e, f, r.id);
    forall c ensures f(r.id, c) <==> NewEdge(before, r, now, c) { WriteEdges(before, r, now, after, r.id, c); }
  }

  /** A write, of a new or a stored record, or a rejected one. */
  ghost predicate WriteStep(before: Tables, r: MemoryRecord, now: int, after: Tables) {
    after == before || Wrote(before, r, now, after)
  }

  ghost predicate StepCloses(ts: seq<Tables>, rs: seq<MemoryRecord>, clock: seq<int>, i: nat)
    requires i < |rs| && |ts| == |rs| + 1 == |clock| + 1
  {
    ts[i + 1] != ts[i] && ClosesCycle(ts[i], rs[i], clock[i])
  }

  /** In a run of any writes, rewrites and supplied references among them and whatever the clock does, the relation stays acyclic throughout
      exactly when no step closes a cycle. */
  lemma {:induction false} RunStaysAcyclicIff(ts: seq<Tables>, rs: seq<MemoryRecord>, clock: seq<int>)
    requires |ts| == |rs| + 1 == |clock| + 1 && !SupersedesCyclic(ts[0])
    requires forall i :: 0 <= i < |rs| ==> WriteStep(ts[i], rs[i], clock[i], ts[i + 1])
    ensures (forall t :: t in ts ==> !SupersedesCyclic(t)) <==> forall i :: 0 <= i < |rs| ==> !StepCloses(ts, rs, clock, i)
  {
    if forall i :: 0 <= i < |rs| ==> !StepCloses(ts, rs, clock, i) {
      AcyclicUpTo(ts, rs, clock, |rs|);
    }
    if forall t :: t in ts ==> !SupersedesCyclic(t) {
      forall i | 0 <= i < |rs| ensures !StepCloses(ts, rs, clock, i) {
        assert ts[i] in ts && ts[i + 1] in ts;
        if ts[i + 1] != ts[i] { WriteCyclicIff(ts[i], rs[i], clock[i], ts[i + 1]); }
      }
    }
  }

  lemma {:induction false} AcyclicUpTo(ts: seq<Tables>, rs: seq<MemoryRecord>, clock: seq<int>, n: nat)
    requires |ts| == |rs| + 1 == |clock| + 1 && n <= |rs| && !SupersedesCyclic(ts[0])
    requires forall i :: 0 <= i < |rs| ==> WriteStep(ts[i], rs[i], clock[i], ts[i + 1]) && !StepCloses(ts, rs, clock, i)
    ensures forall i :: 0 <= i <= n ==> !SupersedesCyclic(ts[i])
  {
    if n > 0 {
      AcyclicUpTo(ts, rs, clock, n - 1);
      assert WriteStep(ts[n - 1], rs[n - 1], clock[n - 1], ts[n]) && !StepCloses(ts, rs, clock, n - 1);
      if ts[n] != ts[n - 1] { WriteCyclicIff(ts[n - 1], rs[n - 1], clock[n - 1], ts[n]); }
    }
  }

  // ---------- Rewriting a record after a run of new ones ----------

  /** A write of a record whose id is already stored. */
  ghost predicate Rewrite(before: Tables, r: MemoryRecord, now: int, after: Tables) {
    r.id in before.records && Before(before, now) && Wrote(before, r, now, after)
  }

  /** Along a history walks tell one story, so the last record before the rewritten one is restated if the first is. */
  lemma LastIsRestated(before: Tables, r: MemoryRecord, now: int, p: seq<string>, c: string) returns (last: string)
    requires History(before) && Before(before, now) && Restated(before, r, now, c)
    requires WalkBetween(Supersession(before), p, c, r.id)
    ensures Edge(before, last, r.id) && Restated(before, r, now, last)
  {
    var n := |p| - 2;
    last := p[n];
    assert Supersession(before)(p[n], p[n + 1]);
    EdgeIff(before, last, r.id);
    HistoryLeadsBack(before);
    assert LeadsBack(before, last, r.id);
    if n > 0 {
      PartOfWalk(Supersession(before), p, 0, n + 1);
      WalkDescends(before, p[0..n + 1]);
    }
    StoryRestated(before, r, now, c, last);
  }

  lemma StoryRestated(before: Tables, r: MemoryRecord, now: int, c: string, d: string)
    requires History(before) && Before(before, now) && Restated(before, r, now, c)
    requires d in before.records && d != r.id && SameStory(Rec(before, c), Rec(before, d))
    ensures Restated(before, r, now, d)
  {
    assert LinkedToPast(before, d);
  }

  lemma RestatedDirectly(before: Tables, r: MemoryRecord, now: int, c: string) returns (last: string)
    requires History(before) && Before(before, now) && Restated(before, r, now, c) && Reaches(Supersession(before), c, r.id)
    ensures Edge(before, last, r.id) && Restated(before, r, now, last)
  {
    assert LinkedToPast(before, c);
    var p :| WalkBetween(Supersession(before), p, c, r.id);
    last := LastIsRestated(before, r, now, p, c);
  }

  ghost predicate RestatesItsSuperseder(before: Tables, r: MemoryRecord, now: int) {
    exists c :: Edge(before, c, r.id) && Restated(before, r, now, c)
  }

  /** The writer names a record from which the written one can be reached. */
  ghost predicate NamesItsSuperseder(before: Tables, r: MemoryRecord) {
    exists c :: Supplies(r.supersedes, c) && Reaches(Supersession(before), c, r.id)
  }

  /** No supplied reference takes the place of a restated record it does not name. */
  predicate KeysApart(before: Tables, r: MemoryRecord, now: int) {
    forall c :: c in before.records && Restated(before, r, now, c) && KeyTaken(DedupedRefs(r.supersedes), Ref(c, Reason(SupersedesLink)))
                ==> Supplies(r.supersedes, c)
  }

  lemma PlainKeysApart(before: Tables, r: MemoryRecord, now: int)
    requires (forall s :: s in r.supersedes ==> PlainId(s.memoryId)) && forall id :: id in before.records ==> PlainId(id)
    ensures KeysApart(before, r, now)
  {
    DedupedIsKept(r.supersedes);
    forall c | c in before.records && KeyTaken(DedupedRefs(r.supersedes), Ref(c, Reason(SupersedesLink)))
      ensures Supplies(r.supersedes, c)
    {
      var d := Ref(c, Reason(SupersedesLink));
      var x :| x in DedupedRefs(r.supersedes) && RefKey(x) == RefKey(d);
      assert Kept(r.supersedes, x);
      PlainKeysInjective(x, d);
    }
  }

  lemma ClosesIff(before: Tables, r: MemoryRecord, now: int)
    requires History(before) && Before(before, now) && KeysApart(before, r, now)
    ensures ClosesCycle(before, r, now) <==> NamesItsSuperseder(before, r) || RestatesItsSuperseder(before, r, now)
  {
    assert SuppliedRefs(SupersedesLink, Stamped(r, now)) == r.supersedes;
    if ClosesCycle(before, r, now) && !NamesItsSuperseder(before, r) {
      var c :| NewEdge(before, r, now, c) && Reaches(Supersession(before), c, r.id);
      assert Restated(before, r, now, c);
      var last := RestatedDirectly(before, r, now, c);
    }
    if NamesItsSuperseder(before, r) {
      var c :| Supplies(r.supersedes, c) && Reaches(Supersession(before), c, r.id);
      assert NewEdge(before, r, now, c);
    }
    if RestatesItsSuperseder(before, r, now) {
      var c :| Edge(before, c, r.id) && Restated(before, r, now, c);
      ReachesDirectly(Supersession(before), c, r.id);
      assert NewEdge(before, r, now, c);
    }
  }

  /** After a run of new records, a rewrite makes the relation cyclic exactly when it names or restates a record from which
      it can be reached. When keys do not collide, as with ids without colons, that is: its writer names such a record, or
      it restates a record that directly supersedes it. */
  lemma RewriteCyclicIff(before: Tables, r: MemoryRecord, now: int, after: Tables)
    requires History(before) && Rewrite(before, r, now, after)
    ensures SupersedesCyclic(after) <==> ClosesCycle(before, r, now)
    ensures KeysApart(before, r, now) ==>
              (SupersedesCyclic(after) <==> NamesItsSuperseder(before, r) || RestatesItsSuperseder(before, r, now))
  {
    SupersedesAcyclic(before);
    WriteCyclicIff(before, r, now, after);
    if KeysApart(before, r, now) { ClosesIff(before, r, now); }
  }

  function Empty(): Tables { Tables(map[], map[], map[], map[], map[], map[]) }

  /** One record and then another that restates it. */
  ghost function Twice(a: MemoryRecord, b: MemoryRecord): Tables {
    After(After(Empty(), a, 1), b, 2)
  }

  lemma AfterIs(t: Tables, r: MemoryRecord, now: int)
    ensures Wrote(t, r, now, After(t, r, now))
    ensures Unadorned(r) ==> Rec(After(t, r, now), r.id) == Stamped(r, now)
    ensures After(t, r, now).records.Keys == t.records.Keys + {r.id}
    ensures forall id :: id in t.records && id != r.id ==> Rec(After(t, r, now), id) == Rec(t, id)
  {
  }

  lemma FreshAfter(t: Tables, r: MemoryRecord, now: int)
    requires History(t) && Unadorned(r) && r.id !in t.records && Before(t, now)
    ensures History(After(t, r, now))
  {
    AfterIs(t, r, now);
    StepKeepsHistory(t, r, now, After(t, r, now));
  }

  lemma OnceHistory(a: MemoryRecord)
    requires Unadorned(a)
    ensures var t := After(Empty(), a, 1);
            History(t) && Before(t, 2) && t.records.Keys == {a.id} && Rec(t, a.id) == Stamped(a, 1)
  {
    EmptyHistory();
    AfterIs(Empty(), a, 1);
    FreshAfter(Empty(), a, 1);
  }

  lemma TwiceHistory(a: MemoryRecord, b: MemoryRecord)
    requires Unadorned(a) && Unadorned(b) && a.id != b.id
    ensures History(Twice(a, b)) && Twice(a, b).records.Keys == {a.id, b.id}
    ensures Rec(Twice(a, b), a.id) == Stamped(a, 1) && Rec(Twice(a, b), b.id) == Stamped(b, 2)
  {
    OnceHistory(a);
    AfterIs(After(Empty(), a, 1), b, 2);
    FreshAfter(After(Empty(), a, 1), b, 2);
  }

  /** Writing the first again then makes the relation cyclic. */
  lemma RewriteCloses(a: MemoryRecord, b: MemoryRecord)
    requires Unadorned(a) && Unadorned(b) && a.id != b.id && SameStory(a, b)
    ensures !SupersedesCyclic(Twice(a, b)) && SupersedesCyclic(After(Twice(a, b), a, 3))
  {
    var t := Twice(a, b);
    TwiceHistory(a, b);
    SupersedesAcyclic(t);
    AfterIs(t, a, 3);
    EdgeIff(t, b.id, a.id);
    Restates(Stamped(b, 2), Stamped(a, 1));
    Restates(Stamped(a, 3), Stamped(b, 2));
    assert Edge(t, b.id, a.id) && Restated(t, a, 3, b.id);
    ReachesDirectly(Supersession(t), b.id, a.id);
    UnadornedLinked(SupersedesLink, t, Stamped(a, 3), b.id);
    assert NewEdge(t, a, 3, b.id);
    assert ClosesCycle(t, a, 3);
    WriteCyclicIff(t, a, 3, After(t, a, 3));
  }

  lemma Restates(a: MemoryRecord, b: MemoryRecord)
    requires a.id != b.id && SameStory(a, b) && b.updatedAt < a.updatedAt
    ensures Supersedes(a, b)
  {
  }

  /** A concrete case: all three writes are accepted. */
  lemma RewriteExample()
    ensures Accepts(Empty(), Example("a", []), ExampleContext().(now := 1))
    ensures Accepts(After(Empty(), Example("a", []), 1), Example("b", []), ExampleContext().(now := 2))
    ensures Accepts(Twice(Example("a", []), Example("b", [])), Example("a", []), ExampleContext().(now := 3))
    ensures SupersedesCyclic(After(Twice(Example("a", []), Example("b", [])), Example("a", []), 3))
  {
    ExampleAccepts(Empty(), "a", 1);
    ExampleAccepts(After(Empty(), Example("a", []), 1), "b", 2);
    ExampleAccepts(Twice(Example("a", []), Example("b", [])), "a", 3);
    assert "a"[0] != "b"[0];
    RewriteCloses(Example("a", []), Example("b", []));
  }

  lemma ExampleAccepts(t: Tables, id: string, now: int)
    requires t.audits == map[] && t.events == map[] && now >= 1 && |id| == 1 && id[0] in "ab"
    ensures Accepts(t, Example(id, []), ExampleContext().(now := now))
  {
    ExampleValid(id, []);
    UnadornedFits(t, Example(id, []), now);
  }

  // ---------- Two new records that name each other ----------

  function One(): MemoryRecord { Worded("a", "one", [Ref("b", EXPLICIT)]) }

  function Two(): MemoryRecord { Worded("b", "two", [Ref("a", EXPLICIT)]) }

  lemma NamesOther(r: MemoryRecord, other: string)
    requires r.supersedes == [Ref(other, EXPLICIT)] && other != ""
    ensures OneReasonEach(r.supersedes) && Supplies(r.supersedes, other)
  {
    assert Survives(r.supersedes, 0);
  }

  lemma AfterOne()
    ensures var t := After(Empty(), One(), 1);
            && t.records.Keys == {"a"} && Rec(t, "a").summary == "one" && Rec(t, "a").facts == Two().facts
            && Edge(t, "a", "b") && t.audits == map[] && t.events == map[]
  {
    AfterIs(Empty(), One(), 1);
    assert |"b"| == 1;
    NamesOther(One(), "b");
    WriteEdges(Empty(), One(), 1, After(Empty(), One(), 1), "a", "b");
  }

  lemma OneAccepted()
    ensures Accepts(Empty(), One(), ExampleContext().(now := 1))
  {
    assert "a"[0] == 'a' && "b"[0] == 'b' && "one"[0] == 'o';
    WordedValid("a", "one", [Ref("b", EXPLICIT)]);
    NamesOther(One(), "b");
  }

  lemma OtherSummary()
    ensures !SameSummary("one", "two")
  {
    assert "one"[0] == 'o' && "two"[0] == 't';
    Text.TrimKeepsWords("one");
    Text.TrimKeepsWords("two");
    assert Text.Lower("one")[0] != Text.Lower("two")[0];
  }

  lemma TwoAccepted(t: Tables)
    requires t.records.Keys == {"a"} && Rec(t, "a").summary == "one" && Rec(t, "a").facts == Two().facts
    requires t.audits == map[] && t.events == map[]
    ensures Accepts(t, Two(), ExampleContext().(now := 2))
  {
    assert "a"[0] == 'a' && "b"[0] == 'b' && "two"[0] == 't';
    WordedValid("b", "two", [Ref("a", EXPLICIT)]);
    NamesOther(Two(), "a");
    OtherSummary();
    assert Fits(SupersedesLink, t, Stamped(Two(), 2), Ref("a", EXPLICIT));
  }

  lemma TwoLinks(t: Tables)
    requires Edge(t, "a", "b")
    ensures SupersedesCyclic(After(t, Two(), 2))
  {
    var u := After(t, Two(), 2);
    AfterIs(t, Two(), 2);
    assert |"a"| == 1 && "a"[0] != "b"[0];
    NamesOther(Two(), "a");
    WriteEdges(t, Two(), 2, u, "b", "a");
    WriteEdges(t, Two(), 2, u, "a", "b");
    OnTwoCycle(Supersession(u), "a", "b");
  }

  lemma OnTwoCycle(e: Edges, a: string, b: string)
    requires e(a, b) && e(b, a)
    ensures Cyclic(e)
  {
    assert ClosedWalk(e, [a, b, a]);
  }

  /** Fresh ids and an advancing clock do not exclude cycles once writers name records themselves. */
  lemma SuppliedCycleExample()
    ensures Accepts(Empty(), One(), ExampleContext().(now := 1))
    ensures Accepts(After(Empty(), One(), 1), Two(), ExampleContext().(now := 2))
    ensures SupersedesCyclic(After(After(Empty(), One(), 1), Two(), 2))
  {
    OneAccepted();
    AfterOne();
    TwoAccepted(After(Empty(), One(), 1));
    TwoLinks(After(Empty(), One(), 1));
  }
}
