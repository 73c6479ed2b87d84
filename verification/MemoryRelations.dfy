/** How memories relate: conflict and supersedence detection, and the references of a record, supplied by its writer and
    detected, as relation rows. */
module MemoryRelations {
  import opened MemoryStore
  import opened MemoryRecords
  import Text

  // ---------- The two relations ----------

  predicate Clash(a: MemoryFact, b: MemoryFact) {
    a.key == b.key && a.value != b.value
  }

  /** Two records of one kind that give some key different values. */
  predicate ConflictsWith(candidate: MemoryRecord, other: MemoryRecord) {
    && other.id != candidate.id && other.kind == candidate.kind
    && exists f, g :: f in candidate.facts && g in other.facts && Clash(f, g)
  }

  predicate SameSummary(a: string, b: string) {
    Text.Lower(Text.Trim(a)) == Text.Lower(Text.Trim(b))
  }

  /** The candidate restates an older record of its kind. */
  predicate Supersedes(candidate: MemoryRecord, other: MemoryRecord) {
    && other.id != candidate.id && other.kind == candidate.kind
    && SameSummary(other.summary, candidate.summary) && candidate.updatedAt > other.updatedAt
  }

  datatype Link = ConflictLink | SupersedesLink

  predicate Related(link: Link, candidate: MemoryRecord, other: MemoryRecord) {
    match link
    case ConflictLink => ConflictsWith(candidate, other)
    case SupersedesLink => Supersedes(candidate, other)
  }

  function Reason(link: Link): string {
    match link
    case ConflictLink => "same fact key with different value"
    case SupersedesLink => "same summary updated with newer evidence"
  }

  function RelationKind(link: Link): string {
    match link
    case ConflictLink => "conflicts_with"
    case SupersedesLink => "supersedes"
  }

  // ---------- Detection ----------

  /** The first reference with each key "id::reason", without those that name no record. */
  function DedupedRefs(items: seq<Ref>): seq<Ref> {
    if items == [] then []
    else
      var before := DedupedRefs(items[..|items| - 1]);
      var item := items[|items| - 1];
      if item.memoryId == "" || (exists r :: r in before && RefKey(r) == RefKey(item)) then before else before + [item]
  }

  function RefKey(r: Ref): string {
    r.memoryId + "::" + r.reason
  }

  /** Among references with one reason the concatenated key identifies the record. */
  lemma KeysInjective(a: Ref, b: Ref)
    requires a.reason == b.reason
    ensures RefKey(a) == RefKey(b) ==> a == b
  {
    assert RefKey(a)[..|a.memoryId|] == a.memoryId && RefKey(b)[..|b.memoryId|] == b.memoryId;
    assert |RefKey(a)| == |a.memoryId| + 2 + |a.reason|;
  }

  method DedupeRefs(items: seq<Ref>) returns (result: seq<Ref>)
    ensures result == DedupedRefs(items)
  {
    var seen: set<string> := {};
    result := [];
    for i := 0 to |items|
      invariant result == DedupedRefs(items[..i])
      invariant forall k :: k in seen <==> exists r :: r in result && RefKey(r) == k
    {
      assert items[..i + 1][..i] == items[..i];
      var item := items[i];
      if item.memoryId == "" { continue; }
      if RefKey(item) in seen { continue; }
      seen := seen + {RefKey(item)};
      assert forall r :: r in result + [item] <==> r in result || r == item;
      result := result + [item];
    }
    assert items[..|items|] == items;
  }

  /** With one reason for all, references are kept once per record. */
  lemma {:induction false} DedupedOneReason(items: seq<Ref>, reason: string)
    requires forall r :: r in items ==> r.reason == reason
    ensures forall r :: r in DedupedRefs(items) <==> r in items && r.memoryId != ""
    ensures DistinctTargets(DedupedRefs(items))
  {
    if items != [] {
      var rest, item := items[..|items| - 1], items[|items| - 1];
      assert items == rest + [item];
      DedupedOneReason(rest, reason);
      forall r | r in DedupedRefs(rest) && RefKey(r) == RefKey(item) ensures r == item {
        KeysInjective(r, item);
      }
    }
  }

  predicate DistinctTargets(refs: seq<Ref>) {
    forall i, j :: 0 <= i < j < |refs| ==> refs[i].memoryId != refs[j].memoryId
  }

  /** `refs` names exactly the listed records that satisfy a relation, each once. */
  ghost predicate Names(refs: seq<Ref>, existing: seq<MemoryRecord>, link: Link, candidate: MemoryRecord) {
    && DistinctTargets(refs)
    && (forall r :: r in refs ==> r.reason == Reason(link) && r.memoryId != "")
    && (forall r :: r in refs ==> exists e :: e in existing && Related(link, candidate, e) && e.id == r.memoryId)
    && (forall e :: e in existing && Related(link, candidate, e) && e.id != "" ==> Ref(e.id, Reason(link)) in refs)
  }

  method DetectConflicts(existing: seq<MemoryRecord>, candidate: MemoryRecord) returns (refs: seq<Ref>)
    ensures Names(refs, existing, ConflictLink, candidate)
  {
    var found: seq<Ref> := [];
    for i := 0 to |existing|
      invariant forall r :: r in found ==>
                  r.reason == Reason(ConflictLink)
                  && exists e :: e in existing && Related(ConflictLink, candidate, e) && e.id == r.memoryId
      invariant forall k :: 0 <= k < i && ConflictsWith(candidate, existing[k]) ==> Ref(existing[k].id, Reason(ConflictLink)) in found
    {
      var e := existing[i];
      if e.id == candidate.id || e.kind != candidate.kind { continue; }
      var clashes := HasClash(candidate.facts, e.facts);
      if clashes {
        assert e in existing && Related(ConflictLink, candidate, e);
        found := found + [Ref(e.id, Reason(ConflictLink))];
      }
    }
    DedupedOneReason(found, Reason(ConflictLink));
    refs := DedupeRefs(found);
  }

  /** The two inner loops, left at the first clash. */
  method HasClash(facts: seq<MemoryFact>, others: seq<MemoryFact>) returns (clash: bool)
    ensures clash <==> exists f, g :: f in facts && g in others && Clash(f, g)
  {
    for i := 0 to |facts|
      invariant forall k, g :: 0 <= k < i && g in others ==> !Clash(facts[k], g)
    {
      for j := 0 to |others|
        invariant forall k :: 0 <= k < j ==> !Clash(facts[i], others[k])
      {
        if Clash(facts[i], others[j]) {
          assert facts[i] in facts && others[j] in others;
          return true;
        }
      }
    }
    return false;
  }

  method DetectSuperseded(existing: seq<MemoryRecord>, candidate: MemoryRecord) returns (refs: seq<Ref>)
    ensures Names(refs, existing, SupersedesLink, candidate)
  {
    var found: seq<Ref> := [];
    for i := 0 to |existing|
      invariant forall r :: r in found ==>
                  r.reason == Reason(SupersedesLink)
                  && exists e :: e in existing && Related(SupersedesLink, candidate, e) && e.id == r.memoryId
      invariant forall k :: 0 <= k < i && Supersedes(candidate, existing[k]) ==> Ref(existing[k].id, Reason(SupersedesLink)) in found
    {
      var e := existing[i];
      if e.id == candidate.id || e.kind != candidate.kind { continue; }
      if SameSummary(e.summary, candidate.summary) && candidate.updatedAt > e.updatedAt {
        assert e in existing && Related(SupersedesLink, candidate, e);
        found := found + [Ref(e.id, Reason(SupersedesLink))];
      }
    }
    DedupedOneReason(found, Reason(SupersedesLink));
    refs := DedupeRefs(found);
  }

  // ---------- What deduplication leaves ----------

  /** A reference that deduplication keeps: it names a record, and no earlier one has its key. */
  predicate Survives(items: seq<Ref>, i: nat)
    requires i < |items|
  {
    items[i].memoryId != "" && forall k :: 0 <= k < i && items[k].memoryId != "" ==> RefKey(items[k]) != RefKey(items[i])
  }

  predicate Kept(items: seq<Ref>, r: Ref) {
    exists i :: 0 <= i < |items| && Survives(items, i) && items[i] == r
  }

  /** Surviving references to one record agree in their reason. */
  predicate OneReasonEach(items: seq<Ref>) {
    forall i, j ::
      && 0 <= i < |items| && 0 <= j < |items| && Survives(items, i) && Survives(items, j)
      && items[i].memoryId == items[j].memoryId
      ==> items[i].reason == items[j].reason
  }

  predicate DistinctRefKeys(refs: seq<Ref>) {
    forall i, j :: 0 <= i < j < |refs| ==> RefKey(refs[i]) != RefKey(refs[j])
  }

  predicate KeyTaken(refs: seq<Ref>, item: Ref) {
    exists r :: r in refs && RefKey(r) == RefKey(item)
  }

  lemma SurvivesPrefix(items: seq<Ref>, n: nat, i: nat)
    requires i < n <= |items|
    ensures Survives(items[..n], i) <==> Survives(items, i)
  {
    if Survives(items[..n], i) {
      forall k | 0 <= k < i && items[k].memoryId != "" ensures RefKey(items[k]) != RefKey(items[i]) {
        assert items[..n][k] == items[k];
      }
    }
  }

  lemma LastSurvives(rest: seq<Ref>, item: Ref)
    requires forall r :: r in DedupedRefs(rest) <==> Kept(rest, r)
    ensures Survives(rest + [item], |rest|) <==> item.memoryId != "" && !KeyTaken(DedupedRefs(rest), item)
  {
    var items := rest + [item];
    if r :| r in DedupedRefs(rest) && RefKey(r) == RefKey(item) {
      var i :| 0 <= i < |rest| && Survives(rest, i) && rest[i] == r;
      assert items[i] == r;
    }
    if item.memoryId != "" && !Survives(items, |rest|) {
      var k :| 0 <= k < |rest| && items[k].memoryId != "" && RefKey(items[k]) == RefKey(item);
      var i := FirstWithKey(rest, k);
      assert Kept(rest, rest[i]);
      assert rest[i] in DedupedRefs(rest);
    }
  }

  /** The first reference with the key of the given one. */
  lemma {:induction false} FirstWithKey(items: seq<Ref>, k: nat) returns (i: nat)
    requires k < |items| && items[k].memoryId != ""
    ensures i <= k && Survives(items, i) && RefKey(items[i]) == RefKey(items[k])
    decreases k
  {
    if Survives(items, k) {
      i := k;
    } else {
      var j :| 0 <= j < k && items[j].memoryId != "" && RefKey(items[j]) == RefKey(items[k]);
      i := FirstWithKey(items, j);
    }
  }

  lemma {:induction false} DedupedIsKept(items: seq<Ref>)
    ensures forall r :: r in DedupedRefs(items) <==> Kept(items, r)
    ensures forall r :: r in DedupedRefs(items) ==> r.memoryId != ""
    ensures DistinctRefKeys(DedupedRefs(items))
  {
    if items != [] {
      var n := |items| - 1;
      var rest, item := items[..n], items[n];
      DedupedIsKept(rest);
      LastSurvives(rest, item);
      assert items == rest + [item];
      forall r ensures r in DedupedRefs(items) <==> Kept(items, r) {
        KeptNext(items, r);
      }
    }
  }

  lemma KeptNext(items: seq<Ref>, r: Ref)
    requires items != []
    ensures var n := |items| - 1; Kept(items, r) <==> Kept(items[..n], r) || (Survives(items, n) && items[n] == r)
  {
    var n := |items| - 1;
    if i :| 0 <= i < n && Survives(items, i) && items[i] == r {
      SurvivesPrefix(items, n, i);
      assert items[..n][i] == r;
    }
    if i :| 0 <= i < n && Survives(items[..n], i) && items[..n][i] == r {
      SurvivesPrefix(items, n, i);
    }
  }

  /** Deduplication leaves one reference per record exactly when the surviving references to a record agree. */
  lemma OneReferenceIff(items: seq<Ref>)
    ensures DistinctTargets(DedupedRefs(items)) <==> OneReasonEach(items)
  {
    var kept := DedupedRefs(items);
    DedupedIsKept(items);
    if OneReasonEach(items) {
      forall x, y | 0 <= x < y < |kept| ensures kept[x].memoryId != kept[y].memoryId {
        assert Kept(items, kept[x]) && Kept(items, kept[y]);
      }
    }
    if DistinctTargets(kept) {
      forall i, j | 0 <= i < |items| && 0 <= j < |items| && Survives(items, i) && Survives(items, j)
                    && items[i].memoryId == items[j].memoryId
        ensures items[i].reason == items[j].reason
      {
        assert Kept(items, items[i]) && Kept(items, items[j]);
        var x :| 0 <= x < |kept| && kept[x] == items[i];
        var y :| 0 <= y < |kept| && kept[y] == items[j];
      }
    }
  }

  /** An id without colons: then the concatenated key tells id and reason apart. */
  predicate PlainId(id: string) { ':' !in id }

  lemma KeyAt(a: Ref, i: nat)
    ensures i < |RefKey(a)| && i < |a.memoryId| ==> RefKey(a)[i] == a.memoryId[i] && a.memoryId[i] in a.memoryId
    ensures |a.memoryId| < |RefKey(a)| && RefKey(a)[|a.memoryId|] == ':'
    ensures RefKey(a)[..|a.memoryId|] == a.memoryId && RefKey(a)[|a.memoryId| + 2..] == a.reason
  {
  }

  lemma PlainKeysInjective(a: Ref, b: Ref)
    requires PlainId(a.memoryId) && PlainId(b.memoryId)
    ensures RefKey(a) == RefKey(b) ==> a == b
  {
    KeyAt(a, |b.memoryId|);
    KeyAt(b, |a.memoryId|);
  }

  /** With plain ids it is the supplied references as such that have to agree. */
  lemma PlainOneReasonIff(items: seq<Ref>)
    requires forall r :: r in items ==> PlainId(r.memoryId)
    ensures OneReasonEach(items) <==>
              forall a, b :: a in items && b in items && a.memoryId == b.memoryId != "" ==> a.reason == b.reason
  {
    if OneReasonEach(items) {
      forall a, b | a in items && b in items && a.memoryId == b.memoryId != "" ensures a.reason == b.reason {
        var i :| 0 <= i < |items| && items[i] == a;
        var j :| 0 <= j < |items| && items[j] == b;
        var x := FirstWithKey(items, i);
        var y := FirstWithKey(items, j);
        PlainKeysInjective(items[x], a);
        PlainKeysInjective(items[y], b);
      }
    }
  }

  // ---------- Supplied and detected references together ----------

  /** The detected references whose key no kept reference has. */
  function Untaken(kept: seq<Ref>, detected: seq<Ref>): seq<Ref> {
    if detected == [] then []
    else Untaken(kept, detected[..|detected| - 1])
         + if KeyTaken(kept, detected[|detected| - 1]) then [] else [detected[|detected| - 1]]
  }

  lemma {:induction false} UntakenIs(kept: seq<Ref>, detected: seq<Ref>)
    requires DistinctTargets(detected)
    ensures forall d :: d in Untaken(kept, detected) <==> d in detected && !KeyTaken(kept, d)
    ensures DistinctTargets(Untaken(kept, detected))
  {
    if detected != [] {
      var rest, d := detected[..|detected| - 1], detected[|detected| - 1];
      assert detected == rest + [d];
      UntakenIs(kept, rest);
      forall x | x in Untaken(kept, rest) ensures x.memoryId != d.memoryId { assert x in rest; }
    }
  }

  /** `detected` names different records for one reason. */
  predicate Detections(detected: seq<Ref>, reason: string) {
    DistinctTargets(detected) && forall d :: d in detected ==> d.reason == reason && d.memoryId != ""
  }

  /** Supplied references come first; detected ones are added unless their key is taken. */
  lemma {:induction false} MergedRefs(supplied: seq<Ref>, detected: seq<Ref>, reason: string)
    requires Detections(detected, reason)
    ensures DedupedRefs(supplied + detected) == DedupedRefs(supplied) + Untaken(DedupedRefs(supplied), detected)
  {
    var kept := DedupedRefs(supplied);
    if detected == [] {
      assert supplied + detected == supplied;
    } else {
      var rest, d := detected[..|detected| - 1], detected[|detected| - 1];
      assert detected == rest + [d];
      assert (supplied + detected)[..|supplied + detected| - 1] == supplied + rest;
      MergedRefs(supplied, rest, reason);
      NewKey(kept, rest, d, reason);
    }
  }

  lemma NewKey(kept: seq<Ref>, rest: seq<Ref>, d: Ref, reason: string)
    requires Detections(rest + [d], reason)
    ensures KeyTaken(kept + Untaken(kept, rest), d) <==> KeyTaken(kept, d)
  {
    assert forall x :: x in rest ==> x in rest + [d];
    assert d in rest + [d];
    assert forall i :: 0 <= i < |rest| ==> (rest + [d])[i] == rest[i];
    UntakenIs(kept, rest);
    forall x | x in Untaken(kept, rest) ensures RefKey(x) != RefKey(d) {
      var i :| 0 <= i < |rest| && rest[i] == x;
      assert (rest + [d])[i].memoryId != (rest + [d])[|rest|].memoryId;
      KeysInjective(x, d);
    }
  }

  ghost predicate Lists(existing: seq<MemoryRecord>, t: Tables) {
    forall e :: e in existing <==> exists id :: id in t.records && t.records[id].record == e
  }

  /** `refs` names exactly the related stored records, each once. */
  ghost predicate NamesStored(refs: seq<Ref>, t: Tables, link: Link, candidate: MemoryRecord) {
    && DistinctTargets(refs)
    && (forall r :: r in refs ==> r.reason == Reason(link))
    && (forall r :: r in refs ==> r.memoryId in t.records && Related(link, candidate, t.records[r.memoryId].record))
    && (forall id :: id in t.records && Related(link, candidate, t.records[id].record) ==> Ref(id, Reason(link)) in refs)
  }

  lemma NamedAreStored(refs: seq<Ref>, existing: seq<MemoryRecord>, t: Tables, link: Link, candidate: MemoryRecord)
    requires Stored(t) && Lists(existing, t) && Names(refs, existing, link, candidate)
    ensures NamesStored(refs, t, link, candidate)
  {
    forall r | r in refs ensures r.memoryId in t.records && Related(link, candidate, t.records[r.memoryId].record) {
      var e :| e in existing && Related(link, candidate, e) && e.id == r.memoryId;
      var id :| id in t.records && t.records[id].record == e;
    }
    forall id | id in t.records && Related(link, candidate, t.records[id].record) ensures Ref(id, Reason(link)) in refs {
      assert t.records[id].record in existing;
    }
  }

  /** Inserting the references of one kind gives the rows of that kind, and no two share a key. */
  lemma {:induction false} InsertedRefs(refs: seq<Ref>, kind: string, k: RelationKey)
    requires DistinctTargets(refs)
    ensures DistinctKeys(RefRows(kind, refs))
    ensures k in Inserted(RefRows(kind, refs)) <==> k.kind == kind && exists r :: r in refs && r.memoryId == k.target
    ensures forall r :: r in refs && k == RelationKey(kind, r.memoryId) ==> Inserted(RefRows(kind, refs))[k] == r.reason
  {
    if refs != [] {
      var rest, item := refs[..|refs| - 1], refs[|refs| - 1];
      assert refs == rest + [item];
      assert RefRows(kind, refs)[..|refs| - 1] == RefRows(kind, rest);
      InsertedRefs(rest, kind, k);
    }
  }

  lemma {:induction false} InsertedConcat(a: seq<(RelationKey, string)>, b: seq<(RelationKey, string)>)
    ensures Inserted(a + b) == Inserted(a) + Inserted(b)
  {
    if b == [] {
      assert a + b == a;
    } else {
      assert (a + b)[..|a + b| - 1] == a + b[..|b| - 1];
      InsertedConcat(a, b[..|b| - 1]);
    }
  }

  /** The related records whose detected reference no supplied one takes the place of. */
  ghost function FreeLinks(link: Link, t: Tables, r: MemoryRecord, supplied: seq<Ref>): map<RelationKey, string> {
    map id | id in t.records && Related(link, r, t.records[id].record) && !KeyTaken(DedupedRefs(supplied), Ref(id, Reason(link)))
      :: RelationKey(RelationKind(link), id) := Reason(link)
  }

  function SuppliedRefs(link: Link, r: MemoryRecord): seq<Ref> {
    match link
    case ConflictLink => r.conflicts
    case SupersedesLink => r.supersedes
  }

  /** The relation rows of one kind: the supplied references that survive, and the detected ones. */
  ghost function LinksOf(link: Link, t: Tables, r: MemoryRecord): map<RelationKey, string> {
    Inserted(RefRows(RelationKind(link), DedupedRefs(SuppliedRefs(link, r)))) + FreeLinks(link, t, r, SuppliedRefs(link, r))
  }

  ghost function Links(t: Tables, r: MemoryRecord): map<RelationKey, string> {
    Inserted(PlainRows(r)) + (LinksOf(SupersedesLink, t, r) + LinksOf(ConflictLink, t, r))
  }

  /** A surviving supplied reference names the id. */
  predicate Supplies(supplied: seq<Ref>, id: string) {
    exists i :: 0 <= i < |supplied| && Survives(supplied, i) && supplied[i].memoryId == id
  }

  /** The record gets a link of the kind to `id`: supplied, or detected and not replaced by a supplied one. */
  predicate Linked(link: Link, t: Tables, r: MemoryRecord, id: string) {
    || Supplies(SuppliedRefs(link, r), id)
    || (id in t.records && Related(link, r, t.records[id].record)
        && !KeyTaken(DedupedRefs(SuppliedRefs(link, r)), Ref(id, Reason(link))))
  }

  /** The stored rows of a kind are exactly those links. */
  lemma LinksOfIff(link: Link, t: Tables, r: MemoryRecord, k: RelationKey)
    ensures k in LinksOf(link, t, r) <==> k.kind == RelationKind(link) && Linked(link, t, r, k.target)
  {
    var supplied := SuppliedRefs(link, r);
    var rows := RefRows(RelationKind(link), DedupedRefs(supplied));
    DedupedIsKept(supplied);
    InsertedKeys(rows, k);
    if i :| 0 <= i < |rows| && rows[i].0 == k {
      assert DedupedRefs(supplied)[i] in DedupedRefs(supplied);
      assert Kept(supplied, DedupedRefs(supplied)[i]);
    }
    if Supplies(supplied, k.target) && k.kind == RelationKind(link) {
      var i :| 0 <= i < |supplied| && Survives(supplied, i) && supplied[i].memoryId == k.target;
      assert Kept(supplied, supplied[i]);
      var j :| 0 <= j < |DedupedRefs(supplied)| && DedupedRefs(supplied)[j] == supplied[i];
      assert rows[j].0 == k;
    }
  }

  /** With plain ids: the supplied references name it, or it is related. */
  lemma PlainLinkedIff(link: Link, t: Tables, r: MemoryRecord, id: string)
    requires PlainId(id) && forall s :: s in SuppliedRefs(link, r) ==> PlainId(s.memoryId)
    ensures Linked(link, t, r, id) <==>
              || (id != "" && exists s :: s in SuppliedRefs(link, r) && s.memoryId == id)
              || (id in t.records && Related(link, r, t.records[id].record))
  {
    var supplied, d := SuppliedRefs(link, r), Ref(id, Reason(link));
    DedupedIsKept(supplied);
    if x :| x in DedupedRefs(supplied) && RefKey(x) == RefKey(d) {
      assert Kept(supplied, x);
      PlainKeysInjective(x, d);
    }
    if s :| s in supplied && s.memoryId == id != "" {
      var k :| 0 <= k < |supplied| && supplied[k] == s;
      var i := FirstWithKey(supplied, k);
      PlainKeysInjective(supplied[i], s);
    }
  }

  /** The surviving references of a kind agree, and none names a detected record for another reason than the detected one
      next to that. */
  predicate Harmonious(link: Link, t: Tables, r: MemoryRecord) {
    var supplied := SuppliedRefs(link, r);
    && OneReasonEach(supplied)
    && forall i :: 0 <= i < |supplied| && Survives(supplied, i) ==> Fits(link, t, r, supplied[i])
  }

  predicate Fits(link: Link, t: Tables, r: MemoryRecord, supplied: Ref) {
    supplied.memoryId in t.records && Related(link, r, t.records[supplied.memoryId].record) ==>
      KeyTaken(DedupedRefs(SuppliedRefs(link, r)), Ref(supplied.memoryId, Reason(link)))
  }

  /** No two of the record's own relations share a kind and a target. */
  predicate DistinctRelations(r: MemoryRecord) {
    forall i, j :: 0 <= i < j < |r.relations| ==>
      r.relations[i].kind != r.relations[j].kind || r.relations[i].target != r.relations[j].target
  }

  /** Exactly when the references of one kind insert without a key clash, and what is then stored. */
  lemma MergedRows(link: Link, t: Tables, r: MemoryRecord, detected: seq<Ref>)
    requires NamesStored(detected, t, link, r) && "" !in t.records
    ensures var merged := DedupedRefs(SuppliedRefs(link, r) + detected);
            && (DistinctTargets(merged) <==> Harmonious(link, t, r))
            && (DistinctTargets(merged) ==> Inserted(RefRows(RelationKind(link), merged)) == LinksOf(link, t, r))
  {
    var supplied := SuppliedRefs(link, r);
    var kept := DedupedRefs(supplied);
    var free := Untaken(kept, detected);
    MergedRefs(supplied, detected, Reason(link));
    UntakenIs(kept, detected);
    OneReferenceIff(supplied);
    DedupedIsKept(supplied);
    if OneReasonEach(supplied) { HarmoniousIff(link, t, r, detected); }
    DistinctTargetsConcat(kept, free);
    if DistinctTargets(kept + free) {
      FreeRows(link, t, r, detected);
      RefRowsConcat(RelationKind(link), kept, free);
      InsertedConcat(RefRows(RelationKind(link), kept), RefRows(RelationKind(link), free));
    }
  }

  predicate Apart(a: seq<Ref>, b: seq<Ref>) {
    forall x, y :: x in a && y in b ==> x.memoryId != y.memoryId
  }

  lemma DistinctTargetsConcat(a: seq<Ref>, b: seq<Ref>)
    ensures DistinctTargets(a + b) <==> DistinctTargets(a) && DistinctTargets(b) && Apart(a, b)
  {
    var c := a + b;
    if DistinctTargets(c) {
      assert forall i :: 0 <= i < |a| ==> c[i] == a[i];
      assert forall i :: 0 <= i < |b| ==> c[|a| + i] == b[i];
    }
  }

  lemma HarmoniousIff(link: Link, t: Tables, r: MemoryRecord, detected: seq<Ref>)
    requires NamesStored(detected, t, link, r)
    requires OneReasonEach(SuppliedRefs(link, r))
    ensures var kept := DedupedRefs(SuppliedRefs(link, r)); Harmonious(link, t, r) <==> Apart(kept, Untaken(kept, detected))
  {
    var supplied := SuppliedRefs(link, r);
    var kept := DedupedRefs(supplied);
    DedupedIsKept(supplied);
    UntakenIs(kept, detected);
    if Apart(kept, Untaken(kept, detected)) {
      forall i | 0 <= i < |supplied| && Survives(supplied, i) ensures Fits(link, t, r, supplied[i]) {
        var s := supplied[i];
        assert Kept(supplied, s) && s in kept;
        if s.memoryId in t.records && Related(link, r, t.records[s.memoryId].record) {
          assert Ref(s.memoryId, Reason(link)) in detected;
        }
      }
    }
    if Harmonious(link, t, r) {
      forall x, y | x in kept && y in Untaken(kept, detected) ensures x.memoryId != y.memoryId {
        assert Kept(supplied, x);
        assert Fits(link, t, r, x);
        assert y == Ref(y.memoryId, Reason(link));
      }
    }
  }

  lemma RefRowsConcat(kind: string, a: seq<Ref>, b: seq<Ref>)
    ensures RefRows(kind, a + b) == RefRows(kind, a) + RefRows(kind, b)
  {
  }

  lemma FreeRow(link: Link, t: Tables, r: MemoryRecord, detected: seq<Ref>, free: seq<Ref>, k: RelationKey)
    requires NamesStored(detected, t, link, r) && free == Untaken(DedupedRefs(SuppliedRefs(link, r)), detected)
    ensures var rows, links := Inserted(RefRows(RelationKind(link), free)), FreeLinks(link, t, r, SuppliedRefs(link, r));
            (k in rows <==> k in links) && (k in rows ==> rows[k] == links[k])
  {
    var kept, d := DedupedRefs(SuppliedRefs(link, r)), Ref(k.target, Reason(link));
    UntakenIs(kept, detected);
    InsertedRefs(free, RelationKind(link), k);
    DetectedIff(link, t, r, detected, k.target);
    assert (exists x :: x in free && x.memoryId == k.target) <==> d in free;
  }

  lemma DetectedIff(link: Link, t: Tables, r: MemoryRecord, detected: seq<Ref>, id: string)
    requires NamesStored(detected, t, link, r)
    ensures Ref(id, Reason(link)) in detected <==> id in t.records && Related(link, r, t.records[id].record)
  {
  }

  lemma FreeRows(link: Link, t: Tables, r: MemoryRecord, detected: seq<Ref>)
    requires NamesStored(detected, t, link, r)
    ensures var kept := DedupedRefs(SuppliedRefs(link, r));
            Inserted(RefRows(RelationKind(link), Untaken(kept, detected))) == FreeLinks(link, t, r, SuppliedRefs(link, r))
  {
    var free := Untaken(DedupedRefs(SuppliedRefs(link, r)), detected);
    var rows, links := Inserted(RefRows(RelationKind(link), free)), FreeLinks(link, t, r, SuppliedRefs(link, r));
    forall k ensures (k in rows <==> k in links) && (k in rows ==> rows[k] == links[k]) {
      FreeRow(link, t, r, detected, free, k);
    }
  }

  /** With plain ids: supplied references to one record agree, and those to a detected record give the detected reason. */
  lemma PlainHarmoniousIff(link: Link, t: Tables, r: MemoryRecord)
    requires forall s :: s in SuppliedRefs(link, r) ==> PlainId(s.memoryId)
    requires "" !in t.records
    ensures var supplied := SuppliedRefs(link, r);
            Harmonious(link, t, r) <==>
              && (forall a, b :: a in supplied && b in supplied && a.memoryId == b.memoryId != "" ==> a.reason == b.reason)
              && (forall s :: s in supplied && s.memoryId in t.records && Related(link, r, t.records[s.memoryId].record) ==>
                    s.reason == Reason(link))
  {
    var supplied := SuppliedRefs(link, r);
    PlainOneReasonIff(supplied);
    if OneReasonEach(supplied) {
      forall s | s in supplied && s.memoryId != "" ensures Fits(link, t, r, s) <==> PlainFits(link, t, r, s) {
        PlainFitsIff(link, t, r, s);
      }
      forall s | s in supplied && s.memoryId != ""
        ensures exists i :: 0 <= i < |supplied| && Survives(supplied, i) && supplied[i] == s {
        var k :| 0 <= k < |supplied| && supplied[k] == s;
        var i := FirstWithKey(supplied, k);
        PlainKeysInjective(supplied[i], s);
      }
    }
  }

  predicate PlainFits(link: Link, t: Tables, r: MemoryRecord, s: Ref) {
    s.memoryId in t.records && Related(link, r, t.records[s.memoryId].record) ==> s.reason == Reason(link)
  }

  lemma PlainFitsIff(link: Link, t: Tables, r: MemoryRecord, s: Ref)
    requires forall x :: x in SuppliedRefs(link, r) ==> PlainId(x.memoryId)
    requires s in SuppliedRefs(link, r) && s.memoryId != "" && OneReasonEach(SuppliedRefs(link, r))
    ensures Fits(link, t, r, s) <==> PlainFits(link, t, r, s)
  {
    var supplied, d := SuppliedRefs(link, r), Ref(s.memoryId, Reason(link));
    DedupedIsKept(supplied);
    PlainOneReasonIff(supplied);
    if x :| x in DedupedRefs(supplied) && RefKey(x) == RefKey(d) {
      assert Kept(supplied, x);
      PlainKeysInjective(x, d);
    }
    if s.reason == Reason(link) {
      var k :| 0 <= k < |supplied| && supplied[k] == s;
      var i := FirstWithKey(supplied, k);
      assert Kept(supplied, supplied[i]);
    }
  }

  // ---------- All relation rows of a record ----------

  lemma DistinctKeysConcat(a: seq<(RelationKey, string)>, b: seq<(RelationKey, string)>)
    requires forall x, y :: x in a && y in b ==> x.0.kind != y.0.kind
    ensures DistinctKeys(a + b) <==> DistinctKeys(a) && DistinctKeys(b)
  {
    var c := a + b;
    if DistinctKeys(c) {
      assert forall i :: 0 <= i < |a| ==> c[i] == a[i];
      assert forall i :: 0 <= i < |b| ==> c[|a| + i] == b[i];
    }
  }

  lemma RefRowsDistinctIff(kind: string, refs: seq<Ref>)
    ensures DistinctKeys(RefRows(kind, refs)) <==> DistinctTargets(refs)
  {
    var rows := RefRows(kind, refs);
    if DistinctKeys(rows) {
      forall i, j | 0 <= i < j < |refs| ensures refs[i].memoryId != refs[j].memoryId {
        assert rows[i].0 != rows[j].0;
      }
    }
  }

  lemma PlainRowsDistinctIff(r: MemoryRecord)
    ensures DistinctKeys(PlainRows(r)) <==> DistinctRelations(r)
  {
    var rows := PlainRows(r);
    forall i, j | 0 <= i < j < |rows|
      ensures rows[i].0 == rows[j].0 <==>
                r.relations[i].kind == r.relations[j].kind && r.relations[i].target == r.relations[j].target
    {
      assert ("relation:" + r.relations[i].kind)[9..] == r.relations[i].kind;
      assert ("relation:" + r.relations[j].kind)[9..] == r.relations[j].kind;
    }
  }

  lemma KindsApart(r: MemoryRecord)
    ensures forall x :: x in PlainRows(r) ==> x.0.kind != "supersedes" && x.0.kind != "conflicts_with"
    ensures forall x :: x in RefRows("supersedes", r.supersedes) ==> x.0.kind == "supersedes"
    ensures forall x :: x in RefRows("conflicts_with", r.conflicts) ==> x.0.kind == "conflicts_with"
  {
    forall x | x in PlainRows(r) ensures x.0.kind != "supersedes" && x.0.kind != "conflicts_with" {
      assert x.0.kind[0] == 'r';
    }
  }

  /** The plain inserts succeed exactly when no two relations share a kind and a target and every reference list names
      each record once. */
  lemma RelationRowsDistinctIff(r: MemoryRecord)
    ensures DistinctKeys(RelationRows(r)) <==>
              DistinctRelations(r) && DistinctTargets(r.supersedes) && DistinctTargets(r.conflicts)
  {
    var p, s, c := PlainRows(r), RefRows("supersedes", r.supersedes), RefRows("conflicts_with", r.conflicts);
    KindsApart(r);
    DifferentKinds(s, "supersedes", c, "conflicts_with");
    PlainRowsDistinctIff(r);
    RefRowsDistinctIff("supersedes", r.supersedes);
    RefRowsDistinctIff("conflicts_with", r.conflicts);
    DistinctKeysConcat(s, c);
    assert DistinctKeys(p + (s + c)) <==> DistinctKeys(p) && DistinctKeys(s + c) by {
      DistinctKeysConcat(p, s + c);
    }
    assert RelationRows(r) == p + (s + c);
  }

  lemma {:induction false} InsertedValue(rows: seq<(RelationKey, string)>, i: nat)
    requires DistinctKeys(rows) && i < |rows|
    ensures rows[i].0 in Inserted(rows) && Inserted(rows)[rows[i].0] == rows[i].1
  {
    var n := |rows| - 1;
    if i < n { InsertedValue(rows[..n], i); }
  }

  lemma NotALink(link: Link, t: Tables, r: MemoryRecord, k: RelationKey)
    requires k.kind != RelationKind(link)
    ensures k !in LinksOf(link, t, r)
  {
    LinksOfIff(link, t, r, k);
  }

  /** The relations a record brings along are stored under their kind and target with their description. */
  lemma RelationStored(t: Tables, r: MemoryRecord, i: nat)
    requires DistinctRelations(r) && i < |r.relations|
    ensures var k := RelationKey("relation:" + r.relations[i].kind, r.relations[i].target);
            k in Links(t, r) && Links(t, r)[k] == r.relations[i].description
  {
    var rows := PlainRows(r);
    PlainRowsDistinctIff(r);
    InsertedValue(rows, i);
    KindsApart(r);
    assert rows[i] in rows;
    NotALink(SupersedesLink, t, r, rows[i].0);
    NotALink(ConflictLink, t, r, rows[i].0);
  }

  /** A link is stored with its reason: a supplied reference with the writer's, a detected one with its own. */
  lemma LinkStored(link: Link, t: Tables, r: MemoryRecord, id: string)
    requires Linked(link, t, r, id) && OneReasonEach(SuppliedRefs(link, r))
    ensures RelationKey(RelationKind(link), id) in LinksOf(link, t, r)
    ensures !Supplies(SuppliedRefs(link, r), id) ==> LinksOf(link, t, r)[RelationKey(RelationKind(link), id)] == Reason(link)
    ensures Harmonious(link, t, r) ==>
              forall i :: 0 <= i < |SuppliedRefs(link, r)| && Survives(SuppliedRefs(link, r), i)
                          && SuppliedRefs(link, r)[i].memoryId == id ==>
                LinksOf(link, t, r)[RelationKey(RelationKind(link), id)] == SuppliedRefs(link, r)[i].reason
  {
    LinksOfIff(link, t, r, RelationKey(RelationKind(link), id));
    if Harmonious(link, t, r) {
      forall i | 0 <= i < |SuppliedRefs(link, r)| && Survives(SuppliedRefs(link, r), i) && SuppliedRefs(link, r)[i].memoryId == id
        ensures LinksOf(link, t, r)[RelationKey(RelationKind(link), id)] == SuppliedRefs(link, r)[i].reason
      {
        SuppliedStored(link, t, r, i);
      }
    }
    if !Supplies(SuppliedRefs(link, r), id) {
      assert RelationKey(RelationKind(link), id) in FreeLinks(link, t, r, SuppliedRefs(link, r));
    }
  }

  lemma SuppliedStored(link: Link, t: Tables, r: MemoryRecord, i: nat)
    requires Harmonious(link, t, r) && i < |SuppliedRefs(link, r)| && Survives(SuppliedRefs(link, r), i)
    ensures var k := RelationKey(RelationKind(link), SuppliedRefs(link, r)[i].memoryId);
            k in LinksOf(link, t, r) && LinksOf(link, t, r)[k] == SuppliedRefs(link, r)[i].reason
  {
    var supplied := SuppliedRefs(link, r);
    var kept, ref := DedupedRefs(supplied), supplied[i];
    DedupedIsKept(supplied);
    OneReferenceIff(supplied);
    assert Kept(supplied, ref) && Fits(link, t, r, ref);
    var j :| 0 <= j < |kept| && kept[j] == ref;
    RefRowsDistinctIff(RelationKind(link), kept);
    InsertedValue(RefRows(RelationKind(link), kept), j);
    assert RelationKey(RelationKind(link), ref.memoryId) !in FreeLinks(link, t, r, supplied);
  }

  lemma DifferentKinds(a: seq<(RelationKey, string)>, k: string, b: seq<(RelationKey, string)>, l: string)
    requires k != l && (forall x :: x in a ==> x.0.kind == k) && (forall y :: y in b ==> y.0.kind == l)
    ensures forall x, y :: x in a && y in b ==> x.0.kind != y.0.kind
  {
  }

  lemma RelationRowsInserted(r: MemoryRecord)
    ensures Inserted(RelationRows(r)) ==
              Inserted(PlainRows(r))
              + (Inserted(RefRows("supersedes", r.supersedes)) + Inserted(RefRows("conflicts_with", r.conflicts)))
  {
    var p, s, c := PlainRows(r), RefRows("supersedes", r.supersedes), RefRows("conflicts_with", r.conflicts);
    InsertedConcat(s, c);
    InsertedConcat(p, s + c);
    assert RelationRows(r) == p + (s + c);
  }
}
