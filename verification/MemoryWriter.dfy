/** Writing memories: detection against everything stored, and one atomic commit. */
module MemoryWriter {
  import opened Wrappers
  import opened MemoryStore
  import opened MemoryRecords
  import opened MemoryRelations
  import Text

  /** What a write gets from outside: the time, the embedding provider's answer if one is configured, and fresh names
      for the audit and event rows. */
  datatype Context = Context(
    now: int,
    minConfidence: real,
    episodicFloor: real,
    embeds: bool,
    provided: Option<Provided>,
    auditId: string,
    writeEventId: string,
    indexEventId: string)

  /** No references supplied by the caller. */
  predicate Unadorned(r: MemoryRecord) {
    r.relations == [] && r.supersedes == [] && r.conflicts == []
  }

  predicate Confident(r: MemoryRecord, c: Context) {
    var min := if c.minConfidence == 0.0 then 0.75 else c.minConfidence;
    var floor := if c.episodicFloor == 0.0 then 0.55 else c.episodicFloor;
    r.confidence >= min || (r.kind == EPISODIC && r.confidence >= floor)
  }

  /** With nothing configured: 0.75, or 0.55 for episodic memories. */
  lemma DefaultConfidence(r: MemoryRecord, c: Context)
    requires c.minConfidence == 0.0 && c.episodicFloor == 0.0
    ensures Confident(r, c) <==> r.confidence >= if r.kind == EPISODIC then 0.55 else 0.75
  {
  }

  function Stamped(r: MemoryRecord, now: int): MemoryRecord {
    r.(updatedAt := now, createdAt := if r.createdAt == 0 then now else r.createdAt)
  }

  function Prepared(r: MemoryRecord, c: Context): PreparedWrite {
    var embedding := if c.embeds && c.provided.Some? then
                       Some(Embedding(r.id, c.provided.value.provider, c.provided.value.model, c.provided.value.vector, c.now))
                     else None;
    PreparedWrite(
      r, embedding,
      if embedding.Some? then Frequency(Text.Tokens(SemanticText(r))) else map[],
      Some(Audit(c.auditId, r.id, "write", r.updatedAt)),
      [WriteEvent(c.writeEventId, r.id, "write", r.updatedAt)]
      + if embedding.Some? then [WriteEvent(c.indexEventId, r.id, "index_embedding_and_terms", c.now)] else [])
  }

  /** The records in whatever order the store lists them. */
  method List(store: SqliteMemoryStore) returns (existing: seq<MemoryRecord>)
    ensures forall e :: e in existing <==> exists id :: id in store.records && store.records[id].record == e
  {
    existing := [];
    var todo := store.records.Keys;
    while todo != {}
      invariant todo <= store.records.Keys
      invariant forall e :: e in existing <==> exists id :: id in store.records.Keys - todo && store.records[id].record == e
    {
      var id :| id in todo;
      existing := existing + [store.records[id].record];
      todo := todo - {id};
    }
  }

  /** Records and relations after an accepted write. */
  ghost predicate Wrote(before: Tables, r: MemoryRecord, now: int, after: Tables) {
    && after.records == before.records[r.id := RowOf(Stamped(r, now))]
    && after.relations == before.relations[r.id := Links(before, Stamped(r, now))]
  }

  /** The record as it is stored: stamped with the time of the write, its references kept as relation rows. */
  ghost predicate Recorded(r: MemoryRecord, now: int, row: Row) {
    && row.record == r.(updatedAt := now, createdAt := row.record.createdAt, relations := [], supersedes := [], conflicts := [])
    && row.record.createdAt == (if r.createdAt == 0 then now else r.createdAt)
    && row.searchText == SemanticText(r) && row.tokenCount == |Text.Tokens(SemanticText(r))|
  }

  /** What an accepted write leaves besides records and relations: with a provider its answer, stored for the record under
      the model it names, and the token counts of the record's text; always one audit row and one event, and a second event
      with an embedding; nothing else. */
  ghost predicate Indexed(before: Tables, r: MemoryRecord, c: Context, after: Tables) {
    && (c.embeds ==>
          && c.provided.Some?
          && var key := (r.id, c.provided.value.model);
             && key in after.embeddings && after.embeddings == before.embeddings[key := after.embeddings[key]]
             && after.embeddings[key].memoryId == r.id && after.embeddings[key].model == c.provided.value.model
             && after.embeddings[key].provider == c.provided.value.provider
             && after.embeddings[key].vector == c.provided.value.vector && after.embeddings[key].embeddedAt == c.now
             && after.terms == before.terms[r.id := Frequency(Text.Tokens(SemanticText(r)))])
    && (!c.embeds ==> after.embeddings == before.embeddings && after.terms == before.terms)
    && after.audits == before.audits[c.auditId := Audit(c.auditId, r.id, "write", c.now)]
    && var written := before.events[c.writeEventId := WriteEvent(c.writeEventId, r.id, "write", c.now)];
       after.events == if c.embeds then written[c.indexEventId := WriteEvent(c.indexEventId, r.id, "index_embedding_and_terms", c.now)]
                       else written
  }

  lemma CommitIndexes(t: Tables, r: MemoryRecord, c: Context, record: MemoryRecord)
    requires c.embeds ==> c.provided.Some?
    requires record == Stamped(r, c.now).(supersedes := record.supersedes, conflicts := record.conflicts)
    ensures Indexed(t, r, c, Committed(t, Prepared(record, c)))
  {
    assert SemanticText(record) == SemanticText(r);
    FrequenciesAreStorable(SemanticText(r));
    EventsOf(t.events, Prepared(record, c).writeEvents);
  }

  lemma EventsOf(events: map<string, WriteEvent>, added: seq<WriteEvent>)
    requires 1 <= |added| <= 2
    ensures var first := events[added[0].id := added[0]];
            EventsAfter(events, added) == if |added| == 1 then first else first[added[1].id := added[1]]
  {
    assert added[..1] == [added[0]] && added[..0] == [];
    assert EventsAfter(events, [added[0]]) == events[added[0].id := added[0]] by { assert [added[0]][..0] == []; }
    if |added| == 1 { assert added == [added[0]]; }
  }

  /** When a write is accepted. */
  predicate Accepts(t: Tables, r: MemoryRecord, c: Context) {
    && ValidRecord(r) && Confident(r, c)
    && (c.embeds ==> c.provided.Some?)
    && (c.now != 0 && r.createdAt != 0 ==> r.createdAt <= c.now)
    && DistinctRelations(r)
    && Harmonious(SupersedesLink, t, Stamped(r, c.now)) && Harmonious(ConflictLink, t, Stamped(r, c.now))
    && c.auditId !in t.audits && c.writeEventId !in t.events
    && (c.embeds ==> c.indexEventId !in t.events && c.indexEventId != c.writeEventId)
  }

  /** Without caller-supplied references the relation rows never stand in the way. */
  lemma UnadornedFits(t: Tables, r: MemoryRecord, now: int)
    requires Unadorned(r)
    ensures DistinctRelations(r)
    ensures Harmonious(SupersedesLink, t, Stamped(r, now)) && Harmonious(ConflictLink, t, Stamped(r, now))
  {
  }

  /** A supplied reference to a detected record under another reason gets the whole write refused. */
  lemma OtherReasonRefused(t: Tables, r: MemoryRecord, c: Context, link: Link, supplied: Ref)
    requires Stored(t) && supplied in SuppliedRefs(link, r) && supplied.reason != Reason(link)
    requires supplied.memoryId in t.records && Related(link, Stamped(r, c.now), t.records[supplied.memoryId].record)
    requires forall s :: s in SuppliedRefs(link, r) ==> PlainId(s.memoryId)
    ensures !Accepts(t, r, c)
  {
    PlainHarmoniousIff(link, t, Stamped(r, c.now));
  }

  function Worded(id: string, summary: string, supersedes: seq<Ref>): MemoryRecord {
    MemoryRecord(id, "semantic", summary, [MemoryFact("rent", "due")], ["e"], "task", "workflow", 0.9, "seen", 1, 1,
                 [], supersedes, [])
  }

  lemma WordedValid(id: string, summary: string, supersedes: seq<Ref>)
    requires id != "" && !Text.IsSpace(id[0]) && summary != "" && !Text.IsSpace(summary[0])
    requires forall s :: s in supersedes ==> s.memoryId != id
    ensures ValidRecord(Worded(id, summary, supersedes))
  {
    var r := Worded(id, summary, supersedes);
    assert r.rationale[0] == 's';
    assert r.facts[0].key[0] == 'r' && r.facts[0].value[0] == 'd';
  }

  function Example(id: string, supersedes: seq<Ref>): MemoryRecord {
    Worded(id, "rent is due", supersedes)
  }

  lemma ExampleValid(id: string, supersedes: seq<Ref>)
    requires id != "" && !Text.IsSpace(id[0]) && forall s :: s in supersedes ==> s.memoryId != id
    ensures ValidRecord(Example(id, supersedes))
  {
    assert "rent is due"[0] == 'r';
    WordedValid(id, "rent is due", supersedes);
  }

  function ExampleTables(): Tables {
    Tables(map["a" := RowOf(Example("a", []))], map[], map[], map[], map[], map[])
  }

  function ExampleContext(): Context { Context(2, 0.0, 0.0, false, None, "audit", "event", "") }

  lemma ExampleRestates(supersedes: seq<Ref>)
    ensures Stored(ExampleTables())
    ensures "a" in ExampleTables().records
    ensures Related(SupersedesLink, Stamped(Example("b", supersedes), 2), ExampleTables().records["a"].record)
  {
    assert "a"[0] != "b"[0];
  }

  lemma ExampleAccepted()
    ensures Accepts(ExampleTables(), Example("b", []), ExampleContext())
  {
    ExampleValid("b", []);
    UnadornedFits(ExampleTables(), Example("b", []), 2);
  }

  const EXPLICIT := "explicit supersedence"

  lemma ExampleRefused(supplied: seq<Ref>)
    requires supplied == [Ref("a", EXPLICIT)]
    ensures !Accepts(ExampleTables(), Example("b", supplied), ExampleContext())
  {
    ExampleRestates(supplied);
    assert supplied[0] in SuppliedRefs(SupersedesLink, Example("b", supplied));
    assert EXPLICIT[0] == 'e' && Reason(SupersedesLink)[0] == 's';
    assert PlainId("a");
    OtherReasonRefused(ExampleTables(), Example("b", supplied), ExampleContext(), SupersedesLink, supplied[0]);
  }

  /** A concrete one: naming the superseded record oneself, in one's own words, makes a write fail that succeeds without
      the reference. */
  lemma ExplicitReferenceRefused()
    ensures Stored(ExampleTables())
    ensures Accepts(ExampleTables(), Example("b", []), ExampleContext())
    ensures !Accepts(ExampleTables(), Example("b", [Ref("a", EXPLICIT)]), ExampleContext())
  {
    ExampleRestates([]);
    ExampleAccepted();
    ExampleRefused([Ref("a", EXPLICIT)]);
  }

  function Embedding1(): Embedding { Embedding("m", "p", "model", [], 1) }

  /** A write with an embedding, and one of other words without. */
  function FirstWrite(): PreparedWrite {
    PreparedWrite(Worded("m", "a", []), Some(Embedding1()), Frequency(Text.Tokens(SemanticText(Worded("m", "a", [])))), None, [])
  }

  function SecondWrite(): PreparedWrite {
    PreparedWrite(Worded("m", "b", []), None, map[], None, [])
  }

  lemma FirstWriteIndexed(t: Tables)
    requires t.records == map[] && t.audits == map[] && t.events == map[]
    ensures Committable(t, FirstWrite()) && IndexAgrees(Committed(t, FirstWrite()))
    ensures "m" in Committed(t, FirstWrite()).records && Committed(t, FirstWrite()).events == map[]
    ensures TermRows(Committed(t, FirstWrite()), "m") == Frequency(Text.Tokens(SemanticText(Worded("m", "a", []))))
  {
    assert "a"[0] == 'a' && "m"[0] == 'm';
    WordedValid("m", "a", []);
    assert RelationRows(Worded("m", "a", [])) == [];
    EmbeddedCommitAgrees(t, FirstWrite());
    FrequenciesAreStorable(SemanticText(Worded("m", "a", [])));
  }

  lemma SecondWriteStale(t: Tables)
    requires "m" in t.records && t.events == map[]
    requires TermRows(t, "m") == Frequency(Text.Tokens(SemanticText(Worded("m", "a", []))))
    ensures Committable(t, SecondWrite()) && !IndexAgrees(Committed(t, SecondWrite()))
  {
    SecondWriteAccepted(t);
    BareCommitAgrees(t, SecondWrite());
    OtherWords();
    assert "m" in Committed(t, SecondWrite()).records;
  }

  lemma SecondWriteAccepted(t: Tables)
    requires t.events == map[]
    ensures Committable(t, SecondWrite())
  {
    assert "b"[0] == 'b' && "m"[0] == 'm';
    WordedValid("m", "b", []);
    assert RelationRows(Worded("m", "b", [])) == [];
  }

  /** A concrete update that leaves the index behind. */
  lemma StaleIndexExample(t: Tables)
    requires t == Tables(map[], map[], map[], map[], map[], map[])
    ensures Committable(t, FirstWrite()) && IndexAgrees(Committed(t, FirstWrite()))
    ensures Committable(Committed(t, FirstWrite()), SecondWrite())
    ensures !IndexAgrees(Committed(Committed(t, FirstWrite()), SecondWrite()))
  {
    FirstWriteIndexed(t);
    SecondWriteStale(Committed(t, FirstWrite()));
  }

  lemma DifferentWords(a: string, b: string)
    requires |b| > 1 && !Text.IsSpace(Text.Separated(b)[0]) && Text.IsSpace(Text.Separated(b)[1])
    requires Text.Separated(b)[0] !in Text.Separated(a)
    ensures Frequency(Text.Tokens(a)) != Frequency(Text.Tokens(b))
  {
    var w := [Text.Separated(b)[0]];
    Text.FirstToken(b);
    Text.TokenCharacters(a);
    assert w[0] in w;
    assert w in Frequency(Text.Tokens(b)) && w !in Frequency(Text.Tokens(a));
  }

  lemma ExampleText(summary: string)
    ensures SemanticText(Worded("m", summary, [])) == summary + " rent due"
  {
    var r := Worded("m", summary, []);
    assert FlattenFacts(r.facts) == "rent" + " " + "due";
  }

  lemma OtherWords()
    ensures Frequency(Text.Tokens(SemanticText(Worded("m", "a", [])))) != Frequency(Text.Tokens(SemanticText(Worded("m", "b", []))))
  {
    ExampleText("a");
    ExampleText("b");
    DifferentWords("a" + " rent due", "b" + " rent due");
  }

  /** The record as it is committed. */
  ghost predicate Merged(t: Tables, r: MemoryRecord, now: int, conflicts: seq<Ref>, older: seq<Ref>, record: MemoryRecord) {
    && NamesStored(conflicts, t, ConflictLink, Stamped(r, now)) && NamesStored(older, t, SupersedesLink, Stamped(r, now))
    && record == Stamped(r, now).(conflicts := DedupedRefs(r.conflicts + conflicts),
                                  supersedes := DedupedRefs(r.supersedes + older))
  }

  lemma MergedRecordRows(t: Tables, r: MemoryRecord, now: int, conflicts: seq<Ref>, older: seq<Ref>, record: MemoryRecord)
    requires Stored(t) && Merged(t, r, now, conflicts, older, record)
    ensures DistinctKeys(RelationRows(record)) <==>
              && DistinctRelations(r)
              && Harmonious(SupersedesLink, t, Stamped(r, now)) && Harmonious(ConflictLink, t, Stamped(r, now))
    ensures DistinctKeys(RelationRows(record)) ==> Inserted(RelationRows(record)) == Links(t, Stamped(r, now))
  {
    MergedRows(ConflictLink, t, Stamped(r, now), conflicts);
    MergedRows(SupersedesLink, t, Stamped(r, now), older);
    RelationRowsDistinctIff(record);
    RelationRowsInserted(record);
    assert PlainRows(record) == PlainRows(Stamped(r, now));
    assert DistinctRelations(record) <==> DistinctRelations(r);
  }

  lemma PreparedCommits(t: Tables, r: MemoryRecord, c: Context, conflicts: seq<Ref>, older: seq<Ref>, record: MemoryRecord)
    requires Stored(t) && ValidRecord(r) && Confident(r, c) && (c.embeds ==> c.provided.Some?)
    requires Merged(t, r, c.now, conflicts, older, record)
    ensures Committable(t, Prepared(record, c)) <==> Accepts(t, r, c)
    ensures Committable(t, Prepared(record, c)) ==> Wrote(t, r, c.now, Committed(t, Prepared(record, c)))
  {
    MergedRecordRows(t, r, c.now, conflicts, older, record);
    MergedValid(t, r, c, conflicts, older, record);
    PreparedEvents(t, record, c);
    WrittenRow(r, c.now, record);
  }

  lemma MergedValid(t: Tables, r: MemoryRecord, c: Context, conflicts: seq<Ref>, older: seq<Ref>, record: MemoryRecord)
    requires Stored(t) && ValidRecord(r) && Merged(t, r, c.now, conflicts, older, record)
    ensures ValidRecord(record) <==> (c.now != 0 && r.createdAt != 0 ==> r.createdAt <= c.now)
  {
    DedupedFrom(r.supersedes + older);
    DedupedFrom(r.conflicts + conflicts);
    forall s | s in older ensures s.memoryId != r.id {
      assert Related(SupersedesLink, Stamped(r, c.now), t.records[s.memoryId].record);
    }
    forall s | s in conflicts ensures s.memoryId != r.id {
      assert Related(ConflictLink, Stamped(r, c.now), t.records[s.memoryId].record);
    }
  }

  lemma DedupedFrom(items: seq<Ref>)
    ensures forall r :: r in DedupedRefs(items) ==> r in items
  {
    DedupedIsKept(items);
    forall r | r in DedupedRefs(items) ensures r in items { assert Kept(items, r); }
  }

  lemma PreparedEvents(t: Tables, record: MemoryRecord, c: Context)
    requires c.embeds ==> c.provided.Some?
    ensures FreshEvents(t.events, Prepared(record, c).writeEvents)
        <==> c.writeEventId !in t.events && (c.embeds ==> c.indexEventId !in t.events && c.indexEventId != c.writeEventId)
  {
    var events := Prepared(record, c).writeEvents;
    assert events[0].id == c.writeEventId;
    assert c.embeds ==> |events| == 2 && events[1].id == c.indexEventId;
    assert !c.embeds ==> |events| == 1;
  }

  lemma WrittenRow(r: MemoryRecord, now: int, record: MemoryRecord)
    requires record == Stamped(r, now).(supersedes := record.supersedes, conflicts := record.conflicts)
    ensures RowOf(record) == RowOf(Stamped(r, now))
  {
  }

  /** All of the write or none of it, for every record: accepted exactly as stated, and then with exactly the stated
      relations. */
  method Write(store: SqliteMemoryStore, r: MemoryRecord, c: Context) returns (ok: bool)
    requires Stored(store.Snapshot())
    modifies store
    ensures Stored(store.Snapshot())
    ensures ok <==> Accepts(old(store.Snapshot()), r, c)
    ensures ok ==> Wrote(old(store.Snapshot()), r, c.now, store.Snapshot())
    ensures ok ==> r.id in store.records && Recorded(r, c.now, store.records[r.id])
    ensures ok ==> Indexed(old(store.Snapshot()), r, c, store.Snapshot())
    ensures !ok ==> store.Snapshot() == old(store.Snapshot())
    ensures ok && c.embeds ==> r.id in store.records && Agrees(store.Snapshot(), r.id)
    ensures ok && c.embeds && old(IndexAgrees(store.Snapshot())) ==> IndexAgrees(store.Snapshot())
  {
    ghost var before := store.Snapshot();
    if !ValidRecord(r) || !HasProvenance(r) || !Confident(r, c) { return false; }
    var record := Stamped(r, c.now);
    var existing := List(store);
    var detected := DetectConflicts(existing, record);
    var conflicts := DedupeRefs(r.conflicts + detected);
    var older := DetectSuperseded(existing, record);
    var supersedes := DedupeRefs(r.supersedes + older);
    NamedAreStored(detected, existing, before, ConflictLink, record);
    NamedAreStored(older, existing, before, SupersedesLink, record);
    record := record.(conflicts := conflicts, supersedes := supersedes);
    if c.embeds && c.provided.None? { return false; }
    var p := Prepared(record, c);
    PreparedCommits(before, r, c, detected, older, record);
    ok := store.CommitPreparedWrite(p);
    CommitIndexes(before, r, c, record);
    if c.embeds { EmbeddedCommitAgrees(before, p); }
  }
}
