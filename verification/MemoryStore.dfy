/** The SQLite memory store: its tables as maps, the atomic commit of a prepared write, the inverted term index and
    the search over it. A transaction is a snapshot of the tables that is put back on failure. */
module MemoryStore {
  import opened Wrappers
  import opened MemoryRecords
  import opened LexicalScoring
  import Text

  datatype Embedding = Embedding(memoryId: string, provider: string, model: string, vector: seq<real>, embeddedAt: int)
  datatype Audit = Audit(id: string, memoryId: string, action: string, accessedAt: int)
  datatype WriteEvent = WriteEvent(id: string, memoryId: string, action: string, occurredAt: int)

  /** A row of memory_records: the record's own columns, its search text and token count. */
  datatype Row = Row(record: MemoryRecord, searchText: string, tokenCount: int)

  /** The key of a row of memory_relations within its memory_id. */
  datatype RelationKey = RelationKey(kind: string, target: string)

  datatype PreparedWrite = PreparedWrite(
    record: MemoryRecord,
    embedding: Option<Embedding>,
    terms: map<string, int>,
    audit: Option<Audit>,
    writeEvents: seq<WriteEvent>)

  datatype Tables = Tables(
    records: map<string, Row>,
    relations: map<string, map<RelationKey, string>>,
    embeddings: map<(string, string), Embedding>,
    terms: map<string, map<string, int>>,
    audits: map<string, Audit>,
    events: map<string, WriteEvent>)

  datatype Candidate = Candidate(memoryId: string, score: real, matchedTerms: seq<string>)

  datatype Provided = Provided(provider: string, model: string, vector: seq<real>)

  // ---------- What the statements do to the tables ----------

  function RowOf(r: MemoryRecord): Row {
    var text := SemanticText(r);
    Row(r.(relations := [], supersedes := [], conflicts := []), text, |Text.Tokens(text)|)
  }

  /** The relation rows of a record in the order in which they are inserted. */
  function RelationRows(r: MemoryRecord): seq<(RelationKey, string)> {
    PlainRows(r) + RefRows("supersedes", r.supersedes) + RefRows("conflicts_with", r.conflicts)
  }

  /** The rows of the record's own relations, which nothing deduplicates. */
  function PlainRows(r: MemoryRecord): seq<(RelationKey, string)> {
    seq(|r.relations|, i requires 0 <= i < |r.relations| =>
      (RelationKey("relation:" + r.relations[i].kind, r.relations[i].target), r.relations[i].description))
  }

  function RefRows(kind: string, refs: seq<Ref>): seq<(RelationKey, string)> {
    seq(|refs|, i requires 0 <= i < |refs| => (RelationKey(kind, refs[i].memoryId), refs[i].reason))
  }

  predicate DistinctKeys(rows: seq<(RelationKey, string)>) {
    forall i, j :: 0 <= i < j < |rows| ==> rows[i].0 != rows[j].0
  }

  function Inserted(rows: seq<(RelationKey, string)>): map<RelationKey, string> {
    if rows == [] then map[] else Inserted(rows[..|rows| - 1])[rows[|rows| - 1].0 := rows[|rows| - 1].1]
  }

  lemma InsertedNext(rows: seq<(RelationKey, string)>, i: nat)
    requires i < |rows|
    ensures Inserted(rows[..i + 1]) == Inserted(rows[..i])[rows[i].0 := rows[i].1]
    ensures DistinctKeys(rows[..i + 1]) <==> DistinctKeys(rows[..i]) && rows[i].0 !in Inserted(rows[..i])
    ensures DistinctKeys(rows) && i < |rows| ==> DistinctKeys(rows[..i + 1])
  {
    assert rows[..i + 1][..i] == rows[..i];
    InsertedKeys(rows[..i], rows[i].0);
  }

  lemma {:induction false} InsertedKeys(rows: seq<(RelationKey, string)>, k: RelationKey)
    ensures k in Inserted(rows) <==> exists i :: 0 <= i < |rows| && rows[i].0 == k
  {
    if rows != [] {
      var rest := rows[..|rows| - 1];
      InsertedKeys(rest, k);
      assert rows == rest + [rows[|rows| - 1]];
    }
  }

  /** The terms that are stored: not blank and with a positive count. */
  function Storable(terms: map<string, int>): map<string, int> {
    map t | t in terms && !Text.Blank(t) && terms[t] > 0 :: terms[t]
  }

  ghost function StorableOutside(terms: map<string, int>, todo: set<string>): map<string, int> {
    map t | t in terms && t !in todo && !Text.Blank(t) && terms[t] > 0 :: terms[t]
  }

  predicate FreshEvents(events: map<string, WriteEvent>, added: seq<WriteEvent>) {
    && (forall e :: e in added ==> e.id !in events)
    && (forall i, j :: 0 <= i < j < |added| ==> added[i].id != added[j].id)
  }

  function EventsAfter(events: map<string, WriteEvent>, added: seq<WriteEvent>): map<string, WriteEvent> {
    if added == [] then events
    else EventsAfter(events, added[..|added| - 1])[added[|added| - 1].id := added[|added| - 1]]
  }

  /** A prepared write is accepted exactly when its record is valid and no insert meets a row with its primary key. */
  predicate Committable(t: Tables, p: PreparedWrite) {
    && ValidRecord(p.record)
    && DistinctKeys(RelationRows(p.record))
    && (p.audit.Some? ==> p.audit.value.id !in t.audits)
    && FreshEvents(t.events, p.writeEvents)
  }

  function Committed(t: Tables, p: PreparedWrite): Tables {
    var id := p.record.id;
    Tables(
      t.records[id := RowOf(p.record)],
      t.relations[id := Inserted(RelationRows(p.record))],
      if p.embedding.Some? then t.embeddings[(p.embedding.value.memoryId, p.embedding.value.model) := p.embedding.value]
      else t.embeddings,
      if p.embedding.Some? then t.terms[id := Storable(p.terms)] else t.terms,
      if p.audit.Some? then t.audits[p.audit.value.id := p.audit.value] else t.audits,
      EventsAfter(t.events, p.writeEvents))
  }

  // ---------- Index agreement ----------

  function TermRows(t: Tables, id: string): map<string, int> {
    if id in t.terms then t.terms[id] else map[]
  }

  /** The index holds exactly the token counts of the record's text. */
  predicate Agrees(t: Tables, id: string)
    requires id in t.records
  {
    TermRows(t, id) == Frequency(Text.Tokens(SemanticText(t.records[id].record)))
  }

  predicate IndexAgrees(t: Tables) {
    forall id :: id in t.records ==> Agrees(t, id)
  }

  /** The collection as the index shows it, and as a scan of the record texts would show it. */
  function IndexView(t: Tables): Corpus {
    map id | id in t.records :: Doc(TermRows(t, id), t.records[id].tokenCount)
  }

  function ScanView(t: Tables): Corpus {
    map id | id in t.records ::
      var tokens := Text.Tokens(SemanticText(t.records[id].record)); Doc(Frequency(tokens), |tokens|)
  }

  /** What every operation keeps, whatever the callers pass: each record row is stored under its id with the text and
      token count of its record, and stored counts are positive. */
  ghost predicate Stored(t: Tables) {
    && (forall id :: id in t.records ==> id != "" && t.records[id].record.id == id)
    && (forall id :: id in t.records ==> t.records[id] == RowOf(t.records[id].record))
    && (forall id :: id in t.terms ==> forall term :: term in t.terms[id] ==> t.terms[id][term] > 0)
  }

  lemma StoredIsCounted(t: Tables)
    requires Stored(t)
    ensures Counted(IndexView(t)) && Counted(ScanView(t))
  {
  }

  lemma AgreementInViews(t: Tables, id: string)
    requires Stored(t) && id in t.records
    ensures Agrees(t, id) <==> IndexView(t)[id] == ScanView(t)[id]
  {
    assert t.records[id] == RowOf(t.records[id].record);
    assert SemanticText(t.records[id].record) == t.records[id].searchText;
  }

  /** The index agrees with the records exactly when it shows the collection a scan would show. */
  lemma AgreementIsScanView(t: Tables)
    requires Stored(t)
    ensures IndexAgrees(t) <==> IndexView(t) == ScanView(t)
  {
    var index, scan := IndexView(t), ScanView(t);
    assert index.Keys == scan.Keys == t.records.Keys;
    SameCorpus(index, scan);
    forall id | id in t.records ensures Agrees(t, id) <==> index[id] == scan[id] {
      AgreementInViews(t, id);
    }
  }

  lemma SameCorpus(a: Corpus, b: Corpus)
    requires a.Keys == b.Keys
    ensures a == b <==> forall id :: id in a ==> a[id] == b[id]
  {
  }

  /** The terms a writer prepares are all stored. */
  lemma FrequenciesAreStorable(text: string)
    ensures Storable(Frequency(Text.Tokens(text))) == Frequency(Text.Tokens(text))
  {
    forall t | t in Frequency(Text.Tokens(text)) ensures !Text.Blank(t) {
      Text.TrimKeepsWords(t);
    }
  }

  /** A commit touches the index and the records of its own id only. */
  lemma CommitIsLocal(t: Tables, p: PreparedWrite, id: string)
    requires id in t.records && id != p.record.id
    ensures id in Committed(t, p).records && Committed(t, p).records[id] == t.records[id]
    ensures Agrees(Committed(t, p), id) <==> Agrees(t, id)
  {
  }

  /** With an embedding, and the terms of the record's own text, the written record agrees. */
  lemma EmbeddedCommitAgrees(t: Tables, p: PreparedWrite)
    requires p.embedding.Some? && p.terms == Frequency(Text.Tokens(SemanticText(p.record)))
    ensures Agrees(Committed(t, p), p.record.id)
    ensures IndexAgrees(t) ==> IndexAgrees(Committed(t, p))
  {
    FrequenciesAreStorable(SemanticText(p.record));
    forall id | IndexAgrees(t) && id in Committed(t, p).records ensures Agrees(Committed(t, p), id) {
      if id != p.record.id { CommitIsLocal(t, p, id); }
    }
  }

  /** Without one, it agrees exactly when the terms already stored for its id are those of the new text: replacing a
      record by one with other words, or adding one, leaves the index behind. */
  lemma BareCommitAgrees(t: Tables, p: PreparedWrite)
    requires p.embedding.None?
    ensures Agrees(Committed(t, p), p.record.id)
        <==> TermRows(t, p.record.id) == Frequency(Text.Tokens(SemanticText(p.record)))
    ensures IndexAgrees(t) ==>
              (IndexAgrees(Committed(t, p)) <==> TermRows(t, p.record.id) == Frequency(Text.Tokens(SemanticText(p.record))))
  {
    var after := Committed(t, p);
    if IndexAgrees(t) && Agrees(after, p.record.id) {
      forall id | id in after.records ensures Agrees(after, id) {
        if id != p.record.id { CommitIsLocal(t, p, id); }
      }
    }
  }

  // ---------- The store ----------

  lemma {:induction false} EventKeys(events: map<string, WriteEvent>, added: seq<WriteEvent>, id: string)
    ensures id in EventsAfter(events, added) <==> id in events || exists k :: 0 <= k < |added| && added[k].id == id
  {
    if added != [] {
      var n := |added| - 1;
      EventKeys(events, added[..n], id);
      if k :| 0 <= k < n && added[k].id == id { assert added[..n][k].id == id; }
    }
  }

  lemma EventsNext(events: map<string, WriteEvent>, added: seq<WriteEvent>, i: nat)
    requires i < |added| && FreshEvents(events, added[..i])
    ensures EventsAfter(events, added[..i + 1]) == EventsAfter(events, added[..i])[added[i].id := added[i]]
    ensures FreshEvents(events, added[..i + 1]) <==> added[i].id !in EventsAfter(events, added[..i])
    ensures FreshEvents(events, added) ==> FreshEvents(events, added[..i + 1])
  {
    var before, next := added[..i], added[..i + 1];
    assert next[..i] == before && next[i] == added[i];
    EventKeys(events, before, added[i].id);
    if k :| 0 <= k < i && before[k].id == added[i].id {
      assert next[k].id == next[i].id;
    } else if added[i].id !in events {
      forall x, y | 0 <= x < y < |next| ensures next[x].id != next[y].id {
        assert y < i ==> before[x].id != before[y].id;
        assert before[x].id == next[x].id;
      }
    }
    assert added[i] in next;
  }

  class SqliteMemoryStore {
    var records: map<string, Row>
    var relations: map<string, map<RelationKey, string>>
    var embeddings: map<(string, string), Embedding>
    var terms: map<string, map<string, int>>
    var audits: map<string, Audit>
    var events: map<string, WriteEvent>

    function Snapshot(): Tables
      reads this
    {
      Tables(records, relations, embeddings, terms, audits, events)
    }

    constructor ()
      ensures Stored(Snapshot()) && Snapshot() == Tables(map[], map[], map[], map[], map[], map[])
    {
      records, relations, embeddings, terms, audits, events := map[], map[], map[], map[], map[], map[];
    }

    method Restore(t: Tables)
      modifies this
      ensures Snapshot() == t
    {
      records, relations, embeddings, terms, audits, events :=
        t.records, t.relations, t.embeddings, t.terms, t.audits, t.events;
    }

    method PutMemoryRecord(r: MemoryRecord) returns (ok: bool)
      modifies this`records
      ensures ok <==> ValidRecord(r)
      ensures records == if ok then old(records)[r.id := RowOf(r)] else old(records)
    {
      if !ValidRecord(r) { return false; }
      records := records[r.id := RowOf(r)];
      return true;
    }

    /** Deletes the record's relation rows, then inserts the new ones until one meets its own key. */
    method SaveRelations(id: string, r: MemoryRecord) returns (ok: bool)
      modifies this`relations
      ensures ok <==> DistinctKeys(RelationRows(r))
      ensures ok ==> relations == old(relations)[id := Inserted(RelationRows(r))]
    {
      ok := InsertRelations(id, RelationRows(r));
    }

    method InsertRelations(id: string, rows: seq<(RelationKey, string)>) returns (ok: bool)
      modifies this`relations
      ensures ok <==> DistinctKeys(rows)
      ensures ok ==> relations == old(relations)[id := Inserted(rows)]
    {
      relations := relations[id := map[]];
      for i := 0 to |rows|
        invariant id in relations && relations == old(relations)[id := relations[id]]
        invariant relations[id] == Inserted(rows[..i]) && DistinctKeys(rows[..i])
      {
        InsertedNext(rows, i);
        if rows[i].0 in relations[id] { return false; }
        relations := relations[id := relations[id][rows[i].0 := rows[i].1]];
      }
      assert rows[..|rows|] == rows;
      return true;
    }

    method SaveEmbedding(e: Embedding)
      modifies this`embeddings
      ensures embeddings == old(embeddings)[(e.memoryId, e.model) := e]
    {
      embeddings := embeddings[(e.memoryId, e.model) := e];
    }

    /** Deletes the record's term rows, then inserts the storable terms in whatever order the map is ranged over. */
    method ReplaceTerms(id: string, newTerms: map<string, int>)
      modifies this`terms
      ensures terms == old(terms)[id := Storable(newTerms)]
    {
      terms := terms[id := map[]];
      var todo := newTerms.Keys;
      while todo != {}
        invariant todo <= newTerms.Keys
        invariant id in terms && terms == old(terms)[id := terms[id]]
        invariant terms[id] == StorableOutside(newTerms, todo)
      {
        var t :| t in todo;
        todo := todo - {t};
        if Text.Blank(t) || newTerms[t] <= 0 { continue; }
        terms := terms[id := terms[id][t := newTerms[t]]];
      }
      assert Storable(newTerms) == StorableOutside(newTerms, {});
    }

    method AppendAccess(a: Audit) returns (ok: bool)
      modifies this`audits
      ensures ok <==> a.id !in old(audits)
      ensures ok ==> audits == old(audits)[a.id := a]
    {
      if a.id in audits { return false; }
      audits := audits[a.id := a];
      return true;
    }

    method AppendWriteEvents(added: seq<WriteEvent>) returns (ok: bool)
      modifies this`events
      ensures ok <==> FreshEvents(old(events), added)
      ensures ok ==> events == EventsAfter(old(events), added)
    {
      for i := 0 to |added|
        invariant events == EventsAfter(old(events), added[..i]) && FreshEvents(old(events), added[..i])
      {
        EventsNext(old(events), added, i);
        if added[i].id in events { return false; }
        events := events[added[i].id := added[i]];
      }
      assert added[..|added|] == added;
      return true;
    }

    method Put(r: MemoryRecord) returns (ok: bool)
      requires Stored(Snapshot())
      modifies this
      ensures Stored(Snapshot())
      ensures ok <==> ValidRecord(r)
      ensures Snapshot() == if ok then old(Snapshot()).(records := old(records)[r.id := RowOf(r)]) else old(Snapshot())
    {
      ok := PutMemoryRecord(r);
    }

    /** All of the write or none of it. */
    method CommitPreparedWrite(p: PreparedWrite) returns (ok: bool)
      requires Stored(Snapshot())
      modifies this
      ensures Stored(Snapshot())
      ensures ok <==> Committable(old(Snapshot()), p)
      ensures Snapshot() == if ok then Committed(old(Snapshot()), p) else old(Snapshot())
    {
      var before := Snapshot();
      ok := WriteAll(p);
      if !ok {
        Restore(before);
      } else {
        CommittedStored(before, p);
      }
    }

    /** The statements of the transaction, up to the first that fails. */
    method WriteAll(p: PreparedWrite) returns (ok: bool)
      modifies this
      ensures ok <==> Committable(old(Snapshot()), p)
      ensures ok ==> Snapshot() == Committed(old(Snapshot()), p)
    {
      ok := PutMemoryRecord(p.record);
      if !ok { return; }
      ok := SaveRelations(p.record.id, p.record);
      if !ok { return; }
      if p.embedding.Some? {
        SaveEmbedding(p.embedding.value);
        ReplaceTerms(p.record.id, p.terms);
      }
      if p.audit.Some? {
        ok := AppendAccess(p.audit.value);
        if !ok { return; }
      }
      ok := AppendWriteEvents(p.writeEvents);
    }
  }

  lemma CommittedStored(t: Tables, p: PreparedWrite)
    requires Stored(t) && Committable(t, p)
    ensures Stored(Committed(t, p))
  {
  }
}
