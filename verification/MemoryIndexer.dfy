/** Rebuilding the term index and the embeddings of every stored record. */
module MemoryIndexer {
  import opened Wrappers
  import opened MemoryStore
  import opened MemoryRecords
  import Ranking
  import Text

  /** What the embedding provider answers for a record; None is an error. */
  type Provider = MemoryRecord -> Option<Provided>

  ghost predicate AgreesOn(t: Tables, ids: set<string>) {
    ids <= t.records.Keys && forall id :: id in ids ==> Agrees(t, id)
  }

  /** The tables after the terms of one record have been replaced by those of its text. */
  function Reindexed(t: Tables, id: string): Tables
    requires id in t.records
  {
    t.(terms := t.terms[id := Frequency(Text.Tokens(SemanticText(t.records[id].record)))])
  }

  lemma ReindexedStored(t: Tables, id: string)
    requires Stored(t) && id in t.records
    ensures Stored(Reindexed(t, id))
  {
    var after := Reindexed(t, id);
    assert after.records == t.records;
    forall other, term | other in after.terms && term in after.terms[other] ensures after.terms[other][term] > 0 {
      if other != id { assert t.terms[other][term] > 0; }
    }
  }

  lemma ReindexedAgrees(t: Tables, id: string, ids: set<string>)
    requires id in t.records && AgreesOn(t, ids)
    ensures AgreesOn(Reindexed(t, id), ids + {id})
  {
    var after := Reindexed(t, id);
    assert Agrees(after, id);
    forall other | other in ids && other != id ensures Agrees(after, other) {
      assert Agrees(t, other);
      assert TermRows(after, other) == TermRows(t, other);
    }
  }

  /** Only records' terms are touched. */
  ghost predicate OtherTermsKept(before: Tables, after: Tables) {
    && after == before.(terms := after.terms)
    && forall id :: id !in before.records ==> TermRows(after, id) == TermRows(before, id)
  }

  ghost predicate IndexProgress(before: Tables, t: Tables, done: set<string>) {
    Stored(t) && AgreesOn(t, done) && OtherTermsKept(before, t)
  }

  lemma IndexStart(t: Tables)
    requires Stored(t)
    ensures IndexProgress(t, t, {})
  {
  }

  method ReindexRecord(store: SqliteMemoryStore, id: string, ghost before: Tables, ghost done: set<string>)
    requires id in store.records && IndexProgress(before, store.Snapshot(), done)
    modifies store`terms
    ensures IndexProgress(before, store.Snapshot(), done + {id})
  {
    ReindexedStored(store.Snapshot(), id);
    ReindexedAgrees(store.Snapshot(), id, done);
    ghost var next := Reindexed(store.Snapshot(), id);
    var text := SemanticText(store.records[id].record);
    var freq := TokenFrequency(text);
    FrequenciesAreStorable(text);
    store.ReplaceTerms(id, freq);
    assert store.Snapshot() == next;
  }

  method BackfillLexicalTerms(store: SqliteMemoryStore) returns (indexed: nat)
    requires Stored(store.Snapshot())
    modifies store`terms
    ensures IndexProgress(old(store.Snapshot()), store.Snapshot(), store.records.Keys)
    ensures indexed == |store.records|
  {
    indexed := 0;
    ghost var before, ids := store.Snapshot(), store.records.Keys;
    var todo := store.records.Keys;
    IndexStart(before);
    assert ids - todo == {};
    while todo != {}
      invariant todo <= ids == store.records.Keys && indexed == |ids| - |todo|
      invariant IndexProgress(before, store.Snapshot(), ids - todo)
    {
      var id :| id in todo;
      ReindexRecord(store, id, before, ids - todo);
      assert ids - (todo - {id}) == (ids - todo) + {id};
      todo := todo - {id};
      indexed := indexed + 1;
    }
    assert ids - todo == ids;
  }

  predicate Embedded(t: Tables, provider: Provider, id: string, now: int)
    requires id in t.records
  {
    var response := provider(t.records[id].record);
    && response.Some?
    && (id, response.value.model) in t.embeddings
    && t.embeddings[(id, response.value.model)]
       == Embedding(id, response.value.provider, response.value.model, response.value.vector, now)
  }

  ghost predicate EmbeddedAll(t: Tables, provider: Provider, ids: set<string>, now: int) {
    ids <= t.records.Keys && forall id :: id in ids ==> Embedded(t, provider, id, now)
  }

  /** The embeddings after those of some records have been built. */
  ghost function WithEmbeddings(t: Tables, provider: Provider, done: set<string>, now: int): map<(string, string), Embedding>
    requires done <= t.records.Keys && forall id :: id in done ==> provider(t.records[id].record).Some?
  {
    t.embeddings + Built(t, provider, done, now)
  }

  ghost function Built(t: Tables, provider: Provider, done: set<string>, now: int): map<(string, string), Embedding>
    requires done <= t.records.Keys && forall id :: id in done ==> provider(t.records[id].record).Some?
  {
    map id | id in done :: ModelKey(t, provider, id) := EmbeddingOf(id, provider(t.records[id].record).value, now)
  }

  function ModelKey(t: Tables, provider: Provider, id: string): (string, string)
    requires id in t.records && provider(t.records[id].record).Some?
  {
    (id, provider(t.records[id].record).value.model)
  }

  function EmbeddingOf(id: string, p: Provided, now: int): Embedding {
    Embedding(id, p.provider, p.model, p.vector, now)
  }

  /** Exactly the records `done` were embedded, and nothing else changed. */
  ghost predicate EmbeddingProgress(before: Tables, t: Tables, provider: Provider, done: set<string>, now: int) {
    && done <= before.records.Keys && (forall id :: id in done ==> provider(before.records[id].record).Some?)
    && t == before.(embeddings := WithEmbeddings(before, provider, done, now))
  }

  lemma ProgressEmbeds(before: Tables, t: Tables, provider: Provider, done: set<string>, now: int)
    requires EmbeddingProgress(before, t, provider, done, now)
    ensures EmbeddedAll(t, provider, done, now)
    ensures t == before.(embeddings := t.embeddings)
    ensures forall key :: key in t.embeddings ==> key in before.embeddings || key.0 in before.records
  {
  }

  lemma BuiltNext(t: Tables, provider: Provider, done: set<string>, now: int, id: string, p: Provided)
    requires done <= t.records.Keys && forall x :: x in done ==> provider(t.records[x].record).Some?
    requires id in t.records && id !in done && provider(t.records[id].record) == Some(p)
    ensures Built(t, provider, done + {id}, now) == Built(t, provider, done, now)[(id, p.model) := EmbeddingOf(id, p, now)]
  {
    var a, b := Built(t, provider, done, now), Built(t, provider, done + {id}, now);
    forall x | x in done ensures ModelKey(t, provider, x) in b && b[ModelKey(t, provider, x)] == a[ModelKey(t, provider, x)] {
    }
    assert ModelKey(t, provider, id) == (id, p.model) && b[(id, p.model)] == EmbeddingOf(id, p, now);
    forall key | key in b ensures key in a || key == (id, p.model) {
    }
  }

  lemma UnionUpdate(m: map<(string, string), Embedding>, n: map<(string, string), Embedding>, k: (string, string), v: Embedding)
    ensures (m + n)[k := v] == m + n[k := v]
  {
  }

  lemma ProgressNext(before: Tables, t: Tables, provider: Provider, done: set<string>, now: int, id: string, p: Provided)
    requires EmbeddingProgress(before, t, provider, done, now)
    requires id in before.records && id !in done && provider(before.records[id].record) == Some(p)
    ensures EmbeddingProgress(before, t.(embeddings := t.embeddings[(id, p.model) := EmbeddingOf(id, p, now)]),
                              provider, done + {id}, now)
  {
    BuiltNext(before, provider, done, now, id, p);
    UnionUpdate(before.embeddings, Built(before, provider, done, now), (id, p.model), EmbeddingOf(id, p, now));
  }

  lemma ProgressStart(t: Tables, provider: Provider, now: int)
    ensures EmbeddingProgress(t, t, provider, {}, now)
  {
    assert WithEmbeddings(t, provider, {}, now) == t.embeddings;
  }

  /** The first `n` records listed. */
  function FirstListed(listing: seq<string>, n: nat): set<string>
    requires n <= |listing|
  {
    set id | id in listing[..n]
  }

  lemma ListedNext(listing: seq<string>, n: nat)
    requires n < |listing| && forall i, j :: 0 <= i < j < |listing| ==> listing[i] != listing[j]
    ensures listing[n] !in FirstListed(listing, n)
    ensures FirstListed(listing, n + 1) == FirstListed(listing, n) + {listing[n]}
  {
  }

  lemma AllListed(before: Tables, t: Tables, listing: seq<string>, provider: Provider, now: int)
    requires Ranking.Enumerates(listing, before.records.Keys)
    requires EmbeddingProgress(before, t, provider, FirstListed(listing, |listing|), now)
    ensures EmbeddedAll(t, provider, t.records.Keys, now)
  {
    ProgressEmbeds(before, t, provider, FirstListed(listing, |listing|), now);
    assert FirstListed(listing, |listing|) == t.records.Keys;
  }

  method EmbedRecord(store: SqliteMemoryStore, id: string, p: Provided, now: int,
                     ghost provider: Provider, ghost before: Tables, ghost done: set<string>)
    requires id in before.records && id !in done && provider(before.records[id].record) == Some(p)
    requires EmbeddingProgress(before, store.Snapshot(), provider, done, now)
    modifies store`embeddings
    ensures EmbeddingProgress(before, store.Snapshot(), provider, done + {id}, now)
  {
    ProgressNext(before, store.Snapshot(), provider, done, now, id, p);
    ghost var t := store.Snapshot();
    store.SaveEmbedding(Embedding(id, p.provider, p.model, p.vector, now));
    assert store.Snapshot() == t.(embeddings := t.embeddings[(id, p.model) := EmbeddingOf(id, p, now)]);
  }

  /** Embeds the records in the order the store lists them until the provider fails: exactly those listed before the first
      one it fails on. What was built stays. */
  method BackfillEmbeddings(store: SqliteMemoryStore, listing: seq<string>, provider: Provider, now: int)
    returns (ok: bool, built: nat)
    requires Ranking.Enumerates(listing, store.records.Keys)
    modifies store`embeddings
    ensures built <= |listing|
    ensures EmbeddingProgress(old(store.Snapshot()), store.Snapshot(), provider, FirstListed(listing, built), now)
    ensures ok <==> built == |listing|
    ensures !ok ==> provider(store.records[listing[built]].record).None?
    ensures ok ==> EmbeddedAll(store.Snapshot(), provider, store.records.Keys, now)
  {
    built := 0;
    ghost var before := store.Snapshot();
    ProgressStart(before, provider, now);
    assert FirstListed(listing, 0) == {};
    for i := 0 to |listing|
      invariant built == i && store.records == before.records
      invariant EmbeddingProgress(before, store.Snapshot(), provider, FirstListed(listing, i), now)
    {
      var id := listing[i];
      var response := provider(store.records[id].record);
      if response.None? { return false, built; }
      ListedNext(listing, i);
      EmbedRecord(store, id, response.value, now, provider, before, FirstListed(listing, i));
      built := built + 1;
    }
    AllListed(before, store.Snapshot(), listing, provider, now);
    ok := true;
  }

  method DeleteEmbeddings(store: SqliteMemoryStore, model: string)
    modifies store`embeddings
    ensures forall key :: key in store.embeddings <==> key in old(store.embeddings) && !(Text.Blank(model) || key.1 == model)
    ensures forall key :: key in store.embeddings ==> store.embeddings[key] == old(store.embeddings)[key]
  {
    store.embeddings := map key | key in store.embeddings && !(Text.Blank(model) || key.1 == model) :: store.embeddings[key];
  }

  /** From any state of the index, after any sequence of writes with or without terms, rebuilding makes the index agree
      with every record, even when the embedding phase then fails. Embeddings of the model that belong to no record are
      gone, the records themselves are untouched. */
  method RebuildIndexes(store: SqliteMemoryStore, listing: seq<string>, provider: Provider, model: string, now: int)
    returns (ok: bool)
    requires Stored(store.Snapshot()) && Ranking.Enumerates(listing, store.records.Keys)
    modifies store`terms, store`embeddings
    ensures Stored(store.Snapshot()) && IndexAgrees(store.Snapshot())
    ensures ok <==> model != "" && forall id :: id in store.records ==> provider(store.records[id].record).Some?
    ensures ok ==> EmbeddedAll(store.Snapshot(), provider, store.records.Keys, now)
    ensures model != "" ==> forall key :: key in store.embeddings && key.1 == model ==> key.0 in store.records
  {
    if model != "" {
      DeleteEmbeddings(store, model);
    }
    var indexed := BackfillLexicalTerms(store);
    if model == "" { return false; }
    ghost var before := store.Snapshot();
    var built;
    ok, built := BackfillEmbeddings(store, listing, provider, now);
    EmbeddingKeepsIndex(before, store.Snapshot(), provider, FirstListed(listing, built), now);
  }

  lemma EmbeddingKeepsIndex(before: Tables, t: Tables, provider: Provider, done: set<string>, now: int)
    requires EmbeddingProgress(before, t, provider, done, now)
    ensures Stored(before) ==> Stored(t)
    ensures t.records == before.records && (IndexAgrees(t) <==> IndexAgrees(before))
    ensures forall key :: key in t.embeddings ==> key in before.embeddings || key.0 in before.records
  {
    ProgressEmbeds(before, t, provider, done, now);
    assert forall id :: id in t.records ==> (Agrees(before, id) <==> Agrees(t, id));
  }
}
