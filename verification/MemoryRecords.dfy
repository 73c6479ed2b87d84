/** Durable memory records, the text they are indexed by, and token counting. */
module MemoryRecords {
  import opened Text

  datatype MemoryFact = MemoryFact(key: string, value: string)
  datatype Relation = Relation(kind: string, target: string, description: string)
  datatype Ref = Ref(memoryId: string, reason: string)

  /** Times are instants; 0 is the source's zero time. */
  datatype MemoryRecord = MemoryRecord(
    id: string,
    kind: string,
    summary: string,
    facts: seq<MemoryFact>,
    evidenceIds: seq<string>,
    taskId: string,
    workflowId: string,
    confidence: real,
    rationale: string,
    createdAt: int,
    updatedAt: int,
    relations: seq<Relation>,
    supersedes: seq<Ref>,
    conflicts: seq<Ref>)

  const EPISODIC := "episodic"

  predicate ValidFact(f: MemoryFact) { !Blank(f.key) && !Blank(f.value) }

  predicate HasProvenance(r: MemoryRecord) {
    r.evidenceIds != [] || r.taskId != "" || r.workflowId != ""
  }

  predicate ValidRecord(r: MemoryRecord) {
    && !Blank(r.id)
    && r.kind in {EPISODIC, "semantic", "procedural", "policy"}
    && !Blank(r.summary)
    && r.facts != [] && (forall f :: f in r.facts ==> ValidFact(f))
    && HasProvenance(r)
    && 0.0 <= r.confidence <= 1.0 && !Blank(r.rationale)
    && (r.updatedAt != 0 && r.createdAt != 0 ==> r.createdAt <= r.updatedAt)
    && (forall s :: s in r.supersedes ==> s.memoryId != r.id)
    && (forall c :: c in r.conflicts ==> c.memoryId != r.id)
  }

  function FlattenFacts(facts: seq<MemoryFact>): string {
    if facts == [] then ""
    else if |facts| == 1 then facts[0].key + " " + facts[0].value
    else facts[0].key + " " + facts[0].value + " " + FlattenFacts(facts[1..])
  }

  function SemanticText(r: MemoryRecord): string {
    r.summary + " " + FlattenFacts(r.facts)
  }

  /** The word stands in the summary, or in the key or value of a fact. */
  ghost predicate Says(r: MemoryRecord, w: string) {
    w in Tokens(r.summary) || FactsSay(r.facts, w)
  }

  ghost predicate FactsSay(facts: seq<MemoryFact>, w: string) {
    exists f :: f in facts && FactSays(f, w)
  }

  predicate FactSays(f: MemoryFact, w: string) {
    w in Tokens(f.key) || w in Tokens(f.value)
  }

  lemma SpacedTokens(a: string, b: string, w: string)
    ensures w in Tokens(a + " " + b) <==> w in Tokens(a) || w in Tokens(b)
  {
    TokensJoin(a, ' ', b);
    assert a + [' '] + b == a + " " + b;
  }

  lemma {:induction false} FactTokens(facts: seq<MemoryFact>, w: string)
    ensures w in Tokens(FlattenFacts(facts)) <==> FactsSay(facts, w)
  {
    if facts == [] {
      assert Separated("") == "";
    } else {
      var f, rest := facts[0], facts[1..];
      SpacedTokens(f.key, f.value, w);
      assert facts == [f] + rest;
      assert FactsSay(facts, w) <==> FactSays(f, w) || FactsSay(rest, w);
      if rest != [] {
        SpacedTokens(f.key + " " + f.value, FlattenFacts(rest), w);
        FactTokens(rest, w);
        assert FlattenFacts(facts) == f.key + " " + f.value + " " + FlattenFacts(rest);
      }
    }
  }

  /** A record is indexed under exactly the words it says. */
  lemma RecordTokens(r: MemoryRecord, w: string)
    ensures w in Tokens(SemanticText(r)) <==> Says(r, w)
  {
    SpacedTokens(r.summary, FlattenFacts(r.facts), w);
    FactTokens(r.facts, w);
  }

  // ---------- Token counting ----------

  /** How often each token occurs. */
  function Frequency(tokens: seq<string>): (freq: map<string, int>)
    ensures forall t :: t in freq <==> t in tokens
    ensures forall t :: t in freq ==> freq[t] > 0
  {
    map t | t in tokens :: multiset(tokens)[t]
  }

  method TokenFrequency(text: string) returns (freq: map<string, int>)
    ensures freq == Frequency(Tokens(text))
  {
    var tokens := Tokens(text);
    freq := map[];
    for i := 0 to |tokens|
      invariant freq == Frequency(tokens[..i])
    {
      FrequencyNext(tokens[..i], tokens[i]);
      assert tokens[..i + 1] == tokens[..i] + [tokens[i]];
      freq := freq[tokens[i] := (if tokens[i] in freq then freq[tokens[i]] else 0) + 1];
    }
    assert tokens[..|tokens|] == tokens;
  }

  lemma FrequencyNext(tokens: seq<string>, t: string)
    ensures var before := Frequency(tokens);
            Frequency(tokens + [t]) == before[t := (if t in before then before[t] else 0) + 1]
  {
    var before := Frequency(tokens);
    var after := Frequency(tokens + [t]);
    assert multiset(tokens + [t]) == multiset(tokens) + multiset{t};
    forall x ensures x in after <==> x in before || x == t {
    }
    assert t !in tokens ==> multiset(tokens)[t] == 0;
  }

  ghost function TotalOver(freq: map<string, int>, ts: set<string>): int
    requires ts <= freq.Keys
  {
    if ts == {} then 0 else var t :| t in ts; freq[t] + TotalOver(freq, ts - {t})
  }

  lemma {:induction false} TotalWithout(freq: map<string, int>, ts: set<string>, t: string)
    requires ts <= freq.Keys && t in ts
    ensures TotalOver(freq, ts) == freq[t] + TotalOver(freq, ts - {t})
    decreases ts
  {
    var x :| x in ts && TotalOver(freq, ts) == freq[x] + TotalOver(freq, ts - {x});
    if x != t {
      TotalWithout(freq, ts - {x}, t);
      TotalWithout(freq, ts - {t}, x);
      assert ts - {x} - {t} == ts - {t} - {x};
    }
  }

  lemma {:induction false} TotalSame(a: map<string, int>, b: map<string, int>, ts: set<string>)
    requires ts <= a.Keys && ts <= b.Keys && forall t :: t in ts ==> a[t] == b[t]
    ensures TotalOver(a, ts) == TotalOver(b, ts)
    decreases ts
  {
    if t :| t in ts {
      TotalWithout(a, ts, t);
      TotalWithout(b, ts, t);
      TotalSame(a, b, ts - {t});
    }
  }

  /** The frequencies of a text add up to its token count. */
  lemma {:induction false} FrequenciesTotal(tokens: seq<string>)
    ensures TotalOver(Frequency(tokens), Frequency(tokens).Keys) == |tokens|
  {
    if tokens != [] {
      var rest, t := tokens[..|tokens| - 1], tokens[|tokens| - 1];
      assert tokens == rest + [t];
      FrequenciesTotal(rest);
      FrequencyNext(rest, t);
      var before, after := Frequency(rest), Frequency(tokens);
      TotalWithout(after, after.Keys, t);
      TotalSame(before, after, before.Keys - {t});
      assert after.Keys - {t} == before.Keys - {t};
      if t in before {
        TotalWithout(before, before.Keys, t);
      } else {
        assert before.Keys - {t} == before.Keys;
      }
    }
  }

  // ---------- Query terms ----------

  /** Trimmed, without blanks, each term at its first occurrence. */
  function Deduped(items: seq<string>): (terms: seq<string>)
    ensures forall i, j :: 0 <= i < j < |terms| ==> terms[i] != terms[j]
    ensures forall t :: t in terms <==> t != "" && t in Trimmed(items)
  {
    if items == [] then []
    else
      var before := Deduped(items[..|items| - 1]);
      var item := Trim(items[|items| - 1]);
      assert Trimmed(items) == Trimmed(items[..|items| - 1]) + [item];
      if item == "" || item in before then before else before + [item]
  }

  function Trimmed(items: seq<string>): seq<string> {
    seq(|items|, i requires 0 <= i < |items| => Trim(items[i]))
  }

  method DedupeTokens(items: seq<string>) returns (result: seq<string>)
    ensures result == Deduped(items)
  {
    var seen: set<string> := {};
    result := [];
    for i := 0 to |items|
      invariant result == Deduped(items[..i])
      invariant forall t :: t in seen <==> t in result
    {
      assert items[..i + 1][..i] == items[..i];
      var item := Trim(items[i]);
      if item == "" || item in seen { continue; }
      seen := seen + {item};
      result := result + [item];
    }
    assert items[..|items|] == items;
  }

  lemma {:induction false} TrimTwice(s: string)
    ensures Trim(Trim(s)) == Trim(s)
  {
    TrimLeftEnd(s);
    TrimRightEnd(TrimLeft(s));
  }

  lemma {:induction false} TrimLeftEnd(s: string)
    ensures TrimLeft(s) == "" || !IsSpace(TrimLeft(s)[0])
  {
    if s != "" && IsSpace(s[0]) { TrimLeftEnd(s[1..]); }
  }

  lemma {:induction false} TrimRightEnd(s: string)
    ensures TrimRight(s) <= s
    ensures TrimRight(s) == "" || !IsSpace(TrimRight(s)[|TrimRight(s)| - 1])
  {
    if s != "" && IsSpace(s[|s| - 1]) { TrimRightEnd(s[..|s| - 1]); }
  }
}
