/** What a lexical search over a collection of token-counted documents means: the documents that contain a query
    term, each with its BM25 score, best first. */
module LexicalScoring {
  import opened Wrappers
  import opened Numbers
  import Ranking
  import Scores

  /** A document's token counts and its length in tokens. */
  datatype Doc = Doc(freq: map<string, int>, length: int)
  type Corpus = map<string, Doc>

  /** The natural logarithm. */
  type Log = real -> real

  predicate Counted(c: Corpus) {
    && (forall id :: id in c ==> c[id].length >= 0)
    && (forall id :: id in c ==> forall t :: t in c[id].freq ==> c[id].freq[t] > 0)
  }

  function Containing(c: Corpus, term: string): set<string> {
    set id | id in c && term in c[id].freq
  }

  ghost function LengthOver(c: Corpus, ids: set<string>): int
    requires ids <= c.Keys
  {
    if ids == {} then 0 else var id :| id in ids; c[id].length + LengthOver(c, ids - {id})
  }

  lemma {:induction false} LengthWithout(c: Corpus, ids: set<string>, id: string)
    requires ids <= c.Keys && id in ids
    ensures LengthOver(c, ids) == c[id].length + LengthOver(c, ids - {id})
    decreases ids
  {
    var x :| x in ids && LengthOver(c, ids) == c[x].length + LengthOver(c, ids - {x});
    if x != id {
      LengthWithout(c, ids - {x}, id);
      LengthWithout(c, ids - {id}, x);
      assert ids - {x} - {id} == ids - {id} - {x};
    }
  }

  lemma {:induction false} LengthNonNegative(c: Corpus, ids: set<string>)
    requires Counted(c) && ids <= c.Keys
    ensures LengthOver(c, ids) >= 0
    decreases ids
  {
    if ids != {} {
      var id :| id in ids;
      LengthWithout(c, ids, id);
      LengthNonNegative(c, ids - {id});
    }
  }

  /** The average document length; 1 when every document is empty. */
  ghost function AverageLength(c: Corpus): (avg: real)
    requires Counted(c) && c != map[]
    ensures avg > 0.0
  {
    LengthNonNegative(c, c.Keys);
    var total := LengthOver(c, c.Keys);
    if total == 0 then 1.0 else total as real / |c| as real
  }

  function Idf(docCount: nat, docFreq: nat, ln: Log): real {
    ln(1.0 + (docCount as real - docFreq as real + 0.5) / (docFreq as real + 0.5))
  }

  function TermScore(docCount: nat, docFreq: nat, termFreq: int, length: int, avg: real, ln: Log): real
    requires termFreq > 0 && avg > 0.0
  {
    var tf := termFreq as real;
    var dl := MaxInt(length, 1) as real;
    assert dl / avg > 0.0;
    Idf(docCount, docFreq, ln) * ((tf * (1.2 + 1.0)) / (tf + 1.2 * (1.0 - 0.75 + 0.75 * (dl / avg))))
  }

  ghost function ScoreIn(c: Corpus, id: string, term: string, ln: Log): real
    requires Counted(c) && id in c && term in c[id].freq
  {
    TermScore(|c|, |Containing(c, term)|, c[id].freq[term], c[id].length, AverageLength(c), ln)
  }

  /** The score of a document: the sum over the query terms it contains. */
  ghost function ScoreOver(c: Corpus, id: string, terms: set<string>, ln: Log): real
    requires Counted(c) && id in c && terms <= c[id].freq.Keys
  {
    if terms == {} then 0.0
    else var t :| t in terms; ScoreIn(c, id, t, ln) + ScoreOver(c, id, terms - {t}, ln)
  }

  /** The sum does not depend on the order in which the terms are added. */
  lemma {:induction false} ScoreWithout(c: Corpus, id: string, terms: set<string>, t: string, ln: Log)
    requires Counted(c) && id in c && terms <= c[id].freq.Keys && t in terms
    ensures ScoreOver(c, id, terms, ln) == ScoreIn(c, id, t, ln) + ScoreOver(c, id, terms - {t}, ln)
    decreases terms
  {
    var x :| x in terms && ScoreOver(c, id, terms, ln) == ScoreIn(c, id, x, ln) + ScoreOver(c, id, terms - {x}, ln);
    if x != t {
      ScoreWithout(c, id, terms - {x}, t, ln);
      ScoreWithout(c, id, terms - {t}, x, ln);
      assert terms - {x} - {t} == terms - {t} - {x};
    }
  }

  // ---------- The result of a search ----------

  datatype Hit = Hit(memoryId: string, score: real, terms: set<string>)

  function HitKey(h: Hit): Ranking.Key {
    Ranking.Key(Scores.Finite(h.score), h.memoryId)
  }

  function Matched(c: Corpus, id: string, terms: set<string>): set<string>
    requires id in c
  {
    terms * c[id].freq.Keys
  }

  ghost function HitFor(c: Corpus, id: string, terms: set<string>, ln: Log): Hit
    requires Counted(c) && id in c
  {
    Hit(id, RoundTo4(ScoreOver(c, id, Matched(c, id, terms), ln)), Matched(c, id, terms))
  }

  ghost function HitSet(c: Corpus, terms: set<string>, ln: Log): set<Hit>
    requires Counted(c)
  {
    set id | id in c && Matched(c, id, terms) != {} :: HitFor(c, id, terms, ln)
  }

  /** The best documents, up to the limit if there is one. */
  ghost function Hits(c: Corpus, terms: set<string>, limit: int, ln: Log): seq<Hit>
    requires Counted(c)
  {
    Limited(Ranking.SortedSet(HitSet(c, terms, ln), HitKey), limit)
  }

  lemma HitsIdentified(c: Corpus, terms: set<string>, ln: Log)
    requires Counted(c)
    ensures Ranking.IdentifiedBy(HitSet(c, terms, ln), HitKey)
  {
  }

  /** Without a limit, a document is found exactly when it contains a query term, and it is found once. */
  lemma FoundIffMatching(c: Corpus, terms: set<string>, ln: Log, id: string)
    requires Counted(c) && id in c
    ensures (exists h :: h in Hits(c, terms, 0, ln) && h.memoryId == id)
        <==> exists t :: t in terms && t in c[id].freq
    ensures forall h :: h in Hits(c, terms, 0, ln) && h.memoryId == id ==> h == HitFor(c, id, terms, ln)
    ensures Ranking.DistinctIds(Hits(c, terms, 0, ln), HitKey)
  {
    HitsIdentified(c, terms, ln);
    Ranking.SortedSetCorrect(HitSet(c, terms, ln), HitKey);
    if t :| t in terms && t in c[id].freq {
      assert t in Matched(c, id, terms);
      assert HitFor(c, id, terms, ln) in Hits(c, terms, 0, ln);
    }
    if h :| h in Hits(c, terms, 0, ln) && h.memoryId == id {
      assert h in HitSet(c, terms, ln);
      var t :| t in Matched(c, id, terms);
      assert t in terms && t in c[id].freq;
    }
  }

  /** With a logarithm that is positive above 1, every matching document has a positive score before rounding. */
  lemma {:induction false} MatchesScorePositive(c: Corpus, id: string, terms: set<string>, ln: Log)
    requires Counted(c) && id in c && terms <= c[id].freq.Keys
    requires forall x: real :: x > 1.0 ==> ln(x) > 0.0
    ensures ScoreOver(c, id, terms, ln) >= 0.0
    ensures terms != {} ==> ScoreOver(c, id, terms, ln) > 0.0
    decreases terms
  {
    if t :| t in terms {
      ScoreWithout(c, id, terms, t, ln);
      MatchesScorePositive(c, id, terms - {t}, ln);
      DocFreqBounded(c, t);
      TermScorePositive(|c|, |Containing(c, t)|, c[id].freq[t], c[id].length, AverageLength(c), ln);
    }
  }

  lemma DocFreqBounded(c: Corpus, term: string)
    ensures |Containing(c, term)| <= |c|
  {
    Subset(Containing(c, term), c.Keys);
  }

  lemma {:induction false} Subset(a: set<string>, b: set<string>)
    requires a <= b
    ensures |a| <= |b|
  {
    if x :| x in a { Subset(a - {x}, b - {x}); }
  }

  lemma TermScorePositive(docCount: nat, docFreq: nat, termFreq: int, length: int, avg: real, ln: Log)
    requires termFreq > 0 && avg > 0.0 && docFreq <= docCount
    requires forall x: real :: x > 1.0 ==> ln(x) > 0.0
    ensures TermScore(docCount, docFreq, termFreq, length, avg, ln) > 0.0
  {
    var tf := termFreq as real;
    var dl := MaxInt(length, 1) as real;
    var share := (docCount as real - docFreq as real + 0.5) / (docFreq as real + 0.5);
    QuotientPositive(docCount as real - docFreq as real + 0.5, docFreq as real + 0.5);
    assert Idf(docCount, docFreq, ln) > 0.0;
    QuotientPositive(dl, avg);
    var weight := tf + 1.2 * (1.0 - 0.75 + 0.75 * (dl / avg));
    QuotientPositive(tf * (1.2 + 1.0), weight);
    ProductPositive(Idf(docCount, docFreq, ln), (tf * (1.2 + 1.0)) / weight);
  }

  lemma QuotientPositive(a: real, b: real)
    requires a > 0.0 && b > 0.0
    ensures a / b > 0.0
  {
  }

  lemma ProductPositive(a: real, b: real)
    requires a > 0.0 && b > 0.0
    ensures a * b > 0.0
  {
  }

  // ---------- What the ranking rewards ----------

  /** Positive and increasing above 1, as the natural logarithm is. */
  ghost predicate Increasing(ln: Log) {
    && (forall x: real :: x > 1.0 ==> ln(x) > 0.0)
    && (forall x: real, y: real :: 1.0 < x < y ==> ln(x) < ln(y))
  }

  /** A document's length as it counts: at least 1. */
  function Counts(length: int): int { MaxInt(length, 1) }

  /** How much an occurrence count weighs, of at most 2.2. */
  function Saturation(termFreq: int, length: int, avg: real): real
    requires termFreq > 0 && avg > 0.0
  {
    assert Counts(length) as real / avg > 0.0;
    (termFreq as real * 2.2) / (termFreq as real + 0.3 + 0.9 * (Counts(length) as real / avg))
  }

  lemma ScoreIsProduct(docCount: nat, docFreq: nat, termFreq: int, length: int, avg: real, ln: Log)
    requires termFreq > 0 && avg > 0.0
    ensures TermScore(docCount, docFreq, termFreq, length, avg, ln)
         == Idf(docCount, docFreq, ln) * Saturation(termFreq, length, avg)
  {
    var share := Counts(length) as real / avg;
    assert 1.2 * (1.0 - 0.75 + 0.75 * share) == 0.3 + 0.9 * share;
  }

  lemma ProductGrows(y: real, x: real, d: real, b: real)
    requires 0.0 < y <= x && 0.0 < d <= b
    ensures y * d <= x * b
    ensures y < x || d < b ==> y * d < x * b
  {
    assert x * b - y * d == (x - y) * b + y * (b - d);
    if y < x { ProductPositive(x - y, b); }
    if d < b { ProductPositive(y, b - d); }
  }

  /** More occurrences weigh more, a longer document makes them weigh less. */
  lemma SaturationGrows(tf: int, length: int, tf': int, length': int, avg: real)
    requires 0 < tf <= tf' && Counts(length') <= Counts(length) && avg > 0.0
    ensures Saturation(tf, length, avg) <= Saturation(tf', length', avg)
    ensures tf < tf' || Counts(length') < Counts(length) ==> Saturation(tf, length, avg) < Saturation(tf', length', avg)
  {
    var s, s' := Counts(length) as real / avg, Counts(length') as real / avg;
    QuotientGrowsWith(Counts(length') as real, Counts(length) as real, avg);
    var k, k' := 0.3 + 0.9 * s, 0.3 + 0.9 * s';
    OverSum(tf as real, k, tf' as real, k');
  }

  lemma QuotientGrowsWith(x: real, y: real, avg: real)
    requires 0.0 < x <= y && avg > 0.0
    ensures 0.0 < x / avg <= y / avg
    ensures x < y ==> x / avg < y / avg
  {
  }

  lemma OverSum(t: real, k: real, t': real, k': real)
    requires 0.0 < t <= t' && 0.0 < k' <= k
    ensures (t * 2.2) / (t + k) <= (t' * 2.2) / (t' + k')
    ensures t < t' || k' < k ==> (t * 2.2) / (t + k) < (t' * 2.2) / (t' + k')
  {
    CrossSums(t, k, t', k');
    CrossMultiplied(t * 2.2, t + k, t' * 2.2, t' + k');
  }

  lemma CrossSums(t: real, k: real, t': real, k': real)
    requires 0.0 < t <= t' && 0.0 < k' <= k
    ensures (t * 2.2) * (t' + k') <= (t' * 2.2) * (t + k)
    ensures t < t' || k' < k ==> (t * 2.2) * (t' + k') < (t' * 2.2) * (t + k)
  {
    ProductGrows(t, t', k', k);
    assert (t * 2.2) * (t' + k') == 2.2 * (t * t' + t * k');
    assert (t' * 2.2) * (t + k) == 2.2 * (t * t' + t' * k);
  }

  lemma CrossMultiplied(a: real, b: real, c: real, d: real)
    requires b > 0.0 && d > 0.0 && a * d <= c * b
    ensures a / b <= c / d
    ensures a * d < c * b ==> a / b < c / d
  {
    var x, y := a / b, c / d;
    assert x * b == a && y * d == c;
    ScaledOrder(x, y, b, d);
  }

  lemma ScaledOrder(x: real, y: real, b: real, d: real)
    requires b > 0.0 && d > 0.0 && (x * b) * d <= (y * d) * b
    ensures x <= y
    ensures (x * b) * d < (y * d) * b ==> x < y
  {
    ProductPositive(b, d);
    assert (x * b) * d == x * (b * d) && (y * d) * b == y * (b * d);
    assert (y - x) * (b * d) >= 0.0;
    if x > y { ProductPositive(x - y, b * d); assert false; }
  }

  /** A term weighs the more the fewer documents contain it. */
  lemma IdfFalls(docCount: nat, few: nat, many: nat, ln: Log)
    requires few <= many <= docCount && Increasing(ln)
    ensures 0.0 < Idf(docCount, many, ln) <= Idf(docCount, few, ln)
    ensures few < many ==> Idf(docCount, many, ln) < Idf(docCount, few, ln)
  {
    var n := docCount as real;
    var p, q := n - few as real + 0.5, n - many as real + 0.5;
    ProductGrows(q, p, few as real + 0.5, many as real + 0.5);
    CrossMultiplied(q, many as real + 0.5, p, few as real + 0.5);
    QuotientPositive(q, many as real + 0.5);
  }

  /** The inverse document frequency in closed form. */
  lemma IdfIs(docCount: nat, docFreq: nat, ln: Log)
    ensures Idf(docCount, docFreq, ln) == ln((docCount as real + 1.0) / (docFreq as real + 0.5))
  {
    var d := docFreq as real + 0.5;
    assert 1.0 == d / d;
    assert (docCount as real - docFreq as real + 0.5) / d + d / d == (docCount as real + 1.0) / d;
  }

  /** An only occurrence in a document of average length weighs the inverse document frequency, two weigh 1.375 times as
      much, and an only one in a document of twice that length 22/31: this fixes the two constants of the formula. */
  lemma ReferenceWeights(docCount: nat, docFreq: nat, length: int, ln: Log)
    requires length > 0
    ensures var avg, idf := length as real, Idf(docCount, docFreq, ln);
            && TermScore(docCount, docFreq, 1, length, avg, ln) == idf
            && TermScore(docCount, docFreq, 2, length, avg, ln) == 1.375 * idf
            && TermScore(docCount, docFreq, 1, 2 * length, avg, ln) == idf * (22.0 / 31.0)
  {
    var avg := length as real;
    ScoreIsProduct(docCount, docFreq, 1, length, avg, ln);
    ScoreIsProduct(docCount, docFreq, 2, length, avg, ln);
    ScoreIsProduct(docCount, docFreq, 1, 2 * length, avg, ln);
    ReferenceSaturation(length);
  }

  lemma ReferenceSaturation(length: int)
    requires length > 0
    ensures Saturation(1, length, length as real) == 1.0 && Saturation(2, length, length as real) == 1.375
    ensures Saturation(1, 2 * length, length as real) == 22.0 / 31.0
  {
    var avg := length as real;
    assert length as real / avg == 1.0;
    assert (2 * length) as real == 2.0 * avg;
    assert (2.0 * avg) / avg == 2.0;
  }

  /** In one collection, a term that occurs at least as often in a document that is no longer scores at least as much there,
      and more if it occurs more often or the document is shorter. */
  lemma ScoreInGrows(c: Corpus, a: string, b: string, term: string, ln: Log)
    requires Counted(c) && Increasing(ln) && a in c && b in c && term in c[a].freq && term in c[b].freq
    requires c[a].freq[term] <= c[b].freq[term] && Counts(c[b].length) <= Counts(c[a].length)
    ensures 0.0 < ScoreIn(c, a, term, ln) <= ScoreIn(c, b, term, ln)
    ensures c[a].freq[term] < c[b].freq[term] || Counts(c[b].length) < Counts(c[a].length) ==>
              ScoreIn(c, a, term, ln) < ScoreIn(c, b, term, ln)
  {
    var n, k, avg := |c|, |Containing(c, term)|, AverageLength(c);
    DocFreqBounded(c, term);
    TermScorePositive(n, k, c[a].freq[term], c[a].length, avg, ln);
    ScoreIsProduct(n, k, c[a].freq[term], c[a].length, avg, ln);
    ScoreIsProduct(n, k, c[b].freq[term], c[b].length, avg, ln);
    SaturationGrows(c[a].freq[term], c[a].length, c[b].freq[term], c[b].length, avg);
    IdfFalls(n, k, k, ln);
    FactorGrows(Idf(n, k, ln), Saturation(c[a].freq[term], c[a].length, avg), Saturation(c[b].freq[term], c[b].length, avg));
  }

  lemma FactorGrows(f: real, x: real, y: real)
    requires f > 0.0 && x <= y
    ensures f * x <= f * y
    ensures x < y ==> f * x < f * y
  {
  }

  /** In one document, of two terms that occur equally often the one that fewer documents contain scores more. */
  lemma RarerScoresMore(c: Corpus, id: string, rare: string, common: string, ln: Log)
    requires Counted(c) && Increasing(ln) && id in c && rare in c[id].freq && common in c[id].freq
    requires c[id].freq[rare] == c[id].freq[common] && |Containing(c, rare)| < |Containing(c, common)|
    ensures ScoreIn(c, id, common, ln) < ScoreIn(c, id, rare, ln)
  {
    var n, tf, avg := |c|, c[id].freq[rare], AverageLength(c);
    var few, many := |Containing(c, rare)|, |Containing(c, common)|;
    DocFreqBounded(c, common);
    IdfFalls(n, few, many, ln);
    SaturationPositive(tf, c[id].length, avg);
    FactorGrows(Saturation(tf, c[id].length, avg), Idf(n, many, ln), Idf(n, few, ln));
    ScoreIsProduct(n, few, tf, c[id].length, avg, ln);
    ScoreIsProduct(n, many, tf, c[id].length, avg, ln);
  }

  lemma SaturationPositive(tf: int, length: int, avg: real)
    requires tf > 0 && avg > 0.0
    ensures Saturation(tf, length, avg) > 0.0
  {
    QuotientPositive(Counts(length) as real, avg);
    QuotientPositive(tf as real * 2.2, tf as real + 0.3 + 0.9 * (Counts(length) as real / avg));
  }

  /** Document `b` fits the terms at least as well as `a`: it is no longer, and what `a` contains it contains as often. */
  predicate FitsAsWell(c: Corpus, a: string, b: string, terms: set<string>)
    requires a in c && b in c
  {
    && Counts(c[b].length) <= Counts(c[a].length)
    && forall t :: t in terms && t in c[a].freq ==> t in c[b].freq && c[a].freq[t] <= c[b].freq[t]
  }

  /** And better in some respect. */
  predicate FitsBetter(c: Corpus, a: string, b: string, terms: set<string>)
    requires a in c && b in c
  {
    && FitsAsWell(c, a, b, terms)
    && exists t :: t in terms && t in c[b].freq
         && (t !in c[a].freq || c[a].freq[t] < c[b].freq[t] || Counts(c[b].length) < Counts(c[a].length))
  }

  lemma {:induction false} ScoreOverGrows(c: Corpus, a: string, b: string, terms: set<string>, more: set<string>, ln: Log)
    requires Counted(c) && Increasing(ln) && a in c && b in c && FitsAsWell(c, a, b, terms)
    requires terms <= c[a].freq.Keys && terms <= more <= c[b].freq.Keys
    ensures ScoreOver(c, a, terms, ln) <= ScoreOver(c, b, more, ln)
    decreases more
  {
    if t :| t in more {
      ScoreWithout(c, b, more, t, ln);
      if t in terms {
        ScoreWithout(c, a, terms, t, ln);
        ScoreInGrows(c, a, b, t, ln);
      } else {
        ScoreInGrows(c, b, b, t, ln);
        assert terms - {t} == terms;
      }
      ScoreOverGrows(c, a, b, terms - {t}, more - {t}, ln);
    } else {
      assert terms == {};
    }
  }

  /** Before rounding, the better fit scores more. */
  lemma BetterFitScoresMore(c: Corpus, a: string, b: string, terms: set<string>, ln: Log)
    requires Counted(c) && Increasing(ln) && a in c && b in c && FitsAsWell(c, a, b, terms)
    ensures ScoreOver(c, a, Matched(c, a, terms), ln) <= ScoreOver(c, b, Matched(c, b, terms), ln)
    ensures FitsBetter(c, a, b, terms) ==>
              ScoreOver(c, a, Matched(c, a, terms), ln) < ScoreOver(c, b, Matched(c, b, terms), ln)
  {
    var x, y := Matched(c, a, terms), Matched(c, b, terms);
    ScoreOverGrows(c, a, b, x, y, ln);
    if FitsBetter(c, a, b, terms) {
      var t :| t in terms && t in c[b].freq
               && (t !in c[a].freq || c[a].freq[t] < c[b].freq[t] || Counts(c[b].length) < Counts(c[a].length));
      ScoreWithout(c, b, y, t, ln);
      ScoreOverGrows(c, a, b, x - {t}, y - {t}, ln);
      if t in c[a].freq {
        ScoreWithout(c, a, x, t, ln);
        ScoreInGrows(c, a, b, t, ln);
      } else {
        ScoreInGrows(c, b, b, t, ln);
        assert x - {t} == x;
      }
    }
  }

  /** The result of a search never lists a document before one that fits the query at least as well, unless rounding makes
      their scores equal. */
  lemma BetterFitFirst(c: Corpus, terms: set<string>, limit: int, ln: Log, i: nat, j: nat)
    requires Counted(c) && Increasing(ln) && i < j < |Hits(c, terms, limit, ln)|
    ensures FitsFirst(c, terms, Hits(c, terms, limit, ln)[i], Hits(c, terms, limit, ln)[j])
  {
    var all := Ranking.SortedSet(HitSet(c, terms, ln), HitKey);
    var a, b := Hits(c, terms, limit, ln)[i], Hits(c, terms, limit, ln)[j];
    HitsIdentified(c, terms, ln);
    Ranking.SortedSetCorrect(HitSet(c, terms, ln), HitKey);
    assert a == all[i] && b == all[j];
    assert a in HitSet(c, terms, ln) && b in HitSet(c, terms, ln);
    assert a == HitFor(c, a.memoryId, terms, ln) && b == HitFor(c, b.memoryId, terms, ln);
    if FitsAsWell(c, a.memoryId, b.memoryId, terms) {
      BetterFitScoresMore(c, a.memoryId, b.memoryId, terms, ln);
      RoundTo4Monotone(ScoreOver(c, a.memoryId, a.terms, ln), ScoreOver(c, b.memoryId, b.terms, ln));
    }
  }

  /** If the later of two hits fits the terms at least as well, rounding has made their scores equal. */
  predicate FitsFirst(c: Corpus, terms: set<string>, a: Hit, b: Hit) {
    && a.memoryId in c && b.memoryId in c
    && (FitsAsWell(c, a.memoryId, b.memoryId, terms) ==> a.score == b.score)
  }

  ghost predicate BestFitsFirst(c: Corpus, terms: set<string>, hits: seq<Hit>) {
    forall i, j :: 0 <= i < j < |hits| ==> FitsFirst(c, terms, hits[i], hits[j])
  }

  lemma HitsBestFirst(c: Corpus, terms: set<string>, limit: int, ln: Log)
    requires Counted(c) && Increasing(ln)
    ensures BestFitsFirst(c, terms, Hits(c, terms, limit, ln))
  {
    forall i, j | 0 <= i < j < |Hits(c, terms, limit, ln)|
      ensures FitsFirst(c, terms, Hits(c, terms, limit, ln)[i], Hits(c, terms, limit, ln)[j])
    {
      BetterFitFirst(c, terms, limit, ln, i, j);
    }
  }

  /** The average length lies between any bounds of the lengths. */
  lemma AverageLengthBetween(c: Corpus, low: int, high: int)
    requires Counted(c) && c != map[] && 0 < low && forall id :: id in c ==> low <= c[id].length <= high
    ensures low as real <= AverageLength(c) <= high as real
  {
    LengthBetween(c, c.Keys, low, high);
    var n, total := |c|, LengthOver(c, c.Keys);
    assert |c.Keys| == n > 0;
    QuotientBetween(low, high, n, total);
  }

  lemma QuotientBetween(low: int, high: int, n: int, total: int)
    requires n > 0 && 0 < low && low * n <= total <= high * n
    ensures total > 0 && low as real <= total as real / n as real <= high as real
  {
    PositiveProduct(low, n);
    BetweenProducts(low as real, high as real, n as real, total as real);
  }

  lemma PositiveProduct(a: int, b: int)
    requires a > 0 && b > 0
    ensures a * b > 0
  {
  }

  lemma BetweenProducts(low: real, high: real, n: real, total: real)
    requires n > 0.0 && low * n <= total <= high * n
    ensures low <= total / n <= high
  {
    ScaledOrder(low, total / n, n, 1.0);
    ScaledOrder(total / n, high, n, 1.0);
  }

  lemma {:induction false} LengthBetween(c: Corpus, ids: set<string>, low: int, high: int)
    requires ids <= c.Keys && forall id :: id in c ==> low <= c[id].length <= high
    ensures low * |ids| <= LengthOver(c, ids) <= high * |ids|
    decreases ids
  {
    if id :| id in ids {
      LengthWithout(c, ids, id);
      LengthBetween(c, ids - {id}, low, high);
      OneMore(low, |ids - {id}|);
      OneMore(high, |ids - {id}|);
      assert |ids| == |ids - {id}| + 1;
    }
  }

  lemma OneMore(x: int, n: nat)
    ensures x * (n + 1) == x * n + x
  {
  }
}
