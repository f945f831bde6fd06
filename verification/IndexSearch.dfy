/** BM25 search: scores accumulated term by term against naive scoring per document. */
module IndexSearch {
  import opened Sequences
  import opened Domain
  import opened IndexContents
  import opened IndexWriter

  const BM25_K1: real := 1.2
  const BM25_B: real := 0.75

  /** ln is the natural logarithm; only its sign above 1 matters here. */
  datatype Config = Config(tok: Tokenizer, titleBoost: real, ln: real -> real)

  datatype SearchResult = SearchResult(ref: NoteRef, score: real, updatedAt: int)

  ghost predicate PositiveAboveOne(ln: real -> real) {
    forall x: real :: x > 1.0 ==> ln(x) > 0.0
  }

  // ----- The formula -----

  function Norm(len: nat, avg: real): (r: real)
    requires avg > 0.0
    ensures r >= 0.25
  {
    RatioNonNegative(len as real, avg);
    1.0 - BM25_B + BM25_B * (len as real / avg)
  }

  lemma RatioNonNegative(a: real, b: real)
    requires a >= 0.0 && b > 0.0
    ensures a / b >= 0.0
  {
  }

  lemma RatioPositive(a: real, b: real)
    requires a > 0.0 && b > 0.0
    ensures a / b > 0.0
  {
  }

  /** The saturating term-frequency factor: zero without the term, always under K1 + 1. */
  function Saturation(tf: nat, len: nat, avg: real): (r: real)
    requires avg > 0.0
    ensures 0.0 <= r < BM25_K1 + 1.0
    ensures tf > 0 ==> r > 0.0
  {
    var d := tf as real + BM25_K1 * Norm(len, avg);
    SaturationBounds(tf as real, d);
    tf as real * (BM25_K1 + 1.0) / d
  }

  lemma SaturationBounds(tf: real, d: real)
    requires tf >= 0.0 && d > tf
    ensures 0.0 <= tf * (BM25_K1 + 1.0) / d < BM25_K1 + 1.0
    ensures tf > 0.0 ==> tf * (BM25_K1 + 1.0) / d > 0.0
  {
    var q := tf * (BM25_K1 + 1.0) / d;
    assert q * d == tf * (BM25_K1 + 1.0);
  }

  /** Inverse document frequency of a term held by df of n documents. */
  function Idf(ln: real -> real, n: nat, df: nat): real {
    ln(1.0 + (n as real - df as real + 0.5) / (df as real + 0.5))
  }

  lemma IdfPositive(ln: real -> real, n: nat, df: nat)
    requires PositiveAboveOne(ln) && df <= n
    ensures Idf(ln, n, df) > 0.0
  {
    var a, b := n as real - df as real + 0.5, df as real + 0.5;
    assert a > 0.0 && b > 0.0;
    RatioPositive(a, b);
  }

  /** What one occurrence of a query term adds to a document's score. */
  function TermScore(cfg: Config, n: nat, df: nat, avgBody: real, avgTitle: real, p: Posting, bodyLen: nat,
                     titleLen: nat): real {
    var idf := Idf(cfg.ln, n, df);
    (if avgBody > 0.0 then idf * Saturation(p.bodyTF, bodyLen, avgBody) else 0.0)
    + (if avgTitle > 0.0 && p.titleTF > 0 then idf * Saturation(p.titleTF, titleLen, avgTitle) * cfg.titleBoost
      else 0.0)
  }

  // ----- Naive scoring from the documents alone -----

  function DocsWith(tok: Tokenizer, corpus: map<DocKey, Doc>, t: Term): set<DocKey> {
    set k | k in corpus && Occurs(tok, t, corpus[k])
  }

  ghost function NaiveTermScore(cfg: Config, corpus: map<DocKey, Doc>, t: Term, key: DocKey): real {
    if key in DocsWith(cfg.tok, corpus, t) then
      TermScore(cfg, |corpus|, |DocsWith(cfg.tok, corpus, t)|,
                Average(BodyLengths(MetasOf(cfg.tok, corpus))), Average(TitleLengths(MetasOf(cfg.tok, corpus))),
                PostingOf(cfg.tok, t, corpus[key]), |cfg.tok(corpus[key].body)|, |cfg.tok(corpus[key].title)|)
    else 0.0
  }

  /** A repeated query term counts as often as it is repeated. */
  ghost function NaiveScore(cfg: Config, corpus: map<DocKey, Doc>, terms: seq<Term>, key: DocKey): real {
    if terms == [] then 0.0
    else NaiveScore(cfg, corpus, terms[..|terms| - 1], key) + NaiveTermScore(cfg, corpus, terms[|terms| - 1], key)
  }

  ghost predicate Hit(cfg: Config, corpus: map<DocKey, Doc>, terms: seq<Term>, key: DocKey) {
    exists i :: 0 <= i < |terms| && key in DocsWith(cfg.tok, corpus, terms[i])
  }

  lemma HitNext(cfg: Config, corpus: map<DocKey, Doc>, terms: seq<Term>, t: Term, key: DocKey)
    ensures Hit(cfg, corpus, terms + [t], key) <==> Hit(cfg, corpus, terms, key) || key in DocsWith(cfg.tok, corpus, t)
  {
    var more := terms + [t];
    if Hit(cfg, corpus, terms, key) {
      var i :| 0 <= i < |terms| && key in DocsWith(cfg.tok, corpus, terms[i]);
      assert more[i] == terms[i];
    }
    if key in DocsWith(cfg.tok, corpus, t) { assert more[|terms|] == t; }
  }

  // ----- The published formula, written out -----

  /** The share of one field: n documents, df of them with the term, which the field holds tf times
      among len terms, avg being the average over all documents. */
  ghost function Share(ln: real -> real, n: nat, df: nat, tf: nat, len: nat, avg: real): real
    requires avg > 0.0
  {
    RatioNonNegative(len as real, avg);
    ln(1.0 + (n as real - df as real + 0.5) / (df as real + 0.5)) * (tf as real * 2.2)
    / (tf as real + 1.2 * (0.25 + 0.75 * (len as real / avg)))
  }

  ghost function Holding(tok: Tokenizer, corpus: map<DocKey, Doc>, t: Term): set<DocKey> {
    set k | k in corpus && (t in tok(corpus[k].body) || t in tok(corpus[k].title))
  }

  ghost function MeanBody(tok: Tokenizer, corpus: map<DocKey, Doc>): real
    requires corpus != map[]
  {
    MapSum(map k | k in corpus :: |tok(corpus[k].body)|) as real / |corpus| as real
  }

  ghost function MeanTitle(tok: Tokenizer, corpus: map<DocKey, Doc>): real
    requires corpus != map[]
  {
    MapSum(map k | k in corpus :: |tok(corpus[k].title)|) as real / |corpus| as real
  }

  /** What one query term is worth to a document. */
  ghost function Bm25Term(cfg: Config, corpus: map<DocKey, Doc>, t: Term, key: DocKey): real
    requires key in corpus
  {
    var body, title := cfg.tok(corpus[key].body), cfg.tok(corpus[key].title);
    if t !in body && t !in title then 0.0
    else BothShares(cfg, |corpus|, |Holding(cfg.tok, corpus, t)|, multiset(body)[t], |body|, MeanBody(cfg.tok, corpus),
                    multiset(title)[t], |title|, MeanTitle(cfg.tok, corpus))
  }

  /** The body's share and, boosted, the title's; a field that is empty everywhere has none. */
  ghost function BothShares(cfg: Config, n: nat, df: nat, bodyTF: nat, bodyLen: nat, avgBody: real,
                            titleTF: nat, titleLen: nat, avgTitle: real): real
  {
    (if avgBody > 0.0 then Share(cfg.ln, n, df, bodyTF, bodyLen, avgBody) else 0.0)
    + (if avgTitle > 0.0 && titleTF > 0 then Share(cfg.ln, n, df, titleTF, titleLen, avgTitle) * cfg.titleBoost
      else 0.0)
  }

  ghost function Bm25(cfg: Config, corpus: map<DocKey, Doc>, terms: seq<Term>, key: DocKey): real
    requires key in corpus
  {
    if terms == [] then 0.0
    else Bm25(cfg, corpus, terms[..|terms| - 1], key) + Bm25Term(cfg, corpus, terms[|terms| - 1], key)
  }

  lemma ShareIs(ln: real -> real, n: nat, df: nat, tf: nat, len: nat, avg: real)
    requires avg > 0.0
    ensures Share(ln, n, df, tf, len, avg) == Idf(ln, n, df) * Saturation(tf, len, avg)
  {
    var d := tf as real + BM25_K1 * Norm(len, avg);
    assert d == tf as real + 1.2 * (0.25 + 0.75 * (len as real / avg));
    ProductQuotient(Idf(ln, n, df), tf as real * 2.2, d);
  }

  lemma ProductQuotient(x: real, y: real, d: real)
    requires d != 0.0
    ensures x * y / d == x * (y / d)
  {
    assert y == (y / d) * d;
    assert x * y == (x * (y / d)) * d;
  }

  lemma MeansAre(tok: Tokenizer, corpus: map<DocKey, Doc>)
    requires corpus != map[]
    ensures MeanBody(tok, corpus) == Average(BodyLengths(MetasOf(tok, corpus)))
    ensures MeanTitle(tok, corpus) == Average(TitleLengths(MetasOf(tok, corpus)))
  {
    var metas := MetasOf(tok, corpus);
    assert BodyLengths(metas) == map k | k in corpus :: |tok(corpus[k].body)|;
    assert TitleLengths(metas) == map k | k in corpus :: |tok(corpus[k].title)|;
    assert BodyLengths(metas).Keys == corpus.Keys && TitleLengths(metas).Keys == corpus.Keys;
    assert |BodyLengths(metas)| == |corpus| && |TitleLengths(metas)| == |corpus|;
  }

  lemma TermIsBm25(cfg: Config, corpus: map<DocKey, Doc>, t: Term, key: DocKey)
    requires key in corpus
    ensures NaiveTermScore(cfg, corpus, t, key) == Bm25Term(cfg, corpus, t, key)
  {
    var body, title := cfg.tok(corpus[key].body), cfg.tok(corpus[key].title);
    assert DocsWith(cfg.tok, corpus, t) == Holding(cfg.tok, corpus, t);
    MeansAre(cfg.tok, corpus);
    TermScoreIsShares(cfg, |corpus|, |Holding(cfg.tok, corpus, t)|, MeanBody(cfg.tok, corpus),
                      MeanTitle(cfg.tok, corpus), PostingOf(cfg.tok, t, corpus[key]), |body|, |title|);
  }

  lemma TermScoreIsShares(cfg: Config, n: nat, df: nat, avgBody: real, avgTitle: real, p: Posting, bodyLen: nat,
                          titleLen: nat)
    ensures TermScore(cfg, n, df, avgBody, avgTitle, p, bodyLen, titleLen)
         == BothShares(cfg, n, df, p.bodyTF, bodyLen, avgBody, p.titleTF, titleLen, avgTitle)
  {
    if avgBody > 0.0 { ShareIs(cfg.ln, n, df, p.bodyTF, bodyLen, avgBody); }
    if avgTitle > 0.0 { ShareIs(cfg.ln, n, df, p.titleTF, titleLen, avgTitle); }
  }

  /** The naive score is the published formula. */
  lemma {:induction false} NaiveIsBm25(cfg: Config, corpus: map<DocKey, Doc>, terms: seq<Term>, key: DocKey)
    requires key in corpus
    ensures NaiveScore(cfg, corpus, terms, key) == Bm25(cfg, corpus, terms, key)
  {
    if terms != [] {
      NaiveIsBm25(cfg, corpus, terms[..|terms| - 1], key);
      TermIsBm25(cfg, corpus, terms[|terms| - 1], key);
    }
  }

  // ----- Bounds that hold of every index -----

  lemma MapSumAtLeast(m: map<DocKey, nat>, k: DocKey)
    requires k in m
    ensures MapSum(m) >= m[k]
  {
    MapSumRemove(m, k);
  }

  lemma AveragePositive(m: map<DocKey, nat>, k: DocKey)
    requires k in m && m[k] > 0
    ensures Average(m) > 0.0
  {
    MapSumAtLeast(m, k);
    var a, b := MapSum(m) as real, |m| as real;
    assert |m| > 0;
    RatioPositive(a, b);
  }

  lemma DocsWithBound(tok: Tokenizer, corpus: map<DocKey, Doc>, t: Term)
    ensures |DocsWith(tok, corpus, t)| <= |corpus|
  {
    SubsetBound(DocsWith(tok, corpus, t), corpus.Keys);
  }

  lemma SubsetBound(a: set<DocKey>, b: set<DocKey>)
    requires a <= b
    ensures |a| <= |b|
  {
    assert b == a + (b - a);
  }

  lemma HeldTermAverages(tok: Tokenizer, corpus: map<DocKey, Doc>, t: Term, key: DocKey)
    requires key in DocsWith(tok, corpus, t)
    ensures var p := PostingOf(tok, t, corpus[key]);
      && (p.bodyTF > 0 || p.titleTF > 0)
      && (p.bodyTF > 0 ==> Average(BodyLengths(MetasOf(tok, corpus))) > 0.0)
      && (p.titleTF > 0 ==> Average(TitleLengths(MetasOf(tok, corpus))) > 0.0)
  {
    var doc := corpus[key];
    if t in tok(doc.body) { AveragePositive(BodyLengths(MetasOf(tok, corpus)), key); }
    if t in tok(doc.title) { AveragePositive(TitleLengths(MetasOf(tok, corpus)), key); }
  }

  lemma TermScoreInRange(cfg: Config, n: nat, df: nat, avgBody: real, avgTitle: real, p: Posting, bodyLen: nat,
                         titleLen: nat)
    requires cfg.titleBoost > 0.0 && Idf(cfg.ln, n, df) > 0.0
    requires p.bodyTF > 0 || p.titleTF > 0
    requires p.bodyTF > 0 ==> avgBody > 0.0
    requires p.titleTF > 0 ==> avgTitle > 0.0
    ensures 0.0 < TermScore(cfg, n, df, avgBody, avgTitle, p, bodyLen, titleLen)
      < Idf(cfg.ln, n, df) * (BM25_K1 + 1.0) * (1.0 + cfg.titleBoost)
  {
    var b := if avgBody > 0.0 then Saturation(p.bodyTF, bodyLen, avgBody) else 0.0;
    var t := if avgTitle > 0.0 && p.titleTF > 0 then Saturation(p.titleTF, titleLen, avgTitle) else 0.0;
    var idf, boost, k := Idf(cfg.ln, n, df), cfg.titleBoost, BM25_K1 + 1.0;
    assert TermScore(cfg, n, df, avgBody, avgTitle, p, bodyLen, titleLen) == idf * b + idf * t * boost;
    WeightedSum(idf, boost, b, t, k);
  }

  lemma WeightedSum(idf: real, boost: real, b: real, t: real, k: real)
    requires idf > 0.0 && boost > 0.0 && 0.0 <= b < k && 0.0 <= t < k && (b > 0.0 || t > 0.0)
    ensures 0.0 < idf * b + idf * t * boost < idf * k * (1.0 + boost)
  {
    ProductBounds(idf, b, k);
    ProductBounds(idf, t, k);
    ProductBounds(boost, idf * t, idf * k);
    Distribute(idf * k, boost);
    assert idf * t * boost == boost * (idf * t);
  }

  lemma Distribute(x: real, y: real)
    ensures x * (1.0 + y) == x + y * x
  {
  }

  lemma TermIdfPositive(cfg: Config, corpus: map<DocKey, Doc>, t: Term)
    requires PositiveAboveOne(cfg.ln)
    ensures Idf(cfg.ln, |corpus|, |DocsWith(cfg.tok, corpus, t)|) > 0.0
  {
    DocsWithBound(cfg.tok, corpus, t);
    IdfPositive(cfg.ln, |corpus|, |DocsWith(cfg.tok, corpus, t)|);
  }

  /** Every query term a document holds adds a positive amount below idf * 2.2 * (1 + boost). */
  lemma TermScoreBounds(cfg: Config, corpus: map<DocKey, Doc>, t: Term, key: DocKey)
    requires PositiveAboveOne(cfg.ln) && cfg.titleBoost > 0.0
    requires key in DocsWith(cfg.tok, corpus, t)
    ensures 0.0 < NaiveTermScore(cfg, corpus, t, key)
      < Idf(cfg.ln, |corpus|, |DocsWith(cfg.tok, corpus, t)|) * (BM25_K1 + 1.0) * (1.0 + cfg.titleBoost)
  {
    var n, df := |corpus|, |DocsWith(cfg.tok, corpus, t)|;
    var avgBody := Average(BodyLengths(MetasOf(cfg.tok, corpus)));
    var avgTitle := Average(TitleLengths(MetasOf(cfg.tok, corpus)));
    var p := PostingOf(cfg.tok, t, corpus[key]);
    TermIdfPositive(cfg, corpus, t);
    HeldTermAverages(cfg.tok, corpus, t, key);
    TermScoreInRange(cfg, n, df, avgBody, avgTitle, p, |cfg.tok(corpus[key].body)|, |cfg.tok(corpus[key].title)|);
  }

  lemma ProductBounds(c: real, x: real, k: real)
    requires c > 0.0 && 0.0 <= x < k
    ensures 0.0 <= c * x < c * k
    ensures x > 0.0 ==> c * x > 0.0
  {
  }

  /** Every hit of a search scores above 0. */
  lemma {:induction false} HitsScorePositive(cfg: Config, corpus: map<DocKey, Doc>, terms: seq<Term>, key: DocKey)
    requires PositiveAboveOne(cfg.ln) && cfg.titleBoost > 0.0
    ensures NaiveScore(cfg, corpus, terms, key) >= 0.0
    ensures Hit(cfg, corpus, terms, key) ==> NaiveScore(cfg, corpus, terms, key) > 0.0
  {
    if terms != [] {
      var front, last := terms[..|terms| - 1], terms[|terms| - 1];
      assert terms == front + [last];
      HitsScorePositive(cfg, corpus, front, key);
      HitNext(cfg, corpus, front, last, key);
      if key in DocsWith(cfg.tok, corpus, last) { TermScoreBounds(cfg, corpus, last, key); }
    }
  }

  // ----- The search loop -----

  function ScoreAt(scores: map<DocKey, real>, key: DocKey): real {
    if key in scores then scores[key] else 0.0
  }

  /** The scores map after some query terms: exactly the hits, each with its naive score. */
  ghost predicate ScoresOf(cfg: Config, corpus: map<DocKey, Doc>, terms: seq<Term>, scores: map<DocKey, real>) {
    && (forall k :: k in scores <==> Hit(cfg, corpus, terms, k))
    && (forall k :: ScoreAt(scores, k) == NaiveScore(cfg, corpus, terms, k))
  }

  lemma SnapshotAgrees(cfg: Config, corpus: map<DocKey, Doc>, c: Contents, t: Term)
    requires IsIndexOf(cfg.tok, corpus, c)
    ensures t in c.postings <==> DocsWith(cfg.tok, corpus, t) != {}
    ensures t in c.postings ==> c.postings[t].Keys == DocsWith(cfg.tok, corpus, t)
    ensures t in c.postings ==> |c.postings[t]| == |DocsWith(cfg.tok, corpus, t)|
    ensures c.docs.Keys == corpus.Keys && |c.docs| == |corpus|
  {
    assert PostingsOf(cfg.tok, corpus, t).Keys == DocsWith(cfg.tok, corpus, t);
    assert c.docs.Keys == corpus.Keys;
    if t in c.postings { assert |c.postings[t]| == |c.postings[t].Keys|; }
  }

  lemma SnapshotTermScore(cfg: Config, corpus: map<DocKey, Doc>, c: Contents, t: Term, k: DocKey)
    requires IsIndexOf(cfg.tok, corpus, c) && t in c.postings && k in c.postings[t]
    ensures k in c.docs
    ensures NaiveTermScore(cfg, corpus, t, k)
      == TermScore(cfg, |c.docs|, |c.postings[t]|, c.avgBody, c.avgTitle, c.postings[t][k],
                   c.docs[k].bodyLen, c.docs[k].titleLen)
  {
    SnapshotAgrees(cfg, corpus, c, t);
  }

  /** The score that a posting of a term adds, read off a snapshot. */
  function PostingScore(cfg: Config, n: nat, avgBody: real, avgTitle: real, docs: map<DocKey, DocMeta>,
                        postMap: map<DocKey, Posting>, k: DocKey): real
  {
    if k in postMap && k in docs then
      TermScore(cfg, n, |postMap|, avgBody, avgTitle, postMap[k], docs[k].bodyLen, docs[k].titleLen)
    else 0.0
  }

  lemma PostingScoreNaive(cfg: Config, corpus: map<DocKey, Doc>, c: Contents, t: Term, k: DocKey)
    requires IsIndexOf(cfg.tok, corpus, c) && t in c.postings
    ensures PostingScore(cfg, |c.docs|, c.avgBody, c.avgTitle, c.docs, c.postings[t], k)
      == NaiveTermScore(cfg, corpus, t, k)
  {
    SnapshotAgrees(cfg, corpus, c, t);
    if k in c.postings[t] { SnapshotTermScore(cfg, corpus, c, t, k); }
  }

  function PostingScores(cfg: Config, n: nat, avgBody: real, avgTitle: real, docs: map<DocKey, DocMeta>,
                         postMap: map<DocKey, Posting>): DocKey -> real
  {
    (k: DocKey) => PostingScore(cfg, n, avgBody, avgTitle, docs, postMap, k)
  }

  lemma ContributionsNaive(cfg: Config, corpus: map<DocKey, Doc>, c: Contents, t: Term, f: DocKey -> real)
    requires IsIndexOf(cfg.tok, corpus, c) && t in c.postings
    requires f == PostingScores(cfg, |c.docs|, c.avgBody, c.avgTitle, c.docs, c.postings[t])
    ensures c.postings[t].Keys == DocsWith(cfg.tok, corpus, t)
    ensures forall k :: (if k in c.postings[t].Keys then f(k) else 0.0) == NaiveTermScore(cfg, corpus, t, k)
  {
    SnapshotAgrees(cfg, corpus, c, t);
    forall k ensures (if k in c.postings[t].Keys then f(k) else 0.0) == NaiveTermScore(cfg, corpus, t, k) {
      PostingScoreNaive(cfg, corpus, c, t, k);
    }
  }

  /** Adds one term's contributions, posting by posting. */
  method AddPostings(keys: set<DocKey>, contribution: DocKey -> real, before: map<DocKey, real>)
    returns (scores: map<DocKey, real>)
    ensures scores.Keys == before.Keys + keys
    ensures forall k :: ScoreAt(scores, k) == ScoreAt(before, k) + (if k in keys then contribution(k) else 0.0)
  {
    scores := before;
    var rest := keys;
    while rest != {}
      invariant rest <= keys
      invariant scores.Keys == before.Keys + (keys - rest)
      invariant forall k ::
                  ScoreAt(scores, k) == ScoreAt(before, k) + (if k in keys - rest then contribution(k) else 0.0)
      decreases rest
    {
      var k :| k in rest;
      rest := rest - {k};
      scores := scores[k := ScoreAt(scores, k) + contribution(k)];
    }
  }

  method AddTermScores(cfg: Config, snap: Snapshot, t: Term, before: map<DocKey, real>, ghost corpus: map<DocKey, Doc>)
    returns (scores: map<DocKey, real>)
    requires IsIndexOf(cfg.tok, corpus, snap.Value()) && t in snap.postings
    ensures scores.Keys == before.Keys + DocsWith(cfg.tok, corpus, t)
    ensures forall k :: ScoreAt(scores, k) == ScoreAt(before, k) + NaiveTermScore(cfg, corpus, t, k)
  {
    ghost var c := snap.Value();
    var postMap := snap.postings[t].entries;
    assert postMap == c.postings[t];
    var contribution := PostingScores(cfg, |snap.docs|, snap.avgBody, snap.avgTitle, snap.docs, postMap);
    ContributionsNaive(cfg, corpus, c, t, contribution);
    scores := AddPostings(postMap.Keys, contribution, before);
  }

  /** One query term's turn of the search loop. */
  method ScoreTerm(cfg: Config, snap: Snapshot, ghost terms: seq<Term>, t: Term, before: map<DocKey, real>,
                   ghost corpus: map<DocKey, Doc>)
    returns (scores: map<DocKey, real>)
    requires IsIndexOf(cfg.tok, corpus, snap.Value()) && ScoresOf(cfg, corpus, terms, before)
    ensures ScoresOf(cfg, corpus, terms + [t], scores)
  {
    SnapshotAgrees(cfg, corpus, snap.Value(), t);
    scores := before;
    if t in snap.postings {
      scores := AddTermScores(cfg, snap, t, before, corpus);
    }
    ScoresNext(cfg, corpus, terms, t, before, scores);
  }

  method ScoreAll(cfg: Config, snap: Snapshot, terms: seq<Term>, ghost corpus: map<DocKey, Doc>)
    returns (scores: map<DocKey, real>)
    requires IsIndexOf(cfg.tok, corpus, snap.Value())
    ensures ScoresOf(cfg, corpus, terms, scores)
  {
    scores := map[];
    for i := 0 to |terms|
      invariant ScoresOf(cfg, corpus, terms[..i], scores)
    {
      scores := ScoreTerm(cfg, snap, terms[..i], terms[i], scores, corpus);
      assert terms[..i + 1] == terms[..i] + [terms[i]];
    }
    assert terms[..|terms|] == terms;
  }

  lemma ScoresNext(cfg: Config, corpus: map<DocKey, Doc>, terms: seq<Term>, t: Term,
                   before: map<DocKey, real>, after: map<DocKey, real>)
    requires ScoresOf(cfg, corpus, terms, before)
    requires after.Keys == before.Keys + DocsWith(cfg.tok, corpus, t)
    requires forall k :: ScoreAt(after, k) == ScoreAt(before, k) + NaiveTermScore(cfg, corpus, t, k)
    ensures ScoresOf(cfg, corpus, terms + [t], after)
  {
    assert (terms + [t])[..|terms|] == terms;
    forall k
      ensures k in after <==> Hit(cfg, corpus, terms + [t], k)
      ensures ScoreAt(after, k) == NaiveScore(cfg, corpus, terms + [t], k)
    {
      HitNext(cfg, corpus, terms, t, k);
    }
  }

  datatype Scored = Scored(key: DocKey, score: real)

  function ByScoreDescending(): (Scored, Scored) -> bool {
    (a: Scored, b: Scored) => a.score >= b.score
  }

  method Ranked(scores: map<DocKey, real>) returns (r: seq<Scored>)
    ensures forall i, j :: 0 <= i < j < |r| ==> r[i].key != r[j].key && r[i].score >= r[j].score
    ensures forall i :: 0 <= i < |r| ==> r[i].key in scores && r[i].score == scores[r[i].key]
    ensures forall k :: k in scores ==> Scored(k, scores[k]) in r
  {
    var items: seq<Scored> := [];
    var rest := scores.Keys;
    while rest != {}
      invariant rest <= scores.Keys && NoDuplicates(items)
      invariant forall x :: x in items <==> x.key in scores && x.key !in rest && x.score == scores[x.key]
      decreases rest
    {
      var k :| k in rest;
      rest := rest - {k};
      items := items + [Scored(k, scores[k])];
    }
    r := SortFunc(items, ByScoreDescending());
    NoDuplicatesMultiset(items, r);
    forall x ensures x in r <==> x in items {
      assert x in r <==> x in multiset(r);
      assert x in items <==> x in multiset(items);
    }
    forall i, j | 0 <= i < j < |r| ensures r[i].key != r[j].key && r[i].score >= r[j].score {
      assert r[i] in r && r[j] in r && r[i] != r[j];
      assert ByScoreDescending()(r[i], r[j]);
    }
  }

  ghost function ResultFor(cfg: Config, corpus: map<DocKey, Doc>, terms: seq<Term>, key: DocKey): SearchResult
    requires key in corpus
  {
    SearchResult(corpus[key].ref, NaiveScore(cfg, corpus, terms, key), corpus[key].updatedAt)
  }

  lemma HitsInCorpus(cfg: Config, corpus: map<DocKey, Doc>, terms: seq<Term>, key: DocKey)
    requires Hit(cfg, corpus, terms, key)
    ensures key in corpus
  {
  }

  /** The ranking of the scores of a query, with the facts a caller needs. */
  method RankHits(cfg: Config, terms: seq<Term>, scores: map<DocKey, real>, ghost corpus: map<DocKey, Doc>)
    returns (items: seq<Scored>, ghost ranked: seq<DocKey>)
    requires ScoresOf(cfg, corpus, terms, scores)
    ensures |ranked| == |items| && NoDuplicates(ranked)
    ensures forall k :: k in ranked <==> Hit(cfg, corpus, terms, k)
    ensures forall i :: 0 <= i < |items| ==> ranked[i] in corpus
    ensures forall i :: 0 <= i < |items| ==> items[i] == Scored(ranked[i], NaiveScore(cfg, corpus, terms, ranked[i]))
    ensures forall i, j :: 0 <= i < j < |items| ==> items[i].score >= items[j].score
  {
    items := Ranked(scores);
    ranked := seq(|items|, i requires 0 <= i < |items| => items[i].key);
    forall i | 0 <= i < |items|
      ensures ranked[i] in corpus && items[i] == Scored(ranked[i], NaiveScore(cfg, corpus, terms, ranked[i]))
    {
      HitsInCorpus(cfg, corpus, terms, items[i].key);
      assert ScoreAt(scores, items[i].key) == items[i].score;
    }
    forall k ensures k in ranked <==> Hit(cfg, corpus, terms, k) {
      if k in scores {
        assert Scored(k, scores[k]) in items;
        var i :| 0 <= i < |items| && items[i] == Scored(k, scores[k]);
        assert ranked[i] == k;
      }
    }
  }

  /** A search over the current snapshot: exactly the documents that hold a query term, each
      with the naive score computed from the documents, best first, cut to the limit. */
  method Search(cfg: Config, snap: Snapshot, query: string, limit: int, ghost corpus: map<DocKey, Doc>)
    returns (results: seq<SearchResult>, ghost ranked: seq<DocKey>)
    requires IsIndexOf(cfg.tok, corpus, snap.Value())
    ensures query == "" ==> results == []
    ensures query != "" ==>
      && NoDuplicates(ranked)
      && (forall k :: k in ranked <==> Hit(cfg, corpus, cfg.tok(query), k))
      && |results| == (if limit > 0 then Min(limit, |ranked|) else |ranked|)
      && (forall i :: 0 <= i < |results| ==> ranked[i] in corpus)
      && (forall i :: 0 <= i < |results| ==> results[i] == ResultFor(cfg, corpus, cfg.tok(query), ranked[i]))
      && (forall i, j :: 0 <= i < j < |ranked| ==>
            NaiveScore(cfg, corpus, cfg.tok(query), ranked[i]) >= NaiveScore(cfg, corpus, cfg.tok(query), ranked[j]))
    ensures query != "" ==> IsSearchAnswer(cfg, corpus, cfg.tok(query), limit, results, ranked)
  {
    if query == "" {
      return [], [];
    }
    var terms := cfg.tok(query);
    if |terms| == 0 {
      results, ranked := [], [];
      AnswerMeans(cfg, corpus, terms, limit, results, ranked);
      return;
    }
    var scores := ScoreAll(cfg, snap, terms, corpus);
    var items;
    items, ranked := RankHits(cfg, terms, scores, corpus);
    if limit > 0 && |items| > limit {
      items := items[..limit];
    }
    results := Results(cfg, snap, terms, items, ranked, corpus);
    AnswerMeans(cfg, corpus, terms, limit, results, ranked);
  }

  /** The answer said of the documents alone: those that hold a query term in body or title, each
      once, by descending published score, the best ones with their reference, score and time. */
  ghost predicate IsSearchAnswer(cfg: Config, corpus: map<DocKey, Doc>, terms: seq<Term>, limit: int,
                                 results: seq<SearchResult>, ranked: seq<DocKey>)
  {
    && NoDuplicates(ranked) && (forall k :: k in ranked <==> k in corpus && HoldsOne(cfg.tok, corpus[k], terms))
    && (forall i, j :: 0 <= i < j < |ranked| ==>
          Bm25(cfg, corpus, terms, ranked[i]) >= Bm25(cfg, corpus, terms, ranked[j]))
    && |results| == (if 0 < limit < |ranked| then limit else |ranked|)
    && forall i :: 0 <= i < |results| ==>
         && results[i].ref == corpus[ranked[i]].ref && results[i].updatedAt == corpus[ranked[i]].updatedAt
         && results[i].score == Bm25(cfg, corpus, terms, ranked[i])
  }

  ghost predicate HoldsOne(tok: Tokenizer, doc: Doc, terms: seq<Term>) {
    exists i :: 0 <= i < |terms| && (terms[i] in tok(doc.body) || terms[i] in tok(doc.title))
  }

  lemma HitMeans(cfg: Config, corpus: map<DocKey, Doc>, terms: seq<Term>, key: DocKey)
    ensures Hit(cfg, corpus, terms, key) <==> key in corpus && HoldsOne(cfg.tok, corpus[key], terms)
  {
    if key in corpus && HoldsOne(cfg.tok, corpus[key], terms) {
      var i :| 0 <= i < |terms| && (terms[i] in cfg.tok(corpus[key].body) || terms[i] in cfg.tok(corpus[key].title));
      assert key in DocsWith(cfg.tok, corpus, terms[i]);
    }
  }

  lemma AnswerMeans(cfg: Config, corpus: map<DocKey, Doc>, terms: seq<Term>, limit: int, results: seq<SearchResult>,
                    ranked: seq<DocKey>)
    requires NoDuplicates(ranked) && forall k :: k in ranked <==> Hit(cfg, corpus, terms, k)
    requires |results| == (if limit > 0 then Min(limit, |ranked|) else |ranked|)
    requires forall i :: 0 <= i < |ranked| ==> ranked[i] in corpus
    requires forall i :: 0 <= i < |results| ==> results[i] == ResultFor(cfg, corpus, terms, ranked[i])
    requires forall i, j :: 0 <= i < j < |ranked| ==>
               NaiveScore(cfg, corpus, terms, ranked[i]) >= NaiveScore(cfg, corpus, terms, ranked[j])
    ensures IsSearchAnswer(cfg, corpus, terms, limit, results, ranked)
  {
    forall k ensures Hit(cfg, corpus, terms, k) <==> k in corpus && HoldsOne(cfg.tok, corpus[k], terms) {
      HitMeans(cfg, corpus, terms, k);
    }
    forall i | 0 <= i < |ranked|
      ensures NaiveScore(cfg, corpus, terms, ranked[i]) == Bm25(cfg, corpus, terms, ranked[i])
    {
      NaiveIsBm25(cfg, corpus, terms, ranked[i]);
    }
  }

  /** Looks up the reference and the time of each ranked document. */
  method Results(cfg: Config, snap: Snapshot, ghost terms: seq<Term>, items: seq<Scored>, ghost ranked: seq<DocKey>,
                 ghost corpus: map<DocKey, Doc>)
    returns (results: seq<SearchResult>)
    requires IsIndexOf(cfg.tok, corpus, snap.Value()) && |items| <= |ranked|
    requires forall i :: 0 <= i < |items| ==> ranked[i] in corpus
    requires forall i :: 0 <= i < |items| ==> items[i] == Scored(ranked[i], NaiveScore(cfg, corpus, terms, ranked[i]))
    ensures |results| == |items|
    ensures forall i :: 0 <= i < |results| ==> results[i] == ResultFor(cfg, corpus, terms, ranked[i])
  {
    results := [];
    for i := 0 to |items|
      invariant |results| == i
      invariant forall j :: 0 <= j < i ==> results[j] == ResultFor(cfg, corpus, terms, ranked[j])
    {
      var meta := snap.docs[items[i].key];
      assert meta == MetaOf(cfg.tok, corpus[ranked[i]]);
      results := results + [SearchResult(meta.ref, items[i].score, meta.updatedAt)];
    }
  }
}
