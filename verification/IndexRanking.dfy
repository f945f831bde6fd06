/** What the search score rewards: rare terms, more occurrences, shorter documents. */
module IndexRanking {
  import opened Sequences
  import opened IndexContents
  import opened IndexSearch

  ghost predicate Increasing(ln: real -> real) {
    forall x, y :: 0.0 < x < y ==> ln(x) < ln(y)
  }

  // ----- Quotients -----

  lemma QuotientBelow(a: real, b: real, c: real, d: real)
    requires b > 0.0 && d > 0.0 && a * d < c * b
    ensures a / b < c / d
  {
    var x, y := a / b, c / d;
    assert x * b == a && y * d == c;
    assert x * b * d < y * d * b;
    assert (y - x) * (b * d) > 0.0;
    assert b * d > 0.0;
    PositiveFactor(y - x, b * d);
  }

  lemma PositiveFactor(x: real, y: real)
    requires y > 0.0 && x * y > 0.0
    ensures x > 0.0
  {
  }

  lemma ProductBelow(x: real, y: real, z: real)
    requires x < y && z > 0.0
    ensures x * z < y * z
  {
    assert (y - x) * z > 0.0;
  }

  // ----- The inverse document frequency -----

  /** One more than the number of documents, over half more than those with the term. */
  lemma IdfValue(ln: real -> real, n: nat, df: nat)
    ensures Idf(ln, n, df) == ln((n as real + 1.0) / (df as real + 0.5))
  {
    var d := df as real + 0.5;
    var q := (n as real - df as real + 0.5) / d;
    assert q * d == n as real - df as real + 0.5;
    assert (1.0 + q) * d == n as real + 1.0;
    QuotientIs(1.0 + q, d, n as real + 1.0);
  }

  lemma QuotientIs(x: real, d: real, a: real)
    requires d > 0.0 && x * d == a
    ensures x == a / d
  {
    assert (a / d) * d == x * d;
    assert (a / d - x) * d == 0.0;
  }

  /** The rarer a term, the more it counts. */
  lemma IdfFalls(ln: real -> real, n: nat, df: nat, more: nat)
    requires Increasing(ln) && df < more
    ensures Idf(ln, n, more) < Idf(ln, n, df)
  {
    var a, b, d := n as real + 1.0, more as real + 0.5, df as real + 0.5;
    IdfValue(ln, n, df);
    IdfValue(ln, n, more);
    ProductBelow(d, b, a);
    QuotientBelow(a, b, a, d);
    RatioPositive(a, b);
  }

  // ----- The frequency factor -----

  lemma SaturationValue(tf: nat, len: nat, avg: real)
    requires avg > 0.0
    ensures tf as real + 1.2 * (0.25 + 0.75 * (len as real / avg)) > 0.0
    ensures Saturation(tf, len, avg) == tf as real * 2.2 / (tf as real + 1.2 * (0.25 + 0.75 * (len as real / avg)))
  {
    RatioNonNegative(len as real, avg);
  }

  /** In a field of average length the factor is tf * 2.2 / (tf + 1.2), in an empty one the length
      counts a quarter. */
  lemma SaturationAtMarks(tf: nat, len: nat, avg: real)
    requires avg > 0.0
    ensures len as real == avg ==> Saturation(tf, len, avg) == tf as real * 2.2 / (tf as real + 1.2)
    ensures len == 0 ==> Norm(len, avg) == 0.25
  {
    SaturationValue(tf, len, avg);
    if len as real == avg { OneRatio(avg); }
    assert 0.0 / avg == 0.0;
  }

  lemma OneRatio(x: real)
    requires x > 0.0
    ensures x / x == 1.0
  {
    assert (x / x) * x == 1.0 * x;
  }

  lemma SaturationGrows(tf: nat, more: nat, len: nat, avg: real)
    requires avg > 0.0 && tf < more
    ensures Saturation(tf, len, avg) < Saturation(more, len, avg)
  {
    RatioNonNegative(len as real, avg);
    SaturationValue(tf, len, avg);
    SaturationValue(more, len, avg);
    var x, y, n := tf as real, more as real, 1.2 * (0.25 + 0.75 * (len as real / avg));
    ProductBelow(x, y, 2.2 * n);
    assert x * 2.2 * (y + n) == x * 2.2 * y + x * (2.2 * n);
    assert y * 2.2 * (x + n) == x * 2.2 * y + y * (2.2 * n);
    QuotientBelow(x * 2.2, x + n, y * 2.2, y + n);
  }

  lemma SaturationFalls(tf: nat, len: nat, longer: nat, avg: real)
    requires avg > 0.0 && tf > 0 && len < longer
    ensures Saturation(tf, longer, avg) < Saturation(tf, len, avg)
  {
    SaturationValue(tf, len, avg);
    SaturationValue(tf, longer, avg);
    LongerRatio(len as real, longer as real, avg);
    var x := tf as real * 2.2;
    var n, m := 1.2 * (0.25 + 0.75 * (len as real / avg)), 1.2 * (0.25 + 0.75 * (longer as real / avg));
    ProductBelow(tf as real + n, tf as real + m, x);
    QuotientBelow(x, tf as real + m, x, tf as real + n);
  }

  lemma LongerRatio(x: real, y: real, d: real)
    requires d > 0.0 && x < y
    ensures x / d < y / d
  {
    ProductBelow(x, y, d);
    QuotientBelow(x, d, y, d);
  }

  // ----- Documents -----

  /** With equal counts and lengths the rarer term is worth more. */
  lemma RarerTermWorthMore(cfg: Config, n: nat, df: nat, more: nat, bodyTF: nat, bodyLen: nat, avgBody: real,
                           titleTF: nat, titleLen: nat, avgTitle: real)
    requires Increasing(cfg.ln) && PositiveAboveOne(cfg.ln) && cfg.titleBoost > 0.0 && df < more <= n
    requires bodyTF > 0 || titleTF > 0
    requires (bodyTF > 0 ==> avgBody > 0.0) && (titleTF > 0 ==> avgTitle > 0.0)
    ensures BothShares(cfg, n, df, bodyTF, bodyLen, avgBody, titleTF, titleLen, avgTitle)
          > BothShares(cfg, n, more, bodyTF, bodyLen, avgBody, titleTF, titleLen, avgTitle)
  {
    var weight := ShareWeight(cfg, n, df, more, bodyTF, bodyLen, avgBody, titleTF, titleLen, avgTitle);
    IdfFalls(cfg.ln, n, df, more);
    SmallerProduct(Idf(cfg.ln, n, more), Idf(cfg.ln, n, df), weight,
                   BothShares(cfg, n, more, bodyTF, bodyLen, avgBody, titleTF, titleLen, avgTitle),
                   BothShares(cfg, n, df, bodyTF, bodyLen, avgBody, titleTF, titleLen, avgTitle));
  }

  lemma SmallerProduct(x: real, y: real, w: real, p: real, q: real)
    requires x < y && w > 0.0 && p == x * w && q == y * w
    ensures p < q
  {
    ProductBelow(x, y, w);
  }

  /** Counts and lengths give one positive weight, whatever the document frequency. */
  lemma ShareWeight(cfg: Config, n: nat, df: nat, more: nat, bodyTF: nat, bodyLen: nat, avgBody: real,
                    titleTF: nat, titleLen: nat, avgTitle: real) returns (weight: real)
    requires cfg.titleBoost > 0.0 && (bodyTF > 0 || titleTF > 0)
    requires (bodyTF > 0 ==> avgBody > 0.0) && (titleTF > 0 ==> avgTitle > 0.0)
    ensures weight > 0.0
    ensures BothShares(cfg, n, df, bodyTF, bodyLen, avgBody, titleTF, titleLen, avgTitle) == Idf(cfg.ln, n, df) * weight
    ensures BothShares(cfg, n, more, bodyTF, bodyLen, avgBody, titleTF, titleLen, avgTitle)
         == Idf(cfg.ln, n, more) * weight
  {
    var b := if avgBody > 0.0 then Saturation(bodyTF, bodyLen, avgBody) else 0.0;
    var t := if avgTitle > 0.0 && titleTF > 0 then Saturation(titleTF, titleLen, avgTitle) else 0.0;
    WeightedShares(cfg, n, df, bodyTF, bodyLen, avgBody, titleTF, titleLen, avgTitle);
    WeightedShares(cfg, n, more, bodyTF, bodyLen, avgBody, titleTF, titleLen, avgTitle);
    WeightPositive(b, t, cfg.titleBoost);
    weight := b + t * cfg.titleBoost;
  }

  lemma WeightPositive(b: real, t: real, boost: real)
    requires b >= 0.0 && t >= 0.0 && (b > 0.0 || t > 0.0) && boost > 0.0
    ensures b + t * boost > 0.0
  {
    if t > 0.0 { ProductBelow(0.0, t, boost); }
  }

  lemma WeightedShares(cfg: Config, n: nat, df: nat, bodyTF: nat, bodyLen: nat, avgBody: real, titleTF: nat,
                       titleLen: nat, avgTitle: real)
    ensures var b := if avgBody > 0.0 then Saturation(bodyTF, bodyLen, avgBody) else 0.0;
            var t := if avgTitle > 0.0 && titleTF > 0 then Saturation(titleTF, titleLen, avgTitle) else 0.0;
            BothShares(cfg, n, df, bodyTF, bodyLen, avgBody, titleTF, titleLen, avgTitle)
              == Idf(cfg.ln, n, df) * (b + t * cfg.titleBoost)
  {
    var b := if avgBody > 0.0 then Saturation(bodyTF, bodyLen, avgBody) else 0.0;
    var t := if avgTitle > 0.0 && titleTF > 0 then Saturation(titleTF, titleLen, avgTitle) else 0.0;
    if avgBody > 0.0 { ShareIs(cfg.ln, n, df, bodyTF, bodyLen, avgBody); }
    if avgTitle > 0.0 { ShareIs(cfg.ln, n, df, titleTF, titleLen, avgTitle); }
    Distribution(Idf(cfg.ln, n, df), b, t, cfg.titleBoost);
  }

  lemma Distribution(x: real, b: real, t: real, boost: real)
    ensures x * b + x * t * boost == x * (b + t * boost)
  {
  }

  /** Two documents of the same lengths: a holds rare as often as b holds common, neither holds the
      other's term, and they agree on every other query term. */
  ghost predicate AlikeButFor(tok: Tokenizer, x: Doc, y: Doc, rare: Term, common: Term, terms: seq<Term>) {
    && |tok(x.body)| == |tok(y.body)| && |tok(x.title)| == |tok(y.title)|
    && multiset(tok(x.body))[rare] == multiset(tok(y.body))[common]
    && multiset(tok(x.title))[rare] == multiset(tok(y.title))[common]
    && rare !in tok(y.body) && rare !in tok(y.title) && common !in tok(x.body) && common !in tok(x.title)
    && forall i :: 0 <= i < |terms| && terms[i] != rare && terms[i] != common ==>
         && multiset(tok(x.body))[terms[i]] == multiset(tok(y.body))[terms[i]]
         && multiset(tok(x.title))[terms[i]] == multiset(tok(y.title))[terms[i]]
  }

  lemma InCount(s: seq<Term>, t: Term)
    ensures t in s <==> multiset(s)[t] > 0
  {
    assert t in s <==> t in multiset(s);
  }

  lemma SameTermWorth(cfg: Config, corpus: map<DocKey, Doc>, t: Term, a: DocKey, b: DocKey)
    requires a in corpus && b in corpus
    requires |cfg.tok(corpus[a].body)| == |cfg.tok(corpus[b].body)|
    requires |cfg.tok(corpus[a].title)| == |cfg.tok(corpus[b].title)|
    requires multiset(cfg.tok(corpus[a].body))[t] == multiset(cfg.tok(corpus[b].body))[t]
    requires multiset(cfg.tok(corpus[a].title))[t] == multiset(cfg.tok(corpus[b].title))[t]
    ensures Bm25Term(cfg, corpus, t, a) == Bm25Term(cfg, corpus, t, b)
  {
    InCount(cfg.tok(corpus[a].body), t);
    InCount(cfg.tok(corpus[b].body), t);
    InCount(cfg.tok(corpus[a].title), t);
    InCount(cfg.tok(corpus[b].title), t);
  }

  /** x for every occurrence of t. */
  ghost function Worth(terms: seq<Term>, t: Term, x: real): real {
    if terms == [] then 0.0
    else Worth(terms[..|terms| - 1], t, x) + if terms[|terms| - 1] == t then x else 0.0
  }

  ghost function Times(n: nat, x: real): real {
    if n == 0 then 0.0 else Times(n - 1, x) + x
  }

  lemma {:induction false} WorthIs(terms: seq<Term>, t: Term, x: real)
    ensures Worth(terms, t, x) == Times(multiset(terms)[t], x)
  {
    if terms != [] {
      var front, last := terms[..|terms| - 1], terms[|terms| - 1];
      assert terms == front + [last];
      WorthIs(front, t, x);
    }
  }

  lemma {:induction false} TimesCompared(n: nat, x: real, y: real)
    requires x > y
    ensures Times(n, x) >= Times(n, y) && (n > 0 ==> Times(n, x) > Times(n, y))
  {
    if n > 0 { TimesCompared(n - 1, x, y); }
  }

  lemma WorthCompared(terms: seq<Term>, rare: Term, common: Term, x: real, y: real)
    requires multiset(terms)[rare] == multiset(terms)[common] > 0 && x > y
    ensures Worth(terms, rare, x) > Worth(terms, common, y)
  {
    WorthIs(terms, rare, x);
    WorthIs(terms, common, y);
    TimesCompared(multiset(terms)[rare], x, y);
  }

  lemma {:induction false} ScoreDifference(cfg: Config, corpus: map<DocKey, Doc>, terms: seq<Term>, rare: Term,
                                           common: Term, a: DocKey, b: DocKey)
    requires a in corpus && b in corpus && rare != common
    requires AlikeButFor(cfg.tok, corpus[a], corpus[b], rare, common, terms)
    ensures Bm25(cfg, corpus, terms, a) - Bm25(cfg, corpus, terms, b)
         == Worth(terms, rare, Bm25Term(cfg, corpus, rare, a)) - Worth(terms, common, Bm25Term(cfg, corpus, common, b))
    decreases |terms|
  {
    if terms != [] {
      var front := terms[..|terms| - 1];
      AlikeFront(cfg.tok, corpus[a], corpus[b], rare, common, terms);
      ScoreDifference(cfg, corpus, front, rare, common, a, b);
      TermDifference(cfg, corpus, terms, rare, common, a, b);
    }
  }

  lemma AlikeFront(tok: Tokenizer, x: Doc, y: Doc, rare: Term, common: Term, terms: seq<Term>)
    requires AlikeButFor(tok, x, y, rare, common, terms) && terms != []
    ensures AlikeButFor(tok, x, y, rare, common, terms[..|terms| - 1])
  {
  }

  /** What the last query term makes of the difference between the two documents. */
  lemma TermDifference(cfg: Config, corpus: map<DocKey, Doc>, terms: seq<Term>, rare: Term, common: Term,
                       a: DocKey, b: DocKey)
    requires a in corpus && b in corpus && rare != common && terms != []
    requires AlikeButFor(cfg.tok, corpus[a], corpus[b], rare, common, terms)
    ensures var t := terms[|terms| - 1];
            Bm25Term(cfg, corpus, t, a) - Bm25Term(cfg, corpus, t, b)
              == (if t == rare then Bm25Term(cfg, corpus, rare, a) else 0.0)
                 - (if t == common then Bm25Term(cfg, corpus, common, b) else 0.0)
  {
    var t := terms[|terms| - 1];
    if t != rare && t != common { SameTermWorth(cfg, corpus, t, a, b); }
  }

  lemma HeldMeans(tok: Tokenizer, corpus: map<DocKey, Doc>, t: Term, key: DocKey)
    requires key in corpus
    ensures multiset(tok(corpus[key].body))[t] > 0 ==> MeanBody(tok, corpus) > 0.0
    ensures multiset(tok(corpus[key].title))[t] > 0 ==> MeanTitle(tok, corpus) > 0.0
  {
    InCount(tok(corpus[key].body), t);
    InCount(tok(corpus[key].title), t);
    if t in tok(corpus[key].body) || t in tok(corpus[key].title) {
      HeldTermAverages(tok, corpus, t, key);
      MeansAre(tok, corpus);
    }
  }

  lemma RarerWorth(cfg: Config, corpus: map<DocKey, Doc>, terms: seq<Term>, rare: Term, common: Term, a: DocKey,
                   b: DocKey)
    requires Increasing(cfg.ln) && PositiveAboveOne(cfg.ln) && cfg.titleBoost > 0.0 && a in corpus && b in corpus
    requires |Holding(cfg.tok, corpus, rare)| < |Holding(cfg.tok, corpus, common)|
    requires AlikeButFor(cfg.tok, corpus[a], corpus[b], rare, common, terms)
    requires rare in cfg.tok(corpus[a].body) || rare in cfg.tok(corpus[a].title)
    ensures Bm25Term(cfg, corpus, rare, a) > Bm25Term(cfg, corpus, common, b)
  {
    var body, title := cfg.tok(corpus[a].body), cfg.tok(corpus[a].title);
    InCount(body, rare);
    InCount(title, rare);
    InCount(cfg.tok(corpus[b].body), common);
    InCount(cfg.tok(corpus[b].title), common);
    HeldMeans(cfg.tok, corpus, rare, a);
    SubsetBound(Holding(cfg.tok, corpus, common), corpus.Keys);
    RarerTermWorthMore(cfg, |corpus|, |Holding(cfg.tok, corpus, rare)|, |Holding(cfg.tok, corpus, common)|,
                       multiset(body)[rare], |body|, MeanBody(cfg.tok, corpus), multiset(title)[rare], |title|,
                       MeanTitle(cfg.tok, corpus));
  }

  lemma RarerScoresHigher(cfg: Config, corpus: map<DocKey, Doc>, terms: seq<Term>, rare: Term, common: Term,
                          a: DocKey, b: DocKey)
    requires Increasing(cfg.ln) && PositiveAboveOne(cfg.ln) && cfg.titleBoost > 0.0 && a in corpus && b in corpus
    requires |Holding(cfg.tok, corpus, rare)| < |Holding(cfg.tok, corpus, common)|
    requires multiset(terms)[rare] == multiset(terms)[common] > 0
    requires AlikeButFor(cfg.tok, corpus[a], corpus[b], rare, common, terms)
    requires rare in cfg.tok(corpus[a].body) || rare in cfg.tok(corpus[a].title)
    ensures Bm25(cfg, corpus, terms, a) > Bm25(cfg, corpus, terms, b)
  {
    RarerWorth(cfg, corpus, terms, rare, common, a, b);
    ScoreDifference(cfg, corpus, terms, rare, common, a, b);
    WorthCompared(terms, rare, common, Bm25Term(cfg, corpus, rare, a), Bm25Term(cfg, corpus, common, b));
  }

  /** Of two documents alike except that one holds the rarer of two query terms where the other
      holds the commoner, the first scores higher and stands before the other in every search. */
  lemma RarerRanksFirst(cfg: Config, corpus: map<DocKey, Doc>, terms: seq<Term>, rare: Term, common: Term,
                        limit: int, results: seq<SearchResult>, ranked: seq<DocKey>, i: nat, j: nat)
    requires Increasing(cfg.ln) && PositiveAboveOne(cfg.ln) && cfg.titleBoost > 0.0
    requires |Holding(cfg.tok, corpus, rare)| < |Holding(cfg.tok, corpus, common)|
    requires multiset(terms)[rare] == multiset(terms)[common] > 0
    requires IsSearchAnswer(cfg, corpus, terms, limit, results, ranked) && i < |ranked| && j < |ranked|
    requires ranked[i] in corpus && ranked[j] in corpus
    requires AlikeButFor(cfg.tok, corpus[ranked[i]], corpus[ranked[j]], rare, common, terms)
    requires rare in cfg.tok(corpus[ranked[i]].body) || rare in cfg.tok(corpus[ranked[i]].title)
    ensures Bm25(cfg, corpus, terms, ranked[i]) > Bm25(cfg, corpus, terms, ranked[j]) && i < j
  {
    RarerScoresHigher(cfg, corpus, terms, rare, common, ranked[i], ranked[j]);
    HigherStandsFirst(cfg, corpus, terms, limit, results, ranked, i, j);
  }

  lemma HigherStandsFirst(cfg: Config, corpus: map<DocKey, Doc>, terms: seq<Term>, limit: int,
                          results: seq<SearchResult>, ranked: seq<DocKey>, i: nat, j: nat)
    requires IsSearchAnswer(cfg, corpus, terms, limit, results, ranked) && i < |ranked| && j < |ranked|
    requires ranked[i] in corpus && ranked[j] in corpus
    requires Bm25(cfg, corpus, terms, ranked[i]) > Bm25(cfg, corpus, terms, ranked[j])
    ensures i < j
  {
  }
}
