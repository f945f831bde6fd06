/** What the full-text index holds for a corpus, stated from the documents alone. */
module IndexContents {
  import opened Sequences
  import opened Domain

  type Term = string
  type DocKey = string

  datatype Doc = Doc(ref: NoteRef, title: string, body: string, updatedAt: int)

  /** Term frequencies of one term in one document. */
  datatype Posting = Posting(bodyTF: nat, titleTF: nat)

  datatype DocMeta = DocMeta(ref: NoteRef, bodyLen: nat, titleLen: nat, updatedAt: int)

  /** One write sent to the index. */
  datatype WriteOp = Add(doc: Doc) | Remove(ref: NoteRef)

  type Tokenizer = string -> seq<Term>

  function KeyOf(ref: NoteRef): DocKey {
    ref.scope + ":" + ref.path
  }

  /** Keys tell notes apart as long as no scope contains the separator. */
  lemma {:induction false} KeysDistinct(a: NoteRef, b: NoteRef)
    requires ':' !in a.scope && ':' !in b.scope && KeyOf(a) == KeyOf(b)
    ensures a == b
  {
    var i, j := |a.scope|, |b.scope|;
    assert KeyOf(a)[i] == ':' && KeyOf(b)[j] == ':';
    assert a.scope == KeyOf(a)[..i] && b.scope == KeyOf(b)[..j];
    assert a.path == KeyOf(a)[i + 1..] && b.path == KeyOf(b)[j + 1..];
  }

  function ApplyOp(corpus: map<DocKey, Doc>, op: WriteOp): map<DocKey, Doc> {
    match op
    case Add(doc) => corpus[KeyOf(doc.ref) := doc]
    case Remove(ref) => corpus - {KeyOf(ref)}
  }

  /** The last-written documents after a sequence of writes. */
  function Replay(ops: seq<WriteOp>): map<DocKey, Doc> {
    if ops == [] then map[] else ApplyOp(Replay(ops[..|ops| - 1]), ops[|ops| - 1])
  }

  // ----- The index of a corpus -----

  function Frequency(terms: seq<Term>, t: Term): nat {
    multiset(terms)[t]
  }

  predicate Occurs(tok: Tokenizer, t: Term, doc: Doc) {
    t in tok(doc.body) || t in tok(doc.title)
  }

  function PostingOf(tok: Tokenizer, t: Term, doc: Doc): Posting {
    Posting(Frequency(tok(doc.body), t), Frequency(tok(doc.title), t))
  }

  function MetaOf(tok: Tokenizer, doc: Doc): DocMeta {
    DocMeta(doc.ref, |tok(doc.body)|, |tok(doc.title)|, doc.updatedAt)
  }

  function PostingsOf(tok: Tokenizer, corpus: map<DocKey, Doc>, t: Term): map<DocKey, Posting> {
    map k | k in corpus && Occurs(tok, t, corpus[k]) :: PostingOf(tok, t, corpus[k])
  }

  function MetasOf(tok: Tokenizer, corpus: map<DocKey, Doc>): map<DocKey, DocMeta> {
    map k | k in corpus :: MetaOf(tok, corpus[k])
  }

  function BodyLengths(docs: map<DocKey, DocMeta>): map<DocKey, nat> {
    map k | k in docs :: docs[k].bodyLen
  }

  function TitleLengths(docs: map<DocKey, DocMeta>): map<DocKey, nat> {
    map k | k in docs :: docs[k].titleLen
  }

  ghost function Average(lengths: map<DocKey, nat>): real {
    if lengths == map[] then 0.0 else MapSum(lengths) as real / |lengths| as real
  }

  /** What a snapshot holds, as a value. */
  datatype Contents = Contents(postings: map<Term, map<DocKey, Posting>>, docs: map<DocKey, DocMeta>,
                               avgBody: real, avgTitle: real)

  /** The postings and documents are exactly those of the corpus; no posting map is empty. */
  ghost predicate Indexes(tok: Tokenizer, corpus: map<DocKey, Doc>,
                          postings: map<Term, map<DocKey, Posting>>, docs: map<DocKey, DocMeta>)
  {
    && docs == MetasOf(tok, corpus)
    && (forall t :: t in postings <==> PostingsOf(tok, corpus, t) != map[])
    && (forall t :: t in postings ==> postings[t] == PostingsOf(tok, corpus, t))
  }

  /** c is the index built from scratch for the corpus. */
  ghost predicate IsIndexOf(tok: Tokenizer, corpus: map<DocKey, Doc>, c: Contents) {
    && Indexes(tok, corpus, c.postings, c.docs)
    && c.avgBody == Average(BodyLengths(c.docs))
    && c.avgTitle == Average(TitleLengths(c.docs))
  }

  function EntryAt(postings: map<Term, map<DocKey, Posting>>, t: Term): map<DocKey, Posting> {
    if t in postings then postings[t] else map[]
  }

  /** The posting map of t with the document's posting entered, if it has the term. */
  function WithDoc(tok: Tokenizer, entries: map<DocKey, Posting>, key: DocKey, doc: Doc,
                   t: Term): map<DocKey, Posting> {
    if Occurs(tok, t, doc) then entries[key := PostingOf(tok, t, doc)] else entries
  }

  lemma PostingsUnique(tok: Tokenizer, corpus: map<DocKey, Doc>, docs: map<DocKey, DocMeta>,
                       p: map<Term, map<DocKey, Posting>>, q: map<Term, map<DocKey, Posting>>)
    requires Indexes(tok, corpus, p, docs) && Indexes(tok, corpus, q, docs)
    ensures p == q
  {
    forall t ensures (t in p <==> t in q) && (t in p && t in q ==> p[t] == q[t]) { }
  }

  /** A corpus has one index, so any two ways of arriving at it agree. */
  lemma IndexUnique(tok: Tokenizer, corpus: map<DocKey, Doc>, c: Contents, d: Contents)
    requires IsIndexOf(tok, corpus, c) && IsIndexOf(tok, corpus, d)
    ensures c == d
  {
    PostingsUnique(tok, corpus, c.docs, c.postings, d.postings);
  }

  lemma RemoveFromPostings(tok: Tokenizer, corpus: map<DocKey, Doc>, key: DocKey, t: Term)
    ensures PostingsOf(tok, corpus - {key}, t) == PostingsOf(tok, corpus, t) - {key}
  {
  }

  lemma AddToPostings(tok: Tokenizer, corpus: map<DocKey, Doc>, key: DocKey, doc: Doc, t: Term)
    requires key !in corpus
    ensures PostingsOf(tok, corpus[key := doc], t) == WithDoc(tok, PostingsOf(tok, corpus, t), key, doc, t)
  {
  }

  lemma IndexedEntry(tok: Tokenizer, corpus: map<DocKey, Doc>, postings: map<Term, map<DocKey, Posting>>,
                     docs: map<DocKey, DocMeta>, t: Term)
    requires Indexes(tok, corpus, postings, docs)
    ensures EntryAt(postings, t) == PostingsOf(tok, corpus, t)
  {
  }

  /** Deleting the key from every posting map gives the index of the smaller corpus. */
  lemma RemoveKeepsIndex(tok: Tokenizer, corpus: map<DocKey, Doc>, key: DocKey,
                         p: map<Term, map<DocKey, Posting>>, d: map<DocKey, DocMeta>,
                         p': map<Term, map<DocKey, Posting>>)
    requires Indexes(tok, corpus, p, d)
    requires key !in d ==> p' == p
    requires key in d ==> forall t :: t in p' <==> t in p && p[t] - {key} != map[]
    requires key in d ==> forall t :: t in p' ==> t in p && p'[t] == p[t] - {key}
    ensures Indexes(tok, corpus - {key}, p', d - {key})
  {
    assert MetasOf(tok, corpus - {key}) == d - {key};
    if key in d {
      forall t
        ensures t in p' <==> PostingsOf(tok, corpus - {key}, t) != map[]
        ensures t in p' ==> p'[t] == PostingsOf(tok, corpus - {key}, t)
      {
        RemoveFromPostings(tok, corpus, key, t);
        IndexedEntry(tok, corpus, p, d, t);
      }
    } else {
      assert corpus - {key} == corpus;
    }
  }

  /** Entering a new document's postings gives the index of the larger corpus. */
  lemma AddKeepsIndex(tok: Tokenizer, corpus: map<DocKey, Doc>, key: DocKey, doc: Doc,
                      p: map<Term, map<DocKey, Posting>>, d: map<DocKey, DocMeta>,
                      p': map<Term, map<DocKey, Posting>>)
    requires Indexes(tok, corpus, p, d) && key !in corpus
    requires forall t :: t in p' <==> t in p || Occurs(tok, t, doc)
    requires forall t :: t in p' ==> p'[t] == WithDoc(tok, EntryAt(p, t), key, doc, t)
    ensures Indexes(tok, corpus[key := doc], p', d[key := MetaOf(tok, doc)])
  {
    assert MetasOf(tok, corpus[key := doc]) == d[key := MetaOf(tok, doc)];
    forall t
      ensures t in p' <==> PostingsOf(tok, corpus[key := doc], t) != map[]
      ensures t in p' ==> p'[t] == PostingsOf(tok, corpus[key := doc], t)
    {
      AddToPostings(tok, corpus, key, doc, t);
      IndexedEntry(tok, corpus, p, d, t);
      if Occurs(tok, t, doc) {
        assert key in PostingsOf(tok, corpus[key := doc], t);
      }
    }
  }

  function Frequencies(terms: seq<Term>, distinct: set<Term>): map<Term, nat> {
    map t | t in distinct :: Frequency(terms, t)
  }

  lemma OneMoreFrequency(rest: seq<Term>, last: Term, distinct: set<Term>)
    requires last in distinct
    ensures var m := Frequencies(rest, distinct); Frequencies(rest + [last], distinct) == m[last := m[last] + 1]
  {
    assert (rest + [last])[..|rest|] == rest;
  }

  /** A document's term frequencies add up to its length. */
  lemma {:induction false} LengthIsSumOfFrequencies(terms: seq<Term>, distinct: set<Term>)
    requires forall t :: t in terms ==> t in distinct
    ensures MapSum(Frequencies(terms, distinct)) == |terms|
  {
    if terms == [] {
      AllZero(Frequencies(terms, distinct));
    } else {
      var rest, last := terms[..|terms| - 1], terms[|terms| - 1];
      assert terms == rest + [last];
      assert last in terms;
      LengthIsSumOfFrequencies(rest, distinct);
      var m := Frequencies(rest, distinct);
      OneMoreFrequency(rest, last, distinct);
      MapSumUpdate(m, last, m[last] + 1);
    }
  }

  lemma {:induction false} AllZero(m: map<Term, nat>)
    requires forall t :: t in m ==> m[t] == 0
    ensures MapSum(m) == 0
    decreases |m|
  {
    if m != map[] {
      var t :| t in m && MapSum(m) == m[t] + MapSum(m - {t});
      AllZero(m - {t});
    }
  }
}
