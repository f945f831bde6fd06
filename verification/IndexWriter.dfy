/** The index writer: copy-on-write snapshots whose posting maps are updated in place. */
module IndexWriter {
  import opened Sequences
  import opened Domain
  import opened IndexContents

  class PostMap {
    var entries: map<DocKey, Posting>

    constructor (entries: map<DocKey, Posting>)
      ensures this.entries == entries
    {
      this.entries := entries;
    }
  }

  class Snapshot {
    var postings: map<Term, PostMap>
    var docs: map<DocKey, DocMeta>
    var avgBody: real
    var avgTitle: real

    constructor (postings: map<Term, PostMap>, docs: map<DocKey, DocMeta>, avgBody: real, avgTitle: real)
      ensures this.postings == postings && this.docs == docs && this.avgBody == avgBody && this.avgTitle == avgTitle
    {
      this.postings, this.docs, this.avgBody, this.avgTitle := postings, docs, avgBody, avgTitle;
    }

    /** No two terms share a posting map. */
    ghost predicate Separate()
      reads this
    {
      forall t, u :: t in postings && u in postings && t != u ==> postings[t] != postings[u]
    }

    ghost function Postings(): map<Term, map<DocKey, Posting>>
      reads this, postings.Values
    {
      map t | t in postings :: postings[t].entries
    }

    ghost function Value(): Contents
      reads this, postings.Values
    {
      Contents(Postings(), docs, avgBody, avgTitle)
    }
  }

  /** A copy that shares nothing with the snapshot it was made from. */
  method Clone(prev: Snapshot) returns (next: Snapshot)
    ensures fresh(next) && next.Separate() && (forall t :: t in next.postings ==> fresh(next.postings[t]))
    ensures next.Value() == prev.Value()
  {
    next := new Snapshot(map[], prev.docs, prev.avgBody, prev.avgTitle);
    var rest := prev.postings.Keys;
    while rest != {}
      invariant rest <= prev.postings.Keys
      invariant next.docs == prev.docs && next.avgBody == prev.avgBody && next.avgTitle == prev.avgTitle
      invariant next.postings.Keys == prev.postings.Keys - rest
      invariant forall t :: t in next.postings ==>
        fresh(next.postings[t]) && next.postings[t].entries == prev.postings[t].entries
      invariant next.Separate()
      decreases rest
    {
      var t :| t in rest;
      var copy := new PostMap(prev.postings[t].entries);
      next.postings := next.postings[t := copy];
      rest := rest - {t};
    }
    assert next.Postings() == prev.Postings();
  }

  /** Deletes a document from one term's posting map, and the map when it becomes empty. */
  method RemoveFromTerm(snap: Snapshot, t: Term, key: DocKey)
    requires t in snap.postings
    modifies snap`postings, snap.postings[t]
    ensures old(snap.postings[t]).entries == old(snap.postings[t].entries) - {key}
    ensures snap.postings == if old(snap.postings[t].entries) - {key} == map[] then old(snap.postings) - {t}
                             else old(snap.postings)
  {
    var postMap := snap.postings[t];
    postMap.entries := postMap.entries - {key};
    if |postMap.entries| == 0 {
      snap.postings := snap.postings - {t};
    }
  }

  /** Deletes a document from every posting map in place, dropping maps that become empty. */
  method RemoveDoc(snap: Snapshot, key: DocKey)
    requires snap.Separate()
    modifies snap`postings, snap`docs, snap.postings.Values
    ensures snap.Separate() && snap.postings.Keys <= old(snap.postings.Keys)
    ensures forall t :: t in snap.postings ==> snap.postings[t] == old(snap.postings[t])
    ensures snap.docs == old(snap.docs) - {key}
    ensures key !in old(snap.docs) ==> snap.postings == old(snap.postings)
    ensures key !in old(snap.docs) ==> forall t :: t in snap.postings ==>
              snap.postings[t].entries == old(snap.postings[t].entries)
    ensures key in old(snap.docs) ==>
      && (forall t :: t in snap.postings <==> t in old(snap.postings) && old(snap.postings[t].entries) - {key} != map[])
      && (forall t :: t in snap.postings ==> snap.postings[t].entries == old(snap.postings[t].entries) - {key})
  {
    if key !in snap.docs {
      return;
    }
    snap.docs := snap.docs - {key};
    ghost var original := snap.postings;
    var rest := snap.postings.Keys;
    while rest != {}
      invariant rest <= snap.postings.Keys <= original.Keys
      invariant snap.docs == old(snap.docs) - {key}
      invariant forall t :: t in snap.postings ==> snap.postings[t] == original[t]
      invariant forall t :: t in rest ==> original[t].entries == old(original[t].entries)
      invariant forall t :: t in original && t !in rest ==>
        && (t in snap.postings <==> old(original[t].entries) - {key} != map[])
        && original[t].entries == old(original[t].entries) - {key}
      decreases rest
    {
      var t :| t in rest;
      rest := rest - {t};
      RemoveFromTerm(snap, t, key);
    }
  }

  method TermFreq(terms: seq<Term>) returns (freq: map<Term, nat>)
    ensures forall t :: t in freq <==> t in terms
    ensures forall t :: t in terms ==> freq[t] == Frequency(terms, t)
  {
    freq := map[];
    for i := 0 to |terms|
      invariant forall t :: t in freq <==> t in terms[..i]
      invariant forall t :: t in freq ==> freq[t] == Frequency(terms[..i], t)
    {
      assert terms[..i + 1] == terms[..i] + [terms[i]];
      freq := freq[terms[i] := (if terms[i] in freq then freq[terms[i]] else 0) + 1];
    }
    assert terms[..|terms|] == terms;
  }

  function FrequencyAt(freq: map<Term, nat>, t: Term): nat {
    if t in freq then freq[t] else 0
  }

  /** Enters a posting for one term, creating the term's posting map if it has none. */
  method AddToTerm(snap: Snapshot, t: Term, key: DocKey, p: Posting) returns (postMap: PostMap)
    modifies snap`postings, if t in snap.postings then {snap.postings[t]} else {}
    ensures snap.postings == old(snap.postings)[t := postMap]
    ensures if t in old(snap.postings) then postMap == old(snap.postings[t]) else fresh(postMap)
    ensures postMap.entries == (if t in old(snap.postings) then old(snap.postings[t].entries) else map[])[key := p]
  {
    if t !in snap.postings {
      var added := new PostMap(map[]);
      snap.postings := snap.postings[t := added];
    }
    postMap := snap.postings[t];
    postMap.entries := postMap.entries[key := p];
  }

  /** The posting map of t once the document's postings ps are entered, but for pending terms. */
  ghost function Entered(before: map<Term, map<DocKey, Posting>>, key: DocKey, ps: map<Term, Posting>,
                         t: Term, pending: set<Term>): map<DocKey, Posting>
  {
    var b := if t in before then before[t] else map[];
    if t in ps && t !in pending then b[key := ps[t]] else b
  }

  /** now is before with the document's postings entered, but for pending terms. */
  ghost predicate Entering(before: map<Term, map<DocKey, Posting>>, now: map<Term, map<DocKey, Posting>>, key: DocKey,
                           ps: map<Term, Posting>, pending: set<Term>)
  {
    && (forall t :: t in now <==> t in before || (t in ps && t !in pending))
    && (forall t :: t in now ==> now[t] == Entered(before, key, ps, t, pending))
  }

  lemma EnterStep(before: map<Term, map<DocKey, Posting>>, now: map<Term, map<DocKey, Posting>>, key: DocKey,
                  ps: map<Term, Posting>, pending: set<Term>, t: Term, next: map<Term, map<DocKey, Posting>>)
    requires Entering(before, now, key, ps, pending) && t in pending && t in ps
    requires next.Keys == now.Keys + {t} && next[t] == (if t in now then now[t] else map[])[key := ps[t]]
    requires forall u :: u in now && u != t ==> next[u] == now[u]
    ensures Entering(before, next, key, ps, pending - {t})
  {
  }

  /** Enters one term's posting; no other posting map changes. */
  method EnterTerm(snap: Snapshot, t: Term, key: DocKey, p: Posting)
    requires snap.Separate()
    modifies snap`postings, if t in snap.postings then {snap.postings[t]} else {}
    ensures snap.Separate() && snap.postings.Keys == old(snap.postings.Keys) + {t}
    ensures snap.postings[t].entries
      == (if t in old(snap.postings) then old(snap.postings[t].entries) else map[])[key := p]
    ensures forall u :: u in old(snap.postings) ==> snap.postings[u] == old(snap.postings[u])
    ensures forall u :: u in old(snap.postings) && u != t ==> snap.postings[u].entries == old(snap.postings[u].entries)
    ensures t in old(snap.postings) || fresh(snap.postings[t])
  {
    var postMap := AddToTerm(snap, t, key, p);
  }

  method EnterAll(snap: Snapshot, key: DocKey, ps: map<Term, Posting>)
    requires snap.Separate()
    modifies snap`postings, snap.postings.Values
    ensures snap.Separate()
    ensures forall t :: t in snap.postings ==>
      if t in old(snap.postings) then snap.postings[t] == old(snap.postings[t]) else fresh(snap.postings[t])
    ensures snap.postings.Keys == old(snap.postings.Keys) + ps.Keys
    ensures forall t :: t in snap.postings ==>
      snap.postings[t].entries == Entered(old(snap.Postings()), key, ps, t, {})
  {
    ghost var before := snap.Postings();
    ghost var original := snap.postings;
    var rest := ps.Keys;
    while rest != {}
      invariant rest <= ps.Keys && snap.Separate() && original.Keys <= snap.postings.Keys
      invariant Entering(before, snap.Postings(), key, ps, rest)
      invariant forall t :: t in original ==> snap.postings[t] == original[t]
      invariant fresh(snap.postings.Values - original.Values)
      decreases rest
    {
      var t :| t in rest;
      EnterNext(snap, key, ps, t, before, rest);
      rest := rest - {t};
    }
    AllEntered(snap, before, key, ps);
  }

  lemma AllEntered(snap: Snapshot, before: map<Term, map<DocKey, Posting>>, key: DocKey, ps: map<Term, Posting>)
    requires Entering(before, snap.Postings(), key, ps, {})
    ensures snap.postings.Keys == before.Keys + ps.Keys
    ensures forall t :: t in snap.postings ==> snap.postings[t].entries == Entered(before, key, ps, t, {})
  {
    assert forall t :: t in snap.postings ==> snap.Postings()[t] == snap.postings[t].entries;
    assert snap.postings.Keys == snap.Postings().Keys;
  }

  /** Enters one of the pending terms. */
  method EnterNext(snap: Snapshot, key: DocKey, ps: map<Term, Posting>, t: Term,
                   ghost before: map<Term, map<DocKey, Posting>>, ghost pending: set<Term>)
    requires snap.Separate() && Entering(before, snap.Postings(), key, ps, pending) && t in pending && t in ps
    modifies snap`postings, if t in snap.postings then {snap.postings[t]} else {}
    ensures snap.Separate() && snap.postings.Keys == old(snap.postings.Keys) + {t}
    ensures Entering(before, snap.Postings(), key, ps, pending - {t})
    ensures forall u :: u in old(snap.postings) ==> snap.postings[u] == old(snap.postings[u])
    ensures fresh(snap.postings.Values - old(snap.postings.Values))
  {
    ghost var now := snap.Postings();
    EnterTerm(snap, t, key, ps[t]);
    EnterStep(before, now, key, ps, pending, t, snap.Postings());
  }

  method PostingsFor(tok: Tokenizer, doc: Doc) returns (ps: map<Term, Posting>)
    ensures forall t :: t in ps <==> Occurs(tok, t, doc)
    ensures forall t :: t in ps ==> ps[t] == PostingOf(tok, t, doc)
  {
    var bodyFreq := TermFreq(tok(doc.body));
    var titleFreq := TermFreq(tok(doc.title));
    var allTerms := bodyFreq.Keys + titleFreq.Keys;
    ps := map t | t in allTerms :: Posting(FrequencyAt(bodyFreq, t), FrequencyAt(titleFreq, t));
  }

  /** Adds a document that is not in the index, creating posting maps for new terms. */
  method AddDoc(tok: Tokenizer, snap: Snapshot, key: DocKey, doc: Doc)
    requires snap.Separate()
    modifies snap`postings, snap`docs, snap.postings.Values
    ensures snap.Separate()
    ensures forall t :: t in snap.postings ==>
      if t in old(snap.postings) then snap.postings[t] == old(snap.postings[t]) else fresh(snap.postings[t])
    ensures snap.docs == old(snap.docs)[key := MetaOf(tok, doc)]
    ensures forall t :: t in snap.postings <==> t in old(snap.postings) || Occurs(tok, t, doc)
    ensures forall t :: t in snap.postings ==>
      snap.postings[t].entries == WithDoc(tok, EntryAt(old(snap.Postings()), t), key, doc, t)
  {
    var ps := PostingsFor(tok, doc);
    EnterAll(snap, key, ps);
    snap.docs := snap.docs[key := DocMeta(doc.ref, |tok(doc.body)|, |tok(doc.title)|, doc.updatedAt)];
  }

  method RecomputeAvg(snap: Snapshot)
    modifies snap`avgBody, snap`avgTitle
    ensures snap.avgBody == Average(BodyLengths(snap.docs))
    ensures snap.avgTitle == Average(TitleLengths(snap.docs))
  {
    if |snap.docs| == 0 {
      snap.avgBody := 0.0;
      snap.avgTitle := 0.0;
      return;
    }
    var sumBody, sumTitle := SumLengths(snap.docs);
    var n := |snap.docs| as real;
    assert BodyLengths(snap.docs).Keys == TitleLengths(snap.docs).Keys == snap.docs.Keys;
    assert |BodyLengths(snap.docs)| == |TitleLengths(snap.docs)| == |snap.docs|;
    snap.avgBody := sumBody as real / n;
    snap.avgTitle := sumTitle as real / n;
  }

  method SumLengths(docs: map<DocKey, DocMeta>) returns (sumBody: nat, sumTitle: nat)
    ensures sumBody == MapSum(BodyLengths(docs)) && sumTitle == MapSum(TitleLengths(docs))
  {
    sumBody, sumTitle := 0, 0;
    var rest := docs;
    while rest != map[]
      invariant sumBody + MapSum(BodyLengths(rest)) == MapSum(BodyLengths(docs))
      invariant sumTitle + MapSum(TitleLengths(rest)) == MapSum(TitleLengths(docs))
      decreases |rest|
    {
      var k :| k in rest;
      MapSumRemove(BodyLengths(rest), k);
      MapSumRemove(TitleLengths(rest), k);
      assert BodyLengths(rest) - {k} == BodyLengths(rest - {k});
      assert TitleLengths(rest) - {k} == TitleLengths(rest - {k});
      sumBody := sumBody + rest[k].bodyLen;
      sumTitle := sumTitle + rest[k].titleLen;
      rest := rest - {k};
    }
  }

  /** The next snapshot: a private copy is changed and nothing that existed before is. Whatever
      the corpus was, the copy ends as the index of the corpus after the write. */
  method Apply(tok: Tokenizer, prev: Snapshot, op: WriteOp, ghost corpus: map<DocKey, Doc>) returns (next: Snapshot)
    requires IsIndexOf(tok, corpus, prev.Value())
    ensures fresh(next) && forall t :: t in next.postings ==> fresh(next.postings[t])
    ensures IsIndexOf(tok, ApplyOp(corpus, op), next.Value())
  {
    next := Clone(prev);
    ApplyInPlace(tok, next, op, corpus);
    RecomputeIndexAvg(tok, next, ApplyOp(corpus, op));
  }

  method RecomputeIndexAvg(tok: Tokenizer, snap: Snapshot, ghost corpus: map<DocKey, Doc>)
    requires Indexes(tok, corpus, snap.Postings(), snap.docs)
    modifies snap`avgBody, snap`avgTitle
    ensures IsIndexOf(tok, corpus, snap.Value())
  {
    RecomputeAvg(snap);
  }

  method ApplyInPlace(tok: Tokenizer, snap: Snapshot, op: WriteOp, ghost corpus: map<DocKey, Doc>)
    requires snap.Separate() && Indexes(tok, corpus, snap.Postings(), snap.docs)
    modifies snap`postings, snap`docs, snap.postings.Values
    ensures forall t :: t in snap.postings ==>
      snap.postings[t] in old(snap.postings.Values) || fresh(snap.postings[t])
    ensures Indexes(tok, ApplyOp(corpus, op), snap.Postings(), snap.docs)
  {
    match op {
      case Remove(ref) =>
        RemoveFromSnapshot(tok, snap, KeyOf(ref), corpus);
        assert ApplyOp(corpus, op) == corpus - {KeyOf(ref)};
      case Add(doc) =>
        var key := KeyOf(doc.ref);
        RemoveFromSnapshot(tok, snap, key, corpus);
        AddToSnapshot(tok, snap, key, doc, corpus - {key});
        assert (corpus - {key})[key := doc] == corpus[key := doc];
    }
  }

  method RemoveFromSnapshot(tok: Tokenizer, snap: Snapshot, key: DocKey, ghost corpus: map<DocKey, Doc>)
    requires snap.Separate() && Indexes(tok, corpus, snap.Postings(), snap.docs)
    modifies snap`postings, snap`docs, snap.postings.Values
    ensures snap.Separate() && snap.postings.Keys <= old(snap.postings.Keys)
    ensures forall t :: t in snap.postings ==> snap.postings[t] == old(snap.postings[t])
    ensures Indexes(tok, corpus - {key}, snap.Postings(), snap.docs)
  {
    ghost var p, d := snap.Postings(), snap.docs;
    RemoveDoc(snap, key);
    assert key !in d ==> snap.Postings() == p;
    RemoveKeepsIndex(tok, corpus, key, p, d, snap.Postings());
  }

  method AddToSnapshot(tok: Tokenizer, snap: Snapshot, key: DocKey, doc: Doc, ghost corpus: map<DocKey, Doc>)
    requires snap.Separate() && Indexes(tok, corpus, snap.Postings(), snap.docs) && key !in corpus
    modifies snap`postings, snap`docs, snap.postings.Values
    ensures snap.Separate()
    ensures forall t :: t in snap.postings ==>
      if t in old(snap.postings) then snap.postings[t] == old(snap.postings[t]) else fresh(snap.postings[t])
    ensures Indexes(tok, corpus[key := doc], snap.Postings(), snap.docs)
  {
    ghost var p, d := snap.Postings(), snap.docs;
    AddDoc(tok, snap, key, doc);
    AddKeepsIndex(tok, corpus, key, doc, p, d, snap.Postings());
  }

  /** The i-th published snapshot is the index of the documents last written by the first i
      writes, in the present heap; repr holds all their objects. */
  ghost predicate AllCurrent(tok: Tokenizer, ops: seq<WriteOp>, published: seq<Snapshot>, repr: set<object>)
    requires |published| <= |ops| + 1
    reads repr
  {
    forall i :: 0 <= i < |published| ==> Current(tok, Replay(ops[..i]), published[i], repr)
  }

  ghost predicate Current(tok: Tokenizer, corpus: map<DocKey, Doc>, s: Snapshot, repr: set<object>)
    reads repr
  {
    && s in repr && (forall t :: t in s.postings ==> s.postings[t] in repr)
    && IsIndexOf(tok, corpus, s.Value())
  }

  lemma CurrentWidens(tok: Tokenizer, corpus: map<DocKey, Doc>, s: Snapshot, repr: set<object>, wider: set<object>)
    requires Current(tok, corpus, s, repr) && repr <= wider
    ensures Current(tok, corpus, s, wider)
  {
  }

  lemma AllCurrentAppend(tok: Tokenizer, ops: seq<WriteOp>, published: seq<Snapshot>, repr: set<object>,
                         next: Snapshot, wider: set<object>)
    requires |published| <= |ops| && AllCurrent(tok, ops, published, repr) && repr <= wider
    requires Current(tok, Replay(ops[..|published|]), next, wider)
    ensures AllCurrent(tok, ops, published + [next], wider)
  {
    forall i | 0 <= i < |published| ensures Current(tok, Replay(ops[..i]), published[i], wider) {
      CurrentWidens(tok, Replay(ops[..i]), published[i], repr, wider);
    }
  }

  lemma ReplayNext(ops: seq<WriteOp>, i: nat)
    requires i < |ops|
    ensures Replay(ops[..i + 1]) == ApplyOp(Replay(ops[..i]), ops[i])
  {
    assert ops[..i + 1] == ops[..i] + [ops[i]];
  }

  method EmptySnapshot(tok: Tokenizer) returns (s: Snapshot)
    ensures fresh(s) && Current(tok, map[], s, {s})
  {
    s := new Snapshot(map[], map[], 0.0, 0.0);
    assert s.Postings() == map[];
    assert BodyLengths(s.docs) == map[] && TitleLengths(s.docs) == map[];
  }

  /** The writer's loop over the writes it receives. All snapshots it ever published are
      returned, and at the end each one is still the index of the documents last written by
      the writes before it: no reader of an old snapshot sees a later write. */
  method RunWriter(tok: Tokenizer, ops: seq<WriteOp>) returns (published: seq<Snapshot>, ghost repr: set<object>)
    ensures |published| == |ops| + 1 && AllCurrent(tok, ops, published, repr)
  {
    var current := EmptySnapshot(tok);
    assert ops[..0] == [];
    AllCurrentAppend(tok, ops, [], {}, current, {current});
    published, repr := [] + [current], {current};
    for i := 0 to |ops|
      invariant |published| == i + 1 && AllCurrent(tok, ops, published, repr)
      invariant published[i] == current
    {
      assert Current(tok, Replay(ops[..i]), published[i], repr);
      current := Apply(tok, current, ops[i], Replay(ops[..i]));
      ReplayNext(ops, i);
      ghost var wider := repr + {current} + set t | t in current.postings :: current.postings[t] as object;
      AllCurrentAppend(tok, ops, published, repr, current, wider);
      published, repr := published + [current], wider;
    }
  }
}
