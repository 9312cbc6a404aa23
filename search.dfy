/**
 * The document store and retrieval engine of search.py. The engine keeps the
 * ingested passages, one metadata record per passage, a per-source passage
 * count and a cache of answers keyed by the question text. Retrieval takes the
 * dense index's hits, adds a lexical bonus of 0.02 per distinct lower-cased
 * token shared with the question, sorts by the resulting score (highest
 * first, ties in hit order) and keeps the first `topK`. Answering assembles a
 * context under a 2000-character budget and asks the language model, with the
 * cache in front.
 *
 * The embedding model, the vector index and the language model are oracles:
 * the dense search is given as its hits, the model as a function from prompt
 * to answer.
 */
module Search {
  import opened Wrappers
  import opened Text

  /** The metadata record kept for each passage. */
  datatype Meta = Meta(source: Option<string>, chunkIndex: int)

  /** One row of the vector index's answer: inner-product score and passage position. */
  datatype Hit = Hit(score: real, id: int)

  /** One retrieval result. */
  datatype Result = Result(chunkId: int, similarity: real, finalScore: real, source: Option<string>, text: string)

  /** What the language model is asked: the assembled context and the question; the fixed wording around them is not modelled. */
  datatype Prompt = Prompt(context: string, question: string)

  const CandidateFactor: nat := 5
  const BonusPerToken: real := 0.02
  const MaxContextChars: nat := 2000
  const BlockSeparator: string := "\n\n"

  /** Python's truthiness of `source_name`: neither `None` nor the empty string. */
  predicate IsNamed(source: Option<string>)
  {
    source.Some? && source.value != ""
  }

  /** How many metadata records carry the source `name`. */
  function CountSource(meta: seq<Meta>, name: string): nat
  {
    if meta == [] then 0
    else CountSource(meta[..|meta| - 1], name) + (if meta[|meta| - 1].source == Some(name) then 1 else 0)
  }

  lemma {:induction false} CountSourceAppend(a: seq<Meta>, b: seq<Meta>, name: string)
    ensures CountSource(a + b, name) == CountSource(a, name) + CountSource(b, name)
    decreases |b|
  {
    if b == [] {
      assert a + b == a;
    } else {
      assert (a + b)[..|a + b| - 1] == a + b[..|b| - 1];
      CountSourceAppend(a, b[..|b| - 1], name);
    }
  }

  /** A source with a positive count occurs in some record. */
  lemma {:induction false} CountSourcePositive(meta: seq<Meta>, name: string)
    requires CountSource(meta, name) > 0
    ensures exists i :: 0 <= i < |meta| && meta[i].source == Some(name)
  {
    var last := |meta| - 1;
    if meta[last].source != Some(name) {
      CountSourcePositive(meta[..last], name);
      var i :| 0 <= i < last && meta[..last][i].source == Some(name);
      assert meta[i] == meta[..last][i];
    }
  }

  /** The records `add_documents` appends for `count` passages of `source` starting at position `start`. */
  function NewMeta(source: Option<string>, start: int, count: nat): (ms: seq<Meta>)
    ensures |ms| == count
  {
    seq(count, i requires 0 <= i < count => Meta(source, start + i))
  }

  /** The appended records count once each towards their own source and never towards another. */
  lemma {:induction false} CountNewMeta(source: Option<string>, start: int, count: nat, name: string)
    ensures CountSource(NewMeta(source, start, count), name) == if source == Some(name) then count else 0
    decreases count
  {
    if count > 0 {
      assert NewMeta(source, start, count)[..count - 1] == NewMeta(source, start, count - 1);
      CountNewMeta(source, start, count - 1, name);
    }
  }

  /** `uploaded_files` agrees with the metadata: each key is a named source whose value is its passage count, and every named source has a key. */
  predicate FilesConsistent(files: map<string, int>, meta: seq<Meta>)
  {
    && (forall name :: name in files ==> name != "" && files[name] == CountSource(meta, name))
    && (forall i :: 0 <= i < |meta| && IsNamed(meta[i].source) ==> meta[i].source.value in files)
  }

  /** Registering `count` new passages of `source` the way `add_documents` does keeps `uploaded_files` consistent. */
  lemma AddedFilesConsistent(files: map<string, int>, files': map<string, int>, meta: seq<Meta>, source: Option<string>, count: nat)
    requires FilesConsistent(files, meta)
    requires IsNamed(source) && source.value in files ==> files' == files[source.value := files[source.value] + count]
    requires IsNamed(source) && source.value !in files ==> files' == files[source.value := count]
    requires !IsNamed(source) ==> files' == files
    ensures FilesConsistent(files', meta + NewMeta(source, |meta|, count))
  {
    var added := NewMeta(source, |meta|, count);
    forall name | name in files'
      ensures name != "" && files'[name] == CountSource(meta + added, name)
    {
      CountSourceAppend(meta, added, name);
      CountNewMeta(source, |meta|, count, name);
      if name !in files && CountSource(meta, name) > 0 {
        CountSourcePositive(meta, name);
      }
    }
    forall i | 0 <= i < |meta + added| && IsNamed((meta + added)[i].source)
      ensures (meta + added)[i].source.value in files'
    {
      if i >= |meta| {
        assert (meta + added)[i] == added[i - |meta|];
      }
    }
  }

  // ---------------------------------------------------------------------------
  // Ranking

  /** The distinct lower-cased whitespace tokens of `s`. */
  function Tokens(s: string): set<string>
  {
    set w | w in Words(Lower(s))
  }

  /** The number of distinct tokens the question and the passage share. */
  function Overlap(question: string, passage: string): nat
  {
    |Tokens(question) * Tokens(passage)|
  }

  /** The lexical bonus is symmetric and bounded by the question's distinct tokens. */
  lemma OverlapBounds(question: string, passage: string)
    ensures Overlap(question, passage) == Overlap(passage, question)
    ensures Overlap(question, passage) <= |Tokens(question)|
  {
    assert Tokens(question) * Tokens(passage) == Tokens(passage) * Tokens(question);
    assert Tokens(question) * Tokens(passage) <= Tokens(question);
    SubsetCard(Tokens(question) * Tokens(passage), Tokens(question));
  }

  lemma {:induction false} SubsetCard<T>(a: set<T>, b: set<T>)
    requires a <= b
    ensures |a| <= |b|
    decreases b
  {
    if a != {} {
      var x :| x in a;
      SubsetCard(a - {x}, b - {x});
    }
  }

  /** Every hit names a stored passage. */
  predicate HitsInRange(hits: seq<Hit>, n: nat)
  {
    forall j :: 0 <= j < |hits| ==> 0 <= hits[j].id < n
  }

  /** The result `query` builds for one hit, before sorting. */
  function Candidate(docs: seq<string>, meta: seq<Meta>, question: string, h: Hit): Result
    requires |meta| == |docs| && 0 <= h.id < |docs|
  {
    var text := docs[h.id];
    Result(h.id, h.score, h.score + BonusPerToken * Overlap(question, text) as real, meta[h.id].source, text)
  }

  /** The candidates in hit order. */
  function Scored(docs: seq<string>, meta: seq<Meta>, question: string, hits: seq<Hit>): (cs: seq<Result>)
    requires |meta| == |docs| && HitsInRange(hits, |docs|)
    ensures |cs| == |hits|
  {
    seq(|hits|, j requires 0 <= j < |hits| => Candidate(docs, meta, question, hits[j]))
  }

  /** A result as `query` builds it: its passage, its source and its score are those of the stored passage it names. */
  predicate WellFormed(docs: seq<string>, meta: seq<Meta>, question: string, r: Result)
    requires |meta| == |docs|
  {
    && 0 <= r.chunkId < |docs|
    && r.text == docs[r.chunkId]
    && r.source == meta[r.chunkId].source
    && r.finalScore == r.similarity + BonusPerToken * Overlap(question, r.text) as real
  }

  /** The candidate list grows by one candidate per hit, in hit order. */
  lemma ScoredStep(docs: seq<string>, meta: seq<Meta>, question: string, hits: seq<Hit>, rank: nat)
    requires |meta| == |docs| && HitsInRange(hits, |docs|) && rank < |hits|
    ensures Scored(docs, meta, question, hits)[..rank + 1]
      == Scored(docs, meta, question, hits)[..rank] + [Candidate(docs, meta, question, hits[rank])]
  {
  }

  /** Every result is well formed and its lexical bonus is never negative. */
  predicate AllWellFormed(docs: seq<string>, meta: seq<Meta>, question: string, rs: seq<Result>)
    requires |meta| == |docs|
  {
    forall r :: r in rs ==> WellFormed(docs, meta, question, r) && r.similarity <= r.finalScore
  }

  predicate SortedDesc(rs: seq<Result>)
  {
    forall i, j :: 0 <= i < j < |rs| ==> rs[i].finalScore >= rs[j].finalScore
  }

  /** Places `r` before the first element that does not outscore it, so earlier equal scores stay first. */
  function Insert(r: Result, rs: seq<Result>): (out: seq<Result>)
    ensures multiset(out) == multiset(rs) + multiset{r}
  {
    if rs == [] || rs[0].finalScore <= r.finalScore then
      [r] + rs
    else
      assert rs == [rs[0]] + rs[1..];
      [rs[0]] + Insert(r, rs[1..])
  }

  /** Python's stable `sorted(..., key=final_score, reverse=True)`. */
  function SortDesc(rs: seq<Result>): (out: seq<Result>)
    ensures multiset(out) == multiset(rs)
  {
    if rs == [] then []
    else
      assert rs == [rs[0]] + rs[1..];
      Insert(rs[0], SortDesc(rs[1..]))
  }

  /** Inserting into a sorted list keeps it sorted. */
  lemma {:induction false} InsertSorted(r: Result, rs: seq<Result>)
    requires SortedDesc(rs)
    ensures SortedDesc(Insert(r, rs))
  {
    if rs != [] && rs[0].finalScore > r.finalScore {
      var tail := Insert(r, rs[1..]);
      InsertSorted(r, rs[1..]);
      assert tail[0] == r || tail[0] == rs[1];
      var out := [rs[0]] + tail;
      forall i, j | 0 <= i < j < |out| ensures out[i].finalScore >= out[j].finalScore {
        if i == 0 && j > 1 {
          assert out[j] == tail[j - 1] && out[1] == tail[0];
        } else if i > 0 {
          assert out[i] == tail[i - 1] && out[j] == tail[j - 1];
        }
      }
    }
  }

  /** The sort orders the candidates by non-increasing final score. */
  lemma {:induction false} SortDescSorted(rs: seq<Result>)
    ensures SortedDesc(SortDesc(rs))
  {
    if rs != [] {
      SortDescSorted(rs[1..]);
      InsertSorted(rs[0], SortDesc(rs[1..]));
    }
  }

  function Min(a: int, b: int): int { if a < b then a else b }

  /** What `query` returns: the candidates sorted by final score, cut to `topK`. */
  function Ranked(docs: seq<string>, meta: seq<Meta>, question: string, topK: nat, hits: seq<Hit>): seq<Result>
    requires |meta| == |docs| && HitsInRange(hits, |docs|)
  {
    var sorted := SortDesc(Scored(docs, meta, question, hits));
    sorted[..Min(topK, |sorted|)]
  }

  /** Every candidate names a stored passage and carries that passage's text, source and score. */
  lemma ScoredWellFormed(docs: seq<string>, meta: seq<Meta>, question: string, hits: seq<Hit>, r: Result)
    requires |meta| == |docs| && HitsInRange(hits, |docs|)
    requires r in Scored(docs, meta, question, hits)
    ensures WellFormed(docs, meta, question, r)
  {
  }

  /** What `query` returns: at most `topK` results, sorted, each built from the stored passage it names. */
  lemma RankedProperties(docs: seq<string>, meta: seq<Meta>, question: string, topK: nat, hits: seq<Hit>)
    requires |meta| == |docs| && HitsInRange(hits, |docs|)
    ensures |Ranked(docs, meta, question, topK, hits)| == Min(topK, |hits|)
    ensures SortedDesc(Ranked(docs, meta, question, topK, hits))
    ensures AllWellFormed(docs, meta, question, Ranked(docs, meta, question, topK, hits))
  {
    var cs := Scored(docs, meta, question, hits);
    var sorted := SortDesc(cs);
    var top := Ranked(docs, meta, question, topK, hits);
    assert |sorted| == |cs| by {
      assert |multiset(sorted)| == |multiset(cs)|;
    }
    SortDescSorted(cs);
    forall r | r in top ensures WellFormed(docs, meta, question, r) && r.similarity <= r.finalScore {
      assert r in multiset(sorted);
      ScoredWellFormed(docs, meta, question, hits, r);
    }
  }

  /** The ranking keeps the best: no candidate left out outscores a returned result. */
  lemma RankedIsTop(docs: seq<string>, meta: seq<Meta>, question: string, topK: nat, hits: seq<Hit>, c: Result, r: Result)
    requires |meta| == |docs| && HitsInRange(hits, |docs|)
    requires c in Scored(docs, meta, question, hits) && c !in Ranked(docs, meta, question, topK, hits)
    requires r in Ranked(docs, meta, question, topK, hits)
    ensures c.finalScore <= r.finalScore
  {
    var sorted := SortDesc(Scored(docs, meta, question, hits));
    var top := Ranked(docs, meta, question, topK, hits);
    SortDescSorted(Scored(docs, meta, question, hits));
    assert c in multiset(sorted);
    var p :| 0 <= p < |sorted| && sorted[p] == c;
    var q :| 0 <= q < |top| && top[q] == r;
    assert top[q] == sorted[q];
  }

  // ---------------------------------------------------------------------------
  // Context assembly

  /** One turn of the context loop: the text is appended with a blank line when it fits the budget, and skipped otherwise. */
  function Admit(context: string, text: string): string
  {
    if |context| + |text| < MaxContextChars then context + text + BlockSeparator else context
  }

  /** The context after scanning `texts` in rank order. */
  function Assemble(texts: seq<string>): string
  {
    if texts == [] then "" else Admit(Assemble(texts[..|texts| - 1]), texts[|texts| - 1])
  }

  /** The texts that fit when their turn came, in rank order. */
  function Admitted(texts: seq<string>): seq<string>
  {
    if texts == [] then []
    else
      var prefix, last := texts[..|texts| - 1], texts[|texts| - 1];
      Admitted(prefix) + (if |Assemble(prefix)| + |last| < MaxContextChars then [last] else [])
  }

  /** The admitted texts, each followed by a blank line, concatenated. */
  function Blocks(texts: seq<string>): string
  {
    if texts == [] then "" else Blocks(texts[..|texts| - 1]) + texts[|texts| - 1] + BlockSeparator
  }

  /** The context is exactly the admitted texts as blocks, so a skipped text does not end the scan. */
  lemma {:induction false} AssembleIsAdmittedBlocks(texts: seq<string>)
    ensures Assemble(texts) == Blocks(Admitted(texts))
    ensures forall t :: t in Admitted(texts) ==> t in texts
  {
    if texts != [] {
      var prefix, last := texts[..|texts| - 1], texts[|texts| - 1];
      AssembleIsAdmittedBlocks(prefix);
      var adm := Admitted(prefix);
      if |Assemble(prefix)| + |last| < MaxContextChars {
        assert (adm + [last])[..|adm + [last]| - 1] == adm;
      } else {
        assert adm + [] == adm;
      }
    }
  }

  /** The context never exceeds the budget by more than the separator that ends its last block. */
  lemma {:induction false} AssembleBound(texts: seq<string>)
    ensures |Assemble(texts)| <= MaxContextChars + |BlockSeparator| - 1
  {
    if texts != [] {
      AssembleBound(texts[..|texts| - 1]);
    }
  }

  /** An oversized text is skipped and a smaller one after it is still admitted. */
  lemma SkipDoesNotStop()
    ensures Admitted([seq(MaxContextChars, _ => 'x'), "tail"]) == ["tail"]
  {
    var big := seq(MaxContextChars, _ => 'x');
    var texts := [big, "tail"];
    assert texts[..1] == [big];
    assert [big][..0] == [];
    assert Assemble([big]) == "" && Admitted([big]) == [];
  }

  /** The texts of the results, in rank order. */
  function Texts(results: seq<Result>): (ts: seq<string>)
    ensures |ts| == |results|
  {
    seq(|results|, i requires 0 <= i < |results| => results[i].text)
  }

  /** The passages at the given positions, in order. */
  function Retrieve(docs: seq<string>, ids: seq<int>): (ps: seq<string>)
    requires forall j :: 0 <= j < |ids| ==> 0 <= ids[j] < |docs|
    ensures |ps| == |ids|
  {
    if ids == [] then [] else Retrieve(docs, ids[..|ids| - 1]) + [docs[ids[|ids| - 1]]]
  }

  lemma {:induction false} RetrievedAt(docs: seq<string>, ids: seq<int>, j: nat)
    requires forall k :: 0 <= k < |ids| ==> 0 <= ids[k] < |docs|
    requires j < |ids|
    ensures Retrieve(docs, ids)[j] == docs[ids[j]]
    decreases |ids|
  {
    if j < |ids| - 1 {
      RetrievedAt(docs, ids[..|ids| - 1], j);
    }
  }

  /** Every retrieved passage occurs in the joined context. */
  lemma {:induction false} RetrievedInContext(sep: string, xs: seq<string>, j: nat)
    requires j < |xs|
    ensures Contains(JoinWith(sep, xs), xs[j])
    decreases j
  {
    if |xs| == 1 {
      assert xs[0] <= JoinWith(sep, xs);
    } else if j == 0 {
      assert JoinWith(sep, xs) == xs[0] + (sep + JoinWith(sep, xs[1..]));
      assert xs[0] <= JoinWith(sep, xs);
    } else {
      RetrievedInContext(sep, xs[1..], j - 1);
      assert JoinWith(sep, xs) == (xs[0] + sep) + JoinWith(sep, xs[1..]);
      ContainsInSuffix(xs[0] + sep, JoinWith(sep, xs[1..]), xs[j]);
    }
  }

  /** What `generate_answer_with_llm` returns: the cached answer, or the model's answer to the assembled prompt. */
  function AnswerFor(cache: map<string, string>, question: string, results: seq<Result>, llm: Prompt -> string): string
  {
    if question in cache then cache[question] else llm(Prompt(Assemble(Texts(results)), question))
  }

  // ---------------------------------------------------------------------------
  // The engine

  class SemanticSearch {
    var documents: seq<string>
    var docMetadata: seq<Meta>
    var uploadedFiles: map<string, int>
    var answerCache: map<string, string>
    /** The cluster count the vector index was built with. */
    var nlist: int
    /** How many vectors the vector index holds. */
    ghost var indexedVectors: nat

    /** Metadata stays aligned with the passages, the index holds one vector per passage, and the per-source counts are exact. */
    ghost predicate Valid()
      reads this
    {
      && |docMetadata| == |documents|
      && indexedVectors == |documents|
      && FilesConsistent(uploadedFiles, docMetadata)
    }

    constructor (nlist: int)
      ensures Valid()
      ensures documents == [] && docMetadata == [] && uploadedFiles == map[] && answerCache == map[]
      ensures this.nlist == nlist
    {
      documents := [];
      docMetadata := [];
      uploadedFiles := map[];
      answerCache := map[];
      this.nlist := nlist;
      indexedVectors := 0;
    }

    /** `add_documents(ds, source)`. */
    method AddDocuments(ds: seq<string>, source: Option<string>)
      requires Valid()
      modifies this
      ensures Valid()
      ensures documents == old(documents) + ds
      ensures docMetadata == old(docMetadata) + NewMeta(source, |old(documents)|, |ds|)
      ensures IsNamed(source) && source.value in old(uploadedFiles) ==>
        uploadedFiles == old(uploadedFiles)[source.value := old(uploadedFiles)[source.value] + |ds|]
      ensures IsNamed(source) && source.value !in old(uploadedFiles) ==>
        uploadedFiles == old(uploadedFiles)[source.value := |ds|]
      ensures !IsNamed(source) ==> uploadedFiles == old(uploadedFiles)
      ensures answerCache == old(answerCache) && nlist == old(nlist)
    {
      var startIndex := |documents|;
      documents := documents + ds;
      indexedVectors := indexedVectors + |ds|;
      ghost var meta0 := docMetadata;
      for i := 0 to |ds|
        invariant docMetadata == meta0 + NewMeta(source, startIndex, i)
        invariant documents == old(documents) + ds && indexedVectors == old(indexedVectors) + |ds|
        invariant uploadedFiles == old(uploadedFiles) && answerCache == old(answerCache) && nlist == old(nlist)
      {
        assert NewMeta(source, startIndex, i + 1) == NewMeta(source, startIndex, i) + [Meta(source, startIndex + i)];
        docMetadata := docMetadata + [Meta(source, startIndex + i)];
      }
      if IsNamed(source) {
        var name := source.value;
        if name in uploadedFiles {
          uploadedFiles := uploadedFiles[name := uploadedFiles[name] + |ds|];
        } else {
          uploadedFiles := uploadedFiles[name := |ds|];
        }
      }
      AddedFilesConsistent(old(uploadedFiles), uploadedFiles, meta0, source, |ds|);
    }

    /** `query(text, topK)`, given the vector index's hits for `topK * 5` candidates. */
    method Query(text: string, topK: nat, hits: seq<Hit>) returns (results: seq<Result>)
      requires |docMetadata| == |documents|
      requires HitsInRange(hits, |documents|) && |hits| <= CandidateFactor * topK
      ensures results == Ranked(documents, docMetadata, text, topK, hits)
      ensures |results| == Min(topK, |hits|) && |results| <= topK
      ensures SortedDesc(results)
      ensures AllWellFormed(documents, docMetadata, text, results)
    {
      ghost var all := Scored(documents, docMetadata, text, hits);
      var candidates: seq<Result> := [];
      for rank := 0 to |hits|
        invariant candidates == all[..rank]
      {
        var idx := hits[rank].id;
        var similarity := hits[rank].score;
        var docText := documents[idx];
        var overlap := Overlap(text, docText);
        var finalScore := similarity + BonusPerToken * overlap as real;
        var candidate := Result(idx, similarity, finalScore, docMetadata[idx].source, docText);
        ScoredStep(documents, docMetadata, text, hits, rank);
        assert candidate == Candidate(documents, docMetadata, text, hits[rank]);
        candidates := candidates + [candidate];
      }
      assert candidates == all;
      var sorted := SortDesc(candidates);
      results := sorted[..Min(topK, |sorted|)];
      assert results == Ranked(documents, docMetadata, text, topK, hits);
      RankedProperties(documents, docMetadata, text, topK, hits);
    }

    /** `query_with_context(text, topK)`, given the positions the vector index returned for at most `topK` passages. */
    method QueryWithContext(topK: nat, ids: seq<int>) returns (context: string)
      requires |ids| <= topK
      requires forall j :: 0 <= j < |ids| ==> 0 <= ids[j] < |documents|
      ensures context == JoinWith(BlockSeparator, Retrieve(documents, ids))
      ensures forall j :: 0 <= j < |ids| ==> Contains(context, documents[ids[j]])
    {
      var retrieved: seq<string> := [];
      for j := 0 to |ids|
        invariant retrieved == Retrieve(documents, ids[..j])
      {
        assert ids[..j + 1][..j] == ids[..j];
        retrieved := retrieved + [documents[ids[j]]];
      }
      assert ids[..|ids|] == ids;
      context := JoinWith(BlockSeparator, retrieved);
      forall j | 0 <= j < |ids| ensures Contains(context, documents[ids[j]]) {
        RetrievedAt(documents, ids, j);
        RetrievedInContext(BlockSeparator, retrieved, j);
      }
    }

    /** `generate_answer_with_llm(question, results)`; `asked` is the prompt sent to the model, if any. */
    method GenerateAnswer(question: string, results: seq<Result>, llm: Prompt -> string)
      returns (answer: string, asked: Option<Prompt>)
      modifies this`answerCache
      ensures answer == AnswerFor(old(answerCache), question, results, llm)
      ensures answerCache == old(answerCache)[question := answer]
      ensures question in old(answerCache) ==> asked == None && answerCache == old(answerCache)
      ensures question !in old(answerCache) ==>
        && asked == Some(Prompt(Assemble(Texts(results)), question))
        && answerCache == old(answerCache)[question := answer]
    {
      if question in answerCache {
        assert answerCache == answerCache[question := answerCache[question]];
        return answerCache[question], None;
      }
      var context := "";
      for i := 0 to |results|
        invariant context == Assemble(Texts(results)[..i])
      {
        var text := results[i].text;
        assert Texts(results)[..i + 1][..i] == Texts(results)[..i];
        if |context| + |text| < MaxContextChars {
          context := context + text + BlockSeparator;
        }
      }
      assert Texts(results)[..|results|] == Texts(results);
      var prompt := Prompt(context, question);
      answer := llm(prompt);
      asked := Some(prompt);
      answerCache := answerCache[question := answer];
    }
  }

  /** Asking the same question twice calls the model at most once, and the second answer is the first, whatever was retrieved in between. */
  method AskTwice(engine: SemanticSearch, question: string, first: seq<Result>, second: seq<Result>, llm: Prompt -> string)
    returns (a1: string, a2: string, asked2: Option<Prompt>)
    modifies engine`answerCache
    ensures a2 == a1 && asked2 == None
    ensures question in engine.answerCache && engine.answerCache[question] == a1
  {
    var asked1;
    a1, asked1 := engine.GenerateAnswer(question, first, llm);
    a2, asked2 := engine.GenerateAnswer(question, second, llm);
  }

}
