/**
 * The decisions the Flask handlers of app.py take around the engine: which
 * questions count as summary or document-level, how many results to fetch,
 * when the answer is replaced by the not-found message, how the index's
 * cluster count is chosen, and what upload, clear and delete do to the
 * engine's state. Routing, sessions, chat history, templates and timing are
 * not modelled; each handler returns what it decided.
 */
module App {
  import opened Wrappers
  import opened Text
  import opened Chunker
  import opened Search

  const SummaryKeywords: seq<string> := ["summarize", "summary", "overview", "brief"]
  const NotFoundAnswer: string := "Answer not found in documents."
  const NoDocumentsMessage: string := "No documents uploaded. Please upload a file first."
  const ConfidenceThreshold: real := 0.25
  const BroadTopK: nat := 10
  const PointTopK: nat := 3
  const UploadChunkSize: nat := 80
  const UploadOverlap: nat := 20

  // ---------------------------------------------------------------------------
  // Intent detection

  /** The lower-cased question contains one of the summary keywords. */
  predicate IsSummary(question: string)
  {
    var q := Lower(question);
    exists k :: 0 <= k < |SummaryKeywords| && Contains(q, SummaryKeywords[k])
  }

  /** The lower-cased question asks about the document as a whole. */
  predicate IsDocumentLevel(question: string)
  {
    var q := Lower(question);
    || Contains(q, "document")
    || (Contains(q, "explain") && Contains(q, "this"))
    || (Contains(q, "describe") && Contains(q, "this"))
    || (Contains(q, "about") && Contains(q, "document"))
  }

  /** A question that is neither a summary nor document-level asks for a specific fact. */
  predicate IsPointLookup(question: string)
  {
    !(IsSummary(question) || IsDocumentLevel(question))
  }

  /** The "about" and "document" clause adds nothing: "document" alone already qualifies. */
  lemma DocumentLevelClauses(question: string)
    ensures var q := Lower(question);
      IsDocumentLevel(question) <==>
        || Contains(q, "document")
        || (Contains(q, "explain") && Contains(q, "this"))
        || (Contains(q, "describe") && Contains(q, "this"))
  {
  }

  /** A summary question is one in which some keyword occurs, lower-cased, at some offset. */
  lemma SummaryIff(question: string)
    ensures IsSummary(question) <==>
      exists k, i :: 0 <= k < |SummaryKeywords| && OccursAt(Lower(question), SummaryKeywords[k], i)
  {
    var q := Lower(question);
    forall k | 0 <= k < |SummaryKeywords| {
      ContainsIff(q, SummaryKeywords[k]);
    }
  }

  /** Both intent flags ignore the case of the question. */
  lemma IntentIgnoresCase(question: string)
    ensures IsSummary(Lower(question)) == IsSummary(question)
    ensures IsDocumentLevel(Lower(question)) == IsDocumentLevel(question)
  {
    LowerIdempotent(question);
  }

  /** How many results `web_query` asks for. */
  function TopK(question: string): (k: nat)
    ensures k == BroadTopK <==> !IsPointLookup(question)
    ensures k == PointTopK <==> IsPointLookup(question)
  {
    if IsSummary(question) || IsDocumentLevel(question) then BroadTopK else PointTopK
  }

  // ---------------------------------------------------------------------------
  // Confidence guardrail

  /** The final score of the first result, or 0 when there is none. */
  function TopScore(results: seq<Result>): real
  {
    if results == [] then 0.0 else results[0].finalScore
  }

  /** The answer `web_query` records: the not-found message for a point lookup whose best result scores below 0.25. */
  function Guardrail(question: string, results: seq<Result>, answer: string): string
  {
    if IsPointLookup(question) && TopScore(results) < ConfidenceThreshold then NotFoundAnswer else answer
  }

  /** Summary and document-level answers pass unchanged; a point lookup with no results is always answered "not found". */
  lemma GuardrailCases(question: string, results: seq<Result>, answer: string)
    ensures !IsPointLookup(question) ==> Guardrail(question, results, answer) == answer
    ensures IsPointLookup(question) && results == [] ==> Guardrail(question, results, answer) == NotFoundAnswer
    ensures Guardrail(question, results, answer) in {answer, NotFoundAnswer}
  {
  }

  /** On ranked results, a point-lookup answer is suppressed exactly when every result scores below the threshold. */
  lemma GuardrailIffAllBelow(question: string, results: seq<Result>, answer: string)
    requires SortedDesc(results)
    requires IsPointLookup(question) && answer != NotFoundAnswer
    ensures Guardrail(question, results, answer) == NotFoundAnswer <==>
      forall r :: r in results ==> r.finalScore < ConfidenceThreshold
  {
    if results != [] && TopScore(results) < ConfidenceThreshold {
      forall r | r in results ensures r.finalScore < ConfidenceThreshold {
        var j :| 0 <= j < |results| && results[j] == r;
        assert j == 0 || results[0].finalScore >= results[j].finalScore;
      }
    }
  }

  // ---------------------------------------------------------------------------
  // Index sizing

  /** The integer square root, as `int(math.sqrt(n))` gives it. */
  function FloorSqrt(n: nat): (r: nat)
    ensures r * r <= n < (r + 1) * (r + 1)
  {
    if n == 0 then 0
    else
      var r := FloorSqrt(n - 1);
      if (r + 1) * (r + 1) <= n then
        assert (r + 2) * (r + 2) == (r + 1) * (r + 1) + 2 * r + 3;
        r + 1
      else r
  }

  /** The cluster count the index is rebuilt with: `max(1, int(math.sqrt(corpusSize or 1)))`. */
  function NList(corpusSize: nat): (r: nat)
    ensures r >= 1
    ensures var n := if corpusSize == 0 then 1 else corpusSize; r * r <= n < (r + 1) * (r + 1)
  {
    Max(1, FloorSqrt(if corpusSize == 0 then 1 else corpusSize))
  }

  function Max(a: int, b: int): int { if a < b then b else a }

  // ---------------------------------------------------------------------------
  // web_query

  datatype Reply =
    | Redirected
    | NoDocuments(message: string)
    | Answered(answer: string, topScore: real, results: seq<Result>)

  /**
   * `web_query` for one question. `hits` is what the vector index returns for
   * the question and `TopK(question) * 5` candidates; `llm` is the language
   * model; `asked` is the prompt it was sent, if any.
   */
  method WebQuery(engine: SemanticSearch, question: string, hits: seq<Hit>, llm: Prompt -> string)
    returns (reply: Reply, asked: Option<Prompt>)
    requires |engine.docMetadata| == |engine.documents|
    requires HitsInRange(hits, |engine.documents|) && |hits| <= CandidateFactor * TopK(question)
    modifies engine`answerCache
    ensures question == "" ==> reply == Redirected && asked == None && engine.answerCache == old(engine.answerCache)
    ensures question != "" && engine.documents == [] ==>
      reply == NoDocuments(NoDocumentsMessage) && asked == None && engine.answerCache == old(engine.answerCache)
    ensures question != "" && engine.documents != [] ==>
      var results := Ranked(engine.documents, engine.docMetadata, question, TopK(question), hits);
      var answer := AnswerFor(old(engine.answerCache), question, results, llm);
      && reply == Answered(Guardrail(question, results, answer), TopScore(results), results)
      && engine.answerCache == old(engine.answerCache)[question := answer]
      && (asked == None <==> question in old(engine.answerCache))
  {
    if question == "" {
      return Redirected, None;
    }
    var broad := IsSummary(question) || IsDocumentLevel(question);
    if engine.documents == [] {
      return NoDocuments(NoDocumentsMessage), None;
    }
    assert broad == !IsPointLookup(question) && TopK(question) == if broad then BroadTopK else PointTopK;
    var results;
    if broad {
      results := engine.Query(question, BroadTopK, hits);
    } else {
      results := engine.Query(question, PointTopK, hits);
    }
    assert results == Ranked(engine.documents, engine.docMetadata, question, TopK(question), hits);
    var answer;
    answer, asked := engine.GenerateAnswer(question, results, llm);
    var top := if results != [] then results[0].finalScore else 0.0;
    assert top == TopScore(results);
    if !broad && top < ConfidenceThreshold {
      answer := NotFoundAnswer;
    }
    reply := Answered(answer, top, results);
  }

  // ---------------------------------------------------------------------------
  // upload and clear

  datatype UploadReply = EmptyFilename | UnsupportedType | Uploaded

  /** The upload handler accepts text and PDF files only. */
  predicate SupportedType(filename: string)
  {
    EndsWith(filename, ".txt") || EndsWith(filename, ".pdf")
  }

  /** `upload` for a file named `filename` whose loader returned `extracted`. */
  method Upload(engine: SemanticSearch, filename: string, extracted: string) returns (reply: UploadReply)
    requires engine.Valid()
    modifies engine
    ensures engine.Valid()
    ensures filename == "" ==> reply == EmptyFilename
    ensures filename != "" && !SupportedType(filename) ==> reply == UnsupportedType
    ensures reply != Uploaded ==>
      && engine.documents == old(engine.documents) && engine.docMetadata == old(engine.docMetadata)
      && engine.uploadedFiles == old(engine.uploadedFiles) && engine.answerCache == old(engine.answerCache)
    ensures filename != "" && SupportedType(filename) ==>
      var chunks := Chunks(Words(extracted), UploadChunkSize, UploadChunkSize - UploadOverlap);
      var before := if filename in old(engine.uploadedFiles) then old(engine.uploadedFiles)[filename] else 0;
      && reply == Uploaded
      && engine.documents == old(engine.documents) + chunks
      && engine.docMetadata == old(engine.docMetadata) + NewMeta(Some(filename), |old(engine.documents)|, |chunks|)
      && engine.uploadedFiles == old(engine.uploadedFiles)[filename := before + |chunks|]
      && engine.answerCache == map[]
    ensures engine.nlist == old(engine.nlist)
  {
    if filename == "" {
      return EmptyFilename;
    }
    if !(EndsWith(filename, ".txt") || EndsWith(filename, ".pdf")) {
      return UnsupportedType;
    }
    var chunks := ChunkText(extracted, UploadChunkSize, UploadOverlap);
    engine.AddDocuments(chunks, Some(filename));
    engine.answerCache := map[];
    reply := Uploaded;
  }

  /** `clear`: empties the store and rebuilds an empty index, but keeps the answer cache. */
  method Clear(engine: SemanticSearch)
    modifies engine
    ensures engine.Valid()
    ensures engine.documents == [] && engine.docMetadata == [] && engine.uploadedFiles == map[]
    ensures engine.nlist == NList(0) == 1
    ensures engine.answerCache == old(engine.answerCache)
  {
    engine.documents := [];
    engine.docMetadata := [];
    engine.uploadedFiles := map[];
    engine.nlist := NList(|engine.documents|);
    engine.indexedVectors := 0;
  }

  // ---------------------------------------------------------------------------
  // delete_file

  /** The passages paired with their metadata, as `zip` pairs them. */
  function Pairs(docs: seq<string>, meta: seq<Meta>): (ps: seq<(string, Meta)>)
    requires |docs| == |meta|
    ensures |ps| == |docs|
  {
    seq(|docs|, i requires 0 <= i < |docs| => (docs[i], meta[i]))
  }

  function Docs(ps: seq<(string, Meta)>): (ds: seq<string>)
    ensures |ds| == |ps|
  {
    seq(|ps|, i requires 0 <= i < |ps| => ps[i].0)
  }

  function Metas(ps: seq<(string, Meta)>): (ms: seq<Meta>)
    ensures |ms| == |ps|
  {
    seq(|ps|, i requires 0 <= i < |ps| => ps[i].1)
  }

  /** The pairs whose source is not `name`, in their original order. */
  function KeptPairs(ps: seq<(string, Meta)>, name: string): seq<(string, Meta)>
  {
    if ps == [] then []
    else
      var last := ps[|ps| - 1];
      KeptPairs(ps[..|ps| - 1], name) + (if last.1.source != Some(name) then [last] else [])
  }

  /** A pair is kept exactly when it was there and its source is not the deleted one. */
  lemma {:induction false} KeptPairsMembers(ps: seq<(string, Meta)>, name: string, p: (string, Meta))
    ensures p in KeptPairs(ps, name) <==> p in ps && p.1.source != Some(name)
  {
    if ps != [] {
      var prefix := ps[..|ps| - 1];
      KeptPairsMembers(prefix, name, p);
      assert ps == prefix + [ps[|ps| - 1]];
    }
  }

  /** Deleting `name` removes all of its passages and none of any other source's. */
  lemma {:induction false} KeptPairsCount(ps: seq<(string, Meta)>, name: string, other: string)
    ensures CountSource(Metas(KeptPairs(ps, name)), other) == if other == name then 0 else CountSource(Metas(ps), other)
    ensures |KeptPairs(ps, name)| == |ps| - CountSource(Metas(ps), name)
  {
    if ps != [] {
      var prefix, last := ps[..|ps| - 1], ps[|ps| - 1];
      KeptPairsCount(prefix, name, other);
      KeptPairsCount(prefix, name, name);
      var kept := KeptPairs(prefix, name);
      assert Metas(ps)[..|ps| - 1] == Metas(prefix);
      if last.1.source != Some(name) {
        assert Metas(kept + [last]) == Metas(kept) + [last.1];
        assert Metas(kept + [last])[..|kept|] == Metas(kept);
      } else {
        assert kept + [] == kept;
      }
    }
  }

  /** Scanning one more pair extends the kept passages and metadata by that pair when its source is not `name`. */
  lemma KeptPairsStep(ps: seq<(string, Meta)>, name: string, p: (string, Meta))
    ensures Docs(KeptPairs(ps + [p], name)) == Docs(KeptPairs(ps, name)) + (if p.1.source != Some(name) then [p.0] else [])
    ensures Metas(KeptPairs(ps + [p], name)) == Metas(KeptPairs(ps, name)) + (if p.1.source != Some(name) then [p.1] else [])
  {
    assert (ps + [p])[..|ps|] == ps;
    var kept := KeptPairs(ps, name);
    if p.1.source != Some(name) {
      assert Docs(kept + [p]) == Docs(kept) + [p.0];
      assert Metas(kept + [p]) == Metas(kept) + [p.1];
    } else {
      assert kept + [] == kept;
    }
  }

  /** After deleting `name`, the remaining files still count exactly the remaining passages of each source. */
  lemma KeptFilesConsistent(docs: seq<string>, meta: seq<Meta>, files: map<string, int>, name: string)
    requires |docs| == |meta| && FilesConsistent(files, meta)
    ensures FilesConsistent(files - {name}, Metas(KeptPairs(Pairs(docs, meta), name)))
  {
    var all := Pairs(docs, meta);
    var kept := KeptPairs(all, name);
    var keptMeta := Metas(kept);
    assert Metas(all) == meta;
    forall other | other in files - {name}
      ensures (files - {name})[other] == CountSource(keptMeta, other)
    {
      KeptPairsCount(all, name, other);
    }
    forall i | 0 <= i < |keptMeta| && IsNamed(keptMeta[i].source)
      ensures keptMeta[i].source.value in files - {name}
    {
      KeptPairsMembers(all, name, kept[i]);
      var j :| 0 <= j < |all| && all[j] == kept[i];
      assert meta[j] == keptMeta[i];
    }
  }

  /** `delete_file(name)`: forgets the file and keeps exactly the other sources' passages, aligned, in order and unrenumbered; the cache is kept. */
  method DeleteFile(engine: SemanticSearch, name: string)
    requires engine.Valid()
    modifies engine
    ensures engine.Valid()
    ensures engine.answerCache == old(engine.answerCache)
    ensures name !in old(engine.uploadedFiles) ==>
      && engine.documents == old(engine.documents) && engine.docMetadata == old(engine.docMetadata)
      && engine.uploadedFiles == old(engine.uploadedFiles) && engine.nlist == old(engine.nlist)
    ensures name in old(engine.uploadedFiles) ==>
      var kept := KeptPairs(Pairs(old(engine.documents), old(engine.docMetadata)), name);
      && engine.uploadedFiles == old(engine.uploadedFiles) - {name}
      && engine.documents == Docs(kept)
      && engine.docMetadata == Metas(kept)
      && engine.nlist == NList(|kept|)
  {
    if name !in engine.uploadedFiles {
      return;
    }
    var documents, docMetadata := engine.documents, engine.docMetadata;
    ghost var all := Pairs(documents, docMetadata);
    var remainingDocs: seq<string> := [];
    var remainingMeta: seq<Meta> := [];
    for i := 0 to |documents|
      invariant remainingDocs == Docs(KeptPairs(all[..i], name))
      invariant remainingMeta == Metas(KeptPairs(all[..i], name))
      invariant unchanged(engine)
    {
      var doc, meta := documents[i], docMetadata[i];
      assert all[..i + 1] == all[..i] + [(doc, meta)];
      KeptPairsStep(all[..i], name, (doc, meta));
      if meta.source != Some(name) {
        remainingDocs := remainingDocs + [doc];
        remainingMeta := remainingMeta + [meta];
      }
    }
    assert all[..|documents|] == all;
    engine.uploadedFiles := engine.uploadedFiles - {name};
    engine.documents := remainingDocs;
    engine.docMetadata := remainingMeta;
    engine.nlist := NList(|engine.documents|);
    engine.indexedVectors := |engine.documents|;
    KeptFilesConsistent(documents, docMetadata, old(engine.uploadedFiles), name);
  }

}
