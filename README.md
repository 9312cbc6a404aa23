# VectorForge retrieval core, modelled in Dafny

VectorForge is a small document question-answering service. Users upload text
or PDF files. Each file is cut into overlapping word windows, called chunks,
and the chunks are embedded and put in a vector index. A question is answered
in four steps:

1. The dense index is searched for five times as many candidates as needed.
2. Each candidate's score gets a small lexical bonus for tokens it shares
   with the question.
3. The candidates are sorted and the best `top_k` are kept.
4. A language model is asked to answer from a context built out of the
   retrieved passages.

Answers are cached by question text. A confidence guardrail replaces weak
answers to fact-seeking questions with a fixed "not found" message.

This project models that core in five modules:

- `Wrappers` (`wrappers.dfy`): `Option`, for Python's `None`.
- `Text` (`text.dfy`): the Python string primitives the core uses. These are
  `str.split()` with its exact whitespace set, `str.lower()`, the substring
  test `in`, `endswith` and `join`. It also proves the split/join round trip.
- `Chunker` (`chunker.dfy`): `chunk_text` of utils.py. It is a method with the
  source's `while` loop, proved equal to a specification `Chunks` that gives
  chunk `k` directly. Lemmas cover the window size, the chunk count (a ceiling
  division), coverage, the overlap between consecutive chunks and the
  round trip back to words.
- `Search` (`search.dfy`): the `SemanticSearch` class of search.py.
  - It keeps the same four fields. Two more stand for the index: its cluster
    count and a ghost count of the vectors it holds.
  - Its invariant `Valid()` states three things: the metadata stays aligned
    with the passages, there is one vector per passage, and `uploaded_files`
    holds the exact passage count of every named source.
  - `Query` is proved equal to `Ranked`: the candidates sorted by a stable
    insertion sort, highest score first, then cut to `topK`. Lemmas prove the
    ordering, the permutation, the per-result facts and that nothing left out
    outscores what is returned.
  - `GenerateAnswer` is the cache, then the skip-not-stop 2000-character
    context loop, then the cache store. Lemmas characterise the context it
    assembles.
- `App` (`app.dfy`): the logic of the Flask handlers in app.py.
  - Pure functions: the intent flags, `top_k`, the guardrail and the `nlist`
    formula.
  - Methods on the engine: `web_query`, `upload`, `clear` and `delete_file`.
  - `delete_file` is proved to keep exactly the other sources' passage and
    metadata pairs, in order. It also keeps the engine invariant.

The embedding model, the vector index and the language model are oracles.
`Query` and `WebQuery` receive the index's hits as a sequence of
`(score, position)` rows. `GenerateAnswer` receives the model as a function
from prompt to answer. `upload` receives the text its loader extracted.

search.py has no lexical index, score fusion, reranking or citation
numbering. It scores each dense hit as `similarity + 0.02 × overlap` and sorts
(search.py:45-71).

## Model

| member | source | states |
|---|---|---|
| `Text.Words` | utils.py:7 | every token `split()` returns is non-empty and free of whitespace |
| `Text.WordsOfJoin` | utils.py:7-14 | joining tokens with single spaces and splitting again gives the same tokens |
| `Text.ContainsIff` | app.py:44-51 | the `in` test holds exactly when the keyword occurs at some offset |
| `Text.LowerIdempotent` | app.py:40 | lowering a question twice is lowering it once |
| `Chunker.ChunkText` | utils.py:6-17 | with `overlap < chunk_size`, chunk `k` is the words from position `k*(chunk_size-overlap)`, at most `chunk_size` of them, joined by single spaces; text with no words gives no chunks |
| `Chunker.ChunkCount` | utils.py:10-15 | the number of chunks is `ceil(n / (chunk_size - overlap))`, i.e. `(c-1)*step < n <= c*step` |
| `Chunker.WindowStartInRange` | utils.py:11-13 | every chunk's window starts inside the word list |
| `Chunker.StartInRangeIsWindow` | utils.py:11-15 | every start position inside the word list produces a chunk |
| `Chunker.ChunkWords` | utils.py:7-14 | splitting chunk `k` gives back exactly its word window, so it has at most `chunk_size` words |
| `Chunker.Coverage` | utils.py:12-15 | with `0 <= overlap < chunk_size`, every word position lies in some chunk's window |
| `Chunker.ConsecutiveOverlap` | utils.py:12-15 | with `0 <= overlap`, window `k` after its first `step` words is a prefix of window `k+1` |
| `Search.SemanticSearch.constructor` | search.py:6-12 | a new engine has no passages, metadata, files or cached answers |
| `Search.SemanticSearch.AddDocuments` | search.py:14-34 | passages become old passages followed by `ds`, and metadata gains `Meta(source, start+i)` for each. `uploaded_files[source]` rises by `\|ds\|` or is created; a `None` or empty source leaves it alone. Alignment and exact per-source counts are preserved |
| `Search.AddedFilesConsistent` | search.py:23-34 | registering new passages under a source, by adding to its count or creating it, keeps every key's value equal to its source's passage count and every named source a key |
| `Search.CountNewMeta` | search.py:23-27 | the appended records count towards their own source only, once each |
| `Search.OverlapBounds` | search.py:51-53 | the shared-token count is symmetric and at most the question's distinct tokens |
| `Search.SortDesc` | search.py:68 | the sorted list is a permutation of the candidates |
| `Search.SortDescSorted` | search.py:68 | the sorted list is ordered by non-increasing final score |
| `Search.InsertSorted` | search.py:68 | inserting a result into a sorted list keeps it sorted |
| `Search.ScoredWellFormed` | search.py:45-65 | each candidate names a stored passage and carries its text and source. Its final score is its similarity plus 0.02 per shared distinct lower-cased token |
| `Search.RankedProperties` | search.py:36-71 | `query` returns `min(top_k, hits)` results, ordered by final score, each well formed with `final_score >= similarity` |
| `Search.RankedIsTop` | search.py:68-71 | no candidate that was cut outscores a returned result |
| `Search.SemanticSearch.Query` | search.py:36-71 | the loop builds the candidates and the result is the sorted, truncated list. At most `top_k` results, sorted, each well formed |
| `Search.RetrievedInContext` | search.py:82 | every passage joined into a context occurs in it |
| `Search.SemanticSearch.QueryWithContext` | search.py:73-84 | given at most `top_k` positions from the index, the context is the retrieved passages joined by blank lines, and each of them occurs in it |
| `Search.AssembleIsAdmittedBlocks` | search.py:93-98 | the context is exactly the texts that fit the 2000-character budget at their turn, each followed by a blank line, in rank order. A skipped text does not stop the scan |
| `Search.AssembleBound` | search.py:93-98 | the assembled context never exceeds 2001 characters |
| `Search.SkipDoesNotStop` | search.py:96-98 | a 2000-character text is skipped and a short text after it is still admitted |
| `Search.SemanticSearch.GenerateAnswer` | search.py:86-143 | on a cache hit it returns the stored answer, sends no prompt and leaves the cache alone. On a miss it sends the assembled context with the question and stores the answer under the exact question. Either way the cache afterwards maps the question to the returned answer |
| `Search.AskTwice` | search.py:88-89 | asking the same question twice sends no second prompt and returns the first answer, whatever was retrieved in between |
| `App.SummaryIff` | app.py:43-44 | a question is a summary request exactly when one of the four keywords occurs in its lower-cased text |
| `App.DocumentLevelClauses` | app.py:46-51 | document-level means "document", or "explain" with "this", or "describe" with "this"; the "about" clause is subsumed |
| `App.IntentIgnoresCase` | app.py:40-51 | both intent flags give the same answer for a question and its lower-cased form |
| `App.TopK` | app.py:82-85 | 10 results for summary or document-level questions, 3 otherwise |
| `App.GuardrailCases` | app.py:101-105 | summary and document-level answers are never replaced, and a point lookup with no results is always "Answer not found in documents." |
| `App.GuardrailIffAllBelow` | app.py:101-105 | on sorted results, a point-lookup answer is replaced exactly when every result scores below 0.25 |
| `App.FloorSqrt` | app.py:235 | `r*r <= n < (r+1)*(r+1)` |
| `App.NList` | app.py:274 | `nlist >= 1` and is the integer square root of the corpus size, or of 1 when it is empty |
| `App.WebQuery` | app.py:33-105 | An empty question does nothing. An empty corpus gives the fixed "No documents uploaded" reply with no query, no prompt and no cache change. Otherwise the results are `Ranked` with `TopK(question)`, the answer goes through the cache and the guardrail, and the cache stores the model's answer, not the guardrail's |
| `App.Upload` | app.py:185-216 | An empty name or a name not ending in ".txt" or ".pdf" changes nothing. Otherwise the chunks (80 words, overlap 20) are appended under the file name and the answer cache is emptied. The invariant is kept |
| `App.Clear` | app.py:228-236 | passages, metadata and files are emptied and `nlist` is 1, but the answer cache is kept |
| `App.KeptPairsMembers` | app.py:264-267 | a passage/metadata pair survives deletion exactly when it was present and its source is not the deleted file |
| `App.KeptPairsCount` | app.py:258-270 | deletion removes every passage of the deleted source and none of any other's, so other counts are unchanged |
| `App.KeptFilesConsistent` | app.py:254-270 | after the deleted name's key and passages are removed, the remaining keys still count exactly their sources' remaining passages |
| `App.DeleteFile` | app.py:251-280 | An unknown name changes nothing. A known name is removed from `uploaded_files`, and exactly the other sources' pairs are kept, in order and not renumbered. `nlist` is recomputed from the new size, the cache is kept and the invariant holds |

## Left out

- The language model call and its prompt template (search.py:100-138) are an oracle from `Prompt(context, question)` to an answer. The fixed instruction wording is not represented.
- The embedding model (embeddings.py) and the FAISS index (indexer.py) are left out. Dense search is an oracle returning `(score, position)` rows, and only the vector count is kept, as a ghost field.
- `Search.SemanticSearch.Query`, `App.WebQuery` and `Search.SemanticSearch.QueryWithContext` require every position the index returns to name a stored passage. FAISS pads short answers with position -1, and Python's `documents[-1]` would then silently return the last passage (search.py:45-48, 78-79). That padding case is not modelled.
- `Search.SortDesc` orders by the exact final score, and the guardrail compares the exact top score. The source rounds `similarity_score` and `final_score` to 4 decimals (search.py:61-62) and sorts on the rounded `final_score` (search.py:68). So candidates whose final scores round to the same 4-decimal value tie in the source and keep their hit order (search.py:62,68), while the model orders them by exact score. The guardrail likewise reads the rounded score at app.py:101.
- `Text.Lower` folds only the ASCII letters. Python's `str.lower()` also folds other scripts.
- `App.FloorSqrt` is the exact integer square root. `int(math.sqrt(n))` goes through a float and can differ from it for corpora beyond 2^52 passages.
- `Chunker.ChunkText` takes a non-negative `chunk_size`. A negative one would make Python's slice count from the end of the word list. It also requires `overlap < chunk_size` unless the text has no words. With `chunk_size <= overlap` and at least one word, the loop at utils.py:11-15 never advances `start` towards `len(words)`, so it never terminates and `chunks` grows without bound. That non-terminating case is not modelled.
- `App.WebQuery` takes the question as a string. A missing `question` form field is `None` at app.py:35 and takes the same redirect as the empty string (app.py:37-38).
- `App.WebQuery` does not model the chat-history records or the timing metrics (app.py:53-55, 77-99, 107-132). It also leaves out the `r["citation_id"]` read at app.py:121. search.py never produces that key, so the read raises `KeyError` whenever `results` is non-empty. By then `generate_answer_with_llm` has already cached the model's answer (search.py:141), and in the source the guardrail's answer is never recorded. The model's `Answered` reply is what the handler computes up to app.py:105.
- Flask routing, sessions, templates and redirects are left out: `landing`, `home`, `health`, `clear_chat` and the JSON `/query` route (app.py:17-30, 154-182, 245-248). The JSON route calls `Query` with `top_k` 3.
- `App.Upload`: a file whose extracted text has no words gives no chunks. The model then reports `Uploaded`, records the file with count 0 and empties the cache. The source passes that empty batch to the embedding model and the index (search.py:20-21), and whether they accept it depends on library code outside this model. If they reject it, the request fails before search.py:30-34 and app.py:216 and nothing changes. The model assumes they accept an empty batch.
- `Search.SemanticSearch.AddDocuments`: with an empty `ds` it still registers a named source with count 0. This assumes the embedding model and the index accept an empty batch (search.py:20-21), which is library behaviour outside this model.
- The missing-file check of `upload` is left out (app.py:186-187). Saving the upload to disk and extracting text are file I/O (app.py:194-198, utils.py:2-4, 19-30). `App.Upload` takes the extracted text as a parameter.
- `App.DeleteFile` takes the file name as a string. A missing form field is `None` in the source, which is never a key of `uploaded_files` and so takes the unknown-name branch.
- Rebuilding the vector index in `clear` and `delete_file` (re-embedding and re-adding the remaining passages) is reduced to its effect: the new `nlist` and the ghost vector count.
- Concurrency is not modelled. `app.run` (app.py:286) serves each request on its own thread, and `upload`, `clear` and `delete_file` mutate the shared engine without a lock (app.py:213-216, 229-236, 258-275). The model treats each handler as one atomic step on the engine.
- evaluate.py, main.py and config.py are scripts and environment reading, not part of this model.
