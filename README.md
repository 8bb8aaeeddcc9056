# KGRAG bookkeeping, modelled in Dafny

KGRAG builds a knowledge graph from a text corpus with an LLM and then answers questions over
it. The pipeline has four stages:

- The corpus is cut into overlapping token windows.
- Each window is sent to a model that extracts (subject, relation, object, sentence) triples.
  Results are kept in a slot list that is checkpointed to disk, so an interrupted run can
  resume.
- Every edge of the resulting graph is expanded into one entry per evidence sentence. Each
  entry is embedded and stored with a payload naming the chunk its sentence came from.
- A retriever answers a file of questions on a thread pool. The answers are written back by
  index, saved every ten completions and logged with the chunk ids they used.

This project models the bookkeeping around the external services: the tokenizer, the LLM, the
JSON parser of model replies, the embedding service and the retriever. It proves what that
bookkeeping guarantees.

Modules:

- `Wrappers`: `Option` and `Result`.
- `Json`: JSON values, with Python's name for each value's type, and the three states of a
  checkpoint file (missing, undecodable, loaded).
- `Text`: the Python string operations used. `strip`, `split` and decimal formatting have
  partner lemmas (`StripIsInfix`, `JoinSplit`, `DecimalRoundTrip`). `replace` of one character
  states its effect in its own contract. `isspace`, `startswith` and `in` on strings are plain
  definitions.
- `TokenWindows`: the windowing both `chunk_text` variants compute. It uses Python slice
  semantics, so negative bounds count from the end and bounds are clamped.
- `GraphConstruction`: the extraction script graph_construction.py, covering
  - chunking;
  - tagging parsed records with `chunk_id`, and the error marker;
  - the choice of pending chunks;
  - write-back in completion order;
  - the checkpoint condition.
- `SaveChunks`: save_chunks.py, which writes one normalised chunk per line.
- `BuildGraph`: the extraction part of index/build_graph.py. It covers `call_model` and the
  merge of an existing checkpoint when a run resumes. Its `chunk_text` (lines 69-79) is the
  same loop as graph_construction.py's, so `GraphConstruction.ChunkText` models both.
- `EdgeIndex`: the index-building script generated by index/build_graph.py. It covers
  - `build_sent2chunk`;
  - the edge expansion in `EdgeEmbedderFAISS.__init__`;
  - `build_index`;
  - the guard that skips building when an index file exists.
- `AnswerGeneration`: answer_generation_short.py. It covers
  - `process`;
  - the executor loop with its write-back and temporary saves, and the end of a run at a
    question that is not a dict;
  - the chunk log;
  - the `valid_items` filter.

The thread pools become sequential loops over a completion order passed as a parameter. For
`as_completed`, any permutation of the submitted indices. For `executor.map`, input order.
Opaque services are function parameters:

- `decode` for the tokenizer;
- `Reply` values for the LLM;
- `parse` for `json.loads`;
- `embed` for the embedding service;
- `outcomes` for the retriever.

The iteration order of a Python `set` is a `listing` parameter. The log lemmas
`QueryLogContents` and `SentenceLines` assume it lists each element once (`IsSetOrder`).

## Model

| member | source | states |
|---|---|---|
| TokenWindows.Slice | graph_construction.py:39 | `tokens[start:end]` with Python bounds: never longer than `end - start`, and the plain subsequence when the bounds are in range |
| TokenWindows.Step | save_chunks.py:26 | the advance `max_tokens - overlap` is positive whenever `overlap < max_tokens` |
| TokenWindows.UpdatesAgree | graph_construction.py:38-41 | `start = end - overlap` and `start += max_tokens - overlap` give the same next start, an advance of exactly `max_tokens - overlap` |
| TokenWindows.StartAfterIsMultiple | graph_construction.py:36-41 | after k iterations the window start is `k * (max_tokens - overlap)` |
| TokenWindows.NoProgressWithoutGap | graph_construction.py:37-41 | when `overlap >= max_tokens` the start never becomes positive, so on non-empty input the loop condition stays true forever |
| TokenWindows.WindowCountIsCeiling | graph_construction.py:36-41 | the number of chunks is `ceil(n / (max_tokens - overlap))` |
| TokenWindows.WindowCountBounds | graph_construction.py:37 | zero chunks exactly for empty input; the last window starts before the end and the windows' starts span the whole input |
| TokenWindows.WindowWithinBudget | graph_construction.py:38-40 | every chunk has at most `max_tokens` tokens |
| TokenWindows.WindowContents | save_chunks.py:24 | chunk k is the tokens from `k * step` up to `k * step + max_tokens`, cut at the end |
| TokenWindows.Coverage | graph_construction.py:36-41 | every token position lies inside some chunk |
| TokenWindows.OverlapRepeated | graph_construction.py:38-41 | a full chunk's last `overlap` tokens are exactly the first `overlap` tokens of the next chunk |
| GraphConstruction.ChunkText | graph_construction.py:32-42 | empty input gives no chunks for any overlap; with `overlap < max_tokens` the loop yields `WindowCount` chunks, chunk k being the decoded window k |
| SaveChunks.ChunkText | save_chunks.py:19-27 | the `start +=` loop yields the same chunks, in the same number, as the `start = end - overlap` loop |
| GraphConstruction.ErrorMarker | graph_construction.py:67-68 | an exception becomes the dict with exactly the keys `error` and `chunk_index`, holding the message and the index |
| GraphConstruction.FirstNonObject | graph_construction.py:60-61 | the first list element that is not a dict, where the tagging loop raises; every element before it is a dict |
| GraphConstruction.TagAll | graph_construction.py:60-61 | tagging a list of dicts keeps its length and sets `chunk_id` on each element |
| GraphConstruction.TagRecords | graph_construction.py:59-63 | the in-place tagging loop produces the tagged list, or the error marker for a list with a non-dict element |
| GraphConstruction.CallModel | graph_construction.py:45-68 | the returned value is the tagged list, the tagged dict, the untouched other JSON value, or the error marker for an exception |
| GraphConstruction.ListRecordsTagged | graph_construction.py:59-61 | when a list reply comes back as a list, every record was a dict, gets `chunk_id = index` and keeps all its other keys and values |
| GraphConstruction.PendingIndices | graph_construction.py:89 | ascending indices of exactly the slots that are `None` or contain "error" (a dict key, a list element, a substring); fails (TypeError) iff some slot is a number or a boolean |
| GraphConstruction.FailedChunkRetried | graph_construction.py:67-68 | a chunk whose call raised, or whose list held a non-dict, is pending again on the next run |
| GraphConstruction.TaggedListNotRetried | graph_construction.py:59-61 | a chunk whose list of dicts was tagged is not pending on the next run |
| GraphConstruction.LoadResults | graph_construction.py:77-86 | a missing or undecodable file gives `[None] * len(chunks)`; a decoded list is used as it is; a decoded string gives its characters; a number, boolean or null fails at `len(results)` with the TypeError naming its type |
| GraphConstruction.PlanRun | graph_construction.py:77-99 | the results and pending list a run starts from; fails exactly when the pending choice fails or a pending index has no chunk (`chunks[idx]` raises) |
| GraphConstruction.FreshRunProcessesAll | graph_construction.py:84-89 | without a results file every chunk is pending |
| GraphConstruction.TextResultsFileIdle | graph_construction.py:77-89 | a results file holding a JSON string gives a run with nothing pending: no one-character slot contains "error" |
| GraphConstruction.IndexOf | graph_construction.py:106 | `list.index`: the first position holding the value |
| GraphConstruction.Filled | graph_construction.py:102-103 | after the completions in `done`, slot i holds the computed result when i completed and the old value otherwise |
| GraphConstruction.SavePoints | graph_construction.py:106 | the completion counts at which the file is rewritten, strictly increasing and within the run |
| GraphConstruction.SavePointsExactly | graph_construction.py:106-108 | a completion count is a save point exactly when the trigger fires for the index completing at that count |
| GraphConstruction.RunExtraction | graph_construction.py:96-108 | each completion writes only its own slot; the final list has the computed result at exactly the pending indices; the saved files are the snapshots at the save points |
| GraphConstruction.ExampleTriggers | graph_construction.py:106 | for pending `[0, 1, 2]` the trigger fires for index 2 only, the last pending index |
| GraphConstruction.LastCheckpointMissesCompletions | graph_construction.py:106-108 | with pending `[0, 1, 2]` completing in order `[2, 0, 1]`, the file is written once, after the first completion; it lacks the results of chunks 0 and 1, which are pending again on the next run, although the run computed them |
| GraphConstruction.CorrectedCheckpointsFinal | graph_construction.py:106-108 | counting completions, the file is written at every tenth completion and after the last one |
| SaveChunks.Normalize | save_chunks.py:39 | a saved line has no newline and no surrounding whitespace |
| SaveChunks.Lines | save_chunks.py:38-39 | one normalised line per chunk, in chunk order |
| SaveChunks.FileContentAppend | save_chunks.py:39 | each write appends the line and a newline |
| SaveChunks.WriteChunks | save_chunks.py:37-39 | the written file is the normalised lines, each followed by a newline |
| SaveChunks.OneLinePerChunk | save_chunks.py:37-39 | splitting the file on newlines gives back exactly the lines, then the empty tail |
| SaveChunks.SavedLines | save_chunks.py:37-39 | reading the saved file line by line gives one normalised line per chunk, in order |
| BuildGraph.CallModel | index/build_graph.py:81-95 | the result is `{"index": index, "result": stripped reply}`, or `"[]"` when the call failed |
| BuildGraph.EntryEffect | index/build_graph.py:117-121 | what one checkpoint entry does to the merge: the slot it fills lies inside the results, and for a non-negative index that slot is the index itself (a float index below `len(results)` passes the comparison and raises at the store) |
| BuildGraph.Stop | index/build_graph.py:115-123 | the merge stops at the first entry whose index raises (not comparable, or below `-len`); every entry before it ran |
| BuildGraph.Range | index/build_graph.py:110 | `list(range(n))` is `0..n-1` in order |
| BuildGraph.Remove | index/build_graph.py:120-121 | `list.remove` drops the first occurrence of a present value and keeps every other value; the `in` guard before the call makes an absent value a no-op, which the function returns as the list unchanged |
| BuildGraph.RemoveSorted | index/build_graph.py:120-121 | removing from an ascending list keeps it ascending and removes exactly that value |
| BuildGraph.MergeEntry | index/build_graph.py:117-121 | one pass of the merge loop aborts exactly when the entry's comparison or store raises; otherwise the entry is stored at its slot, and the pending list loses exactly the index the entry claims and stays ascending |
| BuildGraph.ResumeFromCheckpoint | index/build_graph.py:109-123 | after the merge each slot holds the last entry placed there; the pending list is ascending and holds exactly the indices no merged entry claimed |
| BuildGraph.ResumeKeepsStoredResults | index/build_graph.py:118-121 | resuming from a file this script wrote restores every stored result in its own slot and leaves exactly the never-written slots pending |
| BuildGraph.CompleteRunNotRepeated | index/build_graph.py:93-95 | with the corrected checkpoint condition, a complete run leaves a file from which the next run restores every chunk, failed ones included (stored as `"[]"`), and sends nothing again |
| BuildGraph.PermutationOfRange | index/build_graph.py:127-134 | a completion order of all chunks lists each chunk exactly once |
| BuildGraph.FinalRunWritten | index/build_graph.py:118-121 | once every chunk has completed, the saved list claims every index on resume |
| EdgeIndex.StringsOf | index/build_graph.py:225-227 | the strings of a sentence list, exactly those elements that are strings |
| EdgeIndex.TriplesSentences | index/build_graph.py:216-227 | the sentences of a triples list are exactly those some dict triple carries as a string or a list of strings |
| EdgeIndex.LastMention | index/build_graph.py:200-227 | the last chunk mentioning a sentence, none exactly when no chunk does |
| EdgeIndex.AssignContents | index/build_graph.py:223-227 | after assigning keys to chunk c, a key is present iff it was before or was assigned, and assigned keys map to c |
| EdgeIndex.AddChunk | index/build_graph.py:201-227 | one chunk maps all its sentences to its position; skipped chunks (not a dict, empty result, not JSON, not a list) change nothing |
| EdgeIndex.BuildSent2Chunk | index/build_graph.py:195-229 | the map holds exactly the sentences some chunk mentions, each mapped to the last chunk mentioning it |
| EdgeIndex.PayloadChunkMentionsSentence | index/build_graph.py:273 | a payload's chunk id names a chunk whose triples carry the sentence, with no later chunk carrying it; null iff no chunk does |
| EdgeIndex.StrippedPiecesSound | index/build_graph.py:246 | every kept sentence is a non-empty stripped '/'-piece |
| EdgeIndex.SentencesOf | index/build_graph.py:246 | sentences are non-empty, contain no '/' and have no surrounding whitespace |
| EdgeIndex.EdgeSentencesComplete | index/build_graph.py:244-249 | every non-blank '/'-piece of an edge's sentence block yields an entry carrying it |
| EdgeIndex.EntriesOf | index/build_graph.py:242-249 | one entry per sentence of the edge's block (none for an empty block); entry k carries sentence k, the edge's ends, the label with its fallbacks and id `"{src}-{dst}-{label}"` with spaces as "_", then `"#k"` |
| EdgeIndex.EdgeIdsDistinct | index/build_graph.py:248 | the entries of one edge have pairwise distinct ids |
| EdgeIndex.EdgeIdsMayCollide | index/build_graph.py:248 | two different edges ("a b" and "a_b") can produce the same id |
| EdgeIndex.ExpandEdges | index/build_graph.py:242-249 | `self.edges` is every edge's entries, edge by edge |
| EdgeIndex.PayloadOf | index/build_graph.py:274-281 | the payload copies the entry's fields; its chunk id is `sent2cid.get(sentence)` |
| EdgeIndex.EmbedEdges | index/build_graph.py:264-294 | the loop fails exactly when some entry's embedding raises; otherwise no entry is skipped: row i is the embedding of entry i's sentence and payload i is its payload, counts equal |
| EdgeIndex.EdgeEmbedder.constructor | index/build_graph.py:232-253 | the embedder holds the expanded edges and the sentence map, with no payloads and no index yet |
| EdgeIndex.EdgeEmbedder.BuildIndex | index/build_graph.py:260-297 | succeeds exactly when the probe and every entry's embedding return and there are edges; then index row i is entry i's embedding, payload i belongs to entry i, and the index file and payload file are written with them; on any failure nothing is written, the index staying absent after a failed probe and empty after a later failure |
| EdgeIndex.RunIndexScript | index/build_graph.py:300-310 | the embedder holds the graph's entries and sentence map; with an existing index file nothing is built or written; otherwise both files are written exactly when every embedding returns and there are edges, holding each entry's embedding and payload in entry order, and on failure nothing is written |
| AnswerGeneration.ResultOf | answer_generation_short.py:37-57 | on an exception the result is `"[Error] " + message`, time 0.0, no context; otherwise the answer, time and context |
| AnswerGeneration.ErrorResultMarked | answer_generation_short.py:41-45 | a failed query's result starts with "[Error]" |
| AnswerGeneration.QueryLogContents | answer_generation_short.py:47-62 | a query logs its chunk ids in order (none after an exception), then each sentence chunk id exactly once; every line names the query |
| AnswerGeneration.RecordsAt | answer_generation_short.py:48-62 | one log line per id, line k naming id k |
| AnswerGeneration.Process | answer_generation_short.py:35-63 | a question that is not a dict raises `'<type>' object has no attribute 'get'` with nothing logged; otherwise `process` returns that result and writes that query's log lines |
| AnswerGeneration.Snapshot | answer_generation_short.py:32 | the output list holds one slot per question, filled exactly for the completed dict questions |
| AnswerGeneration.GenerateAnswers | answer_generation_short.py:67-81 | the run ends without an exception iff every question is a dict, and then slot i holds question i's result whatever the completion order; otherwise it raises the first completed non-dict question's AttributeError, and the output list and the temporary saves are those of the completions before it; the log holds every dict question's lines, query by query in completion order |
| AnswerGeneration.Handled | answer_generation_short.py:72-73 | the completions the loop takes in are exactly those before the first completed non-dict question |
| AnswerGeneration.HandledAll | answer_generation_short.py:72-73 | the loop takes in every completion iff every question is a dict |
| AnswerGeneration.TakeCompletions | answer_generation_short.py:72-80 | the `for` loop fills the slots of the completions it takes in and saves every tenth, and stops with the first non-dict question's error |
| AnswerGeneration.AwaitWorkers | answer_generation_short.py:70 | leaving the `with` block waits for the remaining workers, whose log lines complete the log |
| AnswerGeneration.RunWorker | answer_generation_short.py:71-73 | one worker gives its question's result, or the AttributeError of a non-dict question, and appends its log lines |
| AnswerGeneration.TempSavesContents | answer_generation_short.py:75-80 | there is one temporary save per ten completions, save s holding exactly the first `10(s+1)` completed answers |
| AnswerGeneration.CounterCountsFilledSlots | answer_generation_short.py:73-75 | the completion counter equals the number of filled slots |
| AnswerGeneration.ValidItems | answer_generation_short.py:92 | `valid_items` is the records of the kept slots (filled, result not starting with "[Error]"), one per kept slot, in slot order, so `len(valid_items)` counts the kept slots |
| AnswerGeneration.ValidPositions | answer_generation_short.py:92 | the kept slots' positions, ascending, exactly the slots that are filled with a result not starting with "[Error]" |
| AnswerGeneration.ValidItemsMembers | answer_generation_short.py:92 | a record is a valid item iff some slot holds it and its result does not start with "[Error]" |
| AnswerGeneration.FailedQueriesExcluded | answer_generation_short.py:92 | after a run over dict questions, a query's slot is kept, and its result averaged, iff its call succeeded and its answer does not itself start with "[Error]" |
| Text.Strip | save_chunks.py:39 | `str.strip()` leaves no leading or trailing whitespace and never lengthens |
| Text.StripIsInfix | index/build_graph.py:246 | the stripped string is the input with only leading and trailing whitespace removed |
| Text.ReplaceChar | index/build_graph.py:248 | replacing one character keeps the length and every other character, turns each replaced character into the replacement, and leaves none of the replaced one |
| Text.JoinSplit | index/build_graph.py:246 | `sep.join(s.split(sep)) == s`: splitting loses nothing |
| Text.DecimalRoundTrip | index/build_graph.py:248 | the decimal rendering of `i` in an id reads back as `i` |

## Left out

- tiktoken encoding is left out, and decoding is an uninterpreted parameter `decode`. Tokens
  are integers.
- The LLM calls, the prompt filling, `json.loads` of replies and the embedding service are
  not modelled. They are parameters or values given to the model.
- The float timing values and the averages over `valid_items` are not modelled. The model
  proves which items they are taken over.
- The normalisation of embeddings and FAISS `IndexFlatIP` are not modelled. Nor are
  `faiss.write_index` and `np.save`. The index is the list of its rows, and a file is its
  content. The dimension probe `_embed("test")` is modelled only as returning or raising; its
  vector's size is not compared with the rows.
- JSON's `NaN` and `Infinity`, which `json.load` accepts, are not modelled. Floats are exact
  reals.
- GraphConstruction.LoadResults: a results file whose top level is a JSON object is not
  modelled. Its keys would be enumerated as slots and results stored under integer keys.
- EdgeIndex.BuildSent2Chunk: a graph JSON file whose top level is not a list is not modelled;
  the chunks are a list of JSON values. An object's keys and a string's characters would all
  be skipped as non-dicts, leaving the map empty. A number, boolean or null raises `TypeError`
  at `enumerate`.
- AnswerGeneration.GenerateAnswers: a questions file whose top level is not a list is not
  modelled; the questions are a list of JSON values.
- networkx `read_gexf` and the JSON-to-GEXF conversion are not modelled. The graph reaches
  the model as a list of edges with string attributes. Non-string attribute values are not
  modelled.
- The retriever behind `rag.answer` and its `last_chunk_ids` and `all_sentence_chunk_ids`
  attributes are not modelled. The retriever is not part of this model; its outcomes are a
  parameter.
- Thread pools and interleaving are not modelled. Runs are sequential over an arbitrary
  completion order, and the log lines of concurrent queries do not interleave.
- Subprocess calls, argparse, `main`, writing of the generated scripts, paths and progress
  output are left out. So are the test script and the prompt templates.
- The layout of `json.dump` is not modelled. A written file is the value it serialises.
- EdgeIndex.EmbedEdges: the `seen` set is checked but never added to, so nothing is
  deduplicated. Repeated sentences get their own rows, and the model follows the code here.
- EdgeIndex.EdgeEmbedder.BuildIndex: the probe, an embedding call or the stacking of no
  rows can raise, and the script then ends with that exception. The method returns `ok =
  false` instead and states the state reached by then. The exception itself is not
  propagated.
- BuildGraph.ResumeFromCheckpoint: the exception that aborts the merge is swallowed by the
  bare `except`. The model stops the merge at that entry; the entries before it stay merged.

## Findings

| source | as written | input that shows it | evidently intended | confidence | as-written member | corrected member |
|---|---|---|---|---|---|---|
| graph_construction.py:106-108 (and index/build_graph.py:136-138) | the checkpoint fires when the completed index's position in `pending_indices` is 9 mod 10 or it is the last pending index, but completions arrive in any order | pending `[0, 1, 2]`, completion order `[2, 0, 1]`: the file is written only once, after the first completion; the results for chunks 0 and 1 are never saved by that run and the next run sends them again | a checkpoint every tenth completion and one after the last completion | not executed | GraphConstruction.LastCheckpointMissesCompletions | GraphConstruction.CorrectedCheckpointsFinal |
