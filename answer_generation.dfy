/** answer_generation_short.py: every question is answered by the retriever on a thread pool;
    each answer is written back into the question's own slot of the output list as it
    completes, the list is written to a temporary file after every tenth completion, every
    query logs the chunk ids it used, and the results that are not errors are kept for the
    averages. A question that is not a JSON object ends the run when it completes. */
module AnswerGeneration {
  import opened Wrappers
  import opened Json
  import opened Text

  /** The fields of one question object of the input file. */
  type Question = map<string, Json>

  /** `item.get("query", "")`. */
  function QueryOf(question: Question): Json {
    if "query" in question then question["query"] else Str("")
  }

  /** What the retriever did for one query: raised, or returned an answer, the time spent and
      the context text, with the `last_chunk_ids` attribute read right after (`None` when the
      retriever does not have that attribute, which raises inside the same `try`). */
  datatype RagOutcome =
    | Raised(message: string)
    | Returned(answer: string, spent: real, context: string, lastChunkIds: Option<seq<int>>)

  predicate Fails(outcome: RagOutcome) {
    outcome.Raised? || outcome.lastChunkIds.None?
  }

  /** The message of the exception the `try` block caught. */
  function ErrorMessage(outcome: RagOutcome): string
    requires Fails(outcome)
  {
    if outcome.Raised? then outcome.message else "'GraphRAG' object has no attribute 'last_chunk_ids'"
  }

  /** The result dict of one query. */
  datatype ResultRecord = ResultRecord(query: Json, result: string, time: real, contextToken: Option<string>)

  /** One line of the chunk log. */
  datatype LogRecord = ChunkRecord(query: Json, chunkId: int) | SentenceRecord(query: Json, sentenceChunkId: int)

  /** The result `process` builds: the answer, or on any exception an "[Error] " answer with
      time 0.0 and no context. */
  function ResultOf(query: Json, outcome: RagOutcome): (r: ResultRecord)
    ensures r.query == query
    ensures Fails(outcome) ==>
      r.result == "[Error] " + ErrorMessage(outcome) && r.time == 0.0 && r.contextToken == None
    ensures !Fails(outcome) ==>
      r.result == outcome.answer && r.time == outcome.spent && r.contextToken == Some(outcome.context)
  {
    if Fails(outcome) then ResultRecord(query, "[Error] " + ErrorMessage(outcome), 0.0, None)
    else ResultRecord(query, outcome.answer, outcome.spent, Some(outcome.context))
  }

  /** The chunk ids `process` logs: none after an exception. */
  function ChunkIdsOf(outcome: RagOutcome): seq<int> {
    if Fails(outcome) then [] else outcome.lastChunkIds.value
  }

  /** One chunk line per id, in order (`RecordsAt`). */
  function ChunkRecords(query: Json, ids: seq<int>): seq<LogRecord>
  {
    if |ids| == 0 then [] else ChunkRecords(query, ids[..|ids| - 1]) + [ChunkRecord(query, ids[|ids| - 1])]
  }

  /** One sentence line per id, in order (`RecordsAt`). */
  function SentenceRecords(query: Json, ids: seq<int>): seq<LogRecord>
  {
    if |ids| == 0 then [] else SentenceRecords(query, ids[..|ids| - 1]) + [SentenceRecord(query, ids[|ids| - 1])]
  }

  /** The record lists hold one line per id, line `k` naming id `k`. */
  lemma {:induction false} RecordsAt(query: Json, ids: seq<int>)
    ensures var r := ChunkRecords(query, ids);
      |r| == |ids| && forall k :: 0 <= k < |ids| ==> r[k] == ChunkRecord(query, ids[k])
    ensures var r := SentenceRecords(query, ids);
      |r| == |ids| && forall k :: 0 <= k < |ids| ==> r[k] == SentenceRecord(query, ids[k])
    decreases |ids|
  {
    if |ids| > 0 {
      var front := ids[..|ids| - 1];
      RecordsAt(query, front);
      assert forall k :: 0 <= k < |front| ==> front[k] == ids[k];
    }
  }

  /** `listing` is the order in which iterating `set(ids)` visits its elements: each distinct
      id exactly once. */
  predicate IsSetOrder(listing: seq<int>, ids: seq<int>) {
    && (forall a, b :: 0 <= a < b < |listing| ==> listing[a] != listing[b])
    && (forall k :: 0 <= k < |listing| ==> listing[k] in ids)
    && (forall k :: 0 <= k < |ids| ==> ids[k] in listing)
  }

  /** The log lines of one query: one chunk record per id of `last_chunk_ids`, in order, then
      one sentence record per id of the set of `all_sentence_chunk_ids`, in set order. */
  function QueryLog(query: Json, outcome: RagOutcome, listing: seq<int>): seq<LogRecord> {
    ChunkRecords(query, ChunkIdsOf(outcome)) + SentenceRecords(query, listing)
  }

  /** What the log holds for one query: its chunk ids in order (none after an exception),
      then every sentence chunk id exactly once; every line names the query. */
  lemma QueryLogContents(query: Json, outcome: RagOutcome, listing: seq<int>, sentenceIds: seq<int>)
    requires IsSetOrder(listing, sentenceIds)
    ensures var log := QueryLog(query, outcome, listing); var n := |ChunkIdsOf(outcome)|;
      && (Fails(outcome) ==> n == 0)
      && n <= |log|
      && (forall k :: 0 <= k < n ==> log[k] == ChunkRecord(query, ChunkIdsOf(outcome)[k]))
      && (forall r :: r in log[n..] ==> r.SentenceRecord? && r.query == query)
      && (forall a, b :: 0 <= a < b < |log[n..]| ==> log[n..][a] != log[n..][b])
      && (forall x :: x in sentenceIds <==> SentenceRecord(query, x) in log)
  {
    var chunks := ChunkRecords(query, ChunkIdsOf(outcome));
    var sentences := SentenceRecords(query, listing);
    RecordsAt(query, ChunkIdsOf(outcome));
    var log := chunks + sentences;
    assert log == QueryLog(query, outcome, listing);
    assert log[..|chunks|] == chunks;
    assert log[|chunks|..] == sentences;
    SentenceLines(query, listing, sentenceIds);
    assert forall x :: SentenceRecord(query, x) !in chunks;
  }

  /** Helper: the sentence lines of one query name each id of the set once. */
  lemma SentenceLines(query: Json, listing: seq<int>, sentenceIds: seq<int>)
    requires IsSetOrder(listing, sentenceIds)
    ensures var lines := SentenceRecords(query, listing);
      && (forall r :: r in lines ==> r.SentenceRecord? && r.query == query)
      && (forall a, b :: 0 <= a < b < |lines| ==> lines[a] != lines[b])
      && (forall x :: x in sentenceIds <==> SentenceRecord(query, x) in lines)
  {
    var lines := SentenceRecords(query, listing);
    RecordsAt(query, listing);
    forall x | x in sentenceIds ensures SentenceRecord(query, x) in lines {
      var k :| 0 <= k < |sentenceIds| && sentenceIds[k] == x;
      var j :| 0 <= j < |listing| && listing[j] == x;
      assert lines[j] == SentenceRecord(query, x);
    }
  }

  /** The AttributeError `item.get` raises on anything but a dict. */
  function NoGetError(item: Json): string {
    "'" + TypeName(item) + "' object has no attribute 'get'"
  }

  /** `process`. `item.get` runs before the `try`, so a question that is not a JSON object
      raises out of the worker with nothing logged. The retriever's shared
      `all_sentence_chunk_ids` attribute is read whether or not the answer raised; `listing` is
      the order its set is iterated in. */
  method Process(item: Json, outcome: RagOutcome, listing: seq<int>)
    returns (r: Result<(ResultRecord, seq<LogRecord>)>)
    ensures r.Success? <==> item.Obj?
    ensures r.Failure? ==> r.error == NoGetError(item)
    ensures item.Obj? ==> r.value.0 == ResultOf(QueryOf(item.fields), outcome)
    ensures item.Obj? ==> r.value.1 == QueryLog(QueryOf(item.fields), outcome, listing)
  {
    if !item.Obj? {
      return Failure(NoGetError(item));
    }
    var query := QueryOf(item.fields);
    var answer: string, spent: real, context: Option<string>, chunkIds: seq<int>;
    if outcome.Raised? {
      answer, spent, context, chunkIds := "[Error] " + outcome.message, 0.0, None, [];
    } else if outcome.lastChunkIds.None? {
      answer, spent, context, chunkIds := "[Error] " + ErrorMessage(outcome), 0.0, None, [];
    } else {
      answer, spent, context, chunkIds := outcome.answer, outcome.spent, Some(outcome.context), outcome.lastChunkIds.value;
    }
    var records: seq<LogRecord> := [];
    var k := 0;
    while k < |chunkIds|
      invariant k <= |chunkIds|
      invariant records == ChunkRecords(query, chunkIds[..k])
    {
      assert chunkIds[..k + 1][..k] == chunkIds[..k];
      records := records + [ChunkRecord(query, chunkIds[k])];
      k := k + 1;
    }
    assert chunkIds[..k] == chunkIds;
    ghost var chunks := records;
    var j := 0;
    while j < |listing|
      invariant j <= |listing|
      invariant records == chunks + SentenceRecords(query, listing[..j])
    {
      assert listing[..j + 1][..j] == listing[..j];
      records := records + [SentenceRecord(query, listing[j])];
      j := j + 1;
    }
    assert listing[..j] == listing;
    r := Success((ResultRecord(query, answer, spent, context), records));
  }

  // ---------------------------------------------------------------------------------------
  // the executor loop

  /** `as_completed` yields every submitted future once: `order` lists the question indices
      in completion order. */
  predicate IsCompletionOrder(order: seq<nat>, n: nat) {
    && |order| == n
    && (forall k :: 0 <= k < n ==> order[k] < n)
    && (forall a, b :: 0 <= a < b < n ==> order[a] != order[b])
    && (forall i :: 0 <= i < n ==> i in order)
  }

  /** The output list once the questions in `done` have completed; only a question object
      fills its slot. */
  function Snapshot(questions: seq<Json>, outcomes: nat -> RagOutcome, done: seq<nat>): (r: seq<Option<ResultRecord>>)
    ensures |r| == |questions|
    ensures forall i :: 0 <= i < |questions| ==>
      r[i] == if i in done && questions[i].Obj? then Some(ResultOf(QueryOf(questions[i].fields), outcomes(i))) else None
  {
    seq(|questions|, i requires 0 <= i < |questions| =>
      if i in done && questions[i].Obj? then Some(ResultOf(QueryOf(questions[i].fields), outcomes(i))) else None)
  }

  /** The log lines one question writes: none when it is not an object. */
  function ItemLog(item: Json, outcome: RagOutcome, listing: seq<int>): seq<LogRecord> {
    if item.Obj? then QueryLog(QueryOf(item.fields), outcome, listing) else []
  }

  /** The log lines of the first `c` completed queries, query by query. */
  function Logs(questions: seq<Json>, order: seq<nat>, c: nat, outcomes: nat -> RagOutcome, listings: nat -> seq<int>): seq<LogRecord>
    requires c <= |order| && forall k :: 0 <= k < |order| ==> order[k] < |questions|
  {
    if c == 0 then []
    else
      var idx := order[c - 1];
      Logs(questions, order, c - 1, outcomes, listings) + ItemLog(questions[idx], outcomes(idx), listings(idx))
  }

  /** How many completions the main loop takes in: `future.result()` re-raises the exception
      of the first completed question that is not an object, which leaves the loop. */
  function Handled(questions: seq<Json>, order: seq<nat>): (r: nat)
    requires forall k :: 0 <= k < |order| ==> order[k] < |questions|
    ensures r <= |order|
    ensures forall k :: 0 <= k < r ==> questions[order[k]].Obj?
    ensures r < |order| ==> !questions[order[r]].Obj?
    decreases |order|
  {
    if |order| == 0 || !questions[order[0]].Obj? then 0
    else 1 + Handled(questions, order[1..])
  }

  /** The loop takes in every completion exactly when every question is an object. */
  lemma HandledAll(questions: seq<Json>, order: seq<nat>)
    requires IsCompletionOrder(order, |questions|)
    ensures Handled(questions, order) == |questions| <==> forall i :: 0 <= i < |questions| ==> questions[i].Obj?
  {
    if Handled(questions, order) == |questions| {
      forall i | 0 <= i < |questions| ensures questions[i].Obj? {
        assert i in order;
        var k :| 0 <= k < |order| && order[k] == i;
      }
    }
  }

  /** The main loop. Each completion writes only its own slot, so the final list is in input
      order whatever the completion order; the temporary file is written after completions
      10, 20, ...; the log is the queries' own log lines, query by query in completion order.
      A question that is not an object raises in the loop when it completes: `raised` holds the
      error, the output list and the temporary files stop there and the final file is not
      written, while the `with` block's exit still waits for the other workers, whose log
      lines are written. */
  method GenerateAnswers(questions: seq<Json>, order: seq<nat>, outcomes: nat -> RagOutcome,
                         listings: nat -> seq<int>)
    returns (raised: Option<string>, outputData: seq<Option<ResultRecord>>, log: seq<LogRecord>,
             tempSaves: seq<seq<Option<ResultRecord>>>)
    requires IsCompletionOrder(order, |questions|)
    ensures raised.None? <==> forall i :: 0 <= i < |questions| ==> questions[i].Obj?
    ensures raised.None? ==> |outputData| == |questions| && forall i :: 0 <= i < |questions| ==>
      outputData[i] == Some(ResultOf(QueryOf(questions[i].fields), outcomes(i)))
    ensures var h := Handled(questions, order);
      && (raised.Some? ==> h < |questions| && raised.value == NoGetError(questions[order[h]]))
      && outputData == Snapshot(questions, outcomes, order[..h])
      && tempSaves == TempSaves(questions, outcomes, order, h)
    ensures log == Logs(questions, order, |order|, outcomes, listings)
  {
    var seen;
    raised, outputData, tempSaves, seen, log := TakeCompletions(questions, order, outcomes, listings);
    log := AwaitWorkers(questions, order, outcomes, listings, seen, log);
    HandledAll(questions, order);
    if raised.None? {
      assert order[..|order|] == order;
      AllAnswered(questions, outcomes, order);
    }
  }

  /** The `for` loop over `as_completed`, up to the end or to the completion whose
      `future.result()` raises. */
  method TakeCompletions(questions: seq<Json>, order: seq<nat>, outcomes: nat -> RagOutcome,
                         listings: nat -> seq<int>)
    returns (raised: Option<string>, outputData: seq<Option<ResultRecord>>,
             tempSaves: seq<seq<Option<ResultRecord>>>, seen: nat, log: seq<LogRecord>)
    requires IsCompletionOrder(order, |questions|)
    ensures var h := Handled(questions, order);
      && (raised.None? ==> h == |questions| && seen == h)
      && (raised.Some? ==> h < |questions| && seen == h + 1 && raised.value == NoGetError(questions[order[h]]))
      && outputData == Snapshot(questions, outcomes, order[..h])
      && tempSaves == TempSaves(questions, outcomes, order, h)
    ensures log == Logs(questions, order, seen, outcomes, listings)
  {
    var n := |questions|;
    ghost var h := Handled(questions, order);
    outputData := seq(n, _ => None);
    log, tempSaves, raised := [], [], None;
    var completed := 0;
    seen := 0;
    while seen < n && raised.None?
      invariant seen <= n
      invariant raised.None? ==> seen <= h && completed == seen
      invariant raised.Some? ==> h < n && seen == h + 1 && completed == h && raised.value == NoGetError(questions[order[h]])
      invariant outputData == Snapshot(questions, outcomes, order[..completed])
      invariant tempSaves == TempSaves(questions, outcomes, order, completed)
      invariant log == Logs(questions, order, seen, outcomes, listings)
    {
      var idx := order[seen];
      var r;
      r, log := RunWorker(questions, order, outcomes, listings, seen, log);
      if r.Success? {
        SnapshotStep(questions, outcomes, order, completed);
        TempSavesStep(questions, outcomes, order, completed);
        outputData := outputData[idx := Some(r.value)];
        completed := completed + 1;
        if completed % 10 == 0 {
          tempSaves := tempSaves + [outputData];
        }
      } else {
        raised := Some(r.error);
      }
      seen := seen + 1;
    }
  }

  /** Leaving the `with` block waits for the workers still running; each writes its log lines. */
  method AwaitWorkers(questions: seq<Json>, order: seq<nat>, outcomes: nat -> RagOutcome,
                      listings: nat -> seq<int>, seen: nat, log: seq<LogRecord>)
    returns (log': seq<LogRecord>)
    requires seen <= |order| && forall k :: 0 <= k < |order| ==> order[k] < |questions|
    requires log == Logs(questions, order, seen, outcomes, listings)
    ensures log' == Logs(questions, order, |order|, outcomes, listings)
    decreases |order| - seen
  {
    if seen == |order| {
      log' := log;
    } else {
      var r, next := RunWorker(questions, order, outcomes, listings, seen, log);
      log' := AwaitWorkers(questions, order, outcomes, listings, seen + 1, next);
    }
  }

  /** When every question is an object, every slot ends filled with its own question's result. */
  lemma AllAnswered(questions: seq<Json>, outcomes: nat -> RagOutcome, order: seq<nat>)
    requires IsCompletionOrder(order, |questions|)
    requires forall i :: 0 <= i < |questions| ==> questions[i].Obj?
    ensures forall i :: 0 <= i < |questions| ==>
      Snapshot(questions, outcomes, order)[i] == Some(ResultOf(QueryOf(questions[i].fields), outcomes(i)))
  {
  }

  /** The worker of completion `c`: `process` on its question, with its log lines appended to
      the log of the earlier completions. */
  method RunWorker(questions: seq<Json>, order: seq<nat>, outcomes: nat -> RagOutcome,
                   listings: nat -> seq<int>, c: nat, log: seq<LogRecord>)
    returns (r: Result<ResultRecord>, log': seq<LogRecord>)
    requires c < |order| && forall k :: 0 <= k < |order| ==> order[k] < |questions|
    requires log == Logs(questions, order, c, outcomes, listings)
    ensures var item := questions[order[c]];
      && (r.Success? <==> item.Obj?)
      && (r.Failure? ==> r.error == NoGetError(item))
      && (item.Obj? ==> r.value == ResultOf(QueryOf(item.fields), outcomes(order[c])))
    ensures log' == Logs(questions, order, c + 1, outcomes, listings)
  {
    var idx := order[c];
    var p := Process(questions[idx], outcomes(idx), listings(idx));
    if p.Success? {
      r, log' := Success(p.value.0), log + p.value.1;
    } else {
      r, log' := Failure(p.error), log;
    }
  }

  /** The temporary files written during the first `c` completions. */
  function TempSaves(questions: seq<Json>, outcomes: nat -> RagOutcome, order: seq<nat>, c: nat)
    : seq<seq<Option<ResultRecord>>>
    requires c <= |order|
  {
    if c == 0 then []
    else
      var earlier := TempSaves(questions, outcomes, order, c - 1);
      if c % 10 == 0 then earlier + [Snapshot(questions, outcomes, order[..c])] else earlier
  }

  /** One temporary save per ten completions; save `s` holds exactly the first `10 * (s + 1)`
      completed answers, each in its own slot, and nothing else. */
  lemma {:induction false} TempSavesContents(questions: seq<Json>, outcomes: nat -> RagOutcome, order: seq<nat>, c: nat)
    requires c <= |order|
    ensures |TempSaves(questions, outcomes, order, c)| == c / 10
    ensures forall s :: 0 <= s < c / 10 ==>
      TempSaves(questions, outcomes, order, c)[s] == Snapshot(questions, outcomes, order[..10 * (s + 1)])
  {
    if c > 0 {
      TempSavesContents(questions, outcomes, order, c - 1);
      if c % 10 == 0 {
        assert c / 10 == (c - 1) / 10 + 1;
        assert c == 10 * ((c - 1) / 10 + 1);
      } else {
        assert c / 10 == (c - 1) / 10;
      }
    }
  }

  lemma TempSavesStep(questions: seq<Json>, outcomes: nat -> RagOutcome, order: seq<nat>, c: nat)
    requires c < |order|
    ensures TempSaves(questions, outcomes, order, c + 1) ==
      if (c + 1) % 10 == 0 then TempSaves(questions, outcomes, order, c) + [Snapshot(questions, outcomes, order[..c + 1])]
      else TempSaves(questions, outcomes, order, c)
  {
  }

  lemma SnapshotStep(questions: seq<Json>, outcomes: nat -> RagOutcome, order: seq<nat>, c: nat)
    requires c < |order| && forall k :: 0 <= k < |order| ==> order[k] < |questions|
    requires questions[order[c]].Obj?
    ensures var idx := order[c];
      Snapshot(questions, outcomes, order[..c + 1])
        == Snapshot(questions, outcomes, order[..c])[idx := Some(ResultOf(QueryOf(questions[idx].fields), outcomes(idx)))]
  {
    assert order[..c + 1] == order[..c] + [order[c]];
  }

  /** Number of filled slots. */
  function FilledCount(slots: seq<Option<ResultRecord>>): nat
    decreases |slots|
  {
    if |slots| == 0 then 0
    else FilledCount(slots[..|slots| - 1]) + (if slots[|slots| - 1].Some? then 1 else 0)
  }

  /** The completion counter equals the number of filled slots, so the temporary file written
      at count `c` holds exactly `c` answers. */
  lemma {:induction false} CounterCountsFilledSlots(questions: seq<Json>, outcomes: nat -> RagOutcome,
                                                    order: seq<nat>, c: nat)
    requires IsCompletionOrder(order, |questions|)
    requires c <= Handled(questions, order)
    ensures FilledCount(Snapshot(questions, outcomes, order[..c])) == c
  {
    if c == 0 {
      NoneCount(Snapshot(questions, outcomes, order[..0]));
    } else {
      CounterCountsFilledSlots(questions, outcomes, order, c - 1);
      CountStep(questions, outcomes, order, c - 1);
    }
  }

  /** Completion `c` fills one more slot. */
  lemma CountStep(questions: seq<Json>, outcomes: nat -> RagOutcome, order: seq<nat>, c: nat)
    requires IsCompletionOrder(order, |questions|) && c < Handled(questions, order)
    ensures FilledCount(Snapshot(questions, outcomes, order[..c + 1]))
         == FilledCount(Snapshot(questions, outcomes, order[..c])) + 1
  {
    var before := Snapshot(questions, outcomes, order[..c]);
    var idx := order[c];
    SnapshotStep(questions, outcomes, order, c);
    FreshCompletion(order, |questions|, c);
    FillOne(before, idx, Some(ResultOf(QueryOf(questions[idx].fields), outcomes(idx))));
  }

  /** The question completing at step `c` has not completed before. */
  lemma FreshCompletion(order: seq<nat>, n: nat, c: nat)
    requires IsCompletionOrder(order, n) && c < n
    ensures order[c] !in order[..c]
  {
    var pre := order[..c];
    forall k | 0 <= k < |pre| ensures pre[k] != order[c] {
      assert pre[k] == order[k];
    }
  }

  lemma {:induction false} NoneCount(slots: seq<Option<ResultRecord>>)
    requires forall i :: 0 <= i < |slots| ==> slots[i].None?
    ensures FilledCount(slots) == 0
    decreases |slots|
  {
    if |slots| > 0 {
      NoneCount(slots[..|slots| - 1]);
    }
  }

  lemma {:induction false} FillOne(slots: seq<Option<ResultRecord>>, i: nat, v: Option<ResultRecord>)
    requires i < |slots| && slots[i].None? && v.Some?
    ensures FilledCount(slots[i := v]) == FilledCount(slots) + 1
    decreases |slots|
  {
    var n := |slots|;
    var after := slots[i := v];
    if i == n - 1 {
      assert after[..n - 1] == slots[..n - 1];
    } else {
      FillOne(slots[..n - 1], i, v);
      assert after[..n - 1] == slots[..n - 1][i := v];
    }
  }

  /** A slot `valid_items` keeps: filled, with a result that does not start with "[Error]". */
  predicate IsValidSlot(slot: Option<ResultRecord>) {
    slot.Some? && !StartsWith(slot.value.result, "[Error]")
  }

  /** The positions of the slots `valid_items` keeps, in ascending order. */
  function ValidPositions(outputData: seq<Option<ResultRecord>>): (r: seq<nat>)
    ensures forall a, b :: 0 <= a < b < |r| ==> r[a] < r[b]
    ensures forall k :: 0 <= k < |r| ==> r[k] < |outputData|
    ensures forall j :: 0 <= j < |outputData| ==> (j in r <==> IsValidSlot(outputData[j]))
    decreases |outputData|
  {
    if |outputData| == 0 then []
    else
      var n := |outputData|;
      var rest := ValidPositions(outputData[..n - 1]);
      assert forall j :: 0 <= j < n - 1 ==> outputData[..n - 1][j] == outputData[j];
      rest + (if IsValidSlot(outputData[n - 1]) then [n - 1] else [])
  }

  /** `valid_items`: the kept slots' records, in slot order, one per kept slot, so duplicates
      stay and `len(valid_items)` counts the kept slots. */
  function ValidItems(outputData: seq<Option<ResultRecord>>): (r: seq<ResultRecord>)
    ensures |r| == |ValidPositions(outputData)|
    ensures forall k :: 0 <= k < |r| ==> r[k] == outputData[ValidPositions(outputData)[k]].value
    decreases |outputData|
  {
    if |outputData| == 0 then []
    else
      var n := |outputData|;
      var rest := ValidItems(outputData[..n - 1]);
      var pos := ValidPositions(outputData[..n - 1]);
      assert outputData == outputData[..n - 1] + [outputData[n - 1]];
      assert ValidPositions(outputData) == pos + (if IsValidSlot(outputData[n - 1]) then [n - 1] else []);
      assert forall k :: 0 <= k < |pos| ==> outputData[..n - 1][pos[k]] == outputData[pos[k]];
      var last := outputData[n - 1];
      rest + (if IsValidSlot(last) then [last.value] else [])
  }

  /** The records `valid_items` holds are exactly those of the filled slots whose result does
      not start with "[Error]". */
  lemma ValidItemsMembers(outputData: seq<Option<ResultRecord>>)
    ensures forall x :: x in ValidItems(outputData) <==> Some(x) in outputData && !StartsWith(x.result, "[Error]")
  {
    var r := ValidItems(outputData);
    var pos := ValidPositions(outputData);
    forall x ensures x in r <==> Some(x) in outputData && !StartsWith(x.result, "[Error]") {
      if x in r {
        var k :| 0 <= k < |r| && r[k] == x;
        assert outputData[pos[k]] == Some(x);
      }
      if Some(x) in outputData && !StartsWith(x.result, "[Error]") {
        var j :| 0 <= j < |outputData| && outputData[j] == Some(x);
        assert IsValidSlot(outputData[j]);
        var k :| 0 <= k < |pos| && pos[k] == j;
        assert r[k] == x;
      }
    }
  }

  /** After a run, the averages are taken over exactly the answered queries whose answer does
      not itself start with "[Error]": every failed query is left out. */
  lemma FailedQueriesExcluded(questions: seq<Json>, outcomes: nat -> RagOutcome,
                              outputData: seq<Option<ResultRecord>>, i: nat)
    requires |outputData| == |questions| && i < |questions|
    requires forall j :: 0 <= j < |questions| ==> questions[j].Obj?
    requires forall j :: 0 <= j < |questions| ==> outputData[j] == Some(ResultOf(QueryOf(questions[j].fields), outcomes(j)))
    ensures i in ValidPositions(outputData) <==> !Fails(outcomes(i)) && !StartsWith(outcomes(i).answer, "[Error]")
    ensures ResultOf(QueryOf(questions[i].fields), outcomes(i)) in ValidItems(outputData) <==>
      !Fails(outcomes(i)) && !StartsWith(outcomes(i).answer, "[Error]")
  {
    var query := QueryOf(questions[i].fields);
    var r := ResultOf(query, outcomes(i));
    assert outputData[i] == Some(r);
    ValidItemsMembers(outputData);
    if Fails(outcomes(i)) {
      ErrorResultMarked(query, outcomes(i));
    }
  }

  /** A failed query's result text starts with "[Error]". */
  lemma ErrorResultMarked(query: Json, outcome: RagOutcome)
    requires Fails(outcome)
    ensures StartsWith(ResultOf(query, outcome).result, "[Error]")
  {
    var text := ResultOf(query, outcome).result;
    assert text == "[Error] " + ErrorMessage(outcome);
    assert text[..7] == "[Error]";
  }
}
