/** graph_construction.py: chunk the corpus, ask the model for triples per chunk, and keep an
    index-addressed result list that is checkpointed to disk and resumed on the next run. */
module GraphConstruction {
  import opened Wrappers
  import opened Json
  import opened Text
  import opened TokenWindows

  // ---------------------------------------------------------------------------------------
  // chunk_text

  /** `chunk_text`: the loop that sets `start = end - overlap` after each chunk. The tokenizer's
      `decode` is a parameter. On non-empty input the loop ends only when `overlap < maxTokens`
      (see `TokenWindows.NoProgressWithoutGap`); empty input gives no chunks for any overlap.
      That is the one precondition. */
  method ChunkText(tokens: seq<Token>, maxTokens: int, overlap: int, decode: seq<Token> -> string)
    returns (chunks: seq<string>)
    requires |tokens| == 0 || overlap < maxTokens
    ensures |tokens| == 0 ==> chunks == []
    ensures overlap < maxTokens ==> |chunks| == WindowCount(|tokens|, Step(maxTokens, overlap))
    ensures overlap < maxTokens ==>
      forall k :: 0 <= k < |chunks| ==> chunks[k] == decode(Window(tokens, k, maxTokens, overlap))
  {
    chunks := [];
    var start := 0;
    while start < |tokens|
      invariant overlap >= maxTokens ==> start == 0 && chunks == []
      invariant overlap < maxTokens ==> start == |chunks| * Step(maxTokens, overlap)
      invariant overlap < maxTokens ==>
        |chunks| + WindowCount(|tokens| - start, Step(maxTokens, overlap)) == WindowCount(|tokens|, Step(maxTokens, overlap))
      invariant overlap < maxTokens ==>
        forall k :: 0 <= k < |chunks| ==> chunks[k] == decode(Window(tokens, k, maxTokens, overlap))
      decreases |tokens| - start
    {
      var step := Step(maxTokens, overlap);
      var end := start + maxTokens;
      var chunkTokens := Slice(tokens, start, end);
      assert chunkTokens == Window(tokens, |chunks|, maxTokens, overlap);
      chunks := chunks + [decode(chunkTokens)];
      start := end - overlap;
      assert start == |chunks| * step by {
        assert |chunks| * step == (|chunks| - 1) * step + step;
      }
    }
  }

  // ---------------------------------------------------------------------------------------
  // call_model

  /** What the model call produced: an exception (a failed request, or `json.loads` rejecting
      the reply), or the decoded JSON value. */
  datatype Reply = Raised(message: string) | Decoded(data: Json)

  /** The error marker `{"error": str(e), "chunk_index": index}`. */
  function ErrorMarker(message: string, index: int): (r: Json)
    ensures r.Obj? && r.fields.Keys == {"error", "chunk_index"}
    ensures r.fields["error"] == Str(message) && r.fields["chunk_index"] == Num(index)
  {
    Obj(map["error" := Str(message), "chunk_index" := Num(index)])
  }

  /** `str(e)` of the TypeError that `item["chunk_id"] = index` raises on a non-dict item. */
  function AssignmentError(item: Json): string {
    match item
    case Null => "'NoneType' object does not support item assignment"
    case Bool(_) => "'bool' object does not support item assignment"
    case Num(_) => "'int' object does not support item assignment"
    case Frac(_) => "'float' object does not support item assignment"
    case Str(_) => "'str' object does not support item assignment"
    case Arr(_) => "list indices must be integers or slices, not str"
    case Obj(_) => ""
  }

  /** Position of the first item that is not a JSON object, or `|items|` if there is none. */
  function FirstNonObject(items: seq<Json>): (r: nat)
    ensures r <= |items|
    ensures forall j :: 0 <= j < r ==> items[j].Obj?
    ensures r < |items| ==> !items[r].Obj?
  {
    if |items| == 0 || !items[0].Obj? then 0 else 1 + FirstNonObject(items[1..])
  }

  /** A record with `chunk_id` set to the chunk's index. */
  function Tag(fields: map<string, Json>, index: int): map<string, Json> {
    fields["chunk_id" := Num(index)]
  }

  /** Every record of a list of dicts, tagged. */
  function TagAll(items: seq<Json>, index: int): (r: seq<Json>)
    requires forall j :: 0 <= j < |items| ==> items[j].Obj?
    ensures |r| == |items|
    ensures forall j :: 0 <= j < |items| ==> r[j] == Obj(Tag(items[j].fields, index))
  {
    seq(|items|, j requires 0 <= j < |items| => Obj(Tag(items[j].fields, index)))
  }

  /** The value `call_model` returns for chunk `index`, given what the model call produced. */
  function Extracted(reply: Reply, index: int): Json {
    match reply
    case Raised(message) => ErrorMarker(message, index)
    case Decoded(Arr(items)) =>
      var bad := FirstNonObject(items);
      if bad < |items| then ErrorMarker(AssignmentError(items[bad]), index)
      else Arr(TagAll(items, index))
    case Decoded(Obj(fields)) => Obj(Tag(fields, index))
    case Decoded(other) => other
  }

  /** The tagging loop over a list result: the first non-dict item raises, and the handler
      turns that into the error marker. */
  method TagRecords(items: seq<Json>, index: int) returns (r: Json)
    ensures r == Extracted(Decoded(Arr(items)), index)
  {
    var tagged: seq<Json> := [];
    var i := 0;
    while i < |items|
      invariant 0 <= i <= |items|
      invariant i <= FirstNonObject(items)
      invariant tagged == TagAll(items[..i], index)
    {
      if !items[i].Obj? {
        assert FirstNonObject(items) == i;
        return ErrorMarker(AssignmentError(items[i]), index);
      }
      TagAllStep(items, i, index);
      tagged := tagged + [Obj(Tag(items[i].fields, index))];
      i := i + 1;
    }
    assert items[..i] == items;
    r := Arr(tagged);
  }

  lemma TagAllStep(items: seq<Json>, i: nat, index: int)
    requires i < |items| && forall j :: 0 <= j <= i ==> items[j].Obj?
    ensures TagAll(items[..i + 1], index) == TagAll(items[..i], index) + [Obj(Tag(items[i].fields, index))]
  {
    assert items[..i + 1] == items[..i] + [items[i]];
  }

  /** `call_model` after the reply is in: a list result has every record tagged in place, a
      dict result is tagged, anything else is returned as decoded. */
  method CallModel(reply: Reply, index: int) returns (r: Json)
    ensures r == Extracted(reply, index)
  {
    match reply
    case Raised(message) =>
      r := ErrorMarker(message, index);
    case Decoded(data) =>
      if data.Arr? {
        r := TagRecords(data.items, index);
      } else if data.Obj? {
        r := Obj(Tag(data.fields, index));
      } else {
        r := data;
      }
  }

  /** Every record of a successful list result carries `chunk_id == index` and keeps all its
      other fields. */
  lemma ListRecordsTagged(items: seq<Json>, index: int)
    requires Extracted(Decoded(Arr(items)), index).Arr?
    ensures forall j :: 0 <= j < |items| ==> items[j].Obj?
    ensures var r := Extracted(Decoded(Arr(items)), index).items;
      && |r| == |items|
      && forall j :: 0 <= j < |r| ==>
           && r[j].Obj?
           && r[j].fields["chunk_id"] == Num(index)
           && forall key :: key in items[j].fields && key != "chunk_id" ==>
                key in r[j].fields && r[j].fields[key] == items[j].fields[key]
  {
  }

  // ---------------------------------------------------------------------------------------
  // pending_indices

  /** `r is None or "error" in r` for one slot; `in` on a number or a bool raises TypeError. */
  function IsPending(r: Json): Result<bool> {
    match r
    case Null => Success(true)
    case Obj(fields) => Success("error" in fields)
    case Arr(items) => Success(Str("error") in items)
    case Str(s) => Success(Contains(s, "error"))
    case Num(_) => Failure("argument of type 'int' is not iterable")
    case Frac(_) => Failure("argument of type 'float' is not iterable")
    case Bool(_) => Failure("argument of type 'bool' is not iterable")
  }

  predicate StrictlyIncreasing(s: seq<nat>) {
    forall a, b :: 0 <= a < b < |s| ==> s[a] < s[b]
  }

  /** The pending positions from `i` on; the first slot whose test raises ends the script. */
  function PendingFrom(results: seq<Json>, i: nat): (r: Result<seq<nat>>)
    requires i <= |results|
    ensures r.Success? <==> forall j :: i <= j < |results| ==> IsPending(results[j]).Success?
    ensures r.Success? ==> StrictlyIncreasing(r.value)
    ensures r.Success? ==> forall k :: 0 <= k < |r.value| ==> i <= r.value[k] < |results|
    ensures r.Success? ==> forall j :: i <= j < |results| ==> (j in r.value <==> IsPending(results[j]).value)
    decreases |results| - i
  {
    if i == |results| then Success([])
    else
      var head := IsPending(results[i]);
      var rest := PendingFrom(results, i + 1);
      if head.Failure? then Failure(head.error)
      else if rest.Failure? then rest
      else if head.value then Success([i] + rest.value)
      else rest
  }

  /** `pending_indices`: in ascending order, exactly the slots that are None or carry "error". */
  function PendingIndices(results: seq<Json>): (r: Result<seq<nat>>)
    ensures r.Success? <==> forall j :: 0 <= j < |results| ==> IsPending(results[j]).Success?
    ensures r.Success? ==> StrictlyIncreasing(r.value)
    ensures r.Success? ==> forall k :: 0 <= k < |r.value| ==> r.value[k] < |results|
    ensures r.Success? ==> forall j :: 0 <= j < |results| ==> (j in r.value <==> IsPending(results[j]).value)
  {
    PendingFrom(results, 0)
  }

  /** A failed call leaves the error marker, so the next run picks the chunk up again. */
  lemma FailedChunkRetried(results: seq<Json>, i: nat, reply: Reply)
    requires i < |results|
    requires results[i] == Extracted(reply, i)
    requires reply.Raised? || (reply.data.Arr? && FirstNonObject(reply.data.items) < |reply.data.items|)
    requires PendingIndices(results).Success?
    ensures i in PendingIndices(results).value
  {
  }

  /** A list of records that was tagged successfully is never picked up again. */
  lemma TaggedListNotRetried(results: seq<Json>, i: nat, items: seq<Json>)
    requires i < |results|
    requires results[i] == Extracted(Decoded(Arr(items)), i)
    requires FirstNonObject(items) == |items|
    requires PendingIndices(results).Success?
    ensures i !in PendingIndices(results).value
  {
    TaggedListNotPending(items, i);
  }

  /** Helper: a tagged list holds only dicts, so the string "error" is not one of its items. */
  lemma TaggedListNotPending(items: seq<Json>, i: int)
    requires FirstNonObject(items) == |items|
    ensures IsPending(Extracted(Decoded(Arr(items)), i)) == Success(false)
  {
    var r := Extracted(Decoded(Arr(items)), i).items;
    forall j | 0 <= j < |r| ensures r[j] != Str("error") {
      assert r[j].Obj?;
    }
  }

  // ---------------------------------------------------------------------------------------
  // loading the previous results and planning the run

  /** A JSON value without a length: `len(results)` raises TypeError on it. */
  type Scalar = v: Json | v.Null? || v.Bool? || v.Num? || v.Frac? witness Null

  /** The output file at start-up, by the top level of what `json.load` returned. */
  datatype ResultsFile =
    | NoResultsFile
    | UndecodableResults
    | ResultsList(entries: seq<Json>)
    | ResultsText(text: string)        // a JSON string: enumerated character by character
    | ResultsScalar(value: Scalar)

  /** The result list the run starts from: one `None` per chunk without a usable file, the
      decoded list, or a string's characters; `len(results)` raises on a scalar. */
  function LoadResults(file: ResultsFile, chunkCount: nat): (r: Result<seq<Json>>)
    ensures r.Failure? <==> file.ResultsScalar?
    ensures file.NoResultsFile? || file.UndecodableResults? ==>
      |r.value| == chunkCount && forall j :: 0 <= j < chunkCount ==> r.value[j] == Null
    ensures file.ResultsList? ==> r.value == file.entries
    ensures file.ResultsText? ==>
      |r.value| == |file.text| && forall j :: 0 <= j < |file.text| ==> r.value[j] == Str([file.text[j]])
  {
    match file
    case NoResultsFile => Success(seq(chunkCount, _ => Null))
    case UndecodableResults => Success(seq(chunkCount, _ => Null))
    case ResultsList(entries) => Success(entries)
    case ResultsText(text) => Success(seq(|text|, j requires 0 <= j < |text| => Str([text[j]])))
    case ResultsScalar(value) => Failure("object of type '" + TypeName(value) + "' has no len()")
  }

  /** Loading, pending selection and the submission of `chunks[idx]` for every pending index:
      the script dies at `len(results)` on a scalar file, in `pending_indices` on a numeric
      slot, and with an IndexError when a pending index has no chunk (a result file longer
      than the chunk list). */
  function PlanRun(file: ResultsFile, chunkCount: nat): (r: Result<(seq<Json>, seq<nat>)>)
    ensures r.Success? ==> LoadResults(file, chunkCount) == Success(r.value.0)
    ensures r.Success? ==> PendingIndices(r.value.0) == Success(r.value.1)
    ensures r.Success? ==> forall k :: 0 <= k < |r.value.1| ==> r.value.1[k] < chunkCount
    ensures r.Failure? <==>
      var loaded := LoadResults(file, chunkCount);
      || loaded.Failure?
      || PendingIndices(loaded.value).Failure?
      || exists k :: 0 <= k < |PendingIndices(loaded.value).value|
                     && PendingIndices(loaded.value).value[k] >= chunkCount
  {
    match LoadResults(file, chunkCount)
    case Failure(e) => Failure(e)
    case Success(results) =>
      match PendingIndices(results)
      case Failure(e) => Failure(e)
      case Success(pending) =>
        if exists k :: 0 <= k < |pending| && pending[k] >= chunkCount then Failure("list index out of range")
        else Success((results, pending))
  }

  /** With no result file every chunk is pending, in order. */
  lemma FreshRunProcessesAll(chunkCount: nat)
    ensures PlanRun(NoResultsFile, chunkCount).Success?
    ensures forall j :: 0 <= j < chunkCount ==> j in PlanRun(NoResultsFile, chunkCount).value.1
  {
    var results := LoadResults(NoResultsFile, chunkCount).value;
    assert forall j :: 0 <= j < chunkCount ==> IsPending(results[j]) == Success(true);
  }

  /** A results file holding a JSON string: no single character contains "error", so nothing
      is pending and the run sends nothing and writes nothing. */
  lemma TextResultsFileIdle(text: string, chunkCount: nat)
    ensures PlanRun(ResultsText(text), chunkCount).Success?
    ensures PlanRun(ResultsText(text), chunkCount).value.1 == []
  {
    var loaded := LoadResults(ResultsText(text), chunkCount);
    var results := loaded.value;
    forall j | 0 <= j < |results| ensures IsPending(results[j]) == Success(false) {
      OneCharNoError(text[j]);
    }
    var pending := PendingIndices(results).value;
    NothingPending(pending, |results|);
  }

  /** Helper: indices below `n` that include none of `0 .. n - 1` form the empty list. */
  lemma NothingPending(s: seq<nat>, n: nat)
    requires forall k :: 0 <= k < |s| ==> s[k] < n
    requires forall j :: 0 <= j < n ==> j !in s
    ensures s == []
  {
    if s != [] {
      FirstIsMember(s);
      assert false;
    }
  }

  /** Helper: the head of a non-empty list is one of its members. */
  lemma FirstIsMember(s: seq<nat>)
    requires s != []
    ensures s[0] in s
  {
  }

  /** Helper: a one-character string does not contain "error". */
  lemma OneCharNoError(c: char)
    ensures !Contains([c], "error")
  {
    assert [c][1..] == [];
    assert !Contains([], "error");
  }

  // ---------------------------------------------------------------------------------------
  // write-back and checkpointing (also the loop of index/build_graph.py)

  /** Position of `x` in `s` (`list.index`). */
  function IndexOf(s: seq<nat>, x: nat): (k: nat)
    requires x in s
    ensures k < |s| && s[k] == x
    ensures forall j :: 0 <= j < k ==> s[j] != x
  {
    if s[0] == x then 0 else 1 + IndexOf(s[1..], x)
  }

  /** The checkpoint condition as the scripts write it, evaluated when `idx` completes:
      `(pending_indices.index(idx) + 1) % 10 == 0 or idx == pending_indices[-1]`. */
  predicate ShouldCheckpoint(pending: seq<nat>, idx: nat)
    requires idx in pending
  {
    (IndexOf(pending, idx) + 1) % 10 == 0 || idx == pending[|pending| - 1]
  }

  /** The evidently intended condition: every tenth completion and the last completion. */
  predicate ShouldCheckpointCorrected(pendingCount: nat, completed: nat) {
    completed % 10 == 0 || completed == pendingCount
  }

  predicate Triggers(pending: seq<nat>, idx: nat, completed: nat, corrected: bool)
    requires idx in pending
  {
    if corrected then ShouldCheckpointCorrected(|pending|, completed) else ShouldCheckpoint(pending, idx)
  }

  /** The result list once the results for the indices in `done` have been written back. */
  function Filled(results: seq<Json>, done: seq<nat>, computed: nat -> Json): (r: seq<Json>)
    ensures |r| == |results|
    ensures forall i :: 0 <= i < |results| && i !in done ==> r[i] == results[i]
    ensures forall i :: 0 <= i < |results| && i in done ==> r[i] == computed(i)
  {
    seq(|results|, i requires 0 <= i < |results| => if i in done then computed(i) else results[i])
  }

  /** The completion counts after which a checkpoint is written, for completions in `order`. */
  function SavePoints(pending: seq<nat>, order: seq<nat>, corrected: bool): (r: seq<nat>)
    requires forall k :: 0 <= k < |order| ==> order[k] in pending
    ensures forall s :: 0 <= s < |r| ==> 1 <= r[s] <= |order|
    ensures StrictlyIncreasing(r)
    decreases |order|
  {
    if |order| == 0 then []
    else
      var n := |order|;
      SavePoints(pending, order[..n - 1], corrected)
        + (if Triggers(pending, order[n - 1], n, corrected) then [n] else [])
  }

  /** The contents of the successive checkpoint writes. */
  function Snapshots(results: seq<Json>, order: seq<nat>, computed: nat -> Json, points: seq<nat>): seq<seq<Json>>
    requires forall s :: 0 <= s < |points| ==> points[s] <= |order|
  {
    seq(|points|, s requires 0 <= s < |points| => Filled(results, order[..points[s]], computed))
  }

  /** The executor loop: results arrive in `order` (any permutation of the pending indices);
      `computed(idx)` is what the worker for `idx` returned. Each arrival is written into its
      own slot, and the whole list is written to the output file when the trigger fires. */
  method RunExtraction(results: seq<Json>, pending: seq<nat>, order: seq<nat>,
                       computed: nat -> Json, corrected: bool)
    returns (final: seq<Json>, saves: seq<seq<Json>>)
    requires forall k :: 0 <= k < |pending| ==> pending[k] < |results|
    requires multiset(order) == multiset(pending)
    ensures |final| == |results|
    ensures forall i :: 0 <= i < |results| ==> final[i] == (if i in pending then computed(i) else results[i])
    ensures (forall k :: 0 <= k < |order| ==> order[k] in pending)
    ensures saves == Snapshots(results, order, computed, SavePoints(pending, order, corrected))
  {
    assert forall k :: 0 <= k < |order| ==> order[k] in multiset(pending);
    final := results;
    saves := [];
    var k := 0;
    while k < |order|
      invariant 0 <= k <= |order|
      invariant final == Filled(results, order[..k], computed)
      invariant saves == Snapshots(results, order, computed, SavePoints(pending, order[..k], corrected))
    {
      var idx := order[k];
      FilledStep(results, order, computed, k);
      final := final[idx := computed(idx)];
      SavePointsStep(results, pending, order, computed, corrected, k);
      if Triggers(pending, idx, k + 1, corrected) {
        saves := saves + [final];
      }
      k := k + 1;
    }
    assert order[..|order|] == order;
    assert forall i :: i in order <==> i in pending by {
      forall i ensures i in order <==> i in pending {
        assert i in order <==> i in multiset(order);
      }
    }
  }

  lemma FilledStep(results: seq<Json>, order: seq<nat>, computed: nat -> Json, k: nat)
    requires k < |order| && order[k] < |results|
    ensures Filled(results, order[..k + 1], computed)
         == Filled(results, order[..k], computed)[order[k] := computed(order[k])]
  {
    assert order[..k + 1] == order[..k] + [order[k]];
  }

  lemma SavePointsStep(results: seq<Json>, pending: seq<nat>, order: seq<nat>, computed: nat -> Json,
                       corrected: bool, k: nat)
    requires forall j :: 0 <= j < |order| ==> order[j] in pending
    requires k < |order|
    ensures var before := Snapshots(results, order, computed, SavePoints(pending, order[..k], corrected));
      var after := Snapshots(results, order, computed, SavePoints(pending, order[..k + 1], corrected));
      after == before + (if Triggers(pending, order[k], k + 1, corrected)
                         then [Filled(results, order[..k + 1], computed)] else [])
  {
    assert order[..k + 1][..k] == order[..k];
    var p := SavePoints(pending, order[..k], corrected);
    var q := SavePoints(pending, order[..k + 1], corrected);
    assert q == p + (if Triggers(pending, order[k], k + 1, corrected) then [k + 1] else []);
    assert order[..k + 1][..k + 1] == order[..k + 1];
  }

  /** The checkpoint condition as written misses completions: with pending [0, 1, 2] arriving
      as 2, 0, 1, the only write happens after the first arrival (idx 2 is the last pending
      index), so the file never receives the results for chunks 0 and 1, and the next run
      finds them pending again. */
  lemma LastCheckpointMissesCompletions(computed: nat -> Json)
    requires computed(0) != Null && computed(1) != Null
    ensures SavePoints([0, 1, 2], [2, 0, 1], false) == [1]
    ensures Snapshots([Null, Null, Null], [2, 0, 1], computed, [1]) == [Filled([Null, Null, Null], [2], computed)]
    ensures Filled([Null, Null, Null], [2], computed)[0] == Null
    ensures Filled([Null, Null, Null], [2], computed)[1] == Null
    ensures Filled([Null, Null, Null], [2, 0, 1], computed)[0] != Null
    ensures Filled([Null, Null, Null], [2, 0, 1], computed)[1] != Null
    ensures var saved := Filled([Null, Null, Null], [2], computed);
      PendingIndices(saved).Success? ==> 0 in PendingIndices(saved).value && 1 in PendingIndices(saved).value
  {
    ExampleSavePoints();
    ExampleSnapshot(computed);
    ExampleFilled(computed);
  }

  lemma ExampleSnapshot(computed: nat -> Json)
    ensures Snapshots([Null, Null, Null], [2, 0, 1], computed, [1]) == [Filled([Null, Null, Null], [2], computed)]
  {
    var o3: seq<nat> := [2, 0, 1];
    assert o3[..1] == [2];
    var snaps := Snapshots([Null, Null, Null], o3, computed, [1]);
    assert |snaps| == 1;
    assert snaps[0] == Filled([Null, Null, Null], o3[..1], computed);
  }

  lemma ExampleFilled(computed: nat -> Json)
    requires computed(0) != Null && computed(1) != Null
    ensures Filled([Null, Null, Null], [2], computed)[0] == Null
    ensures Filled([Null, Null, Null], [2], computed)[1] == Null
    ensures Filled([Null, Null, Null], [2, 0, 1], computed)[0] != Null
    ensures Filled([Null, Null, Null], [2, 0, 1], computed)[1] != Null
  {
  }

  lemma ExampleSavePoints()
    ensures SavePoints([0, 1, 2], [2], false) == [1]
    ensures SavePoints([0, 1, 2], [2, 0], false) == [1]
    ensures SavePoints([0, 1, 2], [2, 0, 1], false) == [1]
  {
    ExampleTriggers();
    ExampleSavePointsSteps([0, 1, 2], [], [2], [2, 0], [2, 0, 1]);
  }

  /** The example's three steps, on names rather than literals. */
  lemma ExampleSavePointsSteps(pending: seq<nat>, o0: seq<nat>, o1: seq<nat>, o2: seq<nat>, o3: seq<nat>)
    requires pending == [0, 1, 2] && o0 == [] && o1 == o0 + [2] && o2 == o1 + [0] && o3 == o2 + [1]
    requires ShouldCheckpoint(pending, 2) && !ShouldCheckpoint(pending, 0) && !ShouldCheckpoint(pending, 1)
    ensures SavePoints(pending, o1, false) == [1]
    ensures SavePoints(pending, o2, false) == [1]
    ensures SavePoints(pending, o3, false) == [1]
  {
    SavePointsSnoc(pending, o0, 2, false);
    SavePointsSnoc(pending, o1, 0, false);
    SavePointsSnoc(pending, o2, 1, false);
  }

  lemma ExampleTriggers()
    ensures ShouldCheckpoint([0, 1, 2], 2)
    ensures !ShouldCheckpoint([0, 1, 2], 0)
    ensures !ShouldCheckpoint([0, 1, 2], 1)
  {
    ExampleIndexOf();
  }

  lemma SavePointsSnoc(pending: seq<nat>, order: seq<nat>, idx: nat, corrected: bool)
    requires forall k :: 0 <= k < |order| ==> order[k] in pending
    requires idx in pending
    ensures forall k :: 0 <= k < |order + [idx]| ==> (order + [idx])[k] in pending
    ensures SavePoints(pending, order + [idx], corrected)
         == SavePoints(pending, order, corrected) + (if Triggers(pending, idx, |order| + 1, corrected) then [|order| + 1] else [])
  {
    assert (order + [idx])[..|order|] == order;
  }

  lemma ExampleIndexOf()
    ensures IndexOf([0, 1, 2], 2) == 2 && IndexOf([0, 1, 2], 0) == 0 && IndexOf([0, 1, 2], 1) == 1
  {
    var pending: seq<nat> := [0, 1, 2];
    assert pending[1..][1..] == [2];
    assert pending[1..] == [1, 2];
  }

  /** The save points in general: the file is written after completion `c` exactly when the
      trigger holds for the index that completed `c`-th, as that completion's count. */
  lemma SavePointsExactly(pending: seq<nat>, order: seq<nat>, corrected: bool)
    requires forall k :: 0 <= k < |order| ==> order[k] in pending
    ensures forall c :: 1 <= c <= |order| ==>
      (c in SavePoints(pending, order, corrected) <==> Triggers(pending, order[c - 1], c, corrected))
  {
    SavePointsPrefix(pending, order, corrected, |order|);
    assert order[..|order|] == order;
  }

  lemma {:induction false} SavePointsPrefix(pending: seq<nat>, order: seq<nat>, corrected: bool, m: nat)
    requires forall k :: 0 <= k < |order| ==> order[k] in pending
    requires m <= |order|
    ensures forall c :: 1 <= c <= m ==>
      (c in SavePoints(pending, order[..m], corrected) <==> Triggers(pending, order[c - 1], c, corrected))
  {
    if m > 0 {
      SavePointsPrefix(pending, order, corrected, m - 1);
      assert order[..m][..m - 1] == order[..m - 1];
    }
  }

  /** With the corrected condition the last write happens at the last completion, so the file
      ends up holding the final result list, and a write happens at every tenth completion. */
  lemma {:induction false} CorrectedCheckpointsFinal(pending: seq<nat>, order: seq<nat>)
    requires forall k :: 0 <= k < |order| ==> order[k] in pending
    requires |order| == |pending|
    ensures forall c :: 1 <= c <= |order| ==>
      (c in SavePoints(pending, order, true) <==> c % 10 == 0 || c == |order|)
    ensures |order| > 0 ==> SavePoints(pending, order, true)[|SavePoints(pending, order, true)| - 1] == |order|
  {
    PrefixSavePoints(pending, order, |order|);
    assert order[..|order|] == order;
  }

  lemma {:induction false} PrefixSavePoints(pending: seq<nat>, order: seq<nat>, m: nat)
    requires forall k :: 0 <= k < |order| ==> order[k] in pending
    requires m <= |order| == |pending|
    ensures forall c :: 1 <= c <= m ==>
      (c in SavePoints(pending, order[..m], true) <==> c % 10 == 0 || c == |order|)
    ensures m == |order| && m > 0 ==>
      SavePoints(pending, order[..m], true)[|SavePoints(pending, order[..m], true)| - 1] == m
  {
    if m > 0 {
      PrefixSavePoints(pending, order, m - 1);
      assert order[..m][..m - 1] == order[..m - 1];
    }
  }
}
