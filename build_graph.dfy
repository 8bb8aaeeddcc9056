/** index/build_graph.py, triple-extraction script: every chunk's reply is stored as
    `{"index": i, "result": text}`; a previous output file is merged back by each entry's
    "index" before the run, and only the chunks it does not claim are sent again. The chunker
    and the executor loop are the ones of graph_construction.py (`GraphConstruction.ChunkText`,
    `GraphConstruction.RunExtraction`). */
module BuildGraph {
  import opened Wrappers
  import opened Json
  import opened Text
  import GraphConstruction

  /** What the chat call did: raised, or answered with some message content. */
  datatype Reply = Failed(message: string) | Answered(content: string)

  /** `call_model`: the stripped reply under "result", or "[]" when the call raised. */
  function CallModel(reply: Reply, index: int): (r: Json)
    ensures r.Obj? && r.fields.Keys == {"index", "result"}
    ensures r.fields["index"] == Num(index)
    ensures r.fields["result"] == Str(if reply.Failed? then "[]" else Strip(reply.content))
  {
    Obj(map["index" := Num(index), "result" := Str(if reply.Failed? then "[]" else Strip(reply.content))])
  }

  // ---------------------------------------------------------------------------------------
  // merging the previous output file

  /** The integer Python uses in `item["index"] < len(results)` and `results[item["index"]]`:
      an int, or a bool as 0/1; a string, list, dict or None makes the comparison raise
      TypeError (a float is handled by `EntryEffect`). */
  function IndexValue(v: Json): Option<int> {
    match v
    case Num(n) => Some(n)
    case Bool(b) => Some(if b then 1 else 0)
    case _ => None
  }

  /** What one entry of the old file does to the merge loop. */
  datatype Effect =
    | Skip                            // not a dict, no "index", or index >= len(results)
    | Place(slot: nat, value: int)    // `results[value] = item`, i.e. slot `value` mod len
    | Abort                           // the comparison or the store raised

  function EntryEffect(item: Json, count: nat): (e: Effect)
    ensures e.Place? ==> e.slot < count && e.value < count
    ensures e.Place? && e.value >= 0 ==> e.slot == e.value
  {
    if !item.Obj? || "index" !in item.fields then Skip
    else if item.fields["index"].Frac? then
      // a float compares with `len(results)`, but `results[x]` then raises
      if item.fields["index"].x >= count as real then Skip else Abort
    else match IndexValue(item.fields["index"])
      case None => Abort
      case Some(v) =>
        if v >= count then Skip
        else if v < -(count as int) then Abort
        else Place(if v < 0 then v + count else v, v)
  }

  /** Position of the first entry that raises; the bare `except: pass` ends the merge there. */
  function Stop(entries: seq<Json>, count: nat): (k: nat)
    ensures k <= |entries|
    ensures forall j :: 0 <= j < k ==> !EntryEffect(entries[j], count).Abort?
    ensures k < |entries| ==> EntryEffect(entries[k], count).Abort?
  {
    if |entries| == 0 || EntryEffect(entries[0], count).Abort? then 0
    else 1 + Stop(entries[1..], count)
  }

  /** The entries the merge loop gets through. A file that does not decode, or whose top level
      is not a list (iterating a dict, a string or a number merges nothing), contributes none. */
  function Merged(file: CheckpointFile, count: nat): seq<Json> {
    if file.Loaded? && file.content.Arr? then file.content.items[..Stop(file.content.items, count)]
    else []
  }

  /** Entry `item` removes `i` from the pending list. */
  predicate Claims(item: Json, count: nat, i: nat) {
    var e := EntryEffect(item, count);
    e.Place? && e.value == i
  }

  ghost predicate Claimed(entries: seq<Json>, count: nat, i: nat) {
    exists k :: 0 <= k < |entries| && Claims(entries[k], count, i)
  }

  /** Slot `j` after the merge: the last entry placed there wins; `None` if there is none. */
  function LastPlaced(entries: seq<Json>, count: nat, j: nat): Json
    decreases |entries|
  {
    if |entries| == 0 then Null
    else
      var e := EntryEffect(entries[|entries| - 1], count);
      if e.Place? && e.slot == j then entries[|entries| - 1]
      else LastPlaced(entries[..|entries| - 1], count, j)
  }

  function Range(n: nat): (r: seq<nat>)
    ensures |r| == n && forall i :: 0 <= i < n ==> r[i] == i
    ensures GraphConstruction.StrictlyIncreasing(r)
  {
    var r: seq<nat> := seq(n, i requires 0 <= i < n => i);
    assert forall i :: 0 <= i < n ==> r[i] == i;
    r
  }

  /** `list.remove(x)`: drops the first occurrence of `x`. */
  function Remove(s: seq<nat>, x: nat): (r: seq<nat>)
    ensures x in s ==> |r| == |s| - 1
    ensures x !in s ==> r == s
    ensures forall y :: y in r ==> y in s
    ensures forall y :: y in s && y != x ==> y in r
  {
    if |s| == 0 then []
    else if s[0] == x then s[1..]
    else [s[0]] + Remove(s[1..], x)
  }

  /** Removing the first occurrence, found at position `p`, cuts that position out. */
  lemma {:induction false} RemoveAt(s: seq<nat>, x: nat, p: nat)
    requires p < |s| && s[p] == x && x !in s[..p]
    ensures Remove(s, x) == s[..p] + s[p + 1..]
    decreases p
  {
    if p > 0 {
      assert s[0] in s[..p];
      RemoveAt(s[1..], x, p - 1);
      assert s[1..][..p - 1] == s[1..p];
      assert s[1..][p..] == s[p + 1..];
      assert s[..p] == [s[0]] + s[1..p];
    }
  }

  /** Cutting position `p` out of a strictly increasing list keeps it strictly increasing and
      drops the value that stood there. */
  lemma CutSorted(s: seq<nat>, p: nat)
    requires GraphConstruction.StrictlyIncreasing(s) && p < |s|
    ensures GraphConstruction.StrictlyIncreasing(s[..p] + s[p + 1..])
    ensures s[p] !in s[..p] + s[p + 1..]
  {
    var r := s[..p] + s[p + 1..];
    forall a, b | 0 <= a < b < |r| ensures r[a] < r[b] {
      var a' := if a < p then a else a + 1;
      var b' := if b < p then b else b + 1;
      assert r[a] == s[a'] && r[b] == s[b'];
    }
    forall a | 0 <= a < |r| ensures r[a] != s[p] {
      var a' := if a < p then a else a + 1;
      assert r[a] == s[a'];
    }
  }

  /** On a strictly increasing list, removing `x` keeps the list strictly increasing and
      leaves exactly the other elements. */
  lemma RemoveSorted(s: seq<nat>, x: nat)
    requires GraphConstruction.StrictlyIncreasing(s)
    ensures GraphConstruction.StrictlyIncreasing(Remove(s, x))
    ensures forall y :: y in Remove(s, x) <==> y in s && y != x
  {
    if x in s {
      var p :| 0 <= p < |s| && s[p] == x;
      assert x !in s[..p] by {
        forall k | 0 <= k < p ensures s[..p][k] != x {
          assert s[k] < s[p];
        }
      }
      RemoveAt(s, x, p);
      CutSorted(s, p);
    }
  }

  /** One pass of the merge loop's body: the `isinstance`/"index" test, the comparison with
      `len(results)`, the store and the removal from the pending list; `aborted` when the
      comparison or the store raises. */
  method MergeEntry(item: Json, chunkCount: nat, results: seq<Json>, pending: seq<nat>)
    returns (aborted: bool, results': seq<Json>, pending': seq<nat>)
    requires |results| == chunkCount && GraphConstruction.StrictlyIncreasing(pending)
    ensures aborted <==> EntryEffect(item, chunkCount).Abort?
    ensures !EntryEffect(item, chunkCount).Place? ==> results' == results && pending' == pending
    ensures EntryEffect(item, chunkCount).Place? ==>
      results' == results[EntryEffect(item, chunkCount).slot := item]
    ensures GraphConstruction.StrictlyIncreasing(pending')
    ensures forall i: nat :: i in pending' <==> i in pending && !Claims(item, chunkCount, i)
  {
    aborted, results', pending' := false, results, pending;
    if item.Obj? && "index" in item.fields && item.fields["index"].Frac? {
      aborted := item.fields["index"].x < chunkCount as real;
    } else if item.Obj? && "index" in item.fields {
      var v := IndexValue(item.fields["index"]);
      if v.None? {
        return true, results, pending;
      }
      var x := v.value;
      if x < chunkCount {
        if x < -(chunkCount as int) {
          return true, results, pending;
        }
        var slot := if x < 0 then x + chunkCount else x;
        results' := results[slot := item];
        if x >= 0 && x in pending {
          RemoveSorted(pending, x);
          pending' := Remove(pending, x);
        }
      }
    }
  }

  /** The resume step: start from `[None] * n` and `list(range(n))`, then walk the old file's
      entries, placing each dict entry at its "index" and removing that index from the pending
      list, until an entry raises. */
  method ResumeFromCheckpoint(chunkCount: nat, file: CheckpointFile) returns (results: seq<Json>, pending: seq<nat>)
    ensures |results| == chunkCount
    ensures forall j :: 0 <= j < chunkCount ==> results[j] == LastPlaced(Merged(file, chunkCount), chunkCount, j)
    ensures GraphConstruction.StrictlyIncreasing(pending)
    ensures forall i: nat :: i in pending <==> i < chunkCount && !Claimed(Merged(file, chunkCount), chunkCount, i)
  {
    results := seq(chunkCount, _ => Null);
    pending := Range(chunkCount);
    forall i: nat | i < chunkCount ensures i in pending {
      assert pending[i] == i;
    }
    if file.Loaded? && file.content.Arr? {
      var entries := file.content.items;
      var stop := Stop(entries, chunkCount);
      var k := 0;
      while k < |entries|
        invariant 0 <= k <= stop
        invariant |results| == chunkCount
        invariant forall j :: 0 <= j < chunkCount ==> results[j] == LastPlaced(entries[..k], chunkCount, j)
        invariant GraphConstruction.StrictlyIncreasing(pending)
        invariant forall i: nat :: i in pending <==> i < chunkCount && !Claimed(entries[..k], chunkCount, i)
      {
        var aborted;
        LastPlacedStep(entries, chunkCount, k);
        ClaimedStep(entries, chunkCount, k);
        aborted, results, pending := MergeEntry(entries[k], chunkCount, results, pending);
        if aborted {
          break;
        }
        k := k + 1;
      }
      assert entries[..k] == Merged(file, chunkCount);
    }
  }

  lemma LastPlacedStep(entries: seq<Json>, count: nat, k: nat)
    requires k < |entries|
    ensures forall j: nat :: (
      LastPlaced(entries[..k + 1], count, j) ==
        if EntryEffect(entries[k], count).Place? && EntryEffect(entries[k], count).slot == j
        then entries[k] else LastPlaced(entries[..k], count, j))
  {
    var e1 := entries[..k + 1];
    assert e1[..k] == entries[..k];
    assert e1[k] == entries[k];
    forall j: nat ensures LastPlaced(e1, count, j) ==
      (if EntryEffect(entries[k], count).Place? && EntryEffect(entries[k], count).slot == j
       then entries[k] else LastPlaced(entries[..k], count, j))
    {
    }
  }

  lemma ClaimedStep(entries: seq<Json>, count: nat, k: nat)
    requires k < |entries|
    ensures forall i: nat :: Claimed(entries[..k + 1], count, i) <==>
      Claimed(entries[..k], count, i) || Claims(entries[k], count, i)
  {
    var e1 := entries[..k + 1];
    assert forall j :: 0 <= j < k ==> e1[j] == entries[..k][j];
    forall i: nat | Claimed(entries[..k + 1], count, i) && !Claims(entries[k], count, i)
      ensures Claimed(entries[..k], count, i)
    {
      var j :| 0 <= j < k + 1 && Claims(e1[j], count, i);
      assert j < k;
      assert Claims(entries[..k][j], count, i);
    }
    forall i: nat | Claims(entries[k], count, i)
      ensures Claimed(entries[..k + 1], count, i)
    {
      assert Claims(e1[k], count, i);
    }
  }

  /** A file written by this script only holds `None` or `call_model` results at their own
      positions. */
  ghost predicate WrittenByRun(saved: seq<Json>, replies: nat -> Reply) {
    forall j :: 0 <= j < |saved| ==> saved[j] == Null || saved[j] == CallModel(replies(j), j)
  }

  /** Resuming from such a file restores every stored result in its own slot and claims exactly
      the stored indices, so a chunk whose call failed (stored as "[]") is not sent again. */
  lemma {:induction false} ResumeKeepsStoredResults(saved: seq<Json>, replies: nat -> Reply)
    requires WrittenByRun(saved, replies)
    ensures Merged(Loaded(Arr(saved)), |saved|) == saved
    ensures forall j :: 0 <= j < |saved| ==> LastPlaced(saved, |saved|, j) == saved[j]
    ensures forall i: nat :: i < |saved| ==> (Claimed(saved, |saved|, i) <==> saved[i] != Null)
  {
    var n := |saved|;
    forall j | 0 <= j < n
      ensures EntryEffect(saved[j], n) == if saved[j] == Null then Skip else Place(j, j)
    {
      WrittenEffect(saved, replies, j);
    }
    assert SelfPlaced(saved);
    StopPastEnd(saved, n);
    assert saved[..n] == saved;
    LastPlacedPrefix(saved, n);
    forall i: nat | i < n
      ensures Claimed(saved, n, i) <==> saved[i] != Null
    {
      if saved[i] != Null {
        WrittenEffect(saved, replies, i);
        assert Claims(saved[i], n, i);
      }
      if Claimed(saved, n, i) {
        var k :| 0 <= k < n && Claims(saved[k], n, i);
        WrittenEffect(saved, replies, k);
      }
    }
  }

  /** What an entry of such a file does to the merge: a stored result claims its own slot. */
  lemma WrittenEffect(saved: seq<Json>, replies: nat -> Reply, j: nat)
    requires WrittenByRun(saved, replies) && j < |saved|
    ensures EntryEffect(saved[j], |saved|) == if saved[j] == Null then Skip else Place(j, j)
  {
  }

  lemma {:induction false} StopPastEnd(entries: seq<Json>, count: nat)
    requires forall j :: 0 <= j < |entries| ==> !EntryEffect(entries[j], count).Abort?
    ensures Stop(entries, count) == |entries|
    decreases |entries|
  {
    if |entries| > 0 {
      StopPastEnd(entries[1..], count);
    }
  }

  /** Every entry of `saved` is either skipped or placed at its own position. */
  predicate SelfPlaced(saved: seq<Json>) {
    forall j :: 0 <= j < |saved| ==>
      EntryEffect(saved[j], |saved|) == if saved[j] == Null then Skip else Place(j, j)
  }

  lemma {:induction false} LastPlacedPrefix(saved: seq<Json>, m: nat)
    requires SelfPlaced(saved)
    requires m <= |saved|
    ensures forall j :: 0 <= j < |saved| ==> LastPlaced(saved[..m], |saved|, j) == (if j < m then saved[j] else Null)
  {
    var n := |saved|;
    if m > 0 {
      LastPlacedPrefix(saved, m - 1);
      var e := saved[..m];
      assert e[..m - 1] == saved[..m - 1];
      assert e[m - 1] == saved[m - 1];
      var eff := EntryEffect(saved[m - 1], n);
      forall j | 0 <= j < n ensures LastPlaced(e, n, j) == (if j < m then saved[j] else Null) {
        if eff.Place? && eff.slot == j {
          assert LastPlaced(e, n, j) == saved[m - 1];
        } else {
          assert LastPlaced(e, n, j) == LastPlaced(saved[..m - 1], n, j);
        }
      }
    }
  }

  /** A complete run with the corrected checkpoint condition leaves a file from which the next
      run restores every chunk's result and sends nothing again. */
  lemma CompleteRunNotRepeated(n: nat, order: seq<nat>, replies: nat -> Reply)
    requires multiset(order) == multiset(Range(n))
    ensures forall k :: 0 <= k < |order| ==> order[k] in Range(n)
    ensures var points := GraphConstruction.SavePoints(Range(n), order, true);
      var computed := (i: nat) => CallModel(replies(i), i);
      n > 0 ==> (
        && |points| > 0
        && var last := GraphConstruction.Snapshots(seq(n, _ => Null), order, computed, points)[|points| - 1];
           |last| == n && forall i: nat :: i < n ==> Claimed(Merged(Loaded(Arr(last)), n), n, i))
  {
    PermutationOfRange(order, n);
    var computed := (i: nat) => CallModel(replies(i), i);
    if n > 0 {
      GraphConstruction.CorrectedCheckpointsFinal(Range(n), order);
      var points := GraphConstruction.SavePoints(Range(n), order, true);
      var last := GraphConstruction.Snapshots(seq(n, _ => Null), order, computed, points)[|points| - 1];
      assert order[..n] == order;
      FinalRunWritten(n, order, replies, last);
    }
  }

  lemma PermutationOfRange(order: seq<nat>, n: nat)
    requires multiset(order) == multiset(Range(n))
    ensures |order| == n
    ensures forall k :: 0 <= k < |order| ==> order[k] in Range(n)
    ensures forall i: nat :: i < n ==> i in order
  {
    var r := Range(n);
    assert |order| == |multiset(order)| == |multiset(r)| == n;
    forall k | 0 <= k < |order| ensures order[k] in r {
      assert order[k] in multiset(order);
    }
    forall i: nat | i < n ensures i in order {
      assert r[i] == i;
      assert i in multiset(r);
    }
  }

  lemma FinalRunWritten(n: nat, order: seq<nat>, replies: nat -> Reply, last: seq<Json>)
    requires forall i: nat :: i < n ==> i in order
    requires last == GraphConstruction.Filled(seq(n, _ => Null), order, (i: nat) => CallModel(replies(i), i))
    ensures |last| == n && forall i: nat :: i < n ==> Claimed(Merged(Loaded(Arr(last)), n), n, i)
  {
    assert WrittenByRun(last, replies);
    ResumeKeepsStoredResults(last, replies);
  }
}
