/** index/build_graph.py, index-building script (`build_faiss_index`): every edge of the graph
    is expanded into one entry per sentence of its "sentence" attribute, each entry is embedded
    and stored with a payload naming the chunk its sentence was extracted from, and the index
    and payloads are written unless an index file already exists. */
module EdgeIndex {
  import opened Wrappers
  import opened Json
  import opened Text

  /** `json.loads`: `None` when the text does not decode. */
  type Parser = string -> Option<Json>

  // ---------------------------------------------------------------------------------------
  // sentence -> chunk map (`build_sent2chunk`)

  /** The strings of a list, in order (`[s for s in xs if isinstance(s, str)]`). */
  function StringsOf(xs: seq<Json>): (r: seq<string>)
    ensures forall s :: s in r <==> Str(s) in xs
    decreases |xs|
  {
    if |xs| == 0 then []
    else
      var n := |xs|;
      assert xs == xs[..n - 1] + [xs[n - 1]];
      StringsOf(xs[..n - 1]) + (if xs[n - 1].Str? then [xs[n - 1].s] else [])
  }

  /** The sentences one triple carries: its "sentence" string, or the strings of its
      "sentence" list; nothing for anything else. */
  function ItemSentences(item: Json): seq<string> {
    if !item.Obj? || "sentence" !in item.fields then []
    else match item.fields["sentence"]
      case Str(s) => [s]
      case Arr(xs) => StringsOf(xs)
      case _ => []
  }

  /** Some triple of `items` carries sentence `s`. */
  predicate Carries(items: seq<Json>, s: string) {
    exists k :: 0 <= k < |items| && s in ItemSentences(items[k])
  }

  /** The sentences of a triples list, triple by triple. */
  function TriplesSentences(items: seq<Json>): (r: seq<string>)
    ensures forall s :: s in r <==> Carries(items, s)
    decreases |items|
  {
    if |items| == 0 then []
    else
      var n := |items|;
      var rest := TriplesSentences(items[..n - 1]);
      assert forall s :: Carries(items, s) <==> Carries(items[..n - 1], s) || s in ItemSentences(items[n - 1]) by {
        forall s ensures Carries(items, s) ==> Carries(items[..n - 1], s) || s in ItemSentences(items[n - 1]) {
          if Carries(items, s) {
            var k :| 0 <= k < n && s in ItemSentences(items[k]);
            if k < n - 1 {
              assert items[..n - 1][k] == items[k];
            }
          }
        }
        forall s | Carries(items[..n - 1], s) ensures Carries(items, s) {
          var k :| 0 <= k < n - 1 && s in ItemSentences(items[..n - 1][k]);
          assert items[..n - 1][k] == items[k];
        }
      }
      rest + ItemSentences(items[n - 1])
  }

  /** The triples list of one stored chunk result; empty when the chunk is skipped (not a dict,
      "result" missing, empty or not a string, not JSON, or not a list). */
  function ChunkTriples(chunk: Json, parse: Parser): seq<Json> {
    if !chunk.Obj? then []
    else
      var text := if "result" in chunk.fields then chunk.fields["result"] else Str("");
      if !text.Str? || text.s == "" then []
      else match parse(text.s)
        case Some(Arr(items)) => items
        case _ => []
  }

  /** The sentences of every stored chunk, as `build_sent2chunk` reads them. */
  function ChunkSentences(parse: Parser): Json -> seq<string> {
    (chunk: Json) => TriplesSentences(ChunkTriples(chunk, parse))
  }

  /** The last position of `data` whose sentences (by `sentencesOf`) include `s`, if any. */
  function LastMention(data: seq<Json>, sentencesOf: Json -> seq<string>, s: string): (r: Option<nat>)
    ensures r.None? <==> forall c :: 0 <= c < |data| ==> s !in sentencesOf(data[c])
    ensures r.Some? ==> (r.value < |data| && s in sentencesOf(data[r.value])
      && forall c :: r.value < c < |data| ==> s !in sentencesOf(data[c]))
    decreases |data|
  {
    if |data| == 0 then None
    else if s in sentencesOf(data[|data| - 1]) then Some(|data| - 1)
    else
      var r := LastMention(data[..|data| - 1], sentencesOf, s);
      assert forall c :: 0 <= c < |data| - 1 ==> data[..|data| - 1][c] == data[c];
      r
  }

  /** `mapping` sends exactly the sentences some chunk mentions to the last chunk mentioning
      them (later chunks overwrite earlier ones). */
  ghost predicate IsSent2Chunk(mapping: map<string, nat>, data: seq<Json>, parse: Parser) {
    forall s :: (s in mapping <==> LastMention(data, ChunkSentences(parse), s).Some?)
      && (s in mapping ==> LastMention(data, ChunkSentences(parse), s) == Some(mapping[s]))
  }

  /** `mapping[k] = c` for every key of `keys`, in order. */
  function Assign(mapping: map<string, nat>, keys: seq<string>, c: nat): map<string, nat>
    decreases |keys|
  {
    if |keys| == 0 then mapping else Assign(mapping, keys[..|keys| - 1], c)[keys[|keys| - 1] := c]
  }

  lemma {:induction false} AssignContents(mapping: map<string, nat>, keys: seq<string>, c: nat)
    ensures forall s :: s in Assign(mapping, keys, c) <==> s in mapping || s in keys
    ensures forall s :: s in Assign(mapping, keys, c) ==> Assign(mapping, keys, c)[s] == if s in keys then c else mapping[s]
    decreases |keys|
  {
    if |keys| > 0 {
      var n := |keys|;
      AssignContents(mapping, keys[..n - 1], c);
      assert keys == keys[..n - 1] + [keys[n - 1]];
    }
  }

  lemma {:induction false} AssignConcat(mapping: map<string, nat>, a: seq<string>, b: seq<string>, c: nat)
    ensures Assign(Assign(mapping, a, c), b, c) == Assign(mapping, a + b, c)
    decreases |b|
  {
    if |b| > 0 {
      var n := |b|;
      AssignConcat(mapping, a, b[..n - 1], c);
      assert (a + b)[..|a + b| - 1] == a + b[..n - 1];
      assert (a + b)[|a + b| - 1] == b[n - 1];
    } else {
      assert a + b == a;
    }
  }

  lemma AssignSnoc(mapping: map<string, nat>, keys: seq<string>, key: string, c: nat)
    ensures Assign(mapping, keys + [key], c) == Assign(mapping, keys, c)[key := c]
  {
    assert (keys + [key])[..|keys|] == keys;
  }

  /** The loop over a "sentence" list. */
  method AddStrings(mapping: map<string, nat>, xs: seq<Json>, c: nat) returns (m: map<string, nat>)
    ensures m == Assign(mapping, StringsOf(xs), c)
  {
    m := mapping;
    var j := 0;
    while j < |xs|
      invariant j <= |xs|
      invariant m == Assign(mapping, StringsOf(xs[..j]), c)
    {
      assert xs[..j + 1][..j] == xs[..j];
      assert xs[..j + 1][j] == xs[j];
      assert StringsOf(xs[..j + 1]) == StringsOf(xs[..j]) + (if xs[j].Str? then [xs[j].s] else []);
      if xs[j].Str? {
        AssignSnoc(mapping, StringsOf(xs[..j]), xs[j].s, c);
        m := m[xs[j].s := c];
      } else {
        assert StringsOf(xs[..j + 1]) == StringsOf(xs[..j]);
      }
      j := j + 1;
    }
    assert xs[..j] == xs;
  }

  /** The body of the loop over one chunk's triples. */
  method AddItem(mapping: map<string, nat>, item: Json, c: nat) returns (m: map<string, nat>)
    ensures m == Assign(mapping, ItemSentences(item), c)
  {
    m := mapping;
    if item.Obj? {
      var sentence := if "sentence" in item.fields then item.fields["sentence"] else Null;
      if sentence.Str? {
        AssignSnoc(mapping, [], sentence.s, c);
        m := m[sentence.s := c];
      } else if sentence.Arr? {
        m := AddStrings(m, sentence.items, c);
      }
    }
  }

  /** The loop over one chunk's triples. */
  method AddTriples(mapping: map<string, nat>, triples: seq<Json>, c: nat) returns (m: map<string, nat>)
    ensures m == Assign(mapping, TriplesSentences(triples), c)
  {
    m := mapping;
    var k := 0;
    while k < |triples|
      invariant k <= |triples|
      invariant m == Assign(mapping, TriplesSentences(triples[..k]), c)
    {
      assert triples[..k + 1][..k] == triples[..k];
      AssignConcat(mapping, TriplesSentences(triples[..k]), ItemSentences(triples[k]), c);
      m := AddItem(m, triples[k], c);
      k := k + 1;
    }
    assert triples[..k] == triples;
  }

  /** One iteration of the outer loop: every sentence chunk `c` mentions now maps to `c`. */
  method AddChunk(mapping: map<string, nat>, chunk: Json, c: nat, parse: Parser)
    returns (m: map<string, nat>)
    ensures m == Assign(mapping, TriplesSentences(ChunkTriples(chunk, parse)), c)
  {
    m := mapping;
    if !chunk.Obj? {
      return;
    }
    var text := if "result" in chunk.fields then chunk.fields["result"] else Str("");
    if !text.Str? || text.s == "" {
      return;
    }
    var parsed := parse(text.s);
    if !parsed.Some? || !parsed.value.Arr? {
      return;
    }
    m := AddTriples(mapping, parsed.value.items, c);
  }

  /** `build_sent2chunk` over the decoded output list of the extraction step. */
  method BuildSent2Chunk(data: seq<Json>, parse: Parser) returns (mapping: map<string, nat>)
    ensures IsSent2Chunk(mapping, data, parse)
  {
    mapping := map[];
    var c := 0;
    while c < |data|
      invariant c <= |data|
      invariant IsSent2Chunk(mapping, data[..c], parse)
    {
      assert data[..c + 1][..c] == data[..c];
      ghost var before := mapping;
      mapping := AddChunk(mapping, data[c], c, parse);
      assert ChunkSentences(parse)(data[c]) == TriplesSentences(ChunkTriples(data[c], parse));
      AssignContents(before, ChunkSentences(parse)(data[c]), c);
      c := c + 1;
    }
    assert data[..c] == data;
  }

  /** A payload's chunk is a chunk whose triples carry the sentence, and no later chunk does;
      a sentence no chunk carries gets no chunk. */
  lemma PayloadChunkMentionsSentence(mapping: map<string, nat>, data: seq<Json>, parse: Parser, e: EdgeEntry)
    requires IsSent2Chunk(mapping, data, parse)
    ensures PayloadOf(e, mapping).chunkId.None? <==>
      forall c :: 0 <= c < |data| ==> e.sentence !in ChunkSentences(parse)(data[c])
    ensures PayloadOf(e, mapping).chunkId.Some? ==>
      var c := PayloadOf(e, mapping).chunkId.value;
      0 <= c < |data| && e.sentence in ChunkSentences(parse)(data[c])
      && forall later :: c < later < |data| ==> e.sentence !in ChunkSentences(parse)(data[later])
  {
    var r := LastMention(data, ChunkSentences(parse), e.sentence);
  }

  // ---------------------------------------------------------------------------------------
  // edge expansion (`EdgeEmbedderFAISS.__init__`)

  /** A graph edge with its (string-valued) attributes. */
  datatype GraphEdge = GraphEdge(source: string, target: string, attrs: map<string, string>)

  /** One `(edge_id, source, target, relation, sentence)` tuple of `self.edges`. */
  datatype EdgeEntry = EdgeEntry(edgeId: string, source: string, target: string, relation: string, sentence: string)

  /** `data.get("label") or data.get("relation_type", "")`. */
  function Label(attrs: map<string, string>): string {
    if "label" in attrs && attrs["label"] != "" then attrs["label"]
    else if "relation_type" in attrs then attrs["relation_type"]
    else ""
  }

  /** `x` is the stripped form of one of `pieces`. */
  predicate StripOfPiece(x: string, pieces: seq<string>) {
    exists j :: 0 <= j < |pieces| && x == Strip(pieces[j])
  }

  /** `[s.strip() for s in pieces if s.strip()]`: the non-blank pieces, stripped. */
  function StrippedPieces(pieces: seq<string>): seq<string>
    decreases |pieces|
  {
    if |pieces| == 0 then []
    else
      var n := |pieces|;
      var h := Strip(pieces[n - 1]);
      StrippedPieces(pieces[..n - 1]) + (if h == [] then [] else [h])
  }

  /** Every kept part is the non-empty stripped form of one of the pieces. */
  lemma {:induction false} StrippedPiecesSound(pieces: seq<string>)
    ensures forall k :: 0 <= k < |StrippedPieces(pieces)| ==>
      StrippedPieces(pieces)[k] != [] && StripOfPiece(StrippedPieces(pieces)[k], pieces)
    decreases |pieces|
  {
    if |pieces| > 0 {
      var n := |pieces|;
      var rest := StrippedPieces(pieces[..n - 1]);
      var r := StrippedPieces(pieces);
      StrippedPiecesSound(pieces[..n - 1]);
      forall k | 0 <= k < |r| ensures r[k] != [] && StripOfPiece(r[k], pieces) {
        if k < |rest| {
          assert r[k] == rest[k];
          var j :| 0 <= j < n - 1 && rest[k] == Strip(pieces[..n - 1][j]);
          assert pieces[..n - 1][j] == pieces[j];
        } else {
          assert r[k] == Strip(pieces[n - 1]);
        }
      }
    }
  }

  /** No non-blank piece is lost. */
  lemma {:induction false} StrippedPiecesComplete(pieces: seq<string>)
    ensures forall j :: 0 <= j < |pieces| && Strip(pieces[j]) != [] ==> Strip(pieces[j]) in StrippedPieces(pieces)
    decreases |pieces|
  {
    if |pieces| > 0 {
      var n := |pieces|;
      StrippedPiecesComplete(pieces[..n - 1]);
      var rest := StrippedPieces(pieces[..n - 1]);
      var h := Strip(pieces[n - 1]);
      assert StrippedPieces(pieces) == rest + (if h == [] then [] else [h]);
      forall j | 0 <= j < n && Strip(pieces[j]) != [] ensures Strip(pieces[j]) in StrippedPieces(pieces) {
        if j < n - 1 {
          assert pieces[..n - 1][j] == pieces[j];
          assert Strip(pieces[j]) in rest;
        }
      }
    }
  }

  /** The sentences of a "sentence" attribute: its '/'-separated parts, stripped, blanks dropped. */
  function SentencesOf(block: string): (r: seq<string>)
    ensures forall k :: 0 <= k < |r| ==> r[k] != [] && '/' !in r[k]
    ensures forall k :: 0 <= k < |r| ==> !IsSpace(r[k][0]) && !IsSpace(r[k][|r[k]| - 1])
  {
    var pieces := Split(block, '/');
    var r := StrippedPieces(pieces);
    StrippedPiecesSound(pieces);
    assert forall k :: 0 <= k < |r| ==> '/' !in r[k] by {
      forall k | 0 <= k < |r| ensures '/' !in r[k] {
        var j :| 0 <= j < |pieces| && r[k] == Strip(pieces[j]);
        StripKeepsOut(pieces[j], '/');
      }
    }
    r
  }

  /** `f"{src}-{dst}-{label}".replace(" ", "_") + f"#{i}"`. */
  function EdgeId(source: string, target: string, relation: string, i: nat): string {
    ReplaceChar(source + "-" + target + "-" + relation, ' ', '_') + "#" + Decimal(i)
  }

  /** The entries one graph edge contributes (none when its "sentence" attribute is missing or
      empty), numbered by sentence position. */
  function EntriesOf(e: GraphEdge): (r: seq<EdgeEntry>)
    ensures forall k :: 0 <= k < |r| ==>
      r[k].source == e.source && r[k].target == e.target && r[k].relation == Label(e.attrs)
      && r[k].edgeId == EdgeId(e.source, e.target, Label(e.attrs), k)
      && r[k].sentence != [] && '/' !in r[k].sentence
    ensures var block := if "sentence" in e.attrs then e.attrs["sentence"] else "";
      && |r| == (if block == "" then 0 else |SentencesOf(block)|)
      && (block != "" ==> forall k :: 0 <= k < |r| ==> r[k].sentence == SentencesOf(block)[k])
  {
    var block := if "sentence" in e.attrs then e.attrs["sentence"] else "";
    if block == "" then [] else EntriesFor(e.source, e.target, Label(e.attrs), SentencesOf(block))
  }

  /** Entry `k` for sentence `k`. */
  function EntriesFor(source: string, target: string, relation: string, sentences: seq<string>): (r: seq<EdgeEntry>)
    ensures |r| == |sentences|
    ensures forall k :: 0 <= k < |r| ==> r[k] == EdgeEntry(EdgeId(source, target, relation, k), source, target, relation, sentences[k])
  {
    seq(|sentences|, k requires 0 <= k < |sentences| => EdgeEntry(EdgeId(source, target, relation, k), source, target, relation, sentences[k]))
  }

  function AllEntries(graphEdges: seq<GraphEdge>): seq<EdgeEntry>
    decreases |graphEdges|
  {
    if |graphEdges| == 0 then []
    else AllEntries(graphEdges[..|graphEdges| - 1]) + EntriesOf(graphEdges[|graphEdges| - 1])
  }

  /** Some entry of `es` carries sentence `x`. */
  predicate HasSentence(es: seq<EdgeEntry>, x: string) {
    exists k :: 0 <= k < |es| && es[k].sentence == x
  }

  /** No part of the "sentence" attribute is lost: every '/'-part that is not blank yields an
      entry carrying it, stripped. */
  lemma EdgeSentencesComplete(e: GraphEdge)
    requires "sentence" in e.attrs && e.attrs["sentence"] != ""
    ensures var pieces := Split(e.attrs["sentence"], '/');
      forall j :: 0 <= j < |pieces| && Strip(pieces[j]) != [] ==> HasSentence(EntriesOf(e), Strip(pieces[j]))
  {
    var es := EntriesOf(e);
    var pieces := Split(e.attrs["sentence"], '/');
    var ss := SentencesOf(e.attrs["sentence"]);
    assert ss == StrippedPieces(pieces);
    StrippedPiecesComplete(pieces);
    forall j | 0 <= j < |pieces| && Strip(pieces[j]) != []
      ensures HasSentence(es, Strip(pieces[j]))
    {
      var k :| 0 <= k < |ss| && ss[k] == Strip(pieces[j]);
      assert es[k].sentence == ss[k];
    }
  }

  /** Entries of one edge carry distinct ids: the ids differ exactly in their decimal suffix. */
  lemma EdgeIdsDistinct(source: string, target: string, relation: string, j: nat, k: nat)
    requires j != k
    ensures EdgeId(source, target, relation, j) != EdgeId(source, target, relation, k)
  {
    DecimalInjective(j, k);
    var prefix := ReplaceChar(source + "-" + target + "-" + relation, ' ', '_') + "#";
    var a := prefix + Decimal(j);
    var b := prefix + Decimal(k);
    assert a[|prefix|..] == Decimal(j);
    assert b[|prefix|..] == Decimal(k);
  }

  /** Ids are not unique across edges: a space in a node name becomes '_', so two different
      edges can produce the same id. */
  lemma EdgeIdsMayCollide()
    ensures EdgeId("a b", "c", "r", 0) == EdgeId("a_b", "c", "r", 0)
  {
    var x := "a b" + "-" + "c" + "-" + "r";
    var y := "a_b" + "-" + "c" + "-" + "r";
    assert x == ['a', ' ', 'b', '-', 'c', '-', 'r'];
    assert y == ['a', '_', 'b', '-', 'c', '-', 'r'];
    assert ReplaceChar(x, ' ', '_') == y;
    assert ReplaceChar(y, ' ', '_') == y;
  }

  /** The inner loop of `__init__`'s edge loop, for one edge. */
  method ExpandEdge(e: GraphEdge) returns (entries: seq<EdgeEntry>)
    ensures entries == EntriesOf(e)
  {
    entries := [];
    var block := if "sentence" in e.attrs then e.attrs["sentence"] else "";
    if block != "" {
      var sentences := SentencesOf(block);
      var relation := Label(e.attrs);
      var i := 0;
      while i < |sentences|
        invariant i <= |sentences|
        invariant |entries| == i
        invariant forall k :: 0 <= k < i ==>
          entries[k] == EdgeEntry(EdgeId(e.source, e.target, relation, k), e.source, e.target, relation, sentences[k])
      {
        entries := entries + [EdgeEntry(EdgeId(e.source, e.target, relation, i), e.source, e.target, relation, sentences[i])];
        i := i + 1;
      }
      assert entries == EntriesFor(e.source, e.target, relation, sentences);
    }
  }

  /** `__init__`'s edge loop: the entries of every edge, edge by edge. */
  method ExpandEdges(graphEdges: seq<GraphEdge>) returns (entries: seq<EdgeEntry>)
    ensures entries == AllEntries(graphEdges)
  {
    entries := [];
    var g := 0;
    while g < |graphEdges|
      invariant g <= |graphEdges|
      invariant entries == AllEntries(graphEdges[..g])
    {
      assert graphEdges[..g + 1][..g] == graphEdges[..g];
      assert AllEntries(graphEdges[..g + 1]) == AllEntries(graphEdges[..g]) + EntriesOf(graphEdges[g]);
      var more := ExpandEdge(graphEdges[g]);
      entries := entries + more;
      g := g + 1;
    }
    assert graphEdges[..g] == graphEdges;
  }

  // ---------------------------------------------------------------------------------------
  // embedding and storing (`build_index`)

  /** An embedding as returned by the embedding service (normalised there). */
  type Vector = seq<real>

  /** The payload dict stored beside each index row. */
  datatype Payload = Payload(edgeId: string, source: string, target: string, relation: string,
                             sentence: string, chunkId: Option<nat>)

  /** The worker's payload: the entry's fields and `sent2cid.get(sentence)`. */
  function PayloadOf(e: EdgeEntry, sent2cid: map<string, nat>): (p: Payload)
    ensures p.chunkId.None? <==> e.sentence !in sent2cid
    ensures p.chunkId.Some? ==> p.chunkId.value == sent2cid[e.sentence]
    ensures (p.edgeId, p.source, p.target, p.relation, p.sentence) == (e.edgeId, e.source, e.target, e.relation, e.sentence)
  {
    Payload(e.edgeId, e.source, e.target, e.relation, e.sentence,
            if e.sentence in sent2cid then Some(sent2cid[e.sentence]) else None)
  }

  /** An embedding call: the vector, or `None` when the embedding service raised. */
  type Embedder = string -> Option<Vector>

  /** No entry's embedding raises. */
  predicate AllEmbedded(edges: seq<EdgeEntry>, embed: Embedder) {
    forall i :: 0 <= i < |edges| ==> embed(edges[i].sentence).Some?
  }

  /** The worker loop. `executor.map` yields the workers' results in input order and re-raises
      a worker's exception when the loop reaches it, so `ok` is false exactly when some
      embedding raised. The `seen` set is never added to, so no worker returns `None`: every
      entry gets a row and a payload, repeated sentences included. */
  method EmbedEdges(edges: seq<EdgeEntry>, sent2cid: map<string, nat>, embed: Embedder)
    returns (ok: bool, vecs: seq<Vector>, payloads: seq<Payload>)
    ensures ok <==> AllEmbedded(edges, embed)
    ensures ok ==> |vecs| == |edges| && |payloads| == |edges|
    ensures ok ==> forall i :: 0 <= i < |edges| ==> vecs[i] == embed(edges[i].sentence).value
    ensures ok ==> forall i :: 0 <= i < |edges| ==> payloads[i] == PayloadOf(edges[i], sent2cid)
  {
    var seen: set<string> := {};
    vecs, payloads := [], [];
    var i := 0;
    while i < |edges|
      invariant i <= |edges|
      invariant seen == {}
      invariant forall j :: 0 <= j < i ==> embed(edges[j].sentence).Some?
      invariant |vecs| == i && |payloads| == i
      invariant forall j :: 0 <= j < i ==> vecs[j] == embed(edges[j].sentence).value
      invariant forall j :: 0 <= j < i ==> payloads[j] == PayloadOf(edges[j], sent2cid)
    {
      var e := edges[i];
      if e.sentence !in seen {
        var emb := embed(e.sentence);
        if emb.None? {
          return false, vecs, payloads;
        }
        var cid := if e.sentence in sent2cid then Some(sent2cid[e.sentence]) else None;
        vecs := vecs + [emb.value];
        payloads := payloads + [Payload(e.edgeId, e.source, e.target, e.relation, e.sentence, cid)];
      }
      i := i + 1;
    }
    ok := true;
  }

  /** The two output files; `None` when the file does not exist. */
  class IndexStore {
    var indexFile: Option<seq<Vector>>
    var payloadFile: Option<seq<Payload>>

    constructor (indexFile: Option<seq<Vector>>, payloadFile: Option<seq<Payload>>)
      ensures this.indexFile == indexFile && this.payloadFile == payloadFile
    {
      this.indexFile := indexFile;
      this.payloadFile := payloadFile;
    }
  }

  /** `EdgeEmbedderFAISS`: the expanded edges, the sentence -> chunk map, the payload list and
      the rows of the inner-product index (`None` until `build_index` creates it). */
  class EdgeEmbedder {
    var edges: seq<EdgeEntry>
    var sent2cid: map<string, nat>
    var payloads: seq<Payload>
    var index: Option<seq<Vector>>

    constructor (graphEdges: seq<GraphEdge>, graphJson: seq<Json>, parse: Parser)
      ensures edges == AllEntries(graphEdges)
      ensures IsSent2Chunk(sent2cid, graphJson, parse)
      ensures payloads == [] && index == None
    {
      var expanded := ExpandEdges(graphEdges);
      var mapping := BuildSent2Chunk(graphJson, parse);
      edges := expanded;
      payloads := [];
      index := None;
      sent2cid := mapping;
    }

    /** `build_index`. The dimension probe `_embed("test")` comes first; if it raises,
        nothing changes. Otherwise the index is created empty, and an embedding that raises
        ends the method before the payloads are kept. With no edges `np.vstack([])` raises
        after the (empty) payloads are kept. In every failing case nothing is written and
        `ok` is false; otherwise the index holds one row per entry, in step with the payloads,
        and both files are written. */
    method BuildIndex(embed: Embedder, store: IndexStore) returns (ok: bool)
      modifies this, store
      ensures edges == old(edges) && sent2cid == old(sent2cid)
      ensures ok <==> embed("test").Some? && AllEmbedded(edges, embed) && |edges| > 0
      ensures embed("test").None? ==> index == old(index) && payloads == old(payloads)
      ensures embed("test").Some? ==> index.Some?
      ensures embed("test").Some? && !AllEmbedded(edges, embed) ==> payloads == old(payloads)
      ensures embed("test").Some? && AllEmbedded(edges, embed) ==>
        |payloads| == |edges| && forall i :: 0 <= i < |edges| ==> payloads[i] == PayloadOf(edges[i], sent2cid)
      ensures ok ==> (
        && |index.value| == |edges|
        && (forall i :: 0 <= i < |edges| ==> index.value[i] == embed(edges[i].sentence).value)
        && store.indexFile == index && store.payloadFile == Some(payloads))
      ensures !ok ==> unchanged(store) && (embed("test").Some? ==> index == Some([]))
    {
      if embed("test").None? {
        return false;
      }
      index := Some([]);
      var embedded, vecs, built := EmbedEdges(edges, sent2cid, embed);
      if !embedded {
        return false;
      }
      payloads := built;
      if |vecs| == 0 {
        return false;
      }
      index := Some(index.value + vecs);
      store.indexFile := index;
      store.payloadFile := Some(payloads);
      return true;
    }
  }

  /** The generated script's last lines: the embedder is always constructed, and the index is
      built only when no index file exists yet. `ok` is false when building raised. */
  method RunIndexScript(graphEdges: seq<GraphEdge>, graphJson: seq<Json>, parse: Parser,
                        embed: Embedder, store: IndexStore)
    returns (embedder: EdgeEmbedder, ok: bool)
    modifies store
    ensures fresh(embedder)
    ensures embedder.edges == AllEntries(graphEdges) && IsSent2Chunk(embedder.sent2cid, graphJson, parse)
    ensures old(store.indexFile).Some? ==> ok && unchanged(store) && embedder.payloads == [] && embedder.index == None
    ensures old(store.indexFile).None? ==>
      && (ok <==> embed("test").Some? && AllEmbedded(embedder.edges, embed) && |embedder.edges| > 0)
      && (ok ==>
        && embedder.index.Some? && store.indexFile == embedder.index
        && |embedder.index.value| == |embedder.edges|
        && (forall i :: 0 <= i < |embedder.edges| ==> embedder.index.value[i] == embed(embedder.edges[i].sentence).value)
        && store.payloadFile == Some(embedder.payloads)
        && |embedder.payloads| == |embedder.edges|
        && (forall i :: 0 <= i < |embedder.edges| ==> embedder.payloads[i] == PayloadOf(embedder.edges[i], embedder.sent2cid)))
      && (!ok ==> unchanged(store))
  {
    embedder := new EdgeEmbedder(graphEdges, graphJson, parse);
    ok := true;
    if store.indexFile.None? {
      ok := embedder.BuildIndex(embed, store);
    }
  }
}
