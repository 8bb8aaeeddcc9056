/** save_chunks.py: cut the corpus into token windows and write one line per chunk. */
module SaveChunks {
  import opened Text
  import opened TokenWindows

  /** `chunk_text` in its second form, `start += max_tokens - overlap`. It produces the same
      chunks as `GraphConstruction.ChunkText`: both are specified by `TokenWindows.Window`. */
  method ChunkText(tokens: seq<Token>, maxTokens: int, overlap: int, decode: seq<Token> -> string)
    returns (chunks: seq<string>)
    requires |tokens| == 0 || overlap < maxTokens
    ensures |tokens| == 0 ==> chunks == []
    ensures overlap < maxTokens ==> |chunks| == WindowCount(|tokens|, Step(maxTokens, overlap))
    ensures overlap < maxTokens ==>
      forall k :: 0 <= k < |chunks| ==> chunks[k] == decode(Window(tokens, k, maxTokens, overlap))
  {
    chunks := [];
    var start := 0;
    while start < |tokens|
      invariant overlap >= maxTokens ==> start == 0 && chunks == []
      invariant overlap < maxTokens ==> start == |chunks| * Step(maxTokens, overlap)
      invariant overlap < maxTokens ==>
        |chunks| + WindowCount(|tokens| - start, Step(maxTokens, overlap)) == WindowCount(|tokens|, Step(maxTokens, overlap))
      invariant overlap < maxTokens ==>
        forall k :: 0 <= k < |chunks| ==> chunks[k] == decode(Window(tokens, k, maxTokens, overlap))
      decreases |tokens| - start
    {
      var step := Step(maxTokens, overlap);
      var chunkTokens := Slice(tokens, start, start + maxTokens);
      assert chunkTokens == Window(tokens, |chunks|, maxTokens, overlap);
      chunks := chunks + [decode(chunkTokens)];
      start := start + (maxTokens - overlap);
      assert start == |chunks| * step by {
        assert |chunks| * step == (|chunks| - 1) * step + step;
      }
    }
  }

  /** `ch.replace("\n", " ").strip()`: the line written for one chunk. */
  function Normalize(chunk: string): (line: string)
    ensures '\n' !in line
    ensures line == [] || (!IsSpace(line[0]) && !IsSpace(line[|line| - 1]))
  {
    StripKeepsOut(ReplaceChar(chunk, '\n', ' '), '\n');
    Strip(ReplaceChar(chunk, '\n', ' '))
  }

  /** The line bodies, in chunk order. */
  function Lines(chunks: seq<string>): (lines: seq<string>)
    ensures |lines| == |chunks|
    ensures forall k :: 0 <= k < |chunks| ==> lines[k] == Normalize(chunks[k]) && '\n' !in lines[k]
  {
    seq(|chunks|, k requires 0 <= k < |chunks| => Normalize(chunks[k]))
  }

  /** The file holds each line followed by "\n". */
  function FileContent(lines: seq<string>): string
    decreases |lines|
  {
    if |lines| == 0 then "" else lines[0] + "\n" + FileContent(lines[1..])
  }

  lemma {:induction false} FileContentAppend(lines: seq<string>, line: string)
    ensures FileContent(lines + [line]) == FileContent(lines) + line + "\n"
    decreases |lines|
  {
    if |lines| > 0 {
      assert (lines + [line])[1..] == lines[1..] + [line];
      FileContentAppend(lines[1..], line);
    } else {
      assert FileContent([line]) == line + "\n" + FileContent([]);
    }
  }

  /** The output loop: `f.write(ch.replace("\n", " ").strip() + "\n")` for every chunk. */
  method WriteChunks(chunks: seq<string>) returns (content: string)
    ensures content == FileContent(Lines(chunks))
  {
    content := "";
    var k := 0;
    while k < |chunks|
      invariant 0 <= k <= |chunks|
      invariant content == FileContent(Lines(chunks[..k]))
    {
      var line := Normalize(chunks[k]);
      LinesStep(chunks, k);
      FileContentAppend(Lines(chunks[..k]), line);
      content := content + line + "\n";
      k := k + 1;
    }
    assert chunks[..|chunks|] == chunks;
  }

  lemma LinesStep(chunks: seq<string>, k: nat)
    requires k < |chunks|
    ensures Lines(chunks[..k + 1]) == Lines(chunks[..k]) + [Normalize(chunks[k])]
  {
    var a := Lines(chunks[..k + 1]);
    var b := Lines(chunks[..k]) + [Normalize(chunks[k])];
    forall j | 0 <= j < k + 1 ensures a[j] == b[j] {
      assert chunks[..k + 1][j] == chunks[j];
      if j < k {
        assert chunks[..k][j] == chunks[j];
      }
    }
  }

  lemma {:induction false} SplitAfterLine(line: string, rest: string)
    requires '\n' !in line
    ensures Split(line + "\n" + rest, '\n') == [line] + Split(rest, '\n')
    decreases |line|
  {
    if |line| == 0 {
      assert line + "\n" + rest == ['\n'] + rest;
      assert (['\n'] + rest)[1..] == rest;
    } else {
      var s := line + "\n" + rest;
      assert s[1..] == line[1..] + "\n" + rest;
      SplitAfterLine(line[1..], rest);
      assert [line[0]] + line[1..] == line;
    }
  }

  /** The written file has one newline-terminated line per chunk, in chunk order: splitting it
      on "\n" gives the line bodies and the empty remainder after the last newline. */
  lemma {:induction false} OneLinePerChunk(lines: seq<string>)
    requires forall k :: 0 <= k < |lines| ==> '\n' !in lines[k]
    ensures Split(FileContent(lines), '\n') == lines + [""]
    decreases |lines|
  {
    if |lines| > 0 {
      OneLinePerChunk(lines[1..]);
      SplitAfterLine(lines[0], FileContent(lines[1..]));
      assert lines == [lines[0]] + lines[1..];
    }
  }

  /** Line `k` of the saved file is chunk `k` with newlines turned into spaces and the ends
      stripped, and there is exactly one line per chunk. */
  lemma SavedLines(chunks: seq<string>)
    ensures Split(FileContent(Lines(chunks)), '\n') == Lines(chunks) + [""]
  {
    OneLinePerChunk(Lines(chunks));
  }
}
