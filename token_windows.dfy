/** The token-window arithmetic shared by the three copies of `chunk_text`: a token sequence
    is cut into windows of `maxTokens` tokens whose starts advance by `maxTokens - overlap`.
    Token ids are integers; turning a window back into text is the tokenizer's business. */
module TokenWindows {

  type Token = int

  function Clamp(x: int, n: nat): (r: nat)
    ensures r <= n
    ensures 0 <= x <= n ==> r == x
  {
    if x < 0 then 0 else if x > n then n else x
  }

  /** Python's slice `s[lo:hi]` with step 1: a negative bound counts from the end, then both
      bounds are clamped to the sequence. */
  function Slice(s: seq<Token>, lo: int, hi: int): (r: seq<Token>)
    ensures 0 <= lo <= hi ==> |r| <= hi - lo
    ensures 0 <= lo <= hi <= |s| ==> r == s[lo..hi]
    ensures 0 <= lo <= |s| <= hi ==> r == s[lo..]
  {
    var a := Clamp(if lo < 0 then lo + |s| else lo, |s|);
    var b := Clamp(if hi < 0 then hi + |s| else hi, |s|);
    if a < b then s[a..b] else []
  }

  /** How far the window start moves per chunk. */
  function Step(maxTokens: int, overlap: int): (step: nat)
    requires overlap < maxTokens
    ensures step > 0
  {
    maxTokens - overlap
  }

  /** Chunk `k`: the tokens from offset `k * step` up to `maxTokens` tokens further. */
  function Window(tokens: seq<Token>, k: nat, maxTokens: int, overlap: int): seq<Token>
    requires overlap < maxTokens
  {
    var start := k * Step(maxTokens, overlap);
    Slice(tokens, start, start + maxTokens)
  }

  /** Number of chunks for `n` tokens: one per step until the start passes the end. */
  function WindowCount(n: int, step: nat): nat
    requires step > 0
    decreases n
  {
    if n <= 0 then 0 else 1 + WindowCount(n - step, step)
  }

  /** The two ways the scripts move the start: `start = end - overlap` with
      `end = start + max_tokens`, and `start += max_tokens - overlap`. */
  function NextStartFromEnd(start: int, maxTokens: int, overlap: int): int {
    var end := start + maxTokens;
    end - overlap
  }

  function NextStartByStep(start: int, maxTokens: int, overlap: int): int {
    start + (maxTokens - overlap)
  }

  /** Both updates move the start by the same amount, so the two loops visit the same starts. */
  lemma UpdatesAgree(start: int, maxTokens: int, overlap: int)
    ensures NextStartFromEnd(start, maxTokens, overlap) == NextStartByStep(start, maxTokens, overlap)
    ensures NextStartByStep(start, maxTokens, overlap) - start == maxTokens - overlap
  {
  }

  /** The start after `k` iterations of either loop, whatever the parameters. */
  function StartAfter(k: nat, maxTokens: int, overlap: int): int {
    if k == 0 then 0 else NextStartByStep(StartAfter(k - 1, maxTokens, overlap), maxTokens, overlap)
  }

  /** With `overlap < maxTokens` the `k`-th chunk starts at `k * (maxTokens - overlap)`. */
  lemma {:induction false} StartAfterIsMultiple(k: nat, maxTokens: int, overlap: int)
    requires overlap < maxTokens
    ensures StartAfter(k, maxTokens, overlap) == k * Step(maxTokens, overlap)
  {
    if k > 0 {
      StartAfterIsMultiple(k - 1, maxTokens, overlap);
      assert k * Step(maxTokens, overlap) == (k - 1) * Step(maxTokens, overlap) + Step(maxTokens, overlap);
    }
  }

  /** Without `overlap < maxTokens` the start never moves forward, so on a non-empty token
      sequence the guard `start < len(tokens)` holds after every iteration: the loop does
      not terminate. */
  lemma {:induction false} NoProgressWithoutGap(k: nat, maxTokens: int, overlap: int, n: nat)
    requires maxTokens <= overlap
    requires n > 0
    ensures StartAfter(k, maxTokens, overlap) <= 0
    ensures StartAfter(k, maxTokens, overlap) < n
  {
    if k > 0 {
      NoProgressWithoutGap(k - 1, maxTokens, overlap, n);
    }
  }

  /** The chunk count is the ceiling of `n / step`. */
  lemma {:induction false} WindowCountIsCeiling(n: nat, step: nat)
    requires step > 0
    ensures WindowCount(n, step) == (n + step - 1) / step
    decreases n
  {
    if n == 0 {
      assert (step - 1) / step == 0;
    } else if n <= step {
      assert WindowCount(n - step, step) == 0;
      assert step <= n + step - 1 < 2 * step;
      DivInRange(n + step - 1, step, 1);
    } else {
      WindowCountIsCeiling(n - step, step);
      var q := (n - 1) / step;
      assert (n - step + step - 1) / step == q;
      DivShift(n - 1, step);
    }
  }

  lemma DivInRange(x: int, d: nat, q: int)
    requires d > 0
    requires q * d <= x < (q + 1) * d
    ensures x / d == q
  {
    var r := x / d;
    DivBoundsInt(x, d);
    MulCancel(r, q, d);
    MulCancel(q, r, d);
  }

  lemma DivBoundsInt(x: int, d: nat)
    requires d > 0
    ensures (x / d) * d <= x < (x / d) * d + d
  {
  }

  /** `a * d < b * d + d` forces `a <= b`. */
  lemma MulCancel(a: int, b: int, d: nat)
    requires d > 0
    requires a * d < b * d + d
    ensures a <= b
  {
    if a > b {
      MulMonotoneInt(b + 1, a, d);
    }
  }

  lemma MulMonotoneInt(a: int, b: int, d: nat)
    requires a <= b
    ensures a * d <= b * d
  {
  }

  lemma DivShift(x: nat, d: nat)
    requires d > 0
    ensures (x + d) / d == x / d + 1
  {
    var q := x / d;
    assert q * d <= x < (q + 1) * d;
    DivInRange(x + d, d, q + 1);
  }

  /** The chunk whose first `step` tokens contain position `p`. */
  lemma {:induction false} WindowOf(p: nat, step: nat) returns (k: nat)
    requires step > 0
    ensures k * step <= p < k * step + step
    decreases p
  {
    if p < step {
      k := 0;
    } else {
      var j := WindowOf(p - step, step);
      k := j + 1;
      assert k * step == j * step + step;
    }
  }

  lemma MulMonotone(a: nat, b: nat, d: nat)
    requires a <= b
    ensures a * d <= b * d
  {
  }

  /** The chunk count is the least `c` with `c * step >= n`; it is 0 exactly for empty input. */
  lemma {:induction false} WindowCountBounds(n: nat, step: nat)
    requires step > 0
    ensures WindowCount(n, step) * step >= n
    ensures WindowCount(n, step) > 0 ==> (WindowCount(n, step) - 1) * step < n
    ensures WindowCount(n, step) == 0 <==> n == 0
    decreases n
  {
    if n > step {
      WindowCountBounds(n - step, step);
      var c := WindowCount(n - step, step);
      assert (c + 1) * step == c * step + step;
      assert c * step == (c - 1) * step + step;
    } else if n > 0 {
      assert WindowCount(n - step, step) == 0;
    }
  }

  /** Every chunk holds at most `maxTokens` tokens. */
  lemma WindowWithinBudget(tokens: seq<Token>, k: nat, maxTokens: int, overlap: int)
    requires 0 <= maxTokens && overlap < maxTokens
    ensures |Window(tokens, k, maxTokens, overlap)| <= maxTokens
  {
    var step := Step(maxTokens, overlap);
    assert k * step >= 0;
  }

  /** Token position `p` appears in chunk `k`, at offset `p - k * step`. */
  ghost predicate InWindow(tokens: seq<Token>, k: nat, maxTokens: int, overlap: int, p: int)
    requires overlap < maxTokens
  {
    var w := Window(tokens, k, maxTokens, overlap);
    var start := k * Step(maxTokens, overlap);
    start <= p < start + |w| && w[p - start] == tokens[p]
  }

  /** Chunk `k`, when it starts inside the sequence, is the run of tokens from its start up to
      `maxTokens` tokens further or the end. */
  lemma WindowContents(tokens: seq<Token>, k: nat, maxTokens: int, overlap: int)
    requires 0 <= overlap < maxTokens
    requires k * Step(maxTokens, overlap) <= |tokens|
    ensures var start := k * Step(maxTokens, overlap);
      var end := if start + maxTokens <= |tokens| then start + maxTokens else |tokens|;
      Window(tokens, k, maxTokens, overlap) == tokens[start..end]
  {
  }

  /** Full coverage: with `0 <= overlap < maxTokens` every token position lies in some chunk. */
  lemma Coverage(tokens: seq<Token>, maxTokens: int, overlap: int, p: nat)
    requires 0 <= overlap < maxTokens
    requires p < |tokens|
    ensures exists k :: 0 <= k < WindowCount(|tokens|, Step(maxTokens, overlap))
                        && InWindow(tokens, k, maxTokens, overlap, p)
  {
    var step := Step(maxTokens, overlap);
    var n := |tokens|;
    var k := WindowOf(p, step);
    var start := k * step;
    WindowCountBounds(n, step);
    var c := WindowCount(n, step);
    if k >= c {
      MulMonotone(c, k, step);
    }
    WindowContents(tokens, k, maxTokens, overlap);
    assert InWindow(tokens, k, maxTokens, overlap, p);
  }

  /** Consecutive chunks share `overlap` tokens: when chunk `k` is full, its last `overlap`
      tokens are the first `overlap` tokens of chunk `k + 1`. */
  lemma OverlapRepeated(tokens: seq<Token>, k: nat, maxTokens: int, overlap: int)
    requires 0 <= overlap < maxTokens
    requires (k + 1) * Step(maxTokens, overlap) < |tokens|
    requires k * Step(maxTokens, overlap) + maxTokens <= |tokens|
    ensures |Window(tokens, k, maxTokens, overlap)| == maxTokens
    ensures |Window(tokens, k + 1, maxTokens, overlap)| >= overlap
    ensures Window(tokens, k, maxTokens, overlap)[Step(maxTokens, overlap)..]
         == Window(tokens, k + 1, maxTokens, overlap)[..overlap]
  {
    var step := Step(maxTokens, overlap);
    var s0 := k * step;
    MulSucc(k, step);
    assert Window(tokens, k, maxTokens, overlap) == Slice(tokens, s0, s0 + maxTokens);
    assert Window(tokens, k + 1, maxTokens, overlap) == Slice(tokens, s0 + step, s0 + step + maxTokens);
    SharedTokens(tokens, s0, maxTokens, overlap);
  }

  /** The overlap on plain offsets: the window at `s0` and the one a step later. */
  lemma SharedTokens(tokens: seq<Token>, s0: nat, maxTokens: int, overlap: int)
    requires 0 <= overlap < maxTokens
    requires s0 + maxTokens <= |tokens|
    requires s0 + (maxTokens - overlap) < |tokens|
    ensures var step := maxTokens - overlap;
      var w0 := Slice(tokens, s0, s0 + maxTokens);
      var w1 := Slice(tokens, s0 + step, s0 + step + maxTokens);
      && |w0| == maxTokens && |w1| >= overlap
      && w0[step..] == w1[..overlap]
  {
    var step := maxTokens - overlap;
    var s1 := s0 + step;
    var shared := s0 + maxTokens;
    var e1 := if s1 + maxTokens <= |tokens| then s1 + maxTokens else |tokens|;
    var w0 := Slice(tokens, s0, shared);
    var w1 := Slice(tokens, s1, s1 + maxTokens);
    assert w0 == tokens[s0..shared];
    assert w1 == tokens[s1..e1];
    SliceSlices(tokens, s0, shared, step);
    SliceSlices(tokens, s1, e1, overlap);
  }

  lemma MulSucc(k: nat, d: nat)
    ensures 0 <= k * d
    ensures (k + 1) * d == k * d + d
  {
  }

  /** Helper: the tail of a slice, and its head, are slices of the whole. */
  lemma SliceSlices(tokens: seq<Token>, lo: nat, hi: nat, m: nat)
    requires lo <= hi <= |tokens| && m <= hi - lo
    ensures tokens[lo..hi][m..] == tokens[lo + m..hi]
    ensures tokens[lo..hi][..m] == tokens[lo..lo + m]
  {
  }
}
