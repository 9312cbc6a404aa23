/**
 * The sliding-window chunker of utils.py: the text is split into words, and
 * windows of `chunkSize` words are cut starting every `chunkSize - overlap`
 * words, each window joined back with single spaces.
 */
module Chunker {
  import opened Text

  /** How many windows `while start < n` visits when `start` advances by `step` from 0. */
  function NumChunks(n: int, step: nat): nat
    requires step > 0
    decreases n
  {
    if n <= 0 then 0 else 1 + NumChunks(n - step, step)
  }

  /** The words of window `k`: `words[k*step:k*step+size]`, clamped as a Python slice. */
  function Window(words: seq<string>, k: nat, size: nat, step: nat): seq<string>
  {
    var n := |words|;
    var lo := if k * step < n then k * step else n;
    var hi := if k * step + size < n then k * step + size else n;
    words[lo..hi]
  }

  /** The chunk list `chunk_text` returns, window `k` joined by single spaces at position `k`. */
  function Chunks(words: seq<string>, size: nat, step: nat): seq<string>
    requires step > 0
  {
    seq(NumChunks(|words|, step), k requires 0 <= k => JoinWith(" ", Window(words, k, size, step)))
  }

  /** `chunk_text(text, chunkSize, overlap)`. */
  method ChunkText(text: string, chunkSize: nat, overlap: int) returns (chunks: seq<string>)
    requires overlap < chunkSize || Words(text) == []
    ensures Words(text) == [] ==> chunks == []
    ensures overlap < chunkSize ==> chunks == Chunks(Words(text), chunkSize, chunkSize - overlap)
  {
    var words := Words(text);
    var step := chunkSize - overlap;
    chunks := [];
    var start := 0;
    while start < |words|
      invariant words != [] ==> step > 0
      invariant words == [] ==> chunks == []
      invariant 0 <= start && start == |chunks| * step
      invariant words != [] ==> NumChunks(|words|, step) == |chunks| + NumChunks(|words| - start, step)
      invariant words != [] ==>
        forall k :: 0 <= k < |chunks| ==> chunks[k] == JoinWith(" ", Window(words, k, chunkSize, step))
      decreases |words| - start
    {
      var end := start + chunkSize;
      var chunk := words[start..if end < |words| then end else |words|];
      assert chunk == Window(words, |chunks|, chunkSize, step);
      assert start + step == (|chunks| + 1) * step;
      chunks := chunks + [JoinWith(" ", chunk)];
      start := start + step;
    }
    if overlap < chunkSize && words != [] {
      assert |chunks| == NumChunks(|words|, step);
    }
  }

  /** Every window starts inside the word list, so no chunk is empty of words. */
  lemma {:induction false} WindowStartInRange(n: int, step: nat, k: nat)
    requires step > 0
    requires k < NumChunks(n, step)
    ensures k * step < n
    decreases k
  {
    if k > 0 {
      WindowStartInRange(n - step, step, k - 1);
      assert k * step == (k - 1) * step + step;
    }
  }

  /** A window that starts inside the word list belongs to the chunk list. */
  lemma {:induction false} StartInRangeIsWindow(n: int, step: nat, k: nat)
    requires step > 0
    requires k * step < n
    ensures k < NumChunks(n, step)
    decreases k
  {
    if k > 0 {
      assert (k - 1) * step == k * step - step;
      StartInRangeIsWindow(n - step, step, k - 1);
    }
  }

  /** The chunk count is the ceiling of `n / step`. */
  lemma {:induction false} ChunkCount(n: nat, step: nat)
    requires step > 0
    ensures n > 0 ==> (NumChunks(n, step) - 1) * step < n <= NumChunks(n, step) * step
    ensures NumChunks(n, step) == (n + step - 1) / step
    decreases n
  {
    var c := NumChunks(n, step);
    if n > step {
      ChunkCount(n - step, step);
      assert c * step == NumChunks(n - step, step) * step + step;
    }
    if n == 0 {
      DivUnique(step - 1, step, 0);
    } else {
      assert c * step == (c - 1) * step + step;
      DivUnique(n + step - 1, step, c);
    }
  }

  /** The quotient is the `q` with `q*d <= x < (q+1)*d`. */
  lemma DivUnique(x: int, d: int, q: int)
    requires d > 0
    requires q * d <= x < q * d + d
    ensures x / d == q
  {
    var q', r := x / d, x % d;
    assert x == q' * d + r && 0 <= r < d;
    if q' < q {
      MulMonotone(q', q - 1, d);
    } else if q' > q {
      MulMonotone(q + 1, q', d);
    }
  }

  lemma MulMonotone(a: int, b: int, d: int)
    requires a <= b && d >= 0
    ensures a * d <= b * d
  {
    assert b * d - a * d == (b - a) * d;
  }

  /** Each chunk splits back into exactly its window, so it has at most `size` words. */
  lemma ChunkWords(words: seq<string>, size: nat, step: nat, k: nat)
    requires step > 0
    requires forall i :: 0 <= i < |words| ==> IsWord(words[i])
    requires k < NumChunks(|words|, step)
    ensures Words(Chunks(words, size, step)[k]) == Window(words, k, size, step)
    ensures |Words(Chunks(words, size, step)[k])| <= size
  {
    WindowStartInRange(|words|, step, k);
    WordsOfJoin(Window(words, k, size, step));
  }

  /** With `overlap >= 0`, every word position lies in some window. */
  lemma Coverage(words: seq<string>, size: nat, step: nat, p: nat)
    requires 0 < step <= size
    requires p < |words|
    ensures exists k :: 0 <= k < NumChunks(|words|, step) && k * step <= p < k * step + size
  {
    var k := p / step;
    assert k * step <= p < k * step + step by {
      assert p == k * step + p % step;
    }
    StartInRangeIsWindow(|words|, step, k);
  }

  /** With `overlap >= 0`, consecutive windows overlap: what follows the first `step` words of window `k` starts window `k + 1`. */
  lemma ConsecutiveOverlap(words: seq<string>, size: nat, step: nat, k: nat)
    requires 0 < step <= size
    requires k + 1 < NumChunks(|words|, step)
    ensures |Window(words, k, size, step)| >= step
    ensures Window(words, k, size, step)[step..] <= Window(words, k + 1, size, step)
  {
    WindowStartInRange(|words|, step, k + 1);
    assert (k + 1) * step == k * step + step;
  }

}
