/** Splits device output into chunks of whole lines for the summariser. */
module LineChunks {
  import opened Basics

  /** A line ends at `p`: a carriage return followed by a newline is one break. */
  predicate LineEnd(content: string, p: nat, isBreak: char -> bool)
    requires p <= |content|
  {
    p == |content| || (p > 0 && isBreak(content[p - 1]) && !(content[p - 1] == '\r' && content[p] == '\n'))
  }

  /** Where the first `n` chunks end. */
  function EndOf(chunks: seq<string>, n: nat): nat
    requires n <= |chunks|
  {
    if n == 0 then 0 else EndOf(chunks, n - 1) + |chunks[n - 1]|
  }

  function Joined(chunks: seq<string>, n: nat): string
    requires n <= |chunks|
  {
    if n == 0 then "" else Joined(chunks, n - 1) + chunks[n - 1]
  }

  /** The part from `from` to `to` holds whole lines, and exceeds the limit only when it is a single line. */
  ghost predicate WholeLines(content: string, from: nat, to: nat, limit: int, isBreak: char -> bool) {
    && from < to <= |content| && LineEnd(content, to, isBreak)
    && (to - from > limit ==> forall p | from < p < to :: !LineEnd(content, p, isBreak))
  }

  /** Chunk `k` is the next stretch of whole lines. */
  ghost predicate ChunkAt(content: string, chunks: seq<string>, k: nat, limit: int, isBreak: char -> bool)
    requires k < |chunks|
  {
    && WholeLines(content, EndOf(chunks, k), EndOf(chunks, k + 1), limit, isBreak)
    && chunks[k] == content[EndOf(chunks, k)..EndOf(chunks, k + 1)]
  }

  /** Chunk `k` could not have taken the next line as well. */
  ghost predicate Full(content: string, chunks: seq<string>, k: nat, limit: int, isBreak: char -> bool)
    requires k < |chunks|
  {
    forall p | EndOf(chunks, k + 1) < p <= |content| :: LineEnd(content, p, isBreak) ==> p - EndOf(chunks, k) > limit
  }

  ghost predicate Chunked(content: string, chunks: seq<string>, limit: int, isBreak: char -> bool) {
    forall k :: 0 <= k < |chunks| ==> ChunkAt(content, chunks, k, limit, isBreak)
  }

  ghost predicate AllFull(content: string, chunks: seq<string>, n: nat, limit: int, isBreak: char -> bool)
    requires n <= |chunks|
  {
    forall k :: 0 <= k < n ==> Full(content, chunks, k, limit, isBreak)
  }

  lemma {:induction false} EndFrame(chunks: seq<string>, chunk: string, n: nat)
    requires n <= |chunks|
    ensures EndOf(chunks + [chunk], n) == EndOf(chunks, n)
  {
    if n > 0 {
      EndFrame(chunks, chunk, n - 1);
    }
  }

  lemma {:induction false} KeptChunk(content: string, chunks: seq<string>, chunk: string, k: nat, limit: int,
                                     isBreak: char -> bool)
    requires k < |chunks| && ChunkAt(content, chunks, k, limit, isBreak)
    ensures ChunkAt(content, chunks + [chunk], k, limit, isBreak)
  {
    EndFrame(chunks, chunk, k);
    EndFrame(chunks, chunk, k + 1);
    assert (chunks + [chunk])[k] == chunks[k];
  }

  lemma {:induction false} NewChunk(content: string, chunks: seq<string>, chunk: string, from: nat, to: nat, limit: int,
                                    isBreak: char -> bool)
    requires EndOf(chunks, |chunks|) == from && WholeLines(content, from, to, limit, isBreak) && chunk == content[from..to]
    ensures ChunkAt(content, chunks + [chunk], |chunks|, limit, isBreak) && EndOf(chunks + [chunk], |chunks| + 1) == to
  {
    EndFrame(chunks, chunk, |chunks|);
    assert (chunks + [chunk])[|chunks|] == chunk;
  }

  lemma {:induction false} OneMoreChunk(content: string, chunks: seq<string>, from: nat, to: nat, limit: int,
                                        isBreak: char -> bool)
    requires Chunked(content, chunks, limit, isBreak) && EndOf(chunks, |chunks|) == from
    requires WholeLines(content, from, to, limit, isBreak)
    ensures Chunked(content, chunks + [content[from..to]], limit, isBreak)
    ensures EndOf(chunks + [content[from..to]], |chunks| + 1) == to
  {
    var chunk := content[from..to];
    NewChunk(content, chunks, chunk, from, to, limit, isBreak);
    forall k | 0 <= k < |chunks| ensures ChunkAt(content, chunks + [chunk], k, limit, isBreak) {
      KeptChunk(content, chunks, chunk, k, limit, isBreak);
    }
  }

  lemma {:induction false} OneMoreFull(content: string, chunks: seq<string>, chunk: string, limit: int,
                                       isBreak: char -> bool)
    requires AllFull(content, chunks, |chunks|, limit, isBreak)
    ensures AllFull(content, chunks + [chunk], |chunks|, limit, isBreak)
  {
    forall k | 0 <= k < |chunks| ensures Full(content, chunks + [chunk], k, limit, isBreak) {
      EndFrame(chunks, chunk, k);
      EndFrame(chunks, chunk, k + 1);
      assert Full(content, chunks, k, limit, isBreak);
    }
  }

  /** Nothing is lost: the chunks put together again are the output. */
  lemma {:induction false} ChunksRoundTrip(content: string, chunks: seq<string>, limit: int, isBreak: char -> bool, n: nat)
    requires Chunked(content, chunks, limit, isBreak) && n <= |chunks|
    ensures EndOf(chunks, n) <= |content| && Joined(chunks, n) == content[..EndOf(chunks, n)]
  {
    if n > 0 {
      ChunksRoundTrip(content, chunks, limit, isBreak, n - 1);
      assert ChunkAt(content, chunks, n - 1, limit, isBreak);
    }
  }

  /** The end of the content, or right after a break; but not between a carriage return and its newline. */
  predicate EndsLine(content: string, p: int, isBreak: char -> bool) {
    || p == |content|
    || (0 < p < |content| && isBreak(content[p - 1]) && (content[p - 1] == '\r' ==> content[p] != '\n'))
  }

  /** Chunk `k` ends where a line ends. */
  predicate EndsWithLine(content: string, chunks: seq<string>, k: nat, isBreak: char -> bool)
    requires k < |chunks|
  {
    EndsLine(content, EndOf(chunks, k + 1), isBreak)
  }

  /** With the next line chunk `k` would be too long. */
  ghost predicate NoRoom(content: string, chunks: seq<string>, k: nat, limit: int, isBreak: char -> bool)
    requires k < |chunks|
  {
    forall p | EndOf(chunks, k + 1) < p <= |content| :: EndsLine(content, p, isBreak) ==> p - EndOf(chunks, k) > limit
  }

  /** Chunk `k` is a single line: no line ends inside it. */
  ghost predicate IsOneLine(content: string, chunks: seq<string>, k: nat, isBreak: char -> bool)
    requires k < |chunks|
  {
    forall p | EndOf(chunks, k) < p < EndOf(chunks, k + 1) :: !EndsLine(content, p, isBreak)
  }

  lemma {:induction false} InWords(content: string, chunks: seq<string>, limit: int, isBreak: char -> bool)
    requires Chunked(content, chunks, limit, isBreak) && AllFull(content, chunks, Max(0, |chunks| - 1), limit, isBreak)
    ensures forall k :: 0 <= k < |chunks| ==> EndsWithLine(content, chunks, k, isBreak)
    ensures forall k :: 0 <= k < |chunks| - 1 ==> NoRoom(content, chunks, k, limit, isBreak)
    ensures forall k :: 0 <= k < |chunks| ==> |chunks[k]| <= limit || IsOneLine(content, chunks, k, isBreak)
  {
    forall k | 0 <= k < |chunks|
      ensures EndsWithLine(content, chunks, k, isBreak)
      ensures |chunks[k]| <= limit || IsOneLine(content, chunks, k, isBreak)
    {
      assert ChunkAt(content, chunks, k, limit, isBreak);
      if |chunks[k]| > limit {
        forall p | EndOf(chunks, k) < p < EndOf(chunks, k + 1) ensures !EndsLine(content, p, isBreak) {
          assert !LineEnd(content, p, isBreak);
        }
      }
    }
    forall k | 0 <= k < |chunks| - 1 ensures NoRoom(content, chunks, k, limit, isBreak) {
      assert ChunkAt(content, chunks, k, limit, isBreak) && Full(content, chunks, k, limit, isBreak);
      forall p | EndOf(chunks, k + 1) < p <= |content| && EndsLine(content, p, isBreak) ensures p - EndOf(chunks, k) > limit {
        assert LineEnd(content, p, isBreak);
      }
    }
  }

  method NextLineEnd(content: string, from: nat, isBreak: char -> bool) returns (end: nat)
    requires from < |content|
    ensures from < end <= |content| && LineEnd(content, end, isBreak)
    ensures forall p | from < p < end :: !LineEnd(content, p, isBreak)
  {
    end := from + 1;
    while !LineEnd(content, end, isBreak)
      invariant from < end <= |content|
      invariant forall p | from < p < end :: !LineEnd(content, p, isBreak)
      decreases |content| - end
    {
      end := end + 1;
    }
  }

  /** Whole lines, greedily, and nothing lost; an empty list for empty output. */
  method SplitConfigLines(content: string, limit: int, isBreak: char -> bool) returns (r: Result<seq<string>, string>)
    ensures r.Err? <==> content != "" && limit <= 0
    ensures r.Ok? ==> Chunked(content, r.value, limit, isBreak) && Joined(r.value, |r.value|) == content
    ensures r.Ok? ==> AllFull(content, r.value, Max(0, |r.value| - 1), limit, isBreak)
    ensures r.Ok? ==> forall k :: 0 <= k < |r.value| ==> EndsWithLine(content, r.value, k, isBreak)
    ensures r.Ok? ==> forall k :: 0 <= k < |r.value| - 1 ==> NoRoom(content, r.value, k, limit, isBreak)
    ensures r.Ok? ==> forall k :: 0 <= k < |r.value| ==> |r.value[k]| <= limit || IsOneLine(content, r.value, k, isBreak)
  {
    if content == "" {
      return Ok([]);
    }
    if limit <= 0 {
      return Err("limit must be positive");
    }
    var chunks: seq<string> := [];
    var start, end := 0, 0;
    while end < |content|
      invariant 0 <= start <= end <= |content| && (end > 0 ==> WholeLines(content, start, end, limit, isBreak))
      invariant Chunked(content, chunks, limit, isBreak) && EndOf(chunks, |chunks|) == start
      invariant AllFull(content, chunks, |chunks|, limit, isBreak)
    {
      var next := NextLineEnd(content, end, isBreak);
      if end > start && next - start > limit {
        chunks := Append(content, chunks, start, end, next, limit, isBreak);
        start := end;
      }
      end := next;
    }
    OneMoreChunk(content, chunks, start, end, limit, isBreak);
    OneMoreFull(content, chunks, content[start..end], limit, isBreak);
    chunks := chunks + [content[start..end]];
    ChunksRoundTrip(content, chunks, limit, isBreak, |chunks|);
    assert content[..|content|] == content;
    InWords(content, chunks, limit, isBreak);
    return Ok(chunks);
  }

  /** Closes the current chunk before the line that ends at `next`. */
  method Append(content: string, chunks: seq<string>, start: nat, end: nat, ghost next: nat, limit: int, isBreak: char -> bool)
    returns (more: seq<string>)
    requires Chunked(content, chunks, limit, isBreak) && EndOf(chunks, |chunks|) == start
    requires AllFull(content, chunks, |chunks|, limit, isBreak)
    requires WholeLines(content, start, end, limit, isBreak) && end < next <= |content| && next - start > limit
    requires forall p | end < p < next :: !LineEnd(content, p, isBreak)
    ensures more == chunks + [content[start..end]]
    ensures Chunked(content, more, limit, isBreak) && EndOf(more, |more|) == end && AllFull(content, more, |more|, limit, isBreak)
  {
    more := chunks + [content[start..end]];
    OneMoreChunk(content, chunks, start, end, limit, isBreak);
    OneMoreFull(content, chunks, content[start..end], limit, isBreak);
    EndFrame(chunks, content[start..end], |chunks|);
    assert Full(content, more, |chunks|, limit, isBreak);
  }
}
