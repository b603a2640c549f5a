/** Splitting a document into overlapping chunks for the knowledge base. */
module KnowledgeChunks {
  import opened Common

  const CHUNK_SIZE_CHARS: nat := 1500
  const CHUNK_OVERLAP_CHARS: nat := 200
  const STRIDE: nat := CHUNK_SIZE_CHARS - CHUNK_OVERLAP_CHARS

  function ChunkEnd(text: string, k: nat): nat {
    Min(STRIDE * k + CHUNK_SIZE_CHARS, |text|)
  }

  /** The chunks start every 1300 characters, and every start inside the text has its chunk. */
  ghost predicate ChunksOf(text: string, chunks: seq<string>) {
    && STRIDE * (|chunks| - 1) < |text| <= STRIDE * |chunks|
    && forall k :: 0 <= k < |chunks| ==> ChunkAt(text, chunks[k], k)
  }

  predicate ChunkAt(text: string, chunk: string, k: nat) {
    STRIDE * k < |text| && chunk == text[STRIDE * k..ChunkEnd(text, k)]
  }

  method ChunkText(text: string) returns (chunks: seq<string>)
    ensures ChunksOf(text, chunks)
  {
    chunks := [];
    var start := 0;
    while start < |text|
      invariant start == STRIDE * |chunks| && start < |text| + STRIDE
      invariant forall k :: 0 <= k < |chunks| ==> ChunkAt(text, chunks[k], k)
    {
      var end := start + CHUNK_SIZE_CHARS;
      chunks := chunks + [text[start..Min(end, |text|)]];
      start := end - CHUNK_OVERLAP_CHARS;
    }
  }

  lemma NumberOfChunks(text: string, chunks: seq<string>)
    requires ChunksOf(text, chunks)
    ensures |chunks| == (|text| + 1299) / 1300
  {
  }

  /** The text of the first `n` chunks without what the next chunk repeats. */
  function Joined(chunks: seq<string>, n: nat): string
    requires n <= |chunks|
  {
    if n == 0 then "" else Joined(chunks, n - 1) + chunks[n - 1][..Min(STRIDE, |chunks[n - 1]|)]
  }

  lemma TakeMore(text: string, a: nat, b: nat, c: nat)
    requires a <= b <= c <= |text|
    ensures text[..b] == text[..a] + text[a..c][..b - a]
  {
  }

  lemma {:induction false} JoinedPrefix(text: string, chunks: seq<string>, n: nat)
    requires ChunksOf(text, chunks) && n <= |chunks|
    ensures Joined(chunks, n) == text[..Min(STRIDE * n, |text|)]
  {
    if n > 0 {
      JoinedPrefix(text, chunks, n - 1);
      TakeMore(text, STRIDE * (n - 1), Min(STRIDE * n, |text|), ChunkEnd(text, n - 1));
    }
  }

  /** Nothing is lost: without their overlaps the chunks are the text. */
  lemma ChunksJoinToText(text: string, chunks: seq<string>)
    requires ChunksOf(text, chunks)
    ensures Joined(chunks, |chunks|) == text
  {
    JoinedPrefix(text, chunks, |chunks|);
  }

  ghost predicate InChunk(text: string, chunks: seq<string>, k: nat, i: nat, j: nat) {
    k < |chunks| && STRIDE * k <= i <= j <= STRIDE * k + |chunks[k]|
  }

  /** A passage of the text is inside some chunk exactly when it ends inside the last chunk that starts at
      or before its first character. */
  lemma PassageInOneChunkExactlyWhen(text: string, chunks: seq<string>, i: nat, j: nat)
    requires ChunksOf(text, chunks) && i < j <= |text|
    ensures (exists k :: InChunk(text, chunks, k, i, j)) <==> i % 1300 + (j - i) <= 1500
  {
    var k := i / STRIDE;
    if i % STRIDE + (j - i) <= CHUNK_SIZE_CHARS {
      assert InChunk(text, chunks, k, i, j);
    }
  }

  lemma SliceOfSlice(text: string, a: nat, e: nat, i: nat, j: nat)
    requires a <= i <= j <= e <= |text|
    ensures text[a..e][i - a..j - a] == text[i..j]
  {
    var inner, outer := text[a..e][i - a..j - a], text[i..j];
    forall n | 0 <= n < |outer| ensures inner[n] == outer[n] {
      assert inner[n] == text[a..e][i - a + n];
    }
  }

  /** Passages of up to 201 characters are never cut. */
  lemma ShortPassagesAreNotCut(text: string, chunks: seq<string>, i: nat, j: nat) returns (k: nat)
    requires ChunksOf(text, chunks) && i < j <= |text| && j - i <= 201
    ensures InChunk(text, chunks, k, i, j)
    ensures chunks[k][i - STRIDE * k..j - STRIDE * k] == text[i..j]
  {
    k := i / STRIDE;
    assert ChunkAt(text, chunks[k], k);
    SliceOfSlice(text, STRIDE * k, ChunkEnd(text, k), i, j);
  }

  /** The bound is sharp: every text of more than 1500 characters has a passage of 202 that is cut. */
  lemma LongerPassagesCanBeCut(text: string, chunks: seq<string>, k: nat)
    requires ChunksOf(text, chunks) && |text| > 1500
    ensures !InChunk(text, chunks, k, 1299, 1299 + 202)
  {
    PassageInOneChunkExactlyWhen(text, chunks, 1299, 1501);
  }

  /** The last chunk says nothing new exactly when it is no longer than the overlap. */
  lemma LastChunkRepeatsExactlyWhen(text: string, chunks: seq<string>)
    requires ChunksOf(text, chunks) && |chunks| >= 2
    ensures
      var last, before := chunks[|chunks| - 1], chunks[|chunks| - 2];
      && (|last| <= CHUNK_OVERLAP_CHARS <==> ChunkEnd(text, |chunks| - 2) == |text|)
      && (|last| <= CHUNK_OVERLAP_CHARS ==> last == before[|before| - |last|..])
  {
    var k := |chunks| - 1;
    var last, before := chunks[k], chunks[k - 1];
    assert |last| == |text| - STRIDE * k;
    if |last| <= CHUNK_OVERLAP_CHARS {
      assert before == text[STRIDE * (k - 1)..|text|];
      assert before[|before| - |last|..] == text[STRIDE * k..|text|];
    }
  }
}
