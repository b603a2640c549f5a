/** Splitting a long text before it is embedded: by tokens, or by characters when no tokenizer is at hand. */
module EmbeddingChunks {
  import opened Common

  function Concat<T>(parts: seq<seq<T>>): seq<T> {
    if parts == [] then [] else Concat(parts[..|parts| - 1]) + parts[|parts| - 1]
  }

  // ---- By tokens --------------------------------------------------------------------------------

  const MAX_TOKENS: nat := 8191

  function ChunkSize(overlap: int): nat {
    if MAX_TOKENS - overlap <= 0 then MAX_TOKENS else MAX_TOKENS - overlap
  }

  /** Chunks of `size` tokens that put together are the text; only the last may be shorter. */
  ghost predicate Partition(tokens: seq<int>, chunks: seq<seq<int>>, size: nat) {
    && Concat(chunks) == tokens
    && (forall k :: 0 <= k < |chunks| - 1 ==> |chunks[k]| == size)
    && (chunks != [] ==> 0 < |chunks[|chunks| - 1]| <= size)
  }

  datatype Tokenizer = Tokenizer(encode: string -> seq<int>, decode: seq<int> -> string)

  method ChunkTokens(text: string, tokenizer: Tokenizer, overlap: int) returns (chunks: seq<string>)
    ensures |tokenizer.encode(text)| <= MAX_TOKENS ==> chunks == [text]
    ensures |tokenizer.encode(text)| > MAX_TOKENS ==>
              exists parts ::
                Partition(tokenizer.encode(text), parts, if overlap < 8191 then 8191 - overlap else 8191)
                && Decoded(tokenizer, chunks, parts)
  {
    var tokens := tokenizer.encode(text);
    if |tokens| <= MAX_TOKENS {
      return [text];
    }
    var chunkSize := MAX_TOKENS - overlap;
    if chunkSize <= 0 {
      chunkSize := MAX_TOKENS;
    }
    chunks := [];
    ghost var parts: seq<seq<int>> := [];
    var start := 0;
    while start < |tokens|
      invariant 0 <= start
      invariant Partition(tokens[..Min(start, |tokens|)], parts, chunkSize)
      invariant start < |tokens| ==> forall k :: 0 <= k < |parts| ==> |parts[k]| == chunkSize
      invariant Decoded(tokenizer, chunks, parts)
    {
      var end := Min(start + chunkSize, |tokens|);
      var chunkTokens := tokens[start..end];
      assert tokens[..end] == tokens[..start] + chunkTokens;
      chunks, parts := chunks + [tokenizer.decode(chunkTokens)], parts + [chunkTokens];
      start := start + chunkSize;
    }
    assert tokens[..|tokens|] == tokens;
  }

  predicate Decoded(tokenizer: Tokenizer, chunks: seq<string>, parts: seq<seq<int>>) {
    |chunks| == |parts| && forall k :: 0 <= k < |parts| ==> chunks[k] == tokenizer.decode(parts[k])
  }

  /** Decoding splits before part `k`: no character is cut there. */
  predicate SplitsAt(tokenizer: Tokenizer, parts: seq<seq<int>>, k: nat)
    requires k < |parts|
  {
    tokenizer.decode(Concat(parts[..k + 1])) == tokenizer.decode(Concat(parts[..k])) + tokenizer.decode(parts[k])
  }

  /** The chunks so far are the text of the tokens so far. */
  predicate JoinedAt(tokenizer: Tokenizer, chunks: seq<string>, parts: seq<seq<int>>, n: nat)
    requires n <= |chunks| == |parts|
  {
    Concat(chunks[..n]) == tokenizer.decode(Concat(parts[..n]))
  }

  lemma JoinOneMore(tokenizer: Tokenizer, chunks: seq<string>, parts: seq<seq<int>>, n: nat)
    requires Decoded(tokenizer, chunks, parts) && n < |parts| && JoinedAt(tokenizer, chunks, parts, n)
    ensures JoinedAt(tokenizer, chunks, parts, n + 1) <==> SplitsAt(tokenizer, parts, n)
  {
    assert chunks[..n + 1][..n] == chunks[..n];
  }

  lemma {:induction false} JoinedUpTo(tokenizer: Tokenizer, chunks: seq<string>, parts: seq<seq<int>>, n: nat)
    requires tokenizer.decode([]) == "" && Decoded(tokenizer, chunks, parts) && n <= |parts|
    requires forall k :: 0 <= k < n ==> SplitsAt(tokenizer, parts, k)
    ensures JoinedAt(tokenizer, chunks, parts, n)
  {
    if n > 0 {
      JoinedUpTo(tokenizer, chunks, parts, n - 1);
      JoinOneMore(tokenizer, chunks, parts, n - 1);
    }
  }

  /** The chunks stay the text of the tokens so far, border by border, exactly when decoding splits at every
      border between them. */
  lemma ChunksJoinExactlyWhen(tokenizer: Tokenizer, chunks: seq<string>, parts: seq<seq<int>>)
    requires tokenizer.decode([]) == "" && Decoded(tokenizer, chunks, parts)
    ensures (forall n :: 0 <= n <= |parts| ==> JoinedAt(tokenizer, chunks, parts, n))
            <==> (forall k :: 0 <= k < |parts| ==> SplitsAt(tokenizer, parts, k))
  {
    if forall k :: 0 <= k < |parts| ==> SplitsAt(tokenizer, parts, k) {
      forall n | 0 <= n <= |parts| ensures JoinedAt(tokenizer, chunks, parts, n) {
        JoinedUpTo(tokenizer, chunks, parts, n);
      }
    }
    if forall n :: 0 <= n <= |parts| ==> JoinedAt(tokenizer, chunks, parts, n) {
      forall k | 0 <= k < |parts| ensures SplitsAt(tokenizer, parts, k) {
        assert JoinedAt(tokenizer, chunks, parts, k) && JoinedAt(tokenizer, chunks, parts, k + 1);
        JoinOneMore(tokenizer, chunks, parts, k);
      }
    }
  }

  /** With a tokenizer that reads back what it wrote, and no character cut at a border, the chunks put
      together are the text. */
  lemma TokenChunksJoinToText(text: string, tokenizer: Tokenizer, chunks: seq<string>, parts: seq<seq<int>>, size: nat)
    requires tokenizer.decode([]) == "" && tokenizer.decode(tokenizer.encode(text)) == text
    requires Partition(tokenizer.encode(text), parts, size) && Decoded(tokenizer, chunks, parts)
    requires forall k :: 0 <= k < |parts| ==> SplitsAt(tokenizer, parts, k)
    ensures Concat(chunks) == text
  {
    JoinedUpTo(tokenizer, chunks, parts, |parts|);
    assert chunks[..|parts|] == chunks && parts[..|parts|] == parts;
  }

  /** The chunks respect the token limit of the model exactly when the overlap is not negative or the text
      is short. */
  lemma WithinLimitExactlyWhen(tokens: seq<int>, chunks: seq<seq<int>>, overlap: int)
    requires |tokens| <= MAX_TOKENS ==> chunks == [tokens]
    requires |tokens| > MAX_TOKENS ==> Partition(tokens, chunks, ChunkSize(overlap))
    ensures (forall k :: 0 <= k < |chunks| ==> |chunks[k]| <= 8191) <==> overlap >= 0 || |tokens| <= 8191
  {
    if overlap < 0 && |tokens| > MAX_TOKENS {
      if |chunks| == 1 {
        assert chunks[..0] == [] && Concat(chunks[..0]) == [];
        assert |chunks[0]| == |tokens|;
      } else {
        assert |chunks[0]| == ChunkSize(overlap);
      }
    }
  }

  // ---- By characters ----------------------------------------------------------------------------

  datatype Settings = Settings(maxChars: int, overlap: int)

  /** A Python slice from a position inside the text; a negative end counts from the back. */
  function Slice(text: string, start: nat, end: int): string
    requires start <= |text|
  {
    var stop := if end < 0 then Max(0, end + |text|) else Min(end, |text|);
    if start <= stop then text[start..stop] else ""
  }

  function ChunkEnd(length: nat, start: nat, s: Settings): int {
    Min(start + s.maxChars, length)
  }

  function NextStart(length: nat, start: nat, s: Settings): nat {
    Max(0, ChunkEnd(length, start, s) - s.overlap)
  }

  /** Where the loop stands after `turns` turns, were it to go on whatever the text's length. */
  function StartAfter(length: nat, s: Settings, turns: nat): nat {
    if turns == 0 then 0 else NextStart(length, StartAfter(length, s, turns - 1), s)
  }

  /** The call returns: at once, or because the loop reaches the end of the text after some turns. */
  ghost predicate Returns(length: nat, s: Settings) {
    length <= s.maxChars || exists turns :: StartAfter(length, s, turns) >= length
  }

  /** What the settings must meet for the loop to make progress. */
  predicate Advances(s: Settings) {
    s.overlap <= 0 && s.overlap < s.maxChars
  }

  lemma {:induction false} StartNeverReachesEnd(length: nat, s: Settings, turns: nat)
    requires length > 0 && length > s.maxChars && !Advances(s)
    ensures StartAfter(length, s, turns) < length
    ensures s.overlap <= 0 ==> StartAfter(length, s, turns) == 0
  {
    if turns > 0 {
      StartNeverReachesEnd(length, s, turns - 1);
    }
  }

  lemma {:induction false} StartReachesEnd(length: nat, s: Settings, turns: nat)
    requires Advances(s)
    ensures StartAfter(length, s, turns) >= Min(turns, length)
  {
    if turns > 0 {
      StartReachesEnd(length, s, turns - 1);
    }
  }

  /** Splitting by characters returns exactly when the text fits into one chunk, or the overlap is not
      positive and smaller than the chunks. */
  lemma ReturnsExactlyWhen(length: nat, s: Settings)
    ensures Returns(length, s) <==> length <= s.maxChars || length == 0 || Advances(s)
  {
    if length == 0 {
      assert StartAfter(length, s, 0) >= length;
    } else if Advances(s) {
      StartReachesEnd(length, s, length);
    } else if length > s.maxChars {
      forall turns ensures StartAfter(length, s, turns) < length {
        StartNeverReachesEnd(length, s, turns);
      }
    }
  }

  /** With the default settings every text of more than 80000 characters is split for ever. */
  lemma DefaultsNeverReturnForLongTexts(length: nat)
    ensures Returns(length, Settings(80000, 200)) <==> length <= 80000
  {
    ReturnsExactlyWhen(length, Settings(80000, 200));
  }

  /** Each turn of the loop adds the chunk at its start, and the last turn is the first to reach the end. */
  ghost predicate SplitBy(text: string, chunks: seq<string>, s: Settings) {
    && StartAfter(|text|, s, |chunks|) >= |text|
    && forall k :: 0 <= k < |chunks| ==> ChunkAt(text, chunks[k], s, k)
  }

  predicate ChunkAt(text: string, chunk: string, s: Settings, k: nat) {
    var start := StartAfter(|text|, s, k);
    start < |text| && chunk == Slice(text, start, ChunkEnd(|text|, start, s))
  }

  /** What the call has returned once its loop was given `turns` turns; None if it is still running. */
  method ChunkCharacters(text: string, s: Settings, turns: nat) returns (chunks: Option<seq<string>>)
    ensures |text| <= s.maxChars ==> chunks == Some([text])
    ensures |text| > s.maxChars && chunks.Some? ==> SplitBy(text, chunks.value, s) && |chunks.value| <= turns
    ensures chunks.None? ==> |text| > s.maxChars && forall n: nat :: n <= turns ==> StartAfter(|text|, s, n) < |text|
  {
    if |text| <= s.maxChars {
      return Some([text]);
    }
    var split: seq<string> := [];
    var start := 0;
    while start < |text| && |split| < turns
      invariant 0 <= start == StartAfter(|text|, s, |split|)
      invariant |split| <= turns
      invariant forall k :: 0 <= k < |split| ==> ChunkAt(text, split[k], s, k)
      decreases turns - |split|
    {
      var end := Min(start + s.maxChars, |text|);
      split := split + [Slice(text, start, end)];
      start := end - s.overlap;
      if start < 0 {
        start := 0;
      }
    }
    if start >= |text| {
      return Some(split);
    }
    forall n: nat | n < |split| ensures StartAfter(|text|, s, n) < |text| {
      assert ChunkAt(text, split[n], s, n);
    }
    return None;
  }

  lemma {:induction false} SplitPrefix(text: string, chunks: seq<string>, s: Settings, n: nat)
    requires SplitBy(text, chunks, s) && s.overlap == 0 < s.maxChars && n <= |chunks|
    ensures StartAfter(|text|, s, n) <= |text| && Concat(chunks[..n]) == text[..StartAfter(|text|, s, n)]
  {
    if n > 0 {
      assert chunks[..n][..n - 1] == chunks[..n - 1];
      SplitPrefix(text, chunks, s, n - 1);
      assert ChunkAt(text, chunks[n - 1], s, n - 1);
    }
  }

  /** Without an overlap the chunks are the text cut in pieces that fit. */
  lemma SplitJoinsToText(text: string, chunks: seq<string>, s: Settings)
    requires SplitBy(text, chunks, s) && s.overlap == 0 < s.maxChars
    ensures Concat(chunks) == text
    ensures forall k :: 0 <= k < |chunks| ==> 0 < |chunks[k]| <= s.maxChars
  {
    SplitPrefix(text, chunks, s, |chunks|);
    assert chunks[..|chunks|] == chunks;
    forall k | 0 <= k < |chunks| ensures 0 < |chunks[k]| <= s.maxChars {
      assert ChunkAt(text, chunks[k], s, k);
    }
  }

  /** A negative overlap loses text: the characters between the chunks. */
  lemma NegativeOverlapSkips(text: string, chunks: seq<string>, s: Settings, k: nat)
    requires SplitBy(text, chunks, s) && s.overlap < 0 < s.maxChars && k + 1 < |chunks|
    ensures
      var start := StartAfter(|text|, s, k);
      && start + s.maxChars < |text|
      && chunks[k] == text[start..start + s.maxChars]
      && StartAfter(|text|, s, k + 1) == start + |chunks[k]| - s.overlap
  {
    assert ChunkAt(text, chunks[k], s, k) && ChunkAt(text, chunks[k + 1], s, k + 1);
  }
}
