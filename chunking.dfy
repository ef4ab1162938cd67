/** The fixed-size chunking of untitled.py and the filter it applies before embedding a chunk. */
module FixedChunks {
  import opened Seqs
  import opened Text

  /** A chunk shorter than this once stripped is not embedded. */
  const MIN_EMBED: nat := 40

  /** The chunks chunk_text returns: consecutive slices of `size` characters, the last one shorter
      when `size` does not divide the length. */
  function FixedChunks(text: string, size: int): seq<string>
    requires size > 0 || text == []
    decreases |text|
  {
    if text == [] then []
    else if |text| <= size then [text]
    else [text[..size]] + FixedChunks(text[size..], size)
  }

  /** chunk_text: `text[start:start + size]` for `start = 0, size, 2 * size, ...` while `start`
      is inside the text. The default `size` of 800 is passed here as the argument. With
      `size <= 0` the Python loop never ends on a non-empty text, which is why such a call is
      excluded. */
  method ChunkText(text: string, size: int) returns (chunks: seq<string>)
    requires size > 0 || text == []
    ensures chunks == FixedChunks(text, size)
  {
    chunks := [];
    var start := 0;
    while start < |text|
      invariant 0 <= start <= |text|
      invariant chunks + FixedChunks(text[start..], size) == FixedChunks(text, size)
      decreases |text| - start
    {
      var end := start + size;
      var piece := if end <= |text| then text[start..end] else text[start..];
      ChunksAhead(text, start, size);
      chunks := chunks + [piece];
      start := if end <= |text| then end else |text|;
    }
    assert text[start..] == [];
  }

  /** One turn of the loop takes the next slice off the chunks still ahead. */
  lemma ChunksAhead(text: string, start: nat, size: int)
    requires start < |text| && size > 0
    ensures var rest := FixedChunks(text[start..], size);
      if start + size <= |text| then
        rest == [text[start..start + size]] + FixedChunks(text[start + size..], size)
      else
        rest == [text[start..]] + FixedChunks(text[|text|..], size)
  {
    var t := text[start..];
    if start + size <= |text| {
      assert t[..size] == text[start..start + size];
      if |t| == size {
        assert t == t[..size];
      }
      if |t| > size {
        assert t[size..] == text[start + size..];
      } else {
        assert text[start + size..] == [];
      }
    } else {
      assert text[|text|..] == [];
    }
  }

  /** Laid end to end the chunks give back the text. */
  lemma {:induction false} ChunksRoundTrip(text: string, size: int)
    requires size > 0 || text == []
    ensures Concat(FixedChunks(text, size)) == text
    decreases |text|
  {
    if text != [] && |text| > size {
      ChunksRoundTrip(text[size..], size);
      ConcatCons(text[..size], FixedChunks(text[size..], size));
      assert text == text[..size] + text[size..];
    } else if text != [] {
      ConcatSnoc([], text);
    }
  }

  /** Every chunk is non-empty and at most `size` long, and every chunk but the last is exactly
      `size` long. */
  lemma {:induction false} ChunkSizes(text: string, size: int)
    requires size > 0 || text == []
    ensures var cs := FixedChunks(text, size);
      && (forall k :: 0 <= k < |cs| ==> 0 < |cs[k]| <= size)
      && (forall k :: 0 <= k < |cs| - 1 ==> |cs[k]| == size)
    decreases |text|
  {
    if text != [] && |text| > size {
      ChunkSizes(text[size..], size);
      var cs := FixedChunks(text, size);
      assert forall k :: 1 <= k < |cs| ==> cs[k] == FixedChunks(text[size..], size)[k - 1];
    }
  }

  /** There are `ceil(len(text) / size)` chunks: none for the empty text, and otherwise the
      fewest chunks of `size` characters that hold the whole text. */
  lemma {:induction false} ChunkCount(text: string, size: int)
    requires size > 0
    ensures var n := |FixedChunks(text, size)|;
      && (n == 0 <==> text == [])
      && |text| <= n * size
      && (n > 0 ==> (n - 1) * size < |text|)
    decreases |text|
  {
    if text != [] && |text| > size {
      ChunkCount(text[size..], size);
      var m := |FixedChunks(text[size..], size)|;
      assert (m + 1) * size == m * size + size;
    }
  }

  /** The test of the embedding loop: `len(chunk.strip()) >= 40`. */
  predicate WorthEmbedding(chunk: string)
  {
    |Strip(chunk)| >= MIN_EMBED
  }

  /** The chunks the embedding loop does not skip, in their order. */
  function EmbeddedChunks(chunks: seq<string>): seq<string>
  {
    Filter(WorthEmbedding, chunks)
  }

  /** A chunk is embedded exactly as many times as it occurs among the chunks when it has at
      least 40 characters once stripped, and never otherwise. */
  lemma EmbeddedChunksExact(chunks: seq<string>, c: string)
    ensures multiset(EmbeddedChunks(chunks))[c] == if |Strip(c)| >= MIN_EMBED then multiset(chunks)[c] else 0
  {
    FilterCount(WorthEmbedding, chunks, c);
  }

  /** A chunk of whitespace only, such as a blank page between two pages of text, is never
      embedded. */
  lemma BlankChunkSkipped(chunks: seq<string>, c: string)
    requires forall i :: 0 <= i < |c| ==> IsSpace(c[i])
    ensures c !in EmbeddedChunks(chunks)
  {
  }
}
