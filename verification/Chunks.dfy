/** Splitting a text into overlapping chunks. A text is its sequence of runes. */
module Chunks {
  import opened Sequences

  /** The distance between chunk starts: an overlap that would stop all progress is ignored. */
  function StepOf(size: int, overlap: int): int {
    if size - overlap <= 0 then size else size - overlap
  }

  /** The chunks of a text, the rest being split from one step further on. */
  ghost function Split(text: string, size: nat, step: nat): (chunks: seq<string>)
    requires size > 0 && step > 0
    ensures chunks != []
    decreases |text|
  {
    if |text| <= size then [text]
    else if |text| <= step then [text[..size]]
    else [text[..size]] + Split(text[step..], size, step)
  }

  /** One more full chunk from start leaves the split of what lies a step further on. */
  lemma SplitStep(text: string, size: nat, step: nat, start: nat, end: nat, before: seq<string>, chunks: seq<string>)
    requires size > 0 && step > 0 && end == start + size < |text|
    requires chunks == before + [text[start..end]]
    ensures start + step < |text| ==>
              chunks + Split(text[start + step..], size, step) == before + Split(text[start..], size, step)
    ensures start + step >= |text| ==> chunks == before + Split(text[start..], size, step)
  {
    assert text[start..][..size] == text[start..end];
    if start + step < |text| { assert text[start..][step..] == text[start + step..]; }
  }

  method SplitChunks(text: string, size: int, overlap: int) returns (chunks: seq<string>)
    ensures size <= 0 ==> chunks == [text]
    ensures size > 0 ==> chunks == Split(text, size, StepOf(size, overlap))
    ensures 0 < size <= overlap ==> chunks == Split(text, size, size)
    ensures 0 < size && overlap < size ==> chunks == Split(text, size, size - overlap)
  {
    if size <= 0 || |text| <= size { return [text]; }
    var step := size - overlap;
    if step <= 0 { step := size; }
    chunks := [];
    var start := 0;
    while start < |text|
      invariant 0 <= start
      invariant start < |text| ==> chunks + Split(text[start..], size, step) == Split(text, size, step)
      invariant start >= |text| ==> chunks == Split(text, size, step)
      decreases |text| - start
    {
      var end := Min(start + size, |text|);
      var before := chunks;
      chunks := chunks + [text[start..end]];
      if end == |text| {
        assert text[start..] == text[start..end];
        break;
      }
      SplitStep(text, size, step, start, end, before, chunks);
      start := start + step;
    }
  }

  // ----- What the chunks are -----

  lemma SameProduct(i: int, step: int)
    ensures step + (i - 1) * step == i * step
  {
  }

  lemma ProductNonNegative(i: nat, step: nat)
    ensures i * step >= 0
  {
  }

  /** Chunk i starts i steps in and has the full size unless the text ends first. */
  lemma {:induction false} ChunkAt(text: string, size: nat, step: nat, i: nat)
    requires size > 0 && step > 0 && i < |Split(text, size, step)|
    ensures 0 <= i * step <= |text|
    ensures Split(text, size, step)[i] == text[i * step..Min(i * step + size, |text|)]
    decreases |text|
  {
    if i > 0 {
      ChunkAt(text[step..], size, step, i - 1);
      SameProduct(i, step);
      assert text[step..][(i - 1) * step..Min((i - 1) * step + size, |text| - step)]
        == text[i * step..Min(i * step + size, |text|)];
    }
  }

  /** A later chunk i exists exactly when the text goes on past the end of the one before and,
      where a negative overlap leaves a gap, past its own start. */
  lemma {:induction false} ChunkCount(text: string, size: nat, step: nat, i: nat)
    requires size > 0 && step > 0
    ensures i < |Split(text, size, step)| <==> i == 0 || (i - 1) * step + Max(size, step) < |text|
    decreases |text|
  {
    if i > 0 {
      if |text| > Max(size, step) {
        ChunkCount(text[step..], size, step, i - 1);
        if i > 1 { SameProduct(i - 1, step); }
      } else {
        ProductNonNegative(i - 1, step);
      }
    }
  }

  // ----- Putting them back together -----

  ghost function DropEach(chunks: seq<string>, n: nat): string {
    if chunks == [] then ""
    else (if n <= |chunks[0]| then chunks[0][n..] else "") + DropEach(chunks[1..], n)
  }

  /** The first chunk whole, every later one without its first n runes. */
  ghost function Rejoined(chunks: seq<string>, n: nat): string
    requires chunks != []
  {
    chunks[0] + DropEach(chunks[1..], n)
  }

  lemma {:induction false} DropEachOfSplit(text: string, size: nat, step: nat)
    requires 0 < step <= size && |text| > size - step
    ensures DropEach(Split(text, size, step), size - step) == text[size - step..]
    decreases |text|
  {
    var n := size - step;
    if |text| <= size {
      assert Split(text, size, step)[1..] == [];
    } else {
      var rest := Split(text[step..], size, step);
      DropEachOfSplit(text[step..], size, step);
      assert Split(text, size, step)[1..] == rest;
      assert text[step..][n..] == text[size..];
      assert text[..size][n..] + text[size..] == text[n..];
    }
  }

  lemma {:induction false} GapsLoseText(text: string, size: nat, step: nat)
    requires 0 < size < step && |text| > size
    ensures |DropEach(Split(text, size, step), 0)| < |text|
    decreases |text|
  {
    if |text| <= step {
      assert Split(text, size, step)[1..] == [];
    } else {
      var rest := Split(text[step..], size, step);
      assert Split(text, size, step)[1..] == rest;
      if |text[step..]| > size {
        GapsLoseText(text[step..], size, step);
      } else {
        assert rest == [text[step..]] && rest[1..] == [];
        assert DropEach(rest, 0) == text[step..][0..] + DropEach(rest[1..], 0);
      }
    }
  }

  /** The overlap that the chunks really have. */
  function RealOverlap(size: int, overlap: int): nat {
    Max(0, size - StepOf(size, overlap))
  }

  lemma RejoinedExactly(text: string, size: nat, step: nat)
    requires 0 < step <= size && |text| > size
    ensures Rejoined(Split(text, size, step), size - step) == text
  {
    DropEachOfSplit(text[step..], size, step);
    assert Split(text, size, step)[1..] == Split(text[step..], size, step);
    assert text[step..][size - step..] == text[size..];
    assert text[..size] + text[size..] == text;
  }

  lemma RejoinedWithGaps(text: string, size: nat, step: nat)
    requires 0 < size < step && |text| > size
    ensures |Rejoined(Split(text, size, step), 0)| < |text|
  {
    var chunks := Split(text, size, step);
    GapsLoseText(text, size, step);
    assert DropEach(chunks, 0) == chunks[0] + DropEach(chunks[1..], 0);
  }

  /** Dropping the overlap of every later chunk gives back the text: always for an overlap of at
      least zero, even one as large as a chunk, and for a negative one only if one chunk is all. */
  lemma RejoinedIff(text: string, size: nat, overlap: int)
    requires size > 0
    ensures Rejoined(Split(text, size, StepOf(size, overlap)), RealOverlap(size, overlap)) == text
      <==> overlap >= 0 || |text| <= size
  {
    var step := StepOf(size, overlap);
    if |text| <= size {
      assert Split(text, size, step) == [text];
    } else if overlap >= 0 {
      RejoinedExactly(text, size, step);
    } else {
      RejoinedWithGaps(text, size, step);
    }
  }
}
