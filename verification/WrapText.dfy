/** Wrapping text at character boundaries: a greedy pass that pushes a chunk
    whenever the next visible character would overflow it. The column count of
    a character is a parameter. */
module WrapText {
  import Sanitize

  const ISIZE_MAX: nat := 0x7FFF_FFFF_FFFF_FFFF
  const USIZE_MAX: nat := 0xFFFF_FFFF_FFFF_FFFF

  type Columns = char -> nat

  function SaturatingAdd(a: nat, b: nat): nat {
    if a + b > USIZE_MAX then USIZE_MAX else a + b
  }

  function Max(a: nat, b: nat): nat {
    if a < b then b else a
  }

  function Width(s: string, cols: Columns): nat {
    if s == "" then 0 else Width(s[..|s| - 1], cols) + cols(s[|s| - 1])
  }

  /** The width of the widest character of `s`. */
  function Widest(s: string, cols: Columns): nat {
    if s == "" then 0 else Max(Widest(s[..|s| - 1], cols), cols(s[|s| - 1]))
  }

  function Flatten(chunks: seq<string>): string {
    if chunks == [] then "" else Flatten(chunks[..|chunks| - 1]) + chunks[|chunks| - 1]
  }

  /** `chunks` cut `text` into nonempty pieces. */
  ghost predicate Splits(chunks: seq<string>, text: string) {
    && Flatten(chunks) == text
    && forall k :: 0 <= k < |chunks| ==> chunks[k] != ""
  }

  /** `next` begins with a visible character that would have overflowed the
      visible chunk `previous`. */
  predicate Breaks(previous: string, next: string, width: nat, cols: Columns) {
    && next != "" && cols(next[0]) > 0
    && Width(previous, cols) > 0
    && Width(previous, cols) + cols(next[0]) > width
  }

  ghost predicate BreaksAt(chunks: seq<string>, k: nat, width: nat, cols: Columns)
    requires 1 <= k < |chunks|
  {
    Breaks(chunks[k - 1], chunks[k], width, cols)
  }

  /** A new chunk is started only when it has to be. */
  ghost predicate Greedy(chunks: seq<string>, width: nat, cols: Columns) {
    forall k :: 1 <= k < |chunks| ==> BreaksAt(chunks, k, width, cols)
  }

  ghost predicate Fits(chunk: string, width: nat, cols: Columns) {
    Width(chunk, cols) <= width
  }

  ghost predicate AllFit(chunks: seq<string>, width: nat, cols: Columns) {
    forall k :: 0 <= k < |chunks| ==> Fits(chunks[k], width, cols)
  }

  /** The columns of a terminal count in machine words. */
  ghost predicate WordSized(text: string, cols: Columns) {
    forall i :: 0 <= i < |text| ==> cols(text[i]) <= USIZE_MAX
  }

  /** No wider than the limit, or than the widest character of the text. */
  ghost predicate Bounded(chunk: string, width: nat, text: string, cols: Columns) {
    Width(chunk, cols) <= Max(width, Widest(text, cols))
  }

  ghost predicate AllBounded(chunks: seq<string>, width: nat, text: string, cols: Columns) {
    forall k :: 0 <= k < |chunks| ==> Bounded(chunks[k], width, text, cols)
  }

  /** The state of the pass after the first `done` characters. */
  ghost predicate Progress(chunks: seq<string>, chunk: string, done: nat, text: string, width: nat, cols: Columns)
    requires done <= |text|
  {
    && Splits(chunks + [chunk], text[..done])
    && Greedy(chunks + [chunk], width, cols)
    && (width == USIZE_MAX ==> chunks == [])
    && (width < USIZE_MAX ==> AllBounded(chunks + [chunk], width, text, cols))
  }

  lemma FlattenPush(chunks: seq<string>, chunk: string)
    ensures Flatten(chunks + [chunk]) == Flatten(chunks) + chunk
  {
    assert (chunks + [chunk])[..|chunks|] == chunks;
  }

  lemma StartText(text: string, width: nat, cols: Columns)
    requires text != ""
    ensures Progress([], [text[0]], 1, text, width, cols)
  {
    FlattenPush([], [text[0]]);
    WidestCovers(text, 0, cols);
    WidthPush("", text[0], cols);
    assert text[..1] == [text[0]];
  }

  /** The character joins the current chunk. */
  lemma ExtendChunk(chunks: seq<string>, chunk: string, done: nat, text: string, width: nat, cols: Columns)
    requires done < |text| && Progress(chunks, chunk, done, text, width, cols)
    requires cols(text[done]) == 0 || Width(chunk, cols) == 0 || width == USIZE_MAX || Width(chunk, cols) + cols(text[done]) <= width
    ensures Progress(chunks, chunk + [text[done]], done + 1, text, width, cols)
  {
    var c := text[done];
    var before, after := chunks + [chunk], chunks + [chunk + [c]];
    FlattenPush(chunks, chunk);
    FlattenPush(chunks, chunk + [c]);
    assert text[..done + 1] == text[..done] + [c];
    WidthPush(chunk, c, cols);
    WidestCovers(text, done, cols);
    assert forall k :: 0 <= k < |chunks| ==> after[k] == before[k];
    assert before[|chunks|] == chunk && after[|chunks|] == chunk + [c];
    forall k | 1 <= k < |after| ensures BreaksAt(after, k, width, cols) {
      assert BreaksAt(before, k, width, cols);
    }
    if width < USIZE_MAX {
      forall k | 0 <= k < |after| ensures Bounded(after[k], width, text, cols) {
        assert Bounded(before[k], width, text, cols);
      }
    }
  }

  /** The character starts a chunk. */
  lemma NextChunk(chunks: seq<string>, chunk: string, done: nat, text: string, width: nat, cols: Columns)
    requires done < |text| && Progress(chunks, chunk, done, text, width, cols)
    requires width < USIZE_MAX && cols(text[done]) > 0 && Width(chunk, cols) > 0
    requires Width(chunk, cols) + cols(text[done]) > width
    ensures Progress(chunks + [chunk], [text[done]], done + 1, text, width, cols)
  {
    var c := text[done];
    var before, after := chunks + [chunk], chunks + [chunk] + [[c]];
    FlattenPush(before, [c]);
    assert text[..done + 1] == text[..done] + [c];
    WidthPush("", c, cols);
    WidestCovers(text, done, cols);
    assert forall k :: 0 <= k < |before| ==> after[k] == before[k];
    assert after[|before|] == [c] && after[|before| - 1] == chunk;
    forall k | 1 <= k < |after| ensures BreaksAt(after, k, width, cols) {
      if k < |before| {
        assert BreaksAt(before, k, width, cols);
      }
    }
    forall k | 0 <= k < |after| ensures Bounded(after[k], width, text, cols) {
      if k < |before| {
        assert Bounded(before[k], width, text, cols);
      }
    }
  }

  /** The bound holds of the finished chunks exactly when the count of columns
      could not run past a machine word. */
  lemma Finish(chunks: seq<string>, chunk: string, text: string, width: nat, cols: Columns)
    requires Progress(chunks, chunk, |text|, text, width, cols)
    requires width <= USIZE_MAX && WordSized(text, cols)
    ensures Splits(chunks + [chunk], text)
    ensures AllBounded(chunks + [chunk], width, text, cols) <==> (width < USIZE_MAX || Width(text, cols) <= USIZE_MAX)
  {
    assert text[..|text|] == text;
    if width == USIZE_MAX {
      FlattenPush([], chunk);
      assert Flatten([]) + chunk == chunk;
      assert chunks + [chunk] == [] + [chunk] == [text];
      WidestIsWordSized(text, cols);
      assert AllBounded([text], width, text, cols) <==> Bounded([text][0], width, text, cols);
    }
  }

  lemma {:induction false} WidestIsWordSized(text: string, cols: Columns)
    requires WordSized(text, cols)
    ensures Widest(text, cols) <= USIZE_MAX
    decreases |text|
  {
    if text != "" {
      WidestIsWordSized(text[..|text| - 1], cols);
    }
  }

  /** A text in memory has at most isize::MAX bytes, and no character takes
      more columns than bytes. */
  ghost predicate IsRustText(text: string, cols: Columns) {
    && Sanitize.Bytes(text) <= ISIZE_MAX
    && forall i :: 0 <= i < |text| ==> cols(text[i]) <= Sanitize.Utf8Length(text[i])
  }

  /** So its columns are counted without reaching the end of a machine word. */
  lemma {:induction false} RustTextFits(text: string, cols: Columns)
    requires forall i :: 0 <= i < |text| ==> cols(text[i]) <= Sanitize.Utf8Length(text[i])
    ensures Width(text, cols) <= Sanitize.Bytes(text)
    decreases |text|
  {
    if text != "" {
      RustTextFits(text[..|text| - 1], cols);
    }
  }

  method WrapChars(text: string, width: nat, cols: Columns) returns (chunks: seq<string>)
    requires width <= USIZE_MAX && WordSized(text, cols)
    ensures Splits(chunks, text)
    ensures Greedy(chunks, Max(width, 1), cols)
    ensures AllBounded(chunks, Max(width, 1), text, cols)
            <==> (Max(width, 1) < USIZE_MAX || Width(text, cols) <= USIZE_MAX)
    ensures Width(text, cols) <= USIZE_MAX ==> AllBounded(chunks, Max(width, 1), text, cols)
    ensures IsRustText(text, cols) ==> AllBounded(chunks, Max(width, 1), text, cols)
  {
    var limit := Max(width, 1);
    chunks := [];
    var chunk, chunkWidth := "", 0;
    for i := 0 to |text|
      invariant i == 0 ==> chunks == [] && chunk == ""
      invariant i > 0 ==> Progress(chunks, chunk, i, text, limit, cols)
      invariant chunkWidth == Clamp(Width(chunk, cols))
    {
      var character := text[i];
      var characterWidth := cols(character);
      if characterWidth > 0 && chunkWidth > 0 && SaturatingAdd(chunkWidth, characterWidth) > limit {
        NextChunk(chunks, chunk, i, text, limit, cols);
        chunks := chunks + [chunk];
        chunk, chunkWidth := "", 0;
      } else if i > 0 {
        ExtendChunk(chunks, chunk, i, text, limit, cols);
      } else {
        StartText(text, limit, cols);
      }
      WidthPush(chunk, character, cols);
      chunk := chunk + [character];
      chunkWidth := SaturatingAdd(chunkWidth, characterWidth);
    }
    if chunk != "" {
      Finish(chunks, chunk, text, limit, cols);
      chunks := chunks + [chunk];
    }
    RustTextIsCounted(text, cols);
  }

  lemma RustTextIsCounted(text: string, cols: Columns)
    ensures IsRustText(text, cols) ==> Width(text, cols) <= USIZE_MAX
  {
    if IsRustText(text, cols) {
      RustTextFits(text, cols);
    }
  }

  function Clamp(n: nat): nat {
    if n > USIZE_MAX then USIZE_MAX else n
  }

  lemma WidthPush(s: string, c: char, cols: Columns)
    ensures Width(s + [c], cols) == Width(s, cols) + cols(c)
  {
    assert (s + [c])[..|s|] == s;
  }

  lemma {:induction false} WidestCovers(text: string, i: nat, cols: Columns)
    requires i < |text|
    ensures cols(text[i]) <= Widest(text, cols)
    decreases |text|
  {
    if i < |text| - 1 {
      WidestCovers(text[..|text| - 1], i, cols);
    }
  }

  // ------------------------------------------------------------- minimality

  /** Where chunk `k` begins in the text. */
  ghost function Offset(chunks: seq<string>, k: nat): nat
    requires k <= |chunks|
  {
    |Flatten(chunks[..k])|
  }

  lemma {:induction false} FlattenPrefix(chunks: seq<string>, k: nat)
    requires k <= |chunks|
    ensures Flatten(chunks[..k]) <= Flatten(chunks)
    decreases |chunks|
  {
    if k == |chunks| {
      assert chunks[..k] == chunks;
    } else {
      var front := chunks[..|chunks| - 1];
      assert front[..k] == chunks[..k];
      FlattenPrefix(front, k);
    }
  }

  lemma ChunkIsSlice(chunks: seq<string>, text: string, k: nat)
    requires Splits(chunks, text) && k < |chunks|
    ensures Offset(chunks, k) < Offset(chunks, k + 1) <= |text|
    ensures chunks[k] == text[Offset(chunks, k)..Offset(chunks, k + 1)]
  {
    assert chunks[..k + 1] == chunks[..k] + [chunks[k]];
    FlattenPush(chunks[..k], chunks[k]);
    FlattenPrefix(chunks, k + 1);
  }

  lemma {:induction false} SliceWidth(text: string, a: nat, b: nat, c: nat, d: nat, cols: Columns)
    requires a <= c <= d <= b <= |text|
    ensures Width(text[c..d], cols) <= Width(text[a..b], cols)
    decreases b - a
  {
    if d < b {
      assert text[a..b][..b - 1 - a] == text[a..b - 1];
      SliceWidth(text, a, b - 1, c, d, cols);
    } else if a < c {
      assert text[a..b] == [text[a]] + text[a + 1..b];
      WidthConcat([text[a]], text[a + 1..b], cols);
      SliceWidth(text, a + 1, b, c, d, cols);
    }
  }

  lemma {:induction false} WidthConcat(a: string, b: string, cols: Columns)
    ensures Width(a + b, cols) == Width(a, cols) + Width(b, cols)
    decreases |b|
  {
    if b == "" {
      assert a + b == a;
    } else {
      assert (a + b)[..|a + b| - 1] == a + b[..|b| - 1];
      WidthConcat(a, b[..|b| - 1], cols);
    }
  }

  /** A piece that starts no later than a greedy chunk and fits cannot reach
      past the start of the next greedy chunk. */
  lemma FittingPieceStops(chunks: seq<string>, text: string, k: nat, a: nat, b: nat, width: nat, cols: Columns)
    requires Splits(chunks, text) && Greedy(chunks, width, cols) && k + 1 < |chunks|
    requires a <= Offset(chunks, k) && a <= b <= |text| && Width(text[a..b], cols) <= width
    ensures b <= Offset(chunks, k + 1)
  {
    ChunkIsSlice(chunks, text, k);
    ChunkIsSlice(chunks, text, k + 1);
    assert BreaksAt(chunks, k + 1, width, cols);
    var c, d := Offset(chunks, k), Offset(chunks, k + 1);
    assert chunks[k + 1][0] == text[d];
    WidthPush(text[c..d], text[d], cols);
    assert text[c..d] + [text[d]] == text[c..d + 1];
    if b > d {
      SliceWidth(text, a, b, c, d + 1, cols);
    }
  }

  /** Greedy chunks stay ahead of any split into fitting pieces. */
  lemma {:induction false} GreedyStaysAhead(chunks: seq<string>, other: seq<string>, text: string, width: nat, cols: Columns, k: nat)
    requires Splits(chunks, text) && Greedy(chunks, width, cols)
    requires Splits(other, text) && AllFit(other, width, cols)
    requires k < |chunks| && k <= |other|
    ensures Offset(other, k) <= Offset(chunks, k)
    decreases k
  {
    if k > 0 {
      GreedyStaysAhead(chunks, other, text, width, cols, k - 1);
      ChunkIsSlice(other, text, k - 1);
      assert Fits(other[k - 1], width, cols);
      FittingPieceStops(chunks, text, k - 1, Offset(other, k - 1), Offset(other, k), width, cols);
    }
  }

  /** No split of the text into fitting nonempty pieces has fewer pieces than a
      greedy one. */
  lemma GreedyIsMinimal(chunks: seq<string>, other: seq<string>, text: string, width: nat, cols: Columns)
    requires Splits(chunks, text) && Greedy(chunks, width, cols)
    requires Splits(other, text) && AllFit(other, width, cols)
    ensures |chunks| <= |other|
  {
    assert other[..|other|] == other;
    if |other| < |chunks| {
      GreedyStaysAhead(chunks, other, text, width, cols, |other|);
      ChunkIsSlice(chunks, text, |other|);
    }
  }

  /** When every character fits the width, wrapping yields fitting pieces, and
      as few as any split into fitting pieces. */
  lemma WrappingIsOptimal(chunks: seq<string>, text: string, width: nat, cols: Columns)
    requires Splits(chunks, text) && Greedy(chunks, width, cols) && AllBounded(chunks, width, text, cols)
    requires Widest(text, cols) <= width
    ensures AllFit(chunks, width, cols)
    ensures forall other :: Splits(other, text) && AllFit(other, width, cols) ==> |chunks| <= |other|
  {
    forall k | 0 <= k < |chunks| ensures Fits(chunks[k], width, cols) {
      assert Bounded(chunks[k], width, text, cols);
    }
    forall other | Splits(other, text) && AllFit(other, width, cols) ensures |chunks| <= |other| {
      GreedyIsMinimal(chunks, other, text, width, cols);
    }
  }

  /** The greedy conditions leave one possibility: two greedy splits of a text
      whose characters fit are the same chunks. */
  lemma GreedyIsUnique(a: seq<string>, b: seq<string>, text: string, width: nat, cols: Columns)
    requires Splits(a, text) && Greedy(a, width, cols) && AllFit(a, width, cols)
    requires Splits(b, text) && Greedy(b, width, cols) && AllFit(b, width, cols)
    ensures a == b
  {
    GreedyIsMinimal(a, b, text, width, cols);
    GreedyIsMinimal(b, a, text, width, cols);
    assert a[..|a|] == a && b[..|b|] == b;
    forall k | 0 <= k <= |a| ensures Offset(a, k) == Offset(b, k) {
      if k < |a| {
        GreedyStaysAhead(a, b, text, width, cols, k);
        GreedyStaysAhead(b, a, text, width, cols, k);
      }
    }
    forall k | 0 <= k < |a| ensures a[k] == b[k] {
      ChunkIsSlice(a, text, k);
      ChunkIsSlice(b, text, k);
      assert Offset(a, k) == Offset(b, k) && Offset(a, k + 1) == Offset(b, k + 1);
    }
  }
}
