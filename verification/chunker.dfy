/** The overlapping-window text splitter of the vector service
    (`ContentProcessor._chunk_text`). */
module Chunker {
  import opened Options
  import opened Text

  /** `settings.chunk_size` and `settings.chunk_overlap`. */
  const DefaultChunkSize: nat := 800
  const DefaultOverlap: nat := 100

  /** `chunk_size or settings.chunk_size`: a zero argument means the default. */
  function OrDefault(n: nat, default: nat): nat {
    if n == 0 then default else n
  }

  /** `n // 2`, described linearly. */
  function Half(n: nat): (h: nat)
    ensures 2 * h <= n <= 2 * h + 1
  {
    if n < 2 then 0 else 1 + Half(n - 2)
  }

  predicate IsTerminator(c: char) { c == '.' || c == '!' || c == '?' }

  /** The character class a boundary search looks for: sentence terminators
      first, single spaces second. */
  predicate Wanted(c: char, spaces: bool) {
    if spaces then c == ' ' else IsTerminator(c)
  }

  /** Some index in `(lo, hi]` holds a wanted character. */
  predicate HasIn(text: string, lo: nat, hi: nat, spaces: bool)
    requires hi < |text|
  {
    exists k :: lo < k <= hi && Wanted(text[k], spaces)
  }

  /** The highest index in `(lo, hi]` holding a wanted character: the first
      hit of `for i in range(hi, lo, -1)` (`LastMatchSpec` states that it
      is the highest). */
  function LastMatch(text: string, lo: nat, hi: nat, spaces: bool): (r: Option<nat>)
    requires hi < |text|
    ensures r.Some? ==> lo < r.value <= hi && Wanted(text[r.value], spaces)
    decreases hi
  {
    if hi <= lo then None
    else if Wanted(text[hi], spaces) then Some(hi)
    else LastMatch(text, lo, hi - 1, spaces)
  }

  /** `LastMatch` finds nothing exactly when no index in the range holds a
      wanted character, and nothing above what it finds does. */
  lemma {:induction false} LastMatchSpec(text: string, lo: nat, hi: nat, spaces: bool)
    requires hi < |text|
    ensures LastMatch(text, lo, hi, spaces).Some? ==>
      forall k :: LastMatch(text, lo, hi, spaces).value < k <= hi ==> !Wanted(text[k], spaces)
    ensures LastMatch(text, lo, hi, spaces).None? ==> forall k :: lo < k <= hi ==> !Wanted(text[k], spaces)
    decreases hi
  {
    if hi > lo && !Wanted(text[hi], spaces) {
      LastMatchSpec(text, lo, hi - 1, spaces);
    }
  }

  /** Where the window starting at `start` is cut: `start + size` when the
      window reaches past the text, otherwise after the highest terminator
      or at the highest space in `(start + size // 2, start + size]`, else at
      `start + size` (`CutEndPrefers` states the choice). */
  function CutEnd(text: string, start: nat, size: nat): (end: nat)
    requires start < |text| && size > 0
    ensures start + Half(size) < end <= start + size + 1
    ensures start + size >= |text| ==> end == start + size
  {
    var hi := start + size;
    if hi >= |text| then hi
    else
      var lo := start + Half(size);
      match LastMatch(text, lo, hi, false)
      case Some(i) => i + 1
      case None =>
        match LastMatch(text, lo, hi, true)
        case Some(i) => i
        case None => hi
  }

  /** The cut prefers the highest sentence terminator in the search range
      (cutting just after it), then the highest space (cutting at it), and
      otherwise cuts the window at full size; it never cuts at or below the
      middle of the window. */
  lemma CutEndPrefers(text: string, start: nat, size: nat)
    requires start < |text| && size > 0 && start + size < |text|
    ensures
      var lo := start + Half(size);
      var hi := start + size;
      var end := CutEnd(text, start, size);
      if HasIn(text, lo, hi, false) then
        lo < end - 1 <= hi && IsTerminator(text[end - 1])
        && forall k :: end - 1 < k <= hi ==> !IsTerminator(text[k])
      else if HasIn(text, lo, hi, true) then
        lo < end <= hi && text[end] == ' '
        && forall k :: end < k <= hi ==> text[k] != ' '
      else end == hi
  {
    LastMatchSpec(text, start + Half(size), start + size, false);
    LastMatchSpec(text, start + Half(size), start + size, true);
  }

  function Min(a: nat, b: nat): nat { if a <= b then a else b }

  /** Every window starts no later than its end clipped to the text. */
  predicate Ordered(text: string, w: seq<(nat, nat)>) {
    forall k :: 0 <= k < |w| ==> w[k].0 <= Min(w[k].1, |text|)
  }

  /** Every window spans at most `n` characters. */
  predicate Narrow(w: seq<(nat, nat)>, n: nat) {
    forall k :: 0 <= k < |w| ==> w[k].1 <= w[k].0 + n
  }

  /** The windows `(start, end)` the loop visits from `start` on, first to
      last; `end` may exceed the text, as a Python slice bound may
      (`WindowsChain` states how consecutive windows relate). */
  function Windows(text: string, start: nat, size: nat, overlap: nat): (w: seq<(nat, nat)>)
    requires size > 0 && 2 * overlap <= size && start < |text|
    ensures |w| >= 1 && w[0].0 == start
    ensures Ordered(text, w) && Narrow(w, size + 1)
    decreases |text| - start
  {
    var end := CutEnd(text, start, size);
    if end - overlap >= |text| then [(start, end)]
    else [(start, end)] + Windows(text, end - overlap, size, overlap)
  }

  /** One turn of the window loop: the window at `start`, then the windows
      from `end - overlap` unless that is past the text. */
  lemma WindowsStep(text: string, start: nat, size: nat, overlap: nat)
    requires size > 0 && 2 * overlap <= size && start < |text|
    ensures Windows(text, start, size, overlap)[0] == (start, CutEnd(text, start, size))
    ensures CutEnd(text, start, size) - overlap >= |text| ==> |Windows(text, start, size, overlap)| == 1
    ensures CutEnd(text, start, size) - overlap < |text| ==>
      Windows(text, start, size, overlap)[1..] == Windows(text, CutEnd(text, start, size) - overlap, size, overlap)
  {
  }

  /** The windows the loop visits, described window by window: each lies
      in the text and is cut by `CutEnd`; the next one starts `overlap`
      before the previous end; the last one is the first whose
      `end - overlap` is past the text. */
  predicate Chained(text: string, w: seq<(nat, nat)>, size: nat, overlap: nat)
    requires size > 0
    decreases |w|
  {
    |w| == 0 ||
    (w[0].0 < |text| && w[0].1 == CutEnd(text, w[0].0, size)
     && (w[0].1 - overlap >= |text| <==> |w| == 1)
     && (|w| > 1 ==> w[1].0 == w[0].1 - overlap && Chained(text, w[1..], size, overlap)))
  }

  /** `Windows` lists exactly the chained windows from `start`. */
  lemma {:induction false} WindowsChain(text: string, start: nat, size: nat, overlap: nat)
    requires size > 0 && 2 * overlap <= size && start < |text|
    ensures Chained(text, Windows(text, start, size, overlap), size, overlap)
    decreases |text| - start
  {
    var end := CutEnd(text, start, size);
    var w := Windows(text, start, size, overlap);
    if end - overlap < |text| {
      var v := Windows(text, end - overlap, size, overlap);
      WindowsChain(text, end - overlap, size, overlap);
      assert w == [(start, end)] + v;
      ChainedCons(text, (start, end), v, size, overlap);
    } else {
      assert w == [(start, end)] + [];
      ChainedCons(text, (start, end), [], size, overlap);
    }
  }

  lemma ChainedCons(text: string, first: (nat, nat), rest: seq<(nat, nat)>, size: nat, overlap: nat)
    requires size > 0 && first.0 < |text| && first.1 == CutEnd(text, first.0, size)
    requires first.1 - overlap >= |text| <==> |rest| == 0
    requires |rest| > 0 ==> rest[0].0 == first.1 - overlap
    requires Chained(text, rest, size, overlap)
    ensures Chained(text, [first] + rest, size, overlap)
  {
    assert ([first] + rest)[1..] == rest;
  }

  /** Consecutive windows start strictly later, by more than half a window
      minus the overlap. */
  lemma ChainedAdvances(text: string, w: seq<(nat, nat)>, size: nat, overlap: nat)
    requires size > 0 && 2 * overlap <= size && Chained(text, w, size, overlap) && |w| > 1
    ensures w[0].0 + Half(size) - overlap < w[1].0 && w[0].0 < w[1].0
  {
  }

  /** `text[a:b].strip()` as a list of at most one chunk: empty when the
      stripped slice is empty. */
  function Slice(text: string, a: nat, b: nat): (r: seq<string>)
    requires a <= Min(b, |text|)
    ensures |r| <= 1
    ensures forall k :: 0 <= k < |r| ==> r[k] != [] && Trimmed(r[k]) && |r[k]| <= b - a
  {
    var piece := Strip(text[a..Min(b, |text|)]);
    if piece == [] then [] else [piece]
  }

  /** The stripped slices of a list of windows, blank ones dropped. */
  function NonEmptySlices(text: string, w: seq<(nat, nat)>): (r: seq<string>)
    requires Ordered(text, w)
    ensures |r| <= |w|
    ensures forall k :: 0 <= k < |r| ==> r[k] != [] && Trimmed(r[k])
  {
    if |w| == 0 then []
    else
      assert w[0].0 <= Min(w[0].1, |text|);
      Slice(text, w[0].0, w[0].1) + NonEmptySlices(text, w[1..])
  }

  lemma NonEmptySlicesCons(text: string, w: seq<(nat, nat)>)
    requires |w| > 0 && Ordered(text, w)
    ensures NonEmptySlices(text, w) == Slice(text, w[0].0, w[0].1) + NonEmptySlices(text, w[1..])
  {
  }

  /** A chunk cut from a window is no longer than the window. */
  lemma {:induction false} SlicesWithin(text: string, w: seq<(nat, nat)>, n: nat)
    requires Ordered(text, w) && Narrow(w, n)
    ensures forall k :: 0 <= k < |NonEmptySlices(text, w)| ==> |NonEmptySlices(text, w)[k]| <= n
    decreases |w|
  {
    if |w| > 0 {
      SlicesWithin(text, w[1..], n);
      var here := Slice(text, w[0].0, w[0].1);
      var rest := NonEmptySlices(text, w[1..]);
      assert forall k :: |here| <= k < |here + rest| ==> (here + rest)[k] == rest[k - |here|];
    }
  }

  /** Every element of `parts` occurs in `text`. */
  predicate AllContained(text: string, parts: seq<string>) {
    forall k :: 0 <= k < |parts| ==> Contains(text, parts[k])
  }

  /** The chunk of a window is a slice of the text. */
  lemma SliceContained(text: string, a: nat, b: nat)
    requires a <= Min(b, |text|)
    ensures AllContained(text, Slice(text, a, b))
  {
    var s := text[a..Min(b, |text|)];
    var i, j := StripSlice(s);
    assert Strip(s) == text[a + i..a + j];
    assert OccursAt(text, Strip(s), a + i);
  }

  lemma AllContainedAppend(text: string, a: seq<string>, b: seq<string>)
    requires AllContained(text, a) && AllContained(text, b)
    ensures AllContained(text, a + b)
  {
    forall k | 0 <= k < |a + b| ensures Contains(text, (a + b)[k]) {
      if k < |a| { assert (a + b)[k] == a[k]; } else { assert (a + b)[k] == b[k - |a|]; }
    }
  }

  /** Every chunk of any list of windows is a slice of the text. */
  lemma {:induction false} SlicesContained(text: string, w: seq<(nat, nat)>)
    requires Ordered(text, w)
    ensures AllContained(text, NonEmptySlices(text, w))
    decreases |w|
  {
    if |w| > 0 {
      SliceContained(text, w[0].0, w[0].1);
      SlicesContained(text, w[1..]);
      AllContainedAppend(text, Slice(text, w[0].0, w[0].1), NonEmptySlices(text, w[1..]));
    }
  }

  /** `_chunk_text(text, chunk_size, overlap)`: text no longer than the chunk
      size comes back unchanged, neither stripped nor dropped when empty;
      longer text becomes the stripped, non-blank slices of its windows,
      each at most `size + 1` characters and each occurring in the text. */
  function ChunkText(text: string, chunkSize: nat, overlap: nat): (r: seq<string>)
    requires 2 * OrDefault(overlap, DefaultOverlap) <= OrDefault(chunkSize, DefaultChunkSize)
    ensures |text| <= OrDefault(chunkSize, DefaultChunkSize) ==> r == [text]
    ensures |text| > OrDefault(chunkSize, DefaultChunkSize) ==>
      forall k :: 0 <= k < |r| ==>
        r[k] != [] && Trimmed(r[k]) && |r[k]| <= OrDefault(chunkSize, DefaultChunkSize) + 1
        && Contains(text, r[k])
  {
    var size := OrDefault(chunkSize, DefaultChunkSize);
    var ov := OrDefault(overlap, DefaultOverlap);
    if |text| <= size then [text]
    else
      var w := Windows(text, 0, size, ov);
      SlicesWithin(text, w, size + 1);
      SlicesContained(text, w);
      NonEmptySlices(text, w)
  }

  /** The chunker with the defaults every caller uses (800 and 100). */
  function Chunk(text: string): seq<string> {
    ChunkText(text, 0, 0)
  }

  lemma AppendAssoc<T>(a: seq<T>, b: seq<T>, c: seq<T>)
    ensures a + (b + c) == (a + b) + c
  {
  }

  /** The Python loop itself: `start` advances to `end - overlap` until it
      reaches the end of the text, keeping each non-blank stripped window. */
  method ChunkTextLoop(text: string, chunkSize: nat, overlap: nat) returns (chunks: seq<string>)
    requires 2 * OrDefault(overlap, DefaultOverlap) <= OrDefault(chunkSize, DefaultChunkSize)
    ensures chunks == ChunkText(text, chunkSize, overlap)
  {
    var size := OrDefault(chunkSize, DefaultChunkSize);
    var ov := OrDefault(overlap, DefaultOverlap);
    if |text| <= size {
      return [text];
    }
    chunks := [];
    var start := 0;
    ghost var ws := Windows(text, 0, size, ov);
    ghost var all := NonEmptySlices(text, ws);
    WindowsChain(text, 0, size, ov);
    while start < |text|
      invariant start <= |text|
      invariant Ordered(text, ws) && Chained(text, ws, size, ov)
      invariant chunks + NonEmptySlices(text, ws) == all
      invariant start < |text| <==> |ws| > 0
      invariant start < |text| ==> ws[0].0 == start
      decreases |text| - start
    {
      var end := CutEnd(text, start, size);
      var here := Slice(text, start, end);
      NonEmptySlicesCons(text, ws);
      AppendAssoc(chunks, here, NonEmptySlices(text, ws[1..]));
      chunks := chunks + here;
      if end - ov >= |text| {
        start := |text|;
      } else {
        start := end - ov;
      }
      ws := ws[1..];
    }
  }

  /** An example on one input: a terminator sitting exactly at
      `start + size` yields a chunk one character longer than the chunk
      size. */
  lemma ChunkOneOverSize(t: string)
    requires t == "abcd.fgh"
    ensures |ChunkText(t, 4, 2)| > 0 && ChunkText(t, 4, 2)[0] == "abcd."
  {
    OneOverSizeCut(t);
    OneOverSizeSlice(t);
    WindowsStep(t, 0, 4, 2);
    NonEmptySlicesCons(t, Windows(t, 0, 4, 2));
  }

  lemma OneOverSizeCut(t: string)
    requires t == "abcd.fgh"
    ensures CutEnd(t, 0, 4) == 5
  {
    assert LastMatch(t, 2, 4, false) == Some(4);
  }

  lemma OneOverSizeSlice(t: string)
    requires t == "abcd.fgh"
    ensures Slice(t, 0, 5) == ["abcd."]
  {
    var s := t[0..5];
    assert s == "abcd.";
    assert !IsSpace(s[0]) && !IsSpace(s[4]);
    StripTrimmed(s);
  }

  /** Once a window reaches the end of the text, the next start can still
      fall inside it: one more window follows, covering only text the
      previous window already covered, and it is the last. */
  lemma TailRepeated(text: string, start: nat, size: nat, overlap: nat)
    requires size > 0 && 2 * overlap <= size && start < |text|
    requires |text| <= start + size < |text| + overlap
    ensures Windows(text, start, size, overlap)
      == [(start, start + size), (start + size - overlap, start + 2 * size - overlap)]
    ensures start < start + size - overlap < |text|
  {
    var next := start + size - overlap;
    WindowsStep(text, start, size, overlap);
    WindowsStep(text, next, size, overlap);
  }
}
