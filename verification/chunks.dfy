/** `ContentChunk` records and the pieces every processor shares: metadata
    dicts, the keyword list, the per-chunk loop and the drawing of chunk
    ids. */
module Chunks {
  import opened Options
  import opened Json
  import Keywords

  /** A `ContentChunk` before its `chunk_id` is drawn. Fields copied from
      the payload (`source_id`, a generic `content_type`) keep whatever
      value the payload holds. */
  datatype Piece = Piece(
    content: string,
    metadata: seq<(string, Json)>,
    sourceId: Json,
    sourceType: string,
    contentType: Json,
    chunkIndex: int,
    totalChunks: int)

  /** The `ContentChunk` dataclass. */
  datatype ContentChunk = ContentChunk(
    chunkId: string,
    content: string,
    metadata: seq<(string, Json)>,
    sourceId: Json,
    sourceType: string,
    contentType: Json,
    chunkIndex: int,
    totalChunks: int)

  function WithId(id: string, p: Piece): ContentChunk {
    ContentChunk(id, p.content, p.metadata, p.sourceId, p.sourceType, p.contentType, p.chunkIndex, p.totalChunks)
  }

  /** The chunk without its id. */
  function Unstamp(c: ContentChunk): Piece {
    Piece(c.content, c.metadata, c.sourceId, c.sourceType, c.contentType, c.chunkIndex, c.totalChunks)
  }

  /** Gives the `k`-th piece the id `ids(k)`: one `uuid4()` per chunk, in
      the order the chunks are produced. */
  function Stamp(pieces: seq<Piece>, ids: nat -> string): (r: seq<ContentChunk>)
    ensures |r| == |pieces|
    ensures forall k :: 0 <= k < |r| ==> r[k].chunkId == ids(k) && Unstamp(r[k]) == pieces[k]
  {
    seq(|pieces|, k requires 0 <= k < |pieces| => WithId(ids(k), pieces[k]))
  }

  /** Distinct draws give distinct chunk ids: when no id repeats, no two
      stamped chunks share one. */
  lemma StampIdsDistinct(pieces: seq<Piece>, ids: nat -> string)
    requires forall a: nat, b: nat :: a != b ==> ids(a) != ids(b)
    ensures forall j, k :: 0 <= j < k < |Stamp(pieces, ids)| ==> Stamp(pieces, ids)[j].chunkId != Stamp(pieces, ids)[k].chunkId
  {
  }

  function Strs(ws: seq<string>): (r: seq<Json>)
    ensures |r| == |ws| && forall i :: 0 <= i < |ws| ==> r[i] == JStr(ws[i])
  {
    seq(|ws|, i requires 0 <= i < |ws| => JStr(ws[i]))
  }

  /** `searchable_keywords`: `_extract_keywords(text)` with its default
      limit of ten. */
  function KeywordsOf(text: string): (r: Json)
    ensures r.JArr? && |r.items| <= Keywords.DefaultMaxKeywords
    ensures text == [] ==> r == JArr([])
  {
    JArr(Strs(Keywords.ExtractKeywords(text, Keywords.DefaultMaxKeywords)))
  }

  /** The keys every text chunk adds to a copy of its processor's base
      metadata. */
  function PositionFields(i: nat, total: nat, length: nat): seq<(string, Json)> {
    [("chunk_index", JInt(i)), ("total_chunks", JInt(total)), ("content_length", JInt(length))]
  }

  /** The loop `for i, chunk_content in enumerate(parts)` of the text
      processors: the `i`-th part becomes a chunk whose metadata is a copy
      of `base` updated with its position and length, then `extra`. */
  function TextPieces(parts: seq<string>, base: seq<(string, Json)>, extra: seq<(string, Json)>,
                      sourceId: nat -> Json, sourceType: string, contentType: Json): (r: seq<Piece>)
    ensures |r| == |parts|
    ensures forall i :: 0 <= i < |r| ==>
      r[i].content == parts[i] && r[i].chunkIndex == i && r[i].totalChunks == |parts|
      && r[i].sourceId == sourceId(i) && r[i].sourceType == sourceType && r[i].contentType == contentType
  {
    seq(|parts|, i requires 0 <= i < |parts| =>
      Piece(parts[i], Update(base, PositionFields(i, |parts|, |parts[i]|) + extra),
            sourceId(i), sourceType, contentType, i, |parts|))
  }

  lemma PositionFieldsLast(i: nat, total: nat, length: nat, k: string)
    ensures LastFor(PositionFields(i, total, length), k) ==
      if k == "chunk_index" then Some(JInt(i))
      else if k == "total_chunks" then Some(JInt(total))
      else if k == "content_length" then Some(JInt(length))
      else None
  {
    var p := PositionFields(i, total, length);
    assert p[1..][1..][1..] == [];
    assert LastFor(p[1..][1..], k) == if k == "content_length" then Some(JInt(length)) else None;
  }

  /** The metadata a chunk of `TextPieces` gets for key `k`. */
  lemma TextPieceGet(parts: seq<string>, base: seq<(string, Json)>, extra: seq<(string, Json)>, i: nat, k: string)
    requires i < |parts|
    ensures Get(JObj(Update(base, PositionFields(i, |parts|, |parts[i]|) + extra)), k) ==
      match LastFor(extra, k)
      case Some(v) => Some(v)
      case None =>
        match LastFor(PositionFields(i, |parts|, |parts[i]|), k)
        case Some(v) => Some(v)
        case None => Get(JObj(base), k)
  {
    LastForAppend(PositionFields(i, |parts|, |parts[i]|), extra, k);
    UpdateGet(base, PositionFields(i, |parts|, |parts[i]|) + extra, k);
  }

  /** A key other than the three position keys keeps the value the base
      metadata gives it. */
  lemma BaseKeyKept(parts: seq<string>, base: seq<(string, Json)>, i: nat, k: string)
    requires i < |parts| && k != "chunk_index" && k != "total_chunks" && k != "content_length"
    ensures Get(JObj(Update(base, PositionFields(i, |parts|, |parts[i]|) + [])), k) == Get(JObj(base), k)
  {
    TextPieceGet(parts, base, [], i, k);
    PositionFieldsLast(i, |parts|, |parts[i]|, k);
  }

  /** The metadata of a text chunk records its own index, the number of
      chunks and its length, and keeps every other key of `base` that
      `extra` does not name. */
  lemma TextPieceMetadata(parts: seq<string>, base: seq<(string, Json)>, extra: seq<(string, Json)>,
                          sourceId: nat -> Json, sourceType: string, contentType: Json, i: nat, k: string)
    requires i < |parts|
    requires LastFor(extra, "chunk_index").None? && LastFor(extra, "total_chunks").None? && LastFor(extra, "content_length").None?
    ensures var m := JObj(TextPieces(parts, base, extra, sourceId, sourceType, contentType)[i].metadata);
      Get(m, "chunk_index") == Some(JInt(i))
      && Get(m, "total_chunks") == Some(JInt(|parts|))
      && Get(m, "content_length") == Some(JInt(|parts[i]|))
      && (k != "chunk_index" && k != "total_chunks" && k != "content_length" && LastFor(extra, k).None?
          ==> Get(m, k) == Get(JObj(base), k))
  {
    var m := Update(base, PositionFields(i, |parts|, |parts[i]|) + extra);
    assert TextPieces(parts, base, extra, sourceId, sourceType, contentType)[i].metadata == m;
    TextPieceGet(parts, base, extra, i, "chunk_index");
    PositionFieldsLast(i, |parts|, |parts[i]|, "chunk_index");
    TextPieceGet(parts, base, extra, i, "total_chunks");
    PositionFieldsLast(i, |parts|, |parts[i]|, "total_chunks");
    TextPieceGet(parts, base, extra, i, "content_length");
    PositionFieldsLast(i, |parts|, |parts[i]|, "content_length");
    TextPieceGet(parts, base, extra, i, k);
    PositionFieldsLast(i, |parts|, |parts[i]|, k);
  }

  /** The last value for a key in `a + b` is `b`'s when `b` has one. */
  lemma {:induction false} LastForAppend(a: seq<(string, Json)>, b: seq<(string, Json)>, k: string)
    ensures LastFor(a + b, k) == if LastFor(b, k).Some? then LastFor(b, k) else LastFor(a, k)
    decreases |a|
  {
    if |a| > 0 {
      assert (a + b)[1..] == a[1..] + b;
      LastForAppend(a[1..], b, k);
    } else {
      assert a + b == b;
    }
  }

  /** `[mk(x, i) for i, x in enumerate(xs) if keep(x)]` from position `i`
      on: a dropped item still uses up its position. */
  function KeptFrom<T>(xs: seq<T>, i: nat, keep: T -> bool, mk: (T, nat) -> Piece): (r: seq<Piece>)
    requires i <= |xs|
    ensures |r| <= |xs| - i
    decreases |xs| - i
  {
    if i == |xs| then []
    else (if keep(xs[i]) then [mk(xs[i], i)] else []) + KeptFrom(xs, i + 1, keep, mk)
  }

  /** When every item is kept, the `k`-th result is made from the `k`-th
      item at its own position. */
  lemma {:induction false} KeptAll<T>(xs: seq<T>, i: nat, keep: T -> bool, mk: (T, nat) -> Piece)
    requires i <= |xs| && forall k :: i <= k < |xs| ==> keep(xs[k])
    ensures var r := KeptFrom(xs, i, keep, mk);
      |r| == |xs| - i && forall k :: 0 <= k < |r| ==> r[k] == mk(xs[i + k], i + k)
    decreases |xs| - i
  {
    if i < |xs| {
      KeptAll(xs, i + 1, keep, mk);
      assert KeptFrom(xs, i, keep, mk) == [mk(xs[i], i)] + KeptFrom(xs, i + 1, keep, mk);
    }
  }

  /** `for i, x in enumerate(xs): out.extend(f(x, i))` from position `i`
      on, where `f` may raise (`None`): the first raise aborts the loop. */
  function Gather<T, U>(xs: seq<T>, i: nat, f: (T, nat) -> Option<seq<U>>): Option<seq<U>>
    requires i <= |xs|
    decreases |xs| - i
  {
    if i == |xs| then Some([])
    else
      match f(xs[i], i)
      case None => None
      case Some(here) =>
        match Gather(xs, i + 1, f)
        case None => None
        case Some(rest) => Some(here + rest)
  }

  /** One raising item makes the whole loop raise. */
  lemma {:induction false} GatherFails<T, U>(xs: seq<T>, i: nat, k: nat, f: (T, nat) -> Option<seq<U>>)
    requires i <= k < |xs| && f(xs[k], k).None?
    ensures Gather(xs, i, f).None?
    decreases k - i
  {
    if i < k {
      GatherFails(xs, i + 1, k, f);
    }
  }

  /** When no item raises, the output holds every item's output, in order:
      its length is the sum of theirs. */
  function OutputSize<T, U>(xs: seq<T>, i: nat, f: (T, nat) -> Option<seq<U>>): nat
    requires i <= |xs|
    decreases |xs| - i
  {
    if i == |xs| then 0
    else (match f(xs[i], i) case None => 0 case Some(here) => |here|) + OutputSize(xs, i + 1, f)
  }

  lemma {:induction false} GatherSize<T, U>(xs: seq<T>, i: nat, f: (T, nat) -> Option<seq<U>>)
    requires i <= |xs| && Gather(xs, i, f).Some?
    ensures |Gather(xs, i, f).value| == OutputSize(xs, i, f)
    decreases |xs| - i
  {
    if i < |xs| {
      GatherSize(xs, i + 1, f);
    }
  }
}
