/** The per-type handlers of `ContentProcessor`: the generic fallback,
    announcements, the `about` global and department sections. Each
    handler yields its chunks without ids, or `None` when Python would
    raise. */
module Processors {
  import opened Options
  import opened Text
  import opened Json
  import opened Environment
  import opened Chunks
  import opened Sections
  import opened Links
  import Chunker
  import HtmlClean
  import RichText

  /** Keys whose line `_process_generic_content` moves to the front. */
  predicate IsHeadKey(key: string) { key == "title" || key == "name" }

  /** `key.title()` for the two head keys. */
  function HeadLabel(key: string): string { if key == "title" then "Title" else "Name" }

  /** A field contributes a line when its value is a non-blank string. */
  predicate Contributes(v: Json) { v.JStr? && Strip(v.s) != [] }

  /** The line of a field whose value is the string `s`. */
  function FieldLine(key: string, s: string): string {
    (if IsHeadKey(key) then HeadLabel(key) else key) + ": " + s
  }

  /** The `text_content` list after visiting `fields` in order: a head
      key's line is inserted at position 0, any other line appended. */
  function GenericLines(fields: seq<(string, Json)>): (r: seq<string>)
    decreases |fields|
  {
    if |fields| == 0 then []
    else
      var acc := GenericLines(fields[..|fields| - 1]);
      var f := fields[|fields| - 1];
      if !Contributes(f.1) then acc
      else if IsHeadKey(f.0) then [FieldLine(f.0, f.1.s)] + acc
      else acc + [FieldLine(f.0, f.1.s)]
  }

  /** The head lines, in field order. */
  function HeadLines(fields: seq<(string, Json)>): seq<string>
    decreases |fields|
  {
    if |fields| == 0 then []
    else
      (if Contributes(fields[0].1) && IsHeadKey(fields[0].0) then [FieldLine(fields[0].0, fields[0].1.s)] else [])
      + HeadLines(fields[1..])
  }

  /** The other lines, in field order. */
  function BodyLines(fields: seq<(string, Json)>): seq<string>
    decreases |fields|
  {
    if |fields| == 0 then []
    else
      (if Contributes(fields[0].1) && !IsHeadKey(fields[0].0) then [FieldLine(fields[0].0, fields[0].1.s)] else [])
      + BodyLines(fields[1..])
  }

  function Reverse<T>(xs: seq<T>): (r: seq<T>)
    ensures |r| == |xs|
  {
    if |xs| == 0 then [] else Reverse(xs[1..]) + [xs[0]]
  }

  lemma {:induction false} ReverseSnoc<T>(xs: seq<T>, x: T)
    ensures Reverse(xs + [x]) == [x] + Reverse(xs)
    decreases |xs|
  {
    if |xs| == 0 {
      assert Reverse([x]) == Reverse([x][1..]) + [x];
    } else {
      assert (xs + [x])[1..] == xs[1..] + [x];
      ReverseSnoc(xs[1..], x);
    }
  }

  lemma {:induction false} HeadSnoc(fields: seq<(string, Json)>, f: (string, Json))
    ensures HeadLines(fields + [f]) == HeadLines(fields) + HeadLines([f])
    decreases |fields|
  {
    if |fields| == 0 {
      assert fields + [f] == [f];
    } else {
      assert (fields + [f])[1..] == fields[1..] + [f];
      HeadSnoc(fields[1..], f);
    }
  }

  lemma {:induction false} BodySnoc(fields: seq<(string, Json)>, f: (string, Json))
    ensures BodyLines(fields + [f]) == BodyLines(fields) + BodyLines([f])
    decreases |fields|
  {
    if |fields| == 0 {
      assert fields + [f] == [f];
    } else {
      assert (fields + [f])[1..] == fields[1..] + [f];
      BodySnoc(fields[1..], f);
    }
  }

  /** The lines of `_process_generic_content` are the head lines, last
      first, followed by the other lines in field order. */
  lemma {:induction false} GenericLinesOrder(fields: seq<(string, Json)>)
    ensures GenericLines(fields) == Reverse(HeadLines(fields)) + BodyLines(fields)
    decreases |fields|
  {
    if |fields| > 0 {
      GenericLinesOrder(fields[..|fields| - 1]);
      GenericLinesLast(fields);
    }
  }

  /** The step of `GenericLinesOrder`: the last field's line goes to the
      front or to the back. */
  lemma GenericLinesLast(fields: seq<(string, Json)>)
    requires |fields| > 0
    requires GenericLines(fields[..|fields| - 1])
      == Reverse(HeadLines(fields[..|fields| - 1])) + BodyLines(fields[..|fields| - 1])
    ensures GenericLines(fields) == Reverse(HeadLines(fields)) + BodyLines(fields)
  {
    var init := fields[..|fields| - 1];
    var f := fields[|fields| - 1];
    HeadBodyLast(fields);
    assert [f][1..] == [];
    if !Contributes(f.1) {
      assert GenericLines(fields) == GenericLines(init);
      assert HeadLines([f]) == [] && BodyLines([f]) == [];
      assert HeadLines(fields) == HeadLines(init) && BodyLines(fields) == BodyLines(init);
    } else if IsHeadKey(f.0) {
      var line := FieldLine(f.0, f.1.s);
      assert GenericLines(fields) == [line] + GenericLines(init);
      assert HeadLines([f]) == [line] && BodyLines([f]) == [];
      assert HeadLines(fields) == HeadLines(init) + [line] && BodyLines(fields) == BodyLines(init);
      ReverseSnoc(HeadLines(init), line);
      Chunker.AppendAssoc([line], Reverse(HeadLines(init)), BodyLines(init));
    } else {
      var line := FieldLine(f.0, f.1.s);
      assert GenericLines(fields) == GenericLines(init) + [line];
      assert HeadLines([f]) == [] && BodyLines([f]) == [line];
      assert HeadLines(fields) == HeadLines(init) && BodyLines(fields) == BodyLines(init) + [line];
      Chunker.AppendAssoc(Reverse(HeadLines(init)), BodyLines(init), [line]);
    }
  }

  lemma HeadBodyLast(fields: seq<(string, Json)>)
    requires |fields| > 0
    ensures var init := fields[..|fields| - 1];
      var f := fields[|fields| - 1];
      && HeadLines(fields) == HeadLines(init) + HeadLines([f])
      && BodyLines(fields) == BodyLines(init) + BodyLines([f])
  {
    var init := fields[..|fields| - 1];
    var f := fields[|fields| - 1];
    assert fields == init + [f];
    HeadSnoc(init, f);
    BodySnoc(init, f);
  }

  /** The generic metadata; its second key is `source_{source_type}`. */
  function GenericBase(contentType: Json, data: Json, sourceType: string, clean: string, env: Env)
    : seq<(string, Json)>
  {
    Dict(GenericPairs(sourceType, contentType, GetOr(data, "id", JStr("")),
                      Or(GetOr(data, "title", JNull), GetOr(data, "name", contentType)),
                      GetOr(data, "updatedAt", JStr(env.now)), KeywordsOf(clean)))
  }

  function GenericPairs(sourceType: string, contentType: Json, sourceId: Json, title: Json, updated: Json,
                        keywords: Json): seq<(string, Json)>
  {
    [("source_type", JStr(sourceType)), ("source_" + sourceType, contentType), ("source_id", sourceId),
     ("document_title", title), ("content_type", JStr("generic")), ("category", JStr("general")),
     ("language", JStr("en")), ("last_updated", updated), ("is_active", JBool(true)),
     ("searchable_keywords", keywords), ("search_boost", JReal(0.8))]
  }

  /** `_process_generic_content(content_type, data, source_type)`: the
      lines joined by newlines and cleaned, then chunked. `data` must be a
      dict. */
  function Generic(contentType: Json, data: Json, sourceType: string, env: Env): (r: Option<seq<Piece>>)
    ensures r.Some? <==> data.JObj?
    ensures data.JObj? && GenericLines(data.fields) == [] ==> r == Some([])
    ensures r.Some? ==> forall i :: 0 <= i < |r.value| ==>
      (r.value[i].sourceType == sourceType && r.value[i].contentType == contentType
       && r.value[i].sourceId == GetOr(data, "id", JStr("")) && r.value[i].chunkIndex == i)
  {
    if !data.JObj? then None
    else
      var lines := GenericLines(data.fields);
      if lines == [] then Some([])
      else
        var clean := HtmlClean.CleanText(Join(lines, "\n"), env);
        Some(TextPieces(Chunker.Chunk(clean), GenericBase(contentType, data, sourceType, clean, env), [],
                        (i: nat) => GetOr(data, "id", JStr("")), sourceType, contentType))
  }

  /** The text of the generic chunks: the head lines, last first, then the
      other lines in field order, newline-joined, cleaned and then chunked;
      chunk `i` holds the `i`-th piece. */
  lemma GenericContents(contentType: Json, data: Json, sourceType: string, env: Env)
    requires data.JObj? && GenericLines(data.fields) != []
    ensures var cs := Chunker.Chunk(HtmlClean.CleanText(Join(Reverse(HeadLines(data.fields)) + BodyLines(data.fields), "\n"), env));
      var r := Generic(contentType, data, sourceType, env);
      r.Some? && |r.value| == |cs| && forall i :: 0 <= i < |cs| ==> r.value[i].content == cs[i]
  {
    GenericLinesOrder(data.fields);
  }

  /** Every generic chunk records the payload's type under
      `source_{source_type}`, its own position, the `generic` content type
      and the search boost 0.8. */
  lemma GenericMetadata(contentType: Json, data: Json, sourceType: string, env: Env, i: nat)
    requires sourceType == "collection" || sourceType == "global"
    requires Generic(contentType, data, sourceType, env).Some? && i < |Generic(contentType, data, sourceType, env).value|
    ensures var m := JObj(Generic(contentType, data, sourceType, env).value[i].metadata);
      Get(m, "source_" + sourceType) == Some(contentType) && Get(m, "content_type") == Some(JStr("generic"))
      && Get(m, "search_boost") == Some(JReal(0.8)) && Get(m, "chunk_index") == Some(JInt(i))
  {
    var clean := HtmlClean.CleanText(Join(GenericLines(data.fields), "\n"), env);
    var parts := Chunker.Chunk(clean);
    var pairs := GenericPairs(sourceType, contentType, GetOr(data, "id", JStr("")),
                              Or(GetOr(data, "title", JNull), GetOr(data, "name", contentType)),
                              GetOr(data, "updatedAt", JStr(env.now)), KeywordsOf(clean));
    var m := Generic(contentType, data, sourceType, env).value[i].metadata;
    assert m == Update(Dict(pairs), PositionFields(i, |parts|, |parts[i]|) + []);
    BaseKeyKept(parts, Dict(pairs), i, "source_" + sourceType);
    BaseKeyKept(parts, Dict(pairs), i, "content_type");
    BaseKeyKept(parts, Dict(pairs), i, "search_boost");
    TextPieceGet(parts, Dict(pairs), [], i, "chunk_index");
    PositionFieldsLast(i, |parts|, |parts[i]|, "chunk_index");
    GenericPairsGet(sourceType, contentType, GetOr(data, "id", JStr("")),
                    Or(GetOr(data, "title", JNull), GetOr(data, "name", contentType)),
                    GetOr(data, "updatedAt", JStr(env.now)), KeywordsOf(clean));
  }

  lemma GenericPairsGet(sourceType: string, contentType: Json, sourceId: Json, title: Json, updated: Json,
                        keywords: Json)
    requires sourceType == "collection" || sourceType == "global"
    ensures var b := JObj(Dict(GenericPairs(sourceType, contentType, sourceId, title, updated, keywords)));
      Get(b, "source_" + sourceType) == Some(contentType) && Get(b, "content_type") == Some(JStr("generic"))
      && Get(b, "search_boost") == Some(JReal(0.8))
  {
    var pairs := GenericPairs(sourceType, contentType, sourceId, title, updated, keywords);
    assert pairs[1].1 == contentType && pairs[4].1 == JStr("generic") && pairs[10].1 == JReal(0.8);
    GenericPairAt(sourceType, contentType, sourceId, title, updated, keywords, "source_" + sourceType, 1);
    GenericPairAt(sourceType, contentType, sourceId, title, updated, keywords, "content_type", 4);
    GenericPairAt(sourceType, contentType, sourceId, title, updated, keywords, "search_boost", 10);
  }

  lemma GenericPairAt(sourceType: string, contentType: Json, sourceId: Json, title: Json, updated: Json,
                      keywords: Json, k: string, i: nat)
    requires sourceType == "collection" || sourceType == "global"
    requires (k == "source_" + sourceType && i == 1) || (k == "content_type" && i == 4) || (k == "search_boost" && i == 10)
    ensures var pairs := GenericPairs(sourceType, contentType, sourceId, title, updated, keywords);
      i < |pairs| && Get(JObj(Dict(pairs)), k) == Some(pairs[i].1)
  {
    var pairs := GenericPairs(sourceType, contentType, sourceId, title, updated, keywords);
    DictGet(pairs, k);
    LastForAt(pairs, k, i);
  }

  /** The announcement metadata. */
  function AnnouncementBase(sourceId: Json, title: Json, kind: Json, high: bool, urgent: bool, updated: Json,
                            keywords: Json): seq<(string, Json)>
  {
    [("source_type", JStr("collection")), ("source_collection", JStr("announcements")),
     ("source_id", sourceId), ("document_title", title), ("content_type", JStr("announcement")),
     ("category", JStr("administrative")), ("announcement_type", kind),
     ("priority_level", JStr(if high then "high" else "medium")), ("is_urgent", JBool(urgent)),
     ("target_audience", JArr([JStr("all_students"), JStr("faculty")])), ("language", JStr("en")),
     ("last_updated", updated), ("is_active", JBool(true)),
     ("searchable_keywords", keywords), ("search_boost", JReal(1.2))]
  }

  lemma AnnouncementBaseGet(sourceId: Json, title: Json, kind: Json, high: bool, urgent: bool, updated: Json,
                            keywords: Json)
    ensures var b := JObj(AnnouncementBase(sourceId, title, kind, high, urgent, updated, keywords));
      Get(b, "priority_level") == Some(JStr(if high then "high" else "medium"))
      && Get(b, "is_urgent") == Some(JBool(urgent)) && Get(b, "search_boost") == Some(JReal(1.2))
  {
    var b := AnnouncementBase(sourceId, title, kind, high, urgent, updated, keywords);
    assert b[7].1 == JStr(if high then "high" else "medium") && b[8].1 == JBool(urgent) && b[14].1 == JReal(1.2);
    AnnouncementBaseAt(sourceId, title, kind, high, urgent, updated, keywords, "priority_level", 7);
    AnnouncementBaseAt(sourceId, title, kind, high, urgent, updated, keywords, "is_urgent", 8);
    AnnouncementBaseAt(sourceId, title, kind, high, urgent, updated, keywords, "search_boost", 14);
  }

  lemma AnnouncementBaseAt(sourceId: Json, title: Json, kind: Json, high: bool, urgent: bool, updated: Json,
                           keywords: Json, k: string, i: nat)
    requires (k == "priority_level" && i == 7) || (k == "is_urgent" && i == 8) || (k == "search_boost" && i == 14)
    ensures var b := AnnouncementBase(sourceId, title, kind, high, urgent, updated, keywords);
      i < |b| && Get(JObj(b), k) == Some(b[i].1)
  {
    var b := AnnouncementBase(sourceId, title, kind, high, urgent, updated, keywords);
    GetAt(b, k, i);
  }

  /** The priority of an announcement; 1 when absent. */
  function Priority(data: Json): Json { GetOr(data, "priority", JInt(1)) }

  /** `_process_announcement`: title, excerpt and content, blank-line
      separated, cleaned and chunked. Comparing the priority with 2 raises
      for a priority that is not a number. */
  function Announcement(data: Json, env: Env): (r: Option<seq<Piece>>)
    ensures r.Some? <==> data.JObj? && NumLe(Priority(data), 2).Some?
    ensures r.Some? ==> forall i :: 0 <= i < |r.value| ==>
      (r.value[i].sourceId == GetOr(data, "id", JStr("")) && r.value[i].sourceType == "collection"
       && r.value[i].contentType == JStr("announcements") && r.value[i].chunkIndex == i)
  {
    if !data.JObj? then None
    else
      var title := GetOr(data, "title", JStr(""));
      var full := HtmlClean.CleanText(F(title, env) + "\n\n" + F(GetOr(data, "excerpt", JStr("")), env) + "\n\n"
                                      + F(GetOr(data, "content", JStr("")), env), env);
      match NumLe(Priority(data), 2)
      case None => None
      case Some(high) =>
        Some(TextPieces(Chunker.Chunk(full), AnnouncementBase(GetOr(data, "id", JStr("")), title, GetOr(data, "type", JStr("general")), high,
                                         NumEq(Priority(data), 1), GetOr(data, "updatedAt", JStr(env.now)), KeywordsOf(full)), [],
                        (i: nat) => GetOr(data, "id", JStr("")), "collection", JStr("announcements")))
  }

  /** Every announcement chunk is `high` priority exactly when the priority
      is at most 2, urgent exactly when it equals 1, and boosted by 1.2. */
  lemma AnnouncementPriority(data: Json, env: Env, i: nat)
    requires Announcement(data, env).Some? && i < |Announcement(data, env).value|
    ensures var m := JObj(Announcement(data, env).value[i].metadata);
      Get(m, "priority_level") == Some(JStr(if NumLe(Priority(data), 2).value then "high" else "medium"))
      && Get(m, "is_urgent") == Some(JBool(NumEq(Priority(data), 1)))
      && Get(m, "search_boost") == Some(JReal(1.2))
  {
    var title := GetOr(data, "title", JStr(""));
    var full := HtmlClean.CleanText(F(title, env) + "\n\n" + F(GetOr(data, "excerpt", JStr("")), env) + "\n\n"
                                    + F(GetOr(data, "content", JStr("")), env), env);
    var parts := Chunker.Chunk(full);
    var base := AnnouncementBase(GetOr(data, "id", JStr("")), title, GetOr(data, "type", JStr("general")),
                                 NumLe(Priority(data), 2).value, NumEq(Priority(data), 1),
                                 GetOr(data, "updatedAt", JStr(env.now)), KeywordsOf(full));
    var m := Announcement(data, env).value[i].metadata;
    assert m == Update(base, PositionFields(i, |parts|, |parts[i]|) + []);
    BaseKeyKept(parts, base, i, "priority_level");
    BaseKeyKept(parts, base, i, "is_urgent");
    BaseKeyKept(parts, base, i, "search_boost");
    AnnouncementBaseGet(GetOr(data, "id", JStr("")), title, GetOr(data, "type", JStr("general")),
                        NumLe(Priority(data), 2).value, NumEq(Priority(data), 1),
                        GetOr(data, "updatedAt", JStr(env.now)), KeywordsOf(full));
  }

  /** An announcement without a priority takes the default 1, so it is
      both urgent and high. */
  lemma UrgentIsHigh(data: Json)
    ensures !HasKey(data, "priority") ==> NumEq(Priority(data), 1) && NumLe(Priority(data), 2) == Some(true)
  {
  }

  /** `section.get('blockType', '') or section.get('contentType', '')`. */
  function BlockType(section: Json): Json {
    Or(GetOr(section, "blockType", JStr("")), GetOr(section, "contentType", JStr("")))
  }

  /** A dict with a `root` key: structured rich-text content. */
  predicate HasRoot(cd: Json) { cd.JObj? && HasKey(cd, "root") }

  /** The extracted rich text, kept only when non-empty. */
  function RichTextPart(cd: Json, env: Env): Option<seq<Json>> {
    match RichText.ExtractRichText(cd, env.repr)
    case None => None
    case Some(t) => Some(if t == [] then [] else [JStr(t)])
  }

  /** The part a section's own title adds: `\n## {title}`. */
  function TitlePart(section: Json, env: Env): seq<Json> {
    if HasKey(section, "title") then [JStr("\n## " + F(Get(section, "title").value, env))] else []
  }

  /** The parts a section adds for its block type. A hero subtitle is
      added as it is, string or not. */
  function BlockParts(section: Json, env: Env): Option<seq<Json>> {
    var st := BlockType(section);
    if st == JStr("richText") && HasKey(section, "content") then
      var cd := Get(section, "content").value;
      if HasRoot(cd) then RichTextPart(cd, env)
      else if cd.JStr? then Some([JStr(HtmlClean.CleanText(cd.s, env))])
      else Some([])
    else if st == JStr("mixed") && HasKey(section, "content") then
      var cd := Get(section, "content").value;
      if HasRoot(cd) then RichTextPart(cd, env) else Some([])
    else if st == JStr("textSection") then
      if HasKey(section, "content") then
        match HtmlClean.CleanHtml(Get(section, "content").value, env)
        case None => None
        case Some(t) => Some([JStr(t)])
      else Some([])
    else if st == JStr("heroSection") then
      Some(if HasKey(section, "subtitle") then [Get(section, "subtitle").value] else [])
    else Some([])
  }

  /** One `Label: value` entry of the image summary, for a truthy field. */
  function ImageField(info: Json, key: string, name: string, env: Env): seq<string> {
    if HasKey(info, key) && Truthy(Get(info, key).value) then [name + ": " + F(Get(info, key).value, env)] else []
  }

  predicate HasImage(section: Json) { HasKey(section, "image") && Get(section, "image").value.JObj? }

  /** `[Image: alt, File: filename, Image URL: url]` for an image dict
      with any of the three fields truthy. */
  function ImagePart(section: Json, env: Env): (r: seq<Json>)
    ensures |r| <= 1
  {
    if HasImage(section) then
      var info := Get(section, "image").value;
      var entries := ImageField(info, "alt", "Image", env) + ImageField(info, "filename", "File", env)
                     + ImageField(info, "url", "Image URL", env);
      if entries == [] then [] else [JStr("[" + Join(entries, ", ") + "]")]
    else []
  }

  /** `key in info and info[key]`. */
  predicate TruthyField(info: Json, key: string) { HasKey(info, key) && Truthy(Get(info, key).value) }

  /** An image dict adds a part exactly when its `alt`, `filename` or `url`
      is truthy. */
  lemma ImagePartPresent(section: Json, env: Env)
    ensures ImagePart(section, env) != [] <==>
      HasImage(section) && (TruthyField(Get(section, "image").value, "alt")
        || TruthyField(Get(section, "image").value, "filename") || TruthyField(Get(section, "image").value, "url"))
  {
  }

  /** `len([row for row in rows if row.get('rowData')])`: every row needs
      `.get`. */
  function RowsWithData(rows: seq<Json>): (r: Option<nat>)
    ensures r.Some? <==> forall i :: 0 <= i < |rows| ==> rows[i].JObj?
    ensures r.Some? ==> r.value <= |rows|
  {
    if |rows| == 0 then Some(0)
    else if !rows[0].JObj? then None
    else
      var rest := RowsWithData(rows[1..]);
      assert forall i :: 1 <= i < |rows| ==> rows[i] == rows[1..][i - 1];
      match rest
      case None => None
      case Some(n) => Some((if Truthy(GetOr(rows[0], "rowData", JNull)) then 1 else 0) + n)
  }

  /** When every row carries data, every row is counted. */
  lemma {:induction false} AllRowsCounted(rows: seq<Json>)
    requires forall i :: 0 <= i < |rows| ==> rows[i].JObj? && Truthy(GetOr(rows[i], "rowData", JNull))
    ensures RowsWithData(rows) == Some(|rows|)
  {
    if |rows| > 0 {
      assert forall i :: 1 <= i < |rows| ==> rows[i] == rows[1..][i - 1];
      AllRowsCounted(rows[1..]);
    }
  }

  /** `if 'columns' in table_config and table_config['columns']`: the
      column headers, comma-joined, when there are any. */
  function ColumnsPart(tc: Json): Option<seq<Json>> {
    match In("columns", tc)
    case None => None
    case Some(present) =>
      if !present then Some([])
      else
        match Subscript(tc, "columns")
        case None => None
        case Some(cols) =>
          if !Truthy(cols) then Some([])
          else
            match Iter(cols)
            case None => None
            case Some(cs) =>
              match ColumnHeaders(cs)
              case None => None
              case Some(hs) =>
                if hs == [] then Some([])
                else
                  match AllStrs(hs)
                  case None => None
                  case Some(ss) => Some([JStr("Table columns: " + Join(ss, ", "))])
  }

  /** `if 'rows' in table_config and table_config['rows']`: the number of
      rows with data, when positive. */
  function RowsPart(tc: Json): Option<seq<Json>> {
    match In("rows", tc)
    case None => None
    case Some(present) =>
      if !present then Some([])
      else
        match Subscript(tc, "rows")
        case None => None
        case Some(rows) =>
          if !Truthy(rows) then Some([])
          else
            match Iter(rows)
            case None => None
            case Some(rs) =>
              match RowsWithData(rs)
              case None => None
              case Some(n) => Some(if n > 0 then [JStr("Table contains " + NatStr(n) + " data rows")] else [])
  }

  /** The parts a `dynamicTableConfig` adds: its columns, then its row
      count. */
  function DynamicPart(section: Json): Option<seq<Json>> {
    if !HasKey(section, "dynamicTableConfig") then Some([])
    else
      var tc := Get(section, "dynamicTableConfig").value;
      match ColumnsPart(tc)
      case None => None
      case Some(cp) =>
        match RowsPart(tc)
        case None => None
        case Some(rp) => Some(cp + rp)
  }

  /** `Contains {n} tables` for a non-empty list `multipleTablesConfig`. */
  function MultiPart(section: Json): seq<Json> {
    if HasKey(section, "multipleTablesConfig") && Get(section, "multipleTablesConfig").value.JArr?
       && Get(section, "multipleTablesConfig").value.items != [] then
      [JStr("Contains " + NatStr(|Get(section, "multipleTablesConfig").value.items|) + " tables")]
    else []
  }

  /** Everything one dict section of the `about` global adds, in order:
      title, block content, image, dynamic table, multiple tables. */
  function SectionParts(section: Json, env: Env): Option<seq<Json>> {
    match BlockParts(section, env)
    case None => None
    case Some(bp) =>
      match DynamicPart(section)
      case None => None
      case Some(dp) => Some(TitlePart(section, env) + bp + ImagePart(section, env) + dp + MultiPart(section))
  }

  /** A hero section whose only other key is its subtitle adds that
      subtitle unchanged, whatever its type. */
  lemma HeroSubtitleKept(v: Json, env: Env)
    ensures SectionParts(JObj([("blockType", JStr("heroSection")), ("subtitle", v)]), env) == Some([v])
  {
    var sec := JObj([("blockType", JStr("heroSection")), ("subtitle", v)]);
    Get2("blockType", JStr("heroSection"), "subtitle", v, "blockType");
    Get2("blockType", JStr("heroSection"), "subtitle", v, "subtitle");
    Get2("blockType", JStr("heroSection"), "subtitle", v, "title");
    Get2("blockType", JStr("heroSection"), "subtitle", v, "image");
    Get2("blockType", JStr("heroSection"), "subtitle", v, "dynamicTableConfig");
    Get2("blockType", JStr("heroSection"), "subtitle", v, "multipleTablesConfig");
    assert BlockType(sec) == JStr("heroSection");
    assert BlockParts(sec, env) == Some([v]);
    assert DynamicPart(sec) == Some([]);
    assert TitlePart(sec, env) == [] && ImagePart(sec, env) == [] && MultiPart(sec) == [];
    assert [] + [v] + [] + [] + [] == [v];
  }

  /** The parts of `sections[i:]`; items that are not dicts add nothing. */
  function SectionsParts(sections: seq<Json>, i: nat, env: Env): Option<seq<Json>>
    requires i <= |sections|
    decreases |sections| - i
  {
    if i == |sections| then Some([])
    else
      var here := if sections[i].JObj? then SectionParts(sections[i], env) else Some([]);
      match here
      case None => None
      case Some(h) =>
        match SectionsParts(sections, i + 1, env)
        case None => None
        case Some(rest) => Some(h + rest)
  }

  /** `Title: …` and `Subtitle: …` from the hero keys. */
  function HeroParts(data: Json, env: Env): seq<Json> {
    (if HasKey(data, "heroTitle") then [JStr("Title: " + F(Get(data, "heroTitle").value, env))] else [])
    + (if HasKey(data, "heroSubtitle") then [JStr("Subtitle: " + F(Get(data, "heroSubtitle").value, env))] else [])
  }

  /** `content_parts` of `_process_about`, or `None` when collecting them
      raises. */
  function AboutParts(data: Json, env: Env): Option<seq<Json>> {
    match Iter(GetOr(data, "sections", JArr([])))
    case None => None
    case Some(secs) =>
      match SectionsParts(secs, 0, env)
      case None => None
      case Some(ps) => Some(HeroParts(data, env) + ps)
  }

  /** The links of one section: only rich-text and mixed sections whose
      content has a `root`. */
  function SectionLinks(section: Json): (r: Option<seq<Link>>)
    ensures r.Some? ==> AllUrls(r.value)
  {
    if section.JObj? && (BlockType(section) == JStr("richText") || BlockType(section) == JStr("mixed"))
       && HasKey(section, "content") && HasRoot(Get(section, "content").value) then
      ExtractLinks(Get(section, "content").value)
    else Some([])
  }

  /** `all_links` of `_process_about`, section by section. */
  function AboutLinks(sections: seq<Json>, i: nat): (r: Option<seq<Link>>)
    requires i <= |sections|
    ensures r.Some? ==> AllUrls(r.value)
    decreases |sections| - i
  {
    if i == |sections| then Some([])
    else
      match SectionLinks(sections[i])
      case None => None
      case Some(here) =>
        match AboutLinks(sections, i + 1)
        case None => None
        case Some(rest) => Some(here + rest)
  }

  function AboutBase(sourceId: Json, title: Json, updated: Json, keywords: Json): seq<(string, Json)> {
    [("source_type", JStr("global")), ("source_global", JStr("about")), ("source_id", sourceId),
     ("document_title", title), ("content_type", JStr("about")), ("category", JStr("institutional")),
     ("language", JStr("en")), ("last_updated", updated), ("is_active", JBool(true)),
     ("searchable_keywords", keywords), ("search_boost", JReal(1.2))]
  }

  /** The text chunks of the `about` global, ids `about-{i}`. */
  function AboutText(data: Json, full: string, env: Env): (r: seq<Piece>)
    ensures |r| == |Chunker.Chunk(full)|
    ensures forall i :: 0 <= i < |r| ==>
      (r[i].sourceId == JStr("about-" + NatStr(i)) && r[i].chunkIndex == i && r[i].totalChunks == |r|)
  {
    TextPieces(Chunker.Chunk(full),
               AboutBase(GetOr(data, "id", JStr("about")),
                         GetOr(data, "heroTitle", JStr("About Rajalakshmi Engineering College")),
                         GetOr(data, "updatedAt", JStr(env.now)), KeywordsOf(full)),
               [], (i: nat) => JStr("about-" + NatStr(i)), "global", JStr("about"))
  }

  /** The text chunks of `full`, ids `about-{i}` and numbered `i` of their
      count, then one chunk per link, ids `about-link-{k}`, each text
      starting `Link: `. (The source skips the link step for an empty link
      list, which yields no chunks either way.) */
  function AboutChunks(data: Json, full: string, links: seq<Link>, env: Env): (r: seq<Piece>)
    requires AllUrls(links)
    ensures var n := |AboutText(data, full, env)|;
      |r| == n + |links|
      && (forall i :: 0 <= i < n ==> (r[i].sourceId == JStr("about-" + NatStr(i)) && r[i].chunkIndex == i && r[i].totalChunks == n))
      && forall k :: n <= k < |r| ==> (r[k].sourceId == JStr(LinkSourceId("about", k - n)) && StartsWith(r[k].content, "Link: "))
  {
    WithLinks(AboutText(data, full, env), links, "about", "global", "about", env.now, env.repr)
  }

  /** `_process_about`: without any part the generic processing of
      `about`; otherwise the parts, blank-line joined (every part must be
      a string), chunked, followed by one chunk per link. Its cases are
      stated by `AboutWithoutSectionsIsGeneric`, `AboutUncleaned` and
      `NonStringPartFails`. */
  function About(data: Json, env: Env): (r: Option<seq<Piece>>)
    ensures !data.JObj? ==> r.None?
  {
    if !data.JObj? then None
    else
      match AboutParts(data, env)
      case None => None
      case Some(parts) =>
        if parts == [] then Generic(JStr("about"), data, "global", env)
        else AboutOfParts(data, parts, env)
  }

  /** The chunks of the non-empty `parts`: `None` when one is not a
      string or a section raises while its links are gathered. */
  function AboutOfParts(data: Json, parts: seq<Json>, env: Env): (r: Option<seq<Piece>>)
    requires Iter(GetOr(data, "sections", JArr([]))).Some?
  {
    match AllStrs(parts)
    case None => None
    case Some(strs) =>
      match AboutLinks(Iter(GetOr(data, "sections", JArr([]))).value, 0)
      case None => None
      case Some(links) => Some(AboutChunks(data, Join(strs, "\n\n"), links, env))
  }

  /** When every part is a string, the text chunks are the chunks of the
      parts joined by blank lines as they are: `_process_about` does not
      clean the joined text. The link chunks follow, one per link. */
  lemma AboutUncleaned(data: Json, env: Env, parts: seq<Json>, strs: seq<string>, links: seq<Link>)
    requires data.JObj? && AboutParts(data, env) == Some(parts) && parts != [] && AllStrs(parts) == Some(strs)
    requires Iter(GetOr(data, "sections", JArr([]))).Some?
    requires AboutLinks(Iter(GetOr(data, "sections", JArr([]))).value, 0) == Some(links)
    ensures var cs := Chunker.Chunk(Join(strs, "\n\n"));
      var r := About(data, env);
      r.Some? && |r.value| == |cs| + |links| && forall i :: 0 <= i < |cs| ==> r.value[i].content == cs[i]
  {
    AboutStrings(data, env, parts, strs, links);
    AboutChunksText(data, Join(strs, "\n\n"), links, env);
  }

  lemma AboutStrings(data: Json, env: Env, parts: seq<Json>, strs: seq<string>, links: seq<Link>)
    requires data.JObj? && AboutParts(data, env) == Some(parts) && parts != [] && AllStrs(parts) == Some(strs)
    requires Iter(GetOr(data, "sections", JArr([]))).Some?
    requires AboutLinks(Iter(GetOr(data, "sections", JArr([]))).value, 0) == Some(links)
    ensures AllUrls(links) && About(data, env) == Some(AboutChunks(data, Join(strs, "\n\n"), links, env))
  {
    assert About(data, env) == AboutOfParts(data, parts, env);
  }

  lemma AboutChunksText(data: Json, full: string, links: seq<Link>, env: Env)
    requires AllUrls(links)
    ensures var cs := Chunker.Chunk(full);
      var r := AboutChunks(data, full, links, env);
      |r| == |cs| + |links| && forall i :: 0 <= i < |cs| ==> r[i].content == cs[i]
  {
    var text := AboutText(data, full, env);
    assert AboutChunks(data, full, links, env) == WithLinks(text, links, "about", "global", "about", env.now, env.repr);
  }

  /** An `about` global with no hero keys and no sections is processed
      exactly as an unknown global named `about`. */
  lemma AboutWithoutSectionsIsGeneric(data: Json, env: Env)
    requires data.JObj? && !HasKey(data, "heroTitle") && !HasKey(data, "heroSubtitle") && !HasKey(data, "sections")
    ensures About(data, env) == Generic(JStr("about"), data, "global", env)
  {
    assert HeroParts(data, env) == [];
    assert SectionsParts([], 0, env) == Some([]);
    assert AboutParts(data, env) == Some([] + []);
    var e: seq<Json> := [];
    assert e + e == e;
  }

  /** A part that is not a string, such as a hero subtitle given as a
      number, makes `"\n\n".join` raise: the whole global yields nothing. */
  lemma NonStringPartFails(data: Json, env: Env, k: nat)
    requires data.JObj? && AboutParts(data, env).Some? && k < |AboutParts(data, env).value|
    requires !AboutParts(data, env).value[k].JStr?
    ensures About(data, env).None?
  {
  }
}
