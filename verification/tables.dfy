/** The department-section handlers of `ContentProcessor`: free-text
    sections, rich-text sections, tables, dynamic tables and blocks of
    several tables. Each yields its chunks, or `None` when Python would
    raise. */
module Sections {
  import opened Options
  import opened Text
  import opened Json
  import opened Environment
  import opened Chunks
  import Chunker
  import Classify
  import HtmlClean

  /** `f"{x}"`. */
  function F(j: Json, env: Env): string { Str(j, env.repr) }

  /** `f"Department: {department}. Section: {section_title}. "`. */
  function Context(department: Json, sectionTitle: Json, env: Env): string {
    "Department: " + F(department, env) + ". Section: " + F(sectionTitle, env) + ". "
  }

  /** `_create_section_chunks`: the cleaned content behind the department
      context, chunked; source ids `section-{section_idx}-{i}`. */
  function SectionChunks(content: string, department: Json, sectionTitle: Json, contentType: Json,
                         sectionIdx: Json, env: Env): (r: seq<Piece>)
    ensures |r| == |Chunker.Chunk(Context(department, sectionTitle, env) + "Content: " + HtmlClean.CleanText(content, env))|
  {
    var clean := HtmlClean.CleanText(content, env);
    var contextual := Context(department, sectionTitle, env) + "Content: " + clean;
    TextPieces(Chunker.Chunk(contextual), SectionBase(clean, department, sectionTitle, contentType, env), [("section_index", sectionIdx)],
               (i: nat) => JStr("section-" + F(sectionIdx, env) + "-" + NatStr(i)), "collection", JStr("department-sections"))
  }

  function SectionBase(clean: string, department: Json, sectionTitle: Json, contentType: Json, env: Env)
    : seq<(string, Json)> {
    [("source_type", JStr("collection")), ("source_collection", JStr("department-sections")),
     ("document_title", sectionTitle), ("content_type", contentType), ("department", department),
     ("category", JStr("academic")), ("language", JStr("en")), ("last_updated", JStr(env.now)),
     ("is_active", JBool(true)), ("searchable_keywords", KeywordsOf(clean)), ("search_boost", JReal(0.9))]
  }

  function RichTextBase(clean: string, section: Json, department: Json, sectionTitle: Json, env: Env)
    : seq<(string, Json)> {
    [("source_type", JStr("collection")), ("source_collection", JStr("department-sections")),
     ("document_title", sectionTitle), ("section_title", GetOr(section, "title", sectionTitle)),
     ("content_type", JStr("richText")), ("department", department), ("category", JStr("academic")),
     ("section_type", JStr("content")), ("language", JStr("en")), ("last_updated", JStr(env.now)),
     ("is_active", JBool(true)), ("searchable_keywords", KeywordsOf(clean)), ("search_boost", JReal(1.0))]
  }

  /** `_process_rich_text_section`: the section's `content` goes through
      the HTML cleaner (a non-string content included), behind the
      department context; source ids `dept-section-{section_idx}-{i}`. */
  function RichTextSection(section: Json, department: Json, sectionTitle: Json, sectionIdx: nat, env: Env)
    : (r: Option<seq<Piece>>)
    requires section.JObj?
    ensures r.Some? <==> HtmlClean.CleanHtml(GetOr(section, "content", JStr("")), env).Some?
  {
    match HtmlClean.CleanHtml(GetOr(section, "content", JStr("")), env)
    case None => None
    case Some(clean) =>
      var contextual := Context(department, sectionTitle, env) + "Content: " + clean;
      Some(TextPieces(Chunker.Chunk(contextual), RichTextBase(clean, section, department, sectionTitle, env), [("section_index", JInt(sectionIdx))],
                      (i: nat) => JStr("dept-section-" + NatStr(sectionIdx) + "-" + NatStr(i)),
                      "collection", JStr("department-sections")))
  }

  /** The `header: cell` texts of one table row from column `c` on: a cell
      past the last header is dropped, and `headers[c]` must answer. */
  function RowCells(cells: seq<Json>, c: nat, headers: Json, nHeaders: nat, env: Env): (r: Option<seq<string>>)
    requires c <= |cells|
    decreases |cells| - c
  {
    if c == |cells| then Some([])
    else
      var here: Option<seq<string>> :=
        if c < nHeaders then
          (match Index(headers, c)
           case None => None
           case Some(h) => Some([F(h, env) + ": " + F(cells[c], env)]))
        else Some([]);
      match here
      case None => None
      case Some(h) =>
        match RowCells(cells, c + 1, headers, nHeaders, env)
        case None => None
        case Some(rest) => Some(h + rest)
  }

  /** A row keeps one `header: cell` text per cell that has a header, in
      column order; the cells past the headers are dropped. */
  lemma {:induction false} RowCellsShape(cells: seq<Json>, c: nat, hs: seq<Json>, env: Env)
    requires c <= |cells|
    ensures var r := RowCells(cells, c, JArr(hs), |hs|, env);
      r.Some? && |r.value| == (if |cells| <= |hs| then |cells| else if c <= |hs| then |hs| else c) - c
      && forall k :: 0 <= k < |r.value| ==> r.value[k] == F(hs[c + k], env) + ": " + F(cells[c + k], env)
    decreases |cells| - c
  {
    if c < |cells| {
      RowCellsShape(cells, c + 1, hs, env);
    }
  }

  /** `f"Department: {department}. Table: {table_title}. Row {n}: {cells}"`. */
  function RowText(department: Json, title: Json, rowIdx: nat, parts: seq<string>, env: Env): string {
    "Department: " + F(department, env) + ". Table: " + F(title, env) + ". Row " + NatStr(rowIdx + 1) + ": "
    + Join(parts, "; ")
  }

  /** What every chunk of one plain table shares. */
  datatype Table = Table(title: Json, headers: Json, nHeaders: nat, nRows: nat, kind: string)

  function TableRowPiece(t: Table, department: Json, sectionTitle: Json, sectionIdx: Json, rowIdx: nat,
                         text: string, env: Env): Piece {
    var md := [("source_type", JStr("collection")), ("source_collection", JStr("department-sections")),
               ("document_title", sectionTitle), ("section_title", t.title), ("content_type", JStr("table")),
               ("table_type", JStr(t.kind)), ("department", department), ("category", JStr("academic")),
               ("section_type", JStr("tabular_data")), ("table_headers", t.headers), ("row_index", JInt(rowIdx)),
               ("total_rows", JInt(t.nRows)), ("language", JStr("en")), ("last_updated", JStr(env.now)),
               ("is_active", JBool(true)), ("searchable_keywords", KeywordsOf(text)), ("search_boost", JReal(0.9))];
    Piece(text, md, JStr("table-" + F(sectionIdx, env) + "-row-" + NatStr(rowIdx)), "collection",
          JStr("department-sections"), rowIdx, t.nRows)
  }

  /** The row chunks of `rows[i:]`, one per row. */
  function TableRowPieces(rows: seq<Json>, i: nat, t: Table, department: Json, sectionTitle: Json, sectionIdx: Json,
                          env: Env): (r: Option<seq<Piece>>)
    requires i <= |rows|
    ensures r.Some? ==> |r.value| == |rows| - i
    ensures r.Some? ==> forall k :: 0 <= k < |r.value| ==> r.value[k].chunkIndex == i + k && r.value[k].totalChunks == t.nRows
    decreases |rows| - i
  {
    if i == |rows| then Some([])
    else
      match Iter(rows[i])
      case None => None
      case Some(cells) =>
        match RowCells(cells, 0, t.headers, t.nHeaders, env)
        case None => None
        case Some(parts) =>
          match TableRowPieces(rows, i + 1, t, department, sectionTitle, sectionIdx, env)
          case None => None
          case Some(rest) =>
            Some([TableRowPiece(t, department, sectionTitle, sectionIdx, i, RowText(department, t.title, i, parts, env), env)]
                 + rest)
  }

  /** `f"Table: {title}\nColumns: {joined}\nTotal rows: {n}"`. */
  function TableSummary(title: Json, joinedHeaders: string, nRows: nat, env: Env): string {
    "Table: " + F(title, env) + "\nColumns: " + joinedHeaders + "\nTotal rows: " + NatStr(nRows)
  }

  function TableSummaryPiece(t: Table, department: Json, sectionTitle: Json, sectionIdx: Json, summary: string,
                             env: Env): Piece {
    var md := [("source_type", JStr("collection")), ("source_collection", JStr("department-sections")),
               ("document_title", sectionTitle), ("section_title", t.title), ("content_type", JStr("table_summary")),
               ("table_type", JStr(t.kind)), ("department", department), ("category", JStr("academic")),
               ("section_type", JStr("tabular_data")), ("table_headers", t.headers), ("total_rows", JInt(t.nRows)),
               ("language", JStr("en")), ("last_updated", JStr(env.now)), ("is_active", JBool(true)),
               ("searchable_keywords", KeywordsOf(summary)), ("search_boost", JReal(1.1))];
    Piece("Department: " + F(department, env) + ". " + summary, md,
          JStr("table-" + F(sectionIdx, env) + "-summary"), "collection", JStr("department-sections"), 0, 1)
  }

  /** `_process_table_section`: one chunk per row, then the summary.
      `tableConfig` must be a dict, its headers an iterable of strings and
      its rows sized, iterable rows. */
  function TableSection(section: Json, department: Json, sectionTitle: Json, sectionIdx: Json, env: Env)
    : (r: Option<seq<Piece>>)
    requires section.JObj?
  {
    var title := GetOr(section, "title", JStr("Table"));
    match PyGet(GetOr(section, "tableConfig", JObj([])), "headers", JArr([]))
    case None => None
    case Some(headers) =>
      var tc := GetOr(section, "tableConfig", JObj([]));
      var rows := GetOr(tc, "rows", JArr([]));
      match JoinValue(", ", headers)
      case None => None
      case Some(joined) =>
        match Len(rows)
        case None => None
        case Some(n) =>
          match Len(headers)
          case None => None
          case Some(nh) =>
            match Classify.ClassifyTableType(title, headers)
            case None => None
            case Some(kind) =>
              LenIter(rows);
              TableBody(Iter(rows).value, Table(title, headers, nh, n, kind), department, sectionTitle, sectionIdx,
                        TableSummary(title, joined, n, env), env)
  }

  /** The row chunks of a table, then its summary chunk. */
  function TableBody(rows: seq<Json>, t: Table, department: Json, sectionTitle: Json, sectionIdx: Json,
                     summary: string, env: Env): (r: Option<seq<Piece>>)
    requires |rows| == t.nRows
    ensures r.Some? ==> |r.value| == t.nRows + 1
    ensures r.Some? ==> forall k :: 0 <= k < t.nRows ==> r.value[k].chunkIndex == k && r.value[k].totalChunks == t.nRows
    ensures r.Some? ==> r.value[t.nRows].chunkIndex == 0 && r.value[t.nRows].totalChunks == 1
  {
    match TableRowPieces(rows, 0, t, department, sectionTitle, sectionIdx, env)
    case None => None
    case Some(rowPieces) => Some(rowPieces + [TableSummaryPiece(t, department, sectionTitle, sectionIdx, summary, env)])
  }

  /** `len(x)` and the number of items `for` visits agree. */
  lemma LenIter(j: Json)
    ensures Len(j).Some? <==> Iter(j).Some?
    ensures Len(j).Some? ==> Len(j).value == |Iter(j).value|
  {
  }

  /** A table section is its rows in order, chunk `k` with index `k` and
      total the row count, followed by one summary chunk with index 0 and
      total 1. */
  lemma TableSectionShape(section: Json, department: Json, sectionTitle: Json, sectionIdx: Json, env: Env)
    requires section.JObj?
    requires TableSection(section, department, sectionTitle, sectionIdx, env).Some?
    ensures var r := TableSection(section, department, sectionTitle, sectionIdx, env).value;
      var rows := GetOr(GetOr(section, "tableConfig", JObj([])), "rows", JArr([]));
      Len(rows).Some? && |r| == Len(rows).value + 1
      && (forall k :: 0 <= k < |r| - 1 ==> r[k].chunkIndex == k && r[k].totalChunks == Len(rows).value)
      && r[|r| - 1].chunkIndex == 0 && r[|r| - 1].totalChunks == 1
  {
    var rows := GetOr(GetOr(section, "tableConfig", JObj([])), "rows", JArr([]));
    LenIter(rows);
  }

  /** A dynamic-table column contributes a header when its `label` or its
      `key` is truthy: the `label` if the column has one, falsy or not,
      else the `key` or `""`. Every column must answer `.get`. */
  function ColumnHeaders(columns: seq<Json>): (r: Option<seq<Json>>)
    ensures r.Some? ==> |r.value| <= |columns|
  {
    if |columns| == 0 then Some([])
    else
      var col := columns[0];
      if !col.JObj? then None
      else
        var keep := Truthy(GetOr(col, "label", JNull)) || Truthy(GetOr(col, "key", JNull));
        var h := if HasKey(col, "label") then Get(col, "label").value else GetOr(col, "key", JStr(""));
        match ColumnHeaders(columns[1..])
        case None => None
        case Some(rest) => Some((if keep then [h] else []) + rest)
  }

  /** The `header: cell` texts of one dynamic row from column `c` on: only
      cells that have a header and are truthy. */
  function DynamicCells(cells: seq<Json>, c: nat, headers: seq<string>, env: Env): (r: seq<string>)
    requires c <= |cells|
    ensures |r| <= |cells| - c
    decreases |cells| - c
  {
    if c == |cells| then []
    else
      (if c < |headers| && Truthy(cells[c]) then [headers[c] + ": " + F(cells[c], env)] else [])
      + DynamicCells(cells, c + 1, headers, env)
  }

  /** The structure chunk's metadata, which every row chunk copies. */
  function StructureMetadata(title: Json, headers: seq<string>, variant: Json, nRows: nat, kind: string,
                             department: Json, sectionTitle: Json, content: string, env: Env): seq<(string, Json)> {
    [("source_type", JStr("collection")), ("source_collection", JStr("department-sections")),
     ("document_title", sectionTitle), ("section_title", title), ("content_type", JStr("dynamic_table_structure")),
     ("table_type", JStr(kind)), ("department", department), ("category", JStr("academic")),
     ("section_type", JStr("tabular_data")), ("table_headers", JArr(Strs(headers))), ("table_variant", variant),
     ("total_rows", JInt(nRows)), ("language", JStr("en")), ("last_updated", JStr(env.now)), ("is_active", JBool(true)),
     ("searchable_keywords", KeywordsOf(content)), ("search_boost", JReal(1.0))]
  }

  /** The row chunks of `rows[i:]`: a row needs `.get`; a row whose
      `rowData` is falsy, or yields no text, gives no chunk but keeps its
      position, so indices are `row_idx + 1` of `len(rows) + 1`. */
  function DynamicRowPieces(rows: seq<Json>, i: nat, headers: seq<string>, title: Json, department: Json,
                            structure: seq<(string, Json)>, sectionIdx: Json, env: Env): (r: Option<seq<Piece>>)
    requires i <= |rows|
    ensures r.Some? ==> |r.value| <= |rows| - i
    ensures r.Some? ==> forall k :: 0 <= k < |r.value| ==>
      i + 1 <= r.value[k].chunkIndex <= |rows| && r.value[k].totalChunks == |rows| + 1
    decreases |rows| - i
  {
    if i == |rows| then Some([])
    else
      var here: Option<seq<Piece>> :=
        match PyGet(rows[i], "rowData", JArr([]))
        case None => None
        case Some(rowData) =>
          if !Truthy(rowData) then Some([])
          else
            match Iter(rowData)
            case None => None
            case Some(cells) =>
              var parts := DynamicCells(cells, 0, headers, env);
              if parts == [] then Some([])
              else
                var text := RowText(department, title, i, parts, env);
                var md := Update(structure, [("content_type", JStr("dynamic_table_row")), ("row_index", JInt(i)),
                                             ("searchable_keywords", KeywordsOf(text)), ("search_boost", JReal(0.9))]);
                Some([Piece(text, md, JStr("dynamic-table-" + F(sectionIdx, env) + "-row-" + NatStr(i)), "collection",
                            JStr("department-sections"), i + 1, |rows| + 1)]);
      match here
      case None => None
      case Some(h) =>
        match DynamicRowPieces(rows, i + 1, headers, title, department, structure, sectionIdx, env)
        case None => None
        case Some(rest) => Some(h + rest)
  }

  /** `_process_dynamic_table_section`: nothing without columns; else the
      structure chunk (index 0 of 1), then the row chunks. */
  function DynamicTableSection(section: Json, department: Json, sectionTitle: Json, sectionIdx: Json, env: Env)
    : (r: Option<seq<Piece>>)
    requires section.JObj?
  {
    var title := GetOr(section, "title", JStr("Dynamic Table"));
    var tc := GetOr(section, "dynamicTableConfig", JObj([]));
    if !tc.JObj? then None
    else
      var columns := GetOr(tc, "columns", JArr([]));
      var rows := GetOr(tc, "rows", JArr([]));
      var variant := GetOr(tc, "variant", JStr("default"));
      if !Truthy(columns) then Some([])
      else
        match Iter(columns)
        case None => None
        case Some(cols) =>
          match ColumnHeaders(cols)
          case None => None
          case Some(hs) =>
            match AllStrs(hs)
            case None => None
            case Some(headers) =>
              match Len(rows)
              case None => None
              case Some(n) =>
                match Classify.ClassifyTableType(title, JArr(hs))
                case None => None
                case Some(kind) =>
                  var summary := "Dynamic Table: " + F(title, env) + "\nColumns: " + Join(headers, ", ") + "\nVariant: "
                                 + F(variant, env) + "\nTotal rows: " + NatStr(n);
                  var content := Context(department, sectionTitle, env) + summary;
                  var structure := StructureMetadata(title, headers, variant, n, kind, department, sectionTitle, content, env);
                  var head := Piece(content, structure, JStr("dynamic-table-" + F(sectionIdx, env) + "-structure"),
                                    "collection", JStr("department-sections"), 0, 1);
                  WithRowPieces(head, Iter(rows).value, headers, title, department, structure, sectionIdx, env)
  }

  /** The structure chunk `head` followed by the row chunks. */
  function WithRowPieces(head: Piece, rows: seq<Json>, headers: seq<string>, title: Json, department: Json,
                         structure: seq<(string, Json)>, sectionIdx: Json, env: Env): (r: Option<seq<Piece>>)
    ensures r.Some? ==> 1 <= |r.value| <= |rows| + 1 && r.value[0] == head
    ensures r.Some? ==> forall k :: 1 <= k < |r.value| ==>
      1 <= r.value[k].chunkIndex <= |rows| && r.value[k].totalChunks == |rows| + 1
  {
    match DynamicRowPieces(rows, 0, headers, title, department, structure, sectionIdx, env)
    case None => None
    case Some(rowPieces) => Some([head] + rowPieces)
  }

  /** A dynamic table with columns starts with its structure chunk (index
      0 of 1); every row chunk after it is numbered `row_idx + 1` of
      `len(rows) + 1`, so skipped rows leave gaps. */
  lemma DynamicTableShape(section: Json, department: Json, sectionTitle: Json, sectionIdx: Json, env: Env)
    requires section.JObj?
    requires DynamicTableSection(section, department, sectionTitle, sectionIdx, env).Some?
    requires Truthy(GetOr(GetOr(section, "dynamicTableConfig", JObj([])), "columns", JArr([])))
    ensures var r := DynamicTableSection(section, department, sectionTitle, sectionIdx, env).value;
      var rows := GetOr(GetOr(section, "dynamicTableConfig", JObj([])), "rows", JArr([]));
      Len(rows).Some? && 1 <= |r| <= Len(rows).value + 1
      && r[0].chunkIndex == 0 && r[0].totalChunks == 1
      && forall k :: 1 <= k < |r| ==> 1 <= r[k].chunkIndex <= Len(rows).value && r[k].totalChunks == Len(rows).value + 1
  {
    var rows := GetOr(GetOr(section, "dynamicTableConfig", JObj([])), "rows", JArr([]));
    LenIter(rows);
  }

  /** `f"{section_idx}-{table_idx}"`. */
  function TableLabel(sectionIdx: nat, tableIdx: nat): Json {
    JStr(NatStr(sectionIdx) + "-" + NatStr(tableIdx))
  }

  /** Where one dict of a multiple-tables block goes: the dynamic handler
      when its `dynamicTableConfig` is truthy, else the table handler when
      its `tableConfig` is truthy, else a free-text section. */
  function RouteTable(table: Json, tableIdx: nat, department: Json, sectionTitle: Json, sectionIdx: nat, env: Env)
    : Option<seq<Piece>>
    requires table.JObj?
  {
    var title := GetOr(table, "title", JStr("Table " + NatStr(tableIdx + 1)));
    var tag := TableLabel(sectionIdx, tableIdx);
    if HasKey(table, "dynamicTableConfig") && Truthy(Get(table, "dynamicTableConfig").value) then
      DynamicTableSection(JObj([("dynamicTableConfig", Get(table, "dynamicTableConfig").value), ("title", title)]),
                          department, sectionTitle, tag, env)
    else if HasKey(table, "tableConfig") && Truthy(Get(table, "tableConfig").value) then
      TableSection(JObj([("tableConfig", Get(table, "tableConfig").value), ("title", title)]),
                   department, sectionTitle, tag, env)
    else
      Some(SectionChunks(Context(department, sectionTitle, env) + "Table: " + F(title, env),
                         department, sectionTitle, JStr("table"), tag, env))
  }

  /** The chunks of `tables[i:]`; items that are not dicts are skipped. */
  function RouteTables(tables: seq<Json>, i: nat, department: Json, sectionTitle: Json, sectionIdx: nat, env: Env)
    : Option<seq<Piece>>
    requires i <= |tables|
    decreases |tables| - i
  {
    if i == |tables| then Some([])
    else
      var here := if tables[i].JObj? then RouteTable(tables[i], i, department, sectionTitle, sectionIdx, env) else Some([]);
      match here
      case None => None
      case Some(h) =>
        match RouteTables(tables, i + 1, department, sectionTitle, sectionIdx, env)
        case None => None
        case Some(rest) => Some(h + rest)
  }

  /** `f"...Contains {n} tables"`, the summary of a multiple-tables block. */
  function MultiSummaryPiece(n: nat, department: Json, sectionTitle: Json, sectionIdx: nat, env: Env): Piece {
    var content := Context(department, sectionTitle, env) + "Contains " + NatStr(n) + " tables";
    var md := [("source_type", JStr("collection")), ("source_collection", JStr("department-sections")),
               ("document_title", sectionTitle), ("section_title", JStr(F(sectionTitle, env) + " - Multiple Tables")),
               ("content_type", JStr("multiple_tables_summary")), ("department", department),
               ("category", JStr("academic")), ("section_type", JStr("tabular_data")), ("table_count", JInt(n)),
               ("language", JStr("en")), ("last_updated", JStr(env.now)), ("is_active", JBool(true)),
               ("searchable_keywords", KeywordsOf(content)), ("search_boost", JReal(1.0))];
    Piece(content, md, JStr("multiple-tables-" + NatStr(sectionIdx) + "-summary"), "collection",
          JStr("department-sections"), 0, 1)
  }

  /** `_process_multiple_tables_section`: nothing for a falsy config; else
      a summary chunk, then each table's chunks in order. */
  function MultipleTablesSection(section: Json, department: Json, sectionTitle: Json, sectionIdx: nat, env: Env)
    : (r: Option<seq<Piece>>)
    requires section.JObj?
    ensures !Truthy(GetOr(section, "multipleTablesConfig", JArr([]))) ==> r == Some([])
  {
    var tc := GetOr(section, "multipleTablesConfig", JArr([]));
    if !Truthy(tc) then Some([])
    else
      match Len(tc)
      case None => None
      case Some(n) =>
        match RouteTables(Iter(tc).value, 0, department, sectionTitle, sectionIdx, env)
        case None => None
        case Some(rest) => Some([MultiSummaryPiece(n, department, sectionTitle, sectionIdx, env)] + rest)
  }

  /** A multiple-tables block with a truthy config starts with its summary
      chunk, index 0 of 1, reporting the number of tables, followed by the
      routed tables' chunks. */
  lemma MultipleTablesShape(section: Json, department: Json, sectionTitle: Json, sectionIdx: nat, env: Env)
    requires section.JObj? && Truthy(GetOr(section, "multipleTablesConfig", JArr([])))
    requires MultipleTablesSection(section, department, sectionTitle, sectionIdx, env).Some?
    ensures var r := MultipleTablesSection(section, department, sectionTitle, sectionIdx, env).value;
      var tc := GetOr(section, "multipleTablesConfig", JArr([]));
      Len(tc).Some? && Iter(tc).Some? && |r| >= 1 && r[0].chunkIndex == 0 && r[0].totalChunks == 1
      && r[0].content == Context(department, sectionTitle, env) + "Contains " + NatStr(Len(tc).value) + " tables"
      && RouteTables(Iter(tc).value, 0, department, sectionTitle, sectionIdx, env) == Some(r[1..])
  {
    LenIter(GetOr(section, "multipleTablesConfig", JArr([])));
  }

  /** A truthy dynamic config decides the route even when a table config
      is present too. */
  lemma DynamicConfigWins(table: Json, tableIdx: nat, department: Json, sectionTitle: Json, sectionIdx: nat, env: Env)
    requires table.JObj? && HasKey(table, "dynamicTableConfig") && Truthy(Get(table, "dynamicTableConfig").value)
    ensures RouteTable(table, tableIdx, department, sectionTitle, sectionIdx, env)
         == DynamicTableSection(JObj([("dynamicTableConfig", Get(table, "dynamicTableConfig").value),
                                      ("title", GetOr(table, "title", JStr("Table " + NatStr(tableIdx + 1))))]),
                                department, sectionTitle, TableLabel(sectionIdx, tableIdx), env)
  {
  }
}
