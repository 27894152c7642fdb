/** `normalizePageResponse`: a page from either CMS source brought into
    one shape. Table sections whose rows are still in the dynamic-page
    format (`{ id, data: { column key: value } }`) get those rows converted
    to the cell format (`{ id, rowData: [cell per column] }`); then the
    page's fields are laid over a record of defaults. A step that throws
    in JavaScript (reading a property of `null`, calling `map` or
    `forEach` on something that is not an array) yields `None`. */
module PageNormalize {
  import opened Options
  import opened Text
  import opened Json
  import opened JsValues
  import opened PageUtils

  /** An object literal some of whose properties may be `undefined`: the
      properties that have a value, in order. */
  function Present(props: seq<(string, Option<Json>)>): (r: seq<(string, Json)>)
    ensures |r| <= |props|
    decreases |props|
  {
    if |props| == 0 then []
    else (if props[0].1.Some? then [(props[0].0, props[0].1.value)] else []) + Present(props[1..])
  }

  /** A property with a value is found in the literal, provided no
      earlier property has the same name. */
  lemma {:induction false} GetPresent(props: seq<(string, Option<Json>)>, k: string, i: nat)
    requires i < |props| && props[i].0 == k && props[i].1.Some?
    requires forall j :: 0 <= j < i ==> props[j].0 != k
    ensures Get(JObj(Present(props)), k) == props[i].1
    decreases i
  {
    var head := if props[0].1.Some? then [(props[0].0, props[0].1.value)] else [];
    assert Present(props) == head + Present(props[1..]);
    if props[0].1.None? {
      assert Present(props) == Present(props[1..]);
      GetPresent(props[1..], k, i - 1);
    } else {
      GetCons(props[0].0, props[0].1.value, Present(props[1..]), k);
      if i > 0 {
        GetPresent(props[1..], k, i - 1);
      }
    }
  }

  /** A name the literal gives no value is not a property. */
  lemma {:induction false} PresentNames(props: seq<(string, Option<Json>)>, k: string)
    requires forall j :: 0 <= j < |props| ==> props[j].0 != k || props[j].1.None?
    ensures Get(JObj(Present(props)), k).None?
    decreases |props|
  {
    if |props| > 0 {
      PresentNames(props[1..], k);
      if props[0].1.Some? {
        GetCons(props[0].0, props[0].1.value, Present(props[1..]), k);
      }
    }
  }

  /** `row.data && !row.rowData`: a row in the dynamic-page format that
      has not been converted. */
  predicate NeedsConversion(row: Json) {
    JsTrue(JsProp(row, "data")) && !JsTrue(JsProp(row, "rowData"))
  }

  /** `row.data && typeof row.data === 'object'`: the rows converted, those
      whose data is an object or an array. */
  predicate HasRecordData(row: Json) {
    var data := JsProp(row, "data");
    data.Some? && (data.value.JObj? || data.value.JArr?)
  }

  /** The text of one cell: `String(row.data[column.key] || '')`. A name
      the data does not hold itself may still name a member the data
      inherits from `Object.prototype`; such a member is truthy and is
      printed. */
  function CellText(data: Json, name: string, show: Json -> string): (r: string)
    ensures JsProp(data, name).Some? && !JsTrue(JsProp(data, name)) ==> r == ""
    ensures JsProp(data, name).None? ==> r == if InheritedString(data, name).Some? then InheritedString(data, name).value else ""
    ensures JsProp(data, name).Some? && JsProp(data, name).value.JStr? ==> r == JsProp(data, name).value.s
  {
    var value := JsProp(data, name);
    if JsTrue(value) then JsString(value, show)
    else if value.None? && InheritedString(data, name).Some? then InheritedString(data, name).value
    else ""
  }

  /** A column keyed `constructor` over row data without such a field
      shows the inherited constructor's source text, not an empty cell. */
  lemma InheritedNameCell(fields: seq<(string, Json)>, show: Json -> string)
    requires Get(JObj(fields), "constructor").None?
    ensures CellText(JObj(fields), "constructor", show) == NativeFunctionText("Object")
  {
    assert "constructor"[0] != "__proto__"[0];
    assert "constructor" in ObjectProtoNames;
  }

  /** The cell a column gives a converted row. The property named by the
      column's key is read from the row's data; a column without a key
      reads the property `undefined` and leaves `columnKey` out. */
  function Cell(column: Json, data: Json, rowKey: string, show: Json -> string): Json {
    var key := JsProp(column, "key");
    var name := JsString(key, show);
    JObj(Present([("columnKey", key), ("value", Some(JStr(CellText(data, name, show)))),
                  ("isLink", Some(JBool(false))), ("linkUrl", Some(JStr(""))),
                  ("isExternal", Some(JBool(false))), ("id", Some(JStr(rowKey + "_" + name)))]))
  }

  /** A cell holds its column's key, the text of the row's data under
      that key, an id made of the row's key and the column's key, and no
      link. */
  lemma CellOfColumn(column: Json, data: Json, rowKey: string, show: Json -> string)
    ensures var cell := Cell(column, data, rowKey, show);
      var name := JsString(JsProp(column, "key"), show);
      && Get(cell, "columnKey") == JsProp(column, "key")
      && Get(cell, "value") == Some(JStr(CellText(data, name, show)))
      && Get(cell, "id") == Some(JStr(rowKey + "_" + name))
      && Get(cell, "isLink") == Some(JBool(false))
  {
    var key := JsProp(column, "key");
    var name := JsString(key, show);
    var props := [("columnKey", key), ("value", Some(JStr(CellText(data, name, show)))),
                  ("isLink", Some(JBool(false))), ("linkUrl", Some(JStr(""))),
                  ("isExternal", Some(JBool(false))), ("id", Some(JStr(rowKey + "_" + name)))];
    if key.Some? {
      GetPresent(props, "columnKey", 0);
    } else {
      PresentNames(props, "columnKey");
    }
    GetPresent(props, "value", 1);
    GetPresent(props, "isLink", 2);
    GetPresent(props, "id", 5);
  }

  /** The converted form of row `index`, whose data is an object or an
      array: one cell per column, and the row's id or `row_<index>`. */
  function ConvertRow(row: Json, index: nat, columns: seq<Json>, show: Json -> string): (r: Json)
    requires HasRecordData(row)
    ensures r.JObj? && !HasRecordData(r) && !NeedsConversion(r)
  {
    var data := JsProp(row, "data").value;
    var rowKey := JsString(JsOr(JsProp(row, "id"), Some(JInt(index))), show);
    var cells := seq(|columns|, (j: int) requires 0 <= j < |columns| => Cell(columns[j], data, rowKey, show));
    var id := OrValue(JsProp(row, "id"), JStr("row_" + NatToString(index)));
    Get2("rowData", JArr(cells), "id", id, "data");
    JObj([("rowData", JArr(cells)), ("id", id)])
  }

  /** A converted row lists the cells of the columns in column order and
      keeps the row's id, or names the row by its position. */
  lemma ConvertedRowShape(row: Json, index: nat, columns: seq<Json>, show: Json -> string)
    requires HasRecordData(row)
    ensures var r := ConvertRow(row, index, columns, show);
      var rowKey := JsString(JsOr(JsProp(row, "id"), Some(JInt(index))), show);
      && Get(r, "id") == Some(OrValue(JsProp(row, "id"), JStr("row_" + NatToString(index))))
      && Get(r, "rowData").Some? && Get(r, "rowData").value.JArr?
      && var cells := Get(r, "rowData").value.items;
      && |cells| == |columns|
      && forall j :: 0 <= j < |columns| ==> cells[j] == Cell(columns[j], JsProp(row, "data").value, rowKey, show)
  {
    var r := ConvertRow(row, index, columns, show);
    Get2("rowData", r.fields[0].1, "id", r.fields[1].1, "id");
    Get2("rowData", r.fields[0].1, "id", r.fields[1].1, "rowData");
  }

  /** `columns = []` as the converting `forEach` uses it: an undefined
      list is empty; anything but an array, or an array holding `null`,
      throws. */
  function ColumnList(columns: Option<Json>): (r: Option<seq<Json>>)
    ensures r.Some? ==> forall j :: 0 <= j < |r.value| ==> !r.value[j].JNull?
    ensures r.None? <==> columns.Some? && (!columns.value.JArr? || exists j :: 0 <= j < |columns.value.items| && columns.value.items[j].JNull?)
  {
    match columns
    case None => Some([])
    case Some(JArr(cs)) => if exists j :: 0 <= j < |cs| && cs[j].JNull? then None else Some(cs)
    case Some(_) => None
  }

  /** The rows of a table after conversion, given that some row needs it
      and none is `null`. The columns are used only when some row has
      record data. */
  function ConvertRows(rows: seq<Json>, columns: Option<Json>, show: Json -> string): (r: Option<seq<Json>>)
    ensures r.None? <==> (exists i :: 0 <= i < |rows| && HasRecordData(rows[i])) && ColumnList(columns).None?
    ensures r.Some? ==> |r.value| == |rows|
    ensures r.Some? ==> forall i :: 0 <= i < |rows| && !HasRecordData(rows[i]) ==> r.value[i] == rows[i]
    ensures r.Some? ==> forall i :: 0 <= i < |rows| ==> !HasRecordData(r.value[i])
  {
    if exists i :: 0 <= i < |rows| && HasRecordData(rows[i]) then
      match ColumnList(columns)
      case None => None
      case Some(cs) =>
        Some(seq(|rows|, (i: int) requires 0 <= i < |rows| =>
          if HasRecordData(rows[i]) then ConvertRow(rows[i], i, cs, show) else rows[i]))
    else Some(rows)
  }

  /** One table configuration `{ columns = [], rows = [] }` after the
      conversion. A `null` configuration cannot be destructured; rows that
      are neither undefined nor an array have no `some`; a `null` row has
      no `data`. A configuration none of whose rows needs converting is
      returned as it is; otherwise its `rows` are replaced. Values other
      than objects have no `rows`. */
  function ConvertTable(cfg: Json, show: Json -> string): (r: Option<Json>)
    ensures cfg.JNull? ==> r.None?
    ensures r.Some? && !cfg.JObj? ==> r.value == cfg
    ensures r.Some? && cfg.JObj? ==> r.value.JObj? && KeysOf(r.value.fields) == KeysOf(cfg.fields)
  {
    match cfg
    case JNull => None
    case JObj(fields) =>
      (match JsProp(cfg, "rows")
       case None => Some(cfg)
       case Some(JArr(rows)) =>
         if exists i :: 0 <= i < |rows| && rows[i].JNull? then None
         else if !exists i :: 0 <= i < |rows| && NeedsConversion(rows[i]) then Some(cfg)
         else
           (match ConvertRows(rows, JsProp(cfg, "columns"), show)
            case None => None
            case Some(converted) =>
              PutKeys(fields, "rows", JArr(converted));
              Some(JObj(Put(fields, "rows", JArr(converted)))))
       case Some(_) => None)
    case _ => Some(cfg)
  }

  /** The names of an object's properties, in order. */
  function KeysOf(fields: seq<(string, Json)>): (r: seq<string>)
    ensures |r| == |fields| && forall i :: 0 <= i < |fields| ==> r[i] == fields[i].0
  {
    seq(|fields|, (i: int) requires 0 <= i < |fields| => fields[i].0)
  }

  /** Assigning an existing property keeps the property names as they
      are. */
  lemma PutKeys(fields: seq<(string, Json)>, key: string, v: Json)
    requires HasKey(JObj(fields), key)
    ensures KeysOf(Put(fields, key, v)) == KeysOf(fields)
  {
  }

  /** Assigning the value a property already has changes nothing. */
  lemma PutSame(fields: seq<(string, Json)>, key: string, v: Json)
    requires Get(JObj(fields), key) == Some(v)
    ensures Put(fields, key, v) == fields
  {
  }

  /** Assigning the same value twice is assigning it once. */
  lemma PutTwice(fields: seq<(string, Json)>, key: string, v: Json)
    ensures Put(Put(fields, key, v), key, v) == Put(fields, key, v)
  {
    PutGet(fields, key, v, key);
    PutSame(Put(fields, key, v), key, v);
  }

  /** Converting a table whose conversion succeeded changes nothing more:
      converted rows have no `data`, and the rows left alone are the ones
      whose data is not a record, which are left alone again. */
  lemma ConvertTableSettles(cfg: Json, show: Json -> string)
    requires ConvertTable(cfg, show).Some?
    ensures ConvertTable(ConvertTable(cfg, show).value, show) == ConvertTable(cfg, show)
  {
    if cfg.JObj? && JsProp(cfg, "rows").Some? {
      var rows := JsProp(cfg, "rows").value.items;
      if exists i :: 0 <= i < |rows| && NeedsConversion(rows[i]) {
        var converted := ConvertRows(rows, JsProp(cfg, "columns"), show).value;
        var next := JObj(Put(cfg.fields, "rows", JArr(converted)));
        PutGet(cfg.fields, "rows", JArr(converted), "rows");
        PutGet(cfg.fields, "rows", JArr(converted), "columns");
        assert forall i :: 0 <= i < |converted| ==> !converted[i].JNull? by {
          forall i | 0 <= i < |converted| ensures !converted[i].JNull? {
            if !HasRecordData(rows[i]) {
              assert converted[i] == rows[i];
            }
          }
        }
        if exists i :: 0 <= i < |converted| && NeedsConversion(converted[i]) {
          assert ConvertRows(converted, JsProp(next, "columns"), show) == Some(converted);
          PutTwice(cfg.fields, "rows", JArr(converted));
        }
      }
    }
  }

  /** `contentType` values whose `dynamicTableConfig` is converted. */
  predicate IsSingleTableKind(kind: Option<Json>) {
    kind == Some(JStr("dynamicTable")) || kind == Some(JStr("mixedDynamic"))
  }

  const MultipleTablesKind := Some(JStr("mixedMultipleTables"))

  /** One section after the conversion. A `null` section throws on its
      first property read; values other than objects have none of the
      properties and pass through. The two conversions exclude each other,
      since they ask for different `contentType`s and neither changes
      it. */
  function ConvertSection(section: Json, show: Json -> string): (r: Option<Json>)
    ensures section.JNull? ==> r.None?
    ensures r.Some? ==> (r.value.JObj? <==> section.JObj?)
    ensures r.Some? && section.JObj? ==> KeysOf(r.value.fields) == KeysOf(section.fields)
    ensures r.Some? && !section.JObj? ==> r.value == section
  {
    match section
    case JNull => None
    case JObj(fields) =>
      var kind := JsProp(section, "contentType");
      var single := JsProp(section, "dynamicTableConfig");
      var multiple := JsProp(section, "multipleTablesConfig");
      if JsTrue(single) && IsSingleTableKind(kind) then
        match ConvertTable(single.value, show)
        case None => None
        case Some(cfg) =>
          PutKeys(fields, "dynamicTableConfig", cfg);
          Some(JObj(Put(fields, "dynamicTableConfig", cfg)))
      else if JsTrue(multiple) && kind == MultipleTablesKind then
        match multiple.value
        case JArr(cfgs) =>
          (match MapAll(cfgs, (cfg: Json) => ConvertTable(cfg, show))
           case None => None
           case Some(converted) =>
             PutKeys(fields, "multipleTablesConfig", JArr(converted));
             Some(JObj(Put(fields, "multipleTablesConfig", JArr(converted)))))
        case _ => None
      else Some(section)
    case _ => Some(section)
  }

  /** The table configurations of a converted section are converted
      tables, each of which settles. */
  lemma ConvertTablesSettle(cfgs: seq<Json>, show: Json -> string)
    requires MapAll(cfgs, (cfg: Json) => ConvertTable(cfg, show)).Some?
    ensures var converted := MapAll(cfgs, (cfg: Json) => ConvertTable(cfg, show)).value;
      MapAll(converted, (cfg: Json) => ConvertTable(cfg, show)) == Some(converted)
  {
    var f := (cfg: Json) => ConvertTable(cfg, show);
    var converted := MapAll(cfgs, f).value;
    forall i | 0 <= i < |cfgs| ensures f(converted[i]) == Some(converted[i]) {
      ConvertTableSettles(cfgs[i], show);
    }
    var again := MapAll(converted, f).value;
    assert again == converted;
  }

  /** Converting a converted section changes nothing more. */
  lemma ConvertSectionSettles(section: Json, show: Json -> string)
    requires ConvertSection(section, show).Some?
    ensures ConvertSection(ConvertSection(section, show).value, show) == ConvertSection(section, show)
  {
    if section.JObj? {
      var fields := section.fields;
      var kind := JsProp(section, "contentType");
      var single := JsProp(section, "dynamicTableConfig");
      var multiple := JsProp(section, "multipleTablesConfig");
      if JsTrue(single) && IsSingleTableKind(kind) {
        var cfg := ConvertTable(single.value, show).value;
        PutGet(fields, "dynamicTableConfig", cfg, "contentType");
        PutGet(fields, "dynamicTableConfig", cfg, "dynamicTableConfig");
        ConvertTableSettles(single.value, show);
        assert JsTruthy(cfg);
        PutTwice(fields, "dynamicTableConfig", cfg);
      } else if JsTrue(multiple) && kind == MultipleTablesKind {
        var cfgs := multiple.value.items;
        var converted := MapAll(cfgs, (cfg: Json) => ConvertTable(cfg, show)).value;
        PutGet(fields, "multipleTablesConfig", JArr(converted), "contentType");
        PutGet(fields, "multipleTablesConfig", JArr(converted), "dynamicTableConfig");
        PutGet(fields, "multipleTablesConfig", JArr(converted), "multipleTablesConfig");
        ConvertTablesSettle(cfgs, show);
        PutTwice(fields, "multipleTablesConfig", JArr(converted));
      }
    }
  }

  /** `response.sections || []` as `map` walks it: a truthy value that is
      not an array has no `map` and throws. */
  function SectionList(given: Option<Json>): (r: Option<seq<Json>>)
    ensures !JsTrue(given) ==> r == Some([])
    ensures JsTrue(given) ==> (r.Some? <==> given.value.JArr?)
    ensures JsTrue(given) && r.Some? ==> r.value == given.value.items
  {
    if !JsTrue(given) then Some([])
    else if given.value.JArr? then Some(given.value.items)
    else None
  }

  /** The properties of the object literal the page's fields are spread
      over. */
  datatype Field = Id | CreatedAt | UpdatedAt | PageType | Source | GlobalType | HeroTitle | HeroSubtitle
                 | HeroImage | Sections | Seo | Priority | Category | PageTitle | Title | Slug

  function FieldName(f: Field): string {
    match f
    case Id => "id"
    case CreatedAt => "createdAt"
    case UpdatedAt => "updatedAt"
    case PageType => "pageType"
    case Source => "source"
    case GlobalType => "globalType"
    case HeroTitle => "heroTitle"
    case HeroSubtitle => "heroSubtitle"
    case HeroImage => "heroImage"
    case Sections => "sections"
    case Seo => "seo"
    case Priority => "priority"
    case Category => "category"
    case PageTitle => "pageTitle"
    case Title => "title"
    case Slug => "slug"
  }

  /** The field a property name names, if any. */
  function FieldNamed(name: string): (r: Option<Field>)
    ensures r.Some? ==> FieldName(r.value) == name
  {
    if name == "id" then Some(Id)
    else if name == "createdAt" then Some(CreatedAt)
    else if name == "updatedAt" then Some(UpdatedAt)
    else if name == "pageType" then Some(PageType)
    else if name == "source" then Some(Source)
    else if name == "globalType" then Some(GlobalType)
    else if name == "heroTitle" then Some(HeroTitle)
    else if name == "heroSubtitle" then Some(HeroSubtitle)
    else if name == "heroImage" then Some(HeroImage)
    else if name == "sections" then Some(Sections)
    else if name == "seo" then Some(Seo)
    else if name == "priority" then Some(Priority)
    else if name == "category" then Some(Category)
    else if name == "pageTitle" then Some(PageTitle)
    else if name == "title" then Some(Title)
    else if name == "slug" then Some(Slug)
    else None
  }

  /** Every field's name names it, so no two fields share a name. */
  lemma FieldNameNamesIt(f: Field)
    ensures FieldNamed(FieldName(f)) == Some(f)
  {
  }

  /** The fields in the order the literal lists them. */
  const DefaultFields: seq<Field> := [Id, CreatedAt, UpdatedAt, PageType, Source, GlobalType, HeroTitle, HeroSubtitle,
    HeroImage, Sections, Seo, Priority, Category, PageTitle, Title, Slug]

  /** The value the literal gives a field: `|| ''` for the timestamps and
      the global type; a page type and source guessed from the page's own
      `slug` field; a hero title that falls back through the page title
      and the title to the display form of the `slug` argument; the
      converted sections; the page's own value, possibly `undefined`, for
      the rest. */
  function DefaultValue(response: seq<(string, Json)>, slug: string, sections: seq<Json>, f: Field): Option<Json> {
    var page := JObj(response);
    var slugGiven := JsTrue(JsProp(page, "slug"));
    match f
    case CreatedAt | UpdatedAt | GlobalType => Some(OrValue(JsProp(page, FieldName(f)), JStr("")))
    case PageType => Some(OrValue(JsProp(page, "pageType"), JStr(if slugGiven then "dynamic" else "global")))
    case Source => Some(OrValue(JsProp(page, "source"), JStr(if slugGiven then "dynamic-pages" else "globals")))
    case HeroTitle =>
      Some(OrValue(JsOr(JsOr(JsProp(page, "heroTitle"), JsProp(page, "pageTitle")), JsProp(page, "title")),
                   JStr(FormatSlugForDisplay(slug))))
    case Sections => Some(JArr(sections))
    case _ => JsProp(page, FieldName(f))
  }

  /** The literal's properties for `fields`, in order. */
  function Defaults(response: seq<(string, Json)>, slug: string, sections: seq<Json>, fields: seq<Field>): (r: seq<(string, Option<Json>)>)
    ensures |r| == |fields|
    ensures forall i :: 0 <= i < |fields| ==> r[i] == (FieldName(fields[i]), DefaultValue(response, slug, sections, fields[i]))
  {
    seq(|fields|, (i: int) requires 0 <= i < |fields| => (FieldName(fields[i]), DefaultValue(response, slug, sections, fields[i])))
  }

  /** The literal holds each of its fields with its value. */
  lemma {:induction false} GetDefaults(response: seq<(string, Json)>, slug: string, sections: seq<Json>, fields: seq<Field>, f: Field)
    ensures Get(JObj(Present(Defaults(response, slug, sections, fields))), FieldName(f))
      == if f in fields then DefaultValue(response, slug, sections, f) else None
    decreases |fields|
  {
    if |fields| > 0 {
      var props := Defaults(response, slug, sections, fields);
      var rest := Defaults(response, slug, sections, fields[1..]);
      assert props[1..] == rest;
      var head := if props[0].1.Some? then [(props[0].0, props[0].1.value)] else [];
      assert Present(props) == head + Present(rest);
      GetDefaults(response, slug, sections, fields[1..], f);
      assert f in fields <==> f == fields[0] || f in fields[1..];
      FieldNameNamesIt(f);
      FieldNameNamesIt(fields[0]);
      if props[0].1.Some? {
        GetCons(props[0].0, props[0].1.value, Present(rest), FieldName(f));
      } else {
        assert Present(props) == Present(rest);
      }
    }
  }

  /** The sections of the page after the conversion, or `None` when it
      throws. */
  function ConvertedSections(response: seq<(string, Json)>, show: Json -> string): (r: Option<seq<Json>>)
    ensures var list := SectionList(JsProp(JObj(response), "sections"));
      r.Some? <==> list.Some? && forall i :: 0 <= i < |list.value| ==> ConvertSection(list.value[i], show).Some?
    ensures var list := SectionList(JsProp(JObj(response), "sections"));
      r.Some? ==> |r.value| == |list.value| && forall i :: 0 <= i < |list.value| ==> Some(r.value[i]) == ConvertSection(list.value[i], show)
  {
    match SectionList(JsProp(JObj(response), "sections"))
    case None => None
    case Some(list) => MapAll(list, (section: Json) => ConvertSection(section, show))
  }

  /** The object the spread copies. The sections were converted in place,
      so a page with a truthy `sections` now holds the converted list
      there. */
  function Spread(response: seq<(string, Json)>, sections: seq<Json>): seq<(string, Json)> {
    if JsTrue(JsProp(JObj(response), "sections")) then Put(response, "sections", JArr(sections)) else response
  }

  /** The result object: the page spread over the defaults. */
  function Assemble(response: seq<(string, Json)>, slug: string, sections: seq<Json>): seq<(string, Json)> {
    Update(Present(Defaults(response, slug, sections, DefaultFields)), Spread(response, sections))
  }

  /** `normalizePageResponse(response, slug)`: `None` when the conversion
      of the sections throws. */
  function NormalizePageResponse(response: seq<(string, Json)>, slug: string, show: Json -> string): (r: Option<seq<(string, Json)>>)
    ensures r.Some? <==> ConvertedSections(response, show).Some?
  {
    match ConvertedSections(response, show)
    case None => None
    case Some(sections) => Some(Assemble(response, slug, sections))
  }

  /** With distinct names, the first and the last property of a name are
      the same one. */
  lemma LastForUnique(fields: seq<(string, Json)>, k: string)
    requires UniqueNames(fields)
    ensures LastFor(fields, k) == Get(JObj(fields), k)
  {
    match LookupIndex(fields, k)
    case Some(i) => LastForAt(fields, k, i);
    case None => LastForNone(fields, k);
  }

  /** The spread object has the page's names, and the page's value for
      every name but `sections`. */
  lemma SpreadFields(response: seq<(string, Json)>, sections: seq<Json>, k: string)
    ensures var spread := Spread(response, sections);
      && KeysOf(spread) == KeysOf(response)
      && (k != "sections" ==> Get(JObj(spread), k) == Get(JObj(response), k))
      && (JsTrue(JsProp(JObj(response), "sections")) ==> Get(JObj(spread), "sections") == Some(JArr(sections)))
  {
    if JsTrue(JsProp(JObj(response), "sections")) {
      PutKeys(response, "sections", JArr(sections));
      PutGet(response, "sections", JArr(sections), k);
      PutGet(response, "sections", JArr(sections), "sections");
    }
  }

  /** A name the page has takes the value of the spread. */
  lemma AssembleGiven(response: seq<(string, Json)>, slug: string, sections: seq<Json>, k: string)
    requires UniqueNames(response)
    ensures Get(JObj(Spread(response, sections)), k).Some? ==>
      Get(JObj(Assemble(response, slug, sections)), k) == Get(JObj(Spread(response, sections)), k)
  {
    var spread := Spread(response, sections);
    SpreadFields(response, sections, k);
    assert UniqueNames(spread) by {
      assert forall i :: 0 <= i < |spread| ==> spread[i].0 == KeysOf(response)[i];
    }
    LastForUnique(spread, k);
    UpdateGet(Present(Defaults(response, slug, sections, DefaultFields)), spread, k);
  }

  /** A field the page lacks takes its default. */
  lemma AssembleMissing(response: seq<(string, Json)>, slug: string, sections: seq<Json>, f: Field)
    requires !HasKey(JObj(response), FieldName(f))
    ensures Get(JObj(Assemble(response, slug, sections)), FieldName(f)) == DefaultValue(response, slug, sections, f)
  {
    var k := FieldName(f);
    var spread := Spread(response, sections);
    SpreadFields(response, sections, k);
    assert forall j :: 0 <= j < |spread| ==> spread[j].0 != k by {
      assert forall j :: 0 <= j < |spread| ==> spread[j].0 == KeysOf(response)[j];
    }
    LastForNone(spread, k);
    UpdateGet(Present(Defaults(response, slug, sections, DefaultFields)), spread, k);
    GetDefaults(response, slug, sections, DefaultFields, f);
  }

  /** The page's own fields win over every default, even a falsy value
      such as `null` or `""` that the `||` defaults were meant to
      replace. Only `sections` is replaced, by its converted form. */
  lemma GivenFieldsWin(response: seq<(string, Json)>, slug: string, show: Json -> string, k: string)
    requires UniqueNames(response)
    requires NormalizePageResponse(response, slug, show).Some?
    requires k != "sections" && HasKey(JObj(response), k)
    ensures Get(JObj(NormalizePageResponse(response, slug, show).value), k) == Get(JObj(response), k)
  {
    var sections := ConvertedSections(response, show).value;
    SpreadFields(response, sections, k);
    AssembleGiven(response, slug, sections, k);
  }

  /** A field the page does not have takes the value the defaults give
      it. */
  lemma MissingFieldDefaulted(response: seq<(string, Json)>, slug: string, show: Json -> string, f: Field)
    requires NormalizePageResponse(response, slug, show).Some?
    requires !HasKey(JObj(response), FieldName(f))
    ensures Get(JObj(NormalizePageResponse(response, slug, show).value), FieldName(f))
      == DefaultValue(response, slug, ConvertedSections(response, show).value, f)
  {
    AssembleMissing(response, slug, ConvertedSections(response, show).value, f);
  }

  lemma AssembleTime(response: seq<(string, Json)>, slug: string, sections: seq<Json>, f: Field, name: string)
    requires f == CreatedAt || f == UpdatedAt || f == GlobalType
    requires name == FieldName(f)
    ensures !HasKey(JObj(response), name) ==> Get(JObj(Assemble(response, slug, sections)), name) == Some(JStr(""))
  {
    if !HasKey(JObj(response), name) {
      AssembleMissing(response, slug, sections, f);
      assert JsProp(JObj(response), name).None?;
    }
  }

  /** A page without timestamps or a global type gets empty ones. */
  lemma MissingTimesDefaulted(response: seq<(string, Json)>, slug: string, show: Json -> string)
    requires NormalizePageResponse(response, slug, show).Some?
    ensures var page := JObj(response);
      var r := JObj(NormalizePageResponse(response, slug, show).value);
      && (!HasKey(page, "createdAt") ==> Get(r, "createdAt") == Some(JStr("")))
      && (!HasKey(page, "updatedAt") ==> Get(r, "updatedAt") == Some(JStr("")))
      && (!HasKey(page, "globalType") ==> Get(r, "globalType") == Some(JStr("")))
  {
    AssembleTimes(response, slug, ConvertedSections(response, show).value);
  }

  lemma AssembleTimes(response: seq<(string, Json)>, slug: string, sections: seq<Json>)
    ensures var page := JObj(response);
      var r := JObj(Assemble(response, slug, sections));
      && (!HasKey(page, "createdAt") ==> Get(r, "createdAt") == Some(JStr("")))
      && (!HasKey(page, "updatedAt") ==> Get(r, "updatedAt") == Some(JStr("")))
      && (!HasKey(page, "globalType") ==> Get(r, "globalType") == Some(JStr("")))
  {
    AssembleTime(response, slug, sections, CreatedAt, "createdAt");
    AssembleTime(response, slug, sections, UpdatedAt, "updatedAt");
    AssembleTime(response, slug, sections, GlobalType, "globalType");
  }

  /** A page without a page type or a source gets ones that say
      "dynamic" when the page has a truthy `slug` field and "global"
      otherwise. */
  lemma MissingKindDefaulted(response: seq<(string, Json)>, slug: string, show: Json -> string)
    requires NormalizePageResponse(response, slug, show).Some?
    ensures var page := JObj(response);
      var r := JObj(NormalizePageResponse(response, slug, show).value);
      var slugGiven := JsTrue(JsProp(page, "slug"));
      && (!HasKey(page, "pageType") ==> Get(r, "pageType") == Some(JStr(if slugGiven then "dynamic" else "global")))
      && (!HasKey(page, "source") ==> Get(r, "source") == Some(JStr(if slugGiven then "dynamic-pages" else "globals")))
  {
    var sections := ConvertedSections(response, show).value;
    AssembleKind(response, slug, sections, PageType, "pageType", "dynamic", "global");
    AssembleKind(response, slug, sections, Source, "source", "dynamic-pages", "globals");
  }

  lemma AssembleKind(response: seq<(string, Json)>, slug: string, sections: seq<Json>, f: Field, name: string,
                     dynamic: string, global: string)
    requires (f == PageType && dynamic == "dynamic" && global == "global")
          || (f == Source && dynamic == "dynamic-pages" && global == "globals")
    requires name == FieldName(f)
    ensures !HasKey(JObj(response), name) ==>
      Get(JObj(Assemble(response, slug, sections)), name) == Some(JStr(if JsTrue(JsProp(JObj(response), "slug")) then dynamic else global))
  {
    if !HasKey(JObj(response), name) {
      AssembleMissing(response, slug, sections, f);
      assert JsProp(JObj(response), name).None?;
    }
  }

  /** A page without a hero title takes the first truthy of its page title
      and title, and else the display form of the slug it is served
      under. */
  lemma MissingHeroTitle(response: seq<(string, Json)>, slug: string, show: Json -> string)
    requires NormalizePageResponse(response, slug, show).Some?
    requires !HasKey(JObj(response), "heroTitle")
    ensures var page := JObj(response);
      Get(JObj(NormalizePageResponse(response, slug, show).value), "heroTitle")
        == Some(OrValue(JsOr(JsProp(page, "pageTitle"), JsProp(page, "title")), JStr(FormatSlugForDisplay(slug))))
  {
    MissingFieldDefaulted(response, slug, show, HeroTitle);
  }

  /** The `sections` of the result: the converted list when the page had
      a truthy one, the page's own falsy value when it had one, and an
      empty list when it had none. */
  lemma ResultSections(response: seq<(string, Json)>, slug: string, show: Json -> string)
    requires UniqueNames(response)
    requires NormalizePageResponse(response, slug, show).Some?
    ensures var given := JsProp(JObj(response), "sections");
      var r := Get(JObj(NormalizePageResponse(response, slug, show).value), "sections");
      && (JsTrue(given) ==>
            r.Some? && r.value.JArr? && |r.value.items| == |given.value.items|
            && forall i :: 0 <= i < |given.value.items| ==> Some(r.value.items[i]) == ConvertSection(given.value.items[i], show))
      && (given.Some? && !JsTrue(given) ==> r == given)
      && (given.None? ==> r == Some(JArr([])))
  {
    var sections := ConvertedSections(response, show).value;
    if JsProp(JObj(response), "sections").None? {
      AssembleMissing(response, slug, sections, Sections);
    } else {
      SpreadFields(response, sections, "sections");
      AssembleGiven(response, slug, sections, "sections");
    }
  }

  /** A page that names neither its type nor its source comes out as a
      dynamic page exactly when it has a truthy `slug` field, and as a
      global page exactly when it does not. */
  lemma NormalizedKind(response: seq<(string, Json)>, slug: string, show: Json -> string)
    requires NormalizePageResponse(response, slug, show).Some?
    requires !HasKey(JObj(response), "pageType") && !HasKey(JObj(response), "source")
    ensures var r := JObj(NormalizePageResponse(response, slug, show).value);
      var slugGiven := JsTrue(JsProp(JObj(response), "slug"));
      && (IsDynamicPage(r) <==> slugGiven)
      && (IsGlobalPage(r) <==> !slugGiven)
  {
    MissingKindDefaulted(response, slug, show);
  }
}
