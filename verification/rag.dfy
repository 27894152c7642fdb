/** The retrieval side of the chat service that is pure formatting: the
    context block handed to the language model, built from search
    results, and the source records returned with an answer. The search
    itself is an HTTP call and is not modelled. */
module Rag {
  import opened Options
  import opened Text
  import opened Json

  const NoResults := "No relevant information found."

  /** `result.get("metadata", {})`: the result must be a dict, and so must
      the metadata, to be read further. */
  function MetadataOf(result: Json): (r: Option<Json>)
    ensures r.Some? ==> r.value.JObj?
    ensures r.Some? <==> result.JObj? && Given(result, "metadata", JObj([])).JObj?
  {
    if !result.JObj? then None
    else
      var md := GetOr(result, "metadata", JObj([]));
      GivenIsGetOr(result, "metadata", JObj([]));
      if md.JObj? then Some(md) else None
  }

  /** One part of a header when the metadata value is truthy. */
  function Part(md: Json, key: string, caption: string, repr: Json -> string): seq<string> {
    var v := GetOr(md, key, JNull);
    if Truthy(v) then [caption + Str(v, repr)] else []
  }

  /** Whether the metadata holds a truthy value under `key`. */
  predicate Shows(md: Json, key: string) {
    HasKey(md, key) && Truthy(Get(md, key).value)
  }

  /** The header parts, in the order Title, Department, Category. */
  function HeaderParts(md: Json, repr: Json -> string): (r: seq<string>)
    ensures |r| == (if Shows(md, "document_title") then 1 else 0) + (if Shows(md, "department") then 1 else 0)
                   + (if Shows(md, "category") then 1 else 0)
    ensures forall k :: 0 <= k < |r| ==> |r[k]| > 0 && r[k][0] in {'T', 'D', 'C'}
  {
    Part(md, "document_title", "Title: ", repr) + Part(md, "department", "Department: ", repr)
    + Part(md, "category", "Category: ", repr)
  }

  /** The header of an entry: the parts joined by " | ", or "Source" when
      the metadata shows none of them. */
  function Header(md: Json, repr: Json -> string): (r: string)
    ensures r == "Source" <==> !Shows(md, "document_title") && !Shows(md, "department") && !Shows(md, "category")
  {
    var parts := HeaderParts(md, repr);
    if parts == [] then "Source"
    else
      JoinEnds(parts, " | ");
      assert Join(parts, " | ")[0] != 'S';
      Join(parts, " | ")
  }

  /** A string value that is not empty shows as its part. */
  lemma PartShown(md: Json, key: string, caption: string, s: string, repr: Json -> string)
    requires Get(md, key) == Some(JStr(s)) && s != []
    ensures Part(md, key, caption, repr) == [caption + s]
  {
  }

  lemma JoinThree(a: string, b: string, c: string, sep: string)
    ensures Join([a, b, c], sep) == a + sep + b + sep + c
  {
    assert [a, b, c][1..] == [b, c];
    assert [b, c][1..] == [c];
    assert Join([b, c], sep) == b + sep + c;
    assert a + sep + (b + sep + c) == a + sep + b + sep + c;
  }

  /** A header showing all three parts names them in order. */
  lemma HeaderOfAll(md: Json, title: string, department: string, category: string, repr: Json -> string)
    requires md.JObj? && Get(md, "document_title") == Some(JStr(title)) && title != []
    requires Get(md, "department") == Some(JStr(department)) && department != []
    requires Get(md, "category") == Some(JStr(category)) && category != []
    ensures Header(md, repr) == ("Title: " + title) + " | " + ("Department: " + department) + " | " + ("Category: " + category)
  {
    PartShown(md, "document_title", "Title: ", title, repr);
    PartShown(md, "department", "Department: ", department, repr);
    PartShown(md, "category", "Category: ", category, repr);
    var parts := ["Title: " + title, "Department: " + department, "Category: " + category];
    assert HeaderParts(md, repr) == parts;
    JoinThree(parts[0], parts[1], parts[2], " | ");
  }

  /** Entry `i` of the context: its number in brackets, the header, then
      the content, each closed by a newline. */
  function Entry(i: int, result: Json, repr: Json -> string): (r: Option<string>)
    ensures r.Some? <==> MetadataOf(result).Some?
  {
    match MetadataOf(result)
    case None => None
    case Some(md) =>
      var content := GetOr(result, "content", JStr(""));
      Some("[" + IntToString(i) + "] " + Header(md, repr) + "\n" + Str(content, repr) + "\n")
  }

  /** The entries, numbered from 1 in result order. */
  function Entries(results: seq<Json>, repr: Json -> string): (r: Option<seq<string>>)
    ensures r.Some? <==> forall k :: 0 <= k < |results| ==> MetadataOf(results[k]).Some?
    ensures r.Some? ==> (|r.value| == |results|
      && forall k :: 0 <= k < |results| ==> Some(r.value[k]) == Entry(k + 1, results[k], repr))
  {
    var numbered := seq(|results|, (k: int) requires 0 <= k < |results| => (k + 1, results[k]));
    assert forall k :: 0 <= k < |results| ==> numbered[k] == (k + 1, results[k]);
    MapAll(numbered, (p: (int, Json)) => Entry(p.0, p.1, repr))
  }

  /** `build_context_from_search`. */
  function BuildContext(results: seq<Json>, repr: Json -> string): (r: Option<string>)
    ensures results == [] ==> r == Some(NoResults)
    ensures results != [] ==> (r.Some? <==> Entries(results, repr).Some?)
    ensures results != [] && r.Some? ==> r.value == Join(Entries(results, repr).value, "\n")
  {
    if results == [] then Some(NoResults)
    else
      match Entries(results, repr)
      case None => None
      case Some(es) => Some(Join(es, "\n"))
  }

  /** A context built from results starts with the first entry, which
      starts with "[1] ", and is never the no-results text. */
  lemma ContextStartsWithFirst(results: seq<Json>, repr: Json -> string)
    requires results != [] && BuildContext(results, repr).Some?
    ensures StartsWith(BuildContext(results, repr).value, "[1] ")
    ensures BuildContext(results, repr).value != NoResults
  {
    var es := Entries(results, repr).value;
    assert Some(es[0]) == Entry(1, results[0], repr);
    EntryNumbered(1, results[0], repr);
    OneReads();
    JoinStartsWithFirst(es, "\n", "[1] ");
    var c := Join(es, "\n");
    assert c[0] == c[..4][0] == '[';
    assert NoResults[0] == 'N';
  }

  /** Entry `i` opens with its number in brackets. */
  lemma EntryNumbered(i: int, result: Json, repr: Json -> string)
    requires MetadataOf(result).Some?
    ensures StartsWith(Entry(i, result, repr).value, "[" + IntToString(i) + "] ")
  {
    var number := "[" + IntToString(i) + "] ";
    var titled := number + Header(MetadataOf(result).value, repr);
    EntryShape(i, result, repr);
    StartsWithConcat(number, Header(MetadataOf(result).value, repr));
    StartsWithConcat(titled, "\n");
    StartsWithTrans(titled + "\n", titled, number);
    StartsWithTrans(Entry(i, result, repr).value, titled + "\n", number);
  }

  lemma OneReads()
    ensures "[" + IntToString(1) + "] " == "[1] "
  {
    assert IntToString(1) == "1";
  }

  /** Entry `i` opens with its number and the header and closes with the
      content and a newline. */
  lemma EntryShape(i: int, result: Json, repr: Json -> string)
    requires MetadataOf(result).Some?
    ensures var e := Entry(i, result, repr).value;
      var head := "[" + IntToString(i) + "] " + Header(MetadataOf(result).value, repr) + "\n";
      var tail := Str(Given(result, "content", JStr("")), repr) + "\n";
      StartsWith(e, head) && e == head + tail
  {
    GivenIsGetOr(result, "content", JStr(""));
  }

  // ---------------------------------------------------------------------
  // extract_sources_info

  /** The source record of one result. */
  function SourceRecord(result: Json): (r: Option<Json>)
    ensures r.Some? <==> MetadataOf(result).Some?
  {
    match MetadataOf(result)
    case None => None
    case Some(md) =>
      Some(JObj([
        ("title", GetOr(md, "document_title", JStr("Unknown"))),
        ("type", GetOr(md, "content_type", JStr("content"))),
        ("department", GetOr(md, "department", JNull)),
        ("category", GetOr(md, "category", JNull)),
        ("score", GetOr(result, "score", JReal(0.0))),
        ("chunk_id", GetOr(result, "chunk_id", JNull))]))
  }

  /** `extract_sources_info`: one record per result, in order. */
  function ExtractSourcesInfo(results: seq<Json>): (r: Option<seq<Json>>)
    ensures r.Some? <==> forall k :: 0 <= k < |results| ==> MetadataOf(results[k]).Some?
    ensures r.Some? ==> (|r.value| == |results|
      && forall k :: 0 <= k < |results| ==> Some(r.value[k]) == SourceRecord(results[k]))
  {
    MapAll(results, SourceRecord)
  }

  /** A record carries the metadata's title, type, department and
      category, or "Unknown", "content" and none, and the result's score
      and chunk id, or 0.0 and none. */
  lemma SourceRecordFields(result: Json)
    requires MetadataOf(result).Some?
    ensures var md := MetadataOf(result).value;
      var rec := SourceRecord(result).value;
      Get(rec, "title") == Some(Given(md, "document_title", JStr("Unknown")))
      && Get(rec, "type") == Some(Given(md, "content_type", JStr("content")))
      && Get(rec, "department") == Some(Given(md, "department", JNull))
      && Get(rec, "category") == Some(Given(md, "category", JNull))
      && Get(rec, "score") == Some(Given(result, "score", JReal(0.0)))
      && Get(rec, "chunk_id") == Some(Given(result, "chunk_id", JNull))
  {
    var md := MetadataOf(result).value;
    var fields := [
      ("title", GetOr(md, "document_title", JStr("Unknown"))),
      ("type", GetOr(md, "content_type", JStr("content"))),
      ("department", GetOr(md, "department", JNull)),
      ("category", GetOr(md, "category", JNull)),
      ("score", GetOr(result, "score", JReal(0.0))),
      ("chunk_id", GetOr(result, "chunk_id", JNull))];
    assert SourceRecord(result) == Some(JObj(fields));
    assert UniqueNames(fields);
    GetUnique(fields, 0);
    GetUnique(fields, 1);
    GetUnique(fields, 2);
    GetUnique(fields, 3);
    GetUnique(fields, 4);
    GetUnique(fields, 5);
    GivenIsGetOr(md, "document_title", JStr("Unknown"));
    GivenIsGetOr(md, "content_type", JStr("content"));
    GivenIsGetOr(md, "department", JNull);
    GivenIsGetOr(md, "category", JNull);
    GivenIsGetOr(result, "score", JReal(0.0));
    GivenIsGetOr(result, "chunk_id", JNull);
  }
}
