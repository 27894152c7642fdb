/** `ContentProcessor._classify_table_type` and `_detect_department`:
    keyword tables consulted in a fixed order, first match wins. */
module Classify {
  import opened Options
  import opened Text
  import opened Json

  /** `any(word in text for word in words)` with substring `in`. */
  function AnyContained(text: string, words: seq<string>): (r: bool)
    ensures r <==> exists k :: 0 <= k < |words| && Contains(text, words[k])
  {
    if |words| == 0 then false
    else Contains(text, words[0]) || AnyContained(text, words[1..])
  }

  /** `any(word in items for word in words)` with list-element `in`. */
  predicate AnyListed(items: seq<string>, words: seq<string>) {
    exists k :: 0 <= k < |words| && words[k] in items
  }

  /** The title groups, in the order they are tried. */
  const TitleGroups: seq<(seq<string>, string)> := [
    (["faculty", "staff", "professor"], "faculty_list"),
    (["curriculum", "syllabus", "course"], "course_curriculum"),
    (["equipment", "lab", "facility"], "lab_equipment"),
    (["placement", "company", "recruit"], "placement_stats")]

  /** The header groups, tried after every title group. */
  const HeaderGroups: seq<(seq<string>, string)> := [
    (["name", "designation", "qualification"], "faculty_list"),
    (["subject", "code", "credit"], "course_curriculum")]

  const GeneralTable := "general_table"

  /** The label of the first group one of whose words occurs in the
      (lower-cased) text. */
  function FirstGroupIn(text: string, groups: seq<(seq<string>, string)>): (r: Option<string>)
    ensures r.Some? <==> exists g :: 0 <= g < |groups| && AnyContained(text, groups[g].0)
    ensures r.Some? ==> exists g :: (0 <= g < |groups| && AnyContained(text, groups[g].0)
      && r.value == groups[g].1 && forall h :: 0 <= h < g ==> !AnyContained(text, groups[h].0))
  {
    if |groups| == 0 then None
    else if AnyContained(text, groups[0].0) then Some(groups[0].1)
    else
      var r := FirstGroupIn(text, groups[1..]);
      assert forall g :: 1 <= g < |groups| ==> groups[g] == groups[1..][g - 1];
      r
  }

  /** The kind of the first header group one of whose words is, exactly,
      one of the lower-cased headers. */
  function HeaderKind(headersLower: seq<string>, groups: seq<(seq<string>, string)>): (r: Option<string>)
    ensures r.Some? <==> exists g :: 0 <= g < |groups| && AnyListed(headersLower, groups[g].0)
    ensures r.Some? ==> exists g :: (0 <= g < |groups| && AnyListed(headersLower, groups[g].0)
      && r.value == groups[g].1 && forall h :: 0 <= h < g ==> !AnyListed(headersLower, groups[h].0))
  {
    if |groups| == 0 then None
    else if AnyListed(headersLower, groups[0].0) then Some(groups[0].1)
    else
      var r := HeaderKind(headersLower, groups[1..]);
      assert forall g :: 1 <= g < |groups| ==> groups[g] == groups[1..][g - 1];
      r
  }

  /** The classification of a lower-cased title and header list. */
  function TableKind(titleLower: string, headersLower: seq<string>): string {
    match FirstGroupIn(titleLower, TitleGroups)
    case Some(k) => k
    case None =>
      match HeaderKind(headersLower, HeaderGroups)
      case Some(k) => k
      case None => GeneralTable
  }

  /** `_classify_table_type(title, headers)`: `title.lower()` needs a
      string, and `[h.lower() for h in headers]` an iterable of strings. */
  function ClassifyTableType(title: Json, headers: Json): Option<string> {
    if !title.JStr? then None
    else
      match Iter(headers)
      case None => None
      case Some(items) =>
        match AllStrs(items)
        case None => None
        case Some(hs) => Some(TableKind(Lower(title.s), LowerAll(hs)))
  }

  function LowerAll(hs: seq<string>): (r: seq<string>)
    ensures |r| == |hs| && forall i :: 0 <= i < |hs| ==> r[i] == Lower(hs[i])
  {
    seq(|hs|, i requires 0 <= i < |hs| => Lower(hs[i]))
  }

  /** The result is one of the five kinds. */
  lemma TableKindRange(titleLower: string, headersLower: seq<string>)
    ensures TableKind(titleLower, headersLower) in
      {"faculty_list", "course_curriculum", "lab_equipment", "placement_stats", GeneralTable}
  {
    match FirstGroupIn(titleLower, TitleGroups)
    case Some(k) =>
      var g :| 0 <= g < |TitleGroups| && k == TitleGroups[g].1;
    case None =>
      match HeaderKind(headersLower, HeaderGroups)
      case Some(k) =>
        var g :| 0 <= g < |HeaderGroups| && k == HeaderGroups[g].1;
      case None =>
  }

  /** A title word decides on its own: headers are not consulted. */
  lemma TitleDecides(titleLower: string, h1: seq<string>, h2: seq<string>)
    requires exists g :: 0 <= g < |TitleGroups| && AnyContained(titleLower, TitleGroups[g].0)
    ensures TableKind(titleLower, h1) == TableKind(titleLower, h2)
  {
  }

  /** Headers match by whole-string equality: headers none of which is
      exactly a header word classify as no headers at all, however much of
      a header word they contain. */
  lemma HeadersMatchExactly(titleLower: string, headersLower: seq<string>)
    requires forall g, k :: 0 <= g < |HeaderGroups| && 0 <= k < |HeaderGroups[g].0| ==>
      HeaderGroups[g].0[k] !in headersLower
    ensures TableKind(titleLower, headersLower) == TableKind(titleLower, [])
  {
    assert forall g :: 0 <= g < |HeaderGroups| ==> !AnyListed(headersLower, HeaderGroups[g].0);
  }

  /** Applying the ASCII lower-casing twice changes nothing. */
  lemma LowerIdempotent(s: string)
    ensures Lower(Lower(s)) == Lower(s)
  {
  }

  /** Classification ignores the case of the title. */
  lemma ClassifyIgnoresTitleCase(t: string, headers: Json)
    ensures ClassifyTableType(JStr(t), headers) == ClassifyTableType(JStr(Lower(t)), headers)
  {
    LowerIdempotent(t);
  }

  /** `DEPARTMENT_KEYWORDS`, in its insertion order. */
  const DepartmentKeywords: seq<(string, seq<string>)> := [
    ("CSE", ["computer", "software", "programming", "AI", "ML", "data science", "algorithms"]),
    ("ECE", ["electronics", "communication", "VLSI", "embedded", "signal processing"]),
    ("MECH", ["mechanical", "thermal", "manufacturing", "automobile", "robotics"]),
    ("CIVIL", ["civil", "construction", "structural", "environmental", "transportation"]),
    ("EEE", ["electrical", "power", "energy", "motors", "control systems"]),
    ("BME", ["biomedical", "medical devices", "healthcare", "biotechnology"])]

  /** The first department of `table` with a keyword in `text`. */
  function FirstDepartment(text: string, table: seq<(string, seq<string>)>): (r: Option<string>)
    ensures r.None? <==> forall d :: 0 <= d < |table| ==> !AnyContained(text, table[d].1)
    ensures r.Some? ==> exists d :: (0 <= d < |table| && table[d].0 == r.value && AnyContained(text, table[d].1)
      && forall e :: 0 <= e < d ==> !AnyContained(text, table[e].1))
  {
    if |table| == 0 then None
    else if AnyContained(text, table[0].1) then Some(table[0].0)
    else
      var r := FirstDepartment(text, table[1..]);
      assert forall d :: 1 <= d < |table| ==> table[d] == table[1..][d - 1];
      r
  }

  /** `_detect_department(content)`: the content is lower-cased, the
      keywords are not. */
  function DetectDepartment(content: string): Option<string> {
    FirstDepartment(Lower(content), DepartmentKeywords)
  }

  /** A word starting with an upper-case letter never occurs in
      lower-cased text. */
  lemma UpperNeverInLower(s: string, w: string)
    requires w != [] && IsAsciiUpper(w[0])
    ensures !Contains(Lower(s), w)
  {
    forall i | 0 <= i <= |Lower(s)| ensures !OccursAt(Lower(s), w, i) {
      if i + |w| <= |Lower(s)| {
        assert Lower(s)[i..i + |w|][0] == Lower(s)[i];
      }
    }
  }

  /** The keywords `AI`, `ML` and `VLSI` can never match. */
  lemma UpperKeywordsNeverMatch(content: string)
    ensures !Contains(Lower(content), "AI") && !Contains(Lower(content), "ML") && !Contains(Lower(content), "VLSI")
  {
    UpperNeverInLower(content, "AI");
    UpperNeverInLower(content, "ML");
    UpperNeverInLower(content, "VLSI");
  }
}
