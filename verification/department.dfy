/** `ContentProcessor._process_department_section`: a department page's
    `dynamicSections`, each routed by its `contentType` to the rich-text,
    table, dynamic-table or multiple-tables handler, or chunked as free
    text. */
module Departments {
  import opened Options
  import opened Text
  import opened Json
  import opened Environment
  import opened Chunks
  import opened Sections
  import opened Links

  /** The department's name: the `name` of a department dict (`General`
      when missing), else `str()` of whatever the payload holds. */
  function DepartmentName(data: Json, env: Env): (r: Json)
    ensures !HasKey(data, "department") ==> r == JStr("General")
    ensures GetOr(data, "department", JObj([])).JStr? ==> r == GetOr(data, "department", JObj([]))
  {
    var dd := GetOr(data, "department", JObj([]));
    if dd.JObj? then GetOr(dd, "name", JStr("General")) else JStr(F(dd, env))
  }

  /** The links of a rich-text section whose content is a dict with a
      `root`. */
  function RichTextLinks(section: Json): (r: Option<seq<Link>>)
    ensures r.Some? ==> AllUrls(r.value)
  {
    if HasKey(section, "content") && Get(section, "content").value.JObj?
       && HasKey(Get(section, "content").value, "root") then
      ExtractLinks(Get(section, "content").value)
    else Some([])
  }

  /** The chunks of section `idx`. A section must answer `.get`. */
  function SectionOutput(section: Json, idx: nat, department: Json, title: Json, env: Env): (r: Option<seq<Piece>>)
    ensures !section.JObj? ==> r.None?
  {
    match PyGet(section, "contentType", JStr("unknown"))
    case None => None
    case Some(st) =>
      if st == JStr("richText") then
        match RichTextSection(section, department, title, idx, env)
        case None => None
        case Some(text) =>
          match RichTextLinks(section)
          case None => None
          case Some(links) =>
            Some(WithLinks(text, links, "dept-section-" + NatStr(idx), "collection", "department-sections",
                           env.now, env.repr))
      else if st == JStr("table") then TableSection(section, department, title, JInt(idx), env)
      else if st == JStr("dynamicTable") then DynamicTableSection(section, department, title, JInt(idx), env)
      else if st == JStr("multipleTables") then MultipleTablesSection(section, department, title, idx, env)
      else
        var content := F(GetOr(section, "content", JStr("")), env);
        if content == [] then Some([])
        else Some(SectionChunks(content, department, title, st, JInt(idx), env))
  }

  /** Section `k` of a page, routed with the page's department and title. */
  function Route(department: Json, title: Json, env: Env): (Json, nat) -> Option<seq<Piece>> {
    (section: Json, k: nat) => SectionOutput(section, k, department, title, env)
  }

  /** `_process_department_section(data)`. */
  function DepartmentSection(data: Json, env: Env): (r: Option<seq<Piece>>)
    ensures !data.JObj? ==> r.None?
    ensures data.JObj? && !HasKey(data, "dynamicSections") ==> r == Some([])
  {
    if !data.JObj? then None
    else
      match Iter(GetOr(data, "dynamicSections", JArr([])))
      case None => None
      case Some(secs) =>
        Gather(secs, 0, Route(DepartmentName(data, env), GetOr(data, "title", JStr("Department Section")), env))
  }

  /** One section that raises makes the whole department section raise:
      no chunk of the other sections survives. */
  lemma OneFailureFailsAll(data: Json, env: Env, k: nat)
    requires data.JObj? && Iter(GetOr(data, "dynamicSections", JArr([]))).Some?
    requires var secs := Iter(GetOr(data, "dynamicSections", JArr([]))).value;
      k < |secs| && SectionOutput(secs[k], k, DepartmentName(data, env),
                                  GetOr(data, "title", JStr("Department Section")), env).None?
    ensures DepartmentSection(data, env).None?
  {
    var secs := Iter(GetOr(data, "dynamicSections", JArr([]))).value;
    GatherFails(secs, 0, k, Route(DepartmentName(data, env), GetOr(data, "title", JStr("Department Section")), env));
  }

  /** Otherwise the page's chunks are all its sections' chunks: as many as
      they add up to. */
  lemma AllSectionsKept(data: Json, env: Env)
    requires DepartmentSection(data, env).Some?
    ensures var secs := Iter(GetOr(data, "dynamicSections", JArr([]))).value;
      |DepartmentSection(data, env).value|
      == OutputSize(secs, 0, Route(DepartmentName(data, env), GetOr(data, "title", JStr("Department Section")), env))
  {
    var secs := Iter(GetOr(data, "dynamicSections", JArr([]))).value;
    GatherSize(secs, 0, Route(DepartmentName(data, env), GetOr(data, "title", JStr("Department Section")), env));
  }

  /** A section of any other type without `content` adds nothing. */
  lemma EmptyFreeTextSection(section: Json, idx: nat, department: Json, title: Json, env: Env)
    requires section.JObj? && !HasKey(section, "content")
    requires GetOr(section, "contentType", JStr("unknown")) !in
      [JStr("richText"), JStr("table"), JStr("dynamicTable"), JStr("multipleTables")]
    ensures SectionOutput(section, idx, department, title, env) == Some([])
  {
    assert GetOr(section, "content", JStr("")) == JStr("");
  }

  /** The chunks of a rich-text section are its text chunks followed by
      one chunk per link, ids `dept-section-{idx}-link-{k}`. */
  lemma RichTextThenLinks(section: Json, idx: nat, department: Json, title: Json, env: Env)
    requires section.JObj? && GetOr(section, "contentType", JStr("unknown")) == JStr("richText")
    requires SectionOutput(section, idx, department, title, env).Some?
    ensures var r := SectionOutput(section, idx, department, title, env).value;
      var text := RichTextSection(section, department, title, idx, env);
      text.Some? && |text.value| <= |r|
      && (forall i :: 0 <= i < |text.value| ==> r[i] == text.value[i])
      && forall k :: |text.value| <= k < |r| ==>
        (r[k].sourceId == JStr(LinkSourceId("dept-section-" + NatStr(idx), k - |text.value|))
         && StartsWith(r[k].content, "Link: "))
  {
  }
}
