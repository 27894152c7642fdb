/** The examination-cell page's grouping of COE documents: one section
    per category, holding that category's PDF links in input order, with
    an id, an icon and badges derived from the category name. Sections
    come in the order JavaScript enumerates the keys of the grouping
    object: keys that are array indices first, ascending by value, then
    the other keys in the order they were created. */
module Coe {
  import opened Options
  import opened Text
  import opened OrderedObjects
  import opened JsValues

  /** A COE document as the page reads it. */
  datatype CoeItem = CoeItem(title: string, category: string, pdfUrl: string)

  datatype ExamLink = ExamLink(href: string, title: string, subtitle: string, fileType: string)

  datatype Icon = ClipboardCheck | Star

  datatype Badge = Badge(text: string, variant: string)

  datatype ExamSection = ExamSection(id: string, title: string, icon: Icon, badges: seq<Badge>, links: seq<ExamLink>)

  /** The link of one document. */
  function LinkOf(item: CoeItem, baseUrl: string): ExamLink {
    ExamLink(baseUrl + item.pdfUrl, item.title, item.category, "PDF")
  }

  /** `/\s+/g` replaced by `-`: each run of whitespace becomes one
      hyphen. */
  function HyphenateSpaces(s: string): (r: string)
    ensures forall i :: 0 <= i < |r| ==> !IsJsSpace(r[i])
    ensures (forall i :: 0 <= i < |s| ==> !IsJsSpace(s[i])) ==> r == s
  {
    ReplaceRuns(s, IsJsSpace, '-')
  }

  /** The section id: whitespace runs hyphenated, then lower-cased. */
  function SectionId(category: string): (r: string)
    ensures forall i :: 0 <= i < |r| ==> !IsJsSpace(r[i]) && !IsAsciiUpper(r[i])
  {
    var h := HyphenateSpaces(category);
    assert forall i :: 0 <= i < |Lower(h)| ==> !IsJsSpace(Lower(h)[i]) by {
      forall i | 0 <= i < |Lower(h)| ensures !IsJsSpace(Lower(h)[i]) {
        assert !IsJsSpace(h[i]);
      }
    }
    Lower(h)
  }

  /** Words separated by whitespace runs come out joined by single
      hyphens: `UG  Exams` gives `UG-Exams`. */
  lemma HyphenatedWords(ws: seq<string>, gap: string)
    requires gap != [] && AllChars(gap, IsJsSpace)
    requires forall k :: 0 <= k < |ws| ==> ws[k] != [] && NoChar(ws[k], IsJsSpace)
    ensures HyphenateSpaces(Join(ws, gap)) == Join(ws, "-")
  {
    ReplaceRunsJoin(ws, gap, IsJsSpace, '-');
  }

  /** The id of a category of words separated by whitespace is the
      words joined by hyphens, lower-cased: `UG Exams` gives
      `ug-exams`. */
  lemma SectionIdOfWords(ws: seq<string>, gap: string)
    requires gap != [] && AllChars(gap, IsJsSpace)
    requires forall k :: 0 <= k < |ws| ==> ws[k] != [] && NoChar(ws[k], IsJsSpace)
    ensures SectionId(Join(ws, gap)) == Lower(Join(ws, "-"))
  {
    HyphenatedWords(ws, gap);
  }

  /** An id is its own id: ids are stable under the derivation. */
  lemma SectionIdSettles(category: string)
    ensures SectionId(SectionId(category)) == SectionId(category)
  {
    var r := SectionId(category);
    assert HyphenateSpaces(r) == r;
    assert Lower(r) == r;
  }

  /** A category without whitespace or upper-case letters is its own
      id. */
  lemma PlainCategoryIsId(category: string)
    requires forall i :: 0 <= i < |category| ==> !IsJsSpace(category[i]) && !IsAsciiUpper(category[i])
    ensures SectionId(category) == category
  {
    assert Lower(category) == category;
  }

  const NewBadge := Badge("New", "new")

  /** The badges of a category: at most one of Special, UG and PG, tested
      in that order on the lower-cased name (so UG wins over PG), then
      always New. */
  function Badges(category: string): (r: seq<Badge>)
    ensures 1 <= |r| <= 2 && r[|r| - 1] == NewBadge
    ensures (r[0] == Badge("Special", "special")) <==> Contains(Lower(category), "special")
    ensures |r| == 1 <==> !Contains(Lower(category), "special") && !Contains(Lower(category), "ug")
                          && !Contains(Lower(category), "pg")
    ensures !Contains(Lower(category), "special") && Contains(Lower(category), "ug") ==> r[0] == Badge("UG", "ug")
    ensures !Contains(Lower(category), "special") && !Contains(Lower(category), "ug") && Contains(Lower(category), "pg")
      ==> r[0] == Badge("PG", "pg")
  {
    var lower := Lower(category);
    if Contains(lower, "special") then [Badge("Special", "special"), NewBadge]
    else if Contains(lower, "ug") then [Badge("UG", "ug"), NewBadge]
    else if Contains(lower, "pg") then [Badge("PG", "pg"), NewBadge]
    else [NewBadge]
  }

  /** Special categories get the star. */
  function IconFor(category: string): (r: Icon)
    ensures r == Star <==> Badges(category)[0] == Badge("Special", "special")
  {
    if Contains(Lower(category), "special") then Star else ClipboardCheck
  }

  function MakeSection(entry: (string, seq<ExamLink>)): ExamSection {
    ExamSection(SectionId(entry.0), entry.0, IconFor(entry.0), Badges(entry.0), entry.1)
  }

  function SectionTitles(r: seq<ExamSection>): (t: seq<string>)
    ensures |t| == |r| && forall k :: 0 <= k < |r| ==> t[k] == r[k].title
  {
    seq(|r|, (k: int) requires 0 <= k < |r| => r[k].title)
  }

  /** The `grouped` object of the page, when it can be built. */
  function Grouped(items: seq<CoeItem>, baseUrl: string): seq<(string, seq<ExamLink>)> {
    GroupBy(items, (it: CoeItem) => it.category, (it: CoeItem) => LinkOf(it, baseUrl))
  }

  /** A category the plain `grouped` object already answers: a member
      every object inherits from `Object.prototype`. `grouped[category]`
      is then a truthy function (or, for `__proto__`, the prototype
      itself), so no array is created and the `push` throws. */
  predicate ClashesWithPrototype(item: CoeItem) {
    item.category in ObjectProtoNames
  }

  /** The body of `fetchCOE` after the fetch: the sections of the page,
      or `None` when the grouping loop throws. */
  function CoeSections(items: seq<CoeItem>, baseUrl: string): (r: Option<seq<ExamSection>>)
    ensures r.None? <==> exists k :: 0 <= k < |items| && ClashesWithPrototype(items[k])
    ensures r.Some? ==> |r.value| == |Grouped(items, baseUrl)|
  {
    if exists k :: 0 <= k < |items| && ClashesWithPrototype(items[k]) then None
    else
      var entries := Entries(Grouped(items, baseUrl), IsArrayIndex, IndexValue);
      Some(seq(|entries|, (k: int) requires 0 <= k < |entries| => MakeSection(entries[k])))
  }

  /** The sections the page shows: the `catch` only logs, so a throwing
      grouping leaves the initial empty list in place. */
  function ShownSections(items: seq<CoeItem>, baseUrl: string): (r: seq<ExamSection>)
    ensures CoeSections(items, baseUrl).Some? ==> r == CoeSections(items, baseUrl).value
  {
    match CoeSections(items, baseUrl)
    case None => []
    case Some(sections) => sections
  }

  /** One document whose category is named like an inherited member, such
      as `toString`, empties the whole page, whatever the other documents
      are. */
  lemma PrototypeNameEmptiesPage(items: seq<CoeItem>, baseUrl: string, k: nat)
    requires k < |items| && items[k].category == "toString"
    ensures ShownSections(items, baseUrl) == []
  {
    assert ClashesWithPrototype(items[k]);
  }

  /** Every document lands in exactly one section, the one titled with
      its category: each category present heads one section, and no
      other title occurs. */
  lemma EveryCategoryOnce(items: seq<CoeItem>, baseUrl: string)
    ensures CoeSections(items, baseUrl).Some? ==>
      var r := CoeSections(items, baseUrl).value;
      forall c :: multiset(SectionTitles(r))[c]
        == if HasKey(items, (it: CoeItem) => it.category, c) then 1 else 0
  {
    if CoeSections(items, baseUrl).Some? {
      var entries := Entries(Grouped(items, baseUrl), IsArrayIndex, IndexValue);
      GroupedEntries(items, (it: CoeItem) => it.category, (it: CoeItem) => LinkOf(it, baseUrl), IsArrayIndex, IndexValue);
      assert SectionTitles(CoeSections(items, baseUrl).value) == Keys(entries);
    }
  }

  /** Every section holds exactly the links of its category's documents,
      in input order, and carries the id, icon and badges of its title. */
  lemma SectionsHoldTheirDocuments(items: seq<CoeItem>, baseUrl: string)
    ensures CoeSections(items, baseUrl).Some? ==>
      var r := CoeSections(items, baseUrl).value;
      forall k :: 0 <= k < |r| ==>
        r[k].links == ValuesFor(items, (it: CoeItem) => it.category, (it: CoeItem) => LinkOf(it, baseUrl), r[k].title)
        && r[k].id == SectionId(r[k].title) && r[k].icon == IconFor(r[k].title) && r[k].badges == Badges(r[k].title)
  {
    GroupedEntries(items, (it: CoeItem) => it.category, (it: CoeItem) => LinkOf(it, baseUrl), IsArrayIndex, IndexValue);
  }

  /** Sections whose title is an array index ("1", "2024") come first,
      ascending by number, whatever the order of the documents; the
      other sections follow. */
  lemma NumericTitlesFirst(items: seq<CoeItem>, baseUrl: string)
    ensures CoeSections(items, baseUrl).Some? ==>
      var r := CoeSections(items, baseUrl).value;
      forall i, j :: 0 <= i < j < |r| && IsArrayIndex(r[j].title) ==>
        IsArrayIndex(r[i].title) && IndexValue(r[i].title) <= IndexValue(r[j].title)
  {
    EntriesOrder(Grouped(items, baseUrl), IsArrayIndex, IndexValue);
  }
}
