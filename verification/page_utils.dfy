/** The website's helpers for pages served from either CMS source (a
    "global" or a "dynamic page"): which source a response came from,
    slugs and their display form, canonical URLs, priority, breadcrumbs
    and the normalisation of a response into one shape. */
module PageUtils {
  import opened Options
  import opened Text
  import opened Json
  import opened JsValues

  /** `isDynamicPage(response)`: `response?.pageType` and
      `response?.source` are read without throwing, even on `null`. */
  predicate IsDynamicPage(response: Json) {
    JsProp(response, "pageType") == Some(JStr("dynamic")) || JsProp(response, "source") == Some(JStr("dynamic-pages"))
  }

  /** `isGlobalPage(response)`. */
  predicate IsGlobalPage(response: Json) {
    JsProp(response, "pageType") == Some(JStr("global")) || JsProp(response, "source") == Some(JStr("globals"))
  }

  /** An example on fixed responses: the two tests are independent, a
      response can pass both, and one with neither field passes neither. */
  lemma DynamicAndGlobal()
    ensures var both := JObj([("pageType", JStr("dynamic")), ("source", JStr("globals"))]);
      IsDynamicPage(both) && IsGlobalPage(both)
    ensures !IsDynamicPage(JObj([])) && !IsGlobalPage(JObj([])) && !IsDynamicPage(JNull)
  {
    var both := JObj([("pageType", JStr("dynamic")), ("source", JStr("globals"))]);
    assert JsProp(both, "pageType") == Some(JStr("dynamic"));
    assert JsProp(both, "source") == Some(JStr("globals"));
  }

  /** A response is both dynamic and global exactly when one of its two
      fields names the dynamic kind and the other the global one: a single
      field cannot say both. */
  lemma BothKinds(response: Json)
    ensures IsDynamicPage(response) && IsGlobalPage(response) <==>
      (JsProp(response, "pageType") == Some(JStr("dynamic")) && JsProp(response, "source") == Some(JStr("globals")))
      || (JsProp(response, "source") == Some(JStr("dynamic-pages")) && JsProp(response, "pageType") == Some(JStr("global")))
  {
  }

  /** One word with its first character upper-cased
      (`word.charAt(0).toUpperCase() + word.slice(1)`). */
  function Capitalize(word: string): (r: string)
    ensures |r| == |word|
    ensures forall i :: 0 < i < |word| ==> r[i] == word[i]
    ensures |word| > 0 ==> r[0] == UpperChar(word[0])
  {
    if word == [] then [] else [UpperChar(word[0])] + word[1..]
  }

  function CapitalizeAll(words: seq<string>): (r: seq<string>)
    ensures |r| == |words| && forall i :: 0 <= i < |words| ==> r[i] == Capitalize(words[i])
  {
    seq(|words|, (i: int) requires 0 <= i < |words| => Capitalize(words[i]))
  }

  /** `formatSlugForDisplay(slug)`: split on `-`, capitalise each piece,
      join with spaces. */
  function FormatSlugForDisplay(slug: string): string {
    Join(CapitalizeAll(SplitSep(slug, "-")), " ")
  }

  /** What the display form shows at position `i` of the slug: hyphens
      become spaces, and a character that starts the slug or follows a
      hyphen is upper-cased. */
  function DisplayChar(slug: string, i: nat): char
    requires i < |slug|
  {
    if slug[i] == '-' then ' '
    else if i == 0 || slug[i - 1] == '-' then UpperChar(slug[i])
    else slug[i]
  }

  /** Before the first hyphen `FindFrom` reports there is none. */
  lemma NoHyphenBefore(slug: string, k: int)
    requires k == FindFrom(slug, "-", 0)
    ensures forall i :: 0 <= i < |slug| && (k == -1 || i < k) ==> slug[i] != '-'
    ensures k != -1 ==> k < |slug| && slug[k] == '-'
  {
    forall i | 0 <= i < |slug| && (k == -1 || i < k) ensures slug[i] != '-' {
      assert !OccursAt(slug, "-", i);
      assert slug[i..i + 1] == [slug[i]];
    }
    if k != -1 {
      assert slug[k..k + 1] == "-";
    }
  }

  lemma JoinCons(a: string, xs: seq<string>, sep: string)
    requires |xs| >= 1
    ensures Join([a] + xs, sep) == a + sep + Join(xs, sep)
  {
    assert ([a] + xs)[1..] == xs;
  }

  lemma CapitalizeAllCons(a: string, xs: seq<string>)
    ensures CapitalizeAll([a] + xs) == [Capitalize(a)] + CapitalizeAll(xs)
  {
    var l := CapitalizeAll([a] + xs);
    var r := [Capitalize(a)] + CapitalizeAll(xs);
    assert |l| == |r|;
    forall i | 0 <= i < |l| ensures l[i] == r[i] {
      if i > 0 {
        assert ([a] + xs)[i] == xs[i - 1];
      }
    }
  }

  /** The display form splits at the first hyphen. */
  lemma FormatSlugStep(slug: string, k: int)
    requires k == FindFrom(slug, "-", 0) && k != -1
    ensures 0 <= k < |slug|
    ensures FormatSlugForDisplay(slug) == Capitalize(slug[..k]) + " " + FormatSlugForDisplay(slug[k + 1..])
  {
    var rest := SplitSep(slug[k + 1..], "-");
    assert SplitSep(slug, "-") == [slug[..k]] + rest;
    CapitalizeAllCons(slug[..k], rest);
    JoinCons(Capitalize(slug[..k]), CapitalizeAll(rest), " ");
  }

  /** Without a hyphen the display form is the capitalised slug. */
  lemma FormatSlugWhole(slug: string)
    requires FindFrom(slug, "-", 0) == -1
    ensures FormatSlugForDisplay(slug) == Capitalize(slug)
  {
    assert SplitSep(slug, "-") == [slug];
  }

  /** The display form is the slug read character by character: same
      length, and each character as `DisplayChar` says. */
  lemma {:induction false} FormatSlugPointwise(slug: string)
    ensures |FormatSlugForDisplay(slug)| == |slug|
    ensures forall i :: 0 <= i < |slug| ==> FormatSlugForDisplay(slug)[i] == DisplayChar(slug, i)
    decreases |slug|
  {
    var k := FindFrom(slug, "-", 0);
    var r := FormatSlugForDisplay(slug);
    NoHyphenBefore(slug, k);
    if k == -1 {
      FormatSlugWhole(slug);
    } else {
      FormatSlugStep(slug, k);
      var head := slug[..k];
      var rest := slug[k + 1..];
      var tail := FormatSlugForDisplay(rest);
      FormatSlugPointwise(rest);
      PointwiseAroundHyphen(slug, k, FormatSlugForDisplay(slug), tail);
    }
  }

  /** One step of the pointwise reading: when the display form is the
      capitalised part before the first hyphen at `k`, a space, and a tail
      that reads the rest pointwise, the whole reads the slug pointwise. */
  lemma PointwiseAroundHyphen(slug: string, k: nat, r: string, tail: string)
    requires k < |slug| && slug[k] == '-'
    requires forall i :: 0 <= i < k ==> slug[i] != '-'
    requires r == Capitalize(slug[..k]) + " " + tail
    requires |tail| == |slug| - k - 1
    requires forall i :: 0 <= i < |slug| - k - 1 ==> tail[i] == DisplayChar(slug[k + 1..], i)
    ensures |r| == |slug|
    ensures forall i :: 0 <= i < |slug| ==> r[i] == DisplayChar(slug, i)
  {
    var head := slug[..k];
    var rest := slug[k + 1..];
    forall i | 0 <= i < |slug| ensures r[i] == DisplayChar(slug, i) {
      if i < k {
        assert r[i] == Capitalize(head)[i];
      } else if i == k {
        assert r[i] == ' ';
      } else {
        assert r[i] == tail[i - k - 1];
        assert rest[i - k - 1] == slug[i];
        if i > k + 1 {
          assert rest[i - k - 2] == slug[i - 1];
        }
      }
    }
  }

  /** No hyphen survives: every hyphen became a space and no other
      character is upper-cased into one. */
  lemma NoHyphenInDisplay(slug: string)
    ensures forall i :: 0 <= i < |FormatSlugForDisplay(slug)| ==> FormatSlugForDisplay(slug)[i] != '-'
  {
    FormatSlugPointwise(slug);
  }

  /** A character a slug may use. */
  predicate IsSlugChar(c: char) {
    'a' <= c <= 'z' || '0' <= c <= '9'
  }

  /** The matcher of `/^[a-z0-9]+(?:-[a-z0-9]+)*$/` from position `i`;
      `inGroup` says a group character was just read, so a hyphen or the
      end may follow. */
  predicate SlugFrom(s: string, i: nat, inGroup: bool)
    requires i <= |s|
    decreases |s| - i
  {
    if i == |s| then inGroup
    else if IsSlugChar(s[i]) then SlugFrom(s, i + 1, true)
    else if s[i] == '-' && inGroup then SlugFrom(s, i + 1, false)
    else false
  }

  /** `isValidSlug(slug)`. */
  predicate IsValidSlug(slug: string) {
    SlugFrom(slug, 0, false)
  }

  /** What the regular expression describes, stated without it:
      non-empty, only `[a-z0-9-]`, no hyphen at either end and no two
      hyphens in a row. */
  predicate WellHyphenated(s: string) {
    |s| > 0
    && (forall i :: 0 <= i < |s| ==> IsSlugChar(s[i]) || s[i] == '-')
    && s[0] != '-' && s[|s| - 1] != '-'
    && forall i :: 0 <= i < |s| - 1 ==> !(s[i] == '-' && s[i + 1] == '-')
  }

  /** What remains to be read from position `i` when the matcher is in
      state `inGroup`. */
  predicate ValidTail(s: string, i: nat, inGroup: bool)
    requires i <= |s|
  {
    (forall k :: i <= k < |s| ==> IsSlugChar(s[k]) || s[k] == '-')
    && (i == |s| ==> inGroup)
    && (i < |s| ==> (s[i] == '-' ==> inGroup) && s[|s| - 1] != '-')
    && forall k :: i <= k < |s| - 1 ==> !(s[k] == '-' && s[k + 1] == '-')
  }

  lemma {:induction false} SlugFromMeaning(s: string, i: nat, inGroup: bool)
    requires i <= |s|
    ensures SlugFrom(s, i, inGroup) <==> ValidTail(s, i, inGroup)
    decreases |s| - i
  {
    if i < |s| {
      if IsSlugChar(s[i]) {
        SlugFromMeaning(s, i + 1, true);
      } else if s[i] == '-' && inGroup {
        SlugFromMeaning(s, i + 1, false);
      }
    }
  }

  /** The matcher accepts exactly the well-hyphenated slugs. */
  lemma ValidSlugMeaning(slug: string)
    ensures IsValidSlug(slug) <==> WellHyphenated(slug)
  {
    SlugFromMeaning(slug, 0, false);
  }

  /** Reading a display form back as a slug: spaces to hyphens, then
      lower case. */
  function SlugOfDisplay(display: string): (r: string)
    ensures |r| == |display|
    ensures forall i :: 0 <= i < |display| ==> r[i] == LowerChar(if display[i] == ' ' then '-' else display[i])
  {
    seq(|display|, (i: int) requires 0 <= i < |display| => LowerChar(if display[i] == ' ' then '-' else display[i]))
  }

  /** A valid slug can be recovered from its display form. */
  lemma DisplayRoundTrip(slug: string)
    requires IsValidSlug(slug)
    ensures SlugOfDisplay(FormatSlugForDisplay(slug)) == slug
  {
    ValidSlugMeaning(slug);
    FormatSlugPointwise(slug);
    var d := FormatSlugForDisplay(slug);
    forall i | 0 <= i < |slug| ensures SlugOfDisplay(d)[i] == slug[i] {
      assert d[i] == DisplayChar(slug, i);
      if slug[i] != '-' {
        SlugCharBack(slug[i]);
      }
    }
  }

  /** Upper-casing a slug character is undone by lower-casing, and
      neither form is a space. */
  lemma SlugCharBack(c: char)
    requires IsSlugChar(c)
    ensures LowerChar(UpperChar(c)) == c && LowerChar(c) == c
    ensures UpperChar(c) != ' ' && c != ' '
  {
  }

  predicate IsSlash(c: char) { c == '/' }

  /** `getCanonicalUrl(slug, baseUrl)`, `baseUrl` defaulting to `""`:
      every run of slashes in `${baseUrl}/${slug}` becomes one, including
      the two of a scheme such as `https://`. */
  function GetCanonicalUrl(slug: string, baseUrl: string): (r: string)
    ensures |r| > 0
    ensures forall i :: 0 <= i < |r| - 1 ==> !(r[i] == '/' && r[i + 1] == '/')
  {
    var r := ReplaceRuns(baseUrl + "/" + slug, IsSlash, '/');
    assert |baseUrl + "/" + slug| > 0;
    r
  }

  /** Collapsing drops slashes only: the other characters of the base
      and the slug all remain, in order. */
  lemma CanonicalKeepsText(slug: string, baseUrl: string)
    ensures Without(GetCanonicalUrl(slug, baseUrl), IsSlash) == Without(baseUrl + "/" + slug, IsSlash)
  {
    ReplaceRunsKeeps(baseUrl + "/" + slug, IsSlash, '/');
  }

  /** Collapsing again changes nothing. */
  lemma CanonicalSettles(slug: string, baseUrl: string)
    ensures ReplaceRuns(GetCanonicalUrl(slug, baseUrl), IsSlash, '/') == GetCanonicalUrl(slug, baseUrl)
  {
    ReplaceRunsSettled(GetCanonicalUrl(slug, baseUrl), IsSlash, '/');
  }

  /** Without a base, a valid slug's canonical URL is the slug under the
      root. */
  lemma CanonicalOfValidSlug(slug: string)
    requires IsValidSlug(slug)
    ensures GetCanonicalUrl(slug, "") == "/" + slug
  {
    ValidSlugMeaning(slug);
    var s := "" + "/" + slug;
    assert s == "/" + slug;
    ReplaceRunsSettled(s, IsSlash, '/');
  }

  /** `getPagePriority(response)`: `response.priority || 0` for a dynamic
      page, 1000 for any other. */
  function GetPagePriority(response: Json): (r: Json)
    ensures !IsDynamicPage(response) ==> r == JInt(1000)
    ensures IsDynamicPage(response) ==> (JsTruthy(r) || r == JInt(0))
  {
    if IsDynamicPage(response) then
      match JsOr(JsProp(response, "priority"), Some(JInt(0)))
      case Some(p) => p
      case None => JInt(0)
    else JInt(1000)
  }

  /** A dynamic page ranks by its own priority when that is set and not
      zero, and at 0 otherwise, even when it also claims to be global;
      every other page ranks at 1000. */
  lemma PriorityOrder(response: Json)
    ensures IsDynamicPage(response) && JsTrue(JsProp(response, "priority")) ==>
      GetPagePriority(response) == JsProp(response, "priority").value
    ensures IsDynamicPage(response) && !JsTrue(JsProp(response, "priority")) ==> GetPagePriority(response) == JInt(0)
    ensures IsGlobalPage(response) && !IsDynamicPage(response) ==> GetPagePriority(response) == JInt(1000)
  {
  }

  /** A dynamic page without a priority, or with an integer priority
      below 1000, ranks strictly before every page that is not dynamic. */
  lemma DynamicRanksFirst(dynamic: Json, other: Json)
    requires IsDynamicPage(dynamic) && !IsDynamicPage(other)
    requires var p := JsProp(dynamic, "priority"); !JsTrue(p) || (p.value.JInt? && p.value.i < 1000)
    ensures GetPagePriority(dynamic).JInt? && GetPagePriority(other).JInt?
    ensures GetPagePriority(dynamic).i < GetPagePriority(other).i
  {
    PriorityOrder(dynamic);
    PriorityOrder(other);
  }

  /** The fields `extractSEOMetadata` returns; `None` is `undefined`. */
  datatype SeoMetadata = SeoMetadata(title: Option<Json>, description: Option<Json>,
                                     keywords: Option<Json>, ogImage: Option<Json>)

  /** `extractSEOMetadata(response)`: the page's own SEO record, falling
      back to the hero fields. A truthy `seo` that is not an object simply
      has none of the SEO fields. */
  function ExtractSeoMetadata(response: seq<(string, Json)>): (r: SeoMetadata)
    ensures var page := JObj(response);
      var seo := OrValue(JsProp(page, "seo"), JObj([]));
      && JsTrue(r.title) == (JsTrue(JsProp(seo, "metaTitle")) || JsTrue(JsProp(page, "heroTitle"))
                             || JsTrue(JsProp(page, "pageTitle")))
      && (JsTrue(JsProp(seo, "metaTitle")) ==> r.title == JsProp(seo, "metaTitle"))
      && (JsTrue(JsProp(seo, "metaDescription")) ==> r.description == JsProp(seo, "metaDescription"))
      && (JsTrue(JsProp(seo, "ogImage")) ==> r.ogImage == JsProp(seo, "ogImage"))
      && r.keywords == JsProp(seo, "keywords")
  {
    var page := JObj(response);
    var seo := OrValue(JsProp(page, "seo"), JObj([]));
    SeoMetadata(
      JsOr(JsOr(JsProp(seo, "metaTitle"), JsProp(page, "heroTitle")), JsProp(page, "pageTitle")),
      JsOr(JsProp(seo, "metaDescription"), JsProp(page, "heroSubtitle")),
      JsProp(seo, "keywords"),
      JsOr(JsProp(seo, "ogImage"), JsProp(page, "heroImage")))
  }

  /** A page without SEO data is described by its hero: title from the
      hero title or else the page title, description from the subtitle,
      image from the hero image, and no keywords. */
  lemma SeoFromHero(response: seq<(string, Json)>)
    requires !JsTrue(JsProp(JObj(response), "seo"))
    ensures var page := JObj(response);
      var r := ExtractSeoMetadata(response);
      && r.title == JsOr(JsProp(page, "heroTitle"), JsProp(page, "pageTitle"))
      && r.description == JsProp(page, "heroSubtitle")
      && r.keywords.None?
      && r.ogImage == JsProp(page, "heroImage")
  {
    var empty := JObj([]);
    assert JsProp(empty, "metaTitle").None? && JsProp(empty, "metaDescription").None?;
    assert JsProp(empty, "keywords").None? && JsProp(empty, "ogImage").None?;
  }

  /** One breadcrumb. The page's own crumb shows its hero title as given,
      which need not be a string. */
  datatype Crumb = Crumb(text: Json, href: string)

  const HomeCrumb := Crumb(JStr("Home"), "/")

  /** Whether a page gets a category crumb: a dynamic page with a truthy
      `category`. */
  predicate HasCategoryCrumb(response: seq<(string, Json)>) {
    IsDynamicPage(JObj(response)) && JsTrue(JsProp(JObj(response), "category"))
  }

  /** `getBreadcrumbData(response, slug)`: Home, then the category of a
      dynamic page, then the page itself. `None` when the category is
      truthy but not a string, which has no `split` and throws. */
  function GetBreadcrumbData(response: seq<(string, Json)>, slug: string): (r: Option<seq<Crumb>>)
    ensures r.None? <==> HasCategoryCrumb(response) && !JsProp(JObj(response), "category").value.JStr?
    ensures r.Some? ==> |r.value| == (if HasCategoryCrumb(response) then 3 else 2)
    ensures r.Some? ==> r.value[0] == HomeCrumb && r.value[|r.value| - 1].href == "/" + slug
  {
    var page := JObj(response);
    var last := Crumb(OrValue(JsProp(page, "heroTitle"), JStr(FormatSlugForDisplay(slug))), "/" + slug);
    if HasCategoryCrumb(response) then
      match JsProp(page, "category").value
      case JStr(category) =>
        Some([HomeCrumb, Crumb(JStr(FormatSlugForDisplay(category)), "/category/" + category), last])
      case _ => None
    else Some([HomeCrumb, last])
  }

  /** The crumbs' labels: the category crumb shows the category in its
      display form and links to its category page; the last crumb shows
      the hero title when truthy and the slug's display form otherwise. */
  lemma BreadcrumbLabels(response: seq<(string, Json)>, slug: string)
    requires GetBreadcrumbData(response, slug).Some?
    ensures var r := GetBreadcrumbData(response, slug).value;
      var heroTitle := JsProp(JObj(response), "heroTitle");
      && (HasCategoryCrumb(response) ==>
            var category := JsProp(JObj(response), "category").value.s;
            r[1] == Crumb(JStr(FormatSlugForDisplay(category)), "/category/" + category))
      && (JsTrue(heroTitle) ==> r[|r| - 1].text == heroTitle.value)
      && (!JsTrue(heroTitle) ==> r[|r| - 1].text == JStr(FormatSlugForDisplay(slug)))
  {
  }
}
