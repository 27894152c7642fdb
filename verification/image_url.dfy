/** The website's image-path resolution: CMS media paths are served from
    the CMS host, absolute URLs pass through, and department pages fall
    back to a bundled image chosen by department code. */
module ImageUrls {
  import opened Options
  import opened Text

  /** `API_BASE` when no base URL is configured. */
  const ApiBase := "https://reccms.flashserver.in"

  const DefaultImage := "/default.jpg"

  /** The bundled image that CMS records carry as a placeholder. */
  const AeroImage := "/assets/departments/aero/department-image.png"

  predicate EndsWith(s: string, suffix: string) {
    |suffix| <= |s| && s[|s| - |suffix|..] == suffix
  }

  /** `getImageUrl(imagePath)`: `null`, `undefined` and `""` are all
      absent and give the default image; an absolute URL is kept; any
      other path is served from the CMS host. */
  function ImageUrl(imagePath: Option<string>): (r: string)
    ensures r == DefaultImage || StartsWith(r, "http")
    ensures imagePath.Some? && imagePath.value != [] ==> EndsWith(r, imagePath.value)
    ensures imagePath.None? || imagePath.value == [] ==> r == DefaultImage
    ensures imagePath.Some? && imagePath.value != [] && !StartsWith(imagePath.value, "http") ==> r == ApiBase + imagePath.value
  {
    if imagePath.None? || imagePath.value == [] then DefaultImage
    else if StartsWith(imagePath.value, "http") then imagePath.value
    else
      assert StartsWith(ApiBase + imagePath.value, "http") by {
        assert (ApiBase + imagePath.value)[..4] == ApiBase[..4];
      }
      ApiBase + imagePath.value
  }

  /** A present path is resolved once and for all: resolving the result
      again gives it back. An absent one is not: the default image is a
      relative path that would be sent to the CMS host. */
  lemma ImageUrlSettles(imagePath: string)
    ensures imagePath != [] ==> ImageUrl(Some(ImageUrl(Some(imagePath)))) == ImageUrl(Some(imagePath))
    ensures ImageUrl(Some(ImageUrl(None))) == ApiBase + DefaultImage
  {
    if imagePath != [] {
      if !StartsWith(imagePath, "http") {
        HttpKept(ApiBase + imagePath);
      } else {
        HttpKept(imagePath);
      }
    }
    DefaultNotHttp();
  }

  /** A URL that starts with `http` resolves to itself. */
  lemma HttpKept(url: string)
    requires StartsWith(url, "http")
    ensures ImageUrl(Some(url)) == url
  {
  }

  lemma DefaultNotHttp()
    ensures ImageUrl(Some(DefaultImage)) == ApiBase + DefaultImage
  {
    RootRelativePrefixed(DefaultImage);
  }

  /** A root-relative path is served from the CMS host. */
  lemma RootRelativePrefixed(path: string)
    requires path != [] && path[0] == '/'
    ensures ImageUrl(Some(path)) == ApiBase + path
  {
    if |path| >= 4 {
      assert path[..4][0] == '/';
    }
  }

  /** `s.replace(/\s/g, '')`: the characters other than whitespace, in
      order. */
  function RemoveSpaces(s: string): (r: string)
    ensures r == Without(s, IsJsSpace)
    ensures |r| <= |s|
    ensures forall i :: 0 <= i < |r| ==> !IsJsSpace(r[i])
    ensures (forall i :: 0 <= i < |s| ==> !IsJsSpace(s[i])) ==> r == s
  {
    if |s| == 0 then []
    else if IsJsSpace(s[0]) then RemoveSpaces(s[1..])
    else [s[0]] + RemoveSpaces(s[1..])
  }

  /** The folder of a department's bundled image: the code lower-cased
      with its whitespace removed, or `default`. */
  function DepartmentFolder(departmentCode: Option<string>): (r: string)
    ensures departmentCode.None? || departmentCode.value == [] ==> r == "default"
    ensures forall i :: 0 <= i < |r| ==> !IsJsSpace(r[i]) && !IsAsciiUpper(r[i])
    ensures departmentCode.Some? && departmentCode.value != [] ==> r == Lower(Without(departmentCode.value, IsJsSpace))
  {
    if departmentCode.None? || departmentCode.value == [] then "default"
    else
      WithoutLower(departmentCode.value, IsJsSpace);
      var r := RemoveSpaces(Lower(departmentCode.value));
      assert forall i :: 0 <= i < |r| ==> !IsAsciiUpper(r[i]) by {
        LowerNoUpper(departmentCode.value);
        RemoveSpacesKeeps(Lower(departmentCode.value));
      }
      r
  }

  lemma LowerNoUpper(s: string)
    ensures forall i :: 0 <= i < |Lower(s)| ==> !IsAsciiUpper(Lower(s)[i])
  {
  }

  /** Removing characters keeps a property every character has. */
  lemma {:induction false} RemoveSpacesKeeps(s: string)
    requires forall i :: 0 <= i < |s| ==> !IsAsciiUpper(s[i])
    ensures forall i :: 0 <= i < |RemoveSpaces(s)| ==> !IsAsciiUpper(RemoveSpaces(s)[i])
    decreases |s|
  {
    if |s| > 0 {
      RemoveSpacesKeeps(s[1..]);
    }
  }

  /** A code of words separated by whitespace gives the words run
      together in lower case: `Aero Space` gives `aerospace`. */
  lemma FolderOfWords(ws: seq<string>, gap: string)
    requires ws != [] && AllChars(gap, IsJsSpace)
    requires forall k :: 0 <= k < |ws| ==> ws[k] != [] && NoChar(ws[k], IsJsSpace)
    ensures DepartmentFolder(Some(Join(ws, gap))) == Lower(Concat(ws))
  {
    JoinEnds(ws, gap);
    WithoutJoin(ws, gap, IsJsSpace);
  }

  /** `getDepartmentImageUrl(imgUrl, departmentCode)`. */
  function DepartmentImageUrl(imgUrl: Option<string>, departmentCode: Option<string>): (r: string)
    ensures imgUrl.Some? && imgUrl.value != [] && imgUrl.value != AeroImage ==> r == ImageUrl(imgUrl)
    ensures !(imgUrl.Some? && imgUrl.value != [] && imgUrl.value != AeroImage) ==>
      r == "/assets/departments/" + DepartmentFolder(departmentCode) + "/department-image.png"
  {
    if imgUrl.Some? && imgUrl.value != [] && imgUrl.value != AeroImage then ImageUrl(imgUrl)
    else "/assets/departments/" + DepartmentFolder(departmentCode) + "/department-image.png"
  }

  /** The placeholder is never fetched from the CMS: it counts as no
      image at all. */
  lemma PlaceholderIsNoImage(departmentCode: Option<string>)
    ensures DepartmentImageUrl(Some(AeroImage), departmentCode) == DepartmentImageUrl(None, departmentCode)
  {
  }

  /** The folder does not depend on the code's letter case. */
  lemma FolderIgnoresCase(code: string)
    ensures DepartmentFolder(Some(Upper(code))) == DepartmentFolder(Some(code))
  {
    assert Lower(Upper(code)) == Lower(code);
  }

  /** A code that is already lower-case and without whitespace is its own
      folder. */
  lemma CanonicalCodeIsFolder(code: string)
    requires code != []
    requires forall i :: 0 <= i < |code| ==> !IsJsSpace(code[i]) && !IsAsciiUpper(code[i])
    ensures DepartmentFolder(Some(code)) == code
  {
    assert Lower(code) == code;
  }
}
