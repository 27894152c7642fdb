/** The navigation bar's path matching: which link is active for the
    current pathname, which item is highlighted, and the split of the
    items into the bar and the "more" menu. */
module NavBar {
  import opened Options
  import opened Text

  datatype SubItem = SubItem(href: Option<string>)

  /** A bar item: its own link and, optionally, a dropdown of links. */
  datatype Item = Item(href: Option<string>, dropdown: Option<seq<SubItem>>)

  /** `isPathActive(href)`: nothing is active before the component has
      mounted, nor a missing or empty link. */
  predicate IsPathActive(href: Option<string>, pathname: string, mounted: bool) {
    if href.None? || href.value == [] || !mounted then false
    else if pathname == href.value then true
    else if href.value == "/department" && StartsWith(pathname, "/departments/") then true
    else href.value != "/" && StartsWith(pathname, href.value)
  }

  /** The root link is active on the root page only. */
  lemma RootOnlyOnRoot(pathname: string)
    ensures IsPathActive(Some("/"), pathname, true) <==> pathname == "/"
  {
  }

  /** An example on one path pair: matching is by raw string prefix, not
      by path segment. */
  lemma PrefixNotSegment()
    ensures IsPathActive(Some("/about"), "/aboutus", true)
  {
    assert "/aboutus"[..6] == "/about";
  }

  /** The `/department` link stands for every department page. */
  lemma DepartmentAlias(rest: string)
    ensures IsPathActive(Some("/department"), "/departments/" + rest, true)
  {
    assert ("/departments/" + rest)[..13] == "/departments/";
  }

  /** A link other than the root that is active on a page stays active on
      every page below it. */
  lemma {:induction false} ActiveBelow(href: string, pathname: string, more: string)
    requires href != "/" && IsPathActive(Some(href), pathname, true)
    ensures IsPathActive(Some(href), pathname + more, true)
  {
    var p := pathname + more;
    if pathname == href {
      assert p[..|href|] == href;
    } else if href == "/department" && StartsWith(pathname, "/departments/") {
      assert p[..13] == pathname[..13];
    } else {
      assert p[..|href|] == pathname[..|href|];
    }
  }

  /** The item's own link or one of its dropdown links is active. */
  predicate ItemActive(item: Item, pathname: string, mounted: bool) {
    IsPathActive(item.href, pathname, mounted)
    || (item.dropdown.Some?
        && exists k :: 0 <= k < |item.dropdown.value| && IsPathActive(item.dropdown.value[k].href, pathname, mounted))
  }

  /** Whether some dropdown link is active, checked in order. */
  function AnySubActive(subs: seq<SubItem>, pathname: string, mounted: bool): (r: bool)
    ensures r <==> exists k :: 0 <= k < |subs| && IsPathActive(subs[k].href, pathname, mounted)
  {
    if |subs| == 0 then false
    else if IsPathActive(subs[0].href, pathname, mounted) then true
    else
      var r := AnySubActive(subs[1..], pathname, mounted);
      assert forall k :: 1 <= k < |subs| ==> subs[k] == subs[1..][k - 1];
      r
  }

  /** The loop of `findActiveIndex` from item `i` on. */
  function FindFrom(items: seq<Item>, i: nat, pathname: string, mounted: bool, defaultActiveIndex: int): (r: int)
    requires i <= |items|
    ensures (exists j :: i <= j < |items| && ItemActive(items[j], pathname, mounted)) ==>
      i <= r < |items| && ItemActive(items[r], pathname, mounted)
      && forall j :: i <= j < r ==> !ItemActive(items[j], pathname, mounted)
    ensures (forall j :: i <= j < |items| ==> !ItemActive(items[j], pathname, mounted)) ==> r == defaultActiveIndex
    decreases |items| - i
  {
    if i == |items| then defaultActiveIndex
    else if IsPathActive(items[i].href, pathname, mounted) then i
    else if items[i].dropdown.Some? && AnySubActive(items[i].dropdown.value, pathname, mounted) then i
    else FindFrom(items, i + 1, pathname, mounted, defaultActiveIndex)
  }

  /** `findActiveIndex()`: the first item that is active itself or
      through its dropdown, else the default, which is also the answer
      before mounting. */
  function FindActiveIndex(items: seq<Item>, pathname: string, mounted: bool, defaultActiveIndex: int): (r: int)
    ensures !mounted ==> r == defaultActiveIndex
    ensures (exists j :: 0 <= j < |items| && ItemActive(items[j], pathname, mounted)) ==>
      0 <= r < |items| && ItemActive(items[r], pathname, mounted)
      && forall j :: 0 <= j < r ==> !ItemActive(items[j], pathname, mounted)
    ensures (forall j :: 0 <= j < |items| ==> !ItemActive(items[j], pathname, mounted)) ==> r == defaultActiveIndex
  {
    if !mounted then defaultActiveIndex else FindFrom(items, 0, pathname, mounted, defaultActiveIndex)
  }

  /** JavaScript's `slice` index: a negative index counts from the end,
      and both ends are clamped into the array. */
  function SliceIndex(n: int, length: nat): (k: nat)
    ensures k <= length
  {
    if n < 0 then (if length + n < 0 then 0 else length + n)
    else if n > length then length else n
  }

  /** `items.slice(0, moreItemsCount)`. */
  function DesktopItems<T>(items: seq<T>, moreItemsCount: int): seq<T> {
    items[..SliceIndex(moreItemsCount, |items|)]
  }

  /** `items.slice(moreItemsCount)`. */
  function MoreItems<T>(items: seq<T>, moreItemsCount: int): seq<T> {
    items[SliceIndex(moreItemsCount, |items|)..]
  }

  /** The bar and the "more" menu together hold every item once, in
      order, whatever the count; the menu is shown exactly when the count
      is below the number of items. */
  lemma SplitItems<T>(items: seq<T>, moreItemsCount: int)
    ensures DesktopItems(items, moreItemsCount) + MoreItems(items, moreItemsCount) == items
    ensures 0 <= moreItemsCount ==>
      (|MoreItems(items, moreItemsCount)| > 0 <==> moreItemsCount < |items|)
    ensures 0 <= moreItemsCount ==> |DesktopItems(items, moreItemsCount)| <= moreItemsCount
  {
  }
}
