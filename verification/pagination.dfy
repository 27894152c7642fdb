/** The blog list's pagination: the window of at most five page buttons
    around the current page, and the guard on page changes. */
module Pagination {

  /** `Math.min(5, totalPages)` as an array length: a non-positive page
      count gives no buttons. */
  function ButtonCount(totalPages: int): (n: nat)
    ensures n <= 5 && (totalPages >= 1 ==> n >= 1)
    ensures n == totalPages || (n == 5 && totalPages > 5) || (n == 0 && totalPages <= 0)
  {
    if totalPages <= 0 then 0 else if totalPages < 5 then totalPages else 5
  }

  /** The page shown on button `i`. */
  function PageNumber(i: nat, currentPage: int, totalPages: int): int {
    if totalPages <= 5 then i + 1
    else if currentPage <= 3 then i + 1
    else if currentPage >= totalPages - 2 then totalPages - 4 + i
    else currentPage - 2 + i
  }

  /** The pages on the buttons, left to right. */
  function PageButtons(currentPage: int, totalPages: int): (r: seq<int>)
    ensures |r| == ButtonCount(totalPages)
    ensures forall i :: 0 <= i < |r| ==> r[i] == PageNumber(i, currentPage, totalPages)
  {
    seq(ButtonCount(totalPages), (i: int) requires 0 <= i => PageNumber(i, currentPage, totalPages))
  }

  /** For a current page within range, the buttons show consecutive
      ascending pages, all of them within range, and one of them is the
      current page. */
  lemma WindowAroundCurrent(currentPage: int, totalPages: int)
    requires 1 <= currentPage <= totalPages
    ensures var r := PageButtons(currentPage, totalPages);
      |r| >= 1 && (forall i :: 0 <= i < |r| ==> r[i] == r[0] + i)
      && 1 <= r[0] && r[|r| - 1] <= totalPages
      && r[0] <= currentPage <= r[|r| - 1]
  {
    var r := PageButtons(currentPage, totalPages);
    assert r[0] == PageNumber(0, currentPage, totalPages);
    assert r[|r| - 1] == PageNumber(|r| - 1, currentPage, totalPages);
  }

  /** `handlePageChange(page)`: the new current page. */
  function PageChange(page: int, currentPage: int, totalPages: int): (r: int)
    ensures r == page || r == currentPage
    ensures r == page <==> (1 <= page <= totalPages || page == currentPage)
  {
    if 1 <= page && page <= totalPages then page else currentPage
  }

  /** Page changes keep the current page within range. */
  lemma PageChangeStaysInRange(page: int, currentPage: int, totalPages: int)
    requires 1 <= currentPage <= totalPages
    ensures 1 <= PageChange(page, currentPage, totalPages) <= totalPages
  {
  }

  /** Every button takes the reader to the page it shows. */
  lemma ButtonsNavigate(currentPage: int, totalPages: int, i: nat)
    requires 1 <= currentPage <= totalPages
    requires i < |PageButtons(currentPage, totalPages)|
    ensures var p := PageButtons(currentPage, totalPages)[i];
      PageChange(p, currentPage, totalPages) == p
  {
    WindowAroundCurrent(currentPage, totalPages);
  }
}
