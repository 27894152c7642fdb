/** The YouTube recognisers of the embed component: a case-insensitive
    host test, and the video-id extraction by two regular expressions
    tried in order. Each expression is modelled as JavaScript runs it:
    the leftmost starting position that leads to a match wins, and the
    greedy parts take as much as they can. */
module YouTube {
  import opened Options
  import opened Text

  /** `[^&\n?#]`: a character of a video id. */
  predicate IdChar(c: char) { c != '&' && c != '\n' && c != '?' && c != '#' }

  /** JavaScript's `.`: anything but a line terminator. */
  predicate DotChar(c: char) { c != '\n' && c != '\r' && c != '\U{2028}' && c != '\U{2029}' }

  /** The end of the maximal run of id characters starting at `i` (the
      greedy `[^&\n?#]+`). */
  function IdRunEnd(s: string, i: nat): (e: nat)
    requires i <= |s|
    ensures i <= e <= |s|
    ensures forall k :: i <= k < e ==> IdChar(s[k])
    ensures e == |s| || !IdChar(s[e])
    decreases |s| - i
  {
    if i == |s| || !IdChar(s[i]) then i else IdRunEnd(s, i + 1)
  }

  /** The literal `lit` occurs at `p` and an id character follows it. */
  predicate IdAfter(s: string, lit: string, p: nat) {
    OccursAt(s, lit, p) && p + |lit| < |s| && IdChar(s[p + |lit|])
  }

  /** The alternatives of the first pattern, in order. */
  const Prefixes: seq<string> :=
    ["youtube.com/watch?v=", "youtu.be/", "youtube.com/embed/", "youtube.com/v/", "youtube.com/shorts/"]

  /** The first alternative, from `j` on, that matches at `p`. */
  function AltAt(s: string, p: nat, j: nat): (r: Option<nat>)
    requires j <= |Prefixes|
    ensures r.Some? ==> j <= r.value < |Prefixes| && IdAfter(s, Prefixes[r.value], p)
    ensures r.None? ==> forall m :: j <= m < |Prefixes| ==> !IdAfter(s, Prefixes[m], p)
    decreases |Prefixes| - j
  {
    if j == |Prefixes| then None
    else if IdAfter(s, Prefixes[j], p) then Some(j)
    else AltAt(s, p, j + 1)
  }

  /** The first pattern matches at `p`. */
  predicate FirstMatchesAt(s: string, p: nat) {
    exists m :: 0 <= m < |Prefixes| && IdAfter(s, Prefixes[m], p)
  }

  /** The leftmost position, from `p` on, where the first pattern
      matches, with the alternative that matches there. */
  function FirstMatch(s: string, p: nat): (r: Option<(nat, nat)>)
    requires p <= |s|
    ensures r.Some? ==> p <= r.value.0 < |s| && r.value.1 < |Prefixes| && IdAfter(s, Prefixes[r.value.1], r.value.0)
    ensures r.Some? ==> forall q :: p <= q < r.value.0 ==> !FirstMatchesAt(s, q)
    ensures r.None? ==> forall q :: p <= q <= |s| ==> !FirstMatchesAt(s, q)
    decreases |s| - p
  {
    match AltAt(s, p, 0)
    case Some(j) => Some((p, j))
    case None =>
      NoAltNoMatch(s, p);
      if p == |s| then None else FirstMatch(s, p + 1)
  }

  /** No alternative at `p` means no match at `p`. */
  lemma NoAltNoMatch(s: string, p: nat)
    requires AltAt(s, p, 0).None?
    ensures !FirstMatchesAt(s, p)
  {
  }

  /** The literal start of the second pattern. */
  const WatchHead := "youtube.com/watch?"

  /** The end of the run of `.`-characters starting at `i`: how far the
      greedy `.*` can reach. */
  function LineEnd(s: string, i: nat): (e: nat)
    requires i <= |s|
    ensures i <= e <= |s|
    ensures forall k :: i <= k < e ==> DotChar(s[k])
    ensures e == |s| || !DotChar(s[e])
    decreases |s| - i
  {
    if i == |s| || !DotChar(s[i]) then i else LineEnd(s, i + 1)
  }

  /** The last position in `[a, e]` where `v=` and an id character follow:
      the greedy `.*` backs off from `e` until `v=([^&\n?#]+)` matches. */
  function LastV(s: string, a: nat, e: nat): (r: Option<nat>)
    requires a <= e
    ensures r.Some? ==> a <= r.value <= e && IdAfter(s, "v=", r.value)
    ensures r.Some? ==> forall q :: r.value < q <= e ==> !IdAfter(s, "v=", q)
    ensures r.None? ==> forall q :: a <= q <= e ==> !IdAfter(s, "v=", q)
    decreases e - a
  {
    if IdAfter(s, "v=", e) then Some(e)
    else if e == a then None
    else LastV(s, a, e - 1)
  }

  /** The second pattern, whose literal start is `head` (always
      `WatchHead`), from start `p`: the position of the `v=` it settles on. */
  function WatchMatchAt(s: string, head: string, p: nat): (r: Option<nat>)
    requires p <= |s|
    ensures r.Some? ==> OccursAt(s, head, p) && p + |head| <= r.value && IdAfter(s, "v=", r.value)
  {
    if OccursAt(s, head, p) then LastV(s, p + |head|, LineEnd(s, p + |head|)) else None
  }

  /** The leftmost start, from `p` on, where the second pattern matches,
      with the position of its `v=`. */
  function WatchMatch(s: string, head: string, p: nat): (r: Option<(nat, nat)>)
    requires p <= |s|
    ensures r.Some? ==> p <= r.value.0 <= |s| && WatchMatchAt(s, head, r.value.0) == Some(r.value.1)
    ensures r.Some? ==> forall q :: p <= q < r.value.0 ==> WatchMatchAt(s, head, q).None?
    ensures r.None? ==> forall q :: p <= q <= |s| ==> WatchMatchAt(s, head, q).None?
    decreases |s| - p
  {
    match WatchMatchAt(s, head, p)
    case Some(v) => Some((p, v))
    case None => if p == |s| then None else WatchMatch(s, head, p + 1)
  }

  /** The id captured from `a` on: the maximal run of id characters. */
  function IdFrom(s: string, a: nat): (id: string)
    requires a < |s| && IdChar(s[a])
    ensures id != [] && forall k :: 0 <= k < |id| ==> IdChar(id[k])
  {
    s[a..IdRunEnd(s, a)]
  }

  /** `extractYouTubeVideoId(url)`: the id captured by the first pattern
      at its leftmost match, else by the second, else nothing. */
  function ExtractVideoId(url: string): (r: Option<string>)
    ensures r.Some? ==> r.value != [] && forall k :: 0 <= k < |r.value| ==> IdChar(r.value[k])
    ensures r.None? <==> FirstMatch(url, 0).None? && WatchMatch(url, WatchHead, 0).None?
  {
    match FirstMatch(url, 0)
    case Some((p, j)) => Some(IdFrom(url, p + |Prefixes[j]|))
    case None =>
      match WatchMatch(url, WatchHead, 0)
      case Some((_, v)) => Some(IdFrom(url, v + 2))
      case None => None
  }

  /** `isYouTubeUrl(url)`: the case-insensitive test for either host. */
  predicate IsYouTubeUrl(url: string) {
    Contains(Lower(url), "youtube.com") || Contains(Lower(url), "youtu.be")
  }

  /** The host test ignores letter case. */
  lemma IsYouTubeUrlIgnoresCase(url: string)
    ensures IsYouTubeUrl(Upper(url)) == IsYouTubeUrl(url)
  {
    assert Lower(Upper(url)) == Lower(url);
  }

  /** A literal without upper-case letters found in a string is found at
      the same place in its lower-cased form. */
  lemma OccursInLower(s: string, t: string, p: nat)
    requires OccursAt(s, t, p) && Lower(t) == t
    ensures OccursAt(Lower(s), t, p)
  {
    forall k | 0 <= k < |t| ensures Lower(s)[p + k] == t[k] {
      assert s[p + k] == t[k];
      assert Lower(t)[k] == LowerChar(t[k]);
    }
  }

  /** Every alternative of the first pattern, and the head of the second,
      names one of the two hosts. */
  lemma PrefixNamesHost(s: string, j: nat, p: nat)
    requires j < |Prefixes| && OccursAt(s, Prefixes[j], p)
    ensures OccursAt(s, "youtube.com", p) || OccursAt(s, "youtu.be", p)
  {
    var lit := Prefixes[j];
    if j == 1 {
      assert s[p..p + 8] == lit[..8];
    } else {
      assert s[p..p + 11] == lit[..11];
    }
  }

  lemma WatchHeadNamesHost(s: string, p: nat)
    requires OccursAt(s, WatchHead, p)
    ensures OccursAt(s, "youtube.com", p)
  {
    assert s[p..p + 11] == WatchHead[..11];
  }

  /** Whatever id is extracted, the URL passes the host test. */
  lemma ExtractedIsYouTube(url: string)
    requires ExtractVideoId(url).Some?
    ensures IsYouTubeUrl(url)
  {
    var p: nat;
    if FirstMatch(url, 0).Some? {
      p := FirstMatch(url, 0).value.0;
      PrefixNamesHost(url, FirstMatch(url, 0).value.1, p);
    } else {
      p := WatchMatch(url, WatchHead, 0).value.0;
      WatchHeadNamesHost(url, p);
    }
    if OccursAt(url, "youtube.com", p) {
      OccursInLower(url, "youtube.com", p);
    } else {
      OccursInLower(url, "youtu.be", p);
    }
  }

  /** No alternative of the first pattern, nor the second pattern's head,
      starts anywhere but at a `y`. */
  lemma NoMatchWithoutY(s: string, p: nat)
    requires p < |s| && s[p] != 'y'
    ensures !FirstMatchesAt(s, p) && WatchMatchAt(s, WatchHead, p).None?
  {
    forall m | 0 <= m < |Prefixes| ensures !IdAfter(s, Prefixes[m], p) {
      assert Prefixes[m][0] == 'y';
    }
    assert WatchHead[0] == 'y';
  }

  /** A position where two different alternatives differ. */
  function DiffAt(m: nat, j: nat): (d: nat)
    requires m < |Prefixes| && j < |Prefixes| && m != j
    ensures d < |Prefixes[m]| && d < |Prefixes[j]| && Prefixes[m][d] != Prefixes[j][d]
  {
    if m == 1 || j == 1 then 5 else 12
  }

  /** Where alternative `j` occurs, no other alternative does. */
  lemma OnlyOneAlternative(s: string, q: nat, j: nat, m: nat)
    requires j < |Prefixes| && m < |Prefixes| && m != j && OccursAt(s, Prefixes[j], q)
    ensures !OccursAt(s, Prefixes[m], q)
  {
    var d := DiffAt(m, j);
    assert s[q + d] == Prefixes[j][d];
  }

  /** A run that reaches the end of the string ends there. */
  lemma {:induction false} IdRunEndAll(s: string, i: nat)
    requires i <= |s| && forall k :: i <= k < |s| ==> IdChar(s[k])
    ensures IdRunEnd(s, i) == |s|
    decreases |s| - i
  {
    if i < |s| {
      IdRunEndAll(s, i + 1);
    }
  }

  /** When alternative `j` with an id is the first `y` of a URL, the
      first pattern matches there. */
  lemma FirstMatchAtFirstY(url: string, q: nat, j: nat)
    requires j < |Prefixes| && IdAfter(url, Prefixes[j], q)
    requires forall k :: 0 <= k < q ==> url[k] != 'y'
    ensures FirstMatch(url, 0) == Some((q, j))
  {
    forall k | 0 <= k < q ensures !FirstMatchesAt(url, k) {
      NoMatchWithoutY(url, k);
    }
    forall m | 0 <= m < |Prefixes| && m != j ensures !IdAfter(url, Prefixes[m], q) {
      OnlyOneAlternative(url, q, j, m);
    }
    AltAtFinds(url, q, 0, j);
    FirstMatchSkips(url, 0, q);
  }

  /** A link made of a scheme and host part without `y`, one of the
      recognised prefixes and an id yields the id back: watch, short,
      embed, `v/` and shorts links alike. */
  lemma LinkRoundTrip(head: string, j: nat, id: string)
    requires forall k :: 0 <= k < |head| ==> head[k] != 'y'
    requires j < |Prefixes|
    requires id != [] && forall k :: 0 <= k < |id| ==> IdChar(id[k])
    ensures ExtractVideoId(head + Prefixes[j] + id) == Some(id)
  {
    var url := head + Prefixes[j] + id;
    var a := |head| + |Prefixes[j]|;
    LinkMatchesAtHead(head, j, id);
    LinkIdIsTail(head, j, id);
    assert ExtractVideoId(url) == Some(IdFrom(url, a));
  }

  /** In such a link the first pattern matches right after the head. */
  lemma LinkMatchesAtHead(head: string, j: nat, id: string)
    requires forall k :: 0 <= k < |head| ==> head[k] != 'y'
    requires j < |Prefixes|
    requires id != [] && forall k :: 0 <= k < |id| ==> IdChar(id[k])
    ensures FirstMatch(head + Prefixes[j] + id, 0) == Some((|head|, j))
  {
    var lit := Prefixes[j];
    var url := head + lit + id;
    var q := |head|;
    var a := q + |lit|;
    assert url[q..a] == lit;
    assert url[a] == id[0];
    assert forall k :: 0 <= k < q ==> url[k] == head[k];
    FirstMatchAtFirstY(url, q, j);
  }

  /** The id run after the prefix is the whole tail. */
  lemma LinkIdIsTail(head: string, j: nat, id: string)
    requires j < |Prefixes|
    requires id != [] && forall k :: 0 <= k < |id| ==> IdChar(id[k])
    ensures IdFrom(head + Prefixes[j] + id, |head| + |Prefixes[j]|) == id
  {
    var url := head + Prefixes[j] + id;
    var a := |head| + |Prefixes[j]|;
    assert forall k :: a <= k < |url| ==> url[k] == id[k - a];
    IdRunEndAll(url, a);
    assert url[a..] == id;
  }

  /** The alternatives are tried in order, and only `j` matches. */
  lemma {:induction false} AltAtFinds(s: string, q: nat, i: nat, j: nat)
    requires i <= j < |Prefixes| && IdAfter(s, Prefixes[j], q)
    requires forall m :: i <= m < |Prefixes| && m != j ==> !IdAfter(s, Prefixes[m], q)
    ensures AltAt(s, q, i) == Some(j)
    decreases j - i
  {
    if i < j {
      AltAtFinds(s, q, i + 1, j);
    }
  }

  /** When the first pattern does not match before `q` but does at `q`,
      the search from `p` stops at `q`. */
  lemma {:induction false} FirstMatchSkips(s: string, p: nat, q: nat)
    requires p <= q < |s|
    requires forall k :: p <= k < q ==> !FirstMatchesAt(s, k)
    requires AltAt(s, q, 0).Some?
    ensures FirstMatch(s, p) == Some((q, AltAt(s, q, 0).value))
    decreases q - p
  {
    if p < q {
      assert !FirstMatchesAt(s, p);
      FirstMatchSkips(s, p + 1, q);
    }
  }
}
