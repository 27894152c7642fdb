/** String helpers with the semantics of the Python and JavaScript string
    operations the services use: `str.strip`, `str.split`, `str.join`,
    `in` on strings, `startswith`, ASCII case mapping and `str(int)`. */
module Text {

  /** Python's `str.isspace`, character by character. */
  predicate IsSpace(c: char) {
    c == ' ' || c == '\t' || c == '\n' || c == '\r' || c == '\U{000B}' || c == '\U{000C}'
    || ('\U{001C}' <= c <= '\U{001F}') || c == '\U{0085}' || c == '\U{00A0}' || c == '\U{1680}'
    || ('\U{2000}' <= c <= '\U{200A}') || c == '\U{2028}' || c == '\U{2029}' || c == '\U{202F}'
    || c == '\U{205F}' || c == '\U{3000}'
  }

  /** The separators of Python's `str.splitlines`. */
  predicate IsLineBreak(c: char) {
    c == '\n' || c == '\r' || c == '\U{000B}' || c == '\U{000C}' || ('\U{001C}' <= c <= '\U{001E}')
    || c == '\U{0085}' || c == '\U{2028}' || c == '\U{2029}'
  }

  lemma LineBreakIsSpace(c: char)
    ensures IsLineBreak(c) ==> IsSpace(c)
  {
  }

  /** JavaScript's regular-expression `\s`. */
  predicate IsJsSpace(c: char) {
    c == ' ' || c == '\t' || c == '\n' || c == '\r' || c == '\U{000B}' || c == '\U{000C}'
    || c == '\U{00A0}' || c == '\U{1680}' || ('\U{2000}' <= c <= '\U{200A}') || c == '\U{2028}'
    || c == '\U{2029}' || c == '\U{202F}' || c == '\U{205F}' || c == '\U{3000}' || c == '\U{FEFF}'
  }

  predicate IsBlank(s: string) {
    forall i :: 0 <= i < |s| ==> IsSpace(s[i])
  }

  predicate IsAsciiLetter(c: char) { 'a' <= c <= 'z' || 'A' <= c <= 'Z' }
  predicate IsAsciiDigit(c: char) { '0' <= c <= '9' }
  predicate IsAsciiUpper(c: char) { 'A' <= c <= 'Z' }
  predicate IsAsciiLower(c: char) { 'a' <= c <= 'z' }

  /** True when `s` neither starts nor ends with whitespace. */
  predicate Trimmed(s: string) {
    |s| == 0 || (!IsSpace(s[0]) && !IsSpace(s[|s| - 1]))
  }

  function LStripFrom(s: string, i: nat): (k: nat)
    requires i <= |s|
    ensures i <= k <= |s|
    ensures forall m :: i <= m < k ==> IsSpace(s[m])
    ensures k < |s| ==> !IsSpace(s[k])
    decreases |s| - i
  {
    if i == |s| || !IsSpace(s[i]) then i else LStripFrom(s, i + 1)
  }

  function RStripTo(s: string, lo: nat, j: nat): (k: nat)
    requires lo <= j <= |s|
    ensures lo <= k <= j
    ensures forall m :: k <= m < j ==> IsSpace(s[m])
    ensures k > lo ==> !IsSpace(s[k - 1])
    decreases j - lo
  {
    if j == lo || !IsSpace(s[j - 1]) then j else RStripTo(s, lo, j - 1)
  }

  /** Python's `str.strip()`: the slice left after removing leading and
      trailing whitespace (`StripSlice` names the slice). */
  function Strip(s: string): (r: string)
    ensures Trimmed(r)
    ensures |r| <= |s|
  {
    var i := LStripFrom(s, 0);
    s[i..RStripTo(s, i, |s|)]
  }

  /** `Strip(s)` is the slice `s[i..j]` with only whitespace outside it. */
  lemma StripSlice(s: string) returns (i: nat, j: nat)
    ensures i <= j <= |s| && Strip(s) == s[i..j]
    ensures IsBlank(s[..i]) && IsBlank(s[j..])
  {
    i := LStripFrom(s, 0);
    j := RStripTo(s, i, |s|);
    assert IsBlank(s[..i]) by {
      forall m | 0 <= m < i ensures IsSpace(s[..i][m]) { assert s[..i][m] == s[m]; }
    }
    assert IsBlank(s[j..]) by {
      forall m | 0 <= m < |s| - j ensures IsSpace(s[j..][m]) { assert s[j..][m] == s[j + m]; }
    }
  }

  /** Stripping leaves nothing exactly when the text is all whitespace. */
  lemma StripEmptyIffBlank(s: string)
    ensures Strip(s) == [] <==> IsBlank(s)
  {
  }

  /** Text that is already trimmed is left alone by `Strip`. */
  lemma StripTrimmed(s: string)
    requires Trimmed(s)
    ensures Strip(s) == s
  {
  }

  lemma {:induction false} BlankAppend(a: string, b: string)
    requires IsBlank(a) && IsBlank(b)
    ensures IsBlank(a + b)
  {
    forall m | 0 <= m < |a + b| ensures IsSpace((a + b)[m]) {
      if m < |a| { assert (a + b)[m] == a[m]; } else { assert (a + b)[m] == b[m - |a|]; }
    }
  }

  function LowerChar(c: char): char {
    if 'A' <= c <= 'Z' then (c as int + 32) as char else c
  }

  function UpperChar(c: char): char {
    if 'a' <= c <= 'z' then (c as int - 32) as char else c
  }

  /** `str.lower()` / `toLowerCase()` restricted to ASCII letters. */
  function Lower(s: string): (r: string)
    ensures |r| == |s|
    ensures forall i :: 0 <= i < |s| ==> r[i] == LowerChar(s[i])
  {
    seq(|s|, i requires 0 <= i < |s| => LowerChar(s[i]))
  }

  /** `str.upper()` / `toUpperCase()` restricted to ASCII letters. */
  function Upper(s: string): (r: string)
    ensures |r| == |s|
    ensures forall i :: 0 <= i < |s| ==> r[i] == UpperChar(s[i])
  {
    seq(|s|, i requires 0 <= i < |s| => UpperChar(s[i]))
  }

  predicate StartsWith(s: string, prefix: string) {
    |prefix| <= |s| && s[..|prefix|] == prefix
  }

  /** `sub` occurs in `s` starting at position `i`. */
  predicate OccursAt(s: string, sub: string, i: int) {
    0 <= i && i + |sub| <= |s| && s[i..i + |sub|] == sub
  }

  /** Python's `sub in s` for strings (JavaScript `includes`). */
  predicate Contains(s: string, sub: string) {
    exists i :: 0 <= i <= |s| && OccursAt(s, sub, i)
  }

  /** The leftmost position of `sub` in `s` at or after `from`, if any. */
  function FindFrom(s: string, sub: string, from: nat): (r: int)
    requires from <= |s|
    ensures r == -1 || (from <= r && OccursAt(s, sub, r))
    ensures r == -1 ==> forall i :: from <= i ==> !OccursAt(s, sub, i)
    ensures r != -1 ==> forall i :: from <= i < r ==> !OccursAt(s, sub, i)
    decreases |s| - from
  {
    if from + |sub| > |s| then -1
    else if s[from..from + |sub|] == sub then from
    else if from == |s| then -1
    else FindFrom(s, sub, from + 1)
  }

  /** `sep.join(parts)`. */
  function Join(parts: seq<string>, sep: string): string {
    if |parts| == 0 then []
    else if |parts| == 1 then parts[0]
    else parts[0] + sep + Join(parts[1..], sep)
  }

  /** A join of non-empty parts starts with the first part's first
      character and ends with the last part's last character. */
  lemma {:induction false} JoinEnds(parts: seq<string>, sep: string)
    requires |parts| > 0 && forall k :: 0 <= k < |parts| ==> parts[k] != []
    ensures |Join(parts, sep)| > 0
    ensures Join(parts, sep)[0] == parts[0][0]
    ensures Join(parts, sep)[|Join(parts, sep)| - 1] == parts[|parts| - 1][|parts[|parts| - 1]| - 1]
    decreases |parts|
  {
    if |parts| > 1 {
      JoinEnds(parts[1..], sep);
    }
  }

  lemma StartsWithConcat(a: string, b: string)
    ensures StartsWith(a + b, a)
  {
    assert (a + b)[..|a|] == a;
  }

  lemma StartsWithTrans(a: string, b: string, c: string)
    requires StartsWith(a, b) && StartsWith(b, c)
    ensures StartsWith(a, c)
  {
    assert a[..|c|] == b[..|c|];
  }

  /** A join starts with whatever its first part starts with. */
  lemma JoinStartsWithFirst(parts: seq<string>, sep: string, prefix: string)
    requires parts != [] && StartsWith(parts[0], prefix)
    ensures StartsWith(Join(parts, sep), prefix)
  {
    if |parts| > 1 {
      assert (parts[0] + sep + Join(parts[1..], sep))[..|prefix|] == parts[0][..|prefix|];
    }
  }

  /** Every character of a string satisfies `P`. */
  predicate AllChars(s: string, P: char -> bool) {
    forall i :: 0 <= i < |s| ==> P(s[i])
  }

  lemma AllCharsAppend(a: string, b: string, P: char -> bool)
    requires AllChars(a, P) && AllChars(b, P)
    ensures AllChars(a + b, P)
  {
    assert forall i :: |a| <= i < |a + b| ==> (a + b)[i] == b[i - |a|];
  }

  lemma AllCharsSlice(s: string, i: nat, j: nat, P: char -> bool)
    requires i <= j <= |s| && AllChars(s, P)
    ensures AllChars(s[i..j], P)
  {
    assert forall k :: 0 <= k < j - i ==> s[i..j][k] == s[i + k];
  }

  /** Every string of a list satisfies `P`. */
  ghost predicate Every(xs: seq<string>, P: string -> bool) {
    forall k :: 0 <= k < |xs| ==> P(xs[k])
  }

  lemma EveryAppend(a: seq<string>, b: seq<string>, P: string -> bool)
    requires Every(a, P) && Every(b, P)
    ensures Every(a + b, P)
  {
    assert forall k :: |a| <= k < |a + b| ==> (a + b)[k] == b[k - |a|];
  }

  /** A join of parts and separators whose characters satisfy `P`
      satisfies `P` throughout. */
  lemma {:induction false} JoinAllChars(parts: seq<string>, sep: string, P: char -> bool)
    requires AllChars(sep, P)
    requires forall k :: 0 <= k < |parts| ==> AllChars(parts[k], P)
    ensures AllChars(Join(parts, sep), P)
    decreases |parts|
  {
    if |parts| > 1 {
      JoinAllChars(parts[1..], sep, P);
      AllCharsAppend(parts[0], sep, P);
      AllCharsAppend(parts[0] + sep, Join(parts[1..], sep), P);
    }
  }

  /** Conversely, the parts of a join satisfying `P` throughout satisfy it. */
  lemma {:induction false} JoinPartsAllChars(parts: seq<string>, sep: string, P: char -> bool)
    requires AllChars(Join(parts, sep), P)
    ensures forall k :: 0 <= k < |parts| ==> AllChars(parts[k], P)
    decreases |parts|
  {
    if |parts| > 1 {
      var j := Join(parts, sep);
      assert j == parts[0] + sep + Join(parts[1..], sep);
      AllCharsSlice(j, 0, |parts[0]|, P);
      assert j[..|parts[0]|] == parts[0];
      AllCharsSlice(j, |parts[0]| + |sep|, |j|, P);
      assert j[|parts[0]| + |sep|..] == Join(parts[1..], sep);
      JoinPartsAllChars(parts[1..], sep, P);
      assert forall k :: 1 <= k < |parts| ==> parts[k] == parts[1..][k - 1];
    }
  }

  /** Python's `s.split(sep)` for a non-empty separator: every occurrence,
      scanning left to right without overlap, separates two pieces. */
  function SplitSep(s: string, sep: string): (r: seq<string>)
    requires |sep| > 0
    ensures |r| >= 1
    ensures Join(r, sep) == s
    decreases |s|
  {
    var k := FindFrom(s, sep, 0);
    if k == -1 then [s]
    else
      var rest := SplitSep(s[k + |sep|..], sep);
      assert s == s[..k] + sep + s[k + |sep|..];
      [s[..k]] + rest
  }

  /** `c` occurs nowhere in `p`. */
  predicate Lacks(p: string, c: char) {
    forall i :: 0 <= i < |p| ==> p[i] != c
  }

  lemma {:induction false} FindFromChar(s: string, c: char, from: nat, k: nat)
    requires from <= k < |s| && s[k] == c && forall i :: from <= i < k ==> s[i] != c
    ensures FindFrom(s, [c], from) == k
    decreases k - from
  {
    if from < k {
      assert s[from..from + 1] != [c] by { assert s[from..from + 1][0] == s[from]; }
      FindFromChar(s, c, from + 1, k);
    } else {
      assert s[k..k + 1] == [c];
    }
  }

  lemma {:induction false} FindFromNone(s: string, c: char, from: nat)
    requires from <= |s| && forall i :: from <= i < |s| ==> s[i] != c
    ensures FindFrom(s, [c], from) == -1
    decreases |s| - from
  {
    if from + 1 <= |s| {
      assert s[from..from + 1] != [c] by { assert s[from..from + 1][0] == s[from]; }
      FindFromNone(s, c, from + 1);
    }
  }

  /** Splitting at a one-character separator undoes joining pieces that
      lack it. */
  lemma {:induction false} SplitSepJoin(parts: seq<string>, c: char)
    requires |parts| >= 1 && forall k :: 0 <= k < |parts| ==> Lacks(parts[k], c)
    ensures SplitSep(Join(parts, [c]), [c]) == parts
    decreases |parts|
  {
    if |parts| == 1 {
      FindFromNone(parts[0], c, 0);
    } else {
      var rest := Join(parts[1..], [c]);
      assert Join(parts, [c]) == parts[0] + [c] + rest;
      SplitSepCons(parts[0], c, rest);
      SplitSepJoin(parts[1..], c);
      assert [parts[0]] + parts[1..] == parts;
    }
  }

  /** Splitting at a one-character separator cuts off a first piece that
      lacks it. */
  lemma SplitSepCons(p: string, c: char, rest: string)
    requires Lacks(p, c)
    ensures SplitSep(p + [c] + rest, [c]) == [p] + SplitSep(rest, [c])
  {
    var s := p + [c] + rest;
    forall i | 0 <= i < |p| ensures s[i] != c {
      assert s[i] == p[i];
    }
    FindFromChar(s, c, 0, |p|);
    assert s[|p| + 1..] == rest;
    assert s[..|p|] == p;
  }

  /** No piece of `SplitSep` contains the separator. */
  lemma {:induction false} SplitSepPieces(s: string, sep: string)
    requires |sep| > 0
    ensures forall k :: 0 <= k < |SplitSep(s, sep)| ==> !Contains(SplitSep(s, sep)[k], sep)
    decreases |s|
  {
    var f := FindFrom(s, sep, 0);
    if f == -1 {
      NoOccurrence(s, sep);
    } else {
      SplitSepPieces(s[f + |sep|..], sep);
      var p := s[..f];
      forall i | 0 <= i <= |p| ensures !OccursAt(p, sep, i) {
        if i + |sep| <= |p| {
          assert p[i..i + |sep|] == s[i..i + |sep|];
          assert !OccursAt(s, sep, i);
        }
      }
    }
  }

  lemma NoOccurrence(s: string, sep: string)
    requires FindFrom(s, sep, 0) == -1
    ensures !Contains(s, sep)
  {
  }

  /** Splitting on every character satisfying `isSep` (`str.split('\n')`
      for one separator character, `splitlines` followed by dropping the
      empty pieces for the line-break set). */
  function SplitWhere(s: string, isSep: char -> bool): (r: seq<string>)
    ensures |r| >= 1
    ensures forall k, i :: 0 <= k < |r| && 0 <= i < |r[k]| ==> !isSep(r[k][i])
    decreases |s|
  {
    if |s| == 0 then [[]]
    else
      var rest := SplitWhere(s[1..], isSep);
      if isSep(s[0]) then [[]] + rest
      else [[s[0]] + rest[0]] + rest[1..]
  }

  /** Splitting text that contains no separator gives the text itself. */
  lemma {:induction false} SplitWhereNone(s: string, isSep: char -> bool)
    requires forall i :: 0 <= i < |s| ==> !isSep(s[i])
    ensures SplitWhere(s, isSep) == [s]
    decreases |s|
  {
    if |s| > 0 {
      SplitWhereNone(s[1..], isSep);
      assert [s[0]] + s[1..] == s;
    }
  }

  /** A separator-free piece followed by a separator splits off as the
      first piece. */
  lemma {:induction false} SplitWherePrefix(a: string, c: char, rest: string, isSep: char -> bool)
    requires forall i :: 0 <= i < |a| ==> !isSep(a[i])
    requires isSep(c)
    ensures SplitWhere(a + [c] + rest, isSep) == [a] + SplitWhere(rest, isSep)
    decreases |a|
  {
    if |a| == 0 {
      assert a + [c] + rest == [c] + rest;
      assert ([c] + rest)[1..] == rest;
    } else {
      SplitWherePrefix(a[1..], c, rest, isSep);
      assert (a + [c] + rest)[1..] == a[1..] + [c] + rest;
      assert [a[0]] + a[1..] == a;
    }
  }

  /** Splitting the join of separator-free pieces at the one-character
      separator gives the pieces back. */
  lemma {:induction false} SplitWhereJoin(parts: seq<string>, c: char, isSep: char -> bool)
    requires |parts| >= 1 && isSep(c)
    requires forall k, i :: 0 <= k < |parts| && 0 <= i < |parts[k]| ==> !isSep(parts[k][i])
    ensures SplitWhere(Join(parts, [c]), isSep) == parts
    decreases |parts|
  {
    if |parts| == 1 {
      SplitWhereNone(parts[0], isSep);
    } else {
      SplitWhereJoin(parts[1..], c, isSep);
      SplitWherePrefix(parts[0], c, Join(parts[1..], [c]), isSep);
      assert [parts[0]] + parts[1..] == parts;
    }
  }

  /** A phrase: non-empty, no surrounding whitespace. */
  ghost predicate IsPhrase(p: string) { p != [] && Trimmed(p) }

  /** `[p.strip() for p in pieces if p.strip()]`. */
  function StrippedNonEmpty(pieces: seq<string>): (r: seq<string>)
    ensures |r| <= |pieces|
    ensures Every(r, IsPhrase)
  {
    if |pieces| == 0 then []
    else
      var p := Strip(pieces[0]);
      var here := if p == [] then [] else [p];
      EveryAppend(here, StrippedNonEmpty(pieces[1..]), IsPhrase);
      here + StrippedNonEmpty(pieces[1..])
  }

  /** Stripped pieces keep a character property of the pieces. */
  lemma {:induction false} StrippedPiecesAllChars(pieces: seq<string>, P: char -> bool)
    requires forall k :: 0 <= k < |pieces| ==> AllChars(pieces[k], P)
    ensures forall k :: 0 <= k < |StrippedNonEmpty(pieces)| ==> AllChars(StrippedNonEmpty(pieces)[k], P)
    decreases |pieces|
  {
    if |pieces| > 0 {
      var i, j := StripSlice(pieces[0]);
      AllCharsSlice(pieces[0], i, j, P);
      StrippedPiecesAllChars(pieces[1..], P);
      var p := Strip(pieces[0]);
      var here := if p == [] then [] else [p];
      var rest := StrippedNonEmpty(pieces[1..]);
      assert forall k :: |here| <= k < |here + rest| ==> (here + rest)[k] == rest[k - |here|];
    }
  }

  /** The end of the run of `P`-characters starting at `i`. */
  function RunEnd(s: string, i: nat, P: char -> bool): (e: nat)
    requires i <= |s|
    ensures i <= e <= |s|
    ensures i < |s| && P(s[i]) ==> e > i
    ensures forall k :: i <= k < e ==> P(s[k])
    ensures e == |s| || !P(s[e])
    decreases |s| - i
  {
    if i == |s| || !P(s[i]) then i else RunEnd(s, i + 1, P)
  }

  /** `s.replace(/[P]+/g, c)`: every maximal run of `P`-characters becomes
      the one character `c`. */
  function ReplaceRuns(s: string, P: char -> bool, c: char): (r: string)
    ensures |r| <= |s| && (|r| == 0 <==> |s| == 0)
    ensures |s| > 0 ==> r[0] == if P(s[0]) then c else s[0]
    ensures forall i :: 0 <= i < |r| ==> !P(r[i]) || r[i] == c
    ensures forall i, j :: 0 <= i && j == i + 1 && j < |r| ==> !(P(r[i]) && P(r[j]))
    ensures (forall i :: 0 <= i < |s| ==> !P(s[i])) ==> r == s
    decreases |s|
  {
    if |s| == 0 then []
    else if P(s[0]) then [c] + ReplaceRuns(s[RunEnd(s, 0, P)..], P, c)
    else [s[0]] + ReplaceRuns(s[1..], P, c)
  }

  /** The characters of `s` that are not `P`-characters, in order. */
  function Without(s: string, P: char -> bool): (r: string)
    ensures forall i :: 0 <= i < |r| ==> !P(r[i])
    ensures |r| <= |s|
  {
    if |s| == 0 then [] else (if P(s[0]) then [] else [s[0]]) + Without(s[1..], P)
  }

  /** A leading run of `P`-characters leaves nothing behind. */
  lemma {:induction false} WithoutSkip(s: string, i: nat, P: char -> bool)
    requires i <= |s| && forall k :: 0 <= k < i ==> P(s[k])
    ensures Without(s, P) == Without(s[i..], P)
    decreases i
  {
    if i > 0 {
      WithoutSkip(s[1..], i - 1, P);
      assert s[1..][i - 1..] == s[i..];
    }
  }

  /** When the replacement is itself a `P`-character, the replacement
      keeps every other character, in order. */
  lemma {:induction false} ReplaceRunsKeeps(s: string, P: char -> bool, c: char)
    requires P(c)
    ensures Without(ReplaceRuns(s, P, c), P) == Without(s, P)
    decreases |s|
  {
    if |s| > 0 {
      if P(s[0]) {
        var e := RunEnd(s, 0, P);
        ReplaceRunsKeeps(s[e..], P, c);
        WithoutSkip(s, e, P);
        assert ([c] + ReplaceRuns(s[e..], P, c))[1..] == ReplaceRuns(s[e..], P, c);
      } else {
        ReplaceRunsKeeps(s[1..], P, c);
        assert ([s[0]] + ReplaceRuns(s[1..], P, c))[1..] == ReplaceRuns(s[1..], P, c);
      }
    }
  }

  /** A string whose `P`-characters are all single `c`s is left as it
      is; in particular replacing runs twice is replacing them once. */
  lemma {:induction false} ReplaceRunsSettled(s: string, P: char -> bool, c: char)
    requires forall i :: 0 <= i < |s| ==> !P(s[i]) || s[i] == c
    requires forall i :: 0 <= i < |s| - 1 ==> !(P(s[i]) && P(s[i + 1]))
    ensures ReplaceRuns(s, P, c) == s
    decreases |s|
  {
    if |s| > 0 {
      ReplaceRunsSettled(s[1..], P, c);
      if P(s[0]) {
        assert RunEnd(s, 0, P) == 1 by {
          if |s| > 1 {
            assert !P(s[1]);
            assert RunEnd(s, 1, P) == 1;
          }
        }
      }
      assert [s[0]] + s[1..] == s;
    }
  }

  /** No character of a string satisfies `P`. */
  predicate NoChar(s: string, P: char -> bool) {
    forall i :: 0 <= i < |s| ==> !P(s[i])
  }

  /** The strings of a list run together without separators. */
  function Concat(ws: seq<string>): string {
    if |ws| == 0 then [] else ws[0] + Concat(ws[1..])
  }

  /** Deleting the separator characters from a join of words that hold
      none of them runs the words together. */
  lemma {:induction false} WithoutJoin(ws: seq<string>, gap: string, P: char -> bool)
    requires AllChars(gap, P)
    requires forall k :: 0 <= k < |ws| ==> NoChar(ws[k], P)
    ensures Without(Join(ws, gap), P) == Concat(ws)
    decreases |ws|
  {
    if |ws| == 1 {
      WithoutNone(ws[0], P);
      assert Concat(ws) == ws[0] + Concat(ws[1..]);
    } else if |ws| > 1 {
      WithoutJoin(ws[1..], gap, P);
      WithoutAppend(ws[0] + gap, Join(ws[1..], gap), P);
      WithoutAppend(ws[0], gap, P);
      WithoutNone(ws[0], P);
      WithoutAll(gap, P);
    }
  }

  /** A leading character that is not a `P`-character is kept by the
      replacement. */
  lemma ReplaceRunsCons(x: char, u: string, P: char -> bool, c: char)
    requires !P(x)
    ensures ReplaceRuns([x] + u, P, c) == [x] + ReplaceRuns(u, P, c)
  {
    assert ([x] + u)[1..] == u;
  }

  lemma NoCharTail(w: string, P: char -> bool)
    requires w != [] && NoChar(w, P)
    ensures NoChar(w[1..], P)
  {
    assert forall i :: 0 <= i < |w[1..]| ==> w[1..][i] == w[i + 1];
  }

  /** A leading word without `P`-characters is kept by the replacement. */
  lemma {:induction false} ReplaceRunsWord(w: string, t: string, P: char -> bool, c: char)
    requires NoChar(w, P)
    ensures ReplaceRuns(w + t, P, c) == w + ReplaceRuns(t, P, c)
    decreases |w|
  {
    if |w| > 0 {
      var v := w[1..];
      calc {
        ReplaceRuns(w + t, P, c);
        { assert w + t == [w[0]] + (v + t); }
        ReplaceRuns([w[0]] + (v + t), P, c);
        { ReplaceRunsCons(w[0], v + t, P, c); }
        [w[0]] + ReplaceRuns(v + t, P, c);
        { NoCharTail(w, P); ReplaceRunsWord(v, t, P, c); }
        [w[0]] + (v + ReplaceRuns(t, P, c));
        w + ReplaceRuns(t, P, c);
      }
    } else {
      assert w + t == t;
    }
  }

  /** A leading run of `P`-characters, ended by the end of the string or
      by another character, becomes the one character `c`. */
  lemma ReplaceRunsGap(gap: string, u: string, P: char -> bool, c: char)
    requires gap != [] && AllChars(gap, P)
    requires u == [] || !P(u[0])
    ensures ReplaceRuns(gap + u, P, c) == [c] + ReplaceRuns(u, P, c)
  {
    var s := gap + u;
    var e := RunEnd(s, 0, P);
    forall k | 0 <= k < |gap|
      ensures P(s[k])
    {
      assert s[k] == gap[k];
    }
    if u != [] {
      assert s[|gap|] == u[0];
    }
    assert e == |gap|;
    assert s[|gap|..] == u;
  }

  /** Non-empty words without `P`-characters, joined by runs of
      `P`-characters, come out of the replacement joined by the one
      character `c`. */
  lemma {:induction false} ReplaceRunsJoin(ws: seq<string>, gap: string, P: char -> bool, c: char)
    requires gap != [] && AllChars(gap, P)
    requires forall k :: 0 <= k < |ws| ==> ws[k] != [] && NoChar(ws[k], P)
    ensures ReplaceRuns(Join(ws, gap), P, c) == Join(ws, [c])
    decreases |ws|
  {
    if |ws| > 1 {
      var rest := Join(ws[1..], gap);
      calc {
        ReplaceRuns(Join(ws, gap), P, c);
        { assert Join(ws, gap) == ws[0] + (gap + rest); }
        ReplaceRuns(ws[0] + (gap + rest), P, c);
        { ReplaceRunsWord(ws[0], gap + rest, P, c); }
        ws[0] + ReplaceRuns(gap + rest, P, c);
        { JoinEnds(ws[1..], gap); ReplaceRunsGap(gap, rest, P, c); }
        ws[0] + ([c] + ReplaceRuns(rest, P, c));
        { ReplaceRunsJoin(ws[1..], gap, P, c); }
        ws[0] + ([c] + Join(ws[1..], [c]));
        Join(ws, [c]);
      }
    }
  }

  /** Lower-casing leaves whitespace alone, so it commutes with deleting
      it. */
  lemma {:induction false} WithoutLower(s: string, P: char -> bool)
    requires forall i :: 0 <= i < |s| ==> P(LowerChar(s[i])) == P(s[i])
    ensures Without(Lower(s), P) == Lower(Without(s, P))
    decreases |s|
  {
    if |s| > 0 {
      WithoutLower(s[1..], P);
      assert Lower(s)[1..] == Lower(s[1..]);
      var head := if P(s[0]) then [] else [s[0]];
      assert Lower(head + Without(s[1..], P)) == Lower(head) + Lower(Without(s[1..], P));
    }
  }

  /** Python `str(n)` for an integer. */
  function IntToString(n: int): (r: string)
    ensures |r| >= 1
  {
    if n < 0 then "-" + NatToString(-n) else NatToString(n)
  }

  function DigitChar(d: nat): char
    requires d < 10
  {
    ('0' as int + d) as char
  }

  function NatToString(n: nat): (r: string)
    ensures |r| >= 1
    ensures forall i :: 0 <= i < |r| ==> IsAsciiDigit(r[i])
    ensures |r| > 1 ==> r[0] != '0'
  {
    if n < 10 then [DigitChar(n)] else NatToString(n / 10) + [DigitChar(n % 10)]
  }

  /** Decimal value of a string of ASCII digits (Python `int(s)`). */
  function DigitsValue(s: string): nat
    requires forall i :: 0 <= i < |s| ==> IsAsciiDigit(s[i])
  {
    if |s| == 0 then 0
    else
      assert IsAsciiDigit(s[|s| - 1]);
      DigitsValue(s[..|s| - 1]) * 10 + (s[|s| - 1] as int - '0' as int)
  }

  /** `NatToString` is inverted by `DigitsValue`. */
  lemma {:induction false} NatToStringRoundTrip(n: nat)
    ensures DigitsValue(NatToString(n)) == n
  {
    if n >= 10 {
      NatToStringRoundTrip(n / 10);
      var s := NatToString(n);
      assert s[..|s| - 1] == NatToString(n / 10);
    }
  }

  /** Deleting characters keeps a property of all the characters. */
  lemma {:induction false} WithoutAllChars(s: string, P: char -> bool, Q: char -> bool)
    requires AllChars(s, Q)
    ensures AllChars(Without(s, P), Q)
    decreases |s|
  {
    if |s| > 0 {
      AllCharsSlice(s, 1, |s|, Q);
      WithoutAllChars(s[1..], P, Q);
      AllCharsAppend(if P(s[0]) then [] else [s[0]], Without(s[1..], P), Q);
    }
  }

  /** Deleting distributes over concatenation. */
  lemma {:induction false} WithoutAppend(a: string, b: string, P: char -> bool)
    ensures Without(a + b, P) == Without(a, P) + Without(b, P)
    decreases |a|
  {
    if |a| > 0 {
      WithoutAppend(a[1..], b, P);
      var head := if P(a[0]) then [] else [a[0]];
      assert (a + b)[0] == a[0] && (a + b)[1..] == a[1..] + b;
      calc {
        Without(a + b, P);
        head + Without(a[1..] + b, P);
        head + (Without(a[1..], P) + Without(b, P));
        (head + Without(a[1..], P)) + Without(b, P);
      }
    } else {
      assert a + b == b;
    }
  }

  /** Nothing to delete leaves the string as it is. */
  lemma {:induction false} WithoutNone(s: string, P: char -> bool)
    requires forall i :: 0 <= i < |s| ==> !P(s[i])
    ensures Without(s, P) == s
    decreases |s|
  {
    if |s| > 0 {
      WithoutNone(s[1..], P);
      assert [s[0]] + s[1..] == s;
    }
  }

  /** Deleting the `P`-characters, then every `Q`-character, where each
      `P`-character is a `Q`-character, deletes the `Q`-characters. */
  lemma {:induction false} WithoutWithout(s: string, P: char -> bool, Q: char -> bool)
    requires forall i :: 0 <= i < |s| ==> P(s[i]) ==> Q(s[i])
    ensures Without(Without(s, P), Q) == Without(s, Q)
    decreases |s|
  {
    if |s| > 0 {
      WithoutWithout(s[1..], P, Q);
      var head := if P(s[0]) then [] else [s[0]];
      WithoutAppend(head, Without(s[1..], P), Q);
    }
  }

  /** A string of `P`-characters only leaves nothing behind. */
  lemma {:induction false} WithoutAll(s: string, P: char -> bool)
    requires forall k :: 0 <= k < |s| ==> P(s[k])
    ensures Without(s, P) == []
    decreases |s|
  {
    if |s| > 0 {
      assert P(s[0]);
      WithoutAll(s[1..], P);
    }
  }

  /** A trailing run of `P`-characters leaves nothing behind. */
  lemma {:induction false} WithoutDrop(s: string, i: nat, P: char -> bool)
    requires i <= |s| && forall k :: i <= k < |s| ==> P(s[k])
    ensures Without(s, P) == Without(s[..i], P)
    decreases |s|
  {
    if i == 0 {
      WithoutAll(s, P);
    } else {
      var t := s[1..];
      WithoutDrop(t, i - 1, P);
      assert s[..i][0] == s[0] && s[..i][1..] == t[..i - 1];
    }
  }

  /** Stripping removes only whitespace, so it changes nothing once the
      whitespace is deleted anyway. */
  lemma WithoutStrip(s: string, P: char -> bool)
    requires forall i :: 0 <= i < |s| ==> IsSpace(s[i]) ==> P(s[i])
    ensures Without(Strip(s), P) == Without(s, P)
  {
    var i := LStripFrom(s, 0);
    var j := RStripTo(s, i, |s|);
    forall k | j <= k < |s| ensures P(s[k]) { assert IsSpace(s[k]); }
    WithoutDrop(s, j, P);
    var t := s[..j];
    forall k | 0 <= k < i ensures P(t[k]) { assert t[k] == s[k] && IsSpace(s[k]); }
    WithoutSkip(t, i, P);
    assert t[i..] == s[i..j];
  }

  /** Replacing runs by a character satisfying `Q` keeps a string whose
      characters all satisfy `Q` so. */
  lemma {:induction false} ReplaceRunsAllChars(s: string, P: char -> bool, c: char, Q: char -> bool)
    requires AllChars(s, Q) && Q(c)
    ensures AllChars(ReplaceRuns(s, P, c), Q)
    decreases |s|
  {
    if |s| > 0 {
      if P(s[0]) {
        var e := RunEnd(s, 0, P);
        AllCharsSlice(s, e, |s|, Q);
        ReplaceRunsAllChars(s[e..], P, c, Q);
        AllCharsAppend([c], ReplaceRuns(s[e..], P, c), Q);
      } else {
        AllCharsSlice(s, 1, |s|, Q);
        ReplaceRunsAllChars(s[1..], P, c, Q);
        AllCharsAppend([s[0]], ReplaceRuns(s[1..], P, c), Q);
      }
    }
  }

  /** The last character of a replacement is the replacement of the last
      character. */
  lemma {:induction false} ReplaceRunsLast(s: string, P: char -> bool, c: char)
    requires |s| > 0
    ensures var r := ReplaceRuns(s, P, c);
      r[|r| - 1] == if P(s[|s| - 1]) then c else s[|s| - 1]
    decreases |s|
  {
    if P(s[0]) {
      var e := RunEnd(s, 0, P);
      var rest := ReplaceRuns(s[e..], P, c);
      assert ReplaceRuns(s, P, c) == [c] + rest;
      if e < |s| {
        ReplaceRunsLast(s[e..], P, c);
        assert s[e..][|s[e..]| - 1] == s[|s| - 1];
      } else {
        assert rest == [];
      }
    } else {
      var rest := ReplaceRuns(s[1..], P, c);
      assert ReplaceRuns(s, P, c) == [s[0]] + rest;
      if |s| > 1 {
        ReplaceRunsLast(s[1..], P, c);
        assert s[1..][|s| - 2] == s[|s| - 1];
      }
    }
  }

  /** The pieces of a split keep a character property of the text. */
  lemma {:induction false} SplitWhereAllChars(s: string, isSep: char -> bool, P: char -> bool)
    requires AllChars(s, P)
    ensures forall k :: 0 <= k < |SplitWhere(s, isSep)| ==> AllChars(SplitWhere(s, isSep)[k], P)
    decreases |s|
  {
    if |s| > 0 {
      AllCharsSlice(s, 1, |s|, P);
      SplitWhereAllChars(s[1..], isSep, P);
      var rest := SplitWhere(s[1..], isSep);
      if !isSep(s[0]) {
        AllCharsAppend([s[0]], rest[0], P);
      }
    }
  }

  /** Phrases pass through `StrippedNonEmpty` unchanged. */
  lemma {:induction false} StrippedNonEmptyKeeps(pieces: seq<string>)
    requires forall k :: 0 <= k < |pieces| ==> pieces[k] != [] && Trimmed(pieces[k])
    ensures StrippedNonEmpty(pieces) == pieces
    decreases |pieces|
  {
    if |pieces| > 0 {
      StripTrimmed(pieces[0]);
      StrippedNonEmptyKeeps(pieces[1..]);
      assert [pieces[0]] + pieces[1..] == pieces;
    }
  }

  /** Lower-casing forgets an earlier upper-casing. */
  lemma LowerUpper(s: string)
    ensures Lower(Upper(s)) == Lower(s)
  {
  }
}
