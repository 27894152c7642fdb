/** `ContentProcessor._clean_html_content`: HTML to single-spaced plain text. */
module HtmlClean {
  import opened Options
  import opened Text
  import opened Json
  import opened Environment

  /** No two consecutive spaces. */
  ghost predicate NoDoubleSpace(s: string) {
    forall i :: 0 < i < |s| ==> !(s[i - 1] == ' ' && s[i] == ' ')
  }

  predicate NotLineBreak(c: char) { !IsLineBreak(c) }

  /** What the whitespace clean-up leaves: no surrounding whitespace, no line
      breaks and no double spaces. */
  ghost predicate Collapsed(s: string) {
    Trimmed(s) && NoDoubleSpace(s) && AllChars(s, NotLineBreak)
  }

  /** A phrase as the clean-up emits it: also single-spaced and on one
      line. */
  ghost predicate IsCleanPhrase(p: string) {
    IsPhrase(p) && NoDoubleSpace(p) && AllChars(p, NotLineBreak)
  }

  /** The phrases of one line: the stripped line split at every double
      space, each piece stripped, empty ones dropped. */
  function LinePhrases(line: string): (r: seq<string>)
    ensures Every(r, IsPhrase)
  {
    StrippedNonEmpty(SplitSep(Strip(line), "  "))
  }

  /** The phrases of all lines, in order. */
  function Phrases(lines: seq<string>): (r: seq<string>)
    ensures Every(r, IsPhrase)
  {
    if |lines| == 0 then []
    else
      EveryAppend(LinePhrases(lines[0]), Phrases(lines[1..]), IsPhrase);
      LinePhrases(lines[0]) + Phrases(lines[1..])
  }

  /** The clean-up after `get_text()`: split into lines, strip them, split
      at double spaces, strip the phrases, drop empty ones and join with
      single spaces. Splitting at every line-break character rather than at
      `\r\n` pairs and dropping a final empty line gives the same phrases,
      since empty lines contribute none. */
  function Collapse(text: string): string {
    Join(Phrases(SplitWhere(text, IsLineBreak)), " ")
  }

  /** A string with no double space contains no occurrence of `"  "`. */
  lemma NoDoubleSpaceNoOccurrence(s: string)
    requires NoDoubleSpace(s)
    ensures forall i :: !OccursAt(s, "  ", i)
  {
    forall i ensures !OccursAt(s, "  ", i) {
      if 0 <= i && i + 2 <= |s| {
        assert s[i..i + 2][0] == s[i] && s[i..i + 2][1] == s[i + 1];
      }
    }
  }

  /** Conversely, no occurrence of `"  "` means no double space. */
  lemma NoOccurrenceNoDoubleSpace(s: string)
    requires !Contains(s, "  ")
    ensures NoDoubleSpace(s)
  {
    forall i | 0 < i < |s| ensures !(s[i - 1] == ' ' && s[i] == ' ') {
      assert !OccursAt(s, "  ", i - 1);
      assert s[i - 1..i + 1] == [s[i - 1], s[i]];
    }
  }

  lemma NoDoubleSpaceSlice(s: string, i: nat, j: nat)
    requires i <= j <= |s| && NoDoubleSpace(s)
    ensures NoDoubleSpace(s[i..j])
  {
    assert forall k :: 0 <= k < j - i ==> s[i..j][k] == s[i + k];
  }

  lemma NoDoubleSpaceAppend(a: string, b: string)
    requires NoDoubleSpace(a) && NoDoubleSpace(b)
    requires |a| > 0 && |b| > 0 ==> !(a[|a| - 1] == ' ' && b[0] == ' ')
    ensures NoDoubleSpace(a + b)
  {
    assert forall k :: 0 <= k < |a| ==> (a + b)[k] == a[k];
    assert forall k :: |a| <= k < |a + b| ==> (a + b)[k] == b[k - |a|];
  }

  /** Joining trimmed, non-empty, single-spaced phrases with one space
      creates no double space. */
  lemma {:induction false} JoinSingleSpaced(parts: seq<string>)
    requires Every(parts, IsCleanPhrase)
    ensures NoDoubleSpace(Join(parts, " "))
    decreases |parts|
  {
    if |parts| > 1 {
      var rest := parts[1..];
      JoinSingleSpaced(rest);
      JoinEnds(rest, " ");
      NoDoubleSpaceAppend(parts[0], " ");
      NoDoubleSpaceAppend(parts[0] + " ", Join(rest, " "));
    }
  }

  /** Stripping the pieces of a split at `"  "` of a text without line
      breaks leaves clean phrases. */
  lemma {:induction false} StrippedPiecesClean(pieces: seq<string>)
    requires forall k :: 0 <= k < |pieces| ==> !Contains(pieces[k], "  ") && AllChars(pieces[k], NotLineBreak)
    ensures Every(StrippedNonEmpty(pieces), IsCleanPhrase)
    decreases |pieces|
  {
    if |pieces| > 0 {
      NoOccurrenceNoDoubleSpace(pieces[0]);
      var i, j := StripSlice(pieces[0]);
      NoDoubleSpaceSlice(pieces[0], i, j);
      AllCharsSlice(pieces[0], i, j, NotLineBreak);
      StrippedPiecesClean(pieces[1..]);
      var p := Strip(pieces[0]);
      var here := if p == [] then [] else [p];
      EveryAppend(here, StrippedNonEmpty(pieces[1..]), IsCleanPhrase);
    }
  }

  /** The phrases of a line without line breaks are clean. */
  lemma LinePhrasesClean(line: string)
    requires AllChars(line, NotLineBreak)
    ensures Every(LinePhrases(line), IsCleanPhrase)
  {
    var i, j := StripSlice(line);
    AllCharsSlice(line, i, j, NotLineBreak);
    var pieces := SplitSep(Strip(line), "  ");
    SplitSepPieces(Strip(line), "  ");
    JoinPartsAllChars(pieces, "  ", NotLineBreak);
    StrippedPiecesClean(pieces);
  }

  lemma {:induction false} PhrasesClean(lines: seq<string>)
    requires forall k :: 0 <= k < |lines| ==> AllChars(lines[k], NotLineBreak)
    ensures Every(Phrases(lines), IsCleanPhrase)
    decreases |lines|
  {
    if |lines| > 0 {
      LinePhrasesClean(lines[0]);
      PhrasesClean(lines[1..]);
      EveryAppend(LinePhrases(lines[0]), Phrases(lines[1..]), IsCleanPhrase);
    }
  }

  /** The clean-up leaves collapsed text. */
  lemma CollapseCollapsed(text: string)
    ensures Collapsed(Collapse(text))
  {
    var lines := SplitWhere(text, IsLineBreak);
    assert forall k :: 0 <= k < |lines| ==> AllChars(lines[k], NotLineBreak);
    PhrasesClean(lines);
    JoinPhrasesCollapsed(Phrases(lines));
  }

  /** Clean phrases joined by single spaces make collapsed text. */
  lemma JoinPhrasesCollapsed(ps: seq<string>)
    requires Every(ps, IsCleanPhrase)
    ensures Collapsed(Join(ps, " "))
  {
    JoinSingleSpaced(ps);
    assert forall k :: 0 <= k < |ps| ==> AllChars(ps[k], NotLineBreak) by {
      forall k | 0 <= k < |ps| ensures AllChars(ps[k], NotLineBreak) {
        assert IsCleanPhrase(ps[k]);
      }
    }
    assert AllChars(" ", NotLineBreak);
    JoinAllChars(ps, " ", NotLineBreak);
    if |ps| > 0 {
      assert forall k :: 0 <= k < |ps| ==> ps[k] != [] by {
        forall k | 0 <= k < |ps| ensures ps[k] != [] {
          assert IsCleanPhrase(ps[k]);
        }
      }
      JoinEnds(ps, " ");
      assert IsCleanPhrase(ps[0]) && IsCleanPhrase(ps[|ps| - 1]);
    }
  }

  /** Collapsed text is left as it is. */
  lemma CollapseFixpoint(s: string)
    requires Collapsed(s)
    ensures Collapse(s) == s
  {
    assert SplitWhere(s, IsLineBreak) == [s] by {
      SplitWhereNone(s, IsLineBreak);
    }
    StripTrimmed(s);
    NoDoubleSpaceNoOccurrence(s);
    assert SplitSep(s, "  ") == [s];
    assert Phrases([s]) == LinePhrases(s);
  }

  /** Cleaning up twice is cleaning up once. */
  lemma CollapseIdempotent(text: string)
    ensures Collapse(Collapse(text)) == Collapse(text)
  {
    CollapseCollapsed(text);
    CollapseFixpoint(Collapse(text));
  }

  /** The position just after the first `>` at or after `i`, if any. */
  function CloseAfter(s: string, i: nat): (r: Option<nat>)
    requires i <= |s|
    ensures r.Some? ==>
              i < r.value <= |s| && s[r.value - 1] == '>' && forall k :: i <= k < r.value - 1 ==> s[k] != '>'
    ensures r.None? ==> forall k :: i <= k < |s| ==> s[k] != '>'
    decreases |s| - i
  {
    if i == |s| then None
    else if s[i] == '>' then Some(i + 1)
    else CloseAfter(s, i + 1)
  }

  /** `re.sub(r'<[^>]+>', '', s)`: scanning left to right, a `<` followed by
      at least one character other than `>` and then a `>` is removed
      together with everything up to that `>`; every other character is
      kept. */
  function StripTags(s: string): (r: string)
    ensures |r| <= |s|
    decreases |s|
  {
    if |s| == 0 then []
    else if s[0] == '<' && |s| > 1 && s[1] != '>' then
      match CloseAfter(s, 1)
      case Some(e) => StripTags(s[e..])
      case None => [s[0]] + StripTags(s[1..])
    else [s[0]] + StripTags(s[1..])
  }

  /** Text holding nothing `StripTags` would remove: every `<` is directly
      followed by `>` or has no `>` anywhere after it. */
  ghost predicate TagFree(s: string) {
    forall i :: 0 <= i < |s| && s[i] == '<' ==> EmptyTag(s, i) || NoCloseAfter(s, i)
  }

  /** The `<` at `i` is directly followed by `>`. */
  ghost predicate EmptyTag(s: string, i: nat) {
    i + 1 < |s| && s[i + 1] == '>'
  }

  /** No `>` follows position `i`. */
  ghost predicate NoCloseAfter(s: string, i: nat) {
    forall k :: i < k < |s| ==> s[k] != '>'
  }

  /** `StripTags` keeps a character property of its input. */
  lemma {:induction false} StripTagsAllChars(s: string, P: char -> bool)
    requires AllChars(s, P)
    ensures AllChars(StripTags(s), P)
    decreases |s|
  {
    if |s| > 0 {
      AllCharsSlice(s, 1, |s|, P);
      StripTagsAllChars(s[1..], P);
      if s[0] == '<' && |s| > 1 && s[1] != '>' && CloseAfter(s, 1).Some? {
        var e := CloseAfter(s, 1).value;
        AllCharsSlice(s, e, |s|, P);
        StripTagsAllChars(s[e..], P);
      } else {
        AllCharsAppend([s[0]], StripTags(s[1..]), P);
      }
    }
  }

  predicate NotClose(c: char) { c != '>' }

  /** Prepending a character that is not `<` keeps text tag-free. */
  lemma TagFreeCons(c: char, t: string)
    requires TagFree(t) && c != '<'
    ensures TagFree([c] + t)
  {
    assert forall i :: 1 <= i < |[c] + t| ==> ([c] + t)[i] == t[i - 1];
  }

  /** `StripTags` removes every tag: its result holds none. */
  lemma {:induction false} StripTagsTagFree(s: string)
    ensures TagFree(StripTags(s))
    decreases |s|
  {
    if |s| > 0 {
      StripTagsTagFree(s[1..]);
      var t := StripTags(s[1..]);
      if s[0] == '<' && |s| > 1 && s[1] != '>' {
        match CloseAfter(s, 1)
        case Some(e) => StripTagsTagFree(s[e..]);
        case None =>
          assert AllChars(s[1..], NotClose);
          StripTagsAllChars(s[1..], NotClose);
          assert forall i :: 1 <= i < |[s[0]] + t| ==> ([s[0]] + t)[i] == t[i - 1];
      } else if s[0] == '<' {
        if |s| > 1 {
          assert s[1..][0] == '>';
          assert t == [s[1]] + StripTags(s[2..]);
        }
        assert forall i :: 1 <= i < |[s[0]] + t| ==> ([s[0]] + t)[i] == t[i - 1];
      } else {
        TagFreeCons(s[0], t);
      }
    }
  }

  /** Tag-free text is left as it is. */
  lemma {:induction false} StripTagsFixpoint(s: string)
    requires TagFree(s)
    ensures StripTags(s) == s
    decreases |s|
  {
    if |s| > 0 {
      assert TagFree(s[1..]) by {
        assert forall i :: 0 <= i < |s[1..]| ==> s[1..][i] == s[i + 1];
      }
      StripTagsFixpoint(s[1..]);
      if s[0] == '<' && |s| > 1 && s[1] != '>' {
        assert CloseAfter(s, 1).None?;
      }
      assert [s[0]] + s[1..] == s;
    }
  }

  /** Any slice of tag-free text is tag-free. */
  lemma TagFreeSlice(s: string, i: nat, j: nat)
    requires i <= j <= |s| && TagFree(s)
    ensures TagFree(s[i..j])
  {
    var t := s[i..j];
    forall k | 0 <= k < |t| && t[k] == '<'
      ensures EmptyTag(t, k) || NoCloseAfter(t, k)
    {
      assert s[i + k] == '<';
      if !EmptyTag(s, i + k) {
        assert NoCloseAfter(s, i + k);
      }
    }
  }

  /** Stripping tag-free text leaves it tag-free. */
  lemma StripTagFree(s: string)
    requires TagFree(s)
    ensures TagFree(Strip(s))
  {
    var i, j := StripSlice(s);
    TagFreeSlice(s, i, j);
  }

  /** Removing tags twice is removing them once. */
  lemma StripTagsIdempotent(s: string)
    ensures StripTags(StripTags(s)) == StripTags(s)
  {
    StripTagsTagFree(s);
    StripTagsFixpoint(StripTags(s));
  }

  /** `_clean_html_content(content)`: falsy content gives `""`; a string is
      parsed and its text collapsed, or, when the parser raises, its tags
      are removed by the regular expression and the rest stripped; any other
      truthy value goes through the parser if it accepts it and raises
      otherwise (`None`). */
  function CleanHtml(content: Json, env: Env): (r: Option<string>)
    ensures !Truthy(content) ==> r == Some("")
    ensures content.JStr? && content.s != [] ==>
      r.Some? && (env.markupText(content.s).Some? ==> Collapsed(r.value))
    ensures content.JStr? && content.s != [] && env.markupText(content.s).None? ==>
      r.Some? && Trimmed(r.value) && TagFree(r.value)
  {
    if !Truthy(content) then Some("")
    else if content.JStr? then
      match env.markupText(content.s)
      case Some(text) => CollapseCollapsed(text); Some(Collapse(text))
      case None =>
        var stripped := StripTags(content.s);
        StripTagsTagFree(content.s);
        StripTagFree(stripped);
        Some(Strip(stripped))
    else
      match env.markupOther(content)
      case Some(text) => Some(Collapse(text))
      case None => None
  }

  /** `_clean_html_content` applied to a string. */
  function CleanText(s: string, env: Env): (r: string)
    ensures s == [] ==> r == []
  {
    var c := CleanHtml(JStr(s), env);
    assert c.Some?;
    c.value
  }
}
