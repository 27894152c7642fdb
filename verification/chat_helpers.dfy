/** The chat service's text utilities: cleaning user input, extracting the
    keywords of a query, the response record that lists its sources, the
    greeting of the hour and the keyword-based intent of a query. Case
    mapping and the regular-expression class `\w` are taken to be ASCII. */
module ChatHelpers {
  import opened Options
  import opened Text
  import opened Json
  import opened Classify
  import Keywords

  // ---------------------------------------------------------------------
  // clean_text

  /** The characters `clean_text` keeps: word characters, whitespace and
      `.`, `,`, `?`, `!`, `-`. */
  predicate IsKept(c: char) {
    Keywords.IsWordChar(c) || IsSpace(c) || c == '.' || c == ',' || c == '?' || c == '!' || c == '-'
  }

  predicate IsDropped(c: char) { !IsKept(c) }

  /** What the cleaning is allowed to lose: whitespace and the dropped
      characters. Everything else is content. */
  predicate IsFiller(c: char) { IsSpace(c) || IsDropped(c) }

  /** `clean_text`: strip, turn every whitespace run into one space, then
      delete every character outside the kept set. */
  function CleanText(text: string): (r: string)
    ensures forall i :: 0 <= i < |r| ==> IsKept(r[i]) && (IsSpace(r[i]) ==> r[i] == ' ')
    ensures |r| <= |text|
  {
    if text == [] then ""
    else
      var u := ReplaceRuns(Strip(text), IsSpace, ' ');
      WithoutAllChars(u, IsDropped, IsSingleSpace);
      Without(u, IsDropped)
  }

  /** Not whitespace, or the space character itself. */
  predicate IsSingleSpace(c: char) { !IsSpace(c) || c == ' ' }

  /** The content of the input survives cleaning: the words and kept
      punctuation of the result are exactly those of the input, in
      order. */
  lemma CleanTextKeepsContent(text: string)
    ensures Without(CleanText(text), IsFiller) == Without(text, IsFiller)
  {
    if text != [] {
      var s := Strip(text);
      var u := ReplaceRuns(s, IsSpace, ' ');
      WithoutWithout(u, IsDropped, IsFiller);
      WithoutWithout(u, IsSpace, IsFiller);
      ReplaceRunsKeeps(s, IsSpace, ' ');
      WithoutWithout(s, IsSpace, IsFiller);
      WithoutStrip(text, IsFiller);
    }
  }

  /** Clean text: only kept characters, single spaces between the
      pieces, nothing at either end. */
  predicate IsClean(s: string) {
    Trimmed(s)
    && (forall i :: 0 <= i < |s| ==> IsKept(s[i]) && (IsSpace(s[i]) ==> s[i] == ' '))
    && (forall i :: 0 <= i < |s| - 1 ==> !(IsSpace(s[i]) && IsSpace(s[i + 1])))
  }

  /** Clean text is left as it is. */
  lemma CleanTextOfClean(s: string)
    requires IsClean(s)
    ensures CleanText(s) == s
  {
    if s != [] {
      StripTrimmed(s);
      ReplaceRunsSettled(s, IsSpace, ' ');
      WithoutNone(s, IsDropped);
    }
  }

  /** Text without characters to drop is clean after one pass, so a
      second pass changes nothing. */
  lemma CleanTextSettles(text: string)
    requires forall i :: 0 <= i < |text| ==> IsKept(text[i])
    ensures IsClean(CleanText(text))
    ensures CleanText(CleanText(text)) == CleanText(text)
  {
    if text != [] {
      var s := Strip(text);
      var i, j := StripSlice(text);
      AllCharsSlice(text, i, j, IsKept);
      var u := ReplaceRuns(s, IsSpace, ' ');
      ReplaceRunsAllChars(s, IsSpace, ' ', IsKept);
      WithoutNone(u, IsDropped);
      if s != [] {
        ReplaceRunsLast(s, IsSpace, ' ');
      }
      assert Trimmed(u);
      CleanTextOfClean(u);
    }
  }

  /** Deleting a character can bring two spaces together... */
  lemma CleanTextJoinsSpaces(a: char, x: char, b: char)
    requires Keywords.IsWordChar(a) && IsDropped(x) && Keywords.IsWordChar(b)
    ensures CleanText([a, ' ', x, ' ', b]) == [a, ' ', ' ', b]
  {
    var s := [a, ' ', x, ' ', b];
    JoinsSpacesSettled(a, x, b);
    JoinsSpacesDrop(a, x, b);
    assert s != [];
  }

  /** The five characters are already stripped and have no runs. */
  lemma JoinsSpacesSettled(a: char, x: char, b: char)
    requires Keywords.IsWordChar(a) && IsDropped(x) && Keywords.IsWordChar(b)
    ensures var s := [a, ' ', x, ' ', b];
      Strip(s) == s && ReplaceRuns(s, IsSpace, ' ') == s
  {
    var s := [a, ' ', x, ' ', b];
    StripTrimmed(s);
    ReplaceRunsSettled(s, IsSpace, ' ');
  }

  /** Only the dropped character goes. */
  lemma JoinsSpacesDrop(a: char, x: char, b: char)
    requires Keywords.IsWordChar(a) && IsDropped(x) && Keywords.IsWordChar(b)
    ensures Without([a, ' ', x, ' ', b], IsDropped) == [a, ' ', ' ', b]
  {
    var p, y, q := [a, ' '], [x], [' ', b];
    assert p + y + q == [a, ' ', x, ' ', b];
    WithoutAppend(p + y, q, IsDropped);
    WithoutAppend(p, y, IsDropped);
    WithoutNone(p, IsDropped);
    WithoutNone(q, IsDropped);
    assert y[1..] == [];
  }

  /** ... and the next pass merges them: `clean_text` is not
      idempotent. */
  lemma CleanTextMergesSpaces(a: char, b: char)
    requires Keywords.IsWordChar(a) && Keywords.IsWordChar(b)
    ensures CleanText([a, ' ', ' ', b]) == [a, ' ', b]
  {
    var t := [a, ' ', ' ', b];
    StripTrimmed(t);
    assert RunEnd(t, 1, IsSpace) == 3;
    assert t[3..] == [b];
    assert ReplaceRuns([b], IsSpace, ' ') == [b];
    assert ReplaceRuns(t, IsSpace, ' ') == [a, ' ', b];
    WithoutNone([a, ' ', b], IsDropped);
  }

  // ---------------------------------------------------------------------
  // extract_keywords

  const StopWords: set<string> := {
    "the", "a", "an", "and", "or", "but", "in", "on", "at", "to", "for",
    "of", "with", "by", "is", "are", "was", "were", "be", "been", "being"}

  /** The characters `word.strip('.,?!')` removes. */
  predicate IsEndPunct(c: char) { c == '.' || c == ',' || c == '?' || c == '!' }

  /** A word with no stripped punctuation at either end. */
  predicate Bare(w: string) {
    |w| == 0 || (!IsEndPunct(w[0]) && !IsEndPunct(w[|w| - 1]))
  }

  function PunctStart(w: string, i: nat): (k: nat)
    requires i <= |w|
    ensures i <= k <= |w|
    ensures forall m :: i <= m < k ==> IsEndPunct(w[m])
    ensures k < |w| ==> !IsEndPunct(w[k])
    decreases |w| - i
  {
    if i == |w| || !IsEndPunct(w[i]) then i else PunctStart(w, i + 1)
  }

  function PunctEnd(w: string, lo: nat, j: nat): (k: nat)
    requires lo <= j <= |w|
    ensures lo <= k <= j
    ensures forall m :: k <= m < j ==> IsEndPunct(w[m])
    ensures k > lo ==> !IsEndPunct(w[k - 1])
    decreases j - lo
  {
    if j == lo || !IsEndPunct(w[j - 1]) then j else PunctEnd(w, lo, j - 1)
  }

  /** `word.strip('.,?!')`. */
  function StripPunct(w: string): (r: string)
    ensures Bare(r)
  {
    var i := PunctStart(w, 0);
    w[i..PunctEnd(w, i, |w|)]
  }

  /** The stripped word is a slice of the word with only punctuation
      outside it. */
  lemma StripPunctSlice(w: string) returns (i: nat, j: nat)
    ensures i <= j <= |w| && StripPunct(w) == w[i..j]
    ensures forall m :: 0 <= m < i ==> IsEndPunct(w[m])
    ensures forall m :: j <= m < |w| ==> IsEndPunct(w[m])
  {
    i := PunctStart(w, 0);
    j := PunctEnd(w, i, |w|);
  }

  /** A bare word is its own stripped form. */
  lemma StripPunctBare(w: string)
    requires Bare(w)
    ensures StripPunct(w) == w
  {
    assert PunctStart(w, 0) == 0;
    assert PunctEnd(w, 0, |w|) == |w|;
  }

  /** Python `s.split()`: the maximal runs of non-whitespace. */
  function Words(s: string): (r: seq<string>)
    ensures Every(r, IsPhrase)
  {
    StrippedNonEmpty(SplitWhere(s, IsSpace))
  }

  /** The filter of `extract_keywords`, applied to the word as split,
      before its punctuation is stripped. */
  predicate Selected(w: string) { Lower(w) !in StopWords && |w| > 2 }

  function KeywordsOf(words: seq<string>): (r: seq<string>)
    ensures |r| <= |words|
    ensures forall k :: 0 <= k < |r| ==> Bare(r[k])
  {
    if |words| == 0 then []
    else (if Selected(words[0]) then [StripPunct(words[0])] else []) + KeywordsOf(words[1..])
  }

  predicate NotUpper(c: char) { !IsAsciiUpper(c) }

  /** Neither whitespace nor an upper-case letter. */
  predicate IsLowerWordChar(c: char) { !IsSpace(c) && !IsAsciiUpper(c) }

  /** `extract_keywords`. */
  function ExtractKeywords(query: string): (r: seq<string>)
    ensures |r| <= |Words(Lower(query))|
    ensures forall k :: 0 <= k < |r| ==> Bare(r[k]) && AllChars(r[k], IsLowerWordChar)
  {
    KeywordsLower(query);
    KeywordsOf(Words(Lower(query)))
  }

  /** The words of lower-cased text have neither whitespace nor capitals,
      and neither have the keywords drawn from them. */
  lemma KeywordsLower(q: string)
    ensures var words := Words(Lower(q));
      forall k :: 0 <= k < |KeywordsOf(words)| ==> AllChars(KeywordsOf(words)[k], IsLowerWordChar)
  {
    var words := Words(Lower(q));
    var low := Lower(q);
    assert AllChars(low, NotUpper);
    var pieces := SplitWhere(low, IsSpace);
    SplitWhereAllChars(low, IsSpace, NotUpper);
    forall k | 0 <= k < |pieces| ensures AllChars(pieces[k], IsLowerWordChar) {
      assert AllChars(pieces[k], NotUpper);
    }
    StrippedPiecesAllChars(pieces, IsLowerWordChar);
    KeywordsOfChars(words, IsLowerWordChar);
  }

  lemma {:induction false} KeywordsOfChars(words: seq<string>, P: char -> bool)
    requires forall k :: 0 <= k < |words| ==> AllChars(words[k], P)
    ensures forall k :: 0 <= k < |KeywordsOf(words)| ==> AllChars(KeywordsOf(words)[k], P)
    decreases |words|
  {
    if |words| > 0 {
      KeywordsOfChars(words[1..], P);
      var i, j := StripPunctSlice(words[0]);
      AllCharsSlice(words[0], i, j, P);
      var here := if Selected(words[0]) then [StripPunct(words[0])] else [];
      var rest := KeywordsOf(words[1..]);
      assert forall k :: |here| <= k < |here + rest| ==> (here + rest)[k] == rest[k - |here|];
    }
  }

  /** A keyword as `extract_keywords` returns it when nothing is lost:
      lower case, no whitespace, no punctuation at the ends, not a stop
      word, longer than two characters. */
  predicate IsPlainKeyword(w: string) {
    AllChars(w, IsLowerWordChar) && Bare(w) && w !in StopWords && |w| > 2
  }

  /** Plain keywords joined by spaces come back as they are. */
  lemma KeywordsRoundTrip(ws: seq<string>)
    requires forall k :: 0 <= k < |ws| ==> IsPlainKeyword(ws[k])
    ensures ExtractKeywords(Join(ws, " ")) == ws
  {
    RoundTripCore(ws);
  }

  lemma RoundTripCore(ws: seq<string>)
    requires forall k :: 0 <= k < |ws| ==> IsPlainKeyword(ws[k])
    ensures KeywordsOf(Words(Lower(Join(ws, " ")))) == ws
  {
    KeywordsOfPlain(ws);
    PlainJoinSplits(ws);
  }

  lemma PlainJoinSplits(ws: seq<string>)
    requires forall k :: 0 <= k < |ws| ==> IsPlainKeyword(ws[k])
    ensures Words(Lower(Join(ws, " "))) == ws
  {
    PlainJoinIsLower(ws);
    PlainJoinWords(ws);
  }

  lemma PlainWords(ws: seq<string>)
    requires forall k :: 0 <= k < |ws| ==> IsPlainKeyword(ws[k])
    ensures forall k :: 0 <= k < |ws| ==> ws[k] != [] && AllChars(ws[k], IsLowerWordChar)
  {
  }

  lemma PlainJoinIsLower(ws: seq<string>)
    requires forall k :: 0 <= k < |ws| ==> IsPlainKeyword(ws[k])
    ensures Lower(Join(ws, " ")) == Join(ws, " ")
  {
    PlainWords(ws);
    JoinOfLowerWords(ws);
  }

  lemma PlainJoinWords(ws: seq<string>)
    requires forall k :: 0 <= k < |ws| ==> IsPlainKeyword(ws[k])
    ensures Words(Join(ws, " ")) == ws
  {
    PlainWords(ws);
    WordsOfJoin(ws);
  }

  /** Words without capitals joined by spaces are their own lower case. */
  lemma JoinOfLowerWords(ws: seq<string>)
    requires forall k :: 0 <= k < |ws| ==> AllChars(ws[k], IsLowerWordChar)
    ensures Lower(Join(ws, " ")) == Join(ws, " ")
  {
    forall k | 0 <= k < |ws| ensures AllChars(ws[k], NotUpper) {
      LowerWordNotUpper(ws[k]);
    }
    SpaceNotUpper();
    JoinAllChars(ws, " ", NotUpper);
    LowerOfLower(Join(ws, " "));
  }

  lemma LowerWordNotUpper(w: string)
    requires AllChars(w, IsLowerWordChar)
    ensures AllChars(w, NotUpper)
  {
    assert forall i :: 0 <= i < |w| ==> IsLowerWordChar(w[i]);
  }

  lemma SpaceNotUpper()
    ensures AllChars(" ", NotUpper)
  {
    assert " "[0] == ' ';
  }

  /** Text without capitals is its own lower case. */
  lemma LowerOfLower(s: string)
    requires AllChars(s, NotUpper)
    ensures Lower(s) == s
  {
    assert forall i :: 0 <= i < |s| ==> NotUpper(s[i]);
  }

  /** Splitting words joined by single spaces gives the words back. */
  lemma WordsOfJoin(ws: seq<string>)
    requires forall k :: 0 <= k < |ws| ==> ws[k] != [] && AllChars(ws[k], IsLowerWordChar)
    ensures Words(Join(ws, " ")) == ws
  {
    if |ws| == 0 {
      assert SplitWhere([], IsSpace) == [[]];
    } else {
      forall k, i | 0 <= k < |ws| && 0 <= i < |ws[k]| ensures !IsSpace(ws[k][i]) {
        assert IsLowerWordChar(ws[k][i]);
      }
      SplitWhereJoin(ws, ' ', IsSpace);
      forall k | 0 <= k < |ws| ensures Trimmed(ws[k]) {
        assert IsLowerWordChar(ws[k][0]) && IsLowerWordChar(ws[k][|ws[k]| - 1]);
      }
      StrippedNonEmptyKeeps(ws);
    }
  }

  lemma {:induction false} KeywordsOfPlain(ws: seq<string>)
    requires forall k :: 0 <= k < |ws| ==> IsPlainKeyword(ws[k])
    ensures KeywordsOf(ws) == ws
    decreases |ws|
  {
    if |ws| > 0 {
      KeywordsOfPlain(ws[1..]);
      var w := ws[0];
      assert Lower(w) == w by {
        assert forall i :: 0 <= i < |w| ==> IsLowerWordChar(w[i]);
      }
      StripPunctBare(w);
      assert [w] + ws[1..] == ws;
    }
  }

  /** The keywords do not depend on the case of the query. */
  lemma KeywordsIgnoreCase(query: string)
    ensures ExtractKeywords(Upper(query)) == ExtractKeywords(query)
  {
    LowerUpper(query);
  }

  /** The filter looks at the word before its punctuation is stripped:
      a stop word of two or more letters followed by a punctuation mark
      is kept, as the bare stop word. */
  lemma StopWordWithPunctuationKept(w: string, c: char)
    requires w in StopWords && |w| >= 2 && AllChars(w, IsAsciiLower) && IsEndPunct(c)
    ensures ExtractKeywords(w + [c]) == [w]
  {
    var q := w + [c];
    assert AllChars(q, IsLowerWordChar) by {
      assert forall i :: 0 <= i < |w| ==> IsAsciiLower(w[i]) && q[i] == w[i];
    }
    LowerWordNotUpper(q);
    LowerOfLower(q);
    OneWord(q);
    NotStopWord(q);
    StripTrailingPunct(w, c);
    assert KeywordsOf([q]) == [StripPunct(q)] + KeywordsOf([]);
  }

  /** No stop word ends with punctuation. */
  lemma NotStopWord(q: string)
    requires |q| > 0 && IsEndPunct(q[|q| - 1])
    ensures q !in StopWords
  {
  }

  /** Stripping a word of letters followed by one punctuation mark gives
      the letters. */
  lemma StripTrailingPunct(w: string, c: char)
    requires |w| > 0 && AllChars(w, IsAsciiLower) && IsEndPunct(c)
    ensures StripPunct(w + [c]) == w
  {
    var q := w + [c];
    assert !IsEndPunct(w[0]) && !IsEndPunct(w[|w| - 1]);
    assert PunctStart(q, 0) == 0;
    assert PunctEnd(q, 0, |q|) == |w|;
    assert q[..|w|] == w;
  }

  /** A word of three or more punctuation marks passes the filter and
      yields the empty keyword. */
  lemma PunctuationWordIsEmptyKeyword(p: string)
    requires |p| > 2 && AllChars(p, IsEndPunct)
    ensures ExtractKeywords(p) == [""]
  {
    assert AllChars(p, IsLowerWordChar) by {
      assert forall i :: 0 <= i < |p| ==> IsEndPunct(p[i]);
    }
    LowerWordNotUpper(p);
    LowerOfLower(p);
    OneWord(p);
    NotStopWord(p);
    assert PunctStart(p, 0) == |p| by {
      assert forall i :: 0 <= i < |p| ==> IsEndPunct(p[i]);
      PunctStartAll(p, 0);
    }
    assert KeywordsOf([p]) == [StripPunct(p)] + KeywordsOf([]);
  }

  /** A non-empty word without whitespace splits as itself. */
  lemma OneWord(w: string)
    requires w != [] && AllChars(w, IsLowerWordChar)
    ensures Words(w) == [w]
  {
    assert forall i :: 0 <= i < |w| ==> IsLowerWordChar(w[i]);
    SplitWhereNone(w, IsSpace);
    StrippedNonEmptyKeeps([w]);
  }

  lemma {:induction false} PunctStartAll(p: string, i: nat)
    requires i <= |p| && forall m :: i <= m < |p| ==> IsEndPunct(p[m])
    ensures PunctStart(p, i) == |p|
    decreases |p| - i
  {
    if i < |p| {
      PunctStartAll(p, i + 1);
    }
  }

  // ---------------------------------------------------------------------
  // format_response_with_sources

  /** Whether a source can be formatted: it is a dict, and its score (0.0
      when it has none) can be rounded. */
  predicate Formattable(source: Json, round3: Json -> Option<Json>) {
    source.JObj? && round3(GetOr(source, "score", JReal(0.0))).Some?
  }

  /** One entry of the formatted sources. Reading a key of a value that is
      not a dict fails, and so does rounding a score that is not a number
      (`round3` is Python's `round(x, 3)`). */
  function SourceInfo(id: int, source: Json, round3: Json -> Option<Json>): (r: Option<Json>)
    ensures r.Some? <==> Formattable(source, round3)
  {
    if !source.JObj? then None
    else
      match round3(GetOr(source, "score", JReal(0.0)))
      case None => None
      case Some(score) =>
        Some(JObj([
          ("id", JInt(id)),
          ("title", GetOr(source, "title", JStr("Unknown"))),
          ("type", GetOr(source, "type", JStr("content"))),
          ("department", GetOr(source, "department", JNull)),
          ("score", score)]))
  }

  /** An entry carries its number, the source's title, type and
      department or their defaults ("Unknown", "content", none), and the
      rounded score, 0.0 when the source has none. */
  lemma SourceInfoFields(id: int, source: Json, round3: Json -> Option<Json>)
    requires Formattable(source, round3)
    ensures var info := SourceInfo(id, source, round3).value;
      Get(info, "id") == Some(JInt(id))
      && Get(info, "title") == Some(Given(source, "title", JStr("Unknown")))
      && Get(info, "type") == Some(Given(source, "type", JStr("content")))
      && Get(info, "department") == Some(Given(source, "department", JNull))
      && Get(info, "score") == round3(Given(source, "score", JReal(0.0)))
  {
    var score := round3(GetOr(source, "score", JReal(0.0))).value;
    var fields := [
      ("id", JInt(id)),
      ("title", GetOr(source, "title", JStr("Unknown"))),
      ("type", GetOr(source, "type", JStr("content"))),
      ("department", GetOr(source, "department", JNull)),
      ("score", score)];
    assert SourceInfo(id, source, round3) == Some(JObj(fields));
    assert UniqueNames(fields);
    GetUnique(fields, 0);
    GetUnique(fields, 1);
    GetUnique(fields, 2);
    GetUnique(fields, 3);
    GetUnique(fields, 4);
    GivenIsGetOr(source, "title", JStr("Unknown"));
    GivenIsGetOr(source, "type", JStr("content"));
    GivenIsGetOr(source, "department", JNull);
    GivenIsGetOr(source, "score", JReal(0.0));
  }

  /** The `formatted_sources` list: one entry per source, in order,
      numbered from 1. */
  function FormatSources(sources: seq<Json>, round3: Json -> Option<Json>): (r: Option<seq<Json>>)
    ensures r.Some? <==> forall k :: 0 <= k < |sources| ==> Formattable(sources[k], round3)
    ensures r.Some? ==> (|r.value| == |sources|
      && forall k :: 0 <= k < |sources| ==> Some(r.value[k]) == SourceInfo(k + 1, sources[k], round3))
  {
    var numbered := seq(|sources|, (k: int) requires 0 <= k < |sources| => (k + 1, sources[k]));
    assert forall k :: 0 <= k < |sources| ==> numbered[k] == (k + 1, sources[k]);
    MapAll(numbered, (p: (int, Json)) => SourceInfo(p.0, p.1, round3))
  }

  /** `format_response_with_sources`: the message, the formatted sources
      and their count. */
  function FormatResponseWithSources(message: string, sources: seq<Json>, round3: Json -> Option<Json>): (r: Option<Json>)
    ensures r.Some? <==> FormatSources(sources, round3).Some?
    ensures r.Some? ==> (Get(r.value, "message") == Some(JStr(message))
      && Get(r.value, "sources") == Some(JArr(FormatSources(sources, round3).value))
      && Get(r.value, "source_count") == Some(JInt(|sources|)))
  {
    match FormatSources(sources, round3)
    case None => None
    case Some(items) =>
      var fields := [("message", JStr(message)), ("sources", JArr(items)), ("source_count", JInt(|items|))];
      Get3("message", JStr(message), "sources", JArr(items), "source_count", JInt(|items|), "message");
      Get3("message", JStr(message), "sources", JArr(items), "source_count", JInt(|items|), "sources");
      Get3("message", JStr(message), "sources", JArr(items), "source_count", JInt(|items|), "source_count");
      Some(JObj(fields))
  }

  // ---------------------------------------------------------------------
  // get_greeting_for_time

  /** `get_greeting_for_time`, given the current hour. */
  function GreetingForTime(hour: int): (r: string)
    ensures r == "Good morning" <==> 5 <= hour < 12
    ensures r == "Good afternoon" <==> 12 <= hour < 17
    ensures r == "Good evening" <==> 17 <= hour < 21
    ensures r == "Hello" <==> hour < 5 || 21 <= hour
  {
    if 5 <= hour < 12 then "Good morning"
    else if 12 <= hour < 17 then "Good afternoon"
    else if 17 <= hour < 21 then "Good evening"
    else "Hello"
  }

  /** Over a day the greeting changes exactly at 5, 12, 17 and 21
      o'clock. */
  lemma GreetingChanges(hour: int)
    requires 0 < hour < 24
    ensures GreetingForTime(hour) != GreetingForTime(hour - 1) <==> hour in {5, 12, 17, 21}
  {
  }

  // ---------------------------------------------------------------------
  // classify_query_intent

  const IntentGroups: seq<(seq<string>, string)> := [
    (["admission", "apply", "entrance", "eligibility", "fees", "cost"], "admissions"),
    (["course", "curriculum", "department", "subject", "faculty", "syllabus"], "academics"),
    (["facility", "lab", "library", "hostel", "canteen", "infrastructure"], "facilities"),
    (["placement", "job", "company", "salary", "internship", "career"], "placements"),
    (["club", "activity", "event", "sport", "cultural", "fest"], "campus_life")]

  /** `classify_query_intent`: the first group with a word occurring
      anywhere in the lower-cased query, else "general". */
  function ClassifyQueryIntent(query: string): (r: string)
    ensures r == "general" <==> forall g :: 0 <= g < |IntentGroups| ==> !AnyContained(Lower(query), IntentGroups[g].0)
    ensures r != "general" ==> exists g :: (0 <= g < |IntentGroups| && IntentGroups[g].1 == r
      && AnyContained(Lower(query), IntentGroups[g].0)
      && forall h :: 0 <= h < g ==> !AnyContained(Lower(query), IntentGroups[h].0))
  {
    match FirstGroupIn(Lower(query), IntentGroups)
    case Some(intent) => intent
    case None => "general"
  }

  /** The intent does not depend on the case of the query. */
  lemma IntentIgnoresCase(query: string)
    ensures ClassifyQueryIntent(Upper(query)) == ClassifyQueryIntent(query)
  {
    LowerUpper(query);
  }

  /** An admissions word anywhere in the query, even inside a longer
      word, makes it an admissions query, whatever else the query
      holds. */
  lemma AdmissionsWordWins(before: string, k: nat, after: string)
    requires k < |IntentGroups[0].0|
    ensures ClassifyQueryIntent(before + IntentGroups[0].0[k] + after) == "admissions"
  {
    var w := IntentGroups[0].0[k];
    var q := before + w + after;
    assert Lower(w) == w;
    assert Lower(q) == Lower(before) + w + Lower(after);
    assert OccursAt(Lower(q), w, |before|);
  }
}
