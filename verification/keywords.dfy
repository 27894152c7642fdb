/** `ContentProcessor._extract_keywords`: the most frequent content words of
    a text, most frequent first. */
module Keywords {
  import opened Text

  /** The stop-word set, as written (its repeated entries collapse). */
  const StopWords: set<string> := {
    "the", "and", "for", "are", "but", "not", "you", "all", "can", "had", "her", "was", "one",
    "our", "out", "day", "get", "has", "him", "his", "how", "its", "may", "new", "now", "old",
    "see", "two", "who", "boy", "did", "use", "way", "she", "many", "oil", "sit", "words",
    "long", "make", "thing", "more", "these", "go", "no", "man", "first", "been", "call",
    "find", "down", "come", "made", "part"
  }

  const DefaultMaxKeywords: int := 10

  /** A regular-expression word character (`\w`), ASCII only. */
  predicate IsWordChar(c: char) { IsAsciiLetter(c) || IsAsciiDigit(c) || c == '_' }

  predicate NotWordChar(c: char) { !IsWordChar(c) }

  /** What `\b[a-zA-Z]{3,}\b` matches: a whole run of word characters made
      of at least three letters. */
  predicate IsToken(w: string) { |w| >= 3 && AllChars(w, IsAsciiLetter) }

  /** The runs that are tokens, in order. */
  function TokenRuns(runs: seq<string>): (r: seq<string>)
    ensures |r| <= |runs|
    ensures Every(r, IsToken)
  {
    if |runs| == 0 then []
    else
      var here := if IsToken(runs[0]) then [runs[0]] else [];
      EveryAppend(here, TokenRuns(runs[1..]), IsToken);
      here + TokenRuns(runs[1..])
  }

  /** `re.findall(r'\b[a-zA-Z]{3,}\b', s)`. Both word boundaries force a
      match to span a maximal run of word characters, so the matches are
      the runs that consist of three or more letters. */
  function Tokens(s: string): (r: seq<string>)
    ensures Every(r, IsToken)
  {
    TokenRuns(SplitWhere(s, NotWordChar))
  }

  lemma {:induction false} TokenRunsKeep(ws: seq<string>)
    requires Every(ws, IsToken)
    ensures TokenRuns(ws) == ws
    decreases |ws|
  {
    if |ws| > 0 {
      assert IsToken(ws[0]);
      TokenRunsKeep(ws[1..]);
      assert [ws[0]] + ws[1..] == ws;
    }
  }

  /** Tokenising words joined by single spaces gives the words back. */
  lemma TokensOfSpaced(ws: seq<string>)
    requires Every(ws, IsToken)
    ensures Tokens(Join(ws, " ")) == ws
  {
    if |ws| == 0 {
      assert Tokens("") == TokenRuns([""]);
    } else {
      forall k, i | 0 <= k < |ws| && 0 <= i < |ws[k]| ensures !NotWordChar(ws[k][i]) {
        assert IsToken(ws[k]);
      }
      SplitWhereJoin(ws, ' ', NotWordChar);
      TokenRunsKeep(ws);
    }
  }

  /** A token that survives the stop-word and length filter. */
  predicate IsCandidate(w: string) { w !in StopWords && |w| > 3 }

  /** The tokens the frequency loop counts, in text order. */
  function Candidates(ws: seq<string>): (r: seq<string>)
    ensures |r| <= |ws|
    ensures Every(r, IsCandidate)
    ensures forall w :: w in r <==> w in ws && IsCandidate(w)
  {
    if |ws| == 0 then []
    else
      var here := if IsCandidate(ws[0]) then [ws[0]] else [];
      EveryAppend(here, Candidates(ws[1..]), IsCandidate);
      assert ws == [ws[0]] + ws[1..];
      here + Candidates(ws[1..])
  }

  /** A word-frequency dict, as its items in insertion order. */
  type FreqTable = seq<(string, nat)>

  /** `freq[w] = freq.get(w, 0) + 1`: bump an existing entry in place or
      append a new one. */
  function Bump(t: FreqTable, w: string): (r: FreqTable)
  {
    if |t| == 0 then [(w, 1)]
    else if t[0].0 == w then [(w, t[0].1 + 1)] + t[1..]
    else [t[0]] + Bump(t[1..], w)
  }

  /** The dict after counting every word of `ws` in order. */
  function Freq(ws: seq<string>): FreqTable
    decreases |ws|
  {
    if |ws| == 0 then [] else Bump(Freq(ws[..|ws| - 1]), ws[|ws| - 1])
  }

  predicate DistinctKeys(t: FreqTable) {
    forall i, j :: 0 <= i < j < |t| ==> t[i].0 != t[j].0
  }

  predicate HasKeyAt(t: FreqTable, w: string, i: int) {
    0 <= i < |t| && t[i].0 == w
  }

  /** Bumping a word already present increments its count in place. */
  lemma {:induction false} BumpPresent(t: FreqTable, w: string, i: nat)
    requires DistinctKeys(t) && HasKeyAt(t, w, i)
    ensures Bump(t, w) == t[i := (w, t[i].1 + 1)]
    decreases |t|
  {
    if i > 0 {
      assert t[0].0 != w;
      assert DistinctKeys(t[1..]) && HasKeyAt(t[1..], w, i - 1);
      BumpPresent(t[1..], w, i - 1);
      assert [t[0]] + t[1..][i - 1 := (w, t[i].1 + 1)] == t[i := (w, t[i].1 + 1)];
    }
  }

  /** Bumping a new word appends it with count one. */
  lemma {:induction false} BumpAbsent(t: FreqTable, w: string)
    requires forall i :: 0 <= i < |t| ==> t[i].0 != w
    ensures Bump(t, w) == t + [(w, 1)]
    decreases |t|
  {
    if |t| > 0 {
      BumpAbsent(t[1..], w);
      assert [t[0]] + (t[1..] + [(w, 1)]) == t + [(w, 1)];
    }
  }

  /** The position of the first occurrence of `w` in `ws`. */
  function IndexOf(ws: seq<string>, w: string): (r: nat)
    requires w in ws
    ensures r < |ws| && ws[r] == w
    ensures forall k :: 0 <= k < r ==> ws[k] != w
  {
    if ws[0] == w then 0 else 1 + IndexOf(ws[1..], w)
  }

  lemma IndexOfSnoc(ws: seq<string>, x: string, w: string)
    requires w in ws
    ensures IndexOf(ws + [x], w) == IndexOf(ws, w)
  {
    assert forall k :: 0 <= k < |ws| ==> (ws + [x])[k] == ws[k];
  }

  lemma IndexOfNew(ws: seq<string>, x: string)
    requires x !in ws
    ensures IndexOf(ws + [x], x) == |ws|
  {
    assert forall k :: 0 <= k < |ws| ==> (ws + [x])[k] == ws[k] != x;
  }

  /** Every entry is a word of `ws` with its number of occurrences. */
  ghost predicate Counted(t: FreqTable, ws: seq<string>) {
    forall i :: 0 <= i < |t| ==> t[i].0 in ws && t[i].1 == multiset(ws)[t[i].0]
  }

  /** Every word of `ws` has an entry. */
  ghost predicate Covers(t: FreqTable, ws: seq<string>) {
    forall w :: w in ws ==> exists i :: HasKeyAt(t, w, i)
  }

  /** Entries come in order of their word's first occurrence in `ws`. */
  ghost predicate FirstSeenOrder(t: FreqTable, ws: seq<string>)
    requires forall i :: 0 <= i < |t| ==> t[i].0 in ws
  {
    forall i, j :: 0 <= i < j < |t| ==> IndexOf(ws, t[i].0) < IndexOf(ws, t[j].0)
  }

  /** The dict holds exactly the words of `ws`, each once, in order of
      first occurrence, with its number of occurrences. */
  ghost predicate FreqOf(t: FreqTable, ws: seq<string>) {
    DistinctKeys(t) && Counted(t, ws) && Covers(t, ws) && FirstSeenOrder(t, ws)
  }

  lemma PresentCounted(t: FreqTable, p: seq<string>, x: string, i: nat)
    requires DistinctKeys(t) && Counted(t, p) && HasKeyAt(t, x, i)
    ensures Counted(t[i := (x, t[i].1 + 1)], p + [x])
  {
    assert multiset(p + [x]) == multiset(p) + multiset{x};
  }

  lemma PresentOrder(t: FreqTable, p: seq<string>, x: string, i: nat)
    requires Counted(t, p) && FirstSeenOrder(t, p) && HasKeyAt(t, x, i)
    requires Counted(t[i := (x, t[i].1 + 1)], p + [x])
    ensures FirstSeenOrder(t[i := (x, t[i].1 + 1)], p + [x])
  {
    var u := t[i := (x, t[i].1 + 1)];
    forall k | 0 <= k < |u| ensures IndexOf(p + [x], u[k].0) == IndexOf(p, t[k].0) {
      IndexOfSnoc(p, x, u[k].0);
    }
  }

  lemma PresentCovers(t: FreqTable, p: seq<string>, x: string, i: nat)
    requires Covers(t, p) && HasKeyAt(t, x, i)
    ensures Covers(t[i := (x, t[i].1 + 1)], p + [x])
  {
    var u := t[i := (x, t[i].1 + 1)];
    forall w | w in p + [x] ensures exists k :: HasKeyAt(u, w, k) {
      if w != x {
        assert w in p;
        var k :| HasKeyAt(t, w, k);
        assert HasKeyAt(u, w, k);
      } else {
        assert HasKeyAt(u, w, i);
      }
    }
  }

  lemma FreqStepPresent(t: FreqTable, p: seq<string>, x: string, i: nat)
    requires FreqOf(t, p) && HasKeyAt(t, x, i)
    ensures FreqOf(Bump(t, x), p + [x])
  {
    BumpPresent(t, x, i);
    PresentCounted(t, p, x, i);
    PresentOrder(t, p, x, i);
    PresentCovers(t, p, x, i);
  }

  lemma AbsentCounted(t: FreqTable, p: seq<string>, x: string)
    requires Counted(t, p) && x !in p
    ensures Counted(t + [(x, 1)], p + [x])
  {
    assert multiset(p + [x]) == multiset(p) + multiset{x};
  }

  lemma AbsentOrder(t: FreqTable, p: seq<string>, x: string)
    requires Counted(t, p) && FirstSeenOrder(t, p) && x !in p
    requires Counted(t + [(x, 1)], p + [x])
    ensures FirstSeenOrder(t + [(x, 1)], p + [x])
  {
    var u := t + [(x, 1)];
    IndexOfNew(p, x);
    forall k | 0 <= k < |t| ensures IndexOf(p + [x], u[k].0) == IndexOf(p, t[k].0) < |p| {
      IndexOfSnoc(p, x, u[k].0);
    }
  }

  lemma AbsentCovers(t: FreqTable, p: seq<string>, x: string)
    requires Covers(t, p)
    ensures Covers(t + [(x, 1)], p + [x])
  {
    var u := t + [(x, 1)];
    forall w | w in p + [x] ensures exists k :: HasKeyAt(u, w, k) {
      if w != x {
        var k :| HasKeyAt(t, w, k);
        assert HasKeyAt(u, w, k);
      } else {
        assert HasKeyAt(u, w, |t|);
      }
    }
  }

  lemma FreqStepAbsent(t: FreqTable, p: seq<string>, x: string)
    requires FreqOf(t, p) && x !in p
    ensures FreqOf(Bump(t, x), p + [x])
  {
    assert forall i :: 0 <= i < |t| ==> t[i].0 != x;
    BumpAbsent(t, x);
    AbsentCounted(t, p, x);
    AbsentOrder(t, p, x);
    AbsentCovers(t, p, x);
  }

  /** Counting words one by one builds their frequency dict. */
  lemma {:induction false} FreqCorrect(ws: seq<string>)
    ensures FreqOf(Freq(ws), ws)
    decreases |ws|
  {
    if |ws| > 0 {
      var p := ws[..|ws| - 1];
      var x := ws[|ws| - 1];
      assert ws == p + [x];
      FreqCorrect(p);
      if x in p {
        var i :| HasKeyAt(Freq(p), x, i);
        FreqStepPresent(Freq(p), p, x, i);
      } else {
        FreqStepAbsent(Freq(p), p, x);
      }
    }
  }

  /** A dict item together with its insertion position. */
  datatype Entry = Entry(word: string, count: nat, pos: nat)

  function Tag(t: FreqTable): (r: seq<Entry>)
    ensures |r| == |t|
    ensures forall i :: 0 <= i < |t| ==> r[i] == Entry(t[i].0, t[i].1, i)
  {
    seq(|t|, i requires 0 <= i < |t| => Entry(t[i].0, t[i].1, i))
  }

  /** The order `sorted(items, key=count, reverse=True)` produces: higher
      counts first, equal counts in their original order (Python's sort
      stays stable when reversed). */
  predicate Before(a: Entry, b: Entry) {
    a.count > b.count || (a.count == b.count && a.pos < b.pos)
  }

  predicate Ranked(s: seq<Entry>) {
    forall i, j :: 0 <= i < j < |s| ==> Before(s[i], s[j])
  }

  /** Insert `e` after every entry whose count is at least its own. */
  function Insert(e: Entry, s: seq<Entry>): (r: seq<Entry>)
    ensures multiset(r) == multiset(s) + multiset{e}
  {
    if |s| == 0 then [e]
    else if s[0].count >= e.count then
      assert s == [s[0]] + s[1..];
      [s[0]] + Insert(e, s[1..])
    else [e] + s
  }

  /** Stable insertion sort by descending count. */
  function Rank(t: seq<Entry>): (r: seq<Entry>)
    ensures multiset(r) == multiset(t)
    decreases |t|
  {
    if |t| == 0 then []
    else
      assert t == t[..|t| - 1] + [t[|t| - 1]];
      Insert(t[|t| - 1], Rank(t[..|t| - 1]))
  }

  /** Inserting an entry that came later than all others keeps the order. */
  lemma {:induction false} InsertRanked(e: Entry, s: seq<Entry>)
    requires Ranked(s)
    requires forall k :: 0 <= k < |s| ==> s[k].pos < e.pos
    ensures Ranked(Insert(e, s))
    decreases |s|
  {
    if |s| > 0 {
      var r := Insert(e, s);
      if s[0].count >= e.count {
        var tail := Insert(e, s[1..]);
        InsertRanked(e, s[1..]);
        forall j | 0 <= j < |tail| ensures Before(s[0], tail[j]) {
          assert tail[j] in multiset(tail);
          if tail[j] != e {
            assert tail[j] in s[1..];
          }
        }
        assert r == [s[0]] + tail;
      } else {
        assert forall k :: 0 < k < |s| ==> Before(s[0], s[k]);
      }
    }
  }

  /** Sorting entries tagged in increasing position ranks them. */
  lemma {:induction false} RankRanked(t: seq<Entry>)
    requires forall i, j :: 0 <= i < j < |t| ==> t[i].pos < t[j].pos
    ensures Ranked(Rank(t))
    decreases |t|
  {
    if |t| > 0 {
      var p := t[..|t| - 1];
      var e := t[|t| - 1];
      RankRanked(p);
      var s := Rank(p);
      forall k | 0 <= k < |s| ensures s[k].pos < e.pos {
        assert s[k] in multiset(p);
      }
      InsertRanked(e, s);
    }
  }

  /** How many items `xs[:n]` keeps of a list of `len` items: a negative
      `n` counts from the end. */
  function SliceCount(len: nat, n: int): (r: nat)
    ensures r <= len
    ensures 0 <= n ==> r <= n && (r < n ==> r == len)
    ensures n < 0 ==> r + -n >= len
  {
    if n >= 0 then (if n < len then n else len)
    else if len + n > 0 then len + n else 0
  }

  function Words(s: seq<Entry>): (r: seq<string>)
    ensures |r| == |s| && forall i :: 0 <= i < |s| ==> r[i] == s[i].word
  {
    seq(|s|, i requires 0 <= i < |s| => s[i].word)
  }

  /** The counted words of a text: lower-cased tokens that pass the
      filter, in text order. */
  function CandidateWords(text: string): seq<string> {
    Candidates(Tokens(Lower(text)))
  }

  /** All counted words, most frequent first. */
  function Ranking(text: string): seq<Entry> {
    Rank(Tag(Freq(CandidateWords(text))))
  }

  /** `_extract_keywords(text, max_keywords)`. */
  function ExtractKeywords(text: string, maxKeywords: int): (r: seq<string>)
    ensures text == [] ==> r == []
    ensures 0 <= maxKeywords ==> |r| <= maxKeywords
  {
    if text == [] then []
    else
      var ranked := Ranking(text);
      Words(ranked[..SliceCount(|ranked|, maxKeywords)])
  }

  /** Each dict item names a counted word and carries its number of
      occurrences. */
  lemma FreqItem(ws: seq<string>, a: nat)
    requires a < |Freq(ws)|
    ensures Freq(ws)[a].0 in ws && Freq(ws)[a].1 == multiset(ws)[Freq(ws)[a].0]
  {
    FreqCorrect(ws);
  }

  /** Distinct dict items hold distinct words. */
  lemma FreqDistinct(ws: seq<string>, a: nat, b: nat)
    requires a < |Freq(ws)| && b < |Freq(ws)| && a != b
    ensures Freq(ws)[a].0 != Freq(ws)[b].0
  {
    FreqCorrect(ws);
  }

  /** Every counted word has a dict item. */
  lemma FreqFind(ws: seq<string>, w: string) returns (a: nat)
    requires w in ws
    ensures HasKeyAt(Freq(ws), w, a)
  {
    FreqCorrect(ws);
    a :| HasKeyAt(Freq(ws), w, a);
  }

  /** Dict items come in order of first occurrence. */
  lemma FreqOrder(ws: seq<string>, a: nat, b: nat)
    requires a < b < |Freq(ws)|
    ensures Freq(ws)[a].0 in ws && Freq(ws)[b].0 in ws
    ensures IndexOf(ws, Freq(ws)[a].0) < IndexOf(ws, Freq(ws)[b].0)
  {
    FreqCorrect(ws);
  }

  lemma RankingRanked(text: string)
    ensures Ranked(Ranking(text))
  {
    RankRanked(Tag(Freq(CandidateWords(text))));
  }

  /** Every entry of the ranking is the tagged dict item at its position. */
  lemma RankedEntry(text: string, i: nat)
    requires i < |Ranking(text)|
    ensures var e := Ranking(text)[i]; var t := Freq(CandidateWords(text));
      e.pos < |t| && e == Entry(t[e.pos].0, t[e.pos].1, e.pos)
  {
    var tagged := Tag(Freq(CandidateWords(text)));
    assert Ranking(text)[i] in multiset(tagged);
  }

  /** Every dict item appears in the ranking. */
  lemma RankedFind(text: string, a: nat) returns (j: nat)
    requires a < |Freq(CandidateWords(text))|
    ensures j < |Ranking(text)| && Ranking(text)[j].pos == a
  {
    var tagged := Tag(Freq(CandidateWords(text)));
    assert tagged[a] in multiset(Ranking(text));
    j :| 0 <= j < |Ranking(text)| && Ranking(text)[j] == tagged[a];
  }

  /** The `i`-th keyword is the word of the `i`-th ranked entry. */
  lemma KeywordEntry(text: string, maxKeywords: int, i: nat)
    requires i < |ExtractKeywords(text, maxKeywords)|
    ensures i < |Ranking(text)| && ExtractKeywords(text, maxKeywords)[i] == Ranking(text)[i].word
  {
  }

  /** Every keyword is a counted word of the text, and no keyword repeats. */
  lemma KeywordsAreDistinctCandidates(text: string, maxKeywords: int)
    ensures forall i :: 0 <= i < |ExtractKeywords(text, maxKeywords)| ==>
      ExtractKeywords(text, maxKeywords)[i] in CandidateWords(text)
    ensures forall i, j :: 0 <= i < j < |ExtractKeywords(text, maxKeywords)| ==>
      ExtractKeywords(text, maxKeywords)[i] != ExtractKeywords(text, maxKeywords)[j]
  {
    var r := ExtractKeywords(text, maxKeywords);
    var ranked := Ranking(text);
    var cw := CandidateWords(text);
    forall i | 0 <= i < |r| ensures r[i] in cw {
      KeywordEntry(text, maxKeywords, i);
      RankedEntry(text, i);
      FreqItem(cw, ranked[i].pos);
    }
    forall i, j | 0 <= i < j < |r| ensures r[i] != r[j] {
      KeywordEntry(text, maxKeywords, i);
      KeywordEntry(text, maxKeywords, j);
      RankedEntry(text, i);
      RankedEntry(text, j);
      RankingRanked(text);
      assert Before(ranked[i], ranked[j]);
      FreqDistinct(cw, ranked[i].pos, ranked[j].pos);
    }
  }

  /** The keywords are the most frequent counted words: a counted word left
      out occurs no more often than any keyword, and is left out only when
      the list is full. */
  lemma KeywordsTop(text: string, maxKeywords: int, w: string, v: string)
    requires w in CandidateWords(text) && w !in ExtractKeywords(text, maxKeywords)
    requires v in ExtractKeywords(text, maxKeywords)
    ensures multiset(CandidateWords(text))[w] <= multiset(CandidateWords(text))[v]
    ensures 0 <= maxKeywords ==> |ExtractKeywords(text, maxKeywords)| == maxKeywords
  {
    var cw := CandidateWords(text);
    var r := ExtractKeywords(text, maxKeywords);
    var ranked := Ranking(text);
    var a := FreqFind(cw, w);
    FreqItem(cw, a);
    var j := RankedFind(text, a);
    RankedEntry(text, j);
    var i :| 0 <= i < |r| && r[i] == v;
    KeywordEntry(text, maxKeywords, i);
    RankedEntry(text, i);
    FreqItem(cw, ranked[i].pos);
    assert j >= |r| by {
      assert forall k :: 0 <= k < |r| ==> r[k] == ranked[k].word;
    }
    RankingRanked(text);
    assert Before(ranked[i], ranked[j]);
  }

  /** Keywords of equal frequency come in order of first occurrence. */
  lemma KeywordsTieOrder(text: string, maxKeywords: int, i: nat, j: nat)
    requires i < j < |ExtractKeywords(text, maxKeywords)|
    requires multiset(CandidateWords(text))[ExtractKeywords(text, maxKeywords)[i]]
          == multiset(CandidateWords(text))[ExtractKeywords(text, maxKeywords)[j]]
    ensures ExtractKeywords(text, maxKeywords)[i] in CandidateWords(text)
    ensures ExtractKeywords(text, maxKeywords)[j] in CandidateWords(text)
    ensures IndexOf(CandidateWords(text), ExtractKeywords(text, maxKeywords)[i])
          < IndexOf(CandidateWords(text), ExtractKeywords(text, maxKeywords)[j])
  {
    var cw := CandidateWords(text);
    var ranked := Ranking(text);
    KeywordEntry(text, maxKeywords, i);
    KeywordEntry(text, maxKeywords, j);
    RankedEntry(text, i);
    RankedEntry(text, j);
    FreqItem(cw, ranked[i].pos);
    FreqItem(cw, ranked[j].pos);
    RankingRanked(text);
    assert Before(ranked[i], ranked[j]);
    FreqOrder(cw, ranked[i].pos, ranked[j].pos);
  }
}
