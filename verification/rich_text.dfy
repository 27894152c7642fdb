/** `ContentProcessor._extract_rich_text`: plain text from a Lexical
    rich-text tree (`root` → paragraphs, headings, lists, links, text
    leaves). A Python exception raised anywhere in the walk is `None`. */
module RichText {
  import opened Options
  import opened Text
  import opened Json

  /** The bullet prefix as the source spells it: the UTF-8 bytes of `•`
      read back as Windows-1252 (`â€¢`), then a space. */
  const Bullet: string := "\U{00E2}\U{20AC}\U{00A2} "

  /** `t.strip()` is truthy. */
  predicate Shows(t: string) { Strip(t) != [] }

  /** `node.get('type') == name`. */
  predicate TypeIs(node: Json, name: string) { Get(node, "type") == Some(JStr(name)) }

  /** `c * n` for a one-character string. */
  function Repeat(c: char, n: nat): (r: string)
    ensures |r| == n && forall i :: 0 <= i < n ==> r[i] == c
  {
    if n == 0 then [] else [c] + Repeat(c, n - 1)
  }

  predicate IsDigits(s: string) {
    s != [] && forall i :: 0 <= i < |s| ==> IsAsciiDigit(s[i])
  }

  /** The heading depth `int(tag[1]) if len(tag) > 1 and tag[1].isdigit()
      else 3`, for whatever value `tag` holds: a string gives its second
      character's digit; a list gives its second element's value when that
      is a digit string; a dict of two or more keys fails on `tag[1]`;
      `len` fails on scalars. */
  function HeadingLevel(tag: Json): (r: Option<nat>)
    ensures tag.JStr? ==> r.Some? && r.value <= 9
  {
    match tag
    case JStr(s) =>
      if |s| > 1 && IsAsciiDigit(s[1]) then Some(s[1] as int - '0' as int) else Some(3)
    case JArr(items) =>
      if |items| <= 1 then Some(3)
      else if !items[1].JStr? then None
      else if IsDigits(items[1].s) then Some(DigitsValue(items[1].s))
      else Some(3)
    case JObj(fields) => if |fields| <= 1 then Some(3) else None
    case _ => None
  }

  /** `extract_text_recursive(node)`. */
  function Extract(node: Json, repr: Json -> string): Option<string>
    decreases node, 3, 0
  {
    match node
    case JStr(s) => Some(s)
    case JArr(_) =>
      (match ItemTexts(node, 0, repr)
       case None => None
       case Some(ts) => Some(Join(ts, " ")))
    case JObj(_) => ExtractObject(node, repr)
    case _ => Some("")
  }

  /** The texts of `children[i:]` that show something, each child walked
      in turn. */
  function ItemTexts(children: Json, i: nat, repr: Json -> string): (r: Option<seq<string>>)
    requires children.JArr? && i <= |children.items|
    ensures r.Some? ==> forall k :: 0 <= k < |r.value| ==> Shows(r.value[k])
    decreases children, 1, |children.items| - i
  {
    if i == |children.items| then Some([])
    else
      match Extract(children.items[i], repr)
      case None => None
      case Some(t) =>
        match ItemTexts(children, i + 1, repr)
        case None => None
        case Some(rest) => Some((if Shows(t) then [t] else []) + rest)
  }

  /** The texts of the children a `for child in node['children']` loop
      visits that show something: list elements are walked; a string
      yields its characters and a dict its keys, each its own text;
      anything else is not iterable. */
  function ChildTexts(children: Json, repr: Json -> string): (r: Option<seq<string>>)
    ensures r.Some? ==> forall k :: 0 <= k < |r.value| ==> Shows(r.value[k])
    decreases children, 2, 0
  {
    match children
    case JArr(_) => ItemTexts(children, 0, repr)
    case JStr(s) => Some(ShownChars(s))
    case JObj(fields) => Some(ShownKeys(fields))
    case _ => None
  }

  function ShownChars(s: string): (r: seq<string>)
    ensures forall k :: 0 <= k < |r| ==> Shows(r[k])
  {
    if |s| == 0 then []
    else (if Shows([s[0]]) then [[s[0]]] else []) + ShownChars(s[1..])
  }

  function ShownKeys(fields: seq<(string, Json)>): (r: seq<string>)
    ensures forall k :: 0 <= k < |r| ==> Shows(r[k])
  {
    if |fields| == 0 then []
    else (if Shows(fields[0].0) then [fields[0].0] else []) + ShownKeys(fields[1..])
  }

  /** One rendered list item: numbered from one by its position among all
      children when `listType` is `"number"`, bulleted otherwise. */
  function ListLine(listType: Json, position: nat, text: string): string {
    if listType == JStr("number") then NatStr(position) + ". " + Strip(text)
    else Bullet + Strip(text)
  }

  /** The rendered items of `children[i:]` of a list node. Every child
      must answer `.get`, so must be a dict; only `listitem` children that
      show something are rendered. */
  function ListLinesFrom(children: Json, i: nat, listType: Json, repr: Json -> string): Option<seq<string>>
    requires children.JArr? && i <= |children.items|
    decreases children, 1, |children.items| - i
  {
    if i == |children.items| then Some([])
    else
      var child := children.items[i];
      if !child.JObj? then None
      else
        var here: Option<seq<string>> :=
          if !TypeIs(child, "listitem") then Some([])
          else
            match Extract(child, repr)
            case None => None
            case Some(t) => Some(if Shows(t) then [ListLine(listType, i + 1, t)] else []);
        match here
        case None => None
        case Some(h) =>
          match ListLinesFrom(children, i + 1, listType, repr)
          case None => None
          case Some(rest) => Some(h + rest)
  }

  /** The list loop over any children value: an empty string or dict has
      nothing to visit; a non-empty one yields strings, which have no
      `.get`. */
  function ListLines(children: Json, listType: Json, repr: Json -> string): Option<seq<string>>
    decreases children, 2, 0
  {
    match children
    case JArr(_) => ListLinesFrom(children, 0, listType, repr)
    case JStr(s) => if s == [] then Some([]) else None
    case JObj(fields) => if fields == [] then Some([]) else None
    case _ => None
  }

  /** The texts of a node's children, or none when it has no `children`
      key. */
  function OwnChildTexts(node: Json, repr: Json -> string): Option<seq<string>>
    decreases node, 2, 1
  {
    match Get(node, "children")
    case None => Some([])
    case Some(c) => ChildTexts(c, repr)
  }

  /** The rendered items of a list node's children, or none when it has no
      `children` key. */
  function OwnListLines(node: Json, repr: Json -> string): Option<seq<string>>
    decreases node, 2, 1
  {
    match Get(node, "children")
    case None => Some([])
    case Some(c) => ListLines(c, GetOr(node, "listType", JStr("bullet")), repr)
  }

  /** The parts a dict node collects before looking at its type: the
      texts of list-valued `children` that show something. */
  function Collected(node: Json, repr: Json -> string): Option<seq<string>>
    decreases node, 2, 1
  {
    var ch := Get(node, "children");
    if ch.Some? && ch.value.JArr? then ItemTexts(ch.value, 0, repr) else Some([])
  }

  /** The `url` of a link node's `fields`, `''` when absent. */
  function LinkUrl(node: Json): Option<Json> {
    match Get(node, "fields")
    case None => Some(JStr(""))
    case Some(fields) =>
      match In("url", fields)
      case None => None
      case Some(false) => Some(JStr(""))
      case Some(true) => Subscript(fields, "url")
  }

  /** `' '.join(text_parts)`: the own `text`, the collected child texts and
      a newline for a `linebreak`; fails when `text` is not a string. */
  function Joined(node: Json, collected: seq<string>): Option<string> {
    var own := Get(node, "text");
    var lb := if TypeIs(node, "linebreak") then ["\n"] else [];
    if own.Some? && !own.value.JStr? then None
    else Some(Join((if own.Some? then [own.value.s] else []) + collected + lb, " "))
  }

  function RenderHeading(node: Json, kids: Option<seq<string>>, joined: Option<string>): Option<string> {
    match HeadingLevel(GetOr(node, "tag", JStr("h3")))
    case None => None
    case Some(level) =>
      match kids
      case None => None
      case Some(ts) =>
        if ts != [] then Some("\n\n" + Repeat('#', level) + " " + Join(ts, " ") + "\n\n") else joined
  }

  function RenderParagraph(kids: Option<seq<string>>, joined: Option<string>): Option<string> {
    match kids
    case None => None
    case Some(ts) => if ts != [] then Some(Join(ts, " ") + "\n\n") else joined
  }

  function RenderList(lines: Option<seq<string>>, joined: Option<string>): Option<string> {
    match lines
    case None => None
    case Some(ls) => if ls != [] then Some("\n" + Join(ls, "\n") + "\n\n") else joined
  }

  function RenderListItem(kids: Option<seq<string>>): Option<string> {
    match kids
    case None => None
    case Some(ts) => Some(Join(ts, " "))
  }

  function RenderLink(node: Json, kids: Option<seq<string>>, repr: Json -> string): Option<string> {
    match kids
    case None => None
    case Some(ts) =>
      var text := Join(ts, " ");
      match LinkUrl(node)
      case None => None
      case Some(url) => if Truthy(url) && text != [] then Some(text + " [URL: " + Str(url, repr) + "]") else Some(text)
  }

  /** What a dict node renders to, given what walking its children gave:
      `collected` (list-valued children, walked first), `kids` (the
      children a type-specific loop visits) and `lines` (the rendered list
      items). A heading, a paragraph, a list, a list item or a link with
      something to show returns its own rendering; otherwise the collected
      parts are joined. */
  function Render(node: Json, collected: Option<seq<string>>, kids: Option<seq<string>>,
                  lines: Option<seq<string>>, repr: Json -> string): Option<string>
  {
    match collected
    case None => None
    case Some(c) =>
      var joined := Joined(node, c);
      if TypeIs(node, "heading") then RenderHeading(node, kids, joined)
      else if TypeIs(node, "paragraph") && HasKey(node, "children") then RenderParagraph(kids, joined)
      else if TypeIs(node, "list") then RenderList(lines, joined)
      else if TypeIs(node, "listitem") then RenderListItem(kids)
      else if TypeIs(node, "link") then RenderLink(node, kids, repr)
      else joined
  }

  /** The walk of a dict node. */
  function ExtractObject(node: Json, repr: Json -> string): Option<string>
    requires node.JObj?
    decreases node, 2, 2
  {
    Render(node, Collected(node, repr), OwnChildTexts(node, repr), OwnListLines(node, repr), repr)
  }

  predicate IsNewline(c: char) { c == '\n' }
  predicate NotNewline(c: char) { c != '\n' }

  /** The final clean-up: split at `\n`, strip every line, drop empty ones
      and separate the rest by one blank line. */
  function Tidy(text: string): string {
    Join(StrippedNonEmpty(SplitWhere(text, IsNewline)), "\n\n")
  }

  /** `_extract_rich_text(content_data)`: `""` for a non-dict; otherwise
      the walk starts at `root` when present, else at the dict itself. */
  function ExtractRichText(content: Json, repr: Json -> string): (r: Option<string>)
    ensures !content.JObj? ==> r == Some("")
  {
    if !content.JObj? then Some("")
    else
      var start := if HasKey(content, "root") then Get(content, "root").value else content;
      match Extract(start, repr)
      case None => None
      case Some(t) => Some(Tidy(t))
  }

  /** A tidy line: non-empty, stripped, without a newline. */
  ghost predicate IsTidyLine(l: string) { IsPhrase(l) && AllChars(l, NotNewline) }

  /** The lines the clean-up keeps are tidy lines. */
  lemma TidyLines(text: string)
    ensures Every(StrippedNonEmpty(SplitWhere(text, IsNewline)), IsTidyLine)
  {
    var pieces := SplitWhere(text, IsNewline);
    assert forall k :: 0 <= k < |pieces| ==> AllChars(pieces[k], NotNewline);
    StrippedPiecesAllChars(pieces, NotNewline);
  }

  /** A newline-free line followed by a blank line splits into the line
      and an empty piece. */
  lemma SplitBlankLine(l: string, rest: string)
    requires AllChars(l, NotNewline)
    ensures SplitWhere(l + "\n\n" + rest, IsNewline) == [l, []] + SplitWhere(rest, IsNewline)
  {
    assert l + "\n\n" + rest == l + ['\n'] + (['\n'] + rest);
    SplitWherePrefix(l, '\n', ['\n'] + rest, IsNewline);
    assert [] + ['\n'] + rest == ['\n'] + rest;
    SplitWherePrefix([], '\n', rest, IsNewline);
  }

  /** The strip-and-drop pass keeps a stripped line and drops an empty
      piece. */
  lemma StrippedLineThenEmpty(l: string, xs: seq<string>)
    requires IsPhrase(l)
    ensures StrippedNonEmpty([l, []] + xs) == [l] + StrippedNonEmpty(xs)
  {
    StripTrimmed(l);
    var split := [l, []] + xs;
    assert split[1..] == [[]] + xs;
    assert split[1..][1..] == xs;
  }

  /** Tidy lines survive a second clean-up unchanged. */
  lemma {:induction false} TidyKeeps(ls: seq<string>)
    requires Every(ls, IsTidyLine)
    ensures StrippedNonEmpty(SplitWhere(Join(ls, "\n\n"), IsNewline)) == ls
    decreases |ls|
  {
    if |ls| == 1 {
      assert IsTidyLine(ls[0]);
      SplitWhereNone(ls[0], IsNewline);
      StripTrimmed(ls[0]);
    } else if |ls| > 1 {
      assert IsTidyLine(ls[0]);
      assert Every(ls[1..], IsTidyLine);
      TidyKeeps(ls[1..]);
      SplitBlankLine(ls[0], Join(ls[1..], "\n\n"));
      StrippedLineThenEmpty(ls[0], SplitWhere(Join(ls[1..], "\n\n"), IsNewline));
      assert [ls[0]] + ls[1..] == ls;
    }
  }

  /** Cleaning up twice is cleaning up once. */
  lemma TidyIdempotent(text: string)
    ensures Tidy(Tidy(text)) == Tidy(text)
  {
    TidyLines(text);
    TidyKeeps(StrippedNonEmpty(SplitWhere(text, IsNewline)));
  }

  /** The extracted text is already clean: its lines are stripped,
      non-empty and separated by exactly one blank line. */
  lemma RichTextTidy(content: Json, repr: Json -> string)
    requires ExtractRichText(content, repr).Some?
    ensures Tidy(ExtractRichText(content, repr).value) == ExtractRichText(content, repr).value
  {
    if content.JObj? {
      var start := if HasKey(content, "root") then Get(content, "root").value else content;
      TidyIdempotent(Extract(start, repr).value);
    }
  }

  /** A text leaf `{"text": w}`. */
  function Leaf(w: string): Json { JObj([("text", JStr(w))]) }

  lemma LeafText(w: string, repr: Json -> string)
    ensures Extract(Leaf(w), repr) == Some(w)
  {
    var leaf := Leaf(w);
    Get1("text", JStr(w), "children");
    Get1("text", JStr(w), "type");
    Get1("text", JStr(w), "text");
    assert Collected(leaf, repr) == Some([]);
    assert [w] + [] + [] == [w];
    assert Joined(leaf, []) == Some(w);
  }

  /** A dict node is rendered from the results of walking its children. */
  lemma ExtractIsRender(node: Json, repr: Json -> string)
    requires node.JObj?
    ensures Extract(node, repr) ==
      Render(node, Collected(node, repr), OwnChildTexts(node, repr), OwnListLines(node, repr), repr)
  {
  }

  lemma RenderHeadingShown(node: Json, ts: seq<string>, d: nat, lines: Option<seq<string>>, repr: Json -> string)
    requires TypeIs(node, "heading") && HeadingLevel(GetOr(node, "tag", JStr("h3"))) == Some(d) && ts != []
    ensures Render(node, Some(ts), Some(ts), lines, repr) == Some("\n\n" + Repeat('#', d) + " " + Join(ts, " ") + "\n\n")
  {
  }

  lemma RenderParagraphShown(node: Json, ts: seq<string>, lines: Option<seq<string>>, repr: Json -> string)
    requires TypeIs(node, "paragraph") && HasKey(node, "children") && ts != []
    ensures Render(node, Some(ts), Some(ts), lines, repr) == Some(Join(ts, " ") + "\n\n")
  {
  }

  lemma RenderListItemShown(node: Json, ts: seq<string>, lines: Option<seq<string>>, repr: Json -> string)
    requires TypeIs(node, "listitem")
    ensures Render(node, Some(ts), Some(ts), lines, repr) == Some(Join(ts, " "))
  {
  }

  lemma RenderLinkShown(node: Json, ts: seq<string>, url: string, lines: Option<seq<string>>, repr: Json -> string)
    requires TypeIs(node, "link") && LinkUrl(node) == Some(JStr(url)) && url != [] && Join(ts, " ") != []
    ensures Render(node, Some(ts), Some(ts), lines, repr) == Some(Join(ts, " ") + " [URL: " + url + "]")
  {
    LinkTypeOnly(node);
    assert Render(node, Some(ts), Some(ts), lines, repr) == RenderLink(node, Some(ts), repr);
  }

  /** A link node is none of the other rendered types. */
  lemma LinkTypeOnly(node: Json)
    requires TypeIs(node, "link")
    ensures !TypeIs(node, "heading") && !TypeIs(node, "paragraph") && !TypeIs(node, "list") && !TypeIs(node, "listitem")
  {
    assert "link"[3] != "list"[3];
  }

  /** A paragraph whose children list yields texts `ts` renders as the
      texts joined by spaces, ending with a blank line. */
  lemma ParagraphRender(kids: Json, ts: seq<string>, repr: Json -> string)
    requires kids.JArr? && ItemTexts(kids, 0, repr) == Some(ts) && ts != []
    ensures Extract(JObj([("type", JStr("paragraph")), ("children", kids)]), repr) == Some(Join(ts, " ") + "\n\n")
  {
    var node := JObj([("type", JStr("paragraph")), ("children", kids)]);
    Get2("type", JStr("paragraph"), "children", kids, "type");
    Get2("type", JStr("paragraph"), "children", kids, "children");
    assert Collected(node, repr) == Some(ts);
    assert OwnChildTexts(node, repr) == Some(ts);
    ExtractIsRender(node, repr);
    RenderParagraphShown(node, ts, OwnListLines(node, repr), repr);
  }

  /** A list item renders as its children's texts joined by spaces, even
      when there are none. */
  lemma ListItemRender(kids: Json, ts: seq<string>, repr: Json -> string)
    requires kids.JArr? && ItemTexts(kids, 0, repr) == Some(ts)
    ensures Extract(JObj([("type", JStr("listitem")), ("children", kids)]), repr) == Some(Join(ts, " "))
  {
    var node := JObj([("type", JStr("listitem")), ("children", kids)]);
    Get2("type", JStr("listitem"), "children", kids, "type");
    Get2("type", JStr("listitem"), "children", kids, "children");
    assert Collected(node, repr) == Some(ts);
    assert OwnChildTexts(node, repr) == Some(ts);
    ExtractIsRender(node, repr);
    RenderListItemShown(node, ts, OwnListLines(node, repr), repr);
  }

  /** A heading whose children list yields texts `ts` renders as
      hash marks for its level and the texts, set off by blank lines. */
  lemma HeadingRender(tag: string, kids: Json, ts: seq<string>, d: nat, repr: Json -> string)
    requires kids.JArr? && ItemTexts(kids, 0, repr) == Some(ts) && ts != []
    requires HeadingLevel(JStr(tag)) == Some(d)
    ensures Extract(JObj([("type", JStr("heading")), ("tag", JStr(tag)), ("children", kids)]), repr)
         == Some("\n\n" + Repeat('#', d) + " " + Join(ts, " ") + "\n\n")
  {
    var node := JObj([("type", JStr("heading")), ("tag", JStr(tag)), ("children", kids)]);
    Get3("type", JStr("heading"), "tag", JStr(tag), "children", kids, "type");
    Get3("type", JStr("heading"), "tag", JStr(tag), "children", kids, "tag");
    Get3("type", JStr("heading"), "tag", JStr(tag), "children", kids, "children");
    assert Collected(node, repr) == Some(ts);
    assert OwnChildTexts(node, repr) == Some(ts);
    ExtractIsRender(node, repr);
    RenderHeadingShown(node, ts, d, OwnListLines(node, repr), repr);
  }

  /** A link whose children yield texts `ts` and whose `fields` hold a
      non-empty `url` renders its text followed by the URL. */
  lemma LinkRender(kids: Json, ts: seq<string>, url: string, repr: Json -> string)
    requires kids.JArr? && ItemTexts(kids, 0, repr) == Some(ts) && Join(ts, " ") != []
    requires url != []
    ensures Extract(JObj([("type", JStr("link")), ("children", kids), ("fields", JObj([("url", JStr(url))]))]), repr)
         == Some(Join(ts, " ") + " [URL: " + url + "]")
  {
    var fields := JObj([("url", JStr(url))]);
    var node := JObj([("type", JStr("link")), ("children", kids), ("fields", fields)]);
    Get3("type", JStr("link"), "children", kids, "fields", fields, "type");
    Get3("type", JStr("link"), "children", kids, "fields", fields, "children");
    Get3("type", JStr("link"), "children", kids, "fields", fields, "fields");
    Get1("url", JStr(url), "url");
    assert Collected(node, repr) == Some(ts);
    assert OwnChildTexts(node, repr) == Some(ts);
    ExtractIsRender(node, repr);
    assert LinkUrl(node) == Some(JStr(url));
    RenderLinkShown(node, ts, url, OwnListLines(node, repr), repr);
  }

  // ---------------------------------------------------------------------
  // Lists and links

  /** Child `k` is a list item whose walk shows `texts[k]`. */
  predicate ShownItemAt(children: Json, k: nat, texts: seq<string>, repr: Json -> string)
    requires children.JArr? && k < |children.items| && k < |texts|
  {
    children.items[k].JObj? && TypeIs(children.items[k], "listitem")
    && Extract(children.items[k], repr) == Some(texts[k]) && Shows(texts[k])
  }

  /** Every child from `i` on is a list item that shows its text. */
  predicate AllShownFrom(children: Json, i: nat, texts: seq<string>, repr: Json -> string)
    requires children.JArr? && |texts| == |children.items|
    decreases |children.items| - i
  {
    i >= |children.items| || (ShownItemAt(children, i, texts, repr) && AllShownFrom(children, i + 1, texts, repr))
  }

  lemma {:induction false} AllShown(children: Json, i: nat, texts: seq<string>, repr: Json -> string)
    requires children.JArr? && |texts| == |children.items|
    requires forall k :: i <= k < |children.items| ==> ShownItemAt(children, k, texts, repr)
    ensures AllShownFrom(children, i, texts, repr)
    decreases |children.items| - i
  {
    if i < |children.items| {
      forall k | i + 1 <= k < |children.items| ensures ShownItemAt(children, k, texts, repr) {
      }
      AllShown(children, i + 1, texts, repr);
      assert ShownItemAt(children, i, texts, repr);
    }
  }

  /** The lines of items `texts[i..]`, item `k` numbered `k + 1`. */
  function NumberedLines(listType: Json, texts: seq<string>, i: nat): seq<string>
    decreases |texts| - i
  {
    if i >= |texts| then [] else [ListLine(listType, i + 1, texts[i])] + NumberedLines(listType, texts, i + 1)
  }

  lemma {:induction false} NumberedLinesAt(listType: Json, texts: seq<string>, i: nat)
    requires i <= |texts|
    ensures |NumberedLines(listType, texts, i)| == |texts| - i
    ensures forall j :: 0 <= j < |texts| - i ==>
      NumberedLines(listType, texts, i)[j] == ListLine(listType, i + j + 1, texts[i + j])
    decreases |texts| - i
  {
    if i < |texts| {
      NumberedLinesAt(listType, texts, i + 1);
      var rest := NumberedLines(listType, texts, i + 1);
      var ls := NumberedLines(listType, texts, i);
      assert ls == [ListLine(listType, i + 1, texts[i])] + rest;
      forall j | 0 <= j < |texts| - i ensures ls[j] == ListLine(listType, i + j + 1, texts[i + j]) {
        if j > 0 {
          assert ls[j] == rest[j - 1];
        }
      }
    }
  }

  /** When every child from `i` on is a list item that shows something,
      the rendered lines are those items in order, item `k` numbered by
      its position `k + 1` among all children. */
  lemma {:induction false} ListLinesOfItems(children: Json, i: nat, listType: Json, texts: seq<string>,
                                            repr: Json -> string)
    requires children.JArr? && i <= |children.items| && |texts| == |children.items|
    requires AllShownFrom(children, i, texts, repr)
    ensures ListLinesFrom(children, i, listType, repr) == Some(NumberedLines(listType, texts, i))
    decreases |children.items| - i
  {
    if i < |children.items| {
      ListLinesOfItems(children, i + 1, listType, texts, repr);
      ListLinesCons(children, i, listType, texts, repr);
    } else {
      ListLinesEnd(children, listType, repr);
      assert NumberedLines(listType, texts, i) == [];
    }
  }

  lemma ListLinesCons(children: Json, i: nat, listType: Json, texts: seq<string>, repr: Json -> string)
    requires children.JArr? && i < |children.items| && |texts| == |children.items|
    requires ShownItemAt(children, i, texts, repr)
    requires ListLinesFrom(children, i + 1, listType, repr) == Some(NumberedLines(listType, texts, i + 1))
    ensures ListLinesFrom(children, i, listType, repr) == Some(NumberedLines(listType, texts, i))
  {
    ListItemStep(children, i, listType, texts[i], NumberedLines(listType, texts, i + 1), repr);
    assert NumberedLines(listType, texts, i) == [ListLine(listType, i + 1, texts[i])] + NumberedLines(listType, texts, i + 1);
  }

  lemma ListLinesEnd(children: Json, listType: Json, repr: Json -> string)
    requires children.JArr?
    ensures ListLinesFrom(children, |children.items|, listType, repr) == Some([])
  {
  }

  /** A list item that shows `t` adds its line in front of the lines of
      the children after it. */
  lemma ListItemStep(children: Json, i: nat, listType: Json, t: string, rest: seq<string>, repr: Json -> string)
    requires children.JArr? && i < |children.items|
    requires children.items[i].JObj? && TypeIs(children.items[i], "listitem")
    requires Extract(children.items[i], repr) == Some(t) && Shows(t)
    requires ListLinesFrom(children, i + 1, listType, repr) == Some(rest)
    ensures ListLinesFrom(children, i, listType, repr) == Some([ListLine(listType, i + 1, t)] + rest)
  {
  }

  /** A list whose children are all list items showing something renders
      line `k` as item `k`, numbered `k + 1` in a numbered list and
      bulleted otherwise. */
  lemma ListRender(children: Json, listType: Json, texts: seq<string>, repr: Json -> string)
    requires children.JArr? && |texts| == |children.items|
    requires forall k :: 0 <= k < |children.items| ==>
      children.items[k].JObj? && TypeIs(children.items[k], "listitem")
      && Extract(children.items[k], repr) == Some(texts[k]) && Shows(texts[k])
    ensures var ls := ListLinesFrom(children, 0, listType, repr);
      ls.Some? && |ls.value| == |texts|
      && forall k :: 0 <= k < |texts| ==> ls.value[k] == ListLine(listType, k + 1, texts[k])
  {
    forall k | 0 <= k < |children.items| ensures ShownItemAt(children, k, texts, repr) {
    }
    AllShown(children, 0, texts, repr);
    ListLinesOfItems(children, 0, listType, texts, repr);
    NumberedLinesAt(listType, texts, 0);
    var ls := ListLinesFrom(children, 0, listType, repr).value;
    forall k | 0 <= k < |texts| ensures ls[k] == ListLine(listType, k + 1, texts[k]) {
      assert ls[k] == ListLine(listType, 0 + k + 1, texts[0 + k]);
    }
  }

  /** A dict child that is not a list item renders no line but still
      takes up a position. */
  lemma ListSkipsOthers(children: Json, i: nat, listType: Json, repr: Json -> string)
    requires children.JArr? && i < |children.items|
    requires children.items[i].JObj? && !TypeIs(children.items[i], "listitem")
    ensures ListLinesFrom(children, i, listType, repr) == ListLinesFrom(children, i + 1, listType, repr)
  {
    var e: seq<string> := [];
    match ListLinesFrom(children, i + 1, listType, repr)
    case None =>
    case Some(rest) => assert e + rest == rest;
  }

  /** A list item holding the single text leaf `w`. */
  function Item(w: string): Json {
    JObj([("type", JStr("listitem")), ("children", JArr([Leaf(w)]))])
  }

  /** A list item holding one non-empty stripped text renders as that
      text. */
  lemma ItemText(w: string, repr: Json -> string)
    requires w != [] && Trimmed(w)
    ensures Extract(Item(w), repr) == Some(w)
  {
    var kids := JArr([Leaf(w)]);
    LeafText(w, repr);
    StripTrimmed(w);
    assert ItemTexts(kids, 1, repr) == Some([]);
    assert ItemTexts(kids, 0, repr) == Some([w] + []);
    assert [w] + [] == [w];
    ListItemRender(kids, [w], repr);
  }

  /** A numbered list whose first child is a paragraph and whose second
      is the item `w` renders the item as `2. w`: the paragraph takes up
      position 1. */
  lemma NumberingCountsAllChildren(w: string, repr: Json -> string)
    requires w != [] && Trimmed(w)
    ensures ListLinesFrom(JArr([JObj([("type", JStr("paragraph"))]), Item(w)]), 0, JStr("number"), repr)
         == Some([NatStr(2) + ". " + w])
  {
    var para := JObj([("type", JStr("paragraph"))]);
    var kids := JArr([para, Item(w)]);
    Get1("type", JStr("paragraph"), "type");
    assert "paragraph"[0] != "listitem"[0];
    assert !TypeIs(para, "listitem");
    ListSkipsOthers(kids, 0, JStr("number"), repr);
    ItemText(w, repr);
    Get2("type", JStr("listitem"), "children", JArr([Leaf(w)]), "type");
    StripTrimmed(w);
    assert kids.items[1] == Item(w);
    ListLinesEnd(kids, JStr("number"), repr);
    ListItemStep(kids, 1, JStr("number"), w, [], repr);
    assert [ListLine(JStr("number"), 2, w)] + [] == [NatStr(2) + ". " + w];
  }

  /** A link without a truthy url, or without text, renders as its text
      alone. */
  lemma RenderLinkFallback(node: Json, ts: seq<string>, url: Json, lines: Option<seq<string>>, repr: Json -> string)
    requires TypeIs(node, "link") && LinkUrl(node) == Some(url) && (!Truthy(url) || Join(ts, " ") == [])
    ensures Render(node, Some(ts), Some(ts), lines, repr) == Some(Join(ts, " "))
  {
    LinkTypeOnly(node);
    assert Render(node, Some(ts), Some(ts), lines, repr) == RenderLink(node, Some(ts), repr);
  }

  /** A link node without `fields` has the url `''` and renders as its
      children's texts joined by spaces. */
  lemma LinkWithoutFieldsRender(kids: Json, ts: seq<string>, repr: Json -> string)
    requires kids.JArr? && ItemTexts(kids, 0, repr) == Some(ts)
    ensures Extract(JObj([("type", JStr("link")), ("children", kids)]), repr) == Some(Join(ts, " "))
  {
    var node := JObj([("type", JStr("link")), ("children", kids)]);
    Get2("type", JStr("link"), "children", kids, "type");
    Get2("type", JStr("link"), "children", kids, "children");
    Get2("type", JStr("link"), "children", kids, "fields");
    assert Collected(node, repr) == Some(ts);
    assert OwnChildTexts(node, repr) == Some(ts);
    assert LinkUrl(node) == Some(JStr(""));
    ExtractIsRender(node, repr);
    RenderLinkFallback(node, ts, JStr(""), OwnListLines(node, repr), repr);
  }
}
