/** `ContentProcessor._extract_links_from_content` and
    `_create_link_chunks`: every link node of a rich-text tree, in
    pre-order, and one chunk per link. */
module Links {
  import opened Options
  import opened Text
  import opened Json
  import opened Chunks

  /** The `link_info` dict built for a link node. */
  datatype Link = Link(url: Json, text: string, linkType: Json, newTab: Json)

  /** `node.get('type') == 'link' and 'fields' in node` for a dict. */
  predicate IsLinkNode(node: Json) {
    Get(node, "type") == Some(JStr("link")) && HasKey(node, "fields")
  }

  /** The `text` values of the dict items that have one. */
  function TextParts(items: seq<Json>): (r: seq<Json>)
    ensures |r| <= |items|
  {
    if |items| == 0 then []
    else (if items[0].JObj? && HasKey(items[0], "text") then [Get(items[0], "text").value] else [])
         + TextParts(items[1..])
  }

  /** The link text: the space-join of the `text` of the immediate children
      that are dicts carrying one, or `""` without `children`. Iterating a
      scalar and joining a non-string both raise. */
  function LinkText(node: Json): Option<string>
    requires node.JObj?
  {
    if !HasKey(node, "children") then Some("")
    else
      match Iter(Get(node, "children").value)
      case None => None
      case Some(items) =>
        match AllStrs(TextParts(items))
        case None => None
        case Some(ts) => Some(Join(ts, " "))
  }

  /** What a dict node contributes by itself: its link when it is a link
      node with a truthy url. `fields` must answer `.get`. */
  function OwnLink(node: Json): (r: Option<seq<Link>>)
    requires node.JObj?
    ensures r.Some? ==> |r.value| <= 1
    ensures r.Some? && |r.value| == 1 ==> IsLinkNode(node) && Truthy(r.value[0].url)
  {
    if !IsLinkNode(node) then Some([])
    else
      var fields := Get(node, "fields").value;
      if !fields.JObj? then None
      else
        match LinkText(node)
        case None => None
        case Some(text) =>
          var url := GetOr(fields, "url", JStr(""));
          var link := Link(url, text, GetOr(fields, "linkType", JStr("custom")), GetOr(fields, "newTab", JBool(false)));
          Some(if Truthy(url) then [link] else [])
  }

  /** Every collected link has a truthy url. */
  ghost predicate AllUrls(links: seq<Link>) {
    forall k :: 0 <= k < |links| ==> Truthy(links[k].url)
  }

  /** `find_links_recursive(node)`: a dict contributes its own link, then
      the links under its `children`; a list the links of its items; any
      other value nothing. */
  function Links(node: Json): (r: Option<seq<Link>>)
    ensures r.Some? ==> AllUrls(r.value)
    decreases node, 2, 0
  {
    match node
    case JObj(_) =>
      (match OwnLink(node)
       case None => None
       case Some(own) =>
         if !HasKey(node, "children") then Some(own)
         else
           match ChildLinks(Get(node, "children").value)
           case None => None
           case Some(rest) => Some(own + rest))
    case JArr(_) => ItemLinks(node, 0)
    case _ => Some([])
  }

  /** `for child in node['children']`: a list's items are walked; a string
      yields characters and a dict its keys, strings that hold no links;
      any other value is not iterable. */
  function ChildLinks(children: Json): (r: Option<seq<Link>>)
    ensures r.Some? ==> AllUrls(r.value)
    decreases children, 1, 0
  {
    match children
    case JArr(_) => ItemLinks(children, 0)
    case JStr(_) => Some([])
    case JObj(_) => Some([])
    case _ => None
  }

  /** The links of `list[i:]`, item by item. */
  function ItemLinks(list: Json, i: nat): (r: Option<seq<Link>>)
    requires list.JArr? && i <= |list.items|
    ensures r.Some? ==> AllUrls(r.value)
    decreases list, 0, |list.items| - i
  {
    if i == |list.items| then Some([])
    else
      match Links(list.items[i])
      case None => None
      case Some(here) =>
        match ItemLinks(list, i + 1)
        case None => None
        case Some(rest) => Some(here + rest)
  }

  /** `_extract_links_from_content(content_data)`: the walk starts at
      `root` when the content has one. */
  function ExtractLinks(content: Json): (r: Option<seq<Link>>)
    ensures r.Some? ==> AllUrls(r.value)
  {
    match In("root", content)
    case None => None
    case Some(true) =>
      (match Subscript(content, "root")
       case None => None
       case Some(root) => Links(root))
    case Some(false) => Links(content)
  }

  /** An independent account of the walk: the dicts it visits, in
      pre-order, a node before everything under its `children`. */
  function Visited(node: Json): Option<seq<Json>>
    decreases node, 2, 0
  {
    match node
    case JObj(_) =>
      if !HasKey(node, "children") then Some([node])
      else
        (match VisitedChildren(Get(node, "children").value)
         case None => None
         case Some(rest) => Some([node] + rest))
    case JArr(_) => VisitedItems(node, 0)
    case _ => Some([])
  }

  function VisitedChildren(children: Json): Option<seq<Json>>
    decreases children, 1, 0
  {
    match children
    case JArr(_) => VisitedItems(children, 0)
    case JStr(_) => Some([])
    case JObj(_) => Some([])
    case _ => None
  }

  function VisitedItems(list: Json, i: nat): Option<seq<Json>>
    requires list.JArr? && i <= |list.items|
    decreases list, 0, |list.items| - i
  {
    if i == |list.items| then Some([])
    else
      match Visited(list.items[i])
      case None => None
      case Some(here) =>
        match VisitedItems(list, i + 1)
        case None => None
        case Some(rest) => Some(here + rest)
  }

  /** What a visited node contributes by itself; only dicts are visited. */
  function OwnOf(node: Json): Option<seq<Link>> {
    if node.JObj? then OwnLink(node) else None
  }

  /** The contributions `own` gives the nodes, concatenated in order. */
  function GatherBy(nodes: seq<Json>, own: Json -> Option<seq<Link>>): Option<seq<Link>>
  {
    if |nodes| == 0 then Some([])
    else
      match own(nodes[0])
      case None => None
      case Some(here) =>
        match GatherBy(nodes[1..], own)
        case None => None
        case Some(rest) => Some(here + rest)
  }

  /** Gathering a concatenation gathers each part. */
  lemma {:induction false} GatherAppend(a: seq<Json>, b: seq<Json>, own: Json -> Option<seq<Link>>)
    ensures GatherBy(a + b, own) ==
      match GatherBy(a, own)
      case None => None
      case Some(x) => (match GatherBy(b, own) case None => None case Some(y) => Some(x + y))
    decreases |a|
  {
    if |a| == 0 {
      assert a + b == b;
      match GatherBy(b, own)
      case None =>
      case Some(y) => assert [] + y == y;
    } else {
      assert (a + b)[0] == a[0];
      assert (a + b)[1..] == a[1..] + b;
      GatherAppend(a[1..], b, own);
      match own(a[0])
      case None =>
      case Some(here) =>
        match GatherBy(a[1..], own)
        case None =>
        case Some(x1) =>
          match GatherBy(b, own)
          case None =>
          case Some(y) => assert here + (x1 + y) == (here + x1) + y;
    }
  }

  /** Gathering a node followed by other nodes. */
  lemma GatherCons(node: Json, rest: seq<Json>, own: Json -> Option<seq<Link>>)
    ensures GatherBy([node] + rest, own) ==
      match own(node)
      case None => None
      case Some(here) => (match GatherBy(rest, own) case None => None case Some(y) => Some(here + y))
  {
    assert ([node] + rest)[0] == node;
    assert ([node] + rest)[1..] == rest;
  }

  /** The walk finds exactly the own links of the dicts it visits, in
      pre-order; it fails when visiting fails. */
  lemma {:induction false} LinksArePreOrder(node: Json)
    ensures Visited(node).None? ==> Links(node).None?
    ensures Visited(node).Some? ==> Links(node) == GatherBy(Visited(node).value, OwnOf)
    decreases node, 2, 0
  {
    match node
    case JObj(_) =>
      if HasKey(node, "children") {
        ChildLinksArePreOrder(Get(node, "children").value);
        match VisitedChildren(Get(node, "children").value)
        case None =>
        case Some(rest) => GatherCons(node, rest, OwnOf);
      } else {
        GatherCons(node, [], OwnOf);
        assert [node] + [] == [node];
        match OwnLink(node)
        case None =>
        case Some(own) => assert own + [] == own;
      }
    case JArr(_) => ItemLinksArePreOrder(node, 0);
    case _ =>
  }

  lemma {:induction false} ChildLinksArePreOrder(children: Json)
    ensures VisitedChildren(children).None? ==> ChildLinks(children).None?
    ensures VisitedChildren(children).Some? ==> ChildLinks(children) == GatherBy(VisitedChildren(children).value, OwnOf)
    decreases children, 1, 0
  {
    match children
    case JArr(_) => ItemLinksArePreOrder(children, 0);
    case _ =>
  }

  lemma {:induction false} ItemLinksArePreOrder(list: Json, i: nat)
    requires list.JArr? && i <= |list.items|
    ensures VisitedItems(list, i).None? ==> ItemLinks(list, i).None?
    ensures VisitedItems(list, i).Some? ==> ItemLinks(list, i) == GatherBy(VisitedItems(list, i).value, OwnOf)
    decreases list, 0, |list.items| - i
  {
    if i < |list.items| {
      LinksArePreOrder(list.items[i]);
      ItemLinksArePreOrder(list, i + 1);
      match Visited(list.items[i])
      case None =>
      case Some(here) =>
        match VisitedItems(list, i + 1)
        case None =>
        case Some(rest) => GatherAppend(here, rest, OwnOf);
    }
  }

  /** A link node with a truthy url and no children is collected with
      empty text and the defaults `"custom"` and `False`. */
  lemma LinkDefaults(url: Json)
    requires Truthy(url)
    ensures Links(JObj([("type", JStr("link")), ("fields", JObj([("url", url)]))]))
         == Some([Link(url, "", JStr("custom"), JBool(false))])
  {
    var fields := JObj([("url", url)]);
    var node := JObj([("type", JStr("link")), ("fields", fields)]);
    Get2("type", JStr("link"), "fields", fields, "type");
    Get2("type", JStr("link"), "fields", fields, "fields");
    Get2("type", JStr("link"), "fields", fields, "children");
    Get1("url", url, "url");
    Get1("url", url, "linkType");
    Get1("url", url, "newTab");
    assert OwnLink(node) == Some([Link(url, "", JStr("custom"), JBool(false))]);
  }

  /** The chunk text `Link: text - URL: url`, with ` (Type: t)` when the
      link type is truthy. */
  function LinkContent(link: Link, repr: Json -> string): string {
    "Link: " + link.text + " - URL: " + Str(link.url, repr)
    + (if Truthy(link.linkType) then " (Type: " + Str(link.linkType, repr) + ")" else "")
  }

  /** `f"{source_id}-link-{i}"`. */
  function LinkSourceId(sourceId: string, i: nat): string {
    sourceId + "-link-" + NatStr(i)
  }

  /** The metadata of the `i`-th link chunk. */
  function LinkMetadata(link: Link, i: nat, sourceId: string, sourceType: string, contentType: string,
                        now: string): seq<(string, Json)> {
    Dict([("source_type", JStr(sourceType)),
          ("source_" + sourceType, JStr(contentType)),
          ("source_id", JStr(LinkSourceId(sourceId, i))),
          ("document_title", JStr("Link: " + link.text)),
          ("content_type", JStr("link_reference")),
          ("category", JStr("reference")),
          ("link_url", link.url),
          ("link_text", JStr(link.text)),
          ("link_type", link.linkType),
          ("opens_new_tab", link.newTab),
          ("language", JStr("en")),
          ("last_updated", JStr(now)),
          ("is_active", JBool(true)),
          ("searchable_keywords", KeywordsOf(link.text)),
          ("search_boost", JReal(0.8))])
  }

  /** The chunk for the link at position `i` of `total`. */
  function LinkPiece(link: Link, i: nat, total: nat, sourceId: string, sourceType: string, contentType: string,
                     now: string, repr: Json -> string): Piece
  {
    Piece(LinkContent(link, repr), LinkMetadata(link, i, sourceId, sourceType, contentType, now),
          JStr(LinkSourceId(sourceId, i)), sourceType, JStr(contentType), i, total)
  }

  predicate HasUrl(link: Link) { Truthy(link.url) }

  /** `_create_link_chunks`: a link with a falsy url is skipped but still
      uses up its position. */
  function CreateLinkChunks(links: seq<Link>, sourceId: string, sourceType: string, contentType: string,
                            now: string, repr: Json -> string): (r: seq<Piece>)
    ensures |r| <= |links|
  {
    KeptFrom(links, 0, HasUrl,
             (link, i) => LinkPiece(link, i, |links|, sourceId, sourceType, contentType, now, repr))
  }

  /** For links that all have truthy urls, as `ExtractLinks` yields them,
      there is one chunk per link, in order: the `i`-th carries position
      `i`, the number of links, the text `Link: … - URL: …` and the source
      id `{source_id}-link-{i}`. */
  lemma LinkChunkFields(links: seq<Link>, sourceId: string, sourceType: string, contentType: string,
                        now: string, repr: Json -> string, i: nat)
    requires AllUrls(links) && i < |links|
    ensures var r := CreateLinkChunks(links, sourceId, sourceType, contentType, now, repr);
      |r| == |links| && r[i].chunkIndex == i && r[i].totalChunks == |links|
      && r[i].content == LinkContent(links[i], repr)
      && r[i].sourceId == JStr(LinkSourceId(sourceId, i))
      && StartsWith(r[i].content, "Link: " + links[i].text + " - URL: ")
  {
    var mk := (link, j) => LinkPiece(link, j, |links|, sourceId, sourceType, contentType, now, repr);
    KeptAll(links, 0, HasUrl, mk);
  }

  /** Every link chunk, for links that all have truthy urls, carries the
      id `{source_id}-link-{k}` and a text starting `Link: `. */
  lemma LinkChunksAll(links: seq<Link>, sourceId: string, sourceType: string, contentType: string,
                      now: string, repr: Json -> string)
    requires AllUrls(links)
    ensures var r := CreateLinkChunks(links, sourceId, sourceType, contentType, now, repr);
      |r| == |links| && forall k :: 0 <= k < |r| ==>
        (r[k].sourceId == JStr(LinkSourceId(sourceId, k)) && StartsWith(r[k].content, "Link: "))
  {
    var r := CreateLinkChunks(links, sourceId, sourceType, contentType, now, repr);
    forall k | 0 <= k < |links|
      ensures |r| == |links| && r[k].sourceId == JStr(LinkSourceId(sourceId, k)) && StartsWith(r[k].content, "Link: ")
    {
      LinkChunkFields(links, sourceId, sourceType, contentType, now, repr, k);
    }
    if links == [] {
      assert |r| == 0;
    } else {
      LinkChunkFields(links, sourceId, sourceType, contentType, now, repr, 0);
    }
  }

  /** `chunks.extend(link_chunks)`: the chunks so far, then the link
      chunks, ids `{source_id}-link-{k}`, texts starting `Link: `. */
  function WithLinks(text: seq<Piece>, links: seq<Link>, sourceId: string, sourceType: string, contentType: string,
                     now: string, repr: Json -> string): (r: seq<Piece>)
    requires AllUrls(links)
    ensures |r| == |text| + |links|
    ensures forall i :: 0 <= i < |text| ==> r[i] == text[i]
    ensures forall k :: |text| <= k < |r| ==>
      (r[k].sourceId == JStr(LinkSourceId(sourceId, k - |text|)) && StartsWith(r[k].content, "Link: "))
  {
    LinkChunksAll(links, sourceId, sourceType, contentType, now, repr);
    text + CreateLinkChunks(links, sourceId, sourceType, contentType, now, repr)
  }
}
