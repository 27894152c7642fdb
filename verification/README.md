# A verified model of the Rajalakshmi college website's content pipeline

The college website is assembled from a headless CMS. Every time an editor saves a document, the CMS calls a webhook of the **vector service**. The vector service turns the document into text chunks with search metadata and stores them in a vector database. The **chat service** searches those chunks to answer visitors' questions. The **website** renders the CMS pages.

This project is a Dafny model of the logic at the centre of those three parts. It contains no I/O. Every operation is a pure function or a method over immutable data, and contracts and lemmas state what each operation promises.

**Vector service: `ContentProcessor` in `content_processor.py`.**

| file | module | models |
|---|---|---|
| `json.dfy` | `Options`, `Json` | Python values received as JSON: truthiness, `in`, `[]`, `.get`, iteration, `len`, `str()`, dict update |
| `env.dfy` | `Environment` | what the processor receives from outside: the HTML parser, `repr`, the clock, chunk ids |
| `webhook.dfy` | `Webhook` | `process_webhook_payload` and the dispatch of collections and globals to processors |
| `processors.dfy` | `Processors` | the generic, announcement and `about` processors |
| `department.dfy` | `Departments` | the department-section processor and its per-section routing |
| `tables.dfy` | `Sections` | rich-text, table, dynamic-table and multiple-table sections |
| `chunks.dfy` | `Chunks` | the chunk record, metadata assembly and id stamping |
| `links.dfy` | `Links` | link extraction from rich text and link chunks |
| `chunker.dfy` | `Chunker` | `_chunk_text`, as a function and as the original loop |
| `html_clean.dfy` | `HtmlClean` | `_clean_html_content` |
| `keywords.dfy` | `Keywords` | `_extract_keywords`: tokens, frequencies, stable ranking |
| `rich_text.dfy` | `RichText` | `_extract_rich_text` |
| `classify.dfy` | `Classify` | `_classify_table_type` and `_detect_department` |

**Chat service.**

| file | module | models |
|---|---|---|
| `chat_helpers.dfy` | `ChatHelpers` | `utils/helpers.py` |
| `conversation.dfy` | `Conversations` | `ConversationManager` |
| `rag.dfy` | `Rag` | context building and source records in `RAGService` |
| `chat_config.dfy` | `ChatConfig` | the settings validators, Python's `int()` on strings, the CORS list |

**Website.**

| file | module | models |
|---|---|---|
| `js.dfy` | `JsValues` | JavaScript truthiness, `\|\|`, property access, `String()` |
| `ordered_object.dfy` | `OrderedObjects` | grouping into an object and `Object.entries` order |
| `page_utils.dfy` | `PageUtils` | `unified-page-utils.ts`, except `normalizePageResponse` |
| `page_normalize.dfy` | `PageNormalize` | `normalizePageResponse` |
| `image_url.dfy` | `ImageUrls` | `getImageUrl` and `getDepartmentImageUrl` in `api.ts` |
| `youtube.dfy` | `YouTube` | the video-id patterns and the URL test |
| `navbar.dfy` | `NavBar` | active-link detection and the desktop/more split |
| `pagination.dfy` | `Pagination` | the blog list's page buttons and page changes |
| `blog_card.dfy` | `BlogCard` | description truncation |
| `coe.dfy` | `Coe` | grouping of exam documents into sections |

**Shared helpers.** `text.dfy` (module `Text`) holds the string helpers shared by the models above. These are Python's `strip`, `split`, `join`, `lower` and `str(int)`, plus run replacement and occurrence tests.

**Errors.** A Python exception, or a JavaScript `TypeError`, is modelled as `None` in an `Option`. The modelled exceptions are:
- `KeyError`;
- a `TypeError` from indexing or iterating the wrong kind of value;
- `ValueError` from `int()`.

Each such `None` is traced back to the source line that raises. `process_webhook_payload` turns any exception into an empty result, and `Webhook.FailureYieldsNothing` states this.

**Behaviours of the code that the model keeps and a reader may not expect:**
- `_chunk_text` returns text within the chunk size unstripped.
- `_chunk_text` reaches the end of the text only when the overlap is at most half the chunk size. The model requires this. A smaller chunk size is not enough.
- A chunk may be one character longer than the chunk size, because a cut after a sentence end at the window's last position includes that character.
- In `_extract_rich_text`, a text node whose `text` is not a string makes the join raise. Such a node is not treated as empty.
- In `_detect_department`, the keywords `AI`, `ML` and `VLSI` are compared against lower-cased text. They can never match (`Classify.UpperKeywordsNeverMatch`).
- A heading's level is the digit of its tag, so `h0` gives an empty `#` run.
- `_process_about` chunks the blank-line join of its parts without cleaning it (`Processors.AboutUncleaned`). The generic processor cleans its text first.
- On the COE page, a category named after an `Object.prototype` member, such as `toString`, makes the grouping throw. The page then shows no sections (`Coe.PrototypeNameEmptiesPage`).
- A table column whose key names an inherited member, such as `constructor`, prints that member in every row without its own value (`PageNormalize.InheritedNameCell`).

## Model

| member | source | states |
|---|---|---|
| Webhook.ProcessWebhookPayload | rajalakshmi-vector-service/content_processor.py:46-85 | A payload that is not a dict, or whose `collection`/`global` value is falsy, yields no chunk; otherwise the chunks are the handler's results in order, chunk `k` carrying the `k`-th fresh id and otherwise unchanged. |
| Webhook.Handle | rajalakshmi-vector-service/content_processor.py:56-81 | Without a truthy content type nothing is handled. |
| Webhook.TypedPayloadIsDispatched | rajalakshmi-vector-service/content_processor.py:58-81 | A truthy content type implies a `collection` or `global` key, so the "could not determine" branch is unreachable. |
| Webhook.CollectionKeyWins | rajalakshmi-vector-service/content_processor.py:58-75 | A present but falsy `collection` key still routes the payload as a collection, under the `global` value's name. |
| Webhook.CollectionsMostlyGeneric | rajalakshmi-vector-service/content_processor.py:87-106 | Every collection other than announcements and department sections (blog posts, testimonials, departments, coe, dynamic pages, unknown names) gets the generic processor with source type `collection`. |
| Webhook.GlobalsMostlyGeneric | rajalakshmi-vector-service/content_processor.py:108-125 | Every global other than `about` gets the generic processor with source type `global`. |
| Webhook.FailureYieldsNothing | rajalakshmi-vector-service/content_processor.py:83-85 | When processing raises, the result is empty. |
| Processors.GenericLinesOrder | rajalakshmi-vector-service/content_processor.py:372-378 | The text lines are the `title`/`name` lines in reverse field order (each is inserted at the front) followed by the other non-blank string fields in field order. |
| Processors.Generic | rajalakshmi-vector-service/content_processor.py:367-422 | Succeeds exactly on dicts; no text line gives no chunk; every chunk carries the source type, the content type, the data's `id` (or `""`) and its own position as index. |
| Processors.GenericContents | rajalakshmi-vector-service/content_processor.py:371-400 | With at least one line, chunk `i` holds the `i`-th chunk of the cleaned text: the head lines last first, then the other lines in field order, joined by newlines. |
| Processors.GenericMetadata | rajalakshmi-vector-service/content_processor.py:386-409 | Every chunk's metadata maps `source_{source_type}` to the content type, `content_type` to `generic`, `search_boost` to 0.8 and `chunk_index` to the chunk's position. |
| Processors.Announcement | rajalakshmi-vector-service/content_processor.py:127-180 | Succeeds exactly when the data is a dict whose priority can be compared with 2; every chunk has the data's id, source type `collection`, content type `announcements` and its position as index. |
| Processors.AnnouncementPriority | rajalakshmi-vector-service/content_processor.py:135-167 | Every chunk's metadata says `high` exactly when the priority is at most 2, `is_urgent` exactly when it equals 1, and boost 1.2. |
| Processors.UrgentIsHigh | rajalakshmi-vector-service/content_processor.py:135-150 | An announcement without a priority takes the default 1, so it is both urgent and high. |
| Processors.ImagePartPresent | rajalakshmi-vector-service/content_processor.py:785-795 | A section adds an image line exactly when its `image` is a dict with a truthy `alt`, `filename` or `url`. |
| Processors.RowsWithData | rajalakshmi-vector-service/content_processor.py:805-806 | Counting rows fails unless every row is a dict; the count never exceeds the number of rows. |
| Processors.AllRowsCounted | rajalakshmi-vector-service/content_processor.py:805-806 | When every row is a dict with truthy `rowData`, every row is counted. |
| Processors.HeroSubtitleKept | rajalakshmi-vector-service/content_processor.py:780-782 | A hero section contributes its `subtitle` value as it is, whatever its type. |
| Processors.AboutLinks | rajalakshmi-vector-service/content_processor.py:862-870 | Every link gathered from the `about` sections has a truthy url. |
| Processors.AboutText | rajalakshmi-vector-service/content_processor.py:840-859 | One chunk per text chunk, chunk `i` with id `about-{i}`, index `i` and the chunk count as total. |
| Processors.AboutChunks | rajalakshmi-vector-service/content_processor.py:840-875 | The text chunks come first; then one chunk per link, the `k`-th with id `about-link-{k}` and content starting `Link: `. |
| Processors.About | rajalakshmi-vector-service/content_processor.py:736-877 | Data that is not a dict raises; the other cases are stated by the lemmas below. |
| Processors.AboutUncleaned | rajalakshmi-vector-service/content_processor.py:823-862 | When every part is a string, the text chunks are the chunks of the parts joined by blank lines, not cleaned; one chunk per link follows. |
| Processors.AboutWithoutSectionsIsGeneric | rajalakshmi-vector-service/content_processor.py:744-820 | Data without hero keys and sections falls back to the generic processor for `about`. |
| Processors.NonStringPartFails | rajalakshmi-vector-service/content_processor.py:819-823 | A content part that is not a string (a hero subtitle of another type) makes the join raise. |
| Departments.DepartmentName | rajalakshmi-vector-service/content_processor.py:187-188 | No `department` key gives `General`; a string department is used as it is. |
| Departments.DepartmentSection | rajalakshmi-vector-service/content_processor.py:182-226 | Data that is not a dict raises; without `dynamicSections` there is no chunk. |
| Departments.SectionOutput | rajalakshmi-vector-service/content_processor.py:194-224 | A section that is not a dict raises. |
| Departments.OneFailureFailsAll | rajalakshmi-vector-service/content_processor.py:194-226 | A section that raises makes the whole department section raise. |
| Departments.AllSectionsKept | rajalakshmi-vector-service/content_processor.py:194-226 | Nothing is dropped or added: the output is as long as the sections' outputs together. |
| Departments.EmptyFreeTextSection | rajalakshmi-vector-service/content_processor.py:220-224 | A section of another type without `content` adds nothing, since `str('')` is falsy. |
| Departments.RichTextThenLinks | rajalakshmi-vector-service/content_processor.py:197-212 | A rich-text section gives its text chunks first, then its link chunks with ids `dept-section-{idx}-link-{k}` and content starting `Link: `. |
| Sections.SectionChunks | rajalakshmi-vector-service/content_processor.py:664-709 | One chunk per piece of the chunked contextual text `Department: … Section: … Content: …`. |
| Sections.RichTextSection | rajalakshmi-vector-service/content_processor.py:228-277 | Succeeds exactly when the section's content can be cleaned. |
| Sections.RowCellsShape | rajalakshmi-vector-service/content_processor.py:294-298 | Cells pair with headers by position; cells beyond the last header are dropped. |
| Sections.TableRowPieces | rajalakshmi-vector-service/content_processor.py:294-332 | One chunk per row, row `k` with index `k` and the row count as total. |
| Sections.TableBody | rajalakshmi-vector-service/content_processor.py:293-363 | The row chunks, then one summary chunk with index 0 and total 1. |
| Sections.TableSectionShape | rajalakshmi-vector-service/content_processor.py:279-365 | A table section has one chunk more than it has rows: row `k` has index `k` of `len(rows)`, the last chunk is the summary, index 0 of 1. |
| Sections.DynamicRowPieces | rajalakshmi-vector-service/content_processor.py:950-982 | At most one chunk per row; the chunk of row `r` has index `r + 1` of `len(rows) + 1`, so skipped rows leave gaps. |
| Sections.WithRowPieces | rajalakshmi-vector-service/content_processor.py:939-982 | The structure chunk comes first, then the row chunks. |
| Sections.DynamicTableShape | rajalakshmi-vector-service/content_processor.py:895-984 | With columns, the structure chunk (index 0 of 1) comes first and every later chunk has an index in `1..len(rows)` of `len(rows) + 1`. |
| Sections.MultipleTablesSection | rajalakshmi-vector-service/content_processor.py:986-992 | A falsy `multipleTablesConfig` gives no chunk. |
| Sections.MultipleTablesShape | rajalakshmi-vector-service/content_processor.py:994-1061 | The summary chunk `Contains {n} tables`, index 0 of 1, comes first, followed by the routed tables' chunks. |
| Sections.DynamicConfigWins | rajalakshmi-vector-service/content_processor.py:1026-1042 | A truthy `dynamicTableConfig` routes a table to the dynamic handler, even when a `tableConfig` is present too. |
| Chunks.Stamp | rajalakshmi-vector-service/content_processor.py:169-178 | One chunk per piece; chunk `k` gets the `k`-th fresh id and keeps the piece's fields. |
| Chunks.StampIdsDistinct | rajalakshmi-vector-service/content_processor.py:169-178 | When the drawn ids never repeat, no two chunks share an id. |
| Chunks.TextPieces | rajalakshmi-vector-service/content_processor.py:160-178 | One chunk per text chunk, with that text, index `i`, the chunk count as total, and the given source id, type and content type. |
| Chunks.TextPieceMetadata | rajalakshmi-vector-service/content_processor.py:162-167 | A chunk's metadata is the base metadata updated with `chunk_index`, `total_chunks` and `content_length`; every other key not set by the extra fields keeps its base value. |
| Chunks.KeywordsOf | rajalakshmi-vector-service/content_processor.py:490-511 | At most 10 keywords; none for empty text. |
| Chunks.GatherFails | rajalakshmi-vector-service/content_processor.py:194-224 | One item that raises makes the whole loop raise. |
| Links.OwnLink | rajalakshmi-vector-service/content_processor.py:1071-1088 | A node yields at most one link of its own, and only when it is a link node with a truthy url. |
| Links.Links | rajalakshmi-vector-service/content_processor.py:1069-1097 | Every collected link has a truthy url. |
| Links.ExtractLinks | rajalakshmi-vector-service/content_processor.py:1065-1104 | Every extracted link has a truthy url. |
| Links.LinksArePreOrder | rajalakshmi-vector-service/content_processor.py:1069-1097 | The links are the nodes' own links concatenated in pre-order: a node before its children, children in order. |
| Links.ChildLinksArePreOrder | rajalakshmi-vector-service/content_processor.py:1091-1093 | The same for a node's children. |
| Links.ItemLinksArePreOrder | rajalakshmi-vector-service/content_processor.py:1095-1097 | The same for the items of a list. |
| Links.LinkDefaults | rajalakshmi-vector-service/content_processor.py:1072-1077 | A link without text, type or tab flag gets `""`, `custom` and `False`. |
| Links.CreateLinkChunks | rajalakshmi-vector-service/content_processor.py:1106-1147 | At most one chunk per link. |
| Links.LinkChunkFields | rajalakshmi-vector-service/content_processor.py:1110-1145 | With every url present, chunk `i` has index `i` of `len(links)`, id `{source_id}-link-{i}` and content `Link: {text} - URL: {url}` plus the type. |
| Links.LinkChunksAll | rajalakshmi-vector-service/content_processor.py:1110-1145 | With every url present, there is one chunk per link, each with its link id and content starting `Link: `. |
| Links.WithLinks | rajalakshmi-vector-service/content_processor.py:873-875 | Text chunks are kept in front and followed by one link chunk per link. |
| Chunker.CutEnd | rajalakshmi-vector-service/content_processor.py:435-449 | A cut ends past the half-window and at most one past the window; a window reaching the end of the text is not shortened. |
| Chunker.CutEndPrefers | rajalakshmi-vector-service/content_processor.py:439-449 | The cut falls just after the last sentence end in the back half of the window; failing that, at its last space. |
| Chunker.LastMatch | rajalakshmi-vector-service/content_processor.py:441-449 | The backward scan finds a wanted character inside the range. |
| Chunker.LastMatchSpec | rajalakshmi-vector-service/content_processor.py:441-449 | What the scan finds is the last wanted character in range, and when it finds none there is none. |
| Chunker.Windows | rajalakshmi-vector-service/content_processor.py:433-458 | The first window starts at `start`; every window starts inside its clipped end and spans at most `size + 1` characters. |
| Chunker.WindowsStep | rajalakshmi-vector-service/content_processor.py:435-458 | The first window ends at the cut; the loop stops when the cut minus the overlap reaches the end of the text, and otherwise continues from there. |
| Chunker.WindowsChain | rajalakshmi-vector-service/content_processor.py:435-458 | Each next window starts `overlap` before the previous end, and the last one is the first whose next start would pass the end. |
| Chunker.ChainedAdvances | rajalakshmi-vector-service/content_processor.py:456 | Every next window starts strictly later, by more than half the size minus the overlap. |
| Chunker.NonEmptySlices | rajalakshmi-vector-service/content_processor.py:452-454 | Every kept chunk is non-empty and stripped. |
| Chunker.SlicesWithin | rajalakshmi-vector-service/content_processor.py:452 | A chunk is never longer than its window. |
| Chunker.SlicesContained | rajalakshmi-vector-service/content_processor.py:452 | Every chunk occurs in the text. |
| Chunker.ChunkText | rajalakshmi-vector-service/content_processor.py:424-460 | Text within the size is one chunk, itself; otherwise every chunk is non-empty, stripped, occurs in the text and has at most `size + 1` characters. |
| Chunker.ChunkTextLoop | rajalakshmi-vector-service/content_processor.py:424-460 | The loop computes the chunk list. |
| Chunker.ChunkOneOverSize | rajalakshmi-vector-service/content_processor.py:441-444 | A sentence end inside the window is kept with the chunk: `abcd.fgh` cut at size 4 starts with `abcd.`. |
| Chunker.TailRepeated | rajalakshmi-vector-service/content_processor.py:456-458 | A window that reaches the end is still followed by one more window when the next start stays inside the text. |
| HtmlClean.CleanHtml | rajalakshmi-vector-service/content_processor.py:462-488 | Falsy content cleans to `""`; text from the parser comes out collapsed (stripped, one line, no double space); the regex fallback gives stripped text without any `<…>` tag. |
| HtmlClean.CleanText | rajalakshmi-vector-service/content_processor.py:462-465 | Empty text cleans to empty text. |
| HtmlClean.CollapseCollapsed | rajalakshmi-vector-service/content_processor.py:479-482 | The clean-up leaves stripped text without line breaks or double spaces. |
| HtmlClean.CollapseFixpoint | rajalakshmi-vector-service/content_processor.py:479-482 | Collapsed text is left as it is. |
| HtmlClean.CollapseIdempotent | rajalakshmi-vector-service/content_processor.py:479-482 | Cleaning up twice is cleaning up once. |
| HtmlClean.StripTagsTagFree | rajalakshmi-vector-service/content_processor.py:488 | The fallback leaves no `<…>` tag. |
| HtmlClean.StripTagsFixpoint | rajalakshmi-vector-service/content_processor.py:488 | Tag-free text is left as it is. |
| HtmlClean.StripTagsIdempotent | rajalakshmi-vector-service/content_processor.py:488 | Removing tags twice is removing them once. |
| HtmlClean.TagFreeSlice | rajalakshmi-vector-service/content_processor.py:488 | Any slice of tag-free text is tag-free, so stripping keeps it so. |
| Keywords.Tokens | rajalakshmi-vector-service/content_processor.py:496 | Every token is a run of at least three ASCII letters. |
| Keywords.TokensOfSpaced | rajalakshmi-vector-service/content_processor.py:496 | Tokenising words joined by spaces gives the words back. |
| Keywords.Candidates | rajalakshmi-vector-service/content_processor.py:505-507 | The counted words are exactly the tokens outside the stop words and longer than three letters. |
| Keywords.FreqCorrect | rajalakshmi-vector-service/content_processor.py:504-507 | The counting loop builds a dict with distinct keys, each word's number of occurrences, every word present, in order of first occurrence. |
| Keywords.RankRanked | rajalakshmi-vector-service/content_processor.py:510 | The stable sort orders entries by count, descending, ties in dict order. |
| Keywords.RankingRanked | rajalakshmi-vector-service/content_processor.py:510 | The ranking of a text is ordered that way. |
| Keywords.ExtractKeywords | rajalakshmi-vector-service/content_processor.py:490-511 | Empty text gives none; never more than `max_keywords`. |
| Keywords.KeywordsAreDistinctCandidates | rajalakshmi-vector-service/content_processor.py:496-511 | Every keyword is a counted word of the text, and none repeats. |
| Keywords.KeywordsTop | rajalakshmi-vector-service/content_processor.py:510-511 | A counted word left out is no more frequent than any keyword, and then the list is full. |
| Keywords.KeywordsTieOrder | rajalakshmi-vector-service/content_processor.py:510-511 | Keywords of equal frequency come in order of first occurrence. |
| Keywords.SliceCount | rajalakshmi-vector-service/content_processor.py:511 | `[:n]` keeps at most `n` entries and fewer only when the list is shorter; a negative `n` keeps at least all but `-n` entries. |
| RichText.ExtractRichText | rajalakshmi-vector-service/content_processor.py:513-516 | Content that is not a dict gives `""`; lists and links are stated by the lemmas below. |
| RichText.TidyIdempotent | rajalakshmi-vector-service/content_processor.py:624-632 | The final clean-up is idempotent. |
| RichText.RichTextTidy | rajalakshmi-vector-service/content_processor.py:618-632 | The extracted text is already clean: cleaning it again changes nothing. |
| RichText.LeafText | rajalakshmi-vector-service/content_processor.py:524-525 | A text leaf gives its text. |
| RichText.ExtractIsRender | rajalakshmi-vector-service/content_processor.py:518-616 | A dict node is rendered from the walks of its children. |
| RichText.HeadingLevel | rajalakshmi-vector-service/content_processor.py:540-541 | A string tag always gives a level of at most 9. |
| RichText.RenderHeadingShown | rajalakshmi-vector-service/content_processor.py:539-549 | A heading with shown children renders as `\n\n`, the level's `#`s, a space, the children, `\n\n`. |
| RichText.RenderParagraphShown | rajalakshmi-vector-service/content_processor.py:552-559 | A paragraph with shown children renders as the children joined by spaces and `\n\n`. |
| RichText.RenderListItemShown | rajalakshmi-vector-service/content_processor.py:578-585 | A list item renders as its shown children joined by spaces. |
| RichText.RenderLinkShown | rajalakshmi-vector-service/content_processor.py:588-605 | A link with text and a url renders as `text [URL: url]`. |
| RichText.HeadingRender | rajalakshmi-vector-service/content_processor.py:539-549 | The same for a concrete heading node. |
| RichText.ParagraphRender | rajalakshmi-vector-service/content_processor.py:552-559 | The same for a concrete paragraph node. |
| RichText.ListItemRender | rajalakshmi-vector-service/content_processor.py:578-585 | The same for a concrete list-item node. |
| RichText.LinkRender | rajalakshmi-vector-service/content_processor.py:588-605 | The same for a concrete link node. |
| RichText.ListRender | rajalakshmi-vector-service/content_processor.py:561-575 | In a list whose children are all list items that show text, line `k` is item `k` numbered `k + 1` in a numbered list and bulleted otherwise, its text stripped. |
| RichText.ListLinesOfItems | rajalakshmi-vector-service/content_processor.py:565-572 | The same for the items from position `i` on. |
| RichText.ListSkipsOthers | rajalakshmi-vector-service/content_processor.py:565-566 | A child that is not a list item adds no line; the numbering still counts it. |
| RichText.ItemText | rajalakshmi-vector-service/content_processor.py:578-585 | A list item holding one stripped non-empty text leaf renders as that text. |
| RichText.NumberingCountsAllChildren | rajalakshmi-vector-service/content_processor.py:565-570 | Example: a numbered list of a paragraph then an item `w` renders the single line `2. w`. |
| RichText.RenderLinkFallback | rajalakshmi-vector-service/content_processor.py:588-605 | A link whose url is falsy, or whose text is empty, renders as its text alone. |
| RichText.LinkWithoutFieldsRender | rajalakshmi-vector-service/content_processor.py:598-605 | A link node without `fields` renders as its shown children joined by spaces. |
| Classify.FirstGroupIn | rajalakshmi-vector-service/content_processor.py:639-646 | The first title group with a word in the title decides, and none matches exactly when no group has a word in it. |
| Classify.HeaderKind | rajalakshmi-vector-service/content_processor.py:647-650 | The first header group with a word among the headers decides, likewise. |
| Classify.TableKindRange | rajalakshmi-vector-service/content_processor.py:634-652 | The result is one of the five kinds. |
| Classify.TitleDecides | rajalakshmi-vector-service/content_processor.py:639-646 | A title word decides on its own: the headers are not consulted. |
| Classify.HeadersMatchExactly | rajalakshmi-vector-service/content_processor.py:647-650 | Headers count only as whole list elements: with no group word among them the headers do not matter. |
| Classify.ClassifyIgnoresTitleCase | rajalakshmi-vector-service/content_processor.py:636 | Classification ignores the case of the title. |
| Classify.FirstDepartment | rajalakshmi-vector-service/content_processor.py:654-662 | The first department with a keyword in the text is found, and none exactly when no department has one. |
| Classify.UpperKeywordsNeverMatch | rajalakshmi-vector-service/content_processor.py:656-659 | Keywords `AI`, `ML` and `VLSI` are matched against lower-cased text and can never match. |
| ChatHelpers.CleanText | rajalakshmi-website-chat-service/utils/helpers.py:5-16 | The cleaned text has only word characters, single spaces and `.,?!-`, and is never longer than the input. |
| ChatHelpers.CleanTextKeepsContent | rajalakshmi-website-chat-service/utils/helpers.py:10-14 | Cleaning keeps the words and kept punctuation of the input, all of them and in order: it only drops whitespace and other characters. |
| ChatHelpers.CleanTextOfClean | rajalakshmi-website-chat-service/utils/helpers.py:5-16 | Text that is already clean is returned as it is. |
| ChatHelpers.CleanTextSettles | rajalakshmi-website-chat-service/utils/helpers.py:10-14 | When no character has to be deleted, cleaning gives clean text, and cleaning again changes nothing. |
| ChatHelpers.CleanTextJoinsSpaces | rajalakshmi-website-chat-service/utils/helpers.py:10-14 | Spaces are collapsed before characters are deleted, so deleting a character between two spaces leaves a double space (`a # b` cleans to `a  b`): cleaning is not idempotent. |
| ChatHelpers.CleanTextMergesSpaces | rajalakshmi-website-chat-service/utils/helpers.py:11 | A double space between words becomes one. |
| ChatHelpers.StripPunct | rajalakshmi-website-chat-service/utils/helpers.py:28 | The stripped word has no `.,?!` at either end. |
| ChatHelpers.StripPunctSlice | rajalakshmi-website-chat-service/utils/helpers.py:28 | The stripped word is a slice of the word with only punctuation cut off on either side. |
| ChatHelpers.StripPunctBare | rajalakshmi-website-chat-service/utils/helpers.py:28 | A word without end punctuation is left as it is. |
| ChatHelpers.Words | rajalakshmi-website-chat-service/utils/helpers.py:27 | Every word is a non-empty run without whitespace. |
| ChatHelpers.ExtractKeywords | rajalakshmi-website-chat-service/utils/helpers.py:18-30 | At most one keyword per word; every keyword is lower case, without whitespace and without end punctuation. |
| ChatHelpers.KeywordsRoundTrip | rajalakshmi-website-chat-service/utils/helpers.py:18-30 | Lower-case keywords that are not stop words and are longer than two letters, joined by spaces, are extracted back exactly. |
| ChatHelpers.KeywordsIgnoreCase | rajalakshmi-website-chat-service/utils/helpers.py:27-28 | The keywords do not depend on the case of the query. |
| ChatHelpers.StopWordWithPunctuationKept | rajalakshmi-website-chat-service/utils/helpers.py:28 | The stop-word test is made before punctuation is stripped, so `the.` gives the keyword `the`. |
| ChatHelpers.PunctuationWordIsEmptyKeyword | rajalakshmi-website-chat-service/utils/helpers.py:28 | A word of three or more punctuation marks gives an empty keyword. |
| ChatHelpers.SourceInfo | rajalakshmi-website-chat-service/utils/helpers.py:37-43 | A source is formatted exactly when it is a dict whose score can be rounded. |
| ChatHelpers.SourceInfoFields | rajalakshmi-website-chat-service/utils/helpers.py:37-43 | The record holds the position, the title, type and department (or `Unknown`, `content` and none) and the rounded score (default 0.0). |
| ChatHelpers.FormatSources | rajalakshmi-website-chat-service/utils/helpers.py:34-44 | One record per source, numbered from 1 in order; one unformattable source fails the call. |
| ChatHelpers.FormatResponseWithSources | rajalakshmi-website-chat-service/utils/helpers.py:32-50 | The response holds the message, the records and their count. |
| ChatHelpers.GreetingForTime | rajalakshmi-website-chat-service/utils/helpers.py:52-63 | Each greeting is given for exactly its range of hours: morning 5-11, afternoon 12-16, evening 17-20, otherwise `Hello`. |
| ChatHelpers.GreetingChanges | rajalakshmi-website-chat-service/utils/helpers.py:56-63 | Over a day the greeting changes exactly at 5, 12, 17 and 21 o'clock. |
| ChatHelpers.ClassifyQueryIntent | rajalakshmi-website-chat-service/utils/helpers.py:65-90 | The first intent group with a word occurring in the lower-cased query decides; `general` exactly when no group has one. |
| ChatHelpers.IntentIgnoresCase | rajalakshmi-website-chat-service/utils/helpers.py:67 | The intent does not depend on the case of the query. |
| ChatHelpers.AdmissionsWordWins | rajalakshmi-website-chat-service/utils/helpers.py:70-71 | An admissions word anywhere in the query, even inside a longer word, makes it an admissions query. |
| Conversations.NewManager | rajalakshmi-website-chat-service/models/conversation.py:13-17 | A new store is empty and consistent. |
| Conversations.LastN | rajalakshmi-website-chat-service/models/conversation.py:56 | For positive `n`, `h[-n:]` is the suffix of length `min(n, len(h))`. |
| Conversations.LastZero | rajalakshmi-website-chat-service/models/conversation.py:56 | `h[-0:]` is all of `h`. |
| Conversations.TrimMeaning | rajalakshmi-website-chat-service/models/conversation.py:55-56 | A positive bound keeps the newest messages up to the bound; a bound of 0 keeps all; a negative bound `-k` drops the oldest `k`. |
| Conversations.Create | rajalakshmi-website-chat-service/models/conversation.py:19-29 | The new id maps to an empty history and fresh metadata titled `New Conversation`; the other entries and the settings stay. |
| Conversations.Title | rajalakshmi-website-chat-service/models/conversation.py:60 | A content of at most 50 characters is the title; a longer one gives its first 50 characters and `...`. |
| Conversations.AddMessage | rajalakshmi-website-chat-service/models/conversation.py:31-67 | Reports success exactly when the id has a history and metadata; an unknown id changes nothing; no id is added or removed. |
| Conversations.GetConversation | rajalakshmi-website-chat-service/models/conversation.py:69-78 | The history is returned exactly when the id is known and its last activity is no more than `timeout` seconds old. |
| Conversations.ContextLines | rajalakshmi-website-chat-service/models/conversation.py:90-92 | One line per message, `User: …` for user messages and `Assistant: …` for the others. |
| Conversations.Context | rajalakshmi-website-chat-service/models/conversation.py:80-94 | A missing, expired or empty conversation gives `""`. |
| Conversations.ContextOfRecent | rajalakshmi-website-chat-service/models/conversation.py:86-94 | Otherwise the context is the newest six messages (at least one), one line each, joined by newlines. |
| Conversations.Cleanup | rajalakshmi-website-chat-service/models/conversation.py:96-108 | The store keeps exactly the conversations that have not expired, and stays consistent. |
| Conversations.OperationsKeepValid | rajalakshmi-website-chat-service/models/conversation.py:19-108 | Creating, adding and cleaning up keep histories and metadata under the same ids. |
| Conversations.AddMessageEffect | rajalakshmi-website-chat-service/models/conversation.py:39-63 | Adding to a known conversation appends the message and trims, sets the last activity, keeps the creation time and leaves every other conversation alone. |
| Conversations.AddMessageNewest | rajalakshmi-website-chat-service/models/conversation.py:49-56 | With a positive bound the history ends with the new message and never exceeds the bound. |
| Conversations.AddMessageTitle | rajalakshmi-website-chat-service/models/conversation.py:58-61 | The title changes exactly when a user message leaves a one-message history, and then comes from that message. |
| Conversations.FirstMessageNames | rajalakshmi-website-chat-service/models/conversation.py:58-61 | The first user message of an empty conversation names it, and with a bound of 1 every user message renames it. |
| Conversations.CreateThenGet | rajalakshmi-website-chat-service/models/conversation.py:19-29 | A new conversation reads back empty at once, unless the timeout is negative. |
| Conversations.ExpiredStillAccepts | rajalakshmi-website-chat-service/models/conversation.py:39-52 | An expired conversation cannot be read but still accepts a message, which revives it. |
| Conversations.CleanupInvisible | rajalakshmi-website-chat-service/models/conversation.py:96-108 | Cleaning up changes no reading taken at the same time and leaves nothing expired. |
| Rag.MetadataOf | rajalakshmi-website-chat-service/services/rag_service.py:61 | Metadata can be read further exactly when the result and its metadata (default `{}`) are dicts. |
| Rag.HeaderParts | rajalakshmi-website-chat-service/services/rag_service.py:64-70 | One part per truthy field among title, department and category, in that order. |
| Rag.Header | rajalakshmi-website-chat-service/services/rag_service.py:72 | The header is `Source` exactly when none of the three fields is truthy. |
| Rag.PartShown | rajalakshmi-website-chat-service/services/rag_service.py:65-70 | A non-empty string field shows as its caption and value. |
| Rag.HeaderOfAll | rajalakshmi-website-chat-service/services/rag_service.py:64-72 | With all three fields, the header is `Title: … \| Department: … \| Category: …`. |
| Rag.Entry | rajalakshmi-website-chat-service/services/rag_service.py:59-74 | An entry can be built exactly when the metadata can be read. |
| Rag.Entries | rajalakshmi-website-chat-service/services/rag_service.py:59-74 | One entry per result, numbered from 1 in order; one unreadable result fails the call. |
| Rag.BuildContext | rajalakshmi-website-chat-service/services/rag_service.py:50-76 | No results give `No relevant information found.`; otherwise the entries joined by blank-line separators. |
| Rag.ContextStartsWithFirst | rajalakshmi-website-chat-service/services/rag_service.py:59-76 | A context built from results starts with `[1] ` and is never the no-results text. |
| Rag.EntryNumbered | rajalakshmi-website-chat-service/services/rag_service.py:74 | Entry `i` opens with `[i] `. |
| Rag.EntryShape | rajalakshmi-website-chat-service/services/rag_service.py:72-74 | Entry `i` is the number, the header and a newline, then the content and a newline. |
| Rag.SourceRecord | rajalakshmi-website-chat-service/services/rag_service.py:85-93 | A record can be built exactly when the metadata can be read. |
| Rag.ExtractSourcesInfo | rajalakshmi-website-chat-service/services/rag_service.py:78-95 | One record per result, in order. |
| Rag.SourceRecordFields | rajalakshmi-website-chat-service/services/rag_service.py:86-93 | The record holds the title, type, department and category (or `Unknown`, `content` and none) and the score and chunk id (or 0.0 and none). |
| ChatConfig.ParseNumeral | rajalakshmi-website-chat-service/config.py:27 | A numeral that parses has only digits, underscores and a sign, and a negative value starts with `-`. |
| ChatConfig.ParseInt | rajalakshmi-website-chat-service/config.py:27 | `int()` accepts only a stripped numeral of that shape. |
| ChatConfig.NumeralRoundTrip | rajalakshmi-website-chat-service/config.py:27 | A printed integer parses back to itself. |
| ChatConfig.ParseIntRoundTrip | rajalakshmi-website-chat-service/config.py:27 | `int(str(n)) == n`. |
| ChatConfig.UnderscoreIgnored | rajalakshmi-website-chat-service/config.py:27 | An underscore between two digit runs changes nothing. |
| ChatConfig.ValidateInt | rajalakshmi-website-chat-service/config.py:22-41 | An unset value gives the default; a non-empty string is accepted exactly when it parses; any other value passes through unchanged. |
| ChatConfig.ValidateIntNumeral | rajalakshmi-website-chat-service/config.py:25-27 | A numeral setting reads as its number, whatever the default. |
| ChatConfig.ValidateIntIdempotent | rajalakshmi-website-chat-service/config.py:22-41 | Validating a validated value changes nothing. |
| ChatConfig.ValidateMaxConversationHistory | rajalakshmi-website-chat-service/config.py:22-27 | Unset gives 50; anything else is read as an integer. |
| ChatConfig.ValidateSessionTimeout | rajalakshmi-website-chat-service/config.py:29-34 | Unset gives 3600; anything else is read as an integer. |
| ChatConfig.ValidateMaxSearchResults | rajalakshmi-website-chat-service/config.py:36-41 | Unset gives 5; anything else is read as an integer. |
| ChatConfig.ValidateCorsOrigins | rajalakshmi-website-chat-service/config.py:43-48 | Unset gives `*`; anything else passes through, and the result is never unset. |
| ChatConfig.CorsOriginsList | rajalakshmi-website-chat-service/config.py:53-57 | `*` gives `["*"]`; every origin is non-empty, stripped and without commas. |
| ChatConfig.CorsOriginsRoundTrip | rajalakshmi-website-chat-service/config.py:53-57 | Stripped origins without commas, joined by commas, are listed back exactly. |
| ChatConfig.JoinSingle | rajalakshmi-website-chat-service/config.py:55-57 | Only the list `["*"]` joins to `*`. |
| ChatConfig.PaddedStarAllowsAll | rajalakshmi-website-chat-service/config.py:55-57 | A padded `*` (` *`) also lists as `["*"]`, through the split. |
| PageUtils.DynamicAndGlobal | rajalakshmi-website/lib/unified-page-utils.ts:142-151 | The two tests do not exclude each other: a response with `pageType` `dynamic` and `source` `globals` is both; an empty response or a `null` is neither. |
| PageUtils.BothKinds | rajalakshmi-website/lib/unified-page-utils.ts:142-151 | A response is both dynamic and global exactly when one of `pageType` and `source` names the dynamic kind and the other the global one. |
| PageUtils.Capitalize | rajalakshmi-website/lib/unified-page-utils.ts:159 | Only the first character changes, to its upper case. |
| PageUtils.FormatSlugStep | rajalakshmi-website/lib/unified-page-utils.ts:156-161 | The display form of a slug is the capitalised part before its first hyphen, a space, then the display form of the rest. |
| PageUtils.FormatSlugPointwise | rajalakshmi-website/lib/unified-page-utils.ts:156-161 | The display form has the slug's length; each hyphen becomes a space and the first character and every character after a hyphen is upper-cased, the rest kept. |
| PageUtils.NoHyphenInDisplay | rajalakshmi-website/lib/unified-page-utils.ts:156-161 | The display form contains no hyphen. |
| PageUtils.SlugFromMeaning | rajalakshmi-website/lib/unified-page-utils.ts:167 | The pattern matcher accepts exactly the strings that satisfy the well-formedness reading below. |
| PageUtils.ValidSlugMeaning | rajalakshmi-website/lib/unified-page-utils.ts:166-168 | A slug is valid exactly when it is non-empty, uses only `a-z`, `0-9` and `-`, and has no hyphen at either end or twice in a row. |
| PageUtils.SlugOfDisplay | rajalakshmi-website/lib/unified-page-utils.ts:156-161 | The inverse: spaces back to hyphens, everything lower-cased. |
| PageUtils.DisplayRoundTrip | rajalakshmi-website/lib/unified-page-utils.ts:156-168 | A valid slug comes back from its display form. |
| PageUtils.GetCanonicalUrl | rajalakshmi-website/lib/unified-page-utils.ts:197-199 | The canonical URL is never empty and never holds two slashes in a row. |
| PageUtils.CanonicalKeepsText | rajalakshmi-website/lib/unified-page-utils.ts:198 | Only slashes are dropped: every other character of the base and the slug remains, in order. |
| PageUtils.CanonicalSettles | rajalakshmi-website/lib/unified-page-utils.ts:198 | Collapsing slashes again changes nothing. |
| PageUtils.CanonicalOfValidSlug | rajalakshmi-website/lib/unified-page-utils.ts:197-199 | Without a base, a valid slug gives `/` followed by the slug. |
| PageUtils.GetPagePriority | rajalakshmi-website/lib/unified-page-utils.ts:186-192 | A page that is not dynamic has priority 1000; a dynamic page's priority is truthy or 0. |
| PageUtils.PriorityOrder | rajalakshmi-website/lib/unified-page-utils.ts:186-192 | A dynamic page takes its own truthy priority, else 0, even when it is also a global page; a global page that is not dynamic gets 1000. |
| PageUtils.DynamicRanksFirst | rajalakshmi-website/lib/unified-page-utils.ts:186-192 | A dynamic page without a priority, or with an integer priority below 1000, ranks strictly before every page that is not dynamic. |
| PageUtils.ExtractSeoMetadata | rajalakshmi-website/lib/unified-page-utils.ts:173-181 | The title is truthy exactly when one of `metaTitle`, `heroTitle`, `pageTitle` is, and the SEO fields win over the page's own when truthy; keywords come from the SEO data only. |
| PageUtils.SeoFromHero | rajalakshmi-website/lib/unified-page-utils.ts:173-181 | Without SEO data, title, description and image come from the hero fields and there are no keywords. |
| PageUtils.GetBreadcrumbData | rajalakshmi-website/lib/unified-page-utils.ts:317-335 | The trail starts with Home and ends with `/{slug}`; it has a category crumb exactly when the page is dynamic with a truthy category; a category that is not a string cannot be formatted. |
| PageUtils.BreadcrumbLabels | rajalakshmi-website/lib/unified-page-utils.ts:322-332 | The category crumb shows the formatted category and links to `/category/{category}`; the last crumb shows the hero title when truthy, else the formatted slug. |
| PageNormalize.GetPresent | rajalakshmi-website/lib/unified-page-utils.ts:293-311 | Reading a defined property gives its first value. |
| PageNormalize.PresentNames | rajalakshmi-website/lib/unified-page-utils.ts:293-311 | A property that is everywhere undefined is absent. |
| PageNormalize.CellText | rajalakshmi-website/lib/unified-page-utils.ts:225 | A falsy own value gives an empty cell; a string value is kept as it is; a name found only on the prototype prints that inherited member. |
| PageNormalize.CellOfColumn | rajalakshmi-website/lib/unified-page-utils.ts:223-230 | A converted cell holds the column key, the row's value as text (inherited members included), the id `{rowKey}_{key}`, and no link. |
| PageNormalize.InheritedNameCell | rajalakshmi-website/lib/unified-page-utils.ts:225 | A row without its own `constructor` prints the `Object` constructor for that column. |
| PageNormalize.ConvertRow | rajalakshmi-website/lib/unified-page-utils.ts:219-236 | A converted row is an object whose rows no longer need converting. |
| PageNormalize.ConvertedRowShape | rajalakshmi-website/lib/unified-page-utils.ts:219-236 | The converted row has the row's truthy id or `row_{index}`, and one cell per column, in column order. |
| PageNormalize.ColumnList | rajalakshmi-website/lib/unified-page-utils.ts:213-222 | An undefined column list is empty; anything but an array, or an array holding `null`, throws. |
| PageNormalize.ConvertRows | rajalakshmi-website/lib/unified-page-utils.ts:216-239 | Conversion throws exactly when some row has record data and the columns cannot be iterated; otherwise rows keep their positions, rows without record data are kept unchanged, and no row is left with record data. |
| PageNormalize.ConvertTable | rajalakshmi-website/lib/unified-page-utils.ts:212-245 | A `null` configuration throws; a configuration that is not an object passes through; an object keeps its property names in order. |
| PageNormalize.KeysOf | rajalakshmi-website/lib/unified-page-utils.ts:241-244 | The names of an object's properties, in order. |
| PageNormalize.PutKeys | rajalakshmi-website/lib/unified-page-utils.ts:241-244 | Replacing a present property keeps the property names and their order. |
| PageNormalize.PutSame | rajalakshmi-website/lib/unified-page-utils.ts:241-244 | Replacing a property by its own value changes nothing. |
| PageNormalize.PutTwice | rajalakshmi-website/lib/unified-page-utils.ts:241-244 | Replacing twice with the same value is replacing once. |
| PageNormalize.ConvertTableSettles | rajalakshmi-website/lib/unified-page-utils.ts:212-245 | Converting a converted table again changes nothing. |
| PageNormalize.ConvertSection | rajalakshmi-website/lib/unified-page-utils.ts:210-290 | A `null` section throws; a section keeps being an object or not, and keeps its property names; a non-object passes through. |
| PageNormalize.ConvertTablesSettle | rajalakshmi-website/lib/unified-page-utils.ts:249-286 | Converting a list of converted tables again changes nothing. |
| PageNormalize.ConvertSectionSettles | rajalakshmi-website/lib/unified-page-utils.ts:210-290 | Converting a converted section again changes nothing. |
| PageNormalize.SectionList | rajalakshmi-website/lib/unified-page-utils.ts:206 | Falsy sections give an empty list; truthy sections that are not an array cannot be mapped. |
| PageNormalize.FieldNameNamesIt | rajalakshmi-website/lib/unified-page-utils.ts:119-137 | Every field is found back by its name. |
| PageNormalize.Defaults | rajalakshmi-website/lib/unified-page-utils.ts:293-309 | One default per listed field, in the listed order. |
| PageNormalize.GetDefaults | rajalakshmi-website/lib/unified-page-utils.ts:293-309 | Reading a field from the defaults gives its default value, and nothing for a field not listed. |
| PageNormalize.ConvertedSections | rajalakshmi-website/lib/unified-page-utils.ts:206-290 | The sections convert exactly when the list can be mapped and every section converts, and then each converted section sits at its position. |
| PageNormalize.NormalizePageResponse | rajalakshmi-website/lib/unified-page-utils.ts:204-312 | Normalising fails exactly when the conversion of the sections throws. |
| PageNormalize.LastForUnique | rajalakshmi-website/lib/unified-page-utils.ts:310 | With distinct property names, the last property of a name is the only one. |
| PageNormalize.SpreadFields | rajalakshmi-website/lib/unified-page-utils.ts:303-310 | Spreading the response keeps its names; its `sections` are replaced by the converted ones when truthy. |
| PageNormalize.AssembleGiven | rajalakshmi-website/lib/unified-page-utils.ts:293-311 | A property the response holds is taken from the response, since it is spread last. |
| PageNormalize.AssembleMissing | rajalakshmi-website/lib/unified-page-utils.ts:293-311 | A field the response lacks gets its default. |
| PageNormalize.GivenFieldsWin | rajalakshmi-website/lib/unified-page-utils.ts:293-311 | Every property the response holds, except `sections`, comes out unchanged. |
| PageNormalize.MissingFieldDefaulted | rajalakshmi-website/lib/unified-page-utils.ts:293-311 | A missing field gets its default. |
| PageNormalize.MissingTimesDefaulted | rajalakshmi-website/lib/unified-page-utils.ts:295-299 | Missing `createdAt`, `updatedAt` and `globalType` become `""`. |
| PageNormalize.MissingKindDefaulted | rajalakshmi-website/lib/unified-page-utils.ts:297-298 | A missing `pageType` or `source` is `dynamic` / `dynamic-pages` when the response has a truthy slug, else `global` / `globals`. |
| PageNormalize.MissingHeroTitle | rajalakshmi-website/lib/unified-page-utils.ts:300 | A missing hero title falls back to `pageTitle`, then `title`, then the formatted slug. |
| PageNormalize.ResultSections | rajalakshmi-website/lib/unified-page-utils.ts:206-303 | Truthy sections come out converted, one per section in order; falsy sections are kept as they were; missing sections become `[]`. |
| PageNormalize.NormalizedKind | rajalakshmi-website/lib/unified-page-utils.ts:297-298 | Without `pageType` and `source`, the normalised page is dynamic exactly when the response has a truthy slug, and global exactly when it has none. |
| JsValues.JsOr | rajalakshmi-website/lib/unified-page-utils.ts:176-179 | `a \|\| b` is truthy exactly when one of them is. |
| JsValues.OrValue | rajalakshmi-website/lib/unified-page-utils.ts:295-300 | The same with a defined fallback. |
| JsValues.IndexKeyRoundTrip | rajalakshmi-website/lib/unified-page-utils.ts:225 | An array index printed as a key reads back as itself. |
| JsValues.IndexKeyCanonical | rajalakshmi-website/lib/unified-page-utils.ts:225 | An index key is the printed form of its value. |
| JsValues.JsProp | rajalakshmi-website/lib/unified-page-utils.ts:225 | Own-property access on an object reads the property; on an array, the element at an index key; on `null` and other primitives, nothing. |
| JsValues.InheritedString | rajalakshmi-website/lib/unified-page-utils.ts:225 | An inherited text exists exactly for an object or array without the own key when the key names an `Object.prototype` member. |
| JsValues.InheritedMembers | rajalakshmi-website/lib/unified-page-utils.ts:225 | `constructor` and `toString` of an object print native functions; an array's constructor is `Array` and its `__proto__` prints empty. |
| JsValues.JsString | rajalakshmi-website/lib/unified-page-utils.ts:225 | `String(v)` keeps strings, gives `undefined` for an undefined value, prints integers below 10^21 in decimal, an object as `[object Object]` and an empty array as `""`. |
| JsValues.ArrayOfStrings | rajalakshmi-website/lib/unified-page-utils.ts:225 | An array of strings prints as the strings joined by commas. |
| OrderedObjects.ValuesFor | rajalakshmi-website/app/coe/page.tsx:45-69 | A key collects no value exactly when no item has it. |
| OrderedObjects.GroupBy | rajalakshmi-website/app/coe/page.tsx:45-69 | Every key of the items occurs exactly once among the groups and no other key does; each group holds the values of its key's items, in item order. |
| OrderedObjects.InsertPermutes | rajalakshmi-website/app/coe/page.tsx:71 | Insertion adds exactly the entry. |
| OrderedObjects.InsertAscending | rajalakshmi-website/app/coe/page.tsx:71 | Insertion keeps the entries ascending. |
| OrderedObjects.SortBySorts | rajalakshmi-website/app/coe/page.tsx:71 | Sorting gives an ascending permutation. |
| OrderedObjects.KeysWhere | rajalakshmi-website/app/coe/page.tsx:71 | A selection keeps only the entries whose key has the asked property. |
| OrderedObjects.KeysWhereSplit | rajalakshmi-website/app/coe/page.tsx:71 | The two selections together are the entries. |
| OrderedObjects.Entries | rajalakshmi-website/app/coe/page.tsx:71 | `Object.entries` lists the same entries and keys. |
| OrderedObjects.EntriesOrder | rajalakshmi-website/app/coe/page.tsx:71 | Integer-like keys come first in ascending order; the other keys keep their insertion order. |
| OrderedObjects.GroupedEntries | rajalakshmi-website/app/coe/page.tsx:45-71 | Listing the groups keeps each key once with its values. |
| ImageUrls.ImageUrl | rajalakshmi-website/lib/api.ts:39-43 | `null`, `undefined` or `""` gives exactly `/default.jpg`; a path starting with `http` is kept; any other path gives exactly the API base followed by the path. The URL always ends with a given path. |
| ImageUrls.HttpKept | rajalakshmi-website/lib/api.ts:41 | A URL starting with `http` is kept. |
| ImageUrls.DefaultNotHttp | rajalakshmi-website/lib/api.ts:40-42 | The default image is not an `http` URL, so it is put behind the API base. |
| ImageUrls.ImageUrlSettles | rajalakshmi-website/lib/api.ts:39-43 | Resolving a resolved path again changes nothing, except for the default image, which gets the API base. |
| ImageUrls.RemoveSpaces | rajalakshmi-website/lib/api.ts:51 | The result is the text's non-whitespace characters, in order: the text with every whitespace character deleted. |
| ImageUrls.DepartmentFolder | rajalakshmi-website/lib/api.ts:51 | No code gives `default`; otherwise the folder is the code with its whitespace deleted, lower-cased, and never holds whitespace or an upper-case letter. |
| ImageUrls.FolderOfWords | rajalakshmi-website/lib/api.ts:51 | A code of words separated by whitespace gives the words run together in lower case (`Aero Space` gives `aerospace`). |
| ImageUrls.DepartmentImageUrl | rajalakshmi-website/lib/api.ts:45-53 | A truthy image other than the aero placeholder goes through the image resolver; otherwise the department's local image is used. |
| ImageUrls.PlaceholderIsNoImage | rajalakshmi-website/lib/api.ts:47 | The aero placeholder counts as no image. |
| ImageUrls.FolderIgnoresCase | rajalakshmi-website/lib/api.ts:51 | The folder does not depend on the code's case. |
| ImageUrls.CanonicalCodeIsFolder | rajalakshmi-website/lib/api.ts:51 | A lower-case code without whitespace is its own folder. |
| YouTube.IdRunEnd | rajalakshmi-website/components/YouTubeEmbed.tsx:14 | The id runs to the first `&`, newline, `?` or `#`. |
| YouTube.AltAt | rajalakshmi-website/components/YouTubeEmbed.tsx:14 | The first alternative that matches at a position, with an id character after it, is found. |
| YouTube.FirstMatch | rajalakshmi-website/components/YouTubeEmbed.tsx:14 | The first pattern matches at the leftmost position where some alternative matches. |
| YouTube.LastV | rajalakshmi-website/components/YouTubeEmbed.tsx:15 | The greedy `.*` takes the last `v=` before the line's end. |
| YouTube.WatchMatchAt | rajalakshmi-website/components/YouTubeEmbed.tsx:15 | A match of the second pattern has `youtube.com/watch?` at its start and `v=` with an id character after it. |
| YouTube.WatchMatch | rajalakshmi-website/components/YouTubeEmbed.tsx:15 | The second pattern matches at the leftmost position where it can. |
| YouTube.IdFrom | rajalakshmi-website/components/YouTubeEmbed.tsx:14-15 | An id is non-empty and holds none of `&`, newline, `?`, `#`. |
| YouTube.ExtractVideoId | rajalakshmi-website/components/YouTubeEmbed.tsx:12-26 | An extracted id is such a run; none exactly when neither pattern matches anywhere. |
| YouTube.IsYouTubeUrlIgnoresCase | rajalakshmi-website/components/YouTubeEmbed.tsx:29-35 | The test ignores case. |
| YouTube.ExtractedIsYouTube | rajalakshmi-website/components/YouTubeEmbed.tsx:12-35 | Every URL an id is extracted from is a YouTube URL. |
| YouTube.OnlyOneAlternative | rajalakshmi-website/components/YouTubeEmbed.tsx:14 | No two alternatives match at the same position. |
| YouTube.LinkRoundTrip | rajalakshmi-website/components/YouTubeEmbed.tsx:12-26 | A link built from a prefix and an id, after text without `y`, gives the id back. |
| YouTube.FirstMatchAtFirstY | rajalakshmi-website/components/YouTubeEmbed.tsx:14-23 | With no `y` before it, the first pattern matches at the prefix. |
| NavBar.RootOnlyOnRoot | rajalakshmi-website/components/NavBar.tsx:41-56 | The root link is active only on the root path. |
| NavBar.PrefixNotSegment | rajalakshmi-website/components/NavBar.tsx:51 | Prefix matching is not by path segment: `/about` is active on `/aboutus`. |
| NavBar.DepartmentAlias | rajalakshmi-website/components/NavBar.tsx:46-48 | `/department` is active on every `/departments/` page. |
| NavBar.ActiveBelow | rajalakshmi-website/components/NavBar.tsx:41-56 | A link other than the root that is active on a path stays active on every longer path. |
| NavBar.AnySubActive | rajalakshmi-website/components/NavBar.tsx:70-76 | A dropdown is active exactly when one of its entries is. |
| NavBar.FindFrom | rajalakshmi-website/components/NavBar.tsx:62-79 | The search finds the first active item from the given position, or gives the default. |
| NavBar.FindActiveIndex | rajalakshmi-website/components/NavBar.tsx:59-80 | Before mounting the default is used; otherwise the first item that is active itself or through its dropdown, or the default when none is. |
| NavBar.SplitItems | rajalakshmi-website/components/NavBar.tsx:32-33 | The desktop items followed by the more items are all the items; there are more items exactly when the count is below the number of items. |
| Pagination.ButtonCount | rajalakshmi-website/app/blogs/page.tsx:201 | At most five buttons, and as many as pages when there are at most five. |
| Pagination.PageButtons | rajalakshmi-website/app/blogs/page.tsx:201-211 | One page number per button. |
| Pagination.WindowAroundCurrent | rajalakshmi-website/app/blogs/page.tsx:201-211 | For a page in range, the buttons show consecutive pages within `1..totalPages` around the current page. |
| Pagination.PageChange | rajalakshmi-website/app/blogs/page.tsx:88-93 | A page is taken exactly when it lies in `1..totalPages`; otherwise the page does not change. |
| Pagination.PageChangeStaysInRange | rajalakshmi-website/app/blogs/page.tsx:88-93 | From a page in range, no change leaves the range. |
| Pagination.ButtonsNavigate | rajalakshmi-website/app/blogs/page.tsx:201-216 | Every button leads to its page. |
| BlogCard.Prefix | rajalakshmi-website/components/BlogCard.tsx:32 | `substring(0, n)` is the first `n` characters, clamped to the text. |
| BlogCard.Truncate | rajalakshmi-website/components/BlogCard.tsx:31-32 | A description within the limit is kept; a longer one becomes its first characters and `...`. |
| BlogCard.TruncateKeepsPrefix | rajalakshmi-website/components/BlogCard.tsx:31-32 | The truncated text starts with the start of the description and ends with `...` when cut. |
| BlogCard.TruncateIdempotent | rajalakshmi-website/components/BlogCard.tsx:31-32 | Truncating twice is truncating once. |
| BlogCard.TruncateUnchanged | rajalakshmi-website/components/BlogCard.tsx:31-32 | A description is left as it is exactly when it fits, or when it already reads `...` right after the limit. |
| BlogCard.DefaultLimitCuts | rajalakshmi-website/components/BlogCard.tsx:25-32 | With the default limit of 120, a 121-character description is cut to 120 characters and `...`. |
| Coe.HyphenateSpaces | rajalakshmi-website/app/coe/page.tsx:93 | Every run of whitespace becomes a hyphen; text without whitespace is kept. |
| Coe.SectionId | rajalakshmi-website/app/coe/page.tsx:93 | A section id holds neither whitespace nor an upper-case letter. |
| Coe.HyphenatedWords | rajalakshmi-website/app/coe/page.tsx:93 | Non-empty words separated by whitespace runs come out joined by single hyphens. |
| Coe.SectionIdOfWords | rajalakshmi-website/app/coe/page.tsx:93 | The id of a category of words separated by whitespace is the words joined by hyphens, lower-cased (`UG Exams` gives `ug-exams`). |
| Coe.SectionIdSettles | rajalakshmi-website/app/coe/page.tsx:93 | Making an id of an id changes nothing. |
| Coe.PlainCategoryIsId | rajalakshmi-website/app/coe/page.tsx:93 | A lower-case category without whitespace is its own id. |
| Coe.Badges | rajalakshmi-website/app/coe/page.tsx:77-90 | One or two badges, the last always `New`; `Special` first exactly when the category mentions it; otherwise `UG` when it mentions ug, and `PG` only when it mentions pg but not ug; a single badge exactly when it mentions none of the three. |
| Coe.IconFor | rajalakshmi-website/app/coe/page.tsx:73-83 | The star icon exactly for special categories. |
| Coe.SectionTitles | rajalakshmi-website/app/coe/page.tsx:94 | The titles of the sections, in order. |
| Coe.CoeSections | rajalakshmi-website/app/coe/page.tsx:47-105 | No sections at all exactly when some category is the name of an `Object.prototype` member (the push throws and the catch leaves the page empty); otherwise one section per group. |
| Coe.ShownSections | rajalakshmi-website/app/coe/page.tsx:47-105 | The page shows the sections when grouping succeeds and none when it throws. |
| Coe.PrototypeNameEmptiesPage | rajalakshmi-website/app/coe/page.tsx:47-105 | A document in category `toString` leaves the page without sections. |
| Coe.EveryCategoryOnce | rajalakshmi-website/app/coe/page.tsx:47-101 | When grouping succeeds, every category of the documents has exactly one section, and no other section exists. |
| Coe.SectionsHoldTheirDocuments | rajalakshmi-website/app/coe/page.tsx:47-101 | When grouping succeeds, each section holds the links of its category's documents in document order, with its id, icon and badges. |
| Coe.NumericTitlesFirst | rajalakshmi-website/app/coe/page.tsx:71 | When grouping succeeds, categories that look like array indices come first, in ascending order. |

## Left out

- I/O is not modelled: the HTTP endpoints, the webhook listener, the vector database, the bulk processor and the language-model service. `RAGService.search_relevant_content` is an HTTP call to the vector service and is not modelled either.
- Logging calls are not modelled.
- BeautifulSoup is represented by the `markupText` and `markupOther` parameters of `Environment.Env`. The regular-expression fallback of `_clean_html_content` is modelled.
- Python's `repr` of floats, lists and dicts is an uninterpreted parameter, and so is `round(x, 3)`. Floating-point arithmetic is not modelled; floats are Dafny reals.
- `uuid.uuid4()`, `datetime.now()` and the current hour are parameters: `Env.ids`, `Env.now`, the `id` and `now` parameters of `Conversations`, and the `hour` of `ChatHelpers.GreetingForTime`.
- Conversations.Create: `create_conversation` reads the clock twice; the model reads it once, so creation and last activity are equal.
- Conversations.Message: a message's timestamp and metadata are not modelled. The store never reads them.
- Conversations.GetConversation: requires that histories and metadata have the same ids. Otherwise the source raises `KeyError`. Every operation keeps this invariant (`Conversations.OperationsKeepValid`).
- Lower- and upper-casing, `\w`, `\s` and `isdigit` cover ASCII only. Python and JavaScript also treat Unicode letters, digits and whitespace.
- JavaScript strings are modelled as code points, not UTF-16 code units. `length`, `substring` and `charAt` differ for characters outside the Basic Multilingual Plane.
- JsValues.JsString: integers are exact, but `JSON.parse` rounds an integer beyond 2^53 to the nearest double, so JavaScript may print other digits for it. Numbers of 22 or more digits and fractions are rendered through an uninterpreted parameter.
- Coe.CoeSections: documents are typed records of strings. A `null` category or file, or a `docs` that is not an array, throws at coe/page.tsx:47-57 and leaves the page empty; that is not modelled.
- ChatConfig: pydantic loads the `.env` file and coerces types after the `mode='before'` validators. Neither is modelled; the validators and `int()` on strings are.
- ChatConfig.CorsOriginsRoundTrip: holds for lists other than `["*"]`. A padded `" *"` also allows every origin (`ChatConfig.PaddedStarAllowsAll`), so `*` is not the only way to allow all.
- Chunker.ChunkText: requires the effective overlap to be at most half the effective chunk size. With a larger overlap the source loop need not terminate. The configured values, 800 and 100, satisfy this.
- `API_BASE` and `NEXT_PUBLIC_API_BASE_URL` come from the environment. `API_BASE` is modelled as its fallback constant; the COE base URL is a parameter.
- PageNormalize.NormalizePageResponse: properties whose value is `undefined` are treated as absent, so the result may order them differently. The source assigns converted tables into the caller's section objects; the model returns new values instead.
- JsValues.JsProp: reads own properties only. The inherited members of `Object.prototype` are given by `JsValues.InheritedString`, which the row cell uses; other inherited members, such as the `Array.prototype` methods, are not modelled. Native functions print in the spelling of V8.
- Duplicate property names in a JSON object are not modelled. Lemmas about field lookup require distinct names.
- React components are modelled only through their computations:
  - state, effects, timers, scrolling and fetching are left out;
  - rendering and click handlers of `NavBar`, `BlogCard`, the blog list and the COE page are left out.
