# wikidump-parser, modelled in Dafny

wikidump-parser reads Wikipedia's multistream `pages-articles` dumps. The
dump comes with a bzip2-compressed index with one `offset:id:title` line per
page. `offset` is the byte position of the compressed block that holds the
page. The library side (`src/lib.rs`) does three things:

- it builds an in-memory `PageIndex` from that file, and records each page's
  ordinal inside its block;
- it answers lookups by id and by title, and gives the byte length of a block;
- it turns the XML of one decompressed block into `Page` records with an
  event-driven state machine.

The binary side (`src/main.rs`) renders a page's wikitext syntax tree to
HTML with `parse_nodes`, `parse_parameters` and `simple_tab`.

The project has five modules:

- `Wrappers` (`wrappers.dfy`): `Option` and `Result`. Every `unwrap`,
  `expect`, `panic!` and out-of-range slice of the source becomes an `Err`
  that carries the reason.
- `Strings` (`strings.dfy`): the Rust `str` operations the core relies on.
  These are `split`, `join`, `lines`, `parse::<u64>`, the `Display` form of
  a number, `contains`, `replace`, `split_whitespace().next()` and ASCII
  `to_lowercase`. Each has lemmas that tie it to its inverse or to a
  pointwise description.
- `PageIndexing` (`page_index.dfy`): `PageIndexEntry`, and the `PageIndex`
  class whose `pages` field `build_index_file` replaces. Each method is
  proved against a specification function (`BuildIndex`, `FirstIdIndex`,
  `BlockSize`). Lemmas about those functions state:
  - one entry per line;
  - failure exactly at the first bad line;
  - ordinals that count the earlier pages of the same block;
  - block lengths that reach the next distinct offset.
- `PageParsing` (`page_parser.dfy`): the `Page`, `Revision`, `Contributor`
  and `PageText` records. It also holds `get_pages_from_string` as a loop
  over a sequence of XML events. The loop is proved equal to a step
  function `Step`/`Run`, and the properties are proved about that
  function. `Page::new` is `NewPage`, with every string empty and every
  number 0. Its defaults are the page the closing step and the sample
  block start from.
- `WikiRender` (`renderer.dfy`): the syntax tree the renderer consumes,
  `parse_nodes` as a method proved equal to the recursive function
  `Render`, and `parse_parameters` and `simple_tab` as loops proved equal to
  `RenderParams` and `SimpleTabText`. Lemmas cover:
  - toggle balance;
  - footnote numbering;
  - lists and parameters (one output per input);
  - template dispatch;
  - the shape of links, images, headings and table rows.

Behaviour notes. The model follows the code in each of these:

- An external link whose content has no whitespace shows the whole
  content as its label (`WikiRender.ExternalLinkBare`).
- An image always gets a caption paragraph, because `split` never yields
  an empty sequence. The `else` arm of `src/main.rs:85-86` cannot run
  (`WikiRender.ImageCaption`).
- The title of an index line is only the third colon-separated field. A
  title that itself contains `:` is cut at its first colon
  (`PageIndexing.ParseLine`, `PageIndexing.OneEntryPerLine`).

## Model

| member | source | states |
|---|---|---|
| Strings.JoinSplit | src/lib.rs:49 | joining the pieces of `split(':')` with `:` gives back the line, and no piece holds a `:` |
| Strings.SplitJoin | src/main.rs:145 | splitting a `join` of separator-free parts gives back exactly those parts |
| Strings.NatToStringParses | src/main.rs:78 | the decimal form of a number below 2^64 parses back to that number |
| Strings.ParseU64 | src/lib.rs:50 | a parsed number is always below 2^64, the u64 range |
| Strings.ContainsOccurs | src/main.rs:186-187 | `contains` holds exactly when the pattern occurs at some position |
| Strings.ReplaceCharPointwise | src/main.rs:90 | replacing one character by another keeps the length and changes exactly the occurrences of that character |
| Strings.ReplaceAbsent | src/main.rs:74 | a string without the pattern is left unchanged by `replace` |
| Strings.FirstWordIsFirstToken | src/main.rs:73 | the first `split_whitespace` token is a maximal whitespace-free run preceded only by whitespace |
| Strings.LinesJoin | src/lib.rs:48 | for text without carriage returns, no line holds a line break, and joining the lines with line breaks gives back the text, up to the one final line break `lines` drops |
| Strings.ToLowerChanges | src/main.rs:126 | lowercasing keeps the length, changes exactly the uppercase ASCII letters, and is idempotent |
| Strings.TakeWordIsWord | src/main.rs:73 | the word taken is a whitespace-free prefix ended by whitespace or the end of the string |
| PageIndexing.PageIndex.constructor | src/lib.rs:29-33 | a new index holds no entries |
| PageIndexing.PageIndex.BuildIndexFile | src/lib.rs:35-71 | on success the entries become exactly `BuildIndex(contents)`; on the first bad line the error is returned and the entries are unchanged |
| PageIndexing.OneEntryPerLine | src/lib.rs:48-64 | a successful scan has one entry per line, in order, each with the offset, id and title its line's first three fields give |
| PageIndexing.LineRejected | src/lib.rs:49-61 | a line is rejected exactly when the offset or id is not a u64 or fewer than three fields are present |
| PageIndexing.BuildFailsAtFirstBadLine | src/lib.rs:48-61 | the scan fails with error e exactly when some line is rejected with e and every earlier line parses |
| PageIndexing.OkMeansAllLinesParse | src/lib.rs:48-68 | a successful scan means every line parses |
| PageIndexing.ScanPrefixError | src/lib.rs:48-68 | once a prefix of the lines fails, the whole scan fails with the same error |
| PageIndexing.NewOrdinal | src/lib.rs:51-60 | the ordinal given to a new entry counts the earlier entries with its offset |
| PageIndexing.EarlierOrdinalsKept | src/lib.rs:57-64 | recording a line leaves the ordinals already handed out unchanged |
| PageIndexing.RecordKeepsScalars | src/lib.rs:51-54 | after a line, `current_block` is its offset and `number_in_block` counts the entries in that block |
| PageIndexing.OrdinalCountsEarlierInBlock | src/lib.rs:51-67 | with ascending offsets, each entry's `number_in_block` is the number of earlier entries with the same offset |
| PageIndexing.OrdinalsExample | src/lib.rs:51-67 | offsets 0,0,0,500,500,1000 receive the ordinals 0,1,2,0,1,0 |
| PageIndexing.FirstIdIndex | src/lib.rs:74-77 | the index returned is that of the first entry with the id; none means no entry has it |
| PageIndexing.PageIndex.IdExists | src/lib.rs:73-78 | None exactly when no entry has the id; otherwise the first entry that has it |
| PageIndexing.PageIndex.TitleExists | src/lib.rs:80-85 | None exactly when no entry has the title; otherwise the first entry that has it |
| PageIndexing.FirstAbove | src/lib.rs:89-96 | the first entry from a position on whose offset exceeds the target's; none means no such entry |
| PageIndexing.PageIndex.GetBlockSize | src/lib.rs:87-99 | the result is `BlockSize` of the entries, and a reported length is positive |
| PageIndexing.BlockSizePositive | src/lib.rs:93-94 | a reported block length is never 0 |
| PageIndexing.BlockSizeIsNextDistinctOffset | src/lib.rs:87-99 | for ascending offsets and a target first with its id: no length exactly when no offset exceeds the target's; otherwise the length reaches an existing offset and no offset lies strictly between |
| PageParsing.WikitextFmt | src/lib.rs:161-163 | the formatted text has the length of its three parts plus 16, the title at position 1, and the wikitext as its suffix |
| PageParsing.Decrement | src/lib.rs:288 | `parent_node -= 1` is subtraction modulo 256 within the i8 range |
| PageParsing.TextAttribute | src/lib.rs:220-228 | one attribute fails exactly on a `bytes` value that is not a u64; otherwise it sets `bytes` or `sha1` as its key says and leaves the rest |
| PageParsing.TextAttributesFails | src/lib.rs:219-230 | the attribute loop aborts exactly when some well-formed `bytes` attribute is not a u64 |
| PageParsing.TextBytesIsLast | src/lib.rs:219-230 | the last `bytes` attribute decides `bytes`, and without one it is kept |
| PageParsing.TextSha1IsLast | src/lib.rs:219-230 | the last `sha1` attribute decides `sha1`, and without one it is kept |
| PageParsing.TextAttributesKeepBody | src/lib.rs:219-230 | the attributes never change the article body |
| PageParsing.TextAttributesPrefixError | src/lib.rs:219-230 | once a prefix of the attributes fails, the whole loop fails with the same error |
| PageParsing.ReadTextAttributes | src/lib.rs:219-230 | the loop computes `TextAttributes` |
| PageParsing.RedirectTargetIsLast | src/lib.rs:238-245 | the redirect target is the value of the last well-formed attribute, whatever its key; with none it is unchanged |
| PageParsing.ReadRedirect | src/lib.rs:238-245 | the loop computes `RedirectTarget` |
| PageParsing.RoutePageText | src/lib.rs:253-260 | `title`, `ns` and `id` fill their field; a non-u64 number is `BadNumber`; any other tag leaves the page alone |
| PageParsing.RouteRevisionText | src/lib.rs:261-274 | the nine revision tags fill their field (the body entity-decoded); a non-u64 number is `BadNumber`; any other tag leaves the page alone |
| PageParsing.RouteRevisionRest | src/lib.rs:268-272 | `model`, `format`, `text` and `sha1` fill their field and never fail |
| PageParsing.RouteContributorText | src/lib.rs:275-282 | `username`, `id` and `ip` fill the contributor's field; a non-u64 id is `BadNumber`; any other tag leaves the page alone |
| PageParsing.RouteText | src/lib.rs:250-285 | a text event fails exactly when it routes to a numeric field and is not a u64; otherwise it stores the value in the routed field, or changes nothing when no field is routed |
| PageParsing.PutGet | src/lib.rs:255-279 | storing a field changes that field and no other |
| PageParsing.RouteTextFields | src/lib.rs:250-285 | after a routed text event, the routed field holds the event's value and every other field is as before |
| PageParsing.PageByFields | src/lib.rs:118-192 | two pages with the same value in every field are equal, so the fields describe a page completely |
| PageParsing.GetPagesFromString | src/lib.rs:194-305 | the event loop returns exactly `Parse(events)` |
| PageParsing.StepPages | src/lib.rs:286-296 | a step keeps the finished pages and appends the scratch page exactly at `</page>` |
| PageParsing.RunPages | src/lib.rs:206-304 | the loop only appends to the finished pages, one per `</page>` before the first `Eof` |
| PageParsing.PageCount | src/lib.rs:194-305 | a successful parse returns as many pages as there are `</page>` events before the end of input |
| PageParsing.RunStopsAtEof | src/lib.rs:210 | nothing after the first `Eof` event is read |
| PageParsing.XmlFailureAborts | src/lib.rs:208 | a tokenizer error before the end of input aborts the parse |
| PageParsing.StepsAppend | src/lib.rs:206-303 | running two event sequences in turn is running their concatenation |
| PageParsing.SampleBlockParses | src/lib.rs:194-305 | a block of two pages parses to exactly those two pages, in order. The first page has the title, namespace, id and redirect its events give. Its revision has an id and a timestamp; its contributor a name and an id; its text both attributes and the decoded body. All other fields stay blank. The second page is blank except for its title. |
| PageParsing.ElementSteps | src/lib.rs:233 | an element `<tag>text</tag>` other than the structural ones makes `tag` the current tag and routes its text under it; the end tag changes nothing |
| PageParsing.NewPageBlank | src/lib.rs:128-155 | a new page has 0 in every numeric field and "" in every string field |
| PageParsing.ClosePageResets | src/lib.rs:289-293 | from any state, `</page>` appends the scratch page to the results, starts a blank one and returns to the page level |
| WikiRender.ParseNodes | src/main.rs:46-164 | the loop over the nodes returns exactly `Render(nodes, doRefs)` |
| WikiRender.ParseNode | src/main.rs:56-161 | one node's arm updates the local state as `RenderNode` says |
| WikiRender.ParseNested | src/main.rs:60-159 | the arms that render child nodes compute `RenderNested` |
| WikiRender.TemplateBranch | src/main.rs:123-149 | the template arm computes `TemplateHtml` |
| WikiRender.ParseListItems | src/main.rs:92-98 | the item loop computes `RenderItems` |
| WikiRender.RenderSeqAppend | src/main.rs:55-162 | rendering two node sequences in turn is rendering their concatenation |
| WikiRender.RenderSeqGrows | src/main.rs:55-162 | the output and footnote buffer only grow, and the footnote counter never goes down |
| WikiRender.NodeEffect | src/main.rs:56-161 | every arm only appends to the output; each node flips only its own toggles and touches the footnote state only for a `ref` tag with footnotes on |
| WikiRender.CategoryLabel | src/main.rs:60-66 | a category links to its target, labelled with the rendered ordinal, or with the target itself when the ordinal is empty |
| WikiRender.FlatEffect | src/main.rs:57-152 | the arms without children keep that per-node effect |
| WikiRender.NestedEffect | src/main.rs:60-159 | the arms with children keep that per-node effect |
| WikiRender.WrapEffect | src/main.rs:60-159 | the arms that append wrapped child output keep that per-node effect |
| WikiRender.ToggleStep | src/main.rs:57-59 | a toggle node emits its opening tag when its flag was off and its closing tag when it was on |
| WikiRender.ToggleParity | src/main.rs:57-91 | after a run of nodes, each toggle is on exactly when it started on xor it was flipped an odd number of times |
| WikiRender.ToggleAlternates | src/main.rs:57-91 | from a fresh call, the flips of each toggle emit open, close, open, ... in order (`BoldItalic` emits the bold mark, then the italic mark) |
| WikiRender.FootnoteCount | src/main.rs:108-121 | with footnotes on, the counter rises once per `ref` tag; with them off, neither the counter nor the buffer changes |
| WikiRender.FootnoteNumbering | src/main.rs:108-117 | the `ref` after k earlier ones gets anchor k+1 in the output and an entry with the same number and its rendered content in the buffer |
| WikiRender.FootnoteModeOnlyForRefs | src/main.rs:108-117 | without `ref` tags, the footnote flag changes nothing |
| WikiRender.NodeModeOnlyForRefs | src/main.rs:108-117 | a node other than a `ref` tag renders the same with footnotes on or off |
| WikiRender.ListItemsRender | src/main.rs:92-98 | a list renders exactly when every item renders |
| WikiRender.ListItemsOnePerItem | src/main.rs:92-98 | a rendered list is one `<li>` per item, in order, each holding that item's rendering |
| WikiRender.RenderItemsLast | src/main.rs:94-96 | the last item's `<li>` comes after those of the others |
| WikiRender.RenderItemsPrefixError | src/main.rs:94-96 | a failure among the first items is the failure of the whole list |
| WikiRender.HeadingHtml | src/main.rs:78 | the heading element is named by the level in decimal, and that number reads back as the level |
| WikiRender.LinkHref | src/main.rs:90 | the href is the target with every space made `_` and every other character kept |
| WikiRender.ExternalHref | src/main.rs:73 | the URL is the first whitespace-separated token of the rendered content |
| WikiRender.ExternalLinkBare | src/main.rs:71-77 | content without whitespace becomes both the href and the label |
| WikiRender.ExternalLinkUsual | src/main.rs:71-77 | `url text` becomes a link to `url` labelled `text`, when `text` does not repeat `url ` |
| WikiRender.TakeWordSplit | src/main.rs:73 | the first token of a word followed by whitespace is that word |
| WikiRender.ImageCaption | src/main.rs:80-88 | the caption is the last `|`-separated segment of the text: it holds no `|`, ends the text, and is preceded by `|` unless it is the whole text |
| WikiRender.ConvertText | src/main.rs:140-143 | `convert` fails exactly on fewer than four parameters, and otherwise joins the first four values |
| WikiRender.TemplateIgnoresCase | src/main.rs:126 | two names with the same lowercase form render the same for the six known templates |
| WikiRender.MainLinksFirstValue | src/main.rs:133-138 | `{{main}}` writes nothing without parameters. Otherwise it links to the first value, labelled with the same value, and ignores the first name and all later parameters. |
| WikiRender.ReflistAnyCase | src/main.rs:126-132 | `Reflist` renders as `reflist` does, from the footnote buffer |
| WikiRender.HeightReverses | src/main.rs:139 | `height` over two lists of parameters is the second's output followed by the first's |
| WikiRender.HeightSingle | src/main.rs:139 | one `height` parameter renders as its value followed by its name |
| WikiRender.RpValuesRecoverable | src/main.rs:145 | the `rp` superscript gives the values back when split at spaces, if no value holds a space |
| WikiRender.ParseParameters | src/main.rs:166-177 | the parameter loop computes `RenderParams` |
| WikiRender.ParamsOnePairEach | src/main.rs:166-177 | one pair per parameter, in order: the rendered name or empty, and the rendered value |
| WikiRender.RenderParamsLast | src/main.rs:168-175 | the last parameter's pair comes after those of the others |
| WikiRender.RenderParamsPrefixError | src/main.rs:168-175 | a failure among the first parameters is the failure of the whole list |
| WikiRender.SimpleTab | src/main.rs:179-191 | the loop computes `SimpleTabText` |
| WikiRender.SimpleTabAppend | src/main.rs:185-189 | the table of two lists of parameters is the first's table followed by the second's |
| WikiRender.SimpleTabSingle | src/main.rs:188 | one parameter gives one row |
| WikiRender.CellKeepsValue | src/main.rs:186-188 | a value cell always contains the value, linked or embedded or not |
| WikiRender.LinkShowsValue | src/main.rs:186 | a linked value appears in its link |
| WikiRender.ImageShowsSource | src/main.rs:187 | an embedded value appears as the image source |
| WikiRender.CellPlain | src/main.rs:186-187 | a value that is neither a URL nor an image is shown unchanged |
| WikiRender.ImageCell | src/main.rs:187 | a parameter named `image` becomes an `<img>` of its (possibly linked) value |
| WikiRender.PlainRow | src/main.rs:188 | a plain parameter's row is `name: value<br>` |

## Left out

- Decompression and file access (`File::open`, `BzDecoder`,
  `MultiBzDecoder`, `get_stream_from_file`, `main`):
  - `BuildIndexFile` takes the decompressed contents of the index file;
  - `GetPagesFromString` takes the output of the XML tokenizer as a sequence
    of events.
- The quick_xml tokenizer itself is not modelled. `trim_text(true)` is
  taken as already applied, and a tokenizer error is an `XmlFailure` event.
- The UTF-8 checks (`u8_slice_to_string`, `String::from_utf8`) are not
  modelled. Strings are sequences of characters, so invalid UTF-8 cannot
  arise.
- `html_escape::decode_html_entities` is a function parameter (`decode`),
  because its entity table is foreign code.
- The wikitext parser (`parse_wiki_text_2`) is not modelled. The renderer
  starts from its syntax tree. The two calls back into foreign code are
  parameters in `Env`: the `Debug` form of a template name, and the
  re-parse and rendering of the footnote buffer for `{{reflist}}`.
- Env.renderReflist is a total function from the footnote buffer to HTML.
  So a failure inside the source's re-rendering of the buffer cannot
  surface through `{{reflist}}`, e.g. a `{{convert}}` with fewer than four
  parameters inside a footnote.
- The `println!` diagnostics are not modelled. The `DefinitionList`,
  `Parameter` and `Table` nodes and tags other than `ref` contribute
  nothing to the output.
- Panics are modelled as `Err` values that name the reason. After one,
  `BuildIndexFile` leaves the index unchanged; the source aborts instead.
- `IsWhitespace` and `ToLower` are approximations:
  - `IsWhitespace` lists the Unicode White_Space characters by code point.
  - The lowercase mapping covers the ASCII letters only. Rust's
    `to_lowercase` maps every Unicode letter.
- WikiRender.FootnoteNumbering: the footnote counter is an unbounded
  number. The source's `u64 current_ref` would overflow after 2^64
  footnotes, which the model does not capture.
- PageParsing.Decrement: wraps as a release build does. A debug build
  panics when `parent_node` is -128 and another `</revision>` or
  `</contributor>` arrives. The counter is reset by the start tags of
  `page`, `revision` and `contributor` (to 0, 1 and 2) and by `</page>`
  (to 0). Counting from such a reset, the panic needs 129, 130 or 131
  closing tags of those two kinds. From the initial -1 it needs 128. The
  model does not capture that panic.
- `Page::get_wikitext` simply borrows a field and has no member of its own.
- The unused local `comment` in `parse_nodes` is not modelled.
- The `find` helper declared inside `simple_tab` is never called, so it is
  not modelled.
- Some helpers split one source body into several members and model no
  operation of their own:
  - `ParseNode`, `ParseNested`, `TemplateBranch`, `ParseListItems`,
    `RenderFlat`, `RenderNested`, `Wrap` and `RenderTemplate` split
    `parse_nodes`;
  - `ReadTextAttributes`, `ReadRedirect` and `RouteRevisionRest` split
    `get_pages_from_string`.
