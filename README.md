# org-charm core, modelled in Dafny

org-charm serves org-mode files to a terminal. It has three parts, and this project models each of them:

- **Renderer** (`ui/render.go`). It walks a go-org document tree and turns it into styled terminal text. This covers the node dispatch, headlines, blocks, lists, tables, keywords, drawers and footnotes. It also covers the inline scans: planning keywords, `[YYYY-MM-DD ...]` inactive timestamps, emphasis, links and timestamps.
- **Viewer** (`ui/model.go`). This is the key-driven state machine. It switches between the file list and the document view, and it handles the help overlay, the raw toggle and window resizes.
- **File tree** (`org/parser.go`). It builds the directory tree from directory listings, flattens the tree into visible rows, computes depths and titles, and lazily caches parsed files.

Strings are Go strings, so they are modelled as byte sequences (`Bytes.Bytes`). `len` counts bytes and slicing cuts bytes. Glyphs such as `★`, `─` and `🔗` are written as their UTF-8 bytes. `fmt`'s `%-*s` pads by runes, so the `Utf8` module decodes runes the way Go does.

Each lipgloss style is one opaque function per role (`Styles.Theme`): `apply(role, s)` for `Render` and `applyWidth(role, w, s)` for `Width(w).Render`. `Styles.Plain()` is the identity style. The round-trip lemmas use it to show that the timestamp scan, renderText and the rendering of inline text and emphasis drop, add and reorder nothing (`Timestamps.ScanRoundTrip`, `Timestamps.InactiveTimestampsPlain`, `Timestamps.RenderTextPlain`, `Inline.InlinePlainRaw`). The block renderers do add their own stars, bullets, icons and borders, and the lemmas about them state exactly what is added.

The modules are:

| file | module | models |
|---|---|---|
| bytes.dfy | `Bytes` | byte strings and the Go `strings` functions the core calls |
| utf8.dfy | `Utf8` | rune decoding, rune counts and `%-*s` padding |
| document.dfy | `Document` | go-org nodes: one constructor per kind the renderer dispatches on |
| styles.dfy | `Styles` | style roles, the theme, the renderer's inputs, the glyphs |
| timestamps.dfy | `Timestamps` | `isInactiveTimestamp`, `renderInactiveTimestamps`, `renderText` |
| inline.dfy | `Inline` | `renderInlineNodes`, emphasis, links, timestamps |
| tables.dfy | `Tables` | `renderTable`: widths, borders, rows |
| render.dfy | `Render` | `RenderNodes`, `RenderNode` and the block renderers |
| viewer.dfy | `Viewer` | `Model`, `NewModel`, `Update`, `renderDocument` |
| filetree.dfy | `FileTree` | `OrgFile`, `Title`, `FileEntry`, `GetDepth`, `GetOrgFile`, `hasOrgFiles` |
| flatten.dfy | `Flatten` | `FlattenTree` / `flattenRecursive` |
| sorting.dfy | `Sorting` | the ordering `sort.Slice` produces |
| filepath.dfy | `FilePath` | Go's `filepath.Join` and `filepath.Clean`, which make every path the file tree holds |
| treebuild.dfy | `TreeBuild` | `buildFileTreeRecursive`, `BuildFileTree`, `ListOrgFiles` |

The code that builds text or state step by step is written as methods with loops. Each method is proved equal to a function that specifies it. This covers the `strings.Builder` loops, the in-place growth of `colWidths`, the `remaining` loop of the timestamp scan, `flattenRecursive`, `GetDepth` and the tree builder. The viewer and the file entries are classes whose methods update their fields.

## Model

| member | source | states |
|---|---|---|
| Timestamps.CheckInactiveTimestamp | ui/render.go:596-614 | The rune walk over the first ten bytes accepts iff the text has at least 10 bytes, bytes 4 and 7 are `-`, and bytes 0-3, 5-6 and 8-9 are ASCII digits. Nothing after byte 10 is looked at. |
| Timestamps.WriteInactiveTimestamps | ui/render.go:559-593 | The loop that keeps cutting `remaining` terminates, because `remaining` shrinks on every turn. It produces exactly the piecewise output of the bracket scan. |
| Timestamps.ScanRoundTrip | ui/render.go:565-589 | Re-spelling the pieces of the scan, with each styled timestamp put back between its brackets, gives the input. So every byte outside a matched timestamp is emitted verbatim and in order. |
| Timestamps.ScanStamps | ui/render.go:572-583 | Every styled segment is the text between a `[` and the first `]` after it. It contains no `]` and has the timestamp shape. |
| Timestamps.NoBracketPairUnchanged | ui/render.go:565-576 | If no `[` has a `]` after it, the text comes out unchanged, whatever the style. |
| Timestamps.InactiveTimestampsPlain | ui/render.go:559-593 | With the identity Timestamp style the output equals the input. |
| Timestamps.RenderTextKeyword | ui/render.go:539-551 | Take the first of SCHEDULED:, DEADLINE:, CLOSED: that starts the text, either bare or after exactly one space. Only that keyword is styled, with its own role. The optional space stays in front, and the rest goes to the timestamp scan. |
| Timestamps.RenderTextNoKeyword | ui/render.go:554-555 | With no planning keyword at the start, the whole text goes to the timestamp scan. |
| Timestamps.RenderTextPlain | ui/render.go:528-556 | With the identity styles, renderText returns its input. |
| Inline.WriteInlineNodes | ui/render.go:495-501 | The builder loop gives the renderings of the nodes, concatenated in order. |
| Inline.InlineNodesAppend | ui/render.go:495-501 | Rendering a concatenation of node lists is the concatenation of the renderings. |
| Inline.InlinePlainRaw | ui/render.go:503-525 | With the identity styles, text, emphasis and line breaks render to their raw text. |
| Inline.EmphasisRoles | ui/render.go:616-636 | The six markers `* / _ = ~ +` get six distinct roles. Any other kind leaves its content unstyled. |
| Inline.Truncate | ui/render.go:647-651 | Display text of at most 40 bytes is kept. Longer text becomes its first 37 bytes followed by `...`, exactly 40 bytes. |
| Inline.TruncateIdempotent | ui/render.go:647-651 | Truncating twice is the same as truncating once. |
| Inline.ClassifyOrder | ui/render.go:654-666 | The icon follows the first test that holds, in the order: http(s), `file:`, `mailto:`, suffix `.org`, and otherwise the arrow. |
| Inline.IconInjective | ui/render.go:656-666 | The five link kinds have five different icons. |
| Inline.LinkPlain | ui/render.go:638-669 | With the identity style, a link renders as its icon, one space and the truncated text. Without a description the text is the URL. With one, it is the rendered description (the raw text, for plain text and emphasis), and two URLs of the same kind render alike. |
| Inline.TimestampText | ui/render.go:671-683 | The formatted time starts with the day. A timestamp with a time of day continues with a space and the clock. An interval closes it after a space. Its length is exactly those parts, so a date-only timestamp without an interval is the bare day. |
| Inline.TimestampPlain | ui/render.go:671-687 | With the identity style, a timestamp is the calendar icon, one space and the formatted time. |
| Tables.ComputeColumnWidths | ui/render.go:364-382 | The first pass grows `colWidths` by appending and raises entries in place. The result equals the specified column widths. |
| Tables.WidthsCount | ui/render.go:366-382 | There are exactly as many columns as the longest non-separator row has cells. |
| Tables.WidthsCover | ui/render.go:370-381 | Every width is at least 3 and at least the byte length of every rendered cell of its column in a non-separator row. |
| Tables.WidthsAttained | ui/render.go:370-381 | Every width above 3 is the byte length of some cell of its column. So each width is exactly the larger of 3 and the longest cell. |
| Tables.MergeExample | ui/render.go:373-380 | Cells of 5, 2 and 8 bytes give widths 5, 3 and 8. |
| Tables.TableEmpty | ui/render.go:360-386 | A table renders as "" when it has no rows or no data cells. With the identity styles, that is the only way it renders as "". |
| Tables.HeaderRows | ui/render.go:415-432 | A data row's cells are drawn in the header style iff it is row 0 and row 1 is a separator. Every other data row's cells are drawn in the cell style. |
| Tables.HeaderStyleOnly | ui/render.go:415-432 | The header changes only the style: with the identity styles, a header row reads exactly like a data row. |
| Tables.BorderPlain | ui/render.go:389-400 | With the identity style, a border is the left glyph, then one fill run of w+2 per column joined by the mid glyph (so cols-1 mid glyphs), then the right glyph. |
| Tables.BorderRunes | ui/render.go:389-400 | With the identity style and box-drawing glyphs, a border over at least one column is the sum of (w+3) over the columns plus 1 rune wide. |
| Tables.RowAligned | ui/render.go:418-436 | With the identity styles, a data row that fills every column is exactly as wide in runes as the table's borders. |
| Tables.WriteBorder | ui/render.go:389-400 | renderBorder's loop equals the specified border. |
| Tables.WriteRow | ui/render.go:418-434 | The row loop writes `│`, then each cell as ` %-*s ` followed by `│`. A cell beyond the last column is padded to 3. |
| Tables.WriteRows | ui/render.go:407-436 | Each row is written with its newline, and a separator row becomes the inner border. |
| Tables.WriteTable | ui/render.go:357-442 | renderTable equals the specified table: top border, rows, bottom border. |
| Render.WriteNodes | ui/render.go:31-41 | Every node that renders to something is written, followed by a newline, in order. |
| Render.DispatchSkips | ui/render.go:44-75 | Inline kinds and unknown kinds render to "" at block level, and RenderNodes skips them. |
| Render.WriteHeadline | ui/render.go:77-134 | The headline loop gives the styled headline line, a newline, then the children as RenderNodes writes them. |
| Render.HeadlineStars | ui/render.go:81-106 | The headline line opens with one star per level and a space, which is level+1 runes. |
| Render.HeadlinePlain | ui/render.go:84-106 | With the identity styles, the parts come in the order stars, status, `[#p]`, title, `:tags:`, each optional part with its own space. |
| Render.HeadingRoles | ui/render.go:109-119 | Level 1 gets Heading1, level 2 Heading2 and level 3 Heading3, each only that level. Every other level gets Heading4. |
| Render.BlockCaseInsensitive | ui/render.go:136-155 | The block kind does not depend on the letter case of the block name. |
| Render.HeaderWidth | ui/render.go:170-173 | The header width is `max(width-8, 10)`. |
| Render.SourceBlockNoLanguage | ui/render.go:157-197 | Without a language, the code is not highlighted and both borders hold headerWidth dashes. |
| Render.SourceBlockMisaligned | ui/render.go:157-197 | With the identity style and an ASCII language whose label (the language with a space on each side) plus 2 runes fits in headerWidth, the rendered block is the as-written header, the highlighted code and the footer, and the header is one rune narrower than the footer. |
| Render.SourceHeaderMatchesFooter | ui/render.go:175-187 | With the dash run clamped at 0, the header is as wide as the footer (headerWidth+2 runes). This holds without a language, and with an ASCII language whose label plus 1 rune fits in headerWidth. A longer label makes the header wider than the footer. |
| Render.SourceHeaderAsWrittenShort | ui/render.go:176-182 | As written, a header with an ASCII language whose label plus 2 runes fits in headerWidth is one rune narrower than the footer. |
| Render.SourceHeaderAsWrittenExample | ui/render.go:170-187 | At width 80 with language "go", the header is 73 runes and the footer 74. |
| Render.HorizontalRulePanics | ui/render.go:444-446 | As written, the rule panics exactly when the renderer width is below 4. |
| Render.HorizontalRule | ui/render.go:444-446 | The rule with its count clamped at 0 agrees with the source wherever the source does not panic. |
| Render.HorizontalRuleRunes | ui/render.go:444-446 | With the identity style, the rule is `max(width-4, 0)` runes wide. |
| Render.KeywordHidden | ui/render.go:448-456 | TITLE, AUTHOR, DATE and OPTIONS are hidden in any ASCII letter case, whatever the style. With the identity style, any other keyword shows as `#+KEY: value`. |
| Render.WritePropertyDrawer | ui/render.go:458-470 | The drawer loop equals `:PROPERTIES:`, one line per property, then `:END:`. |
| Render.PropertyLineCount | ui/render.go:462-467 | With the identity style, and no newline inside a property's fields, there is one line per property that has a name and a value, and none for the others. |
| Render.ExtractBlockText | ui/render.go:694-705 | The block text is the nodes' text with its trailing newline removed if it has one, and kept whole otherwise. |
| Render.ExtractTrimsOneNewline | ui/render.go:703-704 | Exactly one trailing newline goes: a text ending in two newlines keeps one. |
| Render.WriteBlockText | ui/render.go:694-705 | extractBlockText's loop equals the specified block text. |
| Render.ExtractedTexts | ui/render.go:696-700 | The text of Text nodes is their contents, in order. |
| Render.BulletFor | ui/render.go:277-281 | The bullet is the item's own marker iff it contains a digit, else `•`. |
| Render.CheckboxChoice | ui/render.go:283-292 | X or x gives `[✓]` in the done style, `-` gives `[~]` in the partial style, and a space gives `[ ]` in the empty style. Any other status gives no box. The style tells the status back. |
| Render.Indent | ui/render.go:275 | The indentation is 2×indent spaces. |
| Render.ItemIndented | ui/render.go:312-340 | Every item line, plain or descriptive, starts with 2×indent spaces. |
| Render.ItemPlain | ui/render.go:272-320 | With the identity styles, a one-paragraph item is indent, bullet, space, checkbox and the paragraph text. |
| Render.CollectItemParts | ui/render.go:297-310 | Paragraphs join the content, nested lists go after a newline at indent+1, and other children are rendered as blocks. |
| Render.WriteListItem | ui/render.go:272-320 | renderListItem equals the specified item. |
| Render.WriteListWithIndent | ui/render.go:322-345 | renderListWithIndent is the item lines with the last newline trimmed. |
| Render.WriteList | ui/render.go:255-270 | renderList equals the specified list. |
| Render.ListOutIsIndentZero | ui/render.go:255-345 | renderList is the indent-0 list lines, keeping the final newline. |
| Viewer.Model.constructor | ui/model.go:54-73 | NewModel keeps the files that parse, in order, and starts in the file list at index 0. |
| Viewer.Model.Update | ui/model.go:81-195 | Update changes the fields as the transition function says, and the reachable-state invariant holds. |
| Viewer.Model.PressKey | ui/model.go:121-185 | The key switch changes the fields as the key step says. |
| Viewer.StepKeepsInv | ui/model.go:81-195 | Every message keeps the invariant. A non-empty list has a valid selection, and the document view has a document iff one is open. |
| Viewer.InitialInv | ui/model.go:54-63 | The initial state satisfies the invariant. |
| Viewer.HelpToggles | ui/model.go:110-113 | "?" flips showHelp and changes nothing else. |
| Viewer.HelpSwallowsKeys | ui/model.go:116-119 | While help is shown, any other key only sets showHelp to false. |
| Viewer.QuitKeys | ui/model.go:122-123 | q and ctrl+c quit and leave the state alone. |
| Viewer.ListNavigation | ui/model.go:132-157 | up/k decrements only above 0 and down/j increments only below len-1. home/g sets 0 and end/G sets len-1 (which is -1 for an empty list). |
| Viewer.DocumentNavigation | ui/model.go:146-166 | In the document view the movement keys keep the selection and the document. home/end move the viewport to the top and bottom. |
| Viewer.OpenSelected | ui/model.go:160-166 | enter/l/right open the selected file rendered at width-8, only from a non-empty file list. |
| Viewer.BackToList | ui/model.go:125-173 | esc/h/left return from the document to the list, clear the document and reset rawView. In the list they change nothing. |
| Viewer.RawToggle | ui/model.go:175-184 | "r" toggles rawView only in the document view. The content is then the raw text or the rendered document. |
| Viewer.RawToggleTwice | ui/model.go:175-184 | Toggling twice shows the rendered document again. |
| Viewer.ResizeSizes | ui/model.go:86-102 | A resize sets width and height, sizes the viewport to (w-4, h-7) and sets ready. |
| Viewer.ResizeRendersDocument | ui/model.go:104-106 | With a document open, a resize re-renders it at the new width even while rawView is on. |
| FileTree.Title | org/parser.go:33-38 | The title is the TITLE setting if non-empty, else the name with one trailing ".org" removed. |
| FileTree.TitleTrimsOnce | org/parser.go:37 | "a.org.org" is titled "a.org". |
| FileTree.FileEntry.GetDepth | org/parser.go:180-188 | The depth equals the number of parent links followed until nil. |
| FileTree.FileEntry.GetOrgFile | org/parser.go:191-204 | A directory gives (nil, nil). A cached file is returned without parsing. Otherwise the file is parsed and cached only on success. |
| FileTree.GetOrgFileTwice | org/parser.go:195-203 | After a successful first parse, a second call returns the same file whatever a new parse would give. |
| FileTree.HasOrgFiles | org/parser.go:151-161 | The result is true iff some entry is a file or a directory with children. |
| Flatten.FlattenTree | org/parser.go:164-168 | FlattenTree gives the preorder rows. |
| Flatten.FlattenRecursive | org/parser.go:170-177 | The appended rows are each entry followed by its children's rows iff it is an expanded directory. |
| Flatten.FlattenCollapsed | org/parser.go:170-177 | With no directory expanded, the rows are the top-level list unchanged. |
| Flatten.FlattenShows | org/parser.go:170-177 | Every top-level entry is shown. Every child of an expanded directory that is shown is shown too, at any depth. |
| Flatten.FlatClosed | org/parser.go:170-177 | The shown rows are closed under opening: an expanded directory among them brings all its children. |
| Flatten.FlatInside | org/parser.go:170-177 | Only entries of the tree are shown. |
| Sorting.SortFacts | org/parser.go:136-141 | The order is sorted by key and is a permutation of its input. |
| TreeBuild.ContainsOrgKept | org/parser.go:101-133 | A listing has something to show iff the builder keeps some directory or file. |
| TreeBuild.FileTreesKept | org/parser.go:103-131 | The kept files are exactly the non-hidden ones whose lower-cased name ends in ".org", in listing order. |
| TreeBuild.DirTreesKept | org/parser.go:103-129 | The kept directories are exactly the non-hidden readable ones that contain something to show, in listing order. |
| TreeBuild.BuildTreesAny | org/parser.go:125 | hasOrgFiles of what was built holds iff the listing has something to show. |
| TreeBuild.BuildTreesShape | org/parser.go:97-147 | All directories come before all files. Each group is sorted by lower-cased name and is a permutation of the kept entries. Every entry is unexpanded, unparsed and linked to its parent. |
| TreeBuild.BuildRecursive | org/parser.go:91-148 | A read failure is returned as the error. Otherwise the entries built stand for the specified tree. |
| TreeBuild.BuildFileTree | org/parser.go:87-89 | A read failure is returned as the error. Otherwise the root's entries have no parent and stand for the specified tree of the root, whose paths are joined onto the root directory and cleaned. |
| TreeBuild.ListOrgFiles | org/parser.go:69-84 | A read failure is returned as the error. Otherwise the joined and cleaned paths of the listed files are returned, in listing order. |
| TreeBuild.OrgPathsMembers | org/parser.go:77-81 | A path is returned iff some non-directory of the listing has a name ending in ".org" (case-sensitive) and that path. |
| TreeBuild.OrgPathsOrder | org/parser.go:77-81 | The returned paths follow the listing order. |
| TreeBuild.ListedVersusShown | org/parser.go:78 | ListOrgFiles keeps the hidden ".a.org" and drops "B.ORG". The tree builder does the opposite. |
| FilePath.CleanIdempotent | org/parser.go:79 | Cleaning a cleaned path changes nothing. |
| FilePath.PathJoinPlain | org/parser.go:79 | Joining a name a listing can hold puts it under the cleaned directory: alone under ".", after the root under "/", and after one slash otherwise. |
| FilePath.PathJoinEndsWithName | org/parser.go:107 | Such a joined path ends with the name. |
| FilePath.CleanDotSlash | org/parser.go:107 | A leading "./" before a name a listing can hold goes. |
| FilePath.CleanTrailingSlash | org/parser.go:107 | A trailing slash after a name a listing can hold goes. |
| FilePath.PathJoinDropsDotSlash | org/parser.go:79 | "a.org" joined onto "./orgfiles" is "orgfiles/a.org". |
| FilePath.PathJoinDropsTrailingSlash | org/parser.go:79 | "a.org" joined onto "notes/" is "notes/a.org". |

## Left out

- Reading files and directories and parsing org text (`os.ReadFile`, `os.ReadDir`, go-org's `Parse`, and `ParseFile` as a whole at org/parser.go:51-66) are inputs. A parse is a function from a path to a file or an error. A directory listing is an `FsEntry` tree.
- lipgloss's `Render`, `Width(...)` wrapping, padding and borders belong to a foreign library. They are the opaque per-role functions of `Styles.Theme`, and the colours of ui/styles.go are not part of this model.
- Chroma syntax highlighting (ui/render.go:194-228) is an opaque function. The model keeps only the fact that an empty language returns the code unhighlighted.
- `time.Format` in renderTimestamp is not modelled. The timestamp node carries its day (`2006-01-02 Mon`) and clock (`15:04`) already formatted.
- `fmt.Sprintf("%v", n)` of a go-org node (ui/render.go:523, ui/render.go:701) is an opaque function of the node.
- `strings.ToLower` and `strings.ToUpper` are modelled on ASCII letters only, because Unicode case mapping is not modelled. This affects the tree builder's ".org" test and sort key, the block kinds and the hidden keywords.
- TreeBuild.BuildRecursive: names that are equal after lower-casing come out in one fixed order (an insertion sort). `sort.Slice` is not stable and may order them differently. BuildTreesShape states only what `sort.Slice` promises: sorted and a permutation.
- The bubbles viewport is a record of its size, content and position. How it scrolls on a message is an input of the model, and `GotoTop`/`GotoBottom` are the positions Top and Bottom. Its line arithmetic and `ScrollPercent` are not modelled.
- `Init` (ui/model.go:76-78) starts no command, so it carries nothing to state.
- `View`, `renderFileList`, `renderDocumentView`, `renderHelp` and the help bar (ui/model.go:198-416) are presentation.
- `Author` and `Date` (org/parser.go:41-48) are not modelled; they are the setting lookup `Document.Get` with a fixed key.
- main.go's SSH server, signal handling and flags, and the test files, are not part of this model.
- The wave-reveal and transition animations, the spring integrator and the escape-sequence utilities do not appear in the files modelled, so they are not modelled.
- TreeBuild.BuildRecursive: an entry's relative path is its parent's relative path joined with its name, where the source asks `filepath.Rel` against the root. The two agree for the names a directory listing holds, which contain no slash. The builder skips "." and ".." because it skips hidden names.
- `Render.HorizontalRule` clamps the repeat count at 0 where the source panics (see Findings).

## Findings

| source | as written | input that shows it | evidently intended | confidence | as-written member | corrected member |
|---|---|---|---|---|---|---|
| ui/render.go:178 | `lineLen := headerWidth - len(langLabel) - 2`, but the header has three fixed glyphs (`┌`, `─`, `┐`) around the label and dashes | renderer width 80, language "go": header 73 runes, footer 74 | a dash run of `headerWidth - len(langLabel) - 1`, so that for a label that fits, header and footer are both headerWidth+2 runes | medium, not executed | Render.SourceHeaderAsWrittenExample | Render.SourceHeaderMatchesFooter |
| ui/render.go:445 | `strings.Repeat("─", r.width-4)` with no clamp; a negative count panics | terminal width 11, so the renderer width is 3 | the count clamped at 0, as the source block borders are | medium, not executed | Render.HorizontalRulePanics | Render.HorizontalRule |
