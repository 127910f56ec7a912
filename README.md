# Chinese handwriting practice sheet: a verified model

The practice-sheet web page takes up to 50 code units of text. It keeps
the CJK Unified Ideographs (U+4E00–U+9FFF) and lays each one out as a
block. A block has note space, an optional pinyin header band, and rows of
11 grid boxes. The first box holds the character solid, the next
`traceCount` boxes hold lighter traces, and the remaining boxes are empty.
Blocks are packed greedily onto US-letter pages with a 756 pt content
height. The same pages are shown as a preview and exported as a PDF.

This project models, in Dafny, these parts of the page and proves what
each promises:

- the paginator;
- the per-cell glyph schedule of the preview and of the PDF;
- the guide lines of a grid box;
- the PDF drawing loops, abstracted to a list of drawing commands;
- the input rules: the 50-unit limit, "Clean Up", and saving and loading
  preferences;
- the dictionary lookup `generateCharInfo`;
- the keyboard automaton of the drop-down select.

Conventions:

- **Strings** are sequences of UTF-16 code units (`Text.CodeUnit`), because
  `length` and `split('')` count code units.
- **Lengths** are in units of 1/22 pt, which makes every height and
  position of the layout an integer:
  - a grid box is 575/11 pt high and 576/11 pt wide;
  - the header band is 15 pt;
  - the border is 0.5 pt on each side.
- **Opacities** are in hundredths: 100, 10, 25, 50.
- **Modules:**
  - `Text`, `Dims` and `Settings` hold the data.
  - `Pagination` is the `paginatedBlocks` memo.
  - `Editing` is the "Clean Up" button.
  - `CharInfo` is `generateCharInfo` and its use.
  - `GridBox` and `Cells` are the preview box and the glyph schedule.
  - `Export` is the PDF pass.
  - `StyledSelect` is the select component.
  - `Sheet` is the page's state and handlers, as a class.

## Model

| member | source | states |
|---|---|---|
| Text.Hanzi | src/App.jsx:309 | The filter keeps a unit iff it lies in U+4E00–U+9FFF; the result is no longer than the input and holds only such units. |
| Text.HanziKeepsFirstOrder | src/App.jsx:239 | The filter keeps the relative order of the first occurrences of any two hanzi. |
| Dims.DimsInPoints | src/App.jsx:10-19 | The content area is 576 x 756 pt. A box is 576/11 pt wide and 575/11 pt high. The border is 0.5 pt a side. |
| Settings.Save | src/App.jsx:253-262 | Saving writes every one of the six settings. |
| Settings.LoadAfterSave | src/App.jsx:122-133 | Loading what was saved gives back the saved settings, whatever was current. |
| Settings.LoadOfEmptyIsDefaults | src/App.jsx:126-131 | A saved object with no fields loads as the defaults: 5, 2, true, "mi-zi-ge", 5, "medium". |
| Settings.LoadFieldByField | src/App.jsx:126-131 | Each field is the saved value if present, else that field's own default (`??`), independently of the other fields. |
| Pagination.BlockHeight | src/App.jsx:311-314 | Block height = topSpacing + (15 pt if the header is shown) + rows x 575/11 pt + 1 pt, and at least 1 pt. |
| Pagination.CharBlockFor | src/App.jsx:326-333 | A character block carries the character and its index among the hanzi. |
| Pagination.PackHanzi | src/App.jsx:316-336 | After the walk over n hanzi, every page but the last holds floor(756 pt / bh) blocks (at least 1). The last page holds 1 to that many, or is the single empty page when n = 0. Read in order, the pages are the character blocks of the hanzi. |
| Pagination.PackStep | src/App.jsx:320-335 | One step of the walk (break when the page is non-empty and would overflow, then push) keeps that state. |
| Pagination.PadLastPage | src/App.jsx:338-349 | Padding appends blank blocks keyed to the last page and brings it to the per-page count. An empty page with a block higher than 756 pt stays empty. |
| Pagination.FillEmptyFirstPage | src/App.jsx:350-355 | The second fill never changes the pages: whenever its condition holds, the first fill already did the same work. |
| Pagination.DropEmptyPages | src/App.jsx:357 | No page of the result is empty. A list without empty pages is unchanged, and `[[]]` becomes `[]`. |
| Pagination.Paginate | src/App.jsx:308-358 | The result satisfies `Paginates`: uniform pages, the hanzi in order followed by padding, and ceil(n / per) pages for n > 0. |
| Pagination.HanziKeptInOrder | src/App.jsx:309-336 | The character blocks of all pages, read in order, are exactly the input's hanzi, one each. Block k holds hanzi k with index k. |
| Pagination.NoEmptyPage | src/App.jsx:357 | No returned page is empty. |
| Pagination.PagesFitOrSingle | src/App.jsx:320-324 | Every page's blocks fit in 756 pt, or the page holds a single block. |
| Pagination.BreaksOnlyOnOverflow | src/App.jsx:320-324 | Every page but the last holds only character blocks, and one more block would overflow it. |
| Pagination.LastPagePadding | src/App.jsx:338-349 | On the last page, its k character blocks come first. They are followed by max(0, floor((756 pt - k*bh)/bh)) blank blocks, which makes max(1, floor(756 pt/bh)) blocks in all. |
| Pagination.EmptyInputPage | src/App.jsx:338-357 | Without hanzi the result is one page of floor(756 pt/bh) blank blocks. It is no page at all when a block is higher than 756 pt. |
| Pagination.PaginationIsUnique | src/App.jsx:308-358 | `Paginates` determines the pages completely, so the description is exact. |
| Editing.Dedup | src/App.jsx:242-248 | Removing repeats keeps exactly the same set of units and never lengthens the string. |
| Editing.SanitizeChars | src/App.jsx:236-251 | The seen-set loop computes `Sanitized`: the hanzi of the input with repeats dropped. |
| Editing.SanitizedContents | src/App.jsx:236-251 | The output holds only hanzi, has no repeats, and holds every hanzi of the input. |
| Editing.SanitizedKeepsFirstOrder | src/App.jsx:236-251 | Output units appear in the order of their first occurrence in the input. That makes the output a subsequence of the input. |
| Editing.SanitizeIdempotent | src/App.jsx:236-251 | Cleaning up twice gives what cleaning up once gives. |
| CharInfo.GenerateCharInfo | src/components/helpers.js:45-60 | An empty text gives {}. The keys are exactly the units of the text, hanzi or not. A unit with an entry maps to its pinyin and definition, each `|| ''`. A unit without one maps to two empty strings. |
| CharInfo.SameUnitsSameInfo | src/components/helpers.js:49-58 | Texts with the same set of units give the same map, so repeats and order do not matter. |
| CharInfo.FetchedInfoAsWritten | src/App.jsx:169-173 | As written, `charInfoMap` is always {}, because the returned object has only one-unit property names and never has `charMap`. |
| CharInfo.FetchedInfo | src/App.jsx:166-173 | The intended `charInfoMap` is {} without hanzi. Otherwise its keys are exactly the text's units, and each unit maps to its dictionary pinyin (or "") with an empty `pinyinAll`. |
| CharInfo.PinyinLostAsWritten | src/App.jsx:171-172 | For the text U+4F60 with dictionary pinyin "ni3", the block's header is empty as written and "ni3" with the intended map. |
| CharInfo.HeaderShowsDictionaryPinyin | src/App.jsx:326-330 | With the intended map, every character block's header is its dictionary pinyin, or empty without an entry. |
| GridBox.GuideLines | src/components/gridbox.jsx:25-34 | tian-zi-ge gives the two centre lines. mi-zi-ge gives those plus the diagonals (0,0)-(100,100) and (100,0)-(0,100). Any other type gives none. |
| GridBox.Render | src/components/gridbox.jsx:8-61 | The overlay is present iff `char` is set and carries the opacity prop when it is a number. Otherwise it is full opacity: the default 1 replaces undefined, and a non-number style is dropped. The box is aria-hidden iff there is no char. |
| GridBox.SkipIsSound | src/components/gridbox.jsx:70-76 | When the comparator skips a re-render, the box's rendering is the same. |
| GridBox.SkipIffUnchanged | src/components/gridbox.jsx:70-76 | The comparator skips exactly when char, opacity and gridType are all equal. |
| Cells.OpacityLevel | src/App.jsx:102-108 | `OPACITY_MAP[name]` is 10, 25 or 50 hundredths for "low", "medium" and "high". It is an inherited member exactly for the names of `Object.prototype`, and undefined for every other name. |
| Cells.PreviewProps | src/App.jsx:606-619 | Cell (r, c) gets the character iff the block is a character block and r*11+c is 0 or at most traceCount. It is solid at index 0, gets the looked-up trace value elsewhere, and gets opacity 0 without a character. |
| Cells.GlyphAt | src/App.jsx:520-532 | The PDF draws a glyph at index i iff the block is a character block and i is 0 or at most traceCount. The glyph is the block's character, solid at index 0, with opacity in (0, 1]. |
| Cells.GlyphSchedule | src/App.jsx:520-557 | Per cell: a glyph iff character block and index 0 or at most traceCount. It is solid at index 0. Elsewhere it is 0.1 / 0.25 / 0.5 for low / medium / high and 0.25 for a name the map lacks. It is black for an inherited name, because `opacity < 1` is false. |
| Cells.PreviewMatchesPdf | src/App.jsx:606-619 | Except for a name the map lacks, every preview cell shows exactly the glyph and opacity the PDF draws, over the same guide lines. This includes the inherited names, which are solid in both. |
| Cells.UnknownLevelDiverges | src/App.jsx:588-617 | For a name the map lacks, trace cells are solid in the preview (undefined, so the default 1) but 0.25 in the PDF. |
| Cells.GlyphCountIs | src/App.jsx:519-531 | A character block with n grid indices shows min(n, max(traceCount, 0) + 1) glyphs. A blank block shows none. |
| Cells.BlockGlyphsAreIndices | src/App.jsx:519-531 | Counting the rows x 11 cells row by row gives the count over the grid indices 0 to 11 x rows - 1, each cell taken once. |
| Cells.GlyphCellsOfBlock | src/App.jsx:519-531 | The cells of a character block of `rows` rows show min(11 x rows, max(traceCount, 0) + 1) glyphs. A blank block's cells show none. |
| Export.AdvanceOmitsBorder | src/App.jsx:462-570 | The cursor advance per block is 1 pt less than the block height the paginator uses. The glyph size is 47 pt. |
| Export.DrawRow | src/App.jsx:489-568 | The column loop draws, for columns 0..10 at x = 18 pt + c x 576/11 pt: the box, its guides, and its glyph. |
| Export.DrawRows | src/App.jsx:488-570 | The row loop draws the rows in order, one box height apart, and moves the cursor down rows x box height. |
| Export.DrawBlock | src/App.jsx:460-570 | A block is its header line (when shown and non-empty), then its rows. The cursor ends one advance lower. |
| Export.DrawPage | src/App.jsx:456-571 | The blocks of a page are drawn from the top margin, each one advance below the previous. |
| Export.DrawPages | src/App.jsx:455-572 | The document is the pages in order, with a page break before every page but the first. |
| Export.PageBreakCount | src/App.jsx:455-457 | A document of m pages contains exactly m - 1 page breaks. |
| Export.FontRequests | src/App.jsx:429-452 | The CJK font is fetched iff some block is a character block. The pinyin font is fetched iff the header is shown and some block has non-blank pinyin (JavaScript `trim`). |
| Export.RegisteredFonts | src/App.jsx:434-452 | KaiTi is registered iff it was requested and its fetch succeeded. The pinyin font is registered iff it was requested and its fetch succeeded. |
| Export.KaitiRequestedIffHanzi | src/App.jsx:429-437 | On paginated pages, the CJK font is fetched iff the input has a hanzi. |
| Export.NoPinyinFontWithoutInfo | src/App.jsx:440-452 | With an empty pinyin map the pinyin font is never fetched. |
| Export.FittedPageStaysInMargins | src/App.jsx:459-570 | A page whose blocks fit in 756 pt is drawn inside the content area, with at least 1 pt per block to spare. |
| Export.DocumentStaysInMargins | src/App.jsx:455-572 | When one block fits on a page, every drawn page of the paginated sheet stays inside the margins. |
| Export.GuidesMatchPreview | src/App.jsx:507-515 | The PDF draws the preview's guide lines for the grid type, in the same order, scaled onto the box. The second diagonal is drawn in the opposite direction. |
| StyledSelect.FindIndex | src/components/styledselect.jsx:61 | Returns the first index holding the value, or -1 when no option holds it. |
| StyledSelect.InitialHighlight | src/components/styledselect.jsx:59-62 | On opening, the highlight is the selected option. Failing that it is option 0, or -1 exactly when there are no options. |
| StyledSelect.NextDown | src/components/styledselect.jsx:157 | From any highlight in [-1, n-1], ArrowDown lands on option (prev + 1) mod n. |
| StyledSelect.NextUp | src/components/styledselect.jsx:168 | From any highlight in [-1, n-1], ArrowUp lands on an option. From an option it lands on (prev - 1) mod n. |
| StyledSelect.ArrowsInverse | src/components/styledselect.jsx:154-172 | On an option, ArrowUp undoes ArrowDown and ArrowDown undoes ArrowUp. |
| StyledSelect.ArrowsFromNone | src/components/styledselect.jsx:154-168 | ArrowDown from -1 goes to 0. ArrowUp from -1 or from 0 goes to n-1. |
| StyledSelect.DownCycles | src/components/styledselect.jsx:154-161 | j <= n presses of ArrowDown from p land on p + j, wrapping once. So n presses return to the start. |
| StyledSelect.Select.constructor | src/components/styledselect.jsx:13-14 | A new select is closed with no highlight. |
| StyledSelect.Select.OpenEffect | src/components/styledselect.jsx:59-70 | When open, the highlight becomes the initial highlight. When closed, it becomes -1. |
| StyledSelect.Select.ReceiveProps | src/components/styledselect.jsx:59-77 | New options or value rerun the open effect and the clamp. The clamp tests the previous highlight, and the highlight stays valid. |
| StyledSelect.Select.ClampEffect | src/components/styledselect.jsx:73-77 | A highlight at or past the number of options becomes -1. |
| StyledSelect.Select.Toggle | src/components/styledselect.jsx:110-116 | Toggling flips `isOpen`, then sets the highlight as the open effect does. |
| StyledSelect.Select.MouseEnter | src/components/styledselect.jsx:247 | The pointer entering option idx of the open list makes idx the highlight. Nothing else changes. |
| StyledSelect.Select.OptionSelect | src/components/styledselect.jsx:80-91 | Selecting passes the value to `onChange`, closes, and clears the highlight. |
| StyledSelect.Select.ListKeyDown | src/components/styledselect.jsx:142-201 | With no options nothing changes. Escape closes. The arrows wrap. Home goes to 0 and End to n-1. Enter/Space select only a highlighted option. The highlight stays in [-1, n-1]. |
| StyledSelect.Select.MouseDown | src/components/styledselect.jsx:34-43 | A press outside the select closes it and clears the highlight. A press inside changes nothing. |
| StyledSelect.Select.OtherOpened | src/components/styledselect.jsx:46-56 | Another instance opening closes this one. Its own event changes nothing. |
| StyledSelect.OpenThisSelect | src/components/styledselect.jsx:94-107 | After opening instance i, i is open with its initial highlight and every other instance is closed, so at most one is open. |
| Sheet.PracticeSheet.constructor | src/App.jsx:117-137 | On mount the input is empty and the settings are the saved preferences loaded over the defaults. The export is unavailable without the PDF library. |
| Sheet.PracticeSheet.HandleCharInput | src/App.jsx:199-224 | An edit is taken iff it has at most 50 units, and taking it clears an error notice. A refused edit leaves the input unchanged. The limit notice is raised only when the refused value is longer than the current input. |
| Sheet.PracticeSheet.HandleSanitizeInput | src/App.jsx:236-251 | The input becomes `Sanitized` of itself and stays within the limit. |
| Sheet.PracticeSheet.HandleSavePreferences | src/App.jsx:253-267 | Storage holds every setting, and the success notice replaces any other notice. |
| Sheet.PracticeSheet.DebounceFired | src/App.jsx:147-190 | The debounced input catches up, and the pinyin map is recomputed: empty without hanzi, otherwise every unit's dictionary pinyin. |
| Sheet.PracticeSheet.BeginPdf | src/App.jsx:362-364 | Export starts iff the library is loaded, no export is running, and there is a page. Otherwise nothing changes. |
| Sheet.PracticeSheet.FinishPdf | src/App.jsx:419-579 | The export requests the guarded fonts, draws the paginated pages, and resets the export flag. |
| Sheet.PressDuringExport | src/App.jsx:362-364 | A second press while an export runs does nothing. After it finishes, a press starts a new export. |

## Left out

- Rendering, CSS, the textarea auto-resize and the page-separator markup:
  these are presentation only.
- The 500 ms debounce timer, IME composition and the `cancelled` flag of
  the lookup effect. They are timers and overlapping asynchronous work.
  `Sheet.PracticeSheet.DebounceFired` is the moment the timer fires, with
  the lookup completing at once.
- The PDF library itself. This covers styling calls (colours, widths,
  dashes, the header font size), the try/catch fallback placement of a
  glyph, `pdf.save` and the base64 font encoding. Font fetches are
  parameters giving success or failure.
- The exact grey level `Math.round(255 * (1 - opacity))` of a trace glyph.
  It is floating-point detail; a glyph command carries its opacity instead.
- localStorage and `JSON.parse`. An unparsable save and a missing save both
  load as `None`. No value is validated, since `??` only replaces
  null/undefined.
- Setting changes through the selects and the checkbox. They are plain
  state setters.
- `contextPinyinArray`. For the same reason as `charMap` it is always
  empty, and it feeds only markup.
- Button ArrowUp/ArrowDown on the closed select. They race with the open
  effect, so no final highlight is claimed for them.
- Focus handling, `scrollIntoView` and the `CustomEvent` fallback of the
  select.
- The overlay stylesheet. A trace cell whose opacity prop is not a number
  (an inherited member of the opacity map) is taken to render at full
  opacity. The stylesheet is not part of this model, and a rule there
  could set a different opacity.
- The stroke-order pop-up, the notification pop-up's timer and the custom
  checkbox.
- Sheet.PracticeSheet.DebounceFired: uses the intended pinyin map
  (`CharInfo.FetchedInfo`), not the as-written empty map. The as-written
  behaviour is stated by `CharInfo.FetchedInfoAsWritten` (see Findings).
- StyledSelect.Select.ListKeyDown: requires the list to be open, because
  the list element and its key handler exist only while `isOpen` holds.

## Findings

| source | as written | input that shows it | evidently intended | confidence | as-written member | corrected member |
|---|---|---|---|---|---|---|
| src/App.jsx:171-172 | `setCharInfoMap(result.charMap \|\| {})` reads a `charMap` property. The object `generateCharInfo` returns is the flat map itself, keyed by single code units, so the property is always undefined and `charInfoMap` is always {}. Every header band stays blank and the pinyin font is never fetched. | text "你" (U+4F60) with dictionary pinyin "ni3": the block's header text is "" | use the returned map itself, so each character's header shows its dictionary pinyin | high, not executed | CharInfo.FetchedInfoAsWritten | CharInfo.FetchedInfo |
