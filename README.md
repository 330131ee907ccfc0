# PDF annotation tool: a verified model of the annotation core

The application opens a PDF and lets the user draw on it: highlights, typed text, freehand
strokes and signatures. It then exports a copy of the PDF with those marks drawn into the
pages. This project models in Dafny the parts of it that carry logic.

- **The editor component** (`Editor.Annotator`, with `AnnotationModel`, `Geometry`, `Colors` and
  `PdfExport`). Its React state becomes the fields of a class. Each event handler becomes a
  method:
  - mouse down, move and up build a gesture and commit it;
  - Enter in the text box commits text;
  - undo, page change, mode and toolbar buttons;
  - loading the document and exporting.

  The class invariant `Valid` says that every stored annotation is well formed. It covers
  strokes with whole points and at least two of them, highlights of non-zero width, and text
  that is not blank. It also says that the three chosen colours are ones the palette or the
  colour picker's `color.hex` produces: `#` followed by six hex digits, or `transparent` for a
  colour of zero alpha. Every annotation carries such a colour or none. Every handler keeps the
  invariant. When every annotation's colour is of the six-digit form, every colour channel an
  export hands the PDF library is a whole number in 0..255. The channels of `transparent` are
  all `NaN`.

  The export loop is a method (`PdfExport.ExportToPages`) proved equal to a specification
  function (`PdfExport.Export`). Its inner segment loop is `PdfExport.DrawStroke`. The
  specification is `PdfExport.RunExport` applied to the per-annotation drawing
  `PdfExport.DrawOf`. Its ordering and failure lemmas hold for any per-annotation drawing. The PDF
  library's drawing calls are recorded as a list of commands, each tagged with its page. The
  colour parse follows JavaScript's `parseInt(s, 16)`, including its `NaN` result, up to the
  sign of zero and UTF-16 indexing (`JsStrings.ParseHex`). `parseInt("-0", 16)` is −0 in
  JavaScript and 0 here, and a Dafny string is indexed by character, not by UTF-16 code unit.
- **The two annotation-list stores**: the `useAnnotationTools` hook (`AnnotationTools.Tools`)
  and the global document store (`DocumentStore.Store`). Both are classes whose methods replace
  the list with a pure function of the old one. Those functions live in `StoreModel`: append,
  remove by id and update by id with a field-wise patch.
- **The standalone embedder** `embedAnnotationsToPDF` (`PdfUtils`). This is a loop method proved
  equal to a specification function. Annotation i goes to page `i % pages.length`. Text and
  highlights are drawn there and every other kind is skipped. With no page at all, the first text
  or highlight annotation makes the promise reject.

Absent optional fields of the editor's annotations are represented by the value that JavaScript
treats the same way in every test the code makes on them:

- an absent `color` is `""`;
- an absent `fontSize` is `0`;
- an absent style flag is `false`.

The export draws into the document the editor loaded, not into a copy. Two consequences follow:

- A failed export leaves the drawings of the annotations before the failing one in that
  document (`PdfExport.ExportAbortKeepsEarlierDrawings`, `Editor.Annotator.ExportDocument`).
- A later export draws everything again on top.

The model records this in the `drawn` field.

## Model

| member | source | states |
|---|---|---|
| AnnotationModel.ShouldSaveCommits | src/components/PDFAnnotator.tsx:282-300 | on a gesture in progress the mouse-up check accepts exactly a stroke of two points or more, or a highlight of non-zero width whatever its height |
| AnnotationModel.OnPage | src/components/PDFAnnotator.tsx:538-539 | the canvas shows an annotation iff it is stored and its page is the current one |
| AnnotationModel.OnPageCount | src/components/PDFAnnotator.tsx:538-539 | each annotation of the page is shown as many times as it is stored, none of another page |
| AnnotationModel.OnPageConcat | src/components/PDFAnnotator.tsx:538-539 | the page filter keeps insertion order: filtering a concatenation concatenates the filtered parts |
| AnnotationModel.OnPageAppend | src/components/PDFAnnotator.tsx:538-539 | a newly stored annotation is drawn last on its own page and changes nothing on other pages |
| JsStrings.TrimStartRemovesLeadingWhitespace | src/components/PDFAnnotator.tsx:309 | trimming the start leaves a suffix that is empty or starts with a non-whitespace character, with only whitespace cut |
| JsStrings.TrimEnd | src/components/PDFAnnotator.tsx:309 | trimming the end leaves a prefix that is empty or ends with a non-whitespace character |
| JsStrings.TrimNonEmpty | src/components/PDFAnnotator.tsx:309 | `text.trim()` is truthy iff the text has a character that is not JavaScript whitespace |
| JsStrings.Slice | src/components/PDFAnnotator.tsx:402-404 | `slice` with bounds inside the string takes exactly those characters; bounds past the end are clamped: an end past it reads to the end, and a start at or past the end or an end not after the start gives the empty string |
| JsStrings.HexDigit | src/components/PDFAnnotator.tsx:402-404 | a hex digit's value is below 16, and whitespace, signs and `x` are not digits |
| JsStrings.HexPrefix | src/components/PDFAnnotator.tsx:402-404 | the digits `parseInt` reads are the longest all-hex prefix |
| JsStrings.ParseTwoHexDigits | src/components/PDFAnnotator.tsx:401-405 | two hex digits parse to 16·high + low, a value in 0..255 |
| Colors.FillColor | src/components/PDFAnnotator.tsx:416-422 | a missing (empty) colour gives black |
| Colors.WellFormedChannels | src/components/PDFAnnotator.tsx:401-405 | for a well-formed `#RRGGBB` colour each channel is the value of its two digits, in 0..255 |
| Colors.ChannelAt | src/components/PDFAnnotator.tsx:401-405 | the slice of a well-formed colour starting at 1, 3 or 5 parses to 16·high + low of its two digits, in 0..255 |
| Colors.TransparentChannels | src/components/PDFAnnotator.tsx:401-405 | the picker's `transparent` parses to `NaN` in all three channels |
| Colors.NotHexStart | src/components/PDFAnnotator.tsx:402-404 | a two-letter slice that starts with no hex digit, sign or space parses to `NaN` |
| Colors.Encode | src/components/PDFAnnotator.tsx:756 | three channels in 0..255 written as lower-case `#rrggbb`, the form of the colour picker's `color.hex`, make a well-formed colour |
| Colors.ChannelsOfEncode | src/components/PDFAnnotator.tsx:401-405 | parsing an encoded colour gives back its three channels |
| Geometry.ToPageMeaning | src/components/PDFAnnotator.tsx:355-380 | non-text points map to (x − 80, h − y); text points map to (x − 80, h − y − 12) |
| Geometry.ToPageRoundTrip | src/components/PDFAnnotator.tsx:355-366 | the page mapping is inverted by its reverse, so distinct canvas points stay distinct |
| PdfExport.Segments | src/components/PDFAnnotator.tsx:445-475 | a stroke of n ≥ 2 points gives n − 1 segments and fewer points give none |
| PdfExport.SegmentAt | src/components/PDFAnnotator.tsx:447-474 | segment k joins point k to point k + 1, both moved to the page, with thickness 2 |
| PdfExport.HighlightExport | src/components/PDFAnnotator.tsx:388-407 | a highlight gives one rectangle at (x − 80, h − y − height), its own size, parsed colour, opacity 50% |
| PdfExport.TextExport | src/components/PDFAnnotator.tsx:409-437 | text gives one text call 12 lower than other kinds; bold font iff bold; its size or 12; black when it has no colour |
| PdfExport.StrokeExport | src/components/PDFAnnotator.tsx:438-477 | a draw or signature stroke of n points gives exactly its n − 1 segments in order, black when it has no colour |
| PdfExport.CommandColors | src/components/PDFAnnotator.tsx:387-478 | an annotation whose colour is `#` and six hex digits, or absent on a non-highlight, gets only colours of whole channels in 0..255 in its drawing calls |
| PdfExport.RunExportKeeps | src/components/PDFAnnotator.tsx:383-479 | whatever holds of every call each annotation makes holds of everything the export loop draws, completed or aborted |
| PdfExport.ExportColors | src/components/PDFAnnotator.tsx:383-479 | when every annotation has such a colour, every channel the export hands the library's `rgb` is a whole number in 0..255 |
| PdfExport.ExportAbortsIff | src/components/PDFAnnotator.tsx:383-385 | whatever each annotation draws, the export loop fails iff some annotation names a page the document lacks |
| PdfExport.ExportConcat | src/components/PDFAnnotator.tsx:383-479 | whatever each annotation draws, annotations are drawn in list order and a failure stops the run at the failing annotation |
| PdfExport.ExportAbortKeepsEarlierDrawings | src/components/PDFAnnotator.tsx:383-385 | a failed export has drawn exactly what the annotations before the first bad page index drew |
| PdfExport.ExportToPages | src/components/PDFAnnotator.tsx:383-479 | the outer export loop computes the export specification: the commands and whether it completed |
| PdfExport.DrawAnnotationOnPage | src/components/PDFAnnotator.tsx:387-478 | the per-kind switch appends exactly that annotation's commands, on its page |
| PdfExport.DrawStroke | src/components/PDFAnnotator.tsx:445-476 | the `i += 2` loop appends exactly the stroke's segments, on its page |
| Editor.Annotator.constructor | src/components/PDFAnnotator.tsx:86-110 | initial state: draw mode, no annotations, page 0, default colours, size 16, no styles, no document |
| Editor.Annotator.Visible | src/components/PDFAnnotator.tsx:538-539 | the annotations drawn are exactly those stored for the current page |
| Editor.Annotator.Undo | src/components/PDFAnnotator.tsx:195-201 | removes exactly the last annotation and keeps the earlier ones in order; no-op on an empty list |
| Editor.Annotator.ChangePage | src/components/PDFAnnotator.tsx:190-192 | the current page becomes the one the viewer reports |
| Editor.Annotator.DocumentShown | src/components/PDFAnnotator.tsx:519-522 | a newly shown document starts on page 0 |
| Editor.Annotator.SetMode | src/components/PDFAnnotator.tsx:696 | the mode becomes the chosen kind |
| Editor.Annotator.MouseDown | src/components/PDFAnnotator.tsx:204-251 | starts a one-point stroke or a zero-size highlight at the pointer with the current colour and page (signatures colourless); text mode only shows the input there |
| Editor.Annotator.MouseMove | src/components/PDFAnnotator.tsx:253-280 | a stroke gains exactly the pointer's two coordinates with earlier points unchanged; a highlight stretches to the pointer; whole points are kept |
| Editor.Annotator.MouseUp | src/components/PDFAnnotator.tsx:282-300 | the gesture is appended iff the commit check accepts it, and it ends either way |
| Editor.Annotator.TextInput | src/components/PDFAnnotator.tsx:303-337 | while the input is shown, on Enter, non-blank text is appended with the current colour, size and styles, which then reset to defaults; the input hides either way |
| Editor.Annotator.ToggleBold | src/components/PDFAnnotator.tsx:843 | the bold flag flips |
| Editor.Annotator.ToggleItalic | src/components/PDFAnnotator.tsx:851 | the italic flag flips |
| Editor.Annotator.ToggleUnderline | src/components/PDFAnnotator.tsx:859 | the underline flag flips |
| Editor.Annotator.ChooseFontSize | src/components/PDFAnnotator.tsx:870-873 | the size becomes one of the offered sizes |
| Editor.Annotator.ChooseHighlightColor | src/components/PDFAnnotator.tsx:727 | the highlight colour becomes the chosen one: `#` and six hex digits, or `transparent`, as the palette and the picker give |
| Editor.Annotator.ChooseDrawColor | src/components/PDFAnnotator.tsx:769 | the stroke colour becomes the chosen one: `#` and six hex digits, or `transparent`, as the palette and the picker give |
| Editor.Annotator.ChooseTextColor | src/components/PDFAnnotator.tsx:809 | the text colour becomes the chosen one: `#` and six hex digits, or `transparent`, as the palette and the picker give |
| Editor.Annotator.LoadDocument | src/components/PDFAnnotator.tsx:175-187 | a PDF that loads becomes the document; a load that throws changes nothing |
| Editor.Annotator.ExportDocument | src/components/PDFAnnotator.tsx:341-502 | no document: nothing drawn; otherwise the export's drawings go into the document, which is downloaded iff every page index exists, given that the library calls succeed; when every annotation's colour is `#` and six hex digits, every colour channel drawn is in 0..255 |
| StoreModel.WithId | src/hooks/useAnnotationTools.ts:9-13 | the new annotation carries the draft's fields and the generated id |
| StoreModel.ApplyPatchFields | src/hooks/useAnnotationTools.ts:29-31 | a patch overwrites exactly the fields it carries and keeps the others; the empty patch changes nothing; patching is idempotent |
| StoreModel.Append | src/hooks/useAnnotationTools.ts:14 | one element more, the new one last, the old list as prefix |
| StoreModel.RemoveById | src/hooks/useAnnotationTools.ts:17-21 | what remains is exactly the annotations whose id differs |
| StoreModel.RemoveByIdConcat | src/hooks/useAnnotationTools.ts:18-20 | removal keeps the relative order of what remains |
| StoreModel.RemoveByIdCount | src/hooks/useAnnotationTools.ts:18-20 | every annotation with another id keeps all its occurrences; none with the id is left |
| StoreModel.RemoveAbsentId | src/hooks/useAnnotationTools.ts:18-20 | removing an id nobody carries leaves the list unchanged |
| StoreModel.RemoveIdempotent | src/hooks/useAnnotationTools.ts:18-20 | removing an id twice is the same as removing it once |
| StoreModel.UpdateById | src/hooks/useAnnotationTools.ts:23-34 | updating keeps the length of the list |
| StoreModel.UpdateByIdAt | src/hooks/useAnnotationTools.ts:27-33 | position by position: another id is untouched, the id is patched |
| StoreModel.UpdateAbsentId | src/hooks/useAnnotationTools.ts:27-33 | updating an id nobody carries leaves the list unchanged |
| AnnotationTools.Tools.constructor | src/hooks/useAnnotationTools.ts:6-7 | starts with no annotations and no tool |
| AnnotationTools.Tools.AddAnnotation | src/hooks/useAnnotationTools.ts:9-15 | appends the draft under the generated id |
| AnnotationTools.Tools.RemoveAnnotation | src/hooks/useAnnotationTools.ts:17-21 | the list becomes the remove-by-id of the old one |
| AnnotationTools.Tools.UpdateAnnotation | src/hooks/useAnnotationTools.ts:23-34 | the list becomes the update-by-id of the old one |
| AnnotationTools.Tools.SetCurrentTool | src/hooks/useAnnotationTools.ts:7 | the tool changes and the annotations do not |
| DocumentStore.Store.constructor | src/hooks/useDocumentStore.ts:5-7 | starts with no document, no annotations and no tool |
| DocumentStore.Store.AddAnnotation | src/hooks/useDocumentStore.ts:9-12 | one more annotation, the argument, at the end after the old list |
| DocumentStore.Store.RemoveAnnotation | src/hooks/useDocumentStore.ts:14-17 | the list becomes the remove-by-id of the old one |
| DocumentStore.Store.SetCurrentTool | src/hooks/useDocumentStore.ts:19 | the tool changes; the document and the annotations do not |
| PdfUtils.PageOf | src/lib/pdf-utils.ts:11 | with at least one page, annotation i's page index is in range (and is i itself while i is below the page count) |
| PdfUtils.PageOfPeriodic | src/lib/pdf-utils.ts:11 | annotations i and i + page count land on the same page |
| PdfUtils.EmbedOutcome | src/lib/pdf-utils.ts:10-33 | rejection iff there is no page and some text or highlight; otherwise one call per text or highlight, none for draw or signature |
| PdfUtils.EmbedAt | src/lib/pdf-utils.ts:13-31 | each text or highlight is drawn once, in list order, on page i mod n: text as its content at its raw coordinates, size 12; a highlight as its rectangle at opacity 50% |
| PdfUtils.RejectedStaysRejected | src/lib/pdf-utils.ts:10-11 | once a drawing call has failed, the whole embedding is rejected |
| PdfUtils.EmbedAnnotationsToPdf | src/lib/pdf-utils.ts:3-36 | the `forEach` loop computes the embedding specification |

## Left out

- Loading, font embedding and saving with the PDF library, and the byte format of a PDF. The
  drawing calls are recorded as commands, and an export that completes "downloads" the list of
  commands drawn into the document.
- A colour channel is the integer `parseInt` returns, before the source divides it by 255; the
  division, the opacity 0.5 as a fraction and floating-point arithmetic in general are not
  modelled. Colours of `#` and six hex digits export as whole numbers in 0..255
  (`PdfExport.ExportColors`); the picker's `transparent` exports as `NaN` channels
  (`Colors.TransparentChannels`), and what the library does with `NaN` is not modelled.
- Editor.Annotator.ChooseHighlightColor, ChooseDrawColor and ChooseTextColor: require a
  colour of `#` and six hex digits, or `transparent`. The palette and react-color's
  `ChromePicker` are the only callers. The model assumes the picker's `color.hex` takes
  only those forms.
- Editor.Annotator.ExportDocument: the PDF library's calls are assumed not to throw. In the
  source, a failure to embed the font, a drawing call that throws (for instance text with
  characters the standard Helvetica encoding lacks) or a failed `save` also ends in "Export
  Failed" with no download, having drawn an unknown part of the annotations.
- Editor.Annotator.TextInput: requires the input to be shown. A hidden input cannot receive
  key presses; the source's own guard is that the input element exists.
- Coordinates are exact reals. Pointer positions, the `parseFloat` of the text box's CSS
  position (which gives back the pointer coordinates), the text typed, the generated ids
  (`Date.now()`, `uuidv4`) and the result of loading a PDF are parameters of the methods.
- React's asynchronous state updates, effects, object URLs, toasts, the download link, rendering
  with Konva, the colour-picker open and close flags, and page navigation buttons are UI.
- `onUploadNew` is not part of this model. It is the parent's callback after a successful
  export, and also the Clear button's handler.
- The page count the viewer reports on load (`numPages`) only feeds the page label and the
  next-page button's disabled state; it is not modelled.
- Italic and underline are stored on text annotations but are not used by the export; the model
  keeps them and does not draw them.
- PdfExport.Export: requires strokes with whole points (an even number of coordinates), which the
  editor invariant guarantees. An odd list would make the source read an `undefined` coordinate.
- StoreModel.ApplyPatch: a key present in the update with the value `undefined` is treated as an
  absent key. The source's spread would copy the `undefined`.
- PdfUtils.EmbedAnnotationsToPdf: the page count is a parameter. The colour string is passed to
  the drawing calls unparsed, exactly as the source hands it to the library. An absent `content`
  is passed as absent (the source calls `drawText(undefined, ...)`). What the library then does
  with a string colour or an absent text, including throwing, is not part of this model.
