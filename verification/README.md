# rct-box-office ticket printing, modelled in Dafny

A model of the box-office tool for a community theatre. The tool reads the
patron sheet, lets staff filter and select tickets, draws each ticket on a
1650 x 600 canvas and sends the image to a thermal ticket printer.

The modules follow the program's structure:

- `Dashboard` loads the sheet rows, sorts them by date code and keeps the
  selection (`components/ticket-dashboard.tsx`).
- `TicketList` builds the filter menus, the filter, the checkbox state and
  the count label (`components/ticket-list.tsx`).
- `Layout`, `Generator` and `CanvasRender` model drawing. The bulk printer
  and the on-screen preview (`components/ticket-generator.tsx`,
  `components/ticket-canvas.tsx`) each produce a display list: the canvas
  calls, in order.
- `TextFit` models the shrink-to-fit loops.
- `FontLoader` models the show abbreviation (`lib/font-loader.ts`), the key under which both renderers look up a show's title art file `/title-images/<key>.png`.
- `Tickets` models the ticket record, its identity and the attendee code.
- `PrintRoute` models the print endpoint (`app/api/print/route.ts`). It
  returns the response together with the trace of filesystem and process
  effects it performs.
- `Strings`, `Arrays` and `Wrappers` hold the JavaScript string and array
  primitives the code relies on: `\s`, `toLowerCase`, `replace(/\s+/g, "-")`,
  `includes`, `<` on strings, `indexOf`, and `Option`.

Everything outside the code becomes an input:

- image loads, timers and the code generator's promise;
- `measureText`, as an uninterpreted function from text, weight and size to a width;
- the platform, the clock and the printer configuration;
- the outcome of each filesystem call and of `exec`;
- the sheet endpoint's rows.

Three facts about the code deserve a note:

- The bulk loop skips a ticket whose canvas has no 2D context
  (`components/ticket-generator.tsx:73`). So the document has one page per
  selected ticket only when every canvas has a context.
  `Generator.BulkPagesArePagesInOrder` states what the loop does, and
  `Generator.OnePagePerTicket` states when every ticket gets a page.
- The print endpoint removes its temp file only after a command that ran
  cleanly (`app/api/print/route.ts:64-69`): see "## Findings".
- The bulk printer's 1000ms timer (`components/ticket-generator.tsx:235`)
  bounds only the loading of the generated code image. A rejected code
  generation throws, and the ticket gets an error page.

## Model

| member | source | states |
|---|---|---|
| Tickets.SameTicketIsIdentityEquality | components/ticket-list.tsx:51-61 | two tickets are "the same" exactly when their six identity fields (name, show, date, section, row, seat) agree; the subscriber flag plays no part |
| Tickets.AttendeeCodeDecodes | components/ticket-generator.tsx:207 | when no identity field contains "-", splitting the attendee code at "-" gives back the six fields in order |
| Tickets.AttendeeCodeIdentifies | components/ticket-canvas.tsx:38 | for dash-free fields, two tickets share an attendee code if and only if they are the same ticket |
| Tickets.AttendeeCodeTemplate | components/ticket-generator.tsx:207 | the attendee code is the ticket's name, show, date, section, row and seat, in that order, each pair separated by one "-" |
| Tickets.AttendeeCodeCollides | components/ticket-generator.tsx:207 | a "-" inside a field lets two different tickets share one code payload |
| FontLoader.ShowAbbreviationShape | lib/font-loader.ts:27-31 | the abbreviation holds no whitespace, no upper-case ASCII letter, and is never longer than the show name |
| FontLoader.ShowAbbreviationOfWords | lib/font-loader.ts:27-31 | a show name cut at its maximal whitespace runs abbreviates to its words, lower-cased and joined by "-" |
| FontLoader.ShowAbbreviationIdempotent | lib/font-loader.ts:27-31 | abbreviating an abbreviation changes nothing |
| FontLoader.ShowAbbreviationExample | lib/font-loader.ts:27-31 | "The  Music\tMan" abbreviates to "the-music-man" |
| Strings.ReplaceWovenRuns | lib/font-loader.ts:30 | `replace(/\s+/g, "-")` turns each maximal whitespace run into one "-" and keeps every other character |
| Strings.ReplaceLowerCommute | lib/font-loader.ts:30 | lower-casing before or after the run replacement gives the same string |
| Strings.ContainsIffOccurs | components/ticket-list.tsx:40-46 | `includes` holds exactly when the needle occurs at some offset of the haystack |
| Strings.StrLessTransitive | components/ticket-dashboard.tsx:54-62 | string `<` is transitive |
| Strings.StrLessTotal | components/ticket-dashboard.tsx:54-62 | of two different strings, exactly one is `<` the other |
| TextFit.FitFrom | components/ticket-generator.tsx:143-151 | from a start size the loop stops on the grid of 2px steps, at a size that fits or at the floor, and every larger size on the way overflowed |
| TextFit.FitFontSizeIsGreedyFit | components/ticket-generator.tsx:143-151 | the fitted size is the one and only greedy fit: the largest tried size that fits, or the floor when none does |
| TextFit.ShrinkToFit | components/ticket-canvas.tsx:113-121 | the imperative loop computes the fitted size, after exactly (start - size) / 2 shrinks |
| TextFit.DateFitBounds | components/ticket-generator.tsx:141-153 | the date size is an even size in 12..32, larger sizes overflowed 700px, and it fits unless it is 12 |
| TextFit.NameFitBounds | components/ticket-generator.tsx:161-173 | the name size is an even size in 16..42, larger sizes overflowed 570px, and it fits unless it is 16 |
| TextFit.FitsAtStart | components/ticket-generator.tsx:147 | a text that fits at the start size is not shrunk |
| TextFit.OverflowsEverywhere | components/ticket-generator.tsx:147 | a text that overflows at every size ends at the floor |
| Layout.ConditionalMarks | components/ticket-generator.tsx:187-204 | the GA advisory appears once exactly for a GA subscriber, and the marker disc appears exactly for a non-subscriber |
| Layout.FittedDetails | components/ticket-generator.tsx:135-204 | the detail block holds the fitted date and name, the advisory and disc under the same conditions, and nothing but text and the disc, so never an image |
| Generator.BulkTicketDateBaseline | components/ticket-generator.tsx:99-153 | the date of a drawn ticket sits at y = 95 + h under title art of height h, at y = 123 when the art errored and at y = 155 when it timed out |
| Generator.BulkTicketBegins | components/ticket-generator.tsx:75-128 | a drawn ticket begins with the template over the whole canvas, or with the white card and its charcoal border when the template errored; then comes the title art filed under the show's abbreviation at (59, 45), or the show name in bold 60px at (59, 80) |
| Generator.BulkTicketText | components/ticket-generator.tsx:130-173 | a drawn ticket carries the date at y = 45 + title height + 50 at its fitted size, and the name at (372, 307) at its fitted size |
| Generator.BulkTicketGaNote | components/ticket-generator.tsx:188-193 | a drawn ticket carries the GA advisory once for a GA subscriber and never otherwise |
| Generator.BulkTicketMarker | components/ticket-generator.tsx:196-204 | a drawn ticket carries the marker disc exactly for a non-subscriber |
| Generator.BulkTicketArt | components/ticket-generator.tsx:98-112 | a drawn ticket carries the title art keyed by its own show's abbreviation exactly when that art loaded, and no other show's art |
| Generator.BulkTicketTitleText | components/ticket-generator.tsx:104-128 | a drawn ticket shows the show name as bold 60px text exactly when the title art did not load |
| Generator.BulkTicketCode | components/ticket-generator.tsx:207-236 | the code image encoding the ticket's attendee code is drawn exactly when it loads, as the last operation, at (811, 60) in 477 x 477; no other code image is drawn |
| Generator.PageFor | components/ticket-generator.tsx:239-248 | a ticket gives an error page exactly when its drawing throws; the notice then names the attendee |
| Generator.BulkPagesArePagesInOrder | components/ticket-generator.tsx:66-73 | the document is the page of each ticket that has a 2D context, in input order, with nothing added or reordered |
| Generator.BulkPagesAppend | components/ticket-generator.tsx:66-249 | the pages of two batches run one after the other are the two page lists concatenated |
| Generator.OnePagePerTicket | components/ticket-generator.tsx:66-249 | when every ticket has a context, there is exactly one page per ticket, in order, whatever failed while drawing |
| Generator.HandlePrint | components/ticket-generator.tsx:25-26 | nothing is printed when the print window cannot be opened; otherwise page i is the page of the i-th ticket that has a 2D context |
| Generator.DownloadName | components/ticket-generator.tsx:279 | the download name starts with "ticket-", ends with ".png" and holds no whitespace |
| Generator.DownloadNameOfWords | components/ticket-generator.tsx:279 | a name cut at its whitespace runs downloads as "ticket-" + its words joined by "-" + ".png" |
| Generator.PrevIndex | components/ticket-generator.tsx:311 | from a valid index the "Previous" button lands on a valid index, one step back except at the first ticket |
| Generator.NextIndex | components/ticket-generator.tsx:321 | from a valid index the "Next" button lands on a valid index: the next one, or the first |
| Generator.PrevNextInverse | components/ticket-generator.tsx:311-321 | the previous and next buttons wrap around and undo each other on every valid index |
| CanvasRender.RenderTicket | components/ticket-canvas.tsx:66-204 | the preview draws nothing until the fonts, the code URL, the canvas and its context are all there; it then starts with a white fill and shows the template exactly when the template loads |
| CanvasRender.FullLayout | components/ticket-canvas.tsx:84-101 | with template and title art loaded, the preview paints a white fill, the template, and then the title art keyed by the show's abbreviation at (59, 45) |
| CanvasRender.TitleMissingLayout | components/ticket-canvas.tsx:186-257 | without title art, the preview still paints a white fill and then the template |
| CanvasRender.BasicLayout | components/ticket-canvas.tsx:260-313 | without the template, the preview paints a white fill and never the template |
| CanvasRender.PreviewMatchesBulk | components/ticket-canvas.tsx:84-183 | with template and title art loaded and the code image generated for this ticket, the preview is the bulk printer's drawing over a white fill |
| CanvasRender.TitleFallbacksDiffer | components/ticket-canvas.tsx:186-257 | when the title art fails, the preview draws the show name at 28px and the date and name at fixed positions and sizes, unlike the bulk printer |
| CanvasRender.TitleMissingAvoidsBoldSixty | components/ticket-canvas.tsx:186-196 | the preview's missing-title layout never draws the bulk printer's 60px show name |
| CanvasRender.TitleMissingMarks | components/ticket-canvas.tsx:220-245 | without title art the preview puts section, row and seat on y = 420, the GA advisory at (59, 537) exactly for a GA subscriber, and the marker disc exactly for a non-subscriber |
| CanvasRender.BasicSeatLines | components/ticket-canvas.tsx:284-288 | the plain card labels the seat fields "Section: ", "Row: " and "Seat: " at y = 300, 380 and 460 |
| CanvasRender.BasicTextIsCentred | components/ticket-canvas.tsx:260-313 | every line of text on the plain card is centred on x = 825 |
| CanvasRender.BasicLayoutMarks | components/ticket-canvas.tsx:290-301 | the plain card shows the subscriber badge exactly for subscribers, the GA advisory exactly for GA subscribers, and never the marker disc |
| CanvasRender.CodeImageIsLast | components/ticket-canvas.tsx:176-312 | in every layout a loaded code image is the last operation, so it lies on top: 477 x 477 at (811, 60) over the template and at (1150, 60) on the plain card, encoding the text of the stored URL; it is the only code image, and one that fails is not drawn |
| CanvasRender.PreviewCarriesAttendeeCode | components/ticket-canvas.tsx:30-63 | once the code generated for the ticket on screen is stored, a preview whose code image loads ends with that ticket's attendee code |
| TicketList.UniqueShows | components/ticket-list.tsx:28 | the show menu lists each show of the list once, and nothing else |
| TicketList.UniqueDates | components/ticket-list.tsx:29-36 | the date menu lists each date of the list once, and nothing else |
| TicketList.DedupeKeepsFirstOccurrenceOrder | components/ticket-list.tsx:28 | the menu entries keep the order of their first occurrence |
| TicketList.Dedupe | components/ticket-list.tsx:28-36 | the menu holds exactly the values of the list, each once |
| TicketList.Filtered | components/ticket-list.tsx:38-49 | the filter returns only tickets of the list that pass the search, show and date tests, and never more tickets than the list |
| TicketList.FilteredKeepsMatches | components/ticket-list.tsx:38-49 | the filter keeps exactly the matching tickets, each as often as it occurs |
| TicketList.FilteredAppend | components/ticket-list.tsx:38-49 | filtering works ticket by ticket, so the order of the kept tickets is the input order |
| TicketList.NoFilterKeepsAll | components/ticket-list.tsx:38-49 | with an empty search and both menus on "all", every ticket is shown |
| TicketList.SearchIgnoresShowAndDate | components/ticket-list.tsx:39-43 | the search box never matches on the show or date text |
| TicketList.SearchIgnoresTermCase | components/ticket-list.tsx:39-43 | the search is insensitive to the case of the search term |
| TicketList.NameSubstringIsFound | components/ticket-list.tsx:39-43 | a term that equals some piece of the name once both are lower-cased finds the ticket, whatever the case of either |
| TicketList.IsTicketSelectedIff | components/ticket-list.tsx:51-61 | a checkbox is ticked exactly when some selected entry is the same ticket |
| TicketList.CountLabel | components/ticket-list.tsx:179 | the count label starts with the number of tickets shown |
| TicketList.CountLabelPlural | components/ticket-list.tsx:179 | the label says "ticket" for one and "tickets" otherwise |
| Dashboard.HeaderCell | components/ticket-dashboard.tsx:29-53 | a header the sheet lacks has index -1, so its cell is `undefined` in every row; a header it has gives the cell under its first occurrence, `undefined` when the row is too short |
| Dashboard.RowTicketFields | components/ticket-dashboard.tsx:29-53 | every field is the cell under the first header cell of its name (show, date, section, row, seat, abbreviation, attendee code, date code); the name joins first and last name with one space; the flag is set exactly by "TRUE" |
| Dashboard.RowTicketMissingColumns | components/ticket-dashboard.tsx:29-53 | a header the sheet lacks leaves its field `undefined` in every record, prints "undefined" into the name, and makes no one a subscriber |
| Dashboard.SubscriberNeedsExactTrue | components/ticket-dashboard.tsx:49 | "true", "Yes" and an empty cell do not mark a subscriber |
| Dashboard.LoadTickets | components/ticket-dashboard.tsx:16-73 | loading fails with the sheet error message exactly when the fetch fails or the sheet has no header row; otherwise every row but the header becomes one ticket, and none is lost or invented |
| Dashboard.SortByDateCode | components/ticket-dashboard.tsx:54-62 | the sort returns the same records, each as often as before |
| Dashboard.LoadedIsSortedAndStable | components/ticket-dashboard.tsx:54-62 | the loaded list is ordered by date code, and tickets that share a date code keep their row order |
| Dashboard.SortIsSorted | components/ticket-dashboard.tsx:54-62 | no ticket is followed by one with a smaller date code |
| Dashboard.SortIsStable | components/ticket-dashboard.tsx:54-62 | the sort keeps the input order among tickets with the same date code, and among tickets with none |
| Dashboard.Select | components/ticket-dashboard.tsx:80-81 | ticking appends the ticket and leaves the earlier entries as they were |
| Dashboard.Deselect | components/ticket-dashboard.tsx:83-95 | unticking never adds an entry; `DeselectRemoves` states which remain |
| Dashboard.HandleTicketSelectShows | components/ticket-dashboard.tsx:79-97 | after a click, the ticket's checkbox shows exactly what was clicked |
| Dashboard.DeselectRemoves | components/ticket-dashboard.tsx:83-95 | unticking drops every entry with the ticket's identity and keeps every other entry as often as it was there |
| Dashboard.DeselectAppend | components/ticket-dashboard.tsx:83-95 | unticking works entry by entry, so the remaining entries keep their order |
| Dashboard.DeselectIgnoresSubscriber | components/ticket-dashboard.tsx:86-93 | unticking does not look at the subscriber flag |
| Dashboard.DeselectUndoesSelect | components/ticket-dashboard.tsx:79-97 | ticking and then unticking a ticket is the same as only unticking it |
| Dashboard.ReselectDuplicates | components/ticket-dashboard.tsx:80-81 | ticking a ticket twice adds it twice: selection does not deduplicate |
| PrintRoute.StripPrefixShape | app/api/print/route.ts:21 | the stripped data is a suffix of the input, and what was removed is one complete `data:image/<word>;base64,` match |
| PrintRoute.StripPrefixRoundTrip | app/api/print/route.ts:21 | stripping a prefixed payload gives back exactly the payload, even when the payload itself starts with a prefix |
| PrintRoute.StripPrefixKeepsUnprefixed | app/api/print/route.ts:21 | input that does not start with a prefix match is unchanged |
| PrintRoute.TempFileNameShape | app/api/print/route.ts:33 | the temp file is named `ticket-`, then one or more decimal digits that read back as the clock's milliseconds, then `.png` |
| PrintRoute.TempPathsDiffer | app/api/print/route.ts:33-34 | requests at different milliseconds write different files |
| PrintRoute.PrintCommandShape | app/api/print/route.ts:45-52 | the command starts with the quoted utility on Windows and with `lp -d ` elsewhere, and ends with the quoted file path |
| PrintRoute.PrintCommandFields | app/api/print/route.ts:45-52 | with no `"` inside the configured strings or the path, the command gives its arguments back: the printer name runs from after `lp -d "` (or, on Windows, after the quoted utility and ` -printer "`) to the next quote, and the path is the final quoted field |
| PrintRoute.HandlePost | app/api/print/route.ts:11-88 | a falsy `imageData` gives 400 with no effects; every status is 200, 400 or 500; 200 comes exactly with a success body |
| PrintRoute.SuccessIff | app/api/print/route.ts:37-83 | the job succeeds exactly when the image is a non-empty string, the write succeeds, the command completes with no stderr other than the spooler notice, and `ticketInfo` is present; the response echoes stdout and the six fields |
| PrintRoute.PrintErrorReported | app/api/print/route.ts:59-62 | any other stderr is reported as "Print error" with status 500, carrying the stderr text |
| PrintRoute.ThrownErrorsAnswerServerError | app/api/print/route.ts:84-87 | a body that is not JSON, an image that is not a string, a failed write or a rejected command answers 500 "Server error" |
| PrintRoute.WriteFollowsMkdir | app/api/print/route.ts:27-37 | with a non-empty image the write is attempted right after the directory call, whether or not that call failed |
| PrintRoute.EffectOrder | app/api/print/route.ts:24-69 | the effects are a prefix of mkdir, write, exec, unlink: the command runs only after a successful write, and the unlink only after a clean run |
| PrintRoute.NoEffectsWithoutImage | app/api/print/route.ts:13-21 | without a non-empty string image the handler touches nothing |
| PrintRoute.MkdirFailureIgnored | app/api/print/route.ts:27-31 | a failed mkdir changes neither the response nor the effects |
| PrintRoute.UnlinkFailureIgnored | app/api/print/route.ts:64-69 | a failed unlink does not change the response |
| PrintRoute.RequestingPrinterSucceeds | app/api/print/route.ts:59 | the spooler's "requesting printer" notice on stderr is not an error |
| PrintRoute.UnknownPrinterFails | app/api/print/route.ts:59-62 | an "unknown printer" stderr fails the job and is returned as the details |
| PrintRoute.TempLeftAsWritten | app/api/print/route.ts:57-69 | the temp file outlives the request exactly when it was written and then the command was rejected, the spooler reported an error, or the unlink failed |
| PrintRoute.HandlePostCleaned | app/api/print/route.ts:57-87 | the corrected handler: once the write succeeds it runs mkdir, write, exec and then the unlink of the written file, whatever the command did |
| PrintRoute.CleanedKeepsResponse | app/api/print/route.ts:57-87 | on every request and environment, the corrected handler answers exactly what the handler as written answers |
| PrintRoute.CleanedLeavesNoTempFile | app/api/print/route.ts:57-87 | with that clean-up, the temp file outlives the request only when it was written and the unlink itself failed |
| PrintRoute.PrintErrorLeavesTempFile | app/api/print/route.ts:59-62 | a job the spooler refuses leaves its temp file behind as written, and not with the clean-up |

## Left out

- Font loading (`loadCustomFonts`) is an input: the preview reads only whether it succeeded. The `@font-face` block and the HTML wrapper of the print document are not modelled.
- `measureText` is an uninterpreted function; font metrics and floating-point widths are not modelled.
- `toLowerCase` is modelled on ASCII letters only. Other letters are left as they are.
- String `<` compares characters as code points, not UTF-16 code units. The two orders differ only above U+FFFF.
- Image loads that never fire, and the order in which late callbacks run on a shared canvas, are not modelled. Each load settles once, and a timed-out bulk title load is treated as settled by the timer.
- The bulk printer's 1000ms fallback for the code image is folded into "not drawn", the same as its `onerror`.
- The QR code library behind `lib/qr-code.ts` is not part of this model. A code image is modelled by the text it encodes; the generator's result is an input: resolved, or a rejection.
- `generateQRCode` never settles when `getRawData` rejects (`lib/qr-code.ts:52-56`): the rejection is not passed to `reject`, so the bulk printer would wait forever on that ticket. Only settled generations are modelled.
- The preview stores the code URL in state, and the render effect reads whatever URL is stored. After a ticket change the stored URL may still be the previous ticket's until the new one is generated; `CanvasRender.PreviewCarriesAttendeeCode` covers the state after the generation for the ticket on screen has settled.
- The Google Sheets client, the mock `fetchTicketData` and the patron-data route are not part of this model. The sheet rows arrive as an input. A failure of either fetch or of the JSON decoding is one `None` input.
- Dashboard.SortByDateCode: a stable insertion sort stands in for `Array.prototype.sort`. When every date code is present, the comparator is consistent, so the result is the same for any stable sort. When some are `undefined`, the comparator calls them equal to everything, and the engine's order is implementation-defined. The sortedness and stability lemmas describe the insertion sort.
- The records the dashboard builds may carry `undefined` in string fields. The ticket list, generator and canvas take `TicketData` with plain strings; what `undefined` renders as downstream is not modelled.
- PrintRoute.HandlePost: a truthy `imageData` that is not a string is assumed to lack `replace`, so it throws and answers 500. The thrown value in `details` is not modelled.
- `getPrinterConfig` comes from a file that is not part of this model. Its values are an input, and it is assumed not to throw.
- `path.join` is modelled as joining with the platform separator. Normalisation of `..` or of a separator already at the end of `cwd` is not modelled.
- The base64 decoding done by `writeFile` is not modelled. The file's content is the stripped string.
- After a deselection, the preview's `currentTicketIndex` may point past the end of the list. The preview of a stale index is not modelled; `PrevIndex` and `NextIndex` state their ranges for indices inside the list.
- React state batching, re-renders and `isLoading` are not modelled.

## Findings

| source | as written | input that shows it | evidently intended | confidence | as-written member | corrected member |
|---|---|---|---|---|---|---|
| app/api/print/route.ts:59-69 | on a print error, or when `exec` rejects, the handler returns before the `unlink`, so the temp image stays in `temp/` | an image is written, and the spooler answers "unknown printer" on stderr | the temp file is removed once it has been written, whatever the command did: it is a temporary file named for one request, and nothing in the endpoint reads or removes it later, so each failed job would otherwise leave an image in `temp/` for good | not executed | PrintRoute.TempLeftAsWritten | PrintRoute.CleanedLeavesNoTempFile |
