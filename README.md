# QR code generator core, modelled in Dafny

This project models the logic at the heart of a browser QR-code generator.

- **Form to payload.** The app turns a filled-in form into the text a code carries: a URL, a `mailto:` link, a `tel:`, `sms:` or `wa.me` link, a `WIFI:` string, a map link, or a vCard. It can also read some of those payloads back into the form.
- **Drawing.** The generator draws the code on a canvas with a margin. It can redraw the modules in another shape (dots, rounded squares, diamonds). It can also put the code inside a rounded frame with a caption, taken from the data or from the user.
- **SVG export.** The download manager turns such a canvas back into an SVG document. It detects the module size from the pixels and writes one rectangle per dark module.
- **History.** The history manager keeps a bounded, newest-first list of scans. It supports add, remove, clear, trim, search and import with de-duplication.
- **Theme.** The theme manager keeps a light/dark theme in step with a saved preference and the system's preference.

Modules, one per concern:

| module | models |
|---|---|
| `Text` | the JavaScript string operations used (`trim`, `indexOf`, `split`, `replace`, simple regular-expression captures) |
| `Colour` | `hexToRgb` and `isModulePixel` (squared-distance classification of an RGBA pixel) |
| `Grid` | the row-major enumeration of module cells |
| `Drawing` | the `Canvas` object and `drawModule` |
| `Shape` | `applyModuleShape` |
| `Caption` | `extractContextualData`, `truncateText`, frame-text selection |
| `Compositor` | `generate`, `applyFrame`, `validateData`, `getOptimalErrorCorrection` |
| `Svg` | `detectModuleSize` and `canvasToSVG` |
| `History` | `HistoryManager` |
| `Theme` | `ThemeManager` |
| `VCard` | `generateVCard` and `parseVCardString` |
| `Wifi` | the `WIFI:` payload and `parseWifiString` |
| `Input` | `getInputData`, `restoreInputData` |
| `Dates` | `formatDate`, `formatRelativeDate` and the app's `truncateText` |

Modelling conventions:

- **Mutable objects are classes.** The canvas, the history manager and the theme manager have methods that update fields in place. Local storage is a field of the manager that owns it.
- **Loops are methods.** The pixel scans, the shape pass, the SVG writer and the vCard reader are methods with loop invariants. Each is proved equal to a specification function, and the properties are lemmas about that function. The vCard writer has no loop, as in the source: it is a step-by-step method proved equal to `Join(VCardLines(c), '\n')`.
- **Canvases are layers.** A canvas holds a list of drawing layers: fills, pictures, primitive shapes and text. The pixels read back from it are an `Image` parameter.
- **Exact arithmetic.** Numbers are exact integers or reals. Colour distances are compared squared, which gives the same result as comparing the square roots.
- **A `JSON.parse` result is a value.** The stored history is a sequence of `Value`s: an object with the three inspected fields, or anything else.

## Model

| member | source | states |
|---|---|---|
| Colour.HexToRgb | js/qrGenerator.js:261-268 | a colour parses exactly when it is `#` followed by six hex digits (the `#` may be absent) |
| Colour.HexRoundTrip | js/qrGenerator.js:261-268 | every colour written as `#rrggbb` parses back to the same colour |
| Colour.IsModulePixel | js/qrGenerator.js:270-290 | a pixel is a module only if it lies inside the buffer and the two colours differ; a pixel of exactly the light colour never is; a pixel of exactly the dark colour always is |
| Colour.ClassifierAntisymmetric | js/qrGenerator.js:270-290 | a pixel cannot be a module for (dark, light) and also for the colours swapped |
| Colour.AlphaIgnored | js/downloadManager.js:185-205 | changing any byte outside the pixel's red, green and blue bytes, such as its alpha, does not change the classification |
| Colour.Dist2 | js/qrGenerator.js:276-286 | the squared colour distance is zero exactly when the colours are equal |
| Colour.PixelAt | js/qrGenerator.js:271-273 | a pixel can be read exactly when its three colour bytes are inside the buffer |
| Drawing.Canvas.constructor | js/qrGenerator.js:46-48 | a new canvas has the requested size, no content and no dataset tags |
| Drawing.DrawModule | js/qrGenerator.js:375-416 | every shape stays inside its cell; discs are centred on the cell; only an unknown shape name gives a plain square |
| Drawing.Round | js/qrGenerator.js:343 | `Math.round`: the result lies within half a unit of the input, with halves rounding up |
| Drawing.PixelIndexInside | js/qrGenerator.js:315 | the byte offset `(y * width + x) * 4` of a pixel inside the image is inside the buffer |
| Grid.CellsExactly | js/qrGenerator.js:355-369 | the cell enumeration holds cell (r, c) exactly when it is inside the grid and selected |
| Grid.CellsOrdered | js/qrGenerator.js:355-369 | cells are enumerated in row-major order, each once |
| Grid.CellsSound | js/qrGenerator.js:355-369 | every enumerated cell is inside the grid and selected |
| Grid.RowCellsComplete | js/qrGenerator.js:356-368 | a selected cell of a row is enumerated |
| Shape.ScanRows | js/qrGenerator.js:306-328 | the scan returns the first module pixel in row-major order, or none when the image has no module pixel |
| Shape.FindFirstModule | js/qrGenerator.js:306-328 | the nested search loop finds exactly the first module pixel in row-major order |
| Shape.RunFrom | js/qrGenerator.js:330-338 | the run of module pixels ends at the image edge or at a non-module pixel |
| Shape.RunFromModules | js/qrGenerator.js:330-338 | every pixel in the run is a module pixel |
| Shape.MeasureRun | js/qrGenerator.js:330-338 | the measuring loop returns exactly the length of the run of module pixels |
| Shape.ModuleSize | js/qrGenerator.js:341 | the module size is at least one pixel, and a finder-pattern run of seven or more modules gives one seventh of the run |
| Shape.ModuleCount | js/qrGenerator.js:343 | the module count is the canvas width divided by the module size, rounded to the nearest integer |
| Shape.ShapedGridUntouched | js/qrGenerator.js:298-328 | the shape pass leaves the canvas alone exactly when a colour fails to parse or no pixel is a module |
| Shape.ShapedGridSamplesInside | js/qrGenerator.js:355-362 | every sampled point of every cell lies inside the image and its buffer |
| Shape.DrawsExactly | js/qrGenerator.js:355-369 | one shape is drawn for each cell whose sampled pixel is a module, and no other shape |
| Shape.DrawCells | js/qrGenerator.js:355-369 | the nested cell loops draw the shapes of the selected cells in row-major order |
| Shape.RenderShapes | js/qrGenerator.js:292-369 | the shape pass computes the light background and module shapes given by the specification |
| Shape.ApplyModuleShape | js/qrGenerator.js:292-373 | the canvas is replaced by a light fill and the module shapes when the pass applies, and left alone otherwise |
| Caption.TruncateText | js/qrGenerator.js:613-618 | short text is kept; longer text becomes a prefix of it followed by `...`, of length `maxLength` (3 when `maxLength` is below 3) |
| Caption.TruncateBounded | js/qrGenerator.js:613-618 | with a limit of at least 3, the truncated caption never exceeds the limit |
| Caption.ExtractContextualData | js/qrGenerator.js:527-611 | every caption except a phone number's is at most 30 characters; a URL is truncated to 30; a `mailto:` link gives its address before any `?`, truncated; a phone caption drops a leading `tel:` and is not truncated; Wi-Fi gives its `S:` capture, truncated, or `SHARE WIFI`; a vCard gives its `FN:` capture, truncated, or `SAVE CONTACT`; a map link gives the map caption, or `SCAN ME` when decoding throws; an unknown type gives `SCAN ME` |
| Caption.MapsCaption | js/qrGenerator.js:565-593 | a map caption is at most 30 characters, and a link with no place, name or address gives `VIEW LOCATION` |
| Caption.PhoneCaptionUntruncated | js/qrGenerator.js:542-547 | a phone caption is the number after `tel:`, untruncated |
| Caption.WifiCaptionIsSsid | js/qrGenerator.js:549-555 | the caption of a Wi-Fi payload is its SSID, truncated to 30 characters |
| Caption.LongUrlCaption | js/qrGenerator.js:530-532 | a URL longer than 30 characters is cut to its first 27 characters followed by `...` |
| Caption.FrameCaption | js/qrGenerator.js:424-449 | a custom frame uses its text or `SCAN ME`; an automatic frame uses the generic caption of its type or the contextual one; any other option gives no caption |
| Caption.EmptyCaption | js/qrGenerator.js:424-451 | there is no frame exactly when the frame option is neither automatic nor custom, or the contextual caption is empty |
| Compositor.SizesFor | js/qrGenerator.js:419-422 | the frame width, margin, text height and text area never go below 3, 15, 18 and 40; each is exactly its minimum on a canvas too narrow for more, and otherwise 2 %, 4 %, 6 % or 12 % of the width rounded down (bounded on both sides) |
| Compositor.SizesMonotone | js/qrGenerator.js:419-422 | a wider canvas never gets smaller frame sizes |
| Compositor.BorderRadius | js/qrGenerator.js:465 | the corner radius is at most 15 pixels and at most 2.5 % of the framed width |
| Compositor.InnerRadius | js/qrGenerator.js:487 | the inner radius is non-negative and no larger than the outer one |
| Compositor.LayoutGeometry | js/qrGenerator.js:454-514 | the framed canvas adds margin and border on every side plus the text area; the code sits `frameMargin` inside the white area on every side; the caption is centred in the text area |
| Compositor.CaptionBelowWindow | js/qrGenerator.js:483-514 | the caption's baseline lies below the white area and inside the canvas |
| Compositor.FrameContent | js/qrGenerator.js:460-514 | the framed picture has five layers, and the original canvas is drawn at the code's offset at its own size |
| Compositor.ApplyFrame | js/qrGenerator.js:418-525 | with no caption the canvas is unchanged; otherwise the canvas grows to the framed size, its content becomes the framed picture, and `hasFrame` and `frameText` are tagged |
| Compositor.MarginedGeometry | js/qrGenerator.js:12-14 | the margined canvas is a light square on which the code, drawn at its full size at the margin offset, leaves exactly `margin * 8` pixels of light on each of the four sides |
| Compositor.QrSize | js/qrGenerator.js:13 | the code size is always positive |
| Compositor.QrLayers | js/qrGenerator.js:56-61 | a square or absent module shape keeps the library's bitmap unchanged |
| Compositor.MarginedCanvas | js/qrGenerator.js:46-61 | the margined canvas has the total size and holds the light fill with the code drawn at the margin |
| Compositor.Generate | js/qrGenerator.js:6-98 | the result is the margined code, framed when a caption applies, with the margin and code size tagged; `hasFrame` and `frameText` are set only when framed |
| Compositor.ValidateData | js/qrGenerator.js:100-110 | data is accepted exactly when it is not blank and has at most 2953 characters |
| Compositor.OptimalErrorCorrection | js/qrGenerator.js:112-124 | level H exactly below 100 characters, Q exactly from 100 to 499, M exactly from 500 to 999, and L exactly from 1000 |
| Compositor.ErrorCorrectionMonotone | js/qrGenerator.js:112-124 | longer data never gets a stronger correction level |
| Svg.DetectorColours | js/downloadManager.js:326-329 | missing colours fall back to black on white |
| Svg.FirstModuleIn | js/downloadManager.js:338-349 | the search returns the first module pixel of the probed row, or none |
| Svg.FirstBackgroundIn | js/downloadManager.js:352-359 | the run scan returns the first background pixel after the run start, or none |
| Svg.SizeFromRun | js/downloadManager.js:362-366 | runs longer than five pixels give a seventh of the run, at least 1; shorter runs are taken as the module size itself |
| Svg.NoModuleMeansUnitSize | js/downloadManager.js:338-366 | with no module pixel on the probed row the detected size is 1 |
| Svg.OpenRunMeansUnitSize | js/downloadManager.js:352-366 | a run reaching the right margin is not measured, and the size is 1 |
| Svg.ClosedRunSize | js/downloadManager.js:338-366 | a measured run between the first module pixel and the next background pixel decides the size |
| Svg.DetectModuleSize | js/downloadManager.js:320-367 | the detection loops compute exactly the specified size, which is always at least 1 |
| Svg.MeasureSize | js/downloadManager.js:338-366 | the search and run loops compute the specified size for the given colours |
| Svg.DetectorsDisagreeOnShortRuns | js/downloadManager.js:362-364 | for runs of 2 to 5 pixels the SVG exporter and the shape pass (js/qrGenerator.js:341) disagree on the module size |
| Svg.DetectorsAgreeOnFinderRuns | js/downloadManager.js:362-364 | for runs of 7 pixels or more both detectors give a seventh of the run |
| Svg.Document | js/downloadManager.js:218-219 | the document starts with the XML declaration and the `svg` opening tag, and ends with `</svg>` |
| Svg.LabelVerbatim | js/downloadManager.js:274-275 | the caption's text appears verbatim inside the `text` element |
| Svg.PlainGridSize | js/downloadManager.js:286-292 | an unframed code's module size is the one detected from the margin offset |
| Svg.QrSizeTag | js/downloadManager.js:287 | a missing or zero `qrSize` tag falls back to the canvas width |
| Svg.PlainModules | js/downloadManager.js:282-313 | a colour that fails to parse throws as soon as a cell is sampled; otherwise one rectangle is written for each sampled module cell, in row-major order |
| Svg.PlainLoops | js/downloadManager.js:299-313 | the unframed nested loops append exactly the rectangles of the selected cells |
| Svg.PlainRow | js/downloadManager.js:300-312 | one row of the unframed loop appends that row's rectangles |
| Svg.FramedGridFor | js/downloadManager.js:221-226 | the framed geometry uses the frame sizes and corner radius of the framed canvas's width |
| Svg.FramedGridSize | js/downloadManager.js:241-253 | a framed code's module size is detected from the margin-plus-border offset |
| Svg.GuardedCellMeansAny | js/downloadManager.js:256-271 | a cell that passes the bounds guard is inside the code area |
| Svg.FramedModules | js/downloadManager.js:256-271 | a colour that fails to parse throws once a cell passes the bounds guard; otherwise one rectangle is written for each in-bounds module cell |
| Svg.FramedRow | js/downloadManager.js:257-270 | one row of the framed loop appends that row's rectangles |
| Svg.CanvasToSvg | js/downloadManager.js:207-318 | export gives the framed or the unframed document according to the `hasFrame` and `frameText` tags |
| Svg.FramedToSvg | js/downloadManager.js:213-277 | the framed document has the two frame rectangles, the module rectangles and the caption |
| Svg.PlainToSvg | js/downloadManager.js:282-315 | the unframed document has the background and the module rectangles |
| Svg.FrameGeometryAgreesOnSmallCodes | js/downloadManager.js:221-226 | below 150 pixels the exporter's frame sizes agree with those of the frame it exports (js/qrGenerator.js:419-422) |
| Svg.FrameGeometryAgreesAtDefaultSize | js/downloadManager.js:221-226 | at the default 256-pixel size the exporter's frame sizes agree with the drawn frame's |
| Svg.FrameGeometryDriftsOnLargeCodes | js/downloadManager.js:221-226 | a framed 1000-pixel code is drawn 60 pixels in, but the exporter looks for it 66 pixels in |
| History.HistoryManager.constructor | js/historyManager.js:2-5 | a new manager keeps ten items and reads the stored history as given |
| History.HistoryManager.ItemsShape | js/historyManager.js:7-28 | reading the history gives only valid stored entries, newest first, at most `maxItems` of them, and no dropped valid entry is newer than a kept one |
| History.SortDesc | js/historyManager.js:21 | sorting by timestamp gives a newest-first permutation of the entries |
| History.Filter | js/historyManager.js:20 | filtering keeps exactly the entries satisfying the test |
| History.HistoryManager.AddItem | js/historyManager.js:30-72 | an invalid item changes nothing and reports failure; a valid one is stored first, with any same-content entry dropped and the list cut to `maxItems` |
| History.AddedShape | js/historyManager.js:37-55 | after adding, for any stored list, the new item is first, every other entry comes from the list before, and the length is the old length plus one, minus one when a same-content entry was removed, capped at `maxItems` |
| History.AddedDistinct | js/historyManager.js:37-55 | when the list before held no two same-content entries, after adding no other entry has the new item's type and data and the entries stay distinct |
| History.FindSame | js/historyManager.js:40-42 | finds the first entry with the same type and data, or none |
| History.RemoveFirstSame | js/historyManager.js:43-46 | removes exactly the first same-content entry |
| History.HistoryManager.RemoveItem | js/historyManager.js:74-94 | removal succeeds exactly when an entry has that timestamp, and then stores the history without every entry of that timestamp; otherwise nothing changes |
| History.HistoryManager.ClearHistory | js/historyManager.js:96-105 | clearing stores an empty history |
| History.HistoryManager.ClearOldItems | js/historyManager.js:107-122 | keeps the newest half (rounded down) of the current history |
| History.HistoryManager.ImportHistory | js/historyManager.js:173-229 | a non-array is rejected, as is an array with no valid item, and both leave the store alone; otherwise the count of valid items is reported and the merge is stored |
| History.MergedImportShape | js/historyManager.js:198-211 | the merged import is newest first, has at most twice `maxItems` entries with distinct `type-data` keys, and keeps for each key the newest entry of the imported-then-current list, the first seen on a tie; a key is missing only when the list is full and nothing kept is older than that key's entries |
| History.MergeSpec | js/historyManager.js:199-209 | merging keeps one entry per `type-data` key and loses no key; the entry kept for a key is the newest given entry of that key, the first one seen when several are equally new |
| History.FindKey | js/historyManager.js:202-203 | the lookup `acc.map[key]` finds an entry with the item's `type-data` key, or reports that none has it |
| History.ImportCollisionKeepsOne | js/historyManager.js:199-209 | importing `a-b`/`c` (timestamp 1) and `a`/`b-c` (timestamp 2) keeps only the second, as both have the key `a-b-c` |
| History.ImportKeyCollides | js/historyManager.js:202 | two different entries can share the `type-data` key: `a-b`/`c` and `a`/`b-c` |
| History.ImportKeyAgrees | js/historyManager.js:202 | when types hold no `-`, the keys are equal exactly when type and data are |
| History.TakeTop | js/historyManager.js:22 | cutting a newest-first list never drops an entry newer than a kept one |
| History.HistoryManager.Search | js/historyManager.js:231-245 | an empty query gives the whole history; otherwise exactly the entries whose data or type contains the lower-cased query |
| History.HistoryManager.SetMaxItems | js/historyManager.js:307-320 | a number below 1 or a non-number is rejected and changes nothing; otherwise the limit is set and the store kept |
| History.InsertDescending | js/historyManager.js:21 | inserting into a newest-first list keeps it newest first |
| History.DistinctPermutation | js/historyManager.js:209-210 | sorting the merged entries keeps their keys distinct |
| Theme.ThemeManager.constructor | js/themeManager.js:2-7 | a new manager starts light, with no system preference and nothing applied |
| Theme.ThemeManager.DetectSystemPreference | js/themeManager.js:21-27 | records the system's preference as dark or light, changing nothing else |
| Theme.LoadedTheme | js/themeManager.js:29-36 | a saved light or dark theme wins; otherwise the system preference; otherwise light |
| Theme.ThemeManager.LoadTheme | js/themeManager.js:29-39 | the loaded theme becomes current and is applied to the document |
| Theme.ThemeManager.ApplyTheme | js/themeManager.js:41-62 | sets the document's theme, the meta colour (black for dark, white for light) and the toggle's label naming the other theme |
| Theme.Toggled | js/themeManager.js:65 | toggling gives a valid theme, light exactly from dark |
| Theme.ToggleTwice | js/themeManager.js:64-67 | toggling twice restores a valid theme |
| Theme.ThemeManager.ToggleTheme | js/themeManager.js:64-67 | the current theme flips, is applied and is saved |
| Theme.ThemeManager.SetTheme | js/themeManager.js:69-82 | an invalid theme changes nothing; a valid one is applied and saved |
| Theme.ThemeManager.OnSystemChange | js/themeManager.js:107-114 | the system preference follows the event, and the theme follows it only when nothing is saved |
| Theme.ThemeManager.IsSystemPreference | js/themeManager.js:138-141 | the theme follows the system exactly when nothing is saved |
| Theme.ThemeManager.ResetToSystemPreference | js/themeManager.js:143-147 | the saved theme is removed and the system's preference is applied |
| Theme.ThemeManager.ImportThemeSettings | js/themeManager.js:232-245 | a missing settings object is rejected; a saved preference is stored and reloaded; otherwise a valid current theme is set; the result is true |
| VCard.VCardLines | js/qrGenerator.js:176-211 | a card opens with `BEGIN:VCARD` and `VERSION:3.0` and closes with `END:VCARD` |
| VCard.GenerateVCard | js/qrGenerator.js:176-211 | the line-by-line writer produces the card's lines joined by newlines |
| VCard.AddField | js/qrGenerator.js:183-196 | appending a field adds its line only when its value is not empty |
| VCard.AddressLineJoins | js/qrGenerator.js:198-206 | the ADR line is its seven components joined by `;`, the first two empty |
| VCard.ParseVCardString | js/app.js:736-766 | the line loop computes the specified parse |
| VCard.ReadAddress | js/app.js:753-761 | an ADR line with seven components sets street, city, state, zip and country |
| VCard.ParseGenerated | js/app.js:736-766 | parsing a generated card recovers every non-empty field and the address when one was written |
| VCard.RestoreGenerated | js/app.js:705-718 | restoring the form from a generated card gives back the contact, when no field holds a newline and no address component holds `;` |
| VCard.SplitGenerated | js/app.js:738 | splitting a generated card at newlines gives back its lines |
| Wifi.WifiPayload | js/app.js:299-316 | no payload without an SSID; a payload starts `WIFI:T:<security>;S:<ssid>;` and ends `;;` |
| Wifi.ParseWifi | js/app.js:722-734 | the parse fails exactly when no position matches the `WIFI:T:…;S:…;` head |
| Wifi.OptionalGroup | js/app.js:724 | an optional `P:` or `H:` group is either absent, with the text untouched, or a non-empty value without `;` |
| Wifi.ParseBuilt | js/app.js:722-734 | parsing a built payload gives its security, SSID, password (empty for `nopass`) and hidden flag |
| Wifi.RestoreWifi | js/app.js:693-698 | an unparsed payload restores an empty SSID and password, `WPA` and not hidden |
| Wifi.RestoreBuilt | js/app.js:693-698 | restoring a built payload gives back its form fields |
| Input.NormalizeUrl | js/app.js:252-257 | a URL without a scheme gets `https://` prefixed; one with a scheme is kept |
| Input.NormalizeIdempotent | js/app.js:252-257 | normalising twice is normalising once |
| Input.UrlPayload | js/app.js:252-257 | a blank URL gives an empty payload; any other gets a scheme |
| Input.EmailPayload | js/app.js:259-272 | no payload without an address; a payload starts `mailto:` plus the address and has a query only when a subject or body is given |
| Input.BuildEmail | js/app.js:259-272 | the step-by-step builder gives exactly the specified `mailto:` link |
| Input.PhonePayload | js/app.js:274-276 | no payload without a number; otherwise `tel:` followed by it |
| Input.SmsPayload | js/app.js:278-283 | no payload without a number; otherwise `sms:` plus the number, with `?body=` only when a message is given |
| Input.WhatsappPayload | js/app.js:285-297 | no payload without a number; otherwise `https://wa.me/` plus the number's digits, with `?text=` only when a message is given |
| Input.KeepDigits | js/app.js:290 | stripping non-digits leaves only digits |
| Input.MapsPayload | js/app.js:318-338 | a link is accepted exactly when it is not blank and names a known map host, and is then kept as written |
| Input.ShortMapsLinkAccepted | js/app.js:323-331 | a `maps.app.goo.gl` short link is accepted |
| Input.PlainHttpGoogleRejected | js/app.js:323-331 | a dotless look-alike such as `http://google/map` is rejected |
| Input.VCardPayload | js/app.js:340-373 | a card is produced exactly when name, mobile and email are all non-blank, and it is the card of the trimmed form |
| Input.BuildWifi | js/app.js:299-316 | the string-building steps give exactly the specified Wi-Fi payload of the trimmed SSID and password |
| Input.BuildVCard | js/app.js:340-373 | the contact branch gives exactly the specified card |
| Input.Payload | js/app.js:247-378 | an unknown input type gives no payload; text and URL always give one |
| Input.GetInputData | js/app.js:247-378 | the dispatch computes exactly the specified payload for each input type |
| Input.RestorePhone | js/app.js:673-675 | data without `tel:` is restored unchanged |
| Input.PhoneRoundTrip | js/app.js:673-675 | restoring a phone payload gives the trimmed number, and regenerating from it gives the same payload |
| Input.UrlRoundTrip | js/app.js:657-659 | regenerating from a restored URL payload gives the same payload |
| Input.WifiRoundTrip | js/app.js:693-699 | regenerating from a restored Wi-Fi payload gives the same payload, when the fields hold no `;` |
| Dates.RelativeBucket | js/app.js:794-818 | each age falls in exactly one band (just now, seconds, minutes, hours, yesterday, days, older), and the reported count lies within its band |
| Dates.BucketMonotone | js/app.js:794-818 | an older timestamp never lands in an earlier band |
| Dates.FormatRelativeDate | js/app.js:794-818 | under 5 seconds gives `Just now`, one to two days gives `Yesterday`, a week or more gives the `en-US` month-and-day date |
| Dates.OneHourSingular | js/app.js:794-818 | one hour is written in the singular |
| Dates.FormatDate | js/app.js:773-792 | under a minute gives `Just now`, a week or more gives the default-locale date |
| Dates.FormatsAgreeFromAnHourToAWeek | js/app.js:773-818 | from one hour to just under a week the two date formatters agree, whatever the locale dates; from a week on each prints its own locale date |
| Dates.FormatsDifferAtHalfAMinute | js/app.js:773-818 | at 30 seconds the history list says `30 sec ago` but `formatDate` says `Just now` |
| Dates.TruncateText | js/app.js:768-771 | short text is kept; longer text keeps `maxLength` characters and adds `...` |
| Dates.TruncationsDiffer | js/app.js:768-771 | the app's truncation is three characters longer than the generator's (js/qrGenerator.js:613-618) |

## Left out

- **I/O.** `localStorage` and JSON parsing/serialising are left out; the stored history and saved theme are fields. Also left out: reading files in `importHistory`, notifications, `CustomEvent` dispatch, and the DOM.
- **Library and timing.** The QR encoding library is a parameter: the image it renders is given. So are the timing of `generate`: its `setTimeout`, its promise, and the race between overlapping calls. The `<img>` fallback path, taken when the library gives no canvas, is left out.
- **Rasterisation.** Canvas content is a list of drawing layers. Anti-aliasing and pixel colours are not modelled.
- **Numbers.** Floating point is modelled with exact reals and integers. `Number`-to-string in the SVG text is a parameter.
- **Browser built-ins.** `encodeURIComponent` and `decodeURIComponent` are parameters; a decoding failure is `None`. `toLocaleDateString` is a string parameter.
- **Restore.** Restoring e-mail, SMS and WhatsApp payloads into the form is left out; phone, URL, Wi-Fi and vCard restore are modelled.
- TruncateText (both `Caption.TruncateText` and `Dates.TruncateText`): lengths and cut points count Unicode code points, while JavaScript's `length` and `substring` count UTF-16 code units. The two differ only on text with characters outside the Basic Multilingual Plane (such as emoji), where JavaScript may cut a surrogate pair in half.
- ValidateData: the 2953 limit counts code points, not UTF-16 code units, for the same reason.
- OptimalErrorCorrection: the 100/500/1000 thresholds count code points, not UTF-16 code units.
- Search (`History.HistoryManager.Search`): `toLowerCase` is modelled on ASCII letters only. Other letters, such as accented ones, are not folded, so a query like `é` does not find `CAFÉ` in the model.
- **History.HistoryManager.SetMaxItems:** the source's trim branch is unreachable, because `getItems` already cuts to the new limit. It is omitted.
- **Input types.** Input type strings are a datatype; an unknown string is the default branch.
- **Side effects.** The error notifications of the maps and vCard branches are left out; only the absence of a payload is modelled.
- **Other generator operations.** Left out: `generateBatch`, `generateWithLogo`, `generateEvent`, `generateGeoLocation`, `generateCrypto`. So are the PNG/JPEG download, clipboard, share and print helpers of the download manager.
- **Other history operations.** Left out: `getItem`, `exportHistory`, `getStatistics`, `getStorageSize` and the change callbacks.
- **Other theme operations.** Left out: `init`, `setupEventListeners`, `animateToggle`, `getTheme`, `addCustomTheme`, `exportThemeSettings`, `getCSSVariables`.
