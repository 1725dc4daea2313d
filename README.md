# Verified model of an image and QR-code toolkit

This project models the logic of a browser toolkit in Dafny and proves properties of that model. The toolkit generates icon sets from one image, converts, edits and crops images, and builds QR codes. The model covers the parts of the program that compute rather than draw:

- **Crop rectangle editor** (`ImageEditor`). It maps between natural-image and screen coordinates. It handles a move or an eight-handle resize: each cursor event builds a new rectangle from the snapshot taken when the gesture started. Optionally the aspect ratio is locked, edge resizes re-centre and corner resizes keep their anchor. A resize dragged past the opposite edge is flipped. The result is clamped to the image. A debounced commit passes a rounded copy of the rectangle to the parent only when it differs.
- **Letterbox compositing** (`Compositor`). It fits a crop inside an output canvas, keeping its aspect ratio, and centres it. The program computes this inline in three places. It is defined once here, and each of the three call sites is proved to be an instance of it.
- **Application state** (`App`):
  - the centre-square and full-image default crops;
  - icon generation for a profile;
  - the custom icon sizes, deduplicated and kept sorted by area;
  - the resets on upload, on a new image and on a mode change;
  - the URL parameters (the mode whitelist and the remote file name).
- **Resize-and-crop dialog** (`ResizeCropOverlay`). Its output fields follow the crop, and the export validates the typed size before it letterboxes.
- **Converter crop editor** (`ConverterEditor`). The image is fitted to cover a fixed frame and can be panned and zoomed over it. The export takes the part under the frame. The width and height fields can be tied to an aspect ratio.
- **Logo cropper** (`LogoCropper`). A square is dragged within the image and cut out at its own size.
- **Full editor** (`EditorMode`):
  - the cancellable debounce;
  - the undo history and its lock;
  - the background flips;
  - the zoom limits and the initial fit;
  - the mapping between transparency and opacity;
  - the tool bar's toggling and disabling.
- **QR payload formatter** (`QrFormatter`). It produces the `tel:`, `smsto:`, `geo:` and `mailto:` URIs, the `WIFI:` string, vCard 3.0, VEVENT and the EPC069-12 SEPA credit-transfer payload.
- **QR preview** (`PreviewPanel`). It lays out the caption band, sizes the PNG download, refuses an SVG when there is a caption, and builds the sanitised download name.
- **Converter screen** (`ImageConverter`). It sets the output format defaults and clamps the PDF page. It builds the output names and the batch archive entry names, and enforces the append limit.
- **Upload filter** (`ImageUploader`). It accepts at most 30 files. It keeps images and PDFs, and drops PDFs from a batch with a warning.
- **Custom size form** (`CustomSizeInput`) and **icon archive** (`IconPreview`). The archive holds the base64 payloads and the favicon or PWA manifest.

Shared helpers are in `Util`: Option, `Math.round`, and the JavaScript string operations the program uses. The records of the program are in `Types`. Geometry is over `real`, and `Math.round` is the floor of x + 1/2. Handlers that change component state are methods of classes whose fields are that state. Pure computations are functions, with lemmas that state what they promise.

These are parameters of the model:

- measurements taken from the page: bounding rectangles, natural sizes and whether a drawing context was obtained;
- the conversions delegated to the platform: `encodeURIComponent`, the event's `toUTC` (the date parsed and printed as ISO text, and that text already compacted by the removal of dashes, colons and milliseconds), `toFixed`, the URL parser's host name;
- the canvas's data URLs.

## Model

| member | source | states |
|---|---|---|
| Util.Round | components/ImageEditor.tsx:100-103 | `Math.round`: the nearest integer, halves rounded up |
| Util.RoundOfInteger | components/ImageEditor.tsx:277-278 | rounding a whole number leaves it unchanged |
| Util.LowerAscii | components/qr/PreviewPanel.tsx:168 | `toLowerCase` on ASCII letters, every other character kept, same length |
| Util.Trim | components/ImageConverter.tsx:141-142 | `trim`: no white space at either end, only white space removed |
| Util.Take | services/qrFormatter.ts:37 | `substring(0, n)`: a prefix of at most n characters, the whole string when shorter |
| Util.LastIndexOf | components/ImageConverter.tsx:73 | `lastIndexOf`: -1 exactly when the character is absent, otherwise its last position |
| Util.Split | components/IconPreview.tsx:45 | `split`: at least one part, none holding the separator; the parts joined by the separator give the string back (`JoinSplit`) |
| Util.SplitJoin | components/IconPreview.tsx:45 | splitting parts joined by a separator they do not contain gives the parts back |
| Util.RemoveWhitespace | services/qrFormatter.ts:40 | `replace(/\s/g, '')`: no white space left, every other character kept, a string without white space unchanged |
| Util.ParseIntOfDigits | components/CustomSizeInput.tsx:17-18 | `parseInt(s, 10)` of a string of digits is its decimal value |
| Util.ParseIntOfNegativeDigits | components/CustomSizeInput.tsx:17-18 | a leading minus sign negates the value |
| Util.ParseIntToString | components/ConverterEditor.tsx:299-314 | parsing a printed integer gives it back |
| Util.RemoveWhitespaceConcat | services/qrFormatter.ts:40 | removing white space from a concatenation removes it from each part |
| Util.RemoveWhitespaceBetween | services/qrFormatter.ts:40 | two white-space-free groups separated by a space are joined into one |
| Util.JoinSplit | components/IconPreview.tsx:45 | joining the parts of a split by the separator gives back the string that was split |
| Util.ParseInt | components/CustomSizeInput.tsx:17-18 | `parseInt(s, 10)`; its value on digit strings, on negated digit strings and on the empty string is proved in `ParseIntOfDigits`, `ParseIntOfNegativeDigits` and `CustomSizeInput.ParseEmpty`; `ParseIntToString` reads back a printed integer |
| Util.Join | services/qrFormatter.ts:57 | `Array.prototype.join`; `SplitJoin` and `JoinSplit` make it the inverse of `Split`, `JoinLast` fixes its ends |
| Util.TrimStart | components/CustomSizeInput.tsx:17-18 | the white space `parseInt` skips: the result is a suffix, starts with a non-space, and only white space was removed |
| Util.TrimEnd | components/ImageConverter.tsx:141-142 | the trailing half of `trim`: the result is a prefix, ends with a non-space, and only white space was removed |
| Util.AfterLast | App.tsx:137-138 | `substring(lastIndexOf(c) + 1)`: a suffix without `c`, preceded by `c` whenever it is not the whole string |
| Util.BeforeFirst | App.tsx:137 | `split(c)[0]`: a prefix without `c`, followed by `c` when `c` occurs, the whole string otherwise |
| Compositor.LetterboxSteps | App.tsx:247-262 | the branch-and-assign steps of the letterbox compute `Letterbox` |
| Compositor.RatioCompare | App.tsx:250 | comparing the two aspect ratios is comparing the cross products, so the branch is decided without dividing |
| Compositor.LetterboxFits | App.tsx:247-262 | the destination is non-empty, lies inside the output, fills it in one dimension, has the source's aspect and is centred |
| Compositor.LetterboxIsLargest | App.tsx:247-262 | no rectangle of the source's aspect that fits the output is wider or taller than the destination |
| Compositor.LetterboxExamples | App.tsx:247-262 | a 100×50 crop into 200×200 lands on {0, 50, 200, 100}; a 50×100 crop on {50, 0, 100, 200} |
| Compositor.LetterboxSameSize | components/EditorResizeAndCropOverlay.tsx:66-80 | a source drawn at its own size fills the output exactly |
| Compositor.ParseOutputSize | components/EditorResizeAndCropOverlay.tsx:46-52 | a size exactly when both fields parse to positive integers, and then those integers |
| Compositor.ParseOutputSizeOfIntegers | components/EditorResizeAndCropOverlay.tsx:46-52 | fields holding positive integers' decimal text are accepted as those integers |
| Compositor.ExportOf | components/EditorResizeAndCropOverlay.tsx:56-86 | the canvas is exactly the output size and filled white; the source is drawn only when it has a positive width and height |
| Compositor.ExportFits | components/EditorResizeAndCropOverlay.tsx:66-80 | the drawn destination lies inside the canvas, keeps the source's aspect and is centred |
| Compositor.ExportSteps | components/EditorResizeAndCropOverlay.tsx:56-86 | the export's steps compute `ExportOf` |
| Compositor.Letterbox | App.tsx:247-262 | the letterbox placement; `LetterboxFits`, `LetterboxIsLargest` and `LetterboxSteps` prove it lies inside the output with the source aspect, is centred, is the largest such rectangle and is what the program assigns |
| App.SelectedProfile | App.tsx:213-215 | the profile with the selected id, or the first (favicon) when no profile has it; every profile's sizes are positive |
| App.SquareCrop | App.tsx:328-348 | a square of side min(width, height) that lies inside the image and is centred on it |
| App.SquareCropExample | App.tsx:328-348 | a 1000×500 image gets the crop {250, 0, 500, 500} |
| App.FullCrop | App.tsx:350-355 | the full-image crop is {0, 0, naturalWidth, naturalHeight} |
| App.IconOf | App.tsx:238-264 | one icon keeps its definition's width, height and filename, and its destination is the letterbox of the crop into the icon |
| App.IconOfFits | App.tsx:247-262 | the destination lies inside the icon, has the crop's aspect and is centred (2·destX + destWidth = width, likewise vertically) |
| App.IconsFor | App.tsx:236-266 | at most one icon per definition |
| App.IconsForAll | App.tsx:236-266 | when every canvas context is obtained, exactly one icon per definition, in definition order |
| App.IconsForOrigin | App.tsx:241-264 | every icon comes from a definition whose context was obtained |
| App.IconsForRank | App.tsx:236-266 | each definition whose context was obtained yields exactly one icon, at the position counted by the obtained contexts before it; there are as many icons as obtained contexts, and skipped definitions leave no gap |
| App.ObtainedGrows | App.tsx:236-266 | an obtained definition is counted before every later position, so the icons keep definition order |
| App.DrawIcon | App.tsx:237-264 | the loop body's letterbox steps compute `IconOf` |
| App.GenerateIcons | App.tsx:233-266 | the loop that pushes icons computes `IconsFor` |
| App.InsertByAreaPermutes | App.tsx:296-298 | inserting by area adds exactly the new size (multiset) |
| App.InsertByAreaMembers | App.tsx:296-298 | the list after insertion holds exactly the old entries and the new one |
| App.InsertByAreaSorted | App.tsx:296-298 | insertion keeps a list sorted by non-decreasing width·height |
| App.SortByAreaSpec | App.tsx:297 | the area sort yields a list sorted by width·height that is a permutation of its input |
| App.SortByAreaSorted | App.tsx:297 | sorting a sorted list changes nothing |
| App.SortAppended | App.tsx:297 | sorting a sorted list with one entry appended is inserting that entry |
| App.InsertDistinct | App.tsx:286-298 | inserting a size that is not present keeps all (width, height) pairs distinct |
| App.AddKeepsSizes | App.tsx:285-299 | adding a new size keeps the list sorted, free of duplicate pairs and of positive sizes, and adds exactly that entry |
| App.WithoutSizeSplits | App.tsx:301-307 | removal keeps exactly the entries of another size and drops exactly those of the given size |
| App.WithoutSizeKeeps | App.tsx:301-307 | removal keeps a sorted list sorted and a duplicate-free list duplicate-free |
| App.CustomFilenameNamesSize | App.tsx:293 | the name is `custom-<W>x<H>.png`: it starts `custom-` and ends `.png`, the digits before the `x` read back as the width and those after it as the height |
| App.AcceptMode | App.tsx:120 | only the ids of the four modes are accepted, each as its own mode |
| App.AcceptModeId | App.tsx:120 | every mode's id is accepted as that mode |
| App.ModeAfterUrl | App.tsx:120-144 | a known `mode` parameter wins; without one a fetched image switches to the converter; an unknown one changes nothing |
| App.RemoteFilename | App.tsx:137-138 | never empty; `remote-image.jpg` when the URL without its query is empty or ends with `/`; otherwise a suffix of it without `/` or `?` that starts right after its last `/` |
| App.RemoteFilenameExamples | App.tsx:137-138 | `h/a?v` is named `a`; `h/` is named `remote-image.jpg` |
| App.ModeChangeResetsCases | App.tsx:357-366 | a mode change resets the image exactly when it leaves the QR generator for another mode |
| App.AppState.constructor | App.tsx:30-45 | the initial state: editor mode, favicon profile, nothing loaded |
| App.AppState.ImageUpload | App.tsx:95-105 | new files reset the crop, icons, image info, lock and edited image; a local upload clears the from-URL flag |
| App.AppState.NewImage | App.tsx:315-322 | files, crop, icons, image info, edited image and from-URL flag are cleared and nothing else changes |
| App.AppState.ClearCrop | App.tsx:309-313 | the crop and icons are cleared and the lock is turned off; nothing else changes |
| App.AppState.ReceiveImgInfo | App.tsx:438 | the measured image info is stored; nothing else changes |
| App.AppState.InitiateSquareCrop | App.tsx:328-348 | without image info nothing changes; otherwise the crop is the centred square and the lock is on |
| App.AppState.InitiateFullScreenCrop | App.tsx:350-355 | without image info nothing changes; otherwise the crop is the full image and the lock is off |
| App.AppState.ModeChange | App.tsx:357-366 | the mode is set, and the image state is reset exactly when `ModeChangeResets` says so |
| App.AppState.AddCustomIcon | App.tsx:285-299 | a size already present changes nothing; otherwise the list is the old one plus `custom-WxH.png`, sorted by area |
| App.AppState.RemoveCustomIcon | App.tsx:301-307 | the list loses exactly the entries of that size, the rest in order |
| App.AppState.Definitions | App.tsx:234 | the custom profile uses the custom sizes, any other its own icons; all have positive sizes |
| App.AppState.ProcessImage | App.tsx:225-269 | nothing changes without an image or with a missing or empty crop; otherwise the icons are `IconsFor` the selected definitions |
| App.RemoteFilenameOfUrl | App.tsx:137-138 | a URL ending in `/<name>`, with or without a query, is named `<name>` |
| App.AfterLastSlash | App.tsx:138 | the text after the last `/` of `<base>/<name>` is `<name>` |
| App.InsertByArea | App.tsx:296-298 | one step of the stable sort; `InsertByAreaPermutes`, `InsertByAreaMembers` and `InsertByAreaSorted` prove it adds exactly the new entry and keeps the area order |
| App.SortByArea | App.tsx:297 | the stable area sort; `SortByAreaSpec` proves it sorted and a permutation, `SortByAreaSorted` that it leaves a sorted list alone |
| App.WithoutSize | App.tsx:301-307 | `prev.filter(...)`; `WithoutSizeSplits` proves it keeps exactly the entries of another size, `WithoutSizeKeeps` that order and distinctness survive |
| App.CustomFilename | App.tsx:293 | `custom-<w>x<h>.png`; `CustomFilenameNamesSize` proves its shape and that the width and the height read back |
| App.ModeChangeResets | App.tsx:357-366 | the reset rule of a mode change; `ModeChangeResetsCases` lists the cases and `AppState.ModeChange` applies it |
| ImageEditor.Opposite | components/ImageEditor.tsx:297-305 | the opposite handle swaps north with south and east with west |
| ImageEditor.NaturalDeltaOfScreenDelta | components/ImageEditor.tsx:185-188 | a cursor step between two screen positions maps back to the difference of the natural positions they show |
| ImageEditor.ScreenSelection | components/ImageEditor.tsx:93-105 | a rectangle exactly when a crop and bounds exist; each field is `Math.round` of the crop's exact screen value |
| ImageEditor.CursorFor | components/ImageEditor.tsx:297-305 | every handle shows one of the four resize cursors |
| ImageEditor.CursorSharedByOpposites | components/ImageEditor.tsx:297-305 | two handles share a cursor exactly when they are the same or opposite |
| ImageEditor.Clamped | components/ImageEditor.tsx:146-168 | x, y, width and height end non-negative; an origin inside the image keeps the far edge inside; a size is only ever reduced, and kept when it fits |
| ImageEditor.ClampedInside | components/ImageEditor.tsx:146-168 | a crop already inside the image is unchanged |
| ImageEditor.LockedSizeKeepsAspect | components/ImageEditor.tsx:209-228 | under the lock the new width and height keep the start crop's aspect |
| ImageEditor.EdgesSpan | components/ImageEditor.tsx:230-241 | the placed edges, before the flip, are exactly the new width and height apart |
| ImageEditor.Between | components/ImageEditor.tsx:244-245 | the flip correction: the rectangle between two edges, from the smaller to the larger, with a non-negative size |
| ImageEditor.ResizeSpec | components/ImageEditor.tsx:196-247 | a resize yields a crop with a non-negative size, and none exactly when the aspect is locked and the locked step would divide by a zero side of the start crop |
| ImageEditor.WidthLedSize | components/ImageEditor.tsx:213-222 | when the width leads, the height follows as dw / aspect |
| ImageEditor.HeightLedSize | components/ImageEditor.tsx:215-220 | when the height leads, the width follows as dh · aspect |
| ImageEditor.LockDeltas | components/ImageEditor.tsx:209-225 | the lock's branch steps compute `LockedSize`, including on a start crop with a zero side, where the aspect is 0 or infinite |
| ImageEditor.AspectDeltas | components/ImageEditor.tsx:209-225 | on a start crop with two positive sides, the corner comparison and the edge branches compute `LockedSize` |
| ImageEditor.LockDefinedDivides | components/ImageEditor.tsx:209-225 | the locked step is defined exactly when the side it divides by (the width when the width leads, the height otherwise) is positive |
| ImageEditor.LockedLine | components/ImageEditor.tsx:209-228 | on a start crop with a zero side, the locked size keeps that side zero and the other side follows its own change |
| ImageEditor.LockablePositive | components/ImageEditor.tsx:209-225 | a start crop with two positive sides can always be resized under the lock |
| ImageEditor.ResizeGeometry | components/ImageEditor.tsx:196-247 | the step-by-step resize computes `ResizeSpec` |
| ImageEditor.DragDeltas | components/ImageEditor.tsx:200-207 | east and south follow the cursor, west and north oppose it, other axes do not change |
| ImageEditor.ResizeDeltas | components/ImageEditor.tsx:200-228 | the delta steps compute `SignedSize` |
| ImageEditor.PlaceResized | components/ImageEditor.tsx:230-245 | centring, anchoring and flip correction place the crop between the edges `HorizontalEdges` and `VerticalEdges` give |
| ImageEditor.PlaceHorizontal | components/ImageEditor.tsx:230-243 | the left edge and width after centring, west anchoring and the flip are the nearer edge and the distance between the `HorizontalEdges` |
| ImageEditor.PlaceVertical | components/ImageEditor.tsx:230-244 | the top edge and height after centring, north anchoring and the flip are the nearer edge and the distance between the `VerticalEdges` |
| ImageEditor.PlacedKeepsAspect | components/ImageEditor.tsx:209-245 | a locked resize keeps width = aspect · height through the flip correction |
| ImageEditor.BetweenEdgesSize | components/ImageEditor.tsx:244-245 | after the flip correction width and height are the absolute values of the signed ones |
| ImageEditor.ResizeFollowsCursor | components/ImageEditor.tsx:196-245 | unlocked: 'n' keeps the start bottom, 'w' the start right, 's' and 'e' the start top and left; an untouched axis is unchanged, and the flip takes the other edge |
| ImageEditor.ResizeLockedEdgeCentred | components/ImageEditor.tsx:230-245 | a locked edge resize keeps the start crop's centre on the other axis through the flip |
| ImageEditor.ResizeLockedCornerAnchored | components/ImageEditor.tsx:209-245 | a locked corner resize keeps the opposite corner fixed, and the leading side follows the cursor |
| ImageEditor.ResizeLockedDegenerate | components/ImageEditor.tsx:209-245 | a locked resize of a zero-width crop at an 'n'/'s' edge, or at a corner with no horizontal movement, stays a vertical line at the same x whose height follows the cursor; a zero-height crop at an 'e'/'w' edge stays a horizontal line at the same y whose width follows the cursor |
| ImageEditor.ResizeFlipExample | components/ImageEditor.tsx:244-245 | 'se' from {10, 10, 100, 100} by (−150, −150) gives {−40, −40, 50, 50}, clamped to {0, 0, 50, 50} |
| ImageEditor.Gesture | components/ImageEditor.tsx:190-248 | a move keeps the start size and offsets the start origin by the delta; a resize is `ResizeSpec` |
| ImageEditor.RoundCrop | components/ImageEditor.tsx:276-281 | each field is `Math.round` of the visual crop's field: the integer r with x − 1/2 < r ≤ x + 1/2, so an exact half rounds up |
| ImageEditor.RoundCropHalves | components/ImageEditor.tsx:276-281 | exact halves round towards positive infinity: 2.5 gives 3 and −2.5 gives −2 |
| ImageEditor.CommitDecision | components/ImageEditor.tsx:274-288 | the rounded crop is committed exactly when it differs from the committed one; no crop commits null exactly when one is committed |
| ImageEditor.RoundCropIdempotent | components/ImageEditor.tsx:276-281 | rounding twice is rounding once |
| ImageEditor.CommitSettles | components/ImageEditor.tsx:282 | once the rounded crop is committed and shown, the next timer commits nothing |
| ImageEditor.CropEditor.constructor | components/ImageEditor.tsx:37-56 | idle, no bounds, the shown crop is the parent's, and the commit timer is set once |
| ImageEditor.CropEditor.Measure | components/ImageEditor.tsx:58-91 | new bounds are stored and nothing else changes |
| ImageEditor.CropEditor.ReceiveCrop | components/ImageEditor.tsx:48-51 | a crop from the parent is shown, and the commit timer restarts |
| ImageEditor.CropEditor.ReceiveLock | components/ImageEditor.tsx:33 | only the lock changes |
| ImageEditor.CropEditor.InteractionStart | components/ImageEditor.tsx:118-132 | a gesture starts only for button 0, with a shown crop and a position, and snapshots both |
| ImageEditor.CropEditor.UpdateVisualCrop | components/ImageEditor.tsx:146-168 | without bounds nothing changes; otherwise the clamped crop is shown and the commit timer restarts |
| ImageEditor.CropEditor.Move | components/ImageEditor.tsx:172-250 | idle moves change nothing; otherwise the crop shown is the clamped `Gesture` of the snapshot by the natural-space delta |
| ImageEditor.MoveKeepsSnapshot | components/ImageEditor.tsx:172-250 | a move leaves the gesture's action, start crop, start position, image box and lock as they were |
| ImageEditor.ReplayDefined | components/ImageEditor.tsx:172-250 | for a gesture whose every step is defined, moving back to a cursor position shows the same crop as the first time |
| ImageEditor.GestureStep | components/ImageEditor.tsx:181-248 | the gesture's crop is the start snapshot moved, or resized at the handle, by the cursor displacement scaled from displayed to natural pixels on each axis |
| ImageEditor.CropEditor.Up | components/ImageEditor.tsx:252-255 | from any state the gesture returns to idle |
| ImageEditor.CropEditor.Fire | components/ImageEditor.tsx:274-288 | the commit timer's firing emits exactly `CommitDecision` |
| ImageEditor.CropEditor.Teardown | components/ImageEditor.tsx:290-294 | the pending timer is cleared and nothing else changes |
| ImageEditor.ReplayScenario | components/ImageEditor.tsx:172-250 | moving back to a cursor position already visited in a drag shows the same visual crop as the first time, unless a locked drag starts from a crop with a zero side |
| ResizeCropOverlay.Overlay.constructor | components/EditorResizeAndCropOverlay.tsx:21-23 | no crop and empty output fields |
| ResizeCropOverlay.Overlay.Load | components/EditorResizeAndCropOverlay.tsx:26-34 | on load the crop is the full image and the fields hold the natural width and height, which parse back to that size |
| ResizeCropOverlay.Overlay.CropChange | components/EditorResizeAndCropOverlay.tsx:36-41 | no crop changes nothing; otherwise the crop is stored and the fields hold its rounded width and height |
| ResizeCropOverlay.Overlay.EditWidth | components/EditorResizeAndCropOverlay.tsx:22 | typing in the width field changes only that field |
| ResizeCropOverlay.Overlay.EditHeight | components/EditorResizeAndCropOverlay.tsx:23 | typing in the height field changes only that field |
| ResizeCropOverlay.Overlay.Apply | components/EditorResizeAndCropOverlay.tsx:43-91 | ignored without a crop or source; invalid unless both fields parse to positive integers; otherwise the white canvas of that size with the crop letterboxed in |
| ResizeCropOverlay.ApplyAfterLoad | components/EditorResizeAndCropOverlay.tsx:26-91 | applying right after load exports the whole image at its natural size, filling the canvas |
| ConverterEditor.AspectRatio | components/ConverterEditor.tsx:38-47 | '1:1' is 1, '4:5' is 4/5, and any ratio returned is positive |
| ConverterEditor.FreeAspectRatio | components/ConverterEditor.tsx:42-45 | in 'free' mode a ratio exists exactly when both fields parse to positive integers, and it is their quotient |
| ConverterEditor.ButtonRatio | components/ConverterEditor.tsx:286 | a ratio button fixes a ratio exactly for '1:1' and '4:5', the same one `getAspectRatio` gives |
| ConverterEditor.UnscaleTimes | components/ConverterEditor.tsx:242-245 | dividing by the zoom is undone by multiplying by it |
| ConverterEditor.PartnerHeightClose | components/ConverterEditor.tsx:290-301 | the rounded height `round(w / ratio)` times the ratio is within half a ratio of the width |
| ConverterEditor.PartnerWidthClose | components/ConverterEditor.tsx:314 | the rounded width `round(h · ratio)` is within 1/2 of the height times the ratio |
| ConverterEditor.HeightForModeSpec | components/ConverterEditor.tsx:284-293 | choosing a fixed ratio with a positive integer width sets the height to `round(width / ratio)`; 'free' or another width leaves the height |
| ConverterEditor.PartnerAfterEditSpec | components/ConverterEditor.tsx:295-319 | with a ratio, a positive value sets the partner field to its rounded counterpart and an empty value clears it; otherwise the partner is kept |
| ConverterEditor.ConstrainAxisCovers | components/ConverterEditor.tsx:95-110 | on an axis where the image is at least the frame's size, after the edge checks it covers the frame |
| ConverterEditor.ConstrainAxisKeepsCovering | components/ConverterEditor.tsx:95-110 | an image that already covers the frame on an axis is not moved |
| ConverterEditor.PanUncoversAsWritten | components/ConverterEditor.tsx:92 | as written, an image exactly the frame's size is not held: a 10-pixel pan uncovers a strip of the frame |
| ConverterEditor.PanKeepsCovering | components/ConverterEditor.tsx:90-111 | with the corrected guard, a pan of an image at least the frame's size still covers the frame |
| ConverterEditor.FitCovers | components/ConverterEditor.tsx:58-68 | the fitted scale is positive, the scaled image covers the frame, and one scaled dimension equals the frame's |
| ConverterEditor.SourceRect | components/ConverterEditor.tsx:238-245 | the source rectangle has a positive width and height |
| ConverterEditor.SourceRectIsFrame | components/ConverterEditor.tsx:238-245 | mapped forward by the zoom, the source rectangle is exactly the frame: its corner lands on the frame's and its size times the zoom is the frame's |
| ConverterEditor.ConstrainSteps | components/ConverterEditor.tsx:93-110 | the four edge checks, on the bounds read once, compute `ConstrainAxis` on each axis |
| ConverterEditor.SourceSteps | components/ConverterEditor.tsx:234-245 | the source-rectangle steps compute `SourceRect` |
| ConverterEditor.Editor.constructor | components/ConverterEditor.tsx:29-30 | the mode starts as the requested one or 'free', with empty fields and no pan |
| ConverterEditor.Editor.FitImageToFrame | components/ConverterEditor.tsx:50-73 | without an image nothing changes; otherwise the image covers the frame, fills it in one dimension and is centred on the canvas |
| ConverterEditor.Editor.Load | components/ConverterEditor.tsx:127-148 | without a start ratio the fields hold the image size; in '1:1' both hold min(width, height); in '4:5' they are kept; then the image is fitted |
| ConverterEditor.Editor.ConstrainImageBounds | components/ConverterEditor.tsx:75-115 | the program's strict guard: when the image is strictly larger than the frame on some axis each axis is constrained, otherwise the position is kept |
| ConverterEditor.Editor.MouseDown | components/ConverterEditor.tsx:151-158 | a press on the image starts a pan from that point; elsewhere nothing changes |
| ConverterEditor.Editor.MouseMove | components/ConverterEditor.tsx:159-168 | without a pan nothing changes; otherwise each axis moves by the cursor's step and is constrained under the strict guard, so an image strictly larger than the frame still covers it |
| ConverterEditor.Editor.MouseUp | components/ConverterEditor.tsx:169-172 | the pan ends; nothing else changes |
| ConverterEditor.Editor.Wheel | components/ConverterEditor.tsx:175-190 | a step that would take the scale below 0.01 is ignored; otherwise the scale moves by −deltaY/1000 and left and top are re-constrained under the strict guard at the new size |
| ConverterEditor.Editor.SetAspectRatioMode | components/ConverterEditor.tsx:284-293 | the mode is set, the width kept and the height the one `HeightForMode` gives; when the mode changes, the loaded image is refitted to the new frame as `FitImageToFrame` does, and otherwise the view is kept |
| ConverterEditor.Editor.WidthChange | components/ConverterEditor.tsx:295-306 | the width is the typed value and the height follows it as `PartnerAfterEdit` says, under the ratio before the edit |
| ConverterEditor.Editor.HeightChange | components/ConverterEditor.tsx:308-319 | the height is the typed value and the width follows it as `PartnerAfterEdit` says |
| ConverterEditor.EditedPartner | components/ConverterEditor.tsx:295-319 | the partner field after typing into one field: recomputed through the ratio read before the edit, cleared by an emptied field, kept otherwise |
| ConverterEditor.Editor.Apply | components/ConverterEditor.tsx:217-282 | ignored without an image; invalid unless both fields parse to positive integers; otherwise the white canvas of that size with the frame's source rectangle letterboxed in |
| ConverterEditor.HeightForMode | components/ConverterEditor.tsx:284-293 | the height a ratio button sets; `HeightForModeSpec` proves it is `round(width / ratio)` for a positive width and the old height otherwise |
| ConverterEditor.PartnerAfterEdit | components/ConverterEditor.tsx:295-319 | the partner field after an edit; `PartnerAfterEditSpec` proves the ratio cases and the empty value |
| ConverterEditor.PanAxis | components/ConverterEditor.tsx:159-168 | one axis of a pan; `PanKeepsCovering` and `PanUncoversAsWritten` prove when it keeps the frame covered |
| ConverterEditor.Exceeds | components/ConverterEditor.tsx:92 | the corrected guard, used by `PanKeepsCovering`, which proves a pan keeps a frame-sized image covering the frame |
| ConverterEditor.ExceedsAsWritten | components/ConverterEditor.tsx:92 | the guard as written; `PanUncoversAsWritten` shows a frame-sized image escaping it |
| LogoCropper.CentredSquare | components/qr/ImageCropperOverlay.tsx:43-51 | a square of side min(naturalWidth, naturalHeight), centred in the image |
| LogoCropper.CentredSquareIsSquareCrop | components/qr/ImageCropperOverlay.tsx:43-51 | the logo cropper's square is the icon generator's centre-square crop |
| LogoCropper.Clamp | components/qr/ImageCropperOverlay.tsx:103-104 | `max(0, min(v, hi))` lies in [0, hi] when that interval is non-empty, keeps a value already there, and is 0 otherwise |
| LogoCropper.Dragged | components/qr/ImageCropperOverlay.tsx:95-106 | a drag keeps the width and height |
| LogoCropper.DraggedInside | components/qr/ImageCropperOverlay.tsx:95-106 | a crop that fits the image stays inside it after any drag, offset from the drag-start snapshot |
| LogoCropper.DraggedBackToStart | components/qr/ImageCropperOverlay.tsx:95-101 | dragging back to the start position restores the start crop: the offset is taken from the snapshot |
| LogoCropper.Cropper.constructor | components/qr/ImageCropperOverlay.tsx:32-35 | no crop and no drag |
| LogoCropper.Cropper.InitSquareCrop | components/qr/ImageCropperOverlay.tsx:43-51 | the crop is the centred square |
| LogoCropper.Cropper.Start | components/qr/ImageCropperOverlay.tsx:79-86 | a drag starts only with a crop and a position, and snapshots both |
| LogoCropper.Cropper.Move | components/qr/ImageCropperOverlay.tsx:89-107 | while dragging, the crop is the start snapshot dragged and clamped; otherwise it is kept |
| LogoCropper.Cropper.Up | components/qr/ImageCropperOverlay.tsx:109 | mouse-up ends the drag |
| LogoCropper.Cropper.Apply | components/qr/ImageCropperOverlay.tsx:123-140 | no crop reports null; otherwise the output is exactly crop.width×crop.height, drawn from a source inside the image |
| EditorMode.AtMostOne | components/ImageEditorMode.tsx:74 | the timers one `timeout` variable can name are at most one |
| EditorMode.Debouncer.OnePending | components/ImageEditorMode.tsx:73-93 | at most one invocation is ever pending |
| EditorMode.Debouncer.constructor | components/ImageEditorMode.tsx:73-74 | nothing pending and nothing run |
| EditorMode.Debouncer.Call | components/ImageEditorMode.tsx:77-86 | a call clears the pending timer and sets a new one: exactly that one is pending, and nothing runs yet |
| EditorMode.Debouncer.Cancel | components/ImageEditorMode.tsx:88-90 | after `cancel` nothing is pending |
| EditorMode.Debouncer.Fire | components/ImageEditorMode.tsx:80-83 | a pending timer firing runs the function once and clears the variable; a cleared one does nothing |
| EditorMode.Pushed | components/ImageEditorMode.tsx:404-405 | the new history ends at index + 1 with the new state |
| EditorMode.PushedKeepsPast | components/ImageEditorMode.tsx:404-405 | the entries up to the current index are kept and the redo tail is dropped |
| EditorMode.History.constructor | components/ImageEditorMode.tsx:136-138 | an empty history at index −1, unlocked |
| EditorMode.History.LoadImage | components/ImageEditorMode.tsx:645-666 | a loaded image is unflipped, and its history is its initial snapshot alone, unflipped, at index 0, unlocked |
| EditorMode.History.UpdateHistory | components/ImageEditorMode.tsx:399-409 | while locked nothing changes; otherwise the redo tail is dropped, the state pushed with the present flip flags and the index moved to the new last entry |
| EditorMode.History.Undo | components/ImageEditorMode.tsx:234-238 | at index 0 or below nothing happens; otherwise the history is locked and a restore of index − 1 starts, the history itself unchanged |
| EditorMode.History.RestoreDone | components/ImageEditorMode.tsx:241-246 | the restore ends: the lock is released, the index is exactly one less, the history unchanged, and the background takes the flip flags stored in the restored entry |
| EditorMode.History.Flip | components/ImageEditorMode.tsx:909-927 | without a background image nothing changes; otherwise the chosen flag is negated and, unless locked, one history entry carrying the new flags is pushed |
| EditorMode.FlipUndone | components/ImageEditorMode.tsx:234-248 | a flip followed by an undo gives back the flags the image had, at the same index with the same history up to it |
| EditorMode.FlipTwice | components/ImageEditorMode.tsx:909-927 | two flips on the same axis give back the flags and push two entries on top of the history up to the index |
| EditorMode.ClampZoom | components/ImageEditorMode.tsx:449-450 | the zoom ends in [0.05, 20] and a zoom already there is kept |
| EditorMode.FitZoomFits | components/ImageEditorMode.tsx:374-377 | the fit zoom 0.95·min(cw/iw, ch/ih) is positive, fits the image in 95% of the canvas and fills it on one axis |
| EditorMode.CentringOffsetCentres | components/ImageEditorMode.tsx:381-382 | the viewport offset centres the scaled image: 2·offset + scaled extent = canvas extent |
| EditorMode.ZoomAboutFixesPoint | components/ImageEditorMode.tsx:452 | zooming about a point keeps that point over the same canvas position; the same zoom keeps the offset |
| EditorMode.View.constructor | components/ImageEditorMode.tsx:180 | zoom 1, no pending fit, no pinch |
| EditorMode.View.ImageLoaded | components/ImageEditorMode.tsx:664 | a loaded image asks for the initial fit and nothing else changes |
| EditorMode.View.Resized | components/ImageEditorMode.tsx:365-388 | the first resize after a load of a non-empty canvas sets the fit zoom and centres the image, once; otherwise the view is kept |
| EditorMode.View.Wheel | components/ImageEditorMode.tsx:441-455 | ignored for pen and eraser; otherwise the zoom times 1 − deltaY/500, clamped to [0.05, 20], about the cursor |
| EditorMode.View.ZoomToPoint | components/ImageEditorMode.tsx:452 | the zoom is set and the offsets keep the point fixed |
| EditorMode.View.TouchStart | components/ImageEditorMode.tsx:459-467 | a two-finger touch starts a pinch at that distance |
| EditorMode.View.PinchMove | components/ImageEditorMode.tsx:488-521 | with a positive start distance the zoom is scaled by the distance ratio and clamped to [0.05, 20] about the centre; the new distance becomes the start |
| EditorMode.View.TouchEnd | components/ImageEditorMode.tsx:535-542 | the pinch ends and the view is kept |
| EditorMode.OpacityOf | components/ImageEditorMode.tsx:751-755 | the opacity is 1 when transparency is off and lies in [0, 1] for a transparency in [0, 100] |
| EditorMode.ApplyTargets | components/ImageEditorMode.tsx:735-771 | the colour goes to fill for text and to stroke otherwise; properties not in the update are left as they were |
| EditorMode.TransparencyRoundTrip | components/ImageEditorMode.tsx:621-633 | reading back a transparency that was set gives the same value whenever transparency is on, 0 when it is off |
| EditorMode.TransparencyAsWrittenLosesFull | components/ImageEditorMode.tsx:625-626 | as written, transparency 100 gives opacity 0, which `\|\| 1` reads back as transparency 0; the corrected read-back gives 100 |
| EditorMode.PanelOf | components/ImageEditorMode.tsx:621-643 | the read-back as written: the switch is on exactly when the transparency is positive, and an opacity of 0 shows transparency 0 |
| EditorMode.PanelOfApplied | components/ImageEditorMode.tsx:621-643 | after a change of colour and transparency the panel reads back that colour, and that transparency unless it was 100, which reads back as 0 with the switch off |
| EditorMode.PropertiesPanel.constructor | components/ImageEditorMode.tsx:134-175 | the initial properties, no active object, the panel closed |
| EditorMode.PropertiesPanel.PropertyChange | components/ImageEditorMode.tsx:735-771 | the panel takes the merged properties; an active non-group object gets the update applied |
| EditorMode.PropertiesPanel.Select | components/ImageEditorMode.tsx:393-397 | a selection only changes the active object |
| EditorMode.PropertiesPanel.Sync | components/ImageEditorMode.tsx:621-643 | an active non-group object's properties fill the panel as the program reads them and open it; otherwise nothing changes |
| EditorMode.ToolDisabledCases | components/ImageEditorMode.tsx:1270 | text is always enabled, sign exactly for a PDF, and every other tool exactly outside batch mode |
| EditorMode.Toolbar.constructor | components/ImageEditorMode.tsx:140 | the select tool |
| EditorMode.Toolbar.ToolClick | components/ImageEditorMode.tsx:1100-1109 | pen and eraser toggle against select, shape actions end on select, sign and add-image keep the tool; a drawing tool opens the panel |
| EditorMode.Toolbar.ToggleTwice | components/ImageEditorMode.tsx:1104 | clicking a toggling tool twice gives back the tool in use before |
| EditorMode.Toolbar.ImageLoaded | components/ImageEditorMode.tsx:665 | a newly loaded image makes the select tool active |
| EditorMode.LoadImageToCanvas | components/ImageEditorMode.tsx:645-666 | a load restarts the history from the unflipped image, asks for the initial fit and makes the select tool active |
| EditorMode.TransparencyAsWrittenRoundTrip | components/ImageEditorMode.tsx:625-626 | as written, a transparency below 100 that is on reads back unchanged, 100 reads back as 0, and one that is off reads back as 0 |
| EditorMode.FitZoom | components/ImageEditorMode.tsx:374-377 | the initial fit zoom; `FitZoomFits` proves it positive, fitting and filling one axis |
| EditorMode.ZoomAbout | components/ImageEditorMode.tsx:452 | the offset after a zoom about a point; `ZoomAboutFixesPoint` proves the point stays put |
| EditorMode.Merge | components/ImageEditorMode.tsx:736 | `{ ...currentProperties, ...updates }`; `PropertiesPanel.PropertyChange` stores it |
| EditorMode.Apply | components/ImageEditorMode.tsx:735-771 | what a change sets on the object; `ApplyTargets` proves which fields receive it and that the rest are kept |
| EditorMode.ToolDisabled | components/ImageEditorMode.tsx:1270 | the tool buttons' disable rule; `ToolDisabledCases` gives each tool's case |
| EditorMode.TransparencyOf | components/ImageEditorMode.tsx:625-626 | the corrected read-back; `TransparencyRoundTrip` proves every set transparency reads back |
| EditorMode.TransparencyAsWritten | components/ImageEditorMode.tsx:625-626 | the read-back as written; `TransparencyAsWrittenLosesFull` and `TransparencyAsWrittenRoundTrip` say what it reads back |
| QrFormatter.Field | services/qrFormatter.ts:5-9 | a missing key reads as the empty string, a present one as its value (`data.x \|\| ''`) |
| QrFormatter.OrElse | services/qrFormatter.ts:15 | an empty value is replaced by the fallback, any other is kept |
| QrFormatter.TerminatedSnoc | services/qrFormatter.ts:4-10 | appending one `line\n` to the text extends its line list by that line |
| QrFormatter.JoinTerminated | services/qrFormatter.ts:10 | newline-terminated lines followed by an unterminated last line are the lines joined by newlines |
| QrFormatter.OptionalLine | services/qrFormatter.ts:7-9 | a line is added exactly when the value is non-empty, and it is the tag followed by the value |
| QrFormatter.VCardLines | services/qrFormatter.ts:3-12 | a vCard has the five fixed lines plus one line per non-empty phone, e-mail and company |
| QrFormatter.FormatVCard | services/qrFormatter.ts:3-12 | the string built line by line is the vCard's lines, each ended by a newline except END:VCARD |
| QrFormatter.VCardHeader | services/qrFormatter.ts:4 | the initial text is the BEGIN and VERSION lines |
| QrFormatter.AppendLine | services/qrFormatter.ts:5-6 | `+= line\n` keeps the text equal to its newline-terminated line list |
| QrFormatter.AppendOptional | services/qrFormatter.ts:7-9 | a conditional `+=` adds the optional line and nothing when the value is empty |
| QrFormatter.VCardSplits | services/qrFormatter.ts:3-12 | when no value holds a line break, splitting the vCard at newlines gives back exactly its lines |
| QrFormatter.UnbrokenConcat | services/qrFormatter.ts:3-12 | line lists without line breaks stay so when concatenated |
| QrFormatter.VCardLinesUnbroken | services/qrFormatter.ts:3-12 | values without line breaks give vCard lines without line breaks |
| QrFormatter.VCardParts | services/qrFormatter.ts:3-12 | a line is in the vCard exactly when it is one of the fixed lines, the N/FN lines from the names, or a present optional line |
| QrFormatter.VCardTelLine | services/qrFormatter.ts:7 | the TEL line is present exactly when the phone is non-empty |
| QrFormatter.VCardEmailLine | services/qrFormatter.ts:8 | the EMAIL line is present exactly when the e-mail is non-empty |
| QrFormatter.VCardOrgLine | services/qrFormatter.ts:9 | the ORG line is present exactly when the company is non-empty |
| QrFormatter.EventLines | services/qrFormatter.ts:21-34 | an event fails exactly when a present start or end date does not convert; otherwise it opens with BEGIN:VEVENT and closes with END:VEVENT |
| QrFormatter.FormatEvent | services/qrFormatter.ts:21-34 | the string built line by line is the event's lines, or the failure |
| QrFormatter.EventWithoutDates | services/qrFormatter.ts:27-32 | with no dates the event is its summary and location lines between BEGIN and END |
| QrFormatter.WifiSplits | services/qrFormatter.ts:14-19 | values without `;` are read back from the fields between the separators |
| QrFormatter.SepaLines | services/qrFormatter.ts:36-55 | twelve elements: the fixed header, the BIC, name, remittance and hint cut to 11/70/140/70 characters, the IBAN with its white space removed, `EUR` and the amount or empty, two empty fields |
| QrFormatter.SepaHeader | services/qrFormatter.ts:42-57 | the trimmed text starts with the BCD/002/1/SCT header |
| QrFormatter.HeaderKept | services/qrFormatter.ts:57 | trimming the joined lines keeps the header |
| QrFormatter.HeaderJoin | services/qrFormatter.ts:57 | joining lines that start with the header puts the header first |
| QrFormatter.SepaSplits | services/qrFormatter.ts:36-58 | when no value holds a line break and the hint ends with a non-space, splitting the text at newlines gives the twelve elements back |
| QrFormatter.SepaLinesUnbroken | services/qrFormatter.ts:36-58 | values and an amount text without line breaks give SEPA elements without line breaks, the truncated fields included |
| QrFormatter.UntrimmedSplits | services/qrFormatter.ts:57 | trimming does not change lines whose first starts and last ends with a non-space |
| QrFormatter.JoinLast | services/qrFormatter.ts:57 | a join starts with its first part and ends with its last |
| QrFormatter.KindOfId | services/qrFormatter.ts:64-86 | every kind's label selects that kind |
| QrFormatter.IdOfKind | services/qrFormatter.ts:64-88 | only the ten labels select a kind, each its own |
| QrFormatter.FormatQrData | services/qrFormatter.ts:61-94 | absent or empty data and unknown type ids give the empty string; otherwise the payload of the id's kind |
| QrFormatter.PhonePayload | services/qrFormatter.ts:69-70 | `tel:` followed by the phone |
| QrFormatter.SmsPayload | services/qrFormatter.ts:71-72 | `smsto:`, then the phone up to the first colon, then the message |
| QrFormatter.GeoPayload | services/qrFormatter.ts:81-82 | `geo:`, then the latitude (or 0) up to the comma, then the longitude (or 0) |
| QrFormatter.EmailPayload | services/qrFormatter.ts:73-76 | `mailto:` address with the encoded subject and body as query parameters |
| QrFormatter.ThrowIsError | services/qrFormatter.ts:90-93 | an encoding or date conversion that throws makes the payload `Error` |
| QrFormatter.SchemeFields | services/qrFormatter.ts:70-82 | a scheme, a field without the separator, the separator and a tail are read back apart |
| QrFormatter.BeforeFirstAt | services/qrFormatter.ts:72 | the text before the first separator is the field that has none |
| QrFormatter.SepaIbanGrouped | services/qrFormatter.ts:40 | an IBAN typed as two groups separated by a space is encoded as if typed without the space |
| QrFormatter.WifiJoin | services/qrFormatter.ts:18 | the WIFI payload is its five fields joined by `;` |
| QrFormatter.WifiTextFields | services/qrFormatter.ts:14-19 | a WIFI form without `;` in its values splits into the encryption (`nopass` when empty), SSID and password fields |
| QrFormatter.VCardText | services/qrFormatter.ts:3-12 | the vCard lines joined; `FormatVCard` proves the program's line-by-line build equals it and `VCardSplits` reads the lines back |
| QrFormatter.EventText | services/qrFormatter.ts:21-34 | the event lines joined, or the failure; `FormatEvent` proves the program's build equals it |
| QrFormatter.WifiText | services/qrFormatter.ts:14-19 | `formatWifi`; `WifiTextFields` reads its fields back |
| QrFormatter.SepaText | services/qrFormatter.ts:36-58 | the joined and trimmed SEPA lines; `SepaHeader` and `SepaSplits` prove its header and that its elements read back |
| QrFormatter.Payload | services/qrFormatter.ts:61-93 | the switch of `formatQrData`; the per-kind lemmas (`EmailPayload`, `PhonePayload`, `SmsPayload`, `GeoPayload`, `ThrowIsError`) state each case |
| QrFormatter.KindOf | services/qrFormatter.ts:64-88 | the switch labels; `KindOfId` and `IdOfKind` prove that exactly the ten labels select a kind, each its own |
| PreviewPanel.CanvasHeight | components/qr/PreviewPanel.tsx:91-97 | the display canvas is 1000 high without a caption and 1000 + (size + margin) × 10 with one |
| PreviewPanel.CanvasDimension | components/qr/PreviewPanel.tsx:224-225 | a non-negative canvas dimension keeps its integer part |
| PreviewPanel.DownloadOf | components/qr/PreviewPanel.tsx:210-242 | nothing unless ready; a PNG is exactly the chosen width and the source's proportion truncated to whole pixels; an SVG is produced exactly when there is no caption |
| PreviewPanel.SquareDownload | components/qr/PreviewPanel.tsx:224-225 | a square display canvas gives a square PNG of the chosen size |
| PreviewPanel.CaptionedDownload | components/qr/PreviewPanel.tsx:224-225 | a captioned PNG's height is the chosen size times (1000 + band) / 1000, truncated, and at least the width |
| PreviewPanel.RemoveInvalid | components/qr/PreviewPanel.tsx:198 | the result holds exactly the characters of the input other than `\ / : * ? " < > \|`, is no longer, and leaves a clean name unchanged; `RemoveInvalidConcat` and `RemoveInvalidChar` fix which characters it keeps and their order |
| PreviewPanel.RemoveInvalidChar | components/qr/PreviewPanel.tsx:198 | one character is dropped exactly when it is one of the removed ones |
| PreviewPanel.RemoveInvalidConcat | components/qr/PreviewPanel.tsx:198 | the removal distributes over concatenation, so the kept characters stay in their order |
| PreviewPanel.CollapseWhitespace | components/qr/PreviewPanel.tsx:200 | no white space is left and no invalid character is introduced; `CollapseRun`, `CollapseNonSpace` and `CollapseWithoutWhitespace` state that each run becomes one `_` and every other character is kept in order |
| PreviewPanel.CollapseNonSpace | components/qr/PreviewPanel.tsx:200 | a non-space character is kept, followed by the replacement of the rest |
| PreviewPanel.CollapseRun | components/qr/PreviewPanel.tsx:200 | a whole run of white space, up to the next non-space character or the end, becomes a single `_` |
| PreviewPanel.SkipRun | components/qr/PreviewPanel.tsx:200 | the match of `\s+` consumes the whole run and stops at the next non-space character |
| PreviewPanel.CollapseWithoutWhitespace | components/qr/PreviewPanel.tsx:200 | a name without white space is left unchanged |
| PreviewPanel.Prepend | components/qr/PreviewPanel.tsx:200 | non-space characters in front stay in front, unchanged |
| PreviewPanel.SkipWhitespace | components/qr/PreviewPanel.tsx:200 | a suffix of the input that starts with a non-space, strictly shorter when the input starts with white space |
| PreviewPanel.SliceNoInvalid | components/qr/PreviewPanel.tsx:198-201 | a slice of a clean name is clean |
| PreviewPanel.TrimKeepsNoInvalid | components/qr/PreviewPanel.tsx:199 | trimming a clean name keeps it clean |
| PreviewPanel.Sanitize | components/qr/PreviewPanel.tsx:197-201 | at most 60 characters, none of them white space or invalid; `SanitizeOfClean`, `SanitizeIdempotent` and `SanitizeTwoWords` state its value |
| PreviewPanel.SanitizeOfClean | components/qr/PreviewPanel.tsx:197-201 | a base name without white space or a removed character is only cut to its first 60 characters |
| PreviewPanel.SanitizeIdempotent | components/qr/PreviewPanel.tsx:197-201 | sanitising a sanitised name changes nothing |
| PreviewPanel.SanitizeTwoWords | components/qr/PreviewPanel.tsx:197-201 | two clean words separated by a space, such as `QR-Hello World`, are joined by `_` (`QR-Hello_World`), every other character kept in place |
| PreviewPanel.PhraseTrimmed | components/qr/PreviewPanel.tsx:198-199 | two clean words separated by a space pass the removal and the trim unchanged |
| PreviewPanel.PhraseCollapsed | components/qr/PreviewPanel.tsx:200 | the space between two words without white space becomes `_` |
| PreviewPanel.RemoveInvalidKeepsStart | components/qr/PreviewPanel.tsx:198 | two valid leading characters survive the removal |
| PreviewPanel.TrimKeepsStart | components/qr/PreviewPanel.tsx:199 | two non-space leading characters survive trimming |
| PreviewPanel.CollapseKeepsStart | components/qr/PreviewPanel.tsx:200 | two non-space leading characters survive the replacement |
| PreviewPanel.SanitizeKeepsStart | components/qr/PreviewPanel.tsx:197-201 | two valid non-space leading characters, such as `QR`, start the sanitised name |
| PreviewPanel.NameMatchAsWritten | components/qr/PreviewPanel.tsx:182 | a match is a non-empty run without `;` or a line break |
| PreviewPanel.NameMatch | components/qr/PreviewPanel.tsx:182 | the line-anchored match is a non-empty run without `;` or a line break |
| PreviewPanel.Run | components/qr/PreviewPanel.tsx:182 | `[^;\n]+`: the longest prefix without `;` or a line break |
| PreviewPanel.RunStops | components/qr/PreviewPanel.tsx:182 | the run stops at the first `;` or line break |
| PreviewPanel.StripWww | components/qr/PreviewPanel.tsx:173 | a leading `www.` is removed and any other host kept |
| PreviewPanel.BaseNameWith | components/qr/PreviewPanel.tsx:161-195 | the base name starts with `QR`; a non-blank caption gives `QR-` and the trimmed caption; otherwise a non-empty content part gives `QR-` and that part, and its absence gives `QR` |
| PreviewPanel.SizeSuffix | components/qr/PreviewPanel.tsx:203-205 | a PNG name carries `_<S>x<S>px` for the chosen size S, and an SVG name carries nothing |
| PreviewPanel.SizeSuffixNamesSize | components/qr/PreviewPanel.tsx:203-205 | the suffix is `_`, digits, `x`, digits, `px`, and both digit groups read back as the chosen size |
| PreviewPanel.FilenameFrom | components/qr/PreviewPanel.tsx:197-207 | the name is as long as the stem, the size suffix and the four-character extension together; `FilenameShape` places each part |
| PreviewPanel.FilenameShape | components/qr/PreviewPanel.tsx:197-207 | every name is a sanitised stem of at most 60 characters starting `QR`, then exactly the size suffix (`_<S>x<S>px` for a PNG, nothing for an SVG), then the four-character extension |
| PreviewPanel.StemShape | components/qr/PreviewPanel.tsx:197-201 | a base name starting `QR` gives a sanitised stem starting `QR` |
| PreviewPanel.CaptionWins | components/qr/PreviewPanel.tsx:163-165 | with a non-blank caption the payload does not affect the name |
| PreviewPanel.ReplaceFindsNothing | components/qr/PreviewPanel.tsx:184 | the matched name has no `;`, so the replacement never applies |
| PreviewPanel.SkipAsWritten | components/qr/PreviewPanel.tsx:182 | the unanchored search moves past any character other than F and N |
| PreviewPanel.MatchAtN | components/qr/PreviewPanel.tsx:182 | `N:` followed by a non-empty run matches that run, wherever it is |
| PreviewPanel.RunAfterBegin | components/qr/PreviewPanel.tsx:182 | after the `N:` of `BEGIN:` the run is `VCARD` |
| PreviewPanel.CardNameAsWritten | components/qr/PreviewPanel.tsx:181-188 | as written, a payload that starts `BEGIN:VCARD` always matches `VCARD` |
| PreviewPanel.BeginsCardOf | components/qr/PreviewPanel.tsx:181 | a payload starting `BEGIN:VCARD` is recognised as a vCard |
| PreviewPanel.VCardScheme | components/qr/PreviewPanel.tsx:168-181 | its lower-cased form selects the vCard branch and none before it |
| PreviewPanel.VCardTextStart | components/qr/PreviewPanel.tsx:181-182 | the formatter's vCard starts with the BEGIN and VERSION lines, then its N line |
| PreviewPanel.VCardNamedVCARD | components/qr/PreviewPanel.tsx:181-193 | as written, every vCard from the formatter is named `QR-VCARD` without a caption |
| PreviewPanel.CardContentPart | components/qr/PreviewPanel.tsx:181-187 | a vCard's content part is its matched name with the first `;` replaced, or `vCard` |
| PreviewPanel.SkipInsideLine | components/qr/PreviewPanel.tsx:182 | the anchored search skips every position inside a line |
| PreviewPanel.SkipLineStart | components/qr/PreviewPanel.tsx:182 | the anchored search moves past any character other than F and N |
| PreviewPanel.HeaderSkipped | components/qr/PreviewPanel.tsx:182 | the anchored search skips the BEGIN and VERSION lines |
| PreviewPanel.MatchAtLine | components/qr/PreviewPanel.tsx:182 | `N:` at a line start followed by a non-empty run matches that run |
| PreviewPanel.CardNameAnchored | components/qr/PreviewPanel.tsx:182 | a card whose third line is `N:<last>;…` is named after `<last>` |
| PreviewPanel.VCardNamedAfterLastName | components/qr/PreviewPanel.tsx:181-188 | with the anchored search, a formatter vCard with a last name is named after it |
| PreviewPanel.TelContentPart | components/qr/PreviewPanel.tsx:177-178 | a payload whose lower-cased form starts `tel:`, in any case, is named by the text after its first four characters |
| PreviewPanel.UpperTelContentPart | components/qr/PreviewPanel.tsx:168-178 | an upper-case `TEL:<number>`, such as `TEL:+371`, is named by the number |
| PreviewPanel.MailtoContentPart | components/qr/PreviewPanel.tsx:179-180 | a payload whose lower-cased form starts `mailto:` is named by the text after seven characters, up to the first `?` |
| PreviewPanel.HttpContentPart | components/qr/PreviewPanel.tsx:170-176 | a payload whose lower-cased form starts `http` is named by its host without a leading `www.`, or `url` when it does not parse |
| PreviewPanel.PlainContentPart | components/qr/PreviewPanel.tsx:188-190 | a payload whose lower-cased form starts with none of `http`, `tel:`, `mailto:` and `begin:vcard` is named by its first 25 characters |
| PreviewPanel.PlainContentPartExample | components/qr/PreviewPanel.tsx:188-190 | `buy milk` is named by itself |
| PreviewPanel.ContentPartWith | components/qr/PreviewPanel.tsx:166-190 | the content part by scheme; `HttpContentPart`, `TelContentPart`, `MailtoContentPart`, `CardContentPart` and `PlainContentPart` state each case |
| PreviewPanel.Filename | components/qr/PreviewPanel.tsx:160-207 | `generateFilename` with the line-anchored name search; `VCardNamedAfterLastName` and `FilenameShape` state what it yields |
| PreviewPanel.FilenameAsWritten | components/qr/PreviewPanel.tsx:160-207 | `generateFilename` as written; `VCardNamedVCARD` shows that every formatter vCard is named `QR-VCARD` |
| ImageConverter.FormatId | components/ImageConverter.tsx:23 | every output format's id is a non-empty extension without a dot |
| ImageConverter.SingleImageFile | components/ImageConverter.tsx:40-41 | there is a single file exactly when one file was given, and it is that file |
| ImageConverter.BaseName | components/ImageConverter.tsx:73 | the name up to its last dot, when that dot is not the first character; the whole name otherwise |
| ImageConverter.BaseNameOfName | components/ImageConverter.tsx:73 | the base name of `<stem>.<ext>` is the stem |
| ImageConverter.NonEmpty | components/ImageConverter.tsx:144 | `filter(Boolean)` keeps no empty part and never adds one |
| ImageConverter.JoinedPair | components/ImageConverter.tsx:144-145 | the two parts joined by `-`, or the one that is non-empty |
| ImageConverter.Stem | components/ImageConverter.tsx:140-148 | a single non-PDF file with a trimmed prefix or model is named by the non-empty ones joined with `-`; otherwise by its original base name |
| ImageConverter.FinalFilenameBase | components/ImageConverter.tsx:140-148 | a single file's name reads back, through the base-name rule of line 73, as its stem |
| ImageConverter.SplitFirst | components/ImageConverter.tsx:215 | `split('.')[0]` is the text before the first dot |
| ImageConverter.BatchEntryName | components/ImageConverter.tsx:215 | a batch entry is named by the text before the name's first dot and the format's extension |
| ImageConverter.ImagesOnly | components/ImageConverter.tsx:247 | exactly the image files, and no more than were given |
| ImageConverter.ImagesOnlyConcat | components/ImageConverter.tsx:247 | the filter keeps the order of concatenated parts |
| ImageConverter.AppendOf | components/ImageConverter.tsx:239-249 | an error exactly at the 30-file limit; a warning naming the room left exactly when more files come than fit; the appended files are images from the incoming ones and never exceed the limit |
| ImageConverter.AppendWithinRoom | components/ImageConverter.tsx:245-248 | when everything fits, every incoming image is appended without warning |
| ImageConverter.AppendBeyondRoom | components/ImageConverter.tsx:245-248 | when too many come, only the images among the first ones that fit are appended, with a warning |
| ImageConverter.Converter.constructor | components/ImageConverter.tsx:27-59 | WebP output, no PDF, page 1 of 0, empty names, no messages |
| ImageConverter.Converter.SingleFileChanged | components/ImageConverter.tsx:71-111 | a single PDF switches to JPEG and PDF mode, anything else to WebP; the pages reset; a single file's base name becomes both the original name and the model |
| ImageConverter.Converter.PdfLoaded | components/ImageConverter.tsx:104-108 | the page count is the document's, on page 1 |
| ImageConverter.Converter.PreviousPage | components/ImageConverter.tsx:278 | the page goes down by one and never below 1 |
| ImageConverter.Converter.NextPage | components/ImageConverter.tsx:280 | the page goes up by one and never past the last |
| ImageConverter.Converter.ProcessAppendedFiles | components/ImageConverter.tsx:239-249 | the messages and appended files are those of the append rule for the current count |
| ImageUploader.Kept | components/ImageUploader.tsx:35-47 | never more files than were given |
| ImageUploader.KeptMembers | components/ImageUploader.tsx:35-47 | a file is kept exactly when it was given and is an image or a PDF, and not a PDF in a batch |
| ImageUploader.KeptConcat | components/ImageUploader.tsx:35-47 | the filter keeps the order of concatenated parts |
| ImageUploader.Uploader.constructor | components/ImageUploader.tsx:12-13 | no error and no warning |
| ImageUploader.Uploader.ProcessFiles | components/ImageUploader.tsx:21-59 | more than 30 files is an error and uploads nothing; otherwise the kept files are uploaded when there are any, the PDF warning is set exactly when a batch PDF was dropped, and the no-image error exactly when nothing was kept and no PDF was dropped |
| ImageUploader.ThirtyAccepted | components/ImageUploader.tsx:25-29 | thirty images are all kept: only more is refused |
| ImageUploader.KeptAll | components/ImageUploader.tsx:35-47 | when every file qualifies, all are kept in order |
| ImageUploader.PdfAloneOrInBatch | components/ImageUploader.tsx:31-46 | a single PDF is kept; in a batch it is dropped and reported |
| CustomSizeInput.SizeOf | components/CustomSizeInput.tsx:16-26 | a size exactly when the width parses to a positive integer; the height is the parsed height when positive and the width otherwise |
| CustomSizeInput.SizeOfIntegers | components/CustomSizeInput.tsx:16-26 | fields typed from positive integers give that size |
| CustomSizeInput.ParseEmpty | components/CustomSizeInput.tsx:25 | `parseInt('')` is NaN |
| CustomSizeInput.SizeOfSquare | components/CustomSizeInput.tsx:25-26 | an empty height gives the square |
| CustomSizeInput.NonPositiveWidth | components/CustomSizeInput.tsx:18-22 | a zero or negative width adds nothing |
| CustomSizeInput.Form.constructor | components/CustomSizeInput.tsx:13-14 | both fields empty |
| CustomSizeInput.Form.HandleAdd | components/CustomSizeInput.tsx:16-30 | the size the fields describe goes to the callback with positive sides and both fields are cleared; otherwise nothing changes |
| CustomSizeInput.Form.HandleKeyDown | components/CustomSizeInput.tsx:32-36 | Enter adds exactly as the button does; any other key does nothing |
| IconPreview.Payload | components/IconPreview.tsx:45-46 | the payload is non-empty and has no comma; a data URL without a comma has none |
| IconPreview.PayloadOfDataUrl | components/IconPreview.tsx:45-46 | `<header>,<data>` yields its data |
| IconPreview.EmptyPayload | components/IconPreview.tsx:45-46 | an empty payload is skipped |
| IconPreview.EntriesKeys | components/IconPreview.tsx:42-49 | the archive holds a file exactly for each filename of an icon with a payload |
| IconPreview.EntriesValues | components/IconPreview.tsx:42-49 | with distinct filenames each icon with a payload is stored with its own payload |
| IconPreview.AddIconFiles | components/IconPreview.tsx:42-49 | the loop produces the archive's icon entries |
| IconPreview.PwaIcon | components/IconPreview.tsx:74-84 | served from the root under its filename, sized `<w>x<h>`, PNG, maskable exactly from 192 pixels wide |
| IconPreview.PwaIcons | components/IconPreview.tsx:74-84 | one entry per icon, in order |
| IconPreview.PwaManifest | components/IconPreview.tsx:73-95 | written to manifest.webmanifest, with the icons' entries and start URL `.` |
| IconPreview.ManifestFor | components/IconPreview.tsx:52-96 | only the favicon and PWA profiles get a manifest, each its own |
| IconPreview.FaviconManifestSizes | components/IconPreview.tsx:52-71 | the favicon manifest lists exactly the 192 and 512 pixel squares |
| IconPreview.ZipOf | components/IconPreview.tsx:100-102 | the archive is named after the profile and carries the profile's manifest |
| IconPreview.Panel.constructor | components/IconPreview.tsx:18-19 | no prepared archive |
| IconPreview.Panel.IconsChanged | components/IconPreview.tsx:27-30 | new icons discard the prepared archive |
| IconPreview.Panel.PrepareZip | components/IconPreview.tsx:32-112 | nothing without the archive library or without icons; otherwise the profile's archive of the icons is prepared |
| IconPreview.Panel.DownloadZip | components/IconPreview.tsx:117-123 | the prepared archive is saved exactly when it and the saver exist |

## Left out

- Drawing: canvas and Fabric.js objects, `drawImage`, `toDataURL`/`toBlob` and fills are foreign raster calls. Only the rectangles that feed them are modelled.
- pdf.js rendering, jsPDF, JSZip, `saveAs`, QRCodeStyling and FileReader are foreign libraries or I/O, and so are the proxy download of a remote image, sharing and the clipboard. The archive is a map from file name to payload. The manifest's JSON text is not modelled; the manifest is a record beside the map.
- IEEE floating point: every quantity is an exact `real`. NaN and Infinity do not arise, except where noted below.
- `toISOString`, `encodeURIComponent`, `parseFloat(...).toFixed(2)` and `new URL(...).hostname` are platform functions passed in as parameters. A throw is `None`.
- Timers and React effect scheduling are modelled explicitly: the debounce and the crop commit are a pending value and a `Fire` step, not wall-clock time. The timers that clear the uploader's messages are left out.
- DOM measurement and ResizeObserver are replaced by their results, which are method parameters.
- `toLowerCase` is modelled on ASCII letters only. White space (`\s`, `trim`) is the full ECMAScript set of white-space and line-terminator characters.
- Strings are sequences of Unicode characters, while JavaScript measures them in UTF-16 code units. A character outside the Basic Multilingual Plane, such as an emoji, counts once here and twice in the program, so a cut can fall elsewhere. This affects the members below.
- Util.Take: `substring(0, n)` keeps n characters here, not n UTF-16 code units, so it can keep more of a text with emoji than the program and never splits a surrogate pair.
- QrFormatter.SepaLines: the 11/70/140/70 limits on the BIC, name, remittance and hint are counted in characters, not in UTF-16 code units.
- PreviewPanel.Sanitize: the 60-character limit on a file name is counted in characters, not in UTF-16 code units.
- PreviewPanel.PlainContentPart: the first 25 characters are counted as characters, not as UTF-16 code units.
- EditorMode.View.Resized: requires a canvas of positive width and height. For a 0×0 content rectangle the program sets the zoom to 0 and clears the initial-fit flag, and a later zoom about a point would divide by zero. The model keeps the zoom positive and does not cover that case.
- ConverterEditor.Exceeds and EditorMode.TransparencyOf are the corrected halves of two findings below. The editor classes use the strict guard and the `|| 1` read-back as written.
- PreviewPanel.Filename: uses the line-anchored name search, the corrected half of the vCard finding below. `PreviewPanel.FilenameAsWritten` is `generateFilename` with the program's unanchored search.
- The converter's batch conversion loop is left out: each step decodes and encodes an image through the browser. Only the name of each entry (`BatchEntryName`) is modelled.
- The full editor's viewport drag panning and the Fabric.js object model are left out. Its history snapshots are opaque except for the background image's flip flags, which each snapshot records.
- ImageEditor.ResizeSpec: a locked resize is None when the locked step divides by a zero side of the start crop. That is a zero-width crop whose width leads, a zero-height crop whose height leads, or a crop with both sides zero. The program's values are then infinite or NaN, and the clamp in `updateVisualCrop` cuts some of them back to a finite crop, such as the full image height. The model keeps the shown crop instead. The finite degenerate cases are modelled (`ResizeLockedDegenerate`).
- ImageEditor.ReplayScenario: does not promise the replay for a locked drag from a start crop with a zero side, because there the model keeps the shown crop at positions where the program computes with infinite or NaN values.
- EditorMode.History.LoadImage: requires that no undo restore is in progress. The program reloads during a restore without that guard, and the model does not cover the overlap of the two.
- IconPreview.ZipOf: does not state that distinct icons give distinct entries. Only the key and value lemmas `EntriesKeys` and `EntriesValues` do.
- ImageConverter.Converter.GenerateFinalFilename: it is a function of the component's fields with no contract of its own. Its properties are proved about `Stem` and `FinalFilenameBase`.

## Findings

| source | as written | input that shows it | evidently intended | confidence | as-written member | corrected member |
|---|---|---|---|---|---|---|
| components/ConverterEditor.tsx:92 | the pan constraint acts only when the image is strictly larger than the frame | a 400×400 image in a 400×400 frame can be panned off the frame and uncover it | act when the image is at least as large as the frame (`>=`) | not executed | ConverterEditor.PanUncoversAsWritten | ConverterEditor.PanKeepsCovering |
| components/ImageEditorMode.tsx:625-626 | `opacity \|\| 1` reads an opacity of 0 as 1 | transparency 100 sets opacity 0, which reads back as transparency 0 | read an opacity of 0 as 0 (`?? 1`) | not executed | EditorMode.TransparencyAsWrittenLosesFull | EditorMode.TransparencyRoundTrip |
| components/qr/PreviewPanel.tsx:181-188 | `/(?:FN\|N):([^;\n]+)/` finds the `N:` inside `BEGIN:` first | every vCard from the formatter, e.g. last name `Doe`, is named `QR-VCARD` | match the card's own N or FN line, at a line start | not executed | PreviewPanel.VCardNamedVCARD | PreviewPanel.VCardNamedAfterLastName |
