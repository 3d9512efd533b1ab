# Wallpaper editor core — Dafny model

This project models the state and geometry logic of a browser wallpaper editor. In that editor a user picks a background image, places a watermark, previews it on device presets, and exports the composed preview as a PNG. The model covers five parts:

- **Settings store** (`wallpaper.dfy`, module `Wallpaper`). This is `useWallpaper`'s state. It holds the device catalogue and `getDeviceById`, and maps the five watermark anchors to CSS layout descriptors. It also holds the default settings, the derived views `selectedDeviceInfo` and `selectedDevices`, and the mutation `handleDeviceToggle`. Vue refs and computed values become a `Store` value and pure functions of it. The anchor is a five-constructor datatype, so the string-keyed style lookup becomes an exhaustive match.
- **Drag controller with guide lines** (`drag_guides.dfy`, module `DragGuides`). A handler is a state record: `isDragging`, `startPos`, `initialOffset`, two guide-line slots, the guide lines attached to the document, and the number of registered mouse-move/mouse-up listener pairs. Pointer events step it, and a run folds the steps over an event sequence and collects every `onDrag` call. The reactive variant from `useDragState` is modelled too.
- **Legacy drag handler** (`legacy_drag.dfy`, module `LegacyDrag`). This is the older `createDragHandler`, which stores `pointer − offset` at mouse-down. The offset that `getCurrentOffset()` returns is read by value at mouse-down. Pointer coordinates and offsets are whole pixels with exact arithmetic. Under those two readings, the model proves the older handler makes exactly the same `onDrag` calls as the newer one on every event sequence. In JavaScript doubles the two can differ in the last bit, because the older handler computes `p − (d − c)` and the newer one `c + (p − d)`.
- **Image check** (`image_files.dfy`, module `ImageFiles`). This is `isImageFile` from the same source file.
- **Export decisions** (`capture.dfy`, module `Capture`). This covers option defaulting, the target element and background that a wallpaper export picks, failure propagation from the rasteriser, and timestamped file names.

Three helper modules support them. `opt.dfy` holds `Option`/`Result`, and `seqs.dfy` holds `Repeat`. `strings.dfy` models JavaScript's integer-to-string conversion, `padStart` and `startsWith`. Integer-to-string conversion comes with a parser proved to invert it. Zero padding is proved to keep the number's value. `startsWith` is proved to hold exactly when the string splits into the prefix and a rest.

Environment reads are explicit inputs:
- What `getCurrentOffset()` returns at mouse-down and the guide container's size (or its absence) travel in the `MouseDown` event.
- The two `querySelector` results of `captureWallpaper` are optional arguments.
- `html2canvas` is a function parameter `render` that returns either a canvas (its PNG data URL) or an error.
- The `dayjs()` clock read is a `DateTime` argument.

Facts about the code that the model keeps:
- There are five watermark anchors: the four corners and the centre.
- The style lookup indexes a table by the anchor string (src/composables/useWallpaper.ts:93). A string outside the five therefore yields `undefined`. `PositionFromValue` returns `None` for such a string.
- `previewSettings` is a shallow copy of `defaultPreviewSettings` (src/composables/useWallpaper.ts:124). Its `devices` array is therefore shared with the defaults and with every other `useWallpaper()` call. The model treats the list as a value owned by one store.
- `useDragState` returns an `isDragging` flag that no code in `dragUtils.ts` ever writes. The model carries it as a field and proves it never changes.

## Model

| member | source | states |
|---|---|---|
| Wallpaper.PositionFromValue | src/composables/useWallpaper.ts:29 | a string names an anchor only if it is that anchor's value; every other string names none |
| Wallpaper.PositionValueRoundTrip | src/composables/useWallpaper.ts:29 | anchor and anchor string determine each other, in both directions |
| Wallpaper.PositionOptionsCoverAnchors | src/composables/useWallpaper.ts:71-77 | the option table has five entries, lists every anchor's value once, and lists only anchor values |
| Wallpaper.FirstIndexOf | src/composables/useWallpaper.ts:146 | the index found holds the id and no earlier device does; nothing is found exactly when no device has the id |
| Wallpaper.GetDeviceById | src/composables/useWallpaper.ts:80-82 | the result is the first catalogue entry with that id; none is returned exactly when no entry has it |
| Wallpaper.CatalogueHits | src/composables/useWallpaper.ts:35-40 | 'iphone' and 'mac' resolve to their catalogue entries |
| Wallpaper.CatalogueMisses | src/composables/useWallpaper.ts:35-40 | 'custom' and the empty id resolve to nothing |
| Wallpaper.GetWatermarkPositionStyle | src/composables/useWallpaper.ts:85-94 | a corner pins exactly its two edges at `padding`px, with no other edge and no transform; the centre is top/left 50% with a transform starting `translate(-50%, -50%)` |
| Wallpaper.StyleIgnoresIrrelevantSettings | src/composables/useWallpaper.ts:87-91 | rotation has no effect on corners, padding none on the centre, and text/font/colour/opacity none at all |
| Wallpaper.ParsePxOfPx | src/composables/useWallpaper.ts:87 | the `padding + 'px'` length reads back as the padding, negatives included |
| Wallpaper.ParseCenterTransformOfCenterTransform | src/composables/useWallpaper.ts:91 | the centre transform reads back as the rotation in degrees |
| Wallpaper.DecodeStyleRoundTrip | src/composables/useWallpaper.ts:85-93 | the anchor and its padding (corner) or rotation (centre) can be recovered from the style object |
| Wallpaper.UseWallpaper | src/composables/useWallpaper.ts:97-124 | a fresh store: empty image, bottom-right anchor, padding 20, rotation 0, device 'iphone', preview list = catalogue ids in order, all explicitly unselected |
| Wallpaper.DefaultFontListed | src/composables/useWallpaper.ts:43-68 | the default font family is offered by the font table |
| Wallpaper.InitialDevices | src/composables/useWallpaper.ts:127-142 | a fresh store shows the first catalogue device and an empty selected list |
| Wallpaper.InitialWatermarkStyle | src/composables/useWallpaper.ts:85-106 | a fresh store's watermark style is `{right: '20px', bottom: '20px'}` |
| Wallpaper.WatermarkPositionStyle | src/composables/useWallpaper.ts:135-137 | the anchor and its padding (corner) or rotation (centre) can be read back from the view |
| Wallpaper.ViewsIgnoreDeviceToggle | src/composables/useWallpaper.ts:131-150 | toggling a device changes neither the text view nor the style view |
| Wallpaper.SelectedDeviceInfo | src/composables/useWallpaper.ts:127-129 | always a catalogue device: the one with the selected id if any, otherwise the first entry, 'iphone' |
| Wallpaper.SelectedDevices | src/composables/useWallpaper.ts:140-142 | an order-preserving subsequence of the devices, all selected, containing every selected device, with length equal to the selected count |
| Wallpaper.ToggleInList | src/composables/useWallpaper.ts:145-150 | length, ids, names and sizes kept; absent id leaves the list unchanged; otherwise only the first matching device changes, and its selection is negated |
| Wallpaper.HandleDeviceToggle | src/composables/useWallpaper.ts:145-150 | image, watermark and every preview field other than the device list are unchanged |
| Wallpaper.ToggleKeepsFlagsDefined | src/composables/useWallpaper.ts:145-150 | toggling keeps every selection flag explicitly defined |
| Wallpaper.ToggleTwice | src/composables/useWallpaper.ts:145-150 | toggling one id twice restores the list when flags are defined, and always restores the selected view |
| Wallpaper.ToggleCount | src/composables/useWallpaper.ts:140-150 | a toggle moves the selected count by exactly one for a present id and not at all for an absent one |
| DragGuides.CreateDragHandler | src/utils/dragUtils.ts:27-42 | a new handler is idle with nothing attached; guide lines are on unless the option is explicitly false |
| DragGuides.CreateSimpleDragHandler | src/utils/dragUtils.ts:183-188 | the simple handler has guide lines switched off |
| DragGuides.HideGuides | src/utils/dragUtils.ts:102-111 | both slots end empty, nothing but slots and attached lines changes, and the slot lines leave the document |
| DragGuides.HideGuidesIdempotent | src/utils/dragUtils.ts:102-111 | hiding twice equals hiding once |
| DragGuides.ShowGuides | src/utils/dragUtils.ts:71-97 | no effect when disabled or without a container; otherwise one horizontal line at half the height and one vertical at half the width, old lines removed first so the document holds exactly those |
| DragGuides.OnMouseDown | src/utils/dragUtils.ts:116-147 | starts dragging, records the pointer as start and the current offset as initial offset, and registers one more listener pair. With guide lines on and a container, the slots hold one horizontal line at half the height and one vertical line at half the width; otherwise slots and attached lines are untouched. The invariant is kept |
| DragGuides.OnMouseMove | src/utils/dragUtils.ts:127-136 | while dragging, one call per listener, each `initialOffset + (pointer − startPos)`; when not dragging, no call |
| DragGuides.UpListener | src/utils/dragUtils.ts:138-143 | one up listener removes its own pair, stops dragging, empties both slots and detaches their lines, and keeps start, offset and the guide setting |
| DragGuides.FireUpListeners | src/utils/dragUtils.ts:138-143 | running k up listeners removes k pairs, stops dragging and empties both slots |
| DragGuides.OnMouseUp | src/utils/dragUtils.ts:138-143 | after mouse-up no listener remains, dragging has stopped, and no guide line is attached |
| DragGuides.RunKeepsValid | src/utils/dragUtils.ts:116-147 | every reachable handler has listeners exactly while dragging, guides only while dragging and enabled, and the document lines equal the slots |
| DragGuides.ReturnToStart | src/utils/dragUtils.ts:127-136 | a move back to the mouse-down point reports exactly the offset read at mouse-down |
| DragGuides.IdleIsSilent | src/utils/dragUtils.ts:127-128 | an idle handler makes no `onDrag` call and does not change until a mouse-down |
| DragGuides.MovesAfterUpAreSilent | src/utils/dragUtils.ts:138-143 | after mouse-up, later events other than mouse-down make no `onDrag` call |
| DragGuides.DraggingMoves | src/utils/dragUtils.ts:127-136 | during one gesture each move makes exactly one call, with the initial offset moved by the pointer's travel |
| DragGuides.Gesture | src/utils/dragUtils.ts:116-147 | down, moves, up from idle: the calls are `current + (p − down)` for each move in order, and the handler ends idle with no listener and no line |
| DragGuides.SimpleHandlerNeverShowsGuides | src/utils/dragUtils.ts:183-188 | after any events the simple handler has no guide line in its slots or in the document |
| DragGuides.UseDragState | src/utils/dragUtils.ts:155-157 | the drag state starts at position (0, 0), not dragging |
| DragGuides.ReactiveStep | src/utils/dragUtils.ts:159-171 | a mouse-down takes its offset from `dragPosition` whatever the caller passes; a move makes the handler's calls and leaves `dragPosition` at the last one; `isDragging` is never written |
| DragGuides.ReactiveTracksLastCall | src/utils/dragUtils.ts:159-171 | `dragPosition` is always the last reported offset (or its start value), and the exposed `isDragging` flag never changes |
| DragGuides.ReactiveGestureStartsAtPosition | src/utils/dragUtils.ts:163-169 | a mouse-down snapshots `dragPosition` as the initial offset, so returning to the down point reports it again |
| LegacyDrag.CreateLegacyDragHandler | src/utils/index.ts:14-18 | a new legacy handler has no listeners |
| LegacyDrag.HandleMouseDown | src/utils/index.ts:20-26 | the stored start plus the current offset is the pointer; one more listener pair |
| LegacyDrag.HandleMouseMove | src/utils/index.ts:28-32 | one call per listener, each being the pointer minus the stored start |
| LegacyDrag.HandleMouseUp | src/utils/index.ts:34-37 | after mouse-up no listener remains |
| LegacyDrag.LegacyMoveOffset | src/utils/index.ts:20-31 | `pointer − startPos` equals `current + (pointer − down)` |
| LegacyDrag.LegacyReturnToStart | src/utils/index.ts:20-31 | a move back to the down point reports exactly the offset read at mouse-down |
| LegacyDrag.RunCorresponds | src/utils/index.ts:14-46 | from corresponding states the legacy and the guide-line handler make the same calls on every event sequence |
| LegacyDrag.LegacyEqualsGuided | src/utils/index.ts:14-46 | from creation, the legacy handler's `onDrag` calls equal the guide-line handler's for every event sequence and option |
| LegacyDrag.SilentAfterUp | src/utils/index.ts:34-37 | after mouse-up, events other than mouse-down make no `onDrag` call |
| LegacyDrag.GesturesCompose | src/utils/index.ts:14-46 | for any moves in either gesture, when the second mouse-down reads the first gesture's last offset, the second gesture's calls continue from it |
| ImageFiles.IsImageFileIff | src/utils/index.ts:77-79 | a file is an image exactly when its type is `image/` followed by anything |
| ImageFiles.IsImageFileExamples | src/utils/index.ts:77-79 | `image/png` and `image/` are images; the empty type, `text/plain`, `IMAGE/PNG` and `image` are not |
| Capture.WithDefaults | src/utils/captureUtils.ts:21-26 | the merged options are complete; each field is the caller's if given, else null background, scale 2, CORS on |
| Capture.SpreadLaws | src/utils/captureUtils.ts:21-26 | override merging is associative, with the empty options object neutral on both sides |
| Capture.WithDefaultsLaws | src/utils/captureUtils.ts:21-26 | defaulting is idempotent, leaves complete options unchanged, and turns `{}` into the defaults |
| Capture.CaptureAndDownload | src/utils/captureUtils.ts:16-35 | succeeds exactly when rendering the defaulted request does, downloading that canvas under exactly the given name; a render failure is returned unchanged |
| Capture.CaptureElement | src/utils/captureUtils.ts:40-52 | the element is rendered with each caller option where given, else null background, scale 2 and CORS on, and the rasteriser's result is returned |
| Capture.CaptureEntryPointsAgree | src/utils/captureUtils.ts:40-52 | for every rasteriser, `captureElement` and `captureAndDownload` render the same request |
| Capture.WallpaperTarget | src/utils/captureUtils.ts:69-73 | with background: the preview area; without: the first present of wallpaper content, preview canvas, preview area |
| Capture.WallpaperOptions | src/utils/captureUtils.ts:75-79 | complete options: null background with background, 'transparent' without; scale 2 and CORS on in both modes |
| Capture.CaptureWallpaper | src/utils/captureUtils.ts:64-82 | the export renders the chosen target with the mode's options, which defaulting leaves unchanged. It succeeds exactly when rendering does, downloading under the given name, and otherwise passes the failure on |
| Capture.GenerateTimestampFilename | src/utils/captureUtils.ts:57-59 | the name is the prefix (default 'capture'), a dash, the stamp, a dot and the extension (default 'png'), each at its position |
| Capture.ParseStampOfFormatStamp | src/utils/captureUtils.ts:58 | a `YYYYMMDD-HHmmss` stamp of a valid time reads back as that time |
| Capture.TimestampFilenameRoundTrip | src/utils/captureUtils.ts:57-59 | the generated name is prefix, dash, stamp, dot and extension: the time reads back from it given prefix and extension |
| Capture.TimestampFilenameLength | src/utils/captureUtils.ts:57-59 | for a four-digit year the name is 17 characters longer than prefix and extension together |
| Capture.TimestampFilenameDefaults | src/utils/captureUtils.ts:57 | omitted arguments behave as 'capture' and 'png' |

## Left out

- `src/utils/colorUtils.ts` (colour sampling): it wraps an external average-colour library and a canvas, and its only logic is a light/dark choice of text colour and a literal fallback.
- LegacyDrag.LegacyEqualsGuided: it assumes the offset is read by value at mouse-down. The newer handler keeps the object `getCurrentOffset()` returns (src/utils/dragUtils.ts:120), while the older one copies its coordinates (src/utils/index.ts:23-26). An `onDrag` that changed that object in place during a drag would make the two handlers differ. The only caller in the source, `createReactiveDragHandler`, replaces `dragPosition.value` rather than changing it. The proof also treats pointer coordinates and offsets as exact integers. In doubles, `p − (d − c)` and `c + (p − d)` can round differently: with offset −326.4 and pointer 1044 at mouse-down and move, the newer handler reports −326.4 and the older one −326.4000000000001. With whole-pixel pointer coordinates, the in-source caller keeps offsets whole, because `dragPosition` starts at (0, 0) (src/utils/dragUtils.ts:157) and every reported offset is a sum and difference of whole numbers.
- LegacyDrag.LegacyReturnToStart: a move back to the mouse-down point reports exactly the mouse-down offset only in exact arithmetic. In doubles `d − (d − c)` can differ from `c` in the last bit. Coordinates and offsets are modelled as integer pixels. `DragGuides.ReturnToStart` needs no such proviso, because `c + 0` is exact.
- `src/hooks/useQuotes.ts`: a static quote table plus `Math.random`.
- `formatFileSize` (src/utils/index.ts:84-90): floating-point `Math.log` and `toFixed`.
- `downloadFile` and `loadImage` (src/utils/index.ts:51-72): they only create object URLs, click a link and decode an image, which is DOM input/output.
- Guide-line element styling (colour, width, z-index, dashed border) and the container selector are left out, because they affect only appearance. The container's size from `getBoundingClientRect` is an input, modelled as a pair of natural numbers (whole pixels). JavaScript reports it as doubles.
- `preventDefault()` on mouse-down is left out: it has no effect on the handler's state.
- `html2canvas`, `canvas.toDataURL` and the link click are abstract. The rasteriser is a parameter, and the canvas is its PNG data URL.
- `dayjs()` is replaced by an explicit `DateTime`. Years are natural numbers, and the clock's time zone is not modelled.
- Pointer coordinates (`clientX`, `clientY`) and drag offsets are modelled as integers (whole pixels), not doubles. See the two `LegacyDrag` lines above for where this matters.
- Padding, rotation, scale and font size are modelled as integers. JavaScript's rendering of fractional numbers, and of magnitudes of 10^21 or more, is not modelled.
- An options object whose field is explicitly set to `undefined` is modelled as leaving that field out. JavaScript's spread would copy the `undefined` over the default.
- `handleDeviceToggle` receives a `{id, selected}` object but reads only `id`. The model takes the id.
- The sharing of the device array between `defaultPreviewSettings` and every store (a consequence of the shallow copy) is not modelled. Each store owns its list.
- A settings value outside the five anchor strings (possible at run time despite the type) is modelled only as `PositionFromValue` returning `None`. Object-prototype keys such as `toString` are not modelled.
- `createReactiveDragHandler` may be called more than once on one drag state. The model follows one handler per state. The optional user `onDrag` receives the same calls that the run collects.
- The guide lines' offsets are exact halves (reals), not floating-point numbers.
- Vue reactivity, `vite.config.ts`, `src/main.ts` and `src/components/ui/index.ts` are build setup, component re-exports and framework plumbing.
