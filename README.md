# Quick-Page-Snap editor, modelled in Dafny

Quick-Page-Snap is a browser extension that captures the visible tab and opens the screenshot in an
editor page (`js/editor.js`). On that page the user can crop the screenshot, draw highlight boxes
over it, reset the page and download the result as a PNG. This project models the editor's state
and event handlers and proves properties of them:

- `Geometry` covers the arithmetic of the pointer handlers:
  - the map from a pointer position to the canvas's bitmap (`getCanvasCoordinates`), with its inverse;
  - the mousemove update of an overlay rectangle;
  - the bounding box a crop is cut from, and the 10-pixel threshold.
- `Bitmap` is the canvas's pixel buffer (`array2<Pixel>`, indexed [column, row]) and the region
  copy the crop's `drawImage` calls perform.
- `Compositor` covers the download:
  - where each highlight is painted on the exported image;
  - the `screenshot_<milliseconds>.png` file name, with a decoder for it.
- `Editor.EditorSession` is a class holding the page script's mutable state:
  - the flags `isCropping`, `isHighlighting` and `isSelecting`;
  - the drag start (`startX`, `startY`);
  - `currentHighlight`, the selection overlay and the highlight overlays in the document;
  - the canvas bitmap.

  Each button or pointer handler is a method of the class. The pointer handlers and `Export` take
  as a parameter the page layout they read through `getBoundingClientRect` (a `Layout`), and
  `Export` also takes the download's milliseconds; `ClickCrop`, `ClickHighlight` and `Reset` take
  none. Each method's `ensures` states
  the complete new state, in terms of the `Geometry` and `Compositor` functions.
- `Scenarios` states concrete event sequences and verifies them against the methods' contracts alone.

The model follows the code as written, including these behaviours:

- **The drag anchor is lost.** A mousemove measures the overlay's new size from the overlay's
  *current* left/top, not from the point where the press happened. While the pointer stays to the
  right of and below the press point, the overlay is the box between the press point and the
  pointer (`DraggedFromAnchor`). Once the pointer crosses left or above, that anchor is lost
  (`AnchorLost`).
- **`currentHighlight` is never cleared.** It always refers to the most recent highlight, which is
  part of the invariant `Valid`. With the highlight tool on and a drag start recorded, mere
  pointer movement keeps reshaping that highlight.
- **The drag start is recorded on every press, even with no tool on.** A release whose guard fails
  does not clear it (`StaleStartScenario`).
- **Old selection overlays stay in the page.** A second press during a crop drag leaves the
  previous selection overlay in the page, so several can exist at once (`abandoned`,
  `DoublePressScenario`). A release with the highlight tool on, after a crop drag was left
  unfinished, also leaves the selection overlay in the page, and `selectionRect` still refers to
  it (`LeftoverSelectionScenario`).
- **A release can turn the crop tool off without cropping.** This happens on a release with the
  crop tool on, no crop drag started, and a drag start left by an earlier press
  (`CropOffWithoutCropScenario`). Without a recorded drag start the release's guard fails and the
  crop tool stays on.
- **Exported highlights are offset with the opposite sign.** The export shifts each highlight by
  the container's offset from the canvas, taken with the opposite sign. This assumes the overlays'
  container is their containing block, that is, a positioned element with no border; the page's stylesheet
  decides that, and it is not part of this model. Under that assumption an overlay appears shifted
  with the other sign, so the exported and the on-screen positions coincide only when the container
  and the canvas share their corner (`PlacedMatchesScreenIff`).

## Model

| member | source | states |
|---|---|---|
| Geometry.CanvasCoordinates | js/editor.js:103-125 | Definition of `getCanvasCoordinates` and of its inline copy in the mousedown handler: the pointer's offset from the canvas's corner, and that offset scaled by bitmap size over displayed size. Its properties are the lemmas below. |
| Geometry.CanvasCoordinatesProportional | js/editor.js:103-113 | The client offset is the pointer minus the canvas's corner. The image offset stands to the bitmap size as the client offset stands to the displayed size, per axis. A pointer over the displayed canvas lands inside the bitmap. |
| Geometry.PointerRoundTrip | js/editor.js:103-113 | Mapping a pointer to image space and back through `PointerAt` gives the pointer again. |
| Geometry.ImageRoundTrip | js/editor.js:103-113 | Mapping an image point to the screen and back gives the image point again. |
| Geometry.CornersMapToBitmap | js/editor.js:103-113 | The displayed canvas's top-left corner maps to image (0, 0). Its bottom-right corner maps to (canvas.width, canvas.height). |
| Geometry.BoundingBox | js/editor.js:200-203 | The crop box has non-negative size. Its edges are the smaller and the larger of the two points' coordinates, per axis. |
| Geometry.BoundingBoxSymmetric | js/editor.js:200-203 | The crop box does not depend on which point is the start. |
| Geometry.BoundingBoxIsSmallest | js/editor.js:200-203 | The crop box holds both points, and every rectangle holding both points covers it. |
| Geometry.BoundingBoxScales | js/editor.js:200-203 | Scaling both points per axis by non-negative factors scales their bounding box. |
| Geometry.CropBoxIsScaledClientBox | js/editor.js:196-203 | The image-space crop box between press and release is the on-screen box between the two pointer positions, scaled by bitmap size over displayed size. |
| Geometry.CropBoxWithinBitmap | js/editor.js:196-211 | A press and a release over the displayed canvas give a crop box inside the bitmap, and its whole-pixel offset plus size stays inside it too. |
| Geometry.Stretched | js/editor.js:166-188 | After one mousemove, the overlay spans from the pointer to the overlay's previous left/top. The size is non-negative and each edge is the min or max of the two. |
| Geometry.StretchedIsBoundingBox | js/editor.js:166-188 | One mousemove gives the bounding box of the overlay's previous origin and the pointer. |
| Geometry.Dragged | js/editor.js:155-190 | Definition: the overlay after a sequence of mousemove events, each applying `Stretched`. Its properties are the three lemmas that follow. |
| Geometry.DraggedOriginNeverGrows | js/editor.js:155-190 | Over any sequence of moves, the overlay's origin never moves right or down. After at least one move, its size is non-negative. |
| Geometry.DraggedFromAnchor | js/editor.js:155-190 | While every pointer position is right of and below the press point, the overlay after the moves is the bounding box of the press point and the last pointer position. |
| Geometry.AnchorLost | js/editor.js:166-174 | A press at x = 100, then moves to 50 and to 80, leave the overlay at 50..80. The bounding box of the press point and the pointer is 80..100. |
| Geometry.CropAccepted | js/editor.js:205 | Definition of the crop threshold: both sides of the image-space box strictly above 10. |
| Bitmap.At | js/editor.js:211 | Definition of `drawImage`'s clipped read, in which `CopyRegion` and `MouseUp` are stated: the bitmap's pixel inside it, transparent outside. |
| Bitmap.RegionInsideReadsSource | js/editor.js:211 | A region that lies inside the source bitmap is read from the source's own pixels, with no transparent padding. |
| Bitmap.CopyRegion | js/editor.js:206-211 | A fresh bitmap of the region's size whose pixel (i, j) is the source's pixel at the region's origin plus (i, j). |
| Bitmap.Copy | js/editor.js:19-23 | A fresh bitmap with the source's size and pixels. |
| Compositor.Placed | js/editor.js:81-84 | Definition of the export's position for a highlight: its style position minus the container's offset from the canvas, with its style size. Its properties are the two lemmas that follow. |
| Compositor.PlacedKeepsRelativePositions | js/editor.js:77-84 | Exported highlights keep their sizes and their positions relative to one another. |
| Compositor.PlacedMatchesScreenIff | js/editor.js:78-84 | A highlight is exported where it appears over the canvas if and only if the container and the canvas share that edge. Otherwise the two differ by twice the offset. |
| Compositor.Decimal | js/editor.js:97 | The decimal text of a timestamp is non-empty and all digits. It has no leading zero unless the value is zero. |
| Compositor.DecimalRoundTrip | js/editor.js:97 | Reading back the decimal text of n gives n. |
| Compositor.FileName | js/editor.js:97 | The name is `screenshot_`, then the timestamp's decimal text, then `.png`. |
| Compositor.FileNameRoundTrip | js/editor.js:97 | The timestamp can be decoded from the file name. |
| Compositor.FileNameInjective | js/editor.js:97 | Downloads at different milliseconds get different names. |
| Editor.EditorSession.Valid | js/editor.js:27-32 | Definition of the invariant every handler preserves: the two tools are never on together, `currentHighlight` is the last highlight, a started crop drag has its overlay and its start, and every overlay in the page (the highlights, the current selection and the abandoned selections) has a non-negative size. |
| Editor.EditorSession.Armed | js/editor.js:156-157 | Definition of the guard shared by mousemove (lines 156-157) and mouseup (line 194): a tool is on and a drag start is recorded. |
| Editor.EditorSession.CropBoxAt | js/editor.js:196-203 | Definition of the image-space crop box between the recorded drag start and the release point. |
| Editor.EditorSession.constructor | js/editor.js:19-32 | The canvas holds a fresh copy of the screenshot. Both tools are off. There is no drag start, no selection and no highlight. The invariant holds. |
| Editor.EditorSession.Reset | js/editor.js:61-63 | A reload gives the same state as opening the editor on the original screenshot. |
| Editor.EditorSession.ClickCrop | js/editor.js:43-49 | The crop tool is on and the highlight tool is off. Nothing else changes. |
| Editor.EditorSession.ClickHighlight | js/editor.js:52-58 | The highlight tool flips and the crop tool is off. Nothing else changes. |
| Editor.EditorSession.MouseDown | js/editor.js:116-152 | The drag start is the pointer's image point, whatever the mode. With highlighting on, a zero-size highlight is appended at the client point and becomes current. With cropping on, the drag is marked started and a zero-size selection is made at the client point; a previous selection overlay is left behind. |
| Editor.EditorSession.MouseMove | js/editor.js:155-190 | Without a tool on, or without a drag start, nothing changes. Otherwise the current highlight (highlighting on) or the selection (the crop tool on and a crop drag started) becomes `Stretched` toward the pointer. Nothing else changes. |
| Editor.EditorSession.MouseUp | js/editor.js:193-229 | Without the guard, nothing changes. Otherwise the crop tool, the drag and the drag start are cleared, and the highlights and the highlight tool are kept. With the crop tool on and a crop drag started, the selection is removed; if both sides of the crop box exceed 10, the canvas becomes a fresh bitmap of the box's size holding the box's pixels. |
| Editor.EditorSession.Export | js/editor.js:66-99 | The output has the canvas's size. There is one painted rectangle per highlight, in document order, each at its `Placed` position. The file name is `FileName` of the timestamp. |
| Editor.CropCopiesCanvasPixels | js/editor.js:196-211 | A crop dragged from a press to a release over the displayed canvas reads only the canvas's own pixels: the whole-pixel crop region lies in the bitmap. |
| Scenarios.UnscaledCoordinates | js/editor.js:103-113 | On a canvas displayed at its bitmap's size at the page's corner, image point, client point and pointer coincide. |
| Scenarios.Open | js/editor.js:19-32 | The editor opened on a 300 x 300 screenshot has no tool on, no drag and no overlay, and shows that screenshot. |
| Scenarios.CropScenario | js/editor.js:193-229 | Pressing at (20, 20) and releasing at (120, 220) in crop mode leaves a 100 x 200 canvas whose corners are the screenshot's pixels (20, 20) and (119, 219). |
| Scenarios.CropOfGradient | js/editor.js:193-229 | The same crop on the editor opened on a gradient screenshot. |
| Scenarios.SmallCropScenario | js/editor.js:205 | A crop box 10 pixels wide is discarded: the canvas keeps its size and the crop tool goes off. |
| Scenarios.DoublePressScenario | js/editor.js:141-151 | A second press during a crop drag starts a new selection and leaves the first overlay behind. |
| Scenarios.LeftoverSelectionScenario | js/editor.js:193-229 | A crop press whose release never reached the canvas, then the highlight tool on, a press and a release: the drag and the crop tool are off, but the selection overlay stays and is still the selection. |
| Scenarios.CropOffWithoutCropScenario | js/editor.js:194-229 | A press with no tool on, then the crop tool on, then a release: the crop tool turns off and the canvas is unchanged. |
| Scenarios.ToggleScenario | js/editor.js:52-58 | Turning the highlight tool on and off again creates no highlight and leaves the tool off. |
| Scenarios.HighlightDrag | js/editor.js:155-190 | A highlight drag from 100 to 50 and back to 80 leaves the highlight at 50..80, and the highlight tool stays on. |
| Scenarios.HighlightScenario | js/editor.js:66-99 | After that drag, with the canvas at its container's corner, the export paints exactly that highlight. The output is 300 x 300 and carries the timestamped name. |
| Scenarios.StaleStartScenario | js/editor.js:155-175 | A drag start left by a press with no tool on lets pointer movement reshape the previous highlight once the highlight tool is back on. |

## Left out

- The URL parameter, the alert and the window close when the screenshot is missing are left out (page I/O).
- The asynchronous image load is left out: the constructor receives the loaded bitmap. Events that arrive before the load completes are not modelled.
- `js/popup.js` is not part of this model: the capture uses browser APIs only.
- The cursor styles and the buttons' active classes are left out (presentation only).
- The fill colour, the dashed red stroke, the PNG encoding, the data URL and the link click are left out. Export yields the rectangles it paints, the output size and the file name, never pixels.
- The clock is left out: the download's milliseconds are a parameter of Export.
- Coordinates are real numbers, not IEEE doubles. The decimal rendering and `parseFloat` of the `px` style strings are taken as exact, so a style value is the number that was stored.
- A highlight's width and height are unset until its first move, so its style reads NaN. The model stores 0 there. Painting either leaves nothing visible.
- Editor.EditorSession.MouseUp: crop offsets and sizes are taken as the floor of the real crop box. That idealises `drawImage`'s sub-pixel resampling and the real-to-integer conversion of `canvas.width`. The 32-bit wrap of that conversion is not modelled.
- Editor.EditorSession.MouseDown and Editor.EditorSession.MouseUp require a canvas displayed with a positive size. A canvas with no area receives no pointer events; the scale would otherwise divide by zero.
- The export places highlights by their client-space style positions without the canvas's CSS scale, as the code does. A canvas displayed at a size other than its bitmap's therefore exports highlights off their on-screen place; the model keeps that behaviour.
- Every pointer event is assumed to reach the canvas. The listeners are on the canvas, and the
  overlays are absolutely positioned elements laid over it; whether a move or a release over an
  overlay reaches the canvas depends on the stylesheet (`pointer-events`), which is not part of this
  model. The lost anchor (`AnchorLost`), for instance, needs the move back to x = 80 to reach the
  canvas while the pointer is over the highlight.
- `startX` and `startY` are one optional point, because the code always assigns them together.
- The page reload behind Reset is modelled as a return to the state the editor opens in. The browser's reload itself is left out.
