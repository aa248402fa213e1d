/**
 * The screenshot editor's interaction state (js/editor.js): the tool-mode
 * flags, the drag start, the crop selection overlay, the highlight
 * overlays and the canvas bitmap, updated in place by the tool-button and
 * pointer handlers. Each handler is a method; the on-screen layout and the
 * pointer position it reads from the page are its parameters.
 */
module Editor {
  import opened Options
  import opened Geometry
  import opened Bitmap
  import opened Compositor

  class EditorSession {
    /** isCropping: the crop tool is on. */
    var cropping: bool
    /** isHighlighting: the highlight tool is on. */
    var highlighting: bool
    /** isSelecting: a crop drag has been started. */
    var selecting: bool
    /** (startX, startY) in image space; None while they are null. */
    var start: Option<Point>
    /** Which highlight overlay currentHighlight refers to, by index in highlights. */
    var currentHighlight: Option<nat>
    /** The crop selection overlay selectionRect refers to, in client space. */
    var selection: Option<Rect>
    /** Selection overlays still attached to the container that selectionRect no longer refers to. */
    var abandoned: seq<Rect>
    /** The highlight overlays in the container, in document order, in client space. */
    var highlights: seq<Rect>
    /** The canvas bitmap, indexed [column, row]. */
    var pixels: array2<Pixel>
    /** The screenshot the page was opened with; a reload draws it again. */
    const original: array2<Pixel>

    /**
     * The session's invariant: the two tools are never on together;
     * currentHighlight refers to the most recently created highlight (it is
     * never cleared); a started crop drag has its overlay and its start
     * point; and every overlay still in the page, abandoned selections
     * included, has a non-negative size.
     */
    ghost predicate Valid()
      reads this
    {
      && !(cropping && highlighting)
      && currentHighlight == (if |highlights| == 0 then None else Some(|highlights| - 1))
      && (selecting ==> selection.Some? && start.Some?)
      && (forall k :: 0 <= k < |highlights| ==> Sized(highlights[k]))
      && (selection.Some? ==> Sized(selection.value))
      && (forall k :: 0 <= k < |abandoned| ==> Sized(abandoned[k]))
    }

    /** The guard of the mousemove and mouseup handlers: a tool is on and a drag start is recorded. */
    predicate Armed()
      reads this
    {
      (cropping || highlighting) && start.Some?
    }

    /** The image-space crop box between the drag start and a release at (px, py). */
    function CropBoxAt(layout: Layout, px: real, py: real): Rect
      reads this
      requires start.Some? && Displayed(layout.canvas)
    {
      BoundingBox(start.value, ImageOf(CanvasCoordinates(layout.canvas, pixels.Length0, pixels.Length1, px, py)))
    }

    /** The editor once the screenshot has been drawn on the canvas: no tool on, no overlay. */
    constructor (image: array2<Pixel>)
      ensures Valid() && original == image
      ensures !cropping && !highlighting && !selecting && start == None
      ensures selection == None && abandoned == [] && highlights == []
      ensures fresh(pixels) && SamePixels(pixels, image)
    {
      var bitmap := Copy(image);
      original := image;
      cropping, highlighting, selecting := false, false, false;
      start, currentHighlight, selection := None, None, None;
      abandoned, highlights := [], [];
      pixels := bitmap;
    }

    /** The reset button reloads the page: the session starts again from the screenshot. */
    method Reset()
      modifies this
      ensures Valid()
      ensures !cropping && !highlighting && !selecting && start == None
      ensures selection == None && abandoned == [] && highlights == []
      ensures fresh(pixels) && SamePixels(pixels, original)
    {
      cropping, highlighting, selecting := false, false, false;
      start, currentHighlight, selection := None, None, None;
      abandoned, highlights := [], [];
      pixels := Copy(original);
    }

    /** The crop button turns the crop tool on and the highlight tool off. */
    method ClickCrop()
      requires Valid()
      modifies this`cropping, this`highlighting
      ensures Valid()
      ensures cropping && !highlighting
    {
      cropping := true;
      highlighting := false;
    }

    /** The highlight button flips the highlight tool and turns the crop tool off. */
    method ClickHighlight()
      requires Valid()
      modifies this`cropping, this`highlighting
      ensures Valid()
      ensures highlighting == !old(highlighting) && !cropping
    {
      highlighting := !highlighting;
      cropping := false;
    }

    /**
     * A press records the drag start in image space whatever the mode. With
     * the highlight tool on it appends a highlight at the pointer, of no
     * size yet; with the crop tool on it starts a selection there of zero
     * size, leaving a previous selection overlay behind in the container.
     */
    method MouseDown(layout: Layout, px: real, py: real)
      requires Valid() && Displayed(layout.canvas)
      modifies this`start, this`currentHighlight, this`highlights, this`selecting, this`selection, this`abandoned
      ensures Valid()
      ensures var c := CanvasCoordinates(layout.canvas, pixels.Length0, pixels.Length1, px, py);
              && start == Some(ImageOf(c))
              && highlights == (if highlighting then old(highlights) + [Rect(c.clientX, c.clientY, 0.0, 0.0)]
                                else old(highlights))
              && selecting == (cropping || old(selecting))
              && selection == (if cropping then Some(Rect(c.clientX, c.clientY, 0.0, 0.0)) else old(selection))
              && abandoned == (if cropping && old(selection).Some? then old(abandoned) + [old(selection).value]
                               else old(abandoned))
    {
      var c := CanvasCoordinates(layout.canvas, pixels.Length0, pixels.Length1, px, py);
      start := Some(ImageOf(c));
      if highlighting {
        highlights := highlights + [Rect(c.clientX, c.clientY, 0.0, 0.0)];
        currentHighlight := Some(|highlights| - 1);
      }
      if cropping {
        selecting := true;
        if selection.Some? {
          abandoned := abandoned + [selection.value];
        }
        selection := Some(Rect(c.clientX, c.clientY, 0.0, 0.0));
      }
    }

    /**
     * A move with the guard passed reshapes the current highlight (with the
     * highlight tool on) or the selection (with the crop tool on and a crop
     * drag started) so that it spans from the pointer to the overlay's
     * current origin. Without the guard nothing changes.
     */
    method MouseMove(layout: Layout, px: real, py: real)
      requires Valid()
      modifies this`highlights, this`selection
      ensures Valid()
      ensures var cx, cy := px - layout.canvas.left, py - layout.canvas.top;
              && highlights == (if Armed() && highlighting && currentHighlight.Some?
                                then old(highlights)[currentHighlight.value :=
                                       Stretched(old(highlights)[currentHighlight.value], cx, cy)]
                                else old(highlights))
              && selection == (if Armed() && cropping && selecting && old(selection).Some?
                               then Some(Stretched(old(selection).value, cx, cy))
                               else old(selection))
    {
      if !highlighting && !cropping {
        return;
      }
      if start.None? {
        return;
      }
      var cx, cy := px - layout.canvas.left, py - layout.canvas.top;
      if highlighting && currentHighlight.Some? {
        var k := currentHighlight.value;
        highlights := highlights[k := Stretched(highlights[k], cx, cy)];
      }
      if cropping && selecting && selection.Some? {
        selection := Some(Stretched(selection.value, cx, cy));
      }
    }

    /**
     * A release with the guard passed ends the interaction: with the crop
     * tool on and a crop drag started it crops the canvas to the box between
     * the drag start and the release when both sides exceed 10 image pixels,
     * and removes the selection overlay; in every case it turns the crop
     * tool off and forgets the drag. A selection left by a crop drag that
     * was never finished stays when the crop tool is off. The highlight tool
     * and the highlights stay as they are. Without the guard nothing changes.
     */
    method MouseUp(layout: Layout, px: real, py: real)
      requires Valid() && Displayed(layout.canvas)
      modifies this`cropping, this`selecting, this`start, this`selection, this`pixels
      ensures Valid()
      ensures highlighting == old(highlighting) && highlights == old(highlights)
      ensures !old(Armed()) ==>
                cropping == old(cropping) && selecting == old(selecting) && start == old(start)
                && selection == old(selection) && pixels == old(pixels)
      ensures old(Armed()) ==> !cropping && !selecting && start == None
      ensures old(Armed()) ==> selection == (if old(cropping && selecting) then None else old(selection))
      ensures if old(Armed()) && old(cropping && selecting) && CropAccepted(old(CropBoxAt(layout, px, py)))
              then var box := old(CropBoxAt(layout, px, py));
                   && fresh(pixels)
                   && pixels.Length0 == box.width.Floor && pixels.Length1 == box.height.Floor
                   && forall i, j :: 0 <= i < pixels.Length0 && 0 <= j < pixels.Length1 ==>
                        pixels[i, j] == At(old(pixels), box.left.Floor + i, box.top.Floor + j)
              else pixels == old(pixels)
    {
      if !(cropping || highlighting) || start.None? {
        return;
      }
      if cropping && selecting {
        var box := CropBoxAt(layout, px, py);
        if CropAccepted(box) {
          var temp := CopyRegion(pixels, box.left.Floor, box.top.Floor, box.width.Floor, box.height.Floor);
          pixels := Copy(temp);
        }
        if selection.Some? {
          selection := None;
        }
      }
      cropping := false;
      selecting := false;
      start := None;
    }

    /**
     * The download button: an output of the canvas's size with the canvas as
     * base and every highlight painted over it, in document order, at its
     * exported position; and the timestamped file name.
     */
    method Export(layout: Layout, ms: nat) returns (plan: ExportPlan)
      ensures plan.width == pixels.Length0 && plan.height == pixels.Length1
      ensures |plan.paints| == |highlights|
      ensures forall k :: 0 <= k < |highlights| ==> plan.paints[k] == Placed(highlights[k], layout)
      ensures plan.fileName == FileName(ms)
    {
      var paints: seq<Rect> := [];
      var k := 0;
      while k < |highlights|
        invariant k <= |highlights| && |paints| == k
        invariant forall m :: 0 <= m < k ==> paints[m] == Placed(highlights[m], layout)
      {
        paints := paints + [Placed(highlights[k], layout)];
        k := k + 1;
      }
      plan := ExportPlan(pixels.Length0, pixels.Length1, paints, FileName(ms));
    }
  }

  /**
   * A crop dragged from a press to a release over the displayed canvas
   * copies only pixels of the canvas: the box's whole-pixel region lies in
   * the bitmap, so every pixel read from it is the canvas's own pixel, never
   * transparent padding.
   */
  lemma CropCopiesCanvasPixels(img: array2<Pixel>, canvas: Box, press: Point, release: Point)
    requires Displayed(canvas)
    requires canvas.left <= press.x <= canvas.left + canvas.width && canvas.top <= press.y <= canvas.top + canvas.height
    requires canvas.left <= release.x <= canvas.left + canvas.width && canvas.top <= release.y <= canvas.top + canvas.height
    ensures var b := BoundingBox(ImageOf(CanvasCoordinates(canvas, img.Length0, img.Length1, press.x, press.y)),
                                 ImageOf(CanvasCoordinates(canvas, img.Length0, img.Length1, release.x, release.y)));
            && 0 <= b.left.Floor && b.left.Floor + b.width.Floor <= img.Length0
            && 0 <= b.top.Floor && b.top.Floor + b.height.Floor <= img.Length1
            && forall x, y :: (b.left.Floor <= x < b.left.Floor + b.width.Floor &&
                               b.top.Floor <= y < b.top.Floor + b.height.Floor) ==>
                                At(img, x, y) == img[x, y]
  {
    var b := BoundingBox(ImageOf(CanvasCoordinates(canvas, img.Length0, img.Length1, press.x, press.y)),
                         ImageOf(CanvasCoordinates(canvas, img.Length0, img.Length1, release.x, release.y)));
    CropBoxWithinBitmap(canvas, img.Length0, img.Length1, press, release);
    RegionInsideReadsSource(img, b.left.Floor, b.top.Floor, b.width.Floor, b.height.Floor);
  }
}
