/**
 * Event sequences stated and verified against EditorSession's contracts
 * alone: the state each sequence of handler calls leads to, given that
 * every pointer event reaches the canvas. Every sequence starts from a
 * freshly opened editor on a 300 x 300 screenshot whose canvas is displayed
 * at its bitmap's size at the top-left corner of its container, so that
 * pointer, client and image coordinates coincide.
 */
module Scenarios {
  import opened Options
  import opened Geometry
  import opened Bitmap
  import opened Compositor
  import opened Editor

  /** The pixel of the test screenshot at (x, y). */
  function Shade(x: nat, y: nat): Pixel
    requires x < 300 && y < 300
  {
    (x + 300 * y) as Pixel
  }

  /** A 300 x 300 screenshot whose pixel at (x, y) is x + 300 y. */
  method Gradient() returns (img: array2<Pixel>)
    ensures fresh(img) && img.Length0 == 300 && img.Length1 == 300
    ensures forall x, y :: 0 <= x < 300 && 0 <= y < 300 ==> img[x, y] == Shade(x, y)
  {
    img := new Pixel[300, 300]((x, y) requires 0 <= x < 300 && 0 <= y < 300 => Shade(x, y));
  }

  /** The canvas displayed at its bitmap's size, at the top-left corner of the page and of its container. */
  function Unscaled(): Layout {
    Layout(Box(0.0, 0.0, 300.0, 300.0), 0.0, 0.0)
  }

  /** On the unscaled layout, client and image points coincide with the pointer. */
  lemma UnscaledCoordinates(bitmapWidth: nat, bitmapHeight: nat, px: real, py: real)
    requires bitmapWidth == 300 && bitmapHeight == 300
    ensures CanvasCoordinates(Unscaled().canvas, bitmapWidth, bitmapHeight, px, py) == CanvasPoint(px, py, px, py)
  {
  }

  /** A session as the editor opens it on a 300 x 300 screenshot: no tool on, no drag, no overlay. */
  predicate Opened(s: EditorSession)
    reads s, s.pixels
  {
    && s.pixels.Length0 == 300 && s.pixels.Length1 == 300
    && !s.cropping && !s.highlighting && !s.selecting && s.start == None
    && s.currentHighlight == None && s.selection == None && s.abandoned == [] && s.highlights == []
  }

  /** Opening the editor on a 300 x 300 screenshot gives an opened session showing that screenshot. */
  method Open(img: array2<Pixel>) returns (s: EditorSession)
    requires img.Length0 == 300 && img.Length1 == 300
    ensures fresh(s) && fresh(s.pixels) && Opened(s) && SamePixels(s.pixels, img)
  {
    s := new EditorSession(img);
  }

  /** A press at (x, y) on the unscaled layout. */
  method PressAt(s: EditorSession, x: real, y: real)
    requires s.Valid() && s.pixels.Length0 == 300 && s.pixels.Length1 == 300
    modifies s`start, s`currentHighlight, s`highlights, s`selecting, s`selection, s`abandoned
    ensures s.Valid() && s.pixels == old(s.pixels)
    ensures s.start == Some(Point(x, y))
    ensures s.highlights == (if s.highlighting then old(s.highlights) + [Rect(x, y, 0.0, 0.0)] else old(s.highlights))
    ensures s.selecting == (s.cropping || old(s.selecting))
    ensures s.selection == (if s.cropping then Some(Rect(x, y, 0.0, 0.0)) else old(s.selection))
    ensures s.abandoned == (if s.cropping && old(s.selection).Some? then old(s.abandoned) + [old(s.selection).value]
                            else old(s.abandoned))
  {
    s.MouseDown(Unscaled(), x, y);
    UnscaledCoordinates(s.pixels.Length0, s.pixels.Length1, x, y);
  }

  /** A move to (x, y) on the unscaled layout. */
  method MoveTo(s: EditorSession, x: real, y: real)
    requires s.Valid()
    modifies s`highlights, s`selection
    ensures s.Valid()
    ensures s.highlights == (if s.Armed() && s.highlighting && s.currentHighlight.Some?
                             then old(s.highlights)[s.currentHighlight.value :=
                                    Stretched(old(s.highlights)[s.currentHighlight.value], x, y)]
                             else old(s.highlights))
    ensures s.selection == (if s.Armed() && s.cropping && s.selecting && old(s.selection).Some?
                            then Some(Stretched(old(s.selection).value, x, y))
                            else old(s.selection))
  {
    s.MouseMove(Unscaled(), x, y);
  }

  /** A release at (x, y) on the unscaled layout. */
  method ReleaseAt(s: EditorSession, x: real, y: real)
    requires s.Valid() && s.pixels.Length0 == 300 && s.pixels.Length1 == 300
    modifies s`cropping, s`selecting, s`start, s`selection, s`pixels
    ensures s.Valid()
    ensures s.highlighting == old(s.highlighting) && s.highlights == old(s.highlights)
    ensures !old(s.Armed()) ==>
              s.cropping == old(s.cropping) && s.selecting == old(s.selecting) && s.start == old(s.start)
              && s.selection == old(s.selection) && s.pixels == old(s.pixels)
    ensures old(s.Armed()) ==> !s.cropping && !s.selecting && s.start == None
    ensures old(s.Armed()) ==> s.selection == (if old(s.cropping && s.selecting) then None else old(s.selection))
    ensures if old(s.Armed()) && old(s.cropping && s.selecting)
               && CropAccepted(BoundingBox(old(s.start).value, Point(x, y)))
            then var box := BoundingBox(old(s.start).value, Point(x, y));
                 && fresh(s.pixels)
                 && s.pixels.Length0 == box.width.Floor && s.pixels.Length1 == box.height.Floor
                 && forall i, j :: 0 <= i < s.pixels.Length0 && 0 <= j < s.pixels.Length1 ==>
                      s.pixels[i, j] == At(old(s.pixels), box.left.Floor + i, box.top.Floor + j)
            else s.pixels == old(s.pixels)
  {
    UnscaledCoordinates(s.pixels.Length0, s.pixels.Length1, x, y);
    s.MouseUp(Unscaled(), x, y);
  }

  /**
   * Cropping with a press at (20, 20) and a release at (120, 220) leaves a
   * 100 x 200 canvas whose corners are the screenshot's pixels (20, 20) and
   * (119, 219).
   */
  method CropScenario(s: EditorSession) returns (width: nat, height: nat, first: Pixel, last: Pixel)
    requires Opened(s)
    requires forall x, y :: 0 <= x < 300 && 0 <= y < 300 ==> s.pixels[x, y] == Shade(x, y)
    modifies s
    ensures width == 100 && height == 200
    ensures first == Shade(20, 20) && last == Shade(119, 219)
  {
    s.ClickCrop();
    PressAt(s, 20.0, 20.0);
    var before := s.pixels;
    assert BoundingBox(Point(20.0, 20.0), Point(120.0, 220.0)) == Rect(20.0, 20.0, 100.0, 200.0);
    ReleaseAt(s, 120.0, 220.0);
    width, height := s.pixels.Length0, s.pixels.Length1;
    first, last := s.pixels[0, 0], s.pixels[99, 199];
    assert first == At(before, 20, 20);
    assert last == At(before, 119, 219);
  }

  /** The same crop on the session the editor opens on the gradient screenshot. */
  method CropOfGradient() returns (width: nat, height: nat, first: Pixel, last: Pixel)
    ensures width == 100 && height == 200
    ensures first == Shade(20, 20) && last == Shade(119, 219)
  {
    var img := Gradient();
    var s := Open(img);
    width, height, first, last := CropScenario(s);
  }

  /** A crop whose box is 10 pixels wide is discarded: the canvas keeps its size, and the crop tool goes off. */
  method SmallCropScenario(s: EditorSession) returns (width: nat, height: nat, cropping: bool)
    requires Opened(s)
    modifies s
    ensures width == 300 && height == 300 && !cropping
  {
    s.ClickCrop();
    PressAt(s, 20.0, 20.0);
    assert BoundingBox(Point(20.0, 20.0), Point(30.0, 220.0)) == Rect(20.0, 20.0, 10.0, 200.0);
    ReleaseAt(s, 30.0, 220.0);
    width, height, cropping := s.pixels.Length0, s.pixels.Length1, s.cropping;
  }

  /** A second press during a crop drag starts a new selection and leaves the first overlay behind. */
  method DoublePressScenario(s: EditorSession) returns (selection: Option<Rect>, abandoned: seq<Rect>)
    requires Opened(s)
    modifies s
    ensures selection == Some(Rect(50.0, 50.0, 0.0, 0.0))
    ensures abandoned == [Rect(20.0, 20.0, 0.0, 0.0)]
  {
    s.ClickCrop();
    PressAt(s, 20.0, 20.0);
    PressAt(s, 50.0, 50.0);
    selection, abandoned := s.selection, s.abandoned;
  }

  /**
   * A crop press whose release never reached the canvas leaves the crop drag
   * started; with the highlight tool then on, a press and a release end the
   * drag and turn the crop tool off, but the release skips the crop branch,
   * so the selection overlay stays and is still the selection.
   */
  method LeftoverSelectionScenario(s: EditorSession) returns (selection: Option<Rect>, selecting: bool, cropping: bool)
    requires Opened(s)
    modifies s
    ensures selection == Some(Rect(20.0, 20.0, 0.0, 0.0)) && !selecting && !cropping
  {
    s.ClickCrop();
    PressAt(s, 20.0, 20.0);
    s.ClickHighlight();
    PressAt(s, 100.0, 100.0);
    ReleaseAt(s, 120.0, 220.0);
    selection, selecting, cropping := s.selection, s.selecting, s.cropping;
  }

  /**
   * A press with no tool on records a drag start; turning the crop tool on
   * and releasing then turns the tool off again without cropping, as no crop
   * drag was started.
   */
  method CropOffWithoutCropScenario(s: EditorSession) returns (width: nat, height: nat, cropping: bool)
    requires Opened(s)
    modifies s
    ensures width == 300 && height == 300 && !cropping
  {
    PressAt(s, 20.0, 20.0);
    s.ClickCrop();
    ReleaseAt(s, 200.0, 200.0);
    width, height, cropping := s.pixels.Length0, s.pixels.Length1, s.cropping;
  }

  /** Turning the highlight tool on and off again without a drag creates no highlight. */
  method ToggleScenario(s: EditorSession) returns (count: nat, highlighting: bool)
    requires Opened(s)
    modifies s
    ensures count == 0 && !highlighting
  {
    s.ClickHighlight();
    s.ClickHighlight();
    count, highlighting := |s.highlights|, s.highlighting;
  }

  /**
   * A highlight drag from (100, 100) left to 50 and back to 80 keeps the
   * highlight at 50..80 (the anchor at 100 is lost), and the highlight tool
   * stays on after the release.
   */
  method HighlightDrag(s: EditorSession)
    requires Opened(s)
    modifies s
    ensures s.Valid() && s.highlighting && s.pixels.Length0 == 300 && s.pixels.Length1 == 300
    ensures s.highlights == [Rect(50.0, 100.0, 30.0, 0.0)]
  {
    s.ClickHighlight();
    PressAt(s, 100.0, 100.0);
    MoveTo(s, 50.0, 100.0);
    MoveTo(s, 80.0, 100.0);
    ReleaseAt(s, 80.0, 100.0);
  }

  /** After that drag, with the canvas at its container's corner, the download paints the highlight where it is. */
  method HighlightScenario(s: EditorSession) returns (marks: seq<Rect>, highlighting: bool, plan: ExportPlan)
    requires Opened(s)
    modifies s
    ensures marks == [Rect(50.0, 100.0, 30.0, 0.0)] && highlighting
    ensures plan.paints == marks && plan.width == 300 && plan.height == 300
    ensures plan.fileName == FileName(1700000000000)
  {
    HighlightDrag(s);
    marks, highlighting := s.highlights, s.highlighting;
    plan := s.Export(Unscaled(), 1700000000000);
  }

  /**
   * A highlight drag, then the tool off, a press that records a new drag
   * start and a release whose guard fails, so the start is kept; turning
   * the highlight tool on again lets mere pointer movement reshape the
   * previous highlight, which currentHighlight still refers to.
   */
  method StaleStartScenario(s: EditorSession) returns (marks: seq<Rect>)
    requires Opened(s)
    modifies s
    ensures marks == [Rect(10.0, 10.0, 240.0, 240.0)]
  {
    s.ClickHighlight();
    PressAt(s, 10.0, 10.0);
    MoveTo(s, 40.0, 30.0);
    ReleaseAt(s, 40.0, 30.0);
    assert s.highlights == [Rect(10.0, 10.0, 30.0, 20.0)];
    s.ClickHighlight();
    PressAt(s, 200.0, 200.0);
    ReleaseAt(s, 200.0, 200.0);
    s.ClickHighlight();
    MoveTo(s, 250.0, 250.0);
    marks := s.highlights;
  }
}
