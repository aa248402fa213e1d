/**
 * The arithmetic of the editor's pointer handlers: the map from a pointer
 * position in client (CSS pixel) space to the canvas's bitmap (image) space,
 * the mousemove update of an overlay rectangle, and the bounding box from
 * which a crop is taken. Coordinates are reals, an idealisation of the
 * doubles the page script computes with.
 */
module Geometry {

  /** A point, in image space or in client space. */
  datatype Point = Point(x: real, y: real)

  /** An axis-aligned rectangle given by its origin and its size. */
  datatype Rect = Rect(left: real, top: real, width: real, height: real)

  /** The canvas's bounding client rectangle: where it is drawn and how large. */
  datatype Box = Box(left: real, top: real, width: real, height: real)

  /** The on-screen placement an event handler reads: the canvas's box and
      the top-left corner of its container (the overlays' parent). */
  datatype Layout = Layout(canvas: Box, containerLeft: real, containerTop: real)

  /** What the coordinate map returns: the image point (x, y) and the
      unscaled offset (clientX, clientY) of the pointer from the canvas's
      top-left corner. */
  datatype CanvasPoint = CanvasPoint(x: real, y: real, clientX: real, clientY: real)

  function Min(a: real, b: real): real { if a <= b then a else b }

  function Max(a: real, b: real): real { if a <= b then b else a }

  function Abs(a: real): real { if a < 0.0 then -a else a }

  /** A canvas that occupies some area on screen; only such a canvas receives pointer events. */
  predicate Displayed(b: Box) { b.width > 0.0 && b.height > 0.0 }

  /** A rectangle whose width and height are not negative. */
  predicate Sized(r: Rect) { r.width >= 0.0 && r.height >= 0.0 }

  /** Point p lies in the closed rectangle r. */
  predicate Contains(r: Rect, p: Point) {
    r.left <= p.x <= r.left + r.width && r.top <= p.y <= r.top + r.height
  }

  /** Rectangle r covers rectangle s. */
  predicate Encloses(r: Rect, s: Rect) {
    r.left <= s.left && s.left + s.width <= r.left + r.width &&
    r.top <= s.top && s.top + s.height <= r.top + r.height
  }

  function ImageOf(c: CanvasPoint): Point { Point(c.x, c.y) }

  function ClientOf(c: CanvasPoint): Point { Point(c.clientX, c.clientY) }

  /**
   * getCanvasCoordinates: the pointer's offset from the canvas's top-left
   * corner, and that offset scaled per axis by bitmap size over displayed
   * size.
   */
  function CanvasCoordinates(canvas: Box, bitmapWidth: nat, bitmapHeight: nat, px: real, py: real): CanvasPoint
    requires Displayed(canvas)
  {
    var scaleX := bitmapWidth as real / canvas.width;
    var scaleY := bitmapHeight as real / canvas.height;
    var clientX := px - canvas.left;
    var clientY := py - canvas.top;
    CanvasPoint(clientX * scaleX, clientY * scaleY, clientX, clientY)
  }

  /**
   * The client offset is the pointer's unscaled distance from the canvas's
   * top-left corner; the image offset stands to the bitmap size as the
   * client offset stands to the displayed size, per axis; and a pointer over
   * the displayed canvas lands inside the bitmap.
   */
  lemma CanvasCoordinatesProportional(canvas: Box, bitmapWidth: nat, bitmapHeight: nat, px: real, py: real)
    requires Displayed(canvas)
    ensures var c := CanvasCoordinates(canvas, bitmapWidth, bitmapHeight, px, py);
            && c.clientX == px - canvas.left && c.clientY == py - canvas.top
            && c.x * canvas.width == c.clientX * bitmapWidth as real
            && c.y * canvas.height == c.clientY * bitmapHeight as real
            && (0.0 <= c.clientX <= canvas.width ==> 0.0 <= c.x <= bitmapWidth as real)
            && (0.0 <= c.clientY <= canvas.height ==> 0.0 <= c.y <= bitmapHeight as real)
  {
  }

  /** The inverse map: the pointer position at which image point (x, y) is displayed. */
  function PointerAt(canvas: Box, bitmapWidth: nat, bitmapHeight: nat, x: real, y: real): Point
    requires bitmapWidth > 0 && bitmapHeight > 0
  {
    Point(canvas.left + x * (canvas.width / bitmapWidth as real),
          canvas.top + y * (canvas.height / bitmapHeight as real))
  }

  /** Mapping a pointer to image space and back returns the pointer. */
  lemma PointerRoundTrip(canvas: Box, bitmapWidth: nat, bitmapHeight: nat, px: real, py: real)
    requires Displayed(canvas) && bitmapWidth > 0 && bitmapHeight > 0
    ensures var c := CanvasCoordinates(canvas, bitmapWidth, bitmapHeight, px, py);
            PointerAt(canvas, bitmapWidth, bitmapHeight, c.x, c.y) == Point(px, py)
  {
  }

  /** Mapping an image point to the display and back returns the image point. */
  lemma ImageRoundTrip(canvas: Box, bitmapWidth: nat, bitmapHeight: nat, x: real, y: real)
    requires Displayed(canvas) && bitmapWidth > 0 && bitmapHeight > 0
    ensures var p := PointerAt(canvas, bitmapWidth, bitmapHeight, x, y);
            ImageOf(CanvasCoordinates(canvas, bitmapWidth, bitmapHeight, p.x, p.y)) == Point(x, y)
  {
  }

  /** The canvas's displayed top-left corner maps to image point (0, 0) and
      its bottom-right corner to (bitmap width, bitmap height). */
  lemma CornersMapToBitmap(canvas: Box, bitmapWidth: nat, bitmapHeight: nat)
    requires Displayed(canvas)
    ensures ImageOf(CanvasCoordinates(canvas, bitmapWidth, bitmapHeight, canvas.left, canvas.top)) == Point(0.0, 0.0)
    ensures ImageOf(CanvasCoordinates(canvas, bitmapWidth, bitmapHeight,
                    canvas.left + canvas.width, canvas.top + canvas.height))
            == Point(bitmapWidth as real, bitmapHeight as real)
  {
  }

  /**
   * The crop region (js/editor.js:200-203): the axis-aligned bounding box of
   * two points. Its edges lie on the two points' coordinates, the nearer
   * one first.
   */
  function BoundingBox(p: Point, q: Point): (b: Rect)
    ensures Sized(b)
    ensures b.left == Min(p.x, q.x) && b.left + b.width == Max(p.x, q.x)
    ensures b.top == Min(p.y, q.y) && b.top + b.height == Max(p.y, q.y)
  {
    Rect(Min(p.x, q.x), Min(p.y, q.y), Abs(q.x - p.x), Abs(q.y - p.y))
  }

  /** The bounding box does not depend on which point came first. */
  lemma BoundingBoxSymmetric(p: Point, q: Point)
    ensures BoundingBox(p, q) == BoundingBox(q, p)
  {
  }

  /** The bounding box holds both points, and every rectangle holding both
      points covers it: it is the smallest such rectangle. */
  lemma BoundingBoxIsSmallest(p: Point, q: Point, r: Rect)
    ensures Contains(BoundingBox(p, q), p) && Contains(BoundingBox(p, q), q)
    ensures Contains(r, p) && Contains(r, q) ==> Encloses(r, BoundingBox(p, q))
  {
  }

  /** Rectangle r with its origin and size scaled per axis. */
  function ScaleRect(r: Rect, sx: real, sy: real): Rect {
    Rect(r.left * sx, r.top * sy, r.width * sx, r.height * sy)
  }

  /** Scaling both points scales their bounding box. */
  lemma BoundingBoxScales(p: Point, q: Point, sx: real, sy: real)
    requires sx >= 0.0 && sy >= 0.0
    ensures BoundingBox(Point(p.x * sx, p.y * sy), Point(q.x * sx, q.y * sy))
            == ScaleRect(BoundingBox(p, q), sx, sy)
  {
  }

  /**
   * The crop box taken in image space between a press and a release is the
   * client-space bounding box of the two pointer positions, scaled by the
   * canvas's bitmap-to-display ratio: what is cut is what lies between the
   * two pointer positions on screen.
   */
  lemma CropBoxIsScaledClientBox(canvas: Box, bitmapWidth: nat, bitmapHeight: nat, p: Point, q: Point)
    requires Displayed(canvas)
    ensures var a := CanvasCoordinates(canvas, bitmapWidth, bitmapHeight, p.x, p.y);
            var b := CanvasCoordinates(canvas, bitmapWidth, bitmapHeight, q.x, q.y);
            BoundingBox(ImageOf(a), ImageOf(b))
            == ScaleRect(BoundingBox(ClientOf(a), ClientOf(b)),
                         bitmapWidth as real / canvas.width, bitmapHeight as real / canvas.height)
  {
  }

  /**
   * A press and a release over the displayed canvas give a crop box inside
   * the bitmap, and so does its whole-pixel part: every pixel the crop
   * copies is a pixel of the canvas.
   */
  lemma CropBoxWithinBitmap(canvas: Box, bitmapWidth: nat, bitmapHeight: nat, p: Point, q: Point)
    requires Displayed(canvas)
    requires canvas.left <= p.x <= canvas.left + canvas.width && canvas.top <= p.y <= canvas.top + canvas.height
    requires canvas.left <= q.x <= canvas.left + canvas.width && canvas.top <= q.y <= canvas.top + canvas.height
    ensures var b := BoundingBox(ImageOf(CanvasCoordinates(canvas, bitmapWidth, bitmapHeight, p.x, p.y)),
                                 ImageOf(CanvasCoordinates(canvas, bitmapWidth, bitmapHeight, q.x, q.y)));
            && 0.0 <= b.left && b.left + b.width <= bitmapWidth as real
            && 0.0 <= b.top && b.top + b.height <= bitmapHeight as real
            && 0 <= b.left.Floor && b.left.Floor + b.width.Floor <= bitmapWidth
            && 0 <= b.top.Floor && b.top.Floor + b.height.Floor <= bitmapHeight
  {
    CanvasCoordinatesProportional(canvas, bitmapWidth, bitmapHeight, p.x, p.y);
    CanvasCoordinatesProportional(canvas, bitmapWidth, bitmapHeight, q.x, q.y);
  }

  /**
   * The mousemove update of an overlay (js/editor.js:166-174, 182-188). The
   * new size is measured from the overlay's CURRENT origin, not from the
   * point where the drag started: the rectangle then spans from the pointer
   * to that origin, so the origin moves only left or up.
   */
  function Stretched(r: Rect, cx: real, cy: real): (s: Rect)
    ensures Sized(s)
    ensures s.left == Min(cx, r.left) && s.left + s.width == Max(cx, r.left)
    ensures s.top == Min(cy, r.top) && s.top + s.height == Max(cy, r.top)
  {
    var width := cx - r.left;
    var height := cy - r.top;
    Rect(if width < 0.0 then cx else cx - width,
         if height < 0.0 then cy else cy - height,
         Abs(width), Abs(height))
  }

  /** One move gives the bounding box of the overlay's previous origin and the pointer. */
  lemma StretchedIsBoundingBox(r: Rect, cx: real, cy: real)
    ensures Stretched(r, cx, cy) == BoundingBox(Point(r.left, r.top), Point(cx, cy))
  {
  }

  /** The overlay after a sequence of mousemove events at the client points of path. */
  function Dragged(r: Rect, path: seq<Point>): Rect
    decreases |path|
  {
    if path == [] then r else Dragged(Stretched(r, path[0].x, path[0].y), path[1..])
  }

  /** Over a whole drag the origin never moves right or down, and after at
      least one move the size is not negative. */
  lemma {:induction false} DraggedOriginNeverGrows(r: Rect, path: seq<Point>)
    ensures Dragged(r, path).left <= r.left && Dragged(r, path).top <= r.top
    ensures path != [] || Sized(r) ==> Sized(Dragged(r, path))
    decreases |path|
  {
    if path != [] {
      DraggedOriginNeverGrows(Stretched(r, path[0].x, path[0].y), path[1..]);
    }
  }

  /** Every point of path lies right of and below the anchor a. */
  predicate BelowRightOf(a: Point, path: seq<Point>) {
    forall k :: 0 <= k < |path| ==> a.x <= path[k].x && a.y <= path[k].y
  }

  /**
   * While the pointer never crosses left of or above the point where the
   * drag started, the overlay is the bounding box of that point and the
   * latest pointer position, as an anchored rectangle would be.
   */
  lemma {:induction false} DraggedFromAnchor(a: Point, r: Rect, path: seq<Point>)
    requires r.left == a.x && r.top == a.y
    requires path != [] && BelowRightOf(a, path)
    ensures Dragged(r, path) == BoundingBox(a, path[|path| - 1])
    decreases |path|
  {
    var s := Stretched(r, path[0].x, path[0].y);
    if |path| == 1 {
      assert Dragged(s, path[1..]) == s;
    } else {
      assert BelowRightOf(a, path[1..]) by {
        forall k | 0 <= k < |path| - 1 ensures a.x <= path[1..][k].x && a.y <= path[1..][k].y {
          assert path[1..][k] == path[k + 1];
        }
      }
      DraggedFromAnchor(a, s, path[1..]);
    }
  }

  /**
   * Once the pointer has crossed left of the anchor, the anchor is lost: a
   * press at client x = 100, a move to 50 and a move back to 80 leaves the
   * overlay spanning 50..80, not 80..100 as the bounding box of the anchor
   * and the pointer would.
   */
  lemma AnchorLost()
    ensures Dragged(Rect(100.0, 100.0, 0.0, 0.0), [Point(50.0, 100.0), Point(80.0, 100.0)])
            == Rect(50.0, 100.0, 30.0, 0.0)
    ensures BoundingBox(Point(100.0, 100.0), Point(80.0, 100.0)) == Rect(80.0, 100.0, 20.0, 0.0)
  {
  }

  /** The size threshold of a crop (js/editor.js:205): both sides above 10 image pixels. */
  predicate CropAccepted(b: Rect) { b.width > 10.0 && b.height > 10.0 }
}
