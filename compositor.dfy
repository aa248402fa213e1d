/**
 * The geometry of the download handler: where each highlight overlay is
 * painted on the output image, the output's size, and the file name.
 */
module Compositor {
  import opened Options
  import opened Geometry

  /** What one export produces: an output of the canvas's size with the
      canvas as its base layer, one painted rectangle per highlight in
      document order, and the download's file name. */
  datatype ExportPlan = ExportPlan(width: nat, height: nat, paints: seq<Rect>, fileName: string)

  /**
   * The rectangle painted for highlight h: its style position shifted by
   * the offset of the container from the canvas, taken with the opposite
   * sign (x - (containerLeft - canvasLeft)); its size as stored.
   */
  function Placed(h: Rect, layout: Layout): Rect {
    Rect(h.left - (layout.containerLeft - layout.canvas.left),
         h.top - (layout.containerTop - layout.canvas.top),
         h.width, h.height)
  }

  /** Where an absolutely positioned overlay with style position (h.left,
      h.top) appears, relative to the canvas's top-left corner, when its
      containing block starts at the container's top-left corner, that is,
      when the container is positioned and has no border. */
  function OnCanvas(h: Rect, layout: Layout): Point {
    Point(layout.containerLeft + h.left - layout.canvas.left,
          layout.containerTop + h.top - layout.canvas.top)
  }

  /** Exported highlights keep their sizes and their positions relative to one another. */
  lemma PlacedKeepsRelativePositions(a: Rect, b: Rect, layout: Layout)
    ensures Placed(a, layout).width == a.width && Placed(a, layout).height == a.height
    ensures Placed(a, layout).left - Placed(b, layout).left == a.left - b.left
    ensures Placed(a, layout).top - Placed(b, layout).top == a.top - b.top
  {
  }

  /**
   * A highlight is painted where it appears over the canvas exactly when the
   * container and the canvas share their left edge (and likewise for the top
   * edge); otherwise the two differ by twice the offset between them.
   */
  lemma PlacedMatchesScreenIff(h: Rect, layout: Layout)
    ensures Placed(h, layout).left == OnCanvas(h, layout).x <==> layout.containerLeft == layout.canvas.left
    ensures Placed(h, layout).top == OnCanvas(h, layout).y <==> layout.containerTop == layout.canvas.top
    ensures OnCanvas(h, layout).x - Placed(h, layout).left == 2.0 * (layout.containerLeft - layout.canvas.left)
    ensures OnCanvas(h, layout).y - Placed(h, layout).top == 2.0 * (layout.containerTop - layout.canvas.top)
  {
  }

  /** A decimal digit character. */
  predicate IsDigit(c: char) { '0' <= c <= '9' }

  predicate AllDigits(s: string) { forall k :: 0 <= k < |s| ==> IsDigit(s[k]) }

  function DigitChar(d: nat): (c: char)
    requires d < 10
    ensures IsDigit(c) && (c as int) - ('0' as int) == d
  {
    (('0' as int) + d) as char
  }

  /** The decimal text of n, as a JavaScript template literal renders an integer. */
  function Decimal(n: nat): (s: string)
    ensures |s| >= 1 && AllDigits(s)
    ensures s[0] == '0' ==> n == 0
    decreases n
  {
    if n < 10 then [DigitChar(n)] else Decimal(n / 10) + [DigitChar(n % 10)]
  }

  /** The value of a string of decimal digits. */
  function DecimalValue(s: string): nat
    requires AllDigits(s)
    decreases |s|
  {
    if s == [] then 0
    else DecimalValue(s[..|s| - 1]) * 10 + ((s[|s| - 1] as int) - ('0' as int))
  }

  /** Reading back the decimal text of n gives n. */
  lemma {:induction false} DecimalRoundTrip(n: nat)
    ensures DecimalValue(Decimal(n)) == n
    decreases n
  {
    var s := Decimal(n);
    if n < 10 {
      assert s[..|s| - 1] == [];
    } else {
      DecimalRoundTrip(n / 10);
      assert s[..|s| - 1] == Decimal(n / 10);
      assert s[|s| - 1] == DigitChar(n % 10);
    }
  }

  const Prefix: string := "screenshot_"
  const Suffix: string := ".png"

  /** The download's name, screenshot_<milliseconds since the epoch>.png. */
  function FileName(ms: nat): (name: string)
    ensures |name| > |Prefix| + |Suffix|
    ensures name[..|Prefix|] == Prefix && name[|name| - |Suffix|..] == Suffix
    ensures name[|Prefix|..|name| - |Suffix|] == Decimal(ms)
  {
    var name := Prefix + Decimal(ms) + Suffix;
    assert name[..|Prefix|] == Prefix;
    assert name[|name| - |Suffix|..] == Suffix;
    assert name[|Prefix|..|name| - |Suffix|] == Decimal(ms);
    name
  }

  /** The timestamp a download name carries, if it has the export's shape. */
  function TimestampOf(name: string): Option<nat> {
    if |name| > |Prefix| + |Suffix| && name[..|Prefix|] == Prefix && name[|name| - |Suffix|..] == Suffix
       && AllDigits(name[|Prefix|..|name| - |Suffix|])
    then Some(DecimalValue(name[|Prefix|..|name| - |Suffix|]))
    else None
  }

  /** The timestamp can be read back from the file name. */
  lemma FileNameRoundTrip(ms: nat)
    ensures TimestampOf(FileName(ms)) == Some(ms)
  {
    DecimalRoundTrip(ms);
  }

  /** Downloads made at different milliseconds get different names. */
  lemma FileNameInjective(a: nat, b: nat)
    ensures FileName(a) == FileName(b) ==> a == b
  {
    FileNameRoundTrip(a);
    FileNameRoundTrip(b);
  }
}
