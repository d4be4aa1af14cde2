/**
 * The part of Slate's location model the editor core uses: a point is a path
 * into the document tree plus a character offset, a range is an anchor point
 * and a focus point, and a range is collapsed when the two points are equal
 * (Slate's `Range.isCollapsed`, built on `Point.equals` and `Path.equals`).
 */
module SlateRange {

  /** Child indexes from the document root down to a text node. */
  type Path = seq<nat>

  datatype Point = Point(path: Path, offset: nat)

  datatype Range = Range(anchor: Point, focus: Point)

  /** `Path.equals`: same length and the same index at every depth. */
  predicate PathEquals(a: Path, b: Path) {
    |a| == |b| && forall i :: 0 <= i < |a| ==> a[i] == b[i]
  }

  /** `Point.equals`: same offset and equal paths. */
  predicate PointEquals(a: Point, b: Point) {
    a.offset == b.offset && PathEquals(a.path, b.path)
  }

  /** `Range.isCollapsed`: the anchor equals the focus. */
  predicate IsCollapsed(r: Range) {
    PointEquals(r.anchor, r.focus)
  }

  /** A collapsed range is exactly one whose two points are the same value. */
  lemma CollapsedIffSamePoint(r: Range)
    ensures IsCollapsed(r) <==> r.anchor == r.focus
  {
  }
}
