/**
 * The waveform outline: the forward path points, the closing vertex on the
 * centre line, and the back path that replays the points in reverse with
 * y mirrored about the centre line. Vertices only; the SVG text is not modelled.
 */
module Geometry {

  const OutputWidth: int := 1200
  const OutputHeight: int := 500
  /** Horizontal pixels per block (`svgPointsPerSample`). */
  const PointsPerSample: int := 2
  /** The centre line, `outputHeight / 2`. */
  const Middle: int := OutputHeight / 2

  /** A path vertex in output pixels. */
  datatype Point = Point(x: int, y: int)

  /** The first vertex, `M 0 250` from `getSvgPathStart`. */
  function PathStart(): Point
  {
    Point(0, OutputHeight / 2)
  }

  /** The point `getSvgPathPoint` records for block `index` at height `y`. */
  function PathPoint(index: nat, y: int): Point
  {
    Point(index * PointsPerSample, y)
  }

  /** `getSvgPathLastPoint`: the closing vertex on the right edge, on the centre line. */
  function PathLastPoint(): Point
  {
    Point(OutputWidth, OutputHeight / 2)
  }

  /** A point reflected about the centre line: `middleY + (middleY - y)`. */
  function Mirror(p: Point): (q: Point)
    ensures q.x == p.x && q.y + p.y == 2 * Middle
  {
    Point(p.x, Middle + (Middle - p.y))
  }

  /**
   * The vertices `getSvgBackPath` emits: the recorded points, last first,
   * each mirrored about the centre line.
   */
  function BackPath(points: seq<Point>): (back: seq<Point>)
    ensures |back| == |points|
    ensures forall j :: 0 <= j < |back| ==> back[j] == Mirror(points[|points| - 1 - j])
  {
    if points == [] then [] else BackPath(points[1..]) + [Mirror(points[0])]
  }

  /** Applying the back path twice restores the forward points. */
  lemma BackPathInvolution(points: seq<Point>)
    ensures BackPath(BackPath(points)) == points
  {
    var back := BackPath(points);
    assert forall j :: 0 <= j < |points| ==> Mirror(back[|points| - 1 - j]) == points[j];
  }

  /**
   * All vertices of the finished path: the start, the forward points, the
   * closing vertex, then the back path.
   */
  function Outline(points: seq<Point>): seq<Point>
  {
    [PathStart()] + points + [PathLastPoint()] + BackPath(points)
  }

  /**
   * The finished outline is vertically symmetric: it starts at the left edge
   * and turns back at the right edge, both on the centre line, and the k-th vertex from the end mirrors the k-th
   * forward point.
   */
  lemma OutlineSymmetric(points: seq<Point>)
    ensures |Outline(points)| == 2 * |points| + 2
    ensures Outline(points)[0] == Point(0, Middle)
    ensures Outline(points)[|points| + 1] == Point(OutputWidth, Middle)
    ensures forall k :: 1 <= k <= |points| ==>
      Outline(points)[k] == points[k - 1] &&
      Outline(points)[|Outline(points)| - k] == Mirror(Outline(points)[k])
  {
  }

  /** With no recorded points the outline is the start, the closing vertex and nothing else. */
  lemma EmptyOutline()
    ensures Outline([]) == [Point(0, 250), Point(1200, 250)]
  {
  }
}
