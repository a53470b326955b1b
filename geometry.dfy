/** The index structure of the polygon that approximates a circle: point `i`
    of `segments` points is joined to point `(i + 1) % segments`. The point
    coordinates themselves are floating-point and are not modelled. */
module Geometry {

  /** Points on the outline drawn around the left and right circles. */
  const OutlineSegments: nat := 64

  /** Points on the fan of triangles that fills a wheel dot. */
  const FillSegments: nat := 32

  /** The point after point `i`, wrapping from the last back to the first. */
  function Next(i: nat, segments: nat): (j: nat)
    requires i < segments
    ensures j < segments
    ensures j == if i + 1 < segments then i + 1 else 0
  {
    (i + 1) % segments
  }

  /** The point before point `p`: the one whose edge ends at `p`. */
  function Prev(p: nat, segments: nat): (i: nat)
    requires p < segments
    ensures i < segments && Next(i, segments) == p
  {
    if p == 0 then segments - 1 else p - 1
  }

  /** A line of the outline, from one point index to another. */
  datatype Line = Line(from: nat, to: nat)

  /** A triangle of the filled fan: the centre joined to two rim point indices. */
  datatype Triangle = Triangle(from: nat, to: nat)

  /** The lines of the outline, in the order they are drawn. */
  method OutlineLines(segments: nat) returns (lines: seq<Line>)
    ensures |lines| == segments
    ensures forall i :: 0 <= i < segments ==> lines[i] == Line(i, Next(i, segments))
  {
    lines := [];
    var i := 0;
    while i < segments
      invariant 0 <= i <= segments
      invariant |lines| == i
      invariant forall j :: 0 <= j < i ==> lines[j] == Line(j, Next(j, segments))
    {
      lines := lines + [Line(i, (i + 1) % segments)];
      i := i + 1;
    }
  }

  /** The triangles of the filled fan, in the order they are drawn. */
  method FanTriangles(segments: nat) returns (tris: seq<Triangle>)
    ensures |tris| == segments
    ensures forall i :: 0 <= i < segments ==> tris[i] == Triangle(i, Next(i, segments))
  {
    tris := [];
    for i := 0 to segments
      invariant |tris| == i
      invariant forall j :: 0 <= j < i ==> tris[j] == Triangle(j, Next(j, segments))
    {
      tris := tris + [Triangle(i, (i + 1) % segments)];
    }
  }

  /** The polygons the window draws, with 64 points for an outline and 32
      for a filled dot, close. */
  lemma DrawnPolygonsClose(segments: nat)
    requires segments == OutlineSegments || segments == FillSegments
    ensures Walk(segments, segments) == 0
    ensures forall k :: 0 <= k < segments ==> Walk(segments, k) == k
  {
    PolygonCloses(segments);
  }

  /** Each point starts one edge (its own) and ends exactly one edge (that
      of the point before it). */
  lemma EachPointStartsAndEndsOnce(segments: nat, p: nat)
    requires p < segments
    ensures forall i :: 0 <= i < segments ==> (Next(i, segments) == p <==> i == Prev(p, segments))
  {
    forall i | 0 <= i < segments
      ensures Next(i, segments) == p <==> i == Prev(p, segments)
    {
      NextInjective(segments, i, Prev(p, segments));
    }
  }

  /** Distinct points have distinct successors. */
  lemma NextInjective(segments: nat, i: nat, j: nat)
    requires i < segments && j < segments
    ensures Next(i, segments) == Next(j, segments) ==> i == j
  {
  }

  /** The point reached from point 0 after following `k` edges. */
  function Walk(segments: nat, k: nat): (p: nat)
    requires segments > 0
    ensures p < segments
  {
    if k == 0 then 0 else Next(Walk(segments, k - 1), segments)
  }

  /** Within one lap, following `k` edges from point 0 reaches point `k`. */
  lemma {:induction false} WalkWithinLap(segments: nat, k: nat)
    requires k < segments
    ensures Walk(segments, k) == k
  {
    if k > 0 {
      WalkWithinLap(segments, k - 1);
    }
  }

  /** The polygon closes: walking its edges from point 0 visits every point
      once, in index order, and is back at point 0 after `segments` edges. */
  lemma PolygonCloses(segments: nat)
    requires segments > 0
    ensures Walk(segments, segments) == 0
    ensures forall k :: 0 <= k < segments ==> Walk(segments, k) == k
  {
    WalkWithinLap(segments, segments - 1);
    forall k | 0 <= k < segments
      ensures Walk(segments, k) == k
    {
      WalkWithinLap(segments, k);
    }
  }
}
