// `getPolygonLines`: the obstacle polygon as a chain of edges.

module Polygon {
  import opened Geometry

  /**
   * `getPolygonLines` (lines 113-129). The source places vertex `i` on a circle
   * with cos/sin; here `vertex` supplies it. Vertices 0..segments are visited
   * and each one after the first closes an edge from the previous one.
   */
  method PolygonLines(segments: int, vertex: int -> Point) returns (lines: seq<Line>)
    ensures |lines| == if segments < 0 then 0 else segments
    ensures forall i :: 0 <= i < |lines| ==> lines[i] == Line(vertex(i), vertex(i + 1))
    ensures forall i :: 0 < i < |lines| ==> lines[i].p1 == lines[i - 1].p2
  {
    lines := [];
    var prevPoint: Option<Point> := None;
    var i := 0;
    while i <= segments
      invariant if segments < 0 then i == 0 else 0 <= i <= segments + 1
      invariant prevPoint == if i == 0 then None else Some(vertex(i - 1))
      invariant |lines| == if i == 0 then 0 else i - 1
      invariant forall j :: 0 <= j < |lines| ==> lines[j] == Line(vertex(j), vertex(j + 1))
      decreases segments - i
    {
      var p := vertex(i);
      if prevPoint.None? {
        prevPoint := Some(p);
      } else {
        lines := lines + [Line(prevPoint.value, p)];
        prevPoint := Some(p);
      }
      i := i + 1;
    }
    forall j | 0 < j < |lines|
      ensures lines[j].p1 == lines[j - 1].p2
    {
      var k := j - 1;
      assert lines[k] == Line(vertex(k), vertex(k + 1));
      assert k + 1 == j;
      assert lines[j] == Line(vertex(j), vertex(j + 1));
    }
  }
}
