/**
 * The crosshair overlay (`CrossLinesMarker`): one horizontal and one vertical line
 * through the marker's centre, each spanning the whole screen, each a single
 * one-pixel vertex pair. The screen size, read from the host in the original, is a
 * parameter here.
 */
module CrossLinesGeometry {
  import opened Unity
  import Drawing

  datatype CrossLinesMarker = CrossLinesMarker(center: Vec2, color: Color) {

    /**
     * A one-pixel line: a single `GL.LINES` vertex pair, the same one the circle's
     * thick-line primitive submits for a line of thickness 1.
     */
    function DrawLine(start: Vec2, end: Vec2, color: Color): (r: Segment)
      ensures [r] == Drawing.Pairs(Drawing.Line(start, end, color, 1))
    {
      Drawing.PairsShape(Drawing.Line(start, end, color, 1));
      assert Drawing.Shift(start, 0) == start && Drawing.Shift(end, 0) == end;
      Segment(start, end, color)
    }

    /**
     * Exactly two lines in the marker's colour: first a horizontal one at the centre's
     * height from the left edge to the right edge, then a vertical one at the centre's
     * abscissa from the bottom edge to the top edge.
     */
    function Draw(screenWidth: real, screenHeight: real): (r: seq<Segment>)
      ensures |r| == 2
      ensures r[0].start.y == r[0].end.y == center.y
      ensures r[0].start.x == 0.0 && r[0].end.x == screenWidth
      ensures r[1].start.x == r[1].end.x == center.x
      ensures r[1].start.y == 0.0 && r[1].end.y == screenHeight
      ensures r[0].color == r[1].color == color
    {
      [ DrawLine(Vec2(0.0, center.y), Vec2(screenWidth, center.y), color),
        DrawLine(Vec2(center.x, 0.0), Vec2(center.x, screenHeight), color) ]
    }

    /**
     * The two lines cross at the centre: when the centre is on the screen, it lies on both
     * segments, at the fraction of the width (resp. height) given by its coordinate.
     */
    lemma CrossesAtCenter(screenWidth: real, screenHeight: real)
      requires 0.0 <= center.x <= screenWidth && 0.0 < screenWidth
      requires 0.0 <= center.y <= screenHeight && 0.0 < screenHeight
      ensures var r := Draw(screenWidth, screenHeight);
        var s := center.x / screenWidth;
        var t := center.y / screenHeight;
        0.0 <= s <= 1.0 && 0.0 <= t <= 1.0
        && Lerp(r[0].start, r[0].end, s) == center
        && Lerp(r[1].start, r[1].end, t) == center
    {
      var s := center.x / screenWidth;
      var t := center.y / screenHeight;
      assert screenWidth * s == center.x;
      assert screenHeight * t == center.y;
    }
  }

  /** The point a fraction `t` of the way from `a` to `b`. */
  function Lerp(a: Vec2, b: Vec2, t: real): Vec2 {
    a.Plus(b.Minus(a).Times(t))
  }
}
