/**
 * The overlay renderer (`MarkerRenderer`): it owns the line material, draws the visible
 * markers of a list in order and then the editor's preview marker, and turns each marker's
 * percent-of-screen position and radius into pixels before handing it to the crosshair or
 * circle geometry. The segments of one `DrawMarkers` call are returned in submission order.
 */
module Rendering {
  import opened Wrappers
  import opened Unity
  import opened Drawing
  import opened Markers
  import opened CrossLinesGeometry
  import opened CircleGeometry

  /**
   * What a frame takes from the host: the screen size in pixels, the trigonometry, and
   * the angle (degrees) of the marked main graduation that circles are built with.
   */
  datatype Frame = Frame(screenWidth: int, screenHeight: int, math: Mathf, mainGraduationAngle: real)

  /** `percent` percent of `whole`, in the order the source computes it. */
  function Percent(whole: real, percent: real): real {
    whole * percent / 100.0
  }

  /** The marker's centre in pixels: its position is in percent of the screen width and height. */
  function ScreenPosition(m: MarkerData, f: Frame): Vec2 {
    Vec2(Percent(f.screenWidth as real, m.positionX), Percent(f.screenHeight as real, m.positionY))
  }

  /** A circle's radius in pixels: percent of the screen width, whatever the height. */
  function PixelRadius(m: MarkerData, f: Frame): real {
    Percent(f.screenWidth as real, m.radius)
  }

  /** The circle drawn for `m`: at its pixel centre and radius, with its colour and graduations. */
  function CircleFor(m: MarkerData, f: Frame): CircleMarker {
    CircleMarker(ScreenPosition(m, f), PixelRadius(m, f), m.color, m.showGraduations,
                 f.mainGraduationAngle, m.mainGraduationDivisions, m.subGraduationDivisions, f.math)
  }

  /**
   * `DrawMarker`: dispatch on the marker's type. A crosshair is two segments in the
   * marker's colour; a circle starts with the 128 pairs of its 64-chord outline.
   */
  function DrawMarker(m: MarkerData, f: Frame): (r: seq<Segment>)
    ensures m.markerType == CrossLines ==> |r| == 2 && r[0].color == r[1].color == m.color
    ensures m.markerType == Circle ==> |r| >= 128 && r[..128] == Flatten(CircleFor(m, f).CircleLines())
  {
    match m.markerType
    case CrossLines =>
      CrossLinesMarker(ScreenPosition(m, f), m.color).Draw(f.screenWidth as real, f.screenHeight as real)
    case Circle =>
      var c := CircleFor(m, f);
      OutlineFirst(c);
      Flatten(c.DrawingLines())
  }

  /** A circle's drawing starts with the 128 pairs of its outline. */
  lemma OutlineFirst(c: CircleMarker)
    ensures |Flatten(c.DrawingLines())| >= 128
    ensures Flatten(c.DrawingLines())[..128] == Flatten(c.CircleLines())
  {
    var rest := c.DrawingLines()[64..];
    c.CircleShape();
    c.CircleFlatCount(64);
    assert c.CircleLines()[..64] == c.CircleLines();
    assert c.DrawingLines() == c.CircleLines() + rest;
    FlattenAppend(c.CircleLines(), rest);
  }

  /** What marker `m` contributes to the list pass: its drawing if visible, nothing otherwise. */
  function Shown(m: MarkerData, f: Frame): seq<Segment> {
    if m.visible then DrawMarker(m, f) else []
  }

  /** Each marker's contribution, one block per marker. */
  function ShownBlocks(ms: seq<MarkerData>, f: Frame): seq<seq<Segment>> {
    seq(|ms|, i requires 0 <= i < |ms| => Shown(ms[i], f))
  }

  /** The list pass of `DrawMarkers`: each marker's contribution, in list order. */
  function VisiblePass(ms: seq<MarkerData>, f: Frame): seq<Segment> {
    Concat(ShownBlocks(ms, f))
  }

  /** What one `DrawMarkers` call submits, given whether the material exists, the list and the preview. */
  function FrameSegments(hasMaterial: bool, markers: Option<seq<MarkerData>>,
                         preview: Option<MarkerData>, f: Frame): seq<Segment> {
    if !hasMaterial || markers.None? then []
    else
      VisiblePass(markers.value, f)
      + (if preview.Some? && preview.value.visible then DrawMarker(preview.value, f) else [])
  }

  // ---------------------------------------------------------------------------
  // A reference reading of the list pass: keep the visible markers, then draw them all.

  /** The visible markers of `ms`, in their order. */
  function Visible(ms: seq<MarkerData>): (r: seq<MarkerData>)
    ensures |r| <= |ms|
    ensures forall d <- r :: d.visible && d in ms
    ensures forall d <- ms :: d.visible ==> d in r
  {
    if ms == [] then []
    else
      var last := ms[|ms| - 1];
      Visible(ms[..|ms| - 1]) + (if last.visible then [last] else [])
  }

  /** Every marker of `ds` drawn, one after the other. */
  function DrawAll(ds: seq<MarkerData>, f: Frame): seq<Segment> {
    Concat(seq(|ds|, i requires 0 <= i < |ds| => DrawMarker(ds[i], f)))
  }

  lemma VisiblePassPush(ms: seq<MarkerData>, f: Frame)
    requires ms != []
    ensures VisiblePass(ms, f) == VisiblePass(ms[..|ms| - 1], f) + Shown(ms[|ms| - 1], f)
  {
    var n := |ms| - 1;
    var shown := ShownBlocks(ms, f);
    assert shown[..n] == ShownBlocks(ms[..n], f);
    ConcatPush(shown, n);
    assert shown[..n + 1] == shown;
  }

  lemma DrawAllPush(ds: seq<MarkerData>, d: MarkerData, f: Frame)
    ensures DrawAll(ds + [d], f) == DrawAll(ds, f) + DrawMarker(d, f)
  {
    var all := ds + [d];
    var drawn := seq(|all|, i requires 0 <= i < |all| => DrawMarker(all[i], f));
    var drawnBefore := seq(|ds|, i requires 0 <= i < |ds| => DrawMarker(ds[i], f));
    assert drawn[..|ds|] == drawnBefore;
    ConcatPush(drawn, |ds|);
    assert drawn[..|ds| + 1] == drawn;
  }

  /** The list pass draws exactly the visible markers, in list order. */
  lemma {:induction false} VisiblePassIsFilterThenDraw(ms: seq<MarkerData>, f: Frame)
    ensures VisiblePass(ms, f) == DrawAll(Visible(ms), f)
  {
    if ms != [] {
      var n := |ms| - 1;
      VisiblePassIsFilterThenDraw(ms[..n], f);
      VisiblePassPush(ms, f);
      if ms[n].visible {
        DrawAllPush(Visible(ms[..n]), ms[n], f);
      } else {
        assert Visible(ms) == Visible(ms[..n]) + [] == Visible(ms[..n]);
        assert VisiblePass(ms, f) == VisiblePass(ms[..n], f) + [] == VisiblePass(ms[..n], f);
      }
    }
  }

  lemma VisiblePassAppend(a: seq<MarkerData>, b: seq<MarkerData>, f: Frame)
    ensures VisiblePass(a + b, f) == VisiblePass(a, f) + VisiblePass(b, f)
  {
    assert ShownBlocks(a + b, f) == ShownBlocks(a, f) + ShownBlocks(b, f);
    ConcatAppend(ShownBlocks(a, f), ShownBlocks(b, f));
  }

  /** Hiding marker i draws the same frame as removing it from the list. */
  lemma HiddenMarkerIgnored(ms: seq<MarkerData>, i: nat, f: Frame)
    requires i < |ms| && !ms[i].visible
    ensures VisiblePass(ms, f) == VisiblePass(ms[..i] + ms[i + 1..], f)
  {
    var hidden := [ms[i]];
    assert ms == ms[..i] + hidden + ms[i + 1..];
    assert VisiblePass(hidden, f) == [] by {
      var blocks := ShownBlocks(hidden, f);
      assert |blocks| == 1 && blocks[0] == [];
      assert blocks[..0] == [];
      assert Concat(blocks) == Concat(blocks[..0]) + blocks[0];
    }
    VisiblePassAppend(ms[..i] + hidden, ms[i + 1..], f);
    VisiblePassAppend(ms[..i], hidden, f);
    VisiblePassAppend(ms[..i], ms[i + 1..], f);
  }

  /**
   * Nothing at all without a material or a list; otherwise the list pass, then the preview
   * last, and the preview only when there is one and it is visible.
   */
  lemma FrameOrder(hasMaterial: bool, markers: Option<seq<MarkerData>>,
                   preview: Option<MarkerData>, f: Frame)
    ensures !hasMaterial || markers.None? ==> FrameSegments(hasMaterial, markers, preview, f) == []
    ensures hasMaterial && markers.Some? && preview.Some? && preview.value.visible ==>
      FrameSegments(hasMaterial, markers, preview, f)
        == DrawAll(Visible(markers.value), f) + DrawMarker(preview.value, f)
    ensures hasMaterial && markers.Some? && (preview.None? || !preview.value.visible) ==>
      FrameSegments(hasMaterial, markers, preview, f) == DrawAll(Visible(markers.value), f)
  {
    if markers.Some? {
      VisiblePassIsFilterThenDraw(markers.value, f);
    }
  }

  // ---------------------------------------------------------------------------
  // Percent to pixels, and dispatch

  /** A position between 0 and 100 percent lands on the screen. */
  lemma PositionOnScreen(m: MarkerData, f: Frame)
    requires 0 <= f.screenWidth && 0 <= f.screenHeight
    ensures 0.0 <= m.positionX <= 100.0 ==> 0.0 <= ScreenPosition(m, f).x <= f.screenWidth as real
    ensures 0.0 <= m.positionY <= 100.0 ==> 0.0 <= ScreenPosition(m, f).y <= f.screenHeight as real
  {
    if 0.0 <= m.positionX <= 100.0 {
      PercentOf(f.screenWidth as real, m.positionX);
    }
    if 0.0 <= m.positionY <= 100.0 {
      PercentOf(f.screenHeight as real, m.positionY);
    }
  }

  /** 50 percent is the middle of the screen; a circle's pixel radius depends on the width only. */
  lemma PercentScale(m: MarkerData, f: Frame, height: int)
    ensures m.positionX == 50.0 ==> ScreenPosition(m, f).x == f.screenWidth as real / 2.0
    ensures m.positionY == 50.0 ==> ScreenPosition(m, f).y == f.screenHeight as real / 2.0
    ensures PixelRadius(m, f.(screenHeight := height)) == PixelRadius(m, f)
    ensures m.radius == 100.0 ==> PixelRadius(m, f) == f.screenWidth as real
  {
  }

  lemma PercentOf(whole: real, percent: real)
    requires 0.0 <= whole && 0.0 <= percent <= 100.0
    ensures 0.0 <= Percent(whole, percent) <= whole
  {
    assert 0.0 <= whole * percent;
    assert whole * (100.0 - percent) >= 0.0;
  }

  /**
   * A crosshair marker draws two segments in its colour: a horizontal one across the
   * screen at its pixel height and a vertical one down the screen at its pixel abscissa.
   */
  lemma CrossLinesDispatch(m: MarkerData, f: Frame)
    requires m.markerType == CrossLines
    ensures var r := DrawMarker(m, f);
      var p := ScreenPosition(m, f);
      r == [ Segment(Vec2(0.0, p.y), Vec2(f.screenWidth as real, p.y), m.color),
             Segment(Vec2(p.x, 0.0), Vec2(p.x, f.screenHeight as real), m.color) ]
  {
  }

  /**
   * A circle marker draws what a circle built from its pixel centre, pixel radius, colour and
   * division counts draws; in particular the 64-chord outline around its pixel centre.
   */
  lemma CircleDispatch(m: MarkerData, f: Frame)
    requires m.markerType == Circle
    ensures var c := CircleFor(m, f);
      DrawMarker(m, f) == Flatten(c.DrawingLines())
      && c.center == ScreenPosition(m, f) && c.radius == PixelRadius(m, f)
      && c.color == m.color && c.showGraduations == m.showGraduations
      && c.mainGraduationDivisions == m.mainGraduationDivisions
      && c.subGraduationDivisions == m.subGraduationDivisions
      && |Flatten(c.DrawingLines())| >= 128
      && Flatten(c.DrawingLines())[..128] == Flatten(c.CircleLines())
  {
    OutlineFirst(CircleFor(m, f));
  }

  /**
   * A fresh marker switched to a circle draws a plain circle: 64 chords and the centre
   * cross, 132 vertex pairs, no graduations.
   */
  lemma DefaultCircleIsPlain(f: Frame)
    ensures var m := Defaults.(markerType := Circle);
      |DrawMarker(m, f)| == 132
      && DrawMarker(m, f) == Flatten(CircleFor(m, f).CircleLines() + CircleFor(m, f).CenterLines())
  {
    var m := Defaults.(markerType := Circle);
    CircleFor(m, f).PlainCircle();
  }

  /** A fresh marker draws a white crosshair through the middle of the screen. */
  lemma DefaultIsCenteredCrosshair(f: Frame)
    ensures var w := f.screenWidth as real;
      var h := f.screenHeight as real;
      DrawMarker(Defaults, f)
        == [ Segment(Vec2(0.0, h / 2.0), Vec2(w, h / 2.0), White),
             Segment(Vec2(w / 2.0, 0.0), Vec2(w / 2.0, h), White) ]
  {
    CrossLinesDispatch(Defaults, f);
  }

  // ---------------------------------------------------------------------------
  // The renderer object

  /** The GPU line material; only its identity matters here. */
  class Material {
    constructor () {}
  }

  class MarkerRenderer {
    var lineMaterial: Material?

    /** A renderer starts with its material created. */
    constructor ()
      ensures lineMaterial != null && fresh(lineMaterial)
    {
      lineMaterial := null;
      new;
      CreateLineMaterial();
    }

    /** Creates the material when there is none; an existing one is kept. */
    method CreateLineMaterial()
      modifies this
      ensures lineMaterial != null
      ensures old(lineMaterial) != null ==> lineMaterial == old(lineMaterial)
      ensures old(lineMaterial) == null ==> fresh(lineMaterial)
    {
      if lineMaterial == null {
        lineMaterial := new Material();
      }
    }

    /**
     * The segments one frame submits: nothing without a material or a list; otherwise the
     * visible markers of the list in order, then the preview if there is one and it is visible.
     */
    method DrawMarkers(markers: Option<seq<VisualMarker>>, previewMarker: VisualMarker?, f: Frame)
      returns (pairs: seq<Segment>)
      ensures pairs == FrameSegments(lineMaterial != null,
                                     if markers.Some? then Some(Snapshots(markers.value)) else None,
                                     if previewMarker == null then None else Some(previewMarker.Data()),
                                     f)
    {
      pairs := [];
      if lineMaterial == null || markers.None? {
        return;
      }
      var list := markers.value;
      ghost var data := Snapshots(list);
      ghost var blocks := ShownBlocks(data, f);
      for i := 0 to |list|
        invariant pairs == Concat(blocks[..i])
      {
        ConcatPush(blocks, i);
        var marker := list[i];
        if !marker.visible {
          continue;
        }
        pairs := pairs + DrawMarker(marker.Data(), f);
      }
      assert blocks[..|list|] == blocks;
      if previewMarker != null && previewMarker.visible {
        pairs := pairs + DrawMarker(previewMarker.Data(), f);
      }
    }

    /** Releases the material; afterwards there is none, whatever the state before. */
    method Dispose()
      modifies this
      ensures lineMaterial == null
    {
      if lineMaterial != null {
        lineMaterial := null;
      }
    }

    /** Once disposed, a renderer draws nothing, and disposing it again keeps it so. */
    method DisposeThenDraw(markers: Option<seq<VisualMarker>>, previewMarker: VisualMarker?, f: Frame)
      returns (pairs: seq<Segment>)
      modifies this
      ensures lineMaterial == null && pairs == []
    {
      Dispose();
      Dispose();
      pairs := DrawMarkers(markers, previewMarker, f);
    }
  }
}
