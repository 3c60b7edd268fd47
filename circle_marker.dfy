/**
 * The circle overlay (`CircleMarker`): a 64-chord outline, a small centre cross, and
 * optionally main and sub graduation ticks with dashed spokes from the centre to each
 * main graduation. Each `Draw...` method returns the vertex pairs it submits, in order;
 * the `...Lines` functions say which thick lines those pairs come from.
 */
module CircleGeometry {
  import opened Unity
  import opened Drawing

  function Abs(x: real): real {
    if x < 0.0 then -x else x
  }

  function Min(a: real, b: real): real {
    if a <= b then a else b
  }

  // ---------------------------------------------------------------------------
  // The dash walk of `DrawDottedLine`: runs of 4 drawn, 4 skipped, starting with a
  // drawn run, the last run cut at the end of the line.

  const DashLength: real := 4.0
  const GapLength: real := 4.0

  /** The number of dashes on a line of length `total`: one per started period of 8. */
  function DashCount(total: real): nat {
    if total <= 0.0 then 0 else (-((-total / 8.0).Floor)) as nat
  }

  /** Dash `j` starts at offset 8j; there is one exactly when 8j is short of the length. */
  lemma DashCountBounds(total: real)
    ensures total <= 0.0 ==> DashCount(total) == 0
    ensures total > 0.0 ==> 8.0 * (DashCount(total) - 1) as real < total <= 8.0 * DashCount(total) as real
    ensures forall k: nat :: k < DashCount(total) <==> DashStart(k) < total
  {
    if total > 0.0 {
      var f := (-total / 8.0).Floor;
      assert f as real <= -total / 8.0 < f as real + 1.0;
    }
  }

  /** Where dash `j` starts and ends, as distances from the start of the line. */
  function DashStart(j: nat): real {
    8.0 * j as real
  }

  function DashEnd(j: nat, total: real): real {
    Min(DashStart(j) + DashLength, total)
  }

  /** Every dash lies on the line, is not empty, and is followed by a gap of 4 before the next. */
  lemma DashesOnTheLine(total: real, j: nat)
    requires j < DashCount(total)
    ensures 0.0 <= DashStart(j) < DashEnd(j, total) <= total
    ensures DashEnd(j, total) - DashStart(j) <= DashLength
    ensures j + 1 < DashCount(total) ==> DashStart(j + 1) - DashEnd(j, total) == GapLength
  {
    DashCountBounds(total);
  }

  /** The summed length of the first `k` dashes. */
  function DashTotal(total: real, k: nat): real {
    if k == 0 then 0.0 else DashTotal(total, k - 1) + (DashEnd(k - 1, total) - DashStart(k - 1))
  }

  /** The first k dashes cover the line up to the end of dash k-1, less the k-1 gaps. */
  lemma {:induction false} DashTotalSoFar(total: real, k: nat)
    requires 1 <= k <= DashCount(total)
    ensures DashTotal(total, k) == DashEnd(k - 1, total) - GapLength * (k - 1) as real
  {
    DashCountBounds(total);
    if k > 1 {
      DashTotalSoFar(total, k - 1);
      assert DashEnd(k - 2, total) == DashStart(k - 2) + DashLength;
    }
  }

  /** All dashes together never cover more than the line, and a line of length <= 0 has none. */
  lemma DashTotalBound(total: real)
    ensures DashTotal(total, DashCount(total)) <= DashLength * DashCount(total) as real
    ensures total > 0.0 ==> DashTotal(total, DashCount(total)) <= total
    ensures total <= 0.0 ==> DashTotal(total, DashCount(total)) == 0.0
  {
    DashCountBounds(total);
    var n := DashCount(total);
    if n >= 1 {
      DashTotalSoFar(total, n);
      DashesOnTheLine(total, n - 1);
      var m := (n - 1) as real;
      assert DashTotal(total, n) == DashEnd(n - 1, total) - 4.0 * m;
      assert DashTotal(total, n) <= 4.0 * m + 4.0;
    }
  }

  /** Dash `j` of the dotted line from `start` to `end`, drawn `thickness` pixels thick. */
  function Dash(start: Vec2, end: Vec2, color: Color, thickness: int, math: Mathf, j: nat): Line {
    var direction := Normalized(end.Minus(start), math);
    var total := Distance(start, end, math);
    Line(start.Plus(direction.Times(DashStart(j))), start.Plus(direction.Times(DashEnd(j, total))), color, thickness)
  }

  /** The dashes of the dotted line from `start` to `end`, in drawing order. */
  function DashLines(start: Vec2, end: Vec2, color: Color, thickness: int, math: Mathf): seq<Line> {
    seq(DashCount(Distance(start, end, math)), j requires 0 <= j => Dash(start, end, color, thickness, math, j))
  }

  // ---------------------------------------------------------------------------
  // The circle marker

  /**
   * A circle marker: its fields are fixed when it is built and never change, so the model
   * keeps it as a value. `math` stands for the engine's trigonometry.
   */
  datatype CircleMarker = CircleMarker(
    center: Vec2,
    radius: real,
    color: Color,
    showGraduations: bool,
    mainGraduationAngle: real,      // degrees
    mainGraduationDivisions: int,
    subGraduationDivisions: int,
    math: Mathf)
  {
    /** The number of chords of the outline, fixed by the constructor. */
    const segments: int := 64

    /** The point at `angle` (radians) and distance `r` from the centre. */
    function PointAt(angle: real, r: real): Vec2 {
      center.Plus(Vec2(math.Cos(angle) * r, math.Sin(angle) * r))
    }

    // --- outline

    /** The angle between two chords, in degrees: 360 / 64. */
    function AngleStep(): real {
      360.0 / segments as real
    }

    function ChordAngle(i: int): real {
      i as real * AngleStep() * Deg2Rad
    }

    function Chord(i: int): Line {
      Line(PointAt(ChordAngle(i), radius), PointAt(ChordAngle(i + 1), radius), color, 2)
    }

    function CircleLines(): seq<Line> {
      seq(segments, i requires 0 <= i => Chord(i))
    }

    /**
     * The outline is 64 chords of thickness 2; chord i runs from angle i*360/64 to
     * (i+1)*360/64 degrees, each chord starts where the previous one ended, and the last
     * ends at 360 degrees, which is where the first starts when cos and sin have period 360.
     */
    lemma CircleShape()
      ensures |CircleLines()| == 64
      ensures forall i :: 0 <= i < 64 ==>
        (CircleLines()[i].thickness == 2
         && CircleLines()[i].start == PointAt(i as real * 5.625 * Deg2Rad, radius)
         && CircleLines()[i].end == PointAt((i + 1) as real * 5.625 * Deg2Rad, radius))
      ensures forall i :: 0 < i < 64 ==> CircleLines()[i].start == CircleLines()[i - 1].end
      ensures CircleLines()[63].end == PointAt(360.0 * Deg2Rad, radius)
      ensures math.Cos(360.0 * Deg2Rad) == math.Cos(0.0) && math.Sin(360.0 * Deg2Rad) == math.Sin(0.0)
        ==> CircleLines()[63].end == CircleLines()[0].start
    {
      assert AngleStep() == 5.625;
      assert ChordAngle(64) == 360.0 * Deg2Rad;
    }

    method DrawCircle() returns (pairs: seq<Segment>)
      ensures pairs == Flatten(CircleLines())
    {
      pairs := [];
      for i := 0 to segments
        invariant pairs == Flatten(CircleLines()[..i])
      {
        var chord := DrawLine(PointAt(ChordAngle(i), radius), PointAt(ChordAngle(i + 1), radius), color, 2);
        assert CircleLines()[..i + 1] == CircleLines()[..i] + [Chord(i)];
        FlattenPush(CircleLines()[..i], Chord(i));
        pairs := pairs + chord;
      }
      assert CircleLines()[..segments] == CircleLines();
    }

    // --- centre cross

    function CenterLines(): seq<Line> {
      [Line(center.Plus(Vec2(-8.0, 0.0)), center.Plus(Vec2(8.0, 0.0)), color, 2),
       Line(center.Plus(Vec2(0.0, 8.0)), center.Plus(Vec2(0.0, -8.0)), color, 2)]
    }

    /** Two lines of thickness 2 and half-length 8 centred on the centre: horizontal, then vertical. */
    lemma CenterCross()
      ensures |CenterLines()| == 2
      ensures forall l :: l in CenterLines() ==>
        l.thickness == 2 && l.color == color && l.start.Plus(l.end).Times(0.5) == center
      ensures CenterLines()[0].start.y == CenterLines()[0].end.y == center.y
        && CenterLines()[0].end.x - CenterLines()[0].start.x == 16.0
      ensures CenterLines()[1].start.x == CenterLines()[1].end.x == center.x
        && CenterLines()[1].start.y - CenterLines()[1].end.y == 16.0
    {
    }

    method DrawCenter() returns (pairs: seq<Segment>)
      ensures pairs == Flatten(CenterLines())
    {
      var crossSize := 8.0;
      var leftPoint := center.Plus(Vec2(-crossSize, 0.0));
      var rightPoint := center.Plus(Vec2(crossSize, 0.0));
      var horizontal := DrawLine(leftPoint, rightPoint, color, 2);
      var topPoint := center.Plus(Vec2(0.0, crossSize));
      var bottomPoint := center.Plus(Vec2(0.0, -crossSize));
      var vertical := DrawLine(topPoint, bottomPoint, color, 2);
      pairs := horizontal + vertical;
      FlattenPush([], CenterLines()[0]);
      FlattenPush([CenterLines()[0]], CenterLines()[1]);
      assert [CenterLines()[0]] + [CenterLines()[1]] == CenterLines();
    }

    // --- graduations

    function MainSize(): real
      requires mainGraduationDivisions > 1
    {
      360.0 / mainGraduationDivisions as real
    }

    /** The angle of main graduation `i`, in radians. */
    function MainAngle(i: int): real
      requires mainGraduationDivisions > 1
    {
      i as real * MainSize() * Deg2Rad
    }

    /** Main graduation `i` is the marked one: within 0.1 rad of `mainGraduationAngle`. */
    predicate IsMarked(i: int)
      requires mainGraduationDivisions > 1
    {
      Abs(MainAngle(i) - mainGraduationAngle * Deg2Rad) < 0.1
    }

    function MainTickLength(i: int): real
      requires mainGraduationDivisions > 1
    {
      if IsMarked(i) then 25.0 else 20.0
    }

    function MainTick(i: int): Line
      requires mainGraduationDivisions > 1
    {
      var angle := MainAngle(i);
      Line(PointAt(angle, radius), PointAt(angle, radius - MainTickLength(i)), color, if IsMarked(i) then 3 else 2)
    }

    /** The number of sub-ticks after each main tick. */
    function SubCount(): nat {
      if subGraduationDivisions > 1 then subGraduationDivisions - 1 else 0
    }

    function SubAngle(i: int, j: int): real
      requires mainGraduationDivisions > 1 && subGraduationDivisions > 1
    {
      MainAngle(i) + j as real * (MainSize() / subGraduationDivisions as real) * Deg2Rad
    }

    function SubTick(i: int, j: int): Line
      requires mainGraduationDivisions > 1 && subGraduationDivisions > 1
    {
      Line(PointAt(SubAngle(i, j), radius), PointAt(SubAngle(i, j), radius - 10.0), color, 1)
    }

    /** The sub-ticks after main tick `i`: j = 1 .. s-1, none when s <= 1. */
    function SubTicks(i: int): (r: seq<Line>)
      requires mainGraduationDivisions > 1
      ensures |r| == SubCount()
    {
      if subGraduationDivisions > 1 then seq(subGraduationDivisions - 1, j requires 0 <= j => SubTick(i, j + 1))
      else []
    }

    /** The lines main graduation `i` contributes: its tick, then its sub-ticks. */
    function GraduationBlock(i: int): (r: seq<Line>)
      requires mainGraduationDivisions > 1
      ensures |r| == 1 + SubCount()
    {
      [MainTick(i)] + SubTicks(i)
    }

    /** One block per main graduation, in order of angle. */
    function GraduationBlocks(): (r: seq<seq<Line>>)
      requires mainGraduationDivisions > 1
      ensures |r| == mainGraduationDivisions
    {
      seq(mainGraduationDivisions, i requires 0 <= i && mainGraduationDivisions > 1 => GraduationBlock(i))
    }

    function GraduationLines(): seq<Line> {
      if mainGraduationDivisions <= 1 then [] else Concat(GraduationBlocks())
    }

    /** A marked main tick is 25 long and 3 thick; any other is 20 long and 2 thick; sub-ticks are 10 long and 1 thick. */
    lemma TickSizes(i: int, j: int)
      requires mainGraduationDivisions > 1
      ensures IsMarked(i) ==> MainTick(i).thickness == 3 && MainTick(i).end == PointAt(MainAngle(i), radius - 25.0)
      ensures !IsMarked(i) ==> MainTick(i).thickness == 2 && MainTick(i).end == PointAt(MainAngle(i), radius - 20.0)
      ensures MainTick(i).start == PointAt(MainAngle(i), radius)
      ensures subGraduationDivisions > 1 ==>
        SubTick(i, j).thickness == 1 && SubTick(i, j).end == PointAt(SubAngle(i, j), radius - 10.0)
    {
    }

    /** Where the block of main graduation `i` starts: after i blocks of 1 + SubCount() lines. */
    function BlockStart(i: int): nat {
      if i <= 0 then 0 else BlockStart(i - 1) + 1 + SubCount()
    }

    lemma {:induction false} BlockStartIsProduct(i: nat)
      ensures BlockStart(i) == i * (1 + SubCount())
    {
      if i > 0 {
        BlockStartIsProduct(i - 1);
        assert (i - 1) * (1 + SubCount()) + 1 + SubCount() == i * (1 + SubCount());
      }
    }

    lemma {:induction false} BlockOffset(i: nat)
      requires mainGraduationDivisions > 1 && i <= mainGraduationDivisions
      ensures |Concat(GraduationBlocks()[..i])| == BlockStart(i)
    {
      if i > 0 {
        BlockOffset(i - 1);
        ConcatPush(GraduationBlocks(), i - 1);
      }
    }

    /**
     * The graduations are n blocks of 1 + SubCount() lines, block i starting at line
     * BlockStart(i), which is i * (1 + SubCount()): main tick i, then its sub-ticks.
     */
    lemma GraduationAt(i: nat, j: nat)
      requires mainGraduationDivisions > 1 && i < mainGraduationDivisions && j <= SubCount()
      ensures BlockStart(i) + j < |GraduationLines()|
      ensures GraduationLines()[BlockStart(i) + j] == GraduationBlock(i)[j]
    {
      BlockOffset(i);
      ConcatAt(GraduationBlocks(), i, j);
    }

    /** A block is its main tick followed by sub-ticks 1 .. SubCount(), in order. */
    lemma BlockContents(i: int, j: nat)
      requires mainGraduationDivisions > 1 && j <= SubCount()
      ensures j == 0 ==> GraduationBlock(i)[j] == MainTick(i)
      ensures j > 0 ==> GraduationBlock(i)[j] == SubTick(i, j)
    {
      if j > 0 {
        assert GraduationBlock(i)[j] == SubTicks(i)[j - 1];
      }
    }

    /** With n > 1 main divisions: n main ticks, each with SubCount() sub-ticks; with n <= 1 none. */
    lemma GraduationCount()
      ensures mainGraduationDivisions <= 1 ==> GraduationLines() == []
      ensures mainGraduationDivisions > 1 ==>
        |GraduationLines()| == mainGraduationDivisions * (1 + SubCount())
    {
      if mainGraduationDivisions > 1 {
        BlockOffset(mainGraduationDivisions);
        BlockStartIsProduct(mainGraduationDivisions);
        assert GraduationBlocks()[..mainGraduationDivisions] == GraduationBlocks();
      }
    }

    method DrawGraduations() returns (pairs: seq<Segment>)
      ensures pairs == Flatten(GraduationLines())
    {
      pairs := [];
      if mainGraduationDivisions <= 1 {
        return;
      }
      ghost var blocks := GraduationBlocks();
      for i := 0 to mainGraduationDivisions
        invariant pairs == Flatten(Concat(blocks[..i]))
      {
        var block := DrawGraduation(i);
        pairs := pairs + block;
        ConcatPush(blocks, i);
        FlattenAppend(Concat(blocks[..i]), blocks[i]);
      }
      assert blocks[..mainGraduationDivisions] == blocks;
    }

    /** One pass of the loop of `DrawGraduations`: main tick `i`, then its sub-ticks. */
    method DrawGraduation(i: int) returns (pairs: seq<Segment>)
      requires mainGraduationDivisions > 1
      ensures pairs == Flatten(GraduationBlock(i))
    {
      var angle := MainAngle(i);
      var isMainMarked := IsMarked(i);
      var thickness := if isMainMarked then 3 else 2;
      pairs := DrawLine(PointAt(angle, radius), PointAt(angle, radius - MainTickLength(i)), color, thickness);
      assert pairs == Pairs(MainTick(i));
      var subTicks := DrawSubGraduations(i);
      pairs := pairs + subTicks;
      FlattenSingle(MainTick(i));
      FlattenAppend([MainTick(i)], SubTicks(i));
    }

    /** The inner loop of `DrawGraduations`: sub-ticks 1 .. s-1 after main graduation `i`. */
    method DrawSubGraduations(i: int) returns (pairs: seq<Segment>)
      requires mainGraduationDivisions > 1
      ensures pairs == Flatten(SubTicks(i))
    {
      pairs := [];
      if subGraduationDivisions > 1 {
        ghost var subTicks := SubTicks(i);
        for j := 1 to subGraduationDivisions
          invariant pairs == Flatten(subTicks[..j - 1])
        {
          var subTick := DrawLine(PointAt(SubAngle(i, j), radius), PointAt(SubAngle(i, j), radius - 10.0), color, 1);
          assert subTicks[..j] == subTicks[..j - 1] + [SubTick(i, j)];
          FlattenPush(subTicks[..j - 1], SubTick(i, j));
          pairs := pairs + subTick;
        }
        assert subTicks[..subGraduationDivisions - 1] == subTicks;
      }
    }

    // --- radial dashed lines

    /** The dashed spoke from the centre to main graduation `i` on the rim, 1 pixel thick. */
    function Spoke(i: int): seq<Line>
      requires mainGraduationDivisions > 1
    {
      DashLines(center, PointAt(MainAngle(i), radius), color, 1, math)
    }

    /** One dashed spoke per main graduation, in order. */
    function Spokes(): seq<seq<Line>>
      requires mainGraduationDivisions > 1
    {
      seq(mainGraduationDivisions, i requires 0 <= i && mainGraduationDivisions > 1 => Spoke(i))
    }

    function RadialLines(): seq<Line> {
      if mainGraduationDivisions <= 1 then []
      else Concat(Spokes())
    }

    /**
     * No spokes with at most one main division; otherwise the dashed spoke from the centre
     * to main graduation `i` on the rim sits, whole, right after the spokes before it.
     */
    lemma RadialSpokes(i: nat)
      ensures mainGraduationDivisions <= 1 ==> RadialLines() == []
      ensures 1 < mainGraduationDivisions && i < mainGraduationDivisions ==>
        var at := |Concat(Spokes()[..i])|;
        var dashes := DashLines(center, PointAt(MainAngle(i), radius), color, 1, math);
        at + |dashes| <= |RadialLines()| && RadialLines()[at..at + |dashes|] == dashes
    {
      if 1 < mainGraduationDivisions && i < mainGraduationDivisions {
        var blocks := Spokes();
        var before := Concat(blocks[..i]);
        assert blocks == blocks[..i + 1] + blocks[i + 1..];
        ConcatAppend(blocks[..i + 1], blocks[i + 1..]);
        ConcatPush(blocks, i);
        assert RadialLines() == before + blocks[i] + Concat(blocks[i + 1..]);
        assert RadialLines()[|before|..|before| + |blocks[i]|] == blocks[i];
      }
    }

    method DrawRadialLines() returns (pairs: seq<Segment>)
      ensures pairs == Flatten(RadialLines())
    {
      pairs := [];
      if mainGraduationDivisions <= 1 {
        return;
      }
      ghost var spokes := Spokes();
      for i := 0 to mainGraduationDivisions
        invariant pairs == Flatten(Concat(spokes[..i]))
      {
        var spoke := DrawDottedLine(center, PointAt(MainAngle(i), radius), color, 1);
        ConcatPush(spokes, i);
        FlattenAppend(Concat(spokes[..i]), Spoke(i));
        pairs := pairs + spoke;
      }
      assert spokes[..mainGraduationDivisions] == spokes;
    }

    /** `DrawDottedLine`: walk the line, alternately drawing 4 and skipping 4, cutting the last run. */
    method DrawDottedLine(start: Vec2, end: Vec2, color: Color, thickness: int) returns (pairs: seq<Segment>)
      ensures pairs == Flatten(DashLines(start, end, color, thickness, math))
    {
      var dashLength := 4.0;
      var gapLength := 4.0;
      var direction := Normalized(end.Minus(start), math);
      var totalLength := Distance(start, end, math);
      var currentLength := 0.0;
      var drawDash := true;

      ghost var dashes := DashLines(start, end, color, thickness, math);
      ghost var count := DashCount(totalLength);
      ghost var k: nat := 0;
      DashCountBounds(totalLength);
      pairs := [];
      while currentLength < totalLength
        invariant k <= count == |dashes|
        invariant drawDash ==> currentLength == DashStart(k)
                               || (currentLength == totalLength && DashStart(k) >= totalLength)
        invariant !drawDash ==> 1 <= k && currentLength == DashEnd(k - 1, totalLength)
        invariant pairs == Flatten(dashes[..k])
        decreases if drawDash then 2 * (count - k) else 2 * (count - k) + 1
      {
        var segmentLength := if drawDash then dashLength else gapLength;
        var remainingLength := totalLength - currentLength;
        if segmentLength > remainingLength {
          segmentLength := remainingLength;
        }
        if drawDash {
          var segmentStart := start.Plus(direction.Times(currentLength));
          var segmentEnd := start.Plus(direction.Times(currentLength + segmentLength));
          var dash := DrawLine(segmentStart, segmentEnd, color, thickness);
          assert dashes[..k + 1][..k] == dashes[..k];
          pairs := pairs + dash;
          k := k + 1;
        }
        currentLength := currentLength + segmentLength;
        drawDash := !drawDash;
      }
      assert dashes[..k] == dashes;
    }

    // --- the whole marker

    /** Outline and centre always; graduations then spokes only when graduations are shown. */
    function DrawingLines(): seq<Line> {
      CircleLines() + CenterLines() + (if showGraduations then GraduationLines() + RadialLines() else [])
    }

    method Draw() returns (pairs: seq<Segment>)
      ensures pairs == Flatten(DrawingLines())
    {
      var circle := DrawCircle();
      var cross := DrawCenter();
      pairs := circle + cross;
      FlattenAppend(CircleLines(), CenterLines());
      if showGraduations {
        var graduations := DrawGraduations();
        var spokes := DrawRadialLines();
        pairs := pairs + graduations + spokes;
        FlattenAppend(GraduationLines(), RadialLines());
        FlattenAppend(CircleLines() + CenterLines(), GraduationLines() + RadialLines());
      } else {
        assert CircleLines() + CenterLines() + [] == CircleLines() + CenterLines();
      }
    }

    /** Without graduations the marker is the outline and the cross: 66 lines, 132 vertex pairs. */
    lemma PlainCircle()
      requires !showGraduations
      ensures DrawingLines() == CircleLines() + CenterLines()
      ensures |DrawingLines()| == 66
      ensures |Flatten(DrawingLines())| == 132
    {
      assert CircleLines() + CenterLines() + [] == CircleLines() + CenterLines();
      FlattenAppend(CircleLines(), CenterLines());
      CircleShape();
      CircleFlatCount(64);
      assert CircleLines()[..64] == CircleLines();
      FlattenPush([], CenterLines()[0]);
      FlattenPush([CenterLines()[0]], CenterLines()[1]);
      assert [CenterLines()[0]] + [CenterLines()[1]] == CenterLines();
      PairsShape(CenterLines()[0]);
      PairsShape(CenterLines()[1]);
    }

    lemma {:induction false} CircleFlatCount(k: nat)
      requires k <= 64
      ensures |Flatten(CircleLines()[..k])| == 2 * k
    {
      if k > 0 {
        CircleFlatCount(k - 1);
        assert CircleLines()[..k] == CircleLines()[..k - 1] + [Chord(k - 1)];
        FlattenPush(CircleLines()[..k - 1], Chord(k - 1));
        PairsShape(Chord(k - 1));
      }
    }
  }
}
