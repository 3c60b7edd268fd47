/**
 * The line primitive the circle geometry draws with. A `Line` is one call that draws a
 * line of some thickness; what it submits to the `GL.LINES` stream is one vertex pair per
 * unit of thickness, the k-th pair shifted right by k pixels.
 */
module Drawing {
  import opened Unity

  /** One thick line: the arguments of a `DrawLine(start, end, color, thickness)` call. */
  datatype Line = Line(start: Vec2, end: Vec2, color: Color, thickness: int)

  /** `p` moved `k` pixels to the right. */
  function Shift(p: Vec2, k: int): Vec2 {
    Vec2(p.x + k as real, p.y)
  }

  /** The vertex pairs of `l`: `thickness` copies, the k-th shifted by k; none when thickness <= 0. */
  function Pairs(l: Line): seq<Segment> {
    PairsUpTo(l, l.thickness)
  }

  /** The first `t` vertex pairs of `l`. */
  function PairsUpTo(l: Line, t: int): seq<Segment> {
    if t <= 0 then [] else PairsUpTo(l, t - 1) + [Segment(Shift(l.start, t - 1), Shift(l.end, t - 1), l.color)]
  }

  lemma {:induction false} PairsUpToShape(l: Line, t: int)
    ensures |PairsUpTo(l, t)| == if t <= 0 then 0 else t
    ensures forall k :: 0 <= k < |PairsUpTo(l, t)| ==>
      PairsUpTo(l, t)[k] == Segment(Shift(l.start, k), Shift(l.end, k), l.color)
  {
    if t > 0 {
      PairsUpToShape(l, t - 1);
    }
  }

  /** A line of thickness t submits exactly t pairs (none for t <= 0), the k-th shifted by k. */
  lemma PairsShape(l: Line)
    ensures |Pairs(l)| == if l.thickness <= 0 then 0 else l.thickness
    ensures forall k :: 0 <= k < |Pairs(l)| ==>
      Pairs(l)[k] == Segment(Shift(l.start, k), Shift(l.end, k), l.color)
  {
    PairsUpToShape(l, l.thickness);
  }

  /** The pairs of a sequence of lines, line after line. */
  function Flatten(ls: seq<Line>): seq<Segment> {
    if ls == [] then [] else Flatten(ls[..|ls| - 1]) + Pairs(ls[|ls| - 1])
  }

  /** The number of pairs a sequence of lines submits: the sum of the positive thicknesses. */
  function PairCount(ls: seq<Line>): nat {
    if ls == [] then 0
    else PairCount(ls[..|ls| - 1]) + (var t := ls[|ls| - 1].thickness; if t <= 0 then 0 else t)
  }

  /** Drawing one more line submits its pairs after those already submitted. */
  lemma FlattenPush(ls: seq<Line>, l: Line)
    ensures Flatten(ls + [l]) == Flatten(ls) + Pairs(l)
  {
    assert (ls + [l])[..|ls|] == ls;
  }

  lemma FlattenSingle(l: Line)
    ensures Flatten([l]) == Pairs(l)
  {
    assert [l][..0] == [];
  }

  lemma {:induction false} FlattenAppend(a: seq<Line>, b: seq<Line>)
    ensures Flatten(a + b) == Flatten(a) + Flatten(b)
  {
    if b == [] {
      assert a + b == a;
    } else {
      var n := |b| - 1;
      var c := a + b;
      FlattenAppend(a, b[..n]);
      assert c[..|c| - 1] == a + b[..n];
      assert c[|c| - 1] == b[n];
      assert Flatten(c) == Flatten(a + b[..n]) + Pairs(b[n]);
      assert Flatten(b) == Flatten(b[..n]) + Pairs(b[n]);
    }
  }

  lemma {:induction false} FlattenCount(ls: seq<Line>)
    ensures |Flatten(ls)| == PairCount(ls)
  {
    if ls != [] {
      FlattenCount(ls[..|ls| - 1]);
      PairsShape(ls[|ls| - 1]);
    }
  }

  /** `DrawLine(start, end, color, thickness)`: the thickness loop. */
  method DrawLine(start: Vec2, end: Vec2, color: Color, thickness: int) returns (pairs: seq<Segment>)
    ensures pairs == Pairs(Line(start, end, color, thickness))
  {
    pairs := [];
    var i := 0;
    while i < thickness
      invariant thickness <= 0 ==> i == 0
      invariant thickness > 0 ==> 0 <= i <= thickness
      invariant pairs == PairsUpTo(Line(start, end, color, thickness), i)
    {
      pairs := pairs + [Segment(Vec2(start.x + i as real, start.y), Vec2(end.x + i as real, end.y), color)];
      i := i + 1;
    }
  }

  /** Blocks of lines laid end to end, in order. */
  function Concat<T>(blocks: seq<seq<T>>): seq<T> {
    if blocks == [] then [] else Concat(blocks[..|blocks| - 1]) + blocks[|blocks| - 1]
  }

  lemma ConcatPush<T>(blocks: seq<seq<T>>, i: nat)
    requires i < |blocks|
    ensures Concat(blocks[..i + 1]) == Concat(blocks[..i]) + blocks[i]
  {
    assert blocks[..i + 1][..i] == blocks[..i];
  }

  lemma {:induction false} ConcatAppend<T>(a: seq<seq<T>>, b: seq<seq<T>>)
    ensures Concat(a + b) == Concat(a) + Concat(b)
  {
    if b == [] {
      assert a + b == a;
    } else {
      var n := |b| - 1;
      ConcatAppend(a, b[..n]);
      assert (a + b)[..|a + b| - 1] == a + b[..n];
    }
  }

  /** Laying out more blocks only appends: the first i blocks are a prefix of all of them. */
  lemma {:induction false} ConcatPrefix<T>(blocks: seq<seq<T>>, i: nat)
    requires i <= |blocks|
    ensures |Concat(blocks[..i])| <= |Concat(blocks)|
    ensures Concat(blocks)[..|Concat(blocks[..i])|] == Concat(blocks[..i])
  {
    if i < |blocks| {
      var n := |blocks| - 1;
      ConcatPrefix(blocks[..n], i);
      assert blocks[..n][..i] == blocks[..i];
    } else {
      assert blocks[..i] == blocks;
    }
  }

  /** Item j of block i comes right after the items of blocks 0 .. i-1. */
  lemma ConcatAt<T>(blocks: seq<seq<T>>, i: nat, j: nat)
    requires i < |blocks| && j < |blocks[i]|
    ensures |Concat(blocks[..i])| + j < |Concat(blocks)|
    ensures Concat(blocks)[|Concat(blocks[..i])| + j] == blocks[i][j]
  {
    ConcatPrefix(blocks, i + 1);
    ConcatPush(blocks, i);
    var before := Concat(blocks[..i]);
    assert Concat(blocks[..i + 1])[|before| + j] == blocks[i][j];
  }
}
