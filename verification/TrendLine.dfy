/** Integer line drawing: the error-term loop against the ideal line rounded half up. */
module TrendLine {
  import opened TrendGrid

  function Abs(n: int): nat {
    if n < 0 then -n else n
  }

  function Toward(from: int, to: int): int {
    if from < to then 1 else -1
  }

  /** The coordinate `n` steps from `from` in the direction of `to`, and the inverse of that. */
  function Moved(from: int, to: int, n: int): int {
    if from < to then from + n else from - n
  }

  function Travelled(from: int, to: int, at: int): (n: int)
    ensures Moved(from, to, n) == at
  {
    if from < to then at - from else from - at
  }

  function Major(a: Point, b: Point): nat {
    if Abs(b.x - a.x) >= Abs(b.y - a.y) then Abs(b.x - a.x) else Abs(b.y - a.y)
  }

  /** Minor-axis offset after `k` major-axis steps: minor * k / major, rounded half up. */
  function IdealOffset(minor: nat, major: nat, k: nat): nat {
    if major == 0 then 0 else (2 * minor * k + major) / (2 * major)
  }

  function LinePoint(a: Point, b: Point, k: nat): Point {
    var dx, dy := Abs(b.x - a.x), Abs(b.y - a.y);
    if dx >= dy then
      Point(Moved(a.x, b.x, k), Moved(a.y, b.y, IdealOffset(dy, dx, k)))
    else
      Point(Moved(a.x, b.x, IdealOffset(dx, dy, k)), Moved(a.y, b.y, k))
  }

  function LinePoints(a: Point, b: Point): (points: seq<Point>)
    ensures |points| == Major(a, b) + 1
    ensures forall k | 0 <= k <= Major(a, b) :: points[k] == LinePoint(a, b, k)
  {
    seq(Major(a, b) + 1, k requires 0 <= k => LinePoint(a, b, k))
  }

  /** The rounded offset is the one integer within half a pixel of the ideal line, ties going up. */
  lemma {:induction false} IdealOffsetIsNearest(minor: nat, major: nat, k: nat, j: nat)
    requires major > 0
    ensures j == IdealOffset(minor, major, k) <==> -(major as int) <= 2 * (minor * k - major * j) < major
  {
    var along, across := minor * k, major * j;
    QuotientIsUnique(2 * along + major, 2 * major, j);
    assert 2 * minor * k == 2 * along;
    assert 2 * major * j == 2 * across;
  }

  lemma {:induction false} QuotientIsUnique(n: nat, d: nat, q: nat)
    requires d > 0
    ensures q == n / d <==> d * q <= n < d * q + d
  {
    var exact := n / d;
    DivisionBounds(n, d);
    if q < exact { StrictlyScaled(d, q, exact); }
    if exact < q { StrictlyScaled(d, exact, q); }
  }

  lemma {:induction false} DivisionBounds(n: nat, d: nat)
    requires d > 0
    ensures d * (n / d) <= n < d * (n / d) + d
  {
  }

  lemma {:induction false} StrictlyScaled(d: nat, a: int, b: int)
    requires a < b
    ensures d * a + d <= d * b
  {
    assert d * a + d == d * (a + 1);
    Scaled(d, a + 1, b);
  }

  lemma {:induction false} Scaled(d: nat, a: int, b: int)
    requires a <= b
    ensures d * a <= d * b
  {
  }

  lemma {:induction false} OffsetEnds(minor: nat, major: nat)
    requires minor <= major
    ensures IdealOffset(minor, major, 0) == 0
    ensures IdealOffset(minor, major, major) == minor
  {
    if major > 0 {
      IdealOffsetIsNearest(minor, major, 0, 0);
      IdealOffsetIsNearest(minor, major, major, minor);
    }
  }

  /** What the two error tests decide after `i` horizontal and `j` vertical steps of a line whose
      next major-axis step is number `k + 1`: advance the minor axis exactly when the ideal does. */
  lemma {:induction false} ErrorTestsAreExact(minor: nat, major: nat, k: nat, j: nat)
    requires minor <= major && 0 < major && j == IdealOffset(minor, major, k)
    ensures -(minor as int) <= 2 * (major * (j + 1) - minor * (k + 1)) <= 3 * major
    ensures IdealOffset(minor, major, k + 1) ==
            if 2 * (major * (j + 1) - minor * (k + 1)) <= major then j + 1 else j
  {
    IdealOffsetIsNearest(minor, major, k, j);
    IdealOffsetIsNearest(minor, major, k + 1, j);
    IdealOffsetIsNearest(minor, major, k + 1, j + 1);
    assert major * (j + 1) == major * j + major;
    assert minor * (k + 1) == minor * k + minor;
  }

  lemma {:induction false} LineStartsAndEnds(a: Point, b: Point)
    ensures LinePoint(a, b, 0) == a && LinePoint(a, b, Major(a, b)) == b
  {
    var dx, dy := Abs(b.x - a.x), Abs(b.y - a.y);
    if dx >= dy { OffsetEnds(dy, dx); } else { OffsetEnds(dx, dy); }
  }

  /** The line never leaves the box spanned by its endpoints. */
  lemma {:induction false} LineStaysInBox(a: Point, b: Point, p: Point)
    requires p in LinePoints(a, b)
    ensures a.x <= p.x <= b.x || b.x <= p.x <= a.x
    ensures a.y <= p.y <= b.y || b.y <= p.y <= a.y
  {
    var k :| 0 <= k <= Major(a, b) && p == LinePoint(a, b, k);
    var dx, dy := Abs(b.x - a.x), Abs(b.y - a.y);
    if dx >= dy { OffsetIsBounded(dy, dx, k); } else { OffsetIsBounded(dx, dy, k); }
  }

  lemma {:induction false} OffsetIsBounded(minor: nat, major: nat, k: nat)
    requires minor <= major && k <= major
    ensures 0 <= IdealOffset(minor, major, k) <= minor
  {
    if major > 0 {
      var j := IdealOffset(minor, major, k);
      IdealOffsetIsNearest(minor, major, k, j);
      Scaled(minor, k, major);
      if j > minor { StrictlyScaled(major, minor, j); }
    }
  }

  /** Geometric reading of a line, free of any step count: the pixels between the endpoints whose
      minor-axis distance from the ideal line is at most half a pixel, ties going towards `b`. */
  ghost predicate OnIdealLine(a: Point, b: Point, p: Point) {
    var dx, dy := Abs(b.x - a.x), Abs(b.y - a.y);
    var right, down := Travelled(a.x, b.x, p.x), Travelled(a.y, b.y, p.y);
    if a == b then p == a
    else if dx >= dy then WithinHalf(dy, dx, right, down)
    else WithinHalf(dx, dy, down, right)
  }

  ghost predicate WithinHalf(minor: nat, major: nat, along: int, across: int) {
    0 <= along <= major && 0 <= across && -(major as int) <= 2 * (minor * along - major * across) < major
  }

  lemma {:induction false} LineIsRoundedIdeal(a: Point, b: Point, p: Point)
    ensures p in LinePoints(a, b) <==> OnIdealLine(a, b, p)
  {
    if a == b {
      assert LinePoints(a, b) == [a];
    } else if Abs(b.x - a.x) >= Abs(b.y - a.y) {
      ShallowLine(a, b, p);
    } else {
      SteepLine(a, b, p);
    }
  }

  lemma {:induction false} ShallowLine(a: Point, b: Point, p: Point)
    requires a != b && Abs(b.x - a.x) >= Abs(b.y - a.y)
    ensures p in LinePoints(a, b) <==> OnIdealLine(a, b, p)
  {
    var dx, dy := Abs(b.x - a.x), Abs(b.y - a.y);
    var right, down := Travelled(a.x, b.x, p.x), Travelled(a.y, b.y, p.y);
    if p in LinePoints(a, b) {
      var k :| 0 <= k <= dx && p == LinePoint(a, b, k);
      IdealOffsetIsNearest(dy, dx, k, IdealOffset(dy, dx, k));
    }
    if OnIdealLine(a, b, p) {
      IdealOffsetIsNearest(dy, dx, right, down);
      assert p == LinePoint(a, b, right) == LinePoints(a, b)[right];
    }
  }

  lemma {:induction false} SteepLine(a: Point, b: Point, p: Point)
    requires a != b && Abs(b.x - a.x) < Abs(b.y - a.y)
    ensures p in LinePoints(a, b) <==> OnIdealLine(a, b, p)
  {
    var dx, dy := Abs(b.x - a.x), Abs(b.y - a.y);
    var right, down := Travelled(a.x, b.x, p.x), Travelled(a.y, b.y, p.y);
    if p in LinePoints(a, b) {
      var k :| 0 <= k <= dy && p == LinePoint(a, b, k);
      IdealOffsetIsNearest(dx, dy, k, IdealOffset(dx, dy, k));
    }
    if OnIdealLine(a, b, p) {
      IdealOffsetIsNearest(dx, dy, down, right);
      assert p == LinePoint(a, b, down) == LinePoints(a, b)[down];
    }
  }

  /** The loop state after `k` steps: the pixel of step `k`, and the error term of the next one. */
  ghost predicate AtStep(a: Point, b: Point, k: nat, x: int, y: int, error: int) {
    var dx, dy := Abs(b.x - a.x), Abs(b.y - a.y);
    && k <= Major(a, b)
    && Point(x, y) == LinePoint(a, b, k)
    && error == if dx >= dy then dx * (IdealOffset(dy, dx, k) + 1) - dy * (k + 1)
                else dx * (k + 1) - dy * (IdealOffset(dx, dy, k) + 1)
  }

  /** One turn of the loop from any pixel but the last takes exactly one step along the line, and
      the doubled error term stays within three line lengths, far inside a C int for a 192-wide canvas. */
  lemma {:induction false} OneTurn(a: Point, b: Point, k: nat, x: int, y: int, error: int)
    requires AtStep(a, b, k, x, y, error) && Point(x, y) != b
    ensures k < Major(a, b) && Abs(2 * error) <= 3 * Major(a, b)
    ensures var dx, dy := Abs(b.x - a.x), Abs(b.y - a.y);
            var right, down := 2 * error >= -(dy as int), 2 * error <= dx;
            AtStep(a, b, k + 1,
                   if right then x + Toward(a.x, b.x) else x, if down then y + Toward(a.y, b.y) else y,
                   error - (if right then dy else 0) + if down then dx else 0)
  {
    if Abs(b.x - a.x) >= Abs(b.y - a.y) { ShallowTurn(a, b, k, x, y, error); } else { SteepTurn(a, b, k, x, y, error); }
  }

  lemma {:induction false} ShallowTurn(a: Point, b: Point, k: nat, x: int, y: int, error: int)
    requires AtStep(a, b, k, x, y, error) && Point(x, y) != b && Abs(b.x - a.x) >= Abs(b.y - a.y)
    ensures k < Major(a, b) && Abs(2 * error) <= 3 * Major(a, b)
    ensures var dx, dy := Abs(b.x - a.x), Abs(b.y - a.y);
            var right, down := 2 * error >= -(dy as int), 2 * error <= dx;
            AtStep(a, b, k + 1,
                   if right then x + Toward(a.x, b.x) else x, if down then y + Toward(a.y, b.y) else y,
                   error - (if right then dy else 0) + if down then dx else 0)
  {
    LineStartsAndEnds(a, b);
    var dx, dy := Abs(b.x - a.x), Abs(b.y - a.y);
    TurnArithmetic(dy, dx, k, IdealOffset(dy, dx, k));
  }

  lemma {:induction false} SteepTurn(a: Point, b: Point, k: nat, x: int, y: int, error: int)
    requires AtStep(a, b, k, x, y, error) && Point(x, y) != b && Abs(b.x - a.x) < Abs(b.y - a.y)
    ensures k < Major(a, b) && Abs(2 * error) <= 3 * Major(a, b)
    ensures var dx, dy := Abs(b.x - a.x), Abs(b.y - a.y);
            var right, down := 2 * error >= -(dy as int), 2 * error <= dx;
            AtStep(a, b, k + 1,
                   if right then x + Toward(a.x, b.x) else x, if down then y + Toward(a.y, b.y) else y,
                   error - (if right then dy else 0) + if down then dx else 0)
  {
    LineStartsAndEnds(a, b);
    var dx, dy := Abs(b.x - a.x), Abs(b.y - a.y);
    TurnArithmetic(dx, dy, k, IdealOffset(dx, dy, k));
  }

  lemma {:induction false} TurnArithmetic(minor: nat, major: nat, k: nat, j: nat)
    requires minor <= major && 0 < major && j == IdealOffset(minor, major, k)
    ensures var e := major * (j + 1) - minor * (k + 1);
            && -(minor as int) <= 2 * e <= 3 * major
            && IdealOffset(minor, major, k + 1) == (if 2 * e <= major then j + 1 else j)
            && e - minor + major == major * (j + 2) - minor * (k + 2)
            && e - minor == major * (j + 1) - minor * (k + 2)
  {
    ErrorTestsAreExact(minor, major, k, j);
    assert major * (j + 2) == major * (j + 1) + major;
    assert minor * (k + 2) == minor * (k + 1) + minor;
  }

  /** The drawing loop. `plotted` is the exact order in which it visits pixels. */
  method DrawLine(pixels: array<bv8>, x0: int, y0: int, x1: int, y1: int, color: bv8)
    returns (ghost plotted: seq<Point>)
    requires TREND_BYTES <= pixels.Length && color <= 3
    modifies pixels
    ensures plotted == LinePoints(Point(x0, y0), Point(x1, y1))
    ensures Painted(old(pixels[..]), pixels[..], plotted, color)
  {
    var dx: int, sx, dy: int, sy := Abs(x1 - x0), Toward(x0, x1), -(Abs(y1 - y0) as int), Toward(y0, y1);
    var error := dx + dy;
    var x, y := x0, y0;
    ghost var a, b, k := Point(x0, y0), Point(x1, y1), 0;
    LineStartsAndEnds(a, b);
    FirstOffsets(a, b);
    ghost var start := pixels[..];
    plotted := [];
    NothingPainted(start, color);
    while true
      invariant AtStep(a, b, k, x, y, error)
      invariant plotted == LinePoints(a, b)[..k]
      invariant Painted(start, pixels[..], plotted, color)
      decreases Major(a, b) - k
    {
      PlotOnto(pixels, x, y, color, start, plotted);
      plotted := plotted + [Point(x, y)];
      if x == x1 && y == y1 {
        EndIsLast(a, b, k);
        break;
      }
      x, y, error := Advance(x, y, error, dx, dy, sx, sy, a, b, k);
      k := k + 1;
    }
  }

  /** The second half of a turn: a step along the line, whose error term decides the axes it is taken on. */
  method Advance(x0: int, y0: int, error0: int, dx: int, dy: int, sx: int, sy: int, ghost a: Point, ghost b: Point,
                 ghost k: nat)
    returns (x: int, y: int, error: int)
    requires dx == Abs(b.x - a.x) && dy == -(Abs(b.y - a.y) as int) && sx == Toward(a.x, b.x) && sy == Toward(a.y, b.y)
    requires AtStep(a, b, k, x0, y0, error0) && Point(x0, y0) != b
    ensures k < Major(a, b) && AtStep(a, b, k + 1, x, y, error)
  {
    OneTurn(a, b, k, x0, y0, error0);
    x, y, error := x0, y0, error0;
    var twice := 2 * error;
    if twice >= dy { error := error + dy; x := x + sx; }
    if twice <= dx { error := error + dx; y := y + sy; }
  }

  lemma {:induction false} FirstOffsets(a: Point, b: Point)
    ensures AtStep(a, b, 0, a.x, a.y, Abs(b.x - a.x) - Abs(b.y - a.y))
  {
    LineStartsAndEnds(a, b);
    var dx, dy := Abs(b.x - a.x), Abs(b.y - a.y);
    if dx >= dy { OffsetEnds(dy, dx); } else { OffsetEnds(dx, dy); }
  }

  lemma {:induction false} EndIsLast(a: Point, b: Point, k: nat)
    requires k <= Major(a, b) && LinePoint(a, b, k) == b
    ensures k == Major(a, b)
  {
  }
}
