/** The packed four-colour bitmap of the trend canvas: 192 x 80 pixels, four pixels a byte,
    leftmost pixel in the two highest bits. */
module TrendGrid {

  const WIDTH := 192
  const HEIGHT := 80
  const STRIDE := WIDTH / 4
  const TREND_BYTES := WIDTH * HEIGHT / 4

  datatype Point = Point(x: int, y: int)

  predicate InGrid(p: Point) {
    0 <= p.x < WIDTH && 0 <= p.y < HEIGHT
  }

  /** The distance of a lane from the low end of its byte. */
  function Shift(lane: nat): (s: bv8)
    requires lane < 4
    ensures s as int == 6 - 2 * lane
  {
    match lane case 0 => 6 case 1 => 4 case 2 => 2 case _ => 0
  }

  function GetLane(b: bv8, lane: nat): bv8
    requires lane < 4
  {
    (b >> Shift(lane)) & 3
  }

  function PutLane(b: bv8, lane: nat, color: bv8): bv8
    requires lane < 4
  {
    (b & !((3 as bv8) << Shift(lane))) | (color << Shift(lane))
  }

  lemma {:induction false} ByteInBitmap(p: Point)
    requires InGrid(p)
    ensures 0 <= p.y * STRIDE + p.x / 4 < TREND_BYTES
  {
    assert STRIDE == 48 && TREND_BYTES == 3840;
  }

  /** The abstract picture: the colour stored for pixel `p`. */
  function PixelAt(bytes: seq<bv8>, p: Point): bv8
    requires TREND_BYTES <= |bytes| && InGrid(p)
  {
    ByteInBitmap(p);
    GetLane(bytes[p.y * STRIDE + p.x / 4], p.x % 4)
  }

  /** Where the display reads a pixel: rows of 48 bytes, four pixels a byte, the leftmost in the two highest bits. */
  lemma {:induction false} PixelIsTwoBits(bytes: seq<bv8>, p: Point)
    requires TREND_BYTES <= |bytes| && InGrid(p)
    ensures 0 <= 48 * p.y + p.x / 4 < 3840
    ensures PixelAt(bytes, p) == var b := bytes[48 * p.y + p.x / 4];
                                 if p.x % 4 == 0 then b >> 6
                                 else if p.x % 4 == 1 then (b >> 4) & 3
                                 else if p.x % 4 == 2 then (b >> 2) & 3
                                 else b & 3
  {
    assert STRIDE == 48;
    var b := bytes[48 * p.y + p.x / 4];
    ByteAsLanes(b);
  }

  lemma {:induction false} ByteAsLanes(b: bv8)
    ensures GetLane(b, 0) == b >> 6 && GetLane(b, 1) == (b >> 4) & 3 && GetLane(b, 2) == (b >> 2) & 3
    ensures GetLane(b, 3) == b & 3
  {
  }

  /** A pure fact about bit vectors. */
  lemma {:induction false} ShiftedLanes(b: bv8, s: bv8, t: bv8, color: bv8)
    requires (s == 0 || s == 2 || s == 4 || s == 6) && (t == 0 || t == 2 || t == 4 || t == 6) && color <= 3
    ensures (((b & !((3 as bv8) << s)) | (color << s)) >> t) & 3 == if s == t then color else (b >> t) & 3
  {
  }

  lemma {:induction false} LaneLaws(b: bv8, lane: nat, other: nat, color: bv8)
    requires lane < 4 && other < 4 && color <= 3
    ensures GetLane(PutLane(b, lane, color), other) == if other == lane then color else GetLane(b, other)
  {
    ShiftedLanes(b, Shift(lane), Shift(other), color);
  }

  /** Two pixels share a byte and a lane only when they are the same pixel. */
  lemma {:induction false} PackingIsInjective(p: Point, q: Point)
    requires InGrid(p) && InGrid(q)
    ensures 0 <= p.y * STRIDE + p.x / 4 < TREND_BYTES
    ensures p.y * STRIDE + p.x / 4 == q.y * STRIDE + q.x / 4 && p.x % 4 == q.x % 4 ==> p == q
  {
    assert STRIDE == 48 && TREND_BYTES == 3840;
    RowMajorIsInjective(p.y, p.x / 4, q.y, q.x / 4);
    assert p.x == 4 * (p.x / 4) + p.x % 4 && q.x == 4 * (q.x / 4) + q.x % 4;
  }

  lemma {:induction false} RowMajorIsInjective(row: int, column: int, row': int, column': int)
    requires 0 <= row < 80 && 0 <= row' < 80 && 0 <= column < 48 && 0 <= column' < 48
    ensures 0 <= row * 48 + column < 3840
    ensures row * 48 + column == row' * 48 + column' ==> row == row' && column == column'
  {
  }

  /** `after` is `before` with every visible point of `points` set to `color`;
      bytes past the bitmap are as they were. */
  ghost predicate Painted(before: seq<bv8>, after: seq<bv8>, points: seq<Point>, color: bv8) {
    && TREND_BYTES <= |before| == |after|
    && before[TREND_BYTES..] == after[TREND_BYTES..]
    && forall p | InGrid(p) :: PixelAt(after, p) == if p in points then color else PixelAt(before, p)
  }

  lemma {:induction false} PaintedThenPainted(a: seq<bv8>, b: seq<bv8>, c: seq<bv8>, first: seq<Point>,
                                              second: seq<Point>, color: bv8)
    requires Painted(a, b, first, color) && Painted(b, c, second, color)
    ensures Painted(a, c, first + second, color)
  {
    forall p | InGrid(p)
      ensures PixelAt(c, p) == if p in first + second then color else PixelAt(a, p)
    {
      assert p in first + second <==> p in first || p in second;
    }
  }

  method PlotPixel(pixels: array<bv8>, x: int, y: int, color: bv8)
    requires TREND_BYTES <= pixels.Length && color <= 3
    modifies pixels
    ensures Painted(old(pixels[..]), pixels[..], [Point(x, y)], color)
  {
    if x < 0 || x >= WIDTH || y < 0 || y >= HEIGHT {
      return;
    }
    var index := y * STRIDE + x / 4;
    PackingIsInjective(Point(x, y), Point(x, y));
    pixels[index] := PutLane(pixels[index], x % 4, color);
    forall p | InGrid(p)
      ensures PixelAt(pixels[..], p) == if p in [Point(x, y)] then color else PixelAt(old(pixels[..]), p)
    {
      PackingIsInjective(p, Point(x, y));
      LaneLaws(old(pixels[index]), x % 4, p.x % 4, color);
    }
  }

  /** The same on top of what has been painted since `start`. */
  method PlotOnto(pixels: array<bv8>, x: int, y: int, color: bv8, ghost start: seq<bv8>, ghost drawn: seq<Point>)
    requires TREND_BYTES <= pixels.Length && color <= 3 && Painted(start, pixels[..], drawn, color)
    modifies pixels
    ensures Painted(start, pixels[..], drawn + [Point(x, y)], color)
  {
    ghost var before := pixels[..];
    PlotPixel(pixels, x, y, color);
    PaintedThenPainted(start, before, pixels[..], drawn, [Point(x, y)], color);
  }

  lemma {:induction false} NothingPainted(bytes: seq<bv8>, color: bv8)
    requires TREND_BYTES <= |bytes|
    ensures Painted(bytes, bytes, [], color)
  {
  }
}
