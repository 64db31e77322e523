/** Drawing the sample ring into the packed bitmap, and the canvas kept up to date with it. */
module TrendRaster {
  import opened Common
  import opened TrendGrid
  import opened TrendLine
  import opened TrendHistory

  /** The pixels of a polyline in drawing order. */
  function PolylinePoints(vs: seq<Point>): seq<Point> {
    if |vs| <= 1 then vs
    else PolylinePoints(vs[..|vs| - 1]) + LinePoints(vs[|vs| - 2], vs[|vs| - 1])
  }

  lemma {:induction false} PolylinePointsAreThePolyline(vs: seq<Point>, p: Point)
    ensures p in PolylinePoints(vs) <==> OnPolyline(vs, p)
  {
    if |vs| > 1 {
      PolylinePointsAreThePolyline(vs[..|vs| - 1], p);
      OneMoreSegment(vs, p);
    }
  }

  lemma {:induction false} OneMoreSegment(vs: seq<Point>, p: Point)
    requires |vs| > 1
    ensures OnPolyline(vs, p) <==>
            OnPolyline(vs[..|vs| - 1], p) || p in LinePoints(vs[|vs| - 2], vs[|vs| - 1])
  {
    var n := |vs| - 1;
    if n == 1 { SegmentHoldsItsStart(vs[0], vs[1]); }
    if OnPolyline(vs, p) { SegmentOf(vs, p); }
    if n > 1 && OnPolyline(vs[..n], p) {
      var front := vs[..n];
      var i :| 0 < i < n && p in LinePoints(front[i - 1], front[i]);
      assert p in LinePoints(vs[i - 1], vs[i]);
    }
    if p in LinePoints(vs[n - 1], vs[n]) { assert OnPolyline(vs, p); }
  }

  lemma {:induction false} SegmentOf(vs: seq<Point>, p: Point)
    requires |vs| > 1 && OnPolyline(vs, p)
    ensures OnPolyline(vs[..|vs| - 1], p) || p in LinePoints(vs[|vs| - 2], vs[|vs| - 1])
  {
    var i :| 0 < i < |vs| && p in LinePoints(vs[i - 1], vs[i]);
    var front := vs[..|vs| - 1];
    if i < |vs| - 1 { assert p in LinePoints(front[i - 1], front[i]); }
  }

  lemma {:induction false} SegmentHoldsItsStart(a: Point, b: Point)
    ensures a in LinePoints(a, b)
  {
    LineStartsAndEnds(a, b);
    assert LinePoints(a, b)[0] == a;
  }

  /** The three guide rows are drawn down to row `y`, of which the first `x` pixels are done. */
  ghost predicate GuidesDrawn(bytes: seq<bv8>, y: int, x: int)
    requires TREND_BYTES <= |bytes|
  {
    forall p | InGrid(p) ::
      PixelAt(bytes, p) == if p.y in {0, 39, 78} && (p.y < y || (p.y == y && p.x < x)) then GUIDE_COLOR else 0
  }

  method DrawGuides(pixels: array<bv8>)
    requires TREND_BYTES <= pixels.Length
    modifies pixels
    ensures pixels[TREND_BYTES..] == old(pixels[TREND_BYTES..])
    ensures GuidesDrawn(pixels[..], HEIGHT, 0)
  {
    forall i | 0 <= i < TREND_BYTES { pixels[i] := 0; }
    assert GuidesDrawn(pixels[..], 0, 0);
    var y := 0;
    while y < HEIGHT
      invariant y in {0, 39, 78, 117}
      invariant pixels[TREND_BYTES..] == old(pixels[TREND_BYTES..])
      invariant GuidesDrawn(pixels[..], y, 0)
    {
      for x := 0 to WIDTH
        invariant pixels[TREND_BYTES..] == old(pixels[TREND_BYTES..])
        invariant GuidesDrawn(pixels[..], y, x)
      {
        PlotPixel(pixels, x, y, GUIDE_COLOR);
      }
      y := y + 39;
    }
  }

  /** Where sample `i` of a ring is drawn. */
  method PlaceSample(ring: array<byte>, head: nat, held: nat, count: nat, i: nat) returns (x: int, y: int)
    requires ring.Length == SLOTS && i < count == if held > SLOTS then SLOTS else held
    ensures Point(x, y) == Vertices(RingSeries(ring[..], head, held))[i]
  {
    var value := ring[(head + 60 - count + i) % 60];
    assert value == ring[..][Slot(head + SLOTS - count + i)] == RingSeries(ring[..], head, held)[i];
    if value > 100 { value := 100; }
    x, y := (60 - count + i) * (WIDTH - 1) / 59, (100 - value) * (HEIGHT - 1) / 100;
  }

  /** The first vertex is one pixel, every later one a line from the one before; `drawn` is what has been
      painted since `start`. */
  method DrawVertex(pixels: array<bv8>, first: bool, lastx: int, lasty: int, x: int, y: int, color: bv8,
                    ghost start: seq<bv8>, ghost drawn: seq<Point>)
    returns (ghost added: seq<Point>)
    requires TREND_BYTES <= pixels.Length && color <= 3 && Painted(start, pixels[..], drawn, color)
    modifies pixels
    ensures added == if first then [Point(x, y)] else LinePoints(Point(lastx, lasty), Point(x, y))
    ensures Painted(start, pixels[..], drawn + added, color)
  {
    if first {
      PlotOnto(pixels, x, y, color, start, drawn);
      added := [Point(x, y)];
    } else {
      ghost var before := pixels[..];
      added := DrawLine(pixels, lastx, lasty, x, y, color);
      PaintedThenPainted(start, before, pixels[..], drawn, added, color);
    }
  }

  /** One series of the ring, joined up oldest to newest. */
  method DrawSeries(ring: array<byte>, head: nat, held: nat, pixels: array<bv8>, color: bv8)
    requires ring.Length == SLOTS && TREND_BYTES <= pixels.Length && color <= 3
    modifies pixels
    ensures Painted(old(pixels[..]), pixels[..],
                    PolylinePoints(Vertices(RingSeries(ring[..], head, held))), color)
  {
    var count := if held > 60 then 60 else held;
    ghost var series := RingSeries(ring[..], head, held);
    ghost var vs := Vertices(series);
    ghost var start, drawn: seq<Point> := pixels[..], [];
    NothingPainted(start, color);
    var lastx, lasty := 0, 0;
    for i := 0 to count
      invariant ring[..] == old(ring[..])
      invariant i > 0 ==> Point(lastx, lasty) == vs[i - 1]
      invariant drawn == PolylinePoints(vs[..i])
      invariant Painted(start, pixels[..], drawn, color)
    {
      var x, y := PlaceSample(ring, head, held, count, i);
      PolylineGrows(vs, i);
      ghost var added := DrawVertex(pixels, i == 0, lastx, lasty, x, y, color, start, drawn);
      drawn := drawn + added;
      lastx, lasty := x, y;
    }
    assert vs[..count] == vs;
  }

  /** Nothing of a polyline is clipped: every pixel of it lies on the canvas. */
  lemma {:induction false} PolylineStaysOnCanvas(series: seq<byte>, p: Point)
    requires |series| <= SLOTS && OnPolyline(Vertices(series), p)
    ensures InGrid(p)
  {
    var vs := Vertices(series);
    if |series| > 0 { VerticesStayOnCanvas(series); }
    if |vs| != 1 {
      var i :| 0 < i < |vs| && p in LinePoints(vs[i - 1], vs[i]);
      LineStaysInBox(vs[i - 1], vs[i], p);
    }
  }

  lemma {:induction false} PolylineGrows(vs: seq<Point>, i: nat)
    requires i < |vs|
    ensures PolylinePoints(vs[..i + 1]) ==
            PolylinePoints(vs[..i]) + if i == 0 then [vs[0]] else LinePoints(vs[i - 1], vs[i])
  {
    assert vs[..i + 1][..i] == vs[..i];
  }

  /** The whole picture: CPU over the guide rows, RAM over CPU. A missing argument or a short
      buffer leaves everything as it was. */
  method Raster(h: History?, pixels: array?<bv8>, size: nat)
    requires h != null ==> h.Shape()
    requires pixels != null ==> size <= pixels.Length
    modifies pixels
    ensures pixels != null && (h == null || size < TREND_BYTES) ==> pixels[..] == old(pixels[..])
    ensures pixels != null && h != null && TREND_BYTES <= size ==>
              && pixels[TREND_BYTES..] == old(pixels[TREND_BYTES..])
              && Shows(pixels[..], RingSeries(h.cpu[..], h.head, h.count), RingSeries(h.ram[..], h.head, h.count))
  {
    if h == null || pixels == null || size < TREND_BYTES { return; }
    ghost var cpu, ram := RingSeries(h.cpu[..], h.head, h.count), RingSeries(h.ram[..], h.head, h.count);
    DrawGuides(pixels);
    ghost var guides := pixels[..];
    DrawSeries(h.cpu, h.head, h.count, pixels, CPU_COLOR);
    ghost var withCpu := pixels[..];
    DrawSeries(h.ram, h.head, h.count, pixels, RAM_COLOR);
    LayersMakeThePicture(guides, withCpu, pixels[..], cpu, ram);
  }

  lemma {:induction false} LayersMakeThePicture(guides: seq<bv8>, withCpu: seq<bv8>, final: seq<bv8>, cpu: seq<byte>,
                                                ram: seq<byte>)
    requires |cpu| <= SLOTS && |ram| <= SLOTS && TREND_BYTES <= |guides|
    requires GuidesDrawn(guides, HEIGHT, 0)
    requires Painted(guides, withCpu, PolylinePoints(Vertices(cpu)), CPU_COLOR)
    requires Painted(withCpu, final, PolylinePoints(Vertices(ram)), RAM_COLOR)
    ensures Shows(final, cpu, ram)
  {
    forall p | InGrid(p)
      ensures PixelAt(final, p) == PictureAt(cpu, ram, p)
    {
      PolylinePointsAreThePolyline(Vertices(cpu), p);
      PolylinePointsAreThePolyline(Vertices(ram), p);
    }
  }

  /** The screen's canvas: after every update that is accepted it is drawn afresh. */
  class TrendCanvas {
    const history: History
    const pixels: array<bv8>

    ghost predicate Valid()
      reads this, history, history.cpu, history.ram, pixels
    {
      && history.Valid()
      && pixels.Length == TREND_BYTES
      && (history.Samples() != [] ==>
            var recent := Last(history.Samples(), SLOTS);
            Shows(pixels[..], CpuSeries(recent), RamSeries(recent)))
    }

    constructor ()
      ensures Valid() && history.updates == []
    {
      history := new History();
      pixels := new bv8[TREND_BYTES];
    }

    /** After any run of updates the canvas shows the last sixty accepted samples of that run. */
    method Refresh(u: Update)
      requires Valid()
      modifies history, history.cpu, history.ram, pixels
      ensures Valid() && history.updates == old(history.updates) + [u]
    {
      var prev := history.next;
      history.Add(u);
      if history.next != prev {
        Raster(history, pixels, TREND_BYTES);
        RingOfHistory(history);
      }
    }
  }

  lemma {:induction false} RingOfHistory(h: History)
    requires h.Valid()
    ensures RingSeries(h.cpu[..], h.head, h.count) == CpuSeries(Last(h.Samples(), SLOTS))
    ensures RingSeries(h.ram[..], h.head, h.count) == RamSeries(Last(h.Samples(), SLOTS))
  {
    SeriesOfLast(h.Samples());
    RingIsLastSixty(h.cpu[..], CpuSeries(h.Samples()));
    RingIsLastSixty(h.ram[..], RamSeries(h.Samples()));
    CountMayBeCapped(h.cpu[..], h.head, |h.Samples()|);
    CountMayBeCapped(h.ram[..], h.head, |h.Samples()|);
  }

  lemma {:induction false} CountMayBeCapped(ring: seq<byte>, head: nat, count: nat)
    requires |ring| == SLOTS
    ensures RingSeries(ring, head, if count > SLOTS then SLOTS else count) == RingSeries(ring, head, count)
  {
  }

  lemma {:induction false} SeriesOfLast(samples: seq<Sample>)
    ensures CpuSeries(Last(samples, SLOTS)) == Last(CpuSeries(samples), SLOTS)
    ensures RamSeries(Last(samples, SLOTS)) == Last(RamSeries(samples), SLOTS)
  {
  }
}
