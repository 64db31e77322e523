/** The ring of the last sixty CPU and RAM samples, its picture, and the canvas that shows it. */
module TrendHistory {
  import opened Common
  import opened TrendGrid
  import opened TrendLine

  const SLOTS := 60
  const SAMPLE_INTERVAL_MS := 2000

  /** The fields of the server state that the history reads, and the time of the reading. */
  datatype Update = Update(hasData: bool, online: bool, cpuUsage: Percent, memoryPercent: Percent, now: nat)
  type Percent = r: real | 0.0 <= r <= 100.0

  datatype Sample = Sample(cpu: byte, ram: byte, at: nat)

  /** What has been accepted so far, oldest first, and when the next sample is due. */
  datatype Log = Log(samples: seq<Sample>, due: nat)

  function Accept(log: Log, u: Update): Log {
    if !u.hasData || !u.online || u.now < log.due then log
    else Log(log.samples + [Sample(u.cpuUsage.Floor, u.memoryPercent.Floor, u.now)], u.now + SAMPLE_INTERVAL_MS)
  }

  function AcceptAll(updates: seq<Update>): Log {
    if updates == [] then Log([], 0)
    else Accept(AcceptAll(updates[..|updates| - 1]), updates[|updates| - 1])
  }

  function Last<T>(s: seq<T>, n: nat): seq<T> {
    if |s| <= n then s else s[|s| - n..]
  }

  function CpuSeries(samples: seq<Sample>): seq<byte> {
    seq(|samples|, i requires 0 <= i < |samples| => samples[i].cpu)
  }

  function RamSeries(samples: seq<Sample>): seq<byte> {
    seq(|samples|, i requires 0 <= i < |samples| => samples[i].ram)
  }

  /** Accepted samples are at least two seconds apart, and only an accepted update moves the due time. */
  lemma {:induction false} AcceptedSamplesAreSpaced(updates: seq<Update>)
    ensures var log := AcceptAll(updates);
            && (forall i | 0 < i < |log.samples| :: log.samples[i].at >= log.samples[i - 1].at + SAMPLE_INTERVAL_MS)
            && log.due == if log.samples == [] then 0 else log.samples[|log.samples| - 1].at + SAMPLE_INTERVAL_MS
  {
    if updates != [] {
      AcceptedSamplesAreSpaced(updates[..|updates| - 1]);
    }
  }

  // ---- which readings are samples ----

  /** An update is sampled if it has data, is online, and comes at least two seconds after every one
      sampled before it. */
  predicate Sampled(updates: seq<Update>, i: nat)
    requires i < |updates|
  {
    && updates[i].hasData && updates[i].online
    && forall j | 0 <= j < i && Sampled(updates, j) :: updates[i].now >= updates[j].now + 2000
  }

  /** The readings of the sampled ones among the first `n` updates. */
  function Readings(updates: seq<Update>, n: nat): (samples: seq<Sample>)
    requires n <= |updates|
  {
    if n == 0 then []
    else
      var u := updates[n - 1];
      Readings(updates, n - 1)
      + if Sampled(updates, n - 1) then [Sample(u.cpuUsage.Floor, u.memoryPercent.Floor, u.now)] else []
  }

  lemma {:induction false} DueIsAfterAllSampled(updates: seq<Update>, n: nat)
    requires n <= |updates|
    ensures AcceptAll(updates[..n]).samples == Readings(updates, n)
    ensures forall j | 0 <= j < n && Sampled(updates, j) :: updates[j].now + 2000 <= AcceptAll(updates[..n]).due
    ensures AcceptAll(updates[..n]).due == 0
            || exists j :: 0 <= j < n && Sampled(updates, j) && updates[j].now + 2000 == AcceptAll(updates[..n]).due
  {
    if n > 0 {
      DueIsAfterAllSampled(updates, n - 1);
      assert updates[..n][..n - 1] == updates[..n - 1];
      assert Sampled(updates, n - 1) <==>
             updates[n - 1].hasData && updates[n - 1].online && updates[n - 1].now >= AcceptAll(updates[..n - 1]).due;
    }
  }

  /** The accepted samples of a run are the readings of exactly the updates that are sampled, in order. */
  lemma {:induction false} SamplesAreTheDueReadings(updates: seq<Update>)
    ensures AcceptAll(updates).samples == Readings(updates, |updates|)
  {
    DueIsAfterAllSampled(updates, |updates|);
    assert updates[..|updates|] == updates;
  }

  // ---- the declared picture ----

  /** Where sample `i` of `count` is drawn: newest in the last column, 100 % in the top row. */
  function Vertex(count: nat, i: nat, value: byte): Point
    requires i < count <= SLOTS
  {
    var capped := if value > 100 then 100 else value;
    Point((SLOTS - count + i) * (WIDTH - 1) / 59, (100 - capped) * (HEIGHT - 1) / 100)
  }

  function Vertices(series: seq<byte>): (vs: seq<Point>)
    requires |series| <= SLOTS
    ensures |vs| == |series|
  {
    seq(|series|, i requires 0 <= i < |series| => Vertex(|series|, i, series[i]))
  }

  lemma {:induction false} VerticesStayOnCanvas(series: seq<byte>)
    requires 0 < |series| <= SLOTS
    ensures forall i | 0 <= i < |series| :: InGrid(Vertices(series)[i])
    ensures Vertices(series)[|series| - 1].x == WIDTH - 1
    ensures forall i | 0 < i < |series| :: Vertices(series)[i - 1].x < Vertices(series)[i].x
  {
  }

  /** A vertex lies at its share of the 79 rows below the top, 100 % on top, and at its share of the 191
      columns, counted from the right as if sixty samples were there, both rounded down. */
  lemma {:induction false} VertexIsToScale(count: nat, i: nat, value: byte)
    requires i < count <= 60
    ensures var v := Vertex(count, i, value);
            var left := if value < 100 then 100 - value else 0;
            && 100 * v.y <= left * 79 < 100 * v.y + 100
            && 59 * v.x <= (60 - count + i) * 191 < 59 * v.x + 59
  {
  }

  /** A lone vertex is one pixel; otherwise every pair of neighbours is joined by a line. */
  ghost predicate OnPolyline(vs: seq<Point>, p: Point) {
    if |vs| == 1 then p == vs[0]
    else exists i :: 0 < i < |vs| && p in LinePoints(vs[i - 1], vs[i])
  }

  const CPU_COLOR: bv8 := 1
  const RAM_COLOR: bv8 := 2
  const GUIDE_COLOR: bv8 := 3

  /** RAM is drawn in colour 2, over CPU in colour 1, over guides in colour 3 on rows 0, 39 and 78. */
  ghost function PictureAt(cpu: seq<byte>, ram: seq<byte>, p: Point): (color: bv8)
    requires |cpu| <= SLOTS && |ram| <= SLOTS
    ensures color == 2 <==> OnPolyline(Vertices(ram), p)
    ensures color == 1 <==> OnPolyline(Vertices(cpu), p) && !OnPolyline(Vertices(ram), p)
    ensures !OnPolyline(Vertices(cpu), p) && !OnPolyline(Vertices(ram), p) ==>
              color == if p.y == 0 || p.y == 39 || p.y == 78 then 3 else 0
  {
    if OnPolyline(Vertices(ram), p) then RAM_COLOR
    else if OnPolyline(Vertices(cpu), p) then CPU_COLOR
    else if p.y in {0, 39, 78} then GUIDE_COLOR
    else 0
  }

  ghost predicate Shows(bytes: seq<bv8>, cpu: seq<byte>, ram: seq<byte>)
    requires TREND_BYTES <= |bytes| && |cpu| <= SLOTS && |ram| <= SLOTS
  {
    forall p | InGrid(p) :: PixelAt(bytes, p) == PictureAt(cpu, ram, p)
  }

  lemma {:induction false} VertexIsOnPolyline(vs: seq<Point>, i: nat)
    requires i < |vs|
    ensures OnPolyline(vs, vs[i])
  {
    if |vs| > 1 {
      var k := if i == 0 then 1 else i;
      LineStartsAndEnds(vs[k - 1], vs[k]);
      assert LinePoints(vs[k - 1], vs[k])[0] == vs[k - 1];
      assert LinePoints(vs[k - 1], vs[k])[Major(vs[k - 1], vs[k])] == vs[k];
      assert vs[i] in LinePoints(vs[k - 1], vs[k]);
    }
  }

  /** What a reader of the screen relies on: each of the last sixty readings stands in its column, the newest in
      the last one, at the height of its value, 100 % on top; where both fall on one pixel it shows RAM. */
  lemma {:induction false} ReadingsAreShown(bytes: seq<bv8>, cpu: seq<byte>, ram: seq<byte>, i: nat)
    returns (column: nat, cpuRow: nat, ramRow: nat)
    requires TREND_BYTES <= |bytes| && i < |cpu| == |ram| <= 60 && Shows(bytes, cpu, ram)
    requires cpu[i] <= 100 && ram[i] <= 100
    ensures 59 * column <= (60 - |cpu| + i) * 191 < 59 * column + 59
    ensures 100 * cpuRow <= (100 - cpu[i]) * 79 < 100 * cpuRow + 100
    ensures 100 * ramRow <= (100 - ram[i]) * 79 < 100 * ramRow + 100
    ensures column < 192 && cpuRow < 80 && ramRow < 80 && (i == |cpu| - 1 ==> column == 191)
    ensures PixelAt(bytes, Point(column, ramRow)) == 2 && PixelAt(bytes, Point(column, cpuRow)) in {1, 2}
  {
    column, cpuRow := VertexOf(cpu, i);
    column, ramRow := VertexOf(ram, i);
    var c, r := Point(column, cpuRow), Point(column, ramRow);
    assert PixelAt(bytes, c) == PictureAt(cpu, ram, c);
    assert PixelAt(bytes, r) == PictureAt(cpu, ram, r);
  }

  lemma {:induction false} VertexOf(series: seq<byte>, i: nat) returns (column: nat, row: nat)
    requires i < |series| <= 60 && series[i] <= 100
    ensures column == (60 - |series| + i) * 191 / 59
    ensures 59 * column <= (60 - |series| + i) * 191 < 59 * column + 59 && (i == |series| - 1 ==> column == 191)
    ensures column < 192 && row < 80 && 100 * row <= (100 - series[i]) * 79 < 100 * row + 100
    ensures OnPolyline(Vertices(series), Point(column, row))
  {
    VerticesStayOnCanvas(series);
    VertexIsToScale(|series|, i, series[i]);
    VertexIsOnPolyline(Vertices(series), i);
    assert InGrid(Vertices(series)[i]);
    column, row := Vertices(series)[i].x, Vertices(series)[i].y;
    assert Vertices(series)[i] == Point(column, row);
  }

  // ---- the ring ----

  function Slot(n: nat): nat {
    n % SLOTS
  }

  /** The samples a ring holds, oldest first, for any head and any count. */
  function RingSeries(ring: seq<byte>, head: nat, count: nat): (series: seq<byte>)
    requires |ring| == SLOTS
    ensures |series| == if count > SLOTS then SLOTS else count
  {
    var n := if count > SLOTS then SLOTS else count;
    seq(n, i requires 0 <= i < n => ring[Slot(head + SLOTS - n + i)])
  }

  /** The ring stores value number `j` in slot `j` modulo sixty, for the last sixty values. */
  ghost predicate RingHolds(ring: seq<byte>, values: seq<byte>) {
    && |ring| == SLOTS
    && forall j | 0 <= j < |values| && |values| <= j + SLOTS :: ring[Slot(j)] == values[j]
  }

  lemma {:induction false} NearbySlotsDiffer(i: nat, j: nat)
    requires i < j < i + SLOTS
    ensures Slot(i) != Slot(j)
  {
  }

  lemma {:induction false} PushIntoRing(ring: seq<byte>, values: seq<byte>, v: byte)
    requires RingHolds(ring, values)
    ensures RingHolds(ring[Slot(|values|) := v], values + [v])
  {
    var values', ring' := values + [v], ring[Slot(|values|) := v];
    forall j | 0 <= j < |values'| && |values'| <= j + SLOTS
      ensures ring'[Slot(j)] == values'[j]
    {
      if j < |values| { NearbySlotsDiffer(j, |values|); }
    }
  }

  /** Read from its oldest slot, the ring is the tail of everything pushed. */
  lemma {:induction false} RingIsLastSixty(ring: seq<byte>, values: seq<byte>)
    requires RingHolds(ring, values)
    ensures RingSeries(ring, Slot(|values|), |values|) == Last(values, SLOTS)
  {
    var n := if |values| > SLOTS then SLOTS else |values|;
    forall i | 0 <= i < n
      ensures RingSeries(ring, Slot(|values|), |values|)[i] == Last(values, SLOTS)[i]
    {
      var j := |values| - n + i;
      SlotsWrap(|values|, n, i);
      assert ring[Slot(j)] == values[j];
    }
  }

  lemma {:induction false} SlotsWrap(total: nat, n: nat, i: nat)
    requires i < n <= SLOTS && n <= total
    ensures Slot(Slot(total) + SLOTS - n + i) == Slot(total - n + i)
  {
  }

  class History {
    const cpu: array<byte>
    const ram: array<byte>
    var head: byte
    var count: byte
    var next: nat
    ghost var updates: seq<Update>

    ghost predicate Shape() {
      cpu.Length == SLOTS && ram.Length == SLOTS && cpu != ram
    }

    ghost function Samples(): seq<Sample>
      reads this
    {
      AcceptAll(updates).samples
    }

    ghost predicate Valid()
      reads this, cpu, ram
    {
      Shape() && Keeps(AcceptAll(updates))
    }

    /** The state that a log of accepted samples leaves. */
    ghost predicate Keeps(log: Log)
      reads this, cpu, ram
      requires Shape()
    {
      && next == log.due
      && head == Slot(|log.samples|)
      && count == (if |log.samples| > SLOTS then SLOTS else |log.samples|)
      && RingHolds(cpu[..], CpuSeries(log.samples))
      && RingHolds(ram[..], RamSeries(log.samples))
    }

    constructor ()
      ensures Valid() && updates == [] && fresh(cpu) && fresh(ram)
    {
      cpu, ram := new byte[SLOTS], new byte[SLOTS];
      head, count, next := 0, 0, 0;
      updates := [];
    }

    method Add(u: Update)
      requires Valid()
      modifies this, cpu, ram
      ensures Valid() && updates == old(updates) + [u]
      ensures if next == old(next) then Samples() == old(Samples()) else |Samples()| == old(|Samples()|) + 1
    {
      ghost var log := AcceptAll(updates);
      AcceptedSamplesAreSpaced(updates);
      assert (updates + [u])[..|updates|] == updates;
      updates := updates + [u];
      if !u.hasData || !u.online || u.now < next { return; }
      Take(u, log);
    }

    method Take(u: Update, ghost log: Log)
      requires Shape() && Keeps(log) && u.hasData && u.online && u.now >= next
      modifies `head, `count, `next, cpu, ram
      ensures Keeps(Accept(log, u))
    {
      SeriesOfPush(log.samples, Sample(u.cpuUsage.Floor, u.memoryPercent.Floor, u.now));
      Store(u.cpuUsage.Floor, u.memoryPercent.Floor, CpuSeries(log.samples), RamSeries(log.samples));
      head := (head + 1) % SLOTS;
      if count < SLOTS { count := count + 1; }
      next := u.now + SAMPLE_INTERVAL_MS;
    }

    /** Both rings take a value in the head slot. */
    method Store(cpuValue: byte, ramValue: byte, ghost cpuSeries: seq<byte>, ghost ramSeries: seq<byte>)
      requires Shape() && head == Slot(|cpuSeries|) == Slot(|ramSeries|)
      requires RingHolds(cpu[..], cpuSeries) && RingHolds(ram[..], ramSeries)
      modifies cpu, ram
      ensures RingHolds(cpu[..], cpuSeries + [cpuValue]) && RingHolds(ram[..], ramSeries + [ramValue])
    {
      PushIntoRing(cpu[..], cpuSeries, cpuValue);
      PushIntoRing(ram[..], ramSeries, ramValue);
      ghost var cpuRing, ramRing := cpu[..][head := cpuValue], ram[..][head := ramValue];
      cpu[head] := cpuValue;
      ram[head] := ramValue;
      assert cpu[..] == cpuRing && ram[..] == ramRing;
    }
  }

  lemma {:induction false} SeriesOfPush(samples: seq<Sample>, s: Sample)
    ensures CpuSeries(samples + [s]) == CpuSeries(samples) + [s.cpu]
    ensures RamSeries(samples + [s]) == RamSeries(samples) + [s.ram]
    ensures Slot(|samples| + 1) == (Slot(|samples|) + 1) % SLOTS
  {
  }
}
