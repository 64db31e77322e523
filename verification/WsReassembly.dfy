/** Reassembly of websocket text messages from frames that arrive in chunks
    (sections 5.2 and 5.4 of RFC 6455). */
module WsReassembly {
  import opened Common

  newtype size_t = n: int | 0 <= n < 0x1_0000_0000

  const JSON_MAX := 4096
  const TEXT := 1
  const CONTINUATION := 0

  /** The receive buffer as a value: the bytes collected so far. */
  datatype Assembly = Assembly(active: bool, frameOffset: nat, bytes: seq<byte>)

  const IDLE := Assembly(false, 0, [])

  /** One call: the chunk of a frame that starts at `offset` within it. */
  datatype Chunk = Chunk(opcode: int, fin: bool, frameSize: nat, offset: nat, data: seq<byte>)

  ghost predicate Sound(a: Assembly) {
    a.frameOffset <= |a.bytes| <= JSON_MAX && (!a.active ==> a.frameOffset == 0)
  }

  /** The new buffer and the return code: 1 complete, 0 pending, -1 rejected. */
  function Step(a: Assembly, c: Chunk): (r: (Assembly, int))
    requires Sound(a)
    ensures Sound(r.0) && (r.1 == -1 ==> r.0 == IDLE) && (r.1 == 1 ==> !r.0.active)
  {
    var opening := c.opcode == TEXT && c.offset == 0;
    if opening && a.active then (IDLE, -1)
    else
      var b := if opening then Assembly(true, 0, []) else a;
      if (c.opcode != CONTINUATION && c.opcode != TEXT) || !b.active || c.offset != b.frameOffset
         || c.offset > c.frameSize || |c.data| > c.frameSize - c.offset
         || c.frameSize > JSON_MAX - |b.bytes| + c.offset || |c.data| > JSON_MAX - |b.bytes|
      then (IDLE, -1)
      else
        var bytes := b.bytes + c.data;
        if c.offset + |c.data| < c.frameSize then (Assembly(true, b.frameOffset + |c.data|, bytes), 0)
        else if c.fin then (Assembly(false, 0, bytes), 1)
        else (Assembly(true, 0, bytes), 0)
  }

  /** The buffer in memory: `used` bytes of a fixed array that also holds the terminator. */
  class WsBuffer {
    const data: array<byte>
    var used: size_t
    var frameOffset: size_t
    var active: bool

    ghost predicate Valid()
      reads this
    {
      data.Length == JSON_MAX + 1 && frameOffset <= used <= JSON_MAX as size_t && (!active ==> frameOffset == 0)
    }

    ghost function Contents(): (a: Assembly)
      requires Valid()
      reads this, data
      ensures Sound(a)
    {
      Assembly(active, frameOffset as nat, data[..used])
    }

    constructor ()
      ensures Valid() && Contents() == IDLE
    {
      data := new byte[JSON_MAX + 1];
      used, frameOffset, active := 0, 0, false;
    }

    /** Every subtraction and every array access below is checked in 32-bit unsigned arithmetic: the
        guards are in the order that keeps each of them from wrapping. */
    method Receive(opcode: int, fin: bool, frameSize: size_t, offset: size_t, chunk: seq<byte>, n: size_t)
      returns (result: int)
      requires Valid() && |chunk| == n as int
      modifies this, data
      ensures Valid()
      ensures (Contents(), result) == Step(old(Contents()), Chunk(opcode, fin, frameSize as nat, offset as nat, chunk))
      ensures result == 1 ==> data[used] == 0
    {
      if opcode == TEXT && offset == 0 {
        if active {
          used, frameOffset, active := 0, 0, false;
          return -1;
        }
        used, frameOffset, active := 0, 0, true;
      }
      if (opcode != CONTINUATION && opcode != TEXT) || !active || offset != frameOffset
         || offset > frameSize || n > frameSize - offset
         || frameSize > JSON_MAX as size_t - used + offset || n > JSON_MAX as size_t - used
      {
        used, frameOffset, active := 0, 0, false;
        return -1;
      }
      forall i | 0 <= i < n as int { data[used as int + i] := chunk[i]; }
      assert data[..used as int + n as int] == old(data[..])[..used] + chunk;
      used, frameOffset := used + n, frameOffset + n;
      if offset + n == frameSize {
        frameOffset := 0;
        if fin {
          data[used] := 0;
          active := false;
          return 1;
        }
      }
      return 0;
    }
  }

  // ---- runs of chunks ----

  /** What a run of chunks leaves behind: the buffer, every return code, and every text handed on. */
  datatype Outcome = Outcome(end: Assembly, results: seq<int>, delivered: seq<seq<byte>>)

  function Then(first: Outcome, second: Outcome): Outcome {
    Outcome(second.end, first.results + second.results, first.delivered + second.delivered)
  }

  function Run(a: Assembly, cs: seq<Chunk>): (o: Outcome)
    requires Sound(a)
    ensures Sound(o.end) && |o.results| == |cs|
    decreases |cs|
  {
    if cs == [] then Outcome(a, [], [])
    else
      Then(One(a, cs[0]), Run(One(a, cs[0]).end, cs[1..]))
  }

  lemma {:induction false} ThenAssociates(x: Outcome, y: Outcome, z: Outcome)
    ensures Then(Then(x, y), z) == Then(x, Then(y, z))
  {
  }

  /** What one chunk leaves behind. */
  function One(a: Assembly, c: Chunk): (o: Outcome)
    requires Sound(a)
    ensures Sound(o.end)
  {
    var (b, r) := Step(a, c);
    Outcome(b, [r], if r == 1 then [b.bytes] else [])
  }

  lemma {:induction false} RunOfOne(a: Assembly, c: Chunk, rest: seq<Chunk>)
    requires Sound(a)
    ensures Run(a, [c] + rest) == Then(One(a, c), Run(One(a, c).end, rest))
  {
    assert ([c] + rest)[1..] == rest;
  }

  lemma {:induction false} RunInTwo(a: Assembly, xs: seq<Chunk>, ys: seq<Chunk>)
    requires Sound(a)
    ensures Run(a, xs + ys) == Then(Run(a, xs), Run(Run(a, xs).end, ys))
    decreases |xs|
  {
    if xs == [] {
      assert xs + ys == ys;
    } else {
      var first := One(a, xs[0]);
      var tail := Run(first.end, xs[1..]);
      RunInTwo(first.end, xs[1..], ys);
      RunOfOne(a, xs[0], xs[1..] + ys);
      assert xs + ys == [xs[0]] + (xs[1..] + ys);
      ThenAssociates(first, tail, Run(tail.end, ys));
    }
  }

  // ---- well-formed messages ----

  /** A frame's payload as the transport cut it up. */
  datatype Frame = Frame(cut: seq<seq<byte>>)

  function Flatten(parts: seq<seq<byte>>): seq<byte> {
    if parts == [] then [] else parts[0] + Flatten(parts[1..])
  }

  /** Non-empty pieces, except that an empty frame comes as one empty piece. */
  ghost predicate WellCut(cut: seq<seq<byte>>) {
    |cut| > 0 && (|cut| > 1 ==> forall part | part in cut :: part != [])
  }

  lemma {:induction false} RestIsWellCut(cut: seq<seq<byte>>)
    requires WellCut(cut) && |cut| > 1
    ensures WellCut(cut[1..]) && cut[0] != [] && Flatten(cut[1..]) != []
  {
    assert cut[0] in cut && cut[1] in cut;
    forall part | part in cut[1..] ensures part != [] { assert part in cut; }
    assert Flatten(cut[1..]) == cut[1] + Flatten(cut[1..][1..]);
  }

  ghost predicate WellFormed(frames: seq<Frame>) {
    frames != [] && forall f | f in frames :: WellCut(f.cut)
  }

  function Payload(frames: seq<Frame>): seq<byte> {
    if frames == [] then [] else Flatten(frames[0].cut) + Payload(frames[1..])
  }

  function FrameChunks(opcode: int, fin: bool, size: nat, offset: nat, cut: seq<seq<byte>>): (cs: seq<Chunk>)
    ensures |cs| == |cut|
    decreases |cut|
  {
    if cut == [] then []
    else [Chunk(opcode, fin, size, offset, cut[0])] + FrameChunks(opcode, fin, size, offset + |cut[0]|, cut[1..])
  }

  /** The first frame is a text frame, the others continue it, the last one is final. */
  function MessageChunks(opcode: int, frames: seq<Frame>): seq<Chunk>
    decreases |frames|
  {
    if frames == [] then []
    else
      FrameChunks(opcode, |frames| == 1, |Flatten(frames[0].cut)|, 0, frames[0].cut)
      + MessageChunks(CONTINUATION, frames[1..])
  }

  // ---- what happens to one frame ----

  predicate Opens(c: Chunk) {
    c.opcode == TEXT && c.offset == 0
  }

  lemma {:induction false} InactiveRejectsEverything(a: Assembly, cs: seq<Chunk>)
    requires Sound(a) && !a.active && forall c | c in cs :: !Opens(c)
    ensures Run(a, cs) == Outcome(if cs == [] then a else IDLE, Repeat(-1, |cs|), [])
    decreases |cs|
  {
    if cs != [] {
      assert !Opens(cs[0]);
      InactiveRejectsEverything(IDLE, cs[1..]);
      assert [-1] + Repeat(-1, |cs| - 1) == Repeat(-1, |cs|);
    }
  }

  /** A frame taken whole, with a verdict only on its last chunk. */
  function Taken(b: Assembly, fin: bool, cut: seq<seq<byte>>): Outcome
    requires cut != []
  {
    var bytes := b.bytes + Flatten(cut);
    Outcome(Assembly(!fin, 0, bytes), Repeat(0, |cut| - 1) + [if fin then 1 else 0], if fin then [bytes] else [])
  }

  function Next(b: Assembly, part: seq<byte>): Assembly {
    Assembly(true, b.frameOffset + |part|, b.bytes + part)
  }

  lemma {:induction false} TakenInTwo(b: Assembly, fin: bool, cut: seq<seq<byte>>)
    requires |cut| > 1
    ensures Taken(b, fin, cut) == Then(Outcome(Next(b, cut[0]), [0], []), Taken(Next(b, cut[0]), fin, cut[1..]))
  {
    var n := |cut| - 2;
    assert b.bytes + cut[0] + Flatten(cut[1..]) == b.bytes + Flatten(cut);
    assert [0] + (Repeat(0, n) + [if fin then 1 else 0]) == Repeat(0, n + 1) + [if fin then 1 else 0];
  }

  lemma {:induction false} TakenAtOnce(b: Assembly, fin: bool, part: seq<byte>)
    ensures var bytes := b.bytes + part;
            Taken(b, fin, [part]) ==
            Outcome(Assembly(!fin, 0, bytes), [if fin then 1 else 0], if fin then [bytes] else [])
  {
    assert Flatten([part]) == part;
    assert Repeat(0, 0) == [];
  }

  /** The rest of a frame that fits is taken whole. */
  lemma {:induction false} FrameIsTaken(b: Assembly, fin: bool, size: nat, offset: nat, cut: seq<seq<byte>>)
    requires Sound(b) && b.active && b.frameOffset == offset && WellCut(cut)
    requires offset + |Flatten(cut)| == size && |b.bytes| + |Flatten(cut)| <= JSON_MAX
    ensures Run(b, FrameChunks(CONTINUATION, fin, size, offset, cut)) == Taken(b, fin, cut)
    decreases |cut|
  {
    FlattenLength(cut);
    if |cut| == 1 {
      LoneChunkIsTaken(b, fin, size, offset, cut[0]);
    } else {
      RestIsWellCut(cut);
      FrameIsTaken(Next(b, cut[0]), fin, size, offset + |cut[0]|, cut[1..]);
      OneMoreChunkIsTaken(b, fin, size, offset, cut);
    }
  }

  lemma {:induction false} FlattenLength(cut: seq<seq<byte>>)
    requires cut != []
    ensures |Flatten(cut)| == |cut[0]| + |Flatten(cut[1..])|
    ensures |cut| == 1 ==> cut == [cut[0]] && |Flatten(cut)| == |cut[0]|
  {
  }

  lemma {:induction false} LoneChunkIsTaken(b: Assembly, fin: bool, size: nat, offset: nat, part: seq<byte>)
    requires Sound(b) && b.active && b.frameOffset == offset && offset + |part| == size
             && |b.bytes| + |part| <= JSON_MAX
    ensures Run(b, FrameChunks(CONTINUATION, fin, size, offset, [part])) == Taken(b, fin, [part])
  {
    var c := Chunk(CONTINUATION, fin, size, offset, part);
    TakenAtOnce(b, fin, part);
    LastChunkIsTaken(b, c);
    RunOfOne(b, c, []);
    ThenNothing(One(b, c));
    assert [part][1..] == [];
  }

  lemma {:induction false} OneMoreChunkIsTaken(b: Assembly, fin: bool, size: nat, offset: nat, cut: seq<seq<byte>>)
    requires Sound(b) && b.active && b.frameOffset == offset && |cut| > 1
    requires offset + |cut[0]| < size && |b.bytes| + size - offset <= JSON_MAX
    requires Run(Next(b, cut[0]), FrameChunks(CONTINUATION, fin, size, offset + |cut[0]|, cut[1..])) ==
             Taken(Next(b, cut[0]), fin, cut[1..])
    ensures Run(b, FrameChunks(CONTINUATION, fin, size, offset, cut)) == Taken(b, fin, cut)
  {
    var c := Chunk(CONTINUATION, fin, size, offset, cut[0]);
    MiddleChunkIsTaken(b, c);
    RunOfOne(b, c, FrameChunks(CONTINUATION, fin, size, offset + |cut[0]|, cut[1..]));
    TakenInTwo(b, fin, cut);
  }

  lemma {:induction false} MiddleChunkIsTaken(b: Assembly, c: Chunk)
    requires Sound(b) && b.active && c.opcode == CONTINUATION && c.offset == b.frameOffset
    requires c.offset + |c.data| < c.frameSize && |b.bytes| + c.frameSize - c.offset <= JSON_MAX
    ensures One(b, c) == Outcome(Next(b, c.data), [0], [])
  {
  }

  lemma {:induction false} LastChunkIsTaken(b: Assembly, c: Chunk)
    requires Sound(b) && b.active && c.opcode == CONTINUATION && c.offset == b.frameOffset
    requires c.offset + |c.data| == c.frameSize && |b.bytes| + |c.data| <= JSON_MAX
    ensures var bytes := b.bytes + c.data;
            One(b, c) == Outcome(Assembly(!c.fin, 0, bytes), [if c.fin then 1 else 0], if c.fin then [bytes] else [])
  {
  }

  lemma {:induction false} ThenNothing(o: Outcome)
    ensures Then(o, Outcome(o.end, [], [])) == o
  {
  }

  lemma {:induction false} LaterChunksDoNotOpen(opcode: int, fin: bool, size: nat, offset: nat, cut: seq<seq<byte>>)
    requires opcode == CONTINUATION || offset > 0
    ensures forall c | c in FrameChunks(opcode, fin, size, offset, cut) :: !Opens(c)
    decreases |cut|
  {
    if cut != [] {
      LaterChunksDoNotOpen(opcode, fin, size, offset + |cut[0]|, cut[1..]);
    }
  }

  lemma {:induction false} ContinuationsDoNotOpen(frames: seq<Frame>)
    ensures forall c | c in MessageChunks(CONTINUATION, frames) :: !Opens(c)
  {
    if frames != [] {
      LaterChunksDoNotOpen(CONTINUATION, |frames| == 1, |Flatten(frames[0].cut)|, 0, frames[0].cut);
      ContinuationsDoNotOpen(frames[1..]);
    }
  }

  /** Only the first chunk of a message can open it. */
  lemma {:induction false} OnlyTheFirstChunkOpens(frames: seq<Frame>)
    requires WellFormed(frames)
    ensures MessageChunks(TEXT, frames) != [] && Opens(MessageChunks(TEXT, frames)[0])
    ensures forall c | c in MessageChunks(TEXT, frames)[1..] :: !Opens(c)
  {
    var cut := frames[0].cut;
    var whole := FrameChunks(TEXT, |frames| == 1, |Flatten(cut)|, 0, cut);
    var later := FrameChunks(TEXT, |frames| == 1, |Flatten(cut)|, |cut[0]|, cut[1..]);
    assert whole[1..] == later;
    if |cut| > 1 { RestIsWellCut(cut); LaterChunksDoNotOpen(TEXT, |frames| == 1, |Flatten(cut)|, |cut[0]|, cut[1..]); }
    ContinuationsDoNotOpen(frames[1..]);
    assert MessageChunks(TEXT, frames)[1..] == later + MessageChunks(CONTINUATION, frames[1..]);
  }

  // ---- what happens to one message ----

  const OPENED := Assembly(true, 0, [])

  lemma {:induction false} SameRun(a: Assembly, b: Assembly, c: Chunk, d: Chunk, cs: seq<Chunk>, ds: seq<Chunk>)
    requires Sound(a) && Sound(b) && One(a, c) == One(b, d)
    requires Run(One(a, c).end, cs) == Run(One(b, d).end, ds)
    ensures Run(a, [c] + cs) == Run(b, [d] + ds)
  {
    RunOfOne(a, c, cs);
    RunOfOne(b, d, ds);
  }

  lemma {:induction false} OneForgets(a: Assembly, c: Chunk, d: Chunk)
    requires Sound(a) && c.offset > 0 && c.opcode == TEXT && d == c.(opcode := CONTINUATION)
    ensures One(a, c) == One(a, d)
  {
  }

  /** Past the first byte of a frame the opcode makes no difference. */
  lemma {:induction false} OpcodeIsForgotten(a: Assembly, fin: bool, size: nat, offset: nat, cut: seq<seq<byte>>)
    requires Sound(a) && offset > 0
    ensures Run(a, FrameChunks(TEXT, fin, size, offset, cut)) ==
            Run(a, FrameChunks(CONTINUATION, fin, size, offset, cut))
    decreases |cut|
  {
    if cut != [] {
      var c, later, rest := Chunk(TEXT, fin, size, offset, cut[0]), offset + |cut[0]|, cut[1..];
      var d := Chunk(CONTINUATION, fin, size, offset, cut[0]);
      OneForgets(a, c, d);
      OpcodeIsForgotten(One(a, c).end, fin, size, later, rest);
      SameRun(a, a, c, d, FrameChunks(TEXT, fin, size, later, rest), FrameChunks(CONTINUATION, fin, size, later, rest));
    }
  }

  /** A text frame that opens a message is treated like a continuation of an empty one. */
  lemma {:induction false} OpeningIsContinuing(a: Assembly, fin: bool, size: nat, cut: seq<seq<byte>>)
    requires Sound(a) && !a.active && WellCut(cut)
    ensures Run(a, FrameChunks(TEXT, fin, size, 0, cut)) == Run(OPENED, FrameChunks(CONTINUATION, fin, size, 0, cut))
  {
    var c, later, rest := Chunk(TEXT, fin, size, 0, cut[0]), |cut[0]|, cut[1..];
    if |cut| > 1 {
      RestIsWellCut(cut);
      OpcodeIsForgotten(One(a, c).end, fin, size, later, rest);
    }
    SameRun(a, OPENED, c, c.(opcode := CONTINUATION),
            FrameChunks(TEXT, fin, size, later, rest), FrameChunks(CONTINUATION, fin, size, later, rest));
  }

  ghost predicate AllCut(frames: seq<Frame>) {
    forall f | f in frames :: f.cut != []
  }

  /** The verdicts on the frames from here on, when `used` bytes are already collected: pending up
      to the first frame that does not fit, rejected from its first chunk to the very end. */
  function Verdicts(frames: seq<Frame>, used: nat): (codes: seq<int>)
    requires AllCut(frames)
    decreases |frames|
  {
    if frames == [] then []
    else
      var cut := frames[0].cut;
      if used + |Flatten(cut)| > JSON_MAX then Repeat(-1, ChunkCount(frames))
      else Repeat(0, |cut| - 1) + [if |frames| == 1 then 1 else 0] + Verdicts(frames[1..], used + |Flatten(cut)|)
  }

  function ChunkCount(frames: seq<Frame>): nat {
    if frames == [] then 0 else |frames[0].cut| + ChunkCount(frames[1..])
  }

  /** The chunks of the leading frames that fit into the space left after `used` bytes. */
  function ChunksBeforeOverflow(frames: seq<Frame>, used: nat): (k: nat)
    ensures k <= ChunkCount(frames)
  {
    if frames == [] || used + |Flatten(frames[0].cut)| > JSON_MAX then 0
    else |frames[0].cut| + ChunksBeforeOverflow(frames[1..], used + |Flatten(frames[0].cut)|)
  }

  lemma {:induction false} RestIsCut(frames: seq<Frame>)
    requires AllCut(frames) && frames != []
    ensures frames[0].cut != [] && AllCut(frames[1..])
  {
    assert frames[0] in frames && forall f | f in frames[1..] :: f in frames;
  }

  lemma {:induction false} VerdictsAreComplete(frames: seq<Frame>, used: nat)
    requires AllCut(frames)
    ensures |Verdicts(frames, used)| == ChunkCount(frames)
    decreases |frames|
  {
    if frames != [] {
      RestIsCut(frames);
      VerdictsAreComplete(frames[1..], used + |Flatten(frames[0].cut)|);
    }
  }

  /** 1 on the very last chunk of a message that fits; otherwise 0 up to the first frame that overflows and
      -1 on every chunk from there. */
  function VerdictOf(frames: seq<Frame>, used: nat, i: nat): int {
    if used + |Payload(frames)| > JSON_MAX then (if i < ChunksBeforeOverflow(frames, used) then 0 else -1)
    else (if i + 1 < ChunkCount(frames) then 0 else 1)
  }

  /** The verdicts in all, chunk by chunk. */
  lemma {:induction false} VerdictAt(frames: seq<Frame>, used: nat, i: nat)
    requires i < ChunkCount(frames) && AllCut(frames)
    ensures |Verdicts(frames, used)| == ChunkCount(frames) && Verdicts(frames, used)[i] == VerdictOf(frames, used, i)
    decreases |frames|
  {
    VerdictsAreComplete(frames, used);
    RestIsCut(frames);
    var n, later := |frames[0].cut|, used + |Flatten(frames[0].cut)|;
    if later <= JSON_MAX {
      VerdictsOfFirst(frames, used, i);
      VerdictOfFirst(frames, used, i);
      if i >= n { VerdictAt(frames[1..], later, i - n); }
    } else {
      PayloadLength(frames);
    }
  }

  lemma {:induction false} VerdictOfFirst(frames: seq<Frame>, used: nat, i: nat)
    requires AllCut(frames) && i < ChunkCount(frames) && used + |Flatten(frames[0].cut)| <= JSON_MAX
    ensures var n := |frames[0].cut|;
            VerdictOf(frames, used, i) == if i < n then (if i == n - 1 && |frames| == 1 then 1 else 0)
                                          else VerdictOf(frames[1..], used + |Flatten(frames[0].cut)|, i - n)
  {
    PayloadLength(frames);
    RestIsCut(frames);
    if |frames| > 1 { RestIsCut(frames[1..]); }
  }

  lemma {:induction false} PayloadLength(frames: seq<Frame>)
    requires frames != []
    ensures |Payload(frames)| == |Flatten(frames[0].cut)| + |Payload(frames[1..])|
  {
  }

  /** When the first frame fits: its own verdicts, then those of the rest. */
  lemma {:induction false} VerdictsOfFirst(frames: seq<Frame>, used: nat, i: nat)
    requires AllCut(frames) && i < ChunkCount(frames) && used + |Flatten(frames[0].cut)| <= JSON_MAX
    ensures frames[0].cut != [] && AllCut(frames[1..]) && |Verdicts(frames, used)| == ChunkCount(frames)
    ensures var n, later := |frames[0].cut|, Verdicts(frames[1..], used + |Flatten(frames[0].cut)|);
            && (i >= n ==> i - n < |later| && Verdicts(frames, used)[i] == later[i - n])
            && (i < n ==> Verdicts(frames, used)[i] == if i == n - 1 && |frames| == 1 then 1 else 0)
  {
    RestIsCut(frames);
    VerdictsAreComplete(frames, used);
  }

  lemma {:induction false} ChunkCountCounts(opcode: int, frames: seq<Frame>)
    ensures |MessageChunks(opcode, frames)| == ChunkCount(frames)
    decreases |frames|
  {
    if frames != [] { ChunkCountCounts(CONTINUATION, frames[1..]); }
  }

  /** A frame that does not fit is rejected at its first chunk, and so is all that follows. */
  lemma {:induction false} FrameOverflows(b: Assembly, frames: seq<Frame>)
    requires Sound(b) && b.active && b.frameOffset == 0 && WellFormed(frames)
    requires |b.bytes| + |Flatten(frames[0].cut)| > JSON_MAX && frames[0].cut != []
    ensures Run(b, MessageChunks(CONTINUATION, frames)) == Outcome(IDLE, Repeat(-1, ChunkCount(frames)), [])
  {
    var all := MessageChunks(CONTINUATION, frames);
    ChunkCountCounts(CONTINUATION, frames);
    ContinuationsDoNotOpen(frames);
    assert all[0] == FrameChunks(CONTINUATION, |frames| == 1, |Flatten(frames[0].cut)|, 0, frames[0].cut)[0];
    assert One(b, all[0]) == Outcome(IDLE, [-1], []);
    RejectedFromTheStart(b, all);
  }

  lemma {:induction false} RejectedFromTheStart(a: Assembly, cs: seq<Chunk>)
    requires Sound(a) && cs != [] && One(a, cs[0]) == Outcome(IDLE, [-1], [])
    requires forall c | c in cs[1..] :: !Opens(c)
    ensures Run(a, cs) == Outcome(IDLE, Repeat(-1, |cs|), [])
  {
    InactiveRejectsEverything(IDLE, cs[1..]);
    ThenRejected(|cs| - 1);
  }

  lemma {:induction false} ThenRejected(n: nat)
    ensures Then(Outcome(IDLE, [-1], []), Outcome(IDLE, Repeat(-1, n), [])) == Outcome(IDLE, Repeat(-1, n + 1), [])
  {
    assert [-1] + Repeat(-1, n) == Repeat(-1, n + 1);
  }

  lemma {:induction false} FrameFits(b: Assembly, frames: seq<Frame>)
    requires Sound(b) && b.active && b.frameOffset == 0 && frames != [] && WellCut(frames[0].cut)
    requires |b.bytes| + |Flatten(frames[0].cut)| <= JSON_MAX
    ensures var o := FrameOutcome(b.bytes, frames);
            Run(b, MessageChunks(CONTINUATION, frames)) == Then(o, Run(o.end, MessageChunks(CONTINUATION, frames[1..])))
  {
    var cut, fin := frames[0].cut, |frames| == 1;
    RunInTwo(b, FrameChunks(CONTINUATION, fin, |Flatten(cut)|, 0, cut), MessageChunks(CONTINUATION, frames[1..]));
    FrameIsTaken(b, fin, |Flatten(cut)|, 0, cut);
  }

  /** The expected outcome of the frames of a message, with `bytes` already collected. */
  function Expected(bytes: seq<byte>, frames: seq<Frame>): Outcome
    requires AllCut(frames)
  {
    var all := bytes + Payload(frames);
    if |all| <= JSON_MAX then Outcome(Assembly(false, 0, all), Verdicts(frames, |bytes|), [all])
    else Outcome(IDLE, Verdicts(frames, |bytes|), [])
  }

  /** The outcome of a frame that fits, as far as that frame decides it. */
  function FrameOutcome(bytes: seq<byte>, frames: seq<Frame>): Outcome
    requires frames != [] && frames[0].cut != []
  {
    var all, fin := bytes + Flatten(frames[0].cut), |frames| == 1;
    Outcome(Assembly(!fin, 0, all), Repeat(0, |frames[0].cut| - 1) + [if fin then 1 else 0], if fin then [all] else [])
  }

  lemma {:induction false} ExpectedFrameByFrame(bytes: seq<byte>, frames: seq<Frame>)
    requires frames != [] && AllCut(frames)
    requires frames[0].cut != [] && |bytes| + |Flatten(frames[0].cut)| <= JSON_MAX
    ensures var o := FrameOutcome(bytes, frames);
            Expected(bytes, frames)
            == Then(o, if |frames| == 1 then Outcome(o.end, [], []) else Expected(o.end.bytes, frames[1..]))
  {
    assert Payload(frames) == Flatten(frames[0].cut) + Payload(frames[1..]);
    assert bytes + Flatten(frames[0].cut) + Payload(frames[1..]) == bytes + Payload(frames);
    if |frames| == 1 {
      assert Payload(frames[1..]) == [] && Verdicts(frames[1..], |bytes| + |Flatten(frames[0].cut)|) == [];
    }
  }

  lemma {:induction false} RestOfMessage(b: Assembly, frames: seq<Frame>)
    requires Sound(b) && b.active && b.frameOffset == 0 && WellFormed(frames)
    ensures Run(b, MessageChunks(CONTINUATION, frames)) == Expected(b.bytes, frames)
    decreases |frames|
  {
    assert frames[0] in frames;
    if |b.bytes| + |Flatten(frames[0].cut)| > JSON_MAX {
      FrameOverflows(b, frames);
    } else {
      FrameFits(b, frames);
      ExpectedFrameByFrame(b.bytes, frames);
      if |frames| > 1 {
        assert forall f | f in frames[1..] :: f in frames;
        RestOfMessage(FrameOutcome(b.bytes, frames).end, frames[1..]);
      }
    }
  }

  /** Delivery of one message. A well-formed message of at most 4096 bytes that meets an inactive
      buffer is handed on whole by its last chunk, however it was cut; a longer one is rejected from
      the first chunk of the frame that overflows, and nothing of it is handed on; a message that
      meets an unfinished one is rejected throughout. Every case ends inactive, ready for the next. */
  lemma {:induction false} MessageIsDelivered(a: Assembly, frames: seq<Frame>)
    requires Sound(a) && WellFormed(frames)
    ensures var o, bytes := Run(a, MessageChunks(TEXT, frames)), Payload(frames);
            && o.delivered == (if !a.active && |bytes| <= JSON_MAX then [bytes] else [])
            && o.results == (if a.active then Repeat(-1, ChunkCount(frames)) else Verdicts(frames, 0))
            && !o.end.active && (o.delivered == [] ==> o.end == IDLE)
  {
    var cut := frames[0].cut;
    assert frames[0] in frames;
    ChunkCountCounts(TEXT, frames);
    if a.active {
      OnlyTheFirstChunkOpens(frames);
      RejectedFromTheStart(a, MessageChunks(TEXT, frames));
    } else {
      var size, fin, later := |Flatten(cut)|, |frames| == 1, MessageChunks(CONTINUATION, frames[1..]);
      OpeningIsContinuing(a, fin, size, cut);
      RunInTwo(a, FrameChunks(TEXT, fin, size, 0, cut), later);
      RunInTwo(OPENED, FrameChunks(CONTINUATION, fin, size, 0, cut), later);
      RestOfMessage(OPENED, frames);
      assert [] + Payload(frames) == Payload(frames);
    }
  }

  /** A stream of well-formed messages into an inactive buffer: exactly those that fit arrive, in order. */
  function StreamChunks(messages: seq<seq<Frame>>): seq<Chunk> {
    if messages == [] then [] else MessageChunks(TEXT, messages[0]) + StreamChunks(messages[1..])
  }

  function PayloadsThatFit(messages: seq<seq<Frame>>): seq<seq<byte>> {
    if messages == [] then []
    else (if |Payload(messages[0])| <= JSON_MAX then [Payload(messages[0])] else []) + PayloadsThatFit(messages[1..])
  }

  lemma {:induction false} StreamIsDelivered(a: Assembly, messages: seq<seq<Frame>>)
    requires Sound(a) && !a.active && forall m | m in messages :: WellFormed(m)
    ensures Run(a, StreamChunks(messages)).delivered == PayloadsThatFit(messages)
    decreases |messages|
  {
    if messages != [] {
      var first := MessageChunks(TEXT, messages[0]);
      MessageIsDelivered(a, messages[0]);
      RunInTwo(a, first, StreamChunks(messages[1..]));
      StreamIsDelivered(Run(a, first).end, messages[1..]);
    }
  }

  /** Whatever traffic came before, one rejected chunk is enough for the next message to get through. */
  lemma {:induction false} RejectionResynchronises(a: Assembly, traffic: seq<Chunk>, messages: seq<seq<Frame>>)
    requires Sound(a) && traffic != [] && forall m | m in messages :: WellFormed(m)
    requires Run(a, traffic).results[|traffic| - 1] == -1
    ensures Run(a, traffic).end == IDLE
    ensures Run(a, traffic + StreamChunks(messages)).delivered == Run(a, traffic).delivered + PayloadsThatFit(messages)
  {
    LastResultDecides(a, traffic);
    RunInTwo(a, traffic, StreamChunks(messages));
    StreamIsDelivered(IDLE, messages);
  }

  lemma {:induction false} LastResultDecides(a: Assembly, cs: seq<Chunk>)
    requires Sound(a) && cs != [] && Run(a, cs).results[|cs| - 1] == -1
    ensures Run(a, cs).end == IDLE
    decreases |cs|
  {
    if |cs| > 1 {
      var first := One(a, cs[0]);
      assert Run(a, cs).results[|cs| - 1] == Run(first.end, cs[1..]).results[|cs| - 2];
      LastResultDecides(first.end, cs[1..]);
    }
  }
}
