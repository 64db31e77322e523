/** What arbitrary websocket traffic amounts to: a text comes out exactly where a message is whole, and each
    return code says which part of a message the chunks up to it are. */
module WsMessages {
  import opened Common
  import opened WsReassembly

  /** The chunk takes its frame to the end. */
  predicate EndsFrame(c: Chunk) {
    c.offset + |c.data| == c.frameSize
  }

  function Data(cs: seq<Chunk>): seq<byte> {
    if cs == [] then [] else Data(cs[..|cs| - 1]) + cs[|cs| - 1].data
  }

  /** Where the next chunk has to start: at a new frame, or where the last one of its frame ended. */
  function Next(c: Chunk): nat {
    if EndsFrame(c) then 0 else c.offset + |c.data|
  }

  /** The chunk lies within its frame, and the rest of the frame has room behind `used` bytes. */
  predicate HasRoom(c: Chunk, used: nat) {
    c.offset + |c.data| <= c.frameSize && used + (c.frameSize - c.offset) <= 4096
  }

  /** The chunks of a message from its beginning: one that opens it, and each later one continues where the one
      before has ended. No chunk but the last may end a final frame. */
  ghost predicate IsPart(cs: seq<Chunk>)
    decreases |cs|
  {
    && cs != []
    && var before, c := cs[..|cs| - 1], cs[|cs| - 1];
       if before == [] then c.opcode == 1 && c.offset == 0 && HasRoom(c, 0)
       else && IsPart(before) && !IsWhole(before)
            && (c.opcode == 0 || (c.opcode == 1 && c.offset > 0))
            && c.offset == Next(before[|before| - 1]) && HasRoom(c, |Data(before)|)
  }

  /** And the last chunk ends a final frame. */
  ghost predicate IsWhole(cs: seq<Chunk>)
    decreases |cs|, 0
  {
    cs != [] && EndsFrame(cs[|cs| - 1]) && cs[|cs| - 1].fin
  }

  /** Chunk by chunk, what being a part of a message means. */
  lemma {:induction false} PartChunkByChunk(cs: seq<Chunk>, k: nat)
    requires IsPart(cs) && k < |cs|
    ensures k == 0 <==> cs[k].opcode == 1 && cs[k].offset == 0
    ensures cs[k].opcode == 0 || cs[k].opcode == 1
    ensures cs[k].offset + |cs[k].data| <= cs[k].frameSize
    ensures k > 0 ==> cs[k].offset == if cs[k - 1].offset + |cs[k - 1].data| == cs[k - 1].frameSize then 0
                                      else cs[k - 1].offset + |cs[k - 1].data|
    ensures k + 1 < |cs| ==> !(cs[k].offset + |cs[k].data| == cs[k].frameSize && cs[k].fin)
    decreases |cs|
  {
    var n := |cs| - 1;
    if k < n {
      PartChunkByChunk(cs[..n], k);
      if k == n - 1 { assert cs[..n][|cs[..n]| - 1] == cs[k]; }
    }
  }

  lemma {:induction false} DataFits(cs: seq<Chunk>)
    requires IsPart(cs)
    ensures |Data(cs)| <= 4096 && cs[|cs| - 1].offset + |cs[|cs| - 1].data| <= |Data(cs)|
    decreases |cs|
  {
    var n := |cs| - 1;
    if n > 0 { DataFits(cs[..n]); } else { assert cs[..0] == []; }
  }

  /** The buffer that holds a part of a message. */
  function Holding(cs: seq<Chunk>): Assembly
    requires cs != []
  {
    var c := cs[|cs| - 1];
    Assembly(!(EndsFrame(c) && c.fin), Next(c), Data(cs))
  }

  // ---- one step ----

  /** A chunk that meets an inactive buffer is taken exactly if it opens a message. */
  lemma {:induction false} FirstChunk(a: Assembly, c: Chunk)
    requires Sound(a) && !a.active
    ensures IsPart([c]) ==> One(a, c).end == Holding([c]) && One(a, c).results == [if IsWhole([c]) then 1 else 0]
    ensures !IsPart([c]) ==> One(a, c).results == [-1]
  {
    assert [c][..0] == [];
    assert Data([c]) == [] + c.data == c.data;
  }

  /** A chunk that meets an unfinished message is taken exactly if it continues it. */
  lemma {:induction false} LaterChunk(cs: seq<Chunk>, c: Chunk)
    requires IsPart(cs) && !IsWhole(cs)
    ensures Sound(Holding(cs))
    ensures IsPart(cs + [c]) ==> One(Holding(cs), c).end == Holding(cs + [c])
                                 && One(Holding(cs), c).results == [if IsWhole(cs + [c]) then 1 else 0]
    ensures !IsPart(cs + [c]) ==> One(Holding(cs), c).results == [-1]
  {
    DataFits(cs);
    var more := cs + [c];
    assert more[..|more| - 1] == cs && more[|more| - 1] == c;
    assert Data(more) == Data(cs) + c.data;
  }

  // ---- runs ----

  /** The buffer is inactive before chunk `j`: nothing came, or the last chunk was rejected or completed a message. */
  predicate AtRest(results: seq<int>, j: nat)
    requires j <= |results|
  {
    j == 0 || results[j - 1] != 0
  }

  lemma {:induction false} OneMore(cs: seq<Chunk>, n: nat)
    requires n < |cs|
    ensures Run(IDLE, cs[..n + 1]) == Then(Run(IDLE, cs[..n]), One(Run(IDLE, cs[..n]).end, cs[n]))
  {
    assert cs[..n + 1] == cs[..n] + [cs[n]];
    RunInTwo(IDLE, cs[..n], [cs[n]]);
    var b := Run(IDLE, cs[..n]).end;
    assert [cs[n]] + [] == [cs[n]];
    RunOfOne(b, cs[n], []);
    ThenNothing(One(b, cs[n]));
  }

  lemma {:induction false} ResultsOfPrefix(cs: seq<Chunk>, n: nat)
    requires n <= |cs|
    ensures Run(IDLE, cs[..n]).results == Run(IDLE, cs).results[..n]
  {
    assert cs == cs[..n] + cs[n..];
    RunInTwo(IDLE, cs[..n], cs[n..]);
  }

  lemma {:induction false} ActiveAfterZero(cs: seq<Chunk>, n: nat)
    requires n <= |cs|
    ensures Run(IDLE, cs[..n]).end.active <==> !AtRest(Run(IDLE, cs[..n]).results, n)
  {
    if n > 0 { OneMore(cs, n - 1); }
  }

  /** The chunk that comes at rest is taken exactly if it opens a message. */
  lemma {:induction false} Begin(cs: seq<Chunk>, j: nat)
    requires j < |cs| && AtRest(Run(IDLE, cs[..j]).results, j)
    ensures IsPart(cs[j..j + 1]) ==> Run(IDLE, cs[..j + 1]).end == Holding(cs[j..j + 1])
    ensures Run(IDLE, cs[..j + 1]).results[j]
            == if !IsPart(cs[j..j + 1]) then -1 else if IsWhole(cs[j..j + 1]) then 1 else 0
  {
    OneMore(cs, j);
    ActiveAfterZero(cs, j);
    FirstChunk(Run(IDLE, cs[..j]).end, cs[j]);
    assert cs[j..j + 1] == [cs[j]];
  }

  /** The chunk that meets an unfinished message is taken exactly if it continues it. */
  lemma {:induction false} Extend(cs: seq<Chunk>, j: nat, n: nat)
    requires j < n < |cs| && IsPart(cs[j..n]) && !IsWhole(cs[j..n]) && Run(IDLE, cs[..n]).end == Holding(cs[j..n])
    ensures IsPart(cs[j..n + 1]) ==> Run(IDLE, cs[..n + 1]).end == Holding(cs[j..n + 1])
    ensures Run(IDLE, cs[..n + 1]).results[n]
            == if !IsPart(cs[j..n + 1]) then -1 else if IsWhole(cs[j..n + 1]) then 1 else 0
  {
    OneMore(cs, n);
    LaterChunk(cs[j..n], cs[n]);
    assert cs[j..n + 1] == cs[j..n] + [cs[n]];
  }

  lemma {:induction false} PartBefore(cs: seq<Chunk>, j: nat, n: nat)
    requires j < n < |cs| && IsPart(cs[j..n + 1])
    ensures IsPart(cs[j..n]) && !IsWhole(cs[j..n])
  {
    assert cs[j..n + 1][..|cs[j..n + 1]| - 1] == cs[j..n];
  }

  /** From rest, the chunks of a part of a message are taken one by one. */
  lemma {:induction false} PartIsTaken(cs: seq<Chunk>, j: nat, n: nat)
    requires j <= n < |cs| && AtRest(Run(IDLE, cs[..j]).results, j) && IsPart(cs[j..n + 1])
    ensures Run(IDLE, cs[..n + 1]).end == Holding(cs[j..n + 1])
    ensures Run(IDLE, cs[..n + 1]).results[n] == if IsWhole(cs[j..n + 1]) then 1 else 0
    decreases n
  {
    if n == j {
      Begin(cs, j);
    } else {
      PartBefore(cs, j, n);
      PartIsTaken(cs, j, n - 1);
      Extend(cs, j, n);
    }
  }

  /** Where the message that chunk `n` belongs to begins, if it is taken. */
  lemma {:induction false} TakenBelongsToAPart(cs: seq<Chunk>, n: nat) returns (j: nat)
    requires n < |cs| && Run(IDLE, cs[..n + 1]).results[n] != -1
    ensures j <= n && AtRest(Run(IDLE, cs[..j]).results, j) && IsPart(cs[j..n + 1])
    decreases n
  {
    if AtRest(Run(IDLE, cs[..n]).results, n) {
      j := n;
      Begin(cs, n);
    } else {
      j := TakenBelongsToAPart(cs, n - 1);
      PartIsTaken(cs, j, n - 1);
      Extend(cs, j, n);
    }
  }

  /** Chunk `i` is the last of the message part that begins at rest with chunk `j`. */
  ghost predicate PartFrom(cs: seq<Chunk>, j: nat, i: nat) {
    j <= i < |cs| && AtRest(Run(IDLE, cs).results, j) && IsPart(cs[j..i + 1])
  }

  /** The return code of every chunk of any traffic whatever: 1 exactly if it completes a message, 0 exactly if
      it is taken into an unfinished one, -1 otherwise. */
  lemma {:induction false} EveryVerdict(cs: seq<Chunk>, i: nat)
    requires i < |cs|
    ensures var code := Run(IDLE, cs).results[i];
            && (code == 1 <==> exists j: nat :: PartFrom(cs, j, i) && IsWhole(cs[j..i + 1]))
            && (code == 0 <==> exists j: nat :: PartFrom(cs, j, i) && !IsWhole(cs[j..i + 1]))
            && code in {-1, 0, 1}
  {
    var results := Run(IDLE, cs).results;
    ResultsOfPrefix(cs, i + 1);
    OneMore(cs, i);
    forall j: nat | PartFrom(cs, j, i) ensures results[i] == if IsWhole(cs[j..i + 1]) then 1 else 0 {
      ResultsOfPrefix(cs, j);
      PartIsTaken(cs, j, i);
    }
    if results[i] != -1 {
      var j := TakenBelongsToAPart(cs, i);
      ResultsOfPrefix(cs, j);
      assert PartFrom(cs, j, i);
    }
  }

  /** And the text that comes out with a completing chunk is the data of its message. */
  lemma {:induction false} TextIsTheMessage(cs: seq<Chunk>, i: nat) returns (j: nat)
    requires i < |cs| && Run(IDLE, cs).results[i] == 1
    ensures PartFrom(cs, j, i) && IsWhole(cs[j..i + 1])
    ensures Run(IDLE, cs[..i + 1]).delivered == Run(IDLE, cs[..i]).delivered + [Data(cs[j..i + 1])]
  {
    ResultsOfPrefix(cs, i + 1);
    OneMore(cs, i);
    j := TakenBelongsToAPart(cs, i);
    ResultsOfPrefix(cs, j);
    PartIsTaken(cs, j, i);
  }
}
