/** What one websocket client's traffic becomes: the texts handed to the parser, and the messages taken
    from the queue, over any interleaving of the tasks during the client's life. */
module ClientStream {
  import opened Common
  import opened WsReassembly
  import opened RxUnion
  import opened Coordinator

  /** A part of a run that does not close the client. */
  ghost predicate InOneLife(s: Sys, ls: seq<Label>) {
    Inv(s) && s.ws.Some? && Possible(s, ls) && CloseClient !in ls
  }

  lemma {:induction false} LifeGoesOn(s: Sys, ls: seq<Label>)
    requires InOneLife(s, ls) && ls != []
    ensures InOneLife(Apply(s, ls[0]), ls[1..]) && ls[0] != CloseClient
  {
    assert ls[0] in ls && forall l | l in ls[1..] :: l in ls;
    StepKeepsInv(s, ls[0]);
  }

  // ---- from chunks to texts ----

  /** The chunks the client's task receives. */
  function Chunks(ls: seq<Label>): seq<Chunk> {
    if ls == [] then [] else (if ls[0].Data? then [ls[0].chunk] else []) + Chunks(ls[1..])
  }

  /** The complete texts handed to the parser. */
  ghost function Texts(s: Sys, ls: seq<Label>): seq<seq<byte>>
    requires Possible(s, ls)
    decreases |ls|
  {
    if ls == [] then [] else TextsOf(s, ls[0]) + Texts(Apply(s, ls[0]), ls[1..])
  }

  function TextsOf(s: Sys, l: Label): seq<seq<byte>>
    requires Fits(s.rx)
  {
    if l.Data? && Received(s.rx, l.chunk).1 == 1 then [View(Received(s.rx, l.chunk).0).bytes] else []
  }

  /** During one life the shared memory moves by the client's chunks alone. */
  lemma {:induction false} StepMovesTheBuffer(s: Sys, l: Label)
    requires Inv(s) && s.ws.Some? && Enabled(s, l) && l != CloseClient
    ensures if l.Data? then
              var o := One(View(s.rx), l.chunk);
              View(Apply(s, l).rx) == o.end && TextsOf(s, l) == o.delivered
            else
              Apply(s, l).rx == s.rx
  {
    if l.Data? { ReceivingIsAStep(s.rx, l.chunk); }
  }

  lemma {:induction false} TextsAreDelivered(s: Sys, ls: seq<Label>)
    requires InOneLife(s, ls)
    ensures Texts(s, ls) == WsReassembly.Run(View(s.rx), Chunks(ls)).delivered
    decreases |ls|
  {
    if ls != [] {
      var l, rest := ls[0], ls[1..];
      LifeGoesOn(s, ls);
      TextsAreDelivered(Apply(s, l), rest);
      if l.Data? { DataTextsAreDelivered(s, l, rest); } else { OtherTextsAreDelivered(s, l, rest); }
      assert Chunks(ls) == (if l.Data? then [l.chunk] else []) + Chunks(rest);
    }
  }

  lemma {:induction false} DataTextsAreDelivered(s: Sys, l: Label, rest: seq<Label>)
    requires Inv(s) && s.ws.Some? && Enabled(s, l) && l.Data? && Possible(Apply(s, l), rest)
    requires Texts(Apply(s, l), rest) == WsReassembly.Run(View(Apply(s, l).rx), Chunks(rest)).delivered
    ensures TextsOf(s, l) + Texts(Apply(s, l), rest) == WsReassembly.Run(View(s.rx), [l.chunk] + Chunks(rest)).delivered
  {
    StepMovesTheBuffer(s, l);
    RunOfOne(View(s.rx), l.chunk, Chunks(rest));
  }

  lemma {:induction false} OtherTextsAreDelivered(s: Sys, l: Label, rest: seq<Label>)
    requires Inv(s) && s.ws.Some? && Enabled(s, l) && !l.Data? && l != CloseClient && Possible(Apply(s, l), rest)
    requires Texts(Apply(s, l), rest) == WsReassembly.Run(View(Apply(s, l).rx), Chunks(rest)).delivered
    ensures TextsOf(s, l) + Texts(Apply(s, l), rest) == WsReassembly.Run(View(s.rx), [] + Chunks(rest)).delivered
  {
    StepMovesTheBuffer(s, l);
    assert [] + Chunks(rest) == Chunks(rest);
  }

  /** Whatever clients and fetches there have been before: if the chunks that a client's task receives over
      its life are those of well-formed messages, cut and interleaved anyhow, then the texts handed to
      the parser are exactly those of its messages that fit, in order. */
  lemma {:induction false} ClientHearsItsMessages(before: seq<Label>, ls: seq<Label>, messages: seq<seq<Frame>>)
    requires Possible(INIT, before) && End(INIT, before).pc == Start
    requires Possible(End(INIT, before), ls) && CloseClient !in ls
    requires Chunks(ls) == StreamChunks(messages) && forall m | m in messages :: WellFormed(m)
    ensures Texts(End(INIT, before), ls) == PayloadsThatFit(messages)
  {
    var s := End(INIT, before);
    RunKeepsInv(INIT, before);
    CleanIsIdle(s.rx);
    TextsAreDelivered(s, ls);
    StreamIsDelivered(IDLE, messages);
  }

  // ---- from parsed messages to the monitor task ----

  /** The messages that parse, and those the monitor task takes from the queue. */
  ghost function Parsed(s: Sys, ls: seq<Label>): seq<Message>
    requires Possible(s, ls)
    decreases |ls|
  {
    if ls == [] then [] else ParsedBy(s, ls[0]) + Parsed(Apply(s, ls[0]), ls[1..])
  }

  function ParsedBy(s: Sys, l: Label): seq<Message>
    requires Fits(s.rx) && Enabled(s, l)
  {
    if l.Data? && Apply(s, l).parsed.Some? then [Apply(s, l).parsed.value] else []
  }

  ghost function Taken(s: Sys, ls: seq<Label>): seq<Message>
    requires Possible(s, ls)
    decreases |ls|
  {
    if ls == [] then [] else TakenBy(s, ls[0]) + Taken(Apply(s, ls[0]), ls[1..])
  }

  function TakenBy(s: Sys, l: Label): seq<Message>
    requires Enabled(s, l)
  {
    if l.Receive? then [s.queue[0]] else []
  }

  /** Parsed and not yet taken, oldest first. */
  function Waiting(s: Sys): seq<Message> {
    s.queue + if s.parsed.Some? then [s.parsed.value] else []
  }

  lemma {:induction false} FailureStays(s: Sys, ls: seq<Label>)
    requires InOneLife(s, ls) && s.failed
    ensures End(s, ls).failed
    decreases |ls|
  {
    if ls != [] {
      LifeGoesOn(s, ls);
      FailureStays(Apply(s, ls[0]), ls[1..]);
    }
  }

  lemma {:induction false} StepConserves(s: Sys, l: Label)
    requires Inv(s) && s.ws.Some? && Enabled(s, l) && l != CloseClient && !Apply(s, l).failed
    ensures Waiting(s) + ParsedBy(s, l) == TakenBy(s, l) + Waiting(Apply(s, l))
  {
    if l.Data? || l.Send? { ClientConserves(s, l); }
    else if l.Receive? { ReceiveConserves(s, l); }
    else { OthersConserve(s, l); }
  }

  lemma {:induction false} ReceiveConserves(s: Sys, l: Label)
    requires Fits(s.rx) && Enabled(s, l) && l.Receive?
    ensures Waiting(s) + ParsedBy(s, l) == TakenBy(s, l) + Waiting(Apply(s, l))
  {
    assert s.queue == [s.queue[0]] + Apply(s, l).queue;
  }

  lemma {:induction false} ClientConserves(s: Sys, l: Label)
    requires Inv(s) && Enabled(s, l) && (l.Data? || l.Send?) && !Apply(s, l).failed
    ensures Waiting(s) + ParsedBy(s, l) == Waiting(Apply(s, l)) && TakenBy(s, l) == []
  {
  }

  lemma {:induction false} OthersConserve(s: Sys, l: Label)
    requires Inv(s) && Enabled(s, l) && !l.Data? && !l.Send? && !l.Receive? && l != CloseClient
    ensures Waiting(s) == Waiting(Apply(s, l)) && ParsedBy(s, l) == TakenBy(s, l) == []
  {
  }

  /** No message is lost in silence: as long as the client has not been marked as failed, every message that
      parsed has been taken in its order or is still waiting. */
  lemma {:induction false} NothingIsLostInSilence(s: Sys, ls: seq<Label>)
    requires InOneLife(s, ls) && !End(s, ls).failed
    ensures Waiting(s) + Parsed(s, ls) == Taken(s, ls) + Waiting(End(s, ls))
    decreases |ls|
  {
    if ls != [] {
      LifeGoesOn(s, ls);
      var t := Apply(s, ls[0]);
      if t.failed { FailureStays(t, ls[1..]); }
      StepConserves(s, ls[0]);
      NothingIsLostInSilence(t, ls[1..]);
      Regroup(Waiting(s), ParsedBy(s, ls[0]), Parsed(t, ls[1..]), TakenBy(s, ls[0]), Waiting(t), Taken(t, ls[1..]),
              Waiting(End(s, ls)));
    }
  }

  lemma {:induction false} Regroup<T>(a: seq<T>, b: seq<T>, c: seq<T>, d: seq<T>, e: seq<T>, f: seq<T>, g: seq<T>)
    requires a + b == d + e && e + c == f + g
    ensures a + (b + c) == (d + f) + g
  {
    assert a + (b + c) == (a + b) + c == (d + e) + c == d + (e + c) == d + (f + g) == (d + f) + g;
  }

  // ---- failure ----

  /** Some parsed message meets a full queue. */
  ghost predicate Overruns(s: Sys, ls: seq<Label>)
    requires Possible(s, ls)
    decreases |ls|
  {
    ls != [] && ((ls[0] == Send && |s.queue| >= 6) || Overruns(Apply(s, ls[0]), ls[1..]))
  }

  /** The return codes of the reassembly over a part of a run. */
  ghost function Codes(s: Sys, ls: seq<Label>): seq<int>
    requires Fits(s.rx)
  {
    WsReassembly.Run(View(s.rx), Chunks(ls)).results
  }

  lemma {:induction false} CodesOfData(s: Sys, ls: seq<Label>)
    requires InOneLife(s, ls) && ls != [] && ls[0].Data?
    ensures Codes(s, ls) == [Step(View(s.rx), ls[0].chunk).1] + Codes(Apply(s, ls[0]), ls[1..])
  {
    StepMovesTheBuffer(s, ls[0]);
    LifeGoesOn(s, ls);
    RunOfOne(View(s.rx), ls[0].chunk, Chunks(ls[1..]));
  }

  lemma {:induction false} CodesOfOthers(s: Sys, ls: seq<Label>)
    requires InOneLife(s, ls) && ls != [] && !ls[0].Data?
    ensures Codes(s, ls) == Codes(Apply(s, ls[0]), ls[1..])
  {
    LifeGoesOn(s, ls);
    StepMovesTheBuffer(s, ls[0]);
    assert Chunks(ls) == [] + Chunks(ls[1..]) == Chunks(ls[1..]);
  }

  lemma {:induction false} StepFails(s: Sys, l: Label)
    requires Inv(s) && s.ws.Some? && Enabled(s, l) && l != CloseClient
    ensures Apply(s, l).failed <==> s.failed || l == ConnectionLost || (l == Send && |s.queue| >= 6)
                                    || (l.Data? && Step(View(s.rx), l.chunk).1 == -1)
  {
    if l.Data? { ReceivingIsAStep(s.rx, l.chunk); CodesAreThree(View(s.rx), l.chunk); }
  }

  lemma {:induction false} CodesAreThree(a: Assembly, c: Chunk)
    requires Sound(a)
    ensures Step(a, c).1 in {-1, 0, 1}
  {
  }

  /** A client is marked as failed exactly if a chunk was rejected, its connection was lost, or a message
      found the queue full. */
  lemma {:induction false} FailsExactly(s: Sys, ls: seq<Label>)
    requires InOneLife(s, ls)
    ensures End(s, ls).failed <==> s.failed || -1 in Codes(s, ls) || ConnectionLost in ls || Overruns(s, ls)
    decreases |ls|
  {
    if ls != [] {
      LifeGoesOn(s, ls);
      StepFails(s, ls[0]);
      FailsExactly(Apply(s, ls[0]), ls[1..]);
      assert ConnectionLost in ls <==> ls[0] == ConnectionLost || ConnectionLost in ls[1..];
      if ls[0].Data? { CodesOfData(s, ls); } else { CodesOfOthers(s, ls); }
    }
  }

  /** A client that is marked as failed is closed before the pass goes beyond its watch: no pass leaves
      it in place, and one that has come to the watch waits for nothing but the close. */
  lemma {:induction false} FailedClientIsClosed(s: Sys, ls: seq<Label>)
    requires InOneLife(s, ls) && s.failed
    ensures Watch(false) !in ls
    ensures s.pc == Retry || s.pc == Close(Open) ==> End(s, ls).pc == Retry || End(s, ls).pc == Close(Open)
    decreases |ls|
  {
    if ls != [] {
      LifeGoesOn(s, ls);
      FailureStays(s, ls[..1]);
      FailedClientIsClosed(Apply(s, ls[0]), ls[1..]);
    }
  }

  /** The statements after which the monitor task closes the client: a changed revision, a pass that is not
      ready, the screen saver, a client that is given up, and one that does not start. */
  predicate CallsForClose(s: Sys, l: Label) {
    (l == CompareRevision && s.passRev != s.revision) || l == Decide(false) || l == Ambient(true) || l == Watch(true)
    || l == Launch(false)
  }

  /** Whatever the other tasks do then, the monitor task does nothing before the close, which leaves no client,
      no message and an idle buffer. */
  lemma {:induction false} CloseComesFirst(s: Sys, l: Label, ls: seq<Label>)
    requires Inv(s) && Enabled(s, l) && CallsForClose(s, l) && Possible(Apply(s, l), ls) && CloseClient !in ls
    ensures End(Apply(s, l), ls).pc.Close? && Fits(End(Apply(s, l), ls).rx)
    ensures Enabled(End(Apply(s, l), ls), CloseClient) ==> NothingLeft(Apply(End(Apply(s, l), ls), CloseClient))
  {
    StepKeepsInv(s, l);
    PcStaysAtClose(Apply(s, l), ls);
    CleanIsIdle(CLEARED);
  }

  predicate NothingLeft(s: Sys) {
    s.ws.None? && s.queue == [] && Fits(s.rx) && View(s.rx) == IDLE
  }

  lemma {:induction false} PcStaysAtClose(s: Sys, ls: seq<Label>)
    requires Possible(s, ls) && CloseClient !in ls && s.pc.Close?
    ensures End(s, ls).pc.Close? && Fits(End(s, ls).rx)
    decreases |ls|
  {
    if ls != [] {
      assert ls[0] in ls && forall l | l in ls[1..] :: l in ls;
      PcStaysAtClose(Apply(s, ls[0]), ls[1..]);
    }
  }

  // ---- from the client's messages to the monitor task ----

  function MessagesOf(origin: int, texts: seq<seq<byte>>): seq<Message> {
    if texts == [] then [] else [Message(origin, texts[0])] + MessagesOf(origin, texts[1..])
  }

  ghost predicate AllParse(ls: seq<Label>) {
    forall l | l in ls :: l.Data? ==> l.parses
  }

  lemma {:induction false} StepParses(s: Sys, l: Label)
    requires Inv(s) && s.ws.Some? && Enabled(s, l) && l != CloseClient && (l.Data? ==> l.parses)
    ensures ParsedBy(s, l) == MessagesOf(s.ws.value.rev, TextsOf(s, l))
    ensures Apply(s, l).ws.Some? && Apply(s, l).ws.value.rev == s.ws.value.rev
  {
  }

  lemma {:induction false} MessagesInTwo(origin: int, x: seq<seq<byte>>, y: seq<seq<byte>>)
    ensures MessagesOf(origin, x + y) == MessagesOf(origin, x) + MessagesOf(origin, y)
    decreases |x|
  {
    if x == [] {
      assert x + y == y;
    } else {
      MessagesInTwo(origin, x[1..], y);
      assert (x + y)[1..] == x[1..] + y;
    }
  }

  /** What is parsed is the texts, under the revision the client was opened with. */
  lemma {:induction false} ParsedAreTheTexts(s: Sys, ls: seq<Label>)
    requires InOneLife(s, ls) && AllParse(ls)
    ensures Parsed(s, ls) == MessagesOf(s.ws.value.rev, Texts(s, ls))
    decreases |ls|
  {
    if ls != [] {
      LifeGoesOn(s, ls);
      assert ls[0] in ls && forall l | l in ls[1..] :: l in ls;
      StepParses(s, ls[0]);
      ParsedAreTheTexts(Apply(s, ls[0]), ls[1..]);
      MessagesInTwo(s.ws.value.rev, TextsOf(s, ls[0]), Texts(Apply(s, ls[0]), ls[1..]));
    }
  }

  function Payloads(messages: seq<seq<Frame>>): seq<seq<byte>> {
    if messages == [] then [] else [Payload(messages[0])] + Payloads(messages[1..])
  }

  /** A message that is too long does not go unnoticed. */
  lemma {:induction false} UnrejectedFit(a: Assembly, messages: seq<seq<Frame>>)
    requires Sound(a) && !a.active && forall m | m in messages :: WellFormed(m)
    requires -1 !in WsReassembly.Run(a, StreamChunks(messages)).results
    ensures PayloadsThatFit(messages) == Payloads(messages)
    decreases |messages|
  {
    if messages != [] {
      var first, frames := MessageChunks(TEXT, messages[0]), messages[0];
      assert frames in messages;
      MessageIsDelivered(a, frames);
      RunInTwo(a, first, StreamChunks(messages[1..]));
      var o := WsReassembly.Run(a, first);
      NotInFirst(-1, o.results, WsReassembly.Run(o.end, StreamChunks(messages[1..])).results);
      if |Payload(frames)| > JSON_MAX { LongMessageIsRejected(frames); }
      UnrejectedFit(o.end, messages[1..]);
    }
  }

  lemma {:induction false} NotInFirst(x: int, a: seq<int>, b: seq<int>)
    requires x !in a + b
    ensures x !in a && x !in b
  {
    assert x in a ==> x in a + b;
  }

  lemma {:induction false} LongMessageIsRejected(frames: seq<Frame>)
    requires WellFormed(frames) && |Payload(frames)| > JSON_MAX
    ensures -1 in Verdicts(frames, 0)
  {
    assert frames[0] in frames;
    var last := ChunkCount(frames) - 1;
    OverflowHappens(frames, 0);
    VerdictAt(frames, 0, last);
  }

  lemma {:induction false} OverflowHappens(frames: seq<Frame>, used: nat)
    requires AllCut(frames) && used + |Payload(frames)| > JSON_MAX && used <= JSON_MAX
    ensures ChunksBeforeOverflow(frames, used) < ChunkCount(frames)
    decreases |frames|
  {
    RestIsCut(frames);
    PayloadLength(frames);
    if used + |Flatten(frames[0].cut)| <= JSON_MAX {
      OverflowHappens(frames[1..], used + |Flatten(frames[0].cut)|);
    }
  }

  /** From the wire to the monitor task: if the chunks a client receives are those of well-formed messages
      that parse, then at any time either the client is marked as failed, or the messages taken from the queue
      followed by those still waiting are exactly its messages, in order, under its revision. */
  lemma {:induction false} MonitorHearsItsMessages(before: seq<Label>, ls: seq<Label>, messages: seq<seq<Frame>>)
    requires Possible(INIT, before) && End(INIT, before).pc == Start
    requires Possible(End(INIT, before), ls) && CloseClient !in ls && AllParse(ls)
    requires Chunks(ls) == StreamChunks(messages) && forall m | m in messages :: WellFormed(m)
    ensures var s := End(INIT, before);
            End(s, ls).failed || Taken(s, ls) + Waiting(End(s, ls)) == MessagesOf(s.revision, Payloads(messages))
  {
    var s := End(INIT, before);
    RunKeepsInv(INIT, before);
    CleanIsIdle(s.rx);
    if !End(s, ls).failed {
      FailsExactly(s, ls);
      UnrejectedFit(IDLE, messages);
      ClientHearsItsMessages(before, ls, messages);
      ParsedAreTheTexts(s, ls);
      NothingIsLostInSilence(s, ls);
      assert Waiting(s) == [];
    }
  }

  // ---- commits ----

  function Acceptances(ls: seq<Label>): nat {
    if ls == [] then 0
    else (if ls[0] == Receive(true) || ls[0] == Fetched(true) then 1 else 0) + Acceptances(ls[1..])
  }

  /** Every acceptance is committed, once. */
  lemma {:induction false} EveryAcceptanceIsLogged(s: Sys, ls: seq<Label>)
    requires Possible(s, ls)
    ensures |End(s, ls).log| == |s.log| + Acceptances(ls) && End(s, ls).log[..|s.log|] == s.log
    decreases |ls|
  {
    if ls != [] {
      var t := Apply(s, ls[0]);
      EveryAcceptanceIsLogged(t, ls[1..]);
      AcceptanceIsLogged(s, ls[0]);
      assert End(s, ls).log[..|t.log|][..|s.log|] == End(s, ls).log[..|s.log|];
    }
  }

  lemma {:induction false} AcceptanceIsLogged(s: Sys, l: Label)
    requires Fits(s.rx) && Enabled(s, l)
    ensures |Apply(s, l).log| == |s.log| + if l == Receive(true) || l == Fetched(true) then 1 else 0
    ensures Apply(s, l).log[..|s.log|] == s.log
  {
    if l.Receive? || l.Fetched? { CommitIsLogged(s, l); } else { OthersLogNothing(s, l); }
  }

  /** And the commit says where it came from and which revision was in force. */
  lemma {:induction false} CommitIsLogged(s: Sys, l: Label)
    requires Fits(s.rx) && Enabled(s, l) && (l.Receive? || l.Fetched?)
    ensures Apply(s, l).log ==
            if l == Receive(true) then s.log + [Commit(s.queue[0].origin, s.revision)]
            else if l == Fetched(true) then s.log + [Commit(s.http.value, s.revision)]
            else s.log
  {
  }

  lemma {:induction false} OthersLogNothing(s: Sys, l: Label)
    requires Fits(s.rx) && Enabled(s, l) && !l.Receive? && !l.Fetched?
    ensures Apply(s, l).log == s.log
  {
  }
}
