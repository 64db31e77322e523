/** The monitor task, the websocket client's callback task and the OTA worker as one step system.
    Every label is one indivisible statement of one task; tasks interleave freely between them. */
module Coordinator {
  import opened Common
  import opened WsReassembly
  import opened RxUnion

  /** Where the monitor task stands in its loop. `Close(after)` is a call that closes the client. */
  datatype Pc =
    | Top | Compare | Revise | Check | Pause | Run | Saver | Retry | Open | Start | Drain | Poll | Fetching | Tail
    | Close(after: Pc)

  /** A websocket client, the config revision it was opened with, and whether its task runs. */
  datatype Client = Client(rev: int, running: bool)

  /** A parsed message and the revision of the client it came from. */
  datatype Message = Message(origin: int, text: seq<byte>)

  /** One committed snapshot or alert: where it came from and which revision was in force. */
  datatype Commit = Commit(origin: int, inForce: int)

  datatype Ota = OtaIdle | OtaWaiting | OtaWorking

  datatype Sys = Sys(
    pc: Pc, revision: int, passRev: int,
    ws: Option<Client>, failed: bool,
    rx: Union, parsed: Option<Message>, queue: seq<Message>,
    http: Option<int>, log: seq<Commit>,
    paused: bool, quiescent: bool, ota: Ota)

  const QUEUE_LENGTH := 6

  const INIT := Sys(Top, -1, -1, None, false, CLEARED, None, [], None, [], false, false, OtaIdle)

  datatype Label =
    // the monitor task
    | Wake(rev: int) | CompareRevision | CloseClient | AdoptRevision | Decide(go: bool) | Quiesce | Proceed
    | Ambient(saver: bool) | Watch(giveUp: bool) | Connect(attempt: bool) | Launch(ok: bool)
    | Receive(accepted: bool) | Drained | PollHttp(attempt: bool) | Body(data: seq<byte>) | Fetched(accepted: bool)
    | AgeState
    // the websocket client's task
    | Data(chunk: Chunk, parses: bool) | Send | ConnectionLost
    // the OTA worker
    | RequestPause | Grant | GiveUp | Release

  predicate Running(s: Sys) {
    s.ws.Some? && s.ws.value.running
  }

  predicate Enabled(s: Sys, l: Label) {
    match l
    case Wake(_) => s.pc == Top
    case CompareRevision => s.pc == Compare
    case CloseClient => s.pc.Close? && s.parsed.None?          // stopping joins the callback task
    case AdoptRevision => s.pc == Revise
    case Decide(go) => s.pc == Check && (go ==> !s.paused && s.passRev != -1)  // ready only with a revision read
    case Quiesce => s.pc == Pause
    case Proceed => s.pc == Run
    case Ambient(_) => s.pc == Saver
    case Watch(giveUp) => s.pc == Retry && (giveUp ==> s.ws.Some?) && (s.ws.Some? && s.failed ==> giveUp)
    case Connect(attempt) => s.pc == Open && (attempt ==> s.ws.None?)
    case Launch(_) => s.pc == Start
    case Receive(_) => s.pc == Drain && s.queue != []
    case Drained => s.pc == Drain && s.queue == []
    case PollHttp(attempt) => s.pc == Poll && (attempt ==> s.ws.None?)
    case Body(data) => s.pc == Fetching && s.http.Some? && |data| == SIZE
    case Fetched(_) => s.pc == Fetching && s.http.Some?
    case AgeState => s.pc == Tail
    case Data(_, _) => Running(s) && s.parsed.None?
    case Send => Running(s) && s.parsed.Some?
    case ConnectionLost => Running(s) && s.parsed.None?
    case RequestPause => s.ota == OtaIdle
    case Grant => s.ota == OtaWaiting && s.quiescent
    case GiveUp => s.ota == OtaWaiting
    case Release => s.ota == OtaWorking
  }

  function Apply(s: Sys, l: Label): Sys
    requires Fits(s.rx) && Enabled(s, l)
  {
    match l
    case Wake(rev) => s.(pc := Compare, passRev := rev)
    case CompareRevision => s.(pc := if s.passRev != s.revision then Close(Revise) else Check)
    case CloseClient => s.(pc := s.pc.after, ws := None, rx := CLEARED, queue := [])
    case AdoptRevision => s.(pc := Check, revision := s.passRev)
    case Decide(go) => s.(pc := if go then Run else Close(Pause))
    case Quiesce => s.(pc := Tail, quiescent := true)
    case Proceed => s.(pc := Saver, quiescent := false)
    case Ambient(saver) => s.(pc := if saver then Close(Retry) else Retry)
    case Watch(giveUp) => s.(pc := if giveUp then Close(Open) else Open)
    case Connect(attempt) =>
      if attempt then s.(pc := Start, ws := Some(Client(s.passRev, false)), failed := false) else s.(pc := Drain)
    case Launch(ok) =>
      if ok && s.ws.Some? then s.(pc := Drain, ws := Some(s.ws.value.(running := true))) else s.(pc := Close(Drain))
    case Receive(accepted) =>
      s.(queue := s.queue[1..],
         log := if accepted then s.log + [Commit(s.queue[0].origin, s.revision)] else s.log)
    case Drained => s.(pc := Poll)
    case PollHttp(attempt) => if attempt then s.(pc := Fetching, http := Some(s.passRev)) else s.(pc := Tail)
    case Body(data) => s.(rx := Overwritten(s.rx, data))
    case Fetched(accepted) =>
      s.(pc := Tail, http := None, log := if accepted then s.log + [Commit(s.http.value, s.revision)] else s.log)
    case AgeState => s.(pc := Top)
    case Data(chunk, parses) =>
      var (rx, result) := Received(s.rx, chunk);
      s.(rx := rx, failed := s.failed || result < 0,
         parsed := if result == 1 && parses then Some(Message(s.ws.value.rev, View(rx).bytes)) else None)
    case Send =>
      if |s.queue| < QUEUE_LENGTH then s.(queue := s.queue + [s.parsed.value], parsed := None)
      else s.(failed := true, parsed := None)
    case ConnectionLost => s.(failed := true)
    case RequestPause => s.(ota := OtaWaiting, paused := true)
    case Grant => s.(ota := OtaWorking)
    case GiveUp => s.(ota := OtaIdle, paused := false)
    case Release => s.(ota := OtaIdle, paused := false)
  }

  // ---- runs ----

  ghost predicate Possible(s: Sys, ls: seq<Label>)
    decreases |ls|
  {
    Fits(s.rx) && (ls != [] ==> Enabled(s, ls[0]) && Possible(Apply(s, ls[0]), ls[1..]))
  }

  ghost function End(s: Sys, ls: seq<Label>): Sys
    requires Possible(s, ls)
    decreases |ls|
  {
    if ls == [] then s else End(Apply(s, ls[0]), ls[1..])
  }

  // ---- what every run keeps ----

  /** The places of the loop at which the flag may still say quiescent. */
  predicate QuietPlace(pc: Pc) {
    match pc
    case Close(after) => after.Revise? || after.Pause?
    case Saver => false case Retry => false case Open => false case Start => false
    case Drain => false case Poll => false case Fetching => false
    case _ => true
  }

  /** The places at which this pass has already checked its revision. */
  predicate RevisionChecked(pc: Pc) {
    match pc
    case Close(after) => !after.Revise?
    case Top => false case Compare => false case Revise => false case Tail => false
    case _ => true
  }

  /** Where a call that closes the client may return to. */
  predicate ReturnsProperly(pc: Pc) {
    pc.Close? ==> pc.after.Revise? || pc.after.Pause? || pc.after.Retry? || pc.after.Open? || pc.after.Drain?
  }

  /** One owner of the receive union at any time, and a clean buffer for every new client. */
  ghost predicate OneOwner(s: Sys) {
    && Fits(s.rx)
    && ReturnsProperly(s.pc)
    && (s.http.Some? <==> s.pc == Fetching)
    && (s.http.Some? ==> s.ws.None?)
    && (!Running(s) ==> s.parsed.None? && Clean(s.rx) && s.queue == [])
    && (s.pc == Start ==> s.ws.Some? && !s.ws.value.running && !s.failed)
    && (s.pc == Revise || s.pc == Pause ==> s.ws.None? && s.queue == [])
    && (s.quiescent ==> s.ws.None? && s.queue == [] && QuietPlace(s.pc))
    && (s.ota != OtaIdle <==> s.paused)
  }

  /** Everything in flight belongs to the revision in force. */
  ghost predicate OneRevision(s: Sys) {
    && (RevisionChecked(s.pc) ==> s.passRev == s.revision)
    && (s.ws.Some? ==> s.ws.value.rev == s.revision)
    && (s.http.Some? ==> s.http.value == s.revision)
    && (s.parsed.Some? ==> s.parsed.value.origin == s.revision)
  }

  ghost predicate AllFrom(queue: seq<Message>, revision: int) {
    forall m | m in queue :: m.origin == revision
  }

  ghost predicate HonestLog(log: seq<Commit>) {
    forall c | c in log :: c.origin == c.inForce
  }

  ghost predicate Inv(s: Sys) {
    OneOwner(s) && OneRevision(s) && AllFrom(s.queue, s.revision) && HonestLog(s.log)
  }

  lemma {:induction false} StepKeepsOneOwner(s: Sys, l: Label)
    requires OneOwner(s) && Enabled(s, l)
    ensures OneOwner(Apply(s, l))
  {
    if IsClientStep(l) { ClientKeepsOneOwner(s, l); }
    else if IsWorkerStep(l) { WorkerKeepsOneOwner(s, l); }
    else if IsTransportStep(l) { TransportKeepsOneOwner(s, l); }
    else { LoopKeepsOneOwner(s, l); }
  }

  predicate IsClientStep(l: Label) {
    l.Data? || l.Send? || l.ConnectionLost?
  }

  predicate IsWorkerStep(l: Label) {
    l.RequestPause? || l.Grant? || l.GiveUp? || l.Release?
  }

  /** The monitor task's steps on a client or a fetch. */
  predicate IsTransportStep(l: Label) {
    l.CloseClient? || l.Connect? || l.Launch? || l.Receive? || l.Drained? || l.PollHttp? || l.Body? || l.Fetched?
  }

  lemma {:induction false} ClientKeepsOneOwner(s: Sys, l: Label)
    requires OneOwner(s) && Enabled(s, l) && IsClientStep(l)
    ensures OneOwner(Apply(s, l))
  {
  }

  lemma {:induction false} WorkerKeepsOneOwner(s: Sys, l: Label)
    requires OneOwner(s) && Enabled(s, l) && IsWorkerStep(l)
    ensures OneOwner(Apply(s, l))
  {
  }

  lemma {:induction false} TransportKeepsOneOwner(s: Sys, l: Label)
    requires OneOwner(s) && Enabled(s, l) && IsTransportStep(l)
    ensures OneOwner(Apply(s, l))
  {
    if l.Body? {
      CleanIsIdle(s.rx);
      OverwritingKeepsItIdle(s.rx, l.data);
      CleanIsIdle(Overwritten(s.rx, l.data));
    }
  }

  lemma {:induction false} LoopKeepsOneOwner(s: Sys, l: Label)
    requires OneOwner(s) && Enabled(s, l) && !IsClientStep(l) && !IsWorkerStep(l) && !IsTransportStep(l)
    ensures OneOwner(Apply(s, l))
  {
    if l.Ambient? || l.Watch? || l.Proceed? || l.AgeState? { RestOfPassKeepsOneOwner(s, l); }
  }

  lemma {:induction false} RestOfPassKeepsOneOwner(s: Sys, l: Label)
    requires OneOwner(s) && Enabled(s, l) && (l.Ambient? || l.Watch? || l.Proceed? || l.AgeState?)
    ensures OneOwner(Apply(s, l))
  {
  }

  lemma {:induction false} StepKeepsOneRevision(s: Sys, l: Label)
    requires OneOwner(s) && OneRevision(s) && Enabled(s, l)
    ensures OneRevision(Apply(s, l))
  {
    if IsClientStep(l) { ClientKeepsOneRevision(s, l); }
    else if IsTransportStep(l) { TransportKeepsOneRevision(s, l); }
    else if IsWorkerStep(l) { WorkerKeepsOneRevision(s, l); }
    else { LoopKeepsOneRevision(s, l); }
  }

  lemma {:induction false} ClientKeepsOneRevision(s: Sys, l: Label)
    requires OneOwner(s) && OneRevision(s) && Enabled(s, l) && IsClientStep(l)
    ensures OneRevision(Apply(s, l))
  {
  }

  lemma {:induction false} TransportKeepsOneRevision(s: Sys, l: Label)
    requires OneOwner(s) && OneRevision(s) && Enabled(s, l) && IsTransportStep(l)
    ensures OneRevision(Apply(s, l))
  {
  }

  lemma {:induction false} WorkerKeepsOneRevision(s: Sys, l: Label)
    requires OneOwner(s) && OneRevision(s) && Enabled(s, l) && IsWorkerStep(l)
    ensures OneRevision(Apply(s, l))
  {
  }

  lemma {:induction false} LoopKeepsOneRevision(s: Sys, l: Label)
    requires OneOwner(s) && OneRevision(s) && Enabled(s, l) && !IsClientStep(l) && !IsWorkerStep(l)
             && !IsTransportStep(l)
    ensures OneRevision(Apply(s, l))
  {
  }

  lemma {:induction false} StepKeepsQueueAndLog(s: Sys, l: Label)
    requires Inv(s) && Enabled(s, l)
    ensures AllFrom(Apply(s, l).queue, Apply(s, l).revision) && HonestLog(Apply(s, l).log)
  {
    if IsTransportStep(l) { TransportKeepsQueueAndLog(s, l); }
    else if l.Send? { SendKeepsQueueAndLog(s); }
    else { assert l != AdoptRevision ==> Apply(s, l).revision == s.revision; }
  }

  lemma {:induction false} TransportKeepsQueueAndLog(s: Sys, l: Label)
    requires Inv(s) && Enabled(s, l) && IsTransportStep(l)
    ensures AllFrom(Apply(s, l).queue, Apply(s, l).revision) && HonestLog(Apply(s, l).log)
  {
    if l.Receive? { assert s.queue[0] in s.queue; }
  }

  lemma {:induction false} SendKeepsQueueAndLog(s: Sys)
    requires Inv(s) && Enabled(s, Send)
    ensures AllFrom(Apply(s, Send).queue, Apply(s, Send).revision) && HonestLog(Apply(s, Send).log)
  {
  }

  lemma {:induction false} StepKeepsInv(s: Sys, l: Label)
    requires Inv(s) && Enabled(s, l)
    ensures Inv(Apply(s, l))
  {
    StepKeepsOneOwner(s, l);
    StepKeepsOneRevision(s, l);
    StepKeepsQueueAndLog(s, l);
  }

  lemma {:induction false} RunKeepsInv(s: Sys, ls: seq<Label>)
    requires Inv(s) && Possible(s, ls)
    ensures Inv(End(s, ls))
    decreases |ls|
  {
    if ls != [] {
      StepKeepsInv(s, ls[0]);
      RunKeepsInv(Apply(s, ls[0]), ls[1..]);
    }
  }

  /** Over every run and interleaving: a fetch writes the shared memory only while there is no client and
      no callback holds it; callbacks hold it only while a started client has not been joined; whatever
      fetches have left in it, every client starts on an idle buffer; every commit came from a client or fetch
      of the revision in force; and the monitor is asked to pause exactly while the worker wants it to. */
  lemma {:induction false} EveryRun(ls: seq<Label>)
    requires Possible(INIT, ls)
    ensures var s := End(INIT, ls);
            && Fits(s.rx)
            && (s.http.Some? ==> s.ws.None? && s.parsed.None? && View(s.rx) == IDLE)
            && (s.parsed.Some? || View(s.rx) != IDLE ==> Running(s) && s.http.None?)
            && (s.pc == Start ==> s.ws.Some? && !Running(s) && !s.failed && View(s.rx) == IDLE && s.queue == [])
            && (forall c | c in s.log :: c.origin == c.inForce)
            && (s.paused <==> s.ota != OtaIdle)
  {
    RunKeepsInv(INIT, ls);
    CleanIsIdle(End(INIT, ls).rx);
  }

  /** A fetch leaves its body in the memory, and the memory an idle buffer. */
  lemma {:induction false} FetchLeavesItIdle(s: Sys, body: seq<byte>)
    requires Inv(s) && Enabled(s, Body(body))
    ensures var rx := Apply(s, Body(body)).rx;
            Fits(rx) && rx.data == body && View(rx) == IDLE
  {
    CleanIsIdle(s.rx);
    OverwritingKeepsItIdle(s.rx, body);
  }

  // ---- the pause handshake with the OTA worker ----

  ghost predicate AtRest(s: Sys) {
    s.ws.None? && s.http.None?
  }

  /** From a grant until the release, whatever else happens, the monitor holds no client and fetches nothing. */
  ghost predicate GrantHolds(s: Sys)
    requires Fits(s.rx) && Enabled(s, Grant)
  {
    var granted := Apply(s, Grant);
    forall ls | Possible(granted, ls) && Release !in ls :: AtRest(End(granted, ls))
  }

  /** What a good grant keeps: paused, quiescent, and about to look at the pause flag again. */
  ghost predicate HeldBack(s: Sys) {
    Inv(s) && s.paused && s.quiescent && s.ota == OtaWorking && s.pc != Run
  }

  lemma {:induction false} StepKeepsHeldBack(s: Sys, l: Label)
    requires HeldBack(s) && Enabled(s, l) && l != Release
    ensures HeldBack(Apply(s, l))
  {
    StepKeepsInv(s, l);
  }

  lemma {:induction false} RunKeepsHeldBack(s: Sys, ls: seq<Label>)
    requires HeldBack(s) && Possible(s, ls) && Release !in ls
    ensures HeldBack(End(s, ls)) && AtRest(End(s, ls))
    decreases |ls|
  {
    if ls != [] {
      assert ls[0] in ls && forall l | l in ls[1..] :: l in ls;
      StepKeepsHeldBack(s, ls[0]);
      RunKeepsHeldBack(Apply(s, ls[0]), ls[1..]);
    }
  }

  /** The exact condition: the worker may trust the flag if and only if the monitor task is not between
      its look at the pause flag and the store that clears the quiescent flag. */
  lemma {:induction false} GrantHoldsExactlyOutsideTheWindow(s: Sys)
    requires Inv(s) && Enabled(s, Grant)
    ensures GrantHolds(s) <==> s.pc != Run
  {
    var granted := Apply(s, Grant);
    StepKeepsInv(s, Grant);
    if s.pc != Run {
      forall ls | Possible(granted, ls) && Release !in ls
        ensures AtRest(End(granted, ls))
      {
        RunKeepsHeldBack(granted, ls);
      }
    } else {
      EscapeThroughTheWindow(granted);
    }
  }

  const ESCAPE := [Proceed, Ambient(false), Watch(false), Connect(true)]

  lemma {:induction false} EscapeThroughTheWindow(s: Sys)
    requires Inv(s) && s.pc == Run && s.ws.None?
    ensures Possible(s, ESCAPE) && Release !in ESCAPE && !AtRest(End(s, ESCAPE))
  {
    var s1 := Apply(s, Proceed);
    EscapeEnds(Apply(s1, Ambient(false)));
    RunFrom(s1, ESCAPE, 1);
    RunFrom(s, ESCAPE, 0);
    assert ESCAPE[0..] == ESCAPE;
  }

  lemma {:induction false} EscapeEnds(s: Sys)
    requires Fits(s.rx) && s.pc == Retry && s.ws.None?
    ensures Possible(s, ESCAPE[2..]) && !AtRest(End(s, ESCAPE[2..]))
  {
    var s1 := Apply(s, Watch(false));
    RunEnds(Apply(s1, Connect(true)), ESCAPE);
    RunFrom(s1, ESCAPE, 3);
    RunFrom(s, ESCAPE, 2);
  }

  lemma {:induction false} RunEnds(s: Sys, ls: seq<Label>)
    requires Fits(s.rx)
    ensures Possible(s, ls[|ls|..]) && End(s, ls[|ls|..]) == s
  {
  }

  lemma {:induction false} RunFrom(s: Sys, ls: seq<Label>, k: nat)
    requires k < |ls| && Fits(s.rx) && Enabled(s, ls[k]) && Possible(Apply(s, ls[k]), ls[k + 1..])
    ensures Possible(s, ls[k..]) && End(s, ls[k..]) == End(Apply(s, ls[k]), ls[k + 1..])
  {
    assert ls[k..][1..] == ls[k + 1..];
  }

  /** The monitor task after its first pass, with the network down: at the top of its loop, quiescent. */
  const OFFLINE := INIT.(revision := 0, passRev := 0, quiescent := true)
  const IN_WINDOW := OFFLINE.(pc := Run, ota := OtaWaiting, paused := true)

  const FIRST_PASS := [Wake(0), CompareRevision, CloseClient, AdoptRevision, Decide(false), CloseClient, Quiesce,
                       AgeState]
  const SECOND_PASS := [Wake(0), CompareRevision, Decide(true), RequestPause]

  lemma {:induction false} FirstPassEnds()
    ensures Possible(INIT, FIRST_PASS) && End(INIT, FIRST_PASS) == OFFLINE
  {
    var checked := INIT.(revision := 0, passRev := 0, pc := Check);
    RunEnds(OFFLINE, FIRST_PASS);
    RunFrom(OFFLINE.(pc := Tail), FIRST_PASS, 7);
    RunFrom(checked.(pc := Pause), FIRST_PASS, 6);
    RunFrom(checked.(pc := Close(Pause)), FIRST_PASS, 5);
    RunFrom(checked, FIRST_PASS, 4);
    FirstPassBegins(checked);
  }

  lemma {:induction false} FirstPassBegins(checked: Sys)
    requires checked == INIT.(revision := 0, passRev := 0, pc := Check)
    requires Possible(checked, FIRST_PASS[4..])
    ensures Possible(INIT, FIRST_PASS) && End(INIT, FIRST_PASS) == End(checked, FIRST_PASS[4..])
  {
    RunFrom(INIT.(passRev := 0, pc := Revise), FIRST_PASS, 3);
    RunFrom(INIT.(passRev := 0, pc := Close(Revise)), FIRST_PASS, 2);
    RunFrom(INIT.(passRev := 0, pc := Compare), FIRST_PASS, 1);
    RunFrom(INIT, FIRST_PASS, 0);
    assert FIRST_PASS[0..] == FIRST_PASS;
  }

  lemma {:induction false} SecondPassIntoTheWindow()
    ensures Possible(OFFLINE, SECOND_PASS) && End(OFFLINE, SECOND_PASS) == IN_WINDOW
  {
    RunEnds(IN_WINDOW, SECOND_PASS);
    RunFrom(OFFLINE.(pc := Run), SECOND_PASS, 3);
    RunFrom(OFFLINE.(pc := Check), SECOND_PASS, 2);
    RunFrom(OFFLINE.(pc := Compare), SECOND_PASS, 1);
    RunFrom(OFFLINE, SECOND_PASS, 0);
    assert SECOND_PASS[0..] == SECOND_PASS;
  }

  lemma {:induction false} RunThen(s: Sys, ls: seq<Label>, ms: seq<Label>)
    requires Possible(s, ls) && Possible(End(s, ls), ms)
    ensures Possible(s, ls + ms) && End(s, ls + ms) == End(End(s, ls), ms)
    decreases |ls|
  {
    if ls == [] {
      assert ls + ms == ms;
    } else {
      RunThen(Apply(s, ls[0]), ls[1..], ms);
      assert (ls + ms)[0] == ls[0] && (ls + ms)[1..] == ls[1..] + ms;
    }
  }

  /** The window is reachable from power-up as far as the statements go: one pass with the network down,
      then a ready pass that has just looked at the pause flag when the worker sets it. */
  lemma {:induction false} WindowIsReachable()
    ensures Possible(INIT, FIRST_PASS + SECOND_PASS) && End(INIT, FIRST_PASS + SECOND_PASS) == IN_WINDOW
    ensures Inv(IN_WINDOW) && Enabled(IN_WINDOW, Grant) && !GrantHolds(IN_WINDOW)
  {
    FirstPassEnds();
    SecondPassIntoTheWindow();
    RunThen(INIT, FIRST_PASS, SECOND_PASS);
    RunKeepsInv(INIT, FIRST_PASS + SECOND_PASS);
    GrantHoldsExactlyOutsideTheWindow(IN_WINDOW);
  }

  /** The worker never gets its grant inside the window. On one core, with the monitor task at the higher
      priority and no blocking call in the window, the worker cannot run there at all. */
  ghost predicate WindowIsWhole(s: Sys, ls: seq<Label>)
    requires Possible(s, ls)
    decreases |ls|
  {
    ls != [] ==> (ls[0].Grant? ==> s.pc != Run) && WindowIsWhole(Apply(s, ls[0]), ls[1..])
  }

  /** Scheduled like that, every grant is good, for as long as the worker holds it. */
  lemma {:induction false} WholeWindowsKeepTheHandshake(s: Sys, ls: seq<Label>)
    requires Inv(s) && (s.ota == OtaWorking ==> HeldBack(s))
    requires Possible(s, ls) && WindowIsWhole(s, ls)
    ensures var e := End(s, ls);
            Inv(e) && (e.ota == OtaWorking ==> HeldBack(e) && AtRest(e))
    decreases |ls|
  {
    if ls != [] {
      StepKeepsInv(s, ls[0]);
      StepOutsideTheWindow(s, ls[0]);
      WholeWindowsKeepTheHandshake(Apply(s, ls[0]), ls[1..]);
    }
  }

  lemma {:induction false} StepOutsideTheWindow(s: Sys, l: Label)
    requires Inv(s) && (s.ota == OtaWorking ==> HeldBack(s)) && Enabled(s, l) && (l.Grant? ==> s.pc != Run)
    ensures Apply(s, l).ota == OtaWorking ==> HeldBack(Apply(s, l))
  {
    StepKeepsInv(s, l);
    if s.ota == OtaWorking && l != Release { StepKeepsHeldBack(s, l); }
  }

  /** If the worker only ever moves between two passes of the monitor task, the window does not matter. */
  ghost predicate PassesAreWhole(s: Sys, ls: seq<Label>)
    requires Possible(s, ls)
    decreases |ls|
  {
    ls != [] ==>
      && (ls[0].RequestPause? || ls[0].Grant? || ls[0].GiveUp? || ls[0].Release? ==> s.pc == Top)
      && PassesAreWhole(Apply(s, ls[0]), ls[1..])
  }

  lemma {:induction false} WholePassesHaveWholeWindows(s: Sys, ls: seq<Label>)
    requires Possible(s, ls) && PassesAreWhole(s, ls)
    ensures WindowIsWhole(s, ls)
    decreases |ls|
  {
    if ls != [] { WholePassesHaveWholeWindows(Apply(s, ls[0]), ls[1..]); }
  }

  lemma {:induction false} WholePassesKeepTheHandshake(s: Sys, ls: seq<Label>)
    requires Inv(s) && (s.ota == OtaWorking ==> HeldBack(s))
    requires Possible(s, ls) && PassesAreWhole(s, ls)
    ensures var e := End(s, ls);
            Inv(e) && (e.ota == OtaWorking ==> HeldBack(e) && AtRest(e))
  {
    WholePassesHaveWholeWindows(s, ls);
    WholeWindowsKeepTheHandshake(s, ls);
  }
}
