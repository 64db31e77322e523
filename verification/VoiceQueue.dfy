/** Voice prompts: an event handler fills three priority queues, a player empties them and looks at
    them again before every chunk of sound. The two run side by side; every step below is one queue
    operation or one piece of private work of either. */
module VoiceQueue {

  const LENGTH := 4

  datatype Item = Item(clip: nat, priority: nat)

  /** Where the event handler is: before an event, or with an accepted clip and the queues below `next` dealt with. */
  datatype Handler = Waiting | Clearing(item: Item, next: nat)

  datatype Player =
    | Polling(queue: nat)
    | Chosen(item: Item)
    | Reading(item: Item)
    | Looking(item: Item, queue: nat, found: bool)
    | Writing(item: Item)

  datatype State = State(handler: Handler, player: Player, queues: seq<seq<Item>>)

  datatype Step =
    | Arrive(item: Item)  // an event, permitted and past its cooldown
    | Clear               // the handler resets a queue of lower priority, or passes over one that is not
    | Send
    | Poll
    | Drop                // the chosen clip is not permitted, or cannot be opened
    | Play
    | Finish              // the clip has ended, or is no longer permitted
    | Fill                // the next chunk has been read
    | Look
    | Decide
    | Write(ok: bool)

  const INITIAL := State(Waiting, Polling(2), [[], [], []])

  predicate Preempts(incoming: nat, current: nat) {
    incoming < 3 && current < 3 && incoming > current
  }

  predicate Enabled(s: State, step: Step) {
    match step
    case Arrive(item) => s.handler.Waiting? && item.priority < 3
    case Clear => s.handler.Clearing? && s.handler.next < 3
    case Send => s.handler.Clearing? && s.handler.next == 3
    case Poll => s.player.Polling?
    case Drop => s.player.Chosen?
    case Play => s.player.Chosen?
    case Finish => s.player.Reading?
    case Fill => s.player.Reading?
    case Look => s.player.Looking? && s.player.queue < 3
    case Decide => s.player.Looking? && s.player.queue == 3
    case Write(_) => s.player.Writing?
  }

  function Apply(s: State, step: Step): State
    requires Inv(s) && Enabled(s, step)
  {
    match step
    case Arrive(item) => s.(handler := Clearing(item, 0))
    case Clear =>
      var Clearing(item, i) := s.handler;
      s.(handler := Clearing(item, i + 1), queues := if Preempts(item.priority, i) then s.queues[i := []] else s.queues)
    case Send =>
      var item := s.handler.item;
      var q := s.queues[item.priority];
      s.(handler := Waiting, queues := if |q| < LENGTH then s.queues[item.priority := q + [item]] else s.queues)
    case Poll =>
      var i := s.player.queue;
      var q := s.queues[i];
      if q != [] then s.(player := Chosen(q[0]), queues := s.queues[i := q[1..]])
      else s.(player := Polling(if i == 0 then 2 else i - 1))
    case Drop => s.(player := Polling(2))
    case Play => s.(player := Reading(s.player.item))
    case Finish => s.(player := Polling(2))
    case Fill => s.(player := Looking(s.player.item, 0, false))
    case Look =>
      var Looking(item, p, found) := s.player;
      s.(player := Looking(item, p + 1, found || (Preempts(p, item.priority) && s.queues[p] != [])))
    case Decide => s.(player := if s.player.found then Polling(2) else Writing(s.player.item))
    case Write(ok) => s.(player := if ok then Reading(s.player.item) else Polling(2))
  }

  // ---- what every run keeps ----

  predicate QueueHolds(q: seq<Item>, p: nat) {
    |q| <= LENGTH && forall item | item in q :: item.priority == p
  }

  /** Queue p holds at most four clips, all of priority p; what the handler has cleared stays clear. */
  predicate Inv(s: State) {
    && |s.queues| == 3
    && QueueHolds(s.queues[0], 0) && QueueHolds(s.queues[1], 1) && QueueHolds(s.queues[2], 2)
    && HandlerInv(s) && PlayerInv(s.player)
  }

  predicate HandlerInv(s: State)
    requires |s.queues| == 3
  {
    s.handler.Clearing? ==>
      && s.handler.item.priority < 3 && s.handler.next <= 3
      && (s.handler.next > 0 && s.handler.item.priority > 0 ==> s.queues[0] == [])
      && (s.handler.next > 1 && s.handler.item.priority > 1 ==> s.queues[1] == [])
  }

  predicate PlayerInv(p: Player) {
    match p
    case Polling(i) => i < 3
    case Looking(item, i, found) => item.priority < 3 && i <= 3
    case _ => p.item.priority < 3
  }

  lemma {:induction false} StepKeepsInv(s: State, step: Step)
    requires Inv(s) && Enabled(s, step)
    ensures Inv(Apply(s, step))
  {
    match step
    case Poll =>
      if s.queues[s.player.queue] != [] { Received(s.queues[s.player.queue], s.player.queue); }
    case Send =>
      if |s.queues[s.handler.item.priority]| < LENGTH { Appended(s.queues[s.handler.item.priority], s.handler.item); }
    case _ =>
  }

  lemma {:induction false} Received(q: seq<Item>, p: nat)
    requires QueueHolds(q, p) && q != []
    ensures q[0].priority == p && QueueHolds(q[1..], p)
  {
    assert q[0] in q;
    assert forall item | item in q[1..] :: item in q;
  }

  lemma {:induction false} Appended(q: seq<Item>, item: Item)
    requires QueueHolds(q, item.priority) && |q| < LENGTH
    ensures QueueHolds(q + [item], item.priority)
  {
    assert forall i | i in q + [item] :: i in q || i == item;
  }

  // ---- runs ----

  ghost predicate Possible(s: State, steps: seq<Step>)
    requires Inv(s)
    decreases |steps|
  {
    steps != [] ==>
      && Enabled(s, steps[0])
      && (StepKeepsInv(s, steps[0]); Possible(Apply(s, steps[0]), steps[1..]))
  }

  ghost function End(s: State, steps: seq<Step>): (r: State)
    requires Inv(s) && Possible(s, steps)
    ensures Inv(r)
    decreases |steps|
  {
    if steps == [] then s
    else
      StepKeepsInv(s, steps[0]);
      End(Apply(s, steps[0]), steps[1..])
  }

  /** When a clip is queued, no clip of lower priority is left waiting, and its own queue has it last
      or was full. */
  lemma {:induction false} SendingDiscardsLower(steps: seq<Step>)
    requires Possible(INITIAL, steps) && Enabled(End(INITIAL, steps), Send)
    ensures var s, item := End(INITIAL, steps), End(INITIAL, steps).handler.item;
            var t := Apply(s, Send);
            && (forall p | 0 <= p < item.priority :: t.queues[p] == [])
            && (forall p | item.priority < p < 3 :: t.queues[p] == s.queues[p])
            && t.queues[item.priority] ==
               if |s.queues[item.priority]| == LENGTH then s.queues[item.priority] else s.queues[item.priority] + [item]
  {
  }

  /** The queues after one whole event: those of lower priority are empty, the clip is the last of its own queue
      unless that held four already, and higher ones are as they were. */
  function Queued(queues: seq<seq<Item>>, item: Item): seq<seq<Item>>
    requires |queues| == 3 && item.priority < 3
  {
    var own := queues[item.priority];
    var added := if |own| == 4 then own else own + [item];
    match item.priority
    case 0 => [added, queues[1], queues[2]]
    case 1 => [[], added, queues[2]]
    case _ => [[], [], added]
  }

  lemma {:induction false} RunStep(s: State, step: Step, rest: seq<Step>)
    requires Inv(s) && Enabled(s, step) && Inv(Apply(s, step)) && Possible(Apply(s, step), rest)
    ensures Possible(s, [step] + rest) && End(s, [step] + rest) == End(Apply(s, step), rest)
  {
    assert ([step] + rest)[1..] == rest;
  }

  lemma {:induction false} EventIsQueued(s: State, item: Item)
    requires Inv(s) && s.handler.Waiting? && item.priority < 3
    ensures var steps := [Arrive(item)] + ([Clear] + ([Clear] + ([Clear] + ([Send] + []))));
            Possible(s, steps) && End(s, steps) == s.(queues := Queued(s.queues, item))
  {
    StepKeepsInv(s, Arrive(item));
    var s1 := Apply(s, Arrive(item));
    StepKeepsInv(s1, Clear);
    var s2 := Apply(s1, Clear);
    StepKeepsInv(s2, Clear);
    var s3 := Apply(s2, Clear);
    ClearedAndSent(s3);
    RunStep(s2, Clear, [Clear] + ([Send] + []));
    RunStep(s1, Clear, [Clear] + ([Clear] + ([Send] + [])));
    RunStep(s, Arrive(item), [Clear] + ([Clear] + ([Clear] + ([Send] + []))));
  }

  lemma {:induction false} ClearedAndSent(s: State)
    requires Inv(s) && s.handler.Clearing? && s.handler.next == 2
    ensures Possible(s, [Clear] + ([Send] + []))
    ensures End(s, [Clear] + ([Send] + [])) == State(Waiting, s.player, Queued(s.queues, s.handler.item))
  {
    StepKeepsInv(s, Clear);
    var t := Apply(s, Clear);
    assert t.queues == s.queues;
    StepKeepsInv(t, Send);
    RunStep(t, Send, []);
    RunStep(s, Clear, [Send] + []);
  }

  // ---- what is played next ----

  ghost predicate AllPolls(steps: seq<Step>) {
    forall step | step in steps :: step == Poll
  }

  /** The player leaves a clip that is not permitted, cannot be opened, has ended, fails to play or has found a higher
      one waiting, and no other; it then starts with the highest queue again, and goes on only past an empty one. */
  lemma {:induction false} PlayerStartsAtTheTop(s: State, step: Step)
    requires Inv(s) && Enabled(s, step)
    ensures !s.player.Polling? && Apply(s, step).player.Polling? ==> Apply(s, step).player == Polling(2)
    ensures !s.player.Polling? ==>
              (Apply(s, step).player.Polling? <==>
               step in {Drop, Finish, Write(false)} || (step == Decide && s.player.found))
    ensures s.player.Polling? && Apply(s, step).player.Polling? && Apply(s, step).player != s.player ==>
              step == Poll && s.queues[s.player.queue] == []
    ensures s.player.Polling? && !Apply(s, step).player.Polling? ==>
              s.queues[s.player.queue] != [] && Apply(s, step).player == Chosen(s.queues[s.player.queue][0])
  {
  }

  /** Queue `p` is the highest one in which a clip waits. */
  predicate IsHighest(s: State, p: nat)
    requires Inv(s) && p < 3
  {
    s.queues[p] != [] && forall higher | p < higher < 3 :: s.queues[higher] == []
  }

  /** While the handler leaves the queues alone, the player takes the oldest clip of the highest queue in which
      one waits, and no other, within three looks; if none waits it goes on looking. */
  lemma {:induction false} HighestIsPlayedNext(s: State, steps: seq<Step>)
    requires Inv(s) && s.player == Polling(2) && Possible(s, steps) && AllPolls(steps)
    ensures forall p | 0 <= p < 3 && IsHighest(s, p) ::
              && (|steps| == 3 ==> End(s, steps).player.Chosen?) && |steps| <= 3
              && (End(s, steps).player.Chosen? ==>
                    && End(s, steps).player.item == s.queues[p][0] && s.queues[p][0].priority == p
                    && End(s, steps).queues == s.queues[p := s.queues[p][1..]])
    ensures s.queues == [[], [], []] ==> End(s, steps).player.Polling? && End(s, steps).queues == s.queues
  {
    if s.queues == [[], [], []] { NothingIsChosen(s, steps); }
    forall p | 0 <= p < 3 && IsHighest(s, p)
      ensures |steps| <= 3 && (|steps| == 3 ==> End(s, steps).player.Chosen?)
      ensures End(s, steps).player.Chosen? ==>
                && End(s, steps).player.item == s.queues[p][0] && s.queues[p][0].priority == p
                && End(s, steps).queues == s.queues[p := s.queues[p][1..]]
    {
      HighestIsChosen(s, steps, p);
    }
  }

  lemma {:induction false} HighestIsChosen(s: State, steps: seq<Step>, p: nat)
    requires Inv(s) && s.player.Polling? && p <= s.player.queue && IsHighest(s, p)
    requires Possible(s, steps) && AllPolls(steps)
    ensures var t := End(s, steps);
            && |steps| <= s.player.queue - p + 1 && (|steps| == s.player.queue - p + 1 ==> t.player.Chosen?)
            && (t.player.Chosen? ==> t.player.item == s.queues[p][0] && s.queues[p][0].priority == p
                                     && t.queues == s.queues[p := s.queues[p][1..]])
    decreases |steps|
  {
    Received(s.queues[p], p);
    if steps != [] {
      assert steps[0] in steps && forall step | step in steps[1..] :: step in steps;
      StepKeepsInv(s, steps[0]);
      var t := Apply(s, Poll);
      assert |steps| > 1 ==> steps[1] in steps && steps[1..][0] == Poll;
      if t.player.Polling? { HighestIsChosen(t, steps[1..], p); }
    }
  }

  lemma {:induction false} NothingIsChosen(s: State, steps: seq<Step>)
    requires Inv(s) && s.player.Polling? && s.queues == [[], [], []] && Possible(s, steps) && AllPolls(steps)
    ensures End(s, steps).player.Polling? && End(s, steps).queues == s.queues
    decreases |steps|
  {
    if steps != [] {
      assert steps[0] in steps && forall step | step in steps[1..] :: step in steps;
      StepKeepsInv(s, steps[0]);
      NothingIsChosen(Apply(s, steps[0]), steps[1..]);
    }
  }

  // ---- preemption ----

  /** The player is busy with one clip. */
  predicate OnClip(s: State) {
    !s.player.Polling?
  }

  /** A run during which the player stays with one clip; its last step may leave it. */
  ghost predicate DuringClip(s: State, steps: seq<Step>)
    requires Inv(s)
    decreases |steps|
  {
    steps != [] ==>
      && OnClip(s) && Enabled(s, steps[0])
      && (StepKeepsInv(s, steps[0]); DuringClip(Apply(s, steps[0]), steps[1..]))
  }

  /** The chunks of sound handed to the codec. */
  function Chunks(steps: seq<Step>): nat {
    if steps == [] then 0 else (if steps[0].Write? then 1 else 0) + Chunks(steps[1..])
  }

  /** A clip that must interrupt the current one is in its queue. */
  predicate HigherWaiting(s: State)
    requires Inv(s) && OnClip(s)
  {
    exists p | 0 <= p < 3 :: Preempts(p, s.player.item.priority) && s.queues[p] != []
  }

  /** A critical event has emptied the lower queues and has yet to queue its own clip. */
  predicate InGap(s: State) {
    s.handler.Clearing? && s.handler.item.priority == 2 && s.handler.next >= 2
  }

  /** The player looks for a warning during that gap, and nothing is there. */
  predicate GapLook(s: State, step: Step)
    requires Inv(s) && Enabled(s, step)
  {
    && step.Look? && s.player == Looking(s.player.item, 1, false) && s.player.item.priority == 0
    && s.queues[1] == [] && s.queues[2] == []
  }

  ghost function GapLooks(s: State, steps: seq<Step>): nat
    requires Inv(s) && DuringClip(s, steps)
    decreases |steps|
  {
    if steps == [] then 0
    else
      StepKeepsInv(s, steps[0]);
      (if GapLook(s, steps[0]) then 1 else 0) + GapLooks(Apply(s, steps[0]), steps[1..])
  }

  predicate Covered(s: State)
    requires Inv(s) && OnClip(s)
  {
    HigherWaiting(s) || (s.player.item.priority == 0 && InGap(s))
  }

  /** The chunk that may still come: one is being written, or the check before it has gone past the
      queue where the clip is waiting. */
  function Pending(s: State): nat
    requires Inv(s)
  {
    match s.player
    case Writing(_) => 1
    case Looking(item, p, found) =>
      if found || (p <= 2 && s.queues[2] != [] && item.priority < 2) || (p <= 1 && item.priority == 0) then 0 else 1
    case _ => 0
  }

  lemma {:induction false} StepUnderCover(s: State, step: Step)
    requires Inv(s) && OnClip(s) && Covered(s) && Enabled(s, step) && Inv(Apply(s, step))
    ensures OnClip(Apply(s, step)) ==> Covered(Apply(s, step))
    ensures GapLook(s, step) ==> InGap(s)
    ensures Pending(Apply(s, step)) + (if step.Write? then 1 else 0) <= Pending(s) + (if GapLook(s, step) then 1 else 0)
  {
    assert s.player.item.priority < 2;
    assert HigherWaiting(s) <==> s.queues[2] != [] || (s.player.item.priority == 0 && s.queues[1] != []);
    if OnClip(Apply(s, step)) { CoverIsKept(s, step); }
  }

  lemma {:induction false} CoverIsKept(s: State, step: Step)
    requires Inv(s) && OnClip(s) && Covered(s) && Enabled(s, step) && Inv(Apply(s, step)) && OnClip(Apply(s, step))
    ensures Covered(Apply(s, step))
  {
  }

  /** Once a clip of higher priority is waiting, the current one gets at most the chunk already under
      way, plus one for every look the player takes in the gap of a critical event. */
  lemma {:induction false} LateChunks(s: State, steps: seq<Step>)
    requires Inv(s) && OnClip(s) && Covered(s) && DuringClip(s, steps)
    ensures Chunks(steps) <= Pending(s) + GapLooks(s, steps)
    decreases |steps|
  {
    if steps != [] {
      StepKeepsInv(s, steps[0]);
      StepUnderCover(s, steps[0]);
      var t := Apply(s, steps[0]);
      if OnClip(t) {
        LateChunks(t, steps[1..]);
      } else {
        assert steps[1..] == [];
      }
    }
  }

  /** The check in progress has already seen a clip of higher priority. */
  predicate Seen(s: State) {
    s.player.Looking? && s.player.found
  }

  lemma {:induction false} NoGapLooks(s: State, steps: seq<Step>)
    requires Inv(s) && DuringClip(s, steps) && (s.queues[2] != [] || Seen(s))
    ensures GapLooks(s, steps) == 0
    decreases |steps|
  {
    if steps != [] {
      StepKeepsInv(s, steps[0]);
      if OnClip(Apply(s, steps[0])) { NoGapLooks(Apply(s, steps[0]), steps[1..]); }
    }
  }

  /** How far the handler is from a critical event's gap, at its nearest. */
  function ToGap(h: Handler): nat {
    if h.Waiting? then 4 else if h.item.priority != 2 then if h.next <= 3 then 8 - h.next else 5
    else if h.next <= 2 then 2 - h.next else 0
  }

  /** How far the player is from its next chunk. */
  function ToWrite(p: Player): nat {
    match p
    case Polling(_) => 8 case Chosen(_) => 7 case Reading(_) => 6
    case Looking(_, q, _) => if q <= 3 then 5 - q else 2
    case Writing(_) => 1
  }

  /** The step that leads an unlucky run on: the handler goes into the gap and stays there. */
  function Unlucky(s: State): Step
    requires OnClip(s)
  {
    if !InGap(s) then
      if s.handler.Waiting? then Arrive(Item(14, 2)) else if s.handler.next < 3 then Clear else Send
    else match s.player
      case Chosen(_) => Play
      case Reading(_) => Fill
      case Looking(_, p, _) => if p < 3 then Look else Decide
      case Writing(_) => Write(true)
  }

  predicate Exposed(s: State) {
    Inv(s) && OnClip(s) && s.player.item.priority == 0 && s.queues[2] == [] && !Seen(s)
  }

  lemma {:induction false} UnluckyStep(s: State)
    requires Exposed(s)
    ensures Enabled(s, Unlucky(s)) && Exposed(Apply(s, Unlucky(s)))
    ensures var t := Apply(s, Unlucky(s));
            || Unlucky(s).Write? || ToGap(t.handler) < ToGap(s.handler)
            || (ToGap(t.handler) == ToGap(s.handler) && ToWrite(t.player) < ToWrite(s.player))
  {
    StepKeepsInv(s, Unlucky(s));
  }

  /** In the step system alone, while only a warning waits behind an information clip, an unlucky run lets
      through any number of chunks. */
  lemma {:induction false} AnyNumberOfChunks(s: State, n: nat) returns (steps: seq<Step>)
    requires Exposed(s)
    ensures DuringClip(s, steps) && Chunks(steps) == n
    decreases n, ToGap(s.handler), ToWrite(s.player)
  {
    if n == 0 { return []; }
    UnluckyStep(s);
    var step := Unlucky(s);
    var rest := AnyNumberOfChunks(Apply(s, step), if step.Write? then n - 1 else n);
    steps := [step] + rest;
    assert steps[1..] == rest;
  }

  /** A waiting clip of higher priority is sure to stop the current one after at most one more chunk
      exactly if it is critical, or the player has already seen it. */
  lemma {:induction false} AtMostOneMoreChunkExactly(s: State)
    requires Inv(s) && OnClip(s) && HigherWaiting(s)
    ensures (forall steps | DuringClip(s, steps) :: Chunks(steps) <= 1) <==> s.queues[2] != [] || Seen(s)
  {
    if s.queues[2] != [] || Seen(s) {
      forall steps | DuringClip(s, steps) ensures Chunks(steps) <= 1 {
        LateChunks(s, steps);
        NoGapLooks(s, steps);
      }
    } else {
      var steps := AnyNumberOfChunks(s, 2);
    }
  }

  // ---- the handler as the device schedules it ----

  predicate IsHandlerStep(step: Step) {
    step.Arrive? || step.Clear? || step.Send?
  }

  /** The player only moves between two events: on one core, the event task has the higher priority and
      does not block from the first reset to the send. */
  ghost predicate HandlerIsWhole(s: State, steps: seq<Step>)
    requires Inv(s) && DuringClip(s, steps)
    decreases |steps|
  {
    steps != [] ==>
      && (IsHandlerStep(steps[0]) || s.handler.Waiting?)
      && (StepKeepsInv(s, steps[0]); HandlerIsWhole(Apply(s, steps[0]), steps[1..]))
  }

  lemma {:induction false} WholeHandlerLeavesNoGap(s: State, steps: seq<Step>)
    requires Inv(s) && OnClip(s) && Covered(s) && DuringClip(s, steps) && HandlerIsWhole(s, steps)
    ensures GapLooks(s, steps) == 0
    decreases |steps|
  {
    if steps != [] {
      StepKeepsInv(s, steps[0]);
      StepUnderCover(s, steps[0]);
      if OnClip(Apply(s, steps[0])) { WholeHandlerLeavesNoGap(Apply(s, steps[0]), steps[1..]); }
    }
  }

  /** As scheduled, every waiting clip of higher priority stops the current one after at most one more
      chunk, and after none if no chunk was under way. */
  lemma {:induction false} AtMostOneMoreChunkAsScheduled(s: State, steps: seq<Step>)
    requires Inv(s) && OnClip(s) && HigherWaiting(s) && DuringClip(s, steps) && HandlerIsWhole(s, steps)
    ensures Chunks(steps) <= Pending(s) <= 1
  {
    LateChunks(s, steps);
    WholeHandlerLeavesNoGap(s, steps);
  }

  lemma {:induction false} OneMoreStep(s: State, steps: seq<Step>, step: Step) returns (more: seq<Step>)
    requires Inv(s) && Possible(s, steps) && Enabled(End(s, steps), step)
    ensures Possible(s, more) && End(s, more) == Apply(End(s, steps), step)
    decreases |steps|
  {
    if steps == [] {
      more := [step];
      StepKeepsInv(s, step);
      assert more[1..] == [];
    } else {
      StepKeepsInv(s, steps[0]);
      var rest := OneMoreStep(Apply(s, steps[0]), steps[1..], step);
      more := [steps[0]] + rest;
      assert more[1..] == rest;
    }
  }

  lemma {:induction false} ClearOne(steps: seq<Step>) returns (more: seq<Step>)
    requires Possible(INITIAL, steps) && Enabled(End(INITIAL, steps), Clear)
             && End(INITIAL, steps).queues == [[], [], []]
    ensures var s := End(INITIAL, steps);
            Possible(INITIAL, more) && End(INITIAL, more) == s.(handler := Clearing(s.handler.item, s.handler.next + 1))
  {
    more := OneMoreStep(INITIAL, steps, Clear);
    assert End(INITIAL, more).queues == [[], [], []];
  }

  lemma {:induction false} Announce(steps: seq<Step>, item: Item) returns (more: seq<Step>)
    requires Possible(INITIAL, steps) && End(INITIAL, steps).handler.Waiting?
             && End(INITIAL, steps).queues == [[], [], []]
    requires item.priority < 2
    ensures Possible(INITIAL, more)
    ensures End(INITIAL, more) == End(INITIAL, steps).(queues := [[], [], []][item.priority := [item]])
  {
    more := OneMoreStep(INITIAL, steps, Arrive(item));
    more := ClearOne(more);
    more := ClearOne(more);
    more := ClearOne(more);
    more := OneMoreStep(INITIAL, more, Send);
    assert [] + [item] == [item];
  }

  /** Such a state, where only a warning waits behind an information clip, is reached. */
  lemma {:induction false} WarningWaitsBehindInformation() returns (steps: seq<Step>)
    ensures Possible(INITIAL, steps)
    ensures Exposed(End(INITIAL, steps)) && HigherWaiting(End(INITIAL, steps))
  {
    var clip, warning := Item(4, 0), Item(6, 1);
    steps := Announce([], clip);
    steps := OneMoreStep(INITIAL, steps, Poll);
    steps := OneMoreStep(INITIAL, steps, Poll);
    steps := OneMoreStep(INITIAL, steps, Poll);
    assert End(INITIAL, steps) == State(Waiting, Chosen(clip), [[], [], []]);
    steps := Announce(steps, warning);
    assert End(INITIAL, steps).queues[1] == [warning] && Preempts(1, 0);
  }
}
