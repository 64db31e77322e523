/** Whole runs of the audio component: any calls in any order under any faults. */
module AudioRuns {
  import opened EspErrors
  import opened BspAudio

  datatype Op = Initialize | Use(f: Format) | GoToSleep | WakeUp | Volume(percent: nat) | Pcm(out: bool) | DeepSleep

  /** What can be told of the component between two calls. */
  datatype Moment = Moment(initialized: bool, open: bool, playing: bool, sleeping: bool, releaseFailed: bool,
                           format: Format, stopFaults: nat)

  ghost function Now(a: Audio): Moment
    reads a
  {
    Moment(a.initialized, a.isOpen, a.Playing(), a.sleeping, a.releaseFailed, a.format, a.stopFaults)
  }

  /** What one call with result `e` makes of a moment, and what it never makes. */
  predicate Follows(m: Moment, op: Op, e: EspErr, n: Moment) {
    && (m.releaseFailed ==> n.releaseFailed)
    && (n.sleeping ==> n.initialized)
    && (m.initialized ==> n.initialized)
    && match op
       case Initialize => n.open == m.open && n.playing == m.playing && n.sleeping == m.sleeping && n.format == m.format
                          && (m.releaseFailed ==> e != OK)
       case Use(f) => n.open == (e == OK) && n.playing == (m.playing || f != m.format) && n.sleeping == m.sleeping
                      && n.format == (if e == OK then f else m.format) && (m.releaseFailed ==> e != OK)
       case GoToSleep => !n.open && n.playing && n.sleeping == m.initialized && n.format == m.format
       case WakeUp =>
         if m.sleeping then
           && n.open == (e == OK) && n.playing && n.sleeping == (e != OK) && (m.releaseFailed ==> e != OK)
           && n.format == if e == OK then WakeFormat(m.format) else m.format
         else n.open == m.open && n.playing == m.playing && !n.sleeping && n.format == m.format
       case Volume(_) => n.open == m.open && n.playing == m.playing && n.sleeping == m.sleeping && n.format == m.format
       case Pcm(_) => n.open == m.open && n.playing == m.playing && n.sleeping == m.sleeping && n.format == m.format
                      && (e == OK ==> m.open && !m.releaseFailed)
       case DeepSleep => n.open == m.open && n.sleeping == m.sleeping && n.format == m.format
                         && n.playing == (m.playing && (!m.open || n.stopFaults == m.stopFaults + 2))
  }

  /** The moments before, between and after the calls of a run. */
  ghost predicate IsRun(trace: seq<Moment>, ops: seq<Op>, results: seq<EspErr>) {
    && |trace| == |ops| + 1 && |results| == |ops|
    && (trace[0].sleeping ==> trace[0].initialized)
    && forall i | 0 <= i < |ops| :: Follows(trace[i], ops[i], results[i], trace[i + 1])
  }

  method Do(a: Audio, op: Op) returns (e: EspErr)
    requires a.Valid()
    modifies a
    ensures a.Valid() && Follows(old(Now(a)), op, e, Now(a))
  {
    e := OK;
    match op {
      case Initialize => e := a.Init();
      case Use(f) => e := a.SetFormat(f.hz, f.bits, f.ch);
      case GoToSleep => e := a.Sleep();
      case WakeUp => e := a.Wake();
      case Volume(percent) => a.SetVolume(percent);
      case Pcm(out) => e := a.Pcm(out);
      case DeepSleep => e := a.PrepareDeepSleep();
    }
  }

  /** Every sequence of calls is a run. */
  method Run(a: Audio, ops: seq<Op>) returns (results: seq<EspErr>, ghost trace: seq<Moment>)
    requires a.Valid()
    modifies a
    ensures a.Valid() && IsRun(trace, ops, results) && trace[0] == old(Now(a)) && trace[|ops|] == Now(a)
  {
    results, trace := [], [Now(a)];
    for i := 0 to |ops|
      invariant a.Valid() && |results| == i && |trace| == i + 1
      invariant trace[0] == old(Now(a)) && trace[i] == Now(a)
      invariant forall j | 0 <= j < i :: Follows(trace[j], ops[j], results[j], trace[j + 1])
    {
      var e := Do(a, ops[i]);
      results, trace := results + [e], trace + [Now(a)];
    }
  }

  // ---- open means running ----

  /** Exactly: open means running throughout a run if and only if it does at its start, and every deep
      sleep is prepared while the component is closed (or with two channels that will not stop). */
  lemma {:induction false} PlaysThroughoutExactly(trace: seq<Moment>, ops: seq<Op>, results: seq<EspErr>)
    requires IsRun(trace, ops, results)
    ensures (forall i | 0 <= i <= |ops| :: trace[i].playing) <==>
            trace[0].playing && forall i | 0 <= i < |ops| && ops[i].DeepSleep? :: !Halts(trace, i)
  {
    if trace[0].playing && forall i | 0 <= i < |ops| && ops[i].DeepSleep? :: !Halts(trace, i) {
      forall i | 0 <= i <= |ops| ensures trace[i].playing {
        PlaysUpTo(trace, ops, results, i);
      }
    }
    if i :| 0 <= i < |ops| && ops[i].DeepSleep? && Halts(trace, i) {
      assert Follows(trace[i], ops[i], results[i], trace[i + 1]);
      assert !trace[i + 1].playing;
    }
  }

  /** During call `i` of a run the component was open, and at least one channel stopped. */
  predicate Halts(trace: seq<Moment>, i: nat)
    requires i + 1 < |trace|
  {
    trace[i].open && trace[i + 1].stopFaults != trace[i].stopFaults + 2
  }

  lemma {:induction false} PlaysUpTo(trace: seq<Moment>, ops: seq<Op>, results: seq<EspErr>, n: nat)
    requires IsRun(trace, ops, results) && n <= |ops| && trace[0].playing
    requires forall i | 0 <= i < |ops| && ops[i].DeepSleep? :: !Halts(trace, i)
    ensures trace[n].playing
  {
    if n > 0 {
      PlaysUpTo(trace, ops, results, n - 1);
      assert Follows(trace[n - 1], ops[n - 1], results[n - 1], trace[n]);
    }
  }

  /** Every deep sleep comes after a sleep, with nothing in between that may open the codec again. */
  ghost predicate SleepsFirst(ops: seq<Op>) {
    forall i | 0 <= i < |ops| && ops[i].DeepSleep? ::
      exists j :: 0 <= j < i && ops[j].GoToSleep? && StaysClosed(ops, j + 1, i)
  }

  predicate StaysClosed(ops: seq<Op>, from: nat, to: nat)
    requires to <= |ops|
  {
    forall k | from <= k < to :: !ops[k].Use? && !ops[k].WakeUp?
  }

  lemma {:induction false} ClosedUpTo(trace: seq<Moment>, ops: seq<Op>, results: seq<EspErr>, from: nat, to: nat)
    requires IsRun(trace, ops, results) && from <= to <= |ops| && !trace[from].open && StaysClosed(ops, from, to)
    ensures !trace[to].open
  {
    if from < to {
      ClosedUpTo(trace, ops, results, from, to - 1);
      assert Follows(trace[to - 1], ops[to - 1], results[to - 1], trace[to]);
    }
  }

  /** The order the firmware uses, sleep before deep sleep, therefore keeps it under all faults. */
  lemma {:induction false} SleepingFirstKeepsPlaying(trace: seq<Moment>, ops: seq<Op>, results: seq<EspErr>)
    requires IsRun(trace, ops, results) && SleepsFirst(ops) && trace[0].playing
    ensures forall i | 0 <= i <= |ops| :: trace[i].playing
  {
    forall i | 0 <= i < |ops| && ops[i].DeepSleep? ensures !Halts(trace, i) {
      var j :| 0 <= j < i && ops[j].GoToSleep? && StaysClosed(ops, j + 1, i);
      assert Follows(trace[j], ops[j], results[j], trace[j + 1]);
      ClosedUpTo(trace, ops, results, j + 1, i);
    }
    PlaysThroughoutExactly(trace, ops, results);
  }

  /** The other order: after a deep sleep prepared under an open codec, asking for the same format
      succeeds on stopped channels, and nothing can be played. */
  method DeepSleepUnderAnOpenCodec(f: Format) returns (a: Audio, again: EspErr, written: EspErr)
    ensures a.Valid()
    ensures a.faults == 0 ==> again == OK && a.isOpen && a.board.BothStopped() && a.halted && written == FAIL
  {
    a := new Audio();
    var e := a.Init();
    e := a.SetFormat(f.hz, f.bits, f.ch);
    e := a.PrepareDeepSleep();
    again := a.SetFormat(f.hz, f.bits, f.ch);
    written := a.Pcm(true);
  }

  // ---- what a wake restores ----

  /** The last format that was asked for with success; `first` if there was none. */
  function LastUse(ops: seq<Op>, results: seq<EspErr>, first: Format): Format
    requires |results| == |ops|
  {
    if ops == [] then first
    else
      var n := |ops| - 1;
      if ops[n].Use? && results[n] == OK then ops[n].f else LastUse(ops[..n], results[..n], first)
  }

  lemma {:induction false} FormatIsLastUse(trace: seq<Moment>, ops: seq<Op>, results: seq<EspErr>, n: nat)
    requires IsRun(trace, ops, results) && n <= |ops|
    ensures WakeFormat(trace[n].format) == WakeFormat(LastUse(ops[..n], results[..n], trace[0].format))
  {
    if n > 0 {
      FormatIsLastUse(trace, ops, results, n - 1);
      assert Follows(trace[n - 1], ops[n - 1], results[n - 1], trace[n]);
      assert ops[..n][..n - 1] == ops[..n - 1] && results[..n][..n - 1] == results[..n - 1];
      WakeRestoresNonZeroFormats(trace[n - 1].format);
    }
  }

  /** Over any run, a wake that succeeds restores the last format asked for with success: all of it if no
      part of it is zero, else with defaults for those parts, as when there was no such format. */
  lemma {:induction false} WakeRestoresTheLastUse(trace: seq<Moment>, ops: seq<Op>, results: seq<EspErr>, i: nat)
    requires IsRun(trace, ops, results) && i < |ops| && ops[i].WakeUp? && trace[i].sleeping && results[i] == OK
    ensures var last := LastUse(ops[..i], results[..i], trace[0].format);
            && trace[i + 1].open && trace[i + 1].playing && trace[i + 1].format == WakeFormat(last)
            && (trace[i + 1].format == last <==> NoZeroPart(last))
  {
    FormatIsLastUse(trace, ops, results, i);
    WakeRestoresNonZeroFormats(LastUse(ops[..i], results[..i], trace[0].format));
    assert Follows(trace[i], ops[i], results[i], trace[i + 1]);
  }

  /** The case of a zero part: the codec library is assumed to take such a format. */
  method ZeroPartIsNotRestored(f: Format) returns (a: Audio, woken: EspErr)
    requires !NoZeroPart(f)
    ensures a.Valid() && (a.faults == 0 ==> woken == OK && a.isOpen && a.format == WakeFormat(f) != f)
  {
    a := new Audio();
    var e := a.Init();
    e := a.SetFormat(f.hz, f.bits, f.ch);
    e := a.Sleep();
    woken := a.Wake();
    WakeRestoresNonZeroFormats(f);
  }

  // ---- a failed release ----

  /** Once releasing the codec has failed, no initialisation, format change, transfer or wake ever succeeds again. */
  lemma {:induction false} FailedReleaseIsFinal(trace: seq<Moment>, ops: seq<Op>, results: seq<EspErr>, i: nat, j: nat)
    requires IsRun(trace, ops, results) && i <= j < |ops| && trace[i].releaseFailed
    ensures trace[j].releaseFailed && (trace[i].sleeping ==> trace[j].sleeping)
    ensures ops[j].Initialize? || ops[j].Use? || ops[j].Pcm? || (ops[j].WakeUp? && trace[j].sleeping) ==>
              results[j] != OK
    decreases j - i
  {
    assert Follows(trace[i], ops[i], results[i], trace[i + 1]);
    if i < j {
      SleepMeansInitialized(trace, ops, results, i);
      FailedReleaseIsFinal(trace, ops, results, i + 1, j);
    }
  }

  lemma {:induction false} SleepMeansInitialized(trace: seq<Moment>, ops: seq<Op>, results: seq<EspErr>, i: nat)
    requires IsRun(trace, ops, results) && i <= |ops|
    ensures trace[i].sleeping ==> trace[i].initialized
  {
    if i > 0 { assert Follows(trace[i - 1], ops[i - 1], results[i - 1], trace[i]); }
  }
}
