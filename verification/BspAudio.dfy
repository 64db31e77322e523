/** The audio codec's life cycle: formats, sleep and wake over a codec library that swallows errors
    and a board on which any call may fail. */
module BspAudio {
  import opened EspErrors

  datatype Format = Format(hz: nat, bits: nat, ch: nat)

  const DEFAULT_FORMAT := Format(16000, 16, 1)

  /** One I2S direction: whether it runs, its format, and whether the codec library believes it is on. */
  datatype Channel = Channel(running: bool, format: Format, believedOn: bool)

  datatype Board = Board(tx: Channel, rx: Channel, codecVolume: nat, inputGain: nat) {
    function Side(out: bool): Channel { if out then tx else rx }
    function With(out: bool, c: Channel): Board { if out then this.(tx := c) else this.(rx := c) }
    predicate BothRun() { tx.running && rx.running }
    predicate BothStopped() { !tx.running && !rx.running }
    predicate Believed(on: bool) { tx.believedOn == on && rx.believedOn == on }
  }

  /** The format a wake asks for: the last one set, each missing part replaced by its default. */
  function WakeFormat(last: Format): Format {
    Format(if last.hz != 0 then last.hz else DEFAULT_FORMAT.hz,
           if last.bits != 0 then last.bits else DEFAULT_FORMAT.bits,
           if last.ch != 0 then last.ch else DEFAULT_FORMAT.ch)
  }

  /** One attempt to start or to stop a channel. */
  datatype ChannelStep = Started(out: bool) | Stopped(out: bool)

  predicate NoZeroPart(f: Format) {
    f.hz != 0 && f.bits != 0 && f.ch != 0
  }

  /** Waking restores the last format exactly when none of its parts is zero; a part that is zero becomes
      16 kHz, 16 bits or one channel, whatever the others are. */
  lemma {:induction false} WakeRestoresNonZeroFormats(last: Format)
    ensures WakeFormat(last) == last <==> NoZeroPart(last)
    ensures WakeFormat(last).hz in {last.hz, 16000} && WakeFormat(last).bits in {last.bits, 16}
            && WakeFormat(last).ch in {last.ch, 1} && NoZeroPart(WakeFormat(last))
    ensures WakeFormat(WakeFormat(last)) == WakeFormat(last)
    ensures (last.hz != 0 ==> WakeFormat(last).hz == last.hz) && (last.bits != 0 ==> WakeFormat(last).bits == last.bits)
            && (last.ch != 0 ==> WakeFormat(last).ch == last.ch)
  {
  }

  class Audio {
    // the component's own state
    var codec: bool
    var dev: bool
    var devOpened: bool
    var ctrl: bool
    var data: bool
    var gpio: bool
    var tx: bool
    var rx: bool
    var format: Format
    var isOpen: bool
    var sleeping: bool
    var initialized: bool
    var sleepResult: EspErr
    var releaseFailed: bool
    var volume: nat
    var ioError: EspErr
    // the hardware and the library's own flags
    var board: Board
    // the last register writes were a whole sleep sequence that checked out
    var chipAsleep: bool
    // a deep sleep has stopped a channel of the codec that is open now
    ghost var halted: bool
    // how often anything failed, how often at a checked interface, how often a channel would not
    // stop, and how often one could not be deleted
    ghost var faults: nat
    ghost var checkedErrors: nat
    ghost var stopFaults: nat
    ghost var deleteFaults: nat
    // how often the library said that it could not open, or set a level; and how often the codec's release failed
    ghost var refusals: nat
    ghost var releaseFaults: nat
    // how often a forced sleep failed, and how often the chip's control interface was created
    ghost var sleepFaults: nat
    ghost var controls: nat
    // every attempt to start or to stop a channel, in order
    ghost var steps: seq<ChannelStep>

    ghost predicate Valid()
      reads this
    {
      && (dev <==> codec)
      && (devOpened <==> dev && isOpen)
      && (isOpen ==> dev && initialized && !sleeping)
      && (initialized ==> ctrl && data && gpio && tx && rx)
      && (!initialized ==> !codec && format == Format(0, 0, 0))
      && (sleeping ==> initialized && !codec)
      && (releaseFailed ==> !codec) && Remembers()
      && (isOpen ==> board.tx.format == board.rx.format == format)
      && board.Believed(isOpen)
      && (Playing() <==> !halted)
      && (sleeping && sleepResult == OK ==> chipAsleep)
    }

    /** The flag says that some release of the codec has failed. */
    ghost predicate Remembers()
      reads this
    {
      releaseFailed <==> releaseFaults > 0
    }

    /** Open means running. */
    ghost predicate Playing()
      reads this
    {
      isOpen ==> board.BothRun()
    }

    // ---- the board: any call may fail ----

    method Attempt() returns (e: EspErr)
      modifies `faults
      ensures faults == if e == OK then old(faults) else old(faults) + 1
    {
      e := *;
      if e != OK { faults := faults + 1; }
    }

    method StartChannel(out: bool) returns (e: EspErr)
      modifies `board, `steps, `faults
      ensures faults >= old(faults)
      ensures var c := old(board).Side(out);
              && board == old(board).With(out, c.(running := c.running || e == OK))
              && (c.running ==> e == INVALID_STATE)
              && (!c.running ==> (e == OK <==> faults == old(faults)))
      ensures steps == old(steps) + [Started(out)]
    {
      steps := steps + [Started(out)];
      if board.Side(out).running { return INVALID_STATE; }
      e := Attempt();
      if e == OK { board := board.With(out, board.Side(out).(running := true)); }
    }

    /** Stopping a channel that does not run is reported as an invalid state, and nothing else is. */
    method StopChannel(out: bool) returns (e: EspErr)
      modifies `board, `steps, `faults, `stopFaults
      ensures faults >= old(faults) && stopFaults >= old(stopFaults)
      ensures var c := old(board).Side(out);
              && board == old(board).With(out, c.(running := c.running && e != OK))
              && (e == INVALID_STATE <==> !c.running)
              && faults - old(faults) == stopFaults - old(stopFaults) == if e == OK || e == INVALID_STATE then 0 else 1
      ensures steps == old(steps) + [Stopped(out)]
    {
      steps := steps + [Stopped(out)];
      if !board.Side(out).running { return INVALID_STATE; }
      e := Attempt();
      if e == INVALID_STATE { e := FAIL; }
      if e == OK {
        board := board.With(out, board.Side(out).(running := false));
      } else {
        stopFaults := stopFaults + 1;
      }
    }

    /** A channel that still runs after an attempt to stop it is one that would not stop. */
    function Stuck(held: bool, c: Channel): nat {
      if held && c.running then 1 else 0
    }

    method StopBothChannels() returns (firstError: EspErr)
      modifies `board, `steps, `faults, `stopFaults
      ensures faults >= old(faults) && stopFaults >= old(stopFaults)
      ensures board == old(board).(tx := old(board).tx.(running := board.tx.running),
                                   rx := old(board).rx.(running := board.rx.running))
      ensures firstError == OK ==> !(tx && board.tx.running) && !(rx && board.rx.running) && faults == old(faults)
      ensures stopFaults == old(stopFaults) + Stuck(tx, board.tx) + Stuck(rx, board.rx)
      ensures board.tx.running ==> old(board).tx.running
      ensures board.rx.running ==> old(board).rx.running
      ensures stopFaults == old(stopFaults) ==> firstError == OK
      ensures faults == old(faults) ==> firstError == OK && stopFaults == old(stopFaults)
      ensures steps == old(steps) + (if tx then [Stopped(true)] else []) + if rx then [Stopped(false)] else []
    {
      firstError := OK;
      if tx {
        var e := StopChannel(true);
        if e == INVALID_STATE { e := OK; }
        if e != OK { firstError := e; }
      }
      if rx {
        var e := StopChannel(false);
        if e == INVALID_STATE { e := OK; }
        if e != OK && firstError == OK { firstError := e; }
      }
    }

    method PrepareReopen() returns (e: EspErr)
      requires tx && rx
      modifies `board, `steps, `faults, `stopFaults
      ensures faults >= old(faults) && stopFaults >= old(stopFaults)
      ensures board == old(board).(tx := old(board).tx.(running := board.tx.running),
                                   rx := old(board).rx.(running := board.rx.running))
      ensures e == OK ==> board.BothRun() && faults == old(faults)
      ensures faults == old(faults) && old(board).BothStopped() ==> e == OK
      ensures e != OK && old(board).BothStopped() && stopFaults == old(stopFaults) ==> board.BothStopped()
      ensures e == OK ==> steps == old(steps) + [Started(true), Started(false)]
    {
      e := StartChannel(true);
      if e != OK { return; }
      e := StartChannel(false);
      if e != OK {
        var ignored := StopChannel(true);
      }
    }

    // ---- the checked interfaces handed to the codec library ----

    method Track(result: EspErr)
      modifies `ioError, `checkedErrors
      ensures checkedErrors == if result == OK then old(checkedErrors) else old(checkedErrors) + 1
      ensures ioError == if old(ioError) == OK then result else old(ioError)
    {
      if result != OK {
        checkedErrors := checkedErrors + 1;
        if ioError == OK { ioError := result; }
      }
    }

    /** Any number of register writes, summed up by their first failure. They end a forced sleep. */
    method ControlTraffic() returns (e: EspErr)
      modifies `chipAsleep, `ioError, `checkedErrors, `faults
      ensures faults >= old(faults) && checkedErrors >= old(checkedErrors)
      ensures ioError == if old(ioError) == OK then e else old(ioError)
      ensures e == OK <==> faults == old(faults)
      ensures e == OK <==> checkedErrors == old(checkedErrors)
      ensures !chipAsleep
    {
      chipAsleep := false;
      e := Attempt();
      Track(e);
    }

    /** The library's own data interface: it updates its belief even when the driver refuses. */
    method LibraryEnable(out: bool, enable: bool) returns (e: EspErr)
      modifies `board, `steps, `faults, `stopFaults
      ensures faults >= old(faults) && stopFaults >= old(stopFaults)
      ensures var c := old(board).Side(out);
              && board == old(board).With(out, c.(running := board.Side(out).running, believedOn := enable))
              && (e == OK ==> board.Side(out).running == enable && faults == old(faults))
              && (faults == old(faults) && c.running != enable ==> e == OK)
              && (!enable && stopFaults == old(stopFaults) ==> !board.Side(out).running)
      ensures steps == old(steps) + [if enable then Started(out) else Stopped(out)]
    {
      if enable { e := StartChannel(out); } else { e := StopChannel(out); }
      board := board.With(out, board.Side(out).(believedOn := enable));
    }

    /** It refuses a rate that differs from the other direction's while it believes that one is on, and
        configuring RX drags TX along unless it believes TX is on. */
    method LibrarySetFormat(out: bool, fs: Format) returns (e: EspErr)
      modifies `board, `steps, `faults, `stopFaults
      ensures faults >= old(faults) && stopFaults >= old(stopFaults)
      ensures board.codecVolume == old(board).codecVolume
      ensures board.tx.believedOn == old(board).tx.believedOn && board.rx.believedOn == old(board).rx.believedOn
      ensures out || old(board).tx.believedOn ==> board.Side(!out) == old(board).Side(!out)
      ensures e == OK ==> board.Side(out).format == fs
      ensures faults == old(faults)
              && (old(board).Side(!out).believedOn ==> old(board).Side(!out).format.hz == fs.hz) ==>
                e == OK && !board.Side(out).running
    {
      if board.Side(!out).believedOn && board.Side(!out).format.hz != fs.hz { return FAIL; }
      var ignored := StopChannel(out);
      e := Attempt();
      if e != OK { return; }
      board := board.With(out, board.Side(out).(format := fs));
      if !out && !board.tx.believedOn {
        ignored := StopChannel(true);
        board := board.(tx := board.tx.(format := fs));
        ignored := StartChannel(true);
      }
    }

    /** TX first when starting, because it carries the master clock; RX first when stopping. */
    method CheckedEnable(enable: bool) returns (result: EspErr)
      modifies `board, `steps, `chipAsleep, `ioError, `checkedErrors, `faults, `stopFaults
      ensures faults >= old(faults) && stopFaults >= old(stopFaults) && checkedErrors >= old(checkedErrors)
      ensures board == old(board).(tx := old(board).tx.(running := board.tx.running, believedOn := enable),
                                   rx := old(board).rx.(running := board.rx.running, believedOn := enable))
      ensures ioError == OK ==> checkedErrors == old(checkedErrors) && old(ioError) == OK && faults == old(faults)
                                && board.tx.running == board.rx.running == enable
      ensures result == OK <==> checkedErrors == old(checkedErrors)
      ensures !enable && stopFaults == old(stopFaults) ==> board.BothStopped()
      ensures faults == old(faults) && old(ioError) == OK
              && old(board).tx.running == old(board).rx.running == !enable ==>
                ioError == OK
      ensures steps == old(steps) + if enable then [Started(true), Started(false)] else [Stopped(false), Stopped(true)]
    {
      result := LibraryEnable(enable, enable);
      Track(result);
      var next := LibraryEnable(!enable, enable);
      Track(next);
      if result == OK { result := next; }
    }

    /** Both directions, one after the other, so that neither result can hide the other. */
    method CheckedSetFormat(fs: Format) returns (result: EspErr)
      modifies `board, `steps, `chipAsleep, `ioError, `checkedErrors, `faults, `stopFaults
      ensures faults >= old(faults) && stopFaults >= old(stopFaults) && checkedErrors >= old(checkedErrors)
      ensures board.codecVolume == old(board).codecVolume
      ensures old(board).Believed(false) ==> board.Believed(false)
      ensures ioError == OK ==> checkedErrors == old(checkedErrors) && old(ioError) == OK
                                && board.tx.format == board.rx.format == fs
      ensures result == OK <==> checkedErrors == old(checkedErrors)
      ensures faults == old(faults) && old(ioError) == OK && old(board).Believed(false) ==>
                ioError == OK && board.BothStopped()
    {
      result := LibrarySetFormat(true, fs);
      Track(result);
      if result != OK { return; }
      result := LibraryEnable(true, true);
      Track(result);
      if result == OK {
        result := LibrarySetFormat(false, fs);
        Track(result);
      }
      var stopped := LibraryEnable(true, false);
      Track(stopped);
      if result == OK { result := stopped; }
    }

    /** What the library answers when its interfaces have said `heard`: it may drop an error, and may refuse on
        its own account. */
    method Answer(heard: EspErr) returns (r: EspErr)
      modifies `faults, `refusals
      ensures faults >= old(faults) && (heard == OK && faults == old(faults) ==> r == OK)
      ensures refusals == if r == OK then old(refusals) else old(refusals) + 1
    {
      var swallowed: bool := *;
      r := if swallowed then OK else heard;
      if r == OK { r := Attempt(); }
      if r != OK { refusals := refusals + 1; }
    }

    /** The library marks itself opened first and may report success whatever its interfaces said. */
    method LibraryOpen(fs: Format) returns (r: EspErr)
      requires dev && codec && board.Believed(devOpened)
      modifies `devOpened, `board, `steps, `chipAsleep, `ioError, `checkedErrors, `faults, `stopFaults, `refusals
      ensures refusals == if r == OK then old(refusals) else old(refusals) + 1
      ensures devOpened && board.Believed(true) && board.codecVolume == old(board).codecVolume
      ensures faults >= old(faults) && stopFaults >= old(stopFaults) && checkedErrors >= old(checkedErrors)
      ensures !old(devOpened) && ioError == OK ==>
                && checkedErrors == old(checkedErrors) && old(ioError) == OK
                && board.tx.format == board.rx.format == fs && board.BothRun()
      ensures old(devOpened) ==> ioError == old(ioError) && checkedErrors == old(checkedErrors)
      ensures !old(devOpened) && faults == old(faults) && old(ioError) == OK ==> r == OK && ioError == OK
    {
      if devOpened { return OK; }
      devOpened := true;
      var ignored := CheckedSetFormat(fs);
      ignored := CheckedEnable(true);
      r := ControlTraffic();
      r := Answer(r);
    }

    method LibrarySetVolume(percent: nat) returns (r: EspErr)
      modifies `board, `chipAsleep, `ioError, `checkedErrors, `faults, `refusals
      ensures refusals == if r == OK then old(refusals) else old(refusals) + 1
      ensures faults >= old(faults) && checkedErrors >= old(checkedErrors) && !chipAsleep
      ensures board == old(board).(codecVolume := board.codecVolume)
      ensures ioError == OK ==>
                checkedErrors == old(checkedErrors) && old(ioError) == OK && board.codecVolume == percent
      ensures faults == old(faults) ==> r == OK && ioError == old(ioError) && board.codecVolume == percent
    {
      r := ControlTraffic();
      if r == OK { board := board.(codecVolume := percent); }
      r := Answer(r);
    }

    method LibrarySetGain(decibel: nat) returns (r: EspErr)
      modifies `board, `chipAsleep, `ioError, `checkedErrors, `faults, `refusals
      ensures refusals == if r == OK then old(refusals) else old(refusals) + 1
      ensures faults >= old(faults) && checkedErrors >= old(checkedErrors) && !chipAsleep
      ensures board == old(board).(inputGain := board.inputGain)
      ensures ioError == OK ==>
                checkedErrors == old(checkedErrors) && old(ioError) == OK && board.inputGain == decibel
      ensures faults == old(faults) ==> r == OK && ioError == old(ioError)
    {
      r := ControlTraffic();
      if r == OK { board := board.(inputGain := decibel); }
      r := Answer(r);
    }

    /** The interface is freed even when its release fails. */
    method LibraryRelease() returns (r: EspErr)
      modifies `faults, `releaseFaults
      ensures if r == OK then faults == old(faults) && releaseFaults == old(releaseFaults)
              else faults == old(faults) + 1 && releaseFaults == old(releaseFaults) + 1
    {
      r := Attempt();
      if r != OK { releaseFaults := releaseFaults + 1; }
    }

    // ---- the component ----

    method ForceSleep() returns (e: EspErr)
      modifies `chipAsleep, `faults, `sleepFaults
      ensures faults >= old(faults) && (faults == old(faults) && ctrl ==> e == OK)
      ensures chipAsleep == if ctrl then e == OK else old(chipAsleep)
      ensures e == if !ctrl then INVALID_STATE else if sleepFaults == old(sleepFaults) then OK else FAIL
      ensures sleepFaults == if ctrl && e != OK then old(sleepFaults) + 1 else old(sleepFaults)
    {
      if !ctrl { return INVALID_STATE; }
      e := Attempt();
      chipAsleep := e == OK;
      if e != OK {
        sleepFaults := sleepFaults + 1;
        return FAIL;
      }
    }

    /** Objects go even when their release fails; a failed release of the codec is remembered for good. */
    method DeleteCodec()
      requires Remembers() && board.Believed(devOpened) && (devOpened ==> dev) && (dev ==> codec)
      modifies `codec, `dev, `devOpened, `isOpen, `halted, `releaseFailed, `releaseFaults, `board, `steps, `chipAsleep,
               `ioError, `checkedErrors, `faults, `stopFaults
      ensures !codec && !dev && !devOpened && !isOpen && !halted && board.Believed(false)
      ensures faults >= old(faults) && stopFaults >= old(stopFaults) && checkedErrors >= old(checkedErrors)
      ensures Remembers() && releaseFaults >= old(releaseFaults)
      ensures releaseFailed && !old(releaseFailed) ==> ioError != OK
      ensures board.tx.format == old(board).tx.format && board.rx.format == old(board).rx.format
      ensures board.codecVolume == old(board).codecVolume
      ensures ioError == OK ==> checkedErrors == old(checkedErrors) && old(ioError) == OK && faults == old(faults)
      ensures faults == old(faults) && old(ioError) == OK && (old(devOpened) ==> old(board).BothRun()) ==>
                ioError == OK && releaseFailed == old(releaseFailed)
      ensures !old(codec) ==> chipAsleep == old(chipAsleep) && ioError == old(ioError)
    {
      if dev {
        if devOpened {
          var ignored := ControlTraffic();
          ignored := CheckedEnable(false);
        }
        dev, devOpened := false, false;
      }
      if codec {
        var ignored := ControlTraffic();
        var result := LibraryRelease();
        if result != OK {
          releaseFailed := true;
          Track(result);
        }
        codec := false;
      }
      isOpen, halted := false, false;
    }

    method CreateCodec() returns (e: EspErr)
      requires Remembers() && !dev && !codec && !isOpen && !devOpened && !halted && board.Believed(false)
      modifies `codec, `dev, `devOpened, `isOpen, `halted, `releaseFailed, `releaseFaults, `board, `steps, `chipAsleep,
               `ioError, `checkedErrors, `faults, `stopFaults
      ensures faults >= old(faults) && stopFaults >= old(stopFaults) && checkedErrors >= old(checkedErrors)
      ensures !devOpened && !isOpen && !halted && board.Believed(false) && board.codecVolume == old(board).codecVolume
      ensures board.tx.format == old(board).tx.format && board.rx.format == old(board).rx.format
      ensures e == OK ==> dev && codec && board == old(board) && checkedErrors == old(checkedErrors) && !releaseFailed
                          && faults == old(faults)
      ensures e != OK ==> !dev && !codec
      ensures Remembers() && releaseFaults >= old(releaseFaults) && (old(releaseFailed) ==> e != OK)
      ensures faults == old(faults) && !old(releaseFailed) ==> e == OK && !releaseFailed
    {
      if releaseFailed { return INVALID_STATE; }
      ioError := OK;
      var made := Attempt();
      codec := made == OK;
      if codec { var ignored := ControlTraffic(); }
      if !codec || ioError != OK {
        DeleteCodec();
        return FAIL;
      }
      made := Attempt();
      dev := made == OK;
      if !dev {
        DeleteCodec();
        return NO_MEM;
      }
      return OK;
    }

    /** Drop the codec object, force the codec chip to sleep, stop the channels: all three, in this order. */
    method Quieten() returns (slept: EspErr, stopped: EspErr)
      requires Remembers() && board.Believed(devOpened) && (devOpened ==> dev) && (dev ==> codec)
      modifies `codec, `dev, `devOpened, `isOpen, `halted, `releaseFailed, `releaseFaults, `board, `steps, `chipAsleep,
               `ioError, `checkedErrors, `faults, `stopFaults, `sleepFaults
      ensures !codec && !dev && !devOpened && !isOpen && !halted && board.Believed(false)
      ensures faults >= old(faults) && stopFaults >= old(stopFaults) && checkedErrors >= old(checkedErrors)
      ensures Remembers() && releaseFaults >= old(releaseFaults)
      ensures ioError == OK ==> checkedErrors == old(checkedErrors) && releaseFailed == old(releaseFailed)
      ensures sleepFaults >= old(sleepFaults) && (slept == OK ==> chipAsleep)
      ensures ctrl && sleepFaults == old(sleepFaults) ==> chipAsleep
      ensures ctrl && sleepFaults > old(sleepFaults) ==> slept == FAIL
      ensures tx && rx && (stopped == OK || stopFaults == old(stopFaults)) ==> board.BothStopped()
      ensures ctrl && faults == old(faults) && old(ioError) == OK && (old(devOpened) ==> old(board).BothRun()) ==>
                ioError == slept == stopped == OK
    {
      DeleteCodec();
      slept := ForceSleep();
      stopped := StopBothChannels();
    }

    /** A format either takes effect completely, with nothing going wrong at any checked interface, or
        leaves no codec object behind. Asking for the format in force changes nothing. */
    method SetFormat(hz: nat, bits: nat, ch: nat) returns (e: EspErr)
      requires Valid()
      modifies this
      ensures Valid() && faults >= old(faults) && checkedErrors >= old(checkedErrors)
      ensures initialized == old(initialized) && sleeping == old(sleeping)
      ensures sleepResult == old(sleepResult) && volume == old(volume)
      ensures !initialized || sleeping ==> e == INVALID_STATE
      ensures !initialized || sleeping || (old(isOpen) && old(format) == Format(hz, bits, ch)) ==>
                && format == old(format) && board == old(board) && isOpen == old(isOpen)
                && codec == old(codec) && faults == old(faults)
      ensures e == OK ==> isOpen && format == Format(hz, bits, ch) && checkedErrors == old(checkedErrors)
                          && refusals == old(refusals)
      ensures e == OK && !(old(isOpen) && old(format) == Format(hz, bits, ch)) ==>
                board.BothRun() && board.codecVolume == volume && board.inputGain == 30 && !chipAsleep
      ensures e != OK && initialized && !sleeping ==>
                && !codec && !dev && !isOpen && format == old(format)
                && (stopFaults == old(stopFaults) ==> board.BothStopped())
                && (sleepFaults == old(sleepFaults) ==> chipAsleep)
      ensures releaseFaults >= old(releaseFaults) && (old(releaseFailed) ==> e != OK)
      ensures initialized && !sleeping && !old(releaseFailed) && old(Playing()) && faults == old(faults) ==>
                e == OK && !releaseFailed
    {
      if !initialized { return INVALID_STATE; }
      if sleeping { return INVALID_STATE; }
      if isOpen && format.hz == hz && format.bits == bits && format.ch == ch { return OK; }

      e := TryFormat(Format(hz, bits, ch));
      if e == OK { return; }
      var slept, stopped := Quieten();
    }

    /** Everything between the shortcut and the common failure exit. */
    method TryFormat(fs: Format) returns (e: EspErr)
      requires Valid() && initialized && !sleeping && !(isOpen && format == fs)
      modifies this
      ensures initialized == old(initialized) && sleeping == old(sleeping)
      ensures sleepResult == old(sleepResult) && volume == old(volume)
      ensures ctrl == old(ctrl) && data == old(data) && gpio == old(gpio) && tx == old(tx) && rx == old(rx)
      ensures faults >= old(faults) && stopFaults >= old(stopFaults) && checkedErrors >= old(checkedErrors)
      ensures (devOpened ==> dev) && (dev ==> codec) && board.Believed(devOpened)
      ensures Remembers() && releaseFaults >= old(releaseFaults) && (old(releaseFailed) ==> e != OK)
      ensures sleepFaults == old(sleepFaults)
      ensures e == OK ==> Valid() && isOpen && format == fs && board.BothRun() && board.codecVolume == volume
                          && board.inputGain == 30 && !chipAsleep && checkedErrors == old(checkedErrors)
                          && refusals == old(refusals)
      ensures e != OK ==> format == old(format)
      ensures !old(releaseFailed) && old(Playing()) && faults == old(faults) ==> e == OK && !releaseFailed
    {
      e := Renew();
      if e == OK { e := Open(fs); }
    }

    /** Close what is open, normalise the channels, so that the library finds both running, and make sure there
        is a codec to open. */
    method Renew() returns (e: EspErr)
      requires Valid() && initialized && !sleeping
      modifies `codec, `dev, `devOpened, `isOpen, `halted, `releaseFailed, `releaseFaults, `board, `steps, `chipAsleep,
               `ioError, `checkedErrors, `faults, `stopFaults
      ensures faults >= old(faults) && stopFaults >= old(stopFaults) && checkedErrors >= old(checkedErrors)
      ensures !devOpened && !isOpen && !halted && board.Believed(false) && (dev ==> codec)
      ensures Remembers() && releaseFaults >= old(releaseFaults) && (old(releaseFailed) ==> e != OK)
      ensures e == OK ==> dev && board.BothRun() && faults == old(faults) && checkedErrors == old(checkedErrors)
                          && !releaseFailed
      ensures !old(releaseFailed) && old(Playing()) && faults == old(faults) ==> e == OK && !releaseFailed
    {
      ioError := OK;
      if isOpen { DeleteCodec(); }
      if ioError != OK { return FAIL; }
      e := StopBothChannels();
      if e != OK { return; }
      e := PrepareReopen();
      if e != OK { return; }
      if !dev { e := CreateCodec(); }
    }

    method Open(fs: Format) returns (e: EspErr)
      requires dev && codec && !devOpened && !isOpen && board.Believed(false)
      modifies `devOpened, `isOpen, `format, `board, `steps, `chipAsleep, `ioError, `checkedErrors, `faults,
               `stopFaults, `refusals
      ensures faults >= old(faults) && stopFaults >= old(stopFaults) && checkedErrors >= old(checkedErrors)
      ensures devOpened && board.Believed(true)
      ensures e == OK ==> isOpen && format == fs == board.tx.format == board.rx.format && board.BothRun()
                          && board.codecVolume == volume && board.inputGain == 30 && !chipAsleep
                          && checkedErrors == old(checkedErrors) && refusals == old(refusals)
      ensures e != OK ==> !isOpen && format == old(format)
      ensures faults == old(faults) ==> e == OK
    {
      ioError := OK;
      var r := LibraryOpen(fs);
      if r != OK || ioError != OK { return FAIL; }
      r := LibrarySetGain(30);
      if r == OK { r := LibrarySetVolume(volume); }
      if r != OK || ioError != OK { return FAIL; }
      isOpen, format := true, fs;
      return OK;
    }

    constructor ()
      ensures Valid() && Playing() && !initialized && !releaseFailed && NoHandles() && volume == 0
      ensures faults == checkedErrors == stopFaults == deleteFaults == sleepFaults == releaseFaults == 0
      ensures controls == refusals == 0
      ensures steps == []
    {
      codec, dev, devOpened, ctrl, data, gpio, tx, rx := false, false, false, false, false, false, false, false;
      format, isOpen, sleeping, initialized, sleepResult := Format(0, 0, 0), false, false, false, OK;
      releaseFailed, volume, ioError, halted, chipAsleep := false, 0, OK, false, false;
      board := Board(Channel(false, DEFAULT_FORMAT, false), Channel(false, DEFAULT_FORMAT, false), 0, 0);
      faults, checkedErrors, stopFaults, deleteFaults, sleepFaults, releaseFaults, controls := 0, 0, 0, 0, 0, 0, 0;
      steps, refusals := [], 0;
    }

    predicate NoHandles()
      reads this
    {
      !ctrl && !data && !gpio && !tx && !rx && !codec
    }

    /** Create both channels, set them up, and let them run once so that the library may stop them. */
    method FullDuplexInit() returns (e: EspErr)
      modifies `tx, `rx, `board, `steps, `faults
      ensures faults >= old(faults) && board.codecVolume == old(board).codecVolume
      ensures board.tx.believedOn == old(board).tx.believedOn && board.rx.believedOn == old(board).rx.believedOn
      ensures e == OK ==> tx && rx && board.BothRun()
      ensures faults == old(faults) <==> e == OK
    {
      e := Attempt();
      if e != OK { return; }
      tx, rx := true, true;
      board := board.(tx := board.tx.(running := false), rx := board.rx.(running := false));
      e := Attempt();
      if e != OK { return; }
      board := board.(tx := board.tx.(format := DEFAULT_FORMAT));
      e := Attempt();
      if e != OK { return; }
      board := board.(rx := board.rx.(format := DEFAULT_FORMAT));
      e := StartChannel(true);
      if e == OK { e := StartChannel(false); }
    }

    method DeleteChannel(out: bool) returns (gone: bool)
      modifies `board, `steps, `faults, `stopFaults, `deleteFaults
      ensures faults >= old(faults) && stopFaults >= old(stopFaults) && deleteFaults >= old(deleteFaults)
      ensures board == old(board).With(out, old(board).Side(out).(running := board.Side(out).running))
      ensures (gone <==> deleteFaults == old(deleteFaults)) && (gone ==> !board.Side(out).running)
    {
      var ignored := StopChannel(out);
      var e := Attempt();
      gone := e == OK;
      if gone {
        board := board.With(out, board.Side(out).(running := false));
      } else {
        deleteFaults := deleteFaults + 1;
      }
    }

    /** Everything but the codec goes; a channel whose deletion fails keeps its handle. */
    method DropHandles()
      modifies `ctrl, `data, `gpio, `tx, `rx, `board, `steps, `faults, `stopFaults, `deleteFaults
      ensures faults >= old(faults) && !ctrl && !data && !gpio
      ensures board.tx.believedOn == old(board).tx.believedOn && board.rx.believedOn == old(board).rx.believedOn
      ensures deleteFaults == old(deleteFaults) ==> !tx && !rx
    {
      gpio, data := false, false;
      if rx {
        var gone := DeleteChannel(false);
        if gone { rx := false; }
      }
      if tx {
        var gone := DeleteChannel(true);
        if gone { tx := false; }
      }
      ctrl := false;
    }

    method Cleanup()
      requires Remembers() && board.Believed(devOpened) && (devOpened ==> dev) && (dev ==> codec)
      modifies `codec, `dev, `devOpened, `isOpen, `halted, `releaseFailed, `releaseFaults, `board, `steps, `chipAsleep,
               `ioError, `checkedErrors, `faults, `stopFaults, `deleteFaults, `ctrl, `data, `gpio, `tx, `rx,
               `sleeping, `initialized, `sleepResult, `volume, `format
      ensures Valid() && !initialized && !sleeping && !isOpen && volume == 0
      ensures releaseFaults >= old(releaseFaults)
      ensures faults >= old(faults) && (deleteFaults == old(deleteFaults) ==> NoHandles())
      ensures !old(codec) ==> chipAsleep == old(chipAsleep)
    {
      DeleteCodec();
      DropHandles();
      ResetState();
    }

    method ResetState()
      requires Remembers() && !codec && !dev && !devOpened && !halted && board.Believed(false)
      modifies `isOpen, `sleeping, `initialized, `sleepResult, `volume, `format
      ensures Valid() && !initialized && !sleeping && !isOpen && volume == 0
    {
      isOpen, sleeping, initialized, sleepResult, volume, format := false, false, false, OK, 0, Format(0, 0, 0);
    }

    /** Initialisation creates everything or nothing, and can be retried unless a release failed. */
    method Init() returns (e: EspErr)
      requires Valid()
      modifies this
      ensures Valid() && faults >= old(faults)
      ensures releaseFaults >= old(releaseFaults) && (old(releaseFailed) ==> e != OK)
      ensures old(releaseFailed) || old(initialized) ==>
                && initialized == old(initialized) && sleeping == old(sleeping)
                && isOpen == old(isOpen) && board == old(board)
                && format == old(format) && volume == old(volume) && codec == old(codec)
      ensures format == old(format)
      ensures e == OK ==> initialized && !releaseFailed && faults == old(faults)
                          && (!old(initialized) ==> codec && !isOpen && !sleeping)
      ensures old(initialized) && !old(releaseFailed) ==> e == OK
      ensures e != OK && !old(initialized) ==> !initialized && !codec && !isOpen
      ensures !old(initialized) && old(NoHandles()) && !old(releaseFailed) && faults == old(faults) ==> e == OK
      ensures old(NoHandles()) && !initialized && deleteFaults == old(deleteFaults) ==> NoHandles()
      ensures sleepFaults >= old(sleepFaults) && controls >= old(controls)
      ensures e != OK && controls > old(controls) && sleepFaults == old(sleepFaults) ==> chipAsleep
    {
      if releaseFailed { return INVALID_STATE; }
      if initialized { return OK; }
      if tx || rx || ctrl || data || codec || gpio { return INVALID_STATE; }
      e := Attempt();
      if e != OK { return; }
      CreateControl();
      if !ctrl { return FAIL; }
      e := CreateRest();
      if e == OK {
        initialized := true;
        return;
      }
      RollBack();
    }

    method RollBack()
      requires Remembers() && board.Believed(devOpened) && (devOpened ==> dev) && (dev ==> codec)
      modifies this
      ensures Valid() && !initialized && !sleeping && !isOpen && volume == 0
      ensures releaseFaults >= old(releaseFaults)
      ensures faults >= old(faults) && (deleteFaults == old(deleteFaults) ==> NoHandles())
      ensures sleepFaults >= old(sleepFaults) && controls == old(controls)
      ensures old(ctrl) && sleepFaults == old(sleepFaults) ==> chipAsleep
    {
      DeleteCodec();
      if ctrl { var ignored := ForceSleep(); }
      Cleanup();
    }

    method CreateControl()
      modifies `ctrl, `controls, `faults
      ensures faults >= old(faults) && (faults == old(faults) <==> ctrl)
      ensures controls == if ctrl then old(controls) + 1 else old(controls)
    {
      var made := Attempt();
      ctrl := made == OK;
      if ctrl { controls := controls + 1; }
    }

    method CreateRest() returns (e: EspErr)
      requires !tx && !rx && !data && !gpio && !codec && !dev && !isOpen && !devOpened && !halted
               && board.Believed(false) && !releaseFailed && Remembers()
      modifies `tx, `rx, `data, `gpio, `codec, `dev, `devOpened, `isOpen, `halted, `releaseFailed, `releaseFaults,
               `board, `steps, `chipAsleep, `ioError, `checkedErrors, `faults, `stopFaults
      ensures faults >= old(faults) && stopFaults >= old(stopFaults) && checkedErrors >= old(checkedErrors)
      ensures !devOpened && !isOpen && !halted && board.Believed(false) && (dev ==> codec)
      ensures e == OK ==> tx && rx && data && gpio && dev && codec && !releaseFailed
      ensures Remembers() && (faults == old(faults) <==> e == OK)
    {
      e := FullDuplexInit();
      if e != OK { return; }
      var made := Attempt();
      data := made == OK;
      if !data { return NO_MEM; }
      made := Attempt();
      gpio := made == OK;
      if !gpio { return NO_MEM; }
      e := CreateCodec();
    }

    /** Sleep always leaves the component asleep with no codec object; its verdict is kept for later calls.
        A good verdict means that the chip is in its forced sleep, and stays there as long as the
        component sleeps: nothing has written a register since. */
    method Sleep() returns (firstError: EspErr)
      requires Valid()
      modifies `codec, `dev, `devOpened, `isOpen, `halted, `releaseFailed, `releaseFaults, `board, `steps, `chipAsleep,
               `ioError, `checkedErrors, `faults, `stopFaults, `sleepFaults, `sleeping, `sleepResult
      ensures Valid() && faults >= old(faults)
      ensures releaseFaults >= old(releaseFaults)
      ensures !initialized ==> firstError == OK && board == old(board) && sleeping == old(sleeping)
      ensures initialized ==> sleeping && !codec && !isOpen && firstError == sleepResult
      ensures initialized && firstError == OK ==> chipAsleep
      ensures initialized && old(sleeping) ==>
                board == old(board) && sleepResult == old(sleepResult) && chipAsleep == old(chipAsleep)
      ensures initialized && !old(sleeping) && firstError == OK ==>
                board.BothStopped() && checkedErrors == old(checkedErrors) && releaseFailed == old(releaseFailed)
      ensures initialized && !old(sleeping) && stopFaults == old(stopFaults) ==> board.BothStopped()
      ensures initialized && !old(sleeping) ==>
                && (sleepFaults == old(sleepFaults) ==> chipAsleep)
                && (checkedErrors > old(checkedErrors) || sleepFaults > old(sleepFaults) ==> firstError == FAIL)
      ensures initialized && !old(sleeping) && old(Playing()) && faults == old(faults) ==> firstError == OK
    {
      if !initialized { return OK; }
      if sleeping { return sleepResult; }
      firstError := FallAsleep();
    }

    /** From awake to asleep: a failed deletion counts before a failed forced sleep before a failed stop. */
    method FallAsleep() returns (firstError: EspErr)
      requires Valid() && initialized && !sleeping
      modifies `codec, `dev, `devOpened, `isOpen, `halted, `releaseFailed, `releaseFaults, `board, `steps, `chipAsleep,
               `ioError, `checkedErrors, `faults, `stopFaults, `sleepFaults, `sleeping, `sleepResult
      ensures Valid() && faults >= old(faults) && sleeping && !codec && !isOpen && firstError == sleepResult
      ensures releaseFaults >= old(releaseFaults)
      ensures firstError == OK ==> chipAsleep && board.BothStopped() && checkedErrors == old(checkedErrors)
                                   && releaseFailed == old(releaseFailed)
      ensures stopFaults == old(stopFaults) ==> board.BothStopped()
      ensures if sleepFaults == old(sleepFaults) then chipAsleep else firstError == FAIL
      ensures checkedErrors > old(checkedErrors) ==> firstError == FAIL
      ensures old(Playing()) && faults == old(faults) ==> firstError == OK
    {
      ioError := OK;
      var slept, stopped := Quieten();
      sleeping := true;
      firstError := OK;
      if ioError != OK { firstError := FAIL; }
      if slept != OK && firstError == OK { firstError := slept; }
      if stopped != OK && firstError == OK { firstError := stopped; }
      sleepResult := firstError;
    }

    /** A wake restores the last format that took effect and the volume, or leaves the component asleep with
        no codec object. Parts that are zero, because nothing was ever set or because they were set so,
        come back as their defaults: the format itself is restored exactly if it has no such part. */
    method Wake() returns (e: EspErr)
      requires Valid()
      modifies this
      ensures Valid() && initialized == old(initialized) && volume == old(volume) && faults >= old(faults)
      ensures !initialized || !old(sleeping) ==>
                && e == OK && sleeping == old(sleeping) && board == old(board)
                && isOpen == old(isOpen) && format == old(format)
                && codec == old(codec) && releaseFailed == old(releaseFailed)
      ensures old(sleeping) && e == OK ==>
                && !sleeping && isOpen && format == WakeFormat(old(format))
                && board.BothRun() && board.codecVolume == volume && board.inputGain == 30 && !chipAsleep
                && sleepResult == OK && (format == old(format) <==> NoZeroPart(old(format)))
      ensures old(sleeping) && e != OK ==>
                sleeping && !codec && !isOpen && format == old(format) && sleepResult == e
                && (stopFaults == old(stopFaults) ==> board.BothStopped())
                && (sleepFaults == old(sleepFaults) ==> chipAsleep)
      ensures releaseFaults >= old(releaseFaults) && (old(releaseFailed) && old(sleeping) ==> e != OK)
      ensures old(sleeping) && !old(releaseFailed) && faults == old(faults) ==> e == OK
    {
      if !initialized || !sleeping { return OK; }
      sleeping := false;
      var wanted := WakeFormat(format);
      e := SetFormat(wanted.hz, wanted.bits, wanted.ch);
      if e != OK {
        isOpen := false;
        sleeping := true;
        sleepResult := e;
        return;
      }
      sleepResult := OK;
    }

    /** Writing and reading PCM reach the library only while the component is open, and the hardware only
        while the channel of that direction runs. */
    method Pcm(out: bool) returns (e: EspErr)
      requires Valid()
      modifies `faults
      ensures !isOpen ==> e == INVALID_STATE && faults == old(faults)
      ensures isOpen ==> e == if board.Side(out).running && faults == old(faults) then OK else FAIL
      ensures faults >= old(faults)
    {
      if !dev || !isOpen || sleeping { return INVALID_STATE; }
      if !board.Side(out).running { return FAIL; }
      e := Attempt();
      if e != OK { e := FAIL; }
    }

    method SetVolume(percent: nat)
      requires Valid()
      modifies `volume, `board, `chipAsleep, `ioError, `checkedErrors, `faults, `refusals
      ensures Valid() && volume == (if percent > 100 then 100 else percent) && Playing() == old(Playing())
      ensures faults >= old(faults)
      ensures faults == old(faults) && isOpen ==> board.codecVolume == volume
      ensures !isOpen ==> board == old(board) && chipAsleep == old(chipAsleep)
    {
      volume := if percent > 100 then 100 else percent;
      if dev && isOpen && !sleeping { var ignored := LibrarySetVolume(volume); }
    }

    /** The last thing before a deep sleep. It stops the channels and tells the component nothing, so an
        open component stays open. Open goes on meaning running exactly if it did before and the
        component is closed, or neither channel would stop. */
    method PrepareDeepSleep() returns (firstError: EspErr)
      requires Valid()
      modifies `board, `steps, `faults, `stopFaults, `halted
      ensures Valid() && faults >= old(faults)
      ensures firstError == OK ==> faults == old(faults) && (initialized ==> board.BothStopped())
      ensures Playing() <==> old(Playing()) && (!isOpen || stopFaults == old(stopFaults) + 2)
      ensures faults == old(faults) && initialized ==> firstError == OK && stopFaults == old(stopFaults)
    {
      firstError := StopBothChannels();
      if isOpen && (!board.tx.running || !board.rx.running) { halted := true; }
      var e := Attempt();
      if e != OK && firstError == OK { firstError := e; }
    }
  }
}
