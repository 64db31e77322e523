/** Starting and stopping the Bluetooth host: the page's task owns the stack, a host task runs it, and
    the two meet at a binary semaphore. Any call may fail or time out, and stopping may be retried. */
module BleDemo {
  import opened EspErrors

  /** The host task; `Suspended` has given the semaphore and does nothing more. */
  datatype Task = NoTask | Running | Returned | Suspended

  datatype Port = Down | Up | Stopping

  datatype Op = StartUp | ShutDown | HostWorks

  class Demo {
    // the page's own state
    var initialized: bool
    var startRequested: bool
    var stopInProgress: bool
    var hostDone: bool
    var hostTask: bool
    var semaphore: bool
    // the host task, the stack, and the semaphore's count
    var task: Task
    var port: Port
    var given: bool
    // tasks created, stop requests the stack took, tasks deleted, failures of any kind
    ghost var created: nat
    ghost var stops: nat
    ghost var deleted: nat
    ghost var faults: nat

    /** What holds at every instant, between any two steps of either task. */
    ghost predicate Sound()
      reads this
    {
      && (hostTask <==> task != NoTask)
      && (hostTask ==> initialized && semaphore)
      && (initialized <==> port != Down)
      && (task == Returned || task == Suspended ==> port == Stopping)
      && (task == Suspended && !hostDone <==> given)
      && (hostTask && hostDone ==> task == Suspended)
      && created == deleted + (if task == NoTask then 0 else 1)
      && created == stops + (if task != NoTask && port == Up then 1 else 0)
    }

    /** What holds between calls of the page. */
    ghost predicate Valid()
      reads this
    {
      && Sound()
      && (startRequested ==> task == Running && port == Up)
      && (hostTask ==> !hostDone && (stopInProgress <==> port == Stopping))
      && (!initialized ==> !semaphore)
    }

    constructor ()
      ensures Valid() && !initialized && port == Down && created == 0
    {
      initialized, startRequested, stopInProgress := false, false, false;
      hostDone, hostTask, semaphore := false, false, false;
      task, port, given := NoTask, Down, false;
      created, stops, deleted, faults := 0, 0, 0, 0;
    }

    // ---- the stack and the operating system; what they require is the protocol ----

    method Attempt() returns (e: EspErr)
      modifies `faults
      ensures faults == if e == OK then old(faults) else old(faults) + 1
    {
      e := *;
      if e != OK { faults := faults + 1; }
    }

    method PortInit() returns (e: EspErr)
      requires port == Down
      modifies `faults, `port
      ensures port == (if e == OK then Up else Down) && faults == if e == OK then old(faults) else old(faults) + 1
    {
      e := Attempt();
      if e == OK { port := Up; }
    }

    /** Asked for at most once for every task. */
    method PortStop() returns (e: EspErr)
      requires port == Up && task == Running
      modifies `faults, `port, `stops
      ensures if e == OK then port == Stopping && stops == old(stops) + 1 && faults == old(faults)
              else port == Up && stops == old(stops) && faults == old(faults) + 1
    {
      e := Attempt();
      if e == OK { port, stops := Stopping, stops + 1; }
    }

    /** Never under a host task. */
    method PortDeinit() returns (e: EspErr)
      requires port != Down && task == NoTask
      modifies `faults, `port
      ensures port == (if e == OK then Down else old(port))
      ensures faults == if e == OK then old(faults) else old(faults) + 1
    {
      e := Attempt();
      if e == OK { port := Down; }
    }

    method CreateTask() returns (e: EspErr)
      requires port == Up && semaphore && task == NoTask
      modifies `faults, `task, `created, `hostTask
      ensures if e == OK then task == Running && hostTask && created == old(created) + 1 && faults == old(faults)
              else task == NoTask && hostTask == old(hostTask) && created == old(created) && faults == old(faults) + 1
    {
      e := Attempt();
      if e == OK { task, hostTask, created := Running, true, created + 1; }
    }

    /** Only after the host has said that it is done. */
    method DeleteTask()
      requires task == Suspended
      modifies `task, `deleted
      ensures task == NoTask && deleted == old(deleted) + 1
    {
      task, deleted := NoTask, deleted + 1;
    }

    /** Never while a task might still give it. */
    method DeleteSemaphore()
      requires task == NoTask
      modifies `semaphore
      ensures !semaphore
    {
      semaphore := false;
    }

    /** The host task gets some time: it leaves the stack's loop only after a stop, then gives the semaphore. */
    method HostTask()
      requires Sound()
      modifies `task, `given
      ensures Sound()
      ensures task == old(task) || (port == Stopping && old(task) != NoTask && task != NoTask)
    {
      var leaves: bool, gives: bool := *, *;
      if task == Running && port == Stopping && leaves { task := Returned; }
      if task == Returned && gives { task, given := Suspended, true; }
    }

    /** Waits for the semaphore; the wait may be too short. */
    method Take() returns (taken: bool)
      requires Sound() && semaphore && !hostDone
      modifies `task, `given, `hostDone, `faults
      ensures Sound() && hostDone == taken && (taken ==> task == Suspended)
      ensures task == old(task) || (port == Stopping && old(task) != NoTask && task != NoTask)
      ensures faults == if taken then old(faults) else old(faults) + 1
    {
      HostTask();
      taken := given;
      if taken { given, hostDone := false, true; } else { faults := faults + 1; }
    }

    // ---- the page ----

    method Start() returns (e: EspErr)
      requires Valid()
      modifies this
      ensures Valid() && faults >= old(faults)
      ensures old(initialized) ==>
                && e == INVALID_STATE && initialized
                && task == old(task) && port == old(port)
                && stopInProgress == old(stopInProgress) && startRequested == old(startRequested)
      ensures e == OK ==> task == Running && port == Up && startRequested && faults == old(faults)
      ensures e != OK && !old(initialized) ==> task == NoTask && !startRequested && faults > old(faults)
    {
      if initialized { return INVALID_STATE; }
      stopInProgress, hostDone := false, false;
      e := Attempt();
      if e != OK { return; }
      e := PortInit();
      if e != OK { return; }
      initialized := true;
      e := StartHost();
      if e == OK { return; }
      startRequested := false;
      var cleanup := Stop();
    }

    /** From the semaphore to the host task, over an initialised stack. */
    method StartHost() returns (e: EspErr)
      requires Sound() && task == NoTask && port == Up && initialized && !semaphore && !hostDone && !stopInProgress
      modifies `semaphore, `startRequested, `task, `created, `hostTask, `faults
      ensures Sound() && (e == OK ==> task == Running && startRequested && semaphore && faults == old(faults))
      ensures e != OK ==> task == NoTask && faults > old(faults)
    {
      var got := Attempt();
      semaphore := got == OK;
      if !semaphore { return NO_MEM; }
      var rc := Attempt();
      if rc != OK { return FAIL; }
      startRequested := true;
      rc := CreateTask();
      return if rc == OK then OK else NO_MEM;
    }

    /** A stop that succeeds has given everything back; one that fails still owns the stack, and the next
        one goes on from there. */
    method Stop() returns (e: EspErr)
      requires Sound() && (hostTask ==> !hostDone && (stopInProgress <==> port == Stopping))
               && (!initialized ==> !semaphore)
      modifies this
      ensures Valid() && !startRequested && created == old(created) && faults >= old(faults)
      ensures e == OK ==> !initialized && task == NoTask && port == Down && !semaphore
      ensures e != OK ==> initialized && old(initialized) && faults > old(faults)
      ensures old(task) == NoTask ==> task == NoTask && stops == old(stops) && deleted == old(deleted)
    {
      startRequested := false;
      if !initialized { return OK; }
      if hostTask && !stopInProgress {
        e := PortStop();
        if e != OK { return FAIL; }
        stopInProgress := true;
      }
      HostTask();
      if hostTask && !hostDone {
        if !semaphore { return TIMEOUT; }
        var taken := Take();
        if !taken { return TIMEOUT; }
      }
      HostTask();
      if hostTask {
        DeleteTask();
        hostTask := false;
      }
      e := Release();
    }

    /** The end of a stop, with no host task left. */
    method Release() returns (e: EspErr)
      requires Sound() && initialized && task == NoTask && !startRequested
      modifies `port, `faults, `initialized, `stopInProgress, `hostDone, `semaphore
      ensures Valid() && initialized == (e != OK) && (e == OK ==> port == Down && !semaphore)
      ensures faults == if e == OK then old(faults) else old(faults) + 1
    {
      e := PortDeinit();
      if e != OK { return; }
      initialized, stopInProgress, hostDone := false, false, false;
      if semaphore { DeleteSemaphore(); }
    }

    /** Any calls in any order, the host task working at any time: every task deleted was stopped exactly
        once before, and once a stop succeeds as many tasks have been deleted as were created. */
    method Run(ops: seq<Op>) returns (last: EspErr)
      requires Valid()
      modifies this
      ensures Valid() && deleted <= stops <= created <= deleted + 1
      ensures ops != [] && ops[|ops| - 1] == ShutDown && last == OK ==>
                !initialized && port == Down && !semaphore && stops == deleted == created
    {
      last := OK;
      for i := 0 to |ops|
        invariant Valid()
        invariant i > 0 && ops[i - 1] == ShutDown && last == OK ==>
                    !initialized && task == NoTask && port == Down && !semaphore
      {
        match ops[i] {
          case StartUp => last := Start();
          case ShutDown => last := Stop();
          case HostWorks => HostTask();
        }
      }
    }
  }
}
