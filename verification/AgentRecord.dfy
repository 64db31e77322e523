/** What one agent process after another sends: the record of all keys, across restarts. */
module AgentRecord {
  import opened Common
  import opened ServerState
  import opened StatusAgent

  const FIRST_SAMPLE_PAUSE_MS := 1000

  // ---- what is kept of the records ----

  /** Snapshot keys are strictly increasing, up to a number and a second. */
  ghost predicate StatusesKept(statuses: seq<Key>, seqNo: nat, second: nat) {
    && Increasing(statuses)
    && (statuses != [] ==> statuses[|statuses| - 1].seqNo <= seqNo && statuses[|statuses| - 1].timestamp <= second)
  }

  ghost predicate Positive(keys: seq<Key>) {
    forall i | 0 <= i < |keys| :: keys[i].timestamp > 0
  }

  /** The alerts sent are strictly increasing; those of earlier processes are no later than the second in
      which this one started, and this one's are covered by its current snapshot and its counter. */
  ghost predicate AlertsKept(alerts: seq<Key>, earlier: nat, started: nat, current: seq<Reading>, engineSeq: nat) {
    && Increasing(alerts) && Positive(alerts)
    && (current != [] ==> started < current[0].key.timestamp)
    && (forall i | 0 <= i < |alerts| && i < earlier :: alerts[i].timestamp <= started)
    && (forall i | earlier <= i < |alerts| ::
          current != [] && alerts[i].timestamp <= current[0].key.timestamp && alerts[i].seqNo <= engineSeq)
  }

  lemma {:induction false} AlertsKeptWhenSampled(alerts: seq<Key>, earlier: nat, started: nat, current: seq<Reading>,
                                                 engineSeq: nat, r: Reading)
    requires AlertsKept(alerts, earlier, started, current, engineSeq)
    requires started < r.key.timestamp && (current != [] ==> current[0].key.timestamp <= r.key.timestamp)
    ensures AlertsKept(alerts, earlier, started, [r], engineSeq)
  {
  }

  lemma {:induction false} AlertsKeptWhenRestarted(alerts: seq<Key>, earlier: nat, started: nat,
                                                   current: seq<Reading>, engineSeq: nat, again: nat, engineSeq': nat)
    requires AlertsKept(alerts, earlier, started, current, engineSeq)
    requires started <= again && (current != [] ==> current[0].key.timestamp <= again)
    ensures AlertsKept(alerts, |alerts|, again, [], engineSeq')
  {
  }

  lemma {:induction false} AlertsKeptWhenBroadcast(alerts: seq<Key>, earlier: nat, started: nat,
                                                   current: seq<Reading>, engineSeq: nat, n: nat)
    requires AlertsKept(alerts, earlier, started, current, engineSeq) && current != [] && earlier <= |alerts|
    ensures var data := current[0].key;
            AlertsKept(alerts + EdgeKeys(engineSeq, data, n), earlier, started, current,
                       if n == 0 then engineSeq else Max(engineSeq, data.seqNo) + n)
  {
    var data := current[0].key;
    forall k | k in alerts
      ensures k.timestamp < data.timestamp || (k.timestamp <= data.timestamp && k.seqNo <= engineSeq)
    {
      var i :| 0 <= i < |alerts| && alerts[i] == k;
      assert i < earlier || earlier <= i;
    }
    EdgesContinue(alerts, engineSeq, data, n);
  }

  lemma {:induction false} SecondsAreMonotone(a: Millis, b: Millis)
    requires a <= b
    ensures Seconds(a) <= Seconds(b)
  {
  }

  lemma {:induction false} PauseChangesTheSecond(start: Millis, now: Millis)
    requires start + FIRST_SAMPLE_PAUSE_MS <= now
    ensures Seconds(start) < Seconds(now)
  {
    assert Seconds(start + FIRST_SAMPLE_PAUSE_MS) == Seconds(start) + 1;
    SecondsAreMonotone(start + FIRST_SAMPLE_PAUSE_MS, now);
  }

  lemma {:induction false} AppendNewest(keys: seq<Key>, k: Key)
    requires Increasing(keys) && (keys != [] ==> Newer(k, keys[|keys| - 1]))
    ensures Increasing(keys + [k])
  {
    var all := keys + [k];
    forall i, j | 0 <= i < j < |all|
      ensures Newer(all[j], all[i])
    {
      if j == |keys| && i < |keys| - 1 { assert Newer(keys[|keys| - 1], keys[i]); }
    }
  }

  // ---- the agent ----

  /** Everything ever sent, by one agent process after another. Ghost fields keep the record. */
  class Agent {
    var collector: Collector
    var engine: AlertEngine
    var current: seq<Reading>
    var lastBroadcast: seq<nat>
    ghost var clock: Millis
    ghost var startedAt: Millis
    ghost var statuses: seq<Key>
    ghost var alerts: seq<Key>
    ghost var earlierAlerts: nat
    // Every process so far took its first sample a second of wall clock after it started.
    ghost var paused: bool

    ghost predicate Valid()
      reads this, collector, engine
    {
      && StatusesKept(statuses, collector.seqNo, Seconds(clock))
      && |current| <= 1 && |lastBroadcast| <= 1
      && startedAt <= clock && collector.seqNo <= clock
      && (current != [] ==> current[0].key.timestamp <= Seconds(clock))
      && (current == [] ==> |alerts| == earlierAlerts)
      && earlierAlerts <= |alerts|
      && (paused ==> Positive(statuses) && AlertsKept(alerts, earlierAlerts, Seconds(startedAt), current, engine.seqNo))
    }

    constructor (collectorAt: Millis, engineAt: Millis)
      ensures Valid() && statuses == [] && alerts == [] && paused && startedAt == clock == collectorAt
      ensures fresh(collector) && fresh(engine) && current == [] && lastBroadcast == []
      ensures collector.seqNo == collectorAt && engine.seqNo == engineAt && engine.active == {}
    {
      collector := new Collector(collectorAt);
      engine := new AlertEngine(engineAt);
      current, lastBroadcast := [], [];
      clock, startedAt, statuses, alerts, earlierAlerts, paused := collectorAt, collectorAt, [], [], 0, true;
    }

    /** The process dies and another one starts; nothing is remembered but the wall clock. */
    method Restart(collectorAt: Millis, engineAt: Millis)
      requires Valid() && clock <= collectorAt
      modifies this
      ensures Valid() && statuses == old(statuses) && alerts == old(alerts)
      ensures fresh(collector) && fresh(engine) && current == [] && lastBroadcast == []
      ensures collector.seqNo == collectorAt && engine.seqNo == engineAt && engine.active == {}
      ensures clock == startedAt == collectorAt && paused == old(paused)
    {
      SecondsAreMonotone(clock, collectorAt);
      SecondsAreMonotone(startedAt, clock);
      if paused {
        AlertsKeptWhenRestarted(alerts, earlierAlerts, Seconds(startedAt), current, engine.seqNo,
                                Seconds(collectorAt), engineAt);
      }
      collector := new Collector(collectorAt);
      engine := new AlertEngine(engineAt);
      current, lastBroadcast := [], [];
      clock, startedAt := collectorAt, collectorAt;
      earlierAlerts := |alerts|;
    }

    /** One turn of the sampling loop, at least a millisecond after the last event on a wall clock
        that never runs backwards. */
    method Sample(now: Millis, metrics: Metrics, counted: bool, readable: bool, storable: bool)
      requires Valid() && clock < now
      modifies this, collector
      ensures Valid() && alerts == old(alerts) && startedAt == old(startedAt) && clock == now
      ensures var stored := counted && readable && storable;
              var key := Key(Seconds(now), collector.seqNo);
              && statuses == (if stored then old(statuses) + [key] else old(statuses))
              && current == (if stored then [Reading(key, metrics)] else old(current))
      ensures collector == old(collector) && engine == old(engine) && lastBroadcast == old(lastBroadcast)
      ensures collector.seqNo == if counted then old(collector.seqNo) + 1 else old(collector.seqNo)
      ensures paused == (old(paused) && startedAt + FIRST_SAMPLE_PAUSE_MS <= now)
    {
      Tick(now);
      if paused { PauseChangesTheSecond(startedAt, now); }
      var r := collector.Sample(now, metrics, counted, readable);
      if r != [] && storable { Store(r[0]); }
    }

    ghost method Tick(now: Millis)
      requires Valid() && clock < now
      modifies `clock, `paused
      ensures Valid() && clock == now && collector.seqNo < now
      ensures paused == (old(paused) && startedAt + FIRST_SAMPLE_PAUSE_MS <= now)
    {
      SecondsAreMonotone(clock, now);
      clock, paused := now, paused && startedAt + FIRST_SAMPLE_PAUSE_MS <= now;
    }

    method Store(r: Reading)
      requires Valid() && r.key == Key(Seconds(clock), collector.seqNo)
               && (paused ==> Seconds(startedAt) < r.key.timestamp)
      requires statuses != [] ==> statuses[|statuses| - 1].seqNo < collector.seqNo
      modifies `current, `statuses
      ensures Valid() && current == [r] && statuses == old(statuses) + [r.key]
    {
      if paused { AlertsKeptWhenSampled(alerts, earlierAlerts, Seconds(startedAt), current, engine.seqNo, r); }
      current := [r];
      AppendNewest(statuses, r.key);
      statuses := statuses + [r.key];
    }

    /** One turn of the broadcast loop. A snapshot that is missing or too old is skipped, and one
        that was broadcast before raises nothing new. With or without the pause, the record of alerts
        stays increasing exactly if the snapshot continues it. */
    method Broadcast(recent: bool) returns (sent: seq<Alert>)
      requires Valid()
      modifies this, engine
      ensures Valid() && statuses == old(statuses) && alerts == old(alerts) + KeysOf(sent)
      ensures collector == old(collector) && engine == old(engine) && clock == old(clock) && startedAt == old(startedAt)
      ensures paused == old(paused) && current == old(current)
      ensures if current == [] || !recent || old(lastBroadcast) == [current[0].key.seqNo]
              then sent == [] && lastBroadcast == old(lastBroadcast) && engine.active == old(engine.active)
              else && lastBroadcast == [current[0].key.seqNo]
                   && AreEdges(sent, current[0], old(engine.seqNo), old(engine.active), engine.active)
      ensures sent != [] && old(alerts) != [] && Increasing(old(alerts)) ==>
                (Increasing(alerts) <==> Continues(old(alerts)[|old(alerts)| - 1], old(engine.seqNo), current[0].key))
    {
      sent := [];
      if current != [] && recent && lastBroadcast != [current[0].key.seqNo] {
        lastBroadcast := [current[0].key.seqNo];
        ghost var counter := engine.seqNo;
        sent := engine.Edges(current[0]);
        ghost var n := |sent|;
        if paused { AlertsKeptWhenBroadcast(alerts, earlierAlerts, Seconds(startedAt), current, counter, n); }
        if n > 0 && alerts != [] && Increasing(alerts) {
          RecordStaysIncreasingExactly(alerts, counter, current[0].key, n);
        }
        alerts := alerts + KeysOf(sent);
      }
    }
  }

  // ---- why the pause is needed ----

  lemma {:induction false} RankedAreFew(alerts: seq<Alert>, i: nat)
    requires Ranked(alerts) && i < |alerts|
    ensures i <= Rank(alerts[i].source)
  {
    if i > 0 { RankedAreFew(alerts, i - 1); }
  }

  lemma {:induction false} AllRaisedAreThree(alerts: seq<Alert>)
    requires Ranked(alerts) && forall s: Source :: Raised(alerts, s)
    ensures |alerts| == 3
  {
    assert Raised(alerts, Cpu) && Raised(alerts, Disk) && Raised(alerts, Ram);
    var i :| 0 <= i < |alerts| && alerts[i].source == Cpu;
    var j :| 0 <= j < |alerts| && alerts[j].source == Disk;
    var k :| 0 <= k < |alerts| && alerts[k].source == Ram;
    assert i < j < k;
    if |alerts| > 3 { RankedAreFew(alerts, 3); }
  }

  lemma {:induction false} OneRaisedIsOne(alerts: seq<Alert>)
    requires Ranked(alerts) && forall s: Source :: Raised(alerts, s) <==> s == Cpu
    ensures |alerts| == 1
  {
    assert Raised(alerts, Cpu);
    if |alerts| > 1 {
      assert alerts[1] in alerts && Raised(alerts, alerts[1].source);
      RankedAreFew(alerts, 1);
    }
  }

  method ThreeAlertsAtOnce(metrics: Metrics) returns (agent: Agent)
    requires metrics.cpuUsage >= 90.0 && metrics.memoryPercent >= 90.0 && metrics.diskPercent >= 90.0
    ensures fresh(agent) && fresh(agent.collector) && fresh(agent.engine)
    ensures agent.Valid() && !agent.paused && agent.clock == 5001
    ensures |agent.alerts| == 3 && agent.alerts[2] == Key(5, 5004)
  {
    agent := new Agent(5000, 5000);
    agent.Sample(5001, metrics, true, true, true);
    var three := agent.Broadcast(true);
    AllRaisedAreThree(three);
    assert KeysOf(three)[2] == Key(5, 5004);
  }

  /** Without the pause an alert key can come twice: three alerts on the first snapshot, a restart a
      millisecond later, and the first alert of the new process has the key of the third. */
  method AlertKeyReusedWithoutThePause(metrics: Metrics) returns (agent: Agent)
    requires metrics.cpuUsage >= 90.0 && metrics.memoryPercent >= 90.0 && metrics.diskPercent >= 90.0
    ensures agent.Valid() && !agent.paused && |agent.alerts| == 4
    ensures agent.alerts[3] == agent.alerts[2] && !Increasing(agent.alerts)
  {
    agent := ThreeAlertsAtOnce(metrics);
    agent.Restart(5002, 5002);
    agent.Sample(5003, metrics.(memoryPercent := 0.0, diskPercent := 0.0), true, true, true);
    var one := agent.Broadcast(true);
    OneRaisedIsOne(one);
    assert KeysOf(one)[0] == Key(5, 5004);
    assert !Newer(agent.alerts[3], agent.alerts[2]);
  }
}
