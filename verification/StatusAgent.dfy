/** The status agent's numbering of snapshots and alerts. */
module StatusAgent {
  import opened Common
  import opened ServerState

  // Wall-clock times are whole milliseconds: the agent floors to milliseconds for sequence numbers
  // and to seconds for timestamps.
  type Millis = nat

  function Seconds(t: Millis): nat {
    t / 1000
  }

  datatype Source = Cpu | Disk | Ram

  datatype Reading = Reading(key: Key, metrics: Metrics)
  datatype Alert = Alert(key: Key, source: Source, value: real)

  function ValueOf(m: Metrics, s: Source): real {
    match s case Cpu => m.cpuUsage case Ram => m.memoryPercent case Disk => m.diskPercent
  }

  const ALPHABETICAL := [Cpu, Disk, Ram]

  function Rank(s: Source): nat {
    match s case Cpu => 0 case Disk => 1 case Ram => 2
  }

  /** At most one alert for each source, in alphabetical order. */
  predicate Ranked(alerts: seq<Alert>) {
    forall i, j | 0 <= i < j < |alerts| :: Rank(alerts[i].source) < Rank(alerts[j].source)
  }

  ghost predicate Raised(alerts: seq<Alert>, s: Source) {
    exists a :: a in alerts && a.source == s
  }

  function High(m: Metrics): set<Source> {
    set s: Source | ValueOf(m, s) >= 90.0
  }

  ghost predicate Increasing(keys: seq<Key>) {
    forall i, j | 0 <= i < j < |keys| :: Newer(keys[j], keys[i])
  }

  class Collector {
    var seqNo: nat

    constructor (now: Millis)
      ensures seqNo == now
    {
      seqNo := now;
    }

    /** The counters read first may fail before a number is taken, the other metrics after that. */
    method Sample(now: Millis, metrics: Metrics, counted: bool, readable: bool) returns (r: seq<Reading>)
      modifies this
      ensures seqNo == if counted then old(seqNo) + 1 else old(seqNo)
      ensures r == if counted && readable then [Reading(Key(now / 1000, seqNo), metrics)] else []
    {
      if !counted { return []; }
      seqNo := seqNo + 1;
      if readable { r := [Reading(Key(Seconds(now), seqNo), metrics)]; } else { r := []; }
    }
  }

  /** The keys of `n` alerts raised on one snapshot. */
  function EdgeKeys(engineSeq: nat, data: Key, n: nat): (keys: seq<Key>)
    ensures |keys| == n
    ensures forall i | 0 <= i < n :: keys[i] == Key(data.timestamp, Max(engineSeq, data.seqNo) + 1 + i)
  {
    seq(n, i requires 0 <= i => Key(data.timestamp, Max(engineSeq, data.seqNo) + 1 + i))
  }

  function KeysOf(alerts: seq<Alert>): (keys: seq<Key>)
    ensures |keys| == |alerts|
  {
    seq(|alerts|, i requires 0 <= i < |alerts| => alerts[i].key)
  }

  /** The alerts raised on a snapshot when `before` were already active: numbered on from both counters,
      one for each newly active source. */
  ghost predicate AreEdges(alerts: seq<Alert>, data: Reading, engineSeq: nat, before: set<Source>, after: set<Source>) {
    after == High(data.metrics) && AreEdgesBelow(alerts, data, engineSeq, before, after, 3)
  }

  function Read(m: Metrics, s: Source): real {
    if s == Cpu then m.cpuUsage else if s == Disk then m.diskPercent else m.memoryPercent
  }

  /** Source by source, what that says of the snapshot's own readings: CPU, disk and RAM are active from 90 per
      cent on, exactly the sources that become so raise an alert, and CPU comes before disk before RAM. */
  lemma {:induction false} AlertsTellTheReadings(alerts: seq<Alert>, data: Reading, engineSeq: nat, before: set<Source>,
                                                 after: set<Source>)
    requires AreEdges(alerts, data, engineSeq, before, after)
    ensures (Cpu in after <==> data.metrics.cpuUsage >= 90.0) && (Ram in after <==> data.metrics.memoryPercent >= 90.0)
            && (Disk in after <==> data.metrics.diskPercent >= 90.0)
    ensures forall s :: s in after && s !in before <==> Raised(alerts, s)
    ensures forall i, j | 0 <= i < j < |alerts| :: alerts[j].source != Cpu && alerts[i].source != Ram
                                                   && alerts[i].source != alerts[j].source
  {
    forall s ensures s in after && s !in before <==> Raised(alerts, s) {
      assert Rank(s) < 3;
    }
  }

  /** And each alert carries the snapshot's time, the next number after both counters, and its source's reading. */
  lemma {:induction false} AlertTellsItsReading(alerts: seq<Alert>, data: Reading, engineSeq: nat, before: set<Source>,
                                                after: set<Source>, i: nat)
    requires AreEdges(alerts, data, engineSeq, before, after) && i < |alerts|
    ensures alerts[i] == Alert(Key(data.key.timestamp, Max(engineSeq, data.key.seqNo) + 1 + i), alerts[i].source,
                               Read(data.metrics, alerts[i].source))
  {
    assert alerts[i] in alerts;
    assert KeysOf(alerts)[i] == EdgeKeys(engineSeq, data.key, |alerts|)[i];
  }

  /** The same for the sources ranked below `i`. */
  ghost predicate AreEdgesBelow(alerts: seq<Alert>, data: Reading, engineSeq: nat, before: set<Source>,
                                after: set<Source>, i: nat) {
    && Ranked(alerts)
    && KeysOf(alerts) == EdgeKeys(engineSeq, data.key, |alerts|)
    && (forall s: Source :: Raised(alerts, s) <==> Rank(s) < i && s in after && s !in before)
    && (forall a | a in alerts :: a.value == ValueOf(data.metrics, a.source) >= 90.0)
  }

  class AlertEngine {
    var active: set<Source>
    var seqNo: nat

    constructor (now: Millis)
      ensures active == {} && seqNo == now
    {
      active, seqNo := {}, now;
    }

    method Edges(data: Reading) returns (alerts: seq<Alert>)
      modifies this
      ensures AreEdges(alerts, data, old(seqNo), old(active), active)
      ensures seqNo == if alerts == [] then old(seqNo) else Max(old(seqNo), data.key.seqNo) + |alerts|
    {
      EverySourceIsListed();
      var nextActive := set s: Source | s in ALPHABETICAL && ValueOf(data.metrics, s) >= 90.0;
      alerts := [];
      for i := 0 to |ALPHABETICAL|
        invariant active == old(active)
        invariant AreEdgesBelow(alerts, data, old(seqNo), active, nextActive, i)
        invariant seqNo == if alerts == [] then old(seqNo) else Max(old(seqNo), data.key.seqNo) + |alerts|
      {
        var name := ALPHABETICAL[i];
        if name in nextActive && name !in active {
          seqNo := Max(seqNo + 1, data.key.seqNo + 1);
          var alert := Alert(Key(data.key.timestamp, seqNo), name, ValueOf(data.metrics, name));
          OneMoreEdge(alerts, alert, data, old(seqNo), active, nextActive, i);
          alerts := alerts + [alert];
        }
      }
      active := nextActive;
    }
  }

  lemma {:induction false} OneMoreEdge(alerts: seq<Alert>, alert: Alert, data: Reading, engineSeq: nat,
                                       before: set<Source>, after: set<Source>, i: nat)
    requires AreEdgesBelow(alerts, data, engineSeq, before, after, i)
    requires Rank(alert.source) == i && alert.source in after && alert.source !in before
    requires alert.key == Key(data.key.timestamp, Max(engineSeq, data.key.seqNo) + 1 + |alerts|)
    requires alert.value == ValueOf(data.metrics, alert.source) >= 90.0
    ensures AreEdgesBelow(alerts + [alert], data, engineSeq, before, after, i + 1)
  {
    OneMoreAlert(alerts, alert, engineSeq, data.key);
    RaisedOneMore(alerts, alert);
    forall k | 0 <= k < |alerts| ensures Rank(alerts[k].source) < i {
      assert Raised(alerts, alerts[k].source);
    }
  }

  lemma {:induction false} EverySourceIsListed()
    ensures |ALPHABETICAL| == 3 && forall s: Source :: s in ALPHABETICAL && ALPHABETICAL[Rank(s)] == s
  {
    assert ALPHABETICAL[0] == Cpu && ALPHABETICAL[1] == Disk && ALPHABETICAL[2] == Ram;
    forall s: Source
      ensures s in ALPHABETICAL
    {
      match s { case Cpu => case Disk => case Ram => }
    }
  }

  lemma {:induction false} OneMoreAlert(before: seq<Alert>, alert: Alert, engineSeq: nat, data: Key)
    ensures KeysOf(before + [alert]) == KeysOf(before) + [alert.key]
    ensures EdgeKeys(engineSeq, data, |before| + 1) == EdgeKeys(engineSeq, data, |before|)
            + [Key(data.timestamp, Max(engineSeq, data.seqNo) + 1 + |before|)]
    ensures alert in before + [alert] && forall a :: a in before + [alert] <==> a in before || a == alert
  {
  }

  lemma {:induction false} RaisedOneMore(before: seq<Alert>, alert: Alert)
    ensures forall s :: Raised(before + [alert], s) <==> Raised(before, s) || s == alert.source
  {
    assert alert in before + [alert];
    forall s | Raised(before, s) ensures Raised(before + [alert], s) {
      var a :| a in before && a.source == s;
      assert a in before + [alert];
    }
  }

  /** The alerts of one snapshot continue the record: newer than everything numbered up to the engine's
      counter on this snapshot's second, and than everything of an earlier second. */
  lemma {:induction false} EdgesContinue(sent: seq<Key>, engineSeq: nat, data: Key, n: nat)
    requires Increasing(sent)
    requires forall k | k in sent ::
               k.timestamp < data.timestamp || (k.timestamp <= data.timestamp && k.seqNo <= engineSeq)
    ensures Increasing(sent + EdgeKeys(engineSeq, data, n))
  {
    var all := sent + EdgeKeys(engineSeq, data, n);
    forall i, j | 0 <= i < j < |all|
      ensures Newer(all[j], all[i])
    {
      if i < |sent| { assert sent[i] in sent; }
    }
  }

  /** When the alerts on a snapshot leave a whole record strictly increasing: exactly if the snapshot is
      of a later second than the last alert, or of the same one and a counter has reached its number. */
  lemma {:induction false} RecordStaysIncreasingExactly(sent: seq<Key>, engineSeq: nat, data: Key, n: nat)
    requires Increasing(sent) && sent != [] && n > 0
    ensures Increasing(sent + EdgeKeys(engineSeq, data, n)) <==> Continues(sent[|sent| - 1], engineSeq, data)
  {
    var last, all := sent[|sent| - 1], sent + EdgeKeys(engineSeq, data, n);
    assert all[|sent| - 1] == last && all[|sent|] == EdgeKeys(engineSeq, data, n)[0];
    if Continues(last, engineSeq, data) {
      forall i, j | 0 <= i < j < |all| ensures Newer(all[j], all[i]) {
        if i < |sent| <= j { assert i < |sent| - 1 ==> Newer(last, sent[i]); }
      }
    }
  }

  predicate Continues(last: Key, engineSeq: nat, data: Key) {
    last.timestamp < data.timestamp || (last.timestamp == data.timestamp && last.seqNo <= Max(engineSeq, data.seqNo))
  }
}
