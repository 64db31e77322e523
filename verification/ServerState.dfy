/** The server state shared by both transports: newest snapshot wins, age decides the status. */
module ServerState {

  datatype Status = Offline | Online | Stale
  datatype Mode = LiveWss | HttpsPolling | Reconnecting | ConnectionOffline

  /** Snapshots are ordered by server timestamp, then by sequence number. */
  datatype Key = Key(timestamp: nat, seqNo: nat)

  predicate Newer(a: Key, b: Key) {
    a.timestamp > b.timestamp || (a.timestamp == b.timestamp && a.seqNo > b.seqNo)
  }

  /** The measured values of one snapshot. `details` stands for load averages, totals, rates and
      service flags, which are carried together and never looked at on their own. */
  datatype Metrics = Metrics(hostname: string, uptime: nat, cpuUsage: real, memoryPercent: real, diskPercent: real,
                             details: seq<real>)

  datatype State = State(hasData: bool, online: bool, status: Status, lastUpdate: nat, key: Key, metrics: Metrics,
                         mode: Mode, reconnects: nat, wssLastRx: nat, alertMessage: string, alertLevel: int,
                         latencyMs: nat, error: string)

  // ---- committing ----

  predicate Accepts(state: State, incoming: State) {
    incoming.hasData && (!state.hasData || Newer(incoming.key, state.key))
  }

  /** One snapshot arriving over one transport. */
  datatype Delivery = Delivery(incoming: State, mode: Mode, now: nat)

  function Committed(state: State, d: Delivery): State {
    if !Accepts(state, d.incoming) then state
    else d.incoming.(mode := d.mode, lastUpdate := d.now,
                  reconnects := state.reconnects, alertMessage := state.alertMessage, alertLevel := state.alertLevel,
                  wssLastRx := if d.mode == LiveWss then d.now else state.wssLastRx,
                  latencyMs := if d.mode == LiveWss then state.latencyMs else d.incoming.latencyMs)
  }

  // ---- ageing ----

  const STALE_MS := 15000
  const OFFLINE_MS := 60000

  function Aged(state: State, now: nat): (aged: State)
    ensures aged == state.(status := aged.status, online := aged.online)
    ensures aged.online <==> aged.status == Online
    ensures aged.status == Offline <==> !state.hasData || now > state.lastUpdate + OFFLINE_MS
    ensures aged.status == Stale <==>
            state.hasData && state.lastUpdate + STALE_MS < now <= state.lastUpdate + OFFLINE_MS
  {
    var status := if !state.hasData then Offline
                  else if now >= state.lastUpdate && now - state.lastUpdate > OFFLINE_MS then Offline
                  else if now >= state.lastUpdate && now - state.lastUpdate > STALE_MS then Stale
                  else Online;
    state.(status := status, online := status == Online)
  }

  function Freshness(status: Status): nat {
    match status case Online => 2 case Stale => 1 case Offline => 0
  }

  /** The state in memory. */
  class SharedState {
    var value: State

    constructor (initial: State)
      ensures value == initial
    {
      value := initial;
    }

    method Commit(incoming: State, mode: Mode, now: nat) returns (accepted: bool)
      modifies this
      ensures value == Committed(old(value), Delivery(incoming, mode, now))
      ensures accepted <==> Accepts(old(value), incoming)
      ensures accepted <==>
              && incoming.hasData
              && (!old(value).hasData || old(value).key.timestamp < incoming.key.timestamp
                  || (old(value).key.timestamp == incoming.key.timestamp && old(value).key.seqNo < incoming.key.seqNo))
      ensures accepted ==> value.key == incoming.key && value.metrics == incoming.metrics && value.hasData
      ensures !accepted ==> value == old(value)
    {
      if !incoming.hasData
         || (value.hasData
             && (incoming.key.timestamp < value.key.timestamp
                 || (incoming.key.timestamp == value.key.timestamp && incoming.key.seqNo <= value.key.seqNo)))
      {
        return false;
      }
      var next := incoming;
      next := next.(mode := mode, lastUpdate := now);
      next := next.(reconnects := value.reconnects, wssLastRx := if mode == LiveWss then now else value.wssLastRx);
      if mode == LiveWss { next := next.(latencyMs := value.latencyMs); }
      next := next.(alertMessage := value.alertMessage, alertLevel := value.alertLevel);
      value := next;
      return true;
    }

    /** Offline exactly without data or more than a minute after the last update, stale exactly more than
        fifteen seconds after it, online otherwise; nothing else changes. */
    method Age(now: nat)
      modifies this
      ensures value == Aged(old(value), now) == old(value).(status := value.status, online := value.online)
      ensures value.online <==> value.status == Online
      ensures value.status == Offline <==> !old(value).hasData || now - old(value).lastUpdate > OFFLINE_MS
      ensures value.status == Stale <==> old(value).hasData && STALE_MS < now - old(value).lastUpdate <= OFFLINE_MS
    {
      if !value.hasData || (now >= value.lastUpdate && now - value.lastUpdate > OFFLINE_MS) {
        value := value.(status := Offline);
      } else if now >= value.lastUpdate && now - value.lastUpdate > STALE_MS {
        value := value.(status := Stale);
      } else {
        value := value.(status := Online);
      }
      value := value.(online := value.status == Online);
    }
  }

  // ---- runs of deliveries over both transports ----

  function Merged(state: State, ds: seq<Delivery>): State {
    if ds == [] then state else Committed(Merged(state, ds[..|ds| - 1]), ds[|ds| - 1])
  }

  datatype Snapshot = Snapshot(key: Key, metrics: Metrics)

  function SnapshotOf(state: State): Snapshot {
    Snapshot(state.key, state.metrics)
  }

  /** Everything a run has seen: its deliveries, and what the state held before them. */
  ghost function Seen(state: State, ds: seq<Delivery>): set<Snapshot> {
    (if state.hasData then {SnapshotOf(state)} else {})
    + set d | d in ds && d.incoming.hasData :: SnapshotOf(d.incoming)
  }

  /** One key never labels two different payloads. */
  ghost predicate Consistent(snapshots: set<Snapshot>) {
    forall a, b | a in snapshots && b in snapshots && a.key == b.key :: a == b
  }

  /** After any run the state holds the newest snapshot the run has seen. */
  lemma {:induction false} MergeKeepsTheNewest(state: State, ds: seq<Delivery>)
    ensures var end := Merged(state, ds);
            && (end.hasData <==> Seen(state, ds) != {})
            && (end.hasData ==> SnapshotOf(end) in Seen(state, ds))
            && forall s | s in Seen(state, ds) ::
                 s.key.timestamp < end.key.timestamp
                 || (s.key.timestamp == end.key.timestamp && s.key.seqNo <= end.key.seqNo)
  {
    if ds != [] {
      var n := |ds| - 1;
      var before, d := ds[..n], ds[n];
      MergeKeepsTheNewest(state, before);
      SeenGrows(state, ds);
    }
  }

  lemma {:induction false} SeenGrows(state: State, ds: seq<Delivery>)
    requires ds != []
    ensures var n := |ds| - 1;
            Seen(state, ds) ==
            Seen(state, ds[..n]) + if ds[n].incoming.hasData then {SnapshotOf(ds[n].incoming)} else {}
  {
    var n := |ds| - 1;
    assert ds == ds[..n] + [ds[n]];
    assert forall d :: d in ds <==> d in ds[..n] || d == ds[n];
  }

  /** Order, repetition and transport do not matter: two runs that have seen the same snapshots
      end with the same one. */
  lemma {:induction false} MergeIsOrderIndependent(a: State, ds: seq<Delivery>, b: State, es: seq<Delivery>)
    requires Seen(a, ds) == Seen(b, es) && Consistent(Seen(a, ds))
    ensures var x, y := Merged(a, ds), Merged(b, es);
            x.hasData == y.hasData && (x.hasData ==> SnapshotOf(x) == SnapshotOf(y))
  {
    MergeKeepsTheNewest(a, ds);
    MergeKeepsTheNewest(b, es);
    var x, y := Merged(a, ds), Merged(b, es);
    if x.hasData {
      assert !Newer(x.key, y.key) && !Newer(y.key, x.key);
    }
  }

  /** No run of deliveries touches the reconnect counter or the alert being shown. */
  lemma {:induction false} MergeKeepsDiagnostics(state: State, ds: seq<Delivery>)
    ensures var end := Merged(state, ds);
            && end.reconnects == state.reconnects && end.alertMessage == state.alertMessage
            && end.alertLevel == state.alertLevel
  {
    if ds != [] { MergeKeepsDiagnostics(state, ds[..|ds| - 1]); }
  }

  /** The last delivery that is accepted decides everything but the diagnostics: what is shown, over
      which transport it came, and when. */
  lemma {:induction false} LastAcceptedDecides(state: State, ds: seq<Delivery>, k: nat)
    requires k < |ds| && TakenAt(state, ds, k) && forall m | k < m < |ds| :: !TakenAt(state, ds, m)
    ensures var end, d := Merged(state, ds), ds[k];
            && end.hasData && end.key == d.incoming.key && end.metrics == d.incoming.metrics
            && end.mode == d.mode && end.lastUpdate == d.now
            && end.status == d.incoming.status && end.online == d.incoming.online && end.error == d.incoming.error
    decreases |ds|
  {
    var n := |ds| - 1;
    if k < n {
      assert forall m | 0 <= m < n :: ds[..n][..m] == ds[..m];
      assert forall m | 0 <= m < n :: TakenAt(state, ds[..n], m) == TakenAt(state, ds, m);
      assert !TakenAt(state, ds, n);
      LastAcceptedDecides(state, ds[..n], k);
    }
  }

  predicate TakenAt(state: State, ds: seq<Delivery>, k: nat)
    requires k < |ds|
  {
    Accepts(Merged(state, ds[..k]), ds[k].incoming)
  }

  /** The live transport's fields follow its own last accepted delivery: later ones over the other
      transport leave the time alone. */
  lemma {:induction false} LastLiveDeliveryIsRemembered(state: State, ds: seq<Delivery>, k: nat)
    requires k < |ds| && TakenAt(state, ds, k) && ds[k].mode == LiveWss
    requires forall m | k < m < |ds| && TakenAt(state, ds, m) :: ds[m].mode != LiveWss
    ensures Merged(state, ds).wssLastRx == ds[k].now
    decreases |ds|
  {
    var n := |ds| - 1;
    if k < n {
      assert forall m | 0 <= m < n :: ds[..n][..m] == ds[..m];
      assert forall m | 0 <= m < n :: TakenAt(state, ds[..n], m) == TakenAt(state, ds, m);
      LastLiveDeliveryIsRemembered(state, ds[..n], k);
    }
  }

  /** Delivery `k` is an accepted one that does not come live. */
  predicate PolledAt(state: State, ds: seq<Delivery>, k: nat)
    requires k < |ds|
  {
    TakenAt(state, ds, k) && ds[k].mode != LiveWss
  }

  /** And the latency shown is that of the last poll that was accepted: live snapshots leave it alone. */
  lemma {:induction false} LastPollIsTimed(state: State, ds: seq<Delivery>, k: nat)
    requires k < |ds| && PolledAt(state, ds, k) && forall m | k < m < |ds| :: !PolledAt(state, ds, m)
    ensures Merged(state, ds).latencyMs == ds[k].incoming.latencyMs
    decreases |ds|
  {
    var n := |ds| - 1;
    if k < n {
      forall m | k <= m < n ensures PolledAt(state, ds[..n], m) == PolledAt(state, ds, m) {
        PolledBefore(state, ds, m);
      }
      assert !PolledAt(state, ds, n);
      LastPollIsTimed(state, ds[..n], k);
    }
  }

  lemma {:induction false} WithoutPollsNothingIsTimed(state: State, ds: seq<Delivery>)
    requires forall k | 0 <= k < |ds| :: !PolledAt(state, ds, k)
    ensures Merged(state, ds).latencyMs == state.latencyMs
    decreases |ds|
  {
    if ds != [] {
      var n := |ds| - 1;
      forall m | 0 <= m < n ensures !PolledAt(state, ds[..n], m) {
        PolledBefore(state, ds, m);
      }
      assert !PolledAt(state, ds, n);
      WithoutPollsNothingIsTimed(state, ds[..n]);
    }
  }

  lemma {:induction false} PolledBefore(state: State, ds: seq<Delivery>, m: nat)
    requires m + 1 < |ds|
    ensures PolledAt(state, ds[..|ds| - 1], m) == PolledAt(state, ds, m)
  {
    assert ds[..|ds| - 1][..m] == ds[..m];
  }

  // ---- deliveries with ageing in between ----

  datatype Event = Deliver(d: Delivery) | Tick(now: nat)

  function Lived(state: State, events: seq<Event>): State {
    if events == [] then state
    else
      var before := Lived(state, events[..|events| - 1]);
      match events[|events| - 1]
      case Deliver(d) => Committed(before, d)
      case Tick(now) => Aged(before, now)
  }

  function Deliveries(events: seq<Event>): seq<Delivery> {
    if events == [] then []
    else
      Deliveries(events[..|events| - 1])
      + match events[|events| - 1] case Deliver(d) => [d] case Tick(_) => []
  }

  /** Ageing never changes which deliveries are accepted: up to the status, a run with any ticks in
      between ends as its deliveries alone would. */
  lemma {:induction false} TicksDoNotMatter(state: State, events: seq<Event>)
    ensures var lived, merged := Lived(state, events), Merged(state, Deliveries(events));
            lived == merged.(status := lived.status, online := lived.online)
  {
    if events != [] {
      var n := |events| - 1;
      var before, ds := Lived(state, events[..n]), Deliveries(events[..n]);
      TicksDoNotMatter(state, events[..n]);
      match events[n]
      case Deliver(d) =>
        MergedOneMore(state, ds, d);
        StatusDoesNotMatter(before, Merged(state, ds), d);
      case Tick(now) =>
        assert Deliveries(events) == ds;
    }
  }

  lemma {:induction false} MergedOneMore(state: State, ds: seq<Delivery>, d: Delivery)
    ensures Merged(state, ds + [d]) == Committed(Merged(state, ds), d)
  {
    assert (ds + [d])[..|ds|] == ds;
  }

  lemma {:induction false} StatusDoesNotMatter(a: State, b: State, d: Delivery)
    requires a == b.(status := a.status, online := a.online)
    ensures var x, y := Committed(a, d), Committed(b, d);
            x == y.(status := x.status, online := x.online)
  {
  }

  /** So a status shown is about the last accepted delivery: online means that it was accepted at most
      fifteen seconds ago, stale at most a minute. */
  lemma {:induction false} StatusTellsTheAge(state: State, events: seq<Event>, now: nat, k: nat)
    requires var ds := Deliveries(events);
             k < |ds| && TakenAt(state, ds, k) && forall m | k < m < |ds| :: !TakenAt(state, ds, m)
    ensures var status, at := Lived(state, events + [Tick(now)]).status, Deliveries(events)[k].now;
            && (status == Online <==> now <= at + 15000)
            && (status == Offline <==> now > at + 60000)
  {
    assert (events + [Tick(now)])[..|events|] == events;
    TicksDoNotMatter(state, events);
    LastAcceptedDecides(state, Deliveries(events), k);
  }

  function AgedBy(state: State, clock: seq<nat>): State {
    if clock == [] then state else Aged(AgedBy(state, clock[..|clock| - 1]), clock[|clock| - 1])
  }

  /** Between commits, under a clock that does not run backwards, the status only ever degrades:
      every later reading is at most as fresh as every earlier one. */
  lemma {:induction false} StatusOnlyDegrades(state: State, clock: seq<nat>, i: nat, j: nat)
    requires i < j <= |clock| && 0 < i
    requires forall p, q | 0 <= p < q < |clock| :: clock[p] <= clock[q]
    ensures Freshness(AgedBy(state, clock[..j]).status) <= Freshness(AgedBy(state, clock[..i]).status)
  {
    AgeingKeepsTheRest(state, clock[..i - 1]);
    AgeingKeepsTheRest(state, clock[..j - 1]);
    assert clock[..i][..i - 1] == clock[..i - 1] && clock[..j][..j - 1] == clock[..j - 1];
    assert clock[i - 1] <= clock[j - 1];
  }

  lemma {:induction false} AgeingKeepsTheRest(state: State, clock: seq<nat>)
    ensures var end := AgedBy(state, clock);
            end == state.(status := end.status, online := end.online)
  {
    if clock != [] { AgeingKeepsTheRest(state, clock[..|clock| - 1]); }
  }
}
