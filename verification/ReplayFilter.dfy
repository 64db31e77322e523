/** The device's replay filter, and what it makes of everything an agent has sent. */
module ReplayFilter {
  import opened ServerState
  import opened StatusAgent
  import opened AgentRecord

  /** The newest key accepted from a run of deliveries that pass the freshness check. */
  function Stored(ds: seq<Key>): Key {
    if ds == [] then Key(0, 0)
    else
      var before := Stored(ds[..|ds| - 1]);
      if Newer(ds[|ds| - 1], before) then ds[|ds| - 1] else before
  }

  predicate AcceptedAt(ds: seq<Key>, i: nat)
    requires i < |ds|
  {
    Newer(ds[i], Stored(ds[..i]))
  }

  /** At most fifteen seconds old and at most thirty seconds ahead. */
  predicate Fresh(key: Key, wall: nat) {
    wall <= key.timestamp + 15 && key.timestamp <= wall + 30
  }

  class AlertFilter {
    var last: Key
    ghost var considered: seq<Key>

    ghost predicate Valid()
      reads this
    {
      last == Stored(considered)
    }

    constructor ()
      ensures Valid() && considered == []
    {
      last, considered := Key(0, 0), [];
    }

    /** `wall` is the device's own clock in seconds. What is not fresh is not considered. */
    method Accept(key: Key, wall: nat) returns (accepted: bool)
      requires Valid()
      modifies this
      ensures Valid()
      ensures considered == old(considered) + if Fresh(key, wall) then [key] else []
      ensures accepted <==> wall - 15 <= key.timestamp <= wall + 30 && Newer(key, old(last))
      ensures last == if accepted then key else old(last)
      ensures accepted <==> considered != old(considered) && AcceptedAt(considered, |considered| - 1)
    {
      if key.timestamp > wall + 30 || wall - key.timestamp > 15 { return false; }
      assert (considered + [key])[..|considered|] == considered;
      considered := considered + [key];
      if key.timestamp < last.timestamp || (key.timestamp == last.timestamp && key.seqNo <= last.seqNo) {
        return false;
      }
      last := key;
      return true;
    }
  }

  lemma {:induction false} StoredIsNewest(ds: seq<Key>)
    ensures forall j | 0 <= j < |ds| :: !Newer(ds[j], Stored(ds))
    ensures Stored(ds) == Key(0, 0) || Stored(ds) in ds
  {
    if ds != [] {
      var before := ds[..|ds| - 1];
      StoredIsNewest(before);
      forall j | 0 <= j < |ds|
        ensures !Newer(ds[j], Stored(ds))
      {
        if j < |before| { assert before[j] == ds[j]; }
      }
    }
  }

  /** Numbering and filter together. Of items the agent sent in this order, delivered with any
      repetition, loss and reordering, the device accepts a delivery exactly when its item was sent
      after every item delivered before: none twice, and none skipped while they come in order. */
  lemma {:induction false} ReplayIsFiltered(emitted: seq<Key>, order: seq<nat>, i: nat)
    requires Increasing(emitted) && forall k | k in order :: k < |emitted|
    requires forall k | k in emitted :: k.timestamp > 0
    requires i < |order|
    ensures AcceptedAt(Delivered(emitted, order), i) <==> forall j | 0 <= j < i :: order[j] < order[i]
  {
    var ds := Delivered(emitted, order);
    StoredIsNewest(ds[..i]);
    assert order[i] in order && emitted[order[i]] in emitted;
    if forall j | 0 <= j < i :: order[j] < order[i] {
      if Stored(ds[..i]) != Key(0, 0) {
        var j :| 0 <= j < i && ds[..i][j] == Stored(ds[..i]);
        assert ds[j] == emitted[order[j]] && order[j] < order[i];
      }
    } else {
      var j :| 0 <= j < i && order[i] <= order[j];
      assert order[j] in order;
      assert ds[..i][j] == emitted[order[j]];
    }
  }

  function Delivered(emitted: seq<Key>, order: seq<nat>): (ds: seq<Key>)
    requires forall k | k in order :: k < |emitted|
    ensures |ds| == |order|
  {
    seq(|order|, i requires 0 <= i < |order| => assert order[i] in order; emitted[order[i]])
  }

  /** Snapshots pass through the shared state instead, over either transport, with the same filter. */
  lemma {:induction false} SharedStateFiltersAlike(empty: State, ds: seq<Delivery>, i: nat)
    requires !empty.hasData && i < |ds|
    requires forall d | d in ds :: d.incoming.hasData && d.incoming.key.timestamp > 0
    ensures Accepts(Merged(empty, ds[..i]), ds[i].incoming) <==> AcceptedAt(DeliveredKeys(ds), i)
  {
    StateStoresTheFilterKey(empty, ds, i);
    assert ds[i] in ds;
  }

  function DeliveredKeys(ds: seq<Delivery>): (keys: seq<Key>)
    ensures |keys| == |ds|
  {
    seq(|ds|, i requires 0 <= i < |ds| => ds[i].incoming.key)
  }

  lemma {:induction false} StateStoresTheFilterKey(empty: State, ds: seq<Delivery>, n: nat)
    requires !empty.hasData && n <= |ds|
    requires forall d | d in ds :: d.incoming.hasData && d.incoming.key.timestamp > 0
    ensures var end := Merged(empty, ds[..n]);
            && (end.hasData <==> n > 0)
            && (n > 0 ==> end.key == Stored(DeliveredKeys(ds)[..n]))
            && (n == 0 ==> Stored(DeliveredKeys(ds)[..n]) == Key(0, 0))
  {
    if n > 0 {
      StateStoresTheFilterKey(empty, ds, n - 1);
      assert ds[..n][..n - 1] == ds[..n - 1];
      assert DeliveredKeys(ds)[..n][..n - 1] == DeliveredKeys(ds)[..n - 1];
      assert ds[n - 1] in ds;
    }
  }

  // ---- the agent's record through the device's filters ----

  /** One item after another arrives: `order[i]` is its place in the record, `walls[i]` the device's clock.
      The latest fresh place among the first `n`, or -1. */
  function Latest(emitted: seq<Key>, order: seq<nat>, walls: seq<nat>, n: nat): (top: int)
    requires n <= |order| == |walls| && forall k | k in order :: k < |emitted|
    ensures -1 <= top < |emitted|
  {
    if n == 0 then -1
    else
      var top := Latest(emitted, order, walls, n - 1);
      assert order[n - 1] in order;
      if Fresh(emitted[order[n - 1]], walls[n - 1]) && order[n - 1] > top then order[n - 1] else top
  }

  /** What the device is to accept: a fresh item that was sent after every fresh item delivered before. */
  ghost predicate SentLater(emitted: seq<Key>, order: seq<nat>, walls: seq<nat>, i: nat)
    requires i < |order| == |walls| && forall k | k in order :: k < |emitted|
  {
    && (assert order[i] in order; Fresh(emitted[order[i]], walls[i]))
    && forall j | 0 <= j < i && (assert order[j] in order; Fresh(emitted[order[j]], walls[j])) :: order[j] < order[i]
  }

  lemma {:induction false} LatestIsLatest(emitted: seq<Key>, order: seq<nat>, walls: seq<nat>, n: nat, k: nat)
    requires n <= |order| == |walls| && forall k | k in order :: k < |emitted|
    ensures Latest(emitted, order, walls, n) < k <==>
            forall j | 0 <= j < n && (assert order[j] in order; Fresh(emitted[order[j]], walls[j])) :: order[j] < k
  {
    if n > 0 {
      LatestIsLatest(emitted, order, walls, n - 1, k);
      assert order[n - 1] in order;
    }
  }

  lemma {:induction false} OnlyLaterIsNewer(emitted: seq<Key>, top: int, k: nat)
    requires Increasing(emitted) && -1 <= top < |emitted| && k < |emitted|
    ensures top >= 0 ==> (Newer(emitted[k], emitted[top]) <==> top < k)
  {
    if 0 <= top && k < top { assert Newer(emitted[top], emitted[k]); }
  }

  /** End to end for alerts: whatever a paused agent has sent, over any number of restarts, and however it
      is repeated, lost, delayed and reordered on the way, the device accepts exactly the fresh items
      that were sent after every fresh one it has had before. */
  method DeliverAlerts(ghost agent: Agent, emitted: seq<Key>, order: seq<nat>, walls: seq<nat>)
    returns (accepted: seq<bool>)
    requires agent.Valid() && agent.paused && emitted == agent.alerts
    requires |order| == |walls| && forall k | k in order :: k < |emitted|
    ensures |accepted| == |order| && forall i | 0 <= i < |order| :: accepted[i] <==> SentLater(emitted, order, walls, i)
  {
    var filter := new AlertFilter();
    accepted := [];
    for i := 0 to |order|
      invariant filter.Valid() && fresh(filter)
      invariant filter.last == KeyAt(emitted, Latest(emitted, order, walls, i))
      invariant |accepted| == i && forall j | 0 <= j < i :: accepted[j] <==> SentLater(emitted, order, walls, j)
    {
      assert order[i] in order;
      ghost var top := Latest(emitted, order, walls, i);
      OnlyLaterIsNewer(emitted, top, order[i]);
      LatestIsLatest(emitted, order, walls, i, order[i]);
      var yes := filter.Accept(emitted[order[i]], walls[i]);
      accepted := accepted + [yes];
    }
  }

  function KeyAt(emitted: seq<Key>, top: int): Key
    requires top < |emitted|
  {
    if top < 0 then Key(0, 0) else emitted[top]
  }

  /** The device's side for snapshots, of either transport. */
  method AcceptStatus(state: SharedState, incoming: State, mode: Mode, now: nat, wall: nat) returns (accepted: bool)
    modifies state
    ensures accepted <==> wall - 15 <= incoming.key.timestamp <= wall + 30 && Accepts(old(state.value), incoming)
    ensures state.value ==
            if accepted then Committed(old(state.value), Delivery(incoming, mode, now)) else old(state.value)
  {
    if incoming.key.timestamp > wall + 30 || wall - incoming.key.timestamp > 15 { return false; }
    accepted := state.Commit(incoming, mode, now);
  }

  /** End to end for snapshots, each over any transport. */
  method DeliverSnapshots(ghost agent: Agent, emitted: seq<Key>, order: seq<nat>, walls: seq<nat>,
                          packets: seq<Delivery>, empty: State) returns (accepted: seq<bool>, state: SharedState)
    requires agent.Valid() && emitted == agent.statuses && !empty.hasData
    requires |order| == |walls| == |packets| && forall k | k in order :: k < |emitted|
    requires forall i | 0 <= i < |packets| ::
               packets[i].incoming.hasData && (assert order[i] in order; packets[i].incoming.key == emitted[order[i]])
    ensures |accepted| == |order| && forall i | 0 <= i < |order| :: accepted[i] <==> SentLater(emitted, order, walls, i)
    ensures var top := Latest(emitted, order, walls, |order|);
            if top < 0 then state.value == empty else state.value.hasData && state.value.key == emitted[top]
  {
    state := new SharedState(empty);
    accepted := [];
    for i := 0 to |order|
      invariant fresh(state)
      invariant var top := Latest(emitted, order, walls, i);
                if top < 0 then state.value == empty else state.value.hasData && state.value.key == emitted[top]
      invariant |accepted| == i && forall j | 0 <= j < i :: accepted[j] <==> SentLater(emitted, order, walls, j)
    {
      assert order[i] in order;
      ghost var top := Latest(emitted, order, walls, i);
      OnlyLaterIsNewer(emitted, top, order[i]);
      LatestIsLatest(emitted, order, walls, i, order[i]);
      var yes := AcceptStatus(state, packets[i].incoming, packets[i].mode, packets[i].now, walls[i]);
      accepted := accepted + [yes];
    }
  }
}
