/** Voice events of one kind are kept apart: thirty seconds, or sixty where the later one is critical. */
module Cooldown {

  const EVENTS := 32

  datatype Call = Call(event: nat, now: nat, critical: bool)

  function Gap(critical: bool): nat {
    if critical then 60000 else 30000
  }

  /** The times of the last accepted events. */
  type Table = map<nat, nat>

  predicate Allowed(t: Table, c: Call) {
    c.event < EVENTS && (c.event in t ==> Elapsed(t[c.event], c.now) >= Gap(c.critical))
  }

  /** The unsigned 64-bit difference. */
  function Elapsed(last: nat, now: nat): nat {
    (now - last) % 0x1_0000_0000_0000_0000
  }

  /** The timer; `seen` has the numbers of the bits that are set in the mask of events seen. */
  class Timer {
    var last: array<nat>
    var seen: set<nat>

    ghost predicate Valid()
      reads this
    {
      last.Length == EVENTS && forall e | e in seen :: e < EVENTS
    }

    ghost function Contents(): Table
      reads this, last
      requires Valid()
    {
      map e | e in seen :: last[e]
    }

    constructor ()
      ensures Valid() && fresh(last) && Contents() == map[]
    {
      last := new nat[EVENTS](_ => 0);
      seen := {};
    }

    method Accept(c: Call) returns (ok: bool)
      requires Valid()
      modifies this`seen, last
      ensures Valid() && last == old(last)
      ensures ok <==> Allowed(old(Contents()), c)
      ensures Contents() == if ok then old(Contents())[c.event := c.now] else old(Contents())
    {
      if c.event >= EVENTS { return false; }
      if c.event in seen && Elapsed(last[c.event], c.now) < Gap(c.critical) { return false; }
      seen := seen + {c.event};
      last[c.event] := c.now;
      return true;
    }
  }

  // ---- runs of events ----

  function TableAfter(calls: seq<Call>): Table {
    if calls == [] then map[]
    else
      var t, c := TableAfter(calls[..|calls| - 1]), calls[|calls| - 1];
      if Allowed(t, c) then t[c.event := c.now] else t
  }

  /** The accepted calls, in order. */
  function Accepted(calls: seq<Call>): seq<Call> {
    if calls == [] then []
    else
      var before, c := calls[..|calls| - 1], calls[|calls| - 1];
      Accepted(before) + if Allowed(TableAfter(before), c) then [c] else []
  }

  /** Times of a clock that does not run backwards, within 64 bits. */
  ghost predicate Clocked(calls: seq<Call>) {
    && (forall i, j | 0 <= i < j < |calls| :: calls[i].now <= calls[j].now)
    && (forall c | c in calls :: c.now < 0x1_0000_0000_0000_0000)
  }

  lemma {:induction false} ClockedBefore(calls: seq<Call>, a: Call)
    requires Clocked(calls) && calls != []
    ensures Clocked(calls[..|calls| - 1])
    ensures a in calls[..|calls| - 1] ==> a.now <= calls[|calls| - 1].now
  {
    var before := calls[..|calls| - 1];
    assert forall b | b in before :: b in calls;
    if a in before {
      var i :| 0 <= i < |before| && before[i] == a;
      assert calls[i] == a;
    }
  }

  /** No accepted event is later than what the table holds for its kind. */
  lemma {:induction false} AcceptedIsInTable(calls: seq<Call>, a: Call)
    requires Clocked(calls) && a in Accepted(calls)
    ensures a in calls && a.event in TableAfter(calls) && a.now <= TableAfter(calls)[a.event]
    decreases |calls|
  {
    if calls != [] {
      var before, c := calls[..|calls| - 1], calls[|calls| - 1];
      ClockedBefore(calls, a);
      assert Accepted(calls) == Accepted(before) + if Allowed(TableAfter(before), c) then [c] else [];
      if a in Accepted(before) {
        AcceptedIsInTable(before, a);
        assert a in calls;
      }
    }
  }

  /** What the table holds is the time of an accepted event. */
  lemma {:induction false} TableIsAccepted(calls: seq<Call>, e: nat) returns (a: Call)
    requires e in TableAfter(calls)
    ensures a in Accepted(calls) && a.event == e && a.now == TableAfter(calls)[e]
    decreases |calls|
  {
    var before, c := calls[..|calls| - 1], calls[|calls| - 1];
    assert Accepted(calls) == Accepted(before) + if Allowed(TableAfter(before), c) then [c] else [];
    if Allowed(TableAfter(before), c) && e == c.event {
      a := c;
    } else {
      a := TableIsAccepted(before, e);
    }
  }

  ghost predicate FarBack(calls: seq<Call>, c: Call) {
    forall a | a in Accepted(calls) && a.event == c.event :: c.now - a.now >= if c.critical then 60000 else 30000
  }

  /** After any run, an event is accepted exactly if it is a known one and every accepted event of
      its kind is far enough back. */
  lemma {:induction false} AcceptedExactlyAfterTheGap(calls: seq<Call>, c: Call)
    requires Clocked(calls + [c])
    ensures Allowed(TableAfter(calls), c) <==> c.event < 32 && FarBack(calls, c)
  {
    var all, t := calls + [c], TableAfter(calls);
    assert all[..|all| - 1] == calls && all[|all| - 1] == c;
    ClockedBefore(all, c);
    forall a | a in Accepted(calls) && a.event == c.event
      ensures a.event in t && a.now <= t[a.event]
    {
      AcceptedIsInTable(calls, a);
    }
    if c.event in t {
      var a := LatestAccepted(calls, c);
      if FarBack(calls, c) { assert c.now - a.now >= Gap(c.critical); }
    }
  }

  /** The call whose time the table holds for the kind of a later one. */
  lemma {:induction false} LatestAccepted(calls: seq<Call>, c: Call) returns (a: Call)
    requires Clocked(calls + [c]) && Clocked(calls) && c.event in TableAfter(calls)
    ensures a in Accepted(calls) && a.event == c.event && a.now == TableAfter(calls)[c.event]
    ensures Elapsed(a.now, c.now) == c.now - a.now
  {
    var all := calls + [c];
    assert all[..|all| - 1] == calls && all[|all| - 1] == c && c in all;
    a := TableIsAccepted(calls, c.event);
    AcceptedIsInTable(calls, a);
    ClockedBefore(all, a);
  }

  /** So any two accepted events of one kind are that far apart. */
  lemma {:induction false} AcceptedAreSpaced(calls: seq<Call>, i: nat, j: nat)
    requires Clocked(calls) && i < j < |Accepted(calls)| && Accepted(calls)[i].event == Accepted(calls)[j].event
    ensures Accepted(calls)[j].now - Accepted(calls)[i].now >= if Accepted(calls)[j].critical then 60000 else 30000
  {
    var before, c := calls[..|calls| - 1], calls[|calls| - 1];
    ClockedBefore(calls, calls[0]);
    if j < |Accepted(before)| {
      AcceptedAreSpaced(before, i, j);
    } else {
      assert before + [c] == calls;
      AcceptedExactlyAfterTheGap(before, c);
      assert Accepted(before)[i] in Accepted(before);
    }
  }
}
