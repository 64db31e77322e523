/** Names as they are sent in DNS packets, without compression (section 3.1 of RFC 1035). */
module DnsNames {
  import opened Common

  const LABEL_MAX := 63

  predicate GoodLabel(l: seq<byte>) {
    1 <= |l| <= 63
  }

  predicate GoodLabels(labels: seq<seq<byte>>) {
    forall l | l in labels :: GoodLabel(l)
  }

  /** A label behind its length. */
  function Labelled(l: seq<byte>): (s: seq<byte>)
    requires GoodLabel(l)
    ensures |s| == 1 + |l|
  {
    [|l|] + l
  }

  /** Every label behind its length, then a zero. */
  function Encode(labels: seq<seq<byte>>): (s: seq<byte>)
    requires GoodLabels(labels)
    ensures |s| >= 1
  {
    if labels == [] then [0]
    else
      assert labels[0] in labels;
      Labelled(labels[0]) + Encode(labels[1..])
  }

  /** Reading an uncompressed name from `at`; the second part is where it ends. */
  function ReadName(p: seq<byte>, at: nat): (r: Option<(seq<seq<byte>>, nat)>)
    requires at < |p|
    ensures r.Some? ==> at < r.value.1 <= |p|
    decreases |p| - at
  {
    var n := p[at];
    if n == 0 then Some(([], at + 1))
    else if n > LABEL_MAX || at + 1 + n >= |p| then None
    else match ReadName(p, at + 1 + n)
      case None => None
      case Some((rest, end)) => Some(([p[at + 1..at + 1 + n]] + rest, end))
  }

  // ---- bytes in place ----

  /** The bytes `s` lie in `p` from `at` on. */
  predicate Holds(p: seq<byte>, at: nat, s: seq<byte>) {
    at + |s| <= |p| && forall i | 0 <= i < |s| :: p[at + i] == s[i]
  }

  lemma {:induction false} HoldsIsSlice(p: seq<byte>, at: nat, s: seq<byte>)
    ensures Holds(p, at, s) <==> at + |s| <= |p| && p[at..at + |s|] == s
  {
    if at + |s| <= |p| && p[at..at + |s|] == s {
      forall i | 0 <= i < |s| ensures p[at + i] == s[i] {
        assert p[at + i] == p[at..at + |s|][i];
      }
    }
  }

  lemma {:induction false} HoldsBoth(p: seq<byte>, at: nat, a: seq<byte>, b: seq<byte>)
    ensures Holds(p, at, a + b) <==> Holds(p, at, a) && Holds(p, at + |a|, b)
  {
    var s := a + b;
    if Holds(p, at, s) {
      forall i | 0 <= i < |a| ensures p[at + i] == a[i] { assert s[i] == a[i]; }
      forall i | 0 <= i < |b| ensures p[at + |a| + i] == b[i] { assert p[at + (|a| + i)] == s[|a| + i] == b[i]; }
    }
    if Holds(p, at, a) && Holds(p, at + |a|, b) {
      forall i | 0 <= i < |s| ensures p[at + i] == s[i] {
        if i >= |a| { assert p[at + |a| + (i - |a|)] == b[i - |a|]; }
      }
    }
  }

  lemma {:induction false} HoldsOne(p: seq<byte>, at: nat, b: byte)
    ensures Holds(p, at, [b]) <==> at < |p| && p[at] == b
  {
    if at < |p| { assert p[at + 0] == p[at]; }
    if Holds(p, at, [b]) { assert p[at + 0] == [b][0]; }
  }

  lemma {:induction false} HoldsLabelled(p: seq<byte>, at: nat, l: seq<byte>)
    requires GoodLabel(l)
    ensures Holds(p, at, Labelled(l)) <==> at + 1 + |l| <= |p| && p[at] == |l| && p[at + 1..at + 1 + |l|] == l
  {
    HoldsBoth(p, at, [|l|], l);
    HoldsIsSlice(p, at + 1, l);
    HoldsOne(p, at, |l|);
  }

  lemma {:induction false} RestIsGood(labels: seq<seq<byte>>)
    requires GoodLabels(labels) && labels != []
    ensures GoodLabel(labels[0]) && GoodLabels(labels[1..])
  {
    assert labels[0] in labels && forall l | l in labels[1..] :: l in labels;
  }

  // ---- reading inverts encoding ----

  lemma {:induction false} ReadOneMore(p: seq<byte>, at: nat, labels: seq<seq<byte>>, end: nat)
    requires labels != [] && at < |p| && 1 <= p[at] <= LABEL_MAX && at + 1 + p[at] < |p|
    requires p[at + 1..at + 1 + p[at]] == labels[0]
    requires ReadName(p, at + 1 + p[at]) == Some((labels[1..], end))
    ensures ReadName(p, at) == Some((labels, end))
  {
    assert labels == [labels[0]] + labels[1..];
  }

  /** Names read back exactly, whatever follows them. */
  lemma {:induction false} EncodedIsRead(p: seq<byte>, at: nat, labels: seq<seq<byte>>)
    requires at < |p| && GoodLabels(labels) && Holds(p, at, Encode(labels))
    ensures ReadName(p, at) == Some((labels, at + |Encode(labels)|))
    decreases |labels|
  {
    if labels == [] {
      assert p[at + 0] == Encode([])[0];
    } else {
      RestIsGood(labels);
      var l, rest := labels[0], Encode(labels[1..]);
      HoldsBoth(p, at, Labelled(l), rest);
      HoldsLabelled(p, at, l);
      EncodedIsRead(p, at + 1 + |l|, labels[1..]);
      ReadOneMore(p, at, labels, at + |Encode(labels)|);
    }
  }

  /** And only encoded names are read. */
  lemma {:induction false} ReadIsEncoded(p: seq<byte>, at: nat)
    requires at < |p| && ReadName(p, at).Some?
    ensures var (labels, end) := ReadName(p, at).value;
            GoodLabels(labels) && Holds(p, at, Encode(labels)) && end == at + |Encode(labels)|
    decreases |p| - at
  {
    var n := p[at];
    if n != 0 {
      ReadIsEncoded(p, at + 1 + n);
      var (rest, end) := ReadName(p, at + 1 + n).value;
      EncodeOneMore(p, at, rest);
    }
  }

  lemma {:induction false} EncodeOneMore(p: seq<byte>, at: nat, rest: seq<seq<byte>>)
    requires at < |p| && 1 <= p[at] <= LABEL_MAX && at + 1 + p[at] <= |p|
    requires GoodLabels(rest) && Holds(p, at + 1 + p[at], Encode(rest))
    ensures var labels := [p[at + 1..at + 1 + p[at]]] + rest;
            GoodLabels(labels) && Holds(p, at, Encode(labels)) && |Encode(labels)| == 1 + p[at] + |Encode(rest)|
  {
    var part := p[at + 1..at + 1 + p[at]];
    var labels := [part] + rest;
    assert forall l | l in labels :: l == part || l in rest;
    assert labels[1..] == rest;
    HoldsLabelled(p, at, part);
    HoldsBoth(p, at, Labelled(part), Encode(rest));
  }
}
