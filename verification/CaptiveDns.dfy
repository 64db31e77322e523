/** The captive portal's DNS responder: which packets it answers, and that what it sends back is a
    well-formed answer to the same question (section 4.1 of RFC 1035). */
module CaptiveDns {
  import opened Common
  import opened DnsNames

  const BUFFER := 300
  const RECEIVED_MAX := 256
  const HEADER := 12

  const TYPE_A_CLASS_IN: seq<byte> := [0, 1, 0, 1]
  const ANSWER: seq<byte> := [0xC0, 0x0C, 0, 1, 0, 1, 0, 0, 0, 0, 0, 4, 192, 168, 4, 1]

  // ---- queries ----

  /** A packet that asks for the address of one name, and nothing more. */
  ghost predicate AsksFor(packet: seq<byte>, labels: seq<seq<byte>>) {
    && HEADER <= |packet| && packet[2] < 128 && packet[4] == 0 && packet[5] == 1
    && Asks(packet, labels)
  }

  /** What the byte checks at the end of the walk amount to. */
  ghost predicate EndsAsQuestion(p: seq<byte>, at: nat)
    requires at < |p|
  {
    ReadName(p, at).Some? && ReadName(p, at).value.1 + 4 == |p| && p[ReadName(p, at).value.1..] == TYPE_A_CLASS_IN
  }

  /** A name and what must follow it, to the last byte. */
  ghost predicate Asks(p: seq<byte>, labels: seq<seq<byte>>)
    requires HEADER <= |p|
  {
    GoodLabels(labels) && p[HEADER..] == Encode(labels) + TYPE_A_CLASS_IN
  }

  lemma {:induction false} AsksInPlace(p: seq<byte>, labels: seq<seq<byte>>)
    requires HEADER < |p| && GoodLabels(labels)
    ensures var end := HEADER + |Encode(labels)|;
            Asks(p, labels) <==> Holds(p, HEADER, Encode(labels)) && end + 4 == |p| && p[end..] == TYPE_A_CLASS_IN
  {
    var name, end := Encode(labels), HEADER + |Encode(labels)|;
    HoldsIsSlice(p, HEADER, name);
    if Holds(p, HEADER, name) { assert p[HEADER..] == p[HEADER..end] + p[end..]; }
    if Asks(p, labels) {
      assert p[HEADER..end] == p[HEADER..][..|name|] == name;
      assert p[end..] == p[HEADER..][|name|..] == TYPE_A_CLASS_IN;
    }
  }

  lemma {:induction false} QuestionIsExact(p: seq<byte>)
    requires HEADER < |p|
    ensures EndsAsQuestion(p, HEADER) <==> exists labels :: Asks(p, labels)
  {
    if EndsAsQuestion(p, HEADER) {
      var (labels, end) := ReadName(p, HEADER).value;
      ReadIsEncoded(p, HEADER);
      AsksInPlace(p, labels);
    }
    forall labels | Asks(p, labels) ensures EndsAsQuestion(p, HEADER) {
      AsksInPlace(p, labels);
      EncodedIsRead(p, HEADER, labels);
    }
  }

  /** Where the walk stops, the remaining byte checks decide. */
  lemma {:induction false} StopDecides(p: seq<byte>, at: nat)
    requires at < |p| && (p[at] == 0 || p[at] > LABEL_MAX || at + 1 + p[at] >= |p|)
    ensures EndsAsQuestion(p, at) <==>
            at + 5 == |p| && p[at] == 0 && p[at + 1] == 0 && p[at + 2] == 1 && p[at + 3] == 0 && p[at + 4] == 1
  {
    if p[at] == 0 && at + 5 == |p| {
      assert p[at + 1..] == [p[at + 1], p[at + 2], p[at + 3], p[at + 4]];
    }
  }

  // ---- the responder ----

  /** The reply to a query: its identifier and question, response flags, one answer. */
  function Reply(query: seq<byte>): seq<byte>
    requires HEADER <= |query|
  {
    query[..2] + [0x81, 0x80] + query[4..6] + [0, 1, 0, 0, 0, 0] + query[HEADER..] + ANSWER
  }

  /** The walk over the labels and the checks behind it; it only looks at the first `n` bytes. */
  method IsQuestion(packet: array<byte>, n: nat) returns (ok: bool)
    requires HEADER < n <= packet.Length
    ensures ok <==> EndsAsQuestion(packet[..n], HEADER)
  {
    ghost var query := packet[..n];
    var p := HEADER;
    while p < n && packet[p] != 0 && packet[p] <= LABEL_MAX
      invariant HEADER <= p < n
      invariant EndsAsQuestion(query, HEADER) <==> EndsAsQuestion(query, p)
      decreases n - p
    {
      var l := packet[p];
      assert query[p] == l;
      if p + 1 + l >= n { break; }
      p := p + 1 + l;
    }
    assert query[p] == packet[p];
    StopDecides(query, p);
    ok := p + 5 == n && packet[p] == 0
          && packet[p + 1] == 0 && packet[p + 2] == 1 && packet[p + 3] == 0 && packet[p + 4] == 1;
  }

  lemma {:induction false} QueryIsExact(q: seq<byte>)
    requires |q| >= 17
    ensures q[2] < 128 && q[4] == 0 && q[5] == 1 && EndsAsQuestion(q, HEADER) <==> exists labels :: AsksFor(q, labels)
  {
    QuestionIsExact(q);
    if q[2] < 128 && q[4] == 0 && q[5] == 1 && EndsAsQuestion(q, HEADER) {
      var labels :| Asks(q, labels);
      assert AsksFor(q, labels);
    }
  }

  lemma {:induction false} NameFits(q: seq<byte>, labels: seq<seq<byte>>)
    requires |q| <= RECEIVED_MAX && AsksFor(q, labels)
    ensures |Encode(labels)| <= 240
  {
    AsksInPlace(q, labels);
  }

  /** One turn of the responder on a buffer that has received `n` bytes. */
  method Respond(packet: array<byte>, n: int, enabled: bool, fromAccessPoint: bool) returns (sent: int)
    requires packet.Length == BUFFER && n <= RECEIVED_MAX
    modifies packet
    ensures sent > 0 <==> enabled && fromAccessPoint && n >= 17 && exists labels :: AsksFor(old(packet[..n]), labels)
    ensures forall labels | sent > 0 && AsksFor(old(packet[..n]), labels) :: |Encode(labels)| <= 240
    ensures sent > 0 ==> sent == n + 16 <= BUFFER && packet[..sent] == Reply(old(packet[..n]))
    ensures sent <= 0 ==> sent == 0 && packet[..] == old(packet[..])
  {
    if n < 17 || !enabled { return 0; }
    QueryIsExact(packet[..n]);
    if packet[2] >= 128 || packet[4] != 0 || packet[5] != 1 { return 0; }
    if !fromAccessPoint { return 0; }
    var ok := IsQuestion(packet, n);
    if !ok { return 0; }
    ghost var query := packet[..n];
    forall labels | AsksFor(query, labels) ensures |Encode(labels)| <= 240 { NameFits(query, labels); }
    WriteReply(packet, n);
    return n + |ANSWER|;
  }

  method WriteReply(packet: array<byte>, n: nat)
    requires packet.Length == BUFFER && HEADER <= n <= RECEIVED_MAX
    modifies packet
    ensures packet[..n + 16] == Reply(old(packet[..n]))
  {
    ghost var query := packet[..n];
    WriteHeader(packet, n);
    ghost var head := packet[..n];
    forall i | 0 <= i < |ANSWER| { packet[n + i] := ANSWER[i]; }
    assert packet[..n + 16] == head + ANSWER;
    ReplyInParts(query, head);
  }

  method WriteHeader(packet: array<byte>, n: nat)
    requires packet.Length == BUFFER && HEADER <= n <= RECEIVED_MAX
    modifies packet
    ensures HasReplyHeader(old(packet[..n]), packet[..n])
  {
    ghost var query := packet[..n];
    packet[2], packet[3], packet[6], packet[7] := 0x81, 0x80, 0, 1;
    packet[8], packet[9], packet[10], packet[11] := 0, 0, 0, 0;
    ghost var head := packet[..n];
    assert head[..2] == query[..2];
    assert head[4..6] == query[4..6];
    assert head[HEADER..] == query[HEADER..];
  }

  /** The query with its flags and counts replaced by those of a reply. */
  ghost predicate HasReplyHeader(query: seq<byte>, head: seq<byte>) {
    && HEADER <= |query| == |head|
    && head[..2] == query[..2] && head[4..6] == query[4..6] && head[HEADER..] == query[HEADER..]
    && head[2] == 0x81 && head[3] == 0x80 && head[6] == 0 && head[7] == 1
    && head[8] == head[9] == head[10] == head[11] == 0
  }

  lemma {:induction false} ReplyInParts(query: seq<byte>, head: seq<byte>)
    requires HasReplyHeader(query, head)
    ensures head + ANSWER == Reply(query)
  {
    assert head[2..4] == [0x81, 0x80];
    assert head[6..HEADER] == [0, 1, 0, 0, 0, 0];
    assert head == head[..2] + head[2..4] + head[4..6] + head[6..HEADER] + head[HEADER..];
  }

  // ---- what the receiver of a reply sees ----

  datatype Record = Record(name: seq<seq<byte>>, kind: nat, class_: nat, ttl: nat, data: seq<byte>)

  /** The third and fourth byte of the header (section 4.1.1 of RFC 1035), with the last field the response code. */
  datatype Flags = Flags(response: bool, opcode: nat, authoritative: bool, truncated: bool, recursionDesired: bool,
                         recursionAvailable: bool, reserved: nat, code: nat)

  function ReadFlags(high: byte, low: byte): Flags {
    Flags(high >= 128, high / 8 % 16, high / 4 % 2 == 1, high / 2 % 2 == 1, high % 2 == 1,
          low >= 128, low / 16 % 8, low % 16)
  }

  /** A response without error, to a standard query that may recurse. */
  const ANSWERED := Flags(true, 0, false, false, true, true, 0, 0)

  /** A message with one question and one answer. */
  datatype Message = Message(id: (byte, byte), flags: Flags, name: seq<seq<byte>>, kind: nat, class_: nat,
                             answer: Record)

  function Net16(p: seq<byte>, i: nat): nat
    requires i + 2 <= |p|
  {
    0x100 * (p[i] as int) + (p[i + 1] as int)
  }

  /** A name, or a pointer to one. */
  function ReadNameOrPointer(p: seq<byte>, at: nat): (r: Option<(seq<seq<byte>>, nat)>)
    requires at < |p|
    ensures r.Some? ==> r.value.1 <= |p|
  {
    if p[at] < 192 then ReadName(p, at)
    else if at + 1 >= |p| then None
    else
      var target := Net16(p, at) - 0xC000;
      if target >= |p| then None
      else match ReadName(p, target) case None => None case Some((name, _)) => Some((name, at + 2))
  }

  function ReadRecord(p: seq<byte>, at: nat): Option<Record>
    requires at <= |p|
  {
    if at == |p| then None
    else match ReadNameOrPointer(p, at)
      case None => None
      case Some((name, e)) =>
        if e + 10 > |p| then None
        else
          var size := Net16(p, e + 8);
          if e + 10 + size != |p| then None
          else
            var ttl := 0x10000 * Net16(p, e + 4) + Net16(p, e + 6);
            Some(Record(name, Net16(p, e), Net16(p, e + 2), ttl, p[e + 10..]))
  }

  /** Reads a message of exactly one question and one answer record, to its last byte. */
  function ReadMessage(p: seq<byte>): Option<Message> {
    if |p| <= HEADER || Net16(p, 4) != 1 || Net16(p, 6) != 1 || Net16(p, 8) != 0 || Net16(p, 10) != 0 then None
    else match ReadName(p, HEADER)
      case None => None
      case Some((name, e)) =>
        if e + 4 > |p| then None
        else match ReadRecord(p, e + 4)
          case None => None
          case Some(answer) =>
            Some(Message((p[0], p[1]), ReadFlags(p[2], p[3]), name, Net16(p, e), Net16(p, e + 2), answer))
  }

  /** Every reply reads as a response without error, with the query's identifier and name, and one address record
      for that same name. */
  lemma {:induction false} ReplyReads(query: seq<byte>, labels: seq<seq<byte>>)
    requires AsksFor(query, labels)
    ensures ReadMessage(Reply(query)) ==
            Some(Message((query[0], query[1]), ANSWERED, labels, 1, 1, Record(labels, 1, 1, 0, [192, 168, 4, 1])))
  {
    ReplyLayout(query, labels);
    var r, name := Reply(query), Encode(labels);
    HoldsIsSlice(r, HEADER, name);
    EncodedIsRead(r, HEADER, labels);
    MessageFromParts(r, HEADER + |name|, labels);
  }

  /** No reply is itself answered, whatever it is a reply to, so two responders never keep each other busy. */
  lemma {:induction false} RepliesAreNotAnswered(query: seq<byte>, labels: seq<seq<byte>>)
    requires HEADER <= |query|
    ensures !AsksFor(Reply(query), labels)
  {
    assert Reply(query)[2] == 0x81;
  }

  lemma {:induction false} ReplyLayout(query: seq<byte>, labels: seq<seq<byte>>)
    requires AsksFor(query, labels)
    ensures var r, e := Reply(query), HEADER + |Encode(labels)|;
            && r[..2] == query[..2] && r[2] == 0x81 && r[3] == 0x80 && r[4..HEADER] == [0, 1, 0, 1, 0, 0, 0, 0]
            && |r| == e + 4 + |ANSWER| && r[HEADER..e] == Encode(labels) && r[e..e + 4] == TYPE_A_CLASS_IN
            && r[e + 4..] == ANSWER
  {
    var head := query[..2] + [0x81, 0x80] + query[4..6] + [0, 1, 0, 0, 0, 0];
    assert Reply(query) == head + Encode(labels) + TYPE_A_CLASS_IN + ANSWER;
    Cuts(head, Encode(labels), TYPE_A_CLASS_IN, ANSWER);
    assert query[4..6] == [0, 1];
    assert head[4..] == [0, 1, 0, 1, 0, 0, 0, 0];
    assert Reply(query)[4..HEADER] == head[4..];
  }

  lemma {:induction false} Cuts(a: seq<byte>, b: seq<byte>, c: seq<byte>, d: seq<byte>)
    ensures var r, i, j := a + b + c + d, |a| + |b|, |a| + |b| + |c|;
            r[|a|..i] == b && r[i..j] == c && r[j..] == d
  {
  }

  lemma {:induction false} MessageFromParts(r: seq<byte>, e: nat, labels: seq<seq<byte>>)
    requires HEADER < |r| && |r| == e + 4 + |ANSWER| && r[2] == 0x81 && r[3] == 0x80
    requires r[4..HEADER] == [0, 1, 0, 1, 0, 0, 0, 0]
    requires ReadName(r, HEADER) == Some((labels, e)) && r[e..e + 4] == TYPE_A_CLASS_IN && r[e + 4..] == ANSWER
    ensures ReadMessage(r)
            == Some(Message((r[0], r[1]), ANSWERED, labels, 1, 1, Record(labels, 1, 1, 0, [192, 168, 4, 1])))
  {
    TypeAndClass(r, e);
    AnswerReads(r, e + 4, labels);
    CountsRead(r);
    MessageReads(r, e, labels, Record(labels, 1, 1, 0, [192, 168, 4, 1]));
  }

  lemma {:induction false} MessageReads(r: seq<byte>, e: nat, labels: seq<seq<byte>>, answer: Record)
    requires HEADER < |r| && r[2] == 0x81 && r[3] == 0x80 && ReadName(r, HEADER) == Some((labels, e)) && e + 4 <= |r|
    requires Net16(r, 4) == 1 && Net16(r, 6) == 1 && Net16(r, 8) == 0 && Net16(r, 10) == 0
    requires Net16(r, e) == 1 && Net16(r, e + 2) == 1 && ReadRecord(r, e + 4) == Some(answer)
    ensures ReadMessage(r) == Some(Message((r[0], r[1]), ANSWERED, labels, 1, 1, answer))
  {
    assert ReadFlags(0x81, 0x80) == ANSWERED;
  }

  lemma {:induction false} CountsRead(r: seq<byte>)
    requires HEADER <= |r| && r[4..HEADER] == [0, 1, 0, 1, 0, 0, 0, 0]
    ensures Net16(r, 4) == 1 && Net16(r, 6) == 1 && Net16(r, 8) == 0 && Net16(r, 10) == 0
  {
    var t := r[4..HEADER];
    assert t[0] == r[4] && t[1] == r[5] && t[2] == r[6] && t[3] == r[7];
    assert t[4] == r[8] && t[5] == r[9] && t[6] == r[10] && t[7] == r[11];
  }

  lemma {:induction false} TypeAndClass(r: seq<byte>, e: nat)
    requires e + 4 <= |r| && r[e..e + 4] == TYPE_A_CLASS_IN
    ensures Net16(r, e) == 1 && Net16(r, e + 2) == 1
  {
    var t := r[e..e + 4];
    assert t[0] == r[e] && t[1] == r[e + 1] && t[2] == r[e + 2] && t[3] == r[e + 3];
  }

  lemma {:induction false} AnswerReads(r: seq<byte>, at: nat, labels: seq<seq<byte>>)
    requires HEADER < at <= |r| && r[at..] == ANSWER && ReadName(r, HEADER).Some?
             && ReadName(r, HEADER).value.0 == labels
    ensures ReadRecord(r, at) == Some(Record(labels, 1, 1, 0, [192, 168, 4, 1]))
  {
    var t := r[at..];
    assert t[0] == r[at] && t[1] == r[at + 1] && t[2] == r[at + 2] && t[3] == r[at + 3];
    assert t[4] == r[at + 4] && t[5] == r[at + 5] && t[6] == r[at + 6] && t[7] == r[at + 7];
    assert t[8] == r[at + 8] && t[9] == r[at + 9] && t[10] == r[at + 10] && t[11] == r[at + 11];
    assert r[at + 12..] == r[at..][12..] == [192, 168, 4, 1];
  }
}
