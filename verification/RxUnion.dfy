/** The receive memory that both transports share: a websocket buffer whose data bytes are also the
    body buffer of an HTTP fetch. The buffer's three fields lie behind the shared bytes. */
module RxUnion {
  import opened Common
  import opened WsReassembly

  const SIZE := JSON_MAX + 1

  datatype Union = Union(data: seq<byte>, used: nat, frameOffset: nat, active: bool)

  const CLEARED := Union(Repeat<byte>(0, SIZE), 0, 0, false)

  predicate Fits(u: Union) {
    |u.data| == SIZE && u.frameOffset <= u.used <= JSON_MAX && (!u.active ==> u.frameOffset == 0)
  }

  /** The memory read as a websocket buffer. */
  function View(u: Union): (a: Assembly)
    requires Fits(u)
    ensures Sound(a)
  {
    Assembly(u.active, u.frameOffset, u.data[..u.used])
  }

  predicate Clean(u: Union) {
    u.used == 0 && u.frameOffset == 0 && !u.active
  }

  lemma {:induction false} CleanIsIdle(u: Union)
    requires Fits(u)
    ensures Clean(u) <==> View(u) == IDLE
  {
    assert |View(u).bytes| == u.used;
  }

  /** A fetch writes its body over the data bytes and nothing else. */
  function Overwritten(u: Union, body: seq<byte>): Union {
    u.(data := body)
  }

  /** So whatever a fetch leaves in the memory, read as a websocket buffer it is as idle as before. */
  lemma {:induction false} OverwritingKeepsItIdle(u: Union, body: seq<byte>)
    requires Fits(u) && |body| == SIZE && View(u) == IDLE
    ensures Fits(Overwritten(u, body)) && View(Overwritten(u, body)) == IDLE && Overwritten(u, body).data == body
  {
    CleanIsIdle(u);
    CleanIsIdle(Overwritten(u, body));
  }

  /** One chunk received into the memory: a rejection clears the fields, anything else is stored behind
      the bytes in use, and a complete text gets its terminator. */
  function Received(u: Union, c: Chunk): (r: (Union, int))
    requires Fits(u)
    ensures Fits(r.0)
  {
    var (a, result) := Step(View(u), c);
    if result == -1 then (u.(used := 0, frameOffset := 0, active := false), -1)
    else
      ChunkFits(View(u), c);
      var from := if c.opcode == TEXT && c.offset == 0 then 0 else u.used;
      var end := from + |c.data|;
      var stored := u.data[..from] + c.data + u.data[end..];
      (Union(if result == 1 then stored[end := 0] else stored, end, a.frameOffset, a.active), result)
  }

  lemma {:induction false} ChunkFits(a: Assembly, c: Chunk)
    requires Sound(a) && Step(a, c).1 != -1
    ensures var from := if c.opcode == TEXT && c.offset == 0 then 0 else |a.bytes|;
            from + |c.data| <= JSON_MAX && Step(a, c).0.bytes == a.bytes[..from] + c.data
  {
    assert a.bytes[..|a.bytes|] == a.bytes;
    assert a.bytes[..0] + c.data == c.data == [] + c.data;
  }

  /** On the view, that is exactly a step of the reassembly. */
  lemma {:induction false} ReceivingIsAStep(u: Union, c: Chunk)
    requires Fits(u)
    ensures var (v, result) := Received(u, c);
            View(v) == Step(View(u), c).0 && result == Step(View(u), c).1 && (result == 1 ==> v.data[v.used] == 0)
  {
    var (v, result) := Received(u, c);
    if result == -1 {
      CleanIsIdle(v);
    } else {
      ChunkFits(View(u), c);
      var from := if c.opcode == TEXT && c.offset == 0 then 0 else u.used;
      assert View(u).bytes[..from] == u.data[..from];
      assert v.data[..v.used] == u.data[..from] + c.data;
    }
  }
}
