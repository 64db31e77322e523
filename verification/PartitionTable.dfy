/** The binary partition table: 32-byte entries, an optional digest marker, 0xFF to the end. */
module PartitionTable {
  import opened Common

  const FLASH_SIZE := 8 * 1024 * 1024
  const TABLE_SIZE := 0xC00
  const ENTRY_SIZE := 32
  const ENTRIES := TABLE_SIZE / ENTRY_SIZE
  const LABEL_SIZE := 16

  datatype Partition = Partition(kind: byte, subtype: byte, offset: nat, size: nat, name: seq<byte>) {
    function End(): nat { offset + size }
  }

  /** The partitions of a table and whether its digest marker was found, or a value error. */
  datatype Result<T> = Ok(value: T) | ValueError

  // ---- reading ----

  function Le16(e: seq<byte>, i: nat): nat
    requires i + 2 <= |e|
  {
    (e[i] as int) + 0x100 * (e[i + 1] as int)
  }

  function Le32(e: seq<byte>, i: nat): nat
    requires i + 4 <= |e|
  {
    Le16(e, i) + 0x1_0000 * Le16(e, i + 2)
  }

  /** The bytes before the first NUL. */
  function UpToNul(s: seq<byte>): (t: seq<byte>)
    ensures t <= s && 0 !in t
  {
    if s == [] || s[0] == 0 then [] else [s[0]] + UpToNul(s[1..])
  }

  predicate Ascii(s: seq<byte>) {
    forall b | b in s :: b < 128
  }

  predicate InBounds(p: Partition, minimum: int) {
    p.name != [] && p.size != 0 && minimum <= p.offset && p.End() <= FLASH_SIZE
  }

  function ReadEntry(e: seq<byte>, minimum: int): Result<Partition>
    requires |e| == ENTRY_SIZE
  {
    var name := UpToNul(e[12..28]);
    var p := Partition(e[2], e[3], Le32(e, 4), Le32(e, 8), name);
    if !Ascii(name) || !InBounds(p, minimum) then ValueError else Ok(p)
  }

  function Entry(raw: seq<byte>, k: nat): (e: seq<byte>)
    requires k < ENTRIES && TABLE_SIZE <= |raw|
    ensures |e| == ENTRY_SIZE
  {
    raw[ENTRY_SIZE * k..ENTRY_SIZE * k + ENTRY_SIZE]
  }

  /** The partitions from entry `k` on, up to the end marker. */
  function ReadEntries(raw: seq<byte>, k: nat, minimum: int, md5: Digest): Result<(seq<Partition>, bool)>
    requires k <= ENTRIES && TABLE_SIZE <= |raw|
    decreases ENTRIES - k
  {
    if k == ENTRIES then Ok(([], false))
    else
      var e := Entry(raw, k);
      var magic := Le16(e, 0);
      if magic == 0xFFFF then Ok(([], false))
      else if magic == 0xEBEB then
        if e[16..] != md5(raw[..ENTRY_SIZE * k]) then ValueError else Ok(([], true))
      else if magic != 0x50AA then ValueError
      else match ReadEntry(e, minimum)
        case ValueError => ValueError
        case Ok(p) => Prepend([p], ReadEntries(raw, k + 1, minimum, md5))
  }

  function Prepend(ps: seq<Partition>, r: Result<(seq<Partition>, bool)>): Result<(seq<Partition>, bool)> {
    match r case ValueError => ValueError case Ok((rest, found)) => Ok((ps + rest, found))
  }

  function Parsed(raw: seq<byte>, minimum: int, md5: Digest): Result<(seq<Partition>, bool)> {
    if |raw| < TABLE_SIZE then ValueError
    else match ReadEntries(raw, 0, minimum, md5)
      case ValueError => ValueError
      case Ok((ps, found)) => if ps == [] then ValueError else Ok((ps, found))
  }

  method Parse(raw: seq<byte>, minimum: int, md5: Digest) returns (r: Result<(seq<Partition>, bool)>)
    ensures r == Parsed(raw, minimum, md5)
  {
    if |raw| < TABLE_SIZE { return ValueError; }
    r := TakeEntries(raw, minimum, md5);
    if r.Ok? && r.value.0 == [] { return ValueError; }
  }

  /** The loop over the entries. */
  method TakeEntries(raw: seq<byte>, minimum: int, md5: Digest) returns (r: Result<(seq<Partition>, bool)>)
    requires TABLE_SIZE <= |raw|
    ensures r == ReadEntries(raw, 0, minimum, md5)
  {
    var partitions: seq<Partition> := [];
    PrependNothing(ReadEntries(raw, 0, minimum, md5));
    for k := 0 to ENTRIES
      invariant ReadEntries(raw, 0, minimum, md5) == Prepend(partitions, ReadEntries(raw, k, minimum, md5))
    {
      var next := TakeEntry(raw, k, minimum, md5);
      match next {
        case Bad => return ValueError;
        case Last(found) =>
          NothingAfter(partitions, found);
          return Ok((partitions, found));
        case One(p) =>
          PrependTwice(partitions, [p], ReadEntries(raw, k + 1, minimum, md5));
          partitions := partitions + [p];
      }
    }
    NothingAfter(partitions, false);
    return Ok((partitions, false));
  }

  /** An entry is bad, or the last one (with its digest or without), or one partition. */
  datatype Taken = Bad | Last(found: bool) | One(p: Partition)

  method TakeEntry(raw: seq<byte>, k: nat, minimum: int, md5: Digest) returns (t: Taken)
    requires k < ENTRIES && TABLE_SIZE <= |raw|
    ensures ReadEntries(raw, k, minimum, md5) ==
            match t
            case Bad => ValueError
            case Last(found) => Ok(([], found))
            case One(p) => Prepend([p], ReadEntries(raw, k + 1, minimum, md5))
  {
    var entry := raw[ENTRY_SIZE * k..ENTRY_SIZE * k + ENTRY_SIZE];
    assert entry == Entry(raw, k);
    var magic := Le16(entry, 0);
    if magic == 0xFFFF { return Last(false); }
    if magic == 0xEBEB {
      if entry[16..] != md5(raw[..ENTRY_SIZE * k]) { return Bad; }
      return Last(true);
    }
    if magic != 0x50AA { return Bad; }
    var p := TakePartition(entry, minimum);
    return if p.Ok? then One(p.value) else Bad;
  }

  lemma {:induction false} NothingAfter(ps: seq<Partition>, found: bool)
    ensures Prepend(ps, Ok(([], found))) == Ok((ps, found))
  {
    assert ps + [] == ps;
  }

  method TakePartition(entry: seq<byte>, minimum: int) returns (r: Result<Partition>)
    requires |entry| == ENTRY_SIZE
    ensures r == ReadEntry(entry, minimum)
  {
    var name := UpToNul(entry[12..28]);
    if !Ascii(name) { return ValueError; }
    var p := Partition(entry[2], entry[3], Le32(entry, 4), Le32(entry, 8), name);
    if name == [] || p.size == 0 || p.offset < minimum || p.offset + p.size > FLASH_SIZE { return ValueError; }
    return Ok(p);
  }

  lemma {:induction false} PrependNothing(r: Result<(seq<Partition>, bool)>)
    ensures Prepend([], r) == r
  {
    if r.Ok? { assert [] + r.value.0 == r.value.0; }
  }

  lemma {:induction false} PrependTwice(ps: seq<Partition>, qs: seq<Partition>, r: Result<(seq<Partition>, bool)>)
    ensures Prepend(ps, Prepend(qs, r)) == Prepend(ps + qs, r)
  {
    if r.Ok? { assert ps + (qs + r.value.0) == ps + qs + r.value.0; }
  }

  // ---- reading is exact ----

  /** The bytes of an entry, one by one: its marker, type, subtype, little-endian offset and size, and a name of
      ASCII characters up to the first NUL; and the bounds that the partition must keep. */
  predicate Describes(e: seq<byte>, p: Partition, minimum: int)
    requires |e| == 32
  {
    && e[0] == 0xAA && e[1] == 0x50 && p.kind == e[2] && p.subtype == e[3]
    && p.offset == (e[4] as int) + 0x100 * (e[5] as int) + 0x1_0000 * (e[6] as int) + 0x100_0000 * (e[7] as int)
    && p.size == (e[8] as int) + 0x100 * (e[9] as int) + 0x1_0000 * (e[10] as int) + 0x100_0000 * (e[11] as int)
    && IsLabel(p.name, e[12..28])
    && p.size > 0 && minimum <= p.offset && p.offset + p.size <= 0x80_0000
  }

  predicate IsLabel(name: seq<byte>, field: seq<byte>) {
    && 0 < |name| <= |field| && name == field[..|name|] && (|name| < |field| ==> field[|name|] == 0)
    && forall b | b in name :: 0 < b < 128
  }

  lemma {:induction false} LabelIsExact(name: seq<byte>, field: seq<byte>)
    ensures name != [] && name == UpToNul(field) && Ascii(name) <==> IsLabel(name, field)
  {
    UpToNulEnds(field);
    if IsLabel(name, field) {
      FirstNul(field, |name|);
      assert name == UpToNul(field);
    }
  }

  lemma {:induction false} UpToNulEnds(field: seq<byte>)
    ensures var n := |UpToNul(field)|;
            n <= |field| && UpToNul(field) == field[..n] && (n < |field| ==> field[n] == 0)
  {
    if field != [] && field[0] != 0 {
      UpToNulEnds(field[1..]);
      var n := |UpToNul(field[1..])|;
      assert field[..n + 1] == [field[0]] + field[1..][..n];
    }
  }

  lemma {:induction false} FirstNul(field: seq<byte>, n: nat)
    requires n <= |field| && 0 !in field[..n] && (n < |field| ==> field[n] == 0)
    ensures UpToNul(field) == field[..n]
    decreases n
  {
    if n > 0 {
      assert field[0] == field[..n][0];
      assert field[1..][..n - 1] == field[..n][1..];
      FirstNul(field[1..], n - 1);
    }
  }

  lemma {:induction false} EntryIsExact(e: seq<byte>, p: Partition, minimum: int)
    requires |e| == 32
    ensures Le16(e, 0) == 0x50AA && ReadEntry(e, minimum) == Ok(p) <==> Describes(e, p, minimum)
  {
    LabelIsExact(p.name, e[12..28]);
    LabelIsExact(UpToNul(e[12..28]), e[12..28]);
  }

  /** From entry `k` on: these partitions, and then the end, which is a marker over all bytes before it, an entry
      that begins with 0xFF twice, or the end of the table. */
  ghost predicate TableFrom(raw: seq<byte>, k: nat, ps: seq<Partition>, found: bool, minimum: int, md5: Digest) {
    && 3072 <= |raw| && k + |ps| <= 96
    && (forall j | 0 <= j < |ps| :: Describes(raw[32 * (k + j)..32 * (k + j) + 32], ps[j], minimum))
    && TableEnds(raw, k + |ps|, found, md5)
  }

  predicate TableEnds(raw: seq<byte>, n: nat, found: bool, md5: Digest)
    requires 3072 <= |raw| && n <= 96
  {
    if n == 96 then !found
    else if found then raw[32 * n] == raw[32 * n + 1] == 0xEB && raw[32 * n + 16..32 * n + 32] == md5(raw[..32 * n])
    else raw[32 * n] == raw[32 * n + 1] == 0xFF
  }

  lemma {:induction false} EntriesEnd(raw: seq<byte>, k: nat, found: bool, minimum: int, md5: Digest)
    requires k <= ENTRIES && TABLE_SIZE <= |raw|
    ensures ReadEntries(raw, k, minimum, md5) == Ok(([], found)) <==> TableEnds(raw, k, found, md5)
  {
    if k < ENTRIES {
      var e := Entry(raw, k);
      assert e[0] == raw[32 * k] && e[1] == raw[32 * k + 1];
      assert e[16..] == raw[32 * k + 16..32 * k + 32];
    }
  }

  lemma {:induction false} EntriesGoOn(raw: seq<byte>, k: nat, ps: seq<Partition>, found: bool, minimum: int,
                                       md5: Digest)
    requires k < ENTRIES && TABLE_SIZE <= |raw| && ps != []
    ensures ReadEntries(raw, k, minimum, md5) == Ok((ps, found)) <==>
            Describes(Entry(raw, k), ps[0], minimum) && ReadEntries(raw, k + 1, minimum, md5) == Ok((ps[1..], found))
  {
    EntryIsExact(Entry(raw, k), ps[0], minimum);
    assert ps == [ps[0]] + ps[1..];
    var rest := ReadEntries(raw, k + 1, minimum, md5);
    if rest.Ok? {
      assert forall p :: ([p] + rest.value.0)[1..] == rest.value.0;
    }
  }

  lemma {:induction false} EntriesAreExact(raw: seq<byte>, k: nat, ps: seq<Partition>, found: bool, minimum: int,
                                           md5: Digest)
    requires k <= ENTRIES && TABLE_SIZE <= |raw|
    ensures ReadEntries(raw, k, minimum, md5) == Ok((ps, found)) <==> TableFrom(raw, k, ps, found, minimum, md5)
    decreases |ps|
  {
    if ps == [] {
      EntriesEnd(raw, k, found, minimum, md5);
    } else if k < ENTRIES {
      EntriesGoOn(raw, k, ps, found, minimum, md5);
      EntriesAreExact(raw, k + 1, ps[1..], found, minimum, md5);
      TableGoesOn(raw, k, ps, found, minimum, md5);
    }
  }

  lemma {:induction false} TableGoesOn(raw: seq<byte>, k: nat, ps: seq<Partition>, found: bool, minimum: int,
                                       md5: Digest)
    requires k < ENTRIES && TABLE_SIZE <= |raw| && ps != []
    ensures TableFrom(raw, k, ps, found, minimum, md5) <==>
            Describes(Entry(raw, k), ps[0], minimum) && TableFrom(raw, k + 1, ps[1..], found, minimum, md5)
  {
    if TableFrom(raw, k, ps, found, minimum, md5) {
      assert Describes(raw[32 * (k + 0)..32 * (k + 0) + 32], ps[0], minimum);
      forall j | 0 <= j < |ps[1..]|
        ensures Describes(raw[32 * (k + 1 + j)..32 * (k + 1 + j) + 32], ps[1..][j], minimum)
      {
        assert Describes(raw[32 * (k + (j + 1))..32 * (k + (j + 1)) + 32], ps[j + 1], minimum);
      }
    }
    if Describes(Entry(raw, k), ps[0], minimum) && TableFrom(raw, k + 1, ps[1..], found, minimum, md5) {
      forall j | 0 <= j < |ps|
        ensures Describes(raw[32 * (k + j)..32 * (k + j) + 32], ps[j], minimum)
      {
        if j > 0 {
          assert Describes(raw[32 * (k + 1 + (j - 1))..32 * (k + 1 + (j - 1)) + 32], ps[1..][j - 1], minimum);
        }
      }
    }
  }

  /** A table parses to these partitions if and only if it is at least 3072 bytes that hold at least one entry,
      all describe them, and the table ends properly: a digest marker with any other digest, like any other
      entry, makes the whole table an error. */
  lemma {:induction false} ParsedExactly(raw: seq<byte>, ps: seq<Partition>, found: bool, minimum: int, md5: Digest)
    ensures Parsed(raw, minimum, md5) == Ok((ps, found)) <==>
            ps != [] && TableFrom(raw, 0, ps, found, minimum, md5)
  {
    if TABLE_SIZE <= |raw| { EntriesAreExact(raw, 0, ps, found, minimum, md5); }
  }

  /** Whatever parses is in bounds. */
  lemma {:induction false} ReadEntriesInBounds(raw: seq<byte>, k: nat, minimum: int, md5: Digest)
    requires k <= ENTRIES && TABLE_SIZE <= |raw| && ReadEntries(raw, k, minimum, md5).Ok?
    ensures forall p | p in ReadEntries(raw, k, minimum, md5).value.0 :: InBounds(p, minimum)
    decreases ENTRIES - k
  {
    if k < ENTRIES && Le16(Entry(raw, k), 0) == 0x50AA {
      ReadEntriesInBounds(raw, k + 1, minimum, md5);
    }
  }

  // ---- writing ----

  function Le16Bytes(n: nat): seq<byte>
    requires n < 0x1_0000
  {
    [n % 0x100, n / 0x100]
  }

  function Le32Bytes(n: nat): seq<byte>
    requires n < 0x1_0000_0000
  {
    Le16Bytes(n % 0x1_0000) + Le16Bytes(n / 0x1_0000)
  }

  /** What a table entry can hold: a NUL-free ASCII name of 1 to 16 bytes, and a place in the flash. */
  predicate Writable(p: Partition) {
    0 < |p.name| <= LABEL_SIZE && 0 !in p.name && Ascii(p.name) && p.size != 0 && p.End() <= FLASH_SIZE
  }

  predicate AllWritable(ps: seq<Partition>) {
    forall p | p in ps :: Writable(p)
  }

  function WriteEntry(p: Partition): (e: seq<byte>)
    requires Writable(p)
    ensures |e| == ENTRY_SIZE
  {
    [0xAA, 0x50, p.kind, p.subtype] + Le32Bytes(p.offset) + Le32Bytes(p.size)
    + (p.name + Repeat<byte>(0, LABEL_SIZE - |p.name|)) + Repeat<byte>(0, 4)
  }

  function WriteEntries(ps: seq<Partition>): (s: seq<byte>)
    requires AllWritable(ps)
    ensures |s| == ENTRY_SIZE * |ps|
  {
    if ps == [] then []
    else
      assert ps[|ps| - 1] in ps;
      WriteEntries(ps[..|ps| - 1]) + WriteEntry(ps[|ps| - 1])
  }

  /** The marker entry for a digest. */
  function Marker(digest: seq<byte>): (e: seq<byte>)
    requires |digest| == 16
    ensures |e| == ENTRY_SIZE && Le16(e, 0) == 0xEBEB && e[16..] == digest
  {
    [0xEB, 0xEB] + Repeat<byte>(0xFF, 14) + digest
  }

  /** Entries, then the marker with the digest of everything before it, then 0xFF. */
  function WriteTable(ps: seq<Partition>, md5: Digest): (raw: seq<byte>)
    requires AllWritable(ps) && |ps| < ENTRIES && |md5(WriteEntries(ps))| == 16
    ensures |raw| == TABLE_SIZE
  {
    WriteEntries(ps) + Marker(md5(WriteEntries(ps))) + Repeat<byte>(0xFF, TABLE_SIZE - ENTRY_SIZE * (|ps| + 1))
  }

  // ---- reading inverts writing ----

  lemma {:induction false} Le32ReadsBack(n: nat, e: seq<byte>, i: nat)
    requires n < 0x1_0000_0000 && i + 4 <= |e| && e[i..i + 4] == Le32Bytes(n)
    ensures Le32(e, i) == n
  {
    var low, high := n % 0x1_0000, n / 0x1_0000;
    assert e[i] == e[i..i + 4][0] && e[i + 1] == e[i..i + 4][1] && e[i + 2] == e[i..i + 4][2]
           && e[i + 3] == e[i..i + 4][3];
    assert Le16(e, i) == low && Le16(e, i + 2) == high;
  }

  lemma {:induction false} LabelReadsBack(name: seq<byte>, padding: nat)
    requires 0 !in name
    ensures UpToNul(name + Repeat<byte>(0, padding)) == name
    decreases |name|
  {
    if name == [] {
      assert name + Repeat<byte>(0, padding) == Repeat<byte>(0, padding);
    } else {
      assert (name + Repeat<byte>(0, padding))[1..] == name[1..] + Repeat<byte>(0, padding);
      LabelReadsBack(name[1..], padding);
    }
  }

  lemma {:induction false} EntryReadsBack(p: Partition, minimum: int)
    requires Writable(p) && minimum <= p.offset
    ensures Le16(WriteEntry(p), 0) == 0x50AA && ReadEntry(WriteEntry(p), minimum) == Ok(p)
  {
    var e := WriteEntry(p);
    EntryLayout(p);
    Le32ReadsBack(p.offset, e, 4);
    Le32ReadsBack(p.size, e, 8);
    LabelReadsBack(p.name, LABEL_SIZE - |p.name|);
    FieldsDecide(e, p, minimum);
  }

  lemma {:induction false} EntryLayout(p: Partition)
    requires Writable(p)
    ensures var e := WriteEntry(p);
            && e[0] == 0xAA && e[1] == 0x50 && e[2] == p.kind && e[3] == p.subtype
            && e[4..8] == Le32Bytes(p.offset) && e[8..12] == Le32Bytes(p.size)
            && e[12..28] == p.name + Repeat<byte>(0, LABEL_SIZE - |p.name|)
  {
  }

  lemma {:induction false} FieldsDecide(e: seq<byte>, p: Partition, minimum: int)
    requires |e| == ENTRY_SIZE && Writable(p) && minimum <= p.offset
    requires e[0] == 0xAA && e[1] == 0x50 && e[2] == p.kind && e[3] == p.subtype
    requires Le32(e, 4) == p.offset && Le32(e, 8) == p.size && UpToNul(e[12..28]) == p.name
    ensures Le16(e, 0) == 0x50AA && ReadEntry(e, minimum) == Ok(p)
  {
  }

  lemma {:induction false} EntryInPlace(ps: seq<Partition>, k: nat)
    requires AllWritable(ps) && k < |ps|
    ensures ps[k] in ps && WriteEntries(ps)[ENTRY_SIZE * k..ENTRY_SIZE * k + ENTRY_SIZE] == WriteEntry(ps[k])
    decreases |ps|
  {
    var front := ps[..|ps| - 1];
    if k < |front| {
      EntryInPlace(front, k);
      assert WriteEntries(ps)[ENTRY_SIZE * k..ENTRY_SIZE * k + ENTRY_SIZE]
          == WriteEntries(front)[ENTRY_SIZE * k..ENTRY_SIZE * k + ENTRY_SIZE];
    }
  }

  /** A table holds these partitions, followed by a marker over the bytes before it. */
  ghost predicate Holds(raw: seq<byte>, ps: seq<Partition>, minimum: int, md5: Digest)
    requires TABLE_SIZE <= |raw| && |ps| < ENTRIES
  {
    && (forall k | 0 <= k < |ps| :: EntryHolds(Entry(raw, k), ps[k], minimum))
    && Le16(Entry(raw, |ps|), 0) == 0xEBEB
    && Entry(raw, |ps|)[16..] == md5(raw[..ENTRY_SIZE * |ps|])
  }

  ghost predicate EntryHolds(e: seq<byte>, p: Partition, minimum: int)
    requires |e| == ENTRY_SIZE
  {
    Le16(e, 0) == 0x50AA && ReadEntry(e, minimum) == Ok(p)
  }

  lemma {:induction false} TableHolds(ps: seq<Partition>, minimum: int, md5: Digest)
    requires AllWritable(ps) && |ps| < ENTRIES && |md5(WriteEntries(ps))| == 16
    requires forall p | p in ps :: minimum <= p.offset
    ensures Holds(WriteTable(ps, md5), ps, minimum, md5)
  {
    var raw, entries := WriteTable(ps, md5), WriteEntries(ps);
    assert raw[..ENTRY_SIZE * |ps|] == entries;
    assert Entry(raw, |ps|) == Marker(md5(entries));
    forall k | 0 <= k < |ps|
      ensures EntryHolds(Entry(raw, k), ps[k], minimum)
    {
      EntryInPlace(ps, k);
      assert Entry(raw, k) == entries[ENTRY_SIZE * k..ENTRY_SIZE * k + ENTRY_SIZE];
      EntryReadsBack(ps[k], minimum);
    }
  }

  lemma {:induction false} EntriesReadBack(raw: seq<byte>, ps: seq<Partition>, minimum: int, md5: Digest, k: nat)
    requires TABLE_SIZE <= |raw| && |ps| < ENTRIES && Holds(raw, ps, minimum, md5) && k <= |ps|
    ensures ReadEntries(raw, k, minimum, md5) == Ok((ps[k..], true))
    decreases |ps| - k
  {
    if k < |ps| {
      EntriesReadBack(raw, ps, minimum, md5, k + 1);
      OneMoreEntry(raw, ps, minimum, md5, k);
    } else {
      MarkerEnds(raw, ps, minimum, md5);
    }
  }

  lemma {:induction false} OneMoreEntry(raw: seq<byte>, ps: seq<Partition>, minimum: int, md5: Digest, k: nat)
    requires TABLE_SIZE <= |raw| && k < |ps| < ENTRIES && Holds(raw, ps, minimum, md5)
    requires ReadEntries(raw, k + 1, minimum, md5) == Ok((ps[k + 1..], true))
    ensures ReadEntries(raw, k, minimum, md5) == Ok((ps[k..], true))
  {
    assert EntryHolds(Entry(raw, k), ps[k], minimum);
    assert ps[k..] == [ps[k]] + ps[k + 1..];
  }

  lemma {:induction false} MarkerEnds(raw: seq<byte>, ps: seq<Partition>, minimum: int, md5: Digest)
    requires TABLE_SIZE <= |raw| && |ps| < ENTRIES && Holds(raw, ps, minimum, md5)
    ensures ReadEntries(raw, |ps|, minimum, md5) == Ok((ps[|ps|..], true))
  {
    assert ps[|ps|..] == [];
  }

  /** A table of up to 95 writable partitions parses back to the same partitions, with its digest found. */
  lemma {:induction false} TableReadsBack(ps: seq<Partition>, minimum: int, md5: Digest)
    requires AllWritable(ps) && 1 <= |ps| < ENTRIES && |md5(WriteEntries(ps))| == 16
    requires forall p | p in ps :: minimum <= p.offset
    ensures Parsed(WriteTable(ps, md5), minimum, md5) == Ok((ps, true))
  {
    TableHolds(ps, minimum, md5);
    EntriesReadBack(WriteTable(ps, md5), ps, minimum, md5, 0);
    assert ps[0..] == ps;
  }
}
