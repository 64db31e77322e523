/** The checks on a merged firmware image: sorted-neighbour comparisons that must mean that nothing
    overlaps anywhere, and that everything sits where it should. */
module FirmwareLayout {
  import opened Common
  import opened PartitionTable

  // ---- spans of flash ----

  datatype Span = Span(start: int, end: int)

  predicate Apart(a: Span, b: Span) {
    a.end <= b.start || b.end <= a.start
  }

  ghost predicate AllApart(s: seq<Span>) {
    forall i, j | 0 <= i < j < |s| :: Apart(s[i], s[j])
  }

  ghost predicate NoneEmpty(s: seq<Span>) {
    forall x | x in s :: x.start < x.end
  }

  ghost predicate ByStart(s: seq<Span>) {
    forall i, j | 0 <= i < j < |s| :: s[i].start <= s[j].start
  }

  function Insert(x: Span, s: seq<Span>): (t: seq<Span>)
    ensures |t| == |s| + 1
  {
    if s == [] || x.start <= s[0].start then [x] + s else [s[0]] + Insert(x, s[1..])
  }

  function SortByStart(s: seq<Span>): (t: seq<Span>)
    ensures |t| == |s|
  {
    if s == [] then [] else Insert(s[0], SortByStart(s[1..]))
  }

  /** The comparison of each span with its right neighbour. */
  predicate NeighboursApart(s: seq<Span>) {
    forall i | 0 < i < |s| :: s[i - 1].end <= s[i].start
  }

  lemma {:induction false} InsertKeepsMembers(x: Span, s: seq<Span>, y: Span)
    ensures y in Insert(x, s) <==> y == x || y in s
  {
    if s != [] && s[0].start < x.start {
      InsertKeepsMembers(x, s[1..], y);
      assert s == [s[0]] + s[1..];
    }
  }

  lemma {:induction false} SortKeepsMembers(s: seq<Span>, y: Span)
    ensures y in SortByStart(s) <==> y in s
  {
    if s != [] {
      SortKeepsMembers(s[1..], y);
      InsertKeepsMembers(s[0], SortByStart(s[1..]), y);
      assert s == [s[0]] + s[1..];
    }
  }

  lemma {:induction false} InsertSorts(x: Span, s: seq<Span>)
    requires ByStart(s)
    ensures ByStart(Insert(x, s))
  {
    if s != [] && s[0].start < x.start {
      InsertSorts(x, s[1..]);
      var rest := Insert(x, s[1..]);
      forall y | y in rest
        ensures s[0].start <= y.start
      {
        InsertKeepsMembers(x, s[1..], y);
      }
    }
  }

  lemma {:induction false} SortSorts(s: seq<Span>)
    ensures ByStart(SortByStart(s))
  {
    if s != [] {
      SortSorts(s[1..]);
      InsertSorts(s[0], SortByStart(s[1..]));
    }
  }

  lemma {:induction false} ApartByHead(x: Span, s: seq<Span>)
    ensures AllApart([x] + s) <==> AllApart(s) && forall y | y in s :: Apart(x, y)
  {
    var t := [x] + s;
    if AllApart(t) {
      forall i, j | 0 <= i < j < |s| ensures Apart(s[i], s[j]) { assert Apart(t[i + 1], t[j + 1]); }
      forall y | y in s
        ensures Apart(x, y)
      {
        var j :| 0 <= j < |s| && s[j] == y;
        assert Apart(t[0], t[j + 1]);
      }
    }
  }

  lemma {:induction false} InsertKeepsApart(x: Span, s: seq<Span>)
    ensures AllApart(Insert(x, s)) <==> AllApart([x] + s)
  {
    if s != [] && s[0].start < x.start {
      var rest := s[1..];
      InsertKeepsApart(x, rest);
      ApartByHead(s[0], Insert(x, rest));
      ApartByHead(x, rest);
      ApartByHead(x, s);
      ApartByHead(s[0], rest);
      assert s == [s[0]] + rest;
      forall y ensures y in Insert(x, rest) <==> y == x || y in rest { InsertKeepsMembers(x, rest, y); }
      assert Apart(x, s[0]) <==> Apart(s[0], x);
    }
  }

  lemma {:induction false} SortKeepsApart(s: seq<Span>)
    ensures AllApart(SortByStart(s)) <==> AllApart(s)
  {
    if s != [] {
      var rest := s[1..];
      SortKeepsApart(rest);
      InsertKeepsApart(s[0], SortByStart(rest));
      ApartByHead(s[0], SortByStart(rest));
      ApartByHead(s[0], rest);
      forall y ensures y in SortByStart(rest) <==> y in rest { SortKeepsMembers(rest, y); }
      assert s == [s[0]] + rest;
    }
  }

  lemma {:induction false} NeighboursReachFar(s: seq<Span>, i: nat, j: nat)
    requires ByStart(s) && NeighboursApart(s) && i < j < |s|
    ensures s[i].end <= s[j].start
  {
    assert s[i].end <= s[i + 1].start <= s[j].start;
  }

  /** Comparing neighbours after sorting is exactly comparing all pairs, for spans that are not empty. */
  lemma {:induction false} NeighboursSuffice(s: seq<Span>)
    requires NoneEmpty(s)
    ensures NeighboursApart(SortByStart(s)) <==> AllApart(s)
  {
    var t := SortByStart(s);
    SortSorts(s);
    SortKeepsApart(s);
    if NeighboursApart(t) {
      forall i, j | 0 <= i < j < |t| ensures Apart(t[i], t[j]) { NeighboursReachFar(t, i, j); }
    }
    if AllApart(t) {
      forall i | 0 < i < |t|
        ensures t[i - 1].end <= t[i].start
      {
        assert Apart(t[i - 1], t[i]) && t[i - 1].start <= t[i].start;
        SortKeepsMembers(s, t[i]);
        assert t[i] in t;
      }
    }
  }

  method CheckNeighbours(spans: seq<Span>) returns (ok: bool)
    requires NoneEmpty(spans)
    ensures ok <==> AllApart(spans)
  {
    NeighboursSuffice(spans);
    var ordered := SortByStart(spans);
    var i := 1;
    while i < |ordered|
      invariant 1 <= i
      invariant forall j | 0 < j < i && j < |ordered| :: ordered[j - 1].end <= ordered[j].start
    {
      if ordered[i - 1].end > ordered[i].start { return false; }
      i := i + 1;
    }
    return true;
  }

  // ---- images ----

  const BOOTLOADER := "bootloader/bootloader.bin"
  const TABLE_IMAGE := "partition_table/partition-table.bin"
  const APP_IMAGE := "FoloToy-AI-Passport.bin"

  const TABLE_SECTOR := 0x1000
  const APP_MAGIC: byte := 0xE9

  type Files = map<string, seq<byte>>

  /** An entry of the flash arguments. Their names are distinct. */
  datatype Image = Image(name: string, offset: int)

  ghost predicate Distinct(images: seq<Image>) {
    forall i, j | 0 <= i < j < |images| :: images[i].name != images[j].name
  }

  ghost predicate InFlash(image: Image, files: Files) {
    image.name in files && files[image.name] != [] && 0 <= image.offset
    && image.offset + |files[image.name]| <= FLASH_SIZE
  }

  ghost predicate AllInFlash(images: seq<Image>, files: Files) {
    forall i | 0 <= i < |images| :: InFlash(images[i], files)
  }

  /** Where the images lie. */
  function ImageSpans(images: seq<Image>, files: Files): (spans: seq<Span>)
    ensures |spans| == |images|
  {
    seq(|images|, i requires 0 <= i < |images| => SpanOf(images[i], files))
  }

  function SpanOf(image: Image, files: Files): Span {
    Span(image.offset, image.offset + if image.name in files then |files[image.name]| else 0)
  }

  ghost predicate Merged(image: Image, files: Files, merged: seq<byte>)
    requires InFlash(image, files)
  {
    var end := image.offset + |files[image.name]|;
    end <= |merged| && merged[image.offset..end] == files[image.name]
  }

  ghost predicate ImagesGood(merged: seq<byte>, images: seq<Image>, files: Files) {
    && AllInFlash(images, files)
    && AllApart(ImageSpans(images, files))
    && forall i | 0 <= i < |images| :: Merged(images[i], files, merged)
  }

  /** A slice as Python takes it: cut off at the end of the sequence. */
  function Slice(s: seq<byte>, from: nat, to: nat): seq<byte>
    requires from <= to
  {
    if |s| <= from then [] else if |s| <= to then s[from..] else s[from..to]
  }

  method VerifyImages(merged: seq<byte>, images: seq<Image>, files: Files) returns (ok: bool)
    ensures ok <==> ImagesGood(merged, images, files)
  {
    for i := 0 to |images|
      invariant forall j | 0 <= j < i :: InFlash(images[j], files)
    {
      var name, offset := images[i].name, images[i].offset;
      if name !in files { return false; }
      var size := |files[name]|;
      if size == 0 || offset < 0 || offset + size > FLASH_SIZE { return false; }
    }
    assert NoneEmpty(ImageSpans(images, files)) by {
      forall x | x in ImageSpans(images, files)
        ensures x.start < x.end
      {
        var i :| 0 <= i < |images| && x == SpanOf(images[i], files);
        assert InFlash(images[i], files);
      }
    }
    var apart := CheckNeighbours(ImageSpans(images, files));
    if !apart { return false; }
    for i := 0 to |images|
      invariant forall j | 0 <= j < i :: Merged(images[j], files, merged)
    {
      assert InFlash(images[i], files);
      var image, offset := files[images[i].name], images[i].offset;
      if Slice(merged, offset, offset + |image|) != image {
        assert !Merged(images[i], files, merged);
        return false;
      }
    }
    return true;
  }

  // ---- partitions ----

  function PartitionSpans(ps: seq<Partition>): (spans: seq<Span>)
    ensures |spans| == |ps|
  {
    seq(|ps|, i requires 0 <= i < |ps| => Span(ps[i].offset, ps[i].End()))
  }

  ghost predicate NamesDiffer(ps: seq<Partition>) {
    forall i, j | 0 <= i < j < |ps| :: ps[i].name != ps[j].name
  }

  predicate IsAppAt(p: Partition, offset: int) {
    p.kind == 0 && p.offset == offset
  }

  /** Exactly one application partition starts at the application image, and it is large enough. */
  ghost predicate AppFits(ps: seq<Partition>, offset: int, size: nat) {
    exists i :: 0 <= i < |ps| && IsAppAt(ps[i], offset) && size <= ps[i].size
                && forall j | 0 <= j < |ps| && IsAppAt(ps[j], offset) :: j == i
  }

  ghost predicate LayoutGood(merged: seq<byte>, table: nat, appOffset: int, appSize: nat, ps: seq<Partition>,
                             md5: Digest) {
    && Parsed(Slice(merged, table, table + TABLE_SIZE), table + TABLE_SECTOR, md5) == Ok((ps, true))
    && NamesDiffer(ps)
    && AllApart(PartitionSpans(ps))
    && AppFits(ps, appOffset, appSize)
    && 0 <= appOffset < |merged| && merged[appOffset] == APP_MAGIC
  }

  method CheckNames(ps: seq<Partition>) returns (ok: bool)
    ensures ok <==> NamesDiffer(ps)
  {
    var names: set<seq<byte>> := {};
    for i := 0 to |ps|
      invariant forall n :: n in names <==> exists j :: 0 <= j < i && ps[j].name == n
      invariant forall j, k | 0 <= j < k < i :: ps[j].name != ps[k].name
    {
      if ps[i].name in names { return false; }
      names := names + {ps[i].name};
    }
    return true;
  }

  method FindApp(ps: seq<Partition>, offset: int) returns (matching: seq<nat>)
    ensures forall i :: i in matching <==> 0 <= i < |ps| && IsAppAt(ps[i], offset)
    ensures forall a, b | 0 <= a < b < |matching| :: matching[a] != matching[b]
  {
    matching := [];
    for i := 0 to |ps|
      invariant forall k :: k in matching <==> 0 <= k < i && IsAppAt(ps[k], offset)
      invariant forall a, b | 0 <= a < b < |matching| :: matching[a] != matching[b]
    {
      if IsAppAt(ps[i], offset) { matching := matching + [i]; }
    }
  }

  lemma {:induction false} ParsedInBounds(raw: seq<byte>, minimum: int, md5: Digest)
    requires Parsed(raw, minimum, md5).Ok?
    ensures forall p | p in Parsed(raw, minimum, md5).value.0 :: InBounds(p, minimum)
  {
    ReadEntriesInBounds(raw, 0, minimum, md5);
  }

  method VerifyLayout(merged: seq<byte>, table: nat, appOffset: int, appSize: nat, md5: Digest)
    returns (r: Result<seq<Partition>>)
    ensures r.Ok? ==> LayoutGood(merged, table, appOffset, appSize, r.value, md5)
    ensures r.ValueError? ==> forall ps :: !LayoutGood(merged, table, appOffset, appSize, ps, md5)
  {
    var raw := Slice(merged, table, table + TABLE_SIZE);
    var parsed := Parse(raw, table + TABLE_SECTOR, md5);
    if parsed.ValueError? { return ValueError; }
    var (ps, foundMd5) := parsed.value;
    if !foundMd5 { return ValueError; }
    var differ := CheckNames(ps);
    if !differ { return ValueError; }
    ParsedInBounds(raw, table + TABLE_SECTOR, md5);
    assert NoneEmpty(PartitionSpans(ps)) by {
      forall x | x in PartitionSpans(ps)
        ensures x.start < x.end
      {
        var i :| 0 <= i < |ps| && x == Span(ps[i].offset, ps[i].End());
        assert ps[i] in ps;
      }
    }
    var apart := CheckNeighbours(PartitionSpans(ps));
    if !apart { return ValueError; }
    var matching := FindApp(ps, appOffset);
    MatchingMeansFits(ps, appOffset, appSize, matching);
    if |matching| != 1 { return ValueError; }
    var app := ps[matching[0]];
    if appSize > app.size { return ValueError; }
    if |merged| <= appOffset || merged[appOffset] != APP_MAGIC { return ValueError; }
    return Ok(ps);
  }

  lemma {:induction false} MatchingMeansFits(ps: seq<Partition>, offset: int, size: nat, matching: seq<nat>)
    requires forall i :: i in matching <==> 0 <= i < |ps| && IsAppAt(ps[i], offset)
    requires |matching| > 1 ==> matching[0] != matching[1]
    ensures |matching| == 1 ==> matching[0] < |ps| && IsAppAt(ps[matching[0]], offset)
    ensures AppFits(ps, offset, size) <==> |matching| == 1 && size <= ps[matching[0]].size
  {
    if AppFits(ps, offset, size) {
      var i :| 0 <= i < |ps| && IsAppAt(ps[i], offset) && size <= ps[i].size
               && forall j | 0 <= j < |ps| && IsAppAt(ps[j], offset) :: j == i;
      assert i in matching;
      forall n | 0 <= n < |matching| ensures matching[n] == i { assert matching[n] in matching; }
      assert |matching| > 0;
    }
    if |matching| == 1 {
      var i := matching[0];
      assert i in matching;
      forall j | 0 <= j < |ps| && IsAppAt(ps[j], offset)
        ensures j == i
      {
        assert j in matching;
      }
    }
  }

  // ---- custom images ----

  predicate Required(name: string) {
    name == BOOTLOADER || name == TABLE_IMAGE || name == APP_IMAGE
  }

  predicate Within(image: Span, p: Partition) {
    p.offset <= image.start && image.end <= p.End()
  }

  ghost predicate ExtrasPlaced(images: seq<Image>, files: Files, ps: seq<Partition>) {
    forall i | 0 <= i < |images| && !Required(images[i].name) ::
      exists k :: 0 <= k < |ps| && Within(SpanOf(images[i], files), ps[k])
  }

  method VerifyExtras(images: seq<Image>, files: Files, ps: seq<Partition>) returns (ok: bool)
    ensures ok <==> ExtrasPlaced(images, files, ps)
  {
    for i := 0 to |images|
      invariant forall j | 0 <= j < i && !Required(images[j].name) ::
                  exists k :: 0 <= k < |ps| && Within(SpanOf(images[j], files), ps[k])
    {
      if Required(images[i].name) { continue; }
      var any := false;
      for k := 0 to |ps|
        invariant any <==> exists m :: 0 <= m < k && Within(SpanOf(images[i], files), ps[m])
      {
        if Within(SpanOf(images[i], files), ps[k]) { any := true; }
      }
      if !any { return false; }
    }
    return true;
  }

  // ---- the whole verifier ----

  ghost predicate At(images: seq<Image>, name: string, offset: int) {
    exists i :: 0 <= i < |images| && images[i] == Image(name, offset)
  }

  /** Everything the verifier checks, for one partition list. */
  ghost predicate FirmwareGood(merged: seq<byte>, images: seq<Image>, files: Files, md5: Digest,
                               table: nat, appOffset: int, ps: seq<Partition>) {
    && |merged| <= FLASH_SIZE
    && At(images, BOOTLOADER, 0) && At(images, TABLE_IMAGE, table) && At(images, APP_IMAGE, appOffset)
    && ImagesGood(merged, images, files)
    && APP_IMAGE in files && LayoutGood(merged, table, appOffset, |files[APP_IMAGE]|, ps, md5)
    && ExtrasPlaced(images, files, ps)
  }

  method Lookup(images: seq<Image>, name: string) returns (found: bool, offset: int)
    ensures found ==> At(images, name, offset)
    ensures !found ==> forall o :: !At(images, name, o)
  {
    for i := 0 to |images|
      invariant forall j | 0 <= j < i :: images[j].name != name
    {
      if images[i].name == name {
        assert images[i] == Image(name, images[i].offset);
        return true, images[i].offset;
      }
    }
    return false, 0;
  }

  lemma {:induction false} NamesFixOffsets(images: seq<Image>, name: string, a: int, b: int)
    requires Distinct(images) && At(images, name, a) && At(images, name, b)
    ensures a == b
  {
    var i :| 0 <= i < |images| && images[i] == Image(name, a);
    var j :| 0 <= j < |images| && images[j] == Image(name, b);
    if i < j { assert images[i].name != images[j].name; }
    if j < i { assert images[j].name != images[i].name; }
  }

  /** The verifier passes exactly the images that are good. */
  method Verify(merged: seq<byte>, images: seq<Image>, files: Files, md5: Digest)
    returns (ok: bool, ghost table: nat, ghost appOffset: int, ps: seq<Partition>)
    requires Distinct(images)
    ensures ok ==> FirmwareGood(merged, images, files, md5, table, appOffset, ps)
    ensures !ok ==> forall t, a, qs :: !FirmwareGood(merged, images, files, md5, t, a, qs)
  {
    table, appOffset, ps := 0, 0, [];
    var hasBoot, boot := Lookup(images, BOOTLOADER);
    var hasTable, t := Lookup(images, TABLE_IMAGE);
    var hasApp, a := Lookup(images, APP_IMAGE);
    if !hasBoot || !hasTable || !hasApp { return false, table, appOffset, ps; }
    forall t', a' | At(images, BOOTLOADER, 0) && At(images, TABLE_IMAGE, t') && At(images, APP_IMAGE, a')
      ensures boot == 0 && t' == t && a' == a
    {
      NamesFixOffsets(images, BOOTLOADER, 0, boot);
      NamesFixOffsets(images, TABLE_IMAGE, t', t);
      NamesFixOffsets(images, APP_IMAGE, a', a);
    }
    if boot != 0 || |merged| > FLASH_SIZE { return false, table, appOffset, ps; }
    var imagesOk := VerifyImages(merged, images, files);
    if !imagesOk { return false, table, appOffset, ps; }
    PlacedInFlash(images, files, TABLE_IMAGE, t);
    PlacedInFlash(images, files, APP_IMAGE, a);
    table, appOffset := t, a;
    var layout := VerifyLayout(merged, t, a, |files[APP_IMAGE]|, md5);
    if layout.ValueError? { return false, table, appOffset, ps; }
    ps := layout.value;
    ok := VerifyExtras(images, files, ps);
  }

  lemma {:induction false} PlacedInFlash(images: seq<Image>, files: Files, name: string, offset: int)
    requires AllInFlash(images, files) && At(images, name, offset)
    ensures InFlash(Image(name, offset), files)
  {
    var i :| 0 <= i < |images| && images[i] == Image(name, offset);
    assert InFlash(images[i], files);
  }

  // ---- what passing means for the whole flash ----

  /** No two images share a byte of flash, and no two partitions do. */
  lemma {:induction false} NothingOverlaps(merged: seq<byte>, images: seq<Image>, files: Files, md5: Digest,
                                           table: nat, appOffset: int, ps: seq<Partition>, address: int, i: nat, j: nat)
    requires FirmwareGood(merged, images, files, md5, table, appOffset, ps) && i != j
    ensures i < |images| && j < |images| ==>
              !(Holds(SpanOf(images[i], files), address) && Holds(SpanOf(images[j], files), address))
    ensures i < |ps| && j < |ps| ==> !(Holds(PartitionSpans(ps)[i], address) && Holds(PartitionSpans(ps)[j], address))
  {
    if i < |images| && j < |images| {
      var spans := ImageSpans(images, files);
      assert if i < j then Apart(spans[i], spans[j]) else Apart(spans[j], spans[i]);
    }
    if i < |ps| && j < |ps| {
      var spans := PartitionSpans(ps);
      assert if i < j then Apart(spans[i], spans[j]) else Apart(spans[j], spans[i]);
    }
  }

  predicate Holds(s: Span, address: int) {
    s.start <= address < s.end
  }

  /** Every custom image, and the application, lies in exactly one partition. */
  lemma {:induction false} EachInOnePartition(merged: seq<byte>, images: seq<Image>, files: Files, md5: Digest,
                                              table: nat, appOffset: int, ps: seq<Partition>, i: nat)
    requires FirmwareGood(merged, images, files, md5, table, appOffset, ps) && Distinct(images)
    requires i < |images| && (!Required(images[i].name) || images[i].name == APP_IMAGE)
    ensures exists k :: 0 <= k < |ps| && Within(SpanOf(images[i], files), ps[k])
                        && forall m | 0 <= m < |ps| && Within(SpanOf(images[i], files), ps[m]) :: m == k
  {
    var span := SpanOf(images[i], files);
    assert InFlash(images[i], files);
    var k: nat;
    if images[i].name == APP_IMAGE {
      k :| 0 <= k < |ps| && IsAppAt(ps[k], appOffset) && |files[APP_IMAGE]| <= ps[k].size;
      assert At(images, APP_IMAGE, images[i].offset) by { assert images[i] == Image(APP_IMAGE, images[i].offset); }
      NamesFixOffsets(images, APP_IMAGE, images[i].offset, appOffset);
    } else {
      k :| 0 <= k < |ps| && Within(span, ps[k]);
    }
    forall m | 0 <= m < |ps| && Within(span, ps[m])
      ensures m == k
    {
      if m != k {
        NothingOverlaps(merged, images, files, md5, table, appOffset, ps, span.start, m, k);
      }
    }
  }

  lemma {:induction false} ImagesApart(images: seq<Image>, files: Files, a: Image, b: Image)
    requires AllInFlash(images, files) && AllApart(ImageSpans(images, files)) && a.name != b.name
    requires At(images, a.name, a.offset) && At(images, b.name, b.offset)
    ensures InFlash(a, files) && InFlash(b, files) && Apart(SpanOf(a, files), SpanOf(b, files))
  {
    PlacedInFlash(images, files, a.name, a.offset);
    PlacedInFlash(images, files, b.name, b.offset);
    var i :| 0 <= i < |images| && images[i] == Image(a.name, a.offset);
    var j :| 0 <= j < |images| && images[j] == Image(b.name, b.offset);
    var spans := ImageSpans(images, files);
    assert if i < j then Apart(spans[i], spans[j]) else Apart(spans[j], spans[i]);
  }

  lemma {:induction false} RequiredNamesDiffer()
    ensures BOOTLOADER != TABLE_IMAGE
  {
    assert BOOTLOADER[0] == 'b' && TABLE_IMAGE[0] == 'p';
  }

  lemma {:induction false} BootloaderIsFirst(images: seq<Image>, files: Files, table: nat)
    requires AllInFlash(images, files) && AllApart(ImageSpans(images, files))
    requires At(images, BOOTLOADER, 0) && At(images, TABLE_IMAGE, table)
    ensures BOOTLOADER in files && |files[BOOTLOADER]| <= table
  {
    RequiredNamesDiffer();
    ImagesApart(images, files, Image(BOOTLOADER, 0), Image(TABLE_IMAGE, table));
  }

  /** The bootloader ends before the partition table begins, and no partition reaches back into either. */
  lemma {:induction false} BootAreaIsFree(merged: seq<byte>, images: seq<Image>, files: Files, md5: Digest,
                                          table: nat, appOffset: int, ps: seq<Partition>)
    requires FirmwareGood(merged, images, files, md5, table, appOffset, ps)
    ensures BOOTLOADER in files && |files[BOOTLOADER]| <= table
    ensures forall p | p in ps :: table + TABLE_SECTOR <= p.offset
  {
    BootloaderIsFirst(images, files, table);
    ParsedInBounds(Slice(merged, table, table + TABLE_SIZE), table + TABLE_SECTOR, md5);
  }

  // ---- the same in terms of addresses and bytes ----

  /** The image is there, not empty, and the merged file holds it byte by byte at its offset. */
  ghost predicate LiesInMerged(image: Image, files: Files, merged: seq<byte>) {
    && image.name in files && 0 < |files[image.name]| && 0 <= image.offset
    && image.offset + |files[image.name]| <= |merged|
    && forall k | 0 <= k < |files[image.name]| :: merged[image.offset + k] == files[image.name][k]
  }

  ghost predicate ImagesLie(images: seq<Image>, files: Files, merged: seq<byte>) {
    forall i | 0 <= i < |images| :: LiesInMerged(images[i], files, merged)
  }

  /** No address belongs to two of them. */
  ghost predicate NoneShared(spans: seq<Span>) {
    forall i, j, address | 0 <= i < j < |spans| :: !(Holds(spans[i], address) && Holds(spans[j], address))
  }

  lemma {:induction false} ApartMeansNoneShared(spans: seq<Span>)
    requires NoneEmpty(spans)
    ensures AllApart(spans) <==> NoneShared(spans)
  {
    if NoneShared(spans) {
      forall i, j | 0 <= i < j < |spans| ensures Apart(spans[i], spans[j]) {
        var later := if spans[i].start >= spans[j].start then spans[i].start else spans[j].start;
        assert spans[i] in spans && spans[j] in spans;
        assert !(Holds(spans[i], later) && Holds(spans[j], later));
      }
    }
    if AllApart(spans) {
      forall i, j, address | 0 <= i < j < |spans| ensures !(Holds(spans[i], address) && Holds(spans[j], address)) {
        assert Apart(spans[i], spans[j]);
      }
    }
  }

  lemma {:induction false} MergedByteByByte(image: Image, files: Files, merged: seq<byte>)
    requires |merged| <= FLASH_SIZE
    ensures InFlash(image, files) && Merged(image, files, merged) <==> LiesInMerged(image, files, merged)
  {
    if InFlash(image, files) && Merged(image, files, merged) {
      var file := files[image.name];
      forall k | 0 <= k < |file| ensures merged[image.offset + k] == file[k] {
        assert merged[image.offset..image.offset + |file|][k] == file[k];
      }
    }
  }

  lemma {:induction false} ImagesByteByByte(images: seq<Image>, files: Files, merged: seq<byte>)
    requires |merged| <= FLASH_SIZE
    ensures ImagesGood(merged, images, files) <==>
            ImagesLie(images, files, merged) && NoneShared(ImageSpans(images, files))
  {
    forall i | 0 <= i < |images|
      ensures InFlash(images[i], files) && Merged(images[i], files, merged) <==> LiesInMerged(images[i], files, merged)
    {
      MergedByteByByte(images[i], files, merged);
    }
    if ImagesLie(images, files, merged) {
      forall i | 0 <= i < |images| ensures InFlash(images[i], files) { assert LiesInMerged(images[i], files, merged); }
    }
    if AllInFlash(images, files) {
      forall x | x in ImageSpans(images, files) ensures x.start < x.end {
        var i :| 0 <= i < |images| && x == SpanOf(images[i], files);
        assert InFlash(images[i], files);
      }
      ApartMeansNoneShared(ImageSpans(images, files));
    }
  }

  /** Exactly one partition of kind 0 begins at the application's offset, and the application fits into it. */
  ghost predicate OneApplication(ps: seq<Partition>, offset: int, size: nat) {
    && (exists i :: 0 <= i < |ps| && ps[i].kind == 0 && ps[i].offset == offset && size <= ps[i].size)
    && forall i, j | 0 <= i < j < |ps| && ps[i].kind == 0 && ps[j].kind == 0 && ps[i].offset == offset ::
         ps[j].offset != offset
  }

  lemma {:induction false} AppFitsMeansOne(ps: seq<Partition>, offset: int, size: nat)
    ensures AppFits(ps, offset, size) <==> OneApplication(ps, offset, size)
  {
    if AppFits(ps, offset, size) {
      var i :| 0 <= i < |ps| && IsAppAt(ps[i], offset) && size <= ps[i].size
               && forall j | 0 <= j < |ps| && IsAppAt(ps[j], offset) :: j == i;
      forall a, b | 0 <= a < b < |ps| && ps[a].kind == 0 && ps[b].kind == 0 && ps[a].offset == offset
        ensures ps[b].offset != offset
      {
        assert IsAppAt(ps[a], offset) && (ps[b].offset == offset ==> IsAppAt(ps[b], offset));
      }
    }
    if OneApplication(ps, offset, size) {
      var i :| 0 <= i < |ps| && ps[i].kind == 0 && ps[i].offset == offset && size <= ps[i].size;
      assert IsAppAt(ps[i], offset);
      forall j | 0 <= j < |ps| && j != i ensures !IsAppAt(ps[j], offset) {}
    }
  }

  /** The table in the merged file, entry by entry, with a good digest; each name once; no shared addresses; one
      partition for the application, which begins with its magic byte. */
  ghost predicate TableSound(merged: seq<byte>, table: nat, appOffset: int, appSize: nat, ps: seq<Partition>,
                             md5: Digest) {
    && table + 0xC00 <= |merged|
    && ps != [] && TableFrom(merged[table..table + 0xC00], 0, ps, true, table + 0x1000, md5)
    && NamesDiffer(ps) && NoneShared(PartitionSpans(ps)) && OneApplication(ps, appOffset, appSize)
    && 0 <= appOffset < |merged| && merged[appOffset] == 0xE9
  }

  lemma {:induction false} ParsedFromMerged(merged: seq<byte>, table: nat, ps: seq<Partition>, md5: Digest)
    ensures Parsed(Slice(merged, table, table + TABLE_SIZE), table + TABLE_SECTOR, md5) == Ok((ps, true)) <==>
            && table + 0xC00 <= |merged|
            && ps != [] && TableFrom(merged[table..table + 0xC00], 0, ps, true, table + 0x1000, md5)
  {
    var raw := Slice(merged, table, table + TABLE_SIZE);
    ParsedExactly(raw, ps, true, table + TABLE_SECTOR, md5);
    if table + 0xC00 <= |merged| { assert raw == merged[table..table + 0xC00]; }
  }

  lemma {:induction false} ParsedSpansAreNotEmpty(raw: seq<byte>, ps: seq<Partition>, minimum: int, md5: Digest)
    requires Parsed(raw, minimum, md5) == Ok((ps, true))
    ensures NoneEmpty(PartitionSpans(ps))
  {
    ParsedInBounds(raw, minimum, md5);
    forall x | x in PartitionSpans(ps) ensures x.start < x.end {
      var i :| 0 <= i < |ps| && x == Span(ps[i].offset, ps[i].End());
      assert ps[i] in ps;
    }
  }

  lemma {:induction false} LayoutMeansSound(merged: seq<byte>, table: nat, appOffset: int, appSize: nat,
                                            ps: seq<Partition>, md5: Digest)
    ensures LayoutGood(merged, table, appOffset, appSize, ps, md5) <==>
            TableSound(merged, table, appOffset, appSize, ps, md5)
  {
    ParsedFromMerged(merged, table, ps, md5);
    AppFitsMeansOne(ps, appOffset, appSize);
    var raw := Slice(merged, table, table + TABLE_SIZE);
    if Parsed(raw, table + TABLE_SECTOR, md5) == Ok((ps, true)) {
      ParsedSpansAreNotEmpty(raw, ps, table + TABLE_SECTOR, md5);
      ApartMeansNoneShared(PartitionSpans(ps));
    }
  }

  /** The three images that every build has. */
  ghost predicate RequiredAt(images: seq<Image>, table: nat, appOffset: int) {
    && At(images, "bootloader/bootloader.bin", 0)
    && At(images, "partition_table/partition-table.bin", table)
    && At(images, "FoloToy-AI-Passport.bin", appOffset)
  }

  predicate IsRequiredName(name: string) {
    name == "bootloader/bootloader.bin" || name == "partition_table/partition-table.bin"
    || name == "FoloToy-AI-Passport.bin"
  }

  ghost predicate CustomPlaced(images: seq<Image>, files: Files, ps: seq<Partition>) {
    forall i | 0 <= i < |images| && !IsRequiredName(images[i].name) ::
      exists k :: 0 <= k < |ps| && Within(SpanOf(images[i], files), ps[k])
  }

  /** Passing, in terms of addresses and bytes: at most 8 MB, every image where it belongs byte by byte and on
      addresses of its own, a sound partition table, and each custom image within a partition. */
  lemma {:induction false} GoodMeansSound(merged: seq<byte>, images: seq<Image>, files: Files, md5: Digest,
                                          table: nat, appOffset: int, ps: seq<Partition>)
    ensures FirmwareGood(merged, images, files, md5, table, appOffset, ps) <==>
            && |merged| <= 0x80_0000 && RequiredAt(images, table, appOffset)
            && ImagesLie(images, files, merged) && NoneShared(ImageSpans(images, files))
            && "FoloToy-AI-Passport.bin" in files
            && TableSound(merged, table, appOffset, |files["FoloToy-AI-Passport.bin"]|, ps, md5)
            && CustomPlaced(images, files, ps)
  {
    assert ExtrasPlaced(images, files, ps) <==> CustomPlaced(images, files, ps) by {
      forall i | 0 <= i < |images| ensures Required(images[i].name) == IsRequiredName(images[i].name) {}
    }
    if |merged| <= FLASH_SIZE { ImagesByteByByte(images, files, merged); }
    if APP_IMAGE in files { LayoutMeansSound(merged, table, appOffset, |files[APP_IMAGE]|, ps, md5); }
  }
}
