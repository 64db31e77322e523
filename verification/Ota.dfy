/** Over-the-air update: what may be installed, what reaches the boot slot, and what a chain of
    updates does to the version. */
module Ota {
  import opened Common
  import opened FirmwareVersion
  import ServerUrl

  datatype Manifest = Manifest(version: CString, url: CString, sha256: seq<byte>, size: nat)

  /** What an application image says about itself. */
  datatype Description = Description(version: CString, project: CString)

  const CHUNK := 1024
  const TIME_MS := 120000

  /** The flash slot being written. */
  class Slot {
    const size: nat
    var content: seq<byte>
    var selected: bool

    constructor (size: nat)
      ensures this.size == size && content == [] && !selected
    {
      this.size := size;
      content, selected := [], false;
    }
  }

  /** How the boot code reads the description out of an image, if the bytes are an image at all. */
  type Reader = seq<byte> -> Option<Description>

  ghost predicate Upgrades(from: string, to: string) {
    Compared(to, from) > 0
  }

  /** An upgrade goes to the version above, never below. */
  lemma {:induction false} UpgradesGoAbove(from: string, to: string, x: Version, y: Version)
    requires Spells(from, x) && Spells(to, y)
    ensures Upgrades(from, to) <==> Above(y, x)
  {
    ComparedIsPrecedence(to, from, y, x);
  }

  // ---- foreign calls: any outcome is possible, and a bad one is counted ----

  class World {
    ghost var faults: nat
    // all bytes that reading the response body has handed out
    ghost var body: seq<byte>
    // when a download began, and the time last read
    ghost var began: nat
    ghost var latest: nat
    // the clock was read after the last read of the body
    ghost var looked: bool

    /** The last reading of the clock was within two minutes of the beginning. */
    ghost predicate InTime()
      reads this
    {
      latest < began + 120000
    }

    method Succeeds() returns (ok: bool)
      modifies `faults
      ensures faults == if ok then old(faults) else old(faults) + 1
    {
      ok := *;
      if !ok { faults := faults + 1; }
    }

    method ContentLength(expected: nat) returns (n: int)
      modifies `faults
      ensures faults == if n == expected then old(faults) else old(faults) + 1
    {
      n := *;
      if n != expected { faults := faults + 1; }
    }

    /** Up to `want` bytes of the body, as the buffer for them has room, or a failure. Every read comes after a
        fresh look at the clock, and within the time there is. */
    method ReadBody(want: nat) returns (n: int, chunk: seq<byte>)
      requires 0 < want <= 1024 && looked && InTime()
      modifies `faults, `body, `looked
      ensures !looked
      ensures n > 0 ==> |chunk| == n <= want
      ensures body == if n > 0 then old(body) + chunk else old(body)
      ensures faults == if n > 0 then old(faults) else old(faults) + 1
    {
      n := *;
      chunk := *;
      looked := false;
      if n > want || (n > 0 && |chunk| != n) { n := -1; }
      if n > 0 { body := body + chunk; } else { faults := faults + 1; }
    }

    method Start() returns (now: nat)
      modifies `began, `latest
      ensures began == latest == now
    {
      now := *;
      began, latest := now, now;
    }

    method Clock(earlier: nat) returns (now: nat)
      modifies `latest, `looked
      ensures earlier <= now == latest && looked
    {
      looked := true;
      now := *;
      if now < earlier { now := earlier; }
      latest := now;
    }
  }

  // ---- installing ----

  /** What the manifest must say, and the device must have, for an attempt at all. */
  ghost predicate Wanted(manifest: Manifest, server: CString, running: Description, slotSize: Option<nat>) {
    && ServerUrl.SameServer(server, manifest.url)
    && Upgrades(running.version, manifest.version)
    && slotSize.Some? && manifest.size <= slotSize.value
  }

  function SizeOf(slot: Slot?): Option<nat> {
    if slot == null then None else Some(slot.size)
  }

  /** What the delivered image must be: all of it, with the announced digest, calling itself by the
      announced version and the running project. */
  ghost predicate AsAnnounced(manifest: Manifest, running: Description, sha: Digest, describe: Reader,
                              delivered: seq<byte>) {
    && |delivered| == manifest.size && sha(delivered) == manifest.sha256
    && describe(delivered) == Some(Description(manifest.version, running.project))
  }

  /** Installation selects the slot for boot if and only if the manifest is wanted, the bytes that the
      network has delivered are as announced, nothing went wrong, and the download took less than two minutes;
      they are then in the slot, every one of them. Otherwise the selection is untouched, and without a wanted
      manifest nothing is fetched. There may be no slot to update. */
  method Install(manifest: Manifest, server: CString, running: Description, slot: Slot?, sha: Digest, describe: Reader,
                 world: World)
    returns (ok: bool, ghost delivered: seq<byte>)
    modifies slot, world
    ensures world.body == old(world.body) + delivered
    ensures ok <==> Wanted(manifest, server, running, SizeOf(slot))
                    && AsAnnounced(manifest, running, sha, describe, delivered)
                    && world.faults == old(world.faults) && world.InTime()
    ensures ok ==> slot.selected && slot.content == delivered
    ensures !ok && slot != null ==> slot.selected == old(slot.selected)
    ensures !Wanted(manifest, server, running, SizeOf(slot)) ==>
              && delivered == [] && world.faults == old(world.faults)
              && (slot != null ==> slot.content == old(slot.content))
  {
    ok, delivered := false, [];
    var sameOrigin := ServerUrl.SameOrigin(server, manifest.url);
    if !sameOrigin { return; }
    var newer := Compare(manifest.version, running.version);
    if newer <= 0 { return; }
    if slot == null || manifest.size > slot.size { return; }
    var connected := world.Succeeds();
    if !connected { return; }
    var announced := world.ContentLength(manifest.size);
    if announced != manifest.size { return; }
    var started := world.Succeeds();
    if !started { return; }
    var filled;
    filled, delivered := Download(manifest.size, slot, world);
    if !filled { return; }
    var hashed := world.Succeeds();
    if !hashed || sha(slot.content) != manifest.sha256 { return; }
    ok := Accept(manifest, running, slot, describe, world);
  }

  /** The download loop: in any case the bytes it took from the body are `delivered`; it succeeds exactly when
      nothing failed and the deadline was met, and then the announced number of them, in their
      order, is what the slot holds. */
  method Download(size: nat, slot: Slot, world: World) returns (ok: bool, ghost delivered: seq<byte>)
    modifies slot`content, world
    ensures world.body == old(world.body) + delivered
    ensures ok ==> slot.content == delivered && |delivered| == size
    ensures ok <==> world.faults == old(world.faults) && world.InTime()
    ensures world.faults >= old(world.faults)
  {
    slot.content, delivered := [], [];
    var received := 0;
    var start := world.Start();
    var deadline := start + TIME_MS;
    var now: nat := world.Clock(start);
    while received < size && now < deadline
      invariant world.body == old(world.body) + delivered && slot.content == delivered
      invariant received == |delivered| <= size
      invariant world.looked && world.began == start && world.latest == now && world.faults == old(world.faults)
    {
      var want := size - received;
      if want > CHUNK { want := CHUNK; }
      var n, chunk := world.ReadBody(want);
      if n <= 0 { return false, delivered; }
      delivered := delivered + chunk;
      var written := world.Succeeds();
      if !written { return false, delivered; }
      slot.content := slot.content + chunk;
      received := received + n;
      now := world.Clock(now);
    }
    if received != size { return false, delivered; }
    now := world.Clock(now);
    return now < deadline, delivered;
  }

  /** After the download: the image is closed and checked, its description read and compared, and the slot
      selected. */
  method Accept(manifest: Manifest, running: Description, slot: Slot, describe: Reader, world: World) returns (ok: bool)
    modifies slot`selected, world`faults
    ensures ok <==> describe(slot.content) == Some(Description(manifest.version, running.project))
                    && world.faults == old(world.faults)
    ensures slot.selected == (ok || old(slot.selected)) && world.faults >= old(world.faults)
  {
    var ended := world.Succeeds();
    if !ended { return false; }
    var readable := world.Succeeds();
    if !readable { return false; }
    var desc := describe(slot.content);
    if desc == None || desc.value.version != manifest.version || desc.value.project != running.project { return false; }
    ok := world.Succeeds();
    if ok { slot.selected := true; }
  }

  // ---- chains of updates without rollback ----

  /** The versions a device has booted, oldest first: each update installed by the one before it. */
  ghost predicate Chain(versions: seq<CString>) {
    forall i | 0 < i < |versions| :: Upgrades(versions[i - 1], versions[i])
  }

  lemma {:induction false} UpgradesCompose(a: string, b: string, c: string)
    requires Upgrades(a, b) && Upgrades(b, c)
    ensures Upgrades(a, c)
  {
    ComparedIsAPreorder(c, b, a);
  }

  /** Along a chain the version strictly increases from any point to any later one, so none recurs. */
  lemma {:induction false} ChainsIncrease(versions: seq<CString>, i: nat, j: nat)
    requires Chain(versions) && i < j < |versions|
    ensures Upgrades(versions[i], versions[j]) && Parse(versions[i]).Some? && Parse(versions[j]).Some?
    ensures Above(Parse(versions[j]).value, Parse(versions[i]).value)
    decreases j - i
  {
    if i + 1 < j {
      ChainsIncrease(versions, i, j - 1);
      UpgradesCompose(versions[i], versions[j - 1], versions[j]);
    }
    assert i + 1 == j ==> Upgrades(versions[j - 1], versions[j]);
    ParseIsExact(versions[i], Parse(versions[i]).value);
    ParseIsExact(versions[j], Parse(versions[j]).value);
    UpgradesGoAbove(versions[i], versions[j], Parse(versions[i]).value, Parse(versions[j]).value);
  }

  /** A device that boots whatever an installation selects. */
  class Device {
    var running: Description
    ghost var booted: seq<CString>

    ghost predicate Valid()
      reads this
    {
      booted != [] && booted[|booted| - 1] == running.version && Chain(booted)
    }

    constructor (factory: Description)
      ensures Valid() && booted == [factory.version]
    {
      running, booted := factory, [factory.version];
    }

    /** One update attempt, on a fresh slot if there is room for one; success restarts into the new image. */
    method Update(manifest: Manifest, server: CString, slotSize: Option<nat>, sha: Digest, describe: Reader,
                  world: World)
      returns (restarted: bool, ghost delivered: seq<byte>)
      requires Valid()
      modifies this, world
      ensures Valid() && world.body == old(world.body) + delivered
      ensures restarted <==> Wanted(manifest, server, old(running), slotSize)
                             && AsAnnounced(manifest, old(running), sha, describe, delivered)
                             && world.faults == old(world.faults) && world.InTime()
      ensures restarted ==>
                && ServerUrl.SameServer(server, manifest.url)
                && Compared(manifest.version, old(running).version) == 1
                && slotSize.Some? && |delivered| == manifest.size <= slotSize.value && sha(delivered) == manifest.sha256
                && running == Description(manifest.version, old(running).project)
      ensures if restarted then describe(delivered) == Some(running) && booted == old(booted) + [running.version]
              else booted == old(booted) && running == old(running)
    {
      var slot: Slot? := null;
      if slotSize.Some? { slot := new Slot(slotSize.value); }
      restarted, delivered := Install(manifest, server, running, slot, sha, describe, world);
      if restarted {
        running := describe(slot.content).value;
        booted := booted + [running.version];
      }
    }
  }
}
