/** The flash arguments of a build, and the whole check of a build directory. */
module FlashArgs {
  import opened Common
  import opened PartitionTable
  import opened FirmwareLayout

  const FLASH_SIZE_OPTION := "--flash_size 8MB"
  const OPTION := "--"

  /** A number as Python reads it, if the field is one. */
  type ToOffset = string -> Option<int>

  /** The fields of every line after shell splitting, if the text can be split. */
  type Split = string -> Option<seq<seq<string>>>

  predicate Contains(text: string, part: string) {
    part <= text || (text != "" && Contains(text[1..], part))
  }

  predicate IsOption(field: string) {
    OPTION <= field
  }

  // ---- what the arguments say ----

  predicate IsImage(line: seq<string>, toOffset: ToOffset) {
    line != [] && toOffset(line[0]).Some?
  }

  /** Every line is empty, an option, or an offset and a name. */
  predicate GoodLine(line: seq<string>, toOffset: ToOffset) {
    line == [] || (if IsImage(line, toOffset) then |line| == 2 else IsOption(line[0]))
  }

  predicate GoodLines(lines: seq<seq<string>>, toOffset: ToOffset) {
    forall line | line in lines :: GoodLine(line, toOffset)
  }

  /** The images the lines name, in order. */
  function ImagesOf(lines: seq<seq<string>>, toOffset: ToOffset): seq<Image>
    requires GoodLines(lines, toOffset)
  {
    if lines == [] then []
    else
      var n := |lines| - 1;
      assert lines[n] in lines;
      assert forall line | line in lines[..n] :: line in lines;
      ImagesOf(lines[..n], toOffset)
      + if IsImage(lines[n], toOffset) then [Image(lines[n][1], toOffset(lines[n][0]).value)] else []
  }

  ghost predicate ArgsGood(lines: seq<seq<string>>, toOffset: ToOffset, images: seq<Image>) {
    GoodLines(lines, toOffset) && images == ImagesOf(lines, toOffset) && Distinct(images)
  }

  lemma {:induction false} OneMoreLine(lines: seq<seq<string>>, n: nat, toOffset: ToOffset)
    requires n < |lines| && GoodLines(lines[..n], toOffset)
    ensures GoodLines(lines[..n + 1], toOffset) <==> GoodLine(lines[n], toOffset)
    ensures GoodLine(lines[n], toOffset) ==>
              ImagesOf(lines[..n + 1], toOffset) == ImagesOf(lines[..n], toOffset)
              + if IsImage(lines[n], toOffset) then [Image(lines[n][1], toOffset(lines[n][0]).value)] else []
  {
    var more := lines[..n + 1];
    assert more == lines[..n] + [lines[n]];
    assert forall line :: line in more <==> line in lines[..n] || line == lines[n];
    assert more[..n] == lines[..n];
  }

  /** The line gives the image its offset and its name, and nothing else. */
  predicate Gives(line: seq<string>, toOffset: ToOffset, image: Image) {
    |line| == 2 && toOffset(line[0]) == Some(image.offset) && line[1] == image.name
  }

  lemma {:induction false} ImagesAreGiven(lines: seq<seq<string>>, toOffset: ToOffset, image: Image)
    requires GoodLines(lines, toOffset)
    ensures image in ImagesOf(lines, toOffset) <==> exists line :: line in lines && Gives(line, toOffset, image)
    decreases |lines|
  {
    if lines != [] {
      var n := |lines| - 1;
      assert lines == lines[..n] + [lines[n]];
      assert lines[n] in lines && GoodLine(lines[n], toOffset);
      assert forall line :: line in lines <==> line in lines[..n] || line == lines[n];
      ImagesAreGiven(lines[..n], toOffset, image);
    }
  }

  /** What good arguments are, line by line: a line is empty, gives an image, or begins with two hyphens and
      no number; the images are those the lines give, and no two have one name. */
  lemma {:induction false} ArgsLineByLine(lines: seq<seq<string>>, toOffset: ToOffset, images: seq<Image>)
    ensures GoodLines(lines, toOffset) <==>
            forall line | line in lines ::
              || line == [] || (exists image :: Gives(line, toOffset, image))
              || (toOffset(line[0]) == None && "--" <= line[0])
    ensures ArgsGood(lines, toOffset, images) ==>
              && (forall image :: image in images <==> exists line :: line in lines && Gives(line, toOffset, image))
              && forall a, b | a in images && b in images && a.name == b.name :: a == b
  {
    forall line
      ensures GoodLine(line, toOffset) <==>
              line == [] || (exists image :: Gives(line, toOffset, image))
              || (toOffset(line[0]) == None && "--" <= line[0])
    {
      if |line| == 2 && toOffset(line[0]).Some? {
        assert Gives(line, toOffset, Image(line[1], toOffset(line[0]).value));
      }
    }
    if ArgsGood(lines, toOffset, images) {
      forall image ensures image in images <==> exists line :: line in lines && Gives(line, toOffset, image) {
        ImagesAreGiven(lines, toOffset, image);
      }
      forall a, b | a in images && b in images && a.name == b.name ensures a == b {
        var i :| 0 <= i < |images| && images[i] == a;
        var j :| 0 <= j < |images| && images[j] == b;
        assert images[i].name == images[j].name;
        assert i == j;
      }
    }
  }

  predicate LiesAt(text: string, i: nat, part: string) {
    i + |part| <= |text| && text[i..i + |part|] == part
  }

  lemma {:induction false} ContainsAnywhere(text: string, part: string)
    ensures Contains(text, part) <==> exists i :: LiesAt(text, i, part)
  {
    assert part <= text <==> LiesAt(text, 0, part);
    if text != [] {
      ContainsAnywhere(text[1..], part);
      forall i: nat ensures LiesAt(text[1..], i, part) <==> LiesAt(text, i + 1, part) {
        if i + 1 + |part| <= |text| { assert text[1..][i..i + |part|] == text[i + 1..i + 1 + |part|]; }
      }
      forall i: nat | i > 0 && LiesAt(text, i, part) ensures LiesAt(text[1..], i - 1, part) {
        assert LiesAt(text[1..], i - 1, part) <==> LiesAt(text, i - 1 + 1, part);
      }
    }
  }

  /** Images named by some of the lines are images named by all of them. */
  lemma {:induction false} EarlierImages(lines: seq<seq<string>>, n: nat, toOffset: ToOffset)
    requires n <= |lines| && GoodLines(lines, toOffset)
    ensures GoodLines(lines[..n], toOffset) && ImagesOf(lines[..n], toOffset) <= ImagesOf(lines, toOffset)
    decreases |lines|
  {
    if n == |lines| {
      assert lines[..n] == lines;
    } else {
      var m := |lines| - 1;
      assert forall line | line in lines[..m] :: line in lines;
      EarlierImages(lines[..m], n, toOffset);
      assert lines[..m][..n] == lines[..n];
      assert lines[m] in lines;
    }
  }

  lemma {:induction false} PrefixIsDistinct(some: seq<Image>, all: seq<Image>)
    requires some <= all && Distinct(all)
    ensures Distinct(some)
  {
    forall i, j | 0 <= i < j < |some| ensures some[i].name != some[j].name {
      assert all[i] == some[i] && all[j] == some[j];
    }
  }

  method Knows(images: seq<Image>, name: string) returns (known: bool)
    ensures known <==> exists i :: 0 <= i < |images| && images[i].name == name
  {
    for i := 0 to |images|
      invariant forall j | 0 <= j < i :: images[j].name != name
    {
      if images[i].name == name { return true; }
    }
    return false;
  }

  lemma {:induction false} NameDecides(images: seq<Image>, image: Image)
    requires Distinct(images)
    ensures Distinct(images + [image]) <==> forall i | 0 <= i < |images| :: images[i].name != image.name
  {
    var more := images + [image];
    if Distinct(more) {
      forall i | 0 <= i < |images| ensures images[i].name != image.name {
        assert more[i] == images[i] && more[|images|] == image;
      }
    }
  }

  /** Takes the lines one by one and stops at the first bad one or repeated name. */
  method ParseArgs(lines: seq<seq<string>>, toOffset: ToOffset) returns (r: Result<seq<Image>>)
    ensures r.Ok? ==> ArgsGood(lines, toOffset, r.value)
    ensures r.ValueError? ==> forall images :: !ArgsGood(lines, toOffset, images)
  {
    var images: seq<Image> := [];
    for k := 0 to |lines|
      invariant ArgsGood(lines[..k], toOffset, images)
    {
      var line := lines[k];
      OneMoreLine(lines, k, toOffset);
      if GoodLines(lines, toOffset) { EarlierImages(lines, k + 1, toOffset); }
      if line == [] { continue; }
      var offset := toOffset(line[0]);
      if offset == None {
        if IsOption(line[0]) { continue; }
        return ValueError;
      }
      if |line| != 2 { return ValueError; }
      var image := Image(line[1], offset.value);
      NameDecides(images, image);
      var known := Knows(images, line[1]);
      if known {
        if GoodLines(lines, toOffset) && Distinct(ImagesOf(lines, toOffset)) {
          PrefixIsDistinct(images + [image], ImagesOf(lines, toOffset));
        }
        return ValueError;
      }
      images := images + [image];
    }
    assert lines[..|lines|] == lines;
    return Ok(images);
  }

  /** The check of a build: the flash size option, the arguments, and everything about the images. */
  method CheckBuild(text: string, split: Split, toOffset: ToOffset, merged: seq<byte>, files: Files, md5: Digest)
    returns (ok: bool, images: seq<Image>, ghost table: nat, ghost appOffset: int, ps: seq<Partition>)
    ensures ok ==> BuildGood(text, split, toOffset, merged, images, files, md5, table, appOffset, ps)
    ensures !ok ==> forall is_, t, a, qs :: !BuildGood(text, split, toOffset, merged, is_, files, md5, t, a, qs)
  {
    images, table, appOffset, ps := [], 0, 0, [];
    if !Contains(text, FLASH_SIZE_OPTION) { return false, images, table, appOffset, ps; }
    var lines := split(text);
    if lines == None { return false, images, table, appOffset, ps; }
    var parsed := ParseArgs(lines.value, toOffset);
    if parsed == ValueError { return false, images, table, appOffset, ps; }
    images := parsed.value;
    ok, table, appOffset, ps := Verify(merged, images, files, md5);
  }

  ghost predicate BuildGood(text: string, split: Split, toOffset: ToOffset, merged: seq<byte>, images: seq<Image>,
                            files: Files, md5: Digest, table: nat, appOffset: int, ps: seq<Partition>) {
    && Contains(text, "--flash_size 8MB")
    && split(text).Some? && ArgsGood(split(text).value, toOffset, images)
    && FirmwareGood(merged, images, files, md5, table, appOffset, ps)
  }
}
