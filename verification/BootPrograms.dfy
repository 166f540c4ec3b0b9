/** pack.c and unpack.c as programs over files: a header patched in place, chunked copies, a moving
    file position. */
module BootPrograms {
  import opened BootImage
  import opened BootLayout
  import opened Numbers

  /** A file open for reading. */
  class Input {
    const data: seq<Byte>
    var pos: nat

    constructor (data: seq<Byte>)
      ensures this.data == data && pos == 0
    {
      this.data, this.pos := data, 0;
    }

    function Rest(): (r: seq<Byte>)
      reads this`pos
    {
      if pos > |data| then [] else data[pos..]
    }

    // fread: fewer bytes than asked for only at the end of the file
    method Read(n: nat) returns (chunk: seq<Byte>)
      modifies this`pos
      ensures |chunk| == (if n < |old(Rest())| then n else |old(Rest())|)
      ensures old(Rest()) == chunk + Rest() && pos == old(pos) + |chunk|
    {
      var rest := Rest();
      chunk := if n < |rest| then rest[..n] else rest;
      pos := pos + |chunk|;
    }

    // fseek, with SEEK_SET
    method Seek(to: nat)
      modifies this`pos
      ensures pos == to
    {
      pos := to;
    }
  }

  /** A file open for writing. */
  class Output {
    var data: seq<Byte>

    constructor ()
      ensures data == []
    {
      data := [];
    }

    method Write(chunk: seq<Byte>)
      modifies this
      ensures data == old(data) + chunk
    {
      data := data + chunk;
    }
  }

  // ---------- pack.c ----------

  /** calculate_checksum */
  method CalculateChecksum(file: array<Byte>) returns (sum: Byte)
    requires file.Length >= HEADER_SIZE
    ensures sum == Checksum(file[..])
  {
    sum := file[XOR_AT];
    XorCancels(sum, 0);
    XorCommutes(sum, 0);
    for i := 0 to HEADER_SIZE
      invariant sum == Xor(XorAll(file[..i]), file[XOR_AT])
    {
      XorSwaps(XorAll(file[..i]), file[XOR_AT], file[i]);
      assert file[..i + 1][..i] == file[..i];
      sum := Xor(sum, file[i]);
    }
    assert file[..][..HEADER_SIZE] == file[..HEADER_SIZE];
  }

  /** pack.c: a field of the header, in little-endian order */
  method StoreLe32(file: array<Byte>, at: nat, n: int)
    requires at + 4 <= file.Length && 0 <= n < UINT32
    modifies file
    ensures file[..] == Put(old(file[..]), at, ToLe32(n))
  {
    var v := ToLe32(n);
    file[at], file[at + 1], file[at + 2], file[at + 3] := v[0], v[1], v[2], v[3];
  }

  lemma Extends(was: seq<Byte>, rest: seq<Byte>, k: nat, chunk: seq<Byte>, left: seq<Byte>)
    requires k <= |rest| && rest[k..] == chunk + left
    ensures k + |chunk| <= |rest| && left == rest[k + |chunk|..]
    ensures was + rest[..k] + chunk == was + rest[..k + |chunk|]
  {
    assert |rest| - k == |chunk| + |left|;
    assert rest[k..][..|chunk|] == chunk && rest[k..][|chunk|..] == left;
    assert rest[..k + |chunk|] == rest[..k] + rest[k..][..|chunk|];
  }

  lemma PutOneMore(h: seq<Byte>, at: nat, v: seq<Byte>, k: nat)
    requires k < |v| && at + |v| <= |h|
    ensures Put(h, at, v[..k + 1]) == Put(h, at, v[..k])[at + k := v[k]]
  {
  }

  /** pack.c: one byte of the command line; at the end of its file the old byte stays */
  method CopyByte(cmd: Input, file: array<Byte>, i: nat, ghost h: seq<Byte>)
    requires i < CMDLINE_SIZE && file.Length == BOOTHEADER == |h|
    requires cmd.pos == (if i < |Cut(cmd.data)| then i else |Cut(cmd.data)|)
    requires file[..] == Put(h, CMDLINE_START, Cut(cmd.data)[..cmd.pos])
    modifies cmd`pos, file
    ensures cmd.pos == if i + 1 < |Cut(cmd.data)| then i + 1 else |Cut(cmd.data)|
    ensures file[..] == Put(h, CMDLINE_START, Cut(cmd.data)[..cmd.pos])
  {
    ghost var v, k := Cut(cmd.data), cmd.pos;
    var c := cmd.Read(1);
    if |c| == 1 {
      assert c[0] == v[k];
      PutOneMore(h, CMDLINE_START, v, k);
      file[CMDLINE_START + i] := c[0];
    }
  }

  /** pack.c: the command line, byte by byte */
  method CopyCmdline(cmd: Input, file: array<Byte>)
    requires cmd.pos == 0 && file.Length == BOOTHEADER
    modifies cmd`pos, file
    ensures file[..] == Put(old(file[..]), CMDLINE_START, Cut(cmd.data))
  {
    var i := 0;
    ghost var v, h := Cut(cmd.data), file[..];
    assert Put(h, CMDLINE_START, v[..0]) == h;
    while i < CMDLINE_SIZE
      invariant i <= CMDLINE_SIZE && cmd.pos == (if i < |v| then i else |v|)
      invariant file[..] == Put(h, CMDLINE_START, v[..cmd.pos])
    {
      CopyByte(cmd, file, i, h);
      i := i + 1;
    }
    assert v[..|v|] == v;
  }

  /** pack.c: a whole file, a buffer at a time */
  method CopyAll(input: Input, out: Output)
    modifies input`pos, out
    ensures out.data == old(out.data) + old(input.Rest())
  {
    ghost var rest, was, k := input.Rest(), out.data, 0;
    while true
      invariant k <= |rest| && out.data == was + rest[..k] && input.Rest() == rest[k..]
      decreases |rest| - k
    {
      var chunk := input.Read(BUFSIZ);
      if |chunk| == 0 {
        break;
      }
      Extends(was, rest, k, chunk, input.Rest());
      out.Write(chunk);
      k := k + |chunk|;
    }
  }

  /** pack.c: the total size, as 32 bits, decides padding and sector count */
  method LayOut(bzSize: nat, rdSize: nat) returns (paddings: nat, sectors: int)
    ensures paddings == Paddings(bzSize, rdSize) && sectors == Sectors(bzSize, rdSize)
  {
    var totalImageSize := bzSize % UINT32;
    totalImageSize := (totalImageSize + BOOTHEADER) % UINT32;
    totalImageSize := (totalImageSize + rdSize % UINT32) % UINT32;
    TotalIs(bzSize, rdSize);
    paddings := 0;
    if totalImageSize % SECTOR_SIZE > 0 {
      paddings := SECTOR_SIZE - totalImageSize % SECTOR_SIZE;
      totalImageSize := (totalImageSize + paddings) % UINT32;
    }
    sectors := (totalImageSize / SECTOR_SIZE - 1) % UINT32;
  }

  /** pack.c: the sizes go into the header */
  method StoreSizes(file: array<Byte>, bzSize: nat, rdSize: nat, sectors: int)
    requires file.Length == BOOTHEADER && sectors == Sectors(bzSize, rdSize)
    modifies file
    ensures file[..] ==
      var h := Put(Put(old(file[..]), BZ_SIZE_AT, ToLe32(Wrap(bzSize))), RD_SIZE_AT, ToLe32(Wrap(rdSize)));
      Put(h, SECTORS_AT, ToLe32(Sectors(bzSize, rdSize)))
  {
    StoreLe32(file, BZ_SIZE_AT, bzSize % UINT32);
    StoreLe32(file, RD_SIZE_AT, rdSize % UINT32);
    StoreLe32(file, SECTORS_AT, sectors);
  }

  /** pack.c: the header of the new image */
  method PatchHeader(file: array<Byte>, cmdline: Input, bzSize: nat, rdSize: nat) returns (paddings: nat)
    requires file.Length == BOOTHEADER && cmdline.pos == 0
    modifies file, cmdline`pos
    ensures file[..] == Signed(Filled(old(file[..]), bzSize, rdSize, cmdline.data))
    ensures paddings == Paddings(bzSize, rdSize)
    ensures paddings < 512 && (0x33E0 + bzSize + rdSize + paddings) % 512 == 0
    ensures Holds32(file[..], 0x7E0, bzSize) && Holds32(file[..], 0x7E4, rdSize)
    ensures Holds32(file[..], 48, ((0x33E0 + bzSize + rdSize + paddings) % 0x1_0000_0000 / 512 - 1) % 0x1_0000_0000)
  {
    FieldBytes(file[..], bzSize, rdSize, cmdline.data);
    SectorsAlign(bzSize, rdSize);
    CopyCmdline(cmdline, file);
    var sectors;
    paddings, sectors := LayOut(bzSize, rdSize);
    StoreSizes(file, bzSize, rdSize, sectors);
    file[XOR_AT] := CalculateChecksum(file);
  }

  lemma TotalIs(bz: nat, rd: nat)
    ensures ((bz % UINT32 + BOOTHEADER) % UINT32 + rd % UINT32) % UINT32 == TotalSize(bz, rd)
  {
    WrapSum(bz, BOOTHEADER);
    WrapSum(bz + BOOTHEADER, rd % UINT32);
    WrapSum(rd, bz + BOOTHEADER);
  }

  /** pack.c: kernel, ramdisk and padding follow the header */
  method CopyContents(bzImage: Input, ramdisk: Input, paddings: nat, out: Output)
    requires bzImage != ramdisk && bzImage.pos == 0 && ramdisk.pos == 0
    modifies bzImage`pos, ramdisk`pos, out
    ensures out.data == old(out.data) + bzImage.data + ramdisk.data + Ones(paddings)
  {
    CopyAll(bzImage, out);
    CopyAll(ramdisk, out);
    if paddings != 0 {
      out.Write(Ones(paddings));
    }
  }

  /** pack.c: the header that was read, in an array */
  method LoadHeader(bootstub: seq<Byte>) returns (file: array<Byte>)
    requires |bootstub| == BOOTHEADER
    ensures fresh(file) && file[..] == bootstub
  {
    file := new Byte[BOOTHEADER](i requires 0 <= i < BOOTHEADER => bootstub[i]);
    assert file[..] == bootstub;
  }

  /** pack.c: the patched header, then the contents */
  method WriteImage(bootstub: seq<Byte>, bzImage: Input, ramdisk: Input, cmdline: Input, out: Output)
    requires |bootstub| == BOOTHEADER && bzImage.pos == 0 && ramdisk.pos == 0 && cmdline.pos == 0 && out.data == []
    requires bzImage != ramdisk && bzImage != cmdline && ramdisk != cmdline
    modifies bzImage`pos, ramdisk`pos, cmdline`pos, out
    ensures out.data == Signed(Filled(bootstub, |bzImage.data|, |ramdisk.data|, cmdline.data)) + bzImage.data
                        + ramdisk.data + Ones(Paddings(|bzImage.data|, |ramdisk.data|))
  {
    var file := LoadHeader(bootstub);
    var paddings := PatchHeader(file, cmdline, |bzImage.data|, |ramdisk.data|);
    out.Write(file[..]);
    CopyContents(bzImage, ramdisk, paddings, out);
  }

  /** pack.c's main, once its files are open */
  method PackMain(origin: Input, bzImage: Input, ramdisk: Input, cmdline: Input, out: Output) returns (ok: bool)
    requires origin.pos == 0 && bzImage.pos == 0 && ramdisk.pos == 0 && cmdline.pos == 0 && out.data == []
    requires origin != bzImage && origin != ramdisk && origin != cmdline
    requires bzImage != ramdisk && bzImage != cmdline && ramdisk != cmdline
    modifies origin`pos, bzImage`pos, ramdisk`pos, cmdline`pos, out
    ensures ok <==> |origin.data| >= BOOTHEADER
    ensures ok ==> out.data == Pack(origin.data, bzImage.data, ramdisk.data, cmdline.data)
    ensures !ok ==> out.data == []
  {
    var bootstub := origin.Read(BOOTHEADER);
    if |bootstub| != BOOTHEADER {
      return false;
    }
    assert bootstub == origin.data[..BOOTHEADER];
    WriteImage(bootstub, bzImage, ramdisk, cmdline, out);
    return true;
  }

  // ---------- unpack.c ----------

  /** unpack.c: `n` bytes from the file's position; it never gets past the end of a file that is too short. */
  method CopyMissing(image: Input, n: nat, out: Output) returns (stuck: bool)
    modifies image`pos, out
    ensures stuck <==> n > |old(image.Rest())|
    ensures !stuck ==> out.data == old(out.data) + old(image.Rest())[..n]
  {
    var missing := n;
    ghost var rest, was := image.Rest(), out.data;
    while missing > 0
      invariant 0 <= missing <= n && n - missing <= |rest|
      invariant out.data == was + rest[..n - missing] && image.Rest() == rest[n - missing..]
    {
      var chunk := image.Read(if missing > BUFSIZ then BUFSIZ else missing);
      if |chunk| != 0 {
        Extends(was, rest, n - missing, chunk, image.Rest());
        out.Write(chunk);
        missing := missing - |chunk|;
      } else {
        return true;
      }
    }
    assert missing == 0 && rest[..n - missing] == rest[..n];
    return false;
  }

  /** unpack.c: seek, then copy */
  method CopyPart(image: Input, at: nat, n: nat, out: Output) returns (stuck: bool)
    requires out.data == []
    modifies image`pos, out
    ensures stuck <==> n > 0 && at + n > |image.data|
    ensures !stuck ==> out.data == Part(image.data, at, n)
  {
    image.Seek(at);
    stuck := CopyMissing(image, n, out);
    if !stuck && n > 0 {
      assert image.data[at..][..n] == image.data[at..at + n];
    }
  }

  /** unpack.c: a size out of the header */
  method ReadSize(image: Input, at: nat) returns (ok: bool, size: int)
    modifies image`pos
    ensures ok <==> at + 4 <= |image.data|
    ensures ok ==> size == Le32At(image.data, at) && 0 <= size < UINT32
  {
    image.Seek(at);
    var word := image.Read(4);
    if |word| != 4 {
      return false, 0;
    }
    assert word == image.data[at..at + 4];
    Le32Writes(word);
    return true, FromLe32(word);
  }

  datatype End = Finished | Failed | Forever

  /** unpack.c's main, once its files are open */
  method UnpackMain(image: Input, bzImage: Output, ramdisk: Output, cmdline: Output) returns (end: End)
    requires bzImage != ramdisk && bzImage != cmdline && ramdisk != cmdline
    requires bzImage.data == [] && ramdisk.data == [] && cmdline.data == []
    modifies image`pos, bzImage, ramdisk, cmdline
    ensures match Unpack(image.data)
      case Unpacked(c, b, r) => end == Finished && cmdline.data == c && bzImage.data == b && ramdisk.data == r
      case ReadError => end == Failed
      case Hangs => end == Forever
  {
    var stuck := CopyPart(image, CMDLINE_START, CMDLINE_SIZE, cmdline);
    if stuck {
      return Forever;
    }
    var ok, bzLen := ReadSize(image, CMDLINE_END);
    if !ok {
      return Failed;
    }
    var rdLen;
    ok, rdLen := ReadSize(image, CMDLINE_END + 4);
    if !ok {
      return Failed;
    }
    stuck := CopyPart(image, BOOTHEADER, bzLen, bzImage);
    if stuck {
      return Forever;
    }
    stuck := CopyPart(image, BOOTHEADER + bzLen, rdLen, ramdisk);
    if stuck {
      return Forever;
    }
    return Finished;
  }
}
