/** The boot image that pack.c prints and unpack.c parses, as a layout of bytes (bootheader.h). */
module BootImage {
  import opened Numbers

  // Offsets into struct bootheader, and its size
  const HEADER_SIZE := 56
  const XOR_AT := 7
  const SECTORS_AT := 48
  const CMDLINE_START := 0x3E0
  const CMDLINE_SIZE := 0x400
  const CMDLINE_END := 0x7E0
  const BZ_SIZE_AT := 0x7E0
  const RD_SIZE_AT := 0x7E4
  const BOOTHEADER := 0x33E0

  const SECTOR_SIZE := 512
  const UINT32 := 0x1_0000_0000
  const BUFSIZ := 8192

  // ---------- bytes ----------

  /** Exclusive or of the `k` lowest bits. */
  function XorLow(k: nat, a: nat, b: nat): (r: nat) {
    if k == 0 then 0 else (if a % 2 == b % 2 then 0 else 1) + 2 * XorLow(k - 1, a / 2, b / 2)
  }

  lemma Halves(e: nat, q: nat)
    requires e < 2
    ensures (e + 2 * q) % 2 == e && (e + 2 * q) / 2 == q
  {
  }

  lemma XorLowBits(k: nat, a: nat, b: nat)
    requires k > 0
    ensures XorLow(k, a, b) % 2 == if a % 2 == b % 2 then 0 else 1
    ensures XorLow(k, a, b) / 2 == XorLow(k - 1, a / 2, b / 2)
  {
    Halves(if a % 2 == b % 2 then 0 else 1, XorLow(k - 1, a / 2, b / 2));
  }

  function Power2(k: nat): nat {
    if k == 0 then 1 else 2 * Power2(k - 1)
  }

  lemma {:induction false} XorLowFits(k: nat, a: nat, b: nat)
    ensures XorLow(k, a, b) < Power2(k)
    ensures XorLow(k, a, b) == XorLow(k, b, a) && XorLow(k, a, a) == 0
    ensures a < Power2(k) ==> XorLow(k, a, 0) == a
    decreases k
  {
    if k == 0 {
    } else {
      XorLowFits(k - 1, a / 2, b / 2);
    }
  }

  lemma {:induction false} XorLowSwaps(k: nat, a: nat, b: nat, c: nat)
    ensures XorLow(k, XorLow(k, a, b), c) == XorLow(k, XorLow(k, a, c), b)
    decreases k
  {
    if k == 0 {
    } else {
      XorLowSwaps(k - 1, a / 2, b / 2, c / 2);
      XorLowBits(k, a, b);
      XorLowBits(k, a, c);
    }
  }

  lemma Power2Of8()
    ensures Power2(8) == 256
  {
    assert Power2(4) == 16;
  }

  function Xor(a: Byte, b: Byte): Byte {
    XorLowFits(8, a, b);
    Power2Of8();
    XorLow(8, a, b)
  }

  lemma XorSwaps(a: Byte, b: Byte, c: Byte)
    ensures Xor(Xor(a, b), c) == Xor(Xor(a, c), b)
  {
    XorLowSwaps(8, a, b, c);
  }

  lemma XorCommutes(a: Byte, b: Byte)
    ensures Xor(a, b) == Xor(b, a) && Xor(a, a) == 0
  {
    XorLowFits(8, a, b);
  }

  lemma XorCancels(a: Byte, b: Byte)
    ensures Xor(Xor(a, b), b) == a && Xor(a, 0) == a
  {
    XorCommutes(a, b);
    XorSwaps(b, a, b);
    XorCommutes(b, b);
    XorCommutes(0, a);
    XorLowFits(8, a, b);
    Power2Of8();
  }

  function XorAll(s: seq<Byte>): Byte {
    if s == [] then 0 else Xor(XorAll(s[..|s| - 1]), s[|s| - 1])
  }

  lemma {:induction false} XorAllUpdate(s: seq<Byte>, i: nat, v: Byte)
    requires i < |s|
    ensures XorAll(s[i := v]) == Xor(Xor(XorAll(s), s[i]), v)
  {
    var n := |s| - 1;
    var t := s[i := v];
    if i == n {
      assert t[..n] == s[..n];
      XorCancels(XorAll(s[..n]), s[n]);
    } else {
      assert t[..n] == s[..n][i := v];
      XorAllUpdate(s[..n], i, v);
      XorSwaps(Xor(XorAll(s[..n]), s[i]), v, s[n]);
      XorSwaps(XorAll(s[..n]), s[i], s[n]);
    }
  }

  // htole32, le32toh
  function ToLe32(n: int): (s: seq<Byte>)
    requires 0 <= n < UINT32
    ensures |s| == 4
  {
    [n % 256, n / 256 % 256, n / 256 / 256 % 256, n / 256 / 256 / 256]
  }

  function FromLe32(s: seq<Byte>): int
    requires |s| == 4
  {
    var b0: int, b1: int, b2: int, b3: int := s[0], s[1], s[2], s[3];
    b0 + 256 * b1 + 65536 * b2 + 16777216 * b3
  }

  lemma Digit(d: Byte, rest: int)
    ensures (d + 256 * rest) % 256 == d && (d + 256 * rest) / 256 == rest
  {
  }

  lemma Le32Reads(n: int)
    requires 0 <= n < UINT32
    ensures FromLe32(ToLe32(n)) == n
  {
    assert n == n % 256 + 256 * (n / 256);
    assert n / 256 == n / 256 % 256 + 256 * (n / 256 / 256);
    assert n / 256 / 256 == n / 256 / 256 % 256 + 256 * (n / 256 / 256 / 256);
  }

  lemma Le32Writes(s: seq<Byte>)
    requires |s| == 4
    ensures 0 <= FromLe32(s) < UINT32 && ToLe32(FromLe32(s)) == s
  {
    var b1: int, b2: int, b3: int := s[1], s[2], s[3];
    Digit(s[0], b1 + 256 * b2 + 65536 * b3);
    Digit(s[1], b2 + 256 * b3);
    Digit(s[2], b3);
  }

  // ---------- the header ----------

  predicate IsHeader(h: seq<Byte>) {
    |h| == BOOTHEADER
  }

  /** `v` written over `h` from `at` on. */
  function Put(h: seq<Byte>, at: nat, v: seq<Byte>): (r: seq<Byte>)
    requires at + |v| <= |h|
    ensures |r| == |h|
    ensures forall i :: 0 <= i < |h| ==> r[i] == if at <= i < at + |v| then v[i - at] else h[i]
  {
    h[..at] + v + h[at + |v|..]
  }

  function Le32At(h: seq<Byte>, at: nat): int
    requires at + 4 <= |h|
  {
    FromLe32(h[at..at + 4])
  }

  function Cmdline(h: seq<Byte>): seq<Byte>
    requires |h| >= CMDLINE_END
  {
    h[CMDLINE_START..CMDLINE_END]
  }

  // calculate_checksum
  function Checksum(h: seq<Byte>): Byte
    requires |h| >= HEADER_SIZE
  {
    Xor(XorAll(h[..HEADER_SIZE]), h[XOR_AT])
  }

  function Signed(h: seq<Byte>): (r: seq<Byte>)
    requires |h| >= HEADER_SIZE
    ensures |r| == |h|
  {
    h[XOR_AT := Checksum(h)]
  }

  /** Whatever the byte held before, the first 56 bytes of a signed header cancel out. */
  lemma SignedSumsToZero(h: seq<Byte>)
    requires |h| >= HEADER_SIZE
    ensures XorAll(Signed(h)[..HEADER_SIZE]) == 0
  {
    var s := h[..HEADER_SIZE];
    assert Signed(h)[..HEADER_SIZE] == s[XOR_AT := Checksum(h)];
    XorAllUpdate(s, XOR_AT, Checksum(h));
    XorCommutes(Checksum(h), Checksum(h));
  }

  /** Signing depends on the other bytes only, and is undone by nothing but a different one. */
  lemma SigningIgnoresOldSum(h: seq<Byte>, v: Byte)
    requires |h| >= HEADER_SIZE
    ensures Signed(h[XOR_AT := v]) == Signed(h)
  {
    var s := h[..HEADER_SIZE];
    assert h[XOR_AT := v][..HEADER_SIZE] == s[XOR_AT := v];
    XorAllUpdate(s, XOR_AT, v);
    XorCancels(Xor(XorAll(s), s[XOR_AT]), v);
  }

  lemma SignedIffZero(h: seq<Byte>)
    requires |h| >= HEADER_SIZE
    ensures Signed(h) == h <==> XorAll(h[..HEADER_SIZE]) == 0
  {
    var s := h[..HEADER_SIZE];
    SignedSumsToZero(h);
    XorCommutes(0, s[XOR_AT]);
    XorCancels(s[XOR_AT], 0);
    assert Signed(h)[XOR_AT] == Checksum(h);
  }

  // ---------- pack ----------

  function Wrap(n: int): int {
    n % UINT32
  }

  /** totalImageSize before padding, as the 32 bits it is kept in. */
  function TotalSize(bz: nat, rd: nat): (n: int)
    ensures 0 <= n < UINT32
  {
    Wrap(bz + BOOTHEADER + rd)
  }

  function Paddings(bz: nat, rd: nat): (n: nat)
    ensures n < SECTOR_SIZE
  {
    (SECTOR_SIZE - TotalSize(bz, rd) % SECTOR_SIZE) % SECTOR_SIZE
  }

  function Sectors(bz: nat, rd: nat): (n: int)
    ensures 0 <= n < UINT32
  {
    Wrap(Wrap(TotalSize(bz, rd) + Paddings(bz, rd)) / SECTOR_SIZE - 1)
  }

  function Cut(cmd: seq<Byte>): (r: seq<Byte>)
    ensures |r| <= CMDLINE_SIZE
  {
    if |cmd| > CMDLINE_SIZE then cmd[..CMDLINE_SIZE] else cmd
  }

  /** The command line and the sizes as they are written into the header. */
  function Filled(h: seq<Byte>, bz: nat, rd: nat, cmd: seq<Byte>): (r: seq<Byte>)
    requires IsHeader(h)
    ensures IsHeader(r)
  {
    var h1 := Put(h, CMDLINE_START, Cut(cmd));
    var h2 := Put(h1, BZ_SIZE_AT, ToLe32(Wrap(bz)));
    var h3 := Put(h2, RD_SIZE_AT, ToLe32(Wrap(rd)));
    Put(h3, SECTORS_AT, ToLe32(Sectors(bz, rd)))
  }

  function Ones(n: nat): (s: seq<Byte>)
    ensures |s| == n && forall i :: 0 <= i < n ==> s[i] == 0xff
  {
    seq(n, _ => 0xff)
  }

  /** The image pack.c writes for an origin that holds a whole header. */
  function Pack(origin: seq<Byte>, bz: seq<Byte>, rd: seq<Byte>, cmd: seq<Byte>): seq<Byte>
    requires |origin| >= BOOTHEADER
  {
    Signed(Filled(origin[..BOOTHEADER], |bz|, |rd|, cmd)) + bz + rd + Ones(Paddings(|bz|, |rd|))
  }

  // ---------- unpack ----------

  /** How unpack.c ends: a size that is not there is reported; contents that are not there are waited for. */
  datatype Outcome = Unpacked(cmdline: seq<Byte>, bzImage: seq<Byte>, ramdisk: seq<Byte>) | ReadError | Hangs

  function Unpack(image: seq<Byte>): Outcome {
    if |image| < CMDLINE_END then Hangs
    else if |image| < RD_SIZE_AT + 4 then ReadError
    else
      var bz, rd := Le32At(image, BZ_SIZE_AT), Le32At(image, RD_SIZE_AT);
      Le32Writes(image[BZ_SIZE_AT..BZ_SIZE_AT + 4]);
      Le32Writes(image[RD_SIZE_AT..RD_SIZE_AT + 4]);
      if (bz > 0 && |image| < BOOTHEADER + bz) || (rd > 0 && |image| < BOOTHEADER + bz + rd) then Hangs
      else Unpacked(Cmdline(image), Part(image, BOOTHEADER, bz), Part(image, BOOTHEADER + bz, rd))
  }

  function Part(image: seq<Byte>, at: nat, n: nat): seq<Byte>
    requires n > 0 ==> at + n <= |image|
  {
    if n == 0 then [] else image[at..at + n]
  }

  // ---------- the two together ----------

  lemma PutRead(h: seq<Byte>, at: nat, v: seq<Byte>)
    requires at + |v| <= |h|
    ensures Put(h, at, v)[at..at + |v|] == v
  {
  }

  lemma ReadPut(h: seq<Byte>, at: nat, n: nat)
    requires at + n <= |h|
    ensures Put(h, at, h[at..at + n]) == h
  {
  }

  /** A field written elsewhere is not disturbed. */
  lemma PutApart(h: seq<Byte>, at: nat, v: seq<Byte>, from: nat, n: nat)
    requires at + |v| <= |h| && from + n <= |h| && (at + |v| <= from || from + n <= at)
    ensures Put(h, at, v)[from..from + n] == h[from..from + n]
  {
  }

  lemma FilledSizes(h: seq<Byte>, bz: nat, rd: nat, cmd: seq<Byte>)
    requires IsHeader(h)
    ensures var f := Filled(h, bz, rd, cmd);
            Le32At(f, BZ_SIZE_AT) == Wrap(bz) && Le32At(f, RD_SIZE_AT) == Wrap(rd) && Le32At(f, SECTORS_AT) == Sectors(bz, rd)
  {
    var h1 := Put(h, CMDLINE_START, Cut(cmd));
    var h2 := Put(h1, BZ_SIZE_AT, ToLe32(Wrap(bz)));
    var h3 := Put(h2, RD_SIZE_AT, ToLe32(Wrap(rd)));
    PutRead(h1, BZ_SIZE_AT, ToLe32(Wrap(bz)));
    PutApart(h2, RD_SIZE_AT, ToLe32(Wrap(rd)), BZ_SIZE_AT, 4);
    PutApart(h3, SECTORS_AT, ToLe32(Sectors(bz, rd)), BZ_SIZE_AT, 4);
    PutRead(h2, RD_SIZE_AT, ToLe32(Wrap(rd)));
    PutApart(h3, SECTORS_AT, ToLe32(Sectors(bz, rd)), RD_SIZE_AT, 4);
    PutRead(h3, SECTORS_AT, ToLe32(Sectors(bz, rd)));
    Le32Reads(Wrap(bz));
    Le32Reads(Wrap(rd));
    Le32Reads(Sectors(bz, rd));
  }

  lemma FilledCmdline(h: seq<Byte>, bz: nat, rd: nat, cmd: seq<Byte>)
    requires IsHeader(h)
    ensures Cmdline(Filled(h, bz, rd, cmd)) == Cut(cmd) + Cmdline(h)[|Cut(cmd)|..]
  {
  }

  lemma SignedFields(h: seq<Byte>, image: seq<Byte>)
    requires IsHeader(h) && Signed(h) <= image
    ensures Le32At(image, BZ_SIZE_AT) == Le32At(h, BZ_SIZE_AT) && Le32At(image, RD_SIZE_AT) == Le32At(h, RD_SIZE_AT)
    ensures Le32At(image, SECTORS_AT) == Le32At(h, SECTORS_AT) && Cmdline(image) == Cmdline(h)
  {
    assert forall i :: 0 <= i < BOOTHEADER && i != XOR_AT ==> image[i] == h[i];
    assert image[BZ_SIZE_AT..BZ_SIZE_AT + 4] == h[BZ_SIZE_AT..BZ_SIZE_AT + 4];
    assert image[RD_SIZE_AT..RD_SIZE_AT + 4] == h[RD_SIZE_AT..RD_SIZE_AT + 4];
    assert image[SECTORS_AT..SECTORS_AT + 4] == h[SECTORS_AT..SECTORS_AT + 4];
  }

  lemma PackStarts(origin: seq<Byte>, bz: seq<Byte>, rd: seq<Byte>, cmd: seq<Byte>)
    requires |origin| >= BOOTHEADER
    ensures var image, h := Pack(origin, bz, rd, cmd), Filled(origin[..BOOTHEADER], |bz|, |rd|, cmd);
      && Signed(h) <= image && image[..BOOTHEADER] == Signed(h)
      && |image| == BOOTHEADER + |bz| + |rd| + Paddings(|bz|, |rd|)
      && image[BOOTHEADER..] == bz + rd + Ones(Paddings(|bz|, |rd|))
  {
  }

  /** What a packed image says of itself. */
  lemma PackFields(origin: seq<Byte>, bz: seq<Byte>, rd: seq<Byte>, cmd: seq<Byte>)
    requires |origin| >= BOOTHEADER
    ensures var image := Pack(origin, bz, rd, cmd);
      && |image| == BOOTHEADER + |bz| + |rd| + Paddings(|bz|, |rd|)
      && Le32At(image, BZ_SIZE_AT) == Wrap(|bz|) && Le32At(image, RD_SIZE_AT) == Wrap(|rd|)
      && Le32At(image, SECTORS_AT) == Sectors(|bz|, |rd|)
      && Cmdline(image) == Cut(cmd) + Cmdline(origin)[|Cut(cmd)|..]
  {
    var h := origin[..BOOTHEADER];
    PackStarts(origin, bz, rd, cmd);
    SignedFields(Filled(h, |bz|, |rd|, cmd), Pack(origin, bz, rd, cmd));
    FilledSizes(h, |bz|, |rd|, cmd);
    FilledCmdline(h, |bz|, |rd|, cmd);
    assert Cmdline(h) == Cmdline(origin);
  }

  /** The image fills whole sectors, with fewer than 512 bytes of 0xff at its end. */
  lemma PackFillsSectors(origin: seq<Byte>, bz: seq<Byte>, rd: seq<Byte>, cmd: seq<Byte>)
    requires |origin| >= BOOTHEADER
    ensures var image, padding := Pack(origin, bz, rd, cmd), Paddings(|bz|, |rd|);
      && |image| % SECTOR_SIZE == 0 && padding < SECTOR_SIZE && padding <= |image|
      && (forall i :: |image| - padding <= i < |image| ==> image[i] == 0xff)
  {
    var image, padding := Pack(origin, bz, rd, cmd), Paddings(|bz|, |rd|);
    PackStarts(origin, bz, rd, cmd);
    SectorsAlign(|bz|, |rd|);
    assert image[|image| - padding..] == Ones(padding);
    assert forall i :: |image| - padding <= i < |image| ==> image[i] == image[|image| - padding..][i - (|image| - padding)];
  }

  lemma SectorsAlign(bz: nat, rd: nat)
    ensures (BOOTHEADER + bz + rd + Paddings(bz, rd)) % SECTOR_SIZE == 0
  {
    var n := bz + BOOTHEADER + rd;
    assert Wrap(n) == n - UINT32 * (n / UINT32);
    assert UINT32 == SECTOR_SIZE * 8388608;
    ModOfMultiple(n, n / UINT32);
  }

  lemma ModOfMultiple(n: int, k: int)
    ensures (n - UINT32 * k) % SECTOR_SIZE == n % SECTOR_SIZE
  {
    var q := n / SECTOR_SIZE - 8388608 * k;
    assert n - UINT32 * k == SECTOR_SIZE * q + n % SECTOR_SIZE;
  }

  /** The sector count tells the length of the image exactly when that is below 2^32, or 2^41. */
  lemma SectorCountIsLength(origin: seq<Byte>, bz: seq<Byte>, rd: seq<Byte>, cmd: seq<Byte>)
    requires |origin| >= BOOTHEADER
    ensures var image := Pack(origin, bz, rd, cmd);
      (Le32At(image, SECTORS_AT) + 1) * SECTOR_SIZE == |image| <==> |image| < UINT32 || |image| == SECTOR_SIZE * UINT32
  {
    PackFields(origin, bz, rd, cmd);
    SectorsAlign(|bz|, |rd|);
    var length := |Pack(origin, bz, rd, cmd)|;
    WrapSum(|bz| + BOOTHEADER + |rd|, Paddings(|bz|, |rd|));
    SectorsOf(length);
  }

  lemma WrapSum(a: int, b: int)
    ensures Wrap(Wrap(a) + b) == Wrap(a + b)
  {
  }

  lemma SectorsOf(length: int)
    requires length > 0 && length % SECTOR_SIZE == 0
    ensures (Wrap(Wrap(length) / SECTOR_SIZE - 1) + 1) * SECTOR_SIZE == length <==>
            length < UINT32 || length == SECTOR_SIZE * UINT32
  {
    var t := Wrap(length);
    ModOfMultiple(length, length / UINT32);
    assert t == length - UINT32 * (length / UINT32);
    assert t % SECTOR_SIZE == 0;
    if t == 0 {
      assert Wrap(-1) == UINT32 - 1;
    } else {
      assert 0 < t / SECTOR_SIZE < UINT32;
      assert Wrap(t / SECTOR_SIZE - 1) == t / SECTOR_SIZE - 1;
    }
  }

  lemma WrapIs(n: nat)
    ensures Wrap(n) <= n && (Wrap(n) == n <==> n < UINT32)
  {
  }

  lemma UnpackIs(image: seq<Byte>, bz: nat, rd: nat)
    requires BOOTHEADER + bz + rd <= |image|
    requires Le32At(image, BZ_SIZE_AT) == bz && Le32At(image, RD_SIZE_AT) == rd
    ensures Unpack(image) ==
            Unpacked(Cmdline(image), image[BOOTHEADER..BOOTHEADER + bz], image[BOOTHEADER + bz..BOOTHEADER + bz + rd])
  {
  }

  /** Unpacking always ends; it returns the command line with the origin's own tail, and what the sizes, as
      32 bits, say is there. */
  lemma UnpackOfPack(origin: seq<Byte>, bz: seq<Byte>, rd: seq<Byte>, cmd: seq<Byte>)
    requires |origin| >= BOOTHEADER
    ensures var image, b, r := Pack(origin, bz, rd, cmd), Wrap(|bz|), Wrap(|rd|);
      && BOOTHEADER + b + r <= |image|
      && Unpack(image) == Unpacked(Cut(cmd) + Cmdline(origin)[|Cut(cmd)|..],
                                   image[BOOTHEADER..BOOTHEADER + b], image[BOOTHEADER + b..BOOTHEADER + b + r])
  {
    PackFields(origin, bz, rd, cmd);
    WrapIs(|bz|);
    WrapIs(|rd|);
    UnpackIs(Pack(origin, bz, rd, cmd), Wrap(|bz|), Wrap(|rd|));
  }

  lemma Contents(image: seq<Byte>, bz: seq<Byte>, rd: seq<Byte>, tail: seq<Byte>)
    requires |image| >= BOOTHEADER && image[BOOTHEADER..] == bz + rd + tail
    ensures BOOTHEADER + |bz| + |rd| <= |image|
    ensures image[BOOTHEADER..BOOTHEADER + |bz|] == bz
    ensures image[BOOTHEADER + |bz|..BOOTHEADER + |bz| + |rd|] == rd
  {
    var body := image[BOOTHEADER..];
    assert image[BOOTHEADER..BOOTHEADER + |bz|] == body[..|bz|];
    assert image[BOOTHEADER + |bz|..BOOTHEADER + |bz| + |rd|] == body[|bz|..|bz| + |rd|];
  }

  /** The round trip: kernel and ramdisk come back exactly when each is below 4 GiB. */
  lemma RoundTrip(origin: seq<Byte>, bz: seq<Byte>, rd: seq<Byte>, cmd: seq<Byte>)
    requires |origin| >= BOOTHEADER
    ensures var t := Unpack(Pack(origin, bz, rd, cmd));
      && t.Unpacked? && Cut(cmd) <= t.cmdline && |t.cmdline| == CMDLINE_SIZE
      && (t.bzImage == bz && t.ramdisk == rd <==> |bz| < UINT32 && |rd| < UINT32)
  {
    UnpackOfPack(origin, bz, rd, cmd);
    WrapIs(|bz|);
    WrapIs(|rd|);
    if |bz| < UINT32 && |rd| < UINT32 {
      PackStarts(origin, bz, rd, cmd);
      Contents(Pack(origin, bz, rd, cmd), bz, rd, Ones(Paddings(|bz|, |rd|)));
    }
  }

  // ---------- repacking ----------

  lemma FilledAgain(h: seq<Byte>, v: Byte, bz: nat, rd: nat, cmd: seq<Byte>)
    requires IsHeader(h)
    ensures var f := Filled(h, bz, rd, cmd);
            Filled(f[XOR_AT := v], bz, rd, Cmdline(f)) == f[XOR_AT := v]
  {
    var f := Filled(h, bz, rd, cmd);
    var g := f[XOR_AT := v];
    FilledSizes(h, bz, rd, cmd);
    assert Cmdline(g) == Cmdline(f);
    FilledWithOwn(g, bz, rd);
  }

  /** Filling in what is there already changes nothing. */
  lemma FilledWithOwn(g: seq<Byte>, bz: nat, rd: nat)
    requires IsHeader(g)
    ensures Filled(g, bz, rd, Cmdline(g)) == g <==>
      Le32At(g, BZ_SIZE_AT) == Wrap(bz) && Le32At(g, RD_SIZE_AT) == Wrap(rd) && Le32At(g, SECTORS_AT) == Sectors(bz, rd)
  {
    FilledSizes(g, bz, rd, Cmdline(g));
    if Le32At(g, BZ_SIZE_AT) == Wrap(bz) && Le32At(g, RD_SIZE_AT) == Wrap(rd) && Le32At(g, SECTORS_AT) == Sectors(bz, rd) {
      ReadPut(g, CMDLINE_START, CMDLINE_SIZE);
      Le32Writes(g[BZ_SIZE_AT..BZ_SIZE_AT + 4]);
      ReadPut(g, BZ_SIZE_AT, 4);
      Le32Writes(g[RD_SIZE_AT..RD_SIZE_AT + 4]);
      ReadPut(g, RD_SIZE_AT, 4);
      Le32Writes(g[SECTORS_AT..SECTORS_AT + 4]);
      ReadPut(g, SECTORS_AT, 4);
    }
  }

  /** A packed image repacked with its own parts is itself, whatever their size. */
  lemma RepackIsFixed(origin: seq<Byte>, bz: seq<Byte>, rd: seq<Byte>, cmd: seq<Byte>)
    requires |origin| >= BOOTHEADER
    ensures var image := Pack(origin, bz, rd, cmd);
            Pack(image, bz, rd, Cmdline(image)) == image
  {
    var image := Pack(origin, bz, rd, cmd);
    var f := Filled(origin[..BOOTHEADER], |bz|, |rd|, cmd);
    PackStarts(origin, bz, rd, cmd);
    SignedFields(f, image);
    FilledAgain(origin[..BOOTHEADER], Checksum(f), |bz|, |rd|, cmd);
    SigningIgnoresOldSum(f, Checksum(f));
    assert image[..BOOTHEADER] == Signed(f);
  }

  /** What an image that can be unpacked must look like for pack.c to reproduce it. */
  ghost predicate Canonical(image: seq<Byte>)
    requires Unpack(image).Unpacked? && |image| >= BOOTHEADER
  {
    var bz, rd := |Unpack(image).bzImage|, |Unpack(image).ramdisk|;
    && XorAll(image[..HEADER_SIZE]) == 0
    && Le32At(image, SECTORS_AT) == Sectors(bz, rd)
    && image[BOOTHEADER + bz + rd..] == Ones(Paddings(bz, rd))
  }

  lemma UnpackedParts(image: seq<Byte>)
    requires Unpack(image).Unpacked? && |image| >= BOOTHEADER
    ensures var t := Unpack(image); var bz, rd := |t.bzImage|, |t.ramdisk|;
      && BOOTHEADER + bz + rd <= |image| && bz == Le32At(image, BZ_SIZE_AT) && rd == Le32At(image, RD_SIZE_AT)
      && bz < UINT32 && rd < UINT32 && t.cmdline == Cmdline(image)
      && image == image[..BOOTHEADER] + t.bzImage + t.ramdisk + image[BOOTHEADER + bz + rd..]
  {
    Le32Writes(image[BZ_SIZE_AT..BZ_SIZE_AT + 4]);
    Le32Writes(image[RD_SIZE_AT..RD_SIZE_AT + 4]);
  }

  /** Unpacking and packing again gives the same image back exactly when it is canonical. */
  lemma RepackIffCanonical(image: seq<Byte>)
    requires Unpack(image).Unpacked? && |image| >= BOOTHEADER
    ensures var t := Unpack(image);
            Pack(image, t.bzImage, t.ramdisk, t.cmdline) == image <==> Canonical(image)
  {
    var t := Unpack(image);
    var bz, rd, h := |t.bzImage|, |t.ramdisk|, image[..BOOTHEADER];
    var again := Pack(image, t.bzImage, t.ramdisk, t.cmdline);
    UnpackedParts(image);
    PackStarts(image, t.bzImage, t.ramdisk, t.cmdline);
    HeaderFields(image);
    HeaderRepeats(h, bz, rd);
    assert again[BOOTHEADER + bz + rd..] == Ones(Paddings(bz, rd));
    assert h[..HEADER_SIZE] == image[..HEADER_SIZE];
  }

  lemma HeaderFields(image: seq<Byte>)
    requires |image| >= BOOTHEADER
    ensures var h := image[..BOOTHEADER];
      && Cmdline(h) == Cmdline(image) && Le32At(h, BZ_SIZE_AT) == Le32At(image, BZ_SIZE_AT)
      && Le32At(h, RD_SIZE_AT) == Le32At(image, RD_SIZE_AT) && Le32At(h, SECTORS_AT) == Le32At(image, SECTORS_AT)
  {
    var h := image[..BOOTHEADER];
    assert h[BZ_SIZE_AT..BZ_SIZE_AT + 4] == image[BZ_SIZE_AT..BZ_SIZE_AT + 4];
    assert h[RD_SIZE_AT..RD_SIZE_AT + 4] == image[RD_SIZE_AT..RD_SIZE_AT + 4];
    assert h[SECTORS_AT..SECTORS_AT + 4] == image[SECTORS_AT..SECTORS_AT + 4];
  }

  lemma HeaderRepeats(h: seq<Byte>, bz: nat, rd: nat)
    requires IsHeader(h) && Le32At(h, BZ_SIZE_AT) == bz < UINT32 && Le32At(h, RD_SIZE_AT) == rd < UINT32
    ensures Signed(Filled(h, bz, rd, Cmdline(h))) == h <==>
            XorAll(h[..HEADER_SIZE]) == 0 && Le32At(h, SECTORS_AT) == Sectors(bz, rd)
  {
    WrapIs(bz);
    WrapIs(rd);
    if XorAll(h[..HEADER_SIZE]) == 0 && Le32At(h, SECTORS_AT) == Sectors(bz, rd) {
      FilledWithOwn(h, bz, rd);
      SignedIffZero(h);
    } else if Signed(Filled(h, bz, rd, Cmdline(h))) == h {
      SignedAlready(Filled(h, bz, rd, Cmdline(h)), h);
      FilledSizes(h, bz, rd, Cmdline(h));
    }
  }

  lemma SignedAlready(f: seq<Byte>, h: seq<Byte>)
    requires IsHeader(f) && Signed(f) == h
    ensures XorAll(h[..HEADER_SIZE]) == 0 && Le32At(h, SECTORS_AT) == Le32At(f, SECTORS_AT)
  {
    SignedSumsToZero(f);
    SignedFields(f, h);
  }
}
