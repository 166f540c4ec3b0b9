/** Where everything lies in a boot image (bootheader.h), byte by byte: of what pack.c writes and of what unpack.c
    reads. */
module BootLayout {
  import opened BootImage
  import opened Numbers

  // ---------- what pack.c writes ----------

  /** A 32-bit field, low byte first. */
  predicate Holds32(image: seq<Byte>, at: nat, n: nat)
    requires at + 4 <= |image|
  {
    && image[at] == n % 256 && image[at + 1] == n / 256 % 256
    && image[at + 2] == n / 65536 % 256 && image[at + 3] == n / 16777216 % 256
  }

  /** The three 32-bit fields. The sector count is the length of the image, as 32 bits, in sectors less one. */
  lemma FieldBytes(h: seq<Byte>, bz: nat, rd: nat, cmd: seq<Byte>)
    requires |h| == 0x33E0
    ensures var f, length := Signed(Filled(h, bz, rd, cmd)), 0x33E0 + bz + rd + Paddings(bz, rd);
      && Holds32(f, 0x7E0, bz) && Holds32(f, 0x7E4, rd)
      && Holds32(f, 48, (length % 0x1_0000_0000 / 512 - 1) % 0x1_0000_0000)
  {
    var f := Filled(h, bz, rd, cmd);
    assert forall i :: 0 <= i < 0x33E0 && i != 7 ==> Signed(f)[i] == f[i];
    WrappedDigits(bz);
    WrappedDigits(rd);
    Digits(Sectors(bz, rd));
    WrapSum(bz + BOOTHEADER + rd, Paddings(bz, rd));
  }

  lemma SizeBytes(origin: seq<Byte>, bz: seq<Byte>, rd: seq<Byte>, cmd: seq<Byte>)
    requires |origin| >= 0x33E0
    ensures var image := Pack(origin, bz, rd, cmd);
      && |image| >= 0x33E0 && Holds32(image, 0x7E0, |bz|) && Holds32(image, 0x7E4, |rd|)
      && Holds32(image, 48, (|image| % 0x1_0000_0000 / 512 - 1) % 0x1_0000_0000)
  {
    PackStarts(origin, bz, rd, cmd);
    FieldBytes(origin[..BOOTHEADER], |bz|, |rd|, cmd);
  }

  lemma Digits(n: int)
    requires 0 <= n < UINT32
    ensures var s := ToLe32(n);
      s[0] == n % 256 && s[1] == n / 256 % 256 && s[2] == n / 65536 % 256 && s[3] == n / 16777216 % 256
  {
    assert n / 256 / 256 == n / 65536;
    assert n / 256 / 256 / 256 == n / 16777216;
  }

  /** A size too large for its field loses what is above 32 bits. */
  lemma WrappedDigits(n: nat)
    ensures var s := ToLe32(Wrap(n));
      s[0] == n % 256 && s[1] == n / 256 % 256 && s[2] == n / 65536 % 256 && s[3] == n / 16777216 % 256
  {
    var q := n / UINT32;
    assert n == Wrap(n) + 4294967296 * q;
    Digits(Wrap(n));
    Shifted(Wrap(n), q);
  }

  lemma LowDigit(m: int, q: int)
    ensures (m + 256 * q) % 256 == m % 256
  {
  }

  lemma Shifted(m: nat, q: nat)
    ensures var n := m + 4294967296 * q;
      && n % 256 == m % 256 && n / 256 % 256 == m / 256 % 256
      && n / 65536 % 256 == m / 65536 % 256 && n / 16777216 % 256 == m / 16777216 % 256
  {
    LowDigit(m, 16777216 * q);
    assert (m + 4294967296 * q) / 256 == m / 256 + 256 * (65536 * q);
    LowDigit(m / 256, 65536 * q);
    assert (m + 4294967296 * q) / 65536 == m / 65536 + 256 * (256 * q);
    LowDigit(m / 65536, 256 * q);
    assert (m + 4294967296 * q) / 16777216 == m / 16777216 + 256 * q;
    LowDigit(m / 16777216, q);
  }

  /** The command line is cut at 1024 bytes; where it ends earlier, the origin shows. So it does everywhere else in
      the header, but for the checksum and the three fields. */
  lemma HeaderBytes(origin: seq<Byte>, bz: seq<Byte>, rd: seq<Byte>, cmd: seq<Byte>, i: nat)
    requires |origin| >= 0x33E0 && i < 0x33E0
    ensures |Pack(origin, bz, rd, cmd)| >= 0x33E0
    ensures 0x3E0 <= i < 0x7E0 && i - 0x3E0 < |cmd| ==> Pack(origin, bz, rd, cmd)[i] == cmd[i - 0x3E0]
    ensures 0x3E0 <= i < 0x7E0 && i - 0x3E0 >= |cmd| ==> Pack(origin, bz, rd, cmd)[i] == origin[i]
    ensures i != 7 && !(48 <= i < 52) && !(0x3E0 <= i < 0x7E8) ==> Pack(origin, bz, rd, cmd)[i] == origin[i]
  {
    var h := origin[..BOOTHEADER];
    PackStarts(origin, bz, rd, cmd);
    assert Signed(Filled(h, |bz|, |rd|, cmd))[i] == Pack(origin, bz, rd, cmd)[i];
  }

  /** Kernel and ramdisk follow the header; the rest, less than a sector, is 0xff up to a multiple of 512. */
  lemma ContentBytes(origin: seq<Byte>, bz: seq<Byte>, rd: seq<Byte>, cmd: seq<Byte>, i: nat)
    requires |origin| >= 0x33E0
    ensures var image := Pack(origin, bz, rd, cmd);
      && |image| % 512 == 0 && 0x33E0 + |bz| + |rd| <= |image| < 0x33E0 + |bz| + |rd| + 512
      && (i < |bz| ==> image[0x33E0 + i] == bz[i])
      && (i < |rd| ==> image[0x33E0 + |bz| + i] == rd[i])
      && (0x33E0 + |bz| + |rd| <= i < |image| ==> image[i] == 0xff)
  {
    var image := Pack(origin, bz, rd, cmd);
    PackStarts(origin, bz, rd, cmd);
    PackFillsSectors(origin, bz, rd, cmd);
    assert forall j :: 0x33E0 <= j < |image| ==> image[j] == image[BOOTHEADER..][j - 0x33E0];
  }

  // ---------- the checksum ----------

  /** Bit `k` of a number. */
  predicate Bit(b: nat, k: nat) {
    if k == 0 then b % 2 == 1 else Bit(b / 2, k - 1)
  }

  lemma {:induction false} XorLowBit(n: nat, a: nat, b: nat, k: nat)
    requires k < n
    ensures Bit(XorLow(n, a, b), k) <==> Bit(a, k) != Bit(b, k)
  {
    XorLowBits(n, a, b);
    if k == 0 {
    } else {
      XorLowBit(n - 1, a / 2, b / 2, k - 1);
    }
  }

  /** How many of the bytes have that bit set. */
  function WithBit(s: seq<Byte>, k: nat): (n: nat)
    ensures n <= |s|
  {
    if s == [] then 0 else WithBit(s[..|s| - 1], k) + One(Bit(s[|s| - 1], k))
  }

  lemma {:induction false} XorAllBit(s: seq<Byte>, k: nat)
    requires k < 8
    ensures Bit(XorAll(s), k) <==> WithBit(s, k) % 2 == 1
  {
    if s == [] {
      NoBits(k);
    } else {
      XorAllBit(s[..|s| - 1], k);
      XorLowBit(8, XorAll(s[..|s| - 1]), s[|s| - 1], k);
    }
  }

  lemma {:induction false} NoBits(k: nat)
    ensures !Bit(0, k)
  {
    if k == 0 {
    } else {
      NoBits(k - 1);
    }
  }

  /** Each bit is set in an even number of the first 56 bytes of the image. */
  lemma ChecksumIsParity(origin: seq<Byte>, bz: seq<Byte>, rd: seq<Byte>, cmd: seq<Byte>, k: nat)
    requires |origin| >= 0x33E0 && k < 8
    ensures |Pack(origin, bz, rd, cmd)| >= 56 && WithBit(Pack(origin, bz, rd, cmd)[..56], k) % 2 == 0
  {
    var f := Filled(origin[..BOOTHEADER], |bz|, |rd|, cmd);
    PackStarts(origin, bz, rd, cmd);
    SignedSumsToZero(f);
    assert Pack(origin, bz, rd, cmd)[..56] == Signed(f)[..56];
    XorAllBit(Signed(f)[..56], k);
    NoBits(k);
  }

  // ---------- what unpack.c reads ----------

  function Size(b0: Byte, b1: Byte, b2: Byte, b3: Byte): nat {
    b0 + 256 * b1 + 65536 * b2 + 16777216 * b3
  }

  /** Which images can be unpacked, how the others fail, and what comes out. */
  lemma UnpackReads(image: seq<Byte>)
    ensures Unpack(image).ReadError? <==> 0x7E0 <= |image| < 0x7E8
    ensures |image| < 0x7E0 ==> Unpack(image).Hangs?
    ensures |image| >= 0x7E8 ==>
      var bz := Size(image[0x7E0], image[0x7E1], image[0x7E2], image[0x7E3]);
      var rd := Size(image[0x7E4], image[0x7E5], image[0x7E6], image[0x7E7]);
      if (bz > 0 && |image| < 0x33E0 + bz) || (rd > 0 && |image| < 0x33E0 + bz + rd) then Unpack(image).Hangs?
      else
        && Unpack(image).Unpacked? && Unpack(image).cmdline == image[0x3E0..0x7E0]
        && Unpack(image).bzImage == (if bz > 0 then image[0x33E0..0x33E0 + bz] else [])
        && Unpack(image).ramdisk == (if rd > 0 then image[0x33E0 + bz..0x33E0 + bz + rd] else [])
  {
  }
}
