/** The SMS marshallers of ril.cpp as words of a Parcel: every 32-bit integer takes one word, and every byte
    another, of which only the low 8 bits are read back. */
module SmsCodec {
  import opened Numbers

  type Word = n: int | -0x8000_0000 <= n < 0x8000_0000

  /** RIL_CDMA_SMS_ADDRESS_MAX and its like, which telephony/ril.h defines. */
  datatype Limits = Limits(address: nat, subaddress: nat, bearer: nat)

  // RIL_CDMA_SMS_Address, RIL_CDMA_SMS_Subaddress, RIL_CDMA_SMS_Message
  datatype Address = Address(
    digitMode: Word, numberMode: Word, numberType: Word, numberPlan: Word, count: Byte, digits: seq<Byte>)

  datatype Subaddress = Subaddress(kind: Word, odd: Byte, count: Byte, digits: seq<Byte>)

  datatype Bearer = Bearer(length: Word, data: seq<Byte>)

  datatype CdmaSms = CdmaSms(
    teleservice: Word, present: Byte, category: Word, address: Address, subaddress: Subaddress, bearer: Bearer)

  /** What reading leaves: a value and the words after it, or too few words. */
  datatype Parsed<T> = Parsed(value: T, rest: seq<Word>) | Short

  function Low(w: Word): Byte {
    w % 256
  }

  function Lows(ws: seq<Word>): (r: seq<Byte>)
    ensures |r| == |ws| && forall i :: 0 <= i < |r| ==> r[i] == Low(ws[i])
  {
    seq(|ws|, i requires 0 <= i < |ws| => Low(ws[i]))
  }

  function Words(bs: seq<Byte>): (r: seq<Word>)
    ensures |r| == |bs| && forall i :: 0 <= i < |r| ==> r[i] == bs[i]
  {
    seq(|bs|, i requires 0 <= i < |bs| => bs[i])
  }

  lemma WordsLows(bs: seq<Byte>)
    ensures Lows(Words(bs)) == bs
  {
  }

  // MIN(n, max), as the bound of a loop from 0
  function Clamp(n: int, max: nat): (r: nat)
    ensures r <= max
  {
    if n < 0 then 0 else if n < max then n else max
  }

  /** The bytes of an array that is zero past them. */
  function Padded(bs: seq<Byte>, max: nat): (r: seq<Byte>)
    ensures |bs| <= max ==> |r| == max
  {
    if |bs| >= max then bs else bs + seq(max - |bs|, _ => 0)
  }

  /** The array zeroed past its first `n`. */
  function Tailless(bs: seq<Byte>, n: nat): seq<Byte>
    requires n <= |bs|
  {
    Padded(bs[..n], |bs|)
  }

  // ---------- what the arrays of a message hold ----------

  predicate Fits(m: CdmaSms, l: Limits) {
    |m.address.digits| == l.address && |m.subaddress.digits| == l.subaddress && |m.bearer.data| == l.bearer
  }

  /** The message as the other side can know it: what lies past the counted elements is zero. */
  function Visible(m: CdmaSms, l: Limits): (r: CdmaSms)
    requires Fits(m, l)
    ensures Fits(r, l)
  {
    m.(address := m.address.(digits := Tailless(m.address.digits, Clamp(m.address.count, l.address))),
       subaddress := m.subaddress.(digits := Tailless(m.subaddress.digits, Clamp(m.subaddress.count, l.subaddress))),
       bearer := m.bearer.(data := Tailless(m.bearer.data, Clamp(m.bearer.length, l.bearer))))
  }

  // ---------- responseCdmaSms ----------

  function EncodeAddress(a: Address): seq<Word> {
    [a.digitMode, a.numberMode, a.numberType, a.numberPlan, a.count] + Words(a.digits[..Clamp(a.count, |a.digits|)])
  }

  function EncodeSubaddress(s: Subaddress): seq<Word> {
    [s.kind, s.odd, s.count] + Words(s.digits[..Clamp(s.count, |s.digits|)])
  }

  function EncodeBearer(b: Bearer): seq<Word> {
    [b.length] + Words(b.data[..Clamp(b.length, |b.data|)])
  }

  function Encode(m: CdmaSms): seq<Word> {
    [m.teleservice, m.present, m.category] + EncodeAddress(m.address) + EncodeSubaddress(m.subaddress) + EncodeBearer(m.bearer)
  }

  // ---------- constructCdmaSms ----------

  function DecodeAddress(ws: seq<Word>, max: nat): Parsed<Address> {
    if |ws| < 5 then Short else
      var n := Clamp(Low(ws[4]), max);
      if |ws| < 5 + n then Short
      else Parsed(Address(ws[0], ws[1], ws[2], ws[3], Low(ws[4]), Padded(Lows(ws[5..5 + n]), max)), ws[5 + n..])
  }

  function DecodeSubaddress(ws: seq<Word>, max: nat): Parsed<Subaddress> {
    if |ws| < 3 then Short else
      var n := Clamp(Low(ws[2]), max);
      if |ws| < 3 + n then Short
      else Parsed(Subaddress(ws[0], Low(ws[1]), Low(ws[2]), Padded(Lows(ws[3..3 + n]), max)), ws[3 + n..])
  }

  function DecodeBearer(ws: seq<Word>, max: nat): Parsed<Bearer> {
    if |ws| < 1 then Short else
      var n := Clamp(ws[0], max);
      if |ws| < 1 + n then Short else Parsed(Bearer(ws[0], Padded(Lows(ws[1..1 + n]), max)), ws[1 + n..])
  }

  function Decode(ws: seq<Word>, l: Limits): Parsed<CdmaSms> {
    if |ws| < 3 then Short else
      match DecodeAddress(ws[3..], l.address)
      case Short => Short
      case Parsed(a, r1) =>
        match DecodeSubaddress(r1, l.subaddress)
        case Short => Short
        case Parsed(s, r2) =>
          match DecodeBearer(r2, l.bearer)
          case Short => Short
          case Parsed(b, r3) => Parsed(CdmaSms(ws[0], Low(ws[1]), ws[2], a, s, b), r3)
  }

  // ---------- what is written is read back ----------

  lemma AddressRoundTrip(a: Address, rest: seq<Word>)
    ensures DecodeAddress(EncodeAddress(a) + rest, |a.digits|) ==
            Parsed(a.(digits := Tailless(a.digits, Clamp(a.count, |a.digits|))), rest)
  {
    var n := Clamp(a.count, |a.digits|);
    var ws := EncodeAddress(a) + rest;
    WordsLows(a.digits[..n]);
    assert ws[5..5 + n] == Words(a.digits[..n]);
    assert ws[5 + n..] == rest;
  }

  lemma SubaddressRoundTrip(s: Subaddress, rest: seq<Word>)
    ensures DecodeSubaddress(EncodeSubaddress(s) + rest, |s.digits|) ==
            Parsed(s.(digits := Tailless(s.digits, Clamp(s.count, |s.digits|))), rest)
  {
    var n := Clamp(s.count, |s.digits|);
    var ws := EncodeSubaddress(s) + rest;
    WordsLows(s.digits[..n]);
    assert ws[3..3 + n] == Words(s.digits[..n]);
    assert ws[3 + n..] == rest;
  }

  lemma BearerRoundTrip(b: Bearer, rest: seq<Word>)
    ensures DecodeBearer(EncodeBearer(b) + rest, |b.data|) ==
            Parsed(b.(data := Tailless(b.data, Clamp(b.length, |b.data|))), rest)
  {
    var n := Clamp(b.length, |b.data|);
    var ws := EncodeBearer(b) + rest;
    WordsLows(b.data[..n]);
    assert ws[1..1 + n] == Words(b.data[..n]);
    assert ws[1 + n..] == rest;
  }

  lemma Assoc(a: seq<Word>, b: seq<Word>, c: seq<Word>)
    ensures (a + b) + c == a + (b + c) && (a + b)[|a|..] == b && (a + b)[..|a|] == a
  {
  }

  lemma Nested(h: seq<Word>, a: seq<Word>, s: seq<Word>, b: seq<Word>, rest: seq<Word>)
    ensures h + a + s + b + rest == h + (a + (s + (b + rest)))
  {
    Assoc(h + a + s, b, rest);
    Assoc(h + a, s, b + rest);
    Assoc(h, a, s + (b + rest));
  }

  lemma DecodeParts(head: seq<Word>, r1: seq<Word>, l: Limits, a: Address, r2: seq<Word>,
                    s: Subaddress, r3: seq<Word>, b: Bearer, rest: seq<Word>)
    requires |head| == 3 && DecodeAddress(r1, l.address) == Parsed(a, r2)
    requires DecodeSubaddress(r2, l.subaddress) == Parsed(s, r3) && DecodeBearer(r3, l.bearer) == Parsed(b, rest)
    ensures Decode(head + r1, l) == Parsed(CdmaSms(head[0], Low(head[1]), head[2], a, s, b), rest)
  {
    assert (head + r1)[3..] == r1;
  }

  lemma EncodeNested(m: CdmaSms, rest: seq<Word>)
    ensures Encode(m) + rest == [m.teleservice, m.present, m.category] +
      (EncodeAddress(m.address) + (EncodeSubaddress(m.subaddress) + (EncodeBearer(m.bearer) + rest)))
  {
    Nested([m.teleservice, m.present, m.category], EncodeAddress(m.address),
           EncodeSubaddress(m.subaddress), EncodeBearer(m.bearer), rest);
  }

  lemma DecodeNested(m: CdmaSms, l: Limits, a: seq<Word>, s: seq<Word>, b: seq<Word>, rest: seq<Word>)
    requires Fits(m, l)
    requires DecodeAddress(a, l.address) == Parsed(Visible(m, l).address, s)
    requires DecodeSubaddress(s, l.subaddress) == Parsed(Visible(m, l).subaddress, b)
    requires DecodeBearer(b, l.bearer) == Parsed(Visible(m, l).bearer, rest)
    ensures Decode([m.teleservice, m.present, m.category] + a, l) == Parsed(Visible(m, l), rest)
  {
    var v := Visible(m, l);
    DecodeParts([m.teleservice, m.present, m.category], a, l, v.address, s, v.subaddress, b, v.bearer, rest);
  }

  /** A message comes back as its visible part, whatever its counts say and whatever follows it. */
  lemma CdmaSmsRoundTrip(m: CdmaSms, l: Limits, rest: seq<Word>)
    requires Fits(m, l)
    ensures Decode(Encode(m) + rest, l) == Parsed(Visible(m, l), rest)
  {
    var r3 := EncodeBearer(m.bearer) + rest;
    var r2 := EncodeSubaddress(m.subaddress) + r3;
    EncodeNested(m, rest);
    AddressRoundTrip(m.address, r2);
    SubaddressRoundTrip(m.subaddress, r3);
    BearerRoundTrip(m.bearer, rest);
    DecodeNested(m, l, EncodeAddress(m.address) + r2, r2, r3, rest);
  }

  /** Nothing else is lost: two messages are written alike exactly when their visible parts are the same. */
  lemma EncodingIsInjective(m: CdmaSms, m': CdmaSms, l: Limits)
    requires Fits(m, l) && Fits(m', l)
    ensures Encode(m) == Encode(m') <==> Visible(m, l) == Visible(m', l)
  {
    CdmaSmsRoundTrip(m, l, []);
    CdmaSmsRoundTrip(m', l, []);
    assert Encode(m) + [] == Encode(m) && Encode(m') + [] == Encode(m');
    VisibleEncodes(m, l);
    VisibleEncodes(m', l);
  }

  lemma TaillessPrefix(bs: seq<Byte>, n: nat)
    requires n <= |bs|
    ensures |Tailless(bs, n)| == |bs| && Tailless(bs, n)[..n] == bs[..n]
  {
  }

  lemma VisibleEncodes(m: CdmaSms, l: Limits)
    requires Fits(m, l)
    ensures Encode(Visible(m, l)) == Encode(m)
  {
    TaillessPrefix(m.address.digits, Clamp(m.address.count, l.address));
    TaillessPrefix(m.subaddress.digits, Clamp(m.subaddress.count, l.subaddress));
    TaillessPrefix(m.bearer.data, Clamp(m.bearer.length, l.bearer));
  }

  // ---------- lists of broadcast configurations ----------

  // RIL_GSM_BroadcastSmsConfigInfo, RIL_CDMA_BroadcastSmsConfigInfo
  datatype GsmConfig = GsmConfig(fromServiceId: Word, toServiceId: Word, fromCodeScheme: Word, toCodeScheme: Word, selected: Byte)

  datatype CdmaConfig = CdmaConfig(serviceCategory: Word, language: Word, selected: Byte)

  const GSM_WORDS := 5
  const CDMA_WORDS := 3

  function EncodeGsm(c: GsmConfig): (r: seq<Word>)
    ensures |r| == GSM_WORDS
  {
    [c.fromServiceId, c.toServiceId, c.fromCodeScheme, c.toCodeScheme, c.selected]
  }

  function DecodeGsm(ws: seq<Word>): GsmConfig
    requires |ws| == GSM_WORDS
  {
    GsmConfig(ws[0], ws[1], ws[2], ws[3], Low(ws[4]))
  }

  function EncodeCdma(c: CdmaConfig): (r: seq<Word>)
    ensures |r| == CDMA_WORDS
  {
    [c.serviceCategory, c.language, c.selected]
  }

  function DecodeCdma(ws: seq<Word>): CdmaConfig
    requires |ws| == CDMA_WORDS
  {
    CdmaConfig(ws[0], ws[1], Low(ws[2]))
  }

  function EncodeGsms(cs: seq<GsmConfig>): (r: seq<Word>)
    ensures |r| == GSM_WORDS * |cs|
  {
    if cs == [] then [] else EncodeGsms(cs[..|cs| - 1]) + EncodeGsm(cs[|cs| - 1])
  }

  function DecodeGsms(ws: seq<Word>, n: nat): (r: seq<GsmConfig>)
    requires |ws| >= GSM_WORDS * n
    ensures |r| == n
  {
    if n == 0 then [] else DecodeGsms(ws, n - 1) + [DecodeGsm(ws[GSM_WORDS * (n - 1)..GSM_WORDS * n])]
  }

  function EncodeCdmas(cs: seq<CdmaConfig>): (r: seq<Word>)
    ensures |r| == CDMA_WORDS * |cs|
  {
    if cs == [] then [] else EncodeCdmas(cs[..|cs| - 1]) + EncodeCdma(cs[|cs| - 1])
  }

  function DecodeCdmas(ws: seq<Word>, n: nat): (r: seq<CdmaConfig>)
    requires |ws| >= CDMA_WORDS * n
    ensures |r| == n
  {
    if n == 0 then [] else DecodeCdmas(ws, n - 1) + [DecodeCdma(ws[CDMA_WORDS * (n - 1)..CDMA_WORDS * n])]
  }

  /** What reading a list leaves; a negative count makes the source declare an array of that size, which C
      leaves undefined. */
  datatype Listing<T> = Listed(configs: seq<T>, rest: seq<Word>) | TooShort | NegativeCount

  // responseGsmBrSmsCnf, dispatchGsmBrSmsCnf; and the same for CDMA
  function EncodeGsmList(cs: seq<GsmConfig>): seq<Word>
    requires |cs| < 0x8000_0000
  {
    [|cs|] + EncodeGsms(cs)
  }

  function DecodeGsmList(ws: seq<Word>): Listing<GsmConfig> {
    if ws == [] then TooShort
    else if ws[0] < 0 then NegativeCount
    else if |ws| < 1 + GSM_WORDS * ws[0] then TooShort
    else Listed(DecodeGsms(ws[1..], ws[0]), ws[1 + GSM_WORDS * ws[0]..])
  }

  function EncodeCdmaList(cs: seq<CdmaConfig>): seq<Word>
    requires |cs| < 0x8000_0000
  {
    [|cs|] + EncodeCdmas(cs)
  }

  function DecodeCdmaList(ws: seq<Word>): Listing<CdmaConfig> {
    if ws == [] then TooShort
    else if ws[0] < 0 then NegativeCount
    else if |ws| < 1 + CDMA_WORDS * ws[0] then TooShort
    else Listed(DecodeCdmas(ws[1..], ws[0]), ws[1 + CDMA_WORDS * ws[0]..])
  }

  lemma Middle(front: seq<Word>, last: seq<Word>, rest: seq<Word>, from: nat, to: nat)
    requires from == |front| && to == |front| + |last|
    ensures (front + (last + rest))[from..to] == last
  {
  }

  lemma {:induction false} GsmsRoundTrip(cs: seq<GsmConfig>, rest: seq<Word>)
    ensures DecodeGsms(EncodeGsms(cs) + rest, |cs|) == cs
  {
    if cs == [] {
    } else {
      var n := |cs| - 1;
      var front, last := EncodeGsms(cs[..n]), EncodeGsm(cs[n]);
      GsmsRoundTrip(cs[..n], last + rest);
      Assoc(front, last, rest);
      Middle(front, last, rest, GSM_WORDS * n, GSM_WORDS * (n + 1));
      GsmOnceMore(front + (last + rest), n, cs[..n], last);
    }
  }

  lemma GsmOnceMore(ws: seq<Word>, n: nat, cs: seq<GsmConfig>, last: seq<Word>)
    requires |ws| >= GSM_WORDS * (n + 1) && DecodeGsms(ws, n) == cs
    requires |last| == GSM_WORDS && ws[GSM_WORDS * n..GSM_WORDS * (n + 1)] == last
    ensures DecodeGsms(ws, n + 1) == cs + [DecodeGsm(last)]
  {
  }

  lemma {:induction false} CdmasRoundTrip(cs: seq<CdmaConfig>, rest: seq<Word>)
    ensures DecodeCdmas(EncodeCdmas(cs) + rest, |cs|) == cs
  {
    if cs == [] {
    } else {
      var n := |cs| - 1;
      var front, last := EncodeCdmas(cs[..n]), EncodeCdma(cs[n]);
      CdmasRoundTrip(cs[..n], last + rest);
      Assoc(front, last, rest);
      Middle(front, last, rest, CDMA_WORDS * n, CDMA_WORDS * (n + 1));
      CdmaOnceMore(front + (last + rest), n, cs[..n], last);
    }
  }

  lemma CdmaOnceMore(ws: seq<Word>, n: nat, cs: seq<CdmaConfig>, last: seq<Word>)
    requires |ws| >= CDMA_WORDS * (n + 1) && DecodeCdmas(ws, n) == cs
    requires |last| == CDMA_WORDS && ws[CDMA_WORDS * n..CDMA_WORDS * (n + 1)] == last
    ensures DecodeCdmas(ws, n + 1) == cs + [DecodeCdma(last)]
  {
  }

  /** Lists of any length come back unchanged, whatever follows them. */
  lemma GsmListRoundTrip(cs: seq<GsmConfig>, rest: seq<Word>)
    requires |cs| < 0x8000_0000
    ensures DecodeGsmList(EncodeGsmList(cs) + rest) == Listed(cs, rest)
  {
    var count: seq<Word>, body := [|cs|], EncodeGsms(cs);
    GsmsRoundTrip(cs, rest);
    Assoc(count, body, rest);
    Assoc(count, body + rest, []);
    Assoc(count + body, rest, []);
  }

  lemma CdmaListRoundTrip(cs: seq<CdmaConfig>, rest: seq<Word>)
    requires |cs| < 0x8000_0000
    ensures DecodeCdmaList(EncodeCdmaList(cs) + rest) == Listed(cs, rest)
  {
    var count: seq<Word>, body := [|cs|], EncodeCdmas(cs);
    CdmasRoundTrip(cs, rest);
    Assoc(count, body, rest);
    Assoc(count, body + rest, []);
    Assoc(count + body, rest, []);
  }
}
