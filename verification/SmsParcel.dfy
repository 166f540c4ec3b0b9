/** The SMS marshallers over a Parcel: a write end, and a read position that does not move when too little is
    left. Each method is a stretch of the source's; only the last status is looked at. */
module SmsParcel {
  import opened Numbers
  import opened SmsCodec

  class Parcel {
    var words: seq<Word>
    var pos: nat

    constructor ()
      ensures words == [] && pos == 0
    {
      words, pos := [], 0;
    }

    function Rest(): seq<Word>
      reads this
    {
      if pos > |words| then [] else words[pos..]
    }

    // writeInt32, and write of one byte, which is padded to a word
    method WriteWord(w: Word)
      modifies this`words
      ensures words == old(words) + [w]
    {
      words := words + [w];
    }

    method WriteBytes(bytes: seq<Byte>, limit: nat)
      requires limit <= |bytes|
      modifies this`words
      ensures words == old(words) + Words(bytes[..limit])
    {
      for i := 0 to limit
        invariant words == old(words) + Words(bytes[..i])
      {
        assert Words(bytes[..i + 1]) == Words(bytes[..i]) + [bytes[i]];
        WriteWord(bytes[i]);
      }
    }

    // readInt32: on failure `t` keeps what it held
    method ReadInt32(t: Word) returns (ok: bool, r: Word)
      modifies this`pos
      ensures ok <==> old(Rest()) != []
      ensures ok ==> r == old(Rest())[0] && Rest() == old(Rest())[1..]
      ensures !ok ==> r == t && Rest() == []
    {
      ok, r := pos < |words|, t;
      if ok {
        r := words[pos];
        pos := pos + 1;
      }
    }

    // read of one byte: on failure `ut` keeps what it held
    method ReadByte(ut: Byte) returns (ok: bool, r: Byte)
      modifies this`pos
      ensures ok <==> old(Rest()) != []
      ensures ok ==> r == Low(old(Rest())[0]) && Rest() == old(Rest())[1..]
      ensures !ok ==> r == ut && Rest() == []
    {
      ok, r := pos < |words|, ut;
      if ok {
        r := Low(words[pos]);
        pos := pos + 1;
      }
    }

    /** The digit loops of constructCdmaSms, into an array that was zeroed. */
    method ReadBytes(limit: nat, max: nat, was: bool, ut0: Byte) returns (ok: bool, digits: seq<Byte>, ut: Byte)
      requires limit <= max && (!was ==> Rest() == [])
      modifies this`pos
      ensures |digits| == max
      ensures ok <==> was && |old(Rest())| >= limit
      ensures ok ==> digits == Padded(Lows(old(Rest())[..limit]), max) && Rest() == old(Rest())[limit..]
      ensures !ok ==> Rest() == []
    {
      ok, ut := was, ut0;
      ghost var rest := Rest();
      var read: seq<Byte> := [];
      for i := 0 to limit
        invariant |read| == i && ok == (was && |rest| >= i)
        invariant ok ==> read == Lows(rest[..i]) && Rest() == rest[i..]
        invariant !ok ==> Rest() == []
      {
        ghost var before := Rest();
        ok, ut := ReadByte(ut);
        read := read + [ut];
        if ok {
          assert before == rest[i..] && rest[..i + 1] == rest[..i] + [rest[i]];
        }
      }
      digits := Padded(read, max);
    }
  }

  // ---------- responseCdmaSms ----------

  method WriteHead(p: Parcel, m: CdmaSms)
    modifies p`words
    ensures p.words == old(p.words) + [m.teleservice, m.present, m.category]
  {
    p.WriteWord(m.teleservice);
    p.WriteWord(m.present);
    p.WriteWord(m.category);
  }

  method WriteAddress(p: Parcel, a: Address)
    modifies p`words
    ensures p.words == old(p.words) + EncodeAddress(a)
  {
    p.WriteWord(a.digitMode);
    p.WriteWord(a.numberMode);
    p.WriteWord(a.numberType);
    p.WriteWord(a.numberPlan);
    p.WriteWord(a.count);
    p.WriteBytes(a.digits, Clamp(a.count, |a.digits|));
  }

  method WriteSubaddress(p: Parcel, s: Subaddress)
    modifies p`words
    ensures p.words == old(p.words) + EncodeSubaddress(s)
  {
    p.WriteWord(s.kind);
    p.WriteWord(s.odd);
    p.WriteWord(s.count);
    p.WriteBytes(s.digits, Clamp(s.count, |s.digits|));
  }

  method WriteBearer(p: Parcel, b: Bearer)
    modifies p`words
    ensures p.words == old(p.words) + EncodeBearer(b)
  {
    p.WriteWord(b.length);
    p.WriteBytes(b.data, Clamp(b.length, |b.data|));
  }

  lemma Joined(w: seq<Word>, h: seq<Word>, a: seq<Word>, s: seq<Word>, b: seq<Word>)
    ensures w + h + a + s + b == w + (h + a + s + b)
  {
    Assoc(w, h, a);
    Assoc(w, h + a, s);
    Assoc(w, h + a + s, b);
  }

  datatype Status = NoError | InvalidResponse

  /** What a caller of responseCdmaSms passes: null, memory of some other size, or a message. */
  datatype Response = Null | WrongSize | Message(sms: CdmaSms)

  /** responseCdmaSms */
  method ResponseCdmaSms(p: Parcel, response: Response) returns (status: Status)
    modifies p`words
    ensures response.Message? ==> status == NoError && p.words == old(p.words) + Encode(response.sms)
    ensures !response.Message? ==> status == InvalidResponse && p.words == old(p.words)
  {
    if response.Null? || response.WrongSize? {
      return InvalidResponse;
    }
    var m := response.sms;
    WriteHead(p, m);
    WriteAddress(p, m.address);
    WriteSubaddress(p, m.subaddress);
    WriteBearer(p, m.bearer);
    Joined(old(p.words), [m.teleservice, m.present, m.category], EncodeAddress(m.address),
           EncodeSubaddress(m.subaddress), EncodeBearer(m.bearer));
    return NoError;
  }

  // ---------- constructCdmaSms ----------

  lemma Dropped(ws: seq<Word>, a: nat, n: nat)
    requires a + n <= |ws|
    ensures ws[a..][..n] == ws[a..a + n] && ws[a..][n..] == ws[a + n..]
  {
  }

  /** The five words before the digits of an address. */
  method ReadAddressHead(p: Parcel, t0: Word, ut0: Byte) returns (ok: bool, a: Address)
    modifies p`pos
    ensures ok <==> |old(p.Rest())| >= 5
    ensures ok ==>
      var ws := old(p.Rest());
      a == Address(ws[0], ws[1], ws[2], ws[3], Low(ws[4]), []) && p.Rest() == ws[5..]
    ensures !ok ==> p.Rest() == []
  {
    var digitMode, numberMode, numberType, numberPlan, count;
    ok, digitMode := p.ReadInt32(t0);
    ok, numberMode := p.ReadInt32(digitMode);
    ok, numberType := p.ReadInt32(numberMode);
    ok, numberPlan := p.ReadInt32(numberType);
    ok, count := p.ReadByte(ut0);
    a := Address(digitMode, numberMode, numberType, numberPlan, count, []);
  }

  method ReadAddress(p: Parcel, max: nat, t0: Word, ut0: Byte) returns (ok: bool, a: Address, t: Word, ut: Byte)
    modifies p`pos
    ensures ok <==> DecodeAddress(old(p.Rest()), max).Parsed?
    ensures ok ==> DecodeAddress(old(p.Rest()), max) == Parsed(a, p.Rest())
    ensures !ok ==> p.Rest() == []
  {
    ghost var ws := p.Rest();
    var head, digits;
    ok, head := ReadAddressHead(p, t0, ut0);
    t := head.numberPlan;
    var limit := Clamp(head.count, max);
    ok, digits, ut := p.ReadBytes(limit, max, ok, head.count);
    a := head.(digits := digits);
    if ok {
      Dropped(ws, 5, limit);
    }
  }

  /** The three words before the digits of a subaddress. */
  method ReadSubaddressHead(p: Parcel, t0: Word, ut0: Byte) returns (ok: bool, s: Subaddress)
    modifies p`pos
    ensures ok <==> |old(p.Rest())| >= 3
    ensures ok ==>
      var ws := old(p.Rest()); s == Subaddress(ws[0], Low(ws[1]), Low(ws[2]), []) && p.Rest() == ws[3..]
    ensures !ok ==> p.Rest() == []
  {
    var kind, odd, count;
    ok, kind := p.ReadInt32(t0);
    ok, odd := p.ReadByte(ut0);
    ok, count := p.ReadByte(odd);
    s := Subaddress(kind, odd, count, []);
  }

  method ReadSubaddress(p: Parcel, max: nat, t0: Word, ut0: Byte) returns (ok: bool, s: Subaddress, t: Word, ut: Byte)
    modifies p`pos
    ensures ok <==> DecodeSubaddress(old(p.Rest()), max).Parsed?
    ensures ok ==> DecodeSubaddress(old(p.Rest()), max) == Parsed(s, p.Rest())
    ensures !ok ==> p.Rest() == []
  {
    ghost var ws := p.Rest();
    var head, digits;
    ok, head := ReadSubaddressHead(p, t0, ut0);
    t := head.kind;
    var limit := Clamp(head.count, max);
    ok, digits, ut := p.ReadBytes(limit, max, ok, head.count);
    s := head.(digits := digits);
    if ok {
      Dropped(ws, 3, limit);
    }
  }

  method ReadBearer(p: Parcel, max: nat, t0: Word, ut0: Byte) returns (ok: bool, b: Bearer)
    modifies p`pos
    ensures ok <==> DecodeBearer(old(p.Rest()), max).Parsed?
    ensures ok ==> DecodeBearer(old(p.Rest()), max) == Parsed(b, p.Rest())
    ensures !ok ==> p.Rest() == []
  {
    ghost var ws := p.Rest();
    var length, data, ut;
    ok, length := p.ReadInt32(t0);
    var limit := Clamp(length, max);
    ok, data, ut := p.ReadBytes(limit, max, ok, ut0);
    b := Bearer(length, data);
    if ok {
      Dropped(ws, 1, limit);
    }
  }

  /** constructCdmaSms: the status of its last read tells of all of them */
  method ConstructCdmaSms(p: Parcel, l: Limits) returns (ok: bool, rcsm: CdmaSms)
    modifies p`pos
    ensures ok <==> Decode(old(p.Rest()), l).Parsed?
    ensures ok ==> Decode(old(p.Rest()), l) == Parsed(rcsm, p.Rest())
  {
    var teleservice, present, category, address, subaddress, bearer, t, ut;
    ok, teleservice := p.ReadInt32(0);
    ok, present := p.ReadByte(0);
    ok, category := p.ReadInt32(teleservice);
    ok, address, t, ut := ReadAddress(p, l.address, category, present);
    ok, subaddress, t, ut := ReadSubaddress(p, l.subaddress, t, ut);
    ok, bearer := ReadBearer(p, l.bearer, t, ut);
    rcsm := CdmaSms(teleservice, present, category, address, subaddress, bearer);
  }

  // ---------- broadcast configurations ----------

  /** How a dispatch of a list ends: with the list, as an invalid command, or undefined. */
  datatype Ending = Ok | Invalid | Undefined

  /** responseGsmBrSmsCnf */
  method ResponseGsmBrSmsCnf(p: Parcel, cs: seq<GsmConfig>)
    requires |cs| < 0x8000_0000
    modifies p`words
    ensures p.words == old(p.words) + EncodeGsmList(cs)
  {
    p.WriteWord(|cs|);
    for i := 0 to |cs|
      invariant p.words == old(p.words) + [|cs|] + EncodeGsms(cs[..i])
    {
      assert cs[..i + 1][..i] == cs[..i];
      p.WriteWord(cs[i].fromServiceId);
      p.WriteWord(cs[i].toServiceId);
      p.WriteWord(cs[i].fromCodeScheme);
      p.WriteWord(cs[i].toCodeScheme);
      p.WriteWord(cs[i].selected);
      assert EncodeGsms(cs[..i + 1]) == EncodeGsms(cs[..i]) + EncodeGsm(cs[i]);
    }
    assert cs[..|cs|] == cs;
  }

  /** dispatchGsmBrSmsCnf: one element */
  method ReadGsm(p: Parcel, t: Word) returns (ok: bool, c: GsmConfig, last: Word)
    modifies p`pos
    ensures ok <==> |old(p.Rest())| >= GSM_WORDS
    ensures ok ==> c == DecodeGsm(old(p.Rest())[..GSM_WORDS]) && p.Rest() == old(p.Rest())[GSM_WORDS..]
    ensures !ok ==> p.Rest() == []
  {
    var a, b, from, to;
    ok, a := p.ReadInt32(t);
    ok, b := p.ReadInt32(a);
    ok, from := p.ReadInt32(b);
    ok, to := p.ReadInt32(from);
    ok, last := p.ReadInt32(to);
    c := GsmConfig(a, b, from, to, Low(last));
  }

  /** dispatchGsmBrSmsCnf; the model stops where a negative count makes the source's array undefined */
  method DispatchGsmBrSmsCnf(p: Parcel) returns (ending: Ending, cs: seq<GsmConfig>)
    modifies p`pos
    ensures ending == Undefined <==> DecodeGsmList(old(p.Rest())).NegativeCount?
    ensures ending == Invalid <==> DecodeGsmList(old(p.Rest())).TooShort?
    ensures ending == Ok ==> DecodeGsmList(old(p.Rest())) == Listed(cs, p.Rest())
  {
    var ok, num, t;
    cs := [];
    ok, num := p.ReadInt32(0);
    if !ok {
      return Invalid, cs;
    }
    if num < 0 {
      return Undefined, cs;
    }
    t := num;
    ghost var ws := p.Rest();
    for i := 0 to num
      invariant ok <==> |ws| >= GSM_WORDS * i
      invariant ok ==> cs == DecodeGsms(ws, i) && p.Rest() == ws[GSM_WORDS * i..]
      invariant !ok ==> p.Rest() == []
    {
      ok, cs, t := NextGsm(p, ok, cs, t, i, ws);
    }
    if ok {
      Dropped(old(p.Rest()), 1, GSM_WORDS * num);
    }
    return if ok then Ok else Invalid, cs;
  }

  /** One round of that loop, the first `i` elements being read from `ws`. */
  method NextGsm(p: Parcel, was: bool, cs: seq<GsmConfig>, t: Word, ghost i: nat, ghost ws: seq<Word>)
    returns (ok: bool, next: seq<GsmConfig>, last: Word)
    requires was <==> |ws| >= GSM_WORDS * i
    requires was ==> cs == DecodeGsms(ws, i) && p.Rest() == ws[GSM_WORDS * i..]
    requires !was ==> p.Rest() == []
    modifies p`pos
    ensures ok <==> |ws| >= GSM_WORDS * (i + 1)
    ensures ok ==> next == DecodeGsms(ws, i + 1) && p.Rest() == ws[GSM_WORDS * (i + 1)..]
    ensures !ok ==> p.Rest() == []
  {
    var c;
    ok, c, last := ReadGsm(p, t);
    next := cs + [c];
    if ok {
      Dropped(ws, GSM_WORDS * i, GSM_WORDS);
    }
  }

  /** responseCdmaBrSmsCnf */
  method ResponseCdmaBrSmsCnf(p: Parcel, cs: seq<CdmaConfig>)
    requires |cs| < 0x8000_0000
    modifies p`words
    ensures p.words == old(p.words) + EncodeCdmaList(cs)
  {
    p.WriteWord(|cs|);
    for i := 0 to |cs|
      invariant p.words == old(p.words) + [|cs|] + EncodeCdmas(cs[..i])
    {
      assert cs[..i + 1][..i] == cs[..i];
      p.WriteWord(cs[i].serviceCategory);
      p.WriteWord(cs[i].language);
      p.WriteWord(cs[i].selected);
      assert EncodeCdmas(cs[..i + 1]) == EncodeCdmas(cs[..i]) + EncodeCdma(cs[i]);
    }
    assert cs[..|cs|] == cs;
  }

  /** dispatchCdmaBrSmsCnf: one element */
  method ReadCdma(p: Parcel, t: Word) returns (ok: bool, c: CdmaConfig, last: Word)
    modifies p`pos
    ensures ok <==> |old(p.Rest())| >= CDMA_WORDS
    ensures ok ==> c == DecodeCdma(old(p.Rest())[..CDMA_WORDS]) && p.Rest() == old(p.Rest())[CDMA_WORDS..]
    ensures !ok ==> p.Rest() == []
  {
    var category, language;
    ok, category := p.ReadInt32(t);
    ok, language := p.ReadInt32(category);
    ok, last := p.ReadInt32(language);
    c := CdmaConfig(category, language, Low(last));
  }

  /** dispatchCdmaBrSmsCnf, likewise */
  method DispatchCdmaBrSmsCnf(p: Parcel) returns (ending: Ending, cs: seq<CdmaConfig>)
    modifies p`pos
    ensures ending == Undefined <==> DecodeCdmaList(old(p.Rest())).NegativeCount?
    ensures ending == Invalid <==> DecodeCdmaList(old(p.Rest())).TooShort?
    ensures ending == Ok ==> DecodeCdmaList(old(p.Rest())) == Listed(cs, p.Rest())
  {
    var ok, num, t;
    cs := [];
    ok, num := p.ReadInt32(0);
    if !ok {
      return Invalid, cs;
    }
    if num < 0 {
      return Undefined, cs;
    }
    t := num;
    ghost var ws := p.Rest();
    for i := 0 to num
      invariant ok <==> |ws| >= CDMA_WORDS * i
      invariant ok ==> cs == DecodeCdmas(ws, i) && p.Rest() == ws[CDMA_WORDS * i..]
      invariant !ok ==> p.Rest() == []
    {
      ok, cs, t := NextCdma(p, ok, cs, t, i, ws);
    }
    if ok {
      Dropped(old(p.Rest()), 1, CDMA_WORDS * num);
    }
    return if ok then Ok else Invalid, cs;
  }

  /** One round of that loop, the first `i` elements being read from `ws`. */
  method NextCdma(p: Parcel, was: bool, cs: seq<CdmaConfig>, t: Word, ghost i: nat, ghost ws: seq<Word>)
    returns (ok: bool, next: seq<CdmaConfig>, last: Word)
    requires was <==> |ws| >= CDMA_WORDS * i
    requires was ==> cs == DecodeCdmas(ws, i) && p.Rest() == ws[CDMA_WORDS * i..]
    requires !was ==> p.Rest() == []
    modifies p`pos
    ensures ok <==> |ws| >= CDMA_WORDS * (i + 1)
    ensures ok ==> next == DecodeCdmas(ws, i + 1) && p.Rest() == ws[CDMA_WORDS * (i + 1)..]
    ensures !ok ==> p.Rest() == []
  {
    var c;
    ok, c, last := ReadCdma(p, t);
    next := cs + [c];
    if ok {
      Dropped(ws, CDMA_WORDS * i, CDMA_WORDS);
    }
  }
}
