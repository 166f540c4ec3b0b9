/** At which word of a Parcel each field of an SMS stands, written and read. */
module SmsLayout {
  import opened Numbers
  import opened SmsCodec

  /** How many of an array's `max` elements a count stands for. */
  function Counted(count: int, max: nat): nat {
    if count <= 0 then 0 else if count >= max then max else count
  }

  // ---------- a CDMA message, written ----------

  ghost predicate AddressAt(ws: seq<Word>, at: nat, a: Address, n: nat)
    requires at + 5 + n <= |ws| && n <= |a.digits|
  {
    && ws[at] == a.digitMode && ws[at + 1] == a.numberMode && ws[at + 2] == a.numberType && ws[at + 3] == a.numberPlan
    && ws[at + 4] == a.count && forall i :: 0 <= i < n ==> ws[at + 5 + i] == a.digits[i]
  }

  ghost predicate SubaddressAt(ws: seq<Word>, at: nat, s: Subaddress, n: nat)
    requires at + 3 + n <= |ws| && n <= |s.digits|
  {
    && ws[at] == s.kind && ws[at + 1] == s.odd && ws[at + 2] == s.count
    && forall i :: 0 <= i < n ==> ws[at + 3 + i] == s.digits[i]
  }

  ghost predicate BearerAt(ws: seq<Word>, at: nat, b: Bearer, n: nat)
    requires at + 1 + n <= |ws| && n <= |b.data|
  {
    ws[at] == b.length && forall i :: 0 <= i < n ==> ws[at + 1 + i] == b.data[i]
  }

  /** responseCdmaSms writes three words, the address from word 3, behind its digits the subaddress, and behind those
      the bearer data. */
  lemma CdmaSmsWords(m: CdmaSms)
    ensures var ws, a, s, b := Encode(m), Counted(m.address.count, |m.address.digits|),
                               Counted(m.subaddress.count, |m.subaddress.digits|), Counted(m.bearer.length, |m.bearer.data|);
      && |ws| == 12 + a + s + b
      && ws[0] == m.teleservice && ws[1] == m.present && ws[2] == m.category
      && AddressAt(ws, 3, m.address, a) && SubaddressAt(ws, 8 + a, m.subaddress, s) && BearerAt(ws, 11 + a + s, m.bearer, b)
  {
    var a, s, b := EncodeAddress(m.address), EncodeSubaddress(m.subaddress), EncodeBearer(m.bearer);
    PartsOf(m);
    AddressWords(Encode(m), 3, m.address);
    SubaddressWords(Encode(m), 3 + |a|, m.subaddress);
    BearerWords(Encode(m), 3 + |a| + |s|, m.bearer);
  }

  lemma PartsOf(m: CdmaSms)
    ensures var ws, a, s, b := Encode(m), EncodeAddress(m.address), EncodeSubaddress(m.subaddress), EncodeBearer(m.bearer);
      && |ws| == 3 + |a| + |s| + |b| && ws[0] == m.teleservice && ws[1] == m.present && ws[2] == m.category
      && ws[3..3 + |a|] == a && ws[3 + |a|..3 + |a| + |s|] == s && ws[3 + |a| + |s|..3 + |a| + |s| + |b|] == b
  {
    Parts([m.teleservice, m.present, m.category], EncodeAddress(m.address), EncodeSubaddress(m.subaddress),
          EncodeBearer(m.bearer));
  }

  lemma Parts(front: seq<Word>, a: seq<Word>, s: seq<Word>, b: seq<Word>)
    ensures var ws, at := front + a + s + b, |front| + |a|;
      && ws[..|front|] == front && ws[|front|..at] == a && ws[at..at + |s|] == s && ws[at + |s|..at + |s| + |b|] == b
  {
  }

  lemma AddressWords(ws: seq<Word>, at: nat, a: Address)
    requires at + |EncodeAddress(a)| <= |ws| && ws[at..at + |EncodeAddress(a)|] == EncodeAddress(a)
    ensures |EncodeAddress(a)| == 5 + Counted(a.count, |a.digits|)
    ensures AddressAt(ws, at, a, Counted(a.count, |a.digits|))
  {
    assert forall i :: 0 <= i < |EncodeAddress(a)| ==> ws[at + i] == EncodeAddress(a)[i];
  }

  lemma SubaddressWords(ws: seq<Word>, at: nat, s: Subaddress)
    requires at + |EncodeSubaddress(s)| <= |ws| && ws[at..at + |EncodeSubaddress(s)|] == EncodeSubaddress(s)
    ensures |EncodeSubaddress(s)| == 3 + Counted(s.count, |s.digits|)
    ensures SubaddressAt(ws, at, s, Counted(s.count, |s.digits|))
  {
    assert forall i :: 0 <= i < |EncodeSubaddress(s)| ==> ws[at + i] == EncodeSubaddress(s)[i];
  }

  lemma BearerWords(ws: seq<Word>, at: nat, b: Bearer)
    requires at + |EncodeBearer(b)| <= |ws| && ws[at..at + |EncodeBearer(b)|] == EncodeBearer(b)
    ensures |EncodeBearer(b)| == 1 + Counted(b.length, |b.data|)
    ensures BearerAt(ws, at, b, Counted(b.length, |b.data|))
  {
    assert forall i :: 0 <= i < |EncodeBearer(b)| ==> ws[at + i] == EncodeBearer(b)[i];
  }

  // ---------- a CDMA message, read ----------

  /** The array holds the low bytes of the `n` words from `at` on, and else zero. */
  ghost predicate LowBytes(digits: seq<Byte>, ws: seq<Word>, at: nat, n: nat)
    requires at + n <= |ws|
  {
    n <= |digits| && forall i :: 0 <= i < |digits| ==> digits[i] == if i < n then ws[at + i] % 256 else 0
  }

  ghost predicate AddressFrom(ws: seq<Word>, at: nat, a: Address, n: nat)
    requires at + 5 + n <= |ws|
  {
    && a.digitMode == ws[at] && a.numberMode == ws[at + 1] && a.numberType == ws[at + 2] && a.numberPlan == ws[at + 3]
    && a.count == ws[at + 4] % 256 && LowBytes(a.digits, ws, at + 5, n)
  }

  ghost predicate SubaddressFrom(ws: seq<Word>, at: nat, s: Subaddress, n: nat)
    requires at + 3 + n <= |ws|
  {
    && s.kind == ws[at] && s.odd == ws[at + 1] % 256 && s.count == ws[at + 2] % 256
    && LowBytes(s.digits, ws, at + 3, n)
  }

  ghost predicate BearerFrom(ws: seq<Word>, at: nat, b: Bearer, n: nat)
    requires at + 1 + n <= |ws|
  {
    b.length == ws[at] && LowBytes(b.data, ws, at + 1, n)
  }

  lemma AddressStarts(ws: seq<Word>, max: nat)
    ensures var t := DecodeAddress(ws, max);
      if |ws| < 5 || |ws| < 5 + Counted(ws[4] % 256, max) then t == Short
      else
        var n := Counted(ws[4] % 256, max);
        t.Parsed? && |t.value.digits| == max && AddressFrom(ws, 0, t.value, n) && t.rest == ws[5 + n..]
  {
  }

  lemma AddressShifts(ws: seq<Word>, at: nat, v: Address, n: nat)
    requires at + 5 + n <= |ws|
    ensures AddressFrom(ws[at..], 0, v, n) <==> AddressFrom(ws, at, v, n)
    ensures ws[at..][5 + n..] == ws[at + 5 + n..]
  {
    assert forall i :: 0 <= i < 5 + n ==> ws[at..][i] == ws[at + i];
  }

  /** Whether it can be read, and what is left then. */
  lemma AddressLeaves(ws: seq<Word>, at: nat, max: nat)
    requires at <= |ws|
    ensures var t := DecodeAddress(ws[at..], max);
      if |ws| < at + 5 || |ws| < at + 5 + Counted(ws[at + 4] % 256, max) then t == Short
      else t.Parsed? && t.rest == ws[at + 5 + Counted(ws[at + 4] % 256, max)..]
  {
    AddressStarts(ws[at..], max);
    var t := DecodeAddress(ws[at..], max);
    if t.Parsed? {
      AddressShifts(ws, at, t.value, Counted(ws[at + 4] % 256, max));
    }
  }

  lemma AddressReads(ws: seq<Word>, at: nat, max: nat)
    requires |ws| >= at + 5 && |ws| >= at + 5 + Counted(ws[at + 4] % 256, max)
    ensures var t := DecodeAddress(ws[at..], max);
      t.Parsed? && |t.value.digits| == max && AddressFrom(ws, at, t.value, Counted(ws[at + 4] % 256, max))
  {
    AddressStarts(ws[at..], max);
    AddressShifts(ws, at, DecodeAddress(ws[at..], max).value, Counted(ws[at + 4] % 256, max));
  }

  lemma SubaddressStarts(ws: seq<Word>, max: nat)
    ensures var t := DecodeSubaddress(ws, max);
      if |ws| < 3 || |ws| < 3 + Counted(ws[2] % 256, max) then t == Short
      else
        var n := Counted(ws[2] % 256, max);
        t.Parsed? && |t.value.digits| == max && SubaddressFrom(ws, 0, t.value, n) && t.rest == ws[3 + n..]
  {
  }

  lemma SubaddressShifts(ws: seq<Word>, at: nat, v: Subaddress, n: nat)
    requires at + 3 + n <= |ws|
    ensures SubaddressFrom(ws[at..], 0, v, n) <==> SubaddressFrom(ws, at, v, n)
    ensures ws[at..][3 + n..] == ws[at + 3 + n..]
  {
    assert forall i :: 0 <= i < 3 + n ==> ws[at..][i] == ws[at + i];
  }

  /** Whether it can be read, and what is left then. */
  lemma SubaddressLeaves(ws: seq<Word>, at: nat, max: nat)
    requires at <= |ws|
    ensures var t := DecodeSubaddress(ws[at..], max);
      if |ws| < at + 3 || |ws| < at + 3 + Counted(ws[at + 2] % 256, max) then t == Short
      else t.Parsed? && t.rest == ws[at + 3 + Counted(ws[at + 2] % 256, max)..]
  {
    SubaddressStarts(ws[at..], max);
    var t := DecodeSubaddress(ws[at..], max);
    if t.Parsed? {
      SubaddressShifts(ws, at, t.value, Counted(ws[at + 2] % 256, max));
    }
  }

  lemma SubaddressReads(ws: seq<Word>, at: nat, max: nat)
    requires |ws| >= at + 3 && |ws| >= at + 3 + Counted(ws[at + 2] % 256, max)
    ensures var t := DecodeSubaddress(ws[at..], max);
      t.Parsed? && |t.value.digits| == max && SubaddressFrom(ws, at, t.value, Counted(ws[at + 2] % 256, max))
  {
    SubaddressStarts(ws[at..], max);
    SubaddressShifts(ws, at, DecodeSubaddress(ws[at..], max).value, Counted(ws[at + 2] % 256, max));
  }

  lemma BearerStarts(ws: seq<Word>, max: nat)
    ensures var t := DecodeBearer(ws, max);
      if |ws| < 1 || |ws| < 1 + Counted(ws[0], max) then t == Short
      else
        var n := Counted(ws[0], max);
        t.Parsed? && |t.value.data| == max && BearerFrom(ws, 0, t.value, n) && t.rest == ws[1 + n..]
  {
  }

  lemma BearerShifts(ws: seq<Word>, at: nat, v: Bearer, n: nat)
    requires at + 1 + n <= |ws|
    ensures BearerFrom(ws[at..], 0, v, n) <==> BearerFrom(ws, at, v, n)
    ensures ws[at..][1 + n..] == ws[at + 1 + n..]
  {
    assert forall i :: 0 <= i < 1 + n ==> ws[at..][i] == ws[at + i];
  }

  /** Whether it can be read, and what is left then. */
  lemma BearerLeaves(ws: seq<Word>, at: nat, max: nat)
    requires at <= |ws|
    ensures var t := DecodeBearer(ws[at..], max);
      if |ws| < at + 1 || |ws| < at + 1 + Counted(ws[at], max) then t == Short
      else t.Parsed? && t.rest == ws[at + 1 + Counted(ws[at], max)..]
  {
    BearerStarts(ws[at..], max);
    var t := DecodeBearer(ws[at..], max);
    if t.Parsed? {
      BearerShifts(ws, at, t.value, Counted(ws[at], max));
    }
  }

  lemma BearerReads(ws: seq<Word>, at: nat, max: nat)
    requires |ws| >= at + 1 && |ws| >= at + 1 + Counted(ws[at], max)
    ensures var t := DecodeBearer(ws[at..], max);
      t.Parsed? && |t.value.data| == max && BearerFrom(ws, at, t.value, Counted(ws[at], max))
  {
    BearerStarts(ws[at..], max);
    BearerShifts(ws, at, DecodeBearer(ws[at..], max).value, Counted(ws[at], max));
  }

  /** How many elements of each array there are, as far as the words say. */
  function Digits(ws: seq<Word>, l: Limits): nat {
    if |ws| > 7 then Counted(ws[7] % 256, l.address) else 0
  }

  function Subdigits(ws: seq<Word>, l: Limits): nat {
    var at := 10 + Digits(ws, l);
    if |ws| > at then Counted(ws[at] % 256, l.subaddress) else 0
  }

  function BearerBytes(ws: seq<Word>, l: Limits): nat {
    var at := 11 + Digits(ws, l) + Subdigits(ws, l);
    if |ws| > at then Counted(ws[at], l.bearer) else 0
  }

  /** The head and the parts, each behind the one before. */
  lemma DecodeIsParts(ws: seq<Word>, l: Limits)
    requires |ws| >= 3
    ensures var a := DecodeAddress(ws[3..], l.address);
      match a
      case Short => Decode(ws, l) == Short
      case Parsed(_, r1) =>
        var s := DecodeSubaddress(r1, l.subaddress);
        match s
        case Short => Decode(ws, l) == Short
        case Parsed(_, r2) =>
          var b := DecodeBearer(r2, l.bearer);
          match b
          case Short => Decode(ws, l) == Short
          case Parsed(_, r3) =>
            Decode(ws, l) == Parsed(CdmaSms(ws[0], ws[1] % 256, ws[2], a.value, s.value, b.value), r3)
  {
  }

  lemma TooFewWords(ws: seq<Word>, l: Limits)
    requires |ws| < 12 + Digits(ws, l) + Subdigits(ws, l) + BearerBytes(ws, l)
    ensures Decode(ws, l) == Short
  {
    if |ws| >= 3 {
      var a, s := Digits(ws, l), Subdigits(ws, l);
      DecodeIsParts(ws, l);
      AddressLeaves(ws, 3, l.address);
      if |ws| >= 8 + a {
        SubaddressLeaves(ws, 8 + a, l.subaddress);
        if |ws| >= 11 + a + s {
          BearerLeaves(ws, 11 + a + s, l.bearer);
        }
      }
    }
  }

  /** The parts of a message that is there. */
  ghost predicate PartsFrom(ws: seq<Word>, l: Limits, m: CdmaSms)
    requires |ws| >= 12 + Digits(ws, l) + Subdigits(ws, l) + BearerBytes(ws, l)
  {
    var a, s, b := Digits(ws, l), Subdigits(ws, l), BearerBytes(ws, l);
    && Fits(m, l) && m.teleservice == ws[0] && m.present == ws[1] % 256 && m.category == ws[2]
    && AddressFrom(ws, 3, m.address, a) && SubaddressFrom(ws, 8 + a, m.subaddress, s)
    && BearerFrom(ws, 11 + a + s, m.bearer, b)
  }

  /** `m` is made of the parts that stand there. */
  ghost predicate MadeOf(ws: seq<Word>, l: Limits, m: CdmaSms, a: nat, s: nat)
    requires |ws| >= 11 + a + s
  {
    var pa, ps, pb := DecodeAddress(ws[3..], l.address), DecodeSubaddress(ws[8 + a..], l.subaddress),
                      DecodeBearer(ws[11 + a + s..], l.bearer);
    && pa.Parsed? && ps.Parsed? && pb.Parsed?
    && m == CdmaSms(ws[0], ws[1] % 256, ws[2], pa.value, ps.value, pb.value)
  }

  lemma JoinsParts(ws: seq<Word>, l: Limits, a: nat, s: nat, b: nat)
    requires |ws| >= 12 + a + s + b
    requires var t := DecodeAddress(ws[3..], l.address); t.Parsed? && t.rest == ws[8 + a..]
    requires var t := DecodeSubaddress(ws[8 + a..], l.subaddress); t.Parsed? && t.rest == ws[11 + a + s..]
    requires var t := DecodeBearer(ws[11 + a + s..], l.bearer); t.Parsed? && t.rest == ws[12 + a + s + b..]
    ensures var t := Decode(ws, l); t.Parsed? && MadeOf(ws, l, t.value, a, s) && t.rest == ws[12 + a + s + b..]
  {
    assert ws[..3] + ws[3..] == ws;
    DecodeParts(ws[..3], ws[3..], l, DecodeAddress(ws[3..], l.address).value, ws[8 + a..],
                DecodeSubaddress(ws[8 + a..], l.subaddress).value, ws[11 + a + s..],
                DecodeBearer(ws[11 + a + s..], l.bearer).value, ws[12 + a + s + b..]);
  }

  lemma AddressStage(ws: seq<Word>, l: Limits)
    requires |ws| >= 8 + Digits(ws, l)
    ensures var t := DecodeAddress(ws[3..], l.address); t.Parsed? && t.rest == ws[8 + Digits(ws, l)..]
  {
    AddressLeaves(ws, 3, l.address);
  }

  lemma SubaddressStage(ws: seq<Word>, l: Limits, a: nat)
    requires a == Digits(ws, l) && |ws| >= 11 + a + Subdigits(ws, l)
    ensures var t := DecodeSubaddress(ws[8 + a..], l.subaddress);
            t.Parsed? && t.rest == ws[11 + a + Subdigits(ws, l)..]
  {
    SubaddressLeaves(ws, 8 + a, l.subaddress);
  }

  lemma BearerStage(ws: seq<Word>, l: Limits, at: nat)
    requires at == 11 + Digits(ws, l) + Subdigits(ws, l) && |ws| >= at + 1 + BearerBytes(ws, l)
    ensures var t := DecodeBearer(ws[at..], l.bearer); t.Parsed? && t.rest == ws[at + 1 + BearerBytes(ws, l)..]
  {
    BearerLeaves(ws, at, l.bearer);
  }

  /** With enough words a message is read, made of the parts that stand there. */
  lemma EnoughWords(ws: seq<Word>, l: Limits, a: nat, s: nat, b: nat)
    requires a == Digits(ws, l) && s == Subdigits(ws, l) && b == BearerBytes(ws, l)
    requires |ws| >= 12 + a + s + b
    ensures var t := Decode(ws, l); t.Parsed? && MadeOf(ws, l, t.value, a, s) && t.rest == ws[12 + a + s + b..]
  {
    AddressStage(ws, l);
    SubaddressStage(ws, l, a);
    BearerStage(ws, l, 11 + a + s);
    JoinsParts(ws, l, a, s, b);
  }

  lemma AddressPart(ws: seq<Word>, l: Limits, m: CdmaSms, a: nat, s: nat)
    requires a == Digits(ws, l) && |ws| >= 11 + a + s && MadeOf(ws, l, m, a, s)
    ensures |m.address.digits| == l.address && AddressFrom(ws, 3, m.address, a)
  {
    AddressReads(ws, 3, l.address);
  }

  lemma SubaddressPart(ws: seq<Word>, l: Limits, m: CdmaSms, a: nat, s: nat)
    requires a == Digits(ws, l) && s == Subdigits(ws, l) && |ws| >= 11 + a + s && MadeOf(ws, l, m, a, s)
    ensures |m.subaddress.digits| == l.subaddress && SubaddressFrom(ws, 8 + a, m.subaddress, s)
  {
    SubaddressReads(ws, 8 + a, l.subaddress);
  }

  lemma BearerPart(ws: seq<Word>, l: Limits, m: CdmaSms, a: nat, s: nat, b: nat)
    requires a == Digits(ws, l) && s == Subdigits(ws, l) && b == BearerBytes(ws, l)
    requires |ws| >= 12 + a + s + b && MadeOf(ws, l, m, a, s)
    ensures |m.bearer.data| == l.bearer && BearerFrom(ws, 11 + a + s, m.bearer, b)
  {
    BearerReads(ws, 11 + a + s, l.bearer);
  }

  lemma PartsRead(ws: seq<Word>, l: Limits, m: CdmaSms, a: nat, s: nat, b: nat)
    requires a == Digits(ws, l) && s == Subdigits(ws, l) && b == BearerBytes(ws, l)
    requires |ws| >= 12 + a + s + b && MadeOf(ws, l, m, a, s)
    ensures PartsFrom(ws, l, m)
  {
    AddressPart(ws, l, m, a, s);
    SubaddressPart(ws, l, m, a, s);
    BearerPart(ws, l, m, a, s, b);
  }

  /** constructCdmaSms takes counts and bytes from the low 8 bits of a word, and no more elements than there is room
      for; what is not there it leaves zero, and it succeeds exactly when all those words are there. */
  lemma CdmaSmsReads(ws: seq<Word>, l: Limits)
    ensures var t, n := Decode(ws, l), 12 + Digits(ws, l) + Subdigits(ws, l) + BearerBytes(ws, l);
      if |ws| < n then t == Short else t.Parsed? && PartsFrom(ws, l, t.value) && t.rest == ws[n..]
  {
    if |ws| < 12 + Digits(ws, l) + Subdigits(ws, l) + BearerBytes(ws, l) {
      TooFewWords(ws, l);
    } else {
      EnoughWords(ws, l, Digits(ws, l), Subdigits(ws, l), BearerBytes(ws, l));
      PartsRead(ws, l, Decode(ws, l).value, Digits(ws, l), Subdigits(ws, l), BearerBytes(ws, l));
    }
  }

  // ---------- lists of broadcast configurations ----------

  ghost predicate GsmAt(ws: seq<Word>, at: nat, c: GsmConfig)
    requires at + 5 <= |ws|
  {
    && ws[at] == c.fromServiceId && ws[at + 1] == c.toServiceId && ws[at + 2] == c.fromCodeScheme
    && ws[at + 3] == c.toCodeScheme && ws[at + 4] % 256 == c.selected
  }

  ghost predicate CdmaAt(ws: seq<Word>, at: nat, c: CdmaConfig)
    requires at + 3 <= |ws|
  {
    ws[at] == c.serviceCategory && ws[at + 1] == c.language && ws[at + 2] % 256 == c.selected
  }

  lemma {:induction false} GsmsAt(cs: seq<GsmConfig>, i: nat)
    requires i < |cs|
    ensures GsmAt(EncodeGsms(cs), 5 * i, cs[i]) && EncodeGsms(cs)[5 * i + 4] == cs[i].selected
  {
    var n := |cs| - 1;
    if i < n {
      GsmsAt(cs[..n], i);
    }
  }

  lemma {:induction false} CdmasAt(cs: seq<CdmaConfig>, i: nat)
    requires i < |cs|
    ensures CdmaAt(EncodeCdmas(cs), 3 * i, cs[i]) && EncodeCdmas(cs)[3 * i + 2] == cs[i].selected
  {
    var n := |cs| - 1;
    if i < n {
      CdmasAt(cs[..n], i);
    }
  }

  /** responseGsmBrSmsCnf and responseCdmaBrSmsCnf write the number of configurations, and each in five words, or in
      three. */
  lemma ListWords(gsm: seq<GsmConfig>, cdma: seq<CdmaConfig>)
    requires |gsm| < 0x8000_0000 && |cdma| < 0x8000_0000
    ensures var ws := EncodeGsmList(gsm);
      && |ws| == 1 + 5 * |gsm| && ws[0] == |gsm|
      && forall i :: 0 <= i < |gsm| ==> GsmAt(ws, 1 + 5 * i, gsm[i]) && ws[5 + 5 * i] == gsm[i].selected
    ensures var ws := EncodeCdmaList(cdma);
      && |ws| == 1 + 3 * |cdma| && ws[0] == |cdma|
      && forall i :: 0 <= i < |cdma| ==> CdmaAt(ws, 1 + 3 * i, cdma[i]) && ws[3 + 3 * i] == cdma[i].selected
  {
    forall i | 0 <= i < |gsm|
      ensures GsmAt(EncodeGsmList(gsm), 1 + 5 * i, gsm[i]) && EncodeGsmList(gsm)[5 + 5 * i] == gsm[i].selected
    {
      GsmsAt(gsm, i);
    }
    forall i | 0 <= i < |cdma|
      ensures CdmaAt(EncodeCdmaList(cdma), 1 + 3 * i, cdma[i]) && EncodeCdmaList(cdma)[3 + 3 * i] == cdma[i].selected
    {
      CdmasAt(cdma, i);
    }
  }

  lemma {:induction false} GsmsFrom(ws: seq<Word>, n: nat, i: nat)
    requires i < n && |ws| >= GSM_WORDS * n
    ensures GsmAt(ws, 5 * i, DecodeGsms(ws, n)[i])
  {
    if i < n - 1 {
      GsmsFrom(ws, n - 1, i);
    } else {
      assert ws[GSM_WORDS * i..GSM_WORDS * n][4] == ws[5 * i + 4];
    }
  }

  lemma {:induction false} CdmasFrom(ws: seq<Word>, n: nat, i: nat)
    requires i < n && |ws| >= CDMA_WORDS * n
    ensures CdmaAt(ws, 3 * i, DecodeCdmas(ws, n)[i])
  {
    if i < n - 1 {
      CdmasFrom(ws, n - 1, i);
    } else {
      assert ws[CDMA_WORDS * i..CDMA_WORDS * n][2] == ws[3 * i + 2];
    }
  }

  /** dispatchGsmBrSmsCnf and dispatchCdmaBrSmsCnf read as many as the first word says, from the same places; with a
      negative count the array is undefined, and with too few words they fail. */
  lemma GsmListReads(ws: seq<Word>)
    ensures DecodeGsmList(ws).NegativeCount? <==> |ws| > 0 && ws[0] < 0
    ensures DecodeGsmList(ws).TooShort? <==> |ws| == 0 || (ws[0] >= 0 && |ws| < 1 + 5 * (ws[0] as int))
    ensures DecodeGsmList(ws).Listed? ==> var t := DecodeGsmList(ws);
      && |t.configs| == ws[0] && t.rest == ws[1 + 5 * (ws[0] as int)..]
      && forall i :: 0 <= i < |t.configs| ==> GsmAt(ws, 1 + 5 * i, t.configs[i])
  {
    var t := DecodeGsmList(ws);
    if t.Listed? {
      forall i | 0 <= i < |t.configs|
        ensures GsmAt(ws, 1 + 5 * i, t.configs[i])
      {
        GsmsFrom(ws[1..], ws[0], i);
      }
    }
  }

  lemma CdmaListReads(ws: seq<Word>)
    ensures DecodeCdmaList(ws).NegativeCount? <==> |ws| > 0 && ws[0] < 0
    ensures DecodeCdmaList(ws).TooShort? <==> |ws| == 0 || (ws[0] >= 0 && |ws| < 1 + 3 * (ws[0] as int))
    ensures DecodeCdmaList(ws).Listed? ==> var t := DecodeCdmaList(ws);
      && |t.configs| == ws[0] && t.rest == ws[1 + 3 * (ws[0] as int)..]
      && forall i :: 0 <= i < |t.configs| ==> CdmaAt(ws, 1 + 3 * i, t.configs[i])
  {
    var t := DecodeCdmaList(ws);
    if t.Listed? {
      forall i | 0 <= i < |t.configs|
        ensures CdmaAt(ws, 1 + 3 * i, t.configs[i])
      {
        CdmasFrom(ws[1..], ws[0], i);
      }
    }
  }
}
