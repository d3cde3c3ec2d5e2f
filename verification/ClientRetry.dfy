/** What a client's own second hello keeps of the first one's fingerprint. */
module ClientRetry {
  import opened Bytes
  import Fields
  import Programs
  import opened Encoding
  import opened Extensions
  import opened Frames
  import opened Psk
  import opened ClientOffer
  import opened RetryBinding

  /** What answering a HelloRetryRequest replaces: the group, its key, the cookie, early
      data, the transport parameters and the recomputed resumption offer. */
  function SecondHello(h: Hello, group: U16, key: Octets, cookie: Option<Octets>,
                       quicParams: Option<Octets>, resumption: Option<Resumption>): Hello
  {
    h.(group := group, publicKey := key, cookie := cookie, earlyData := false,
       quicParams := quicParams, resumption := resumption)
  }

  function Join(a: Option<seq<Kept>>, b: Option<seq<Kept>>): Option<seq<Kept>>
  {
    match (a, b) case (Some(x), Some(y)) => Some(x + y) case _ => None
  }

  function KeptOf(sections: seq<Section>): Option<seq<Kept>>
  {
    KeptFrom(ToExtensionList(sections), 0)
  }

  lemma {:induction false} KeptSplit(xs: seq<Extension>, ys: seq<Extension>, i: nat)
    requires i <= |xs|
    ensures KeptFrom(xs + ys, i) == Join(KeptFrom(xs, i), KeptFrom(ys, 0))
    decreases |xs| - i
  {
    hide KeptBody;
    var all := xs + ys;
    if i == |xs| {
      KeptShift(all, ys, i, 0);
      assert KeptFrom(ys, 0).Some? ==> [] + KeptFrom(ys, 0).value == KeptFrom(ys, 0).value;
    } else {
      KeptSplit(xs, ys, i + 1);
      assert all[i] == xs[i];
      if KeptFrom(xs, i).Some? && KeptFrom(ys, 0).Some? && !Mutable(xs[i].ty) {
        var (later, last) := (KeptFrom(xs, i + 1).value, KeptFrom(ys, 0).value);
        var k := Kept(xs[i].ty, KeptBody(xs[i]).value);
        assert [k] + (later + last) == ([k] + later) + last;
      }
    }
  }

  lemma {:induction false} KeptShift(all: seq<Extension>, ys: seq<Extension>, n: nat, i: nat)
    requires |all| == n + |ys| && i <= |ys| && forall k :: 0 <= k < |ys| ==> all[n + k] == ys[k]
    ensures KeptFrom(all, n + i) == KeptFrom(ys, i)
    decreases |ys| - i
  {
    hide KeptBody;
    if i < |ys| {
      KeptShift(all, ys, n, i + 1);
      assert all[n + i] == ys[i];
    }
  }

  lemma KeptAppend(a: seq<Section>, b: seq<Section>)
    ensures KeptOf(a + b) == Join(KeptOf(a), KeptOf(b))
  {
    hide Data, KeptFrom;
    assert ToExtensionList(a + b) == ToExtensionList(a) + ToExtensionList(b);
    KeptSplit(ToExtensionList(a), ToExtensionList(b), 0);
  }

  lemma KeptNone(a: seq<Section>)
    requires |a| <= 1 && (a != [] ==> Mutable(a[0].ty) && a[0].ty != PADDING)
    ensures KeptOf(a) == Some([])
  {
    hide Data;
    if a != [] {
      var exts := ToExtensionList(a);
      assert KeptFrom(exts, 1) == Some([]);
    }
  }

  lemma JoinNothing(a: Option<seq<Kept>>)
    ensures Join(a, Some([])) == a
  {
    if a.Some? {
      assert a.value + [] == a.value;
    }
  }

  /** What is pinned of the sections before the transport parameters. */
  function Front(h: Hello): seq<Section>
  {
    FixedSections(h)[..3] + TypeSection(20, h.serverType) + TypeSection(19, h.clientType)
  }

  function Middle(h: Hello): seq<Section>
  {
    NameSection(h.hostname) + AlpnSection(h.alpn)
  }

  lemma FrontKept(h: Hello)
    ensures KeptOf(FixedSections(h) + TypeSection(20, h.serverType) + TypeSection(19, h.clientType)) == KeptOf(Front(h))
  {
    hide KeptOf, Num16s, Programs.PutNum, Programs.PutVec;
    var (fixed, share, x, y) := (FixedSections(h)[..3], FixedSections(h)[3..], TypeSection(20, h.serverType),
                                 TypeSection(19, h.clientType));
    assert FixedSections(h) == fixed + share;
    KeptAppend(fixed, share);
    KeptNone(share);
    JoinNothing(KeptOf(fixed));
    KeptAppend(FixedSections(h), x);
    KeptAppend(FixedSections(h) + x, y);
    KeptAppend(fixed, x);
    KeptAppend(fixed + x, y);
  }

  /** The pinned part of everything before the PSK offer. */
  lemma EarlierKept(h: Hello)
    ensures KeptOf(EarlierSections(h)) ==
            Join(Join(Join(KeptOf(Front(h)), KeptOf(RawSection(57, h.quicParams))), KeptOf(Middle(h))),
                 KeptOf(ModeSection(h.resumption)))
  {
    hide KeptOf, FixedSections, TypeSection, NameSection, AlpnSection, Front, Join;
    FrontKept(h);
    var front := FixedSections(h) + TypeSection(20, h.serverType) + TypeSection(19, h.clientType);
    var (q, n, a) := (RawSection(57, h.quicParams), NameSection(h.hostname), AlpnSection(h.alpn));
    var (c, e, m) := (RawSection(44, h.cookie), EarlySection(h.earlyData), ModeSection(h.resumption));
    KeptAppend(front, q);
    KeptAppend(front + q, n + a);
    assert (front + q) + (n + a) == front + q + n + a;
    KeptAppend(front + q + n + a, c);
    KeptNone(c);
    JoinNothing(KeptOf(front + q + n + a));
    KeptAppend(front + q + n + a + c, e);
    KeptNone(e);
    JoinNothing(KeptOf(front + q + n + a + c));
    KeptAppend(front + q + n + a + c + e, m);
  }

  function PskPart(h: Hello, binder: Octets): seq<Section>
  {
    match h.resumption case None => [] case Some(r) => [PskSection(r, binder)]
  }

  lemma HelloKept(h: Hello, binder: Octets)
    ensures KeptFrom(Message(h, binder).extensions, 0) == Join(KeptOf(EarlierSections(h)), KeptOf(PskPart(h, binder)))
  {
    hide KeptFrom, EarlierSections;
    KeptAppend(EarlierSections(h), PskPart(h, binder));
    assert EarlierSections(h) + [] == EarlierSections(h);
  }

  /** A well-formed offer pins the identities and one binder of 32 bytes. */
  lemma PskKept(r: Resumption, binder: Octets)
    requires |binder| == BINDER_LEN && r.identity != [] && Meaning(IdentityOps(r)).Some?
    ensures KeptOf([PskSection(r, binder)]) ==
            Some([Kept(PRE_SHARED_KEY, Pinned(EncodeIdentity(r), [BINDER_LEN]))])
  {
    hide MeaningAll, IdentityOps, SlotBytes, DecodeOffer, Halves, EncodeIdentity, Be;
    PskBytes(r, binder);
    OfferRead(r, binder);
    OfferHalves(r, binder);
    var exts := ToExtensionList([PskSection(r, binder)]);
    assert Lengths([binder]) == [BINDER_LEN];
    assert KeptFrom(exts, 1) == Some([]);
    var k := Kept(PRE_SHARED_KEY, Pinned(EncodeIdentity(r), [BINDER_LEN]));
    assert KeptBody(exts[0]) == Some(k.body);
    assert KeptFrom(exts, 0) == Some([k] + []);
    assert [k] + [] == [k];
  }

  function EncodeIdentity(r: Resumption): Octets
  {
    Fields.EncodeFields([Fields.VecF(r.identity), Fields.NumF(r.age)], IDENTITY)
  }

  lemma OfferHalves(r: Resumption, binder: Octets)
    requires |binder| == BINDER_LEN && r.identity != [] && Meaning(IdentityOps(r)).Some?
    ensures var halves := Halves(Meaning(IdentityOps(r)).value + SlotBytes(binder));
            halves.Some? && halves.value.0 == EncodeIdentity(r)
  {
    hide IdentityOps, SlotBytes, DecodeIdentities, DecodeBinders, Be, Fields.MatchesAll;
    IdentityRead(r);
    BinderRead(binder);
    VectorsRead(Fields.VecF(EncodeIdentity(r)), Fields.VecF(Fields.EncodeFields([Fields.VecF(binder)], BINDER)));
  }

  lemma IdentityDetermined(r: Resumption, s: Resumption)
    requires r.identity != [] && Meaning(IdentityOps(r)).Some? && s.identity != [] && Meaning(IdentityOps(s)).Some?
    ensures EncodeIdentity(r) == EncodeIdentity(s) <==> r == s
  {
    hide IdentityOps, DecodeIdentities, Be, Fields.MatchesAll, Fields.EncodeFields;
    IdentityRead(r);
    IdentityRead(s);
    if EncodeIdentity(r) == EncodeIdentity(s) {
      assert [Identity(r.identity, r.age)][0] == [Identity(s.identity, s.age)][0];
    }
  }

  lemma OneWhole(s: Section)
    requires !Mutable(s.ty) && s.ty != PRE_SHARED_KEY
    ensures KeptOf([s]) == Some([Kept(s.ty, Whole(Data(s)))])
  {
    hide Data;
    var exts := ToExtensionList([s]);
    assert KeptFrom(exts, 1) == Some([]);
    assert [Kept(s.ty, Whole(Data(s)))] + [] == [Kept(s.ty, Whole(Data(s)))];
  }

  lemma ParamsKept(quicParams: Option<Octets>)
    ensures KeptOf(RawSection(57, quicParams)) ==
            match quicParams case None => Some([]) case Some(d) => Some([Kept(57, Whole(d))])
  {
    match quicParams
    case None =>
    case Some(d) =>
      OneWhole(RawSection(57, quicParams)[0]);
      SingleMeaning(Put(d));
  }

  ghost predicate Untyped(kept: seq<Kept>, ty: U16)
  {
    forall i :: 0 <= i < |kept| ==> kept[i].ty != ty
  }

  lemma {:induction false} KeptTypes(exts: seq<Extension>, i: nat, ty: U16)
    requires i <= |exts| && KeptFrom(exts, i).Some?
    requires forall k :: 0 <= k < |exts| ==> exts[k].ty != ty
    ensures Untyped(KeptFrom(exts, i).value, ty)
    decreases |exts| - i
  {
    hide KeptBody;
    if i < |exts| {
      KeptTypes(exts, i + 1, ty);
    }
  }

  /** Sections without a PSK offer or padding are always kept whole. */
  lemma PlainKept(sections: seq<Section>)
    requires forall i :: 0 <= i < |sections| ==> sections[i].ty != PRE_SHARED_KEY && sections[i].ty != PADDING
    ensures KeptOf(sections).Some?
  {
    hide KeptFrom, Data;
    KeptIsImmutable(ToExtensionList(sections), 0);
  }

  lemma FrontAndMiddle(h: Hello)
    ensures KeptOf(Front(h)).Some? && KeptOf(Middle(h)).Some? && Untyped(KeptOf(Middle(h)).value, 57)
  {
    hide KeptOf, Num16s, Programs.PutNum, Programs.PutVec, Names;
    PlainKept(Front(h));
    PlainKept(Middle(h));
    MiddleTypes(h);
  }

  lemma MiddleTypes(h: Hello)
    requires KeptOf(Middle(h)).Some?
    ensures Untyped(KeptOf(Middle(h)).value, 57)
  {
    hide Data, KeptFrom, Names, Programs.PutVec, Untyped;
    KeptTypes(ToExtensionList(Middle(h)), 0, 57);
  }

  /** The mode and the offer a resuming hello pins. */
  function ResumptionKept(r: Option<Resumption>): seq<Kept>
  {
    match r
    case None => []
    case Some(r) => [Kept(45, Whole(ModeData())), Kept(PRE_SHARED_KEY, Pinned(EncodeIdentity(r), [BINDER_LEN]))]
  }

  function ModeData(): Octets
  {
    Data(Section(45, [Framed(1, [Put([KX_MODE_DHE])], false)]))
  }

  ghost predicate Usable(r: Option<Resumption>)
  {
    r.Some? ==> r.value.identity != [] && Meaning(IdentityOps(r.value)).Some?
  }

  lemma ResumptionParts(h: Hello, binder: Octets)
    requires |binder| == BINDER_LEN && Usable(h.resumption)
    ensures Join(KeptOf(ModeSection(h.resumption)), KeptOf(PskPart(h, binder))) == Some(ResumptionKept(h.resumption))
  {
    hide KeptOf, Data, EncodeIdentity, IdentityOps, PskSection;
    match h.resumption
    case None =>
      Nothing();
      JoinNothing(KeptOf([]));
    case Some(r) =>
      PskKept(r, binder);
      OneWhole(ModeSection(h.resumption)[0]);
      var mode := ModeSection(h.resumption)[0];
      assert ModeSection(h.resumption) == [mode];
      var pin := Kept(PRE_SHARED_KEY, Pinned(EncodeIdentity(r), [BINDER_LEN]));
      assert [Kept(45, Whole(Data(mode)))] + [pin] == [Kept(45, Whole(Data(mode))), pin];
  }

  lemma Nothing()
    ensures KeptOf([]) == Some([])
  {
  }

  ghost function Pins(h: Hello): seq<Kept>
  {
    FrontAndMiddle(h);
    ParamsKept(h.quicParams);
    KeptOf(Front(h)).value + KeptOf(RawSection(57, h.quicParams)).value + KeptOf(Middle(h)).value
      + ResumptionKept(h.resumption)
  }

  lemma HelloPins(h: Hello, binder: Octets)
    requires |binder| == BINDER_LEN && Usable(h.resumption)
    ensures KeptFrom(Message(h, binder).extensions, 0) == Some(Pins(h))
  {
    hide KeptOf, KeptFrom, Message, Front, Middle, RawSection, ModeSection, PskPart, ResumptionKept, EarlierSections;
    HelloKept(h, binder);
    EarlierKept(h);
    FrontAndMiddle(h);
    ParamsKept(h.quicParams);
    ResumptionParts(h, binder);
    var (f, q, m) := (KeptOf(Front(h)).value, KeptOf(RawSection(57, h.quicParams)).value, KeptOf(Middle(h)).value);
    var (o, p) := (KeptOf(ModeSection(h.resumption)).value, KeptOf(PskPart(h, binder)).value);
    assert (f + q + m + o) + p == f + q + m + (o + p);
  }

  lemma ResumptionDetermined(r: Option<Resumption>, s: Option<Resumption>)
    requires Usable(r) && Usable(s) && ResumptionKept(r) == ResumptionKept(s)
    ensures r == s
  {
    hide ModeData, EncodeIdentity, IdentityOps;
    if r.Some? && s.Some? {
      assert ResumptionKept(r)[1] == ResumptionKept(s)[1];
      IdentityDetermined(r.value, s.value);
    }
  }

  lemma ResumptionTypes(r: Option<Resumption>)
    ensures Untyped(ResumptionKept(r), 57)
  {
  }

  /** From equal pins: equal transport parameters and equal resumption offers. */
  lemma PinsDetermine(f: seq<Kept>, p: Option<Octets>, q: Option<Octets>, m: seq<Kept>, a: seq<Kept>, b: seq<Kept>)
    requires Untyped(m, 57) && Untyped(a, 57) && Untyped(b, 57)
    requires f + ParamPin(p) + m + a == f + ParamPin(q) + m + b
    ensures p == q && a == b
  {
    var (x, y) := (ParamPin(p) + m + a, ParamPin(q) + m + b);
    assert f + x == f + ParamPin(p) + m + a && f + y == f + ParamPin(q) + m + b;
    SplitEqual(f, x, f, y);
    HeadPin(p, m + a);
    HeadPin(q, m + b);
    assert ParamPin(p) + (m + a) == x && ParamPin(q) + (m + b) == y;
    SplitEqual(ParamPin(p) + m, a, ParamPin(q) + m, b);
  }

  lemma HeadPin(p: Option<Octets>, rest: seq<Kept>)
    requires Untyped(rest, 57)
    ensures var x := ParamPin(p) + rest;
            && (p.Some? <==> x != [] && x[0].ty == 57)
            && (p.Some? ==> x[0].body == Whole(p.value))
  {
  }

  function ParamPin(q: Option<Octets>): seq<Kept>
  {
    match q case None => [] case Some(d) => [Kept(57, Whole(d))]
  }

  /** The client's second hello has its first one's fingerprint exactly when the transport
      parameters and the resumption offer, with its age, are unchanged. */
  lemma RetryKeepsFingerprint(h: Hello, group: U16, key: Octets, cookie: Option<Octets>,
                              quicParams: Option<Octets>, resumption: Option<Resumption>,
                              a: Octets, b: Octets, first: Octets, second: Octets)
    requires |a| == |b| == BINDER_LEN && Usable(h.resumption) && Usable(resumption)
    requires var s := SecondHello(h, group, key, cookie, quicParams, resumption);
             Decode(first) == Some(Message(h, a)) && Decode(second) == Some(Message(s, b))
    ensures var s := SecondHello(h, group, key, cookie, quicParams, resumption);
            && Fingerprint(Message(h, a)).Some? && Fingerprint(Message(s, b)).Some?
            && (Fingerprint(Message(h, a)) == Fingerprint(Message(s, b)) <==>
                h.quicParams == quicParams && h.resumption == resumption)
  {
    hide Decode, KeptFrom, PreimageOf, FitsCounts, Pins, Sections, ToExtensionList;
    var s := SecondHello(h, group, key, cookie, quicParams, resumption);
    HelloPins(h, a);
    HelloPins(s, b);
    WireBounded(first);
    WireBounded(second);
    PinsAgree(h, s);
    if Fingerprint(Message(h, a)) == Fingerprint(Message(s, b)) {
      FingerprintInjective(Message(h, a), Message(s, b));
    } else if Pins(h) == Pins(s) {
      SameHead(h, s, a, b);
    }
  }

  lemma SameHead(h: Hello, s: Hello, a: Octets, b: Octets)
    requires h.random == s.random && h.sessionId == s.sessionId && h.suites == s.suites
    ensures PreimageOf(Message(h, a), Pins(h)) == PreimageOf(Message(s, b), Pins(h))
  {
  }

  lemma PinsAgree(h: Hello, s: Hello)
    requires Usable(h.resumption) && Usable(s.resumption)
    requires s == SecondHello(h, s.group, s.publicKey, s.cookie, s.quicParams, s.resumption)
    ensures Pins(h) == Pins(s) <==> h.quicParams == s.quicParams && h.resumption == s.resumption
  {
    hide KeptOf, Num16s, Programs.PutNum, Programs.PutVec, Usable, ResumptionKept, Untyped, Names;
    FrontAndMiddle(h);
    ParamsKept(h.quicParams);
    ParamsKept(s.quicParams);
    ResumptionTypes(h.resumption);
    ResumptionTypes(s.resumption);
    assert Front(h) == Front(s) && Middle(h) == Middle(s);
    if Pins(h) == Pins(s) {
      PinsDetermine(KeptOf(Front(h)).value, h.quicParams, s.quicParams, KeptOf(Middle(h)).value,
                    ResumptionKept(h.resumption), ResumptionKept(s.resumption));
      ResumptionDetermined(h.resumption, s.resumption);
    }
  }

  // ------------------------------------------------------------- the ticket age

  datatype Ticket = Ticket(identity: Octets, receivedAt: nat, lifetime: nat, ageAdd: U32)

  const WORD: nat := 0x1_0000_0000

  /** `Active::obfuscated_ticket_age`, in milliseconds; none when the clock ran back or the ticket expired. */
  function ObfuscatedAge(t: Ticket, now: nat): (age: Option<U32>)
    ensures age.Some? <==> t.receivedAt <= now <= t.receivedAt + t.lifetime && now - t.receivedAt < WORD
  {
    if now < t.receivedAt || now - t.receivedAt > t.lifetime || now - t.receivedAt >= WORD then None
    else
      var sum := now - t.receivedAt + t.ageAdd;
      Some(if sum >= WORD then sum - WORD else sum)
  }

  function OfferAt(t: Ticket, now: nat): Option<Resumption>
  {
    match ObfuscatedAge(t, now) case None => None case Some(age) => Some(Resumption(t.identity, age))
  }

  /** A ticket offered at one instant is offered identically only at that instant. */
  lemma OfferPinsTheClock(t: Ticket, first: nat, second: nat)
    requires OfferAt(t, first).Some?
    ensures OfferAt(t, first) == OfferAt(t, second) <==> first == second
  {
  }
}
