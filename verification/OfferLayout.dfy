/** The `pre_shared_key` offer byte by byte (section 4.2.11 of RFC 8446): the decoder
    accepts exactly these layouts. And the client's hello, extension by extension. */
module OfferLayout {
  import opened Bytes
  import opened Encoding
  import opened Extensions
  import opened Fields
  import opened Programs
  import opened Psk
  import opened WireLayout
  import Client = ClientOffer
  import Frames

  ghost function IdentityBytes(ids: seq<Identity>): Octets
  {
    if ids == [] then [] else V16(ids[0].identity) + U32Bytes(ids[0].age) + IdentityBytes(ids[1..])
  }

  ghost function BinderBytes(bs: seq<Octets>): Octets
  {
    if bs == [] then [] else V8(bs[0]) + BinderBytes(bs[1..])
  }

  /** The offer's two vectors, every part within its bounds. */
  ghost predicate LaidOut(data: Octets, o: Offer)
  {
    && |o.identities| == |o.binders| > 0
    && (forall i :: 0 <= i < |o.identities| ==> 1 <= |o.identities[i].identity| <= 0xffff)
    && (forall i :: 0 <= i < |o.binders| ==> 32 <= |o.binders[i]| <= 0xff)
    && |IdentityBytes(o.identities)| <= 0xffff && |BinderBytes(o.binders)| <= 0xffff
    && data == V16(IdentityBytes(o.identities)) + V16(BinderBytes(o.binders))
  }

  // ----------------------------------------------------------------- identities

  ghost function IdentityItems(ids: seq<Identity>): (items: seq<seq<Field>>)
    ensures |items| == |ids|
    ensures forall i :: 0 <= i < |ids| ==> items[i] == [VecF(ids[i].identity), NumF(ids[i].age)]
  {
    seq(|ids|, i requires 0 <= i < |ids| => [VecF(ids[i].identity), NumF(ids[i].age)])
  }

  lemma {:induction false} IdentitiesLayout(ids: seq<Identity>)
    ensures EncodeList(IdentityItems(ids), IDENTITY) == IdentityBytes(ids)
  {
    hide V16, U32Bytes, EncodeField, EncodeFields;
    if ids != [] {
      var items := IdentityItems(ids);
      IdentitiesLayout(ids[1..]);
      assert items[1..] == IdentityItems(ids[1..]);
      TwoFields(items[0], IDENTITY);
      FieldLayout(items[0][0], IDENTITY[0]);
      FieldLayout(items[0][1], IDENTITY[1]);
    }
  }

  lemma IdentitiesFit(ids: seq<Identity>)
    requires forall i :: 0 <= i < |ids| ==> 1 <= |ids[i].identity| <= 0xffff
    ensures AllMatch(IdentityItems(ids), IDENTITY) && AllIdentities(IdentityItems(ids))
    ensures ToIdentities(IdentityItems(ids)) == ids
  {
    hide Span;
    Frames.Widths();
    var items := IdentityItems(ids);
    forall i | 0 <= i < |ids| ensures MatchesAll(items[i], IDENTITY) && IdentityItem(items[i]) {
      assert Matches(items[i][0], IDENTITY[0]) && Matches(items[i][1], IDENTITY[1]);
    }
  }

  lemma IdentitiesRead(s: Octets)
    requires DecodeIdentities(s).Some?
    ensures var ids := DecodeIdentities(s).value;
            && s == IdentityBytes(ids) && forall i :: 0 <= i < |ids| ==> 1 <= |ids[i].identity| <= 0xffff
  {
    hide DecodeList, EncodeList, IdentityBytes;
    ListCanonical(s, IDENTITY);
    var items := DecodeList(s, IDENTITY).value;
    var ids := ToIdentities(items);
    forall i | 0 <= i < |ids| ensures IdentityItems(ids)[i] == items[i] {
      assert items[i] == [items[i][0], items[i][1]];
    }
    assert IdentityItems(ids) == items;
    IdentitiesLayout(ids);
  }

  // -------------------------------------------------------------------- binders

  ghost function BinderItems(bs: seq<Octets>): (items: seq<seq<Field>>)
    ensures |items| == |bs|
    ensures forall i :: 0 <= i < |bs| ==> items[i] == [VecF(bs[i])]
  {
    seq(|bs|, i requires 0 <= i < |bs| => [VecF(bs[i])])
  }

  lemma {:induction false} BindersLayout(bs: seq<Octets>)
    ensures EncodeList(BinderItems(bs), BINDER) == BinderBytes(bs)
  {
    hide V8, EncodeField;
    if bs != [] {
      var items := BinderItems(bs);
      BindersLayout(bs[1..]);
      assert items[1..] == BinderItems(bs[1..]);
      FieldsFrom(items[0], BINDER, 0);
      FieldLayout(items[0][0], BINDER[0]);
    }
  }

  lemma BindersFit(bs: seq<Octets>)
    requires forall i :: 0 <= i < |bs| ==> 32 <= |bs[i]| <= 0xff
    ensures AllMatch(BinderItems(bs), BINDER) && AllBinders(BinderItems(bs))
    ensures ToBinders(BinderItems(bs)) == bs
  {
    hide Span;
    Frames.Widths();
    var items := BinderItems(bs);
    forall i | 0 <= i < |bs| ensures MatchesAll(items[i], BINDER) && BinderItem(items[i]) {
      assert Matches(items[i][0], BINDER[0]);
    }
  }

  lemma BindersRead(s: Octets)
    requires DecodeBinders(s).Some?
    ensures var bs := DecodeBinders(s).value;
            && s == BinderBytes(bs) && forall i :: 0 <= i < |bs| ==> 32 <= |bs[i]| <= 0xff
  {
    hide DecodeList, EncodeList, BinderBytes, Span;
    Frames.Widths();
    ListCanonical(s, BINDER);
    var items := DecodeList(s, BINDER).value;
    var bs := ToBinders(items);
    forall i | 0 <= i < |bs| ensures BinderItems(bs)[i] == items[i] && |bs[i]| <= 0xff {
      assert MatchesAll(items[i], BINDER) && Matches(items[i][0], BINDER[0]);
      assert items[i] == [items[i][0]];
    }
    assert BinderItems(bs) == items;
    BindersLayout(bs);
  }

  // ------------------------------------------------------------------ the offer

  lemma HalvesLayout(data: Octets, ids: Octets, bs: Octets)
    ensures Halves(data) == Some((ids, bs)) <==> |ids| <= 0xffff && |bs| <= 0xffff && data == V16(ids) + V16(bs)
  {
    hide Span, EncodeField, EncodeFields, DecodeFields, V16;
    Frames.Widths();
    var fs := [VecF(ids), VecF(bs)];
    TwoFields(fs, OFFER);
    FieldLayout(fs[0], OFFER[0]);
    FieldLayout(fs[1], OFFER[1]);
    if |ids| <= 0xffff && |bs| <= 0xffff && data == V16(ids) + V16(bs) {
      assert Matches(fs[0], OFFER[0]) && Matches(fs[1], OFFER[1]);
      FieldsComplete(fs, OFFER, []);
      assert data + [] == data;
    }
    if Halves(data) == Some((ids, bs)) {
      FieldsCanonical(data, OFFER);
      var got := DecodeFields(data, OFFER).value;
      assert Matches(got[0], OFFER[0]) && Matches(got[1], OFFER[1]);
      assert got == fs;
      assert EncodeFields(fs, OFFER) + [] == EncodeFields(fs, OFFER);
    }
  }

  /** `OfferedPsks::decode` accepts exactly the bytes laid out here, as the offer they lay out. */
  lemma DecodesIffLaidOut(data: Octets, o: Offer)
    ensures DecodeOffer(data) == Some(o) <==> LaidOut(data, o)
  {
    hide DecodeList, EncodeList, IdentityBytes, BinderBytes, V16, Halves, ToIdentities, ToBinders;
    if LaidOut(data, o) {
      var (ids, bs) := (IdentityBytes(o.identities), BinderBytes(o.binders));
      HalvesLayout(data, ids, bs);
      IdentitiesFit(o.identities);
      IdentitiesLayout(o.identities);
      ListComplete(IdentityItems(o.identities), IDENTITY);
      BindersFit(o.binders);
      BindersLayout(o.binders);
      ListComplete(BinderItems(o.binders), BINDER);
    }
    if DecodeOffer(data) == Some(o) {
      var (ids, bs) := Halves(data).value;
      HalvesLayout(data, ids, bs);
      IdentitiesRead(ids);
      BindersRead(bs);
    }
  }

  // ------------------------------------------------------------ the client's hello

  ghost function NameBytes(names: seq<Octets>): Octets
  {
    if names == [] then [] else V8(names[0]) + NameBytes(names[1..])
  }

  ghost function Optional(ty: U16, data: Option<Octets>): seq<Extension>
  {
    match data case None => [] case Some(d) => [Extension(ty, d)]
  }

  /** One identity with its age, and one binder. */
  ghost function TicketBytes(r: Client.Resumption, binder: Octets): Octets
  {
    V16(V16(r.identity) + U32Bytes(r.age)) + V16(V8(binder))
  }

  /** The extensions of a client's hello, in its order: supported versions, groups, signature algorithms, one key
      share, certificate types, transport parameters, server name, protocols, cookie, early data, PSK modes, and
      last the offered ticket with its binder. */
  ghost function HelloExtensions(h: Client.Hello, binder: Octets): seq<Extension>
  {
    [Extension(43, V8(U16Bytes(0x0304))),
     Extension(10, V16(U16Bytes(0x1d) + U16Bytes(0x17) + U16Bytes(0x11ec))),
     Extension(13, V16(SuiteBytes(h.algorithms))),
     Extension(51, V16(U16Bytes(h.group) + V16(h.publicKey)))]
    + Optional(20, if h.serverType.None? then None else Some(V8([h.serverType.value])))
    + Optional(19, if h.clientType.None? then None else Some(V8([h.clientType.value])))
    + Optional(57, h.quicParams)
    + Optional(0, if h.hostname.None? then None else Some(V16([0] + V16(h.hostname.value))))
    + Optional(16, if h.alpn == [] then None else Some(V16(NameBytes(h.alpn))))
    + Optional(44, h.cookie)
    + Optional(42, if h.earlyData then Some([]) else None)
    + Optional(45, if h.resumption.None? then None else Some(V8([1])))
    + Optional(41, if h.resumption.None? then None else Some(TicketBytes(h.resumption.value, binder)))
  }

  /** These steps write these bytes, if they can be written at all. */
  ghost predicate Puts(ops: seq<Op>, bytes: Octets)
  {
    MeaningAll(ops).Some? ==> MeaningAll(ops).value == bytes
  }

  lemma PutsNumber(n: nat)
    ensures Puts([PutNum(n, 2)], U16Bytes(n)) && Puts([PutNum(n, 4)], U32Bytes(n))
    ensures MeaningAll([PutNum(n, 2)]).Some? && MeaningAll([PutNum(n, 4)]).Some?
  {
    hide Be;
    BigEndian(n);
    Client.SingleMeaning(PutNum(n, 2));
    Client.SingleMeaning(PutNum(n, 4));
  }

  lemma PutsBytes(data: Octets)
    ensures Puts([Put(data)], data)
  {
    Client.SingleMeaning(Put(data));
  }

  lemma PutsFrame(ops: seq<Op>, bytes: Octets)
    requires Puts(ops, bytes)
    ensures Puts([Framed(1, ops, false)], V8(bytes)) && Puts([Framed(2, ops, false)], V16(bytes))
  {
    hide Be, MeaningAll;
    BigEndian(|bytes|);
    FrameMeans(1, ops);
    FrameMeans(2, ops);
  }

  lemma FrameMeans(width: nat, ops: seq<Op>)
    ensures MeaningAll([Framed(width, ops, false)]).Some? ==>
            && MeaningAll(ops).Some?
            && MeaningAll([Framed(width, ops, false)]).value ==
               Be(|MeaningAll(ops).value|, width) + MeaningAll(ops).value
  {
    Client.SingleMeaning(Framed(width, ops, false));
    if Meaning(Framed(width, ops, false)).Some? {
      Client.FramedBytes(width, ops);
    }
  }

  lemma PutsVector(data: Octets)
    ensures Puts([PutVec(data, 1)], V8(data)) && Puts([PutVec(data, 2)], V16(data))
  {
    PutsBytes(data);
    PutsFrame([Put(data)], data);
  }

  lemma PutsBoth(a: seq<Op>, b: seq<Op>, x: Octets, y: Octets)
    requires Puts(a, x) && Puts(b, y)
    ensures Puts(a + b, x + y)
  {
    hide MeaningAll;
    MeaningAppend(a, b);
  }

  lemma {:induction false} PutsWords(xs: seq<U16>)
    ensures Puts(Client.Num16s(xs), SuiteBytes(xs))
  {
    hide MeaningAll, PutNum, U16Bytes, Puts;
    if xs == [] {
      NothingPut();
      assert Client.Num16s(xs) == [];
    } else {
      assert Frames.SuitePrograms(xs)[1..] == Frames.SuitePrograms(xs[1..]);
      assert Client.Num16s(xs) == [PutNum(xs[0], 2)] + Client.Num16s(xs[1..]);
      PutsNumber(xs[0]);
      PutsWords(xs[1..]);
      PutsBoth([PutNum(xs[0], 2)], Client.Num16s(xs[1..]), U16Bytes(xs[0]), SuiteBytes(xs[1..]));
    }
  }

  lemma NothingPut()
    ensures Puts([], [])
  {
  }

  lemma {:induction false} PutsNames(names: seq<Octets>)
    ensures Puts(Client.Names(names), NameBytes(names))
  {
    hide MeaningAll, PutVec, V8, Puts;
    if names == [] {
      NothingPut();
      assert Client.Names(names) == [];
    } else {
      assert Client.Names(names) == [PutVec(names[0], 1)] + Client.Names(names[1..]);
      PutsVector(names[0]);
      PutsNames(names[1..]);
      PutsBoth([PutVec(names[0], 1)], Client.Names(names[1..]), V8(names[0]), NameBytes(names[1..]));
    }
  }

  /** Each section is the extension beside it, if it can be written at all. */
  ghost predicate Spells(sections: seq<Client.Section>, exts: seq<Extension>)
  {
    |sections| == |exts| &&
    forall i :: 0 <= i < |sections| ==> sections[i].ty == exts[i].ty && Puts(sections[i].ops, exts[i].data)
  }

  lemma SpellsAppend(a: seq<Client.Section>, b: seq<Client.Section>, x: seq<Extension>, y: seq<Extension>)
    requires Spells(a, x) && Spells(b, y)
    ensures Spells(a + b, x + y)
  {
    hide Puts;
  }

  lemma FixedSpell(h: Client.Hello)
    ensures Spells(Client.FixedSections(h),
                   [Extension(43, V8(U16Bytes(0x0304))),
                    Extension(10, V16(U16Bytes(0x1d) + U16Bytes(0x17) + U16Bytes(0x11ec))),
                    Extension(13, V16(SuiteBytes(h.algorithms))),
                    Extension(51, V16(U16Bytes(h.group) + V16(h.publicKey)))])
  {
    hide MeaningAll, PutNum, PutVec, U16Bytes, V8, V16, Puts, Client.Num16s;
    PutsNumber(0x0304);
    PutsFrame([PutNum(0x0304, 2)], U16Bytes(0x0304));
    PutsWords(Client.GROUPS);
    GroupBytes();
    PutsFrame(Client.Num16s(Client.GROUPS), SuiteBytes(Client.GROUPS));
    PutsWords(h.algorithms);
    PutsFrame(Client.Num16s(h.algorithms), SuiteBytes(h.algorithms));
    PutsNumber(h.group);
    PutsVector(h.publicKey);
    var share := [PutNum(h.group, 2), PutVec(h.publicKey, 2)];
    assert share == [PutNum(h.group, 2)] + [PutVec(h.publicKey, 2)];
    PutsBoth([PutNum(h.group, 2)], [PutVec(h.publicKey, 2)], U16Bytes(h.group), V16(h.publicKey));
    PutsFrame(share, U16Bytes(h.group) + V16(h.publicKey));
  }

  lemma GroupBytes()
    ensures SuiteBytes(Client.GROUPS) == U16Bytes(0x1d) + U16Bytes(0x17) + U16Bytes(0x11ec)
  {
    hide U16Bytes;
    var (g, h, k) := (Client.GROUPS, Client.GROUPS[1..], Client.GROUPS[1..][1..]);
    assert SuiteBytes(k[1..]) == [];
    assert SuiteBytes(k) == U16Bytes(0x11ec) + [];
  }

  lemma TypeSpell(ty: U16, t: Option<Byte>)
    ensures Spells(Client.TypeSection(ty, t), Optional(ty, if t.None? then None else Some(V8([t.value]))))
  {
    hide MeaningAll, V8, Puts;
    if t.Some? {
      PutsBytes([t.value]);
      PutsFrame([Put([t.value])], [t.value]);
    }
  }

  lemma RawSpell(ty: U16, data: Option<Octets>)
    ensures Spells(Client.RawSection(ty, data), Optional(ty, data))
  {
    if data.Some? {
      PutsBytes(data.value);
    }
  }

  lemma NameSpell(hostname: Option<Octets>)
    ensures Spells(Client.NameSection(hostname),
                   Optional(0, if hostname.None? then None else Some(V16([0] + V16(hostname.value)))))
  {
    hide MeaningAll, PutVec, V16, Puts;
    if hostname.Some? {
      var ops := [Put([0]), PutVec(hostname.value, 2)];
      assert ops == [Put([0])] + [PutVec(hostname.value, 2)];
      PutsBytes([0]);
      PutsVector(hostname.value);
      PutsBoth([Put([0])], [PutVec(hostname.value, 2)], [0], V16(hostname.value));
      PutsFrame(ops, [0] + V16(hostname.value));
    }
  }

  lemma AlpnSpell(alpn: seq<Octets>)
    ensures Spells(Client.AlpnSection(alpn), Optional(16, if alpn == [] then None else Some(V16(NameBytes(alpn)))))
  {
    hide MeaningAll, V16, Puts, NameBytes;
    PutsNames(alpn);
    PutsFrame(Client.Names(alpn), NameBytes(alpn));
  }

  lemma FlagSpell(early: bool, r: Option<Client.Resumption>)
    ensures Spells(Client.EarlySection(early), Optional(42, if early then Some([]) else None))
    ensures Spells(Client.ModeSection(r), Optional(45, if r.None? then None else Some(V8([1]))))
  {
    hide MeaningAll, V8, Puts;
    NothingPut();
    PutsBytes([1]);
    PutsFrame([Put([1])], [1]);
  }

  lemma PskSpell(r: Client.Resumption, binder: Octets)
    ensures Spells([Client.PskSection(r, binder)],
                   [Extension(41, TicketBytes(r, binder))])
  {
    hide MeaningAll, PutVec, PutNum, V8, V16, U32Bytes, Puts;
    var ids := [PutVec(r.identity, 2), PutNum(r.age, 4)];
    assert ids == [PutVec(r.identity, 2)] + [PutNum(r.age, 4)];
    PutsVector(r.identity);
    PutsNumber(r.age);
    PutsBoth([PutVec(r.identity, 2)], [PutNum(r.age, 4)], V16(r.identity), U32Bytes(r.age));
    PutsFrame(ids, V16(r.identity) + U32Bytes(r.age));
    PutsBytes(binder);
    PutsFrame([Put(binder)], binder);
    PutsFrame([Framed(1, [Put(binder)], false)], V8(binder));
    var (a, b) := (Framed(2, ids, false), Framed(2, [Framed(1, [Put(binder)], false)], false));
    assert [a, b] == [a] + [b];
    PutsBoth([a], [b], V16(V16(r.identity) + U32Bytes(r.age)), V16(V8(binder)));
  }

  lemma SectionsSpell(h: Client.Hello, binder: Octets)
    ensures Spells(Client.Sections(h, binder), HelloExtensions(h, binder))
  {
    hide Spells, Optional, Client.FixedSections, Client.TypeSection, Client.RawSection, Client.NameSection,
         Client.AlpnSection, Client.EarlySection, Client.ModeSection, Client.PskSection;
    var r := h.resumption;
    var fixed: seq<Extension> :=
      [Extension(43, V8(U16Bytes(0x0304))),
       Extension(10, V16(U16Bytes(0x1d) + U16Bytes(0x17) + U16Bytes(0x11ec))),
       Extension(13, V16(SuiteBytes(h.algorithms))),
       Extension(51, V16(U16Bytes(h.group) + V16(h.publicKey)))];
    var x1 := Optional(20, if h.serverType.None? then None else Some(V8([h.serverType.value])));
    var x2 := Optional(19, if h.clientType.None? then None else Some(V8([h.clientType.value])));
    var x3 := Optional(57, h.quicParams);
    var x4 := Optional(0, if h.hostname.None? then None else Some(V16([0] + V16(h.hostname.value))));
    var x5 := Optional(16, if h.alpn == [] then None else Some(V16(NameBytes(h.alpn))));
    var x6 := Optional(44, h.cookie);
    var x7 := Optional(42, if h.earlyData then Some([]) else None);
    var x8 := Optional(45, if r.None? then None else Some(V8([1])));
    var (s0, s1, s2, s3) := (Client.FixedSections(h), Client.TypeSection(20, h.serverType),
                             Client.TypeSection(19, h.clientType), Client.RawSection(57, h.quicParams));
    var (s4, s5, s6, s7) := (Client.NameSection(h.hostname), Client.AlpnSection(h.alpn),
                             Client.RawSection(44, h.cookie), Client.EarlySection(h.earlyData));
    var s8 := Client.ModeSection(r);
    FixedSpell(h);
    TypeSpell(20, h.serverType);
    TypeSpell(19, h.clientType);
    RawSpell(57, h.quicParams);
    NameSpell(h.hostname);
    AlpnSpell(h.alpn);
    RawSpell(44, h.cookie);
    FlagSpell(h.earlyData, r);
    hide V8, V16, U16Bytes, SuiteBytes, NameBytes;
    SpellsAppend(s0, s1, fixed, x1);
    SpellsAppend(s0 + s1, s2, fixed + x1, x2);
    SpellsAppend(s0 + s1 + s2, s3, fixed + x1 + x2, x3);
    SpellsAppend(s0 + s1 + s2 + s3, s4, fixed + x1 + x2 + x3, x4);
    SpellsAppend(s0 + s1 + s2 + s3 + s4, s5, fixed + x1 + x2 + x3 + x4, x5);
    SpellsAppend(s0 + s1 + s2 + s3 + s4 + s5, s6, fixed + x1 + x2 + x3 + x4 + x5, x6);
    SpellsAppend(s0 + s1 + s2 + s3 + s4 + s5 + s6, s7, fixed + x1 + x2 + x3 + x4 + x5 + x6, x7);
    SpellsAppend(s0 + s1 + s2 + s3 + s4 + s5 + s6 + s7, s8, fixed + x1 + x2 + x3 + x4 + x5 + x6 + x7, x8);
    LastSpells(h, binder, fixed + x1 + x2 + x3 + x4 + x5 + x6 + x7 + x8);
  }

  lemma LastSpells(h: Client.Hello, binder: Octets, exts: seq<Extension>)
    requires Spells(Client.EarlierSections(h), exts)
    ensures Spells(Client.Sections(h, binder),
                   exts + Optional(41, if h.resumption.None? then None
                                       else Some(TicketBytes(h.resumption.value, binder))))
  {
    hide Spells, Client.EarlierSections, Client.PskSection, V8, V16, U32Bytes;
    if h.resumption.Some? {
      var r := h.resumption.value;
      PskSpell(r, binder);
      SpellsAppend(Client.EarlierSections(h), [Client.PskSection(r, binder)], exts,
                   [Extension(41, TicketBytes(r, binder))]);
    } else {
      assert exts + [] == exts;
    }
  }

  lemma {:induction false} SectionsWritten(sections: seq<Client.Section>)
    requires MeaningAll(Client.AllOps(sections)).Some?
    ensures forall i :: 0 <= i < |sections| ==> MeaningAll(sections[i].ops).Some?
    decreases |sections|
  {
    hide MeaningAll, Client.SectionOps;
    if sections != [] {
      MeaningAppend(Client.SectionOps(sections[0]), Client.AllOps(sections[1..]));
      Client.SectionMeaning(sections[0]);
      SectionsWritten(sections[1..]);
      forall i | 0 <= i < |sections| ensures MeaningAll(sections[i].ops).Some? {
        if i > 0 {
          assert sections[i] == sections[1..][i - 1];
        }
      }
    }
  }

  /** `Offer::encode` writes a ClientHello of legacy version 3.3 with the null compression method and exactly these
      extensions, whenever it writes one. */
  lemma HelloLayout(h: Client.Hello, binder: Octets)
    requires MeaningAll(Client.HelloProgram(h, binder)).Some?
    ensures MeaningAll(Client.HelloProgram(h, binder)) ==
            Frames.Encode(Frames.ClientHello(0x0303, h.random, h.sessionId, h.suites, [0], HelloExtensions(h, binder)))
  {
    hide MeaningAll, Client.Sections, Client.AllOps, HelloExtensions, Client.CoreOps, PutNum, Puts, Frames.Encode;
    var sections := Client.Sections(h, binder);
    Client.HelloIsItsMessage(h, binder);
    SectionsSpell(h, binder);
    ProgramParts(h, binder);
    SectionsWritten(sections);
    var exts := Client.ToExtensionList(sections);
    forall i | 0 <= i < |sections| ensures exts[i] == HelloExtensions(h, binder)[i] {
      SameData(sections[i], HelloExtensions(h, binder)[i]);
    }
    assert exts == HelloExtensions(h, binder);
  }

  lemma SameData(s: Client.Section, e: Extension)
    requires s.ty == e.ty && Puts(s.ops, e.data) && MeaningAll(s.ops).Some?
    ensures Extension(s.ty, Client.Data(s)) == e
  {
  }

  lemma ProgramParts(h: Client.Hello, binder: Octets)
    requires MeaningAll(Client.HelloProgram(h, binder)).Some?
    ensures MeaningAll(Client.AllOps(Client.Sections(h, binder))).Some?
  {
    hide MeaningAll, Client.Sections, Client.AllOps, Client.CoreOps, PutNum, Meaning;
    var ours := Framed(2, Client.AllOps(Client.Sections(h, binder)), false);
    var body := Client.CoreOps(h) + [ours];
    Client.PairMeaning(PutNum(Frames.Code(Frames.CH), 1), Framed(3, body, false));
    Client.FramedNeeds(3, body);
    MeaningAppend(Client.CoreOps(h), [ours]);
    Client.SingleMeaning(ours);
    Client.FramedNeeds(2, Client.AllOps(Client.Sections(h, binder)));
  }
}
