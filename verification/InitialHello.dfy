/** The size planned for a client's first hello bounds every hello it may send first. */
module InitialHello {
  import opened Bytes
  import opened Encoding
  import opened Programs
  import opened Extensions
  import opened Frames
  import opened ClientOffer
  import opened Sizes
  import opened FlightPlan

  const MAX_CLIENT_SHARE_LEN: nat := 1216
  const SUITES: seq<U16> := [0x1301, 0x1303, 0x1302]

  /** What a connection's policy fixes before its first hello. */
  datatype Policy = Policy(sessionIdLen: nat, algorithms: seq<U16>, serverType: Option<Byte>,
                           quicParams: Option<Octets>, hostname: Option<Octets>, alpn: seq<Octets>,
                           ticket: Option<Octets>)

  /** The hello `maximum_initial_len` measures. */
  function MaximumHello(p: Policy): Hello
  {
    Hello(SUITES, 0x1d, Zeros(RANDOM_LEN), Zeros(p.sessionIdLen), Zeros(MAX_CLIENT_SHARE_LEN), p.algorithms,
          p.serverType, Some(0), p.quicParams, p.hostname, p.alpn, None, true,
          match p.ticket case None => None case Some(t) => Some(Resumption(t, 0)))
  }

  /** A first hello under the policy: any of the suites, any group and key, fresh randoms,
      a client certificate type or none, early data or none, the ticket or none. */
  predicate Initial(h: Hello, p: Policy)
  {
    && |h.suites| <= |SUITES| && |h.sessionId| == p.sessionIdLen && |h.publicKey| <= MAX_CLIENT_SHARE_LEN
    && h.algorithms == p.algorithms && h.serverType == p.serverType && h.quicParams == p.quicParams
    && h.hostname == p.hostname && h.alpn == p.alpn && h.cookie.None?
    && (h.resumption.Some? ==> p.ticket == Some(h.resumption.value.identity))
  }

  ghost predicate Within(a: seq<Op>, b: seq<Op>)
  {
    ClosesAll(b) ==> ClosesAll(a) && SizeAll(a) <= SizeAll(b)
  }

  ghost predicate SectionsWithin(a: seq<Section>, b: seq<Section>)
  {
    SectionsFit(b) ==> SectionsFit(a) && SectionsSize(a) <= SectionsSize(b)
  }

  lemma WithinAppend(a: seq<Op>, b: seq<Op>, c: seq<Op>, d: seq<Op>)
    requires Within(a, b) && Within(c, d)
    ensures Within(a + c, b + d)
  {
    hide SizeAll, ClosesAll;
    SizeAppend(a, c);
    SizeAppend(b, d);
  }

  lemma WithinFrame(width: nat, a: seq<Op>, b: seq<Op>)
    requires Within(a, b)
    ensures Within([Framed(width, a, false)], [Framed(width, b, false)])
  {
    hide SizeAll, ClosesAll, Size, Closes;
    FrameSize(width, a);
    FrameSize(width, b);
    One(Framed(width, a, false));
    One(Framed(width, b, false));
  }

  lemma WithinVector(a: Octets, b: Octets, width: nat)
    requires |a| <= |b|
    ensures Within([PutVec(a, width)], [PutVec(b, width)])
  {
    hide SizeAll, ClosesAll, PutVec, Span;
    Vector(a, width);
    Vector(b, width);
    One(PutVec(a, width));
    One(PutVec(b, width));
  }

  lemma WithinNumber(m: nat, n: nat, width: nat)
    ensures Within([PutNum(m, width)], [PutNum(n, width)])
  {
  }

  lemma WithinSection(ty: U16, a: seq<Op>, b: seq<Op>)
    requires Within(a, b)
    ensures SectionsWithin([Section(ty, a)], [Section(ty, b)])
  {
    hide SizeAll, ClosesAll, SectionsFit, SectionsSize, Span;
    SingleSection(Section(ty, a));
    SingleSection(Section(ty, b));
  }

  lemma WithinSections(a: seq<Section>, b: seq<Section>, c: seq<Section>, d: seq<Section>)
    requires SectionsWithin(a, b) && SectionsWithin(c, d)
    ensures SectionsWithin(a + c, b + d)
  {
    hide SectionsFit, SectionsSize;
    SectionsAppend(a, c);
    SectionsAppend(b, d);
  }

  lemma WithinNothing(b: seq<Section>)
    ensures SectionsWithin([], b)
  {
  }

  lemma FixedWithin(h: Hello, m: Hello)
    requires h.algorithms == m.algorithms && |h.publicKey| <= |m.publicKey|
    ensures SectionsWithin(FixedSections(h), FixedSections(m))
  {
    hide SectionsWithin, Within, PutNum, PutVec, Num16s;
    var (a, b) := (FixedSections(h)[..3], FixedSections(m)[..3]);
    assert a == b;
    Same(a);
    var (x, y) := ([PutNum(h.group, 2)] + [PutVec(h.publicKey, 2)], [PutNum(m.group, 2)] + [PutVec(m.publicKey, 2)]);
    WithinNumber(h.group, m.group, 2);
    WithinVector(h.publicKey, m.publicKey, 2);
    WithinAppend([PutNum(h.group, 2)], [PutNum(m.group, 2)], [PutVec(h.publicKey, 2)], [PutVec(m.publicKey, 2)]);
    assert x == [PutNum(h.group, 2), PutVec(h.publicKey, 2)] && y == [PutNum(m.group, 2), PutVec(m.publicKey, 2)];
    WithinFrame(2, x, y);
    WithinSection(51, [Framed(2, x, false)], [Framed(2, y, false)]);
    WithinSections(a, b, [Section(51, [Framed(2, x, false)])], [Section(51, [Framed(2, y, false)])]);
    assert FixedSections(h) == a + [Section(51, [Framed(2, x, false)])];
    assert FixedSections(m) == b + [Section(51, [Framed(2, y, false)])];
  }

  lemma Same(a: seq<Section>)
    ensures SectionsWithin(a, a)
  {
  }

  lemma TypeWithin(ty: U16, t: Option<Byte>)
    ensures SectionsWithin(TypeSection(ty, t), TypeSection(ty, Some(0)))
  {
    hide SectionsFit, SectionsSize, Within;
    match t
    case None => WithinNothing(TypeSection(ty, Some(0)));
    case Some(b) =>
      ByteWithin(b, 0);
      WithinFrame(1, [Put([b])], [Put([0])]);
      WithinSection(ty, [Framed(1, [Put([b])], false)], [Framed(1, [Put([0])], false)]);
  }

  lemma ByteWithin(a: Byte, b: Byte)
    ensures Within([Put([a])], [Put([b])])
  {
  }

  lemma EarlierWithin(h: Hello, p: Policy)
    requires Initial(h, p)
    ensures SectionsWithin(EarlierSections(h), EarlierSections(MaximumHello(p)))
  {
    hide SectionsWithin, FixedSections, TypeSection, RawSection, NameSection, AlpnSection, ModeSection;
    var m := MaximumHello(p);
    FixedWithin(h, m);
    var (a, b) := (FixedSections(h), FixedSections(m));
    Same(TypeSection(20, h.serverType));
    WithinSections(a, b, TypeSection(20, h.serverType), TypeSection(20, m.serverType));
    a, b := a + TypeSection(20, h.serverType), b + TypeSection(20, m.serverType);
    TypeWithin(19, h.clientType);
    WithinSections(a, b, TypeSection(19, h.clientType), TypeSection(19, m.clientType));
    a, b := a + TypeSection(19, h.clientType), b + TypeSection(19, m.clientType);
    Same(RawSection(57, h.quicParams));
    WithinSections(a, b, RawSection(57, h.quicParams), RawSection(57, m.quicParams));
    a, b := a + RawSection(57, h.quicParams), b + RawSection(57, m.quicParams);
    Same(NameSection(h.hostname));
    WithinSections(a, b, NameSection(h.hostname), NameSection(m.hostname));
    a, b := a + NameSection(h.hostname), b + NameSection(m.hostname);
    LaterWithin(h, p, a, b);
  }

  lemma LaterWithin(h: Hello, p: Policy, a: seq<Section>, b: seq<Section>)
    requires Initial(h, p) && SectionsWithin(a, b)
    ensures var m := MaximumHello(p);
            SectionsWithin(a + AlpnSection(h.alpn) + RawSection(44, h.cookie) + EarlySection(h.earlyData)
                           + ModeSection(h.resumption),
                           b + AlpnSection(m.alpn) + RawSection(44, m.cookie) + EarlySection(m.earlyData)
                             + ModeSection(m.resumption))
  {
    hide SectionsWithin, RawSection, AlpnSection;
    var m := MaximumHello(p);
    var (c, d) := (a + AlpnSection(h.alpn), b + AlpnSection(m.alpn));
    Same(AlpnSection(h.alpn));
    WithinSections(a, b, AlpnSection(h.alpn), AlpnSection(m.alpn));
    Same(RawSection(44, h.cookie));
    WithinSections(c, d, RawSection(44, h.cookie), RawSection(44, m.cookie));
    c, d := c + RawSection(44, h.cookie), d + RawSection(44, m.cookie);
    Same(EarlySection(true));
    WithinNothing(EarlySection(true));
    WithinSections(c, d, EarlySection(h.earlyData), EarlySection(m.earlyData));
    c, d := c + EarlySection(h.earlyData), d + EarlySection(m.earlyData);
    Same(ModeSection(m.resumption));
    WithinNothing(ModeSection(m.resumption));
    WithinSections(c, d, ModeSection(h.resumption), ModeSection(m.resumption));
  }

  lemma PskWithin(r: Resumption, s: Resumption, a: Octets, b: Octets)
    requires r.identity == s.identity && |a| == |b|
    ensures SectionsWithin([PskSection(r, a)], [PskSection(s, b)])
  {
    hide Within, SectionsWithin, PutVec, PutNum;
    WithinVector(r.identity, s.identity, 2);
    WithinNumber(r.age, s.age, 4);
    WithinAppend([PutVec(r.identity, 2)], [PutVec(s.identity, 2)], [PutNum(r.age, 4)], [PutNum(s.age, 4)]);
    assert [PutVec(r.identity, 2)] + [PutNum(r.age, 4)] == [PutVec(r.identity, 2), PutNum(r.age, 4)];
    assert [PutVec(s.identity, 2)] + [PutNum(s.age, 4)] == [PutVec(s.identity, 2), PutNum(s.age, 4)];
    WithinFrame(2, [PutVec(r.identity, 2), PutNum(r.age, 4)], [PutVec(s.identity, 2), PutNum(s.age, 4)]);
    BytesWithin(a, b);
    WithinFrame(1, [Put(a)], [Put(b)]);
    WithinFrame(2, [Framed(1, [Put(a)], false)], [Framed(1, [Put(b)], false)]);
    var (x, y) := (Framed(2, [Framed(1, [Put(a)], false)], false), Framed(2, [Framed(1, [Put(b)], false)], false));
    WithinAppend([IdentityOps(r)], [IdentityOps(s)], [x], [y]);
    assert [IdentityOps(r)] + [x] == [IdentityOps(r), x] && [IdentityOps(s)] + [y] == [IdentityOps(s), y];
    WithinSection(41, [IdentityOps(r), x], [IdentityOps(s), y]);
  }

  lemma BytesWithin(a: Octets, b: Octets)
    requires |a| == |b|
    ensures Within([Put(a)], [Put(b)])
  {
  }

  lemma HelloSectionsWithin(h: Hello, p: Policy, a: Octets, b: Octets)
    requires Initial(h, p) && |a| == |b|
    ensures SectionsWithin(Sections(h, a), Sections(MaximumHello(p), b))
  {
    hide SectionsWithin, EarlierSections, PskSection;
    var m := MaximumHello(p);
    EarlierWithin(h, p);
    match (h.resumption, m.resumption)
    case (Some(r), Some(s)) =>
      PskWithin(r, s, a, b);
      WithinSections(EarlierSections(h), EarlierSections(m), [PskSection(r, a)], [PskSection(s, b)]);
    case (None, Some(s)) =>
      WithinNothing([PskSection(s, b)]);
      WithinSections(EarlierSections(h), EarlierSections(m), [], [PskSection(s, b)]);
      assert EarlierSections(h) + [] == EarlierSections(h);
    case _ =>
  }

  lemma CoreWithin(h: Hello, m: Hello)
    requires |h.suites| <= |m.suites| && |h.sessionId| <= |m.sessionId|
    ensures Within(CoreOps(h), CoreOps(m))
  {
    hide Within, PutNum, PutVec, PutSuites;
    WithinNumber(TLS_1_2, TLS_1_2, 2);
    BytesWithin(h.random, m.random);
    WithinVector(h.sessionId, m.sessionId, 1);
    SuitesWithin(h.suites, m.suites);
    WithinVector([0], [0], 1);
    var (a, b) := ([PutNum(TLS_1_2, 2)], [PutNum(TLS_1_2, 2)]);
    WithinAppend(a, b, [Put(h.random)], [Put(m.random)]);
    a, b := a + [Put(h.random)], b + [Put(m.random)];
    WithinAppend(a, b, [PutVec(h.sessionId, 1)], [PutVec(m.sessionId, 1)]);
    a, b := a + [PutVec(h.sessionId, 1)], b + [PutVec(m.sessionId, 1)];
    WithinAppend(a, b, [PutSuites(h.suites)], [PutSuites(m.suites)]);
    a, b := a + [PutSuites(h.suites)], b + [PutSuites(m.suites)];
    WithinAppend(a, b, [PutVec([0], 1)], [PutVec([0], 1)]);
    assert CoreOps(h) == a + [PutVec([0], 1)] && CoreOps(m) == b + [PutVec([0], 1)];
  }

  lemma SuitesWithin(a: seq<U16>, b: seq<U16>)
    requires |a| <= |b|
    ensures Within([PutSuites(a)], [PutSuites(b)])
  {
    hide SizeAll, ClosesAll, Num16s;
    WordsSized(a);
    WordsSized(b);
    SuiteFrame(a);
    SuiteFrame(b);
    WithinFrame(2, Num16s(a), Num16s(b));
  }

  lemma SuiteFrame(xs: seq<U16>)
    ensures PutSuites(xs) == Framed(2, Num16s(xs), false)
  {
  }

  /** Every first hello encodes and is no longer than planned, whenever the plan itself encodes; and the plan is
      itself such a hello, so it is no longer than it must be. */
  lemma InitialHelloFits(h: Hello, p: Policy, a: Octets, b: Octets)
    requires Initial(h, p) && |a| == |b| && ClosesAll(HelloProgram(MaximumHello(p), b))
    ensures ClosesAll(HelloProgram(h, a))
    ensures SizeAll(HelloProgram(h, a)) <= SizeAll(HelloProgram(MaximumHello(p), b))
    ensures Initial(MaximumHello(p), p)
  {
    hide SizeAll, ClosesAll, Within, SectionsWithin, CoreOps, Sections, AllOps, PutNum;
    var m := MaximumHello(p);
    HelloSectionsWithin(h, p, a, b);
    OpsWithin(Sections(h, a), Sections(m, b));
    WithinFrame(2, AllOps(Sections(h, a)), AllOps(Sections(m, b)));
    CoreWithin(h, m);
    var (x, y) := ([Framed(2, AllOps(Sections(h, a)), false)], [Framed(2, AllOps(Sections(m, b)), false)]);
    WithinAppend(CoreOps(h), CoreOps(m), x, y);
    WithinFrame(3, CoreOps(h) + x, CoreOps(m) + y);
    WithinNumber(Code(CH), Code(CH), 1);
    WithinAppend([PutNum(Code(CH), 1)], [PutNum(Code(CH), 1)],
                 [Framed(3, CoreOps(h) + x, false)], [Framed(3, CoreOps(m) + y, false)]);
    assert HelloProgram(h, a) == [PutNum(Code(CH), 1)] + [Framed(3, CoreOps(h) + x, false)];
    assert HelloProgram(m, b) == [PutNum(Code(CH), 1)] + [Framed(3, CoreOps(m) + y, false)];
    Applied(HelloProgram(h, a), HelloProgram(m, b));
  }

  lemma Applied(a: seq<Op>, b: seq<Op>)
    requires Within(a, b) && ClosesAll(b)
    ensures ClosesAll(a) && SizeAll(a) <= SizeAll(b)
  {
  }

  lemma OpsWithin(a: seq<Section>, b: seq<Section>)
    requires SectionsWithin(a, b)
    ensures Within(AllOps(a), AllOps(b))
  {
    hide SizeAll, ClosesAll, SectionsFit, SectionsSize;
    SectionsSized(a);
    SectionsSized(b);
  }

  // ---------------------------------------------------------------- the measure

  ghost predicate WholeSections(sections: seq<Section>)
  {
    forall i :: 0 <= i < |sections| ==> WholeAll(sections[i].ops)
  }

  lemma {:induction false} SectionsWhole(sections: seq<Section>)
    requires WholeSections(sections)
    ensures WholeAll(AllOps(sections))
    decreases |sections|
  {
    hide WholeAll, Whole, PutNum;
    if sections == [] {
      NothingWhole();
    } else {
      var s := sections[0];
      SectionsWhole(sections[1..]);
      NumberWhole(s.ty, 2);
      FrameWhole(2, s.ops);
      WholeTwo(PutNum(s.ty, 2), Framed(2, s.ops, false));
      WholeAppend(SectionOps(s), AllOps(sections[1..]));
    }
  }

  lemma NothingWhole()
    ensures WholeAll([])
  {
  }

  lemma NumberWhole(n: nat, width: nat)
    ensures Whole(PutNum(n, width)) && WholeAll([PutNum(n, width)])
  {
  }

  lemma BytesWhole(data: Octets)
    ensures Whole(Put(data)) && WholeAll([Put(data)])
  {
  }

  lemma FrameWhole(width: nat, ops: seq<Op>)
    requires WholeAll(ops)
    ensures Whole(Framed(width, ops, false)) && WholeAll([Framed(width, ops, false)])
  {
  }

  lemma VectorWhole(data: Octets, width: nat)
    ensures Whole(PutVec(data, width)) && WholeAll([PutVec(data, width)])
  {
  }

  lemma {:induction false} NumbersWhole(xs: seq<U16>)
    ensures WholeAll(Num16s(xs))
    decreases |xs|
  {
    hide WholeAll, Whole, PutNum;
    if xs == [] {
      NothingWhole();
    } else {
      assert SuitePrograms(xs)[1..] == SuitePrograms(xs[1..]);
      assert Num16s(xs) == [PutNum(xs[0], 2)] + Num16s(xs[1..]);
      NumberWhole(xs[0], 2);
      NumbersWhole(xs[1..]);
      WholeAppend([PutNum(xs[0], 2)], Num16s(xs[1..]));
    }
  }

  lemma {:induction false} NamesWhole(alpn: seq<Octets>)
    ensures WholeAll(Names(alpn))
    decreases |alpn|
  {
    hide WholeAll, Whole, PutVec;
    if alpn == [] {
      NothingWhole();
    } else {
      assert Names(alpn) == [PutVec(alpn[0], 1)] + Names(alpn[1..]);
      VectorWhole(alpn[0], 1);
      NamesWhole(alpn[1..]);
      WholeAppend([PutVec(alpn[0], 1)], Names(alpn[1..]));
    }
  }

  lemma FixedWhole(h: Hello)
    ensures WholeSections(FixedSections(h))
  {
    hide WholeAll, Whole, PutNum, PutVec, Num16s;
    NumberWhole(TLS_1_3, 2);
    FrameWhole(1, [PutNum(TLS_1_3, 2)]);
    NumbersWhole(GROUPS);
    FrameWhole(2, Num16s(GROUPS));
    NumbersWhole(h.algorithms);
    FrameWhole(2, Num16s(h.algorithms));
    NumberWhole(h.group, 2);
    VectorWhole(h.publicKey, 2);
    WholeTwo(PutNum(h.group, 2), PutVec(h.publicKey, 2));
    FrameWhole(2, [PutNum(h.group, 2), PutVec(h.publicKey, 2)]);
  }

  lemma OptionalWhole(h: Hello)
    ensures forall ty: U16, t: Option<Byte> :: WholeSections(TypeSection(ty, t))
    ensures forall ty: U16, d: Option<Octets> :: WholeSections(RawSection(ty, d))
    ensures WholeSections(NameSection(h.hostname)) && WholeSections(AlpnSection(h.alpn))
    ensures WholeSections(EarlySection(h.earlyData)) && WholeSections(ModeSection(h.resumption))
  {
    hide WholeAll, Whole, PutVec, Names;
    NothingWhole();
    forall b: Byte ensures WholeAll([Framed(1, [Put([b])], false)]) {
      BytesWhole([b]);
      FrameWhole(1, [Put([b])]);
    }
    forall d: Octets ensures WholeAll([Put(d)]) {
      BytesWhole(d);
    }
    forall name: Octets ensures WholeAll([Framed(2, [Put([0]), PutVec(name, 2)], false)]) {
      BytesWhole([0]);
      VectorWhole(name, 2);
      WholeTwo(Put([0]), PutVec(name, 2));
      FrameWhole(2, [Put([0]), PutVec(name, 2)]);
    }
    NamesWhole(h.alpn);
    FrameWhole(2, Names(h.alpn));
  }

  lemma WholeJoin(a: seq<Section>, b: seq<Section>)
    requires WholeSections(a) && WholeSections(b)
    ensures WholeSections(a + b)
  {
  }

  lemma EarlierWhole(h: Hello)
    ensures WholeSections(EarlierSections(h))
  {
    hide WholeSections, FixedSections, TypeSection, RawSection, NameSection, AlpnSection, EarlySection, ModeSection;
    FixedWhole(h);
    OptionalWhole(h);
    var s := FixedSections(h);
    WholeJoin(s, TypeSection(20, h.serverType));
    s := s + TypeSection(20, h.serverType);
    WholeJoin(s, TypeSection(19, h.clientType));
    s := s + TypeSection(19, h.clientType);
    WholeJoin(s, RawSection(57, h.quicParams));
    s := s + RawSection(57, h.quicParams);
    WholeJoin(s, NameSection(h.hostname));
    s := s + NameSection(h.hostname);
    WholeJoin(s, AlpnSection(h.alpn));
    s := s + AlpnSection(h.alpn);
    WholeJoin(s, RawSection(44, h.cookie));
    s := s + RawSection(44, h.cookie);
    WholeJoin(s, EarlySection(h.earlyData));
    s := s + EarlySection(h.earlyData);
    WholeJoin(s, ModeSection(h.resumption));
  }

  lemma PskWhole(r: Resumption, binder: Octets)
    ensures WholeSections([PskSection(r, binder)])
  {
    hide WholeAll, Whole, PutVec, PutNum;
    VectorWhole(r.identity, 2);
    NumberWhole(r.age, 4);
    WholeTwo(PutVec(r.identity, 2), PutNum(r.age, 4));
    FrameWhole(2, [PutVec(r.identity, 2), PutNum(r.age, 4)]);
    BytesWhole(binder);
    FrameWhole(1, [Put(binder)]);
    FrameWhole(2, [Framed(1, [Put(binder)], false)]);
    WholeTwo(IdentityOps(r), Framed(2, [Framed(1, [Put(binder)], false)], false));
  }

  lemma CoreWhole(h: Hello)
    ensures WholeAll(CoreOps(h))
  {
    hide WholeAll, Whole, PutNum, PutVec, PutSuites;
    NumberWhole(TLS_1_2, 2);
    BytesWhole(h.random);
    VectorWhole(h.sessionId, 1);
    NumbersWhole(h.suites);
    FrameWhole(2, Num16s(h.suites));
    SuiteFrame(h.suites);
    VectorWhole([0], 1);
    WholeTwo(PutNum(TLS_1_2, 2), Put(h.random));
    WholeTwo(PutVec(h.sessionId, 1), PutSuites(h.suites));
    WholeAppend([PutNum(TLS_1_2, 2), Put(h.random)], [PutVec(h.sessionId, 1), PutSuites(h.suites)]);
    WholeAppend([PutNum(TLS_1_2, 2), Put(h.random)] + [PutVec(h.sessionId, 1), PutSuites(h.suites)], [PutVec([0], 1)]);
    assert CoreOps(h) == [PutNum(TLS_1_2, 2), Put(h.random)] + [PutVec(h.sessionId, 1), PutSuites(h.suites)]
           + [PutVec([0], 1)];
  }

  lemma HelloWhole(h: Hello, binder: Octets)
    ensures WholeAll(HelloProgram(h, binder))
  {
    hide WholeAll, Whole, CoreOps, AllOps, EarlierSections, PskSection, WholeSections, PutNum;
    EarlierWhole(h);
    if h.resumption.Some? {
      PskWhole(h.resumption.value, binder);
      WholeJoin(EarlierSections(h), [PskSection(h.resumption.value, binder)]);
    }
    var ops := AllOps(Sections(h, binder));
    SectionsWhole(Sections(h, binder));
    FrameWhole(2, ops);
    CoreWhole(h);
    WholeAppend(CoreOps(h), [Framed(2, ops, false)]);
    FrameWhole(3, CoreOps(h) + [Framed(2, ops, false)]);
    NumberWhole(Code(CH), 1);
    WholeTwo(PutNum(Code(CH), 1), Framed(3, CoreOps(h) + [Framed(2, ops, false)], false));
  }

  /** If measuring the maximum hello yields `n`, every first hello encodes to at most `n` bytes. */
  lemma MeasuredHelloBounds(h: Hello, p: Policy, n: nat)
    requires Initial(h, p)
    requires ExecAll(Sized(0, false), HelloProgram(MaximumHello(p), Zeros(BINDER_LEN))) == Outcome(Sized(n, false),
                                                                                                   None)
    ensures var bytes := MeaningAll(HelloProgram(h, Zeros(BINDER_LEN)));
            bytes.Some? && |bytes.value| <= n
  {
    hide ExecAll, MeaningAll, HelloProgram, SizeAll, ClosesAll, WholeAll;
    var zeros := Zeros(BINDER_LEN);
    HelloWhole(MaximumHello(p), zeros);
    Measured(HelloProgram(MaximumHello(p), zeros), n);
    InitialHelloFits(h, p, zeros, zeros);
    ClosesAllEncodes(HelloProgram(h, zeros));
  }
}
