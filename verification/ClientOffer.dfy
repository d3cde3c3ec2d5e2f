/** The ClientHello a client sends, and the slot it leaves for the binder. */
module ClientOffer {
  import opened Bytes
  import opened Fields
  import opened Encoding
  import opened Programs
  import opened Extensions
  import opened Frames
  import opened Psk

  const TLS_1_2: U16 := 0x0303
  const TLS_1_3: U16 := 0x0304
  const KX_MODE_DHE: Byte := 1
  const BINDER_LEN: nat := 32
  const GROUPS: seq<U16> := [0x1d, 0x17, 0x11ec]

  datatype Resumption = Resumption(identity: Octets, age: U32)

  datatype Hello = Hello(
    suites: seq<U16>, group: U16, random: Random, sessionId: Octets, publicKey: Octets,
    algorithms: seq<U16>, serverType: Option<Byte>, clientType: Option<Byte>,
    quicParams: Option<Octets>, hostname: Option<Octets>, alpn: seq<Octets>,
    cookie: Option<Octets>, earlyData: bool, resumption: Option<Resumption>)

  /** One extension: `Extension::begin`, a body, `finish`. */
  datatype Section = Section(ty: U16, ops: seq<Op>)

  function Num16s(xs: seq<U16>): seq<Op>
  {
    Concat(SuitePrograms(xs))
  }

  function Names(alpn: seq<Octets>): (ops: seq<Op>)
    ensures |ops| == |alpn|
  {
    seq(|alpn|, i requires 0 <= i < |alpn| => PutVec(alpn[i], 1))
  }

  function TypeSection(ty: U16, t: Option<Byte>): seq<Section>
  {
    match t case None => [] case Some(b) => [Section(ty, [Framed(1, [Put([b])], false)])]
  }

  function RawSection(ty: U16, data: Option<Octets>): seq<Section>
  {
    match data case None => [] case Some(d) => [Section(ty, [Put(d)])]
  }

  function NameSection(hostname: Option<Octets>): seq<Section>
  {
    match hostname
    case None => []
    case Some(name) => [Section(0, [Framed(2, [Put([0]), PutVec(name, 2)], false)])]
  }

  function AlpnSection(alpn: seq<Octets>): seq<Section>
  {
    if alpn == [] then [] else [Section(16, [Framed(2, Names(alpn), false)])]
  }

  function EarlySection(offered: bool): seq<Section>
  {
    if offered then [Section(42, [])] else []
  }

  function ModeSection(r: Option<Resumption>): seq<Section>
  {
    if r.Some? then [Section(45, [Framed(1, [Put([KX_MODE_DHE])], false)])] else []
  }

  function FixedSections(h: Hello): seq<Section>
  {
    [Section(43, [Framed(1, [PutNum(TLS_1_3, 2)], false)]),
     Section(10, [Framed(2, Num16s(GROUPS), false)]),
     Section(13, [Framed(2, Num16s(h.algorithms), false)]),
     Section(51, [Framed(2, [PutNum(h.group, 2), PutVec(h.publicKey, 2)], false)])]
  }

  /** Every extension before the PSK offer, in the order the client writes them. */
  function EarlierSections(h: Hello): seq<Section>
  {
    FixedSections(h) + TypeSection(20, h.serverType) + TypeSection(19, h.clientType)
    + RawSection(57, h.quicParams) + NameSection(h.hostname) + AlpnSection(h.alpn)
    + RawSection(44, h.cookie) + EarlySection(h.earlyData) + ModeSection(h.resumption)
  }

  function IdentityOps(r: Resumption): Op
  {
    Framed(2, [PutVec(r.identity, 2), PutNum(r.age, 4)], false)
  }

  function PskSection(r: Resumption, binder: Octets): Section
  {
    Section(PRE_SHARED_KEY, [IdentityOps(r), Framed(2, [Framed(1, [Put(binder)], false)], false)])
  }

  function Sections(h: Hello, binder: Octets): seq<Section>
  {
    match h.resumption
    case None => EarlierSections(h)
    case Some(r) => EarlierSections(h) + [PskSection(r, binder)]
  }

  function SectionOps(s: Section): seq<Op>
  {
    [PutNum(s.ty, 2), Framed(2, s.ops, false)]
  }

  function AllOps(sections: seq<Section>): seq<Op>
  {
    if sections == [] then [] else SectionOps(sections[0]) + AllOps(sections[1..])
  }

  function CoreOps(h: Hello): seq<Op>
  {
    [PutNum(TLS_1_2, 2), Put(h.random), PutVec(h.sessionId, 1), PutSuites(h.suites), PutVec([0], 1)]
  }

  /** `Offer::encode`, with the given bytes where the binder goes. */
  function HelloProgram(h: Hello, binder: Octets): seq<Op>
  {
    [PutNum(Code(CH), 1), Framed(3, CoreOps(h) + [Framed(2, AllOps(Sections(h, binder)), false)], false)]
  }

  // -------------------------------------------------- the message it spells out

  function Data(s: Section): Octets
  {
    match MeaningAll(s.ops) case Some(d) => d case None => []
  }

  function ToExtensionList(sections: seq<Section>): (exts: seq<Extension>)
    ensures |exts| == |sections|
    ensures forall i :: 0 <= i < |sections| ==> exts[i] == Extension(sections[i].ty, Data(sections[i]))
  {
    seq(|sections|, i requires 0 <= i < |sections| => Extension(sections[i].ty, Data(sections[i])))
  }

  function Message(h: Hello, binder: Octets): Frame
  {
    ClientHello(TLS_1_2, h.random, h.sessionId, h.suites, [0], ToExtensionList(Sections(h, binder)))
  }

  lemma SectionMeaning(s: Section)
    requires MeaningAll(SectionOps(s)).Some?
    ensures MeaningAll(s.ops).Some?
    ensures MeaningAll(SectionOps(s)) == MeaningAll(ExtensionOps(Extension(s.ty, Data(s))))
  {
    hide Be, Span;
    var e := Extension(s.ty, Data(s));
    var (a, b) := (SectionOps(s), ExtensionOps(e));
    PairMeaning(a[0], a[1]);
    PairMeaning(b[0], b[1]);
    VecWrites(e.data, 2);
  }

  lemma PairMeaning(a: Op, b: Op)
    ensures MeaningAll([a, b]) ==
            match (Meaning(a), Meaning(b)) case (Some(x), Some(y)) => Some(x + y) case _ => None
  {
    hide Meaning;
    SingleMeaning(b);
    assert [a, b][1..] == [b];
  }

  lemma SingleMeaning(a: Op)
    ensures MeaningAll([a]) == Meaning(a)
  {
    hide Meaning;
    assert [a][1..] == [];
    assert Meaning(a).Some? ==> Meaning(a).value + [] == Meaning(a).value;
  }

  /** Writing extension by extension through nested frames writes the extension list. */
  lemma {:induction false} SectionsMeaning(sections: seq<Section>)
    requires MeaningAll(AllOps(sections)).Some?
    ensures MeaningAll(AllOps(sections)) == MeaningAll(ListOps(ToExtensionList(sections)))
    decreases |sections|
  {
    hide MeaningAll, SectionOps, ExtensionOps, Data;
    var exts := ToExtensionList(sections);
    if sections == [] {
      assert ListOps(exts) == [];
    } else {
      MeaningAppend(SectionOps(sections[0]), AllOps(sections[1..]));
      SectionMeaning(sections[0]);
      SectionsMeaning(sections[1..]);
      assert ToExtensionList(sections[1..]) == exts[1..];
      ListOpsCons(exts);
      MeaningAppend(ExtensionOps(exts[0]), ListOps(exts[1..]));
    }
  }

  lemma ListOpsCons(exts: seq<Extension>)
    requires exts != []
    ensures ListOps(exts) == ExtensionOps(exts[0]) + ListOps(exts[1..])
  {
    hide ExtensionOps;
    assert ExtensionPrograms(exts)[1..] == ExtensionPrograms(exts[1..]);
  }

  lemma FramedSame(width: nat, a: seq<Op>, b: seq<Op>)
    requires MeaningAll(a) == MeaningAll(b)
    ensures Meaning(Framed(width, a, false)) == Meaning(Framed(width, b, false))
  {
  }

  /** The nested encoder writes exactly the ClientHello its fields describe. */
  lemma HelloIsItsMessage(h: Hello, binder: Octets)
    requires MeaningAll(HelloProgram(h, binder)).Some?
    ensures MeaningAll(HelloProgram(h, binder)) == Encode(Message(h, binder))
  {
    hide MeaningAll, Sections, AllOps, ListOps, PutNum, PutVec, PutSuites;
    var sections := Sections(h, binder);
    var (core, ours, theirs) := (CoreOps(h), Framed(2, AllOps(sections), false),
                                 PutExtensions(ToExtensionList(sections)));
    PairMeaning(PutNum(Code(CH), 1), Framed(3, core + [ours], false));
    PairMeaning(PutNum(Code(CH), 1), Framed(3, core + [theirs], false));
    FramedNeeds(3, core + [ours]);
    MeaningAppend(core, [ours]);
    MeaningAppend(core, [theirs]);
    SingleMeaning(ours);
    SingleMeaning(theirs);
    FramedNeeds(2, AllOps(sections));
    SectionsMeaning(sections);
    FramedSame(2, AllOps(sections), ListOps(ToExtensionList(sections)));
    FramedSame(3, core + [ours], core + [theirs]);
    assert BodyOps(Message(h, binder)) == core + [theirs];
  }

  lemma FramedNeeds(width: nat, ops: seq<Op>)
    requires Meaning(Framed(width, ops, false)).Some?
    ensures MeaningAll(ops).Some?
  {
  }

  // ----------------------------------------------------------- the binder slot

  datatype BinderSlot = BinderSlot(prefixEnd: nat, binderStart: nat, binderEnd: nat)

  /** Everything written when the identities have just been finished; the frames around
      them are still open, their prefixes reserved and zero. */
  function OpenedOps(h: Hello, r: Resumption): seq<Op>
  {
    [PutNum(Code(CH), 1), Put(Zeros(3))] + (CoreOps(h) + ([Put(Zeros(2))] + (AllOps(EarlierSections(h))
    + [PutNum(PRE_SHARED_KEY, 2), Put(Zeros(2)), IdentityOps(r)])))
  }

  /** `encoded_len` of a buffer that started empty. */
  function Written(ops: seq<Op>): nat
  {
    Len(ExecAll(Growable([]), ops).state)
  }

  /** The positions `Offer::encode` notes on its way through the binder frames. */
  function SlotOf(h: Hello, r: Resumption): BinderSlot
  {
    var prefixEnd := Written(OpenedOps(h, r));
    var binderStart := Written(OpenedOps(h, r) + [Put(Zeros(2)), Put(Zeros(1))]);
    BinderSlot(prefixEnd, binderStart, binderStart + BINDER_LEN)
  }

  function SlotBytes(binder: Octets): Octets
  {
    Be(33, 2) + Be(32, 1) + binder
  }

  /** The parts of a hello that does encode. */
  datatype Parts = Parts(core: Octets, earlier: Octets, identities: Octets)

  ghost predicate PartsOf(h: Hello, r: Resumption, p: Parts)
  {
    && MeaningAll(CoreOps(h)) == Some(p.core) && MeaningAll(AllOps(EarlierSections(h))) == Some(p.earlier)
    && Meaning(IdentityOps(r)) == Some(p.identities)
  }

  function PrefixOf(p: Parts): Octets
  {
    var exts := |p.earlier| + 4 + |p.identities| + 35;
    Be(Code(CH), 1) + Be(|p.core| + 2 + exts, 3) + p.core + Be(exts, 2) + p.earlier
    + Be(PRE_SHARED_KEY, 2) + Be(|p.identities| + 35, 2) + p.identities
  }

  lemma {:induction false} AllOpsAppend(a: seq<Section>, b: seq<Section>)
    ensures AllOps(a + b) == AllOps(a) + AllOps(b)
    decreases |a|
  {
    hide SectionOps;
    if a == [] {
      assert a + b == b;
    } else {
      assert (a + b)[1..] == a[1..] + b;
      AllOpsAppend(a[1..], b);
    }
  }

  lemma BinderFrame(binder: Octets)
    requires |binder| == BINDER_LEN
    ensures Meaning(Framed(2, [Framed(1, [Put(binder)], false)], false)) == Some(SlotBytes(binder))
  {
    Widths();
    var inner := Framed(1, [Put(binder)], false);
    SingleMeaning(Put(binder));
    assert Meaning(inner) == Some(Be(32, 1) + binder);
    SingleMeaning(inner);
    assert Be(33, 2) + (Be(32, 1) + binder) == SlotBytes(binder);
  }

  /** The PSK extension's bytes. */
  lemma PskBytes(r: Resumption, binder: Octets)
    requires |binder| == BINDER_LEN
    ensures var s := PskSection(r, binder);
            && (MeaningAll(s.ops).Some? <==> Meaning(IdentityOps(r)).Some?)
            && (MeaningAll(s.ops).Some? ==> Data(s) == Meaning(IdentityOps(r)).value + SlotBytes(binder))
  {
    hide IdentityOps, SlotBytes, Meaning;
    var s := PskSection(r, binder);
    BinderFrame(binder);
    PairMeaning(s.ops[0], s.ops[1]);
  }

  lemma FramedBytes(width: nat, ops: seq<Op>)
    requires Meaning(Framed(width, ops, false)).Some?
    ensures MeaningAll(ops).Some?
    ensures Meaning(Framed(width, ops, false)).value == Be(|MeaningAll(ops).value|, width) + MeaningAll(ops).value
  {
  }

  /** The extensions of a resuming hello end with the PSK offer. */
  lemma ExtensionBytes(h: Hello, r: Resumption, binder: Octets)
    requires h.resumption == Some(r) && |binder| == BINDER_LEN && MeaningAll(AllOps(Sections(h, binder))).Some?
    ensures MeaningAll(AllOps(EarlierSections(h))).Some? && Meaning(IdentityOps(r)).Some?
    ensures var ids := Meaning(IdentityOps(r)).value;
            MeaningAll(AllOps(Sections(h, binder))).value ==
            MeaningAll(AllOps(EarlierSections(h))).value + Be(PRE_SHARED_KEY, 2) + Be(|ids| + 35, 2) + ids
              + SlotBytes(binder)
  {
    hide MeaningAll, Meaning, EarlierSections, IdentityOps, Be;
    var s := PskSection(r, binder);
    AllOpsAppend(EarlierSections(h), [s]);
    assert [s][1..] == [] && SectionOps(s) + [] == SectionOps(s);
    assert AllOps([s]) == SectionOps(s);
    MeaningAppend(AllOps(EarlierSections(h)), SectionOps(s));
    PairMeaning(PutNum(s.ty, 2), Framed(2, s.ops, false));
    FramedBytes(2, s.ops);
    PskBytes(r, binder);
    PutMeaning(s.ty, 2);
  }

  lemma PutMeaning(n: nat, width: nat)
    ensures Meaning(PutNum(n, width)) == Some(Be(n, width))
  {
  }

  /** A resuming hello is a prefix that does not depend on the binder, then the binder's vectors. */
  lemma HelloBytes(h: Hello, r: Resumption, binder: Octets) returns (p: Parts)
    requires h.resumption == Some(r) && |binder| == BINDER_LEN && MeaningAll(HelloProgram(h, binder)).Some?
    ensures PartsOf(h, r, p)
    ensures MeaningAll(HelloProgram(h, binder)).value == PrefixOf(p) + SlotBytes(binder)
  {
    hide MeaningAll, Meaning, EarlierSections, IdentityOps, CoreOps, Sections, AllOps, Be;
    var ops := AllOps(Sections(h, binder));
    var (core, ours) := (CoreOps(h), Framed(2, ops, false));
    PairMeaning(PutNum(Code(CH), 1), Framed(3, core + [ours], false));
    PutMeaning(Code(CH), 1);
    FramedBytes(3, core + [ours]);
    MeaningAppend(core, [ours]);
    SingleMeaning(ours);
    FramedBytes(2, ops);
    ExtensionBytes(h, r, binder);
    p := Parts(MeaningAll(core).value, MeaningAll(AllOps(EarlierSections(h))).value, Meaning(IdentityOps(r)).value);
    Assembled(p, binder, MeaningAll(ops).value);
  }

  lemma Assembled(p: Parts, binder: Octets, exts: Octets)
    requires |binder| == BINDER_LEN
    requires exts == p.earlier + Be(PRE_SHARED_KEY, 2) + Be(|p.identities| + 35, 2) + p.identities + SlotBytes(binder)
    ensures var body := p.core + (Be(|exts|, 2) + exts);
            Be(Code(CH), 1) + (Be(|body|, 3) + body) == PrefixOf(p) + SlotBytes(binder)
  {
    hide Be;
    assert |exts| == |p.earlier| + 4 + |p.identities| + 35;
  }

  lemma WrittenIs(ops: seq<Op>)
    requires MeaningAll(ops).Some?
    ensures Written(ops) == |MeaningAll(ops).value|
  {
    hide ExecAll, MeaningAll;
    BackEndsAgree(ops, [], [], 0, 0);
  }

  /** The noted positions are where the binder's bytes lie. */
  lemma SlotPositions(h: Hello, r: Resumption, p: Parts)
    requires PartsOf(h, r, p)
    ensures var slot := SlotOf(h, r);
            && slot.prefixEnd == |PrefixOf(p)| && slot.binderStart == slot.prefixEnd + 3
            && slot.binderEnd == |PrefixOf(p) + SlotBytes(Zeros(BINDER_LEN))|
  {
    hide MeaningAll, Meaning, CoreOps, AllOps, EarlierSections, IdentityOps, Be, Written, PutNum;
    PutMeaning(Code(CH), 1);
    PutMeaning(PRE_SHARED_KEY, 2);
    ZeroMeaning(1);
    ZeroMeaning(2);
    ZeroMeaning(3);
    var last := [PutNum(PRE_SHARED_KEY, 2), Put(Zeros(2)), IdentityOps(r)];
    TripleMeaning(last[0], last[1], last[2]);
    var sections := AllOps(EarlierSections(h));
    MeaningAppend(sections, last);
    SingleMeaning(Put(Zeros(2)));
    MeaningAppend([Put(Zeros(2))], sections + last);
    MeaningAppend(CoreOps(h), [Put(Zeros(2))] + (sections + last));
    PairMeaning(PutNum(Code(CH), 1), Put(Zeros(3)));
    MeaningAppend([PutNum(Code(CH), 1), Put(Zeros(3))], CoreOps(h) + ([Put(Zeros(2))] + (sections + last)));
    PairMeaning(Put(Zeros(2)), Put(Zeros(1)));
    MeaningAppend(OpenedOps(h, r), [Put(Zeros(2)), Put(Zeros(1))]);
    WrittenIs(OpenedOps(h, r));
    WrittenIs(OpenedOps(h, r) + [Put(Zeros(2)), Put(Zeros(1))]);
  }

  lemma ZeroMeaning(width: nat)
    ensures Meaning(Put(Zeros(width))) == Some(Zeros(width)) && |Zeros(width)| == width
  {
  }

  lemma TripleMeaning(a: Op, b: Op, c: Op)
    ensures MeaningAll([a, b, c]) ==
            match (Meaning(a), Meaning(b), Meaning(c))
            case (Some(x), Some(y), Some(z)) => Some(x + (y + z))
            case _ => None
  {
    hide Meaning;
    PairMeaning(b, c);
    assert [a, b, c][1..] == [b, c];
  }

  // ------------------------------------------------ replacing the binder's bytes

  ghost predicate Alike(a: Option<Octets>, b: Option<Octets>)
  {
    (a.Some? <==> b.Some?) && (a.Some? ==> |a.value| == |b.value|)
  }

  lemma AlikeFramed(width: nat, a: seq<Op>, b: seq<Op>)
    requires Alike(MeaningAll(a), MeaningAll(b))
    ensures Alike(Meaning(Framed(width, a, false)), Meaning(Framed(width, b, false)))
  {
  }

  lemma AlikeAppend(a: seq<Op>, b: seq<Op>, c: seq<Op>)
    requires Alike(MeaningAll(b), MeaningAll(c))
    ensures Alike(MeaningAll(a + b), MeaningAll(a + c))
  {
    hide MeaningAll;
    MeaningAppend(a, b);
    MeaningAppend(a, c);
  }

  /** A hello that encodes with one binder encodes with any other of its length. */
  lemma AnyBinderEncodes(h: Hello, r: Resumption, a: Octets, b: Octets)
    requires h.resumption == Some(r) && |a| == |b| == BINDER_LEN && MeaningAll(HelloProgram(h, a)).Some?
    ensures MeaningAll(HelloProgram(h, b)).Some?
  {
    hide MeaningAll, Meaning, EarlierSections, IdentityOps, CoreOps, AllOps, Be, PutNum, SlotBytes;
    var (s, t) := (PskSection(r, a), PskSection(r, b));
    PskBytes(r, a);
    PskBytes(r, b);
    SlotLengths(a, b);
    assert Alike(MeaningAll(s.ops), MeaningAll(t.ops));
    AlikeFramed(2, s.ops, t.ops);
    SingleMeaning(Framed(2, s.ops, false));
    SingleMeaning(Framed(2, t.ops, false));
    AlikeAppend([PutNum(s.ty, 2)], [Framed(2, s.ops, false)], [Framed(2, t.ops, false)]);
    assert SectionOps(s) == [PutNum(s.ty, 2)] + [Framed(2, s.ops, false)];
    assert SectionOps(t) == [PutNum(s.ty, 2)] + [Framed(2, t.ops, false)];
    LastSection(h, s);
    LastSection(h, t);
    AlikeAppend(AllOps(EarlierSections(h)), SectionOps(s), SectionOps(t));
    AlikeHello(h, a, b);
  }

  lemma SlotLengths(a: Octets, b: Octets)
    requires |a| == |b|
    ensures |SlotBytes(a)| == |SlotBytes(b)|
  {
  }

  lemma LastSection(h: Hello, s: Section)
    ensures AllOps(EarlierSections(h) + [s]) == AllOps(EarlierSections(h)) + SectionOps(s)
  {
    hide EarlierSections, SectionOps;
    AllOpsAppend(EarlierSections(h), [s]);
    assert [s][1..] == [] && SectionOps(s) + [] == SectionOps(s);
    assert AllOps([s]) == SectionOps(s);
  }

  lemma AlikeHello(h: Hello, a: Octets, b: Octets)
    requires Alike(MeaningAll(AllOps(Sections(h, a))), MeaningAll(AllOps(Sections(h, b))))
    ensures Alike(MeaningAll(HelloProgram(h, a)), MeaningAll(HelloProgram(h, b)))
  {
    hide MeaningAll, Meaning, CoreOps, AllOps, Sections, PutNum;
    var (x, y) := (Framed(2, AllOps(Sections(h, a)), false), Framed(2, AllOps(Sections(h, b)), false));
    AlikeFramed(2, AllOps(Sections(h, a)), AllOps(Sections(h, b)));
    SingleMeaning(x);
    SingleMeaning(y);
    AlikeAppend(CoreOps(h), [x], [y]);
    AlikeFramed(3, CoreOps(h) + [x], CoreOps(h) + [y]);
    PairMeaning(PutNum(Code(CH), 1), Framed(3, CoreOps(h) + [x], false));
    PairMeaning(PutNum(Code(CH), 1), Framed(3, CoreOps(h) + [y], false));
  }

  // ------------------------------------------------------- each type only once

  /** Where a type stands in the client's extension order. */
  function Order(ty: U16): nat
  {
    if ty == 43 then 0 else if ty == 10 then 1 else if ty == 13 then 2 else if ty == 51 then 3
    else if ty == 20 then 4 else if ty == 19 then 5 else if ty == 57 then 6 else if ty == 0 then 7
    else if ty == 16 then 8 else if ty == 44 then 9 else if ty == 42 then 10 else if ty == 45 then 11
    else 12
  }

  ghost predicate Ordered(sections: seq<Section>, low: nat, high: nat)
  {
    && |sections| <= high - low
    && (forall i :: 0 <= i < |sections| ==> low <= Order(sections[i].ty) < high)
    && (forall i, j :: 0 <= i < j < |sections| ==> Order(sections[i].ty) < Order(sections[j].ty))
  }

  lemma OrderedAppend(a: seq<Section>, b: seq<Section>, low: nat, middle: nat, high: nat)
    requires low <= middle <= high && Ordered(a, low, middle) && Ordered(b, middle, high)
    ensures Ordered(a + b, low, high)
  {
  }

  lemma EarlierOrdered(h: Hello)
    ensures Ordered(EarlierSections(h), 0, 12)
  {
    hide Ordered;
    Pieces(h);
    var s := FixedSections(h);
    OrderedAppend(s, TypeSection(20, h.serverType), 0, 4, 5);
    s := s + TypeSection(20, h.serverType);
    OrderedAppend(s, TypeSection(19, h.clientType), 0, 5, 6);
    s := s + TypeSection(19, h.clientType);
    OrderedAppend(s, RawSection(57, h.quicParams), 0, 6, 7);
    s := s + RawSection(57, h.quicParams);
    OrderedAppend(s, NameSection(h.hostname), 0, 7, 8);
    s := s + NameSection(h.hostname);
    OrderedAppend(s, AlpnSection(h.alpn), 0, 8, 9);
    s := s + AlpnSection(h.alpn);
    OrderedAppend(s, RawSection(44, h.cookie), 0, 9, 10);
    s := s + RawSection(44, h.cookie);
    OrderedAppend(s, EarlySection(h.earlyData), 0, 10, 11);
    s := s + EarlySection(h.earlyData);
    OrderedAppend(s, ModeSection(h.resumption), 0, 11, 12);
  }

  lemma AtMostOne(sections: seq<Section>, ty: U16)
    requires |sections| <= 1 && (sections != [] ==> sections[0].ty == ty)
    ensures Ordered(sections, Order(ty), Order(ty) + 1)
  {
  }

  lemma FixedOrdered(h: Hello)
    ensures Ordered(FixedSections(h), 0, 4)
  {
  }

  lemma Pieces(h: Hello)
    ensures Ordered(FixedSections(h), 0, 4)
    ensures Ordered(TypeSection(20, h.serverType), 4, 5) && Ordered(TypeSection(19, h.clientType), 5, 6)
    ensures Ordered(RawSection(57, h.quicParams), 6, 7) && Ordered(NameSection(h.hostname), 7, 8)
    ensures Ordered(AlpnSection(h.alpn), 8, 9) && Ordered(RawSection(44, h.cookie), 9, 10)
    ensures Ordered(EarlySection(h.earlyData), 10, 11) && Ordered(ModeSection(h.resumption), 11, 12)
  {
    hide Ordered, PutVec, Names;
    FixedOrdered(h);
    AtMostOne(TypeSection(20, h.serverType), 20);
    AtMostOne(TypeSection(19, h.clientType), 19);
    AtMostOne(RawSection(57, h.quicParams), 57);
    AtMostOne(NameSection(h.hostname), 0);
    AtMostOne(AlpnSection(h.alpn), 16);
    AtMostOne(RawSection(44, h.cookie), 44);
    AtMostOne(EarlySection(h.earlyData), 42);
    AtMostOne(ModeSection(h.resumption), 45);
  }

  /** The client never repeats an extension type. */
  lemma HelloTypesDistinct(h: Hello, binder: Octets)
    ensures FewDistinct(ToExtensionList(Sections(h, binder)))
  {
    hide Order, EarlierSections, Data;
    EarlierOrdered(h);
    PskOrdered(h, binder);
    var sections := Sections(h, binder);
    var exts := ToExtensionList(sections);
    forall i, j | 0 <= i < j < |exts| ensures exts[i].ty != exts[j].ty {
      assert Order(sections[i].ty) < Order(sections[j].ty);
    }
  }

  lemma PskOrdered(h: Hello, binder: Octets)
    requires Ordered(EarlierSections(h), 0, 12)
    ensures Ordered(Sections(h, binder), 0, 13)
  {
    hide EarlierSections;
    if h.resumption.Some? {
      OrderedAppend(EarlierSections(h), [PskSection(h.resumption.value, binder)], 0, 12, 13);
    }
  }

  // ------------------------------------------------------------ what is offered

  lemma OneItem(item: seq<Field>, shapes: seq<Shape>)
    requires |item| == |shapes| && Solid(shapes) && MatchesAll(item, shapes)
    ensures DecodeList(EncodeFields(item, shapes), shapes) == Some([item])
  {
    hide EncodeFields, MatchesAll, DecodeList;
    var items := [item];
    assert items[1..] == [];
    assert EncodeList(items, shapes) == EncodeFields(item, shapes);
    ListComplete(items, shapes);
  }

  /** The identity the client wrote is the identity the server reads. */
  lemma IdentityRead(r: Resumption)
    requires r.identity != [] && Meaning(IdentityOps(r)).Some?
    ensures var item := [VecF(r.identity), NumF(r.age)];
            && MatchesAll(item, IDENTITY)
            && Meaning(IdentityOps(r)).value == EncodeField(VecF(EncodeFields(item, IDENTITY)), Vec(2))
            && Matches(VecF(EncodeFields(item, IDENTITY)), Vec(2))
            && DecodeIdentities(EncodeFields(item, IDENTITY)) == Some([Identity(r.identity, r.age)])
  {
    hide Writes, WritesAll, MeaningAll, EncodeFields, DecodeList, MatchesAll, PutVec, PutNum, Be, Span;
    Widths();
    var (ops, item, oks) := ([PutVec(r.identity, 2), PutNum(r.age, 4)], [VecF(r.identity), NumF(r.age)], [true, true]);
    VecWrites(r.identity, 2);
    NumWrites(r.age, 4);
    assert Writes(ops[0], item[0], IDENTITY[0], oks[0]) && Writes(ops[1], item[1], IDENTITY[1], oks[1]);
    RecordWrites(ops, item, IDENTITY, oks);
    FramedBytes(2, ops);
    IdentityWritten(r, ops, item);
    OneItem(item, IDENTITY);
    IdentityShape(item);
    assert ToIdentities([item]) == [Identity(r.identity, r.age)];
  }

  lemma IdentityShape(item: seq<Field>)
    requires |item| == 2 && item[0].VecF? && item[1].NumF? && item[0].data != [] && MatchesAll(item, IDENTITY)
    ensures AllIdentities([item])
  {
  }

  lemma IdentityWritten(r: Resumption, ops: seq<Op>, item: seq<Field>)
    requires |item| == 2 && IdentityOps(r) == Framed(2, ops, false) && WritesAll(ops, item, IDENTITY, true)
    requires Meaning(IdentityOps(r)).Some?
    ensures MatchesAll(item, IDENTITY)
    ensures MeaningAll(ops) == Some(EncodeFields(item, IDENTITY))
    ensures |EncodeFields(item, IDENTITY)| < Span(2)
  {
  }

  lemma BinderRead(binder: Octets)
    requires |binder| == BINDER_LEN
    ensures var item := [VecF(binder)];
            && SlotBytes(binder) == EncodeField(VecF(EncodeFields(item, BINDER)), Vec(2))
            && Matches(VecF(EncodeFields(item, BINDER)), Vec(2))
            && DecodeBinders(EncodeFields(item, BINDER)) == Some([binder])
  {
    hide DecodeList;
    Widths();
    var item := [VecF(binder)];
    assert EncodeFields(item[1..], BINDER[1..]) == [];
    assert EncodeFields(item, BINDER) == Be(32, 1) + binder;
    OneItem(item, BINDER);
    assert ToBinders([item]) == [binder];
  }

  /** The offer the server decodes is the identity, the age and the binder of the client. */
  lemma OfferRead(r: Resumption, binder: Octets)
    requires |binder| == BINDER_LEN && r.identity != [] && Meaning(IdentityOps(r)).Some?
    ensures var data := Meaning(IdentityOps(r)).value + SlotBytes(binder);
            && DecodeOffer(data) == Some(Offer([Identity(r.identity, r.age)], [binder]))
            && Halves(data).Some? && |Halves(data).value.1| == 33
  {
    hide IdentityOps, SlotBytes, DecodeIdentities, DecodeBinders, Be, MatchesAll;
    IdentityRead(r);
    BinderRead(binder);
    var (x, y) := (VecF(EncodeFields([VecF(r.identity), NumF(r.age)], IDENTITY)),
                   VecF(EncodeFields([VecF(binder)], BINDER)));
    VectorsRead(x, y);
    SlotLength(binder);
  }

  lemma SlotLength(binder: Octets)
    ensures |SlotBytes(binder)| == 3 + |binder|
  {
  }

  lemma VectorsRead(x: Field, y: Field)
    requires Matches(x, Vec(2)) && Matches(y, Vec(2))
    ensures Halves(EncodeField(x, Vec(2)) + EncodeField(y, Vec(2))) == Some((x.data, y.data))
  {
    hide EncodeField, DecodeFields;
    var fs := [x, y];
    assert EncodeFields(fs[1..][1..], OFFER[1..][1..]) == [];
    assert fs[1..] == [y] && OFFER[1..] == [Vec(2)];
    assert EncodeFields(fs, OFFER) == EncodeField(x, Vec(2)) + EncodeField(y, Vec(2));
    FieldsComplete(fs, OFFER, []);
    assert EncodeFields(fs, OFFER) + [] == EncodeFields(fs, OFFER);
  }

  // -------------------------------------------------------------------- splicing

  type Tag = s: Octets | |s| == BINDER_LEN witness Zeros(BINDER_LEN)

  function Spliced(flight: Octets, slot: BinderSlot, binder: Octets): Octets
    requires slot.binderStart <= slot.binderEnd <= |flight|
  {
    flight[..slot.binderStart] + binder + flight[slot.binderEnd..]
  }

  /** `BinderSlot::splice`; `mac` is the binder over the hashed transcript. Nothing is
      written when the slot does not lie in the flight. */
  method Splice(slot: BinderSlot, transcript: Octets, flight: array<Byte>, mac: Octets -> Tag) returns (ok: bool)
    modifies flight
    ensures ok <==> slot.prefixEnd <= flight.Length && slot.binderEnd <= flight.Length
                    && slot.binderEnd == slot.binderStart + BINDER_LEN
    ensures ok ==> flight[..] == Spliced(old(flight[..]), slot, mac(transcript + old(flight[..])[..slot.prefixEnd]))
    ensures !ok ==> flight[..] == old(flight[..])
  {
    if slot.prefixEnd > flight.Length {
      return false;
    }
    var binder: Octets := mac(transcript + flight[..slot.prefixEnd]);
    assert flight[..slot.prefixEnd] == flight[..][..slot.prefixEnd];
    if slot.binderStart > slot.binderEnd || slot.binderEnd > flight.Length
       || slot.binderEnd - slot.binderStart != |binder| {
      return false;
    }
    for i := 0 to |binder|
      invariant flight[..] == old(flight[..])[..slot.binderStart] + binder[..i]
                + old(flight[..])[slot.binderStart + i..]
    {
      flight[slot.binderStart + i] := binder[i];
    }
    assert binder[..|binder|] == binder;
    return true;
  }

  /** The server reads the client's identity, age and binder, and hashes the very prefix
      the binder was computed over. */
  lemma BinderAgreement(h: Hello, r: Resumption, raw: Octets, transcript: Octets, mac: Octets -> Tag)
    requires h.resumption == Some(r) && r.identity != [] && h.suites != []
    requires MeaningAll(HelloProgram(h, Zeros(BINDER_LEN))) == Some(raw)
    ensures var slot := SlotOf(h, r);
            && slot.prefixEnd <= slot.binderStart && slot.binderEnd == |raw| == slot.binderStart + BINDER_LEN
            && var binder := mac(transcript + raw[..slot.prefixEnd]);
               var sent := Spliced(raw, slot, binder);
               && Decode(sent) == Some(Message(h, binder))
               && DecodeOffer(Data(PskSection(r, binder))) == Some(Offer([Identity(r.identity, r.age)], [binder]))
               && forall o :: Summarises(o, Data(PskSection(r, binder))) ==>
                  BindTail(o, sent) == Some(Tail(r.identity, r.age, binder, raw[..slot.prefixEnd]))
  {
    hide MeaningAll, HelloProgram, SlotOf, PartsOf, PrefixOf, SlotBytes, Decode, Encode, DecodeOffer,
         Message, BindTail, Summarises, Data, PskSection;
    var p := HelloBytes(h, r, Zeros(BINDER_LEN));
    SlotPositions(h, r, p);
    SlotLength(Zeros(BINDER_LEN));
    var slot := SlotOf(h, r);
    var binder: Octets := mac(transcript + raw[..slot.prefixEnd]);
    var sent := Spliced(raw, slot, binder);
    AnyBinderEncodes(h, r, Zeros(BINDER_LEN), binder);
    SentIs(h, r, p, raw, slot, binder);
    SentDecodes(h, r, binder, sent);
    forall o | Summarises(o, Data(PskSection(r, binder)))
      ensures BindTail(o, sent) == Some(Tail(r.identity, r.age, binder, raw[..slot.prefixEnd]))
    {
      SentBinds(h, r, binder, sent, o);
      assert sent[..|sent| - 35] == raw[..slot.prefixEnd];
    }
  }

  lemma SentIs(h: Hello, r: Resumption, p: Parts, raw: Octets, slot: BinderSlot, binder: Octets)
    requires PartsOf(h, r, p) && h.resumption == Some(r) && |binder| == BINDER_LEN
    requires raw == PrefixOf(p) + SlotBytes(Zeros(BINDER_LEN)) && MeaningAll(HelloProgram(h, binder)).Some?
    requires slot == BinderSlot(|PrefixOf(p)|, |PrefixOf(p)| + 3, |raw|)
    ensures |raw| == |PrefixOf(p)| + 35
    ensures MeaningAll(HelloProgram(h, binder)) == Some(Spliced(raw, slot, binder))
  {
    hide MeaningAll, HelloProgram, PrefixOf, Be, CoreOps, AllOps, EarlierSections, IdentityOps;
    var q := HelloBytes(h, r, binder);
    assert p == q;
    assert raw[..slot.binderStart] == PrefixOf(p) + (Be(33, 2) + Be(32, 1));
    assert Spliced(raw, slot, binder) == PrefixOf(p) + SlotBytes(binder);
  }

  lemma SentDecodes(h: Hello, r: Resumption, binder: Octets, sent: Octets)
    requires h.resumption == Some(r) && |binder| == BINDER_LEN && r.identity != [] && h.suites != []
    requires MeaningAll(HelloProgram(h, binder)) == Some(sent)
    ensures Decode(sent) == Some(Message(h, binder))
    ensures Meaning(IdentityOps(r)).Some?
    ensures Data(PskSection(r, binder)) == Meaning(IdentityOps(r)).value + SlotBytes(binder)
    ensures DecodeOffer(Data(PskSection(r, binder))) == Some(Offer([Identity(r.identity, r.age)], [binder]))
  {
    hide MeaningAll, HelloProgram, SlotBytes, Decode, Encode, DecodeOffer, IdentityOps, ToExtensionList, PartsOf,
         PrefixOf;
    HelloIsItsMessage(h, binder);
    HelloTypesDistinct(h, binder);
    FrameRoundTrip(Message(h, binder), sent);
    var p := HelloBytes(h, r, binder);
    HasIdentity(h, r, p);
    OfferRead(r, binder);
    PskBytes(r, binder);
  }

  lemma HasIdentity(h: Hello, r: Resumption, p: Parts)
    requires PartsOf(h, r, p)
    ensures Meaning(IdentityOps(r)).Some?
  {
  }

  lemma LastExtensionIs(h: Hello, r: Resumption, binder: Octets)
    requires h.resumption == Some(r)
    ensures var exts := Message(h, binder).extensions;
            exts != [] && exts[|exts| - 1] == Extension(PRE_SHARED_KEY, Data(PskSection(r, binder)))
  {
  }

  lemma SentBinds(h: Hello, r: Resumption, binder: Octets, sent: Octets, o: Offered)
    requires h.resumption == Some(r) && |binder| == BINDER_LEN && r.identity != [] && |sent| >= 35
    requires Decode(sent) == Some(Message(h, binder)) && Meaning(IdentityOps(r)).Some?
    requires Data(PskSection(r, binder)) == Meaning(IdentityOps(r)).value + SlotBytes(binder)
    requires Summarises(o, Data(PskSection(r, binder)))
    ensures BindTail(o, sent) == Some(Tail(r.identity, r.age, binder, sent[..|sent| - 35]))
  {
    hide Decode, DecodeOffer, Halves, IdentityOps, SlotBytes, Data, EndsWith, PskSection, Meaning;
    LastExtensionIs(h, r, binder);
    TailBinds(sent, o);
    OfferRead(r, binder);
  }
}
