/** When a server takes the client's own second hello. */
module RetryAcceptance {
  import opened Bytes
  import opened Fields
  import opened Encoding
  import opened Programs
  import opened Extensions
  import opened Frames
  import opened Psk
  import opened ClientOffer
  import opened RetryBinding
  import opened ClientRetry
  import KeyShares
  import Sizes
  import FlightPlan

  const SUPPORTED_GROUPS: U16 := 10
  const SHARE: seq<Shape> := [Num(2), Vec(2)]

  // ------------------------------------------------------------ what a server reads

  /** The first extension of a type, from a place on. */
  function Find(exts: seq<Extension>, ty: U16, i: nat): Option<Octets>
    requires i <= |exts|
    decreases |exts| - i
  {
    if i == |exts| then None else if exts[i].ty == ty then Some(exts[i].data) else Find(exts, ty, i + 1)
  }

  /** One 16-bit vector and nothing after it. */
  function OnlyVector(data: Octets): Option<Octets>
  {
    match DecodeFields(data, [Vec(2)])
    case Bad => None
    case Got(fs, rest) =>
      FieldsCanonical(data, [Vec(2)]);
      assert Matches(fs[0], Vec(2));
      if rest != [] then None else Some(fs[0].data)
  }

  predicate ShareItem(item: seq<Field>)
  {
    |item| == 2 && item[0].NumF? && item[1].VecF? && item[1].data != []
  }

  function ToShares(items: seq<seq<Field>>): (shares: seq<KeyShares.Share>)
    requires forall i :: 0 <= i < |items| ==> ShareItem(items[i])
    ensures |shares| == |items|
  {
    seq(|items|, i requires 0 <= i < |items| && ShareItem(items[i]) => KeyShares.Share(items[i][0].value,
                                                                                       items[i][1].data))
  }

  /** A group and a non-empty key, as often as the vector holds them. */
  function ReadShares(data: Octets): Option<seq<KeyShares.Share>>
  {
    match OnlyVector(data)
    case None => None
    case Some(v) =>
      match DecodeList(v, SHARE)
      case None => None
      case Some(items) => if forall i :: 0 <= i < |items| ==> ShareItem(items[i]) then Some(ToShares(items)) else None
  }

  function ReadGroups(data: Octets): Option<seq<U16>>
  {
    match OnlyVector(data) case None => None case Some(v) => DecodeSuites(v)
  }

  /** The groups and the shares of a hello. */
  function Lists(h: Frame): Option<(seq<U16>, seq<KeyShares.Share>)>
    requires h.ClientHello?
  {
    match (Find(h.extensions, SUPPORTED_GROUPS, 0), Find(h.extensions, KEY_SHARE, 0))
    case (Some(x), Some(y)) =>
      (match (ReadGroups(x), ReadShares(y)) case (Some(groups), Some(shares)) => Some((groups, shares)) case _ => None)
    case _ => None
  }

  /** The negotiation result `KeyShares.Parse` makes of a hello. */
  ghost predicate Negotiates(h: Frame, kx: KeyShares.Kx)
    requires h.ClientHello?
  {
    && Lists(h).Some?
    && var (groups, shares) := Lists(h).value;
       && KeyShares.Acceptable(groups, shares) && KeyShares.IsBestShare(kx.selected, shares)
       && KeyShares.IsBestGroup(kx.retryGroup, groups) && kx.shareCount == |shares|
  }

  /** A server that pinned this fingerprint and asked for this group takes the hello. */
  ghost predicate Accepts(fingerprint: Octets, requested: KeyShares.Group, h: Frame)
    requires h.ClientHello?
  {
    && !HasType(h.extensions, EARLY_DATA) && Fingerprint(h) == Some(fingerprint)
    && exists kx :: Negotiates(h, kx) && KeyShares.RequireRetry(kx, requested)
  }

  lemma NegotiationUnique(h: Frame, a: KeyShares.Kx, b: KeyShares.Kx)
    requires h.ClientHello? && Negotiates(h, a) && Negotiates(h, b)
    ensures a == b
  {
    hide Lists;
    KeyShares.SelectionUnique(Lists(h).value.0, Lists(h).value.1, a, b);
  }

  /** Key exchange, then `ClientHelloInvariant::validate`. */
  method TakeSecond(fingerprint: Octets, requested: KeyShares.Group, h: Frame) returns (ok: bool)
    requires h.ClientHello?
    ensures ok <==> Accepts(fingerprint, requested, h)
  {
    hide Lists, Fingerprint, KeyShares.Acceptable, KeyShares.IsBestShare, KeyShares.IsBestGroup, KeyShares.RequireRetry;
    var lists := Lists(h);
    if lists.None? {
      return false;
    }
    var parsed := KeyShares.Parse(lists.value.0, lists.value.1);
    if !parsed.Parsed? {
      return false;
    }
    assert Negotiates(h, parsed.kx);
    forall kx | Negotiates(h, kx) ensures kx == parsed.kx {
      NegotiationUnique(h, kx, parsed.kx);
    }
    ok := Validate(fingerprint, requested, h, parsed.kx);
  }

  // ------------------------------------------------------------ what a client writes

  /** The bytes the encoder writes for this hello. */
  ghost predicate Written(h: Hello, binder: Octets, raw: Octets)
  {
    && h.suites != [] && |binder| == BINDER_LEN && (h.resumption.Some? ==> h.resumption.value.identity != [])
    && MeaningAll(HelloProgram(h, binder)) == Some(raw)
  }

  /** Whatever the encoder writes the server decodes to the same hello. */
  lemma WrittenDecodes(h: Hello, binder: Octets, raw: Octets)
    requires Written(h, binder, raw)
    ensures Decode(raw) == Some(Message(h, binder))
  {
    hide Decode, Encode, HelloProgram, MeaningAll, Sections, FewDistinct;
    HelloIsItsMessage(h, binder);
    HelloTypesDistinct(h, binder);
    FrameRoundTrip(Message(h, binder), raw);
  }

  lemma {:induction false} SectionEncodes(sections: seq<Section>, i: nat)
    requires i < |sections| && MeaningAll(AllOps(sections)).Some?
    ensures MeaningAll(sections[i].ops).Some?
    decreases i
  {
    hide MeaningAll, SectionOps;
    MeaningAppend(SectionOps(sections[0]), AllOps(sections[1..]));
    if i == 0 {
      SectionMeaning(sections[0]);
    } else {
      SectionEncodes(sections[1..], i - 1);
    }
  }

  lemma SectionsEncode(h: Hello, binder: Octets, i: nat)
    requires MeaningAll(HelloProgram(h, binder)).Some? && i < |Sections(h, binder)|
    ensures MeaningAll(Sections(h, binder)[i].ops).Some?
  {
    hide MeaningAll, Sections, AllOps, PutNum, CoreOps;
    var inner := Framed(2, AllOps(Sections(h, binder)), false);
    PairMeaning(PutNum(Code(CH), 1), Framed(3, CoreOps(h) + [inner], false));
    FramedNeeds(3, CoreOps(h) + [inner]);
    MeaningAppend(CoreOps(h), [inner]);
    SingleMeaning(inner);
    FramedNeeds(2, AllOps(Sections(h, binder)));
    SectionEncodes(Sections(h, binder), i);
  }

  /** The fixed sections come first, the groups second and the share fourth. */
  lemma FixedFirst(h: Hello, binder: Octets)
    ensures |Sections(h, binder)| >= 4
    ensures var s := Sections(h, binder);
            s[0].ty == 43 && s[1] == FixedSections(h)[1] && s[2].ty == 13 && s[3] == FixedSections(h)[3]
  {
    hide Num16s, PutNum, PutVec, TypeSection, RawSection, NameSection, AlpnSection, EarlySection, ModeSection,
         PskSection;
  }

  lemma Found(exts: seq<Extension>)
    requires |exts| >= 4 && exts[0].ty == 43 && exts[1].ty == SUPPORTED_GROUPS && exts[2].ty == 13
    requires exts[3].ty == KEY_SHARE
    ensures Find(exts, SUPPORTED_GROUPS, 0) == Some(exts[1].data) && Find(exts, KEY_SHARE, 0) == Some(exts[3].data)
  {
    assert Find(exts, KEY_SHARE, 2) == Find(exts, KEY_SHARE, 3) == Some(exts[3].data);
  }

  lemma VectorRead(f: Field)
    requires Matches(f, Vec(2))
    ensures OnlyVector(EncodeField(f, Vec(2))) == Some(f.data)
  {
    hide EncodeField, DecodeFields;
    var fs := [f];
    assert EncodeFields(fs[1..], [Vec(2)][1..]) == [];
    assert EncodeFields(fs, [Vec(2)]) == EncodeField(f, Vec(2)) + [] == EncodeField(f, Vec(2));
    FieldsComplete(fs, [Vec(2)], []);
  }

  lemma GroupsRead(section: Section)
    requires section == Section(SUPPORTED_GROUPS, [PutSuites(GROUPS)]) && MeaningAll(section.ops).Some?
    ensures ReadGroups(Data(section)) == Some(GROUPS)
  {
    hide PutSuites, EncodeSuites, DecodeSuites, Writes, EncodeField, OnlyVector;
    SingleMeaning(PutSuites(GROUPS));
    SuiteListWrites(GROUPS);
    GroupsWritten();
    VectorRead(VecF(EncodeSuites(GROUPS)));
    SuitesComplete(GROUPS);
  }

  lemma GroupsWritten()
    requires Writes(PutSuites(GROUPS), VecF(EncodeSuites(GROUPS)), Vec(2), true)
    ensures Matches(VecF(EncodeSuites(GROUPS)), Vec(2))
    ensures Meaning(PutSuites(GROUPS)) == Some(EncodeField(VecF(EncodeSuites(GROUPS)), Vec(2)))
  {
    Widths();
    SuitesLength(SuiteItems(GROUPS));
  }

  function ShareFields(group: U16, key: Octets): seq<Field>
  {
    [NumF(group), VecF(key)]
  }

  lemma ShareWritten(group: U16, key: Octets, op: Op)
    requires op == Framed(2, [PutNum(group, 2), PutVec(key, 2)], false) && Meaning(op).Some?
    ensures var v := VecF(EncodeFields(ShareFields(group, key), SHARE));
            MatchesAll(ShareFields(group, key), SHARE) && Matches(v, Vec(2)) && Meaning(op).value == EncodeField(v,
                                                                                                                 Vec(2))
  {
    hide Writes, WritesAll, MeaningAll, EncodeFields, PutVec, PutNum, Be, Span, MatchesAll;
    Widths();
    var (ops, item, oks) := ([PutNum(group, 2), PutVec(key, 2)], ShareFields(group, key), [true, true]);
    NumWrites(group, 2);
    VecWrites(key, 2);
    assert Writes(ops[0], item[0], SHARE[0], oks[0]) && Writes(ops[1], item[1], SHARE[1], oks[1]);
    RecordWrites(ops, item, SHARE, oks);
    FramedBytes(2, ops);
    RecordWritten(ops, item, op);
  }

  lemma RecordWritten(ops: seq<Op>, item: seq<Field>, op: Op)
    requires |item| == 2 && op == Framed(2, ops, false) && WritesAll(ops, item, SHARE, true) && Meaning(op).Some?
    ensures MatchesAll(item, SHARE)
    ensures var v := VecF(EncodeFields(item, SHARE)); Matches(v, Vec(2)) && Meaning(op).value == EncodeField(v, Vec(2))
  {
  }

  lemma ShareRead(group: U16, key: Octets, section: Section)
    requires section == Section(KEY_SHARE, [Framed(2, [PutNum(group, 2), PutVec(key, 2)], false)])
    requires MeaningAll(section.ops).Some? && key != []
    ensures ReadShares(Data(section)) == Some([KeyShares.Share(group, key)])
  {
    hide PutNum, PutVec, EncodeFields, EncodeField, DecodeList, MatchesAll, OnlyVector, Meaning;
    var item := ShareFields(group, key);
    SingleMeaning(section.ops[0]);
    ShareWritten(group, key, section.ops[0]);
    VectorRead(VecF(EncodeFields(item, SHARE)));
    OneItem(item, SHARE);
    assert ToShares([item]) == [KeyShares.Share(group, key)];
  }

  /** The server reads back the client's groups and its one share. */
  lemma ListsRead(h: Hello, binder: Octets)
    requires MeaningAll(HelloProgram(h, binder)).Some? && h.publicKey != []
    ensures Lists(Message(h, binder)) == Some((GROUPS, [KeyShares.Share(h.group, h.publicKey)]))
  {
    hide MeaningAll, HelloProgram, Sections, PutNum, PutVec, ReadGroups, ReadShares, Data;
    var sections := Sections(h, binder);
    FixedFirst(h, binder);
    SectionsEncode(h, binder, 1);
    SectionsEncode(h, binder, 3);
    GroupsRead(sections[1]);
    ShareRead(h.group, h.publicKey, sections[3]);
    Found(ToExtensionList(sections));
  }

  /** One share of a supported group: negotiation yields exactly that share. */
  lemma OneShareNegotiates(group: U16, key: Octets)
    requires group in GROUPS
    ensures var (shares, kx) := ([KeyShares.Share(group, key)],
                                 KeyShares.Kx(Some(KeyShares.Share(group, key)), 0x1d, 1));
            && KeyShares.Acceptable(GROUPS, shares) && KeyShares.IsBestShare(kx.selected, shares)
            && KeyShares.IsBestGroup(kx.retryGroup, GROUPS) && kx.shareCount == |shares|
            && KeyShares.RequireRetry(kx, group)
  {
    var shares := [KeyShares.Share(group, key)];
    var i :| 0 <= i < |GROUPS| && GROUPS[i] == group;
    assert KeyShares.Places(KeyShares.Groups(shares), GROUPS, [i]);
    assert GROUPS[0] in KeyShares.LOCAL;
  }

  predicate Without(sections: seq<Section>, ty: U16)
  {
    forall i :: 0 <= i < |sections| ==> sections[i].ty != ty
  }

  lemma NoEarlySection(h: Hello, binder: Octets)
    requires !h.earlyData
    ensures !HasType(Message(h, binder).extensions, EARLY_DATA)
  {
    hide Num16s, PutNum, PutVec, Names, IdentityOps, Data;
    var fixed := FixedSections(h) + TypeSection(20, h.serverType) + TypeSection(19, h.clientType);
    assert Without(fixed, EARLY_DATA);
    var middle := fixed + RawSection(57, h.quicParams) + NameSection(h.hostname) + AlpnSection(h.alpn);
    assert Without(middle, EARLY_DATA);
    assert Without(middle + RawSection(44, h.cookie) + EarlySection(h.earlyData) + ModeSection(h.resumption),
                   EARLY_DATA);
    assert Without(Sections(h, binder), EARLY_DATA);
  }

  lemma UsableWhenWritten(h: Hello, binder: Octets, raw: Octets)
    requires Written(h, binder, raw)
    ensures Usable(h.resumption)
  {
    hide MeaningAll, HelloProgram, EarlierSections, IdentityOps;
    if h.resumption.Some? {
      var (r, n) := (h.resumption.value, |EarlierSections(h)|);
      SectionsEncode(h, binder, n);
      assert Sections(h, binder)[n] == PskSection(r, binder);
      PskBytes(r, binder);
    }
  }

  /** A server takes the client's second hello exactly when the transport parameters and the
      resumption offer, with its age, are those of the first. */
  lemma SecondHelloAccepted(h: Hello, group: U16, key: Octets, cookie: Option<Octets>, quicParams: Option<Octets>,
                            resumption: Option<Resumption>, a: Octets, b: Octets, first: Octets, second: Octets)
    requires group in GROUPS && key != [] && Written(h, a, first)
    requires Written(SecondHello(h, group, key, cookie, quicParams, resumption), b, second)
    ensures Decode(first) == Some(Message(h, a)) && Fingerprint(Message(h, a)).Some?
    ensures var s := SecondHello(h, group, key, cookie, quicParams, resumption);
            && Decode(second) == Some(Message(s, b))
            && (Accepts(Fingerprint(Message(h, a)).value, group, Message(s, b)) <==>
                h.quicParams == quicParams && h.resumption == resumption)
  {
    hide Decode, Written, Fingerprint, Usable, HasType, Lists, KeyShares.Acceptable, KeyShares.IsBestShare,
         KeyShares.IsBestGroup,
         KeyShares.RequireRetry, Sections;
    var s := SecondHello(h, group, key, cookie, quicParams, resumption);
    WrittenDecodes(h, a, first);
    WrittenDecodes(s, b, second);
    UsableWhenWritten(h, a, first);
    UsableWhenWritten(s, b, second);
    BinderLengths(h, a, first);
    BinderLengths(s, b, second);
    RetryKeepsFingerprint(h, group, key, cookie, quicParams, resumption, a, b, first, second);
    NoEarlySection(s, b);
    ListsRead(s, b);
    OneShareNegotiates(group, key);
    var kx := KeyShares.Kx(Some(KeyShares.Share(group, key)), 0x1d, 1);
    assert Negotiates(Message(s, b), kx) && KeyShares.RequireRetry(kx, group);
  }

  lemma BinderLengths(h: Hello, binder: Octets, raw: Octets)
    requires Written(h, binder, raw)
    ensures |binder| == BINDER_LEN && MeaningAll(HelloProgram(h, binder)).Some?
  {
  }

  /** With a ticket, the server takes the second hello exactly when the transport parameters are
      unchanged and the clock has not moved since the first. */
  lemma TicketRetryAccepted(h: Hello, t: Ticket, before: nat, now: nat, group: U16, key: Octets, cookie: Option<Octets>,
                            quicParams: Option<Octets>, a: Octets, b: Octets, first: Octets, second: Octets)
    requires group in GROUPS && key != [] && h.resumption == OfferAt(t, before) && h.resumption.Some?
    requires Written(h, a, first) && Written(SecondHello(h, group, key, cookie, quicParams, OfferAt(t, now)), b, second)
    ensures Decode(first) == Some(Message(h, a)) && Fingerprint(Message(h, a)).Some?
    ensures var s := SecondHello(h, group, key, cookie, quicParams, OfferAt(t, now));
            && Decode(second) == Some(Message(s, b))
            && (Accepts(Fingerprint(Message(h, a)).value, group, Message(s, b)) <==>
                h.quicParams == quicParams && before == now)
  {
    hide Decode, Written, Fingerprint, Accepts, OfferAt, Message;
    SecondHelloAccepted(h, group, key, cookie, quicParams, OfferAt(t, now), a, b, first, second);
    OfferPinsTheClock(t, before, now);
  }

  // ---------------------------------------------------------------- one millisecond

  /** A small resuming hello. */
  function SmallHello(group: U16, age: U32): Hello
  {
    Hello([0x1301], group, seq(RANDOM_LEN, _ => 0), [], [1], [0x0804], None, None, None, None, [], None, false,
          Some(Resumption([7], age)))
  }

  function SmallSections(group: U16, age: U32, binder: Octets): seq<Section>
  {
    FixedSections(SmallHello(group, age)) + ModeSection(Some(Resumption([7], age))) + [PskSection(Resumption([7], age),
                                                                                                  binder)]
  }

  lemma SmallFits(group: U16, age: U32, binder: Octets)
    requires |binder| == BINDER_LEN
    ensures var sections := SmallSections(group, age, binder);
            FlightPlan.SectionsFit(sections) && FlightPlan.SectionsSize(sections) < 200
  {
    hide FlightPlan.SectionsFit, FlightPlan.SectionsSize;
    var (fixed, mode) := (FixedSections(SmallHello(group, age)), ModeSection(Some(Resumption([7], age))));
    var psk := [PskSection(Resumption([7], age), binder)];
    FixedFits(group, age);
    ModeFits(age);
    PskFits(age, binder);
    FlightPlan.SectionsAppend(fixed, mode);
    FlightPlan.SectionsAppend(fixed + mode, psk);
  }

  lemma FixedFits(group: U16, age: U32)
    ensures var fixed := FixedSections(SmallHello(group, age));
            FlightPlan.SectionsFit(fixed) && FlightPlan.SectionsSize(fixed) < 60
  {
    hide FlightPlan.SectionsFit, FlightPlan.SectionsSize, Sizes.SizeAll, Sizes.ClosesAll, PutNum, PutVec, Num16s, Span;
    Widths();
    var fixed := FixedSections(SmallHello(group, age));
    Sizes.Number(TLS_1_3, 2);
    Sizes.One(PutNum(TLS_1_3, 2));
    FrameFits(1, [PutNum(TLS_1_3, 2)], 43);
    FlightPlan.WordsSized(GROUPS);
    FrameFits(2, Num16s(GROUPS), 10);
    FlightPlan.WordsSized([0x0804]);
    FrameFits(2, Num16s([0x0804]), 13);
    Sizes.Number(group, 2);
    Sizes.Vector([1], 2);
    Sizes.Two(PutNum(group, 2), PutVec([1], 2));
    FrameFits(2, [PutNum(group, 2), PutVec([1], 2)], 51);
    FlightPlan.SectionsAppend([fixed[0]], [fixed[1]]);
    FlightPlan.SectionsAppend([fixed[0]] + [fixed[1]], [fixed[2]]);
    FlightPlan.SectionsAppend([fixed[0]] + [fixed[1]] + [fixed[2]], [fixed[3]]);
    assert fixed == [fixed[0]] + [fixed[1]] + [fixed[2]] + [fixed[3]];
  }

  lemma FrameFits(width: nat, ops: seq<Op>, ty: U16)
    requires Sizes.ClosesAll(ops) && Sizes.SizeAll(ops) < 60 && (width == 1 || width == 2)
    ensures var s := [Section(ty, [Framed(width, ops, false)])];
            FlightPlan.SectionsFit(s) && FlightPlan.SectionsSize(s) == 4 + width + Sizes.SizeAll(ops)
  {
    hide Sizes.SizeAll, Sizes.ClosesAll;
    Widths();
    Sizes.FrameSize(width, ops);
    Sizes.One(Framed(width, ops, false));
    FlightPlan.SingleSection(Section(ty, [Framed(width, ops, false)]));
  }

  lemma ModeFits(age: U32)
    ensures var mode := ModeSection(Some(Resumption([7], age)));
            FlightPlan.SectionsFit(mode) && FlightPlan.SectionsSize(mode) < 20
  {
    hide FlightPlan.SectionsFit, FlightPlan.SectionsSize, Sizes.SizeAll, Sizes.ClosesAll;
    Sizes.One(Put([KX_MODE_DHE]));
    FrameFits(1, [Put([KX_MODE_DHE])], 45);
  }

  lemma PskFits(age: U32, binder: Octets)
    requires |binder| == BINDER_LEN
    ensures var psk := [PskSection(Resumption([7], age), binder)];
            FlightPlan.SectionsFit(psk) && FlightPlan.SectionsSize(psk) < 60
  {
    hide FlightPlan.SectionsFit, FlightPlan.SectionsSize, Sizes.SizeAll, Sizes.ClosesAll, PutNum, PutVec, Span;
    Widths();
    var (r, one, two) := (Resumption([7], age), [PutVec([7], 2), PutNum(age, 4)], [Framed(1, [Put(binder)], false)]);
    Sizes.Vector([7], 2);
    Sizes.Number(age, 4);
    Sizes.Two(one[0], one[1]);
    Sizes.FrameSize(2, one);
    Sizes.One(Put(binder));
    Sizes.FrameSize(1, [Put(binder)]);
    Sizes.One(two[0]);
    Sizes.FrameSize(2, two);
    Sizes.Two(Framed(2, one, false), Framed(2, two, false));
    FlightPlan.SingleSection(PskSection(r, binder));
  }

  lemma SmallIsWritten(group: U16, age: U32) returns (raw: Octets)
    ensures Written(SmallHello(group, age), Zeros(BINDER_LEN), raw)
  {
    hide Sizes.SizeAll, Sizes.ClosesAll, AllOps, PutNum, PutVec, PutSuites, FlightPlan.SectionsFit,
         FlightPlan.SectionsSize, Span,
         MeaningAll, FixedSections;
    Widths();
    var (h, binder) := (SmallHello(group, age), Zeros(BINDER_LEN));
    var sections := SmallSections(group, age, binder);
    assert Sections(h, binder) == sections;
    SmallFits(group, age, binder);
    FlightPlan.SectionsSized(sections);
    var inner := Framed(2, AllOps(sections), false);
    Sizes.FrameSize(2, AllOps(sections));
    CoreFits(group, age);
    Sizes.One(inner);
    Sizes.SizeAppend(CoreOps(h), [inner]);
    Sizes.FrameSize(3, CoreOps(h) + [inner]);
    Sizes.Number(Code(CH), 1);
    Sizes.Two(PutNum(Code(CH), 1), Framed(3, CoreOps(h) + [inner], false));
    Sizes.ClosesAllEncodes(HelloProgram(h, binder));
    raw := MeaningAll(HelloProgram(h, binder)).value;
  }

  lemma CoreFits(group: U16, age: U32)
    ensures var core := CoreOps(SmallHello(group, age)); Sizes.ClosesAll(core) && Sizes.SizeAll(core) < 60
  {
    hide Sizes.SizeAll, Sizes.ClosesAll, PutNum, PutVec, PutSuites, Span;
    Widths();
    var (h, core) := (SmallHello(group, age), CoreOps(SmallHello(group, age)));
    Sizes.Number(TLS_1_2, 2);
    Sizes.Two(core[0], core[1]);
    Sizes.Vector([], 1);
    SuitesFit();
    Sizes.Two(core[2], core[3]);
    Sizes.Vector([0], 1);
    Sizes.One(core[4]);
    Sizes.SizeAppend([core[0], core[1]], [core[2], core[3]]);
    Sizes.SizeAppend([core[0], core[1]] + [core[2], core[3]], [core[4]]);
    assert core == [core[0], core[1]] + [core[2], core[3]] + [core[4]];
    RawFits(h.random);
  }

  lemma RawFits(data: Octets)
    ensures Sizes.Size(Put(data)) == |data| && Sizes.Closes(Put(data))
  {
  }

  lemma SuitesFit()
    ensures Sizes.Size(PutSuites([0x1301])) == 4 && Sizes.Closes(PutSuites([0x1301]))
  {
    hide Sizes.SizeAll, Sizes.ClosesAll, Span;
    Widths();
    FlightPlan.WordsSized([0x1301]);
    Sizes.FrameSize(2, Num16s([0x1301]));
  }

  /** A client offers a fresh one-minute ticket, is asked for another group, answers one
      millisecond later, and is refused. */
  lemma OneMillisecondIsTooLate() returns (first: Octets, second: Octets)
    ensures var (t, zeros) := (Ticket([7], 1000, 60000, 0), Zeros(BINDER_LEN));
            var h := SmallHello(0x1d, 500);
            var s := SecondHello(h, 0x17, [1], None, None, OfferAt(t, 1501));
            && h.resumption == OfferAt(t, 1500) && Written(h, zeros, first) && Written(s, zeros, second)
            && Fingerprint(Message(h, zeros)).Some?
            && !Accepts(Fingerprint(Message(h, zeros)).value, 0x17, Message(s, zeros))
  {
    hide Written, Fingerprint, Accepts, Message;
    var (t, zeros, h) := (Ticket([7], 1000, 60000, 0), Zeros(BINDER_LEN), SmallHello(0x1d, 500));
    assert SecondHello(h, 0x17, [1], None, None, OfferAt(t, 1501)) == SmallHello(0x17, 501);
    first := SmallIsWritten(0x1d, 500);
    second := SmallIsWritten(0x17, 501);
    TicketRetryAccepted(h, t, 1500, 1501, 0x17, [1], None, None, zeros, zeros, first, second);
  }
}
