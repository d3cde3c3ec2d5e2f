/** Buffer sizes planned when a server is configured, and the flights written into them. */
module FlightPlan {
  import opened Bytes
  import opened Encoding
  import opened Programs
  import opened Extensions
  import opened Frames
  import opened ClientOffer
  import opened Sizes

  const MAX_SIZE: nat := 262144
  const MAX_ENTRIES: nat := 16
  const HASH_MAX_LEN: nat := 48
  const MAX_SIGNATURE_LEN: nat := 1024
  const MAX_ALPN_PROTOCOL_LEN: nat := 255

  /** The six X.509 signature schemes, in the order they are offered. */
  const X509_SCHEMES: seq<U16> := [0x0403, 0x0804, 0x0503, 0x0805, 0x0806, 0x0807]

  datatype Mode = Tls | Quic

  // -------------------------------------------------------------------- the plan

  function ChainLen(chain: seq<Octets>): nat
  {
    if chain == [] then 0 else 5 + |chain[0]| + ChainLen(chain[1..])
  }

  /** The framed Certificate message for a chain; none when it has too many entries. */
  function CertificateMessageLen(chain: seq<Octets>): Option<nat>
  {
    if |chain| > MAX_ENTRIES then None else Some(8 + ChainLen(chain))
  }

  datatype Profile = Profile(tlsFlightLen: nat, maximumParams: nat, maximumAlpn: nat, clientAuth: bool)

  /** `full_tls_handshake_flight_len`: the flight's length and its extension list's. */
  function FullFlightLen(certificate: nat, signature: nat, alpn: nat, clientAuth: bool, early: bool): Option<(nat, nat)>
  {
    var extensions := 10 + (if alpn != 0 then 7 + alpn else 0) + (if early then 4 else 0);
    if extensions > 65535 then None
    else
      var flight := 6 + extensions + (if clientAuth then 25 else 0) + certificate + (8 + signature)
                    + (4 + HASH_MAX_LEN);
      if flight > MAX_SIZE then None else Some((flight, extensions))
  }

  /** `FlightProfile::new`. */
  function NewProfile(certificate: nat, signature: nat, alpn: nat, clientAuth: bool, early: bool): Option<Profile>
  {
    match FullFlightLen(certificate, signature, alpn, clientAuth, early)
    case None => None
    case Some((flight, extensions)) =>
      if 65535 < extensions + 4 || MAX_SIZE < flight + 4 || alpn > 255 then None
      else
        var (a, b) := (65535 - extensions - 4, MAX_SIZE - flight - 4);
        Some(Profile(flight, if a <= b then a else b, alpn, clientAuth))
  }

  /** `FlightProfile::flight_len`. */
  function FlightLen(p: Profile, mode: Mode, params: nat): Option<nat>
  {
    match mode
    case Tls => if params == 0 then Some(p.tlsFlightLen) else None
    case Quic => if params <= p.maximumParams then Some(p.tlsFlightLen + 4 + params) else None
  }

  // ------------------------------------------------------------------ the flight

  /** What the server answers with after its hello; no chain when it resumes. */
  datatype Flight = Flight(
    serverType: Option<Byte>, clientType: Option<Byte>, params: Option<Octets>, alpn: Option<Octets>,
    early: bool, request: bool, chain: Option<seq<Octets>>, scheme: U16, signature: Octets, verifyData: Octets)

  function ByteSection(ty: U16, t: Option<Byte>): seq<Section>
  {
    match t case None => [] case Some(b) => [Section(ty, [Put([b])])]
  }

  function AlpnReply(alpn: Option<Octets>): seq<Section>
  {
    match alpn case None => [] case Some(p) => [Section(16, [Framed(2, [PutVec(p, 1)], false)])]
  }

  function ReplySections(f: Flight): seq<Section>
  {
    ByteSection(20, f.serverType) + ByteSection(19, f.clientType) + RawSection(57, f.params)
    + AlpnReply(f.alpn) + EarlySection(f.early)
  }

  function MessageOps(k: Kind, body: seq<Op>): seq<Op>
  {
    [PutNum(Code(k), 1), Framed(3, body, false)]
  }

  function EncryptedExtensionsOps(f: Flight): seq<Op>
  {
    MessageOps(EE, [Framed(2, AllOps(ReplySections(f)), false)])
  }

  function RequestOps(f: Flight): seq<Op>
  {
    if !f.request then []
    else
      var schemes := Section(13, [Framed(2, Num16s(X509_SCHEMES), false)]);
      MessageOps(CR, [Framed(1, [], false), Framed(2, AllOps([schemes]), false)])
  }

  function ChainOps(chain: seq<Octets>): seq<Op>
  {
    if chain == [] then [] else [PutVec(chain[0], 3), Framed(2, [], false)] + ChainOps(chain[1..])
  }

  function CertificateOps(f: Flight): seq<Op>
  {
    match f.chain
    case None => []
    case Some(chain) =>
      MessageOps(CERT, [Framed(1, [], false), Framed(3, ChainOps(chain), false)])
      + MessageOps(CV, [PutNum(f.scheme, 2), PutVec(f.signature, 2)])
  }

  function FinishedOps(f: Flight): seq<Op>
  {
    MessageOps(FIN, [Put(f.verifyData)])
  }

  /** EncryptedExtensions to Finished, as one program. */
  function FlightOps(f: Flight): seq<Op>
  {
    EncryptedExtensionsOps(f) + RequestOps(f) + CertificateOps(f) + FinishedOps(f)
  }

  // ------------------------------------------------------------------------ sizes

  function SectionsSize(sections: seq<Section>): nat
  {
    if sections == [] then 0 else 4 + SizeAll(sections[0].ops) + SectionsSize(sections[1..])
  }

  ghost predicate SectionsFit(sections: seq<Section>)
  {
    forall i :: 0 <= i < |sections| ==> ClosesAll(sections[i].ops) && SizeAll(sections[i].ops) < Span(2)
  }

  lemma {:induction false} SectionsSized(sections: seq<Section>)
    ensures SizeAll(AllOps(sections)) == SectionsSize(sections)
    ensures ClosesAll(AllOps(sections)) <==> SectionsFit(sections)
    decreases |sections|
  {
    hide SizeAll, ClosesAll, Span, Size, Closes, PutNum;
    if sections == [] {
      Empty();
    } else {
      var s := sections[0];
      SizeAppend(SectionOps(s), AllOps(sections[1..]));
      Two(PutNum(s.ty, 2), Framed(2, s.ops, false));
      Number(s.ty, 2);
      FrameSize(2, s.ops);
      SectionsSized(sections[1..]);
      HeadFits(sections);
    }
  }

  lemma HeadFits(sections: seq<Section>)
    requires sections != []
    ensures SectionsFit(sections) <==>
            ClosesAll(sections[0].ops) && SizeAll(sections[0].ops) < Span(2) && SectionsFit(sections[1..])
  {
  }

  lemma Empty()
    ensures SizeAll([]) == 0 && ClosesAll([])
  {
  }

  lemma {:induction false} SectionsAppend(a: seq<Section>, b: seq<Section>)
    ensures SectionsSize(a + b) == SectionsSize(a) + SectionsSize(b)
    ensures SectionsFit(a) && SectionsFit(b) <==> SectionsFit(a + b)
    decreases |a|
  {
    hide SizeAll, ClosesAll, Span;
    if a == [] {
      assert a + b == b;
    } else {
      assert (a + b)[1..] == a[1..] + b;
      SectionsAppend(a[1..], b);
      HeadFits(a);
      HeadFits(a + b);
    }
  }

  lemma SingleSection(s: Section)
    ensures SectionsSize([s]) == 4 + SizeAll(s.ops)
    ensures SectionsFit([s]) <==> ClosesAll(s.ops) && SizeAll(s.ops) < Span(2)
  {
  }

  lemma RawSized(ty: U16, data: Option<Octets>)
    ensures SectionsSize(RawSection(ty, data)) == match data case None => 0 case Some(d) => 4 + |d|
    ensures (data.Some? ==> |data.value| < Span(2)) ==> SectionsFit(RawSection(ty, data))
  {
    hide Span;
    match data
    case None =>
    case Some(d) =>
      SingleSection(Section(ty, [Put(d)]));
      One(Put(d));
  }

  lemma ByteSized(ty: U16, t: Option<Byte>)
    ensures SectionsSize(ByteSection(ty, t)) == (if t.Some? then 5 else 0) && SectionsFit(ByteSection(ty, t))
  {
    Widths();
    match t
    case None =>
    case Some(b) =>
      SingleSection(Section(ty, [Put([b])]));
      One(Put([b]));
  }

  lemma AlpnSized(alpn: Option<Octets>)
    requires alpn.Some? ==> |alpn.value| <= MAX_ALPN_PROTOCOL_LEN
    ensures SectionsSize(AlpnReply(alpn)) == match alpn case None => 0 case Some(p) => 7 + |p|
    ensures SectionsFit(AlpnReply(alpn))
  {
    hide Size, Closes, SizeAll, ClosesAll, Span, PutVec;
    Widths();
    match alpn
    case None => Empty();
    case Some(p) =>
      var inner := [PutVec(p, 1)];
      Vector(p, 1);
      One(inner[0]);
      FrameSize(2, inner);
      One(Framed(2, inner, false));
      SingleSection(Section(16, [Framed(2, inner, false)]));
  }

  lemma EarlySized(early: bool)
    ensures SectionsSize(EarlySection(early)) == if early then 4 else 0
    ensures SectionsFit(EarlySection(early))
  {
  }

  lemma MessageSized(k: Kind, body: seq<Op>)
    ensures SizeAll(MessageOps(k, body)) == 4 + SizeAll(body)
    ensures ClosesAll(MessageOps(k, body)) <==> ClosesAll(body) && SizeAll(body) < Span(3)
  {
    hide SizeAll, ClosesAll, Size, Closes, Span, PutNum;
    Two(PutNum(Code(k), 1), Framed(3, body, false));
    Number(Code(k), 1);
    FrameSize(3, body);
  }

  // ------------------------------------------------------------- what was planned

  /** The flight is one a server with this configuration sends. */
  ghost predicate Follows(f: Flight, mode: Mode, params: nat, certificate: nat, signature: nat, alpn: nat,
                          clientAuth: bool, early: bool)
  {
    && (f.alpn.Some? ==> 1 <= |f.alpn.value| <= alpn)
    && (f.early ==> early) && (f.request ==> clientAuth)
    && (f.chain.Some? ==> CertificateMessageLen(f.chain.value) == Some(certificate))
    && |f.signature| <= signature && |f.signature| <= MAX_SIGNATURE_LEN && |f.verifyData| <= HASH_MAX_LEN
    && (mode.Tls? ==> f.params.None?) && (mode.Quic? ==> f.params.Some? && |f.params.value| == params)
  }

  function ParamsLen(params: Option<Octets>): nat
  {
    match params case None => 0 case Some(d) => 4 + |d|
  }

  function ListLen(alpn: nat, early: bool): nat
  {
    10 + (if alpn != 0 then 7 + alpn else 0) + (if early then 4 else 0)
  }

  /** How long this flight's extension list is. */
  function ReplyLen(f: Flight): nat
  {
    (if f.serverType.Some? then 5 else 0) + (if f.clientType.Some? then 5 else 0) + ParamsLen(f.params)
    + (if f.alpn.Some? then 7 + |f.alpn.value| else 0) + (if f.early then 4 else 0)
  }

  lemma ReplySized(f: Flight)
    requires f.alpn.Some? ==> |f.alpn.value| <= MAX_ALPN_PROTOCOL_LEN
    requires f.params.Some? ==> |f.params.value| < Span(2)
    ensures SectionsSize(ReplySections(f)) == ReplyLen(f) && SectionsFit(ReplySections(f))
  {
    hide SectionsFit, SectionsSize, Span, ByteSection, RawSection, AlpnReply, EarlySection;
    var (a, b, c, d, e) := (ByteSection(20, f.serverType), ByteSection(19, f.clientType),
                            RawSection(57, f.params), AlpnReply(f.alpn), EarlySection(f.early));
    ByteSized(20, f.serverType);
    ByteSized(19, f.clientType);
    RawSized(57, f.params);
    AlpnSized(f.alpn);
    EarlySized(f.early);
    SectionsAppend(a, b);
    SectionsAppend(a + b, c);
    SectionsAppend(a + b + c, d);
    SectionsAppend(a + b + c + d, e);
  }

  lemma ExtensionsMessage(f: Flight)
    requires (f.alpn.Some? ==> |f.alpn.value| <= MAX_ALPN_PROTOCOL_LEN) && ReplyLen(f) < 65536
    ensures SizeAll(EncryptedExtensionsOps(f)) == 6 + ReplyLen(f) && ClosesAll(EncryptedExtensionsOps(f))
  {
    hide SizeAll, ClosesAll, Size, Closes, Span, ReplySections, SectionsSize, SectionsFit, AllOps, MessageOps;
    Widths();
    ReplySized(f);
    hide ReplyLen;
    var ops := AllOps(ReplySections(f));
    SectionsSized(ReplySections(f));
    FrameSize(2, ops);
    One(Framed(2, ops, false));
    MessageSized(EE, [Framed(2, ops, false)]);
  }

  lemma SchemesSized()
    ensures SizeAll(Num16s(X509_SCHEMES)) == 12 && ClosesAll(Num16s(X509_SCHEMES))
  {
    WordsSized(X509_SCHEMES);
  }

  lemma {:induction false} WordsSized(xs: seq<U16>)
    ensures SizeAll(Num16s(xs)) == 2 * |xs| && ClosesAll(Num16s(xs))
    decreases |xs|
  {
    hide SizeAll, ClosesAll, Size, Closes, PutNum;
    if xs == [] {
      Empty();
    } else {
      assert SuitePrograms(xs)[1..] == SuitePrograms(xs[1..]);
      assert Num16s(xs) == [PutNum(xs[0], 2)] + Num16s(xs[1..]);
      SizeAppend([PutNum(xs[0], 2)], Num16s(xs[1..]));
      One(PutNum(xs[0], 2));
      Number(xs[0], 2);
      WordsSized(xs[1..]);
    }
  }

  lemma RequestMessage(f: Flight)
    ensures SizeAll(RequestOps(f)) == (if f.request then 25 else 0) && ClosesAll(RequestOps(f))
  {
    hide SizeAll, ClosesAll, Size, Closes, Span, Num16s, AllOps, MessageOps, SectionsFit, SectionsSize;
    Widths();
    Empty();
    if f.request {
      var inner := Framed(2, Num16s(X509_SCHEMES), false);
      var s := Section(13, [inner]);
      SchemesSized();
      FrameSize(2, Num16s(X509_SCHEMES));
      One(inner);
      SingleSection(s);
      SectionsSized([s]);
      FrameSize(1, []);
      FrameSize(2, AllOps([s]));
      Two(Framed(1, [], false), Framed(2, AllOps([s]), false));
      MessageSized(CR, [Framed(1, [], false), Framed(2, AllOps([s]), false)]);
    }
  }

  lemma {:induction false} ChainSized(chain: seq<Octets>)
    requires ChainLen(chain) < Span(3)
    ensures SizeAll(ChainOps(chain)) == ChainLen(chain) && ClosesAll(ChainOps(chain))
    decreases |chain|
  {
    hide SizeAll, ClosesAll, Size, Closes, Span, PutVec;
    Widths();
    Empty();
    if chain != [] {
      ChainSized(chain[1..]);
      Vector(chain[0], 3);
      FrameSize(2, []);
      Two(PutVec(chain[0], 3), Framed(2, [], false));
      SizeAppend([PutVec(chain[0], 3), Framed(2, [], false)], ChainOps(chain[1..]));
    }
  }

  lemma CertificateMessages(f: Flight, certificate: nat)
    requires f.chain.Some? ==> CertificateMessageLen(f.chain.value) == Some(certificate)
    requires certificate <= MAX_SIZE && |f.signature| <= MAX_SIGNATURE_LEN
    ensures SizeAll(CertificateOps(f)) == if f.chain.Some? then certificate + 8 + |f.signature| else 0
    ensures ClosesAll(CertificateOps(f))
  {
    hide SizeAll, ClosesAll, Size, Closes, Span, PutVec, PutNum, MessageOps, ChainOps;
    Widths();
    Empty();
    match f.chain
    case None =>
    case Some(chain) =>
      ChainSized(chain);
      FrameSize(1, []);
      FrameSize(3, ChainOps(chain));
      var (cert, verify) := ([Framed(1, [], false), Framed(3, ChainOps(chain), false)],
                             [PutNum(f.scheme, 2), PutVec(f.signature, 2)]);
      Two(cert[0], cert[1]);
      MessageSized(CERT, cert);
      Number(f.scheme, 2);
      Vector(f.signature, 2);
      Two(verify[0], verify[1]);
      MessageSized(CV, verify);
      SizeAppend(MessageOps(CERT, cert), MessageOps(CV, verify));
  }

  lemma FinishedMessage(f: Flight)
    requires |f.verifyData| <= HASH_MAX_LEN
    ensures SizeAll(FinishedOps(f)) == 4 + |f.verifyData| && ClosesAll(FinishedOps(f))
  {
    hide SizeAll, ClosesAll, Span, MessageOps;
    Widths();
    One(Put(f.verifyData));
    MessageSized(FIN, [Put(f.verifyData)]);
  }

  /** How long this flight is, for a chain whose Certificate message has this length. */
  function FlightSize(f: Flight, certificate: nat): nat
  {
    6 + ReplyLen(f) + (if f.request then 25 else 0)
    + (if f.chain.Some? then certificate + 8 + |f.signature| else 0) + 4 + |f.verifyData|
  }

  lemma FlightSized(f: Flight, certificate: nat)
    requires (f.alpn.Some? ==> |f.alpn.value| <= MAX_ALPN_PROTOCOL_LEN) && ReplyLen(f) < 65536
    requires f.chain.Some? ==> CertificateMessageLen(f.chain.value) == Some(certificate)
    requires certificate <= MAX_SIZE && |f.signature| <= MAX_SIGNATURE_LEN && |f.verifyData| <= HASH_MAX_LEN
    ensures ClosesAll(FlightOps(f)) && SizeAll(FlightOps(f)) == FlightSize(f, certificate)
  {
    hide SizeAll, ClosesAll, EncryptedExtensionsOps, RequestOps, CertificateOps, FinishedOps, CertificateMessageLen,
         ReplyLen;
    ExtensionsMessage(f);
    RequestMessage(f);
    CertificateMessages(f, certificate);
    FinishedMessage(f);
    var (a, b, c, d) := (EncryptedExtensionsOps(f), RequestOps(f), CertificateOps(f), FinishedOps(f));
    SizeAppend(a, b);
    SizeAppend(a + b, c);
    SizeAppend(a + b + c, d);
  }

  /** Every flight of an accepted configuration encodes without error and within the plan. */
  lemma FlightFits(f: Flight, mode: Mode, params: nat, certificate: nat, signature: nat, alpn: nat, clientAuth: bool,
                   early: bool)
    requires certificate <= MAX_SIZE && Follows(f, mode, params, certificate, signature, alpn, clientAuth, early)
    requires var p := NewProfile(certificate, signature, alpn, clientAuth, early);
             p.Some? && FlightLen(p.value, mode, params).Some?
    ensures var n := FlightLen(NewProfile(certificate, signature, alpn, clientAuth, early).value, mode, params).value;
            ClosesAll(FlightOps(f)) && SizeAll(FlightOps(f)) <= n <= MAX_SIZE
  {
    hide SizeAll, ClosesAll, FlightOps, CertificateMessageLen;
    PlanLeavesRoom(f, mode, params, certificate, signature, alpn, clientAuth, early);
    FlightSized(f, certificate);
  }

  ghost function Filled(n: nat): (s: Octets)
    ensures |s| == n
  {
    seq(n, _ => 0)
  }

  /** The flight of a configuration in which every optional part is present and as long as may be. */
  ghost function Longest(mode: Mode, params: nat, chain: seq<Octets>, signature: nat, alpn: nat, clientAuth: bool,
                         early: bool): Flight
  {
    Flight(Some(0), Some(0), if mode.Tls? then None else Some(Filled(params)),
           if alpn == 0 then None else Some(Filled(alpn)), early, clientAuth, Some(chain), 0x0403,
           Filled(signature), Filled(48))
  }

  /** The plan is no longer than it must be: some flight of the configuration has exactly its length. */
  lemma PlanIsReached(mode: Mode, params: nat, chain: seq<Octets>, certificate: nat, signature: nat, alpn: nat,
                      clientAuth: bool, early: bool)
    requires certificate <= MAX_SIZE && CertificateMessageLen(chain) == Some(certificate)
    requires signature <= MAX_SIGNATURE_LEN
    requires var p := NewProfile(certificate, signature, alpn, clientAuth, early);
             p.Some? && FlightLen(p.value, mode, params).Some?
    ensures var n := FlightLen(NewProfile(certificate, signature, alpn, clientAuth, early).value, mode, params).value;
            var f := Longest(mode, params, chain, signature, alpn, clientAuth, early);
            && Follows(f, mode, params, certificate, signature, alpn, clientAuth, early)
            && ClosesAll(FlightOps(f)) && SizeAll(FlightOps(f)) == n
  {
    hide SizeAll, ClosesAll, FlightOps, CertificateMessageLen;
    var f := Longest(mode, params, chain, signature, alpn, clientAuth, early);
    FlightSized(f, certificate);
  }

  /** A configuration is accepted exactly when its protocol names fit their length byte and its longest
      flight, with the transport parameters' four bytes of framing, fits the lists' and messages' limits. */
  lemma PlanAccepts(mode: Mode, params: nat, certificate: nat, signature: nat, alpn: nat, clientAuth: bool, early: bool)
    ensures var p := NewProfile(certificate, signature, alpn, clientAuth, early);
            var list := 10 + (if alpn != 0 then 7 + alpn else 0) + (if early then 4 else 0) + 4 + params;
            var rest := 6 + (if clientAuth then 25 else 0) + certificate + 8 + signature + 52;
            p.Some? && FlightLen(p.value, mode, params).Some? <==>
            alpn <= 255 && (mode.Tls? ==> params == 0) && list <= 65535 && list + rest <= 262144
  {
  }

  lemma PlanLeavesRoom(f: Flight, mode: Mode, params: nat, certificate: nat, signature: nat, alpn: nat,
                       clientAuth: bool, early: bool)
    requires Follows(f, mode, params, certificate, signature, alpn, clientAuth, early)
    requires var p := NewProfile(certificate, signature, alpn, clientAuth, early);
             p.Some? && FlightLen(p.value, mode, params).Some?
    ensures alpn <= 255 && ListLen(alpn, early) + ParamsLen(f.params) < 65536
    ensures var n := FlightLen(NewProfile(certificate, signature, alpn, clientAuth, early).value, mode, params).value;
            && n <= MAX_SIZE
            && 6 + ListLen(alpn, early) + ParamsLen(f.params) + (if clientAuth then 25 else 0) + certificate
               + (8 + signature) + (4 + HASH_MAX_LEN) <= n
  {
  }

  /** So the planned buffer takes the whole flight, byte for byte. */
  lemma FlightFillsPlannedBuffer(f: Flight, mode: Mode, params: nat, certificate: nat, signature: nat, alpn: nat,
                                 clientAuth: bool, early: bool)
    requires certificate <= MAX_SIZE && Follows(f, mode, params, certificate, signature, alpn, clientAuth, early)
    requires var p := NewProfile(certificate, signature, alpn, clientAuth, early);
             p.Some? && FlightLen(p.value, mode, params).Some?
    ensures var n := FlightLen(NewProfile(certificate, signature, alpn, clientAuth, early).value, mode, params).value;
            var run := ExecAll(Bounded([], n, false), FlightOps(f));
            && run.error.None? && MeaningAll(FlightOps(f)).Some?
            && run.state == Bounded([] + MeaningAll(FlightOps(f)).value, n, false)
  {
    hide SizeAll, ClosesAll, FlightOps, MeaningAll, ExecAll, Follows, NewProfile, FlightLen;
    FlightFits(f, mode, params, certificate, signature, alpn, clientAuth, early);
    var n := FlightLen(NewProfile(certificate, signature, alpn, clientAuth, early).value, mode, params).value;
    FitsBuffer(FlightOps(f), [], n);
  }

  // ------------------------------------------------------------ the other flights

  function SessionIdLen(mode: Mode): nat
  {
    if mode.Tls? then 32 else 0
  }

  /** The longest server share: an ML-KEM-768 ciphertext and an X25519 key. */
  const MAX_SERVER_SHARE: nat := 1120

  function ServerShareLen(group: U16): nat
  {
    if group == 0x1d then 32 else if group == 0x17 then 65 else MAX_SERVER_SHARE
  }

  function PlaintextLen(mode: Mode): nat
  {
    var hello := 4 + 40 + SessionIdLen(mode) + 6 + 8 + MAX_SERVER_SHARE + 6;
    var retry := 4 + 40 + SessionIdLen(mode) + 6 + 6;
    hello + retry
  }

  /** `ticket::encrypted_len` for an ALPN that fits its length byte. */
  function EncryptedTicketLen(alpn: nat): nat
  {
    12 + (32 + 4 + 8 + 2 + (1 + 1 + 1 + 4 + 32 + 16) + 1) + alpn + 16
  }

  function ApplicationLen(alpn: nat): nat
  {
    25 + EncryptedTicketLen(alpn) + 8
  }

  function HelloCore(random: Octets, session: Octets, suite: U16): seq<Op>
  {
    [PutNum(TLS_1_2, 2), Put(random)] + [PutVec(session, 1), PutNum(suite, 2)] + [PutNum(0, 1)]
  }

  function VersionSection(): Section
  {
    Section(43, [PutNum(TLS_1_3, 2)])
  }

  function RetryOps(random: Octets, session: Octets, suite: U16, group: U16): seq<Op>
  {
    MessageOps(SH, HelloCore(random, session, suite)
                   + [Framed(2, AllOps([VersionSection()] + [Section(51, [PutNum(group, 2)])]), false)])
  }

  function SelectedSection(resumed: bool): seq<Section>
  {
    if resumed then [Section(41, [PutNum(0, 2)])] else []
  }

  function ServerHelloOps(random: Octets, session: Octets, suite: U16, group: U16, share: Octets,
                          resumed: bool): seq<Op>
  {
    MessageOps(SH, HelloCore(random, session, suite)
                   + [Framed(2, AllOps([VersionSection()] + [Section(51, [PutNum(group, 2), PutVec(share, 2)])]
                                       + SelectedSection(resumed)), false)])
  }

  function TicketOps(lifetime: U32, ageAdd: U32, nonce: Octets, ticket: Octets, early: Option<U32>): seq<Op>
  {
    MessageOps(NST, [PutNum(lifetime, 4), PutNum(ageAdd, 4)] + [PutVec(nonce, 1), PutVec(ticket, 2)]
                    + [Framed(2, AllOps(match early case None => [] case Some(n) => [Section(42, [PutNum(n, 4)])]),
                              false)])
  }

  lemma CoreSized(random: Octets, session: Octets, suite: U16)
    requires |session| < 256
    ensures SizeAll(HelloCore(random, session, suite)) == 6 + |random| + |session|
    ensures ClosesAll(HelloCore(random, session, suite))
  {
    hide SizeAll, ClosesAll, Span, PutNum, PutVec;
    Widths();
    var (a, b, c) := ([PutNum(TLS_1_2, 2), Put(random)], [PutVec(session, 1), PutNum(suite, 2)], [PutNum(0, 1)]);
    Number(TLS_1_2, 2);
    Number(suite, 2);
    Number(0, 1);
    Vector(session, 1);
    Two(a[0], a[1]);
    Two(b[0], b[1]);
    One(c[0]);
    SizeAppend(a, b);
    SizeAppend(a + b, c);
  }

  lemma VersionSized()
    ensures SectionsSize([VersionSection()]) == 6 && SectionsFit([VersionSection()])
  {
    hide PutNum;
    Widths();
    Number(TLS_1_3, 2);
    One(PutNum(TLS_1_3, 2));
    SingleSection(VersionSection());
  }

  lemma HelloSized(random: Octets, session: Octets, suite: U16, sections: seq<Section>)
    requires |session| < 256 && |random| == 32 && SectionsFit(sections) && SectionsSize(sections) < 65536
    ensures var ops := MessageOps(SH, HelloCore(random, session, suite) + [Framed(2, AllOps(sections), false)]);
            SizeAll(ops) == 44 + |session| + SectionsSize(sections) && ClosesAll(ops)
  {
    hide SizeAll, ClosesAll, Size, Closes, Span, HelloCore, MessageOps, AllOps, SectionsSize, SectionsFit;
    Widths();
    CoreSized(random, session, suite);
    SectionsSized(sections);
    FrameSize(2, AllOps(sections));
    One(Framed(2, AllOps(sections), false));
    SizeAppend(HelloCore(random, session, suite), [Framed(2, AllOps(sections), false)]);
    MessageSized(SH, HelloCore(random, session, suite) + [Framed(2, AllOps(sections), false)]);
  }

  lemma RetrySized(random: Octets, session: Octets, suite: U16, group: U16)
    requires |session| < 256 && |random| == 32
    ensures SizeAll(RetryOps(random, session, suite, group)) == 56 + |session|
    ensures ClosesAll(RetryOps(random, session, suite, group))
  {
    hide SizeAll, ClosesAll, PutNum, VersionSection, SectionsFit, SectionsSize, HelloCore, AllOps, Span;
    Widths();
    VersionSized();
    var s := Section(51, [PutNum(group, 2)]);
    Number(group, 2);
    One(PutNum(group, 2));
    SingleSection(s);
    SectionsAppend([VersionSection()], [s]);
    HelloSized(random, session, suite, [VersionSection()] + [s]);
  }

  lemma ServerHelloSized(random: Octets, session: Octets, suite: U16, group: U16, share: Octets, resumed: bool)
    requires |session| < 256 && |random| == 32 && |share| <= MAX_SERVER_SHARE
    ensures SizeAll(ServerHelloOps(random, session, suite, group, share, resumed)) ==
            58 + |session| + |share| + (if resumed then 6 else 0)
    ensures ClosesAll(ServerHelloOps(random, session, suite, group, share, resumed))
  {
    hide SizeAll, ClosesAll, Closes, Size, PutNum, PutVec, VersionSection, SectionsFit, SectionsSize, HelloCore, AllOps,
         Span, SelectedSection;
    Widths();
    VersionSized();
    var s := Section(51, [PutNum(group, 2), PutVec(share, 2)]);
    Number(group, 2);
    Vector(share, 2);
    Two(s.ops[0], s.ops[1]);
    SingleSection(s);
    SelectedSized(resumed);
    SectionsAppend([VersionSection()], [s]);
    SectionsAppend([VersionSection()] + [s], SelectedSection(resumed));
    HelloSized(random, session, suite, [VersionSection()] + [s] + SelectedSection(resumed));
  }

  lemma SelectedSized(resumed: bool)
    ensures SectionsSize(SelectedSection(resumed)) == (if resumed then 6 else 0)
    ensures SectionsFit(SelectedSection(resumed))
  {
  }

  /** A retry request and a server hello both fit the plaintext lane, whatever was negotiated. */
  lemma PlaintextFits(mode: Mode, retry: Random, random: Random, session: Octets, suite: U16, asked: U16, group: U16,
                      share: Octets, resumed: bool)
    requires |session| <= SessionIdLen(mode) && |share| == ServerShareLen(group)
    ensures ClosesAll(RetryOps(retry, session, suite, asked))
    ensures ClosesAll(ServerHelloOps(random, session, suite, group, share, resumed))
    ensures SizeAll(RetryOps(retry, session, suite, asked))
            + SizeAll(ServerHelloOps(random, session, suite, group, share, resumed)) <= PlaintextLen(mode)
    ensures |session| == SessionIdLen(mode) && |share| == MAX_SERVER_SHARE && resumed ==>
            SizeAll(RetryOps(retry, session, suite, asked))
            + SizeAll(ServerHelloOps(random, session, suite, group, share, resumed)) == PlaintextLen(mode)
  {
    hide SizeAll, ClosesAll, RetryOps, ServerHelloOps;
    RetrySized(retry, session, suite, asked);
    ServerHelloSized(random, session, suite, group, share, resumed);
  }

  lemma EarlyLimitSized(early: Option<U32>)
    ensures var sections := match early case None => [] case Some(n) => [Section(42, [PutNum(n, 4)])];
            SectionsSize(sections) == (if early.Some? then 8 else 0) && SectionsFit(sections)
  {
    hide PutNum;
    Widths();
    match early
    case None =>
    case Some(n) =>
      Number(n, 4);
      One(PutNum(n, 4));
      SingleSection(Section(42, [PutNum(n, 4)]));
  }

  /** A session ticket fits the application lane for every negotiated protocol. */
  lemma TicketFits(lifetime: U32, ageAdd: U32, nonce: Octets, ticket: Octets, early: Option<U32>, alpn: nat,
                   maximum: nat)
    requires |nonce| == 8 && alpn <= maximum <= MAX_ALPN_PROTOCOL_LEN && |ticket| == EncryptedTicketLen(alpn)
    ensures ClosesAll(TicketOps(lifetime, ageAdd, nonce, ticket, early))
    ensures SizeAll(TicketOps(lifetime, ageAdd, nonce, ticket, early)) <= ApplicationLen(maximum)
    ensures early.Some? && alpn == maximum ==>
            SizeAll(TicketOps(lifetime, ageAdd, nonce, ticket, early)) == ApplicationLen(maximum)
  {
    hide SizeAll, ClosesAll, Closes, Size, PutNum, PutVec, SectionsFit, SectionsSize, AllOps, Span, MessageOps;
    Widths();
    var sections := match early case None => [] case Some(n) => [Section(42, [PutNum(n, 4)])];
    EarlyLimitSized(early);
    SectionsSized(sections);
    FrameSize(2, AllOps(sections));
    var (a, b, c) := ([PutNum(lifetime, 4), PutNum(ageAdd, 4)], [PutVec(nonce, 1), PutVec(ticket, 2)],
                      [Framed(2, AllOps(sections), false)]);
    Number(lifetime, 4);
    Number(ageAdd, 4);
    Vector(nonce, 1);
    Vector(ticket, 2);
    Two(a[0], a[1]);
    Two(b[0], b[1]);
    One(c[0]);
    SizeAppend(a, b);
    SizeAppend(a + b, c);
    MessageSized(NST, a + b + c);
  }
}
