/** From a hello in flight to both sides done: first or second hello, with a certificate or a
    PSK, with or without early data. */
module Exchange {
  import opened Bytes
  import opened Symbols
  import CM = ClientMachine
  import CP = ClientProofs
  import SM = ServerMachine
  import opened Agreement

  const ROOM: nat := 10

  /** What one hello and its answer settle. */
  datatype Deal = Deal(
    hello: Hello, before: seq<Item>, suite: nat, theirs: Share, ours: Share, random: nat, alpn: Option<nat>,
    psk: Option<nat>, early: bool)

  function AlgIn(k: Deal): Alg
  {
    AlgOf(k.suite)
  }

  function ServerMessage(k: Deal): Message
  {
    SM.HelloMessage(k.hello, k.suite, k.ours, k.random, k.psk.Some?)
  }

  /** The transcript both sides hold after the hellos. */
  function HelloTranscript(k: Deal): Transcript
  {
    Transcript(Some(AlgIn(k)), k.before + [Whole(ClientHello(k.hello))] + [Whole(ServerMessage(k))])
  }

  function CommonSecrets(k: Deal): HandshakeSecrets
  {
    SecretsFor(Mixed(Early(AlgIn(k), k.psk), Shared(k.ours.group, k.theirs.key, k.ours.key)),
               Digest(AlgIn(k), HelloTranscript(k).items))
  }

  function EE(scfg: SM.Config, k: Deal): Message
  {
    EncryptedExtensions(scfg.extensions(k.hello, k.alpn, k.early))
  }

  function Opened(scfg: SM.Config, k: Deal): Transcript
  {
    Push(HelloTranscript(k), EE(scfg, k))
  }

  // ------------------------------------------------------------ the server's flight

  function Requested(scfg: SM.Config, t: Transcript): Transcript
  {
    if scfg.clientAuth.Some? then Push(t, CertificateRequest(scfg.request)) else t
  }

  ghost predicate Signs(scfg: SM.Config)
  {
    forall d: Digest :: scfg.sign(d).Some?
  }

  function Signed(scfg: SM.Config, t: Transcript, alg: Alg): Message
    requires Signs(scfg)
  {
    CertificateVerify(scfg.scheme, scfg.sign(Digest(alg, Push(t, Certificate(scfg.chain)).items)).value)
  }

  function ServerMessages(scfg: SM.Config, t: Transcript, alg: Alg): seq<Message>
    requires Signs(scfg)
  {
    (if scfg.clientAuth.Some? then [CertificateRequest(scfg.request)] else [])
    + [Certificate(scfg.chain), Signed(scfg, Requested(scfg, t), alg)]
  }

  /** The transcript the server's Finished covers. */
  function Covered(scfg: SM.Config, k: Deal): Transcript
    requires k.psk.None? ==> Signs(scfg)
  {
    if k.psk.Some? then Opened(scfg, k)
    else
      var t := Requested(scfg, Opened(scfg, k));
      Push(Push(t, Certificate(scfg.chain)), Signed(scfg, t, AlgIn(k)))
  }

  function ServerFinished(scfg: SM.Config, k: Deal): Message
    requires k.psk.None? ==> Signs(scfg)
  {
    Finished(FinishedMac(CommonSecrets(k).server, Digest(AlgIn(k), Covered(scfg, k).items)))
  }

  function AfterFinished(scfg: SM.Config, k: Deal): Transcript
    requires k.psk.None? ==> Signs(scfg)
  {
    Push(Covered(scfg, k), ServerFinished(scfg, k))
  }

  function Flown(scfg: SM.Config, k: Deal): seq<Message>
    requires k.psk.None? ==> Signs(scfg)
  {
    [EE(scfg, k)] + (if k.psk.Some? then [] else ServerMessages(scfg, Opened(scfg, k), AlgIn(k)))
      + [ServerFinished(scfg, k)]
  }

  /** What the server waits for once its flight is out. */
  function Awaited(scfg: SM.Config, k: Deal): SM.Phase
    requires k.psk.None? ==> Signs(scfg)
  {
    var secret := CommonSecrets(k).client;
    if k.early && scfg.mode.Tls? then SM.ExpectEndOfEarlyData(secret)
    else if k.psk.None? && scfg.clientAuth.Some? then SM.ExpectClientCertificate(secret)
    else SM.ExpectClientFinished(FinishedMac(secret, Digest(AlgIn(k), AfterFinished(scfg, k).items)))
  }

  /** The server with the suite and hash of this deal selected. */
  function Choosing(s: SM.Server, k: Deal): SM.Server
  {
    s.(transcript := Transcript(Some(AlgIn(k)), s.transcript.items), traffic := Selected(k.suite))
  }

  function Tried(scfg: SM.Config, s: SM.Server, k: Deal, sd: SM.Draw): SM.Psk
  {
    SM.TryPsk(scfg, Choosing(s, k), k.hello, AlgIn(k), k.alpn, sd.now)
  }

  function PskOf(p: SM.Psk): Option<nat>
  {
    match p case GoodPsk(a) => Some(a.data.psk) case _ => None
  }

  /** Nothing keeps this hash and this suite from being chosen. */
  predicate Open(t: Transcript, traffic: Traffic, suite: nat)
  {
    && (t.selected == None || t.selected == Some(AlgOf(suite)))
    && (traffic == NoSuite || traffic == Selected(suite))
  }

  /** The server accepts the hello on the deal's terms. */
  ghost predicate Serves(scfg: SM.Config, s: SM.Server, k: Deal, sd: SM.Draw)
  {
    && s.phase.ExpectClientHello? && s.transcript.items == k.before && Open(s.transcript, s.traffic, k.suite)
    && SM.PickSuite(k.hello.suites) == Some(k.suite) && Acceptable(scfg, s, k.hello)
    && scfg.parse(k.hello).Some? && scfg.parse(k.hello).value.selected == Some(k.theirs)
    && scfg.alpn(k.hello) == Some(k.alpn) && scfg.certificates(k.hello).Some?
    && sd.key == Some(k.ours.key) && k.ours.group == k.theirs.group && k.random == sd.random
    && !Tried(scfg, s, k, sd).BadPsk? && k.psk == PskOf(Tried(scfg, s, k, sd))
    && k.early == SM.Grant(scfg, k.hello.early, SM.AcceptedOf(Tried(scfg, s, k, sd)), k.suite, sd).Some?
    && (k.psk.None? ==> Signs(scfg))
  }

  /** The checks on a hello that negotiate nothing. */
  predicate Acceptable(scfg: SM.Config, s: SM.Server, h: Hello)
  {
    && h.version == TLS_1_2 && h.compression && (scfg.mode.Quic? ==> h.session == 0) && scfg.checks(h)
    && scfg.parse(h).Some? && (s.pin.Some? ==> SM.KeepsPin(scfg, s.pin.value, h, scfg.parse(h).value))
  }

  lemma TwoPushed(t: Transcript, a: Message, b: Message)
    ensures PushAll(t, [a, b]) == Push(Push(t, a), b)
  {
    assert [a, b][1..] == [b];
    PushAllOne(Push(t, a), b);
  }

  lemma ThreePushed(t: Transcript, a: Message, b: Message, c: Message)
    ensures PushAll(t, [a] + [b, c]) == Push(Push(Push(t, a), b), c)
  {
    var all := [a] + [b, c];
    assert all[0] == a && all[1..] == [b, c];
    TwoPushed(Push(t, a), b, c);
  }

  lemma NothingPushed(t: Transcript)
    ensures PushAll(t, []) == t
  {
  }

  lemma RequestPushed(scfg: SM.Config, t: Transcript)
    ensures PushAll(t, if scfg.clientAuth.Some? then [CertificateRequest(scfg.request)] else []) == Requested(scfg, t)
  {
  }

  lemma CertificateHash(scfg: SM.Config, t: Transcript, alg: Alg)
    requires t.selected == Some(alg)
    ensures var u := Push(Requested(scfg, t), Certificate(scfg.chain)); Hash(u, alg) == Some(Digest(alg, u.items))
  {
  }

  lemma CredentialsAre(scfg: SM.Config, t: Transcript, alg: Alg)
    requires t.selected == Some(alg) && Signs(scfg)
    ensures SM.Credentials(scfg, t, alg, false) == Some(ServerMessages(scfg, t, alg))
    ensures var u := Requested(scfg, t);
            PushAll(t, ServerMessages(scfg, t, alg)) == Push(Push(u, Certificate(scfg.chain)), Signed(scfg, u, alg))
  {
    hide Push;
    RequestPushed(scfg, t);
    var u := Requested(scfg, t);
    var (cert, verify) := (Certificate(scfg.chain), Signed(scfg, u, alg));
    TwoPushed(u, cert, verify);
    if scfg.clientAuth.Some? {
      ThreePushed(t, CertificateRequest(scfg.request), cert, verify);
    } else {
      var none: seq<Message> := [];
      assert none + [cert, verify] == [cert, verify];
    }
    CertificateHash(scfg, t, alg);
  }

  /** The credentials of this deal, and the transcript they lead to. */
  lemma FlightParts(scfg: SM.Config, k: Deal)
    requires k.psk.None? ==> Signs(scfg)
    ensures var t := Opened(scfg, k);
            && SM.Credentials(scfg, t, AlgIn(k), k.psk.Some?)
               == Some(if k.psk.Some? then [] else ServerMessages(scfg, t, AlgIn(k)))
            && PushAll(t, if k.psk.Some? then [] else ServerMessages(scfg, t, AlgIn(k))) == Covered(scfg, k)
            && t.selected == Covered(scfg, k).selected == Some(AlgIn(k))
  {
    hide SM.Credentials, PushAll, ServerMessages;
    if k.psk.None? {
      CredentialsAre(scfg, Opened(scfg, k), AlgIn(k));
    } else {
      NothingPushed(Opened(scfg, k));
      NoCredentials(scfg, Opened(scfg, k), AlgIn(k));
    }
  }

  lemma NoCredentials(scfg: SM.Config, t: Transcript, alg: Alg)
    ensures SM.Credentials(scfg, t, alg, true) == Some([])
  {
  }

  /** The server once its flight is out. */
  ghost predicate Waiting(s: SM.Server, phase: SM.Phase, t: Transcript, suite: nat)
  {
    && s.phase == phase && s.transcript == t && s.traffic.Active? && s.traffic.suite == suite
    && t.selected == Some(AlgOf(suite)) && s.master.Some?
  }

  lemma FlightGoesOut(scfg: SM.Config, s: SM.Server, k: Deal, events: seq<Event>)
    requires (k.psk.None? ==> Signs(scfg)) && s.transcript == HelloTranscript(k) && s.traffic == Selected(k.suite)
    requires s.alpn == k.alpn && s.early.remaining.Some? == k.early && scfg.certificates(k.hello).Some?
    ensures var o := SM.Flight(scfg, s, k.hello, k.suite, k.psk.Some?, CommonSecrets(k), events);
            && o.Next? && |o.events| == |events| + 2 && o.events[..|events|] == events
            && o.events[|events|] == Send(Handshake, Flown(scfg, k)) && !o.events[|events| + 1].Send?
            && Waiting(o.server, Awaited(scfg, k), AfterFinished(scfg, k), k.suite)
  {
    hide SM.Credentials, PushAll, ServerMessages, Covered, CommonSecrets, HelloTranscript;
    FlightParts(scfg, k);
  }

  /** The events before the ServerHello: none of them is sent. */
  function Preface(scfg: SM.Config, k: Deal, a: Option<SM.Accepted>, t: Transcript): seq<Event>
  {
    SM.QuicEvents(scfg.quic(k.hello)) + SM.EarlyEvents(a, k.early, t)
  }

  /** The server when it has read the hello and answered it. */
  function Heard(scfg: SM.Config, s: SM.Server, k: Deal, sd: SM.Draw): SM.Server
  {
    Choosing(s, k).(transcript := HelloTranscript(k), alpn := k.alpn,
                    early := SM.Admit(scfg, k.hello.early, SM.AcceptedOf(Tried(scfg, s, k, sd)), k.suite, sd))
  }

  lemma HelloIsAccepted(scfg: SM.Config, s: SM.Server, k: Deal, sd: SM.Draw)
    requires Serves(scfg, s, k, sd)
    ensures SM.OnClientHello(scfg, s, k.hello, sd) == SM.Accept(scfg, Choosing(s, k), k.hello, k.suite, k.theirs, sd)
  {
    hide SM.Accept, SM.TryPsk, SM.Grant, SM.KeepsPin;
  }

  lemma HelloIsHeard(scfg: SM.Config, s: SM.Server, k: Deal, sd: SM.Draw)
    requires Serves(scfg, s, k, sd)
    ensures var (m, secrets) := (ServerMessage(k), CommonSecrets(k));
            var t := Push(Choosing(s, k).transcript, ClientHello(k.hello));
            SM.OnClientHello(scfg, s, k.hello, sd) ==
            SM.Flight(scfg, Heard(scfg, s, k, sd), k.hello, k.suite, k.psk.Some?, secrets,
                      Preface(scfg, k, SM.AcceptedOf(Tried(scfg, s, k, sd)), t)
                      + [Send(Plaintext, [m]), KeysReady(Handshake, secrets.client, secrets.server)])
  {
    hide SM.Flight, SM.TryPsk, SM.QuicEvents, SM.EarlyEvents, SM.Grant, SM.HelloMessage;
    HelloIsAccepted(scfg, s, k, sd);
    var t := Push(Choosing(s, k).transcript, ClientHello(k.hello));
    assert Push(t, ServerMessage(k)).items == HelloTranscript(k).items;
  }

  lemma ServerReadsHello(scfg: SM.Config, s: SM.Server, k: Deal, sd: SM.Draw)
    requires Serves(scfg, s, k, sd)
    ensures var o := SM.OnClientHello(scfg, s, k.hello, sd);
            && o.Next? && |o.events| <= ROOM
            && Sent(o.events) == [Packet(Plaintext, ServerMessage(k))] + PacketsOf(Handshake, Flown(scfg, k))
            && Waiting(o.server, Awaited(scfg, k), AfterFinished(scfg, k), k.suite)
  {
    hide SM.Flight, Flown, AfterFinished, Waiting, Awaited, SM.TryPsk, SM.Grant, CommonSecrets, HelloTranscript,
         SM.OnClientHello, ServerMessage;
    var (m, secrets) := (ServerMessage(k), CommonSecrets(k));
    var t := Push(Choosing(s, k).transcript, ClientHello(k.hello));
    var opening := Preface(scfg, k, SM.AcceptedOf(Tried(scfg, s, k, sd)), t);
    var events := opening + [Send(Plaintext, [m]), KeysReady(Handshake, secrets.client, secrets.server)];
    HelloIsHeard(scfg, s, k, sd);
    FlightGoesOut(scfg, Heard(scfg, s, k, sd), k, events);
    FlightPackets(SM.OnClientHello(scfg, s, k.hello, sd).events, opening, m, secrets, Flown(scfg, k));
  }

  // -------------------------------------------------------------- packets of events

  lemma {:induction false} NothingSent(events: seq<Event>)
    requires forall i :: 0 <= i < |events| ==> !events[i].Send?
    ensures Sent(events) == []
    decreases |events|
  {
    if events != [] {
      NothingSent(events[1..]);
    }
  }

  lemma OneSent(epoch: Epoch, messages: seq<Message>)
    ensures Sent([Send(epoch, messages)]) == PacketsOf(epoch, messages)
  {
    assert [Send(epoch, messages)][1..] == [];
  }

  lemma PacketsAppend(a: seq<Message>, b: seq<Message>)
    ensures PacketsOf(Handshake, a + b) == PacketsOf(Handshake, a) + PacketsOf(Handshake, b)
  {
  }

  lemma FlightPackets(events: seq<Event>, opening: seq<Event>, m: Message, secrets: HandshakeSecrets,
                      flight: seq<Message>)
    requires forall i :: 0 <= i < |opening| ==> !opening[i].Send?
    requires |events| == |opening| + 4
    requires var hello := [Send(Plaintext, [m]), KeysReady(Handshake, secrets.client, secrets.server)];
             events[..|opening| + 2] == opening + hello
    requires events[|opening| + 2] == Send(Handshake, flight) && !events[|opening| + 3].Send?
    ensures Sent(events) == [Packet(Plaintext, m)] + PacketsOf(Handshake, flight)
  {
    hide PacketsOf, Sent;
    var n := |opening|;
    var (hello, keys) := (Send(Plaintext, [m]), KeysReady(Handshake, secrets.client, secrets.server));
    assert events[..n + 2][n] == hello && events[..n + 2][n + 1] == keys && events[..n + 2][..n] == opening;
    var (sent, last) := (Send(Handshake, flight), events[n + 3]);
    assert events == opening + ([hello] + ([keys] + ([sent] + [last])));
    SentAppend(opening, [hello] + ([keys] + ([sent] + [last])));
    SentAppend([hello], [keys] + ([sent] + [last]));
    SentAppend([keys], [sent] + [last]);
    SentAppend([sent], [last]);
    NothingSent(opening);
    NothingSent([keys]);
    NothingSent([last]);
    OneSent(Plaintext, [m]);
    OneSent(Handshake, flight);
    OnePacket(m);
    EmptySides([Packet(Plaintext, m)], PacketsOf(Handshake, flight));
  }

  lemma OnePacket(m: Message)
    ensures PacketsOf(Plaintext, [m]) == [Packet(Plaintext, m)]
  {
  }

  lemma EmptySides(a: seq<Packet>, b: seq<Packet>)
    ensures [] + (a + ([] + (b + []))) == a + b
  {
  }

  // ------------------------------------------------------------- the client, reading

  /** Where a client stands, as far as the next message can tell. */
  datatype Stage = Stage(
    phase: CM.Phase, transcript: Transcript, suite: nat, response: Option<CM.Response>, resumed: bool, accepted: bool)

  ghost predicate Following(c: CM.Client, g: Stage)
  {
    && c.phase == g.phase && c.transcript == g.transcript && c.traffic == Selected(g.suite) && c.response == g.response
    && g.transcript.selected == Some(AlgOf(g.suite)) && c.pskUsed == g.resumed && c.early.Accepted? == g.accepted
  }

  /** The client awaits the answer to this deal's hello. */
  ghost predicate Expects(ccfg: CM.Config, c: CM.Client, k: Deal)
  {
    && c.phase.ExpectServerHello? && c.transcript.items == k.before + [Whole(ClientHello(k.hello))]
    && Open(c.transcript, c.traffic, k.suite) && c.pending == Some(k.theirs) && k.ours.group == k.theirs.group
    && k.suite in SUITES && k.suite in ccfg.suites && k.hello.session == (if ccfg.mode.Tls? then c.session else 0)
    && c.response.None? && !c.early.Accepted? && ccfg.agrees(k.ours)
    && (k.psk.Some? ==> AlgIn(k) == Sha256 && c.resumption.Some? && c.resumption.value.psk == k.psk.value)
  }

  /** The client takes the server's extensions, and early data as the server took it. */
  ghost predicate Negotiates(ccfg: CM.Config, scfg: SM.Config, c: CM.Client, k: Deal)
  {
    var n := ccfg.negotiate(EE(scfg, k).content, c.early.Offered? && !c.hrrDone);
    && n.Some? && n.value.early == k.early
    && (k.early ==> && c.early.Offered? && !c.hrrDone && k.psk.Some?
                    && c.early.offer.suite == k.suite && c.early.offer.alpn == n.value.alpn)
  }

  lemma HelloParts(h: Hello, suite: nat, share: Share, random: nat, resumed: bool)
    ensures var exts := SM.HelloMessage(h, suite, share, random, resumed).extensions;
            && CM.ServerShare(exts) == Some(share)
            && CM.FindPsk(exts, 0) == if resumed then Some(SelectedPsk(Some(0))) else None
  {
    var exts := SM.HelloMessage(h, suite, share, random, resumed).extensions;
    assert exts[0] == Versions(Some(TLS_1_3)) && exts[1] == KeyShare(Some(share), None);
    assert CM.FindShare(exts, 1) == Some(exts[1]);
    if resumed {
      assert exts[2] == SelectedPsk(Some(0)) && CM.FindPsk(exts, 2) == Some(exts[2]) == CM.FindPsk(exts, 1);
    } else {
      assert CM.FindPsk(exts, 2).None? && CM.FindPsk(exts, 1).None?;
    }
  }

  function AfterHello(k: Deal): Stage
  {
    Stage(CM.ExpectEncryptedExtensions(CommonSecrets(k)), HelloTranscript(k), k.suite, None, k.psk.Some?, false)
  }

  /** The client reads the ServerHello and arrives at the server's handshake secrets, with the
      PSK exactly when the server selected it. */
  lemma ClientReadsHello(ccfg: CM.Config, c: CM.Client, k: Deal, d: CM.Draw)
    requires Expects(ccfg, c, k)
    ensures var o := CM.OnServerHello(ccfg, c, ServerMessage(k), d);
            && o.Next? && Sent(o.events) == [] && |o.events| <= ROOM && Following(o.client, AfterHello(k))
            && o.client.early == c.early && o.client.hrrDone == c.hrrDone
  {
    hide CM.FindPsk, CM.ServerShare;
    HelloParts(k.hello, k.suite, k.ours, k.random, k.psk.Some?);
    var o := CM.OnServerHello(ccfg, c, ServerMessage(k), d);
    assert o.events[1..] == [];
  }

  function AfterExtensions(scfg: SM.Config, k: Deal): Stage
  {
    var secrets := CommonSecrets(k);
    Stage(if k.psk.Some? then CM.ExpectServerFinished(secrets) else CM.ExpectCertificate(secrets),
          Opened(scfg, k), k.suite, None, k.psk.Some?, k.early)
  }

  lemma ClientReadsExtensions(ccfg: CM.Config, scfg: SM.Config, c: CM.Client, k: Deal)
    requires Following(c, AfterHello(k)) && Negotiates(ccfg, scfg, c, k)
    ensures var o := CM.OnEncryptedExtensions(ccfg, c, EE(scfg, k), CommonSecrets(k));
            && o.Next? && Sent(o.events) == [] && |o.events| <= ROOM && Following(o.client, AfterExtensions(scfg, k))
  {
    hide CommonSecrets, HelloTranscript, Sent;
    var o := CM.OnEncryptedExtensions(ccfg, c, EE(scfg, k), CommonSecrets(k));
    NothingSent(o.events);
  }

  /** What the client will answer a certificate request with. */
  function Answer(ccfg: CM.Config, scfg: SM.Config): Option<CM.Response>
  {
    if scfg.clientAuth.None? then None
    else if ccfg.hasIdentity && ccfg.request(scfg.request) == Some(true) then Some(CM.IdentityResponse)
    else Some(CM.EmptyResponse)
  }

  lemma ClientReadsRequest(ccfg: CM.Config, scfg: SM.Config, c: CM.Client, g: Stage)
    requires Following(c, g) && g.phase.ExpectCertificate? && g.response.None? && scfg.clientAuth.Some?
    requires ccfg.request(scfg.request).Some?
    ensures var m := CertificateRequest(scfg.request);
            var o := CM.OnCertificateRequest(ccfg, c, m);
            && o.Next? && o.events == []
            && Following(o.client, g.(transcript := Push(g.transcript, m), response := Answer(ccfg, scfg)))
  {
  }

  lemma ClientReadsCertificate(ccfg: CM.Config, c: CM.Client, g: Stage, chain: nat,
                               d: CM.Draw) returns (place: CM.Place)
    requires Following(c, g) && g.phase.ExpectCertificate? && d.leafFits && CM.ServerLeaf(ccfg, chain, d.now).Some?
    ensures var o := CM.OnCertificate(ccfg, c, Certificate(chain), g.phase.secrets, d);
            && o.Next? && o.events == []
            && Following(o.client, g.(phase := CM.ExpectCertificateVerify(g.phase.secrets, place),
                                      transcript := Push(g.transcript, Certificate(chain))))
            && CM.KeptLeaf(ccfg, o.client, place) == CM.ServerLeaf(ccfg, chain, d.now)
  {
    var leaf := CM.ServerLeaf(ccfg, chain, d.now).value;
    place := if ccfg.verifier.Pinned? then CM.PinnedLeaf else CM.FlightLeaf(leaf.kind);
  }

  lemma ClientReadsVerify(ccfg: CM.Config, c: CM.Client, g: Stage, scheme: nat, signature: nat)
    requires Following(c, g) && g.phase.ExpectCertificateVerify? && CM.KeptLeaf(ccfg, c, g.phase.place).Some?
    requires ccfg.schemeOffered(scheme)
    requires var leaf := CM.KeptLeaf(ccfg, c, g.phase.place).value;
             ccfg.verify(leaf, scheme, Digest(AlgOf(g.suite), g.transcript.items), signature)
    ensures var m := CertificateVerify(scheme, signature);
            var o := CM.OnCertificateVerify(ccfg, c, m, g.phase.secrets, g.phase.place);
            && o.Next? && o.events == []
            && Following(o.client, g.(phase := CM.ExpectServerFinished(g.phase.secrets),
                                      transcript := Push(g.transcript, m)))
  {
  }

  // ---------------------------------------------------------- the client's last flight

  function Ended(t: Transcript, ending: bool): Transcript
  {
    if ending then Push(t, EndOfEarlyData) else t
  }

  /** EndOfEarlyData when early data ends, the response to a request, and Finished. */
  function ClientFlight(ccfg: CM.Config, secrets: HandshakeSecrets, t: Transcript, alg: Alg,
                        response: Option<CM.Response>,
                        ending: bool): seq<Message>
    requires CM.ResponseMessages(ccfg, Ended(t, ending), alg, response).Some?
  {
    var u := Ended(t, ending);
    var messages := CM.ResponseMessages(ccfg, u, alg, response).value;
    (if ending then [EndOfEarlyData] else [])
    + (messages + [Finished(FinishedMac(secrets.client, Digest(alg, PushAll(u, messages).items)))])
  }

  function FinishedOf(g: Stage): Message
    requires g.phase.ExpectServerFinished?
  {
    Finished(FinishedMac(g.phase.secrets.server, Digest(AlgOf(g.suite), g.transcript.items)))
  }

  lemma EarlyEnds(ccfg: CM.Config, c: CM.Client, t: Transcript)
    ensures var ending := c.early.Accepted? && ccfg.mode.Tls?;
            && PushAll(t, CM.EndOfEarly(ccfg, c)) == Ended(t, ending)
            && Sent(CM.EndOfEarlyEvents(ccfg, c)) == PacketsOf(Handshake, CM.EndOfEarly(ccfg, c))
            && CM.EndOfEarly(ccfg, c) == (if ending then [EndOfEarlyData] else [])
            && |CM.EndOfEarlyEvents(ccfg, c)| <= 1
  {
    hide PacketsOf, Sent;
    PushAllOne(t, EndOfEarlyData);
    NothingPushed(t);
    OneSent(Handshake, [EndOfEarlyData]);
    NothingSent([]);
    NoPackets();
  }

  lemma NoPackets()
    ensures PacketsOf(Handshake, []) == []
  {
  }

  lemma ClientReadsFinished(ccfg: CM.Config, c: CM.Client, g: Stage)
    requires Following(c, g) && g.phase.ExpectServerFinished?
    requires var ending := g.accepted && ccfg.mode.Tls?;
             var t := Ended(Push(g.transcript, FinishedOf(g)), ending);
             CM.ResponseMessages(ccfg, t, AlgOf(g.suite), g.response).Some?
    ensures var (m, ending) := (FinishedOf(g), g.accepted && ccfg.mode.Tls?);
            var o := CM.OnServerFinished(ccfg, c, m, g.phase.secrets);
            && o.Next? && o.client.phase.Done? && |o.events| <= ROOM
            && o.client.pskUsed == g.resumed && o.client.early.Accepted? == g.accepted
            && Sent(o.events) == PacketsOf(Handshake,
                 ClientFlight(ccfg, g.phase.secrets, Push(g.transcript, m), AlgOf(g.suite), g.response, ending))
  {
    hide CM.ResponseMessages, PushAll, CM.EndOfEarly, CM.EndOfEarlyEvents, Sent, PacketsOf;
    var (m, ending, alg) := (FinishedOf(g), g.accepted && ccfg.mode.Tls?, AlgOf(g.suite));
    var t := Push(g.transcript, m);
    EarlyEnds(ccfg, c, t);
    EndingIsShared(ccfg, c, c.(transcript := t));
    var messages := CM.ResponseMessages(ccfg, Ended(t, ending), alg, g.response).value;
    CP.PushAllExtends(Ended(t, ending), messages);
    var o := CM.OnServerFinished(ccfg, c, m, g.phase.secrets);
    var early := CM.EndOfEarlyEvents(ccfg, c);
    var last := messages + [Finished(FinishedMac(g.phase.secrets.client,
                                                 Digest(alg, PushAll(Ended(t, ending), messages).items)))];
    assert o.events == [o.events[0]] + early + [Send(Handshake, last), HandshakeDone];
    FinishedPackets(o.events[0], early, CM.EndOfEarly(ccfg, c), last);
  }

  lemma EndingIsShared(ccfg: CM.Config, c: CM.Client, d: CM.Client)
    requires d.early == c.early
    ensures CM.EndOfEarly(ccfg, c) == CM.EndOfEarly(ccfg, d)
    ensures CM.EndOfEarlyEvents(ccfg, c) == CM.EndOfEarlyEvents(ccfg, d)
  {
  }

  lemma FinishedPackets(keys: Event, early: seq<Event>, first: seq<Message>, last: seq<Message>)
    requires !keys.Send? && Sent(early) == PacketsOf(Handshake, first)
    ensures Sent([keys] + early + [Send(Handshake, last), HandshakeDone]) == PacketsOf(Handshake, first + last)
  {
    hide PacketsOf, Sent;
    var (send, done) := (Send(Handshake, last), HandshakeDone);
    SentAppend([keys] + early, [send, done]);
    SentAppend([keys], early);
    assert [send, done] == [send] + [done];
    SentAppend([send], [done]);
    NothingSent([keys]);
    NothingSent([done]);
    OneSent(Handshake, last);
    PacketsAppend(first, last);
    assert [] + PacketsOf(Handshake, first) == PacketsOf(Handshake, first);
    assert PacketsOf(Handshake, last) + [] == PacketsOf(Handshake, last);
  }

  // --------------------------------------------------- the server, reading that flight

  lemma ServerReadsEnd(scfg: SM.Config, s: SM.Server, secret: Secret, t: Transcript, suite: nat)
    requires Waiting(s, SM.ExpectEndOfEarlyData(secret), t, suite)
    ensures var o := SM.OnEndOfEarlyData(s, secret);
            var u := Push(t, EndOfEarlyData);
            && o.Next? && o.events == []
            && Waiting(o.server, SM.ExpectClientFinished(FinishedMac(secret, Digest(AlgOf(suite), u.items))), u, suite)
  {
  }

  lemma ServerReadsEmpty(scfg: SM.Config, s: SM.Server, secret: Secret, t: Transcript, suite: nat, d: SM.Draw)
    requires Waiting(s, SM.ExpectClientCertificate(secret), t, suite) && scfg.clientAuth == Some(SM.Requested)
    ensures var o := SM.OnClientCertificate(scfg, s, Certificate(0), secret, d);
            var u := Push(t, Certificate(0));
            && o.Next? && o.events == []
            && Waiting(o.server, SM.ExpectClientFinished(FinishedMac(secret, Digest(AlgOf(suite), u.items))), u, suite)
  {
  }

  lemma ServerReadsIdentity(scfg: SM.Config, s: SM.Server, secret: Secret, t: Transcript, suite: nat, chain: nat,
                            scheme: nat,
                            signature: nat, d: SM.Draw)
    requires Waiting(s, SM.ExpectClientCertificate(secret), t, suite) && scfg.clientAuth.Some? && chain != 0
    requires d.identityFits
    requires scfg.identity(chain).Some? && scfg.schemeSupported(scheme)
    requires scfg.approve(scfg.identity(chain).value.public)
    requires var u := Push(t, Certificate(chain));
             scfg.verify(scfg.identity(chain).value.leaf, scheme, Digest(AlgOf(suite), u.items), signature)
    ensures var o := SM.OnClientCertificate(scfg, s, Certificate(chain), secret, d);
            var u := Push(Push(t, Certificate(chain)), CertificateVerify(scheme, signature));
            && o.Next? && o.events == [] && o.server.phase == SM.ExpectClientCertVerify(secret)
            && var p := SM.OnClientCertVerify(scfg, o.server, CertificateVerify(scheme, signature), secret);
               && p.Next? && p.events == []
               && Waiting(p.server, SM.ExpectClientFinished(FinishedMac(secret, Digest(AlgOf(suite), u.items))), u,
                          suite)
  {
  }

  lemma ServerReadsFinished(scfg: SM.Config, s: SM.Server, mac: Mac, t: Transcript, suite: nat, d: SM.Draw)
    requires Waiting(s, SM.ExpectClientFinished(mac), t, suite) && (scfg.hasKeys ==> scfg.ticket(d.nonce).Some?)
    ensures var o := SM.OnClientFinished(scfg, s, Finished(mac), mac, d);
            o.Next? && |o.events| <= ROOM && o.server.phase.Done?
  {
  }

  // ------------------------------------------------------------------ moves, delivered

  lemma Delivered(ccfg: CM.Config, scfg: SM.Config, y: System, p: Packet, rest: seq<Packet>, d: CM.Draw, o: CM.Outcome)
    requires y.toClient == [p] + rest && !y.client.phase.Failed?
    requires o == CM.Dispatch(ccfg, y.client, p.epoch, p.message, d) && o.Next? && |o.events| <= ROOM
    ensures Advance(ccfg, scfg, y, ToClient(d, ROOM)) == System(o.client, y.server, y.toServer + Sent(o.events), rest)
  {
  }

  lemma DeliveredToServer(ccfg: CM.Config, scfg: SM.Config, y: System, p: Packet, rest: seq<Packet>, d: SM.Draw,
                          o: SM.Outcome)
    requires y.toServer == [p] + rest && !y.server.phase.Failed?
    requires o == SM.Dispatch(scfg, y.server, p.epoch, p.message, d) && o.Next? && |o.events| <= ROOM
    ensures Advance(ccfg, scfg, y, ToServer(d, ROOM)) == System(y.client, o.server, rest, y.toClient + Sent(o.events))
  {
  }

  lemma {:induction false} PlayAppend(ccfg: CM.Config, scfg: SM.Config, y: System, a: seq<Move>, b: seq<Move>)
    ensures Play(ccfg, scfg, y, a + b) == Play(ccfg, scfg, Play(ccfg, scfg, y, a), b)
    decreases |a|
  {
    hide Advance;
    if a == [] {
      assert a + b == b;
    } else {
      assert (a + b)[1..] == a[1..] + b;
      PlayAppend(ccfg, scfg, Advance(ccfg, scfg, y, a[0]), a[1..], b);
    }
  }

  function Times(n: nat, m: Move): (ms: seq<Move>)
    ensures |ms| == n
  {
    if n == 0 then [] else [m] + Times(n - 1, m)
  }

  lemma PlayTimes(ccfg: CM.Config, scfg: SM.Config, y: System, n: nat, m: Move)
    ensures Play(ccfg, scfg, y, Times(n + 1, m)) == Play(ccfg, scfg, Advance(ccfg, scfg, y, m), Times(n, m))
    ensures Play(ccfg, scfg, y, Times(0, m)) == y
  {
  }

  /** The system while the client reads the server's flight. */
  ghost predicate At(y: System, s: SM.Server, left: seq<Message>)
  {
    y.server == s && y.toServer == [] && y.toClient == PacketsOf(Handshake, left)
  }

  lemma PacketsCons(m: Message, rest: seq<Message>)
    ensures PacketsOf(Handshake, [m] + rest) == [Packet(Handshake, m)] + PacketsOf(Handshake, rest)
  {
  }

  /** One message of the flight, read by a client that accepts it and answers nothing. */
  lemma Reads(ccfg: CM.Config, scfg: SM.Config, y: System, s: SM.Server, m: Message, rest: seq<Message>, d: CM.Draw,
              o: CM.Outcome)
    requires At(y, s, [m] + rest) && !y.client.phase.Failed? && o == CM.Dispatch(ccfg, y.client, Handshake, m, d)
    requires o.Next? && |o.events| <= ROOM && Sent(o.events) == []
    ensures var z := Advance(ccfg, scfg, y, ToClient(d, ROOM)); At(z, s, rest) && z.client == o.client
  {
    hide CM.Dispatch, Sent, PacketsOf;
    PacketsCons(m, rest);
    Delivered(ccfg, scfg, y, Packet(Handshake, m), PacketsOf(Handshake, rest), d, o);
  }

  lemma LastRead(ccfg: CM.Config, scfg: SM.Config, y: System, s: SM.Server, m: Message, d: CM.Draw, o: CM.Outcome)
    requires At(y, s, [m] + []) && !y.client.phase.Failed? && o == CM.Dispatch(ccfg, y.client, Handshake, m, d)
    requires o.Next? && |o.events| <= ROOM
    ensures var z := Advance(ccfg, scfg, y, ToClient(d, ROOM));
            z.client == o.client && z.server == s && z.toServer == Sent(o.events)
  {
  }

  lemma FlightDelivered(ccfg: CM.Config, scfg: SM.Config, y: System, m: Message, rest: seq<Message>, d: SM.Draw,
                        o: SM.Outcome)
    requires y.toServer == PacketsOf(Handshake, [m] + rest) && !y.server.phase.Failed?
    requires o == SM.Dispatch(scfg, y.server, Handshake, m, d) && o.Next? && |o.events| <= ROOM
    ensures var z := Advance(ccfg, scfg, y, ToServer(d, ROOM));
            z.client == y.client && z.server == o.server && z.toServer == PacketsOf(Handshake, rest)
  {
    hide SM.Dispatch, Sent, PacketsOf;
    PacketsCons(m, rest);
    DeliveredToServer(ccfg, scfg, y, Packet(Handshake, m), PacketsOf(Handshake, rest), d, o);
  }

  lemma StageOf(c: CM.Client, g: Stage)
    requires Following(c, g)
    ensures c.phase == g.phase && g.transcript.selected == Some(AlgOf(g.suite))
  {
  }

  lemma WaitingPhase(s: SM.Server, phase: SM.Phase, t: Transcript, suite: nat)
    requires Waiting(s, phase, t, suite)
    ensures s.phase == phase && t.selected == Some(AlgOf(suite))
  {
  }

  // --------------------------------------------------------- the client reads the flight

  /** The server's chain leads to a leaf whose signatures the client accepts. */
  ghost predicate Convinces(ccfg: CM.Config, scfg: SM.Config, d: CM.Draw)
  {
    && d.leafFits && CM.ServerLeaf(ccfg, scfg.chain, d.now).Some? && ccfg.schemeOffered(scfg.scheme)
    && forall h: Digest :: scfg.sign(h).Some?
         && ccfg.verify(CM.ServerLeaf(ccfg, scfg.chain, d.now).value, scfg.scheme, h, scfg.sign(h).value)
  }

  lemma ConvincedLeaf(ccfg: CM.Config, scfg: SM.Config, d: CM.Draw, h: Digest)
    requires Convinces(ccfg, scfg, d)
    ensures d.leafFits && CM.ServerLeaf(ccfg, scfg.chain, d.now).Some? && ccfg.schemeOffered(scfg.scheme) && Signs(scfg)
    ensures ccfg.verify(CM.ServerLeaf(ccfg, scfg.chain, d.now).value, scfg.scheme, h, scfg.sign(h).value)
  {
  }

  /** The stage before the server's Finished. */
  function BeforeFinished(ccfg: CM.Config, scfg: SM.Config, k: Deal): Stage
    requires k.psk.None? ==> Signs(scfg)
  {
    Stage(CM.ExpectServerFinished(CommonSecrets(k)), Covered(scfg, k), k.suite,
          if k.psk.Some? then None else Answer(ccfg, scfg), k.psk.Some?, k.early)
  }

  /** A system whose client has reached a stage with these messages still to read. */
  ghost predicate Reached(y: System, s: SM.Server, g: Stage, left: seq<Message>)
  {
    At(y, s, left) && Following(y.client, g)
  }

  /** The chain and its signature, read. */
  lemma ReadsChain(ccfg: CM.Config, scfg: SM.Config, y: System, s: SM.Server, g: Stage, rest: seq<Message>, d: CM.Draw)
    requires Convinces(ccfg, scfg, d) && Signs(scfg) && g.phase.ExpectCertificate?
    requires Reached(y, s, g, [Certificate(scfg.chain)] + ([Signed(scfg, g.transcript, AlgOf(g.suite))] + rest))
    ensures var (cert, cv) := (Certificate(scfg.chain), Signed(scfg, g.transcript, AlgOf(g.suite)));
            Reached(Play(ccfg, scfg, y, Times(2, ToClient(d, ROOM))), s,
                    g.(phase := CM.ExpectServerFinished(g.phase.secrets),
                       transcript := Push(Push(g.transcript, cert), cv)), rest)
  {
    hide CM.OnCertificate, CM.OnCertificateVerify, Following, At, Convinces, CM.KeptLeaf, PacketsOf, Advance, Play,
         Sent;
    var (cert, cv, move) := (Certificate(scfg.chain), Signed(scfg, g.transcript, AlgOf(g.suite)), ToClient(d, ROOM));
    var t := Push(g.transcript, cert);
    ConvincedLeaf(ccfg, scfg, d, Digest(AlgOf(g.suite), t.items));
    NothingSent([]);
    StageOf(y.client, g);
    var place := ClientReadsCertificate(ccfg, y.client, g, scfg.chain, d);
    Reads(ccfg, scfg, y, s, cert, [cv] + rest, d, CM.OnCertificate(ccfg, y.client, cert, g.phase.secrets, d));
    var z := Advance(ccfg, scfg, y, move);
    var next := g.(phase := CM.ExpectCertificateVerify(g.phase.secrets, place), transcript := t);
    StageOf(z.client, next);
    ClientReadsVerify(ccfg, z.client, next, cv.scheme, cv.signature);
    Reads(ccfg, scfg, z, s, cv, rest, d, CM.OnCertificateVerify(ccfg, z.client, cv, g.phase.secrets, place));
    PlayTimes(ccfg, scfg, y, 1, move);
    PlayTimes(ccfg, scfg, z, 0, move);
    PlayTimes(ccfg, scfg, Advance(ccfg, scfg, z, move), 0, move);
  }

  /** The request for a certificate, if there is one, read. */
  lemma ReadsRequest(ccfg: CM.Config, scfg: SM.Config, y: System, s: SM.Server, g: Stage, rest: seq<Message>,
                     d: CM.Draw)
    requires scfg.clientAuth.Some? ==> ccfg.request(scfg.request).Some?
    requires g.phase.ExpectCertificate? && g.response.None?
    requires Reached(y, s, g, (if scfg.clientAuth.Some? then [CertificateRequest(scfg.request)] else []) + rest)
    ensures var n := if scfg.clientAuth.Some? then 1 else 0;
            Reached(Play(ccfg, scfg, y, Times(n, ToClient(d, ROOM))), s,
                    g.(transcript := Requested(scfg, g.transcript), response := Answer(ccfg, scfg)), rest)
  {
    hide CM.OnCertificateRequest, Following, At, PacketsOf, Advance, Play, Sent;
    var move := ToClient(d, ROOM);
    PlayTimes(ccfg, scfg, y, 0, move);
    if scfg.clientAuth.Some? {
      NothingSent([]);
      StageOf(y.client, g);
      ClientReadsRequest(ccfg, scfg, y.client, g);
      var m := CertificateRequest(scfg.request);
      Reads(ccfg, scfg, y, s, m, rest, d, CM.OnCertificateRequest(ccfg, y.client, m));
      PlayTimes(ccfg, scfg, Advance(ccfg, scfg, y, move), 0, move);
    } else {
      assert [] + rest == rest;
    }
  }

  lemma {:induction false} TimesAppend(m: nat, n: nat, move: Move)
    ensures Times(m + n, move) == Times(m, move) + Times(n, move)
    decreases m
  {
    if m > 0 {
      TimesAppend(m - 1, n, move);
      assert [move] + (Times(m - 1, move) + Times(n, move)) == ([move] + Times(m - 1, move)) + Times(n, move);
    } else {
      assert [] + Times(n, move) == Times(n, move);
    }
  }

  lemma PlaySplit(ccfg: CM.Config, scfg: SM.Config, y: System, m: nat, n: nat, move: Move)
    ensures Play(ccfg, scfg, y, Times(m + n, move)) == Play(ccfg, scfg, Play(ccfg, scfg, y, Times(m, move)),
                                                            Times(n, move))
  {
    hide Play, Times;
    TimesAppend(m, n, move);
    PlayAppend(ccfg, scfg, y, Times(m, move), Times(n, move));
  }

  /** The messages between EncryptedExtensions and Finished: how many, and in what order. */
  function Between(scfg: SM.Config, k: Deal): nat
  {
    if k.psk.Some? then 0 else if scfg.clientAuth.Some? then 3 else 2
  }

  lemma FlightSplit(scfg: SM.Config, k: Deal)
    requires k.psk.None? ==> Signs(scfg)
    ensures var last := [ServerFinished(scfg, k)] + [];
            && (k.psk.Some? ==> Flown(scfg, k) == [EE(scfg, k)] + last)
            && (k.psk.None? ==>
                  var signed := Signed(scfg, Requested(scfg, Opened(scfg, k)), AlgIn(k));
                  Flown(scfg, k) == [EE(scfg, k)]
                    + ((if scfg.clientAuth.Some? then [CertificateRequest(scfg.request)] else [])
                                    + ([Certificate(scfg.chain)] + ([signed] + last))))
  {
    hide Signed, ServerFinished;
  }

  /** The hello read: the client waits for the extensions. */
  lemma ReadsHello(ccfg: CM.Config, scfg: SM.Config, y: System, k: Deal, flight: seq<Message>, d: CM.Draw)
    requires Expects(ccfg, y.client, k) && y.toServer == []
    requires y.toClient == [Packet(Plaintext, ServerMessage(k))] + PacketsOf(Handshake, flight)
    ensures var z := Play(ccfg, scfg, y, Times(1, ToClient(d, ROOM)));
            && Reached(z, y.server, AfterHello(k), flight)
            && z.client.early == y.client.early && z.client.hrrDone == y.client.hrrDone
  {
    hide CM.OnServerHello, Following, PacketsOf, Advance, Play, HelloTranscript, CommonSecrets, Sent, Expects;
    var (m, move) := (ServerMessage(k), ToClient(d, ROOM));
    ExpectsPhase(ccfg, y.client, k);
    ClientReadsHello(ccfg, y.client, k, d);
    Delivered(ccfg, scfg, y, Packet(Plaintext, m), PacketsOf(Handshake, flight), d,
              CM.OnServerHello(ccfg, y.client, m, d));
    var none: seq<Packet> := [];
    assert none + none == none;
    PlayTimes(ccfg, scfg, y, 0, move);
    PlayTimes(ccfg, scfg, Advance(ccfg, scfg, y, move), 0, move);
  }

  lemma ExpectsPhase(ccfg: CM.Config, c: CM.Client, k: Deal)
    requires Expects(ccfg, c, k)
    ensures c.phase.ExpectServerHello?
  {
  }

  /** The extensions read. */
  lemma ReadsExtensions(ccfg: CM.Config, scfg: SM.Config, y: System, s: SM.Server, k: Deal, rest: seq<Message>,
                        d: CM.Draw)
    requires Reached(y, s, AfterHello(k), [EE(scfg, k)] + rest) && Negotiates(ccfg, scfg, y.client, k)
    ensures Reached(Play(ccfg, scfg, y, Times(1, ToClient(d, ROOM))), s, AfterExtensions(scfg, k), rest)
  {
    hide CM.OnEncryptedExtensions, Following, At, PacketsOf, Advance, Play, HelloTranscript, CommonSecrets, Sent,
         Negotiates;
    var move := ToClient(d, ROOM);
    StageOf(y.client, AfterHello(k));
    ClientReadsExtensions(ccfg, scfg, y.client, k);
    Reads(ccfg, scfg, y, s, EE(scfg, k), rest, d, CM.OnEncryptedExtensions(ccfg, y.client, EE(scfg, k),
                                                                           CommonSecrets(k)));
    PlayTimes(ccfg, scfg, y, 0, move);
    PlayTimes(ccfg, scfg, Advance(ccfg, scfg, y, move), 0, move);
  }

  /** The credentials read, unless a PSK stands for them: only the Finished is left. */
  lemma ReadsCredentials(ccfg: CM.Config, scfg: SM.Config, y: System, s: SM.Server, k: Deal, rest: seq<Message>,
                         d: CM.Draw)
    requires k.psk.None? ==> Convinces(ccfg, scfg, d) && Signs(scfg)
    requires k.psk.None? && scfg.clientAuth.Some? ==> ccfg.request(scfg.request).Some?
    requires var last := [ServerFinished(scfg, k)] + [];
             && (k.psk.Some? ==> rest == last)
             && (k.psk.None? ==>
                   var signed := Signed(scfg, Requested(scfg, Opened(scfg, k)), AlgIn(k));
                   rest == (if scfg.clientAuth.Some? then [CertificateRequest(scfg.request)] else [])
                           + ([Certificate(scfg.chain)] + ([signed] + last)))
    requires Reached(y, s, AfterExtensions(scfg, k), rest)
    ensures Reached(Play(ccfg, scfg, y, Times(Between(scfg, k), ToClient(d, ROOM))), s, BeforeFinished(ccfg, scfg, k),
                    [ServerFinished(scfg, k)] + [])
  {
    hide Reached, Play, Times, HelloTranscript, CommonSecrets, ServerFinished, Signed, Answer, Convinces, Requested;
    var (move, last) := (ToClient(d, ROOM), [ServerFinished(scfg, k)] + []);
    PlayTimes(ccfg, scfg, y, 0, move);
    if k.psk.None? {
      var g := AfterExtensions(scfg, k);
      var signed := Signed(scfg, Requested(scfg, g.transcript), AlgIn(k));
      ReadsRequest(ccfg, scfg, y, s, g, [Certificate(scfg.chain)] + ([signed] + last), d);
      var n := if scfg.clientAuth.Some? then 1 else 0;
      var z := Play(ccfg, scfg, y, Times(n, move));
      ReadsChain(ccfg, scfg, z, s, g.(transcript := Requested(scfg, g.transcript), response := Answer(ccfg, scfg)),
                 last, d);
      PlaySplit(ccfg, scfg, y, n, 2, move);
    }
  }

  /** The whole flight read: the client is done and its own flight is on the way. */
  lemma ReadsFlight(ccfg: CM.Config, scfg: SM.Config, y: System, k: Deal, d: CM.Draw) returns (z: System)
    requires Expects(ccfg, y.client, k) && Negotiates(ccfg, scfg, y.client, k) && y.toServer == []
    requires k.psk.None? ==> Convinces(ccfg, scfg, d) && Signs(scfg)
    requires k.psk.None? && scfg.clientAuth.Some? ==> ccfg.request(scfg.request).Some?
    requires y.toClient == [Packet(Plaintext, ServerMessage(k))] + PacketsOf(Handshake, Flown(scfg, k))
    requires var (t, ending) := (AfterFinished(scfg, k), k.early && ccfg.mode.Tls?);
             CM.ResponseMessages(ccfg, Ended(t, ending), AlgIn(k), Reply(ccfg, scfg, k)).Some?
    ensures z == Play(ccfg, scfg, y, Times(3 + Between(scfg, k), ToClient(d, ROOM)))
    ensures z.client.phase.Done? && z.server == y.server && z.client.pskUsed == k.psk.Some?
    ensures z.client.early.Accepted? == k.early
    ensures var (t, ending) := (AfterFinished(scfg, k), k.early && ccfg.mode.Tls?);
            z.toServer == PacketsOf(Handshake,
              ClientFlight(ccfg, CommonSecrets(k), t, AlgIn(k), if k.psk.Some? then None else Answer(ccfg, scfg),
                           ending))
  {
    hide Reached, Play, Times, HelloTranscript, CommonSecrets, Signed, Answer, Convinces, Requested, Expects,
         Negotiates,
         PacketsOf, CM.ResponseMessages, ClientFlight, Flown, Following, ServerMessage, Covered, CM.OnServerFinished,
         Sent;
    var (move, s) := (ToClient(d, ROOM), y.server);
    FlightSplit(scfg, k);
    ReadsHello(ccfg, scfg, y, k, Flown(scfg, k), d);
    var y1 := Play(ccfg, scfg, y, Times(1, move));
    SameNegotiation(ccfg, scfg, y.client, y1.client, k);
    var rest := Flown(scfg, k)[1..];
    assert Flown(scfg, k) == [EE(scfg, k)] + rest;
    ReadsExtensions(ccfg, scfg, y1, s, k, rest, d);
    var y2 := Play(ccfg, scfg, y1, Times(1, move));
    ReadsCredentials(ccfg, scfg, y2, s, k, rest, d);
    var y3 := Play(ccfg, scfg, y2, Times(Between(scfg, k), move));
    var g := BeforeFinished(ccfg, scfg, k);
    FinishesClient(ccfg, scfg, y3, s, g, d);
    z := Advance(ccfg, scfg, y3, move);
    PlaySplit(ccfg, scfg, y, 1, 2 + Between(scfg, k), move);
    PlaySplit(ccfg, scfg, y1, 1, 1 + Between(scfg, k), move);
    PlaySplit(ccfg, scfg, y2, Between(scfg, k), 1, move);
    PlayTimes(ccfg, scfg, y3, 0, move);
    PlayTimes(ccfg, scfg, z, 0, move);
  }

  lemma SameNegotiation(ccfg: CM.Config, scfg: SM.Config, c: CM.Client, e: CM.Client, k: Deal)
    requires Negotiates(ccfg, scfg, c, k) && e.early == c.early && e.hrrDone == c.hrrDone
    ensures Negotiates(ccfg, scfg, e, k)
  {
  }

  lemma FinishesClient(ccfg: CM.Config, scfg: SM.Config, y: System, s: SM.Server, g: Stage, d: CM.Draw)
    requires g.phase.ExpectServerFinished? && Reached(y, s, g, [FinishedOf(g)] + [])
    requires var ending := g.accepted && ccfg.mode.Tls?;
             var t := Ended(Push(g.transcript, FinishedOf(g)), ending);
             CM.ResponseMessages(ccfg, t, AlgOf(g.suite), g.response).Some?
    ensures var (z, ending) := (Advance(ccfg, scfg, y, ToClient(d, ROOM)), g.accepted && ccfg.mode.Tls?);
            && z.client.phase.Done? && z.server == s && z.client.pskUsed == g.resumed
            && z.client.early.Accepted? == g.accepted
            && z.toServer == PacketsOf(Handshake,
                 ClientFlight(ccfg, g.phase.secrets, Push(g.transcript, FinishedOf(g)), AlgOf(g.suite), g.response,
                              ending))
  {
    hide Following, At, CM.OnServerFinished, Advance, PacketsOf, ClientFlight, CM.ResponseMessages, Sent;
    StageOf(y.client, g);
    ClientReadsFinished(ccfg, y.client, g);
    LastRead(ccfg, scfg, y, s, FinishedOf(g), d, CM.OnServerFinished(ccfg, y.client, FinishedOf(g), g.phase.secrets));
  }

  // -------------------------------------------------------- the server reads the answer

  /** The client's answer satisfies this server. */
  ghost predicate ClientAcceptable(ccfg: CM.Config, scfg: SM.Config, sd: SM.Draw)
  {
    && (scfg.clientAuth.Some? ==> ccfg.request(scfg.request).Some?)
    && (Answer(ccfg, scfg) == Some(CM.EmptyResponse) ==> scfg.clientAuth == Some(SM.Requested))
    && (Answer(ccfg, scfg) == Some(CM.IdentityResponse) ==>
          && ccfg.chain != 0 && sd.identityFits && scfg.schemeSupported(ccfg.scheme) && scfg.identity(ccfg.chain).Some?
          && var id := scfg.identity(ccfg.chain).value;
             && scfg.approve(id.public)
             && forall d: Digest :: ccfg.sign(d).Some? && scfg.verify(id.leaf, ccfg.scheme, d, ccfg.sign(d).value))
  }

  /** The server can issue a ticket, should it want to. */
  predicate CanIssue(scfg: SM.Config, sd: SM.Draw)
  {
    scfg.hasKeys ==> scfg.ticket(sd.nonce).Some?
  }

  /** The server reads the client's Finished it expects. */
  lemma ServerCloses(ccfg: CM.Config, scfg: SM.Config, y: System, mac: Mac, t: Transcript, suite: nat, d: SM.Draw)
    requires Waiting(y.server, SM.ExpectClientFinished(mac), t, suite) && CanIssue(scfg, d)
    requires y.toServer == PacketsOf(Handshake, [Finished(mac)] + [])
    ensures var z := Play(ccfg, scfg, y, Times(1, ToServer(d, ROOM))); z.server.phase.Done? && z.client == y.client
  {
    hide SM.OnClientFinished, Advance, PacketsOf, Waiting, Play;
    WaitingPhase(y.server, SM.ExpectClientFinished(mac), t, suite);
    ServerReadsFinished(scfg, y.server, mac, t, suite, d);
    FlightDelivered(ccfg, scfg, y, Finished(mac), [], d, SM.OnClientFinished(scfg, y.server, Finished(mac), mac, d));
    PlayTimes(ccfg, scfg, y, 0, ToServer(d, ROOM));
    PlayTimes(ccfg, scfg, Advance(ccfg, scfg, y, ToServer(d, ROOM)), 0, ToServer(d, ROOM));
  }

  /** How many messages the client's last flight holds. */
  function Closings(response: Option<CM.Response>, ending: bool): nat
  {
    (match response case None => 1 case Some(EmptyResponse) => 2 case Some(IdentityResponse) => 3)
      + (if ending then 1 else 0)
  }

  lemma PlainAnswer(ccfg: CM.Config, scfg: SM.Config, y: System, secrets: HandshakeSecrets, t: Transcript, suite: nat,
                    d: SM.Draw)
    requires CanIssue(scfg, d) && CM.ResponseMessages(ccfg, t, AlgOf(suite), None) == Some([])
    requires y.toServer == PacketsOf(Handshake, ClientFlight(ccfg, secrets, t, AlgOf(suite), None, false))
    requires Waiting(y.server, SM.ExpectClientFinished(FinishedMac(secrets.client, Digest(AlgOf(suite), t.items))), t,
                     suite)
    ensures var z := Play(ccfg, scfg, y, Times(1, ToServer(d, ROOM))); z.server.phase.Done? && z.client == y.client
  {
    hide Play, PacketsOf, Waiting, PushAll;
    NothingPushed(t);
    var mac := FinishedMac(secrets.client, Digest(AlgOf(suite), t.items));
    assert ClientFlight(ccfg, secrets, t, AlgOf(suite), None, false) == [Finished(mac)] + [];
    ServerCloses(ccfg, scfg, y, mac, t, suite, d);
  }

  lemma EndingAnswer(ccfg: CM.Config, scfg: SM.Config, y: System, secrets: HandshakeSecrets, t: Transcript, suite: nat,
                     d: SM.Draw)
    requires CanIssue(scfg, d)
    requires y.toServer == PacketsOf(Handshake, ClientFlight(ccfg, secrets, t, AlgOf(suite), None, true))
    requires Waiting(y.server, SM.ExpectEndOfEarlyData(secrets.client), t, suite)
    ensures var z := Play(ccfg, scfg, y, Times(2, ToServer(d, ROOM))); z.server.phase.Done? && z.client == y.client
  {
    hide Advance, Play, PacketsOf, Waiting, SM.OnEndOfEarlyData, PushAll;
    var (alg, m, u) := (AlgOf(suite), ToServer(d, ROOM), Push(t, EndOfEarlyData));
    NothingPushed(u);
    var mac := FinishedMac(secrets.client, Digest(alg, u.items));
    assert ClientFlight(ccfg, secrets, t, alg, None, true) == [EndOfEarlyData] + ([Finished(mac)] + []);
    WaitingPhase(y.server, SM.ExpectEndOfEarlyData(secrets.client), t, suite);
    ServerReadsEnd(scfg, y.server, secrets.client, t, suite);
    FlightDelivered(ccfg, scfg, y, EndOfEarlyData, [Finished(mac)] + [], d,
                    SM.OnEndOfEarlyData(y.server, secrets.client));
    ServerCloses(ccfg, scfg, Advance(ccfg, scfg, y, m), mac, u, suite, d);
    PlayTimes(ccfg, scfg, y, 1, m);
  }

  lemma EmptyAnswer(ccfg: CM.Config, scfg: SM.Config, y: System, secrets: HandshakeSecrets, t: Transcript, suite: nat,
                    d: SM.Draw)
    requires scfg.clientAuth == Some(SM.Requested) && CanIssue(scfg, d)
    requires y.toServer == PacketsOf(Handshake, ClientFlight(ccfg, secrets, t, AlgOf(suite), Some(CM.EmptyResponse),
                                                             false))
    requires Waiting(y.server, SM.ExpectClientCertificate(secrets.client), t, suite)
    ensures var z := Play(ccfg, scfg, y, Times(2, ToServer(d, ROOM))); z.server.phase.Done? && z.client == y.client
  {
    hide Advance, Play, PacketsOf, Waiting, SM.OnClientCertificate, PushAll;
    var (alg, m, cert) := (AlgOf(suite), ToServer(d, ROOM), Certificate(0));
    PushAllOne(t, cert);
    var u := Push(t, cert);
    var mac := FinishedMac(secrets.client, Digest(alg, u.items));
    assert ClientFlight(ccfg, secrets, t, alg, Some(CM.EmptyResponse), false) == [cert] + ([Finished(mac)] + []);
    WaitingPhase(y.server, SM.ExpectClientCertificate(secrets.client), t, suite);
    ServerReadsEmpty(scfg, y.server, secrets.client, t, suite, d);
    FlightDelivered(ccfg, scfg, y, cert, [Finished(mac)] + [], d,
                    SM.OnClientCertificate(scfg, y.server, cert, secrets.client, d));
    ServerCloses(ccfg, scfg, Advance(ccfg, scfg, y, m), mac, u, suite, d);
    PlayTimes(ccfg, scfg, y, 1, m);
  }

  lemma IdentityAnswer(ccfg: CM.Config, scfg: SM.Config, y: System, secrets: HandshakeSecrets, t: Transcript,
                       suite: nat, d: SM.Draw)
    requires ClientAcceptable(ccfg, scfg, d) && CanIssue(scfg, d) && Answer(ccfg, scfg) == Some(CM.IdentityResponse)
    requires t.selected == Some(AlgOf(suite))
    requires CM.ResponseMessages(ccfg, t, AlgOf(suite), Some(CM.IdentityResponse)).Some?
    requires y.toServer == PacketsOf(Handshake, ClientFlight(ccfg, secrets, t, AlgOf(suite), Some(CM.IdentityResponse),
                                                             false))
    requires Waiting(y.server, SM.ExpectClientCertificate(secrets.client), t, suite)
    ensures var z := Play(ccfg, scfg, y, Times(3, ToServer(d, ROOM))); z.server.phase.Done? && z.client == y.client
  {
    hide Advance, Play, PacketsOf, Waiting, SM.OnClientCertificate, SM.OnClientCertVerify, PushAll;
    var (alg, m, cert) := (AlgOf(suite), ToServer(d, ROOM), Certificate(ccfg.chain));
    var signature := ccfg.sign(Digest(alg, Push(t, cert).items)).value;
    var cv := CertificateVerify(ccfg.scheme, signature);
    TwoPushed(t, cert, cv);
    var u := Push(Push(t, cert), cv);
    var mac := FinishedMac(secrets.client, Digest(alg, u.items));
    var rest := [cv] + ([Finished(mac)] + []);
    assert ClientFlight(ccfg, secrets, t, alg, Some(CM.IdentityResponse), false) == [cert] + rest;
    WaitingPhase(y.server, SM.ExpectClientCertificate(secrets.client), t, suite);
    ServerReadsIdentity(scfg, y.server, secrets.client, t, suite, ccfg.chain, ccfg.scheme, signature, d);
    FlightDelivered(ccfg, scfg, y, cert, rest, d, SM.OnClientCertificate(scfg, y.server, cert, secrets.client, d));
    var y1 := Advance(ccfg, scfg, y, m);
    FlightDelivered(ccfg, scfg, y1, cv, [Finished(mac)] + [], d,
                    SM.OnClientCertVerify(scfg, y1.server, cv, secrets.client));
    ServerCloses(ccfg, scfg, Advance(ccfg, scfg, y1, m), mac, u, suite, d);
    PlayTimes(ccfg, scfg, y, 2, m);
    PlayTimes(ccfg, scfg, y1, 1, m);
  }

  /** The client's answer in this deal, and whether it starts by ending early data. */
  function Reply(ccfg: CM.Config, scfg: SM.Config, k: Deal): Option<CM.Response>
  {
    if k.psk.Some? then None else Answer(ccfg, scfg)
  }

  lemma AnswerExists(ccfg: CM.Config, scfg: SM.Config, k: Deal, sd: SM.Draw, t: Transcript)
    requires k.psk.None? ==> ClientAcceptable(ccfg, scfg, sd)
    requires t.selected == Some(AlgIn(k))
    ensures CM.ResponseMessages(ccfg, t, AlgIn(k), Reply(ccfg, scfg, k)).Some?
  {
  }

  lemma ServerReadsFlight(ccfg: CM.Config, scfg: SM.Config, y: System, k: Deal, d: SM.Draw)
    requires (k.psk.None? ==> Signs(scfg) && ClientAcceptable(ccfg, scfg, d)) && CanIssue(scfg, d)
    requires ccfg.mode == scfg.mode
    requires k.early ==> k.psk.Some?
    requires var (t, ending) := (AfterFinished(scfg, k), k.early && ccfg.mode.Tls?);
             && CM.ResponseMessages(ccfg, Ended(t, ending), AlgIn(k), Reply(ccfg, scfg, k)).Some?
             && y.toServer == PacketsOf(Handshake,
                  ClientFlight(ccfg, CommonSecrets(k), t, AlgIn(k), Reply(ccfg, scfg, k), ending))
    requires Waiting(y.server, Awaited(scfg, k), AfterFinished(scfg, k), k.suite)
    ensures var n := Closings(Reply(ccfg, scfg, k), k.early && ccfg.mode.Tls?);
            var z := Play(ccfg, scfg, y, Times(n, ToServer(d, ROOM)));
            z.server.phase.Done? && z.client == y.client
  {
    hide Play, PacketsOf, Waiting, PushAll, ClientFlight, CommonSecrets, AfterFinished, Times, ClientAcceptable;
    var (secrets, t) := (CommonSecrets(k), AfterFinished(scfg, k));
    WaitingPhase(y.server, Awaited(scfg, k), t, k.suite);
    if k.early && ccfg.mode.Tls? {
      EndingAnswer(ccfg, scfg, y, secrets, t, k.suite, d);
    } else {
      match Reply(ccfg, scfg, k)
      case None => PlainAnswer(ccfg, scfg, y, secrets, t, k.suite, d);
      case Some(EmptyResponse) =>
        EmptyAllowed(ccfg, scfg, d);
        EmptyAnswer(ccfg, scfg, y, secrets, t, k.suite, d);
      case Some(IdentityResponse) => IdentityAnswer(ccfg, scfg, y, secrets, t, k.suite, d);
    }
  }

  lemma EmptyAllowed(ccfg: CM.Config, scfg: SM.Config, d: SM.Draw)
    requires ClientAcceptable(ccfg, scfg, d) && Answer(ccfg, scfg) == Some(CM.EmptyResponse)
    ensures scfg.clientAuth == Some(SM.Requested)
  {
  }

  // ------------------------------------------------------------------ the whole exchange

  /** The client in flight can take the deal to its end, and so can the server. */
  ghost predicate Agreeable(ccfg: CM.Config, scfg: SM.Config, c: CM.Client, s: SM.Server, k: Deal, cd: CM.Draw,
                            sd: SM.Draw)
  {
    && ccfg.mode == scfg.mode && Serves(scfg, s, k, sd) && Expects(ccfg, c, k) && Negotiates(ccfg, scfg, c, k)
    && CanIssue(scfg, sd) && (k.psk.None? ==> Convinces(ccfg, scfg, cd) && ClientAcceptable(ccfg, scfg, sd))
  }

  function Exchanged(ccfg: CM.Config, scfg: SM.Config, k: Deal, cd: CM.Draw, sd: SM.Draw): seq<Move>
  {
    Times(1, ToServer(sd, ROOM)) + Times(3 + Between(scfg, k), ToClient(cd, ROOM))
    + Times(Closings(Reply(ccfg, scfg, k), k.early && ccfg.mode.Tls?), ToServer(sd, ROOM))
  }

  lemma AfterSelected(scfg: SM.Config, k: Deal, ending: bool)
    requires k.psk.None? ==> Signs(scfg)
    ensures Ended(AfterFinished(scfg, k), ending).selected == Some(AlgIn(k))
  {
  }

  lemma GrantNeedsPsk(scfg: SM.Config, s: SM.Server, k: Deal, sd: SM.Draw)
    requires Serves(scfg, s, k, sd)
    ensures k.early ==> k.psk.Some?
    ensures k.psk.None? ==> Signs(scfg)
    ensures s.phase.ExpectClientHello?
  {
  }

  /** A hello on its way between agreeable peers: both sides end done, the client having used
      the PSK and early data exactly as the server accepted them. */
  lemma ExchangeCompletes(ccfg: CM.Config, scfg: SM.Config, y: System, k: Deal, cd: CM.Draw, sd: SM.Draw)
    requires Agreeable(ccfg, scfg, y.client, y.server, k, cd, sd)
    requires y.toServer == [Packet(Plaintext, ClientHello(k.hello))] && y.toClient == []
    ensures var z := Play(ccfg, scfg, y, Exchanged(ccfg, scfg, k, cd, sd));
            && z.client.phase.Done? && z.server.phase.Done?
            && z.client.pskUsed == k.psk.Some? && z.client.early.Accepted? == k.early
  {
    hide Play, Advance, PacketsOf, Serves, Expects, Negotiates, Convinces, ClientAcceptable, Flown, AfterFinished,
         Awaited,
         CommonSecrets, Waiting, Times, SM.OnClientHello, Sent, CM.ResponseMessages, ClientFlight, ServerMessage,
         CanIssue;
    var (up, down) := (ToServer(sd, ROOM), ToClient(cd, ROOM));
    var ending := k.early && ccfg.mode.Tls?;
    var (a, b, c) := (Times(1, up), Times(3 + Between(scfg, k), down),
                      Times(Closings(Reply(ccfg, scfg, k), ending), up));
    GrantNeedsPsk(scfg, y.server, k, sd);
    ServerReadsHello(scfg, y.server, k, sd);
    var none: seq<Packet> := [];
    var p := Packet(Plaintext, ClientHello(k.hello));
    assert [p] + none == [p];
    DeliveredToServer(ccfg, scfg, y, p, none, sd, SM.OnClientHello(scfg, y.server, k.hello, sd));
    var y1 := Advance(ccfg, scfg, y, up);
    PlayTimes(ccfg, scfg, y, 0, up);
    PlayTimes(ccfg, scfg, y1, 0, up);
    var sent := Sent(SM.OnClientHello(scfg, y.server, k.hello, sd).events);
    assert none + sent == sent;
    AfterSelected(scfg, k, ending);
    AnswerExists(ccfg, scfg, k, sd, Ended(AfterFinished(scfg, k), ending));
    RequestIsRead(ccfg, scfg, k, sd);
    var y2 := ReadsFlight(ccfg, scfg, y1, k, cd);
    ServerReadsFlight(ccfg, scfg, y2, k, sd);
    PlayAppend(ccfg, scfg, y, a, b);
    PlayAppend(ccfg, scfg, y, a + b, c);
  }

  lemma RequestIsRead(ccfg: CM.Config, scfg: SM.Config, k: Deal, sd: SM.Draw)
    requires k.psk.None? ==> ClientAcceptable(ccfg, scfg, sd)
    ensures k.psk.None? && scfg.clientAuth.Some? ==> ccfg.request(scfg.request).Some?
  {
  }
}
