/** The server's handshake as a state machine on values. */
module ServerMachine {
  import opened Bytes
  import opened Symbols

  const MAX_TICKET_AGE_SKEW_MS: nat := 10000
  const TICKET_LIFETIME_MS: nat := 7200000
  const WORD: nat := 0x1_0000_0000

  datatype Auth = Requested | Required

  datatype Kx = Kx(selected: Option<Share>, retryGroup: Group, shareCount: nat)

  datatype TicketData = TicketData(psk: nat, issuedAt: nat, suite: nat, ageAdd: nat, maxEarly: Option<nat>,
                                   alpnMatches: bool)

  datatype Leaf = Leaf(kind: nat, key: nat)

  datatype Identity = Identity(leaf: Leaf, public: nat)

  /** A server's configuration, and the code it calls into. */
  datatype Config = Config(
    mode: Mode, hasKeys: bool, clientAuth: Option<Auth>, chain: nat, scheme: nat, acceptsEarly: bool,
    parse: Hello -> Option<Kx>,
    checks: Hello -> bool,
    fingerprint: Hello -> Option<nat>,
    alpn: Hello -> Option<Option<nat>>,
    quic: Hello -> Option<nat>,
    open: (nat, Option<nat>) -> Option<TicketData>,
    certificates: Hello -> Option<nat>,
    extensions: (Hello, Option<nat>, bool) -> nat,
    request: nat,
    sign: Digest -> Option<nat>,
    identity: nat -> Option<Identity>,
    schemeSupported: nat -> bool,
    verify: (Leaf, nat, Digest, nat) -> bool,
    approve: nat -> bool,
    ticket: nat -> Option<nat>,
    keyUpdate: nat -> Option<nat>)

  datatype Draw = Draw(now: nat, random: nat, key: Option<nat>, registered: bool, identityFits: bool, nonce: nat)

  // ---------------------------------------------------------------- early data

  datatype Window = Window(enabled: bool, remaining: Option<nat>, maximum: Option<nat>)

  datatype Accepted = Accepted(data: TicketData, age: nat, binder: Binder)

  function ClaimedAge(a: Accepted): nat
  {
    if a.age % WORD >= a.data.ageAdd % WORD then a.age % WORD - a.data.ageAdd % WORD
    else a.age % WORD + WORD - a.data.ageAdd % WORD
  }

  function Difference(a: nat, b: nat): nat
  {
    if a >= b then a - b else b - a
  }

  /** The limit of a ticket whose early data may be taken now. */
  function Grant(cfg: Config, offered: bool, psk: Option<Accepted>, suite: nat, d: Draw): Option<nat>
  {
    match psk
    case None => None
    case Some(a) =>
      if !cfg.acceptsEarly || !offered || a.data.maxEarly.None? || !a.data.alpnMatches
         || a.data.suite != suite then None
      else if d.now < a.data.issuedAt || d.now - a.data.issuedAt > TICKET_LIFETIME_MS then None
      else if Difference(d.now - a.data.issuedAt, ClaimedAge(a)) > MAX_TICKET_AGE_SKEW_MS || !d.registered then None
      else a.data.maxEarly
  }

  /** `EarlyData::admit`. */
  function Admit(cfg: Config, offered: bool, psk: Option<Accepted>, suite: nat, d: Draw): Window
  {
    var limit := Grant(cfg, offered, psk, suite, d);
    Window(cfg.acceptsEarly, limit, limit)
  }

  function Close(w: Window): Window
  {
    w.(remaining := None, maximum := None)
  }

  /** `EarlyData::charge`: none when the window is closed or the limit would be passed. */
  function Charge(w: Window, mode: Mode, len: nat): Option<Window>
  {
    match w.remaining
    case None => None
    case Some(left) =>
      if mode.Quic? then Some(w)
      else if len >= WORD || len > left then None
      else Some(w.(remaining := Some(left - len)))
  }

  // ------------------------------------------------------------------- the state

  datatype Phase =
    | ExpectClientHello
    | ExpectEndOfEarlyData(clientTraffic: Secret)
    | ExpectClientCertificate(clientTraffic: Secret)
    | ExpectClientCertVerify(clientTraffic: Secret)
    | ExpectClientFinished(verifyData: Mac)
    | Done
    | Failed

  datatype Pin = Pin(fingerprint: nat, group: Group)

  datatype Server = Server(
    phase: Phase, transcript: Transcript, hrrDone: bool, pin: Option<Pin>, alpn: Option<nat>, early: Window,
    traffic: Traffic, master: Option<Term>, exporter: Option<Secret>, identity: Option<Message>)

  function Fresh(): Server
  {
    Server(ExpectClientHello, EMPTY, false, None, None, Window(false, None, None), NoSuite, None, None, None)
  }

  datatype Outcome = Next(server: Server, events: seq<Event>) | Fail(events: seq<Event>)

  function PickSuite(suites: seq<nat>): Option<nat>
  {
    if SUITES[0] in suites then Some(SUITES[0])
    else if SUITES[1] in suites then Some(SUITES[1])
    else if SUITES[2] in suites then Some(SUITES[2]) else None
  }

  /** `ClientHelloInvariant::validate`. */
  predicate KeepsPin(cfg: Config, pin: Pin, h: Hello, kx: Kx)
  {
    && !h.early && kx.shareCount == 1 && kx.selected.Some? && kx.selected.value.group == pin.group
    && cfg.fingerprint(h) == Some(pin.fingerprint)
  }

  // --------------------------------------------------------------- client hello

  /** `handle_client_hello`. */
  function OnClientHello(cfg: Config, s: Server, h: Hello, d: Draw): Outcome
  {
    match (cfg.parse(h), PickSuite(h.suites))
    case (Some(kx), Some(suite)) =>
      if h.version != TLS_1_2 || (s.pin.Some? && !KeepsPin(cfg, s.pin.value, h, kx)) then Fail([])
      else
        (match (Select(s.transcript, AlgOf(suite)), SelectSuite(s.traffic, suite))
         case (Some(t), Some(traffic)) =>
           if !h.compression || (cfg.mode.Quic? && h.session != 0) || !cfg.checks(h) then Fail([])
           else Negotiate(cfg, s.(transcript := t, traffic := traffic), h, suite, kx, d)
         case _ => Fail([]))
    case _ => Fail([])
  }

  function Negotiate(cfg: Config, s: Server, h: Hello, suite: nat, kx: Kx, d: Draw): Outcome
  {
    match kx.selected
    case None => if s.hrrDone then Fail([]) else AskRetry(cfg, s, h, suite, kx.retryGroup)
    case Some(share) => Accept(cfg, s, h, suite, share, d)
  }

  function RetryMessage(h: Hello, suite: nat, group: Group): Message
  {
    ServerHello(TLS_1_2, RetryRandom, h.session, suite, 0, [Versions(Some(TLS_1_3)), KeyShare(None, Some(group))])
  }

  /** `send_hello_retry_request`. */
  function AskRetry(cfg: Config, s: Server, h: Hello, suite: nat, group: Group): Outcome
  {
    match (cfg.fingerprint(h), Hash(Push(s.transcript, ClientHello(h)), AlgOf(suite)))
    case (Some(fingerprint), Some(h1)) =>
      var m := RetryMessage(h, suite, group);
      Next(s.(transcript := Push(Restarted(AlgOf(suite), h1), m), hrrDone := true,
              pin := Some(Pin(fingerprint, group))),
           [Send(Plaintext, [m])])
    case _ => Fail([])
  }

  datatype Psk = NoPsk | BadPsk | GoodPsk(accepted: Accepted)

  predicate Resumable(issuedAt: nat, now: nat)
  {
    issuedAt <= now + MAX_TICKET_AGE_SKEW_MS && (now <= issuedAt || now - issuedAt <= TICKET_LIFETIME_MS)
  }

  /** `try_accept_psk`: a ticket that does not open is ignored, a wrong binder is fatal. */
  function TryPsk(cfg: Config, s: Server, h: Hello, alg: Alg, alpn: Option<nat>, now: nat): Psk
  {
    if alg != Sha256 || h.psk.None? || !cfg.hasKeys then NoPsk
    else
      var o := h.psk.value;
      match cfg.open(o.identity, alpn)
      case None => NoPsk
      case Some(data) =>
        if !Resumable(data.issuedAt, now) then NoPsk
        else
          match BinderHash(s.transcript, h)
          case None => BadPsk
          case Some(b) => if o.binder != Binder(data.psk, b) then BadPsk else GoodPsk(Accepted(data, o.age, o.binder))
  }

  function AcceptedOf(p: Psk): Option<Accepted>
  {
    match p case GoodPsk(a) => Some(a) case _ => None
  }

  function HelloMessage(h: Hello, suite: nat, share: Share, random: nat, resumed: bool): Message
  {
    ServerHello(TLS_1_2, Ordinary(random), h.session, suite, 0,
                [Versions(Some(TLS_1_3)), KeyShare(Some(share), None)]
                  + (if resumed then [SelectedPsk(Some(0))] else []))
  }

  function EarlyEvents(psk: Option<Accepted>, admitted: bool, t: Transcript): seq<Event>
  {
    if admitted && psk.Some?
    then [ZeroRttKeys(Derived(Early(Sha256, Some(psk.value.data.psk)), ClientEarly, Digest(Sha256, t.items)))]
    else []
  }

  function QuicEvents(quic: Option<nat>): seq<Event>
  {
    match quic case None => [] case Some(data) => [PeerExtension(data)]
  }

  function Accept(cfg: Config, s: Server, h: Hello, suite: nat, share: Share, d: Draw): Outcome
  {
    match cfg.alpn(h)
    case None => Fail([])
    case Some(alpn) =>
      var opening := QuicEvents(cfg.quic(h));
      var tried := TryPsk(cfg, s, h, AlgOf(suite), alpn, d.now);
      var psk := AcceptedOf(tried);
      var window := Admit(cfg, h.early, psk, suite, d);
      var t := Push(s.transcript, ClientHello(h));
      var events := opening + EarlyEvents(psk, window.remaining.Some?, t);
      if tried.BadPsk? then Fail(opening)
      else if d.key.None? then Fail(events)
      else Reply(cfg, s.(transcript := t, alpn := alpn, early := window), h, suite, share,
                 Share(share.group, d.key.value), psk, d, events)
  }

  /** The ServerHello, and the handshake secrets it settles. */
  function Reply(cfg: Config, s: Server, h: Hello, suite: nat, theirs: Share, ours: Share, psk: Option<Accepted>,
                 d: Draw,
                 events: seq<Event>): Outcome
  {
    var m := HelloMessage(h, suite, ours, d.random, psk.Some?);
    var t := Push(s.transcript, m);
    match Hash(t, AlgOf(suite))
    case None => Fail(events + [Send(Plaintext, [m])])
    case Some(hash) =>
      var early := Early(AlgOf(suite), match psk case None => None case Some(a) => Some(a.data.psk));
      var secrets := SecretsFor(Mixed(early, Shared(ours.group, theirs.key, ours.key)), hash);
      Flight(cfg, s.(transcript := t), h, suite, psk.Some?, secrets,
             events + [Send(Plaintext, [m]), KeysReady(Handshake, secrets.client, secrets.server)])
  }

  /** CertificateRequest, Certificate and CertificateVerify, unless resuming. */
  function Credentials(cfg: Config, t: Transcript, alg: Alg, resumed: bool): Option<seq<Message>>
  {
    if resumed then Some([])
    else
      var opening := if cfg.clientAuth.Some? then [CertificateRequest(cfg.request)] else [];
      match Hash(Push(PushAll(t, opening), Certificate(cfg.chain)), alg)
      case None => None
      case Some(hash) =>
        match cfg.sign(hash)
        case None => None
        case Some(signature) => Some(opening + [Certificate(cfg.chain), CertificateVerify(cfg.scheme, signature)])
  }

  /** EncryptedExtensions to Finished, then the application secrets. */
  function Flight(cfg: Config, s: Server, h: Hello, suite: nat, resumed: bool, secrets: HandshakeSecrets,
                  events: seq<Event>): Outcome
  {
    var alg := AlgOf(suite);
    match cfg.certificates(h)
    case None => Fail(events)
    case Some(_) =>
      var ee := EncryptedExtensions(cfg.extensions(h, s.alpn, s.early.remaining.Some?));
      var t := Push(s.transcript, ee);
      match Credentials(cfg, t, alg, resumed)
      case None => Fail(events)
      case Some(messages) =>
        var u := PushAll(t, messages);
        match Hash(u, alg)
        case None => Fail(events)
        case Some(before) =>
          var finished := Finished(FinishedMac(secrets.server, before));
          Ready(cfg, s.(transcript := Push(u, finished)), suite, resumed, secrets,
                events + [Send(Handshake, [ee] + messages + [finished])])
  }

  function ActiveTraffic(suite: nat, master: Term, h: Digest): Traffic
  {
    Active(suite, Derived(master, ClientTraffic, h), Derived(master, ServerTraffic, h))
  }

  /** What the server waits for once its flight is out. */
  function NextPhase(cfg: Config, s: Server, resumed: bool, secrets: HandshakeSecrets, h: Digest): Phase
  {
    if s.early.remaining.Some? && cfg.mode.Tls? then ExpectEndOfEarlyData(secrets.client)
    else if !resumed && cfg.clientAuth.Some? then ExpectClientCertificate(secrets.client)
    else ExpectClientFinished(FinishedMac(secrets.client, h))
  }

  function Ready(cfg: Config, s: Server, suite: nat, resumed: bool, secrets: HandshakeSecrets,
                 events: seq<Event>): Outcome
  {
    match Hash(s.transcript, AlgOf(suite))
    case None => Fail(events)
    case Some(h) =>
      var master := Master(secrets.schedule);
      var traffic := ActiveTraffic(suite, master, h);
      if !s.traffic.Selected? then Fail(events)
      else
        Next(s.(traffic := traffic, master := Some(master), exporter := Some(Derived(master, Exporter, h)),
                phase := NextPhase(cfg, s, resumed, secrets, h)),
             events + [KeysReady(Application, traffic.client, traffic.server)])
  }

  // ------------------------------------------------------------- client's flight

  function AwaitFinished(s: Server, clientTraffic: Secret): Outcome
  {
    if s.traffic.NoSuite? then Fail([])
    else
      match Hash(s.transcript, AlgOf(s.traffic.suite))
      case None => Fail([])
      case Some(h) => Next(s.(phase := ExpectClientFinished(FinishedMac(clientTraffic, h))), [])
  }

  /** `handle_end_of_early_data`. */
  function OnEndOfEarlyData(s: Server, clientTraffic: Secret): Outcome
  {
    AwaitFinished(s.(early := Close(s.early), transcript := Push(s.transcript, EndOfEarlyData)), clientTraffic)
  }

  /** `handle_client_certificate`: the message waits in the identity buffer. */
  function OnClientCertificate(cfg: Config, s: Server, m: Message, clientTraffic: Secret, d: Draw): Outcome
    requires m.Certificate?
  {
    var t := Push(s.transcript, m);
    if m.chain == 0 then
      if cfg.clientAuth == Some(Required) then Fail([]) else AwaitFinished(s.(transcript := t), clientTraffic)
    else if cfg.identity(m.chain).None? || !d.identityFits then Fail([])
    else Next(s.(transcript := t, identity := Some(m), phase := ExpectClientCertVerify(clientTraffic)), [])
  }

  function StoredIdentity(cfg: Config, s: Server): Option<Identity>
  {
    match s.identity
    case None => None
    case Some(m) => if m.Certificate? then cfg.identity(m.chain) else None
  }

  /** `handle_client_cert_verify`. */
  function OnClientCertVerify(cfg: Config, s: Server, m: Message, clientTraffic: Secret): Outcome
    requires m.CertificateVerify?
  {
    if !cfg.schemeSupported(m.scheme) || s.traffic.NoSuite? then Fail([])
    else
      match (Hash(s.transcript, AlgOf(s.traffic.suite)), StoredIdentity(cfg, s))
      case (Some(h), Some(presented)) =>
        if !cfg.verify(presented.leaf, m.scheme, h, m.signature) || cfg.clientAuth.None?
           || !cfg.approve(presented.public) then Fail([])
        else AwaitFinished(s.(identity := None, transcript := Push(s.transcript, m)), clientTraffic)
      case _ => Fail([])
  }

  function TermAlg(t: Term): Alg
  {
    match t case Early(alg, _) => alg case Mixed(early, _) => TermAlg(early) case Master(mixed) => TermAlg(mixed)
  }

  /** The resumption secret a ticket is made from. */
  function ResumptionSecret(s: Server): Option<Secret>
  {
    match s.master
    case None => None
    case Some(m) => Some(Derived(m, Resumption, Digest(TermAlg(m), s.transcript.items)))
  }

  /** `handle_client_finished`: Done, then a ticket when one can be made. */
  function OnClientFinished(cfg: Config, s: Server, m: Message, verifyData: Mac, d: Draw): Outcome
    requires m.Finished?
  {
    if m.mac != verifyData then Fail([])
    else
      var done := s.(early := Close(s.early), transcript := Push(s.transcript, m), phase := Done);
      if s.master.None? || TermAlg(s.master.value) != Sha256 || !cfg.hasKeys then Next(done, [HandshakeDone])
      else
        match cfg.ticket(d.nonce)
        case None => Fail([HandshakeDone])
        case Some(content) => Next(done, [HandshakeDone, Send(Application, [NewSessionTicket(content)])])
  }

  // ------------------------------------------------------------------ dispatch

  /** `Drive::process`: the phase decides which message is next, and in which epoch. */
  function Dispatch(cfg: Config, s: Server, epoch: Epoch, m: Message, d: Draw): Outcome
  {
    match (s.phase, m)
    case (ExpectClientHello, ClientHello(h)) => if epoch.Plaintext? then OnClientHello(cfg, s, h, d) else Fail([])
    case (ExpectEndOfEarlyData(secret), EndOfEarlyData) =>
      if epoch.Handshake? then OnEndOfEarlyData(s, secret) else Fail([])
    case (ExpectClientCertificate(secret), Certificate(_)) =>
      if epoch.Handshake? then OnClientCertificate(cfg, s, m, secret, d) else Fail([])
    case (ExpectClientCertVerify(secret), CertificateVerify(_, _)) =>
      if epoch.Handshake? then OnClientCertVerify(cfg, s, m, secret) else Fail([])
    case (ExpectClientFinished(verifyData), Finished(_)) =>
      if epoch.Handshake? then OnClientFinished(cfg, s, m, verifyData, d) else Fail([])
    case (Done, KeyUpdate(n)) =>
      if epoch.Application? then
        (match cfg.keyUpdate(n) case None => Fail([]) case Some(e) => Next(s, [PostHandshake(e)]))
      else Fail([])
    case _ => Fail([])
  }

  /** `Session::poison`. */
  function Poison(s: Server): Server
  {
    s.(phase := Failed, traffic := NoSuite, master := None, exporter := None, early := Close(s.early), identity := None)
  }

  datatype Input = Read(epoch: Epoch, message: Option<Message>, draw: Draw) | NoteEarlyData(len: nat)

  function Handle(cfg: Config, s: Server, input: Input): Outcome
  {
    match input
    case Read(_, None, _) => Fail([])
    case Read(epoch, Some(m), d) => Dispatch(cfg, s, epoch, m, d)
    case NoteEarlyData(len) =>
      match Charge(s.early, cfg.mode, len) case None => Fail([]) case Some(w) => Next(s.(early := w), [])
  }

  /** One call: a sink with room for `room` more events may stop it, and any error poisons. */
  function Step(cfg: Config, s: Server, input: Input, room: nat): (Server, seq<Event>)
  {
    if s.phase.Failed? then (s, [])
    else
      match Handle(cfg, s, input)
      case Fail(events) => (Poison(s), if |events| <= room then events else events[..room])
      case Next(next, events) => if |events| <= room then (next, events) else (Poison(s), events[..room])
  }
}
