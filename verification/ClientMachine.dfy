/** The client's handshake as a state machine on values. */
module ClientMachine {
  import opened Bytes
  import opened Symbols

  datatype Leaf = Leaf(kind: nat, key: nat)

  /** Who the server must be: a pinned Ed25519 key, or a chain to a trusted root. */
  datatype Verifier = Pinned(key: nat) | Store

  datatype Negotiated = Negotiated(quic: Option<nat>, alpn: Option<nat>, early: bool)

  datatype EarlyOffer = EarlyOffer(suite: nat, alpn: Option<nat>)

  datatype Ticket = Ticket(identity: nat, psk: nat, early: Option<EarlyOffer>, receivedAt: nat, lifetime: nat,
                           ageAdd: nat)

  /** A client's configuration, and the code it calls into. */
  datatype Config = Config(
    mode: Mode, verifier: Verifier, suites: seq<nat>, enableEarly: bool, hasIdentity: bool,
    chain: nat, scheme: nat, rest: nat,
    pinnedKey: nat -> Option<nat>,
    validate: (nat, nat) -> Option<Leaf>,
    verify: (Leaf, nat, Digest, nat) -> bool,
    schemeOffered: nat -> bool,
    negotiate: (nat, bool) -> Option<Negotiated>,
    request: nat -> Option<bool>,
    agrees: Share -> bool,
    sign: Digest -> Option<nat>,
    postHandshake: Message -> Option<nat>)

  /** What one call draws from its surroundings: the clock, random values, a fresh key. */
  datatype Draw = Draw(now: nat, random: nat, session: nat, key: Option<nat>, leafFits: bool)

  datatype Place = PinnedLeaf | FlightLeaf(kind: nat)

  datatype Phase =
    | Initial
    | ExpectServerHello
    | ExpectEncryptedExtensions(secrets: HandshakeSecrets)
    | ExpectCertificate(secrets: HandshakeSecrets)
    | ExpectCertificateVerify(secrets: HandshakeSecrets, place: Place)
    | ExpectServerFinished(secrets: HandshakeSecrets)
    | Done
    | Failed

  datatype EarlyState = NotOffered | Offered(offer: EarlyOffer) | Accepted

  datatype Response = EmptyResponse | IdentityResponse

  datatype Client = Client(
    phase: Phase, transcript: Transcript, random: nat, session: nat, hrrDone: bool,
    resumption: Option<Ticket>, pskUsed: bool,
    pending: Option<Share>, group: Group, early: EarlyState, alpn: Option<nat>, response: Option<Response>,
    traffic: Traffic, resumptionMaster: Option<Secret>, exporter: Option<Secret>, flight: Option<nat>)

  function Fresh(ticket: Option<Ticket>): Client
  {
    Client(Initial, EMPTY, 0, 0, false, ticket, false, None, 0x1d, NotOffered, None, None, NoSuite, None, None, None)
  }

  datatype Outcome = Next(client: Client, events: seq<Event>) | Fail(events: seq<Event>)

  const WORD: nat := 0x1_0000_0000

  function Age(t: Ticket, now: nat): Option<nat>
  {
    if now < t.receivedAt || now - t.receivedAt > t.lifetime || now - t.receivedAt >= WORD then None
    else Some((now - t.receivedAt + t.ageAdd) % WORD)
  }

  /** Keep a ticket only while it has an age. */
  function Aged(ticket: Option<Ticket>, now: nat): Option<(Ticket, nat)>
  {
    match ticket
    case None => None
    case Some(t) => match Age(t, now) case None => None case Some(age) => Some((t, age))
  }

  function TicketOf(offer: Option<(Ticket, nat)>): Option<Ticket>
  {
    match offer case None => None case Some((t, _)) => Some(t)
  }

  // -------------------------------------------------------------------- hellos

  function PlainHello(cfg: Config, c: Client, share: Share, cookie: Option<nat>, early: bool,
                      offer: Option<(Ticket, nat)>): Hello
  {
    Hello(TLS_1_2, c.random, if cfg.mode.Tls? then c.session else 0, cfg.suites, true, [share], cookie, early,
          match offer case None => None case Some((t, age)) => Some(Offer(t.identity, age, Blank)), cfg.rest)
  }

  /** The hello with its binder spliced in; none when the binder's hash is not running. */
  function BoundHello(t: Transcript, h: Hello, offer: Option<(Ticket, nat)>): Option<Hello>
  {
    match (offer, h.psk)
    case (Some((ticket, _)), Some(o)) =>
      (match BinderHash(t, h)
       case None => None
       case Some(d) => Some(h.(psk := Some(o.(binder := Binder(ticket.psk, d))))))
    case _ => Some(h)
  }

  predicate SomeSha256(suites: seq<nat>)
  {
    exists i :: 0 <= i < |suites| && AlgOf(suites[i]) == Sha256
  }

  function EarlyFor(cfg: Config, offer: Option<(Ticket, nat)>): Option<EarlyOffer>
  {
    match offer
    case None => None
    case Some((t, _)) =>
      match t.early
      case None => None
      case Some(e) => if cfg.enableEarly && e.suite in cfg.suites then Some(e) else None
  }

  function EarlyEvents(early: Option<EarlyOffer>, offer: Option<(Ticket, nat)>, t: Transcript): seq<Event>
  {
    match (early, offer)
    case (Some(_), Some((ticket, _))) =>
      [ZeroRttKeys(Derived(Early(Sha256, Some(ticket.psk)), ClientEarly, Digest(Sha256, t.items)))]
    case _ => []
  }

  /** `Drive::start`. */
  function Start(cfg: Config, c: Client, d: Draw): Outcome
  {
    Launch(cfg, c.(random := d.random, session := d.session), d)
  }

  /** The rest of it, once the random values are drawn. */
  function Launch(cfg: Config, c: Client, d: Draw): Outcome
  {
    var offer := Aged(if SomeSha256(cfg.suites) then c.resumption else None, d.now);
    var early := EarlyFor(cfg, offer);
    match d.key
    case None => Fail([])
    case Some(key) =>
      var share := Share(c.group, key);
      match BoundHello(c.transcript, PlainHello(cfg, c, share, None, early.Some?, offer), offer)
      case None => Fail([])
      case Some(hello) =>
        var t := Push(c.transcript, ClientHello(hello));
        Next(c.(phase := ExpectServerHello, transcript := t, resumption := TicketOf(offer), pending := Some(share),
                early := match early case None => NotOffered case Some(e) => Offered(e)),
             [Send(Plaintext, [ClientHello(hello)])] + EarlyEvents(early, offer, t))
  }

  // -------------------------------------------------------------- server hello

  function FindVersions(exts: seq<Extension>, i: nat): Option<Extension>
    requires i <= |exts|
    decreases |exts| - i
  {
    if i == |exts| then None else if exts[i].Versions? then Some(exts[i]) else FindVersions(exts, i + 1)
  }

  function FindShare(exts: seq<Extension>, i: nat): Option<Extension>
    requires i <= |exts|
    decreases |exts| - i
  {
    if i == |exts| then None else if exts[i].KeyShare? then Some(exts[i]) else FindShare(exts, i + 1)
  }

  function FindPsk(exts: seq<Extension>, i: nat): Option<Extension>
    requires i <= |exts|
    decreases |exts| - i
  {
    if i == |exts| then None else if exts[i].SelectedPsk? then Some(exts[i]) else FindPsk(exts, i + 1)
  }

  predicate OnlyHelloExtensions(exts: seq<Extension>)
  {
    forall i :: 0 <= i < |exts| ==> exts[i].Versions? || exts[i].KeyShare? || exts[i].SelectedPsk?
  }

  /** The server share of an acceptable extension list. */
  function ServerShare(exts: seq<Extension>): Option<Share>
  {
    if FindVersions(exts, 0) != Some(Versions(Some(TLS_1_3))) then None
    else
      match FindShare(exts, 0)
      case None => None
      case Some(e) => if e.KeyShare? && OnlyHelloExtensions(exts) then e.share else None
  }

  /** Whether a PSK was selected; none when the selection is not one the client can honour. */
  function PskChoice(c: Client, alg: Alg, exts: seq<Extension>): Option<bool>
  {
    match FindPsk(exts, 0)
    case None => Some(false)
    case Some(e) =>
      if c.resumption.None? || alg != Sha256 || e != SelectedPsk(Some(0)) then None else Some(true)
  }

  /** The checks common to a hello and a retry request, and the suite they leave selected. */
  function Selecting(cfg: Config, c: Client, m: Message): Option<Client>
    requires m.ServerHello?
  {
    if m.version != TLS_1_2 || m.compression != 0 || m.session != (if cfg.mode.Tls? then c.session else 0) then None
    else if m.suite !in SUITES || m.suite !in cfg.suites then None
    else
      match (Select(c.transcript, AlgOf(m.suite)), SelectSuite(c.traffic, m.suite))
      case (Some(t), Some(traffic)) => Some(c.(transcript := t, traffic := traffic))
      case _ => None
  }

  /** `handle_server_hello`. */
  function OnServerHello(cfg: Config, c: Client, m: Message, d: Draw): Outcome
    requires m.ServerHello?
  {
    match Selecting(cfg, c, m)
    case None => Fail([])
    case Some(chosen) =>
      if m.random == RetryRandom then OnRetry(cfg, chosen, m, d)
      else if m.random == DowngradeRandom then Fail([])
      else
        match (ServerShare(m.extensions), PskChoice(c, AlgOf(m.suite), m.extensions))
        case (Some(share), Some(psk)) => Agree(cfg, chosen, m, share, psk)
        case _ => Fail([])
  }

  function Agree(cfg: Config, c: Client, m: Message, share: Share, psk: bool): Outcome
    requires m.ServerHello?
  {
    var t := Push(c.transcript, m);
    if c.pending.None? || c.pending.value.group != share.group || !cfg.agrees(share) then Fail([])
    else
      var dhe := Shared(share.group, c.pending.value.key, share.key);
      match Hash(t, AlgOf(m.suite))
      case None => Fail([])
      case Some(h) =>
        if psk && c.resumption.None? then Fail([])
        else
          var early := Early(AlgOf(m.suite), if psk then Some(c.resumption.value.psk) else None);
          var secrets := SecretsFor(Mixed(early, dhe), h);
          Next(c.(phase := ExpectEncryptedExtensions(secrets), transcript := t, pskUsed := psk, pending := None,
                  resumption := None),
               [KeysReady(Handshake, secrets.server, secrets.client)])
  }

  // ------------------------------------------------------- hello retry request

  datatype Retry = Retry(versions: bool, group: Option<Group>, cookie: Option<nat>)

  function ScanRetry(exts: seq<Extension>, i: nat, acc: Retry): Option<Retry>
    requires i <= |exts|
    decreases |exts| - i
  {
    if i == |exts| then Some(acc)
    else
      match exts[i]
      case Versions(v) => if v != Some(TLS_1_3) then None else ScanRetry(exts, i + 1, acc.(versions := true))
      case KeyShare(_, retry) => if retry.None? then None else ScanRetry(exts, i + 1, acc.(group := retry))
      case Cookie(c) => if c.None? then None else ScanRetry(exts, i + 1, acc.(cookie := c))
      case _ => None
  }

  /** The group a valid retry request asks for, and its cookie. */
  function RetryRequest(c: Client, exts: seq<Extension>): Option<(Group, Option<nat>)>
  {
    match ScanRetry(exts, 0, Retry(false, None, None))
    case None => None
    case Some(r) =>
      if !r.versions || r.group.None? || r.group.value !in GROUPS then None
      else if c.pending.Some? && c.pending.value.group == r.group.value then None
      else Some((r.group.value, r.cookie))
  }

  function OnRetry(cfg: Config, c: Client, m: Message, d: Draw): Outcome
    requires m.ServerHello?
  {
    if c.hrrDone then Fail([])
    else
      match (RetryRequest(c, m.extensions), Hash(c.transcript, AlgOf(m.suite)))
      case (Some((group, cookie)), Some(h1)) =>
        AnswerRetry(cfg, c.(transcript := Push(Restarted(AlgOf(m.suite), h1), m)), group, cookie, d)
      case _ => Fail([])
  }

  /** `finish_hello_retry_request`. */
  function AnswerRetry(cfg: Config, c: Client, group: Group, cookie: Option<nat>, d: Draw): Outcome
  {
    var offer := Aged(c.resumption, d.now);
    match d.key
    case None => Fail([])
    case Some(key) =>
      var share := Share(group, key);
      match BoundHello(c.transcript, PlainHello(cfg, c, share, cookie, false, offer), offer)
      case None => Fail([])
      case Some(hello) =>
        Next(c.(phase := ExpectServerHello, group := group, transcript := Push(c.transcript, ClientHello(hello)),
                resumption := TicketOf(offer), pending := Some(share), hrrDone := true),
             [Send(Plaintext, [ClientHello(hello)])])
  }

  // ------------------------------------------------------ encrypted extensions

  function EarlyReply(c: Client, n: Negotiated): Option<(EarlyState, seq<Event>)>
  {
    match c.early
    case Offered(offer) =>
      if !n.early then Some((NotOffered, [EarlyDataRejected]))
      else if c.hrrDone || !c.pskUsed || c.traffic.NoSuite? || c.traffic.suite != offer.suite
              || n.alpn != offer.alpn then None
      else Some((Accepted, [EarlyDataAccepted]))
    case _ => if n.early then None else Some((c.early, []))
  }

  /** `handle_encrypted_extensions`. */
  function OnEncryptedExtensions(cfg: Config, c: Client, m: Message, secrets: HandshakeSecrets): Outcome
    requires m.EncryptedExtensions?
  {
    match cfg.negotiate(m.content, c.early.Offered? && !c.hrrDone)
    case None => Fail([])
    case Some(n) =>
      match EarlyReply(c, n)
      case None => Fail([])
      case Some((early, events)) =>
        var next := if c.pskUsed then ExpectServerFinished(secrets) else ExpectCertificate(secrets);
        Next(c.(phase := next, alpn := n.alpn, early := early, transcript := Push(c.transcript, m)),
             (match n.quic case None => [] case Some(data) => [PeerExtension(data)]) + events)
  }

  // ------------------------------------------------------------ authentication

  /** `handle_certificate_request`. */
  function OnCertificateRequest(cfg: Config, c: Client, m: Message): Outcome
    requires m.CertificateRequest?
  {
    if c.response.Some? then Fail([])
    else
      match cfg.request(m.content)
      case None => Fail([])
      case Some(accepted) =>
        Next(c.(response := Some(if cfg.hasIdentity && accepted then IdentityResponse else EmptyResponse),
                transcript := Push(c.transcript, m)), [])
  }

  /** The key a Certificate proves to be the server's. */
  function ServerLeaf(cfg: Config, chain: nat, now: nat): Option<Leaf>
  {
    match cfg.verifier
    case Pinned(key) => if cfg.pinnedKey(chain) == Some(key) then Some(Leaf(0, key)) else None
    case Store => cfg.validate(chain, now)
  }

  /** `handle_certificate`: a chain's leaf key waits in the flight buffer. */
  function OnCertificate(cfg: Config, c: Client, m: Message, secrets: HandshakeSecrets, d: Draw): Outcome
    requires m.Certificate?
  {
    match ServerLeaf(cfg, m.chain, d.now)
    case None => Fail([])
    case Some(leaf) =>
      var t := Push(c.transcript, m);
      if cfg.verifier.Pinned? then Next(c.(phase := ExpectCertificateVerify(secrets, PinnedLeaf), transcript := t), [])
      else if !d.leafFits then Fail([])
      else
        var next := ExpectCertificateVerify(secrets, FlightLeaf(leaf.kind));
        Next(c.(phase := next, transcript := t, flight := Some(leaf.key)), [])
  }

  /** The key kept since the Certificate. */
  function KeptLeaf(cfg: Config, c: Client, place: Place): Option<Leaf>
  {
    match (place, cfg.verifier)
    case (PinnedLeaf, Pinned(key)) => Some(Leaf(0, key))
    case (FlightLeaf(kind), Store) => (match c.flight case None => None case Some(key) => Some(Leaf(kind, key)))
    case _ => None
  }

  /** `handle_certificate_verify`. */
  function OnCertificateVerify(cfg: Config, c: Client, m: Message, secrets: HandshakeSecrets, place: Place): Outcome
    requires m.CertificateVerify?
  {
    if !cfg.schemeOffered(m.scheme) || c.traffic.NoSuite? then Fail([])
    else
      match (Hash(c.transcript, AlgOf(c.traffic.suite)), KeptLeaf(cfg, c, place))
      case (Some(h), Some(leaf)) =>
        if !cfg.verify(leaf, m.scheme, h, m.signature) then Fail([])
        else Next(c.(phase := ExpectServerFinished(secrets), flight := None, transcript := Push(c.transcript, m)), [])
      case _ => Fail([])
  }

  // ------------------------------------------------------------------ finished

  /** The client's Certificate and CertificateVerify, as the response calls for. */
  function ResponseMessages(cfg: Config, t: Transcript, alg: Alg, response: Option<Response>): Option<seq<Message>>
  {
    match response
    case None => Some([])
    case Some(EmptyResponse) => Some([Certificate(0)])
    case Some(IdentityResponse) =>
      if !cfg.hasIdentity then None
      else
        match Hash(Push(t, Certificate(cfg.chain)), alg)
        case None => None
        case Some(h) =>
          match cfg.sign(h)
          case None => None
          case Some(signature) => Some([Certificate(cfg.chain), CertificateVerify(cfg.scheme, signature)])
  }

  function EndOfEarly(cfg: Config, c: Client): seq<Message>
  {
    if c.early.Accepted? && cfg.mode.Tls? then [EndOfEarlyData] else []
  }

  function EndOfEarlyEvents(cfg: Config, c: Client): seq<Event>
  {
    if c.early.Accepted? && cfg.mode.Tls? then [Send(Handshake, [EndOfEarlyData])] else []
  }

  /** `handle_server_finished`. */
  function OnServerFinished(cfg: Config, c: Client, m: Message, secrets: HandshakeSecrets): Outcome
    requires m.Finished?
  {
    if c.traffic.NoSuite? then Fail([])
    else
      match Hash(c.transcript, AlgOf(c.traffic.suite))
      case None => Fail([])
      case Some(before) =>
        if m.mac != FinishedMac(secrets.server, before) then Fail([])
        else Finish(cfg, c.(transcript := Push(c.transcript, m)), secrets)
  }

  function ActiveTraffic(suite: nat, master: Term, h: Digest): Traffic
  {
    Active(suite, Derived(master, ClientTraffic, h), Derived(master, ServerTraffic, h))
  }

  function Finish(cfg: Config, c: Client, secrets: HandshakeSecrets): Outcome
    requires HasSuite(c.traffic)
  {
    var (suite, alg, master) := (c.traffic.suite, AlgOf(c.traffic.suite), Master(secrets.schedule));
    match Hash(c.transcript, alg)
    case None => Fail([])
    case Some(h) =>
      if !c.traffic.Selected? then Fail([])
      else
        var traffic := ActiveTraffic(suite, master, h);
        var opening := [KeysReady(Application, traffic.server, traffic.client)] + EndOfEarlyEvents(cfg, c);
        Closing(cfg, c.(transcript := PushAll(c.transcript, EndOfEarly(cfg, c))), traffic, secrets, h, alg, opening)
  }

  /** The client's own flight, once the application keys are out. */
  function Closing(cfg: Config, c: Client, active: Traffic, secrets: HandshakeSecrets, h: Digest, alg: Alg,
                   opening: seq<Event>): Outcome
  {
    match ResponseMessages(cfg, c.transcript, alg, c.response)
    case None => Fail(opening)
    case Some(messages) =>
      var (u, master) := (PushAll(c.transcript, messages), Master(secrets.schedule));
      match Hash(u, alg)
      case None => Fail(opening)
      case Some(last) =>
        var finished := Finished(FinishedMac(secrets.client, last));
        var v := Push(u, finished);
        Next(c.(phase := Done, transcript := v, traffic := active, response := None,
                exporter := Some(Derived(master, Exporter, h)),
                resumptionMaster := Some(Derived(master, Resumption, Digest(alg, v.items)))),
             opening + [Send(Handshake, messages + [finished]), HandshakeDone])
  }

  // ------------------------------------------------------------------ dispatch

  /** `Session::dispatch`: the phase decides which message is next, and in which epoch. */
  function Dispatch(cfg: Config, c: Client, epoch: Epoch, m: Message, d: Draw): Outcome
  {
    match (c.phase, m)
    case (ExpectServerHello, ServerHello(_, _, _, _, _, _)) =>
      if epoch.Plaintext? then OnServerHello(cfg, c, m, d) else Fail([])
    case (ExpectEncryptedExtensions(secrets), EncryptedExtensions(_)) =>
      if epoch.Handshake? then OnEncryptedExtensions(cfg, c, m, secrets) else Fail([])
    case (ExpectCertificate(secrets), CertificateRequest(_)) =>
      if epoch.Handshake? then OnCertificateRequest(cfg, c, m) else Fail([])
    case (ExpectCertificate(secrets), Certificate(_)) =>
      if epoch.Handshake? then OnCertificate(cfg, c, m, secrets, d) else Fail([])
    case (ExpectCertificateVerify(secrets, place), CertificateVerify(_, _)) =>
      if epoch.Handshake? then OnCertificateVerify(cfg, c, m, secrets, place) else Fail([])
    case (ExpectServerFinished(secrets), Finished(_)) =>
      if epoch.Handshake? then OnServerFinished(cfg, c, m, secrets) else Fail([])
    case (Done, KeyUpdate(_)) => if epoch.Application? then AfterDone(cfg, c, m) else Fail([])
    case (Done, NewSessionTicket(_)) => if epoch.Application? then AfterDone(cfg, c, m) else Fail([])
    case _ => Fail([])
  }

  /** Key updates and tickets after the handshake leave its record alone. */
  function AfterDone(cfg: Config, c: Client, m: Message): Outcome
  {
    match cfg.postHandshake(m) case None => Fail([]) case Some(n) => Next(c, [PostHandshake(n)])
  }

  /** `Session::poison`. */
  function Poison(c: Client): Client
  {
    c.(phase := Failed, pending := None, resumption := None, early := NotOffered,
       traffic := NoSuite, resumptionMaster := None, exporter := None, flight := None)
  }

  datatype Input = StartNow(draw: Draw) | Read(epoch: Epoch, message: Option<Message>, draw: Draw)

  function Handle(cfg: Config, c: Client, input: Input): Outcome
  {
    match input
    case StartNow(d) => Start(cfg, c, d)
    case Read(epoch, None, _) => Fail([])
    case Read(epoch, Some(m), d) => Dispatch(cfg, c, epoch, m, d)
  }

  /** One call: a sink with room for `room` more events may stop it, and any error poisons. */
  function Step(cfg: Config, c: Client, input: Input, room: nat): (Client, seq<Event>)
  {
    if c.phase.Failed? || (input.StartNow? && !c.phase.Initial?) then (c, [])
    else
      match Handle(cfg, c, input)
      case Fail(events) => (Poison(c), if |events| <= room then events else events[..room])
      case Next(next, events) => if |events| <= room then (next, events) else (Poison(c), events[..room])
  }
}
