/** What every run of the server keeps, and what its events prove. */
module ServerProofs {
  import opened Bytes
  import opened Symbols
  import opened ServerMachine
  import ClientMachine
  import C = ClientProofs

  function Base(s: Server): nat
  {
    if s.hrrDone then 3 else 1
  }

  /** Before a complete hello: nothing, or the restart and the retry request. */
  ghost predicate AwaitingHello(s: Server)
  {
    && s.exporter.None? && s.master.None? && s.early.remaining.None? && s.early.maximum.None?
    && if s.hrrDone then
         && |s.transcript.items| == 2 && s.transcript.items[0].Restart? && C.IsRetry(s.transcript.items[1])
         && s.traffic.Selected? && s.transcript.selected == Some(AlgOf(s.traffic.suite)) && s.pin.Some?
       else s.transcript == EMPTY && s.traffic.NoSuite? && s.pin.None?
  }

  function FinishedHash(s: Server): Digest
    requires s.traffic.Active?
  {
    s.traffic.client.hash
  }

  /** Every secret of a server whose flight is out, as its transcript determines them. */
  ghost predicate Keyed(s: Server)
  {
    && s.traffic.Active? && s.transcript.selected == Some(AlgOf(s.traffic.suite)) && s.master.Some?
    && var (alg, h, master) := (AlgOf(s.traffic.suite), FinishedHash(s), s.master.value);
      && master.Master? && h.alg == alg && TermAlg(master) == alg
      && s.traffic == ActiveTraffic(s.traffic.suite, master, h)
      && s.exporter == Some(Derived(master, Exporter, h))
      && h.items <= s.transcript.items && C.Anchored(h.items, Base(s), s.traffic.suite, master.mixed)
  }

  /** The ServerHello accepted a PSK. */
  ghost predicate Resumed(s: Server)
    requires Keyed(s)
  {
    ClientMachine.FindPsk(FinishedHash(s).items[Base(s)].m.extensions, 0).Some?
  }

  /** The handshake secrets a server installed with its ServerHello. */
  ghost function Handshaken(s: Server): HandshakeSecrets
    requires Keyed(s)
  {
    SecretsFor(s.master.value.mixed, C.HelloHash(FinishedHash(s).items, Base(s), s.traffic.suite))
  }

  ghost predicate IsClientTraffic(s: Server, secret: Secret)
  {
    s.master.Some? && s.master.value.Master? && secret.from == s.master.value.mixed && secret.usage == ClientHandshake
  }

  /** A Certificate whose identity the verifier approved and whose key signed everything so far. */
  ghost predicate Vouched(cfg: Config, items: seq<Item>, at: nat, alg: Alg)
  {
    && |items| >= at + 2 && C.IsCertificate(items[at]) && C.IsVerify(items[at + 1])
    && cfg.identity(items[at].m.chain).Some?
    && var presented := cfg.identity(items[at].m.chain).value;
       && cfg.approve(presented.public) && cfg.schemeSupported(items[at + 1].m.scheme)
       && cfg.verify(presented.leaf, items[at + 1].m.scheme, Digest(alg, items[..at + 1]), items[at + 1].m.signature)
  }

  /** The client is known whenever the configuration requires it and no PSK stands for it. */
  ghost predicate ClientKnown(cfg: Config, s: Server)
    requires Keyed(s)
  {
    cfg.clientAuth == Some(Required) && !Resumed(s) ==>
      Vouched(cfg, s.transcript.items, |FinishedHash(s).items|, AlgOf(s.traffic.suite))
  }

  ghost predicate Inv(cfg: Config, s: Server)
  {
    match s.phase
    case ExpectClientHello => AwaitingHello(s)
    case ExpectEndOfEarlyData(secret) => Keyed(s) && IsClientTraffic(s, secret) && Resumed(s)
    case ExpectClientCertificate(secret) =>
      Keyed(s) && IsClientTraffic(s, secret) && s.transcript.items == FinishedHash(s).items
    case ExpectClientCertVerify(secret) =>
      && Keyed(s) && IsClientTraffic(s, secret)
      && s.identity.Some? && s.identity.value.Certificate?
      && s.transcript.items == FinishedHash(s).items + [Whole(s.identity.value)]
    case ExpectClientFinished(verifyData) =>
      && Keyed(s) && ClientKnown(cfg, s)
      && verifyData.Mac? && IsClientTraffic(s, verifyData.key)
      && verifyData.hash == Digest(AlgOf(s.traffic.suite), s.transcript.items)
    case Done =>
      && Keyed(s) && ClientKnown(cfg, s) && s.early.remaining.None? && s.early.maximum.None?
      && FinishedHash(s).items < s.transcript.items
      && C.Attested(s.transcript.items, AlgOf(s.traffic.suite), s.master.value.mixed, ClientHandshake)
    case Failed =>
      s.traffic.NoSuite? && s.exporter.None? && s.master.None? && s.early.remaining.None? && s.early.maximum.None?
  }

  ghost predicate Keeps(cfg: Config, o: Outcome)
  {
    o.Next? ==> Inv(cfg, o.server)
  }

  // ------------------------------------------------------------- handler by handler

  lemma RetryKeeps(cfg: Config, s: Server, h: Hello, suite: nat, group: Group)
    requires s.phase.ExpectClientHello? && s.traffic == Selected(suite) && s.transcript.selected == Some(AlgOf(suite))
    requires s.exporter.None? && s.master.None? && s.early.remaining.None? && s.early.maximum.None?
    ensures Keeps(cfg, AskRetry(cfg, s, h, suite, group))
  {
  }

  /** Pushing messages after the server's Finished keeps its keys. */
  lemma PushKeyed(s: Server, m: Message)
    requires Keyed(s)
    ensures Keyed(s.(transcript := Push(s.transcript, m)))
    ensures FinishedHash(s.(transcript := Push(s.transcript, m))) == FinishedHash(s)
  {
  }

  lemma SameKeyed(s: Server, r: Server)
    requires Keyed(s) && r.transcript == s.transcript && r.traffic == s.traffic && r.master == s.master
    requires r.exporter == s.exporter && r.hrrDone == s.hrrDone
    ensures Keyed(r)
  {
  }

  /** The state a flight leaves behind: hellos and ServerHello in place, nothing derived yet. */
  ghost predicate Flying(s: Server, suite: nat, resumed: bool, secrets: HandshakeSecrets)
  {
    && s.traffic == Selected(suite) && s.transcript.selected == Some(AlgOf(suite))
    && |s.transcript.items| > Base(s) && C.IsServerHello(s.transcript.items[Base(s)])
    && s.transcript.items[Base(s)].m.suite == suite
    && (resumed <==> ClientMachine.FindPsk(s.transcript.items[Base(s)].m.extensions, 0).Some?)
    && secrets == SecretsFor(secrets.schedule, C.HelloHash(s.transcript.items, Base(s), suite))
    && secrets.schedule.Mixed?
    && TermAlg(secrets.schedule) == AlgOf(suite)
    && (s.early.remaining.Some? ==> resumed)
  }

  lemma ReadyKeeps(cfg: Config, s: Server, suite: nat, resumed: bool, secrets: HandshakeSecrets, events: seq<Event>)
    requires Flying(s, suite, resumed, secrets) && C.Anchored(s.transcript.items, Base(s), suite, secrets.schedule)
    ensures Keeps(cfg, Ready(cfg, s, suite, resumed, secrets, events))
  {
    hide C.Anchored, ClientMachine.FindPsk;
    var o := Ready(cfg, s, suite, resumed, secrets, events);
    if o.Next? {
      assert Keyed(o.server);
      assert Resumed(o.server) <==> resumed;
    }
  }

  lemma PushFlying(s: Server, suite: nat, resumed: bool, secrets: HandshakeSecrets, m: Message)
    requires Flying(s, suite, resumed, secrets)
    ensures Flying(s.(transcript := Push(s.transcript, m)), suite, resumed, secrets)
  {
  }

  lemma {:induction false} PushAllFlying(s: Server, suite: nat, resumed: bool, secrets: HandshakeSecrets,
                                         ms: seq<Message>)
    requires Flying(s, suite, resumed, secrets)
    ensures Flying(s.(transcript := PushAll(s.transcript, ms)), suite, resumed, secrets)
    decreases |ms|
  {
    hide Flying;
    if ms != [] {
      PushFlying(s, suite, resumed, secrets, ms[0]);
      PushAllFlying(s.(transcript := Push(s.transcript, ms[0])), suite, resumed, secrets, ms[1..]);
    }
  }

  lemma FinishedAnchors(s: Server, suite: nat, resumed: bool, secrets: HandshakeSecrets)
    requires Flying(s, suite, resumed, secrets)
    ensures var finished := Finished(FinishedMac(secrets.server, Digest(AlgOf(suite), s.transcript.items)));
            C.Anchored(s.transcript.items + [Whole(finished)], Base(s), suite, secrets.schedule)
  {
    var items := s.transcript.items;
    var finished := Finished(FinishedMac(secrets.server, Digest(AlgOf(suite), items)));
    C.LastIs(items, finished);
    assert (items + [Whole(finished)])[..Base(s) + 1] == items[..Base(s) + 1];
  }

  lemma FlightKeeps(cfg: Config, s: Server, h: Hello, suite: nat, resumed: bool, secrets: HandshakeSecrets,
                    events: seq<Event>)
    requires Flying(s, suite, resumed, secrets)
    ensures Keeps(cfg, Flight(cfg, s, h, suite, resumed, secrets, events))
  {
    hide Credentials, Ready, Inv, Flying, C.Anchored, PushAll;
    FlyingFacts(s, suite, resumed, secrets);
    var o := Flight(cfg, s, h, suite, resumed, secrets, events);
    if o.Next? {
      var ee := EncryptedExtensions(cfg.extensions(h, s.alpn, s.early.remaining.Some?));
      var t := Push(s.transcript, ee);
      var messages := Credentials(cfg, t, AlgOf(suite), resumed).value;
      PushFlying(s, suite, resumed, secrets, ee);
      var p := s.(transcript := t);
      PushAllFlying(p, suite, resumed, secrets, messages);
      var u := PushAll(t, messages);
      var q := p.(transcript := u);
      var finished := Finished(FinishedMac(secrets.server, Digest(AlgOf(suite), u.items)));
      PushFlying(q, suite, resumed, secrets, finished);
      FinishedAnchors(q, suite, resumed, secrets);
      ReadyKeeps(cfg, q.(transcript := Push(u, finished)), suite, resumed, secrets,
                 events + [Send(Handshake, [ee] + messages + [finished])]);
    }
  }

  lemma FlyingFacts(s: Server, suite: nat, resumed: bool, secrets: HandshakeSecrets)
    requires Flying(s, suite, resumed, secrets)
    ensures s.transcript.selected == Some(AlgOf(suite)) && secrets == SecretsFor(secrets.schedule, secrets.server.hash)
  {
  }

  lemma SelectsPsk(h: Hello, suite: nat, share: Share, random: nat, resumed: bool)
    ensures resumed <==> ClientMachine.FindPsk(HelloMessage(h, suite, share, random, resumed).extensions, 0).Some?
  {
    var exts := HelloMessage(h, suite, share, random, resumed).extensions;
    assert ClientMachine.FindPsk(exts, 0) == ClientMachine.FindPsk(exts, 1) == ClientMachine.FindPsk(exts, 2);
  }

  lemma ReplyKeeps(cfg: Config, s: Server, h: Hello, suite: nat, theirs: Share, ours: Share, psk: Option<Accepted>,
                   d: Draw, events: seq<Event>)
    requires s.traffic == Selected(suite) && s.transcript.selected == Some(AlgOf(suite))
    requires |s.transcript.items| == Base(s)
    requires s.early.remaining.Some? ==> psk.Some?
    ensures Keeps(cfg, Reply(cfg, s, h, suite, theirs, ours, psk, d, events))
  {
    hide Flight, HelloMessage, Flying;
    var m := HelloMessage(h, suite, ours, d.random, psk.Some?);
    ReplyFlies(s, h, suite, theirs, ours, psk, d);
    var t := Push(s.transcript, m);
    var secrets := SecretsFor(Mixed(Early(AlgOf(suite), match psk case None => None case Some(a) => Some(a.data.psk)),
                                    Shared(ours.group, theirs.key, ours.key)), Digest(AlgOf(suite), t.items));
    FlightKeeps(cfg, s.(transcript := t), h, suite, psk.Some?, secrets,
                events + [Send(Plaintext, [m]), KeysReady(Handshake, secrets.client, secrets.server)]);
  }

  /** With its ServerHello pushed the server is ready for its flight. */
  lemma ReplyFlies(s: Server, h: Hello, suite: nat, theirs: Share, ours: Share, psk: Option<Accepted>, d: Draw)
    requires s.traffic == Selected(suite) && s.transcript.selected == Some(AlgOf(suite))
    requires |s.transcript.items| == Base(s)
    requires s.early.remaining.Some? ==> psk.Some?
    ensures var t := Push(s.transcript, HelloMessage(h, suite, ours, d.random, psk.Some?));
            var early := Early(AlgOf(suite), match psk case None => None case Some(a) => Some(a.data.psk));
            var secrets := SecretsFor(Mixed(early, Shared(ours.group, theirs.key, ours.key)),
                                      Digest(AlgOf(suite), t.items));
            Flying(s.(transcript := t), suite, psk.Some?, secrets)
  {
    hide HelloMessage, ClientMachine.FindPsk;
    var m := HelloMessage(h, suite, ours, d.random, psk.Some?);
    SelectsPsk(h, suite, ours, d.random, psk.Some?);
    OrdinaryHello(h, suite, ours, d.random, psk.Some?);
    var t := Push(s.transcript, m);
    var early := Early(AlgOf(suite), match psk case None => None case Some(a) => Some(a.data.psk));
    assert TermAlg(early) == AlgOf(suite) && t.items[Base(s)] == Whole(m) && t.items[..Base(s) + 1] == t.items;
  }

  lemma OrdinaryHello(h: Hello, suite: nat, share: Share, random: nat, resumed: bool)
    ensures var m := HelloMessage(h, suite, share, random, resumed); C.IsServerHello(Whole(m)) && m.suite == suite
  {
  }

  lemma AcceptKeeps(cfg: Config, s: Server, h: Hello, suite: nat, share: Share, d: Draw)
    requires s.traffic == Selected(suite) && s.transcript.selected == Some(AlgOf(suite))
    requires |s.transcript.items| == Base(s) - 1
    ensures Keeps(cfg, Accept(cfg, s, h, suite, share, d))
  {
    hide Reply, TryPsk, Grant, Inv;
    var o := Accept(cfg, s, h, suite, share, d);
    if o.Next? {
      var alpn := cfg.alpn(h).value;
      var tried := TryPsk(cfg, s, h, AlgOf(suite), alpn, d.now);
      var psk := AcceptedOf(tried);
      var window := Admit(cfg, h.early, psk, suite, d);
      var t := Push(s.transcript, ClientHello(h));
      GrantNeedsPsk(cfg, h.early, psk, suite, d);
      ReplyKeeps(cfg, s.(transcript := t, alpn := alpn, early := window), h, suite, share,
                 Share(share.group, d.key.value), psk, d,
                 QuicEvents(cfg.quic(h)) + EarlyEvents(psk, window.remaining.Some?, t));
    }
  }

  lemma GrantNeedsPsk(cfg: Config, offered: bool, psk: Option<Accepted>, suite: nat, d: Draw)
    ensures var limit := Grant(cfg, offered, psk, suite, d);
            limit.Some? ==> psk.Some? && limit == psk.value.data.maxEarly
  {
  }

  lemma ClientHelloKeeps(cfg: Config, s: Server, h: Hello, d: Draw)
    requires s.phase.ExpectClientHello? && AwaitingHello(s)
    ensures Keeps(cfg, OnClientHello(cfg, s, h, d))
  {
    hide AskRetry, Accept, KeepsPin, Inv;
    match (cfg.parse(h), PickSuite(h.suites))
    case (Some(kx), Some(suite)) =>
      if Select(s.transcript, AlgOf(suite)).Some? && SelectSuite(s.traffic, suite).Some? {
        var r := s.(transcript := Select(s.transcript, AlgOf(suite)).value,
                    traffic := SelectSuite(s.traffic, suite).value);
        assert r.traffic == Selected(suite);
        match kx.selected {
          case None => RetryKeeps(cfg, r, h, suite, kx.retryGroup);
          case Some(share) => AcceptKeeps(cfg, r, h, suite, share, d);
        }
      }
    case _ =>
  }

  lemma AwaitKeeps(cfg: Config, s: Server, secret: Secret)
    requires Keyed(s) && IsClientTraffic(s, secret) && ClientKnown(cfg, s)
    ensures Keeps(cfg, AwaitFinished(s, secret))
  {
  }

  lemma EndOfEarlyKeeps(cfg: Config, s: Server, secret: Secret)
    requires Keyed(s) && IsClientTraffic(s, secret) && Resumed(s)
    ensures Keeps(cfg, OnEndOfEarlyData(s, secret))
  {
  }

  lemma CertificateKeeps(cfg: Config, s: Server, m: Message, secret: Secret, d: Draw)
    requires m.Certificate? && Keyed(s) && IsClientTraffic(s, secret) && s.transcript.items == FinishedHash(s).items
    ensures Keeps(cfg, OnClientCertificate(cfg, s, m, secret, d))
  {
    hide AwaitFinished, C.Attested, C.Anchored, Vouched, ClientMachine.FindPsk;
    PushKeyed(s, m);
    var r := s.(transcript := Push(s.transcript, m));
    if m.chain == 0 && cfg.clientAuth != Some(Required) {
      AwaitKeeps(cfg, r, secret);
    }
    var o := OnClientCertificate(cfg, s, m, secret, d);
    if m.chain != 0 && o.Next? {
      SameKeyed(r, o.server);
    }
  }

  lemma CertVerifyKeeps(cfg: Config, s: Server, m: Message, secret: Secret)
    requires m.CertificateVerify? && Keyed(s) && IsClientTraffic(s, secret)
    requires s.identity.Some? && s.identity.value.Certificate?
    requires s.transcript.items == FinishedHash(s).items + [Whole(s.identity.value)]
    ensures Keeps(cfg, OnClientCertVerify(cfg, s, m, secret))
  {
    hide AwaitFinished, C.Attested, C.Anchored, Inv, ClientMachine.FindPsk;
    var o := OnClientCertVerify(cfg, s, m, secret);
    if o.Next? {
      PushKeyed(s, m);
      var t := s.(transcript := Push(s.transcript, m));
      var r := s.(identity := None, transcript := Push(s.transcript, m));
      SameKeyed(t, r);
      var (items, at) := (r.transcript.items, |FinishedHash(s).items|);
      assert items[..at + 1] == s.transcript.items;
      assert Vouched(cfg, items, at, AlgOf(s.traffic.suite));
      AwaitKeeps(cfg, r, secret);
    }
  }

  lemma FinishedKeeps(cfg: Config, s: Server, m: Message, d: Draw)
    requires m.Finished? && s.phase.ExpectClientFinished? && Inv(cfg, s)
    ensures Keeps(cfg, OnClientFinished(cfg, s, m, s.phase.verifyData, d))
  {
    hide C.Attested, C.Anchored, Vouched, ClientMachine.FindPsk;
    var o := OnClientFinished(cfg, s, m, s.phase.verifyData, d);
    if o.Next? {
      PushKeyed(s, m);
      SameKeyed(s.(transcript := Push(s.transcript, m)), o.server);
      ClientStaysKnown(cfg, s, o.server, m);
      ClosingAttests(s.transcript.items, AlgOf(s.traffic.suite), s.master.value.mixed, m);
    }
  }

  lemma ClientStaysKnown(cfg: Config, s: Server, r: Server, m: Message)
    requires Keyed(s) && Keyed(r) && ClientKnown(cfg, s) && r.transcript == Push(s.transcript, m)
    requires r.traffic == s.traffic && r.hrrDone == s.hrrDone
    ensures ClientKnown(cfg, r)
  {
    hide C.Attested, C.Anchored, ClientMachine.FindPsk;
    VouchedStays(cfg, s.transcript.items, m, |s.traffic.client.hash.items|, AlgOf(s.traffic.suite));
  }

  lemma VouchedStays(cfg: Config, items: seq<Item>, m: Message, at: nat, alg: Alg)
    ensures Vouched(cfg, items, at, alg) ==> Vouched(cfg, items + [Whole(m)], at, alg)
  {
    if Vouched(cfg, items, at, alg) {
      assert (items + [Whole(m)])[..at + 1] == items[..at + 1];
    }
  }

  lemma ClosingAttests(items: seq<Item>, alg: Alg, mixed: Term, m: Message)
    requires m.Finished? && m.mac.Mac? && m.mac.key.from == mixed && m.mac.key.usage == ClientHandshake
    requires m.mac.hash == Digest(alg, items)
    ensures C.Attested(items + [Whole(m)], alg, mixed, ClientHandshake)
  {
  }

  lemma DispatchKeeps(cfg: Config, s: Server, epoch: Epoch, m: Message, d: Draw)
    requires Inv(cfg, s) && !s.phase.Failed?
    ensures Keeps(cfg, Dispatch(cfg, s, epoch, m, d))
  {
    hide OnClientHello, OnEndOfEarlyData, OnClientCertificate, OnClientCertVerify, OnClientFinished,
         Keyed, ClientKnown, AwaitingHello, C.Attested;
    match (s.phase, m)
    case (ExpectClientHello, ClientHello(h)) => ClientHelloKeeps(cfg, s, h, d);
    case (ExpectEndOfEarlyData(secret), EndOfEarlyData) => EndOfEarlyKeeps(cfg, s, secret);
    case (ExpectClientCertificate(secret), Certificate(_)) => CertificateKeeps(cfg, s, m, secret, d);
    case (ExpectClientCertVerify(secret), CertificateVerify(_, _)) => CertVerifyKeeps(cfg, s, m, secret);
    case (ExpectClientFinished(verifyData), Finished(_)) => FinishedKeeps(cfg, s, m, d);
    case _ =>
  }

  /** Charging early data touches nothing but the window, and only while it is open. */
  lemma ChargeKeeps(cfg: Config, s: Server, len: nat)
    requires Inv(cfg, s) && Charge(s.early, cfg.mode, len).Some?
    ensures Inv(cfg, s.(early := Charge(s.early, cfg.mode, len).value))
  {
  }

  /** Every call keeps the invariant, whatever it reads and wherever the sink stops it. */
  lemma StepKeeps(cfg: Config, s: Server, input: Input, room: nat)
    requires Inv(cfg, s)
    ensures Inv(cfg, Step(cfg, s, input, room).0)
  {
    hide Dispatch, Keyed, ClientKnown, AwaitingHello, C.Attested, Charge;
    match input
    case Read(epoch, None, _) =>
    case Read(epoch, Some(m), d) => if !s.phase.Failed? { DispatchKeeps(cfg, s, epoch, m, d); }
    case NoteEarlyData(len) =>
      if Charge(s.early, cfg.mode, len).Some? {
        ChargeKeeps(cfg, s, len);
      }
  }
}
