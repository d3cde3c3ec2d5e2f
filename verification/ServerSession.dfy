/** The server session object: its transcript, early-data window and fields updated handler by
    handler, its events handed to a sink as they arise. */
module ServerSession {
  import opened Bytes
  import opened Symbols
  import opened ServerMachine
  import opened TranscriptHash
  import opened Sink
  import SP = ServerProofs
  import SR = ServerRuns
  import SReports = ServerReports

  /** The early-data window object. */
  class EarlyWindow {
    var enabled: bool
    var remaining: Option<nat>
    var maximum: Option<nat>

    ghost function View(): Window
      reads this
    {
      Window(enabled, remaining, maximum)
    }

    constructor ()
      ensures View() == Window(false, None, None)
    {
      enabled, remaining, maximum := false, None, None;
    }

    /** `EarlyData::admit`. */
    method AdmitOffer(cfg: Config, offered: bool, psk: Option<Accepted>, suite: nat, d: Draw) returns (admitted: bool)
      modifies this
      ensures View() == Admit(cfg, offered, psk, suite, d) && admitted == remaining.Some?
    {
      remaining, maximum, enabled := None, None, cfg.acceptsEarly;
      if !enabled || !offered || psk.None? {
        return false;
      }
      var data := psk.value.data;
      if data.maxEarly.None? || !data.alpnMatches || suite != data.suite || d.now < data.issuedAt {
        return false;
      }
      var measured := d.now - data.issuedAt;
      if measured > TICKET_LIFETIME_MS || Difference(measured, ClaimedAge(psk.value)) > MAX_TICKET_AGE_SKEW_MS
         || !d.registered {
        return false;
      }
      remaining, maximum := data.maxEarly, data.maxEarly;
      return true;
    }

    /** `EarlyData::charge`: a refused charge closes the window it overran. */
    method ChargeBytes(len: nat, mode: Mode) returns (ok: bool)
      modifies this
      ensures ok == Charge(old(View()), mode, len).Some?
      ensures ok ==> View() == Charge(old(View()), mode, len).value
      ensures !ok ==> remaining.None? && (old(remaining).Some? ==> maximum.None?)
    {
      if remaining.None? {
        return false;
      }
      if mode.Quic? {
        return true;
      }
      if len >= WORD || len > remaining.value {
        remaining, maximum := None, None;
        return false;
      }
      remaining := Some(remaining.value - len);
      return true;
    }

    /** `EarlyData::close`. */
    method Shut()
      modifies this
      ensures View() == Close(old(View()))
    {
      remaining, maximum := None, None;
    }
  }

  class Session {
    const cfg: Config
    const transcript: Running
    const early: EarlyWindow
    var phase: Phase
    var hrrDone: bool
    var pin: Option<Pin>
    var alpn: Option<nat>
    var traffic: Traffic
    var master: Option<Term>
    var exporter: Option<Secret>
    var identity: Option<Message>

    ghost predicate Valid()
      reads this, transcript
    {
      transcript.Valid()
    }

    ghost function View(): Server
      requires Valid()
      reads this, transcript, early
    {
      Server(phase, transcript.View(), hrrDone, pin, alpn, early.View(), traffic, master, exporter, identity)
    }

    constructor (cfg: Config)
      ensures fresh(transcript) && fresh(early) && this.cfg == cfg && Valid() && View() == Fresh()
    {
      this.cfg := cfg;
      transcript := new Running();
      early := new EarlyWindow();
      phase, hrrDone, pin, alpn := ExpectClientHello, false, None, None;
      traffic, master, exporter, identity := NoSuite, None, None, None;
    }

    /** The handler did what the machine does: the same events, as far as there was room, and
        the same state unless it failed. */
    ghost predicate Did(o: Outcome, ok: bool, sink: Outbox, before: seq<Event>, space: nat)
      reads this, transcript, early, sink
    {
      && Valid() && ok == (o.Next? && |o.events| <= space)
      && (ok ==> View() == o.server) && sink.Over(o.events, before, space)
    }

    lemma Refused(sink: Outbox)
      requires Valid()
      ensures Did(Outcome.Fail([]), false, sink, sink.events, sink.room)
    {
      sink.Untouched();
    }

    /** Stopping now is a failure after exactly these events. */
    lemma Stopped(sink: Outbox, emitted: seq<Event>, before: seq<Event>, space: nat)
      requires Valid() && sink.So(emitted, before, space)
      ensures Did(Outcome.Fail(emitted), false, sink, before, space)
    {
      sink.Finished(emitted, before, space);
    }

    /** `Session::poison`. */
    method Poisoned()
      modifies this, early
      ensures Valid() == old(Valid()) && phase.Failed? && Emptied()
    {
      phase, traffic, master, exporter := Failed, NoSuite, None, None;
      early.Shut();
      identity := None;
    }

    /** No secret and no identity is kept, and the window is closed. */
    predicate Emptied()
      reads this, early
    {
      && traffic.NoSuite? && master.None? && exporter.None? && identity.None?
      && early.remaining.None? && early.maximum.None?
    }

    // ------------------------------------------------------------- client's flight

    method Await(clientTraffic: Secret, sink: Outbox) returns (ok: bool)
      requires Valid()
      modifies this`phase
      ensures Did(AwaitFinished(old(View()), clientTraffic), ok, sink, old(sink.events), old(sink.room))
    {
      sink.Untouched();
      if traffic.NoSuite? {
        return false;
      }
      var h := transcript.Finish(AlgOf(traffic.suite));
      if h.None? {
        return false;
      }
      phase := ExpectClientFinished(FinishedMac(clientTraffic, h.value));
      return true;
    }

    /** `handle_end_of_early_data`. */
    method HandleEndOfEarlyData(clientTraffic: Secret, sink: Outbox) returns (ok: bool)
      requires Valid()
      modifies this, transcript, early
      ensures Did(OnEndOfEarlyData(old(View()), clientTraffic), ok, sink, old(sink.events), old(sink.room))
    {
      hide AwaitFinished;
      early.Shut();
      transcript.Update(EndOfEarlyData);
      ok := Await(clientTraffic, sink);
    }

    /** `handle_client_certificate`. */
    method HandleClientCertificate(m: Message, clientTraffic: Secret, d: Draw, sink: Outbox) returns (ok: bool)
      requires Valid() && m.Certificate?
      modifies this, transcript
      ensures Did(OnClientCertificate(cfg, old(View()), m, clientTraffic, d), ok, sink, old(sink.events),
                  old(sink.room))
    {
      hide AwaitFinished, Taken;
      sink.Untouched();
      if m.chain == 0 {
        if cfg.clientAuth == Some(Required) {
          return false;
        }
        transcript.Update(m);
        ok := Await(clientTraffic, sink);
        return;
      }
      if cfg.identity(m.chain).None? || !d.identityFits {
        return false;
      }
      identity := Some(m);
      transcript.Update(m);
      phase := ExpectClientCertVerify(clientTraffic);
      return true;
    }

    /** `handle_client_cert_verify`: the identity is read again from the stored Certificate. */
    method HandleClientCertVerify(m: Message, clientTraffic: Secret, sink: Outbox) returns (ok: bool)
      requires Valid() && m.CertificateVerify?
      modifies this, transcript
      ensures Did(OnClientCertVerify(cfg, old(View()), m, clientTraffic), ok, sink, old(sink.events), old(sink.room))
    {
      hide AwaitFinished, Taken;
      sink.Untouched();
      if !cfg.schemeSupported(m.scheme) || traffic.NoSuite? {
        return false;
      }
      var h := transcript.Finish(AlgOf(traffic.suite));
      if h.None? || identity.None? || !identity.value.Certificate? {
        return false;
      }
      var presented := cfg.identity(identity.value.chain);
      if presented.None? || !cfg.verify(presented.value.leaf, m.scheme, h.value, m.signature) {
        return false;
      }
      if cfg.clientAuth.None? || !cfg.approve(presented.value.public) {
        return false;
      }
      identity := None;
      transcript.Update(m);
      ok := Await(clientTraffic, sink);
    }

    /** `handle_client_finished`, then `emit_session_ticket`. */
    method HandleClientFinished(m: Message, verifyData: Mac, d: Draw, sink: Outbox) returns (ok: bool)
      requires Valid() && m.Finished?
      modifies this, transcript, early, sink
      ensures Did(OnClientFinished(cfg, old(View()), m, verifyData, d), ok, sink, old(sink.events), old(sink.room))
    {
      hide Taken, TermAlg, Push;
      ghost var (before, space) := (sink.events, sink.room);
      sink.Untouched();
      if m.mac != verifyData {
        return false;
      }
      early.Shut();
      transcript.Update(m);
      ok := sink.Emit(HandshakeDone, [], before, space);
      assert [] + [HandshakeDone] == [HandshakeDone];
      phase := Done;
      var issues := master.Some? && TermAlg(master.value) == Sha256 && cfg.hasKeys;
      var content := cfg.ticket(d.nonce);
      if !ok {
        if issues && content.Some? {
          TicketFollows(content.value);
        }
        return;
      }
      sink.Finished([HandshakeDone], before, space);
      if !issues {
        return;
      }
      if content.None? {
        return false;
      }
      TicketFollows(content.value);
      var sent := Send(Application, [NewSessionTicket(content.value)]);
      ok := sink.Emit(sent, [HandshakeDone], before, space);
      if ok {
        sink.Finished([HandshakeDone] + [sent], before, space);
      }
    }

    // ---------------------------------------------------------------------- the PSK

    /** `try_accept_psk`: the ticket opened, and its binder checked over the forked transcript. */
    method TryAccept(h: Hello, alg: Alg, alpn: Option<nat>, now: nat) returns (tried: Psk)
      requires Valid()
      ensures tried == TryPsk(cfg, View(), h, alg, alpn, now)
    {
      if alg != Sha256 || h.psk.None? || !cfg.hasKeys {
        return NoPsk;
      }
      var offer := h.psk.value;
      var data := cfg.open(offer.identity, alpn);
      if data.None? {
        return NoPsk;
      }
      if data.value.issuedAt > now + MAX_TICKET_AGE_SKEW_MS
         || (now > data.value.issuedAt && now - data.value.issuedAt > TICKET_LIFETIME_MS) {
        return NoPsk;
      }
      var partial := transcript.HashCut(h);
      if partial.None? || offer.binder != Binder(data.value.psk, partial.value) {
        return BadPsk;
      }
      return GoodPsk(Accepted(data.value, offer.age, offer.binder));
    }

    // ------------------------------------------------------------------- the flight

    /** The last part: application secrets and the next phase. */
    method Finalise(suite: nat, resumed: bool, secrets: HandshakeSecrets, sink: Outbox,
                    ghost emitted: seq<Event>, ghost before: seq<Event>, ghost space: nat) returns (ok: bool)
      requires Valid() && sink.So(emitted, before, space)
      modifies this, sink
      ensures Did(Ready(cfg, old(View()), suite, resumed, secrets, emitted), ok, sink, before, space)
    {
      hide Taken, Hash;
      Stopped(sink, emitted, before, space);
      var h := transcript.Finish(AlgOf(suite));
      if h.None? || !traffic.Selected? {
        return false;
      }
      var term := Master(secrets.schedule);
      var active := Active(suite, Derived(term, ClientTraffic, h.value), Derived(term, ServerTraffic, h.value));
      traffic, master, exporter := active, Some(term), Some(Derived(term, Exporter, h.value));
      var keys := KeysReady(Application, active.client, active.server);
      ok := sink.Emit(keys, emitted, before, space);
      if !ok {
        return;
      }
      sink.Finished(emitted + [keys], before, space);
      if early.remaining.Some? && cfg.mode.Tls? {
        phase := ExpectEndOfEarlyData(secrets.client);
      } else if !resumed && cfg.clientAuth.Some? {
        phase := ExpectClientCertificate(secrets.client);
      } else {
        phase := ExpectClientFinished(FinishedMac(secrets.client, h.value));
      }
    }

    /** CertificateRequest, Certificate and CertificateVerify, hashed as they are written. */
    method Present(alg: Alg, resumed: bool) returns (messages: Option<seq<Message>>)
      requires Valid()
      modifies transcript
      ensures Valid() && messages == Credentials(cfg, old(transcript.View()), alg, resumed)
      ensures messages.Some? ==> transcript.View() == PushAll(old(transcript.View()), messages.value)
    {
      hide Hash;
      ghost var t := transcript.View();
      if resumed {
        transcript.UpdateAll([]);
        return Some([]);
      }
      var opening := if cfg.clientAuth.Some? then [CertificateRequest(cfg.request)] else [];
      transcript.UpdateAll(opening);
      transcript.UpdateAll([Certificate(cfg.chain)]);
      PushAllOne(PushAll(t, opening), Certificate(cfg.chain));
      var h := transcript.Finish(alg);
      if h.None? {
        return None;
      }
      var signature := cfg.sign(h.value);
      if signature.None? {
        return None;
      }
      var verify := CertificateVerify(cfg.scheme, signature.value);
      transcript.UpdateAll([verify]);
      assert [Certificate(cfg.chain)] + [verify] == [Certificate(cfg.chain), verify];
      PushAllAppend(PushAll(t, opening), [Certificate(cfg.chain)], [verify]);
      PushAllAppend(t, opening, [Certificate(cfg.chain), verify]);
      messages := Some(opening + [Certificate(cfg.chain), verify]);
    }

    /** EncryptedExtensions to Finished. */
    method SendFlight(h: Hello, suite: nat, resumed: bool, secrets: HandshakeSecrets, sink: Outbox,
                      ghost emitted: seq<Event>, ghost before: seq<Event>, ghost space: nat) returns (ok: bool)
      requires Valid() && sink.So(emitted, before, space)
      modifies this, transcript, sink
      ensures Did(Flight(cfg, old(View()), h, suite, resumed, secrets, emitted), ok, sink, before, space)
    {
      hide Taken, Hash, Ready, Credentials, PushAll, Push;
      Stopped(sink, emitted, before, space);
      if cfg.certificates(h).None? {
        return false;
      }
      var ee := EncryptedExtensions(cfg.extensions(h, alpn, early.remaining.Some?));
      transcript.Update(ee);
      var messages := Present(AlgOf(suite), resumed);
      if messages.None? {
        return false;
      }
      var covered := transcript.Finish(AlgOf(suite));
      if covered.None? {
        return false;
      }
      var finished := Finished(FinishedMac(secrets.server, covered.value));
      transcript.Update(finished);
      var sent := Send(Handshake, [ee] + messages.value + [finished]);
      ok := sink.Emit(sent, emitted, before, space);
      if !ok {
        ReadyContinues(cfg, View(), suite, resumed, secrets, emitted + [sent]);
        return;
      }
      ok := Finalise(suite, resumed, secrets, sink, emitted + [sent], before, space);
    }

    /** The ServerHello and the handshake secrets. */
    method SendHello(h: Hello, suite: nat, theirs: Share, ours: Share, psk: Option<Accepted>, d: Draw, sink: Outbox,
                     ghost emitted: seq<Event>, ghost before: seq<Event>, ghost space: nat) returns (ok: bool)
      requires Valid() && sink.So(emitted, before, space)
      modifies this, transcript, sink
      ensures Did(Reply(cfg, old(View()), h, suite, theirs, ours, psk, d, emitted), ok, sink, before, space)
    {
      hide Taken, Hash, Flight, Push;
      ghost var s := View();
      var exts := [Versions(Some(TLS_1_3)), KeyShare(Some(ours), None)]
                  + (if psk.Some? then [SelectedPsk(Some(0))] else []);
      var m := ServerHello(TLS_1_2, Ordinary(d.random), h.session, suite, 0, exts);
      transcript.Update(m);
      var sent := Send(Plaintext, [m]);
      ok := sink.Emit(sent, emitted, before, space);
      if !ok {
        ReplyContinues(cfg, s, h, suite, theirs, ours, psk, d, emitted);
        return;
      }
      var hash := transcript.Finish(AlgOf(suite));
      if hash.None? {
        Stopped(sink, emitted + [sent], before, space);
        return false;
      }
      var first := Early(AlgOf(suite), if psk.Some? then Some(psk.value.data.psk) else None);
      var schedule := Mixed(first, Shared(ours.group, theirs.key, ours.key));
      var secrets := HandshakeSecrets(schedule, Derived(schedule, ClientHandshake, hash.value),
                                      Derived(schedule, ServerHandshake, hash.value));
      var keys := KeysReady(Handshake, secrets.client, secrets.server);
      assert emitted + [sent, keys] == emitted + [sent] + [keys];
      ok := sink.Emit(keys, emitted + [sent], before, space);
      if !ok {
        FlightContinues(cfg, View(), h, suite, psk.Some?, secrets, emitted + [sent, keys]);
        return;
      }
      ok := SendFlight(h, suite, psk.Some?, secrets, sink, emitted + [sent, keys], before, space);
    }

    // ------------------------------------------------------------------- the hello

    /** The peer's transport parameters, when there are any. */
    method Introduce(quic: Option<nat>, sink: Outbox, ghost before: seq<Event>, ghost space: nat) returns (ok: bool)
      requires sink.So([], before, space)
      modifies sink
      ensures var opening := QuicEvents(quic);
              && (ok ==> sink.So(opening, before, space))
              && (!ok ==> |opening| > space)
              && (!ok ==> forall more: seq<Event> {:trigger opening + more} :: sink.Over(opening + more, before, space))
    {
      if quic.None? {
        return true;
      }
      ok := sink.Emit(PeerExtension(quic.value), [], before, space);
      assert [] + [PeerExtension(quic.value)] == QuicEvents(quic);
    }

    /** The early-data window set, the hello hashed, and the early keys announced if it is open. */
    method Welcome(h: Hello, suite: nat, psk: Option<Accepted>, d: Draw, sink: Outbox,
                   ghost opening: seq<Event>, ghost before: seq<Event>, ghost space: nat) returns (ok: bool)
      requires Valid() && sink.So(opening, before, space)
      requires psk.Some? ==> transcript.View().selected == Some(Sha256)
      modifies transcript, early, sink
      ensures Valid() && early.View() == Admit(cfg, h.early, psk, suite, d)
      ensures transcript.View() == Push(old(transcript.View()), ClientHello(h))
      ensures early.View().remaining.Some? ==> psk.Some? && h.early
      ensures EarlyEvents(psk, early.View().remaining.Some?, transcript.View()) ==
              if early.View().remaining.None? then []
              else [ZeroRttKeys(SReports.EarlySecret(psk.value.data.psk, old(transcript.View()).items, h))]
      ensures var zero := EarlyEvents(psk, early.View().remaining.Some?, transcript.View());
              && (ok ==> sink.So(opening + zero, before, space))
              && (!ok ==> |opening + zero| > space)
              && (!ok ==> forall more: seq<Event> {:trigger opening + zero + more} :: sink.Over(opening + zero + more,
                                                                                                before, space))
    {
      hide Taken, Grant;
      GrantNeeds(cfg, h.early, psk, suite, d);
      var admitted := early.AdmitOffer(cfg, h.early, psk, suite, d);
      transcript.Update(ClientHello(h));
      ghost var zero := EarlyEvents(psk, early.View().remaining.Some?, transcript.View());
      if !admitted || psk.None? {
        assert opening + zero == opening;
        return true;
      }
      var digest := transcript.Finish(Sha256);
      var secret := Derived(Early(Sha256, Some(psk.value.data.psk)), ClientEarly, digest.value);
      ok := sink.Emit(ZeroRttKeys(secret), opening, before, space);
    }

    /** A hello with a usable share. */
    method AcceptHello(h: Hello, suite: nat, share: Share, d: Draw, sink: Outbox) returns (ok: bool)
      requires Valid() && transcript.View().selected == Some(AlgOf(suite))
      modifies this, transcript, early, sink
      ensures Did(Accept(cfg, old(View()), h, suite, share, d), ok, sink, old(sink.events), old(sink.room))
    {
      hide Taken, Reply, TryPsk, Admit, Push, QuicEvents, EarlyEvents;
      ghost var (before, space, s) := (sink.events, sink.room, View());
      sink.Untouched();
      var chosen := cfg.alpn(h);
      if chosen.None? {
        return false;
      }
      alpn := chosen.value;
      ghost var opening := QuicEvents(cfg.quic(h));
      ok := Introduce(cfg.quic(h), sink, before, space);
      if !ok {
        AcceptContinues(cfg, s, h, suite, share, d, opening);
        return;
      }
      var tried := TryAccept(h, AlgOf(suite), chosen.value, d.now);
      TryReads(cfg, s, View(), h, AlgOf(suite), chosen.value, d.now);
      if tried.BadPsk? {
        Stopped(sink, opening, before, space);
        return false;
      }
      var psk := AcceptedOf(tried);
      PskNeedsSha256(cfg, s, h, AlgOf(suite), chosen.value, d.now);
      ok := Welcome(h, suite, psk, d, sink, opening, before, space);
      ghost var zero := EarlyEvents(psk, early.View().remaining.Some?, transcript.View());
      if !ok {
        AcceptContinues(cfg, s, h, suite, share, d, opening + zero);
        return;
      }
      if d.key.None? {
        Stopped(sink, opening + zero, before, space);
        return false;
      }
      ok := SendHello(h, suite, share, Share(share.group, d.key.value), psk, d, sink, opening + zero, before, space);
    }

    /** `send_hello_retry_request`. */
    method SendRetry(h: Hello, suite: nat, group: Group, sink: Outbox) returns (ok: bool)
      requires Valid()
      modifies this, transcript, sink
      ensures Did(AskRetry(cfg, old(View()), h, suite, group), ok, sink, old(sink.events), old(sink.room))
    {
      hide Taken, Hash, Push;
      ghost var (before, space) := (sink.events, sink.room);
      sink.Untouched();
      var fingerprint := cfg.fingerprint(h);
      if fingerprint.None? {
        return false;
      }
      var exts := [Versions(Some(TLS_1_3)), KeyShare(None, Some(group))];
      var m := ServerHello(TLS_1_2, RetryRandom, h.session, suite, 0, exts);
      transcript.Update(ClientHello(h));
      var h1 := transcript.Finish(AlgOf(suite));
      if h1.None? {
        return false;
      }
      transcript.Restart(AlgOf(suite), h1.value);
      transcript.Update(m);
      hrrDone, pin := true, Some(Pin(fingerprint.value, group));
      var sent := Send(Plaintext, [m]);
      ok := sink.Emit(sent, [], before, space);
      assert [] + [sent] == [sent];
      if ok {
        sink.Finished([sent], before, space);
      }
    }

    /** `ClientHelloInvariant::validate`, when a retry was asked for. */
    method KeepsItsPin(h: Hello, kx: Kx) returns (ok: bool)
      ensures ok == (pin.Some? ==> KeepsPin(cfg, pin.value, h, kx))
    {
      if pin.None? {
        return true;
      }
      if h.early || kx.shareCount != 1 || kx.selected.None? || kx.selected.value.group != pin.value.group {
        return false;
      }
      return cfg.fingerprint(h) == Some(pin.value.fingerprint);
    }

    /** The first local suite the client offers. */
    method ChooseSuite(offered: seq<nat>) returns (suite: Option<nat>)
      ensures suite == PickSuite(offered)
    {
      for i := 0 to |SUITES|
        invariant forall k :: 0 <= k < i ==> SUITES[k] !in offered
      {
        if SUITES[i] in offered {
          return Some(SUITES[i]);
        }
      }
      return None;
    }

    /** `handle_client_hello`. */
    method HandleClientHello(h: Hello, d: Draw, sink: Outbox) returns (ok: bool)
      requires Valid()
      modifies this, transcript, early, sink
      ensures Did(OnClientHello(cfg, old(View()), h, d), ok, sink, old(sink.events), old(sink.room))
    {
      hide Taken, AskRetry, Accept, KeepsPin, PickSuite;
      sink.Untouched();
      if h.version != TLS_1_2 {
        return false;
      }
      var kx := cfg.parse(h);
      if kx.None? {
        return false;
      }
      var pinned := KeepsItsPin(h, kx.value);
      if !pinned {
        return false;
      }
      var suite := ChooseSuite(h.suites);
      if suite.None? {
        return false;
      }
      var chosen := transcript.SelectHash(AlgOf(suite.value));
      var selected := SelectSuite(traffic, suite.value);
      if !chosen || selected.None? {
        return false;
      }
      traffic := selected.value;
      if !h.compression || (cfg.mode.Quic? && h.session != 0) || !cfg.checks(h) {
        return false;
      }
      match kx.value.selected {
        case None =>
          if hrrDone {
            return false;
          }
          ok := SendRetry(h, suite.value, kx.value.retryGroup, sink);
        case Some(share) =>
          ok := AcceptHello(h, suite.value, share, d, sink);
      }
    }

    // ------------------------------------------------------------------ dispatch

    method HandleKeyUpdate(epoch: Epoch, n: nat, sink: Outbox) returns (ok: bool)
      requires Valid()
      modifies sink
      ensures var e := cfg.keyUpdate(n);
              var taken := epoch.Application? && e.Some?;
              Did(if taken then Next(old(View()), [PostHandshake(e.value)]) else Outcome.Fail([]), ok, sink,
                  old(sink.events), old(sink.room))
    {
      ghost var (before, space) := (sink.events, sink.room);
      sink.Untouched();
      var e := cfg.keyUpdate(n);
      if !epoch.Application? || e.None? {
        return false;
      }
      ok := sink.Emit(PostHandshake(e.value), [], before, space);
      assert [] + [PostHandshake(e.value)] == [PostHandshake(e.value)];
    }

    /** `Drive::process`. */
    method Route(epoch: Epoch, m: Message, d: Draw, sink: Outbox) returns (ok: bool)
      requires Valid()
      modifies this, transcript, early, sink
      ensures Did(Dispatch(cfg, old(View()), epoch, m, d), ok, sink, old(sink.events), old(sink.room))
    {
      hide Taken, OnClientHello, OnEndOfEarlyData, OnClientCertificate, OnClientCertVerify, OnClientFinished, Did;
      Refused(sink);
      if m.KeyUpdate? && phase.Done? {
        ok := HandleKeyUpdate(epoch, m.content, sink);
        return;
      }
      if phase.ExpectClientHello? && m.ClientHello? && epoch.Plaintext? {
        ok := HandleClientHello(m.hello, d, sink);
        return;
      }
      if !epoch.Handshake? {
        return false;
      }
      match (phase, m) {
        case (ExpectEndOfEarlyData(secret), EndOfEarlyData) => ok := HandleEndOfEarlyData(secret, sink);
        case (ExpectClientCertificate(secret), Certificate(_)) => ok := HandleClientCertificate(m, secret, d, sink);
        case (ExpectClientCertVerify(secret), CertificateVerify(_, _)) => ok := HandleClientCertVerify(m, secret, sink);
        case (ExpectClientFinished(verifyData), Finished(_)) => ok := HandleClientFinished(m, verifyData, d, sink);
        case _ => ok := false;
      }
    }

    /** What a call leaves: the machine's step, and after an error nothing but the failure. */
    ghost predicate Called(s: Server, input: Input, ok: bool, sink: Outbox, before: seq<Event>, space: nat)
      reads this, transcript, early, sink
    {
      var (next, emitted) := Step(cfg, s, input, space);
      && Valid() && sink.events == before + emitted && sink.room == space - |emitted|
      && (next.phase.Failed? <==> phase.Failed?) && (ok <==> !next.phase.Failed?)
      && (ok ==> View() == next)
      && (phase.Failed? && !s.phase.Failed? ==> Emptied())
    }

    /** `read_framed`: a message that does not decode, or any error on the way, fails the session. */
    method ReadMessage(epoch: Epoch, message: Option<Message>, d: Draw, sink: Outbox) returns (ok: bool)
      requires Valid()
      modifies this, transcript, early, sink
      ensures Called(old(View()), Read(epoch, message, d), ok, sink, old(sink.events), old(sink.room))
      ensures old(phase).Failed? ==> View() == old(View()) && sink.events == old(sink.events)
    {
      hide Dispatch;
      sink.Untouched();
      if phase.Failed? {
        return false;
      }
      if message.None? {
        Poisoned();
        return false;
      }
      ok := Route(epoch, message.value, d, sink);
      NextLives(cfg, old(View()), epoch, message.value, d);
      if !ok {
        Poisoned();
      }
    }

    /** `note_early_data`. */
    method Note(len: nat, sink: Outbox) returns (ok: bool)
      requires Valid()
      modifies this, early
      ensures Called(old(View()), NoteEarlyData(len), ok, sink, old(sink.events), old(sink.room))
      ensures old(phase).Failed? ==> View() == old(View())
    {
      sink.Untouched();
      if phase.Failed? {
        return false;
      }
      ok := early.ChargeBytes(len, cfg.mode);
      if !ok {
        Poisoned();
      }
    }
  }

  // ------------------------------------------------------------------ small facts

  lemma TicketFollows(content: nat)
    ensures var sent := Send(Application, [NewSessionTicket(content)]);
            && [HandshakeDone, sent] == [HandshakeDone] + [sent] == [] + [HandshakeDone] + [sent]
  {
  }

  /** Early data is granted to an offer that comes with a ticket, and to no other. */
  lemma GrantNeeds(cfg: Config, offered: bool, psk: Option<Accepted>, suite: nat, d: Draw)
    ensures Grant(cfg, offered, psk, suite, d).Some? ==> psk.Some? && offered
  {
  }

  /** Trying a PSK reads the transcript and nothing else of the server. */
  lemma TryReads(cfg: Config, s: Server, r: Server, h: Hello, alg: Alg, alpn: Option<nat>, now: nat)
    requires r.transcript == s.transcript
    ensures TryPsk(cfg, r, h, alg, alpn, now) == TryPsk(cfg, s, h, alg, alpn, now)
  {
  }

  lemma PskNeedsSha256(cfg: Config, s: Server, h: Hello, alg: Alg, alpn: Option<nat>, now: nat)
    ensures TryPsk(cfg, s, h, alg, alpn, now).GoodPsk? ==> alg == Sha256
  {
  }

  /** An accepted message never leaves a failed server. */
  lemma NextLives(cfg: Config, s: Server, epoch: Epoch, m: Message, d: Draw)
    ensures var o := Dispatch(cfg, s, epoch, m, d); o.Next? && !s.phase.Failed? ==> !o.server.phase.Failed?
  {
    hide OnClientHello, Hash;
    if m.ClientHello? && !s.phase.Failed? {
      HelloLives(cfg, s, m.hello, d);
    }
  }

  lemma HelloLives(cfg: Config, s: Server, h: Hello, d: Draw)
    requires !s.phase.Failed?
    ensures var o := OnClientHello(cfg, s, h, d); o.Next? ==> !o.server.phase.Failed?
  {
    hide TryPsk, Admit, Credentials, PushAll, Hash, HelloMessage, RetryMessage, KeepsPin;
  }

  /** The events of each part begin with those it was given. */
  lemma ReadyContinues(cfg: Config, s: Server, suite: nat, resumed: bool, secrets: HandshakeSecrets, events: seq<Event>)
    ensures var o := Ready(cfg, s, suite, resumed, secrets, events); exists more :: o.events == events + more
  {
    var o := Ready(cfg, s, suite, resumed, secrets, events);
    assert o.events == events + o.events[|events|..];
  }

  lemma FlightContinues(cfg: Config, s: Server, h: Hello, suite: nat, resumed: bool, secrets: HandshakeSecrets,
                        events: seq<Event>)
    ensures var o := Flight(cfg, s, h, suite, resumed, secrets, events); exists more :: o.events == events + more
  {
    hide Credentials, PushAll, Hash;
    var o := Flight(cfg, s, h, suite, resumed, secrets, events);
    assert o.events == events + o.events[|events|..];
  }

  lemma ReplyContinues(cfg: Config, s: Server, h: Hello, suite: nat, theirs: Share, ours: Share, psk: Option<Accepted>,
                       d: Draw,
                       events: seq<Event>)
    ensures var o := Reply(cfg, s, h, suite, theirs, ours, psk, d, events);
            exists more :: o.events == events + [Send(Plaintext, [HelloMessage(h, suite, ours, d.random, psk.Some?)])]
                           + more
  {
    hide Flight, HelloMessage, Hash;
    var m := HelloMessage(h, suite, ours, d.random, psk.Some?);
    var (t, sent) := (Push(s.transcript, m), Send(Plaintext, [m]));
    var o := Reply(cfg, s, h, suite, theirs, ours, psk, d, events);
    if Hash(t, AlgOf(suite)).Some? {
      var first := Early(AlgOf(suite), match psk case None => None case Some(a) => Some(a.data.psk));
      var secrets := SecretsFor(Mixed(first, Shared(ours.group, theirs.key, ours.key)), Hash(t, AlgOf(suite)).value);
      var keys := KeysReady(Handshake, secrets.client, secrets.server);
      FlightContinues(cfg, s.(transcript := t), h, suite, psk.Some?, secrets, events + [sent, keys]);
      var more :| o.events == events + [sent, keys] + more;
      assert o.events == events + [sent] + ([keys] + more);
    } else {
      assert o.events == events + [sent] + [];
    }
  }

  lemma AcceptContinues(cfg: Config, s: Server, h: Hello, suite: nat, share: Share, d: Draw, prefix: seq<Event>)
    requires cfg.alpn(h).Some?
    requires var tried := TryPsk(cfg, s, h, AlgOf(suite), cfg.alpn(h).value, d.now);
             var window := Admit(cfg, h.early, AcceptedOf(tried), suite, d);
             var zero := EarlyEvents(AcceptedOf(tried), window.remaining.Some?, Push(s.transcript, ClientHello(h)));
             prefix == QuicEvents(cfg.quic(h)) || (!tried.BadPsk? && prefix == QuicEvents(cfg.quic(h)) + zero)
    ensures var o := Accept(cfg, s, h, suite, share, d); exists more :: o.events == prefix + more
    ensures |Accept(cfg, s, h, suite, share, d).events| >= |prefix|
  {
    hide Reply, TryPsk, Admit, QuicEvents, EarlyEvents, Push;
    var o := Accept(cfg, s, h, suite, share, d);
    var alpn := cfg.alpn(h).value;
    var tried := TryPsk(cfg, s, h, AlgOf(suite), alpn, d.now);
    var psk := AcceptedOf(tried);
    var window := Admit(cfg, h.early, psk, suite, d);
    var t := Push(s.transcript, ClientHello(h));
    var (opening, zero) := (QuicEvents(cfg.quic(h)), EarlyEvents(psk, window.remaining.Some?, t));
    if tried.BadPsk? {
      assert o.events == opening + [];
    } else if d.key.None? {
      assert o.events == opening + zero + [];
    } else {
      var ours := Share(share.group, d.key.value);
      ReplyContinues(cfg, s.(transcript := t, alpn := alpn, early := window), h, suite, share, ours, psk, d,
                     opening + zero);
      var sent := Send(Plaintext, [HelloMessage(h, suite, ours, d.random, psk.Some?)]);
      var more :| o.events == opening + zero + [sent] + more;
      assert o.events == opening + (zero + [sent] + more) == opening + zero + ([sent] + more);
    }
  }

  // ------------------------------------------------------------------ whole runs

  /** The session and its sink stand where the machine's run stands. */
  ghost predicate Follows(s: Session, sink: Outbox, r: Server, events: seq<Event>)
    reads s, s.transcript, s.early, sink
  {
    && s.Valid() && sink.events == events && (s.phase.Failed? <==> r.phase.Failed?)
    && (if r.phase.Failed? then s.Emptied() else s.View() == r)
  }

  /** One call, with a sink that has this much room. */
  method Perform(s: Session, sink: Outbox, call: SR.Call, ghost r: Server, ghost events: seq<Event>)
    requires Follows(s, sink, r, events)
    modifies s, s.transcript, s.early, sink
    ensures var (next, emitted) := Step(s.cfg, r, call.input, call.room); Follows(s, sink, next, events + emitted)
  {
    hide Handle;
    sink.room := call.room;
    assert events + [] == events;
    match call.input {
      case Read(epoch, message, d) =>
        var read := s.ReadMessage(epoch, message, d, sink);
      case NoteEarlyData(len) =>
        var noted := s.Note(len, sink);
    }
  }

  /** A session driven through any list of calls is the machine's run over them, event for event.
      If it said it is done, one of the calls read the client Finished it expected, from a known
      client if one is required; what it was charged of early data is within the limit sealed in
      the ticket it opened; if it failed, it holds no secret. It announces early-data keys at most
      once, and exactly if one of the calls read a hello that earns them. */
  method Drive(cfg: Config, calls: seq<SR.Call>) returns (s: Session, sink: Outbox)
    ensures fresh(s) && fresh(s.transcript) && fresh(s.early) && fresh(sink) && s.cfg == cfg
    ensures Follows(s, sink, SR.Run(cfg, Fresh(), calls).0, SR.Run(cfg, Fresh(), calls).1)
    ensures SR.Finishing(sink.events) ==> exists i :: SR.VerifiedBy(cfg, calls, i)
    ensures cfg.mode.Tls? && SR.Charged(cfg, calls) > 0 ==>
              exists i, limit :: SR.OpenedBy(cfg, calls, i, limit) && SR.Charged(cfg, calls) <= limit
    ensures forall k :: ZeroRttKeys(k) in sink.events <==>
              exists i :: 0 <= i < |calls| && SReports.TellsEarly(cfg, SReports.At(cfg, calls, i), calls[i], k)
    ensures |EarlySecrets(sink.events)| <= 1
  {
    hide SReports.TellsEarly, SP.Inv, EarlySecrets;
    hide SR.Run, Step, SR.Finishing, SR.VerifiedBy, SR.OpenedBy, SR.Charged;
    s := new Session(cfg);
    sink := new Outbox();
    SR.NoCalls(cfg, Fresh());
    for i := 0 to |calls|
      invariant fresh(s) && fresh(s.transcript) && fresh(s.early) && fresh(sink) && s.cfg == cfg
      invariant Follows(s, sink, SR.Run(cfg, Fresh(), calls[..i]).0, SR.Run(cfg, Fresh(), calls[..i]).1)
    {
      ghost var (r, events) := SR.Run(cfg, Fresh(), calls[..i]);
      assert calls[..i + 1] == calls[..i] + [calls[i]];
      SR.RunSnoc(cfg, Fresh(), calls[..i], calls[i]);
      Perform(s, sink, calls[i], r, events);
    }
    assert calls[..|calls|] == calls;
    if SR.Finishing(sink.events) {
      SR.FinishedRunIsVerified(cfg, calls);
    }
    SR.EarlyDataWithinLimit(cfg, calls);
    forall k ensures ZeroRttKeys(k) in sink.events <==>
        exists i :: 0 <= i < |calls| && SReports.TellsEarly(cfg, SReports.At(cfg, calls, i), calls[i], k)
    {
      SReports.EarlyKeysIff(cfg, calls, k);
    }
    SR.FreshHolds(cfg);
    SReports.EarlyKeysOnce(cfg, Fresh(), calls);
  }
}
