/** The client session object: its transcript and fields updated handler by handler, its events
    handed to a sink as they arise. */
module ClientSession {
  import opened Bytes
  import opened Symbols
  import opened ClientMachine
  import opened TranscriptHash
  import opened Sink
  import CP = ClientProofs
  import CR = ClientRuns
  import CReports = ClientReports

  class Session {
    const cfg: Config
    const transcript: Running
    var phase: Phase
    var random: nat
    var session: nat
    var hrrDone: bool
    var resumption: Option<Ticket>
    var pskUsed: bool
    var pending: Option<Share>
    var group: Group
    var early: EarlyState
    var alpn: Option<nat>
    var response: Option<Response>
    var traffic: Traffic
    var resumptionMaster: Option<Secret>
    var exporter: Option<Secret>
    var flight: Option<nat>

    ghost predicate Valid()
      reads this, transcript
    {
      transcript.Valid()
    }

    ghost function View(): Client
      requires Valid()
      reads this, transcript
    {
      Client(phase, transcript.View(), random, session, hrrDone, resumption, pskUsed, pending, group, early, alpn,
             response,
             traffic, resumptionMaster, exporter, flight)
    }

    constructor (cfg: Config, ticket: Option<Ticket>)
      ensures fresh(transcript) && this.cfg == cfg && Valid() && View() == Fresh(ticket)
    {
      this.cfg := cfg;
      transcript := new Running();
      phase, random, session, hrrDone := Initial, 0, 0, false;
      resumption, pskUsed, pending, group := ticket, false, None, 0x1d;
      early, alpn, response, traffic := NotOffered, None, None, NoSuite;
      resumptionMaster, exporter, flight := None, None, None;
    }

    /** The handler did what the machine does: the same events, as far as there was room, and
        the same state unless it failed. */
    ghost predicate Did(o: Outcome, ok: bool, sink: Outbox, before: seq<Event>, space: nat)
      reads this, transcript, sink
    {
      && Valid() && ok == (o.Next? && |o.events| <= space)
      && (ok ==> View() == o.client) && sink.Over(o.events, before, space)
    }

    /** Refusing outright is the empty failure. */
    lemma Refused(sink: Outbox)
      requires Valid()
      ensures Did(Outcome.Fail([]), false, sink, sink.events, sink.room)
    {
      sink.Untouched();
    }

    /** `Session::poison`. */
    method Poisoned()
      modifies this
      ensures phase.Failed? && traffic.NoSuite? && resumptionMaster.None? && exporter.None? && flight.None?
      ensures resumption.None?
      ensures pending.None? && early.NotOffered?
    {
      phase, pending, resumption, early := Failed, None, None, NotOffered;
      traffic, resumptionMaster, exporter, flight := NoSuite, None, None, None;
    }

    // ---------------------------------------------------------------- authentication

    /** `handle_certificate_request`. */
    method HandleCertificateRequest(m: Message, sink: Outbox) returns (ok: bool)
      requires Valid() && m.CertificateRequest?
      modifies this, transcript
      ensures Did(OnCertificateRequest(cfg, old(View()), m), ok, sink, old(sink.events), old(sink.room))
    {
      sink.Untouched();
      if response.Some? {
        return false;
      }
      var accepted := cfg.request(m.content);
      if accepted.None? {
        return false;
      }
      response := Some(if cfg.hasIdentity && accepted.value then IdentityResponse else EmptyResponse);
      transcript.Update(m);
      return true;
    }

    /** `handle_certificate`. */
    method HandleCertificate(m: Message, secrets: HandshakeSecrets, d: Draw, sink: Outbox) returns (ok: bool)
      requires Valid() && m.Certificate?
      modifies this, transcript
      ensures Did(OnCertificate(cfg, old(View()), m, secrets, d), ok, sink, old(sink.events), old(sink.room))
    {
      sink.Untouched();
      var place;
      match cfg.verifier {
        case Pinned(key) =>
          if cfg.pinnedKey(m.chain) != Some(key) {
            return false;
          }
          place := PinnedLeaf;
        case Store =>
          var leaf := cfg.validate(m.chain, d.now);
          if leaf.None? || !d.leafFits {
            return false;
          }
          place := FlightLeaf(leaf.value.kind);
          flight := Some(leaf.value.key);
      }
      transcript.Update(m);
      phase := ExpectCertificateVerify(secrets, place);
      return true;
    }

    /** `handle_certificate_verify`. */
    method HandleCertificateVerify(m: Message, secrets: HandshakeSecrets, place: Place, sink: Outbox) returns (ok: bool)
      requires Valid() && m.CertificateVerify?
      modifies this, transcript
      ensures Did(OnCertificateVerify(cfg, old(View()), m, secrets, place), ok, sink, old(sink.events), old(sink.room))
    {
      sink.Untouched();
      if !cfg.schemeOffered(m.scheme) || traffic.NoSuite? {
        return false;
      }
      var before := transcript.Finish(AlgOf(traffic.suite));
      var leaf: Option<Leaf>;
      match (place, cfg.verifier) {
        case (PinnedLeaf, Pinned(key)) => leaf := Some(Leaf(0, key));
        case (FlightLeaf(kind), Store) => leaf := if flight.None? then None else Some(Leaf(kind, flight.value));
        case _ => leaf := None;
      }
      if before.None? || leaf.None? || !cfg.verify(leaf.value, m.scheme, before.value, m.signature) {
        return false;
      }
      flight := None;
      transcript.Update(m);
      phase := ExpectServerFinished(secrets);
      return true;
    }

    // ----------------------------------------------------------- encrypted extensions

    /** What becomes of the early data the client offered; false when the answer is not acceptable. */
    method JudgeEarly(n: Negotiated) returns (ok: bool, next: EarlyState, event: Option<Event>)
      requires Valid()
      ensures ok == EarlyReply(View(), n).Some?
      ensures ok ==> EarlyReply(View(), n).value == (next, if event.None? then [] else [event.value])
      ensures ok && event.Some? ==> !event.value.Send?
    {
      match early {
        case Offered(offer) =>
          if !n.early {
            return true, NotOffered, Some(EarlyDataRejected);
          }
          if traffic.NoSuite? || hrrDone || !pskUsed || traffic.suite != offer.suite || n.alpn != offer.alpn {
            return false, early, None;
          }
          return true, Accepted, Some(EarlyDataAccepted);
        case _ =>
          return !n.early, early, None;
      }
    }

    /** `handle_encrypted_extensions`. */
    method HandleEncryptedExtensions(m: Message, secrets: HandshakeSecrets, sink: Outbox) returns (ok: bool)
      requires Valid() && m.EncryptedExtensions?
      modifies this, transcript, sink
      ensures Did(OnEncryptedExtensions(cfg, old(View()), m, secrets), ok, sink, old(sink.events), old(sink.room))
      ensures ok ==> cfg.negotiate(m.content, old(early).Offered? && !old(hrrDone)).Some?
      ensures ok ==> var n := cfg.negotiate(m.content, old(early).Offered? && !old(hrrDone)).value;
                     && (n.early ==> CReports.GrantsOffer(old(View()), n))
                     && sink.events == old(sink.events)
                                       + (match n.quic case None => [] case Some(data) => [PeerExtension(data)])
                                       + (if CReports.GrantsOffer(old(View()), n) then [EarlyDataAccepted]
                                          else if CReports.RefusesOffer(old(View()), n) then [EarlyDataRejected]
                                          else [])
    {
      hide EarlyReply, Push, Taken, CReports.GrantsOffer, CReports.RefusesOffer;
      Refused(sink);
      ghost var c := View();
      var negotiated := cfg.negotiate(m.content, early.Offered? && !hrrDone);
      if negotiated.None? {
        return false;
      }
      var n := negotiated.value;
      var fine, next, event := JudgeEarly(n);
      if !fine {
        return false;
      }
      ok := Announce(n.quic, event, sink);
      if ok {
        Settle(n.alpn, next, m, if pskUsed then ExpectServerFinished(secrets) else ExpectCertificate(secrets));
        SaysOf(cfg, c, m, secrets, n, old(sink.events), old(sink.room));
      }
    }

    /** The peer's extension, then the fate of early data. */
    method Announce(quic: Option<nat>, event: Option<Event>, sink: Outbox) returns (ok: bool)
      modifies sink
      ensures var all := (match quic case None => [] case Some(data) => [PeerExtension(data)])
                         + (if event.None? then [] else [event.value]);
              ok == (|all| <= old(sink.room)) && sink.Over(all, old(sink.events), old(sink.room))
    {
      ghost var (before, space) := (sink.events, sink.room);
      sink.Untouched();
      ghost var first := match quic case None => [] case Some(data) => [PeerExtension(data)];
      ghost var second := if event.None? then [] else [event.value];
      if quic.Some? {
        ok := sink.Emit(PeerExtension(quic.value), [], before, space);
        assert [] + [PeerExtension(quic.value)] == first && [] + [PeerExtension(quic.value)] + second == first + second;
        if !ok {
          return;
        }
      }
      assert first + [] == first;
      if event.Some? {
        ok := sink.Emit(event.value, first, before, space);
        if !ok {
          return;
        }
      }
      sink.Finished(first + second, before, space);
      return true;
    }

    method Settle(alpn: Option<nat>, early: EarlyState, m: Message, phase: Phase)
      requires Valid()
      modifies this`alpn, this`early, this`phase, transcript
      ensures Valid()
      ensures View() == old(View()).(alpn := alpn, early := early, transcript := Push(old(View()).transcript, m),
                                     phase := phase)
    {
      this.alpn, this.early, this.phase := alpn, early, phase;
      transcript.Update(m);
    }

    // ------------------------------------------------------------------------- hellos

    /** `Offer::encode` and `BinderSlot::splice`: the hello, and its binder over the forked transcript. */
    method BuildHello(share: Share, cookie: Option<nat>, offerEarly: bool,
                      offer: Option<(Ticket, nat)>) returns (hello: Option<Hello>)
      requires Valid()
      ensures hello == BoundHello(transcript.View(), PlainHello(cfg, View(), share, cookie, offerEarly, offer), offer)
      ensures hello.Some? && offer.Some? ==> transcript.View().selected != Some(Sha384)
    {
      var h := Hello(TLS_1_2, random, if cfg.mode.Tls? then session else 0, cfg.suites, true, [share], cookie,
                     offerEarly, None,
                     cfg.rest);
      match offer {
        case None => return Some(h);
        case Some((ticket, age)) =>
          var blank := Offer(ticket.identity, age, Blank);
          var digest := transcript.HashCut(h.(psk := Some(blank)));
          if digest.None? {
            return None;
          }
          return Some(h.(psk := Some(blank.(binder := Binder(ticket.psk, digest.value)))));
      }
    }

    /** The ticket and its age, while it has one. */
    method OfferNow(ticket: Option<Ticket>, now: nat) returns (offer: Option<(Ticket, nat)>)
      ensures offer == Aged(ticket, now)
    {
      if ticket.None? {
        return None;
      }
      var age := Age(ticket.value, now);
      offer := if age.None? then None else Some((ticket.value, age.value));
    }

    /** `finish_hello_retry_request`, up to sending. */
    method Prepare(group: Group, cookie: Option<nat>, d: Draw) returns (hello: Option<Hello>)
      requires Valid()
      modifies this, transcript
      ensures Valid()
      ensures AnswerRetry(cfg, old(View()), group, cookie, d) ==
              if hello.None? then Outcome.Fail([]) else Next(View(), [Send(Plaintext, [ClientHello(hello.value)])])
    {
      hide BoundHello, PlainHello, Aged, Push;
      var offer := OfferNow(resumption, d.now);
      if d.key.None? {
        return None;
      }
      var share := Share(group, d.key.value);
      hello := BuildHello(share, cookie, false, offer);
      if hello.None? {
        return;
      }
      Commit(hello.value, share, offer, early, true);
    }

    /** A hello on its way: hashed, and what it offered remembered. */
    method Commit(hello: Hello, share: Share, offer: Option<(Ticket, nat)>, early: EarlyState, again: bool)
      requires Valid()
      modifies this, transcript
      ensures Valid()
      ensures View() == old(View()).(phase := ExpectServerHello, group := share.group, hrrDone := again, early := early,
                                     transcript := Push(old(View()).transcript, ClientHello(hello)),
                                     resumption := TicketOf(offer), pending := Some(share))
    {
      hide Push;
      group, pending, resumption := share.group, Some(share), if offer.None? then None else Some(offer.value.0);
      transcript.Update(ClientHello(hello));
      hrrDone, phase, this.early := again, ExpectServerHello, early;
    }

    method Answer(group: Group, cookie: Option<nat>, d: Draw, sink: Outbox) returns (ok: bool)
      requires Valid()
      modifies this, transcript, sink
      ensures Did(AnswerRetry(cfg, old(View()), group, cookie, d), ok, sink, old(sink.events), old(sink.room))
    {
      hide AnswerRetry, Taken;
      ghost var (before, space) := (sink.events, sink.room);
      sink.Untouched();
      var hello := Prepare(group, cookie, d);
      if hello.None? {
        return false;
      }
      var event := Send(Plaintext, [ClientHello(hello.value)]);
      ok := sink.Emit(event, [], before, space);
      assert [] + [event] == [event];
      if ok {
        sink.Finished([event], before, space);
      }
    }

    /** The loop over a retry request's extensions. */
    method Scan(exts: seq<Extension>) returns (r: Option<Retry>)
      ensures r == ScanRetry(exts, 0, Retry(false, None, None))
    {
      var acc := Retry(false, None, None);
      for i := 0 to |exts|
        invariant ScanRetry(exts, 0, Retry(false, None, None)) == ScanRetry(exts, i, acc)
      {
        match exts[i] {
          case Versions(v) =>
            if v != Some(TLS_1_3) {
              return None;
            }
            acc := acc.(versions := true);
          case KeyShare(_, retry) =>
            if retry.None? {
              return None;
            }
            acc := acc.(group := retry);
          case Cookie(c) =>
            if c.None? {
              return None;
            }
            acc := acc.(cookie := c);
          case _ =>
            return None;
        }
      }
      r := Some(acc);
    }

    /** `handle_hello_retry_request`. */
    method HandleRetry(m: Message, d: Draw, sink: Outbox) returns (ok: bool)
      requires Valid() && m.ServerHello?
      modifies this, transcript, sink
      ensures Did(OnRetry(cfg, old(View()), m, d), ok, sink, old(sink.events), old(sink.room))
    {
      hide AnswerRetry, ScanRetry, Taken;
      sink.Untouched();
      if hrrDone {
        return false;
      }
      var r := Scan(m.extensions);
      if r.None? || !r.value.versions || r.value.group.None? || r.value.group.value !in GROUPS {
        return false;
      }
      if pending.Some? && pending.value.group == r.value.group.value {
        return false;
      }
      var h1 := transcript.Finish(AlgOf(m.suite));
      if h1.None? {
        return false;
      }
      transcript.Restart(AlgOf(m.suite), h1.value);
      transcript.Update(m);
      ok := Answer(r.value.group.value, r.value.cookie, d, sink);
    }

    // ------------------------------------------------------------------- server hello

    /** One pass over a ServerHello's extensions: the first of each kind, and whether all are known. */
    method Sift(exts: seq<Extension>) returns (versions: Option<Extension>, share: Option<Extension>,
                                               psk: Option<Extension>, known: bool)
      ensures versions == FindVersions(exts, 0) && share == FindShare(exts, 0) && psk == FindPsk(exts, 0)
      ensures known == OnlyHelloExtensions(exts)
    {
      versions, share, psk, known := None, None, None, true;
      for i := 0 to |exts|
        invariant FindVersions(exts, 0) == if versions.Some? then versions else FindVersions(exts, i)
        invariant FindShare(exts, 0) == if share.Some? then share else FindShare(exts, i)
        invariant FindPsk(exts, 0) == if psk.Some? then psk else FindPsk(exts, i)
        invariant known == forall k :: 0 <= k < i ==> exts[k].Versions? || exts[k].KeyShare? || exts[k].SelectedPsk?
      {
        var e := exts[i];
        if e.Versions? && versions.None? {
          versions := Some(e);
        }
        if e.KeyShare? && share.None? {
          share := Some(e);
        }
        if e.SelectedPsk? && psk.None? {
          psk := Some(e);
        }
        known := known && (e.Versions? || e.KeyShare? || e.SelectedPsk?);
      }
    }

    /** The share and the PSK choice of an acceptable ServerHello. */
    method Judge(exts: seq<Extension>, alg: Alg) returns (r: Option<(Share, bool)>)
      requires Valid()
      ensures r.Some? <==> ServerShare(exts).Some? && PskChoice(View(), alg, exts).Some?
      ensures r.Some? ==> r.value == (ServerShare(exts).value, PskChoice(View(), alg, exts).value)
    {
      hide FindVersions, FindShare, FindPsk, OnlyHelloExtensions;
      var versions, share, psk, known := Sift(exts);
      if versions != Some(Versions(Some(TLS_1_3))) || share.None? || !share.value.KeyShare? || share.value.share.None?
         || !known {
        return None;
      }
      if psk.None? {
        return Some((share.value.share.value, false));
      }
      if resumption.None? || alg != Sha256 || psk.value != SelectedPsk(Some(0)) {
        return None;
      }
      return Some((share.value.share.value, true));
    }

    /** The end of `handle_server_hello`: agree on a secret and derive the handshake keys. */
    method Derive(m: Message, share: Share, psk: bool) returns (secrets: Option<HandshakeSecrets>)
      requires Valid() && m.ServerHello?
      modifies this, transcript
      ensures Valid()
      ensures Agree(cfg, old(View()), m, share, psk) ==
              if secrets.None? then Outcome.Fail([])
              else Next(View(), [KeysReady(Handshake, secrets.value.server, secrets.value.client)])
    {
      hide Push, Hash;
      if pending.None? || pending.value.group != share.group || !cfg.agrees(share) {
        return None;
      }
      var dhe := Shared(share.group, pending.value.key, share.key);
      transcript.Update(m);
      var h := transcript.Finish(AlgOf(m.suite));
      if h.None? || (psk && resumption.None?) {
        return None;
      }
      var schedule := Mixed(Early(AlgOf(m.suite), if psk then Some(resumption.value.psk) else None), dhe);
      var derived := HandshakeSecrets(schedule, Derived(schedule, ClientHandshake, h.value),
                                      Derived(schedule, ServerHandshake, h.value));
      pskUsed, pending, resumption := psk, None, None;
      phase := ExpectEncryptedExtensions(derived);
      secrets := Some(derived);
    }

    method HandleAgreement(m: Message, share: Share, psk: bool, sink: Outbox) returns (ok: bool)
      requires Valid() && m.ServerHello?
      modifies this, transcript, sink
      ensures Did(Agree(cfg, old(View()), m, share, psk), ok, sink, old(sink.events), old(sink.room))
    {
      hide Agree, Taken;
      ghost var (before, space) := (sink.events, sink.room);
      sink.Untouched();
      var secrets := Derive(m, share, psk);
      if secrets.None? {
        return false;
      }
      var event := KeysReady(Handshake, secrets.value.server, secrets.value.client);
      ok := sink.Emit(event, [], before, space);
      assert [] + [event] == [event];
      if ok {
        sink.Finished([event], before, space);
      }
    }

    /** `handle_server_hello`. */
    method HandleServerHello(m: Message, d: Draw, sink: Outbox) returns (ok: bool)
      requires Valid() && m.ServerHello?
      modifies this, transcript, sink
      ensures Did(OnServerHello(cfg, old(View()), m, d), ok, sink, old(sink.events), old(sink.room))
    {
      hide OnRetry, Agree, ServerShare, FindPsk, PskChoice, Taken;
      sink.Untouched();
      if m.version != TLS_1_2 || m.compression != 0 || m.session != (if cfg.mode.Tls? then session else 0) {
        return false;
      }
      if m.suite !in SUITES || m.suite !in cfg.suites {
        return false;
      }
      var chosen := transcript.SelectHash(AlgOf(m.suite));
      var selected := SelectSuite(traffic, m.suite);
      if !chosen || selected.None? {
        return false;
      }
      traffic := selected.value;
      if m.random == RetryRandom {
        ok := HandleRetry(m, d, sink);
        return;
      }
      if m.random == DowngradeRandom {
        return false;
      }
      var judged := Judge(m.extensions, AlgOf(m.suite));
      PskChoiceReads(old(View()), View(), AlgOf(m.suite), m.extensions);
      if judged.None? {
        return false;
      }
      ok := HandleAgreement(m, judged.value.0, judged.value.1, sink);
    }

    // -------------------------------------------------------------------------- start

    /** Whether some offered suite hashes with SHA-256. */
    method OffersSha256() returns (some: bool)
      ensures some == SomeSha256(cfg.suites)
    {
      for i := 0 to |cfg.suites|
        invariant forall k :: 0 <= k < i ==> AlgOf(cfg.suites[k]) != Sha256
      {
        if AlgOf(cfg.suites[i]) == Sha256 {
          return true;
        }
      }
      return false;
    }

    /** `Drive::start`, up to sending: the hello, and the early-data secret if early data is offered. */
    method PrepareFirst(d: Draw) returns (hello: Option<Hello>, zero: Option<Secret>)
      requires Valid()
      modifies this, transcript
      ensures Valid()
      ensures Launch(cfg, old(View()), d) ==
              if hello.None? then Outcome.Fail([])
              else Next(View(),
                        [Send(Plaintext, [ClientHello(hello.value)])]
                          + (if zero.None? then [] else [ZeroRttKeys(zero.value)]))
      ensures hello.Some? ==> phase.ExpectServerHello?
    {
      hide BoundHello, PlainHello, Aged, SomeSha256, EarlyFor, Push;
      zero := None;
      var usable := OffersSha256();
      var offer := OfferNow(if usable then resumption else None, d.now);
      var offered := OfferEarly(offer);
      if d.key.None? {
        return None, None;
      }
      var share := Share(group, d.key.value);
      hello := BuildHello(share, None, offered.Some?, offer);
      if hello.None? {
        return None, None;
      }
      PushSelected(transcript.View(), ClientHello(hello.value));
      Commit(hello.value, share, offer, if offered.None? then NotOffered else Offered(offered.value), hrrDone);
      if offered.Some? {
        zero := EarlySecret(offer.value.0.psk);
      }
    }

    /** Early data is offered when the ticket allows it, the client wants it and offers its suite. */
    method OfferEarly(offer: Option<(Ticket, nat)>) returns (offered: Option<EarlyOffer>)
      ensures offered == EarlyFor(cfg, offer) && (offered.Some? ==> offer.Some?)
    {
      offered := None;
      if offer.Some? && offer.value.0.early.Some? && cfg.enableEarly && offer.value.0.early.value.suite in cfg.suites {
        offered := offer.value.0.early;
      }
    }

    /** The client's early traffic secret over the transcript so far, when its hash still runs. */
    method EarlySecret(psk: nat) returns (secret: Option<Secret>)
      requires Valid()
      ensures transcript.View().selected != Some(Sha384) ==>
                secret == Some(Derived(Early(Sha256, Some(psk)), ClientEarly, Digest(Sha256, transcript.View().items)))
    {
      var h := transcript.Finish(Sha256);
      secret := if h.None? then None else Some(Derived(Early(Sha256, Some(psk)), ClientEarly, h.value));
    }

    /** `start_into`: refused, without failing, unless the session is new. */
    method Begin(d: Draw, sink: Outbox) returns (ok: bool)
      requires Valid()
      modifies this, transcript, sink
      ensures Called(old(View()), StartNow(d), ok, sink, old(sink.events), old(sink.room))
      ensures !old(phase).Initial? ==> View() == old(View()) && sink.events == old(sink.events)
    {
      hide Launch;
      sink.Untouched();
      if !phase.Initial? {
        return false;
      }
      random, session := d.random, d.session;
      var hello, zero := PrepareFirst(d);
      if hello.None? {
        Poisoned();
        return false;
      }
      ok := Greet(hello.value, zero, sink);
      if !ok {
        Poisoned();
      }
    }

    /** The hello sent, then the early-data keys announced. */
    method Greet(hello: Hello, zero: Option<Secret>, sink: Outbox) returns (ok: bool)
      modifies sink
      ensures var all := [Send(Plaintext, [ClientHello(hello)])]
              + (if zero.None? then [] else [ZeroRttKeys(zero.value)]);
              ok == (|all| <= old(sink.room)) && sink.Over(all, old(sink.events), old(sink.room))
    {
      ghost var (before, space) := (sink.events, sink.room);
      sink.Untouched();
      var first := Send(Plaintext, [ClientHello(hello)]);
      ghost var second := if zero.None? then [] else [ZeroRttKeys(zero.value)];
      ok := sink.Emit(first, [], before, space);
      assert [] + [first] == [first] && [] + [first] + second == [first] + second;
      if !ok {
        return;
      }
      if zero.Some? {
        ok := sink.Emit(ZeroRttKeys(zero.value), [first], before, space);
        if !ok {
          return;
        }
      }
      assert [first] + [] == [first];
      sink.Finished([first] + second, before, space);
      return true;
    }

    /** What a call leaves: the machine's step, and after an error nothing but the failure. */
    ghost predicate Called(c: Client, input: Input, ok: bool, sink: Outbox, before: seq<Event>, space: nat)
      reads this, transcript, sink
    {
      var (next, emitted) := Step(cfg, c, input, space);
      && Valid() && sink.events == before + emitted && sink.room == space - |emitted|
      && (next.phase.Failed? <==> phase.Failed?)
      && (!next.phase.Failed? ==> View() == next)
      && (ok ==> !next.phase.Failed?)
      && (phase.Failed? && !c.phase.Failed? ==> Emptied())
    }

    /** No secret and no ticket is kept. */
    predicate Emptied()
      reads this
    {
      && traffic.NoSuite? && resumptionMaster.None? && exporter.None? && flight.None? && resumption.None?
      && pending.None?
    }

    // ----------------------------------------------------------------------- finished

    /** The client's Certificate and CertificateVerify, hashed as they are written. */
    method Respond(alg: Alg) returns (messages: Option<seq<Message>>)
      requires Valid()
      modifies transcript
      ensures Valid() && messages == ResponseMessages(cfg, old(transcript.View()), alg, response)
      ensures messages.Some? ==> transcript.View() == PushAll(old(transcript.View()), messages.value)
    {
      match response {
        case None =>
          messages := Some([]);
        case Some(EmptyResponse) =>
          transcript.UpdateAll([Certificate(0)]);
          messages := Some([Certificate(0)]);
        case Some(IdentityResponse) =>
          if !cfg.hasIdentity {
            return None;
          }
          transcript.Update(Certificate(cfg.chain));
          var h := transcript.Finish(alg);
          if h.None? {
            return None;
          }
          var signature := cfg.sign(h.value);
          if signature.None? {
            return None;
          }
          var verify := CertificateVerify(cfg.scheme, signature.value);
          transcript.UpdateAll([verify]);
          var both := [Certificate(cfg.chain), verify];
          assert both[1..] == [verify];
          messages := Some(both);
      }
    }

    /** The keys announced and, when early data ends here, its end hashed and sent. */
    method Open(keys: Event, sink: Outbox, ghost before: seq<Event>, ghost space: nat) returns (ok: bool)
      requires Valid() && sink.So([], before, space)
      modifies transcript, sink
      ensures Valid()
      ensures var opening := [keys] + EndOfEarlyEvents(cfg, View());
              && ok == (|opening| <= space)
              && (ok ==> sink.So(opening, before, space))
              && (ok ==> transcript.View() == PushAll(old(transcript.View()), EndOfEarly(cfg, View())))
              && (!ok ==> forall more: seq<Event> {:trigger opening + more} :: sink.Over(opening + more, before, space))
              && (!ok ==> sink.Over(opening, before, space))
    {
      hide Taken, PushAll;
      var end := Send(Handshake, [EndOfEarlyData]);
      var ending := early.Accepted? && cfg.mode.Tls?;
      ghost var opening := [keys] + EndOfEarlyEvents(cfg, View());
      ok := sink.Emit(keys, [], before, space);
      assert [] + [keys] == [keys];
      if !ok {
        forall more: seq<Event> ensures sink.Over(opening + more, before, space) {
          assert opening + more == [] + [keys] + (EndOfEarlyEvents(cfg, View()) + more);
        }
        assert opening == [] + [keys] + EndOfEarlyEvents(cfg, View());
        return;
      }
      if ending {
        transcript.UpdateAll([EndOfEarlyData]);
        ok := sink.Emit(end, [keys], before, space);
      } else {
        assert opening == [keys];
        transcript.UpdateAll([]);
      }
    }

    /** The fields a finished handshake fills in. */
    method Close(active: Traffic, master: Term, h: Digest, last: Digest)
      requires Valid()
      modifies this`traffic, this`exporter, this`response, this`resumptionMaster, this`phase
      ensures Valid() && View() == old(View()).(phase := Done, traffic := active, response := None,
                                                exporter := Some(Derived(master, Exporter, h)),
                                                resumptionMaster := Some(Derived(master, Resumption, last)))
    {
      traffic, response, phase := active, None, Done;
      exporter := Some(Derived(master, Exporter, h));
      resumptionMaster := Some(Derived(master, Resumption, last));
    }

    /** The client's own flight: response, Finished, and the end of the handshake. */
    method Reply(active: Traffic, secrets: HandshakeSecrets, h: Digest, alg: Alg, sink: Outbox,
                 ghost opening: seq<Event>, ghost before: seq<Event>, ghost space: nat) returns (ok: bool)
      requires Valid() && sink.So(opening, before, space)
      modifies this, transcript, sink
      ensures Did(Closing(cfg, old(View()), active, secrets, h, alg, opening), ok, sink, before, space)
    {
      hide Taken, Push, PushAll, Hash, ResponseMessages;
      sink.Finished(opening, before, space);
      var messages := Respond(alg);
      if messages.None? {
        return false;
      }
      var covered := transcript.Finish(alg);
      if covered.None? {
        return false;
      }
      var finished := Finished(FinishedMac(secrets.client, covered.value));
      StillHashes(transcript.View(), alg, finished);
      transcript.Update(finished);
      var last := transcript.Finish(alg);
      var sent := Send(Handshake, messages.value + [finished]);
      assert opening + [sent, HandshakeDone] == opening + [sent] + [HandshakeDone];
      ok := sink.Emit(sent, opening, before, space);
      if !ok {
        return;
      }
      ok := sink.Emit(HandshakeDone, opening + [sent], before, space);
      if !ok {
        return;
      }
      sink.Finished(opening + [sent] + [HandshakeDone], before, space);
      Close(active, Master(secrets.schedule), h, last.value);
    }

    /** The end of `handle_server_finished`. */
    method Conclude(secrets: HandshakeSecrets, sink: Outbox) returns (ok: bool)
      requires Valid() && HasSuite(traffic)
      modifies this, transcript, sink
      ensures Did(Finish(cfg, old(View()), secrets), ok, sink, old(sink.events), old(sink.room))
    {
      hide Taken, PushAll, Hash, Closing, EndOfEarly, EndOfEarlyEvents;
      ghost var (before, space) := (sink.events, sink.room);
      sink.Untouched();
      var (suite, alg, master) := (traffic.suite, AlgOf(traffic.suite), Master(secrets.schedule));
      var h := transcript.Finish(alg);
      if h.None? || !traffic.Selected? {
        return false;
      }
      var active := ActiveTraffic(suite, master, h.value);
      ghost var opening := [KeysReady(Application, active.server, active.client)] + EndOfEarlyEvents(cfg, View());
      ghost var c := View().(transcript := PushAll(transcript.View(), EndOfEarly(cfg, View())));
      ok := Open(KeysReady(Application, active.server, active.client), sink, before, space);
      EndingIsEarly(cfg, old(View()), View());
      if !ok {
        ClosingContinues(cfg, c, active, secrets, h.value, alg, opening);
        return;
      }
      ok := Reply(active, secrets, h.value, alg, sink, opening, before, space);
    }

    /** `handle_server_finished`. */
    method HandleServerFinished(m: Message, secrets: HandshakeSecrets, sink: Outbox) returns (ok: bool)
      requires Valid() && m.Finished?
      modifies this, transcript, sink
      ensures Did(OnServerFinished(cfg, old(View()), m, secrets), ok, sink, old(sink.events), old(sink.room))
    {
      hide Finish, Taken;
      sink.Untouched();
      if traffic.NoSuite? {
        return false;
      }
      var before := transcript.Finish(AlgOf(traffic.suite));
      if before.None? || m.mac != FinishedMac(secrets.server, before.value) {
        return false;
      }
      transcript.Update(m);
      ok := Conclude(secrets, sink);
    }

    // ----------------------------------------------------------------------- dispatch

    method AfterHandshake(epoch: Epoch, m: Message, sink: Outbox) returns (ok: bool)
      requires Valid()
      modifies sink
      ensures Did(if epoch.Application? then AfterDone(cfg, old(View()), m) else Outcome.Fail([]), ok, sink,
                  old(sink.events), old(sink.room))
    {
      ghost var (before, space) := (sink.events, sink.room);
      sink.Untouched();
      var n := cfg.postHandshake(m);
      if !epoch.Application? || n.None? {
        return false;
      }
      ok := sink.Emit(PostHandshake(n.value), [], before, space);
      assert [] + [PostHandshake(n.value)] == [PostHandshake(n.value)];
    }

    /** `Session::dispatch`. */
    method Route(epoch: Epoch, m: Message, d: Draw, sink: Outbox) returns (ok: bool)
      requires Valid()
      modifies this, transcript, sink
      ensures Did(Dispatch(cfg, old(View()), epoch, m, d), ok, sink, old(sink.events), old(sink.room))
    {
      hide Taken, OnServerHello, OnEncryptedExtensions, OnCertificateRequest, OnCertificate, OnCertificateVerify,
           OnServerFinished, Did,
           AfterDone;
      Refused(sink);
      match (phase, m) {
        case (ExpectServerHello, ServerHello(_, _, _, _, _, _)) =>
          if epoch.Plaintext? {
            ok := HandleServerHello(m, d, sink);
          } else {
            ok := false;
          }
        case (ExpectEncryptedExtensions(secrets), EncryptedExtensions(_)) =>
          if epoch.Handshake? {
            ok := HandleEncryptedExtensions(m, secrets, sink);
          } else {
            ok := false;
          }
        case (ExpectCertificate(secrets), CertificateRequest(_)) =>
          if epoch.Handshake? {
            ok := HandleCertificateRequest(m, sink);
          } else {
            ok := false;
          }
        case (ExpectCertificate(secrets), Certificate(_)) =>
          if epoch.Handshake? {
            ok := HandleCertificate(m, secrets, d, sink);
          } else {
            ok := false;
          }
        case (ExpectCertificateVerify(secrets, place), CertificateVerify(_, _)) =>
          if epoch.Handshake? {
            ok := HandleCertificateVerify(m, secrets, place, sink);
          } else {
            ok := false;
          }
        case (ExpectServerFinished(secrets), Finished(_)) =>
          if epoch.Handshake? {
            ok := HandleServerFinished(m, secrets, sink);
          } else {
            ok := false;
          }
        case (Done, KeyUpdate(_)) => ok := AfterHandshake(epoch, m, sink);
        case (Done, NewSessionTicket(_)) => ok := AfterHandshake(epoch, m, sink);
        case _ => ok := false;
      }
    }

    /** `read_framed_into`: a message that does not decode, or any error on the way, fails the session. */
    method ReadMessage(epoch: Epoch, message: Option<Message>, d: Draw, sink: Outbox) returns (ok: bool)
      requires Valid()
      modifies this, transcript, sink
      ensures Called(old(View()), Read(epoch, message, d), ok, sink, old(sink.events), old(sink.room))
      ensures old(phase).Failed? ==> View() == old(View()) && sink.events == old(sink.events)
    {
      hide Dispatch;
      sink.Untouched();
      if phase.Failed? {
        return false;
      }
      if message.None? {
        Poisoned();
        return false;
      }
      ok := Route(epoch, message.value, d, sink);
      NextLives(cfg, old(View()), epoch, message.value, d);
      if !ok {
        Poisoned();
      }
    }
  }

  /** An accepted message never leaves a failed client. */
  lemma NextLives(cfg: Config, c: Client, epoch: Epoch, m: Message, d: Draw)
    ensures var o := Dispatch(cfg, c, epoch, m, d); o.Next? ==> !o.client.phase.Failed?
  {
  }

  /** A message pushed does not stop the hash that answered before it. */
  lemma StillHashes(t: Transcript, alg: Alg, m: Message)
    requires Hash(t, alg).Some?
    ensures Hash(Push(t, m), alg) == Some(Digest(alg, Push(t, m).items))
  {
  }

  lemma PushSelected(t: Transcript, m: Message)
    ensures Push(t, m).selected == t.selected
  {
  }

  lemma EndingIsEarly(cfg: Config, c: Client, e: Client)
    requires e.early == c.early
    ensures EndOfEarly(cfg, e) == EndOfEarly(cfg, c) && EndOfEarlyEvents(cfg, e) == EndOfEarlyEvents(cfg, c)
  {
  }

  /** The events of the last flight begin with those before it. */
  lemma ClosingContinues(cfg: Config, c: Client, active: Traffic, secrets: HandshakeSecrets, h: Digest, alg: Alg,
                         opening: seq<Event>)
    ensures var o := Closing(cfg, c, active, secrets, h, alg, opening); exists more :: o.events == opening + more
    ensures |Closing(cfg, c, active, secrets, h, alg, opening).events| >= |opening|
  {
    var o := Closing(cfg, c, active, secrets, h, alg, opening);
    assert o.events == opening + o.events[|opening|..];
  }

  /** The PSK choice reads nothing of the client but whether it can resume. */
  lemma PskChoiceReads(c: Client, e: Client, alg: Alg, exts: seq<Extension>)
    requires e.resumption == c.resumption
    ensures PskChoice(e, alg, exts) == PskChoice(c, alg, exts)
  {
  }

  // ---------------------------------------------------------------------- whole runs

  /** The session and its sink stand where the machine's run stands. */
  ghost predicate Follows(s: Session, sink: Outbox, c: Client, events: seq<Event>)
    reads s, s.transcript, sink
  {
    && s.Valid() && sink.events == events && (s.phase.Failed? <==> c.phase.Failed?)
    && (if c.phase.Failed? then s.Emptied() else s.View() == c)
  }

  /** One call, with a sink that has this much room. */
  method Perform(s: Session, sink: Outbox, call: CR.Call, ghost c: Client, ghost events: seq<Event>)
    requires Follows(s, sink, c, events)
    modifies s, s.transcript, sink
    ensures var (next, emitted) := Step(s.cfg, c, call.input, call.room); Follows(s, sink, next, events + emitted)
  {
    hide Handle;
    sink.room := call.room;
    assert events + [] == events;
    match call.input {
      case StartNow(d) =>
        var started := s.Begin(d, sink);
      case Read(epoch, message, d) =>
        var read := s.ReadMessage(epoch, message, d, sink);
    }
  }

  /** Of an accepted message the sink takes every event, and they are what the extensions say. */
  lemma SaysOf(cfg: Config, c: Client, m: Message, secrets: HandshakeSecrets, n: Negotiated, before: seq<Event>,
               space: nat)
    requires m.EncryptedExtensions? && cfg.negotiate(m.content, c.early.Offered? && !c.hrrDone) == Some(n)
    requires var o := OnEncryptedExtensions(cfg, c, m, secrets); o.Next? && |o.events| <= space
    ensures n.early ==> CReports.GrantsOffer(c, n)
    ensures before + Taken(OnEncryptedExtensions(cfg, c, m, secrets).events, space) ==
            before + (match n.quic case None => [] case Some(data) => [PeerExtension(data)])
            + (if CReports.GrantsOffer(c, n) then [EarlyDataAccepted]
               else if CReports.RefusesOffer(c, n) then [EarlyDataRejected] else [])
  {
    CReports.ExtensionsSay(cfg, c, m, secrets, n);
  }

  /** A session driven through any list of calls is the machine's run over them, event for event.
      If it announced application keys or its end, one of the calls read the right Finished from
      an authenticated server; if it is done, its secrets are those its transcript determines; if
      it failed, it holds none. It reports early data accepted, or rejected, exactly if one of the
      calls read extensions that grant, or refuse, a standing offer, and never both. */
  method Drive(cfg: Config, ticket: Option<Ticket>, calls: seq<CR.Call>) returns (s: Session, sink: Outbox)
    ensures fresh(s) && fresh(s.transcript) && fresh(sink) && s.cfg == cfg
    ensures Follows(s, sink, CR.Run(cfg, Fresh(ticket), calls).0, CR.Run(cfg, Fresh(ticket), calls).1)
    ensures CR.Completes(sink.events) ==> exists i :: CR.AuthenticatedBy(cfg, ticket, calls, i)
    ensures s.phase.Done? ==> CP.Settled(s.View())
    ensures EarlyDataAccepted in sink.events <==>
            exists i :: 0 <= i < |calls| && CReports.TellsAccepted(cfg, CReports.At(cfg, ticket, calls, i), calls[i])
    ensures EarlyDataRejected in sink.events <==>
            exists i :: 0 <= i < |calls| && CReports.TellsRejected(cfg, CReports.At(cfg, ticket, calls, i), calls[i])
    ensures |Verdicts(sink.events)| <= 1
  {
    hide CR.Run, Step, CR.Completes, CR.AuthenticatedBy, CP.Settled, CReports.TellsAccepted, CReports.TellsRejected;
    s := new Session(cfg, ticket);
    sink := new Outbox();
    CR.NoCalls(cfg, Fresh(ticket));
    for i := 0 to |calls|
      invariant fresh(s) && fresh(s.transcript) && fresh(sink) && s.cfg == cfg
      invariant Follows(s, sink, CR.Run(cfg, Fresh(ticket), calls[..i]).0, CR.Run(cfg, Fresh(ticket), calls[..i]).1)
    {
      ghost var (c, events) := CR.Run(cfg, Fresh(ticket), calls[..i]);
      assert calls[..i + 1] == calls[..i] + [calls[i]];
      CR.RunSnoc(cfg, Fresh(ticket), calls[..i], calls[i]);
      Perform(s, sink, calls[i], c, events);
    }
    assert calls[..|calls|] == calls;
    if CR.Completes(sink.events) {
      CR.CompletedRunIsAuthenticated(cfg, ticket, calls);
    }
    CR.FreshHolds(cfg, ticket);
    CR.RunKeeps(cfg, Fresh(ticket), calls);
    CReports.VerdictIff(cfg, ticket, calls);
    CReports.OneVerdictAtMost(cfg, Fresh(ticket), calls);
  }
}
