/** What a client's events mean, over whole runs: which calls announce a verdict on early data,
    the peer's transport extension and early-data keys, and what the hellos it sends hold. */
module ClientReports {
  import opened Bytes
  import opened Symbols
  import opened ClientMachine
  import opened ClientProofs
  import opened ClientRuns

  // ------------------------------------------------------------- events and calls

  /** The client before call `i`. */
  ghost function At(cfg: Config, ticket: Option<Ticket>, calls: seq<Call>, i: nat): Client
    requires i <= |calls|
  {
    Run(cfg, Fresh(ticket), calls[..i]).0
  }

  /** The events of call `i`. */
  ghost function Said(cfg: Config, ticket: Option<Ticket>, calls: seq<Call>, i: nat): seq<Event>
    requires i < |calls|
  {
    Step(cfg, At(cfg, ticket, calls, i), calls[i].input, calls[i].room).1
  }

  /** An event of a run is an event of one of its calls. */
  lemma {:induction false} SaidBySomeCall(cfg: Config, ticket: Option<Ticket>, calls: seq<Call>, e: Event)
    ensures e in Run(cfg, Fresh(ticket), calls).1 <==> exists i :: 0 <= i < |calls| && e in Said(cfg, ticket, calls, i)
    decreases |calls|
  {
    hide Run, Step;
    if calls == [] {
      NoCalls(cfg, Fresh(ticket));
    } else {
      var n := |calls| - 1;
      var first := calls[..n];
      assert calls == first + [calls[n]];
      RunSnoc(cfg, Fresh(ticket), first, calls[n]);
      SaidBySomeCall(cfg, ticket, first, e);
      forall i | 0 <= i < n ensures Said(cfg, ticket, calls, i) == Said(cfg, ticket, first, i) {
        assert first[..i] == calls[..i];
      }
      assert Said(cfg, ticket, calls, n) ==
             Step(cfg, Run(cfg, Fresh(ticket), first).0, calls[n].input, calls[n].room).1;
      if i :| 0 <= i < |first| && e in Said(cfg, ticket, first, i) {
        assert e in Said(cfg, ticket, calls, i);
      }
    }
  }

  // ------------------------------------------------------- the server's extensions

  /** The call reads EncryptedExtensions, in turn and in the handshake epoch, and they negotiate to `n`. */
  ghost predicate Negotiates(cfg: Config, c: Client, call: Call, n: Negotiated)
  {
    && c.phase.ExpectEncryptedExtensions?
    && call.input.Read? && call.input.epoch.Handshake? && call.input.message.Some?
    && call.input.message.value.EncryptedExtensions?
    && cfg.negotiate(call.input.message.value.content, c.early.Offered? && !c.hrrDone) == Some(n)
  }

  /** They grant early data to an offer that stands: no retry came between, its ticket was selected, and the
      suite and protocol are the ones it was made for. */
  ghost predicate GrantsOffer(c: Client, n: Negotiated)
  {
    && c.early.Offered? && n.early
    && !c.hrrDone && c.pskUsed && !c.traffic.NoSuite? && c.traffic.suite == c.early.offer.suite
    && n.alpn == c.early.offer.alpn
  }

  ghost predicate RefusesOffer(c: Client, n: Negotiated)
  {
    c.early.Offered? && !n.early
  }

  ghost predicate TellsAccepted(cfg: Config, c: Client, call: Call)
  {
    exists n :: Negotiates(cfg, c, call, n) && GrantsOffer(c, n) && call.room >= (if n.quic.Some? then 2 else 1)
  }

  ghost predicate TellsRejected(cfg: Config, c: Client, call: Call)
  {
    exists n :: Negotiates(cfg, c, call, n) && RefusesOffer(c, n) && call.room >= (if n.quic.Some? then 2 else 1)
  }

  ghost predicate TellsExtension(cfg: Config, c: Client, call: Call, data: nat)
  {
    exists n :: Negotiates(cfg, c, call, n) && (n.early ==> GrantsOffer(c, n)) && n.quic == Some(data) && call.room >= 1
  }

  /** An event that is about neither a verdict on early data nor the transport extension. */
  predicate Plain(e: Event)
  {
    !e.EarlyDataAccepted? && !e.EarlyDataRejected? && !e.PeerExtension?
  }

  ghost predicate AllPlain(events: seq<Event>)
  {
    forall i :: 0 <= i < |events| ==> Plain(events[i])
  }

  lemma ExtensionsSay(cfg: Config, c: Client, m: Message, secrets: HandshakeSecrets, n: Negotiated)
    requires m.EncryptedExtensions? && cfg.negotiate(m.content, c.early.Offered? && !c.hrrDone) == Some(n)
    ensures OnEncryptedExtensions(cfg, c, m, secrets).events ==
            if n.early && !GrantsOffer(c, n) then []
            else (match n.quic case None => [] case Some(data) => [PeerExtension(data)])
                 + (if GrantsOffer(c, n) then [EarlyDataAccepted]
                    else if RefusesOffer(c, n) then [EarlyDataRejected] else [])
  {
  }

  /** Everything else a client handles says neither. */
  lemma OthersPlain(cfg: Config, c: Client, input: Input)
    requires !(c.phase.ExpectEncryptedExtensions? && input.Read? && input.epoch.Handshake? && input.message.Some?
               && input.message.value.EncryptedExtensions?)
    ensures AllPlain(Handle(cfg, c, input).events)
  {
    hide OnEncryptedExtensions, BoundHello, PlainHello, EarlyFor, Aged, Selecting, ServerShare, PskChoice, RetryRequest,
         ServerLeaf, KeptLeaf, ResponseMessages;
  }

  lemma StepTells(cfg: Config, c: Client, call: Call, data: nat)
    ensures var events := Step(cfg, c, call.input, call.room).1;
            && (EarlyDataAccepted in events <==> TellsAccepted(cfg, c, call))
            && (EarlyDataRejected in events <==> TellsRejected(cfg, c, call))
            && (PeerExtension(data) in events <==> TellsExtension(cfg, c, call, data))
  {
    hide Handle, GrantsOffer, AllPlain;
    var (input, room) := (call.input, call.room);
    var events := Handle(cfg, c, input).events;
    if c.phase.ExpectEncryptedExtensions? && input.Read? && input.epoch.Handshake? && input.message.Some?
       && input.message.value.EncryptedExtensions? {
      HandlesExtensions(cfg, c, input.message.value, input.draw);
      var m := input.message.value;
      var found := cfg.negotiate(m.content, c.early.Offered? && !c.hrrDone);
      assert forall n :: Negotiates(cfg, c, call, n) <==> Some(n) == found;
      hide Negotiates;
      if found.Some? {
        ExtensionsSay(cfg, c, m, c.phase.secrets, found.value);
        CutSays(c, found.value, events, room, data);
      }
    } else {
      assert forall n :: !Negotiates(cfg, c, call, n);
      hide Negotiates;
      OthersPlain(cfg, c, input);
      PlainIn(events, room, data);
    }
  }

  lemma CutSays(c: Client, n: Negotiated, events: seq<Event>, room: nat, data: nat)
    requires events == if n.early && !GrantsOffer(c, n) then []
                       else (match n.quic case None => [] case Some(x) => [PeerExtension(x)])
                            + (if GrantsOffer(c, n) then [EarlyDataAccepted]
                               else if RefusesOffer(c, n) then [EarlyDataRejected] else [])
    ensures var cut := if |events| <= room then events else events[..room];
            var enough := room >= if n.quic.Some? then 2 else 1;
            && (EarlyDataAccepted in cut <==> GrantsOffer(c, n) && enough)
            && (EarlyDataRejected in cut <==> RefusesOffer(c, n) && enough)
            && (PeerExtension(data) in cut <==> (n.early ==> GrantsOffer(c, n)) && n.quic == Some(data) && room >= 1)
  {
    var cut := if |events| <= room then events else events[..room];
    assert |events| <= 2;
    assert forall i :: 0 <= i < |cut| ==> cut[i] == events[i];
    if |cut| > 0 {
      assert events[0] in cut;
    }
    if |cut| > 1 {
      assert events[1] in cut;
    }
  }

  lemma HandlesExtensions(cfg: Config, c: Client, m: Message, d: Draw)
    requires c.phase.ExpectEncryptedExtensions? && m.EncryptedExtensions?
    ensures Handle(cfg, c, Read(Handshake, Some(m), d)) == OnEncryptedExtensions(cfg, c, m, c.phase.secrets)
    ensures cfg.negotiate(m.content, c.early.Offered? && !c.hrrDone).None? ==>
            OnEncryptedExtensions(cfg, c, m, c.phase.secrets) == Fail([])
  {
    hide EarlyReply;
  }

  lemma PlainIn(events: seq<Event>, room: nat, data: nat)
    requires AllPlain(events)
    ensures var cut := if |events| <= room then events else events[..room];
            EarlyDataAccepted !in cut && EarlyDataRejected !in cut && PeerExtension(data) !in cut
  {
  }

  /** Over every run: early data is reported accepted exactly by a call that read extensions granting it to a
      standing offer, and rejected exactly by one that read extensions refusing it. */
  lemma VerdictIff(cfg: Config, ticket: Option<Ticket>, calls: seq<Call>)
    ensures EarlyDataAccepted in Run(cfg, Fresh(ticket), calls).1 <==>
            exists i :: 0 <= i < |calls| && TellsAccepted(cfg, At(cfg, ticket, calls, i), calls[i])
    ensures EarlyDataRejected in Run(cfg, Fresh(ticket), calls).1 <==>
            exists i :: 0 <= i < |calls| && TellsRejected(cfg, At(cfg, ticket, calls, i), calls[i])
  {
    hide Run, Step, TellsAccepted, TellsRejected, TellsExtension;
    SaidBySomeCall(cfg, ticket, calls, EarlyDataAccepted);
    SaidBySomeCall(cfg, ticket, calls, EarlyDataRejected);
    forall i | 0 <= i < |calls|
      ensures EarlyDataAccepted in Said(cfg, ticket, calls, i) <==>
              TellsAccepted(cfg, At(cfg, ticket, calls, i), calls[i])
      ensures EarlyDataRejected in Said(cfg, ticket, calls, i) <==>
              TellsRejected(cfg, At(cfg, ticket, calls, i), calls[i])
    {
      StepTells(cfg, At(cfg, ticket, calls, i), calls[i], 0);
    }
  }

  /** Over every run: a transport extension is reported exactly by a call that read extensions holding it,
      with whatever they say of early data being in order. */
  lemma ExtensionIff(cfg: Config, ticket: Option<Ticket>, calls: seq<Call>, data: nat)
    ensures PeerExtension(data) in Run(cfg, Fresh(ticket), calls).1 <==>
            exists i :: 0 <= i < |calls| && TellsExtension(cfg, At(cfg, ticket, calls, i), calls[i], data)
  {
    hide Run, Step, TellsAccepted, TellsRejected, TellsExtension;
    SaidBySomeCall(cfg, ticket, calls, PeerExtension(data));
    forall i | 0 <= i < |calls|
      ensures PeerExtension(data) in Said(cfg, ticket, calls, i) <==>
              TellsExtension(cfg, At(cfg, ticket, calls, i), calls[i], data)
    {
      StepTells(cfg, At(cfg, ticket, calls, i), calls[i], data);
    }
  }

  // ------------------------------------------------------------- at most one verdict

  /** No verdict on early data has been given yet. */
  predicate Undecided(c: Client)
  {
    c.phase.Initial? || c.phase.ExpectServerHello? || c.phase.ExpectEncryptedExtensions?
  }

  lemma {:induction false} PlainVerdicts(events: seq<Event>)
    requires AllPlain(events)
    ensures Verdicts(events) == []
    decreases |events|
  {
    if events != [] {
      PlainVerdicts(events[1..]);
    }
  }

  lemma FewVerdicts(events: seq<Event>)
    requires |events| <= 2 && (|events| == 2 ==> events[0].PeerExtension?)
    ensures |Verdicts(events)| <= 1
  {
    if |events| == 2 {
      assert events == [events[0]] + [events[1]];
      VerdictsAppend([events[0]], [events[1]]);
      OneVerdict(events[0]);
      OneVerdict(events[1]);
    } else if |events| == 1 {
      assert events == [events[0]];
      OneVerdict(events[0]);
    }
  }

  lemma StepVerdicts(cfg: Config, c: Client, input: Input, room: nat)
    ensures var (next, events) := Step(cfg, c, input, room);
            && |Verdicts(events)| <= 1
            && (!Undecided(c) ==> Verdicts(events) == [] && !Undecided(next))
            && (Verdicts(events) != [] ==> !Undecided(next))
  {
    hide Handle, AllPlain, GrantsOffer, RefusesOffer;
    var o := Handle(cfg, c, input);
    var cut := if |o.events| <= room then o.events else o.events[..room];
    if c.phase.ExpectEncryptedExtensions? && input.Read? && input.epoch.Handshake? && input.message.Some?
       && input.message.value.EncryptedExtensions? {
      var m := input.message.value;
      HandlesExtensions(cfg, c, m, input.draw);
      ExtensionsMove(cfg, c, m, c.phase.secrets);
      var found := cfg.negotiate(m.content, c.early.Offered? && !c.hrrDone);
      if found.Some? {
        ExtensionsSay(cfg, c, m, c.phase.secrets, found.value);
      }
      FewVerdicts(cut);
    } else {
      OthersPlain(cfg, c, input);
      PlainCut(o.events, room);
      if !input.StartNow? || c.phase.Initial? {
        NoWayBack(cfg, c, input);
      }
    }
  }

  lemma PlainCut(events: seq<Event>, room: nat)
    requires AllPlain(events)
    ensures Verdicts(if |events| <= room then events else events[..room]) == []
    ensures Verdicts([]) == []
  {
    PlainVerdicts(if |events| <= room then events else events[..room]);
  }

  lemma ExtensionsMove(cfg: Config, c: Client, m: Message, secrets: HandshakeSecrets)
    requires m.EncryptedExtensions?
    ensures var o := OnEncryptedExtensions(cfg, c, m, secrets); o.Next? ==> !Undecided(o.client)
  {
    hide EarlyReply;
  }

  lemma NoWayBack(cfg: Config, c: Client, input: Input)
    requires !(input.StartNow? && !c.phase.Initial?)
    ensures var o := Handle(cfg, c, input); !Undecided(c) && o.Next? ==> !Undecided(o.client)
  {
    hide BoundHello, PlainHello, EarlyFor, Aged, OnServerHello, EarlyReply, ServerLeaf, KeptLeaf, ResponseMessages;
  }

  /** Over every run at most one verdict on early data is reported. */
  lemma {:induction false} OneVerdictAtMost(cfg: Config, c: Client, calls: seq<Call>)
    ensures |Verdicts(Run(cfg, c, calls).1)| <= 1
    ensures !Undecided(c) ==> Verdicts(Run(cfg, c, calls).1) == []
    decreases |calls|
  {
    hide Step, Undecided;
    if calls != [] {
      var (next, events) := Step(cfg, c, calls[0].input, calls[0].room);
      StepVerdicts(cfg, c, calls[0].input, calls[0].room);
      OneVerdictAtMost(cfg, next, calls[1..]);
      VerdictsAppend(events, Run(cfg, next, calls[1..]).1);
    }
  }

  // ----------------------------------------------------------------- the hellos

  /** The ticket is in its lifetime, and its age can be written in 32 bits. */
  ghost predicate InLifetime(t: Ticket, now: nat)
  {
    t.receivedAt <= now <= t.receivedAt + t.lifetime && now - t.receivedAt < 0x1_0000_0000
  }

  /** The hello is the configured one, with these random values and this share. */
  ghost predicate Configured(cfg: Config, random: nat, session: nat, share: Share, cookie: Option<nat>, h: Hello)
  {
    && h.version == 0x0303 && h.random == random && h.session == (if cfg.mode.Tls? then session else 0)
    && h.suites == cfg.suites && h.compression && h.shares == [share] && h.cookie == cookie && h.rest == cfg.rest
  }

  /** The hello offers the ticket: its identity, its age now, and a binder made with its key over everything
      before the binder. */
  ghost predicate OffersTicket(t: Ticket, now: nat, before: seq<Item>, h: Hello)
  {
    h.psk.Some? && h.psk.value == Offer(
      t.identity, (now - t.receivedAt + t.ageAdd) % 0x1_0000_0000,
      Binder(t.psk, Digest(Sha256, before + [Cut(ClientHello(h.(psk := Some(h.psk.value.(binder := Blank)))))])))
  }

  /** A ticket is offered by the first hello when some suite hashes with SHA-256 and it is in its lifetime. */
  ghost predicate Offerable(cfg: Config, ticket: Option<Ticket>, now: nat)
  {
    ticket.Some? && InLifetime(ticket.value, now) && exists suite :: suite in cfg.suites && suite != 0x1302
  }

  /** Early data goes with it when it is enabled and the ticket's suite is one of those offered. */
  ghost predicate WantsEarly(cfg: Config, ticket: Option<Ticket>, now: nat)
  {
    && Offerable(cfg, ticket, now) && cfg.enableEarly
    && ticket.value.early.Some? && ticket.value.early.value.suite in cfg.suites
  }

  ghost predicate IsFirstHello(cfg: Config, ticket: Option<Ticket>, d: Draw, h: Hello)
  {
    && d.key.Some? && Configured(cfg, d.random, d.session, Share(0x1d, d.key.value), None, h)
    && (h.psk.Some? <==> Offerable(cfg, ticket, d.now))
    && (h.psk.Some? ==> OffersTicket(ticket.value, d.now, [], h))
    && (h.early <==> WantsEarly(cfg, ticket, d.now))
  }

  /** The secret a ticket's key and the first hello give for early data. */
  ghost function EarlySecret(psk: nat, h: Hello): Secret
  {
    Derived(Early(Sha256, Some(psk)), ClientEarly, Digest(Sha256, [Whole(ClientHello(h))]))
  }

  lemma SuitesHash(suites: seq<nat>)
    ensures SomeSha256(suites) <==> exists suite :: suite in suites && suite != 0x1302
  {
    if suite :| suite in suites && suite != 0x1302 {
      var i :| 0 <= i < |suites| && suites[i] == suite;
      assert AlgOf(suites[i]) == Sha256;
    }
    if i :| 0 <= i < |suites| && AlgOf(suites[i]) == Sha256 {
      assert suites[i] in suites;
    }
  }

  lemma AgedIff(ticket: Option<Ticket>, now: nat)
    ensures ticket.Some? && InLifetime(ticket.value, now) ==>
            Aged(ticket, now) ==
            Some((ticket.value, (now - ticket.value.receivedAt + ticket.value.ageAdd) % 0x1_0000_0000))
    ensures Aged(ticket, now).Some? ==> ticket.Some? && InLifetime(ticket.value, now)
  {
  }

  /** The first call of a fresh client: the hello it sends, and the keys after it. */
  lemma StartSays(cfg: Config, ticket: Option<Ticket>, d: Draw) returns (h: Hello)
    requires d.key.Some?
    ensures IsFirstHello(cfg, ticket, d, h)
    ensures Start(cfg, Fresh(ticket), d).Next?
    ensures Start(cfg, Fresh(ticket), d).events ==
            [Send(Plaintext, [ClientHello(h)])]
            + if h.early then [ZeroRttKeys(EarlySecret(ticket.value.psk, h))] else []
    ensures var c := Start(cfg, Fresh(ticket), d).client;
            && c.phase.ExpectServerHello? && !c.hrrDone && c.random == d.random && c.session == d.session
            && c.pending == Some(Share(0x1d, d.key.value)) && c.transcript == Transcript(None, [Whole(ClientHello(h))])
            && c.resumption == if h.psk.Some? then ticket else None
  {
    hide SomeSha256, Aged, InLifetime;
    SuitesHash(cfg.suites);
    AgedIff(ticket, d.now);
    var c := Fresh(ticket).(random := d.random, session := d.session);
    var offer := Aged(if SomeSha256(cfg.suites) then ticket else None, d.now);
    AgedIff(None, d.now);
    assert offer.Some? <==> Offerable(cfg, ticket, d.now);
    var early := EarlyFor(cfg, offer);
    assert early.Some? <==> WantsEarly(cfg, ticket, d.now);
    var share := Share(c.group, d.key.value);
    var plain := PlainHello(cfg, c, share, None, early.Some?, offer);
    h := BoundHello(c.transcript, plain, offer).value;
    Binding(c.transcript, plain, offer);
    assert c.transcript.items == [];
    assert [] + [Whole(ClientHello(h))] == [Whole(ClientHello(h))];
  }

  lemma Binding(t: Transcript, plain: Hello, offer: Option<(Ticket, nat)>)
    requires plain.psk ==
             match offer case None => None case Some((ticket, age)) => Some(Offer(ticket.identity, age, Blank))
    requires t.selected.None? || t.selected == Some(Sha256)
    ensures BoundHello(t, plain, offer).Some?
    ensures var h := BoundHello(t, plain, offer).value;
            && h == plain.(psk := h.psk) && (h.psk.Some? <==> offer.Some?)
            && (offer.Some? ==> h.psk.value == Offer(offer.value.0.identity, offer.value.1,
                  Binder(offer.value.0.psk,
                         Digest(Sha256, t.items + [Cut(ClientHello(h.(psk := Some(h.psk.value.(binder := Blank)))))]))))
  {
  }

  // ---------------------------------------------------------- the retry request

  /** The last of several: this entry satisfies it and none after it is of its kind. */
  ghost predicate LastShare(exts: seq<Extension>, from: nat, group: Group)
  {
    exists k :: from <= k < |exts| && exts[k].KeyShare? && exts[k].retry == Some(group) && NoShareFrom(exts, k + 1)
  }

  ghost predicate NoShareFrom(exts: seq<Extension>, from: nat)
  {
    forall j :: from <= j < |exts| ==> !exts[j].KeyShare?
  }

  ghost predicate LastCookie(exts: seq<Extension>, from: nat, cookie: nat)
  {
    exists k :: from <= k < |exts| && exts[k] == Cookie(Some(cookie)) && NoCookieFrom(exts, k + 1)
  }

  ghost predicate NoCookieFrom(exts: seq<Extension>, from: nat)
  {
    forall j :: from <= j < |exts| ==> !exts[j].Cookie?
  }

  ghost predicate HasVersionFrom(exts: seq<Extension>, from: nat)
  {
    exists k :: from <= k < |exts| && exts[k].Versions?
  }

  /** An extension that may stand in a retry request: TLS 1.3, a group, or a cookie. */
  predicate RetryExtension(e: Extension)
  {
    e == Versions(Some(0x0304)) || (e.KeyShare? && e.retry.Some?) || (e.Cookie? && e.cookie.Some?)
  }

  ghost predicate RetryExtensionsFrom(exts: seq<Extension>, from: nat)
  {
    forall k :: from <= k < |exts| ==> RetryExtension(exts[k])
  }

  lemma {:induction false} ScanIs(exts: seq<Extension>, i: nat, acc: Retry)
    requires i <= |exts|
    ensures ScanRetry(exts, i, acc).Some? <==> RetryExtensionsFrom(exts, i)
    ensures ScanRetry(exts, i, acc).Some? ==>
            var r := ScanRetry(exts, i, acc).value;
            && (r.versions <==> acc.versions || HasVersionFrom(exts, i))
            && (if NoShareFrom(exts, i) then r.group == acc.group
                else r.group.Some? && LastShare(exts, i, r.group.value))
            && (if NoCookieFrom(exts, i) then r.cookie == acc.cookie
                else r.cookie.Some? && LastCookie(exts, i, r.cookie.value))
    decreases |exts| - i
  {
    if i < |exts| {
      FromHere(exts, i);
      var next := match exts[i] case Versions(v) => acc.(versions := true)
                                case KeyShare(_, retry) => acc.(group := retry)
                                case Cookie(c) => acc.(cookie := c)
                                case _ => acc;
      ScanIs(exts, i + 1, next);
      if RetryExtensionsFrom(exts, i) {
        assert RetryExtension(exts[i]);
        ScanLast(exts, i);
      }
    }
  }

  lemma FromHere(exts: seq<Extension>, i: nat)
    requires i < |exts|
    ensures RetryExtensionsFrom(exts, i) <==> RetryExtension(exts[i]) && RetryExtensionsFrom(exts, i + 1)
    ensures NoShareFrom(exts, i) <==> !exts[i].KeyShare? && NoShareFrom(exts, i + 1)
    ensures NoCookieFrom(exts, i) <==> !exts[i].Cookie? && NoCookieFrom(exts, i + 1)
    ensures HasVersionFrom(exts, i) <==> exts[i].Versions? || HasVersionFrom(exts, i + 1)
  {
  }

  lemma ScanLast(exts: seq<Extension>, i: nat)
    requires i < |exts|
    ensures forall g :: LastShare(exts, i + 1, g) ==> LastShare(exts, i, g)
    ensures forall c :: LastCookie(exts, i + 1, c) ==> LastCookie(exts, i, c)
    ensures exts[i].KeyShare? && exts[i].retry.Some? && NoShareFrom(exts, i + 1) ==>
            LastShare(exts, i, exts[i].retry.value)
    ensures exts[i].Cookie? && exts[i].cookie.Some? && NoCookieFrom(exts, i + 1) ==>
            LastCookie(exts, i, exts[i].cookie.value)
  {
  }

  /** The extensions ask, under TLS 1.3, for a share of this group and for this cookie to be returned. */
  ghost predicate Asks(exts: seq<Extension>, group: Group, cookie: Option<nat>)
  {
    && RetryExtensionsFrom(exts, 0) && HasVersionFrom(exts, 0) && LastShare(exts, 0, group)
    && match cookie case None => NoCookieFrom(exts, 0) case Some(x) => LastCookie(exts, 0, x)
  }

  lemma RequestAsks(c: Client, exts: seq<Extension>)
    requires RetryRequest(c, exts).Some?
    ensures var (group, cookie) := RetryRequest(c, exts).value;
            && Asks(exts, group, cookie) && group in {0x1d, 0x17, 0x11ec}
            && (c.pending.Some? ==> c.pending.value.group != group)
  {
    hide ScanRetry, LastShare, LastCookie;
    ScanIs(exts, 0, Retry(false, None, None));
  }

  // ------------------------------------------------------------- the ServerHello

  /** The checks a retry request and a hello share: version, echoed session, no compression, and a suite that is
      both known and offered, and the one a retry settled. */
  ghost predicate Chooses(cfg: Config, c: Client, m: Message)
    requires m.ServerHello?
  {
    && m.version == 0x0303 && m.compression == 0 && m.session == (if cfg.mode.Tls? then c.session else 0)
    && m.suite in {0x1301, 0x1302, 0x1303} && m.suite in cfg.suites
    && (c.hrrDone ==> c.traffic == Selected(m.suite))
  }

  lemma ChoosesIff(cfg: Config, c: Client, m: Message)
    requires m.ServerHello? && c.phase.ExpectServerHello? && Inv(cfg, c)
    ensures Selecting(cfg, c, m).Some? <==> Chooses(cfg, c, m)
    ensures var chosen := c.(transcript := c.transcript.(selected := Some(AlgOf(m.suite))),
                             traffic := Selected(m.suite));
            Chooses(cfg, c, m) ==> Selecting(cfg, c, m) == Some(chosen)
  {
  }

  /** The first extension of its kind. */
  ghost predicate FirstVersion(exts: seq<Extension>, from: nat, e: Extension)
  {
    exists k :: from <= k < |exts| && exts[k] == e && e.Versions? &&
                forall j :: from <= j < k ==> !exts[j].Versions?
  }

  ghost predicate FirstShare(exts: seq<Extension>, from: nat, e: Extension)
  {
    exists k :: from <= k < |exts| && exts[k] == e && e.KeyShare? &&
                forall j :: from <= j < k ==> !exts[j].KeyShare?
  }

  ghost predicate FirstPsk(exts: seq<Extension>, from: nat, e: Extension)
  {
    exists k :: from <= k < |exts| && exts[k] == e && e.SelectedPsk? &&
                forall j :: from <= j < k ==> !exts[j].SelectedPsk?
  }

  lemma {:induction false} FindIs(exts: seq<Extension>, i: nat)
    requires i <= |exts|
    ensures FindVersions(exts, i).Some? ==> FirstVersion(exts, i, FindVersions(exts, i).value)
    ensures FindShare(exts, i).Some? ==> FirstShare(exts, i, FindShare(exts, i).value)
    ensures FindPsk(exts, i).Some? ==> FirstPsk(exts, i, FindPsk(exts, i).value)
    ensures FindPsk(exts, i).None? ==> forall k :: i <= k < |exts| ==> !exts[k].SelectedPsk?
    decreases |exts| - i
  {
    if i < |exts| {
      FindIs(exts, i + 1);
      if FindVersions(exts, i + 1).Some? && !exts[i].Versions? {
        var e := FindVersions(exts, i + 1).value;
        var k :| i + 1 <= k < |exts| && exts[k] == e && e.Versions? &&
                 forall j :: i + 1 <= j < k ==> !exts[j].Versions?;
        assert forall j :: i <= j < k ==> !exts[j].Versions?;
      }
      if FindShare(exts, i + 1).Some? && !exts[i].KeyShare? {
        var e := FindShare(exts, i + 1).value;
        var k :| i + 1 <= k < |exts| && exts[k] == e && e.KeyShare? &&
                 forall j :: i + 1 <= j < k ==> !exts[j].KeyShare?;
        assert forall j :: i <= j < k ==> !exts[j].KeyShare?;
      }
      if FindPsk(exts, i + 1).Some? && !exts[i].SelectedPsk? {
        var e := FindPsk(exts, i + 1).value;
        var k :| i + 1 <= k < |exts| && exts[k] == e && e.SelectedPsk? &&
                 forall j :: i + 1 <= j < k ==> !exts[j].SelectedPsk?;
        assert forall j :: i <= j < k ==> !exts[j].SelectedPsk?;
      }
    }
  }

  /** A ServerHello the client may go on with: TLS 1.3, nothing it did not ask for, no downgrade, a share of the
      group it offered, and a PSK only if it offered one, under SHA-256, as the first. */
  ghost predicate Answers(cfg: Config, c: Client, m: Message, share: Share, psk: bool)
    requires m.ServerHello?
  {
    && Chooses(cfg, c, m) && m.random.Ordinary?
    && (forall k :: 0 <= k < |m.extensions| ==>
          m.extensions[k].Versions? || m.extensions[k].KeyShare? || m.extensions[k].SelectedPsk?)
    && FirstVersion(m.extensions, 0, Versions(Some(0x0304)))
    && (exists retry :: FirstShare(m.extensions, 0, KeyShare(Some(share), retry)))
    && c.pending.Some? && share.group == c.pending.value.group && cfg.agrees(share)
    && if psk then c.resumption.Some? && m.suite != 0x1302 && FirstPsk(m.extensions, 0, SelectedPsk(Some(0)))
       else forall k :: 0 <= k < |m.extensions| ==> !m.extensions[k].SelectedPsk?
  }

  /** Whatever ServerHello a client goes on with is such a one, and its secrets are those of the ticket's key, if
      it was selected, the two shares, and the transcript up to that hello. */
  lemma TakenHello(cfg: Config, c: Client, m: Message, d: Draw) returns (share: Share, psk: bool)
    requires m.ServerHello? && c.phase.ExpectServerHello? && Inv(cfg, c)
    requires OnServerHello(cfg, c, m, d).Next? && !OnServerHello(cfg, c, m, d).client.phase.ExpectServerHello?
    ensures Answers(cfg, c, m, share, psk)
    ensures var alg := if m.suite == 0x1302 then Sha384 else Sha256;
            var items := c.transcript.items + [Whole(m)];
            var mixed := Mixed(Early(alg, if psk then Some(c.resumption.value.psk) else None),
                               Shared(share.group, c.pending.value.key, share.key));
            var client := Derived(mixed, ClientHandshake, Digest(alg, items));
            var server := Derived(mixed, ServerHandshake, Digest(alg, items));
            && OnServerHello(cfg, c, m, d).events == [KeysReady(Handshake, server, client)]
            && OnServerHello(cfg, c, m, d).client ==
               c.(phase := ExpectEncryptedExtensions(HandshakeSecrets(mixed, client, server)), pskUsed := psk,
                  transcript := Transcript(Some(alg), items), traffic := Selected(m.suite),
                  pending := None, resumption := None)
  {
    hide Inv, Chooses, Selecting, FirstVersion, FirstShare, FirstPsk, FindVersions, FindShare, FindPsk, RetryRequest;
    ChoosesIff(cfg, c, m);
    FindIs(m.extensions, 0);
    AlgIs(m.suite);
    share := ServerShare(m.extensions).value;
    psk := PskChoice(c, AlgOf(m.suite), m.extensions).value;
    var e := FindShare(m.extensions, 0).value;
    assert e == KeyShare(Some(share), e.retry);
  }

  lemma AlgIs(suite: nat)
    ensures AlgOf(suite) == if suite == 0x1302 then Sha384 else Sha256
  {
  }

  // ------------------------------------------------------------ the second hello

  /** The hello that answers a retry request: the first one with the share and cookie asked for, no early data, and
      the ticket offered again while it lasts, under a new binder over the restarted transcript. */
  ghost predicate IsSecondHello(cfg: Config, ticket: Option<Ticket>, g: Hello, m: Message, d: Draw, group: Group,
                                cookie: Option<nat>, h: Hello)
    requires m.ServerHello?
  {
    && d.key.Some? && !h.early
    && h == g.(shares := [Share(group, d.key.value)], cookie := cookie, early := false, psk := h.psk)
    && (h.psk.Some? <==> g.psk.Some? && ticket.Some? && InLifetime(ticket.value, d.now))
    && (h.psk.Some? ==>
          && m.suite != 0x1302
          && OffersTicket(ticket.value, d.now, [Restart(Digest(Sha256, [Whole(ClientHello(g))])), Whole(m)], h))
  }

  /** A client that has sent its first hello and nothing else. */
  ghost predicate Opened1(cfg: Config, ticket: Option<Ticket>, d: Draw, g: Hello, c: Client)
  {
    && c.phase.ExpectServerHello? && !c.hrrDone && IsFirstHello(cfg, ticket, d, g)
    && c.random == d.random && c.session == d.session && c.pending == Some(Share(0x1d, d.key.value))
    && c.transcript == Transcript(None, [Whole(ClientHello(g))])
    && c.resumption == if g.psk.Some? then ticket else None
  }

  lemma StartOpens(cfg: Config, ticket: Option<Ticket>, d: Draw) returns (g: Hello)
    requires d.key.Some?
    ensures Start(cfg, Fresh(ticket), d).Next? && Opened1(cfg, ticket, d, g, Start(cfg, Fresh(ticket), d).client)
    ensures Start(cfg, Fresh(ticket), d).events ==
            [Send(Plaintext, [ClientHello(g)])]
            + if g.early then [ZeroRttKeys(EarlySecret(ticket.value.psk, g))] else []
  {
    hide IsFirstHello, Start;
    g := StartSays(cfg, ticket, d);
  }

  /** What a client that waits for the server's hello sends is an answer to a retry request. */
  lemma AnswerSays(cfg: Config, ticket: Option<Ticket>, first: Draw, g: Hello, c: Client, m: Message, d: Draw)
    returns (group: Group, cookie: Option<nat>, h: Hello)
    requires m.ServerHello? && Opened1(cfg, ticket, first, g, c) && Inv(cfg, c)
    requires OnServerHello(cfg, c, m, d).Next? && OnServerHello(cfg, c, m, d).client.phase.ExpectServerHello?
    ensures OnServerHello(cfg, c, m, d).events == [Send(Plaintext, [ClientHello(h)])]
    ensures m.random.RetryRandom? && Chooses(cfg, c, m)
    ensures Asks(m.extensions, group, cookie) && group in {0x17, 0x11ec}
    ensures IsSecondHello(cfg, ticket, g, m, d, group, cookie, h)
    ensures OnServerHello(cfg, c, m, d).client.hrrDone
  {
    hide Inv, Chooses, Selecting, RetryRequest, Asks, BoundHello, InLifetime, Aged;
    ChoosesIff(cfg, c, m);
    var chosen := Selecting(cfg, c, m).value;
    RequestSame(c, chosen, m.extensions);
    RequestAsks(c, m.extensions);
    var (g2, k2) := RetryRequest(c, m.extensions).value;
    group, cookie := g2, k2;
    AlgIs(m.suite);
    AgedIff(c.resumption, d.now);
    var offer := Aged(c.resumption, d.now);
    var items := [Restart(Digest(AlgOf(m.suite), [Whole(ClientHello(g))]))] + [Whole(m)];
    var t := Transcript(Some(AlgOf(m.suite)), items);
    var plain := PlainHello(cfg, chosen, Share(group, d.key.value), cookie, false, offer);
    h := BoundHello(t, plain, offer).value;
    if offer.Some? {
      BinderNeedsSha256(t, plain, offer);
    }
    if AlgOf(m.suite) == Sha256 || offer.None? {
      BindingEither(t, plain, offer);
    }
    assert items == [Restart(Digest(AlgOf(m.suite), [Whole(ClientHello(g))])), Whole(m)];
    assert h == g.(shares := [Share(group, d.key.value)], cookie := cookie, early := false, psk := h.psk);
    assert h.psk.Some? <==> g.psk.Some? && ticket.Some? && InLifetime(ticket.value, d.now);
    assert h.psk.Some? ==> m.suite != 0x1302;
  }

  lemma RequestSame(c: Client, d: Client, exts: seq<Extension>)
    requires c.pending == d.pending
    ensures RetryRequest(c, exts) == RetryRequest(d, exts)
  {
  }

  lemma BinderNeedsSha256(t: Transcript, plain: Hello, offer: Option<(Ticket, nat)>)
    requires offer.Some? && plain.psk.Some? && BoundHello(t, plain, offer).Some?
    ensures t.selected.None? || t.selected == Some(Sha256)
  {
  }

  lemma BindingEither(t: Transcript, plain: Hello, offer: Option<(Ticket, nat)>)
    requires plain.psk ==
             match offer case None => None case Some((ticket, age)) => Some(Offer(ticket.identity, age, Blank))
    requires offer.None? || t.selected.None? || t.selected == Some(Sha256)
    ensures BoundHello(t, plain, offer).Some?
    ensures offer.None? ==> BoundHello(t, plain, offer).value == plain
    ensures var h := BoundHello(t, plain, offer).value;
            offer.Some? ==>
            && h == plain.(psk := h.psk) && h.psk.Some?
            && h.psk.value == Offer(offer.value.0.identity, offer.value.1,
                 Binder(offer.value.0.psk,
                        Digest(Sha256, t.items + [Cut(ClientHello(h.(psk := Some(h.psk.value.(binder := Blank)))))])))
  {
    if offer.Some? {
      Binding(t, plain, offer);
    }
  }

  /** Until something is read, a client that began is as it was. */
  lemma StepStays(cfg: Config, c: Client, input: Input, room: nat)
    requires !c.phase.Initial?
    ensures var next := Step(cfg, c, input, room).0;
            && !next.phase.Initial?
            && (next.phase.ExpectServerHello? && !next.hrrDone ==> next == c)
  {
    hide BoundHello, PlainHello, EarlyFor, Aged, EarlyReply, ServerLeaf, KeptLeaf, ResponseMessages, ServerShare,
         PskChoice, RetryRequest;
  }

  lemma {:induction false} StillWaiting(cfg: Config, ticket: Option<Ticket>, calls: seq<Call>, i: nat)
    requires 1 <= i <= |calls| && !At(cfg, ticket, calls, 1).phase.Initial?
    ensures var c := At(cfg, ticket, calls, i);
            && !c.phase.Initial?
            && (c.phase.ExpectServerHello? && !c.hrrDone ==> c == At(cfg, ticket, calls, 1))
  {
    hide Step, Run;
    if i > 1 {
      StillWaiting(cfg, ticket, calls, i - 1);
      NextCall(cfg, ticket, calls, i - 1);
      StepStays(cfg, At(cfg, ticket, calls, i - 1), calls[i - 1].input, calls[i - 1].room);
    }
  }

  lemma NextCall(cfg: Config, ticket: Option<Ticket>, calls: seq<Call>, i: nat)
    requires i < |calls|
    ensures At(cfg, ticket, calls, i + 1) == Step(cfg, At(cfg, ticket, calls, i), calls[i].input, calls[i].room).0
  {
    hide Step, Run;
    assert calls[..i + 1] == calls[..i] + [calls[i]];
    RunSnoc(cfg, Fresh(ticket), calls[..i], calls[i]);
  }

  // ------------------------------------------------------------------ whole runs

  /** The events install no early-data keys, and no hello among them offers early data. */
  ghost predicate Later(events: seq<Event>)
  {
    forall k :: 0 <= k < |events| ==>
      !events[k].ZeroRttKeys? && (events[k].Send? ==> NoEarlyHello(events[k].messages))
  }

  ghost predicate NoEarlyHello(ms: seq<Message>)
  {
    forall j :: 0 <= j < |ms| && ms[j].ClientHello? ==> !ms[j].hello.early
  }

  lemma AnswerIsLater(cfg: Config, c: Client, group: Group, cookie: Option<nat>, d: Draw)
    ensures Later(AnswerRetry(cfg, c, group, cookie, d).events)
  {
    var offer := Aged(c.resumption, d.now);
    if d.key.Some? {
      var plain := PlainHello(cfg, c, Share(group, d.key.value), cookie, false, offer);
      var bound := BoundHello(c.transcript, plain, offer);
      assert bound.Some? ==> !bound.value.early;
    }
  }

  lemma HandleIsLater(cfg: Config, c: Client, input: Input)
    requires input.Read?
    ensures Later(Handle(cfg, c, input).events)
  {
    hide EarlyReply, ServerLeaf, KeptLeaf, ServerShare, PskChoice, RetryRequest, Selecting, AnswerRetry;
    if c.phase.ExpectServerHello? && input.message.Some? && input.message.value.ServerHello? {
      var m := input.message.value;
      var chosen := Selecting(cfg, c, m);
      if chosen.Some? && RetryRequest(chosen.value, m.extensions).Some?
         && Hash(chosen.value.transcript, AlgOf(m.suite)).Some? {
        var (group, cookie) := RetryRequest(chosen.value, m.extensions).value;
        var h1 := Hash(chosen.value.transcript, AlgOf(m.suite)).value;
        AnswerIsLater(cfg, chosen.value.(transcript := Push(Restarted(AlgOf(m.suite), h1), m)), group, cookie,
                      input.draw);
      }
    }
    if c.phase.ExpectEncryptedExtensions? && input.message.Some? && input.message.value.EncryptedExtensions? {
      ExtensionsLater(cfg, c, input.message.value, c.phase.secrets);
    }
    if c.phase.ExpectServerFinished? && input.message.Some? && input.message.value.Finished? {
      FinishedLater(cfg, c, input.message.value, c.phase.secrets);
    }
  }

  lemma ExtensionsLater(cfg: Config, c: Client, m: Message, secrets: HandshakeSecrets)
    requires m.EncryptedExtensions?
    ensures Later(OnEncryptedExtensions(cfg, c, m, secrets).events)
  {
  }

  lemma FinishedLater(cfg: Config, c: Client, m: Message, secrets: HandshakeSecrets)
    requires m.Finished?
    ensures Later(OnServerFinished(cfg, c, m, secrets).events)
  {
  }

  lemma CutLater(events: seq<Event>, room: nat)
    requires Later(events)
    ensures Later(if |events| <= room then events else events[..room])
  {
  }

  lemma {:induction false} RunIsLater(cfg: Config, c: Client, calls: seq<Call>)
    requires !c.phase.Initial?
    ensures Later(Run(cfg, c, calls).1)
    decreases |calls|
  {
    hide Step, Later;
    if calls == [] {
      NothingLater();
    } else {
      var (next, events) := Step(cfg, c, calls[0].input, calls[0].room);
      StepIsLater(cfg, c, calls[0].input, calls[0].room);
      StepStays(cfg, c, calls[0].input, calls[0].room);
      RunIsLater(cfg, next, calls[1..]);
      LaterAppend(events, Run(cfg, next, calls[1..]).1);
    }
  }

  lemma NothingLater()
    ensures Later([])
  {
  }

  lemma LaterAppend(a: seq<Event>, b: seq<Event>)
    requires Later(a) && Later(b)
    ensures Later(a + b)
  {
  }

  lemma StepIsLater(cfg: Config, c: Client, input: Input, room: nat)
    requires !c.phase.Initial?
    ensures Later(Step(cfg, c, input, room).1)
  {
    hide Handle, Later;
    NothingLater();
    if input.Read? {
      HandleIsLater(cfg, c, input);
      CutLater(Handle(cfg, c, input).events, room);
    }
  }

  lemma {:induction false} LaterSecrets(events: seq<Event>)
    requires Later(events)
    ensures EarlySecrets(events) == []
    decreases |events|
  {
    if events != [] {
      assert forall k :: 0 <= k < |events| - 1 ==> events[1..][k] == events[k + 1];
      LaterSecrets(events[1..]);
    }
  }

  /** A run says something only if its first call began the handshake: then it opens with the first hello, and
      installs early-data keys, once and next, exactly when that hello offers early data and the sink takes more
      than the hello; a sink that takes only the hello ends the run there. */
  lemma OpeningOf(cfg: Config, ticket: Option<Ticket>, calls: seq<Call>) returns (g: Hello)
    requires Run(cfg, Fresh(ticket), calls).1 != []
    ensures calls != [] && calls[0].input.StartNow? && calls[0].room >= 1
    ensures IsFirstHello(cfg, ticket, calls[0].input.draw, g)
    ensures var events := Run(cfg, Fresh(ticket), calls).1;
            && events[0] == Send(Plaintext, [ClientHello(g)])
            && EarlySecrets(events) ==
               (if g.early && calls[0].room >= 2 then [EarlySecret(ticket.value.psk, g)] else [])
            && (g.early && calls[0].room >= 2 ==>
                  |events| >= 2 && events[1] == ZeroRttKeys(EarlySecret(ticket.value.psk, g)))
            && (g.early && calls[0].room == 1 ==> events == [Send(Plaintext, [ClientHello(g)])])
            && Later(events[if g.early && calls[0].room >= 2 then 2 else 1..])
  {
    hide Handle, IsFirstHello, Later, Step;
    var call := calls[0];
    var c := Fresh(ticket);
    var (next, said) := Step(cfg, c, call.input, call.room);
    var rest := Run(cfg, next, calls[1..]).1;
    FirstStep(cfg, ticket, call);
    if next.phase.Failed? {
      FailedIsSilent(cfg, next, calls[1..]);
    }
    assert said != [];
    g := FirstSays(cfg, ticket, call);
    RunIsLater(cfg, next, calls[1..]);
    EarlyAppend(said, rest);
    LaterSecrets(rest);
    assert (said + rest)[|said|..] == rest;
    SaidSecrets(said, g, ticket, call.room);
    if g.early && call.room == 1 {
      assert said + [] == said;
    }
  }

  lemma FirstStep(cfg: Config, ticket: Option<Ticket>, call: Call)
    ensures var (next, said) := Step(cfg, Fresh(ticket), call.input, call.room);
            said == [] ==> next.phase.Failed?
    ensures Step(cfg, Fresh(ticket), call.input, call.room).1 != [] ==>
            call.input.StartNow? && call.room >= 1 && call.input.draw.key.Some?
  {
    hide BoundHello, PlainHello, EarlyFor, Aged;
  }

  /** What the first call says, and whether it fails, with this much room. */
  lemma FirstSays(cfg: Config, ticket: Option<Ticket>, call: Call) returns (g: Hello)
    requires call.input.StartNow? && call.room >= 1 && call.input.draw.key.Some?
    ensures IsFirstHello(cfg, ticket, call.input.draw, g) && (g.early ==> ticket.Some?)
    ensures var (next, said) := Step(cfg, Fresh(ticket), call.input, call.room);
            && said == [Send(Plaintext, [ClientHello(g)])]
                       + (if g.early && call.room >= 2 then [ZeroRttKeys(EarlySecret(ticket.value.psk, g))] else [])
            && !next.phase.Initial?
            && (g.early && call.room == 1 ==> next.phase.Failed?)
  {
    hide Start, Opened1;
    g := StartOpens(cfg, ticket, call.input.draw);
    OpenedFacts(cfg, ticket, call.input.draw, g, Start(cfg, Fresh(ticket), call.input.draw).client);
    var events := Start(cfg, Fresh(ticket), call.input.draw).events;
    if g.early {
      assert events[..1] == [Send(Plaintext, [ClientHello(g)])];
    }
  }

  lemma OpenedFacts(cfg: Config, ticket: Option<Ticket>, d: Draw, g: Hello, c: Client)
    requires Opened1(cfg, ticket, d, g, c)
    ensures IsFirstHello(cfg, ticket, d, g) && !c.phase.Initial? && (g.early ==> ticket.Some?)
  {
  }

  lemma SaidSecrets(said: seq<Event>, g: Hello, ticket: Option<Ticket>, room: nat)
    requires g.early ==> ticket.Some?
    requires said == [Send(Plaintext, [ClientHello(g)])]
                     + (if g.early && room >= 2 then [ZeroRttKeys(EarlySecret(ticket.value.psk, g))] else [])
    ensures EarlySecrets(said) == if g.early && room >= 2 then [EarlySecret(ticket.value.psk, g)] else []
    ensures |said| == if g.early && room >= 2 then 2 else 1
  {
    var hello := [Send(Plaintext, [ClientHello(g)])];
    OneSecret(hello[0]);
    if g.early && room >= 2 {
      var keys := [ZeroRttKeys(EarlySecret(ticket.value.psk, g))];
      OneSecret(keys[0]);
      EarlyAppend(hello, keys);
    } else {
      assert said == hello;
    }
  }

  /** A hello sent by a later call answers a retry request that call read: it is the second hello for the first
      one sent, whatever happened in between. */
  lemma SecondHelloIs(cfg: Config, ticket: Option<Ticket>, calls: seq<Call>, i: nat, h: Hello)
    returns (g: Hello, group: Group, cookie: Option<nat>)
    requires 0 < i < |calls| && Send(Plaintext, [ClientHello(h)]) in Said(cfg, ticket, calls, i)
    ensures calls[0].input.StartNow? && IsFirstHello(cfg, ticket, calls[0].input.draw, g)
    ensures calls[i].input.Read? && calls[i].input.epoch.Plaintext? && calls[i].input.message.Some?
    ensures var m := calls[i].input.message.value;
            && m.ServerHello? && m.random.RetryRandom? && Asks(m.extensions, group, cookie) && group in {0x17, 0x11ec}
            && m.version == 0x0303 && m.compression == 0 && m.session == g.session
            && m.suite in {0x1301, 0x1302, 0x1303} && m.suite in cfg.suites
            && IsSecondHello(cfg, ticket, g, m, calls[i].input.draw, group, cookie, h)
  {
    hide Run, Step, Handle, IsFirstHello, Asks, Inv, InLifetime, OnServerHello;
    var c := At(cfg, ticket, calls, i);
    FreshHolds(cfg, ticket);
    RunKeeps(cfg, Fresh(ticket), calls[..i]);
    NotYet(cfg, ticket, calls, i);
    SendsHello(cfg, c, calls[i].input, calls[i].room, h);
    g := Began(cfg, ticket, calls, i);
    var m := calls[i].input.message.value;
    var h2;
    group, cookie, h2 := AnswerSays(cfg, ticket, calls[0].input.draw, g, c, m, calls[i].input.draw);
    assert h2 == h;
    SessionOf(cfg, ticket, calls[0].input.draw, g);
  }

  lemma SessionOf(cfg: Config, ticket: Option<Ticket>, d: Draw, g: Hello)
    requires IsFirstHello(cfg, ticket, d, g)
    ensures g.session == if cfg.mode.Tls? then d.session else 0
  {
  }

  /** By the second call the client has begun, or never will. */
  lemma NotYet(cfg: Config, ticket: Option<Ticket>, calls: seq<Call>, i: nat)
    requires 0 < i <= |calls|
    ensures !At(cfg, ticket, calls, 1).phase.Initial? && !At(cfg, ticket, calls, i).phase.Initial?
  {
    hide Run, Step;
    assert calls[..0] == [];
    NoCalls(cfg, Fresh(ticket));
    NextCall(cfg, ticket, calls, 0);
    LeavesInitial(cfg, Fresh(ticket), calls[0].input, calls[0].room);
    StillWaiting(cfg, ticket, calls, i);
  }

  lemma LeavesInitial(cfg: Config, c: Client, input: Input, room: nat)
    requires c.phase.Initial?
    ensures !Step(cfg, c, input, room).0.phase.Initial?
  {
    hide BoundHello, PlainHello, EarlyFor, Aged;
  }

  /** Only a retry request makes a client that began send a hello. */
  lemma SendsHello(cfg: Config, c: Client, input: Input, room: nat, h: Hello)
    requires !c.phase.Initial? && Inv(cfg, c) && Send(Plaintext, [ClientHello(h)]) in Step(cfg, c, input, room).1
    ensures c.phase.ExpectServerHello? && !c.hrrDone
    ensures input.Read? && input.epoch.Plaintext? && input.message.Some? && input.message.value.ServerHello?
    ensures var o := OnServerHello(cfg, c, input.message.value, input.draw);
            && o.Next? && o.client.phase.ExpectServerHello? && Send(Plaintext, [ClientHello(h)]) in o.events
  {
    hide Inv, BoundHello, PlainHello, EarlyFor, Aged, ServerLeaf, KeptLeaf, ServerShare, PskChoice, RetryRequest,
         Selecting;
    var o := Handle(cfg, c, input);
    assert Send(Plaintext, [ClientHello(h)]) in o.events;
    if c.phase.ExpectServerFinished? && input.Read? && input.message.Some? && input.message.value.Finished? {
      FinishedSendsNoHello(cfg, c, input.message.value, c.phase.secrets, h);
    }
    if c.phase.ExpectServerHello? && input.Read? && input.message.Some? && input.message.value.ServerHello? {
      SelectingKeeps(cfg, c, input.message.value);
    }
  }

  lemma SelectingKeeps(cfg: Config, c: Client, m: Message)
    requires m.ServerHello?
    ensures Selecting(cfg, c, m).Some? ==> Selecting(cfg, c, m).value.hrrDone == c.hrrDone
  {
  }

  lemma FinishedSendsNoHello(cfg: Config, c: Client, m: Message, secrets: HandshakeSecrets, h: Hello)
    requires m.Finished?
    ensures Send(Plaintext, [ClientHello(h)]) !in OnServerFinished(cfg, c, m, secrets).events
  {
  }

  /** A client still waiting for its first answer is as its first call left it. */
  lemma Began(cfg: Config, ticket: Option<Ticket>, calls: seq<Call>, i: nat) returns (g: Hello)
    requires 0 < i <= |calls|
    requires var c := At(cfg, ticket, calls, i); c.phase.ExpectServerHello? && !c.hrrDone
    ensures calls[0].input.StartNow?
    ensures Opened1(cfg, ticket, calls[0].input.draw, g, At(cfg, ticket, calls, i))
  {
    hide Run, Step, Opened1, Start;
    NotYet(cfg, ticket, calls, i);
    StillWaiting(cfg, ticket, calls, i);
    assert calls[..0] == [];
    NoCalls(cfg, Fresh(ticket));
    NextCall(cfg, ticket, calls, 0);
    FirstWaits(cfg, ticket, calls[0]);
    g := StartOpens(cfg, ticket, calls[0].input.draw);
  }

  lemma FirstWaits(cfg: Config, ticket: Option<Ticket>, call: Call)
    requires Step(cfg, Fresh(ticket), call.input, call.room).0.phase.ExpectServerHello?
    ensures call.input.StartNow? && call.input.draw.key.Some?
    ensures var o := Start(cfg, Fresh(ticket), call.input.draw);
            o.Next? && Step(cfg, Fresh(ticket), call.input, call.room).0 == o.client
  {
    hide BoundHello, PlainHello, EarlyFor, Aged;
  }

  // ------------------------------------------------------ every offer gets its verdict

  lemma StepDecides(cfg: Config, c: Client, input: Input, room: nat)
    requires !c.phase.Initial?
    ensures var (next, events) := Step(cfg, c, input, room);
            !next.phase.Failed? ==>
            if Undecided(c) && !Undecided(next) then
              Verdicts(events) == if c.early.Offered? then [next.early.Accepted?] else []
            else
              next.early == c.early && Verdicts(events) == [] && (!Undecided(c) ==> !Undecided(next))
  {
    hide Handle, AllPlain, GrantsOffer, RefusesOffer;
    var o := Handle(cfg, c, input);
    if c.phase.ExpectEncryptedExtensions? && input.Read? && input.epoch.Handshake? && input.message.Some?
       && input.message.value.EncryptedExtensions? {
      var m := input.message.value;
      HandlesExtensions(cfg, c, m, input.draw);
      ExtensionsMove(cfg, c, m, c.phase.secrets);
      ExtensionsDecide(cfg, c, m, c.phase.secrets);
    } else {
      OthersPlain(cfg, c, input);
      PlainCut(o.events, room);
      if input.Read? {
        OthersKeepEarly(cfg, c, input);
      }
    }
  }

  lemma ExtensionsDecide(cfg: Config, c: Client, m: Message, secrets: HandshakeSecrets)
    requires m.EncryptedExtensions?
    ensures var o := OnEncryptedExtensions(cfg, c, m, secrets);
            o.Next? ==> Verdicts(o.events) == if c.early.Offered? then [o.client.early.Accepted?] else []
  {
    hide Verdicts;
    var o := OnEncryptedExtensions(cfg, c, m, secrets);
    if o.Next? {
      var n := cfg.negotiate(m.content, c.early.Offered? && !c.hrrDone).value;
      var events := EarlyReply(c, n).value.1;
      NoVerdict();
      if events != [] {
        assert events == [events[0]];
        OneVerdict(events[0]);
      }
      if n.quic.Some? {
        OneVerdict(PeerExtension(n.quic.value));
        VerdictsAppend([PeerExtension(n.quic.value)], events);
      } else {
        assert [] + events == events;
      }
    }
  }

  lemma NoVerdict()
    ensures Verdicts([]) == []
  {
  }

  lemma OthersKeepEarly(cfg: Config, c: Client, input: Input)
    requires input.Read?
    requires !(c.phase.ExpectEncryptedExtensions? && input.epoch.Handshake? && input.message.Some?
               && input.message.value.EncryptedExtensions?)
    ensures var o := Handle(cfg, c, input);
            o.Next? ==> o.client.early == c.early && (Undecided(o.client) <==> Undecided(c))
  {
    hide OnEncryptedExtensions, BoundHello, PlainHello, EarlyFor, Aged, ServerShare, PskChoice, RetryRequest,
         ServerLeaf, KeptLeaf, ResponseMessages;
  }

  lemma {:induction false} RunDecides(cfg: Config, c: Client, calls: seq<Call>)
    requires !c.phase.Initial?
    ensures var (last, events) := Run(cfg, c, calls);
            !last.phase.Failed? ==>
            if Undecided(c) && !Undecided(last) then
              Verdicts(events) == if c.early.Offered? then [last.early.Accepted?] else []
            else
              last.early == c.early && Verdicts(events) == [] && (!Undecided(c) ==> !Undecided(last))
    decreases |calls|
  {
    hide Step, Undecided;
    NoVerdict();
    if calls != [] {
      var (next, events) := Step(cfg, c, calls[0].input, calls[0].room);
      StepStays(cfg, c, calls[0].input, calls[0].room);
      StepDecides(cfg, c, calls[0].input, calls[0].room);
      RunDecides(cfg, next, calls[1..]);
      VerdictsAppend(events, Run(cfg, next, calls[1..]).1);
      if next.phase.Failed? {
        FailedIsSilent(cfg, next, calls[1..]);
      }
    }
  }

  /** Over every run that has not failed and has read the server's extensions: a client that sent early data has
      been told once what became of it, and one that did not has been told nothing. */
  lemma EveryOfferGetsItsVerdict(cfg: Config, ticket: Option<Ticket>, calls: seq<Call>)
    requires var last := Run(cfg, Fresh(ticket), calls).0; !last.phase.Failed? && !Undecided(last)
    ensures var (last, events) := Run(cfg, Fresh(ticket), calls);
            Verdicts(events) == if EarlySecrets(events) != [] then [last.early.Accepted?] else []
  {
    hide Run, Step, Handle, Undecided, IsFirstHello, Later, Start;
    var (last, events) := Run(cfg, Fresh(ticket), calls);
    FreshUndecided(ticket);
    NoCalls(cfg, Fresh(ticket));
    assert calls != [];
    RunFirst(cfg, Fresh(ticket), calls);
    var call := calls[0];
    var (next, said) := Step(cfg, Fresh(ticket), call.input, call.room);
    LeavesInitial(cfg, Fresh(ticket), call.input, call.room);
    RunDecides(cfg, next, calls[1..]);
    if next.phase.Failed? {
      FailedIsSilent(cfg, next, calls[1..]);
    }
    FirstStep(cfg, ticket, call);
    var g := FirstSays(cfg, ticket, call);
    var rest := Run(cfg, next, calls[1..]).1;
    RunIsLater(cfg, next, calls[1..]);
    LaterSecrets(rest);
    EarlyAppend(said, rest);
    VerdictsAppend(said, rest);
    SaidSecrets(said, g, ticket, call.room);
    FirstOffers(cfg, ticket, call, g);
  }

  lemma FreshUndecided(ticket: Option<Ticket>)
    ensures Undecided(Fresh(ticket))
  {
  }

  lemma RunFirst(cfg: Config, c: Client, calls: seq<Call>)
    requires calls != []
    ensures var (next, said) := Step(cfg, c, calls[0].input, calls[0].room);
            Run(cfg, c, calls) == (Run(cfg, next, calls[1..]).0, said + Run(cfg, next, calls[1..]).1)
  {
    hide Step;
  }

  /** The first call leaves an offer standing exactly when its hello makes one. */
  lemma FirstOffers(cfg: Config, ticket: Option<Ticket>, call: Call, g: Hello)
    requires call.input.StartNow? && call.room >= 1 && call.input.draw.key.Some?
    requires var (next, said) := Step(cfg, Fresh(ticket), call.input, call.room);
             !next.phase.Failed? && said != [] && said[0] == Send(Plaintext, [ClientHello(g)])
    ensures var (next, said) := Step(cfg, Fresh(ticket), call.input, call.room);
            && (next.early.Offered? <==> g.early) && Undecided(next) && Verdicts(said) == []
  {
    hide Aged, SomeSha256;
    var c := Fresh(ticket);
    var d := call.input.draw;
    var offer := Aged(if SomeSha256(cfg.suites) then c.resumption else None, d.now);
    var plain := PlainHello(cfg, c.(random := d.random, session := d.session), Share(c.group, d.key.value), None,
                            EarlyFor(cfg, offer).Some?, offer);
    var bound := BoundHello(c.transcript, plain, offer);
    assert bound.Some? ==> bound.value.early == plain.early;
    var said := Step(cfg, c, call.input, call.room).1;
    PlainVerdicts(said);
  }

  // ------------------------------------------------------- messages in turn

  /** The message a client waits for, and the epoch it must come in. */
  ghost predicate Awaited(c: Client, epoch: Epoch, m: Message)
  {
    match m
    case ServerHello(_, _, _, _, _, _) => c.phase.ExpectServerHello? && epoch.Plaintext?
    case EncryptedExtensions(_) => c.phase.ExpectEncryptedExtensions? && epoch.Handshake?
    case CertificateRequest(_) => c.phase.ExpectCertificate? && c.response.None? && epoch.Handshake?
    case Certificate(_) => c.phase.ExpectCertificate? && epoch.Handshake?
    case CertificateVerify(_, _) => c.phase.ExpectCertificateVerify? && epoch.Handshake?
    case Finished(_) => c.phase.ExpectServerFinished? && epoch.Handshake?
    case KeyUpdate(_) => c.phase.Done? && epoch.Application?
    case NewSessionTicket(_) => c.phase.Done? && epoch.Application?
    case _ => false
  }

  lemma StepReadsInTurn(cfg: Config, c: Client, input: Input, room: nat)
    requires input.Read? && !Step(cfg, c, input, room).0.phase.Failed?
    ensures input.message.Some? && Awaited(c, input.epoch, input.message.value)
  {
    hide OnServerHello, OnEncryptedExtensions, OnCertificate, OnCertificateVerify, OnServerFinished;
  }

  /** Over every run: a client survives no message but the one it waited for, in that message's own epoch. */
  lemma ReadsInTurn(cfg: Config, ticket: Option<Ticket>, calls: seq<Call>, i: nat)
    requires i < |calls| && calls[i].input.Read? && !At(cfg, ticket, calls, i + 1).phase.Failed?
    ensures calls[i].input.message.Some?
    ensures Awaited(At(cfg, ticket, calls, i), calls[i].input.epoch, calls[i].input.message.value)
  {
    hide Run, Step, Awaited;
    NextCall(cfg, ticket, calls, i);
    StepReadsInTurn(cfg, At(cfg, ticket, calls, i), calls[i].input, calls[i].room);
  }

  // ------------------------------------------------------- requests for a certificate

  /** The call reads a request for a certificate. */
  ghost predicate ReadsRequest(call: Call, content: nat)
  {
    call.input.Read? && call.input.message == Some(CertificateRequest(content))
  }

  /** With an identity that the request accepts the client will show it, and otherwise an empty Certificate. */
  ghost predicate ResponseFor(cfg: Config, content: nat, response: Response)
  {
    cfg.request(content).Some? &&
    response == if cfg.hasIdentity && cfg.request(content).value then IdentityResponse else EmptyResponse
  }

  lemma StepResponds(cfg: Config, c: Client, call: Call)
    ensures var next := Step(cfg, c, call.input, call.room).0;
            !next.phase.Failed? && !next.phase.Done? ==>
            && (forall content :: ReadsRequest(call, content) ==>
                  c.response.None? && next.response.Some? && ResponseFor(cfg, content, next.response.value))
            && ((forall content :: !ReadsRequest(call, content)) ==> next.response == c.response)
  {
    hide BoundHello, PlainHello, EarlyFor, Aged, EarlyReply, ServerLeaf, KeptLeaf, ResponseMessages, ServerShare,
         PskChoice, RetryRequest;
    var input := call.input;
    if input.Read? && input.message.Some? && input.message.value.CertificateRequest? {
      assert ReadsRequest(call, input.message.value.content);
    }
  }

  lemma NotDoneBefore(cfg: Config, c: Client, call: Call)
    ensures var next := Step(cfg, c, call.input, call.room).0;
            !next.phase.Failed? && !next.phase.Done? ==> !c.phase.Failed? && !c.phase.Done?
  {
    hide OnServerHello, OnEncryptedExtensions, OnCertificate, OnCertificateVerify, OnServerFinished, Start;
  }

  /** Over every run, until the client is done: what it will answer is settled by the one request it has read, and
      it answers nothing if it has read none. */
  lemma {:induction false} RequestSettlesResponse(cfg: Config, ticket: Option<Ticket>, calls: seq<Call>, i: nat)
    requires i <= |calls|
    requires var c := At(cfg, ticket, calls, i); !c.phase.Failed? && !c.phase.Done?
    ensures At(cfg, ticket, calls, i).response.None? ==>
            forall j, content :: 0 <= j < i ==> !ReadsRequest(calls[j], content)
    ensures At(cfg, ticket, calls, i).response.Some? ==>
            exists j, content :: 0 <= j < i && ReadsRequest(calls[j], content) &&
                                 ResponseFor(cfg, content, At(cfg, ticket, calls, i).response.value)
    decreases i
  {
    hide Run, Step, ReadsRequest, ResponseFor;
    if i == 0 {
      assert calls[..0] == [];
      NoCalls(cfg, Fresh(ticket));
    } else {
      var c := At(cfg, ticket, calls, i - 1);
      NextCall(cfg, ticket, calls, i - 1);
      NotDoneBefore(cfg, c, calls[i - 1]);
      RequestSettlesResponse(cfg, ticket, calls, i - 1);
      StepResponds(cfg, c, calls[i - 1]);
    }
  }

  // ------------------------------------------------------------------ finishing

  /** The client's own messages before its Finished: the end of early data, where records carry it, and what the
      server asked for; a signature covers everything up to the Certificate. */
  ghost predicate Responds(cfg: Config, alg: Alg, before: seq<Item>, response: Option<Response>, ms: seq<Message>)
  {
    match response
    case None => ms == []
    case Some(EmptyResponse) => ms == [Certificate(0)]
    case Some(IdentityResponse) =>
      && cfg.hasIdentity && cfg.sign(Digest(alg, before + Wholes([Certificate(cfg.chain)]))).Some?
      && ms == [Certificate(cfg.chain),
                CertificateVerify(cfg.scheme, cfg.sign(Digest(alg, before + Wholes([Certificate(cfg.chain)]))).value)]
  }

  /** How a client finishes, all of it: the application keys over the transcript up to the server's Finished, the end
      of early data if it was accepted, its answer to a request, and its own Finished over everything before it. */
  ghost predicate Finishes(cfg: Config, c: Client, secrets: HandshakeSecrets, m: Message, ms: seq<Message>,
                           events: seq<Event>)
  {
    !c.traffic.NoSuite? &&
    var alg := if c.traffic.suite == 0x1302 then Sha384 else Sha256;
    var heard := c.transcript.items + Wholes([m]);
    var ending := if c.early.Accepted? && cfg.mode.Tls? then [EndOfEarlyData] else [];
    var finished := Finished(Mac(secrets.client, Digest(alg, heard + Wholes(ending) + Wholes(ms))));
    var master := Master(secrets.schedule);
    && m == Finished(Mac(secrets.server, Digest(alg, c.transcript.items)))
    && Responds(cfg, alg, heard + Wholes(ending), c.response, ms)
    && events == [KeysReady(Application, Derived(master, ServerTraffic, Digest(alg, heard)),
                            Derived(master, ClientTraffic, Digest(alg, heard)))]
                 + (if ending == [] then [] else [Send(Handshake, ending)])
                 + [Send(Handshake, ms + [finished]), HandshakeDone]
  }

  lemma FinishedSays(cfg: Config, c: Client, m: Message) returns (ms: seq<Message>)
    requires c.phase.ExpectServerFinished? && m.Finished?
    requires OnServerFinished(cfg, c, m, c.phase.secrets).Next?
    ensures Finishes(cfg, c, c.phase.secrets, m, ms, OnServerFinished(cfg, c, m, c.phase.secrets).events)
  {
    hide PushAll, ResponseMessages;
    var secrets := c.phase.secrets;
    var alg := AlgOf(c.traffic.suite);
    AlgIs(c.traffic.suite);
    var t := Push(c.transcript, m);
    OnePush(c.transcript, m);
    var ending := EndOfEarly(cfg, c);
    var u := PushAll(t, ending);
    PushedAll(t, ending);
    SameEarly(cfg, c, c.(transcript := t));
    ms := ResponseMessages(cfg, u, alg, c.response).value;
    ResponseIs(cfg, u, alg, c.response);
    PushedAll(u, ms);
  }

  lemma SameEarly(cfg: Config, c: Client, d: Client)
    requires c.early == d.early
    ensures EndOfEarly(cfg, c) == EndOfEarly(cfg, d) && EndOfEarlyEvents(cfg, c) == EndOfEarlyEvents(cfg, d)
  {
  }

  lemma ResponseIs(cfg: Config, t: Transcript, alg: Alg, response: Option<Response>)
    requires ResponseMessages(cfg, t, alg, response).Some?
    ensures Responds(cfg, alg, t.items, response, ResponseMessages(cfg, t, alg, response).value)
  {
    OnePush(t, Certificate(cfg.chain));
  }

  /** Over every run: the call that makes a client done read the server's Finished, over everything before it and
      under the key of this handshake, and says exactly how the client finishes. */
  lemma DoneByFinishing(cfg: Config, ticket: Option<Ticket>, calls: seq<Call>, i: nat) returns (ms: seq<Message>)
    requires i < |calls| && !At(cfg, ticket, calls, i).phase.Done? && At(cfg, ticket, calls, i + 1).phase.Done?
    ensures At(cfg, ticket, calls, i).phase.ExpectServerFinished?
    ensures calls[i].input.Read? && calls[i].input.epoch.Handshake? && calls[i].input.message.Some?
    ensures Finishes(cfg, At(cfg, ticket, calls, i), At(cfg, ticket, calls, i).phase.secrets,
                     calls[i].input.message.value, ms, Said(cfg, ticket, calls, i))
  {
    hide Run, Finishes, OnServerFinished;
    NextCall(cfg, ticket, calls, i);
    var (c, call) := (At(cfg, ticket, calls, i), calls[i]);
    BecomesDone(cfg, c, call);
    ms := FinishedSays(cfg, c, call.input.message.value);
  }

  lemma BecomesDone(cfg: Config, c: Client, call: Call)
    requires !c.phase.Done? && Step(cfg, c, call.input, call.room).0.phase.Done?
    ensures c.phase.ExpectServerFinished?
    ensures call.input.Read? && call.input.epoch.Handshake? && call.input.message.Some?
    ensures call.input.message.value.Finished?
    ensures var o := OnServerFinished(cfg, c, call.input.message.value, c.phase.secrets);
            o.Next? && Step(cfg, c, call.input, call.room).1 == o.events
  {
    hide OnServerFinished, BoundHello, PlainHello, EarlyFor, Aged, EarlyReply, ServerLeaf, KeptLeaf, ServerShare,
         PskChoice, RetryRequest;
  }

  /** After the handshake, in the application epoch, the call reads a message that is in order. */
  ghost predicate ReadsLater(cfg: Config, c: Client, call: Call, content: nat)
  {
    && c.phase.Done? && call.input.Read? && call.input.epoch.Application? && call.room >= 1
    && call.input.message.Some? && (call.input.message.value.KeyUpdate? || call.input.message.value.NewSessionTicket?)
    && cfg.postHandshake(call.input.message.value) == Some(content)
  }

  lemma StepReports(cfg: Config, c: Client, call: Call, content: nat)
    ensures PostHandshake(content) in Step(cfg, c, call.input, call.room).1 <==> ReadsLater(cfg, c, call, content)
  {
    hide BoundHello, PlainHello, EarlyFor, Aged, ServerLeaf, KeptLeaf, ServerShare, PskChoice, RetryRequest,
         ResponseMessages;
    var o := Handle(cfg, c, call.input);
    if c.phase.Done? && |o.events| == 1 && call.room >= 1 {
      assert o.events[0] in o.events;
    }
  }

  /** Over every run: post-handshake messages are reported exactly by such calls. */
  lemma PostHandshakeIff(cfg: Config, ticket: Option<Ticket>, calls: seq<Call>, content: nat)
    ensures PostHandshake(content) in Run(cfg, Fresh(ticket), calls).1 <==>
            exists i :: 0 <= i < |calls| && ReadsLater(cfg, At(cfg, ticket, calls, i), calls[i], content)
  {
    hide Run, Step, ReadsLater;
    SaidBySomeCall(cfg, ticket, calls, PostHandshake(content));
    forall i | 0 <= i < |calls|
      ensures PostHandshake(content) in Said(cfg, ticket, calls, i) <==>
              ReadsLater(cfg, At(cfg, ticket, calls, i), calls[i], content)
    {
      StepReports(cfg, At(cfg, ticket, calls, i), calls[i], content);
    }
  }

  /** Over every run: the call that takes a client past the hellos read such a ServerHello, and installs exactly the
      handshake keys of the two shares, the selected ticket and the transcript up to it. */
  lemma TakenInRun(cfg: Config, ticket: Option<Ticket>, calls: seq<Call>, i: nat) returns (share: Share, psk: bool)
    requires i < |calls| && At(cfg, ticket, calls, i).phase.ExpectServerHello?
    requires var next := At(cfg, ticket, calls, i + 1); !next.phase.Failed? && !next.phase.ExpectServerHello?
    ensures calls[i].input.Read? && calls[i].input.epoch.Plaintext? && calls[i].input.message.Some?
    ensures calls[i].input.message.value.ServerHello?
    ensures var (c, m) := (At(cfg, ticket, calls, i), calls[i].input.message.value);
            var alg := if m.suite == 0x1302 then Sha384 else Sha256;
            Answers(cfg, c, m, share, psk) &&
            var mixed := Mixed(Early(alg, if psk then Some(c.resumption.value.psk) else None),
                               Shared(share.group, c.pending.value.key, share.key));
            var all := Digest(alg, c.transcript.items + [Whole(m)]);
            Said(cfg, ticket, calls, i) ==
            [KeysReady(Handshake, Derived(mixed, ServerHandshake, all), Derived(mixed, ClientHandshake, all))]
  {
    hide Run, Inv, OnServerHello, Answers;
    FreshHolds(cfg, ticket);
    RunKeeps(cfg, Fresh(ticket), calls[..i]);
    NextCall(cfg, ticket, calls, i);
    var (c, call) := (At(cfg, ticket, calls, i), calls[i]);
    assert call.input.Read? by { AwaitsOnly(cfg, c, call); }
    StepReadsInTurn(cfg, c, call.input, call.room);
    share, psk := TakenHello(cfg, c, call.input.message.value, call.input.draw);
  }

  lemma AwaitsOnly(cfg: Config, c: Client, call: Call)
    requires c.phase.ExpectServerHello? && !Step(cfg, c, call.input, call.room).0.phase.ExpectServerHello?
    ensures call.input.Read?
  {
  }
}
