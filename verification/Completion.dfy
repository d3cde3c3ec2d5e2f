/** Compatible peers complete the handshake: in full, resuming a ticket with or without early
    data, and after a HelloRetryRequest. */
module Completion {
  import opened Bytes
  import opened Symbols
  import CM = ClientMachine
  import SM = ServerMachine
  import CR = ClientRuns
  import SR = ServerRuns
  import CReports = ClientReports
  import SReports = ServerReports
  import opened Agreement
  import opened Exchange

  /** Both sides done, and in agreement. */
  ghost predicate Completed(ccfg: CM.Config, scfg: SM.Config, ticket: Option<CM.Ticket>, moves: seq<Move>)
  {
    var y := Play(ccfg, scfg, Start(ticket), moves);
    var (client, server) := (ClientEvents(ccfg, scfg, ticket, moves), ServerEvents(ccfg, scfg, ticket, moves));
    && y.client.phase.Done? && y.server.phase.Done? && y.client.transcript == y.server.transcript
    && y.client.traffic == y.server.traffic && y.client.exporter == y.server.exporter
    && Mirrored(client, server, Handshake) && Mirrored(client, server, Application)
  }

  // ------------------------------------------------------------------ the first hello

  /** The offer a client starts with: its ticket, while it has an age. */
  function FirstOffer(ccfg: CM.Config, ticket: Option<CM.Ticket>, d: CM.Draw): Option<(CM.Ticket, nat)>
  {
    CM.Aged(if CM.SomeSha256(ccfg.suites) then ticket else None, d.now)
  }

  function PlainFirst(ccfg: CM.Config, ticket: Option<CM.Ticket>, d: CM.Draw): Hello
    requires d.key.Some?
  {
    var offer := FirstOffer(ccfg, ticket, d);
    CM.PlainHello(ccfg, CM.Fresh(ticket).(random := d.random, session := d.session), Share(0x1d, d.key.value), None,
                  CM.EarlyFor(ccfg, offer).Some?, offer)
  }

  /** The hello with its binder, over a transcript whose SHA-256 still runs. */
  function Bound(items: seq<Item>, plain: Hello, offer: Option<(CM.Ticket, nat)>): Hello
  {
    match (offer, plain.psk)
    case (Some((ticket, _)), Some(o)) =>
      plain.(psk := Some(o.(binder := Binder(ticket.psk, Digest(Sha256, items + [Cut(CutHello(plain))])))))
    case _ => plain
  }

  function FirstHello(ccfg: CM.Config, ticket: Option<CM.Ticket>, d: CM.Draw): Hello
    requires d.key.Some?
  {
    Bound([], PlainFirst(ccfg, ticket, d), FirstOffer(ccfg, ticket, d))
  }

  lemma BoundIs(t: Transcript, plain: Hello, offer: Option<(CM.Ticket, nat)>)
    requires offer.None? || t.selected != Some(Sha384)
    ensures CM.BoundHello(t, plain, offer) == Some(Bound(t.items, plain, offer))
  {
    if t.selected.Some? && offer.Some? {
      assert t.selected.value == Sha256;
    }
  }

  /** The client that has sent its first hello. */
  ghost predicate Greeted(ccfg: CM.Config, ticket: Option<CM.Ticket>, d: CM.Draw, c: CM.Client)
    requires d.key.Some?
  {
    var offer := FirstOffer(ccfg, ticket, d);
    && c.phase.ExpectServerHello? && c.transcript == Transcript(None, [Whole(ClientHello(FirstHello(ccfg, ticket, d)))])
    && c.traffic.NoSuite? && c.pending == Some(Share(0x1d, d.key.value)) && !c.hrrDone && c.response.None?
    && c.resumption == CM.TicketOf(offer) && c.session == d.session && c.random == d.random
    && c.early == match CM.EarlyFor(ccfg, offer) case None => CM.NotOffered case Some(e) => CM.Offered(e)
  }

  lemma ClientStarts(ccfg: CM.Config, ticket: Option<CM.Ticket>, d: CM.Draw)
    requires d.key.Some?
    ensures var o := CM.Start(ccfg, CM.Fresh(ticket), d);
            && o.Next? && |o.events| <= ROOM && Greeted(ccfg, ticket, d, o.client)
            && Sent(o.events) == [Packet(Plaintext, ClientHello(FirstHello(ccfg, ticket, d)))]
  {
    hide CM.Aged, CM.SomeSha256, CM.EarlyFor, CM.BoundHello, CM.PlainHello, Bound, Sent, PacketsOf;
    var (offer, plain) := (FirstOffer(ccfg, ticket, d), PlainFirst(ccfg, ticket, d));
    BoundIs(EMPTY, plain, offer);
    var o := CM.Start(ccfg, CM.Fresh(ticket), d);
    var m := ClientHello(FirstHello(ccfg, ticket, d));
    assert [] + [Whole(m)] == [Whole(m)];
    assert o.events == [Send(Plaintext, [m])] + o.events[1..];
    SentAppend([Send(Plaintext, [m])], o.events[1..]);
    OneSent(Plaintext, [m]);
    OnePacket(m);
    NothingSent(o.events[1..]);
    assert [Packet(Plaintext, m)] + [] == [Packet(Plaintext, m)];
  }

  lemma Begun(ccfg: CM.Config, scfg: SM.Config, ticket: Option<CM.Ticket>, d: CM.Draw) returns (y: System)
    requires d.key.Some?
    ensures y == Play(ccfg, scfg, Start(ticket), [Begin(d, ROOM)])
    ensures Greeted(ccfg, ticket, d, y.client) && y.server == SM.Fresh() && y.toClient == []
    ensures y.toServer == [Packet(Plaintext, ClientHello(FirstHello(ccfg, ticket, d)))]
  {
    hide CM.Start, Greeted, FirstHello, Sent;
    ClientStarts(ccfg, ticket, d);
    y := Advance(ccfg, scfg, Start(ticket), Begin(d, ROOM));
    assert [Begin(d, ROOM)][1..] == [] && Play(ccfg, scfg, y, []) == y;
    var sent := Sent(CM.Start(ccfg, CM.Fresh(ticket), d).events);
    assert [] + sent == sent;
  }

  // ------------------------------------------------------------------ the PSK, tried

  /** A ticket the server opens, to the key the client holds. */
  predicate Opens(scfg: SM.Config, ticket: CM.Ticket, alpn: Option<nat>)
  {
    scfg.hasKeys && scfg.open(ticket.identity, alpn).Some? && scfg.open(ticket.identity, alpn).value.psk == ticket.psk
  }

  /** A server never opens the ticket to another key. */
  predicate Honest(scfg: SM.Config, offer: Option<(CM.Ticket, nat)>, alpn: Option<nat>)
  {
    offer.Some? && scfg.open(offer.value.0.identity, alpn).Some? ==>
      scfg.open(offer.value.0.identity, alpn).value.psk == offer.value.0.psk
  }

  /** The ticket was issued at most two hours ago, and not in a future further off than ten seconds. */
  predicate Unexpired(issuedAt: nat, now: nat)
  {
    issuedAt <= now + 10000 && now <= issuedAt + 7200000
  }

  /** On equal transcripts an honest server accepts the client's binder exactly when it opens
      the ticket while it is resumable, and never finds it wrong; first hello or second. */
  lemma OfferedPskIsAccepted(scfg: SM.Config, s: SM.Server, plain: Hello, offer: Option<(CM.Ticket, nat)>, alg: Alg,
                             alpn: Option<nat>, now: nat)
    requires s.transcript.selected == Some(alg) && Honest(scfg, offer, alpn)
    requires plain.psk == match offer case None => None case Some((t, age)) => Some(Offer(t.identity, age, Blank))
    ensures var tried := SM.TryPsk(scfg, s, Bound(s.transcript.items, plain, offer), alg, alpn, now);
            && !tried.BadPsk?
            && (tried.GoodPsk? <==> alg == Sha256 && offer.Some? && Opens(scfg, offer.value.0, alpn)
                                    && Unexpired(scfg.open(offer.value.0.identity, alpn).value.issuedAt, now))
            && (tried.GoodPsk? ==> && tried.accepted.data == scfg.open(offer.value.0.identity, alpn).value
                                   && tried.accepted.age == offer.value.1)
  {
    if offer.Some? {
      assert CutHello(Bound(s.transcript.items, plain, offer)) == CutHello(plain);
    }
  }

  // ------------------------------------------------------------- what a server settles

  /** The deal a server that takes this share makes of a hello. */
  function Settled(scfg: SM.Config, s: SM.Server, h: Hello, suite: nat, theirs: Share, alpn: Option<nat>,
                   sd: SM.Draw): Deal
    requires sd.key.Some?
  {
    var k := Deal(h, s.transcript.items, suite, theirs, Share(theirs.group, sd.key.value), sd.random, alpn, None,
                  false);
    var tried := Tried(scfg, s, k, sd);
    k.(psk := PskOf(tried), early := SM.Grant(scfg, h.early, SM.AcceptedOf(tried), suite, sd).Some?)
  }

  /** The server can serve this hello with this share, and the two can agree on a secret. */
  ghost predicate Compatible(ccfg: CM.Config, scfg: SM.Config, s: SM.Server, h: Hello, theirs: Share, sd: SM.Draw)
  {
    && ccfg.mode == scfg.mode && sd.key.Some? && CanIssue(scfg, sd)
    && SM.PickSuite(ccfg.suites).Some? && Acceptable(scfg, s, h) && scfg.parse(h).value.selected == Some(theirs)
    && scfg.alpn(h).Some? && scfg.certificates(h).Some? && ccfg.agrees(Share(theirs.group, sd.key.value))
  }

  lemma PickIsOffered(suites: seq<nat>)
    requires SM.PickSuite(suites).Some?
    ensures SM.PickSuite(suites).value in suites && SM.PickSuite(suites).value in SUITES
  {
  }

  lemma DealIsServed(ccfg: CM.Config, scfg: SM.Config, s: SM.Server, h: Hello, theirs: Share, sd: SM.Draw)
    requires Compatible(ccfg, scfg, s, h, theirs, sd) && h.suites == ccfg.suites
    requires s.phase.ExpectClientHello? && Open(s.transcript, s.traffic, SM.PickSuite(ccfg.suites).value)
    requires var k := Settled(scfg, s, h, SM.PickSuite(ccfg.suites).value, theirs, scfg.alpn(h).value, sd);
             !Tried(scfg, s, k, sd).BadPsk? && (k.psk.None? ==> Signs(scfg))
    ensures Serves(scfg, s, Settled(scfg, s, h, SM.PickSuite(ccfg.suites).value, theirs, scfg.alpn(h).value, sd), sd)
  {
    hide SM.PickSuite, SM.TryPsk, SM.Grant, SM.KeepsPin;
  }

  // ------------------------------------------------------------ completing the first hello

  /** The deal a fresh server makes of the first hello. */
  function FirstDeal(ccfg: CM.Config, scfg: SM.Config, ticket: Option<CM.Ticket>, cd: CM.Draw, sd: SM.Draw): Deal
    requires cd.key.Some? && sd.key.Some? && SM.PickSuite(ccfg.suites).Some?
    requires scfg.alpn(FirstHello(ccfg, ticket, cd)).Some?
  {
    var h := FirstHello(ccfg, ticket, cd);
    Settled(scfg, SM.Fresh(), h, SM.PickSuite(ccfg.suites).value, Share(0x1d, cd.key.value), scfg.alpn(h).value, sd)
  }

  /** Everything a first hello needs, but for what a PSK makes needless. */
  ghost predicate Welcome(ccfg: CM.Config, scfg: SM.Config, ticket: Option<CM.Ticket>, cd: CM.Draw, sd: SM.Draw)
  {
    && cd.key.Some?
    && Compatible(ccfg, scfg, SM.Fresh(), FirstHello(ccfg, ticket, cd), Share(0x1d, cd.key.value), sd)
    && Honest(scfg, FirstOffer(ccfg, ticket, cd), scfg.alpn(FirstHello(ccfg, ticket, cd)).value)
    && var (k, e) := (FirstDeal(ccfg, scfg, ticket, cd, sd), CM.EarlyFor(ccfg, FirstOffer(ccfg, ticket, cd)));
       var n := ccfg.negotiate(EE(scfg, k).content, e.Some?);
       && n.Some? && n.value.early == k.early
       && (k.early ==> e.Some? && e.value.suite == k.suite && e.value.alpn == n.value.alpn)
  }

  function FirstMoves(ccfg: CM.Config, scfg: SM.Config, ticket: Option<CM.Ticket>, cd: CM.Draw, sd: SM.Draw): seq<Move>
    requires cd.key.Some? && sd.key.Some? && SM.PickSuite(ccfg.suites).Some?
    requires scfg.alpn(FirstHello(ccfg, ticket, cd)).Some?
  {
    [Begin(cd, ROOM)] + Exchanged(ccfg, scfg, FirstDeal(ccfg, scfg, ticket, cd, sd), cd, sd)
  }

  lemma FirstFields(ccfg: CM.Config, ticket: Option<CM.Ticket>, d: CM.Draw)
    requires d.key.Some?
    ensures var (h, plain, offer) := (FirstHello(ccfg, ticket, d), PlainFirst(ccfg, ticket, d),
                                      FirstOffer(ccfg, ticket, d));
            && h.suites == ccfg.suites && h.session == (if ccfg.mode.Tls? then d.session else 0)
            && h.early == CM.EarlyFor(ccfg, offer).Some?
            && plain.psk == match offer case None => None case Some((t, age)) => Some(Offer(t.identity, age, Blank))
  {
  }

  lemma FirstAgreeable(ccfg: CM.Config, scfg: SM.Config, ticket: Option<CM.Ticket>, c: CM.Client, cd: CM.Draw,
                       sd: SM.Draw)
    requires Welcome(ccfg, scfg, ticket, cd, sd) && Greeted(ccfg, ticket, cd, c)
    requires FirstDeal(ccfg, scfg, ticket, cd, sd).psk.None? ==> Convinces(ccfg, scfg, cd) && ClientAcceptable(ccfg,
                                                                                                               scfg, sd)
    ensures Agreeable(ccfg, scfg, c, SM.Fresh(), FirstDeal(ccfg, scfg, ticket, cd, sd), cd, sd)
  {
    hide FirstHello, PlainFirst, FirstOffer, Bound, SM.PickSuite, SM.TryPsk, SM.Grant, Convinces, ClientAcceptable,
         Acceptable,
         CM.EarlyFor, CanIssue, Serves, Unexpired, Honest;
    var (h, s, k) := (FirstHello(ccfg, ticket, cd), SM.Fresh(), FirstDeal(ccfg, scfg, ticket, cd, sd));
    var (plain, offer) := (PlainFirst(ccfg, ticket, cd), FirstOffer(ccfg, ticket, cd));
    FirstFields(ccfg, ticket, cd);
    FirstIsBound(ccfg, ticket, cd);
    PickIsOffered(ccfg.suites);
    OfferedPskIsAccepted(scfg, Choosing(s, k), plain, offer, AlgIn(k), k.alpn, sd.now);
    if k.psk.None? {
      ConvincedLeaf(ccfg, scfg, cd, Digest(Sha256, []));
    }
    DealIsServed(ccfg, scfg, s, h, Share(0x1d, cd.key.value), sd);
    assert [] + [Whole(ClientHello(h))] == [Whole(ClientHello(h))];
    assert Expects(ccfg, c, k);
    assert Negotiates(ccfg, scfg, c, k) by { GrantNeedsPsk(scfg, s, k, sd); }
  }

  lemma FirstIsBound(ccfg: CM.Config, ticket: Option<CM.Ticket>, d: CM.Draw)
    requires d.key.Some?
    ensures FirstHello(ccfg, ticket, d) == Bound([], PlainFirst(ccfg, ticket, d), FirstOffer(ccfg, ticket, d))
  {
  }

  /** A welcome first hello completes, with a PSK exactly when the server opened and accepted
      the ticket, and with early data exactly when the server granted it. */
  lemma FirstHelloCompletes(ccfg: CM.Config, scfg: SM.Config, ticket: Option<CM.Ticket>, cd: CM.Draw, sd: SM.Draw)
    requires Welcome(ccfg, scfg, ticket, cd, sd)
    requires FirstDeal(ccfg, scfg, ticket, cd, sd).psk.None? ==> Convinces(ccfg, scfg, cd) && ClientAcceptable(ccfg,
                                                                                                               scfg, sd)
    ensures var (k, moves) := (FirstDeal(ccfg, scfg, ticket, cd, sd), FirstMoves(ccfg, scfg, ticket, cd, sd));
            var y := Play(ccfg, scfg, Start(ticket), moves);
            && Completed(ccfg, scfg, ticket, moves)
            && y.client.pskUsed == k.psk.Some? && y.client.early.Accepted? == k.early
            && EarlyReported(ccfg, scfg, ticket, moves, FirstHello(ccfg, ticket, cd).early, k.early)
  {
    hide Play, Greeted, FirstHello, FirstDeal, Exchanged, Agreeable, Convinces, ClientAcceptable, Mirrored, Compatible,
         ClientEvents, ServerEvents, EarlyReported;
    WelcomeFacts(ccfg, scfg, ticket, cd, sd);
    var y := Begun(ccfg, scfg, ticket, cd);
    var k := FirstDeal(ccfg, scfg, ticket, cd, sd);
    FirstAgreeable(ccfg, scfg, ticket, y.client, cd, sd);
    assert k.hello == FirstHello(ccfg, ticket, cd) by { DealHello(ccfg, scfg, ticket, cd, sd); }
    ExchangeCompletes(ccfg, scfg, y, k, cd, sd);
    PlayAppend(ccfg, scfg, Start(ticket), [Begin(cd, ROOM)], Exchanged(ccfg, scfg, k, cd, sd));
    TwoPartyAgreement(ccfg, scfg, ticket, FirstMoves(ccfg, scfg, ticket, cd, sd));
    EarlyIsReported(ccfg, scfg, ticket, cd, sd);
  }

  /** Both sides' events tell what became of early data: the client installed its key if it offered any and was told
      whether it was accepted, and the server installed that same key if it was. */
  ghost predicate EarlyReported(ccfg: CM.Config, scfg: SM.Config, ticket: Option<CM.Ticket>, moves: seq<Move>,
                                offered: bool, accepted: bool)
  {
    var (client, server) := (ClientEvents(ccfg, scfg, ticket, moves), ServerEvents(ccfg, scfg, ticket, moves));
    && (EarlySecrets(client) != [] <==> offered)
    && (EarlyDataAccepted in client <==> offered && accepted)
    && (EarlyDataRejected in client <==> offered && !accepted)
    && |Verdicts(client)| <= 1
    && EarlySecrets(server) == if accepted then EarlySecrets(client) else []
  }

  lemma EarlyIsReported(ccfg: CM.Config, scfg: SM.Config, ticket: Option<CM.Ticket>, cd: CM.Draw, sd: SM.Draw)
    requires Welcome(ccfg, scfg, ticket, cd, sd)
    requires cd.key.Some? && sd.key.Some? && SM.PickSuite(ccfg.suites).Some?
             && scfg.alpn(FirstHello(ccfg, ticket, cd)).Some?
    requires var y := Play(ccfg, scfg, Start(ticket), FirstMoves(ccfg, scfg, ticket, cd, sd));
             && y.client.phase.Done? && y.server.phase.Done?
             && y.client.early.Accepted? == FirstDeal(ccfg, scfg, ticket, cd, sd).early
    ensures EarlyReported(ccfg, scfg, ticket, FirstMoves(ccfg, scfg, ticket, cd, sd),
                          FirstHello(ccfg, ticket, cd).early, FirstDeal(ccfg, scfg, ticket, cd, sd).early)
  {
    hide Play, FirstHello, FirstDeal, Exchanged, Welcome, Mirrored, EarlySecrets, Verdicts, CR.Run, SR.Run, ClientCalls,
         ServerCalls, FirstMoves;
    var (h, k, moves) := (FirstHello(ccfg, ticket, cd), FirstDeal(ccfg, scfg, ticket, cd, sd),
                          FirstMoves(ccfg, scfg, ticket, cd, sd));
    var (cs, ss) := (ClientCalls(ccfg, scfg, Start(ticket), moves), ServerCalls(ccfg, scfg, Start(ticket), moves));
    PlayIsRuns(ccfg, scfg, Start(ticket), moves);
    CReports.EveryOfferGetsItsVerdict(ccfg, ticket, cs);
    VerdictsIff(ClientEvents(ccfg, scfg, ticket, moves));
    FirstCalls(ccfg, scfg, ticket, cd, sd);
    FirstOffersEarly(ccfg, scfg, ticket, cd, sd);
    FirstAnnounces(ccfg, scfg, ticket, cd, sd);
    TwoPartyAgreement(ccfg, scfg, ticket, moves);
    EarlyNeedsOffer(ccfg, scfg, ticket, cd, sd);
  }

  /** The first call of either side along these moves. */
  lemma FirstCalls(ccfg: CM.Config, scfg: SM.Config, ticket: Option<CM.Ticket>, cd: CM.Draw, sd: SM.Draw)
    requires cd.key.Some? && sd.key.Some? && SM.PickSuite(ccfg.suites).Some?
             && scfg.alpn(FirstHello(ccfg, ticket, cd)).Some?
    ensures var moves := FirstMoves(ccfg, scfg, ticket, cd, sd);
            var cs := ClientCalls(ccfg, scfg, Start(ticket), moves);
            var ss := ServerCalls(ccfg, scfg, Start(ticket), moves);
            && cs != [] && cs[0] == CR.Call(CM.StartNow(cd), ROOM)
            && ss != []
            && ss[0] == SR.Call(SM.Read(Plaintext, Some(ClientHello(FirstHello(ccfg, ticket, cd))), sd), ROOM)
  {
    hide FirstHello, FirstDeal, Advance, CM.Step, SM.Step, Greeted, Between, Closings, Reply;
    var moves := FirstMoves(ccfg, scfg, ticket, cd, sd);
    var rest := moves[1..];
    var y := Begun(ccfg, scfg, ticket, cd);
    PlayOne(ccfg, scfg, Start(ticket), Begin(cd, ROOM));
    assert moves[0] == Begin(cd, ROOM) && rest == Exchanged(ccfg, scfg, FirstDeal(ccfg, scfg, ticket, cd, sd), cd, sd);
    assert Times(1, ToServer(sd, ROOM)) == [ToServer(sd, ROOM)] + Times(0, ToServer(sd, ROOM));
    assert rest[0] == ToServer(sd, ROOM);
    assert ServerCall(Start(ticket), moves[0]) == [];
    assert ServerCalls(ccfg, scfg, y, rest) ==
           ServerCall(y, rest[0]) + ServerCalls(ccfg, scfg, Advance(ccfg, scfg, y, rest[0]), rest[1..]);
  }

  lemma PlayOne(ccfg: CM.Config, scfg: SM.Config, y: System, move: Move)
    ensures Play(ccfg, scfg, y, [move]) == Advance(ccfg, scfg, y, move)
  {
    hide Advance;
    assert [move][1..] == [];
  }

  /** The client's key goes with the offer. */
  lemma FirstOffersEarly(ccfg: CM.Config, scfg: SM.Config, ticket: Option<CM.Ticket>, cd: CM.Draw, sd: SM.Draw)
    requires cd.key.Some? && sd.key.Some? && SM.PickSuite(ccfg.suites).Some?
             && scfg.alpn(FirstHello(ccfg, ticket, cd)).Some?
    ensures EarlySecrets(ClientEvents(ccfg, scfg, ticket, FirstMoves(ccfg, scfg, ticket, cd, sd))) != [] <==>
            FirstHello(ccfg, ticket, cd).early
  {
    hide FirstHello, FirstDeal, FirstMoves, CR.Run, ClientCalls, ServerCalls, CReports.IsFirstHello, CReports.Later,
         EarlySecrets, CM.Step;
    var moves := FirstMoves(ccfg, scfg, ticket, cd, sd);
    var cs := ClientCalls(ccfg, scfg, Start(ticket), moves);
    FirstCalls(ccfg, scfg, ticket, cd, sd);
    CReports.RunFirst(ccfg, CM.Fresh(ticket), cs);
    ClientStarts(ccfg, ticket, cd);
    var g := CReports.FirstSays(ccfg, ticket, cs[0]);
    var g2 := CReports.OpeningOf(ccfg, ticket, cs);
    SameFirst(ccfg, ticket, cd, g);
  }

  lemma SameFirst(ccfg: CM.Config, ticket: Option<CM.Ticket>, cd: CM.Draw, g: Hello)
    requires cd.key.Some?
    requires CM.Step(ccfg, CM.Fresh(ticket), CM.StartNow(cd), ROOM).1 != []
    requires CM.Step(ccfg, CM.Fresh(ticket), CM.StartNow(cd), ROOM).1[0] == Send(Plaintext, [ClientHello(g)])
    ensures g == FirstHello(ccfg, ticket, cd)
  {
    hide CM.Start, FirstHello;
    ClientStarts(ccfg, ticket, cd);
    var events := CM.Start(ccfg, CM.Fresh(ticket), cd).events;
    assert Sent(events) == PacketsOf(Plaintext, [ClientHello(g)]) + Sent(events[1..]);
    assert Sent(events)[0] == Packet(Plaintext, ClientHello(g));
  }

  /** The server's key goes with the grant. */
  lemma FirstAnnounces(ccfg: CM.Config, scfg: SM.Config, ticket: Option<CM.Ticket>, cd: CM.Draw, sd: SM.Draw)
    requires Welcome(ccfg, scfg, ticket, cd, sd)
    requires cd.key.Some? && sd.key.Some? && SM.PickSuite(ccfg.suites).Some?
             && scfg.alpn(FirstHello(ccfg, ticket, cd)).Some?
    ensures EarlySecrets(ServerEvents(ccfg, scfg, ticket, FirstMoves(ccfg, scfg, ticket, cd, sd))) != [] <==>
            FirstDeal(ccfg, scfg, ticket, cd, sd).early
  {
    hide FirstHello, FirstMoves, SR.Run, ClientCalls, ServerCalls, EarlySecrets, SM.Step, SM.Grant, SM.TryPsk,
         SReports.Earns;
    var (h, suite) := (FirstHello(ccfg, ticket, cd), SM.PickSuite(ccfg.suites).value);
    var ss := ServerCalls(ccfg, scfg, Start(ticket), FirstMoves(ccfg, scfg, ticket, cd, sd));
    FirstCalls(ccfg, scfg, ticket, cd, sd);
    FirstFields(ccfg, ticket, cd);
    SReports.PicksPreferred(h.suites, suite);
    assert SReports.Welcomes(scfg, SM.Fresh(), ss[0], h, suite, Share(0x1d, cd.key.value), scfg.alpn(h).value);
    SReports.FirstCallDecides(scfg, ss, h, suite, Share(0x1d, cd.key.value), scfg.alpn(h).value);
    SReports.EarnsIffAdmitted(scfg, SM.Fresh(), h, suite, scfg.alpn(h).value, sd);
    assert Choosing(SM.Fresh(), FirstDeal(ccfg, scfg, ticket, cd, sd)) == SReports.Chosen(SM.Fresh(), suite);
  }

  lemma EarlyNeedsOffer(ccfg: CM.Config, scfg: SM.Config, ticket: Option<CM.Ticket>, cd: CM.Draw, sd: SM.Draw)
    requires cd.key.Some? && sd.key.Some? && SM.PickSuite(ccfg.suites).Some?
             && scfg.alpn(FirstHello(ccfg, ticket, cd)).Some?
    ensures FirstDeal(ccfg, scfg, ticket, cd, sd).early ==> FirstHello(ccfg, ticket, cd).early
  {
    hide SM.TryPsk, FirstHello;
  }

  lemma WelcomeFacts(ccfg: CM.Config, scfg: SM.Config, ticket: Option<CM.Ticket>, cd: CM.Draw, sd: SM.Draw)
    requires Welcome(ccfg, scfg, ticket, cd, sd)
    ensures cd.key.Some? && sd.key.Some? && SM.PickSuite(ccfg.suites).Some?
    ensures scfg.alpn(FirstHello(ccfg, ticket, cd)).Some?
  {
  }

  lemma DealHello(ccfg: CM.Config, scfg: SM.Config, ticket: Option<CM.Ticket>, cd: CM.Draw, sd: SM.Draw)
    requires cd.key.Some? && sd.key.Some? && SM.PickSuite(ccfg.suites).Some?
    requires scfg.alpn(FirstHello(ccfg, ticket, cd)).Some?
    ensures var k := FirstDeal(ccfg, scfg, ticket, cd, sd);
            k.hello == FirstHello(ccfg, ticket, cd) && k.before == [] && k.suite == SM.PickSuite(ccfg.suites).value
  {
  }

  /** Peers with compatible configurations complete a full handshake, with or without a client
      certificate, and agree. */
  lemma FullHandshakeCompletes(ccfg: CM.Config, scfg: SM.Config, cd: CM.Draw, sd: SM.Draw)
    requires Welcome(ccfg, scfg, None, cd, sd) && Convinces(ccfg, scfg, cd) && ClientAcceptable(ccfg, scfg, sd)
    ensures var moves := FirstMoves(ccfg, scfg, None, cd, sd);
            Completed(ccfg, scfg, None, moves) && !Play(ccfg, scfg, Start(None), moves).client.pskUsed
  {
    hide Completed, Play, FirstMoves, Convinces, ClientAcceptable, Welcome;
    WelcomeFacts(ccfg, scfg, None, cd, sd);
    NoTicketNoPsk(ccfg, scfg, cd, sd);
    FirstHelloCompletes(ccfg, scfg, None, cd, sd);
  }

  lemma NoTicketNoPsk(ccfg: CM.Config, scfg: SM.Config, cd: CM.Draw, sd: SM.Draw)
    requires cd.key.Some? && sd.key.Some? && SM.PickSuite(ccfg.suites).Some?
    requires scfg.alpn(FirstHello(ccfg, None, cd)).Some?
    ensures FirstDeal(ccfg, scfg, None, cd, sd).psk.None?
  {
  }

  // ------------------------------------------------------------------------ resumption

  /** The age a server recovers from the offer is the time the client has held its ticket. */
  lemma ClaimedAgeIsElapsed(ticket: CM.Ticket, now: nat, data: SM.TicketData, binder: Binder)
    requires CM.Age(ticket, now).Some? && data.ageAdd % SM.WORD == ticket.ageAdd % SM.WORD
    ensures SM.ClaimedAge(SM.Accepted(data, CM.Age(ticket, now).value, binder)) == now - ticket.receivedAt
  {
    var (elapsed, add) := (now - ticket.receivedAt, ticket.ageAdd % SM.WORD);
    SumModWord(elapsed, ticket.ageAdd);
    if elapsed + add < SM.WORD {
      assert (elapsed + add) % SM.WORD == elapsed + add;
    } else {
      assert (elapsed + add) % SM.WORD == elapsed + add - SM.WORD;
    }
  }

  lemma SumModWord(a: nat, b: nat)
    ensures (a + b) % SM.WORD == (a + b % SM.WORD) % SM.WORD
  {
    var q := b / SM.WORD;
    assert a + b == (a + b % SM.WORD) + q * SM.WORD;
  }

  /** The server's clock and the client's agree on the ticket's age, within ten seconds and two hours. */
  predicate Timely(ticket: CM.Ticket, data: SM.TicketData, clientNow: nat, serverNow: nat)
  {
    && ticket.receivedAt <= clientNow && data.issuedAt <= serverNow <= data.issuedAt + 7200000
    && -10000 <= (serverNow - data.issuedAt) - (clientNow - ticket.receivedAt) <= 10000
  }

  /** Early data is offered by the client, wanted by the server, and sealed in the ticket. */
  predicate EarlyWanted(ccfg: CM.Config, scfg: SM.Config, ticket: CM.Ticket, data: SM.TicketData, suite: nat)
  {
    && ccfg.enableEarly && ticket.early.Some? && ticket.early.value.suite in ccfg.suites
    && scfg.acceptsEarly && data.maxEarly.Some? && data.alpnMatches && data.suite == suite
  }

  /** A client that resumes a ticket the server opens to the same key: both complete under the
      PSK, without certificates, and early data is accepted exactly when both sides want it, the
      clocks agree on the ticket's age, and the hello was not seen before. */
  lemma ResumedHandshakeCompletes(ccfg: CM.Config, scfg: SM.Config, ticket: CM.Ticket, cd: CM.Draw, sd: SM.Draw)
    requires Welcome(ccfg, scfg, Some(ticket), cd, sd) && CM.Age(ticket, cd.now).Some?
    requires var alpn := scfg.alpn(FirstHello(ccfg, Some(ticket), cd)).value;
             && AlgOf(SM.PickSuite(ccfg.suites).value) == Sha256 && Opens(scfg, ticket, alpn)
             && Unexpired(scfg.open(ticket.identity, alpn).value.issuedAt, sd.now)
             && scfg.open(ticket.identity, alpn).value.ageAdd % SM.WORD == ticket.ageAdd % SM.WORD
    ensures var moves := FirstMoves(ccfg, scfg, Some(ticket), cd, sd);
            var y := Play(ccfg, scfg, Start(Some(ticket)), moves);
            var data := scfg.open(ticket.identity, scfg.alpn(FirstHello(ccfg, Some(ticket), cd)).value).value;
            && Completed(ccfg, scfg, Some(ticket), moves) && y.client.pskUsed
            && var accepted := && EarlyWanted(ccfg, scfg, ticket, data, SM.PickSuite(ccfg.suites).value)
                               && Timely(ticket, data, cd.now, sd.now) && sd.registered;
               && (y.client.early.Accepted? <==> accepted)
               && EarlyReported(ccfg, scfg, Some(ticket), moves, FirstHello(ccfg, Some(ticket), cd).early, accepted)
  {
    hide Completed, Play, FirstMoves, Welcome, Convinces, ClientAcceptable, FirstDeal, EarlyWanted, Timely,
         SM.PickSuite, Opens,
         FirstHello;
    WelcomeFacts(ccfg, scfg, Some(ticket), cd, sd);
    TicketIsTaken(ccfg, scfg, ticket, cd, sd);
    FirstHelloCompletes(ccfg, scfg, Some(ticket), cd, sd);
  }

  lemma FirstOfferIs(ccfg: CM.Config, ticket: CM.Ticket, d: CM.Draw)
    requires SM.PickSuite(ccfg.suites).Some? && AlgOf(SM.PickSuite(ccfg.suites).value) == Sha256
    requires CM.Age(ticket, d.now).Some?
    ensures FirstOffer(ccfg, Some(ticket), d) == Some((ticket, CM.Age(ticket, d.now).value))
  {
    hide SM.PickSuite, CM.Age;
    PickIsOffered(ccfg.suites);
    var i :| 0 <= i < |ccfg.suites| && ccfg.suites[i] == SM.PickSuite(ccfg.suites).value;
    assert CM.SomeSha256(ccfg.suites);
  }

  /** What a fresh server makes of the resuming hello. */
  lemma TicketIsTaken(ccfg: CM.Config, scfg: SM.Config, ticket: CM.Ticket, cd: CM.Draw, sd: SM.Draw)
    requires Welcome(ccfg, scfg, Some(ticket), cd, sd) && CM.Age(ticket, cd.now).Some?
    requires var alpn := scfg.alpn(FirstHello(ccfg, Some(ticket), cd)).value;
             && AlgOf(SM.PickSuite(ccfg.suites).value) == Sha256 && Opens(scfg, ticket, alpn)
             && Unexpired(scfg.open(ticket.identity, alpn).value.issuedAt, sd.now)
             && scfg.open(ticket.identity, alpn).value.ageAdd % SM.WORD == ticket.ageAdd % SM.WORD
    ensures var k := FirstDeal(ccfg, scfg, Some(ticket), cd, sd);
            var data := scfg.open(ticket.identity, k.alpn).value;
            && k.alpn == scfg.alpn(FirstHello(ccfg, Some(ticket), cd)).value && k.psk.Some?
            && (k.early <==>
                EarlyWanted(ccfg, scfg, ticket, data, k.suite) && Timely(ticket, data, cd.now, sd.now) && sd.registered)
            && k.suite == SM.PickSuite(ccfg.suites).value
  {
    hide FirstHello, PlainFirst, FirstOffer, Bound, SM.PickSuite, SM.TryPsk, SM.Grant, Unexpired, CM.Age, EE;
    var (k, s) := (FirstDeal(ccfg, scfg, Some(ticket), cd, sd), SM.Fresh());
    var (plain, offer) := (PlainFirst(ccfg, Some(ticket), cd), FirstOffer(ccfg, Some(ticket), cd));
    FirstOfferIs(ccfg, ticket, cd);
    FirstFields(ccfg, Some(ticket), cd);
    FirstIsBound(ccfg, Some(ticket), cd);
    OfferedPskIsAccepted(scfg, Choosing(s, k), plain, offer, AlgIn(k), k.alpn, sd.now);
    var a := Tried(scfg, s, k, sd).accepted;
    ClaimedAgeIsElapsed(ticket, cd.now, a.data, a.binder);
    GrantIff(ccfg, scfg, ticket, a, k.suite, cd.now, sd, k.hello.early);
  }

  lemma GrantIff(ccfg: CM.Config, scfg: SM.Config, ticket: CM.Ticket, a: SM.Accepted, suite: nat, now: nat, sd: SM.Draw,
                 offered: bool)
    requires CM.Age(ticket, now).Some? && SM.ClaimedAge(a) == now - ticket.receivedAt
    requires offered == CM.EarlyFor(ccfg, Some((ticket, CM.Age(ticket, now).value))).Some?
    ensures SM.Grant(scfg, offered, Some(a), suite, sd).Some? <==>
            EarlyWanted(ccfg, scfg, ticket, a.data, suite) && Timely(ticket, a.data, now, sd.now) && sd.registered
  {
    hide SM.ClaimedAge;
  }

  // ----------------------------------------------------------------------------- retry

  /** The server that has asked this hello to be sent again with another group. */
  function Asked(scfg: SM.Config, h: Hello, suite: nat, group: Group): SM.Server
    requires scfg.fingerprint(h).Some?
  {
    var h1 := Digest(AlgOf(suite), [Whole(ClientHello(h))]);
    SM.Fresh().(transcript := Push(Restarted(AlgOf(suite), h1), SM.RetryMessage(h, suite, group)),
                traffic := Selected(suite),
                hrrDone := true, pin := Some(SM.Pin(scfg.fingerprint(h).value, group)))
  }

  /** A fresh server asks for another group: it supports none of the shares offered. */
  ghost predicate Asks(ccfg: CM.Config, scfg: SM.Config, h: Hello, group: Group)
  {
    && ccfg.mode == scfg.mode && SM.PickSuite(h.suites).Some? && Acceptable(scfg, SM.Fresh(), h)
    && scfg.parse(h).value.selected.None? && scfg.parse(h).value.retryGroup == group
    && group in GROUPS && group != 0x1d && scfg.fingerprint(h).Some?
  }

  lemma ServerAsks(ccfg: CM.Config, scfg: SM.Config, h: Hello, group: Group, sd: SM.Draw)
    requires Asks(ccfg, scfg, h, group)
    ensures var (suite, o) := (SM.PickSuite(h.suites).value, SM.OnClientHello(scfg, SM.Fresh(), h, sd));
            && o == SM.Next(Asked(scfg, h, suite, group), [Send(Plaintext, [SM.RetryMessage(h, suite, group)])])
            && Sent(o.events) == [Packet(Plaintext, SM.RetryMessage(h, suite, group))]
  {
    hide SM.PickSuite, Sent, PacketsOf;
    var suite := SM.PickSuite(h.suites).value;
    assert [] + [Whole(ClientHello(h))] == [Whole(ClientHello(h))];
    OneSent(Plaintext, [SM.RetryMessage(h, suite, group)]);
    OnePacket(SM.RetryMessage(h, suite, group));
  }

  /** The second hello, and what it offers. */
  function SecondOffer(ccfg: CM.Config, ticket: Option<CM.Ticket>, cd: CM.Draw,
                       again: CM.Draw): Option<(CM.Ticket, nat)>
  {
    CM.Aged(CM.TicketOf(FirstOffer(ccfg, ticket, cd)), again.now)
  }

  function PlainSecond(ccfg: CM.Config, ticket: Option<CM.Ticket>, cd: CM.Draw, again: CM.Draw, group: Group): Hello
    requires again.key.Some?
  {
    CM.PlainHello(ccfg, CM.Fresh(ticket).(random := cd.random, session := cd.session), Share(group, again.key.value),
                  None,
                  false, SecondOffer(ccfg, ticket, cd, again))
  }

  function SecondHello(ccfg: CM.Config, scfg: SM.Config, ticket: Option<CM.Ticket>, cd: CM.Draw, again: CM.Draw,
                       group: Group): Hello
    requires cd.key.Some? && again.key.Some? && SM.PickSuite(ccfg.suites).Some?
    requires scfg.fingerprint(FirstHello(ccfg, ticket, cd)).Some?
  {
    var s := Asked(scfg, FirstHello(ccfg, ticket, cd), SM.PickSuite(ccfg.suites).value, group);
    Bound(s.transcript.items, PlainSecond(ccfg, ticket, cd, again, group), SecondOffer(ccfg, ticket, cd, again))
  }

  /** A retry request is understood exactly when it names a supported group not tried already. */
  lemma RetryIsUnderstood(c: CM.Client, h: Hello, suite: nat, group: Group)
    requires c.pending.Some?
    ensures var exts := SM.RetryMessage(h, suite, group).extensions;
            CM.RetryRequest(c, exts) ==
            if group in GROUPS && group != c.pending.value.group then Some((group, None)) else None
  {
    var exts := SM.RetryMessage(h, suite, group).extensions;
    assert CM.ScanRetry(exts, 2, CM.Retry(true, Some(group), None)) == Some(CM.Retry(true, Some(group), None));
    assert CM.ScanRetry(exts, 1, CM.Retry(true, None, None)) == Some(CM.Retry(true, Some(group), None));
  }

  /** The client that has answered the retry request. */
  ghost predicate Answered(ccfg: CM.Config, scfg: SM.Config, ticket: Option<CM.Ticket>, cd: CM.Draw, again: CM.Draw,
                           group: Group,
                           c: CM.Client)
    requires cd.key.Some? && again.key.Some? && SM.PickSuite(ccfg.suites).Some?
    requires scfg.fingerprint(FirstHello(ccfg, ticket, cd)).Some?
  {
    var suite := SM.PickSuite(ccfg.suites).value;
    var s := Asked(scfg, FirstHello(ccfg, ticket, cd), suite, group);
    && c.phase.ExpectServerHello? && c.traffic == Selected(suite) && c.hrrDone && c.response.None?
    && c.session == cd.session
    && c.transcript == Push(s.transcript, ClientHello(SecondHello(ccfg, scfg, ticket, cd, again, group)))
    && c.pending == Some(Share(group, again.key.value)) && !c.early.Accepted?
    && c.resumption == CM.TicketOf(SecondOffer(ccfg, ticket, cd, again))
  }

  lemma ClientAnswers(ccfg: CM.Config, scfg: SM.Config, ticket: Option<CM.Ticket>, c: CM.Client, cd: CM.Draw,
                      again: CM.Draw,
                      group: Group)
    requires cd.key.Some? && again.key.Some? && Greeted(ccfg, ticket, cd, c)
    requires Asks(ccfg, scfg, FirstHello(ccfg, ticket, cd), group) && SM.PickSuite(ccfg.suites).Some?
    requires SecondOffer(ccfg, ticket, cd, again).None? || AlgOf(SM.PickSuite(ccfg.suites).value) == Sha256
    ensures var m := SM.RetryMessage(FirstHello(ccfg, ticket, cd), SM.PickSuite(ccfg.suites).value, group);
            var o := CM.OnServerHello(ccfg, c, m, again);
            && o.Next? && |o.events| <= ROOM && Answered(ccfg, scfg, ticket, cd, again, group, o.client)
            && Sent(o.events) == [Packet(Plaintext, ClientHello(SecondHello(ccfg, scfg, ticket, cd, again, group)))]
  {
    hide FirstHello, FirstOffer, Bound, SM.PickSuite, CM.Aged, CM.BoundHello, CM.RetryRequest, Acceptable, Sent,
         PacketsOf,
         CM.EarlyFor;
    var (h, suite) := (FirstHello(ccfg, ticket, cd), SM.PickSuite(ccfg.suites).value);
    var (m, alg) := (SM.RetryMessage(h, suite, group), AlgOf(suite));
    FirstSession(ccfg, ticket, cd);
    PickIsOffered(ccfg.suites);
    RetryIsUnderstood(c.(transcript := c.transcript.(selected := Some(alg)), traffic := Selected(suite)), h, suite,
                      group);
    var (t, offer) := (Asked(scfg, h, suite, group).transcript, SecondOffer(ccfg, ticket, cd, again));
    BoundIs(t, PlainSecond(ccfg, ticket, cd, again, group), offer);
    var hello := ClientHello(SecondHello(ccfg, scfg, ticket, cd, again, group));
    OneSent(Plaintext, [hello]);
    OnePacket(hello);
  }

  lemma FirstSession(ccfg: CM.Config, ticket: Option<CM.Ticket>, d: CM.Draw)
    requires d.key.Some?
    ensures FirstHello(ccfg, ticket, d).session == (if ccfg.mode.Tls? then d.session else 0)
    ensures FirstHello(ccfg, ticket, d).suites == ccfg.suites
  {
  }

  /** The deal the server makes of the second hello. */
  function SecondDeal(ccfg: CM.Config, scfg: SM.Config, ticket: Option<CM.Ticket>, cd: CM.Draw, again: CM.Draw,
                      group: Group,
                      sd: SM.Draw): Deal
    requires cd.key.Some? && again.key.Some? && sd.key.Some? && SM.PickSuite(ccfg.suites).Some?
    requires scfg.fingerprint(FirstHello(ccfg, ticket, cd)).Some?
    requires scfg.alpn(SecondHello(ccfg, scfg, ticket, cd, again, group)).Some?
  {
    var (h, suite) := (SecondHello(ccfg, scfg, ticket, cd, again, group), SM.PickSuite(ccfg.suites).value);
    Settled(scfg, Asked(scfg, FirstHello(ccfg, ticket, cd), suite, group), h, suite, Share(group, again.key.value),
            scfg.alpn(h).value, sd)
  }

  /** The server asks for a retry and then serves the second hello. Its pin holds: in particular
      both hellos have one fingerprint. */
  ghost predicate Retries(ccfg: CM.Config, scfg: SM.Config, ticket: Option<CM.Ticket>, cd: CM.Draw, again: CM.Draw,
                          group: Group,
                          sd: SM.Draw)
  {
    && cd.key.Some? && again.key.Some? && SM.PickSuite(ccfg.suites).Some?
    && Asks(ccfg, scfg, FirstHello(ccfg, ticket, cd), group)
    && (SecondOffer(ccfg, ticket, cd, again).None? || AlgOf(SM.PickSuite(ccfg.suites).value) == Sha256)
    && var h := SecondHello(ccfg, scfg, ticket, cd, again, group);
       var s := Asked(scfg, FirstHello(ccfg, ticket, cd), SM.PickSuite(ccfg.suites).value, group);
       && Compatible(ccfg, scfg, s, h, Share(group, again.key.value), sd)
       && Honest(scfg, SecondOffer(ccfg, ticket, cd, again), scfg.alpn(h).value)
       && var n := ccfg.negotiate(scfg.extensions(h, scfg.alpn(h).value, false), false);
          n.Some? && !n.value.early
  }

  lemma SecondFields(ccfg: CM.Config, scfg: SM.Config, ticket: Option<CM.Ticket>, cd: CM.Draw, again: CM.Draw,
                     group: Group)
    requires cd.key.Some? && again.key.Some? && SM.PickSuite(ccfg.suites).Some?
    requires scfg.fingerprint(FirstHello(ccfg, ticket, cd)).Some?
    ensures var (h, plain) := (SecondHello(ccfg, scfg, ticket, cd, again, group),
                               PlainSecond(ccfg, ticket, cd, again, group));
            var s := Asked(scfg, FirstHello(ccfg, ticket, cd), SM.PickSuite(ccfg.suites).value, group);
            var offer := SecondOffer(ccfg, ticket, cd, again);
            && h == Bound(s.transcript.items, plain, offer) && h.suites == ccfg.suites && !h.early
            && h.session == (if ccfg.mode.Tls? then cd.session else 0)
            && plain.psk == match offer case None => None case Some((t, age)) => Some(Offer(t.identity, age, Blank))
  {
  }

  lemma SecondAgreeable(ccfg: CM.Config, scfg: SM.Config, ticket: Option<CM.Ticket>, c: CM.Client, cd: CM.Draw,
                        again: CM.Draw,
                        group: Group, sd: SM.Draw)
    requires Retries(ccfg, scfg, ticket, cd, again, group, sd) && Answered(ccfg, scfg, ticket, cd, again, group, c)
    requires SecondDeal(ccfg, scfg, ticket, cd, again, group, sd).psk.None? ==>
               Convinces(ccfg, scfg, again) && ClientAcceptable(ccfg, scfg, sd)
    ensures var s := Asked(scfg, FirstHello(ccfg, ticket, cd), SM.PickSuite(ccfg.suites).value, group);
            var k := SecondDeal(ccfg, scfg, ticket, cd, again, group, sd);
            Agreeable(ccfg, scfg, c, s, k, again, sd) && !k.early
  {
    hide FirstHello, SecondHello, PlainSecond, SecondOffer, Bound, SM.PickSuite, SM.TryPsk, SM.Grant, Convinces,
         ClientAcceptable, Acceptable, CanIssue, Serves, Unexpired, Honest, Asks;
    AskedFacts(ccfg, scfg, FirstHello(ccfg, ticket, cd), group);
    var (h, suite) := (SecondHello(ccfg, scfg, ticket, cd, again, group), SM.PickSuite(ccfg.suites).value);
    var (s, k) := (Asked(scfg, FirstHello(ccfg, ticket, cd), suite, group),
                   SecondDeal(ccfg, scfg, ticket, cd, again, group, sd));
    SecondFields(ccfg, scfg, ticket, cd, again, group);
    PickIsOffered(ccfg.suites);
    OfferedPskIsAccepted(scfg, Choosing(s, k), PlainSecond(ccfg, ticket, cd, again, group),
                         SecondOffer(ccfg, ticket, cd, again),
                         AlgIn(k), k.alpn, sd.now);
    NoEarlyGrant(scfg, SM.AcceptedOf(Tried(scfg, s, k, sd)), suite, sd);
    if k.psk.None? {
      ConvincedLeaf(ccfg, scfg, again, Digest(Sha256, []));
    }
    DealIsServed(ccfg, scfg, s, h, Share(group, again.key.value), sd);
    assert Expects(ccfg, c, k);
    assert Negotiates(ccfg, scfg, c, k);
  }

  lemma AskedFacts(ccfg: CM.Config, scfg: SM.Config, h: Hello, group: Group)
    requires Asks(ccfg, scfg, h, group)
    ensures scfg.fingerprint(h).Some?
  {
  }

  lemma NoEarlyGrant(scfg: SM.Config, psk: Option<SM.Accepted>, suite: nat, sd: SM.Draw)
    ensures SM.Grant(scfg, false, psk, suite, sd).None?
  {
  }

  function RetriedMoves(ccfg: CM.Config, scfg: SM.Config, ticket: Option<CM.Ticket>, cd: CM.Draw, again: CM.Draw,
                        group: Group,
                        sd: SM.Draw): seq<Move>
    requires cd.key.Some? && again.key.Some? && sd.key.Some? && SM.PickSuite(ccfg.suites).Some?
    requires scfg.fingerprint(FirstHello(ccfg, ticket, cd)).Some?
    requires scfg.alpn(SecondHello(ccfg, scfg, ticket, cd, again, group)).Some?
  {
    [Begin(cd, ROOM)] + Times(1, ToServer(sd, ROOM)) + Times(1, ToClient(again, ROOM))
    + Exchanged(ccfg, scfg, SecondDeal(ccfg, scfg, ticket, cd, again, group, sd), again, sd)
  }

  /** The retry request sent, and answered. */
  lemma RetryAnswered(ccfg: CM.Config, scfg: SM.Config, ticket: Option<CM.Ticket>, cd: CM.Draw, again: CM.Draw,
                      group: Group,
                      sd: SM.Draw, y: System) returns (z: System)
    requires Retries(ccfg, scfg, ticket, cd, again, group, sd) && Greeted(ccfg, ticket, cd, y.client)
    requires y.server == SM.Fresh() && y.toClient == []
    requires y.toServer == [Packet(Plaintext, ClientHello(FirstHello(ccfg, ticket, cd)))]
    ensures z == Play(ccfg, scfg, Play(ccfg, scfg, y, Times(1, ToServer(sd, ROOM))), Times(1, ToClient(again, ROOM)))
    ensures Answered(ccfg, scfg, ticket, cd, again, group, z.client) && z.toClient == []
    ensures z.server == Asked(scfg, FirstHello(ccfg, ticket, cd), SM.PickSuite(ccfg.suites).value, group)
    ensures z.toServer == [Packet(Plaintext, ClientHello(SecondHello(ccfg, scfg, ticket, cd, again, group)))]
  {
    hide Advance, Play, FirstHello, SecondHello, SecondOffer, Asked, SM.PickSuite, SM.OnClientHello, CM.OnServerHello,
         Sent, Compatible,
         SM.RetryMessage, Acceptable, Honest, Answered;
    var (h, suite) := (FirstHello(ccfg, ticket, cd), SM.PickSuite(ccfg.suites).value);
    var (up, down, none: seq<Packet>) := (ToServer(sd, ROOM), ToClient(again, ROOM), []);
    FirstSession(ccfg, ticket, cd);
    ServerAsks(ccfg, scfg, h, group, sd);
    var (p, m) := (Packet(Plaintext, ClientHello(h)), SM.RetryMessage(h, suite, group));
    assert [p] + none == [p];
    DeliveredToServer(ccfg, scfg, y, p, none, sd, SM.OnClientHello(scfg, SM.Fresh(), h, sd));
    var y1 := Advance(ccfg, scfg, y, up);
    PlayTimes(ccfg, scfg, y, 0, up);
    PlayTimes(ccfg, scfg, y1, 0, up);
    assert none + [Packet(Plaintext, m)] == [Packet(Plaintext, m)] == [Packet(Plaintext, m)] + none;
    IsServerHello(h, suite, group);
    ClientAnswers(ccfg, scfg, ticket, y.client, cd, again, group);
    var o := CM.OnServerHello(ccfg, y.client, m, again);
    Delivered(ccfg, scfg, y1, Packet(Plaintext, m), none, again, o);
    z := Advance(ccfg, scfg, y1, down);
    assert none + Sent(o.events) == Sent(o.events);
    PlayTimes(ccfg, scfg, y1, 0, down);
    PlayTimes(ccfg, scfg, z, 0, down);
  }

  lemma IsServerHello(h: Hello, suite: nat, group: Group)
    ensures SM.RetryMessage(h, suite, group).ServerHello?
  {
  }

  /** A retried handshake completes, in full or under the ticket's PSK, whenever the server's pin
      holds on the second hello; no early data survives a retry. */
  lemma RetriedHandshakeCompletes(ccfg: CM.Config, scfg: SM.Config, ticket: Option<CM.Ticket>, cd: CM.Draw,
                                  again: CM.Draw,
                                  group: Group, sd: SM.Draw)
    requires Retries(ccfg, scfg, ticket, cd, again, group, sd)
    requires SecondDeal(ccfg, scfg, ticket, cd, again, group, sd).psk.None? ==>
               Convinces(ccfg, scfg, again) && ClientAcceptable(ccfg, scfg, sd)
    ensures var (k, moves) := (SecondDeal(ccfg, scfg, ticket, cd, again, group, sd),
                               RetriedMoves(ccfg, scfg, ticket, cd, again, group, sd));
            var y := Play(ccfg, scfg, Start(ticket), moves);
            && Completed(ccfg, scfg, ticket, moves) && y.client.pskUsed == k.psk.Some? && !y.client.early.Accepted?
  {
    hide Play, Greeted, FirstHello, SecondDeal, Exchanged, Agreeable, Convinces, ClientAcceptable, Mirrored,
         ClientEvents, ServerEvents,
         Answered, Asked, Times, SecondHello, Compatible, SM.PickSuite, Asks, Honest;
    RetryFacts(ccfg, scfg, ticket, cd, again, group, sd);
    var (k, h) := (SecondDeal(ccfg, scfg, ticket, cd, again, group, sd),
                   SecondHello(ccfg, scfg, ticket, cd, again, group));
    var y := Begun(ccfg, scfg, ticket, cd);
    var z := RetryAnswered(ccfg, scfg, ticket, cd, again, group, sd, y);
    SecondAgreeable(ccfg, scfg, ticket, z.client, cd, again, group, sd);
    SecondDealHello(ccfg, scfg, ticket, cd, again, group, sd);
    ExchangeCompletes(ccfg, scfg, z, k, again, sd);
    var (a, b, c) := ([Begin(cd, ROOM)], Times(1, ToServer(sd, ROOM)), Times(1, ToClient(again, ROOM)));
    PlayAppend(ccfg, scfg, Start(ticket), a, b);
    PlayAppend(ccfg, scfg, Start(ticket), a + b, c);
    PlayAppend(ccfg, scfg, Start(ticket), a + b + c, Exchanged(ccfg, scfg, k, again, sd));
    TwoPartyAgreement(ccfg, scfg, ticket, RetriedMoves(ccfg, scfg, ticket, cd, again, group, sd));
  }

  lemma SecondDealHello(ccfg: CM.Config, scfg: SM.Config, ticket: Option<CM.Ticket>, cd: CM.Draw, again: CM.Draw,
                        group: Group,
                        sd: SM.Draw)
    requires cd.key.Some? && again.key.Some? && sd.key.Some? && SM.PickSuite(ccfg.suites).Some?
    requires scfg.fingerprint(FirstHello(ccfg, ticket, cd)).Some?
    requires scfg.alpn(SecondHello(ccfg, scfg, ticket, cd, again, group)).Some?
    ensures SecondDeal(ccfg, scfg, ticket, cd, again, group, sd).hello == SecondHello(ccfg, scfg, ticket, cd, again,
                                                                                      group)
  {
  }

  lemma RetryFacts(ccfg: CM.Config, scfg: SM.Config, ticket: Option<CM.Ticket>, cd: CM.Draw, again: CM.Draw,
                   group: Group, sd: SM.Draw)
    requires Retries(ccfg, scfg, ticket, cd, again, group, sd)
    ensures cd.key.Some? && again.key.Some? && sd.key.Some? && SM.PickSuite(ccfg.suites).Some?
    ensures scfg.fingerprint(FirstHello(ccfg, ticket, cd)).Some?
    ensures scfg.alpn(SecondHello(ccfg, scfg, ticket, cd, again, group)).Some?
  {
  }

  // --------------------------------------------------------------------------- such peers

  /** A client that pins key 5 and sends early data when it can. */
  function SomeClient(): CM.Config
  {
    CM.Config(Tls, CM.Pinned(5), [0x1301], true, false, 0, 4, 0, chain => Some(5), (chain, now) => None,
              (leaf, scheme, d, signature) => true, scheme => true,
              (content, offered) => Some(CM.Negotiated(None, None, content == 1)),
              content => Some(false), share => true,
              d => None, m => None)
  }

  /** A server for one group that opens any ticket to key 2 and takes up to 1000 bytes of early data. */
  function SomeServer(group: Group): SM.Config
  {
    SM.Config(Tls, true, None, 9, 4, true,
              (h: Hello) => Some(SM.Kx(if h.shares != [] && h.shares[0].group == group then Some(h.shares[0]) else None,
                                       group, 1)),
              h => true, h => Some(0), h => Some(None), h => None,
              (identity, alpn) => Some(SM.TicketData(2, 500, 0x1301, 0, Some(1000), true)), h => Some(0),
              (h, alpn, early) => if early then 1 else 0, 0, d => Some(1), chain => None, scheme => true,
              (leaf, scheme, d, signature) => true, public => true, n => Some(n), n => None)
  }

  /** The theorems above speak of runs that exist: with these peers a full handshake, a resumed
      one with early data, and a retried one that resumes all complete. */
  lemma SomePeersComplete(cd: CM.Draw, sd: SM.Draw)
    requires cd.now == sd.now == 1000 && cd.key.Some? && sd.key.Some? && cd.leafFits && sd.registered
    ensures var (c, s, ticket) := (SomeClient(), SomeServer(0x1d),
                                   CM.Ticket(1, 2, Some(CM.EarlyOffer(0x1301, None)), 500, 60000, 0));
            && Welcome(c, s, None, cd, sd) && Completed(c, s, None, FirstMoves(c, s, None, cd, sd))
            && Welcome(c, s, Some(ticket), cd, sd)
            && Completed(c, s, Some(ticket), FirstMoves(c, s, Some(ticket), cd, sd))
            && Play(c, s, Start(Some(ticket)), FirstMoves(c, s, Some(ticket), cd, sd)).client.early.Accepted?
    ensures var (c, s, ticket) := (SomeClient(), SomeServer(0x17),
                                   CM.Ticket(1, 2, Some(CM.EarlyOffer(0x1301, None)), 500, 60000, 0));
            && Retries(c, s, Some(ticket), cd, cd, 0x17, sd)
            && var moves := RetriedMoves(c, s, Some(ticket), cd, cd, 0x17, sd);
               Completed(c, s, Some(ticket), moves) && Play(c, s, Start(Some(ticket)), moves).client.pskUsed
  {
    hide Completed, Play, FirstMoves, RetriedMoves, Welcome, Retries, FirstDeal, SecondDeal;
    var ticket := CM.Ticket(1, 2, Some(CM.EarlyOffer(0x1301, None)), 500, 60000, 0);
    SomeFull(cd, sd);
    FullHandshakeCompletes(SomeClient(), SomeServer(0x1d), cd, sd);
    SomeResumed(cd, sd, ticket);
    ResumedHandshakeCompletes(SomeClient(), SomeServer(0x1d), ticket, cd, sd);
    SomeRetried(cd, sd, ticket);
    RetriedHandshakeCompletes(SomeClient(), SomeServer(0x17), Some(ticket), cd, cd, 0x17, sd);
  }

  lemma SomeFull(cd: CM.Draw, sd: SM.Draw)
    requires cd.now == sd.now == 1000 && cd.key.Some? && sd.key.Some? && cd.leafFits
    ensures var (c, s) := (SomeClient(), SomeServer(0x1d));
            Welcome(c, s, None, cd, sd) && Convinces(c, s, cd) && ClientAcceptable(c, s, sd)
  {
    WelcomeFull(cd, sd);
  }

  lemma WelcomeFull(cd: CM.Draw, sd: SM.Draw)
    requires cd.now == sd.now == 1000 && cd.key.Some? && sd.key.Some? && cd.leafFits
    ensures Welcome(SomeClient(), SomeServer(0x1d), None, cd, sd)
  {
    NoTicketNoPsk(SomeClient(), SomeServer(0x1d), cd, sd);
  }

  lemma SomeResumed(cd: CM.Draw, sd: SM.Draw, ticket: CM.Ticket)
    requires cd.now == sd.now == 1000 && cd.key.Some? && sd.key.Some? && sd.registered
    requires ticket == CM.Ticket(1, 2, Some(CM.EarlyOffer(0x1301, None)), 500, 60000, 0)
    ensures var (c, s) := (SomeClient(), SomeServer(0x1d));
            && Welcome(c, s, Some(ticket), cd, sd) && CM.Age(ticket, cd.now) == Some(500)
            && SM.PickSuite(c.suites) == Some(0x1301) && Opens(s, ticket, None) && Unexpired(500, 1000)
            && EarlyWanted(c, s, ticket, s.open(1, None).value, 0x1301)
            && Timely(ticket, s.open(1, None).value, 1000, 1000)
            && s.alpn(FirstHello(c, Some(ticket), cd)) == Some(None)
  {
    var (c, s) := (SomeClient(), SomeServer(0x1d));
    FirstOfferIs(c, ticket, cd);
  }

  lemma SomeRetried(cd: CM.Draw, sd: SM.Draw, ticket: CM.Ticket)
    requires cd.now == sd.now == 1000 && cd.key.Some? && sd.key.Some?
    requires ticket == CM.Ticket(1, 2, Some(CM.EarlyOffer(0x1301, None)), 500, 60000, 0)
    ensures var (c, s) := (SomeClient(), SomeServer(0x17));
            && Retries(c, s, Some(ticket), cd, cd, 0x17, sd)
            && SecondDeal(c, s, Some(ticket), cd, cd, 0x17, sd).psk.Some?
  {
    var (c, s) := (SomeClient(), SomeServer(0x17));
    FirstOfferIs(c, ticket, cd);
  }

  /** Installing the key is not one step with sending the hello: a client whose sink takes the hello and nothing more
      fails, and the server may go on to install the key of an offer the client gave up. */
  lemma HelloWithoutKey(cd: CM.Draw, sd: SM.Draw)
    requires cd.now == sd.now == 1000 && cd.key.Some? && sd.key.Some? && sd.registered
    ensures var (c, s, ticket) := (SomeClient(), SomeServer(0x1d),
                                   Some(CM.Ticket(1, 2, Some(CM.EarlyOffer(0x1301, None)), 500, 60000, 0)));
            var moves := [Begin(cd, 1), ToServer(sd, ROOM)];
            && EarlySecrets(ServerEvents(c, s, ticket, moves)) != []
            && EarlySecrets(ClientEvents(c, s, ticket, moves)) == []
            && Play(c, s, Start(ticket), moves).client.phase.Failed?
  {
    hide CM.Step, SM.Step, CR.Run, SR.Run, EarlySecrets, CReports.IsFirstHello, SReports.Earns, Play;
    var (c, s, ticket) := (SomeClient(), SomeServer(0x1d),
                           Some(CM.Ticket(1, 2, Some(CM.EarlyOffer(0x1301, None)), 500, 60000, 0)));
    var moves := [Begin(cd, 1), ToServer(sd, ROOM)];
    var call := CR.Call(CM.StartNow(cd), 1);
    var g := CReports.FirstSays(c, ticket, call);
    FirstIsEarly(cd, g);
    var (failed, said) := CM.Step(c, CM.Fresh(ticket), call.input, 1);
    OneSent(Plaintext, [ClientHello(g)]);
    OnePacket(ClientHello(g));
    var y := Advance(c, s, Start(ticket), moves[0]);
    var none: seq<Packet> := [];
    assert none + [Packet(Plaintext, ClientHello(g))] == [Packet(Plaintext, ClientHello(g))];
    assert moves[1..] == [moves[1]] && moves[1..][1..] == [];
    var cs, ss := ClientCalls(c, s, Start(ticket), moves), ServerCalls(c, s, Start(ticket), moves);
    var answer := SR.Call(SM.Read(Plaintext, Some(ClientHello(g)), sd), ROOM);
    var z := Advance(c, s, y, moves[1]);
    assert ClientCall(y, moves[1]) == [] && ClientCalls(c, s, z, []) == [];
    assert ClientCalls(c, s, y, moves[1..]) == ClientCall(y, moves[1]) + ClientCalls(c, s, z, moves[1..][1..]);
    assert ServerCalls(c, s, y, moves[1..]) == ServerCall(y, moves[1]) + ServerCalls(c, s, z, moves[1..][1..]);
    assert cs == [call] && ss == [answer];
    CR.RunOne(c, CM.Fresh(ticket), call);
    CReports.SaidSecrets(said, g, ticket, 1);
    PlayIsRuns(c, s, Start(ticket), moves);
    EarnsTwo(cd, sd, g);
    SReports.FirstCallDecides(s, ss, g, 0x1301, g.shares[0], None);
  }

  lemma FirstIsEarly(cd: CM.Draw, g: Hello)
    requires cd.now == 1000 && cd.key.Some?
    requires CReports.IsFirstHello(SomeClient(),
                                   Some(CM.Ticket(1, 2, Some(CM.EarlyOffer(0x1301, None)), 500, 60000, 0)), cd, g)
    ensures g.early && g.shares == [Share(0x1d, cd.key.value)]
  {
    assert 0x1301 in SomeClient().suites;
  }

  lemma EarnsTwo(cd: CM.Draw, sd: SM.Draw, g: Hello)
    requires cd.now == sd.now == 1000 && cd.key.Some? && sd.registered
    requires CReports.IsFirstHello(SomeClient(),
                                   Some(CM.Ticket(1, 2, Some(CM.EarlyOffer(0x1301, None)), 500, 60000, 0)), cd, g)
    ensures g.shares == [Share(0x1d, cd.key.value)]
    ensures SReports.Settles(SomeServer(0x1d), SM.Fresh(), g, 0x1301, g.shares[0], None)
    ensures exists k :: SReports.Earns(SomeServer(0x1d), SM.Fresh(), g, 0x1301, None, sd, k)
  {
    FirstIsEarly(cd, g);
    var s := SomeServer(0x1d);
    var data := SM.TicketData(2, 500, 0x1301, 0, Some(1000), true);
    assert SReports.Opens(s, SM.Fresh(), g, 0x1301, None, sd.now, data);
    assert SReports.Grants(s, g, 0x1301, data, sd);
    assert SReports.Earns(s, SM.Fresh(), g, 0x1301, None, sd, SReports.EarlySecret(2, SM.Fresh().transcript.items, g));
  }
}
