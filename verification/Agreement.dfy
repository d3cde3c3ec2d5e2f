/** A client and a server over in-order channels: when both are done, they agree. */
module Agreement {
  import opened Bytes
  import opened Symbols
  import CM = ClientMachine
  import CP = ClientProofs
  import SM = ServerMachine
  import SP = ServerProofs
  import CR = ClientRuns
  import SR = ServerRuns
  import CReports = ClientReports
  import SReports = ServerReports

  // ------------------------------------------------------- from Finished to keys

  function LastOf(items: seq<Item>): Item
    requires items != []
  {
    items[|items| - 1]
  }

  ghost predicate ClientDone(c: CM.Client)
  {
    CP.Settled(c)
  }

  ghost predicate ServerDone(s: SM.Server)
  {
    && SP.Keyed(s) && SP.FinishedHash(s).items < s.transcript.items
    && CP.Attested(s.transcript.items, AlgOf(s.traffic.suite), s.master.value.mixed, ClientHandshake)
  }

  /** The same Finished at the end attests the same schedule and the same transcript. */
  lemma SameFinished(a: seq<Item>, b: seq<Item>, x: Alg, y: Alg, s: Term, t: Term, usage: Label)
    requires CP.Attested(a, x, s, usage) && CP.Attested(b, y, t, usage) && LastOf(a) == LastOf(b)
    ensures a == b && x == y && s == t
  {
    assert a == a[..|a| - 1] + [LastOf(a)] && b == b[..|b| - 1] + [LastOf(b)];
  }

  /** The same server Finished anchors the same ServerHello, suite and handshake secrets. */
  lemma SameAnchor(a: seq<Item>, b: seq<Item>, m: nat, n: nat, p: nat, q: nat, s: Term, t: Term)
    requires CP.Anchored(a, m, p, s) && CP.Anchored(b, n, q, t) && LastOf(a) == LastOf(b)
    ensures a == b && m == n && p == q && s == t
  {
    SameFinished(a, b, AlgOf(p), AlgOf(q), s, t, ServerHandshake);
    assert |a[..m + 1]| == |b[..n + 1]|;
  }

  /** Whatever each side was sent: if they hold the same server Finished and the same client
      Finished, then their transcripts, suites and every secret are equal. */
  lemma SharedFinishedMeansAgreement(c: CM.Client, s: SM.Server)
    requires ClientDone(c) && ServerDone(s) && c.phase.Done?
    requires LastOf(CP.FinishedHash(c).items) == LastOf(SP.FinishedHash(s).items)
    requires LastOf(c.transcript.items) == LastOf(s.transcript.items)
    ensures c.transcript == s.transcript && c.traffic == s.traffic
    ensures c.exporter == s.exporter && c.exporter.Some?
    ensures c.resumptionMaster == SM.ResumptionSecret(s) && c.resumptionMaster.Some?
    ensures CP.Handshaken(c) == Some(SP.Handshaken(s))
  {
    hide CP.Attested, CP.Anchored;
    SameAnchor(CP.FinishedHash(c).items, SP.FinishedHash(s).items, CP.Base(c), SP.Base(s), c.traffic.suite,
               s.traffic.suite,
               c.traffic.client.from.mixed, s.master.value.mixed);
    AnchorFits(CP.FinishedHash(c).items, CP.Base(c), c.traffic.suite, c.traffic.client.from.mixed);
    SameFinished(c.transcript.items, s.transcript.items, AlgOf(c.traffic.suite), AlgOf(s.traffic.suite),
                 c.traffic.client.from.mixed, s.master.value.mixed, ClientHandshake);
  }

  lemma AnchorFits(items: seq<Item>, base: nat, suite: nat, schedule: Term)
    requires CP.Anchored(items, base, suite, schedule)
    ensures base < |items|
  {
  }

  // ------------------------------------------------------------------ the system

  datatype Packet = Packet(epoch: Epoch, message: Message)

  datatype System = System(client: CM.Client, server: SM.Server, toServer: seq<Packet>, toClient: seq<Packet>)

  datatype Move =
    | Begin(draw: CM.Draw, room: nat)
    | ToClient(draw: CM.Draw, room: nat)
    | ToServer(serverDraw: SM.Draw, room: nat)
    | EarlyDataTo(len: nat)

  function Start(ticket: Option<CM.Ticket>): System
  {
    System(CM.Fresh(ticket), SM.Fresh(), [], [])
  }

  function PacketsOf(epoch: Epoch, messages: seq<Message>): (ps: seq<Packet>)
    ensures |ps| == |messages|
    ensures forall i :: 0 <= i < |messages| ==> ps[i] == Packet(epoch, messages[i])
  {
    seq(|messages|, i requires 0 <= i < |messages| => Packet(epoch, messages[i]))
  }

  /** What the events put on the wire. */
  function Sent(events: seq<Event>): seq<Packet>
  {
    if events == [] then []
    else (match events[0] case Send(epoch, messages) => PacketsOf(epoch, messages) case _ => []) + Sent(events[1..])
  }

  function Advance(ccfg: CM.Config, scfg: SM.Config, y: System, move: Move): System
  {
    match move
    case Begin(d, room) =>
      var (c, events) := CM.Step(ccfg, y.client, CM.StartNow(d), room);
      y.(client := c, toServer := y.toServer + Sent(events))
    case ToClient(d, room) =>
      if y.toClient == [] then y
      else
        var p := y.toClient[0];
        var (c, events) := CM.Step(ccfg, y.client, CM.Read(p.epoch, Some(p.message), d), room);
        y.(client := c, toClient := y.toClient[1..], toServer := y.toServer + Sent(events))
    case ToServer(d, room) =>
      if y.toServer == [] then y
      else
        var p := y.toServer[0];
        var (s, events) := SM.Step(scfg, y.server, SM.Read(p.epoch, Some(p.message), d), room);
        y.(server := s, toServer := y.toServer[1..], toClient := y.toClient + Sent(events))
    case EarlyDataTo(len) =>
      y.(server := SM.Step(scfg, y.server, SM.NoteEarlyData(len), 0).0)
  }

  function Play(ccfg: CM.Config, scfg: SM.Config, y: System, moves: seq<Move>): System
    decreases |moves|
  {
    if moves == [] then y else Play(ccfg, scfg, Advance(ccfg, scfg, y, moves[0]), moves[1..])
  }

  // --------------------------------------------------------------- the invariant

  /** Every Finished among the packets is this one. */
  ghost predicate OnlyFinished(ps: seq<Packet>, f: Item)
  {
    forall i :: 0 <= i < |ps| && ps[i].message.Finished? ==> Whole(ps[i].message) == f
  }

  ghost predicate NoFinished(ps: seq<Packet>)
  {
    forall i :: 0 <= i < |ps| ==> !ps[i].message.Finished?
  }

  ghost predicate EndsIn(items: seq<Item>, f: Item)
  {
    items != [] && LastOf(items) == f
  }

  /** The server Finished behind this client's application keys. */
  ghost predicate AcceptedServer(c: CM.Client, f: Item)
  {
    c.traffic.Active? && EndsIn(CP.FinishedHash(c).items, f)
  }

  /** The client reads only the server's Finished, and what it accepted is that one. */
  ghost predicate Downstream(y: System)
  {
    || y.server.phase.Failed?
    || (y.server.phase.ExpectClientHello? && NoFinished(y.toClient) && !y.client.phase.Done?)
    || (&& SP.Keyed(y.server) && !y.server.phase.ExpectClientHello?
        && OnlyFinished(y.toClient, LastOf(SP.FinishedHash(y.server).items))
        && (y.client.phase.Done? ==> AcceptedServer(y.client, LastOf(SP.FinishedHash(y.server).items))))
  }

  /** The server reads only the client's Finished, and what it accepted is that one. */
  ghost predicate Upstream(y: System)
  {
    || y.client.phase.Failed?
    || (!y.client.phase.Done? && NoFinished(y.toServer) && !y.server.phase.Done?)
    || (&& y.client.phase.Done? && y.client.transcript.items != []
        && OnlyFinished(y.toServer, LastOf(y.client.transcript.items))
        && (y.server.phase.Done? ==> EndsIn(y.server.transcript.items, LastOf(y.client.transcript.items))))
  }

  ghost predicate Inv(ccfg: CM.Config, scfg: SM.Config, y: System)
  {
    CP.Inv(ccfg, y.client) && SP.Inv(scfg, y.server) && Downstream(y) && Upstream(y)
  }

  // ------------------------------------------------------------ what is on the wire

  /** No Finished but this one is sent; with none to allow, no Finished at all. */
  ghost predicate Sends(events: seq<Event>, f: Option<Item>)
  {
    forall i :: 0 <= i < |events| && events[i].Send? ==> Carries(events[i].messages, f)
  }

  ghost predicate Carries(messages: seq<Message>, f: Option<Item>)
  {
    forall i :: 0 <= i < |messages| && messages[i].Finished? ==> f == Some(Whole(messages[i]))
  }

  ghost predicate Holds(ps: seq<Packet>, f: Option<Item>)
  {
    forall i :: 0 <= i < |ps| && ps[i].message.Finished? ==> f == Some(Whole(ps[i].message))
  }

  lemma {:induction false} SentHolds(events: seq<Event>, f: Option<Item>)
    requires Sends(events, f)
    ensures Holds(Sent(events), f)
    decreases |events|
  {
    if events != [] {
      assert forall i :: 0 <= i < |events| - 1 ==> events[1..][i] == events[i + 1];
      SentHolds(events[1..], f);
      if events[0].Send? {
        assert Carries(events[0].messages, f);
        assert Holds(PacketsOf(events[0].epoch, events[0].messages), f);
      }
    }
  }

  lemma HoldsMeans(ps: seq<Packet>, f: Item)
    ensures Holds(ps, None) <==> NoFinished(ps)
    ensures Holds(ps, Some(f)) <==> OnlyFinished(ps, f)
  {
  }

  lemma SendsAppend(a: seq<Event>, b: seq<Event>, f: Option<Item>)
    requires Sends(a, f) && Sends(b, f)
    ensures Sends(a + b, f)
  {
  }

  // ---------------------------------------------------------------- client steps

  /** A client handler that does not finish sends no Finished. */
  lemma ClientQuiet(cfg: CM.Config, c: CM.Client, input: CM.Input)
    requires CM.Handle(cfg, c, input).Next? && !CM.Handle(cfg, c, input).client.phase.Done?
    ensures Sends(CM.Handle(cfg, c, input).events, None)
  {
    hide CM.BoundHello, CM.Aged, CM.SomeSha256, CM.EarlyFor, CM.Selecting, CM.ServerShare, CM.PskChoice,
         CM.RetryRequest,
         CM.Finish, CM.EarlyReply;
    if input.Read? && input.message.Some? && input.message.value.Finished? {
      ClientFinishedOrDone(cfg, c, input.epoch, input.message.value, input.draw);
    } else if input.Read? && input.message.Some? && input.message.value.EncryptedExtensions? {
      ExtensionsQuiet(cfg, c, input.epoch, input.message.value, input.draw);
    }
  }

  lemma ExtensionsQuiet(cfg: CM.Config, c: CM.Client, epoch: Epoch, m: Message, d: CM.Draw)
    requires m.EncryptedExtensions?
    ensures Sends(CM.Dispatch(cfg, c, epoch, m, d).events, None)
  {
  }

  lemma ClientFinishedOrDone(cfg: CM.Config, c: CM.Client, epoch: Epoch, m: Message, d: CM.Draw)
    requires m.Finished? && CM.Dispatch(cfg, c, epoch, m, d).Next?
    ensures CM.Dispatch(cfg, c, epoch, m, d).client.phase.Done?
  {
  }

  /** A client that was done stays as it was, and sends no Finished. */
  lemma ClientStays(cfg: CM.Config, c: CM.Client, input: CM.Input)
    requires c.phase.Done? && input.Read? && CM.Handle(cfg, c, input).Next?
    ensures CM.Handle(cfg, c, input).client == c && Sends(CM.Handle(cfg, c, input).events, None)
  {
  }

  /** Finishing takes the server's Finished just read and sends one Finished, the last of the transcript. */
  lemma ClientFinishes(cfg: CM.Config, c: CM.Client, secrets: HandshakeSecrets)
    requires HasSuite(c.traffic) && c.transcript.items != [] && CM.Finish(cfg, c, secrets).Next?
    ensures var o := CM.Finish(cfg, c, secrets);
            && o.client.phase.Done? && AcceptedServer(o.client, LastOf(c.transcript.items))
            && o.client.transcript.items != [] && Sends(o.events, Some(LastOf(o.client.transcript.items)))
  {
  }

  lemma ClientBecomesDone(cfg: CM.Config, c: CM.Client, input: CM.Input)
    requires !c.phase.Done? && CM.Handle(cfg, c, input).Next? && CM.Handle(cfg, c, input).client.phase.Done?
    ensures var o := CM.Handle(cfg, c, input);
            && input.Read? && input.message.Some? && input.message.value.Finished?
            && AcceptedServer(o.client, Whole(input.message.value))
            && o.client.transcript.items != [] && Sends(o.events, Some(LastOf(o.client.transcript.items)))
  {
    hide CM.BoundHello, CM.Aged, CM.SomeSha256, CM.EarlyFor, CM.Selecting, CM.ServerShare, CM.PskChoice,
         CM.RetryRequest,
         CM.Finish, CM.EarlyReply, Sends, AcceptedServer;
    if input.Read? && input.message.Some? && input.message.value.Finished? {
      var m := input.message.value;
      ClientFinishes(cfg, c.(transcript := Push(c.transcript, m)), c.phase.secrets);
    }
  }

  // ---------------------------------------------------------------- server steps

  /** Every Finished the flight sends is the one its keys rest on. */
  lemma ServerReady(cfg: SM.Config, s: SM.Server, suite: nat, resumed: bool, secrets: HandshakeSecrets,
                    events: seq<Event>)
    requires s.transcript.items != [] && Sends(events, Some(LastOf(s.transcript.items)))
    ensures var o := SM.Ready(cfg, s, suite, resumed, secrets, events);
            o.Next? ==> ServerSentIts(o)
  {
  }

  ghost predicate ServerSentIts(o: SM.Outcome)
    requires o.Next?
  {
    && o.server.traffic.Active? && SP.FinishedHash(o.server).items != []
    && Sends(o.events, Some(LastOf(SP.FinishedHash(o.server).items)))
    && !o.server.phase.ExpectClientHello? && !o.server.phase.Done?
  }

  lemma KeysOnly(events: seq<Event>, f: Option<Item>)
    requires forall i :: 0 <= i < |events| ==> !events[i].Send?
    ensures Sends(events, f)
  {
  }

  lemma QuietSends(events: seq<Event>, f: Option<Item>)
    requires Sends(events, None)
    ensures Sends(events, f)
  {
  }

  lemma ServerFlight(cfg: SM.Config, s: SM.Server, h: Hello, suite: nat, resumed: bool, secrets: HandshakeSecrets,
                     events: seq<Event>)
    requires Sends(events, None)
    ensures var o := SM.Flight(cfg, s, h, suite, resumed, secrets, events); o.Next? ==> ServerSentIts(o)
  {
    hide Sends, SM.Credentials, SM.Ready, PushAll, ServerSentIts;
    var o := SM.Flight(cfg, s, h, suite, resumed, secrets, events);
    if o.Next? {
      var ee := EncryptedExtensions(cfg.extensions(h, s.alpn, s.early.remaining.Some?));
      var t := Push(s.transcript, ee);
      var messages := SM.Credentials(cfg, t, AlgOf(suite), resumed).value;
      var u := PushAll(t, messages);
      var finished := Finished(FinishedMac(secrets.server, Hash(u, AlgOf(suite)).value));
      var r := s.(transcript := Push(u, finished));
      var f := Some(LastOf(r.transcript.items));
      CredentialsQuiet(cfg, t, AlgOf(suite), resumed);
      var all := [ee] + messages + [finished];
      OneFinished(ee, messages, finished);
      SendOne(all, f);
      QuietSends(events, f);
      SendsAppend(events, [Send(Handshake, all)], f);
      ServerReady(cfg, r, suite, resumed, secrets, events + [Send(Handshake, all)]);
    }
  }

  lemma OneFinished(ee: Message, messages: seq<Message>, finished: Message)
    requires ee.EncryptedExtensions? && forall i :: 0 <= i < |messages| ==> !messages[i].Finished?
    ensures Carries([ee] + messages + [finished], Some(Whole(finished)))
  {
  }

  lemma SendOne(messages: seq<Message>, f: Option<Item>)
    requires Carries(messages, f)
    ensures Sends([Send(Handshake, messages)], f) && Sends([Send(Plaintext, messages)], f)
  {
  }

  lemma CredentialsQuiet(cfg: SM.Config, t: Transcript, alg: Alg, resumed: bool)
    requires SM.Credentials(cfg, t, alg, resumed).Some?
    ensures var ms := SM.Credentials(cfg, t, alg, resumed).value; forall i :: 0 <= i < |ms| ==> !ms[i].Finished?
  {
  }

  lemma ServerReplies(cfg: SM.Config, s: SM.Server, h: Hello, suite: nat, theirs: Share, ours: Share,
                      psk: Option<SM.Accepted>, d: SM.Draw, events: seq<Event>)
    requires Sends(events, None)
    ensures var o := SM.Reply(cfg, s, h, suite, theirs, ours, psk, d, events); o.Next? ==> ServerSentIts(o)
  {
    hide Sends, SM.Flight, SM.HelloMessage, ServerSentIts;
    var m := SM.HelloMessage(h, suite, ours, d.random, psk.Some?);
    var t := Push(s.transcript, m);
    if Hash(t, AlgOf(suite)).Some? {
      var early := Early(AlgOf(suite), match psk case None => None case Some(a) => Some(a.data.psk));
      var secrets := SecretsFor(Mixed(early, Shared(ours.group, theirs.key, ours.key)), Hash(t, AlgOf(suite)).value);
      var more := [Send(Plaintext, [m]), KeysReady(Handshake, secrets.client, secrets.server)];
      HelloIsQuiet(h, suite, ours, d.random, psk.Some?, more);
      SendsAppend(events, more, None);
      ServerFlight(cfg, s.(transcript := t), h, suite, psk.Some?, secrets, events + more);
    }
  }

  lemma HelloIsQuiet(h: Hello, suite: nat, share: Share, random: nat, resumed: bool, events: seq<Event>)
    requires |events| == 2 && events[0] == Send(Plaintext, [SM.HelloMessage(h, suite, share, random, resumed)])
    requires events[1].KeysReady?
    ensures Sends(events, None)
  {
  }

  lemma ServerAccepts(cfg: SM.Config, s: SM.Server, h: Hello, suite: nat, share: Share, d: SM.Draw)
    ensures var o := SM.Accept(cfg, s, h, suite, share, d); o.Next? ==> ServerSentIts(o)
  {
    hide Sends, SM.Reply, SM.TryPsk, SM.Admit, ServerSentIts;
    var o := SM.Accept(cfg, s, h, suite, share, d);
    if o.Next? {
      var alpn := cfg.alpn(h).value;
      var psk := SM.AcceptedOf(SM.TryPsk(cfg, s, h, AlgOf(suite), alpn, d.now));
      var window := SM.Admit(cfg, h.early, psk, suite, d);
      var t := Push(s.transcript, ClientHello(h));
      var (opening, early) := (SM.QuicEvents(cfg.quic(h)), SM.EarlyEvents(psk, window.remaining.Some?, t));
      KeysOnly(opening, None);
      KeysOnly(early, None);
      SendsAppend(opening, early, None);
      ServerReplies(cfg, s.(transcript := t, alpn := alpn, early := window), h, suite, share,
                    Share(share.group, d.key.value), psk, d, opening + early);
    }
  }

  /** A hello is either answered by a retry request or by a flight with its own Finished. */
  lemma ServerAnswersHello(cfg: SM.Config, s: SM.Server, h: Hello, d: SM.Draw)
    requires s.phase.ExpectClientHello?
    ensures var o := SM.OnClientHello(cfg, s, h, d);
            o.Next? ==> (o.server.phase.ExpectClientHello? && Sends(o.events, None)) || ServerSentIts(o)
  {
    hide SM.Accept, SM.KeepsPin, Sends, ServerSentIts, SM.AskRetry;
    match (cfg.parse(h), SM.PickSuite(h.suites))
    case (Some(kx), Some(suite)) =>
      if Select(s.transcript, AlgOf(suite)).Some? && SelectSuite(s.traffic, suite).Some? {
        var r := s.(transcript := Select(s.transcript, AlgOf(suite)).value,
                    traffic := SelectSuite(s.traffic, suite).value);
        match kx.selected {
          case None => RetryIsQuiet(cfg, r, h, suite, kx.retryGroup);
          case Some(share) => ServerAccepts(cfg, r, h, suite, share, d);
        }
      }
    case _ =>
  }

  lemma RetryIsQuiet(cfg: SM.Config, s: SM.Server, h: Hello, suite: nat, group: Group)
    requires s.phase.ExpectClientHello?
    ensures var o := SM.AskRetry(cfg, s, h, suite, group);
            o.Next? ==> o.server.phase.ExpectClientHello? && Sends(o.events, None)
  {
  }

  /** After its flight the server keeps its keys and sends no Finished; it is done only by
      appending the client Finished it read. */
  lemma ServerLater(cfg: SM.Config, s: SM.Server, input: SM.Input)
    requires !s.phase.ExpectClientHello? && SM.Handle(cfg, s, input).Next?
    ensures var o := SM.Handle(cfg, s, input);
            && o.server.traffic == s.traffic && o.server.hrrDone == s.hrrDone && !o.server.phase.ExpectClientHello?
            && Sends(o.events, None)
            && (s.phase.Done? ==> o.server.transcript == s.transcript)
            && (o.server.phase.Done? && !s.phase.Done? ==>
                  input.Read? && input.message.Some? && input.message.value.Finished?
                  && EndsIn(o.server.transcript.items, Whole(input.message.value)))
  {
  }

  // ------------------------------------------------------------- one move at a time

  /** What one client call may do, as the other side sees it. */
  ghost predicate ClientMoved(c: CM.Client, next: CM.Client, events: seq<Event>, read: Option<Message>)
  {
    || next.phase.Failed?
    || (!next.phase.Done? && !c.phase.Done? && Sends(events, None))
    || (c.phase.Done? && next == c && Sends(events, None))
    || (&& !c.phase.Done? && next.phase.Done? && read.Some? && read.value.Finished? && AcceptedServer(next,
                                                                                                      Whole(read.value))
        && next.transcript.items != [] && Sends(events, Some(LastOf(next.transcript.items))))
  }

  function ReadBy(input: CM.Input): Option<Message>
  {
    match input case StartNow(_) => None case Read(_, m, _) => m
  }

  lemma ClientMoves(cfg: CM.Config, c: CM.Client, input: CM.Input, room: nat)
    ensures var (next, events) := CM.Step(cfg, c, input, room); ClientMoved(c, next, events, ReadBy(input))
  {
    hide CM.Handle, Sends, AcceptedServer;
    KeysOnly([], None);
    if c.phase.Failed? || (input.StartNow? && !c.phase.Initial?) {
    } else if CM.Handle(cfg, c, input).Next? {
      if c.phase.Done? {
        ClientStays(cfg, c, input);
      } else if CM.Handle(cfg, c, input).client.phase.Done? {
        ClientBecomesDone(cfg, c, input);
      } else {
        ClientQuiet(cfg, c, input);
      }
    }
  }

  lemma HoldsAppend(a: seq<Packet>, b: seq<Packet>, f: Option<Item>)
    requires Holds(a, f) && Holds(b, f)
    ensures Holds(a + b, f)
  {
  }

  lemma ClientUpstream(y: System, next: CM.Client, events: seq<Event>, read: Option<Message>, toClient: seq<Packet>)
    requires Upstream(y) && ClientMoved(y.client, next, events, read) && (y.client.phase.Failed? ==> next.phase.Failed?)
    ensures Upstream(System(next, y.server, y.toServer + Sent(events), toClient))
  {
    hide Sends, Sent, AcceptedServer, EndsIn;
    if !next.phase.Failed? {
      if next.phase.Done? {
        var f := LastOf(next.transcript.items);
        HoldsMeans(y.toServer, f);
        HoldsMeans(y.toServer + Sent(events), f);
        if y.client.phase.Done? {
          QuietSends(events, Some(f));
        } else {
          NoneHolds(y.toServer, Some(f));
        }
        SentHolds(events, Some(f));
        HoldsAppend(y.toServer, Sent(events), Some(f));
      } else {
        NothingFinished(y.toServer, events);
      }
    }
  }

  lemma NoneHolds(ps: seq<Packet>, f: Option<Item>)
    requires NoFinished(ps)
    ensures Holds(ps, f)
  {
  }

  lemma NothingFinished(ps: seq<Packet>, events: seq<Event>)
    requires NoFinished(ps) && Sends(events, None)
    ensures NoFinished(ps + Sent(events))
  {
    hide Sends, Sent;
    SentHolds(events, None);
    var any := Restart(Digest(Sha256, []));
    HoldsMeans(Sent(events), any);
  }

  lemma ClientDownstream(y: System, next: CM.Client, events: seq<Event>, read: Option<Message>, toClient: seq<Packet>,
                         toServer: seq<Packet>)
    requires Downstream(y) && ClientMoved(y.client, next, events, read)
    requires toClient == y.toClient || (y.toClient != [] && toClient == y.toClient[1..])
    requires read.Some? ==> y.toClient != [] && y.toClient[0].message == read.value
    ensures Downstream(System(next, y.server, toServer, toClient))
  {
  }

  lemma KeyedHasFinished(s: SM.Server)
    requires SP.Keyed(s)
    ensures s.traffic.Active? && SP.FinishedHash(s).items != []
  {
  }

  lemma ClientKeeps(ccfg: CM.Config, scfg: SM.Config, y: System, input: CM.Input, room: nat, toClient: seq<Packet>)
    requires Inv(ccfg, scfg, y)
    requires toClient == y.toClient || (y.toClient != [] && toClient == y.toClient[1..])
    requires ReadBy(input).Some? ==> y.toClient != [] && y.toClient[0].message == ReadBy(input).value
    ensures var (c, events) := CM.Step(ccfg, y.client, input, room);
            Inv(ccfg, scfg, System(c, y.server, y.toServer + Sent(events), toClient))
  {
    hide CM.Handle, CP.Inv, SP.Inv, Downstream, Upstream, ClientMoved;
    var (c, events) := CM.Step(ccfg, y.client, input, room);
    CP.StepKeeps(ccfg, y.client, input, room);
    ClientMoves(ccfg, y.client, input, room);
    ClientUpstream(y, c, events, ReadBy(input), toClient);
    ClientDownstream(y, c, events, ReadBy(input), toClient, y.toServer + Sent(events));
  }

  /** What one server call may do, as the other side sees it. */
  ghost predicate ServerMoved(s: SM.Server, next: SM.Server, events: seq<Event>, read: Option<Message>)
  {
    || next.phase.Failed?
    || (s.phase.ExpectClientHello? && next.phase.ExpectClientHello? && Sends(events, None))
    || (&& s.phase.ExpectClientHello? && !next.phase.ExpectClientHello? && !next.phase.Done? && next.traffic.Active?
        && SP.FinishedHash(next).items != [] && Sends(events, Some(LastOf(SP.FinishedHash(next).items))))
    || (&& !s.phase.ExpectClientHello? && !next.phase.ExpectClientHello? && next.traffic == s.traffic && Sends(events,
                                                                                                               None)
        && (s.phase.Done? ==> next.transcript == s.transcript)
        && (next.phase.Done? && !s.phase.Done? ==> read.Some? && read.value.Finished? && EndsIn(next.transcript.items,
                                                                                                Whole(read.value))))
  }

  function ServerReads(input: SM.Input): Option<Message>
  {
    match input case Read(_, m, _) => m case NoteEarlyData(_) => None
  }

  lemma ServerMoves(cfg: SM.Config, s: SM.Server, input: SM.Input, room: nat)
    ensures var (next, events) := SM.Step(cfg, s, input, room); ServerMoved(s, next, events, ServerReads(input))
  {
    hide SM.Handle, Sends, EndsIn;
    KeysOnly([], None);
    if !s.phase.Failed? && SM.Handle(cfg, s, input).Next? {
      if s.phase.ExpectClientHello? {
        ServerFirst(cfg, s, input);
      } else {
        ServerLater(cfg, s, input);
      }
    }
  }

  lemma ServerFirst(cfg: SM.Config, s: SM.Server, input: SM.Input)
    requires s.phase.ExpectClientHello? && SM.Handle(cfg, s, input).Next?
    ensures var o := SM.Handle(cfg, s, input);
            (o.server.phase.ExpectClientHello? && Sends(o.events, None)) || ServerSentIts(o)
  {
    hide SM.OnClientHello, Sends, ServerSentIts, SM.Charge;
    KeysOnly([], None);
    if input.Read? && input.message.Some? && input.message.value.ClientHello? {
      ServerAnswersHello(cfg, s, input.message.value.hello, input.draw);
    }
  }

  lemma ServerDownstream(y: System, next: SM.Server, events: seq<Event>, read: Option<Message>, toServer: seq<Packet>)
    requires Downstream(y) && ServerMoved(y.server, next, events, read)
    requires (y.server.phase.Failed? ==> next.phase.Failed?)
    requires !next.phase.Failed? && !next.phase.ExpectClientHello? ==> SP.Keyed(next)
    ensures Downstream(System(y.client, next, toServer, y.toClient + Sent(events)))
  {
    hide Sends, Sent, AcceptedServer, SP.Keyed;
    if !next.phase.Failed? {
      if next.phase.ExpectClientHello? {
        NothingFinished(y.toClient, events);
      } else {
        KeyedHasFinished(next);
        var f := LastOf(SP.FinishedHash(next).items);
        HoldsMeans(y.toClient, f);
        HoldsMeans(y.toClient + Sent(events), f);
        if y.server.phase.ExpectClientHello? {
          NoneHolds(y.toClient, Some(f));
        } else {
          QuietSends(events, Some(f));
        }
        SentHolds(events, Some(f));
        HoldsAppend(y.toClient, Sent(events), Some(f));
      }
    }
  }

  lemma ServerUpstream(y: System, next: SM.Server, events: seq<Event>, read: Option<Message>, toServer: seq<Packet>,
                       toClient: seq<Packet>)
    requires Upstream(y) && ServerMoved(y.server, next, events, read)
    requires toServer == y.toServer || (y.toServer != [] && toServer == y.toServer[1..])
    requires read.Some? ==> y.toServer != [] && y.toServer[0].message == read.value
    ensures Upstream(System(y.client, next, toServer, toClient))
  {
  }

  lemma PhaseKeyed(cfg: SM.Config, s: SM.Server)
    requires SP.Inv(cfg, s)
    ensures !s.phase.Failed? && !s.phase.ExpectClientHello? ==> SP.Keyed(s)
  {
  }

  lemma ServerKeeps(ccfg: CM.Config, scfg: SM.Config, y: System, input: SM.Input, room: nat, toServer: seq<Packet>)
    requires Inv(ccfg, scfg, y)
    requires toServer == y.toServer || (y.toServer != [] && toServer == y.toServer[1..])
    requires ServerReads(input).Some? ==> y.toServer != [] && y.toServer[0].message == ServerReads(input).value
    ensures var (s, events) := SM.Step(scfg, y.server, input, room);
            Inv(ccfg, scfg, System(y.client, s, toServer, y.toClient + Sent(events)))
  {
    hide SM.Handle, CP.Inv, SP.Inv, Downstream, Upstream, ServerMoved, SP.Keyed;
    var (s, events) := SM.Step(scfg, y.server, input, room);
    SP.StepKeeps(scfg, y.server, input, room);
    PhaseKeyed(scfg, s);
    ServerMoves(scfg, y.server, input, room);
    ServerDownstream(y, s, events, ServerReads(input), toServer);
    ServerUpstream(y, s, events, ServerReads(input), toServer, y.toClient + Sent(events));
  }

  lemma EarlyMoveSilent(cfg: SM.Config, s: SM.Server, len: nat)
    ensures Sent(SM.Step(cfg, s, SM.NoteEarlyData(len), 0).1) == []
  {
  }

  lemma AdvanceKeeps(ccfg: CM.Config, scfg: SM.Config, y: System, move: Move)
    requires Inv(ccfg, scfg, y)
    ensures Inv(ccfg, scfg, Advance(ccfg, scfg, y, move))
  {
    hide Inv, CM.Step, SM.Step, Sent;
    match move
    case Begin(d, room) => ClientKeeps(ccfg, scfg, y, CM.StartNow(d), room, y.toClient);
    case ToClient(d, room) =>
      if y.toClient != [] {
        ClientKeeps(ccfg, scfg, y, CM.Read(y.toClient[0].epoch, Some(y.toClient[0].message), d), room, y.toClient[1..]);
      }
    case ToServer(d, room) =>
      if y.toServer != [] {
        ServerKeeps(ccfg, scfg, y, SM.Read(y.toServer[0].epoch, Some(y.toServer[0].message), d), room, y.toServer[1..]);
      }
    case EarlyDataTo(len) =>
      ServerKeeps(ccfg, scfg, y, SM.NoteEarlyData(len), 0, y.toServer);
      EarlyMoveSilent(scfg, y.server, len);
      assert y.toClient + [] == y.toClient;
  }

  lemma {:induction false} PlayKeeps(ccfg: CM.Config, scfg: SM.Config, y: System, moves: seq<Move>)
    requires Inv(ccfg, scfg, y)
    ensures Inv(ccfg, scfg, Play(ccfg, scfg, y, moves))
    decreases |moves|
  {
    hide Inv, Advance;
    if moves != [] {
      AdvanceKeeps(ccfg, scfg, y, moves[0]);
      PlayKeeps(ccfg, scfg, Advance(ccfg, scfg, y, moves[0]), moves[1..]);
    }
  }

  // ------------------------------------------------------- each side's own run

  /** The call one move makes, on either side. */
  function ClientCall(y: System, move: Move): seq<CR.Call>
  {
    match move
    case Begin(d, room) => [CR.Call(CM.StartNow(d), room)]
    case ToClient(d, room) =>
      if y.toClient == [] then []
      else [CR.Call(CM.Read(y.toClient[0].epoch, Some(y.toClient[0].message), d), room)]
    case _ => []
  }

  function ServerCall(y: System, move: Move): seq<SR.Call>
  {
    match move
    case ToServer(d, room) =>
      if y.toServer == [] then []
      else [SR.Call(SM.Read(y.toServer[0].epoch, Some(y.toServer[0].message), d), room)]
    case EarlyDataTo(len) => [SR.Call(SM.NoteEarlyData(len), 0)]
    case _ => []
  }

  /** The calls the client, and the server, see when these moves are played. */
  function ClientCalls(ccfg: CM.Config, scfg: SM.Config, y: System, moves: seq<Move>): seq<CR.Call>
    decreases |moves|
  {
    if moves == [] then []
    else ClientCall(y, moves[0]) + ClientCalls(ccfg, scfg, Advance(ccfg, scfg, y, moves[0]), moves[1..])
  }

  function ServerCalls(ccfg: CM.Config, scfg: SM.Config, y: System, moves: seq<Move>): seq<SR.Call>
    decreases |moves|
  {
    if moves == [] then []
    else ServerCall(y, moves[0]) + ServerCalls(ccfg, scfg, Advance(ccfg, scfg, y, moves[0]), moves[1..])
  }

  lemma ClientNext(cfg: CM.Config, c: CM.Client, call: CR.Call, calls: seq<CR.Call>)
    ensures CR.Run(cfg, c, [call] + calls).0 == CR.Run(cfg, CM.Step(cfg, c, call.input, call.room).0, calls).0
  {
    hide CM.Step;
    assert ([call] + calls)[1..] == calls;
  }

  lemma ServerNext(cfg: SM.Config, s: SM.Server, call: SR.Call, calls: seq<SR.Call>)
    ensures SR.Run(cfg, s, [call] + calls).0 == SR.Run(cfg, SM.Step(cfg, s, call.input, call.room).0, calls).0
  {
    hide SM.Step;
    assert ([call] + calls)[1..] == calls;
  }

  /** Each side of a played system is a run of its own: what holds of every run holds here. */
  lemma {:induction false} PlayIsRuns(ccfg: CM.Config, scfg: SM.Config, y: System, moves: seq<Move>)
    ensures Play(ccfg, scfg, y, moves).client == CR.Run(ccfg, y.client, ClientCalls(ccfg, scfg, y, moves)).0
    ensures Play(ccfg, scfg, y, moves).server == SR.Run(scfg, y.server, ServerCalls(ccfg, scfg, y, moves)).0
    decreases |moves|
  {
    hide CM.Step, SM.Step, Sent;
    if moves != [] {
      var z := Advance(ccfg, scfg, y, moves[0]);
      PlayIsRuns(ccfg, scfg, z, moves[1..]);
      var (cs, ss) := (ClientCalls(ccfg, scfg, z, moves[1..]), ServerCalls(ccfg, scfg, z, moves[1..]));
      assert [] + cs == cs && [] + ss == ss;
      match moves[0]
      case Begin(d, room) => ClientNext(ccfg, y.client, CR.Call(CM.StartNow(d), room), cs);
      case ToClient(d, room) =>
        if y.toClient != [] {
          ClientNext(ccfg, y.client, CR.Call(CM.Read(y.toClient[0].epoch, Some(y.toClient[0].message), d), room), cs);
        }
      case ToServer(d, room) =>
        if y.toServer != [] {
          ServerNext(scfg, y.server, SR.Call(SM.Read(y.toServer[0].epoch, Some(y.toServer[0].message), d), room), ss);
        }
      case EarlyDataTo(len) => ServerNext(scfg, y.server, SR.Call(SM.NoteEarlyData(len), 0), ss);
    }
  }

  /** Everything the client, and the server, emits along the moves. */
  function ClientEvents(ccfg: CM.Config, scfg: SM.Config, ticket: Option<CM.Ticket>, moves: seq<Move>): seq<Event>
  {
    CR.Run(ccfg, CM.Fresh(ticket), ClientCalls(ccfg, scfg, Start(ticket), moves)).1
  }

  function ServerEvents(ccfg: CM.Config, scfg: SM.Config, ticket: Option<CM.Ticket>, moves: seq<Move>): seq<Event>
  {
    SR.Run(scfg, SM.Fresh(), ServerCalls(ccfg, scfg, Start(ticket), moves)).1
  }

  /** In this epoch each side installed keys once, and each reads with what the other writes with. */
  ghost predicate Mirrored(client: seq<Event>, server: seq<Event>, epoch: Epoch)
  {
    && |KeysIn(client, epoch)| == |KeysIn(server, epoch)| == 1
    && KeysIn(client, epoch)[0].0 == KeysIn(server, epoch)[0].1
    && KeysIn(client, epoch)[0].1 == KeysIn(server, epoch)[0].0
  }

  lemma MirroredKeys(ccfg: CM.Config, scfg: SM.Config, ticket: Option<CM.Ticket>, moves: seq<Move>, epoch: Epoch)
    requires var y := Play(ccfg, scfg, Start(ticket), moves);
             && y.client.phase.Done? && y.server.phase.Done? && SP.Keyed(y.server)
             && y.client.traffic == y.server.traffic
             && CP.Handshaken(y.client) == Some(SP.Handshaken(y.server))
    requires epoch.Handshake? || epoch.Application?
    ensures Mirrored(ClientEvents(ccfg, scfg, ticket, moves), ServerEvents(ccfg, scfg, ticket, moves), epoch)
  {
    hide Play, CR.Run, SR.Run, ClientCalls, ServerCalls, KeysIn, CP.Inv, SP.Inv, SP.Keyed, CP.Handshaken, SP.Handshaken;
    PlayIsRuns(ccfg, scfg, Start(ticket), moves);
    CR.FreshHolds(ccfg, ticket);
    SR.FreshHolds(scfg);
    CR.RunInstalls(ccfg, CM.Fresh(ticket), ClientCalls(ccfg, scfg, Start(ticket), moves), epoch);
    SR.RunInstalls(scfg, SM.Fresh(), ServerCalls(ccfg, scfg, Start(ticket), moves), epoch);
    NothingInstalled(ticket, epoch);
    var y := Play(ccfg, scfg, Start(ticket), moves);
    KeyedIsActive(y.server);
    var (a, b) := (KeysIn(ClientEvents(ccfg, scfg, ticket, moves), epoch),
                   KeysIn(ServerEvents(ccfg, scfg, ticket, moves), epoch));
    assert a == CR.KeysOf(y.client, epoch) && b == SR.KeysOf(y.server, epoch);
  }

  lemma NothingInstalled(ticket: Option<CM.Ticket>, epoch: Epoch)
    ensures CR.KeysOf(CM.Fresh(ticket), epoch) == [] && SR.KeysOf(SM.Fresh(), epoch) == []
  {
  }

  lemma KeyedIsActive(s: SM.Server)
    requires SP.Keyed(s)
    ensures s.traffic.Active?
  {
  }

  // ---------------------------------------------------------------- conservation

  /** What a side's calls read from its channel, in order. */
  function ClientTook(calls: seq<CR.Call>): seq<Packet>
  {
    if calls == [] then []
    else
      (match calls[0].input case Read(epoch, Some(m), _) => [Packet(epoch, m)] case _ => []) + ClientTook(calls[1..])
  }

  function ServerTook(calls: seq<SR.Call>): seq<Packet>
  {
    if calls == [] then []
    else
      (match calls[0].input case Read(epoch, Some(m), _) => [Packet(epoch, m)] case _ => []) + ServerTook(calls[1..])
  }

  lemma {:induction false} SentAppend(a: seq<Event>, b: seq<Event>)
    ensures Sent(a + b) == Sent(a) + Sent(b)
    decreases |a|
  {
    if a == [] {
      assert a + b == b;
    } else {
      assert (a + b)[1..] == a[1..] + b;
      SentAppend(a[1..], b);
    }
  }

  /** One side's first call, its packet and its events, and then the rest. */
  lemma ClientFirst(cfg: CM.Config, c: CM.Client, call: CR.Call, calls: seq<CR.Call>)
    ensures var (next, events) := CM.Step(cfg, c, call.input, call.room);
            && CR.Run(cfg, c, [call] + calls).1 == events + CR.Run(cfg, next, calls).1
            && Sent(CR.Run(cfg, c, [call] + calls).1) == Sent(events) + Sent(CR.Run(cfg, next, calls).1)
            && ClientTook([call] + calls) ==
               (match call.input case Read(epoch, Some(m), _) => [Packet(epoch, m)] case _ => []) + ClientTook(calls)
  {
    hide CM.Step, Sent;
    var (next, events) := CM.Step(cfg, c, call.input, call.room);
    assert ([call] + calls)[1..] == calls;
    SentAppend(events, CR.Run(cfg, next, calls).1);
  }

  lemma ServerFirstCall(cfg: SM.Config, s: SM.Server, call: SR.Call, calls: seq<SR.Call>)
    ensures var (next, events) := SM.Step(cfg, s, call.input, call.room);
            && SR.Run(cfg, s, [call] + calls).1 == events + SR.Run(cfg, next, calls).1
            && Sent(SR.Run(cfg, s, [call] + calls).1) == Sent(events) + Sent(SR.Run(cfg, next, calls).1)
            && ServerTook([call] + calls) ==
               (match call.input case Read(epoch, Some(m), _) => [Packet(epoch, m)] case _ => []) + ServerTook(calls)
  {
    hide SM.Step, Sent;
    var (next, events) := SM.Step(cfg, s, call.input, call.room);
    assert ([call] + calls)[1..] == calls;
    SentAppend(events, SR.Run(cfg, next, calls).1);
  }

  /** The channels neither lose, invent nor reorder: what was on its way and what was sent since is what was read
      and what is still on its way. */
  lemma {:induction false} ChannelsConserve(ccfg: CM.Config, scfg: SM.Config, y: System, moves: seq<Move>)
    ensures var z := Play(ccfg, scfg, y, moves);
            var (cs, ss) := (ClientCalls(ccfg, scfg, y, moves), ServerCalls(ccfg, scfg, y, moves));
            && y.toServer + Sent(CR.Run(ccfg, y.client, cs).1) == ServerTook(ss) + z.toServer
            && y.toClient + Sent(SR.Run(scfg, y.server, ss).1) == ClientTook(cs) + z.toClient
    decreases |moves|
  {
    hide CM.Step, SM.Step, Sent, ClientTook, ServerTook;
    if moves == [] {
      NothingYet(ccfg, scfg, y);
    } else {
      var z := Advance(ccfg, scfg, y, moves[0]);
      ChannelsConserve(ccfg, scfg, z, moves[1..]);
      AdvanceConserves(ccfg, scfg, y, moves[0], ClientCalls(ccfg, scfg, z, moves[1..]),
                       ServerCalls(ccfg, scfg, z, moves[1..]), Play(ccfg, scfg, z, moves[1..]));
    }
  }

  lemma NothingYet(ccfg: CM.Config, scfg: SM.Config, y: System)
    ensures Sent(CR.Run(ccfg, y.client, []).1) == [] && Sent(SR.Run(scfg, y.server, []).1) == []
    ensures ServerTook([]) == [] && ClientTook([]) == []
    ensures y.toServer + [] == y.toServer && y.toClient + [] == y.toClient
  {
  }

  lemma AdvanceConserves(ccfg: CM.Config, scfg: SM.Config, y: System, move: Move, cs: seq<CR.Call>, ss: seq<SR.Call>,
                         last: System)
    requires var z := Advance(ccfg, scfg, y, move);
             && z.toServer + Sent(CR.Run(ccfg, z.client, cs).1) == ServerTook(ss) + last.toServer
             && z.toClient + Sent(SR.Run(scfg, z.server, ss).1) == ClientTook(cs) + last.toClient
    ensures y.toServer + Sent(CR.Run(ccfg, y.client, ClientCall(y, move) + cs).1) ==
            ServerTook(ServerCall(y, move) + ss) + last.toServer
    ensures y.toClient + Sent(SR.Run(scfg, y.server, ServerCall(y, move) + ss).1) ==
            ClientTook(ClientCall(y, move) + cs) + last.toClient
  {
    hide CM.Step, SM.Step, Sent, ClientTook, ServerTook, CR.Run, SR.Run;
    var z := Advance(ccfg, scfg, y, move);
    assert [] + cs == cs && [] + ss == ss;
    match move
    case Begin(d, room) =>
      var call := CR.Call(CM.StartNow(d), room);
      ClientFirst(ccfg, y.client, call, cs);
      var said := Sent(CM.Step(ccfg, y.client, call.input, room).1);
      assert (y.toServer + said) + Sent(CR.Run(ccfg, z.client, cs).1) ==
             y.toServer + (said + Sent(CR.Run(ccfg, z.client, cs).1));
    case ToClient(d, room) =>
      if y.toClient != [] {
        var p := y.toClient[0];
        var call := CR.Call(CM.Read(p.epoch, Some(p.message), d), room);
        ClientFirst(ccfg, y.client, call, cs);
        var said := Sent(CM.Step(ccfg, y.client, call.input, room).1);
        assert (y.toServer + said) + Sent(CR.Run(ccfg, z.client, cs).1) ==
               y.toServer + (said + Sent(CR.Run(ccfg, z.client, cs).1));
        assert y.toClient == [p] + z.toClient;
        assert [p] + (ClientTook(cs) + last.toClient) == ([p] + ClientTook(cs)) + last.toClient;
        assert [p] + (z.toClient + Sent(SR.Run(scfg, y.server, ss).1)) ==
               ([p] + z.toClient) + Sent(SR.Run(scfg, y.server, ss).1);
      }
    case ToServer(d, room) =>
      if y.toServer != [] {
        var p := y.toServer[0];
        var call := SR.Call(SM.Read(p.epoch, Some(p.message), d), room);
        ServerFirstCall(scfg, y.server, call, ss);
        var said := Sent(SM.Step(scfg, y.server, call.input, room).1);
        assert (y.toClient + said) + Sent(SR.Run(scfg, z.server, ss).1) ==
               y.toClient + (said + Sent(SR.Run(scfg, z.server, ss).1));
        assert y.toServer == [p] + z.toServer;
        assert [p] + (ServerTook(ss) + last.toServer) == ([p] + ServerTook(ss)) + last.toServer;
        assert [p] + (z.toServer + Sent(CR.Run(ccfg, y.client, cs).1)) ==
               ([p] + z.toServer) + Sent(CR.Run(ccfg, y.client, cs).1);
      }
    case EarlyDataTo(len) =>
      var call := SR.Call(SM.NoteEarlyData(len), 0);
      ServerFirstCall(scfg, y.server, call, ss);
      NoteSaysNothing(scfg, y.server, len);
      assert [] + Sent(SR.Run(scfg, z.server, ss).1) == Sent(SR.Run(scfg, z.server, ss).1);
      assert [] + ServerTook(ss) == ServerTook(ss);
  }

  lemma NoteSaysNothing(cfg: SM.Config, s: SM.Server, len: nat)
    ensures SM.Step(cfg, s, SM.NoteEarlyData(len), 0).1 == [] && Sent([]) == []
  {
  }

  // ------------------------------------------------------------------ early data

  lemma {:induction false} ServerTookHas(calls: seq<SR.Call>, i: nat)
    requires i < |calls| && calls[i].input.Read? && calls[i].input.message.Some?
    ensures Packet(calls[i].input.epoch, calls[i].input.message.value) in ServerTook(calls)
    decreases |calls|
  {
    if i > 0 {
      ServerTookHas(calls[1..], i - 1);
    }
  }

  lemma {:induction false} SentBySome(events: seq<Event>, p: Packet) returns (i: nat)
    requires p in Sent(events)
    ensures i < |events| && events[i].Send? && events[i].epoch == p.epoch && p.message in events[i].messages
    decreases |events|
  {
    if events[0].Send? && p in PacketsOf(events[0].epoch, events[0].messages) {
      i := 0;
    } else {
      i := SentBySome(events[1..], p);
      i := i + 1;
    }
  }

  /** What the server read, the client had sent. */
  lemma ReadWasSent(ccfg: CM.Config, scfg: SM.Config, ticket: Option<CM.Ticket>, moves: seq<Move>, i: nat)
    requires var ss := ServerCalls(ccfg, scfg, Start(ticket), moves);
             i < |ss| && ss[i].input.Read? && ss[i].input.message.Some?
    ensures var input := ServerCalls(ccfg, scfg, Start(ticket), moves)[i].input;
            Packet(input.epoch, input.message.value) in Sent(ClientEvents(ccfg, scfg, ticket, moves))
  {
    hide Sent, ServerTook, ClientTook, CR.Run, SR.Run, Play, ServerCalls, ClientCalls;
    ChannelsConserve(ccfg, scfg, Start(ticket), moves);
    ServerTookHas(ServerCalls(ccfg, scfg, Start(ticket), moves), i);
    var none: seq<Packet> := [];
    assert none + Sent(ClientEvents(ccfg, scfg, ticket, moves)) == Sent(ClientEvents(ccfg, scfg, ticket, moves));
  }

  /** Of everything a client sends, only its first hello can offer early data. */
  lemma EarlyHelloIsFirst(cfg: CM.Config, ticket: Option<CM.Ticket>, calls: seq<CR.Call>, h: Hello)
    returns (g: Hello)
    requires Packet(Plaintext, ClientHello(h)) in Sent(CR.Run(cfg, CM.Fresh(ticket), calls).1) && h.early
    ensures g == h && calls != [] && calls[0].input.StartNow? && calls[0].room >= 1
    ensures CReports.IsFirstHello(cfg, ticket, calls[0].input.draw, g)
    ensures var events := CR.Run(cfg, CM.Fresh(ticket), calls).1;
            && EarlySecrets(events) ==
               (if calls[0].room >= 2 then [CReports.EarlySecret(ticket.value.psk, g)] else [])
            && (calls[0].room == 1 ==> |events| == 1)
            && events != [] && events[0] == Send(Plaintext, [ClientHello(g)])
  {
    hide CR.Run, CReports.IsFirstHello, CReports.Later;
    var events := CR.Run(cfg, CM.Fresh(ticket), calls).1;
    var i := SentBySome(events, Packet(Plaintext, ClientHello(h)));
    g := CReports.OpeningOf(cfg, ticket, calls);
    var from := if g.early && calls[0].room >= 2 then 2 else 1;
    if i >= from {
      assert events[i] == events[from..][i - from];
      LaterSendsNoEarly(events[from..], i - from, h);
    }
    assert i == 0 && ClientHello(h) in [ClientHello(g)];
  }

  lemma LaterSendsNoEarly(events: seq<Event>, i: nat, h: Hello)
    requires CReports.Later(events) && i < |events| && events[i].Send? && ClientHello(h) in events[i].messages
    ensures !h.early
  {
    var j :| 0 <= j < |events[i].messages| && events[i].messages[j] == ClientHello(h);
  }

  /** The room of the first move that lets the client begin. */
  function OpeningRoom(moves: seq<Move>): nat
  {
    if moves == [] then 0 else if moves[0].Begin? then moves[0].room else OpeningRoom(moves[1..])
  }

  /** The client's first call is that move's. */
  lemma {:induction false} OpeningCall(ccfg: CM.Config, scfg: SM.Config, y: System, moves: seq<Move>)
    requires y.toServer == [] && y.toClient == []
    ensures var cs := ClientCalls(ccfg, scfg, y, moves); cs != [] ==> cs[0].room == OpeningRoom(moves)
    decreases |moves|
  {
    hide CM.Step, SM.Step;
    if moves != [] && !moves[0].Begin? {
      OpeningCall(ccfg, scfg, Advance(ccfg, scfg, y, moves[0]), moves[1..]);
    }
  }

  /** An early-data secret a server announces is of the first hello and the key that bound it. */
  lemma AnnouncedFor(cfg: SM.Config, s: SM.Server, call: SR.Call, k: Secret) returns (h: Hello)
    requires SP.Inv(cfg, s) && SReports.TellsEarly(cfg, s, call, k)
    ensures call.input.Read? && call.input.epoch.Plaintext? && call.input.message == Some(ClientHello(h)) && h.early
    ensures h.psk.Some? && h.psk.value.binder.Binder?
    ensures k == Derived(Early(Sha256, Some(h.psk.value.binder.psk)), ClientEarly,
                         Digest(Sha256, [Whole(ClientHello(h))]))
  {
    var g, suite: nat, share, alpn :| SReports.Welcomes(cfg, s, call, g, suite, share, alpn)
                                      && SReports.Earns(cfg, s, g, suite, alpn, call.input.draw, k);
    h := g;
    assert !s.hrrDone;
    var none: seq<Item> := [];
    assert none + [Whole(ClientHello(h))] == [Whole(ClientHello(h))];
  }

  /** Early-data keys over every run of the two: each side announces them at most once. If the server does, it is
      for the client's first hello and the key of the ticket the client began with, and the client announced the
      very same secret exactly if its sink had room for more than that hello. */
  lemma EarlyKeysAgree(ccfg: CM.Config, scfg: SM.Config, ticket: Option<CM.Ticket>, moves: seq<Move>)
    ensures |EarlySecrets(ClientEvents(ccfg, scfg, ticket, moves))| <= 1
    ensures |EarlySecrets(ServerEvents(ccfg, scfg, ticket, moves))| <= 1
    ensures var (client, server) := (ClientEvents(ccfg, scfg, ticket, moves), ServerEvents(ccfg, scfg, ticket, moves));
            EarlySecrets(server) != [] ==>
            && ticket.Some?
            && (exists h :: client != [] && client[0] == Send(Plaintext, [ClientHello(h)])
                            && EarlySecrets(server) == [CReports.EarlySecret(ticket.value.psk, h)])
            && (EarlySecrets(client) == EarlySecrets(server) <==> OpeningRoom(moves) >= 2)
            && (OpeningRoom(moves) < 2 ==> EarlySecrets(client) == [] && |client| == 1)
  {
    hide CR.Run, SR.Run, ClientCalls, ServerCalls, Sent, EarlySecrets, SP.Inv, SReports.TellsEarly,
         CReports.IsFirstHello, CReports.Later;
    var (cs, ss) := (ClientCalls(ccfg, scfg, Start(ticket), moves), ServerCalls(ccfg, scfg, Start(ticket), moves));
    var (client, server) := (ClientEvents(ccfg, scfg, ticket, moves), ServerEvents(ccfg, scfg, ticket, moves));
    SR.FreshHolds(scfg);
    SReports.EarlyKeysOnce(scfg, SM.Fresh(), ss);
    ClientSecretsOnce(ccfg, ticket, cs);
    if EarlySecrets(server) != [] {
      var k := EarlySecrets(server)[0];
      EarlyIff(server, k);
      SReports.EarlyKeysIff(scfg, ss, k);
      var i :| 0 <= i < |ss| && SReports.TellsEarly(scfg, SReports.At(scfg, ss, i), ss[i], k);
      SR.RunKeeps(scfg, SM.Fresh(), ss[..i]);
      var h := AnnouncedFor(scfg, SReports.At(scfg, ss, i), ss[i], k);
      ReadWasSent(ccfg, scfg, ticket, moves, i);
      var g := EarlyHelloIsFirst(ccfg, ticket, cs, h);
      BoundByTicket(ccfg, ticket, cs[0].input.draw, g);
      OpeningCall(ccfg, scfg, Start(ticket), moves);
      assert client[0] == Send(Plaintext, [ClientHello(g)]);
      assert EarlySecrets(server) == [CReports.EarlySecret(ticket.value.psk, g)];
    }
  }

  lemma BoundByTicket(cfg: CM.Config, ticket: Option<CM.Ticket>, d: CM.Draw, h: Hello)
    requires CReports.IsFirstHello(cfg, ticket, d, h) && h.psk.Some? && h.psk.value.binder.Binder?
    ensures ticket.Some? && h.psk.value.binder.psk == ticket.value.psk
  {
  }

  lemma ClientSecretsOnce(cfg: CM.Config, ticket: Option<CM.Ticket>, calls: seq<CR.Call>)
    ensures |EarlySecrets(CR.Run(cfg, CM.Fresh(ticket), calls).1)| <= 1
  {
    hide CR.Run, CReports.IsFirstHello, CReports.Later;
    if CR.Run(cfg, CM.Fresh(ticket), calls).1 != [] {
      var g := CReports.OpeningOf(cfg, ticket, calls);
    }
  }

  /** In every run over in-order channels, with any configurations, tickets, retries, early
      data, client certificates and sink failures: if both sides are done, their transcripts,
      cipher suite and traffic, exporter and resumption secrets are equal, the handshake and
      application keys each installed, once, are the other's with reading and writing exchanged, and
      any early-data key the server installed is the one the client installed. */
  lemma TwoPartyAgreement(ccfg: CM.Config, scfg: SM.Config, ticket: Option<CM.Ticket>, moves: seq<Move>)
    requires var y := Play(ccfg, scfg, Start(ticket), moves); y.client.phase.Done? && y.server.phase.Done?
    ensures var y := Play(ccfg, scfg, Start(ticket), moves);
            && y.client.transcript == y.server.transcript
            && y.client.traffic.Active? && y.client.traffic == y.server.traffic
            && y.client.exporter == y.server.exporter && y.client.exporter.Some?
            && y.client.resumptionMaster == SM.ResumptionSecret(y.server) && y.client.resumptionMaster.Some?
    ensures var (client, server) := (ClientEvents(ccfg, scfg, ticket, moves), ServerEvents(ccfg, scfg, ticket, moves));
            && Mirrored(client, server, Handshake) && Mirrored(client, server, Application)
            && |EarlySecrets(client)| <= 1
            && (EarlySecrets(server) == [] || EarlySecrets(server) == EarlySecrets(client))
  {
    hide Play, CP.Settled, SP.Keyed, SP.ClientKnown, CP.Attested, CP.Handshaken, SP.Handshaken, ClientEvents,
         ServerEvents, Mirrored;
    assert Inv(ccfg, scfg, Start(ticket));
    PlayKeeps(ccfg, scfg, Start(ticket), moves);
    var y := Play(ccfg, scfg, Start(ticket), moves);
    assert ClientDone(y.client) && ServerDone(y.server);
    SettledIsActive(y.client, y.server);
    SharedFinishedMeansAgreement(y.client, y.server);
    MirroredKeys(ccfg, scfg, ticket, moves, Handshake);
    MirroredKeys(ccfg, scfg, ticket, moves, Application);
    EarlyKeysAgree(ccfg, scfg, ticket, moves);
    KeysTakeMore(ClientEvents(ccfg, scfg, ticket, moves), ServerEvents(ccfg, scfg, ticket, moves));
  }

  /** A client that installed handshake keys said more than its hello. */
  lemma KeysTakeMore(client: seq<Event>, server: seq<Event>)
    requires Mirrored(client, server, Handshake)
    ensures |client| == 1 ==> !client[0].Send?
  {
    if |client| == 1 && client[0].Send? {
      NoKeys(client, Handshake);
    }
  }

  lemma SettledIsActive(c: CM.Client, s: SM.Server)
    requires CP.Settled(c) && SP.Keyed(s)
    ensures c.traffic.Active? && s.traffic.Active?
    ensures CP.FinishedHash(c).items != [] && SP.FinishedHash(s).items != []
  {
  }
}
