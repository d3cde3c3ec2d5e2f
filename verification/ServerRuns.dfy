/** Whole runs of the server: arbitrary messages, epochs, clocks, early data and sink failures. */
module ServerRuns {
  import opened Bytes
  import opened Symbols
  import opened ServerMachine
  import opened ServerProofs

  datatype Call = Call(input: Input, room: nat)

  function Run(cfg: Config, s: Server, calls: seq<Call>): (Server, seq<Event>)
    decreases |calls|
  {
    if calls == [] then (s, [])
    else
      var (next, events) := Step(cfg, s, calls[0].input, calls[0].room);
      var (last, later) := Run(cfg, next, calls[1..]);
      (last, events + later)
  }

  lemma {:induction false} RunKeeps(cfg: Config, s: Server, calls: seq<Call>)
    requires Inv(cfg, s)
    ensures Inv(cfg, Run(cfg, s, calls).0)
    decreases |calls|
  {
    hide Inv, Step;
    if calls != [] {
      StepKeeps(cfg, s, calls[0].input, calls[0].room);
      RunKeeps(cfg, Step(cfg, s, calls[0].input, calls[0].room).0, calls[1..]);
    }
  }

  lemma FreshHolds(cfg: Config)
    ensures Inv(cfg, Fresh())
  {
  }

  lemma {:induction false} RunAppend(cfg: Config, s: Server, first: seq<Call>, second: seq<Call>)
    ensures var (middle, events) := Run(cfg, s, first);
            var (last, later) := Run(cfg, middle, second);
            Run(cfg, s, first + second) == (last, events + later)
    decreases |first|
  {
    hide Step;
    if first == [] {
      assert first + second == second;
      assert [] + Run(cfg, s, second).1 == Run(cfg, s, second).1;
    } else {
      var (next, events) := Step(cfg, s, first[0].input, first[0].room);
      assert (first + second)[1..] == first[1..] + second;
      RunAppend(cfg, next, first[1..], second);
      var (middle, more) := Run(cfg, next, first[1..]);
      assert events + (more + Run(cfg, middle, second).1) == (events + more) + Run(cfg, middle, second).1;
    }
  }

  lemma RunOne(cfg: Config, s: Server, call: Call)
    ensures Run(cfg, s, [call]) == Step(cfg, s, call.input, call.room)
  {
    hide Step;
    var (next, events) := Step(cfg, s, call.input, call.room);
    assert [call][1..] == [] && Run(cfg, next, []) == (next, []);
    assert events + [] == events;
  }

  lemma RunSnoc(cfg: Config, s: Server, calls: seq<Call>, call: Call)
    ensures var (last, events) := Run(cfg, s, calls);
            var (next, more) := Step(cfg, last, call.input, call.room);
            Run(cfg, s, calls + [call]) == (next, events + more)
  {
    hide Step, Run;
    RunAppend(cfg, s, calls, [call]);
    RunOne(cfg, Run(cfg, s, calls).0, call);
  }

  lemma NoCalls(cfg: Config, s: Server)
    ensures Run(cfg, s, []) == (s, [])
  {
  }

  // -------------------------------------------------------------- being done

  predicate Finishing(events: seq<Event>)
  {
    exists i :: 0 <= i < |events| && events[i].HandshakeDone?
  }

  lemma CutFinishing(events: seq<Event>, room: nat)
    requires room <= |events| && Finishing(events[..room])
    ensures Finishing(events)
  {
  }

  lemma FinishingAppend(a: seq<Event>, b: seq<Event>)
    ensures Finishing(a + b) <==> Finishing(a) || Finishing(b)
  {
    if Finishing(a) {
      var i :| 0 <= i < |a| && a[i].HandshakeDone?;
      assert (a + b)[i].HandshakeDone?;
    }
    if Finishing(b) {
      var i :| 0 <= i < |b| && b[i].HandshakeDone?;
      assert (a + b)[|a| + i].HandshakeDone?;
    }
  }

  lemma NotFinishing(events: seq<Event>)
    requires forall i :: 0 <= i < |events| ==> !events[i].HandshakeDone?
    ensures !Finishing(events)
  {
  }

  lemma ReplyQuiet(cfg: Config, s: Server, h: Hello, suite: nat, theirs: Share, ours: Share, psk: Option<Accepted>,
                   d: Draw, events: seq<Event>)
    requires !Finishing(events)
    ensures var o := Reply(cfg, s, h, suite, theirs, ours, psk, d, events);
            !Finishing(o.events) && (o.Next? ==> !o.server.phase.Done? && o.server.early == s.early)
  {
  }

  lemma AcceptQuiet(cfg: Config, s: Server, h: Hello, suite: nat, share: Share, d: Draw)
    ensures var o := Accept(cfg, s, h, suite, share, d);
            && !Finishing(o.events)
            && (o.Next? ==> !o.server.phase.Done? && cfg.alpn(h).Some?
                            && var tried := TryPsk(cfg, s, h, AlgOf(suite), cfg.alpn(h).value, d.now);
                               o.server.early == Admit(cfg, h.early, AcceptedOf(tried), suite, d))
  {
    hide Finishing, Reply, TryPsk, Admit;
    NotFinishing([]);
    if cfg.alpn(h).Some? {
      var alpn := cfg.alpn(h).value;
      var tried := TryPsk(cfg, s, h, AlgOf(suite), alpn, d.now);
      var psk := AcceptedOf(tried);
      var window := Admit(cfg, h.early, psk, suite, d);
      var t := Push(s.transcript, ClientHello(h));
      var (opening, early) := (QuicEvents(cfg.quic(h)), EarlyEvents(psk, window.remaining.Some?, t));
      NotFinishing(opening);
      NotFinishing(early);
      FinishingAppend(opening, early);
      if d.key.Some? {
        ReplyQuiet(cfg, s.(transcript := t, alpn := alpn, early := window), h, suite, share,
                   Share(share.group, d.key.value), psk, d, opening + early);
      }
    }
  }

  /** What a hello leaves in the early-data window. */
  ghost predicate Admits(cfg: Config, before: Server, o: Outcome)
  {
    && (o.Next? ==> !o.server.phase.Done?)
    && (o.Next? && o.server.phase.ExpectClientHello? ==> o.server.early == before.early)
    && (o.Next? && !o.server.phase.ExpectClientHello? ==> o.server.early.remaining == o.server.early.maximum)
  }

  lemma HelloQuiet(cfg: Config, s: Server, h: Hello, d: Draw)
    requires s.phase.ExpectClientHello?
    ensures !Finishing(OnClientHello(cfg, s, h, d).events) && Admits(cfg, s, OnClientHello(cfg, s, h, d))
  {
    hide Finishing, AskRetry, Accept, KeepsPin, Grant, TryPsk;
    NotFinishing([]);
    match (cfg.parse(h), PickSuite(h.suites))
    case (Some(kx), Some(suite)) =>
      if Select(s.transcript, AlgOf(suite)).Some? && SelectSuite(s.traffic, suite).Some? {
        var r := s.(transcript := Select(s.transcript, AlgOf(suite)).value,
                    traffic := SelectSuite(s.traffic, suite).value);
        match kx.selected {
          case None => RetryQuiet(cfg, r, h, suite, kx.retryGroup);
          case Some(share) =>
            AcceptQuiet(cfg, r, h, suite, share, d);
            AcceptMoves(cfg, r, h, suite, share, d);
        }
      }
    case _ =>
  }

  lemma AcceptMoves(cfg: Config, s: Server, h: Hello, suite: nat, share: Share, d: Draw)
    ensures var o := Accept(cfg, s, h, suite, share, d); o.Next? ==> !o.server.phase.ExpectClientHello?
  {
  }

  lemma RetryQuiet(cfg: Config, s: Server, h: Hello, suite: nat, group: Group)
    requires s.phase.ExpectClientHello?
    ensures var o := AskRetry(cfg, s, h, suite, group);
            !Finishing(o.events) && (o.Next? ==> o.server.phase.ExpectClientHello? && o.server.early == s.early)
  {
  }

  predicate Verified(s: Server, m: Message)
  {
    s.phase.ExpectClientFinished? && m.Finished? && m.mac == s.phase.verifyData
  }

  lemma DispatchFinishes(cfg: Config, s: Server, epoch: Epoch, m: Message, d: Draw)
    ensures var o := Dispatch(cfg, s, epoch, m, d);
            Finishing(o.events) || (o.Next? && o.server.phase.Done? && !s.phase.Done?) ==>
            Verified(s, m) && epoch.Handshake?
  {
    hide Finishing, OnClientHello;
    NotFinishing([]);
    if s.phase.ExpectClientHello? && m.ClientHello? {
      HelloQuiet(cfg, s, m.hello, d);
    }
    if s.phase.Done? {
      NotFinishing(Dispatch(cfg, s, epoch, m, d).events);
    }
  }

  /** The server is done, and says so, only through a call that read in the handshake epoch the
      client Finished it computed for itself; and then the client is known if it had to be. */
  lemma DoneIsVerified(cfg: Config, calls: seq<Call>, next: Call)
    requires var s := Run(cfg, Fresh(), calls).0;
             var (after, events) := Step(cfg, s, next.input, next.room);
             Finishing(events) || (!s.phase.Done? && after.phase.Done?)
    ensures var s := Run(cfg, Fresh(), calls).0;
            && next.input.Read? && next.input.epoch.Handshake? && next.input.message.Some?
            && Verified(s, next.input.message.value) && Keyed(s) && ClientKnown(cfg, s)
  {
    hide Run, Dispatch, Finishing, Keyed, Inv, ClientKnown, Charge;
    FreshHolds(cfg);
    RunKeeps(cfg, Fresh(), calls);
    var s := Run(cfg, Fresh(), calls).0;
    NotFinishing([]);
    var o := Handle(cfg, s, next.input);
    if next.room < |o.events| && Finishing(o.events[..next.room]) {
      CutFinishing(o.events, next.room);
    }
    if next.input.Read? && next.input.message.Some? {
      DispatchFinishes(cfg, s, next.input.epoch, next.input.message.value, next.input.draw);
      KnownWhenFinished(cfg, s);
    }
  }

  lemma KnownWhenFinished(cfg: Config, s: Server)
    requires Inv(cfg, s)
    ensures s.phase.ExpectClientFinished? ==> Keyed(s) && ClientKnown(cfg, s)
  {
  }

  /** A run that says it is done did so in one of its calls. */
  lemma {:induction false} FinishedBySomeCall(cfg: Config, s: Server, calls: seq<Call>) returns (i: nat)
    requires Finishing(Run(cfg, s, calls).1)
    ensures i < |calls|
    ensures Finishing(Step(cfg, Run(cfg, s, calls[..i]).0, calls[i].input, calls[i].room).1)
    decreases |calls|
  {
    hide Run, Step, Finishing;
    if calls == [] {
      NoCalls(cfg, s);
      NotFinishing([]);
    } else {
      var (n, first) := (|calls| - 1, calls[..|calls| - 1]);
      assert calls == first + [calls[n]];
      RunSnoc(cfg, s, first, calls[n]);
      var more := Step(cfg, Run(cfg, s, first).0, calls[n].input, calls[n].room).1;
      FinishingAppend(Run(cfg, s, first).1, more);
      if Finishing(Run(cfg, s, first).1) {
        i := FinishedBySomeCall(cfg, s, first);
        assert first[..i] == calls[..i];
      } else {
        i := n;
      }
    }
  }

  /** The call at this place read the client Finished the server expected, from a known client. */
  ghost predicate VerifiedBy(cfg: Config, calls: seq<Call>, i: nat)
  {
    && i < |calls|
    && var (s, input) := (Run(cfg, Fresh(), calls[..i]).0, calls[i].input);
       && input.Read? && input.epoch.Handshake? && input.message.Some? && Verified(s, input.message.value)
       && Keyed(s) && ClientKnown(cfg, s)
  }

  /** A whole run that says it is done holds a call that verified the client. */
  lemma FinishedRunIsVerified(cfg: Config, calls: seq<Call>)
    requires Finishing(Run(cfg, Fresh(), calls).1)
    ensures exists i :: VerifiedBy(cfg, calls, i)
  {
    hide Run, Step, Finishing, Verified, Keyed, ClientKnown;
    var i := FinishedBySomeCall(cfg, Fresh(), calls);
    DoneIsVerified(cfg, calls[..i], calls[i]);
    assert VerifiedBy(cfg, calls, i);
  }

  // ------------------------------------------------------------------- silence

  lemma {:induction false} FailedIsSilent(cfg: Config, s: Server, calls: seq<Call>)
    requires s.phase.Failed?
    ensures Run(cfg, s, calls) == (s, [])
    decreases |calls|
  {
    hide Handle;
    if calls != [] {
      FailedIsSilent(cfg, s, calls[1..]);
      var none: seq<Event> := [];
      assert none + none == none;
    }
  }

  /** The call errs: its handler does, or the sink refuses one of its events. */
  predicate Errs(cfg: Config, s: Server, call: Call)
  {
    !s.phase.Failed? && var o := Handle(cfg, s, call.input); o.Fail? || |o.events| > call.room
  }

  predicate KeepsNothing(s: Server)
  {
    && s.phase.Failed? && s.traffic.NoSuite? && s.master.None? && s.exporter.None? && s.identity.None?
    && s.early.remaining.None? && s.early.maximum.None?
  }

  /** Whatever is called after a call that errs, the run emits what it had emitted and that
      call's events as far as the sink took them, and ends failed, without any secret and with
      the early-data window closed. */
  lemma ErrorEndsTheRun(cfg: Config, s: Server, calls: seq<Call>, bad: Call, later: seq<Call>)
    requires Errs(cfg, Run(cfg, s, calls).0, bad)
    ensures var (last, events) := Run(cfg, s, calls + [bad] + later);
            var emitted := Handle(cfg, Run(cfg, s, calls).0, bad.input).events;
            && KeepsNothing(last)
            && events == Run(cfg, s, calls).1 + (if |emitted| <= bad.room then emitted else emitted[..bad.room])
  {
    hide Run, Handle;
    RunAppend(cfg, s, calls + [bad], later);
    RunSnoc(cfg, s, calls, bad);
    var (failed, events) := Run(cfg, s, calls + [bad]);
    FailedIsSilent(cfg, failed, later);
    assert events + [] == events;
  }

  // ------------------------------------------------------------- installed keys

  /** The read and write secrets a server in this state has installed. */
  ghost function KeysOf(s: Server, epoch: Epoch): seq<(Secret, Secret)>
  {
    if s.phase.ExpectClientHello? || !Keyed(s) then []
    else
      match epoch
      case Handshake => [(Handshaken(s).client, Handshaken(s).server)]
      case Application => [(s.traffic.client, s.traffic.server)]
      case _ => []
  }

  lemma OneEvent(e: Event, epoch: Epoch)
    ensures KeysIn([e], epoch) == if e.KeysReady? && e.epoch == epoch then [(e.read, e.write)] else []
  {
    assert [e][1..] == [];
  }

  /** The events so far install the handshake secrets, and nothing else. */
  ghost predicate Installing(events: seq<Event>, secrets: HandshakeSecrets)
  {
    && KeysIn(events, Handshake) == [(secrets.client, secrets.server)] && KeysIn(events, Application) == []
    && KeysIn(events, Plaintext) == [] && KeysIn(events, EarlyData) == []
  }

  lemma InstallingMore(events: seq<Event>, e: Event, secrets: HandshakeSecrets)
    requires Installing(events, secrets) && e.Send?
    ensures Installing(events + [e], secrets)
  {
    hide KeysIn;
    KeysAppend(events, [e], Handshake);
    KeysAppend(events, [e], Application);
    KeysAppend(events, [e], Plaintext);
    KeysAppend(events, [e], EarlyData);
    OneEvent(e, Handshake);
    OneEvent(e, Application);
    OneEvent(e, Plaintext);
    OneEvent(e, EarlyData);
  }

  ghost predicate Installed(o: Outcome)
  {
    o.Next? ==> forall epoch :: KeysIn(o.events, epoch) == KeysOf(o.server, epoch)
  }

  lemma ReadyInstalls(cfg: Config, s: Server, suite: nat, resumed: bool, secrets: HandshakeSecrets, events: seq<Event>)
    requires Flying(s, suite, resumed, secrets) && C.Anchored(s.transcript.items, Base(s), suite, secrets.schedule)
    requires Installing(events, secrets)
    ensures Installed(Ready(cfg, s, suite, resumed, secrets, events))
  {
    hide KeysIn, C.Anchored, ClientMachine.FindPsk;
    var o := Ready(cfg, s, suite, resumed, secrets, events);
    if o.Next? {
      assert Keyed(o.server);
      var e := o.events[|events|];
      assert o.events == events + [e];
      assert Handshaken(o.server) == secrets;
      forall epoch ensures KeysIn(o.events, epoch) == KeysOf(o.server, epoch) {
        KeysAppend(events, [e], epoch);
        OneEvent(e, epoch);
      }
    }
  }

  lemma FlightInstalls(cfg: Config, s: Server, h: Hello, suite: nat, resumed: bool, secrets: HandshakeSecrets,
                       events: seq<Event>)
    requires Flying(s, suite, resumed, secrets) && Installing(events, secrets)
    ensures Installed(Flight(cfg, s, h, suite, resumed, secrets, events))
  {
    hide Credentials, Ready, Flying, C.Anchored, PushAll, Installing, Installed, KeysOf;
    FlyingFacts(s, suite, resumed, secrets);
    var o := Flight(cfg, s, h, suite, resumed, secrets, events);
    if o.Next? {
      var ee := EncryptedExtensions(cfg.extensions(h, s.alpn, s.early.remaining.Some?));
      var t := Push(s.transcript, ee);
      var messages := Credentials(cfg, t, AlgOf(suite), resumed).value;
      PushFlying(s, suite, resumed, secrets, ee);
      var p := s.(transcript := t);
      PushAllFlying(p, suite, resumed, secrets, messages);
      var u := PushAll(t, messages);
      var q := p.(transcript := u);
      FlyingFacts(q, suite, resumed, secrets);
      var finished := Finished(FinishedMac(secrets.server, Digest(AlgOf(suite), u.items)));
      PushFlying(q, suite, resumed, secrets, finished);
      FinishedAnchors(q, suite, resumed, secrets);
      var sent := Send(Handshake, [ee] + messages + [finished]);
      InstallingMore(events, sent, secrets);
      ReadyInstalls(cfg, q.(transcript := Push(u, finished)), suite, resumed, secrets, events + [sent]);
    } else {
      NotInstalled(o);
    }
  }

  lemma NotInstalled(o: Outcome)
    requires o.Fail?
    ensures Installed(o)
  {
  }

  lemma ReplyInstalls(cfg: Config, s: Server, h: Hello, suite: nat, theirs: Share, ours: Share, psk: Option<Accepted>,
                      d: Draw,
                      events: seq<Event>)
    requires s.traffic == Selected(suite) && s.transcript.selected == Some(AlgOf(suite))
    requires |s.transcript.items| == Base(s)
    requires s.early.remaining.Some? ==> psk.Some?
    requires forall epoch :: KeysIn(events, epoch) == []
    ensures Installed(Reply(cfg, s, h, suite, theirs, ours, psk, d, events))
  {
    hide Flight, HelloMessage, ClientMachine.FindPsk, KeysIn, Installed;
    var m := HelloMessage(h, suite, ours, d.random, psk.Some?);
    ReplyFlies(s, h, suite, theirs, ours, psk, d);
    var t := Push(s.transcript, m);
    var secrets := SecretsFor(Mixed(Early(AlgOf(suite), match psk case None => None case Some(a) => Some(a.data.psk)),
                                    Shared(ours.group, theirs.key, ours.key)), Digest(AlgOf(suite), t.items));
    var more := [Send(Plaintext, [m]), KeysReady(Handshake, secrets.client, secrets.server)];
    HelloInstalling(events, m, secrets);
    FlightInstalls(cfg, s.(transcript := t), h, suite, psk.Some?, secrets, events + more);
  }

  lemma HelloInstalling(events: seq<Event>, m: Message, secrets: HandshakeSecrets)
    requires forall epoch :: KeysIn(events, epoch) == []
    ensures Installing(events + [Send(Plaintext, [m]), KeysReady(Handshake, secrets.client, secrets.server)], secrets)
  {
    var (send, keys) := (Send(Plaintext, [m]), KeysReady(Handshake, secrets.client, secrets.server));
    forall epoch ensures KeysIn(events + [send, keys], epoch) == KeysIn([keys], epoch) {
      KeysAppend(events, [send, keys], epoch);
      assert [send, keys] == [send] + [keys];
      KeysAppend([send], [keys], epoch);
      OneEvent(send, epoch);
    }
    OneEvent(keys, Handshake);
    OneEvent(keys, Application);
    OneEvent(keys, Plaintext);
    OneEvent(keys, EarlyData);
  }

  lemma AcceptInstalls(cfg: Config, s: Server, h: Hello, suite: nat, share: Share, d: Draw)
    requires s.traffic == Selected(suite) && s.transcript.selected == Some(AlgOf(suite))
    requires |s.transcript.items| == Base(s) - 1
    ensures Installed(Accept(cfg, s, h, suite, share, d))
  {
    hide Reply, TryPsk, Grant, Installed, KeysIn;
    var o := Accept(cfg, s, h, suite, share, d);
    if o.Next? {
      var alpn := cfg.alpn(h).value;
      var psk := AcceptedOf(TryPsk(cfg, s, h, AlgOf(suite), alpn, d.now));
      var window := Admit(cfg, h.early, psk, suite, d);
      var t := Push(s.transcript, ClientHello(h));
      GrantNeedsPsk(cfg, h.early, psk, suite, d);
      var events := QuicEvents(cfg.quic(h)) + EarlyEvents(psk, window.remaining.Some?, t);
      forall epoch ensures KeysIn(events, epoch) == [] {
        NoKeys(events, epoch);
      }
      ReplyInstalls(cfg, s.(transcript := t, alpn := alpn, early := window), h, suite, share,
                    Share(share.group, d.key.value),
                    psk, d, events);
    } else {
      NotInstalled(o);
    }
  }

  lemma RetryInstalls(cfg: Config, s: Server, h: Hello, suite: nat, group: Group)
    requires s.phase.ExpectClientHello?
    ensures Installed(AskRetry(cfg, s, h, suite, group))
  {
    hide KeysIn;
    var o := AskRetry(cfg, s, h, suite, group);
    if o.Next? {
      forall epoch ensures KeysIn(o.events, epoch) == [] {
        NoKeys(o.events, epoch);
      }
    }
  }

  lemma HelloInstalls(cfg: Config, s: Server, h: Hello, d: Draw)
    requires s.phase.ExpectClientHello? && AwaitingHello(s)
    ensures Installed(OnClientHello(cfg, s, h, d))
  {
    hide AskRetry, Accept, KeepsPin, Installed;
    var o := OnClientHello(cfg, s, h, d);
    if o.Next? {
      var (kx, suite) := (cfg.parse(h).value, PickSuite(h.suites).value);
      var r := s.(transcript := Select(s.transcript, AlgOf(suite)).value,
                  traffic := SelectSuite(s.traffic, suite).value);
      assert r.traffic == Selected(suite);
      match kx.selected
      case None => RetryInstalls(cfg, r, h, suite, kx.retryGroup);
      case Some(share) => AcceptInstalls(cfg, r, h, suite, share, d);
    } else {
      NotInstalled(o);
    }
  }

  /** After the flight nothing more is installed. */
  lemma LaterInstalls(cfg: Config, s: Server, input: Input, epoch: Epoch)
    requires Inv(cfg, s) && !s.phase.ExpectClientHello? && !s.phase.Failed?
    ensures var o := Handle(cfg, s, input);
            o.Next? ==> KeysIn(o.events, epoch) == []
                        && o.server.traffic == s.traffic && o.server.master == s.master && o.server.hrrDone == s.hrrDone
                        && !o.server.phase.ExpectClientHello?
  {
    hide KeysIn, Inv;
    var o := Handle(cfg, s, input);
    if o.Next? {
      NoKeys(o.events, epoch);
    }
  }

  lemma SameKeys(s: Server, r: Server, epoch: Epoch)
    requires Keyed(s) && Keyed(r) && r.traffic == s.traffic && r.master == s.master && r.hrrDone == s.hrrDone
    requires !s.phase.ExpectClientHello? && !r.phase.ExpectClientHello?
    ensures KeysOf(s, epoch) == KeysOf(r, epoch)
  {
  }

  lemma PhaseKeyed(cfg: Config, s: Server)
    requires Inv(cfg, s)
    ensures !s.phase.Failed? && !s.phase.ExpectClientHello? ==> Keyed(s)
    ensures s.phase.ExpectClientHello? ==> AwaitingHello(s)
  {
  }

  lemma StepInstalls(cfg: Config, s: Server, call: Call, epoch: Epoch)
    requires Inv(cfg, s)
    ensures var (next, events) := Step(cfg, s, call.input, call.room);
            !next.phase.Failed? ==> KeysOf(next, epoch) == KeysOf(s, epoch) + KeysIn(events, epoch)
  {
    hide Handle, KeysOf, KeysIn, Keyed, Inv, AwaitingHello;
    NoKeys([], epoch);
    PhaseKeyed(cfg, s);
    StepKeeps(cfg, s, call.input, call.room);
    PhaseKeyed(cfg, Step(cfg, s, call.input, call.room).0);
    if s.phase.ExpectClientHello? {
      FirstInstalls(cfg, s, call.input, epoch);
    } else if !s.phase.Failed? {
      LaterInstalls(cfg, s, call.input, epoch);
      var o := Handle(cfg, s, call.input);
      if o.Next? && |o.events| <= call.room && !o.server.phase.Failed? {
        SameKeys(s, o.server, epoch);
      }
    }
  }

  lemma FirstInstalls(cfg: Config, s: Server, input: Input, epoch: Epoch)
    requires s.phase.ExpectClientHello? && AwaitingHello(s)
    ensures KeysOf(s, epoch) == []
    ensures var o := Handle(cfg, s, input); o.Next? ==> KeysOf(o.server, epoch) == KeysIn(o.events, epoch)
  {
    hide OnClientHello, KeysIn;
    NoKeys([], epoch);
    if input.Read? && input.message.Some? && input.message.value.ClientHello? {
      HelloInstalls(cfg, s, input.message.value.hello, input.draw);
    }
  }

  /** In every run that has not failed, the keys installed are exactly those of the state: the
      handshake secrets at the ServerHello once, then the application secrets once. */
  lemma {:induction false} RunInstalls(cfg: Config, s: Server, calls: seq<Call>, epoch: Epoch)
    requires Inv(cfg, s)
    ensures var (last, events) := Run(cfg, s, calls);
            !last.phase.Failed? ==> KeysOf(last, epoch) == KeysOf(s, epoch) + KeysIn(events, epoch)
    decreases |calls|
  {
    hide Inv, Step, KeysOf, KeysIn;
    if calls == [] {
      NoKeys([], epoch);
    } else {
      var (next, events) := Step(cfg, s, calls[0].input, calls[0].room);
      StepKeeps(cfg, s, calls[0].input, calls[0].room);
      StepInstalls(cfg, s, calls[0], epoch);
      RunInstalls(cfg, next, calls[1..], epoch);
      KeysAppend(events, Run(cfg, next, calls[1..]).1, epoch);
      if next.phase.Failed? {
        FailedIsSilent(cfg, next, calls[1..]);
      }
    }
  }

  // ---------------------------------------------------------------- early data

  /** The early data this call is charged for. */
  function ChargedBy(cfg: Config, s: Server, call: Call): nat
  {
    if call.input.NoteEarlyData? && !s.phase.Failed? && Charge(s.early, cfg.mode, call.input.len).Some?
    then call.input.len else 0
  }

  /** All the early data a run is charged for. */
  function Charged(cfg: Config, calls: seq<Call>): nat
    decreases |calls|
  {
    if calls == [] then 0
    else
      var first := calls[..|calls| - 1];
      Charged(cfg, first) + ChargedBy(cfg, Run(cfg, Fresh(), first).0, calls[|calls| - 1])
  }

  /** A server in this state that accepts this hello opens its ticket, verifies the binder over
      its own transcript, and finds this early-data limit sealed inside. */
  ghost predicate Sealed(cfg: Config, s: Server, h: Hello, limit: nat)
  {
    && s.phase.ExpectClientHello? && cfg.hasKeys && cfg.alpn(h).Some? && h.psk.Some? && h.early
    && var data := cfg.open(h.psk.value.identity, cfg.alpn(h).value);
       && data.Some? && data.value.maxEarly == Some(limit) && Some(data.value.suite) == PickSuite(h.suites)
       && h.psk.value.binder == Binder(data.value.psk, Digest(Sha256, s.transcript.items + [Cut(CutHello(h))]))
  }

  /** The call at this place read such a hello, and opened the window to that limit. */
  ghost predicate OpenedBy(cfg: Config, calls: seq<Call>, i: nat, limit: nat)
  {
    && i < |calls| && calls[i].input.Read? && calls[i].input.message.Some? && calls[i].input.message.value.ClientHello?
    && var s := Run(cfg, Fresh(), calls[..i]).0;
       && Sealed(cfg, s, calls[i].input.message.value.hello, limit)
       && Step(cfg, s, calls[i].input, calls[i].room).0.early.remaining == Some(limit)
  }

  lemma OpenedStays(cfg: Config, calls: seq<Call>, call: Call, i: nat, limit: nat)
    requires OpenedBy(cfg, calls, i, limit)
    ensures OpenedBy(cfg, calls + [call], i, limit)
  {
    assert (calls + [call])[..i] == calls[..i];
  }

  /** What was charged and what is left make up the limit of the ticket that was opened. */
  ghost predicate Balanced(cfg: Config, s: Server, calls: seq<Call>, charged: nat)
  {
    && (s.phase.ExpectClientHello? ==> charged == 0 && s.early.remaining.None?)
    && (charged > 0 || s.early.remaining.Some? ==>
          exists i, limit :: OpenedBy(cfg, calls, i, limit) && Within(cfg, s, charged, limit))
  }

  predicate Within(cfg: Config, s: Server, charged: nat, limit: nat)
  {
    cfg.mode.Tls? ==> charged <= limit && (s.early.remaining.Some? ==> charged + s.early.remaining.value == limit)
  }

  lemma AcceptSeals(cfg: Config, s: Server, h: Hello, suite: nat, share: Share, d: Draw)
    requires s.phase.ExpectClientHello? && PickSuite(h.suites) == Some(suite)
    ensures var o := Accept(cfg, s, h, suite, share, d);
            o.Next? && o.server.early.remaining.Some? ==> Sealed(cfg, s, h, o.server.early.remaining.value)
  {
    hide Reply, Finishing;
    AcceptQuiet(cfg, s, h, suite, share, d);
  }

  /** A hello that opens the window opens it to exactly what its ticket seals. */
  lemma HelloSeals(cfg: Config, s: Server, h: Hello, d: Draw)
    requires s.phase.ExpectClientHello? && s.early.remaining.None?
    ensures var o := OnClientHello(cfg, s, h, d);
            o.Next? && o.server.early.remaining.Some? ==> Sealed(cfg, s, h, o.server.early.remaining.value)
  {
    hide AskRetry, Accept, KeepsPin, Finishing, Sealed;
    var o := OnClientHello(cfg, s, h, d);
    if o.Next? {
      var (kx, suite) := (cfg.parse(h).value, PickSuite(h.suites).value);
      var r := s.(transcript := Select(s.transcript, AlgOf(suite)).value,
                  traffic := SelectSuite(s.traffic, suite).value);
      match kx.selected
      case None => RetryQuiet(cfg, r, h, suite, kx.retryGroup);
      case Some(share) =>
        AcceptSeals(cfg, r, h, suite, share, d);
        SealedReadsItems(cfg, r, s, h, o.server.early.remaining);
    }
  }

  lemma SealedReadsItems(cfg: Config, r: Server, s: Server, h: Hello, limit: Option<nat>)
    requires r.transcript.items == s.transcript.items && r.phase == s.phase
    ensures limit.Some? && Sealed(cfg, r, h, limit.value) ==> Sealed(cfg, s, h, limit.value)
  {
  }

  lemma LaterWindow(cfg: Config, s: Server, epoch: Epoch, m: Message, d: Draw)
    requires !s.phase.ExpectClientHello?
    ensures var o := Dispatch(cfg, s, epoch, m, d);
            o.Next? ==> && !o.server.phase.ExpectClientHello?
                        && (o.server.early == s.early || o.server.early == Close(s.early))
  {
  }

  /** The window after a hello is open only to what the hello's ticket seals. */
  lemma FirstBalances(cfg: Config, s: Server, calls: seq<Call>, call: Call)
    requires s == Run(cfg, Fresh(), calls).0 && s.phase.ExpectClientHello? && s.early.remaining.None?
    requires call.input.Read?
    ensures Balanced(cfg, Step(cfg, s, call.input, call.room).0, calls + [call], 0)
  {
    hide OnClientHello, Run, Sealed, Finishing;
    if call.input.message.Some? && call.input.message.value.ClientHello? {
      var (h, d) := (call.input.message.value.hello, call.input.draw);
      HelloSeals(cfg, s, h, d);
      HelloQuiet(cfg, s, h, d);
      var next := Step(cfg, s, call.input, call.room).0;
      if next.early.remaining.Some? {
        assert (calls + [call])[..|calls|] == calls;
        assert OpenedBy(cfg, calls + [call], |calls|, next.early.remaining.value);
        assert Within(cfg, next, 0, next.early.remaining.value);
      }
    }
  }

  lemma LaterBalances(cfg: Config, s: Server, calls: seq<Call>, call: Call, charged: nat)
    requires !s.phase.ExpectClientHello? && Balanced(cfg, s, calls, charged)
    ensures Balanced(cfg, Step(cfg, s, call.input, call.room).0, calls + [call], charged + ChargedBy(cfg, s, call))
  {
    hide Dispatch, OpenedBy;
    var (next, more) := (Step(cfg, s, call.input, call.room).0, charged + ChargedBy(cfg, s, call));
    if call.input.Read? && call.input.message.Some? {
      LaterWindow(cfg, s, call.input.epoch, call.input.message.value, call.input.draw);
    }
    if more > 0 || next.early.remaining.Some? {
      var i, limit :| OpenedBy(cfg, calls, i, limit) && Within(cfg, s, charged, limit);
      OpenedStays(cfg, calls, call, i, limit);
      assert Within(cfg, next, more, limit);
    }
  }

  lemma {:induction false} RunBalances(cfg: Config, calls: seq<Call>)
    ensures Balanced(cfg, Run(cfg, Fresh(), calls).0, calls, Charged(cfg, calls))
    decreases |calls|
  {
    hide Run, Step, Balanced;
    if calls == [] {
      NoCalls(cfg, Fresh());
      assert Balanced(cfg, Fresh(), [], 0) by { NothingCharged(cfg); }
    } else {
      var (n, first) := (|calls| - 1, calls[..|calls| - 1]);
      assert calls == first + [calls[n]];
      RunBalances(cfg, first);
      RunSnoc(cfg, Fresh(), first, calls[n]);
      var s := Run(cfg, Fresh(), first).0;
      StepBalances(cfg, s, first, calls[n], Charged(cfg, first));
    }
  }

  lemma NothingCharged(cfg: Config)
    ensures Balanced(cfg, Fresh(), [], 0)
  {
  }

  lemma StepBalances(cfg: Config, s: Server, calls: seq<Call>, call: Call, charged: nat)
    requires s == Run(cfg, Fresh(), calls).0 && Balanced(cfg, s, calls, charged)
    ensures Balanced(cfg, Step(cfg, s, call.input, call.room).0, calls + [call], charged + ChargedBy(cfg, s, call))
  {
    hide Run, OpenedBy, Dispatch;
    if !s.phase.ExpectClientHello? {
      LaterBalances(cfg, s, calls, call, charged);
    } else if call.input.Read? {
      FirstBalances(cfg, s, calls, call);
    }
  }

  /** In every run, early data is charged only after a call that accepted a hello with an
      early-data offer, opened its ticket and verified its binder; over TLS all of it together
      stays within the limit sealed in that ticket; and the window is closed once the server
      is done or has failed. */
  lemma EarlyDataWithinLimit(cfg: Config, calls: seq<Call>)
    ensures Charged(cfg, calls) > 0 ==>
              exists i, limit :: OpenedBy(cfg, calls, i, limit) && (cfg.mode.Tls? ==> Charged(cfg, calls) <= limit)
    ensures var s := Run(cfg, Fresh(), calls).0;
            s.phase.Done? || s.phase.Failed? ==> s.early.remaining.None? && s.early.maximum.None?
  {
    hide Run, Charged, OpenedBy;
    FreshHolds(cfg);
    RunKeeps(cfg, Fresh(), calls);
    RunBalances(cfg, calls);
  }

  /** A charge that exceeds what is left closes the window and fails the server. */
  lemma OverchargeFails(cfg: Config, s: Server, len: nat, room: nat)
    requires Inv(cfg, s) && !s.phase.Failed? && cfg.mode.Tls?
    requires s.early.remaining.None? || len > s.early.remaining.value
    ensures var next := Step(cfg, s, NoteEarlyData(len), room).0;
            next.phase.Failed? && next.early.remaining.None? && next.early.maximum.None?
  {
  }
}
