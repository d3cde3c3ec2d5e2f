/** Whole runs of the client: arbitrary messages, epochs, clocks and sink failures. */
module ClientRuns {
  import opened Bytes
  import opened Symbols
  import opened ClientMachine
  import opened ClientProofs

  datatype Call = Call(input: Input, room: nat)

  function Run(cfg: Config, c: Client, calls: seq<Call>): (Client, seq<Event>)
    decreases |calls|
  {
    if calls == [] then (c, [])
    else
      var (next, events) := Step(cfg, c, calls[0].input, calls[0].room);
      var (last, later) := Run(cfg, next, calls[1..]);
      (last, events + later)
  }

  lemma {:induction false} RunKeeps(cfg: Config, c: Client, calls: seq<Call>)
    requires Inv(cfg, c)
    ensures Inv(cfg, Run(cfg, c, calls).0)
    decreases |calls|
  {
    hide Inv, Step;
    if calls != [] {
      StepKeeps(cfg, c, calls[0].input, calls[0].room);
      RunKeeps(cfg, Step(cfg, c, calls[0].input, calls[0].room).0, calls[1..]);
    }
  }

  lemma {:induction false} RunAppend(cfg: Config, c: Client, first: seq<Call>, second: seq<Call>)
    ensures var (middle, events) := Run(cfg, c, first);
            var (last, later) := Run(cfg, middle, second);
            Run(cfg, c, first + second) == (last, events + later)
    decreases |first|
  {
    hide Step;
    if first == [] {
      assert first + second == second;
      assert [] + Run(cfg, c, second).1 == Run(cfg, c, second).1;
    } else {
      var (next, events) := Step(cfg, c, first[0].input, first[0].room);
      assert (first + second)[1..] == first[1..] + second;
      RunAppend(cfg, next, first[1..], second);
      var (middle, more) := Run(cfg, next, first[1..]);
      assert events + (more + Run(cfg, middle, second).1) == (events + more) + Run(cfg, middle, second).1;
    }
  }

  lemma RunOne(cfg: Config, c: Client, call: Call)
    ensures Run(cfg, c, [call]) == Step(cfg, c, call.input, call.room)
  {
    hide Step;
    var (next, events) := Step(cfg, c, call.input, call.room);
    assert [call][1..] == [] && Run(cfg, next, []) == (next, []);
    assert events + [] == events;
  }

  lemma RunSnoc(cfg: Config, c: Client, calls: seq<Call>, call: Call)
    ensures var (last, events) := Run(cfg, c, calls);
            var (next, more) := Step(cfg, last, call.input, call.room);
            Run(cfg, c, calls + [call]) == (next, events + more)
  {
    hide Step, Run;
    RunAppend(cfg, c, calls, [call]);
    RunOne(cfg, Run(cfg, c, calls).0, call);
  }

  // ------------------------------------------------------------ authentication

  predicate Completing(e: Event)
  {
    e.HandshakeDone? || (e.KeysReady? && e.epoch.Application?)
  }

  predicate Completes(events: seq<Event>)
  {
    exists i :: 0 <= i < |events| && Completing(events[i])
  }

  lemma CutCompletes(events: seq<Event>, room: nat)
    requires room <= |events| && Completes(events[..room])
    ensures Completes(events)
  {
  }

  lemma StartEvents(cfg: Config, c: Client, d: Draw)
    ensures !Completes(Start(cfg, c, d).events)
  {
  }

  /** The server Finished this client accepts. */
  predicate Verified(c: Client, m: Message)
  {
    && c.phase.ExpectServerFinished? && m.Finished? && HasSuite(c.traffic)
    && m.mac == FinishedMac(c.phase.secrets.server, Digest(AlgOf(c.traffic.suite), c.transcript.items))
  }

  lemma DispatchCompletes(cfg: Config, c: Client, epoch: Epoch, m: Message, d: Draw)
    requires Completes(Dispatch(cfg, c, epoch, m, d).events)
    ensures Verified(c, m) && epoch.Handshake?
  {
  }

  /** Application keys and the end of the handshake come only from a call that read, in the
      handshake epoch, a Finished with the right MAC, when the server was already
      authenticated: by a PSK the client offered and the server selected, or by exactly one
      Certificate and then one CertificateVerify checked with the key of the leaf its chain
      was validated to, at the clock of the call that read it. */
  lemma CompletionIsAuthenticated(cfg: Config, ticket: Option<Ticket>, calls: seq<Call>, next: Call)
    requires var c := Run(cfg, Fresh(ticket), calls).0; Completes(Step(cfg, c, next.input, next.room).1)
    ensures var c := Run(cfg, Fresh(ticket), calls).0;
            && c.phase.ExpectServerFinished? && Keyed(c, c.phase.secrets) && Authenticated(cfg, c)
            && next.input.Read? && next.input.epoch.Handshake? && next.input.message.Some?
            && Verified(c, next.input.message.value)
            && Clocked(cfg, c, calls)
  {
    hide Run, Handle, Verified, Authenticated, Keyed, Inv, Completes, Clocked;
    RunClocked(cfg, ticket, calls);
    FreshHolds(cfg, ticket);
    RunKeeps(cfg, Fresh(ticket), calls);
    var c := Run(cfg, Fresh(ticket), calls).0;
    SilentIsNotCompleting();
    var o := Handle(cfg, c, next.input);
    if next.room < |o.events| {
      CutCompletes(o.events, next.room);
    }
    CallCompletes(cfg, c, next.input);
    ReadyForFinished(cfg, c, next.input.message.value);
  }

  lemma FreshHolds(cfg: Config, ticket: Option<Ticket>)
    ensures Inv(cfg, Fresh(ticket))
  {
  }

  lemma SilentIsNotCompleting()
    ensures !Completes([])
  {
  }

  lemma CallCompletes(cfg: Config, c: Client, input: Input)
    requires Completes(Handle(cfg, c, input).events)
    ensures input.Read? && input.epoch.Handshake? && input.message.Some? && Verified(c, input.message.value)
  {
    hide Start, Dispatch, Verified, Completes;
    SilentIsNotCompleting();
    match input
    case StartNow(d) => StartEvents(cfg, c, d);
    case Read(epoch, None, _) =>
    case Read(epoch, Some(m), d) => DispatchCompletes(cfg, c, epoch, m, d);
  }

  lemma ReadyForFinished(cfg: Config, c: Client, m: Message)
    requires Inv(cfg, c) && Verified(c, m)
    ensures c.phase.ExpectServerFinished? && Keyed(c, c.phase.secrets) && Authenticated(cfg, c)
  {
  }

  /** A run that completes did so in one of its calls. */
  lemma {:induction false} CompletedBySomeCall(cfg: Config, c: Client, calls: seq<Call>) returns (i: nat)
    requires Completes(Run(cfg, c, calls).1)
    ensures i < |calls|
    ensures Completes(Step(cfg, Run(cfg, c, calls[..i]).0, calls[i].input, calls[i].room).1)
    decreases |calls|
  {
    hide Run, Step;
    if calls == [] {
      NoCalls(cfg, c);
    } else {
      var (n, first) := (|calls| - 1, calls[..|calls| - 1]);
      assert calls == first + [calls[n]];
      RunSnoc(cfg, c, first, calls[n]);
      if Completes(Run(cfg, c, first).1) {
        i := CompletedBySomeCall(cfg, c, first);
        assert first[..i] == calls[..i];
      } else {
        i := n;
        var more := Step(cfg, Run(cfg, c, first).0, calls[n].input, calls[n].room).1;
        var k :| 0 <= k < |Run(cfg, c, calls).1| && Completing(Run(cfg, c, calls).1[k]);
        assert k >= |Run(cfg, c, first).1| && Completing(more[k - |Run(cfg, c, first).1|]);
      }
    }
  }

  /** The call at this place read the right Finished from an authenticated server. */
  ghost predicate AuthenticatedBy(cfg: Config, ticket: Option<Ticket>, calls: seq<Call>, i: nat)
  {
    && i < |calls|
    && var (c, input) := (Run(cfg, Fresh(ticket), calls[..i]).0, calls[i].input);
       && c.phase.ExpectServerFinished? && Keyed(c, c.phase.secrets) && Authenticated(cfg, c)
       && Clocked(cfg, c, calls[..i])
       && input.Read? && input.epoch.Handshake? && input.message.Some? && Verified(c, input.message.value)
  }

  /** A whole run that completes holds a call that completed it, from an authenticated server. */
  lemma CompletedRunIsAuthenticated(cfg: Config, ticket: Option<Ticket>, calls: seq<Call>)
    requires Completes(Run(cfg, Fresh(ticket), calls).1)
    ensures exists i :: AuthenticatedBy(cfg, ticket, calls, i)
  {
    hide Run, Step, Completes, Verified, Keyed, Authenticated, Clocked;
    var i := CompletedBySomeCall(cfg, Fresh(ticket), calls);
    CompletionIsAuthenticated(cfg, ticket, calls[..i], calls[i]);
    assert AuthenticatedBy(cfg, ticket, calls, i);
  }

  // ------------------------------------------------- the clock of the Certificate

  /** This call read the Certificate and validated its chain, at its own clock, to this leaf. */
  ghost predicate ValidatedBy(cfg: Config, calls: seq<Call>, i: nat, m: Message, leaf: Leaf)
  {
    && i < |calls| && calls[i].input.Read? && calls[i].input.message == Some(m) && m.Certificate?
    && Proves(cfg, m.chain, calls[i].input.draw.now, leaf)
  }

  /** The signature over everything up to the Certificate was checked with this leaf's key. */
  ghost predicate SignedBy(cfg: Config, items: seq<Item>, at: nat, alg: Alg, leaf: Leaf)
  {
    && |items| == at + 2 && IsVerify(items[at + 1])
    && cfg.verify(leaf, items[at + 1].m.scheme, Digest(alg, items[..at + 1]), items[at + 1].m.signature)
  }

  /** The leaf kept, and then the leaf that signed, is the one a call validated when it read
      the Certificate. */
  ghost predicate Clocked(cfg: Config, c: Client, calls: seq<Call>)
  {
    var (items, at) := (c.transcript.items, CertificateAt(c));
    match c.phase
    case ExpectCertificateVerify(_, place) =>
      && at < |items| && IsCertificate(items[at]) && KeptLeaf(cfg, c, place).Some?
      && exists i :: ValidatedBy(cfg, calls, i, items[at].m, KeptLeaf(cfg, c, place).value)
    case ExpectServerFinished(_) =>
      !c.pskUsed ==>
        && c.traffic.Selected? && at < |items| && IsCertificate(items[at])
        && exists i, leaf :: ValidatedBy(cfg, calls, i, items[at].m, leaf) && SignedBy(cfg, items, at,
                                                                                       AlgOf(c.traffic.suite), leaf)
    case _ => true
  }

  lemma ValidatedStays(cfg: Config, calls: seq<Call>, call: Call, i: nat, m: Message, leaf: Leaf)
    requires ValidatedBy(cfg, calls, i, m, leaf)
    ensures ValidatedBy(cfg, calls + [call], i, m, leaf)
  {
  }

  lemma LeafIsProved(cfg: Config, chain: nat, now: nat)
    requires ServerLeaf(cfg, chain, now).Some?
    ensures Proves(cfg, chain, now, ServerLeaf(cfg, chain, now).value)
  {
  }

  lemma CertificateClocked(cfg: Config, c: Client, calls: seq<Call>, call: Call)
    requires Inv(cfg, c) && c.phase.ExpectCertificate? && call.input.Read?
    requires call.input.message.Some? && call.input.message.value.Certificate?
    ensures var o := OnCertificate(cfg, c, call.input.message.value, c.phase.secrets, call.input.draw);
            o.Next? ==> Clocked(cfg, o.client, calls + [call])
  {
    hide Keyed, ServerLeaf;
    var (m, d) := (call.input.message.value, call.input.draw);
    var o := OnCertificate(cfg, c, m, c.phase.secrets, d);
    if o.Next? {
      var leaf := ServerLeaf(cfg, m.chain, d.now).value;
      LeafIsProved(cfg, m.chain, d.now);
      assert ValidatedBy(cfg, calls + [call], |calls|, m, leaf);
      LeafIsKept(cfg, c, m, d);
    }
  }

  lemma LeafIsKept(cfg: Config, c: Client, m: Message, d: Draw)
    requires m.Certificate? && c.phase.ExpectCertificate? && OnCertificate(cfg, c, m, c.phase.secrets, d).Next?
    ensures var next := OnCertificate(cfg, c, m, c.phase.secrets, d).client;
            next.phase.ExpectCertificateVerify? && KeptLeaf(cfg, next, next.phase.place) == ServerLeaf(cfg, m.chain,
                                                                                                       d.now)
  {
  }

  lemma VerifyClocked(cfg: Config, c: Client, m: Message, calls: seq<Call>, call: Call)
    requires Inv(cfg, c) && c.phase.ExpectCertificateVerify? && m.CertificateVerify? && Clocked(cfg, c, calls)
    ensures var o := OnCertificateVerify(cfg, c, m, c.phase.secrets, c.phase.place);
            o.Next? ==> Clocked(cfg, o.client, calls + [call])
  {
    hide Keyed, Validated, KeptLeaf, ValidatedBy;
    HasTraffic(c, c.phase.secrets);
    var o := OnCertificateVerify(cfg, c, m, c.phase.secrets, c.phase.place);
    if o.Next? {
      var (items, at, leaf) := (c.transcript.items, CertificateAt(c), KeptLeaf(cfg, c, c.phase.place).value);
      var i :| ValidatedBy(cfg, calls, i, items[at].m, leaf);
      ValidatedStays(cfg, calls, call, i, items[at].m, leaf);
      assert o.client.transcript.items[..at + 1] == items;
      assert SignedBy(cfg, o.client.transcript.items, at, AlgOf(c.traffic.suite), leaf);
    }
  }

  /** No other message leads to a phase where a leaf is kept or has signed. */
  lemma OthersUnclocked(cfg: Config, c: Client, epoch: Epoch, m: Message, d: Draw)
    requires !(c.phase.ExpectCertificate? && m.Certificate?)
    requires !(c.phase.ExpectCertificateVerify? && m.CertificateVerify?)
    ensures var o := Dispatch(cfg, c, epoch, m, d);
            o.Next? ==> && !o.client.phase.ExpectCertificateVerify?
                        && (o.client.phase.ExpectServerFinished? ==> o.client.pskUsed)
  {
  }

  lemma StartUnclocked(cfg: Config, c: Client, d: Draw)
    ensures var o := Start(cfg, c, d); o.Next? ==> o.client.phase.ExpectServerHello?
  {
  }

  lemma StepClocked(cfg: Config, c: Client, calls: seq<Call>, call: Call)
    requires Inv(cfg, c) && Clocked(cfg, c, calls)
    ensures Clocked(cfg, Step(cfg, c, call.input, call.room).0, calls + [call])
  {
    hide Start, OnCertificate, OnCertificateVerify, Inv, ValidatedBy, SignedBy, OnServerHello, OnEncryptedExtensions,
         OnCertificateRequest, OnServerFinished, AfterDone;
    if c.phase.Failed? {
    } else if call.input.StartNow? {
      if c.phase.Initial? {
        StartUnclocked(cfg, c, call.input.draw);
      } else {
        ClockedStays(cfg, c, calls, call);
      }
    } else if call.input.message.Some? {
      var (m, d) := (call.input.message.value, call.input.draw);
      if c.phase.ExpectCertificate? && m.Certificate? {
        CertificateClocked(cfg, c, calls, call);
      } else if c.phase.ExpectCertificateVerify? && m.CertificateVerify? {
        VerifyClocked(cfg, c, m, calls, call);
      } else {
        OthersUnclocked(cfg, c, call.input.epoch, m, d);
      }
    }
  }

  lemma ClockedStays(cfg: Config, c: Client, calls: seq<Call>, call: Call)
    requires Clocked(cfg, c, calls)
    ensures Clocked(cfg, c, calls + [call])
  {
    hide ValidatedBy, SignedBy;
    var (items, at) := (c.transcript.items, CertificateAt(c));
    if c.phase.ExpectCertificateVerify? {
      var leaf := KeptLeaf(cfg, c, c.phase.place).value;
      var i :| ValidatedBy(cfg, calls, i, items[at].m, leaf);
      ValidatedStays(cfg, calls, call, i, items[at].m, leaf);
    } else if c.phase.ExpectServerFinished? && !c.pskUsed {
      var i, leaf :| ValidatedBy(cfg, calls, i, items[at].m, leaf) && SignedBy(cfg, items, at, AlgOf(c.traffic.suite),
                                                                               leaf);
      ValidatedStays(cfg, calls, call, i, items[at].m, leaf);
    }
  }

  lemma {:induction false} RunClocked(cfg: Config, ticket: Option<Ticket>, calls: seq<Call>)
    ensures Clocked(cfg, Run(cfg, Fresh(ticket), calls).0, calls)
    decreases |calls|
  {
    hide Run, Step, Clocked, Inv;
    if calls == [] {
      NoCalls(cfg, Fresh(ticket));
      FreshUnclocked(cfg, ticket);
    } else {
      var (n, first) := (|calls| - 1, calls[..|calls| - 1]);
      assert calls == first + [calls[n]];
      RunClocked(cfg, ticket, first);
      FreshHolds(cfg, ticket);
      RunKeeps(cfg, Fresh(ticket), first);
      StepClocked(cfg, Run(cfg, Fresh(ticket), first).0, first, calls[n]);
      RunSnoc(cfg, Fresh(ticket), first, calls[n]);
    }
  }

  lemma FreshUnclocked(cfg: Config, ticket: Option<Ticket>)
    ensures Clocked(cfg, Fresh(ticket), [])
  {
  }

  // ------------------------------------------------------------- installed keys

  /** The read and write secrets a client in this state has installed. */
  ghost function KeysOf(c: Client, epoch: Epoch): seq<(Secret, Secret)>
  {
    match epoch
    case Handshake => (match Handshaken(c) case None => [] case Some(secrets) => [(secrets.server, secrets.client)])
    case Application => if c.phase.Done? && c.traffic.Active? then [(c.traffic.server, c.traffic.client)] else []
    case _ => []
  }

  lemma StartInstalls(cfg: Config, c: Client, d: Draw, epoch: Epoch)
    requires c.phase.Initial?
    ensures var o := Start(cfg, c, d); o.Next? ==> KeysIn(o.events, epoch) == KeysOf(o.client, epoch) == KeysOf(c,
                                                                                                                epoch)
  {
    hide BoundHello, Aged, SomeSha256, EarlyFor, KeysIn;
    var o := Start(cfg, c, d);
    if o.Next? {
      NoKeys(o.events, epoch);
    }
  }

  lemma OneEvent(e: Event, epoch: Epoch)
    ensures KeysIn([e], epoch) == if e.KeysReady? && e.epoch == epoch then [(e.read, e.write)] else []
  {
    assert [e][1..] == [];
  }

  lemma HelloInstalls(cfg: Config, c: Client, m: Message, d: Draw, epoch: Epoch)
    requires m.ServerHello? && c.phase.ExpectServerHello?
    ensures var o := OnServerHello(cfg, c, m, d);
            o.Next? ==> KeysIn(o.events, epoch) == KeysOf(o.client, epoch) && KeysOf(c, epoch) == []
  {
    hide Selecting, ServerShare, PskChoice, RetryRequest, BoundHello, Aged, Hash, KeysIn;
    var o := OnServerHello(cfg, c, m, d);
    if o.Next? {
      assert |o.events| == 1 && o.events == [o.events[0]];
      OneEvent(o.events[0], epoch);
    }
  }

  /** Messages between the hello and the Finished install nothing and keep what is installed. */
  lemma MiddleInstalls(cfg: Config, c: Client, epoch: Epoch, m: Message, d: Draw, e: Epoch)
    requires !m.ServerHello? && !m.Finished? && !c.phase.Initial?
    ensures var o := Dispatch(cfg, c, epoch, m, d);
            o.Next? ==> KeysIn(o.events, e) == [] && KeysOf(o.client, e) == KeysOf(c, e)
  {
    hide KeysIn;
    var o := Dispatch(cfg, c, epoch, m, d);
    if o.Next? {
      NoKeys(o.events, e);
    }
  }

  lemma FinishInstalls(cfg: Config, c: Client, m: Message, epoch: Epoch)
    requires m.Finished? && c.phase.ExpectServerFinished? && Keyed(c, c.phase.secrets)
    ensures var o := OnServerFinished(cfg, c, m, c.phase.secrets);
            o.Next? ==> KeysOf(o.client, epoch) == KeysOf(c, epoch) + KeysIn(o.events, epoch)
  {
    hide ResponseMessages, PushAll, KeysIn, EndOfEarly;
    var (secrets, o) := (c.phase.secrets, OnServerFinished(cfg, c, m, c.phase.secrets));
    if o.Next? {
      var items := c.transcript.items;
      assert (items + [Whole(m)])[..Base(c) + 1] == items[..Base(c) + 1];
      assert o.events == [o.events[0]] + o.events[1..];
      KeysAppend([o.events[0]], o.events[1..], epoch);
      OneEvent(o.events[0], epoch);
      NoKeys(o.events[1..], epoch);
    }
  }

  lemma StepInstalls(cfg: Config, c: Client, call: Call, epoch: Epoch)
    requires Inv(cfg, c)
    ensures var (next, events) := Step(cfg, c, call.input, call.room);
            !next.phase.Failed? ==> KeysOf(next, epoch) == KeysOf(c, epoch) + KeysIn(events, epoch)
  {
    hide Start, Dispatch, KeysOf, KeysIn, Keyed;
    NoKeys([], epoch);
    if !c.phase.Failed? {
      match call.input
      case StartNow(d) =>
        if c.phase.Initial? {
          StartInstalls(cfg, c, d, epoch);
          NothingYet(c, epoch);
        }
      case Read(_, None, _) =>
      case Read(e, Some(m), d) => DispatchInstalls(cfg, c, e, m, d, epoch);
    }
  }

  lemma NothingYet(c: Client, epoch: Epoch)
    requires c.phase.Initial?
    ensures KeysOf(c, epoch) == []
  {
  }

  lemma DispatchInstalls(cfg: Config, c: Client, e: Epoch, m: Message, d: Draw, epoch: Epoch)
    requires Inv(cfg, c)
    ensures var o := Dispatch(cfg, c, e, m, d);
            o.Next? ==> KeysOf(o.client, epoch) == KeysOf(c, epoch) + KeysIn(o.events, epoch)
  {
    hide OnServerHello, OnServerFinished, KeysOf, KeysIn, Keyed;
    if m.ServerHello? {
      if c.phase.ExpectServerHello? {
        HelloInstalls(cfg, c, m, d, epoch);
      }
    } else if m.Finished? {
      if c.phase.ExpectServerFinished? {
        FinishInstalls(cfg, c, m, epoch);
      }
    } else if !c.phase.Initial? {
      MiddleInstalls(cfg, c, e, m, d, epoch);
    }
  }

  /** In every run that has not failed, the keys installed are exactly those of the state: the
      handshake secrets at the ServerHello once, the application secrets once at the end. */
  lemma {:induction false} RunInstalls(cfg: Config, c: Client, calls: seq<Call>, epoch: Epoch)
    requires Inv(cfg, c)
    ensures var (last, events) := Run(cfg, c, calls);
            !last.phase.Failed? ==> KeysOf(last, epoch) == KeysOf(c, epoch) + KeysIn(events, epoch)
    decreases |calls|
  {
    hide Inv, Step, KeysOf, KeysIn;
    if calls == [] {
      NoKeys([], epoch);
    } else {
      var (next, events) := Step(cfg, c, calls[0].input, calls[0].room);
      StepKeeps(cfg, c, calls[0].input, calls[0].room);
      StepInstalls(cfg, c, calls[0], epoch);
      RunInstalls(cfg, next, calls[1..], epoch);
      KeysAppend(events, Run(cfg, next, calls[1..]).1, epoch);
      if next.phase.Failed? {
        FailedIsSilent(cfg, next, calls[1..]);
      }
    }
  }

  // ------------------------------------------------------------------- silence

  /** A client that failed emits nothing more, whatever it is called with. */
  lemma {:induction false} FailedIsSilent(cfg: Config, c: Client, calls: seq<Call>)
    requires c.phase.Failed?
    ensures Run(cfg, c, calls) == (c, [])
    decreases |calls|
  {
    hide Handle;
    if calls != [] {
      FailedIsSilent(cfg, c, calls[1..]);
      var none: seq<Event> := [];
      assert none + none == none;
    }
  }

  /** The call errs: its handler does, or the sink refuses one of its events. */
  predicate Errs(cfg: Config, c: Client, call: Call)
  {
    && !c.phase.Failed? && (call.input.StartNow? ==> c.phase.Initial?)
    && var o := Handle(cfg, c, call.input);
       o.Fail? || |o.events| > call.room
  }

  predicate KeepsNothing(c: Client)
  {
    && c.phase.Failed? && c.traffic.NoSuite? && c.exporter.None? && c.resumptionMaster.None?
    && c.resumption.None? && c.pending.None? && c.flight.None?
  }

  /** Whatever is called after a call that errs, the run emits what it had emitted and that
      call's events as far as the sink took them, and ends failed without any secret. */
  lemma ErrorEndsTheRun(cfg: Config, c: Client, calls: seq<Call>, bad: Call, later: seq<Call>)
    requires Errs(cfg, Run(cfg, c, calls).0, bad)
    ensures var (last, events) := Run(cfg, c, calls + [bad] + later);
            var emitted := Handle(cfg, Run(cfg, c, calls).0, bad.input).events;
            && KeepsNothing(last)
            && events == Run(cfg, c, calls).1 + (if |emitted| <= bad.room then emitted else emitted[..bad.room])
  {
    hide Run, Handle;
    RunAppend(cfg, c, calls + [bad], later);
    RunSnoc(cfg, c, calls, bad);
    var (failed, events) := Run(cfg, c, calls + [bad]);
    FailedIsSilent(cfg, failed, later);
    assert events + [] == events;
  }

  lemma HandledLives(cfg: Config, c: Client, input: Input)
    requires !c.phase.Failed?
    ensures var o := Handle(cfg, c, input); o.Next? ==> !o.client.phase.Failed?
  {
  }

  /** A run fails exactly when one of its calls errs. */
  lemma {:induction false} FailsIffSomeCallErrs(cfg: Config, c: Client, calls: seq<Call>)
    requires !c.phase.Failed?
    ensures Run(cfg, c, calls).0.phase.Failed? <==>
            exists i :: 0 <= i < |calls| && Errs(cfg, Run(cfg, c, calls[..i]).0, calls[i])
    decreases |calls|
  {
    hide Run, Handle;
    if calls == [] {
      NoCalls(cfg, c);
    } else {
      var (n, first) := (|calls| - 1, calls[..|calls| - 1]);
      FailsIffSomeCallErrs(cfg, c, first);
      assert calls == first + [calls[n]];
      RunSnoc(cfg, c, first, calls[n]);
      var before := Run(cfg, c, first).0;
      if before.phase.Failed? {
        var i :| 0 <= i < n && Errs(cfg, Run(cfg, c, first[..i]).0, first[i]);
        assert first[..i] == calls[..i] && first[i] == calls[i];
      } else {
        HandledLives(cfg, before, calls[n].input);
        forall i | 0 <= i < n ensures !Errs(cfg, Run(cfg, c, calls[..i]).0, calls[i]) {
          assert first[..i] == calls[..i] && first[i] == calls[i];
        }
      }
    }
  }

  lemma NoCalls(cfg: Config, c: Client)
    ensures Run(cfg, c, []) == (c, [])
  {
  }

  // ------------------------------------------------------------- hellos emitted

  predicate Greets(e: Event)
  {
    e.Send? && exists i :: 0 <= i < |e.messages| && e.messages[i].ClientHello?
  }

  function Greetings(events: seq<Event>): nat
  {
    if events == [] then 0 else (if Greets(events[0]) then 1 else 0) + Greetings(events[1..])
  }

  lemma {:induction false} GreetingsAppend(a: seq<Event>, b: seq<Event>)
    ensures Greetings(a + b) == Greetings(a) + Greetings(b)
    decreases |a|
  {
    hide Greets;
    if a == [] {
      assert a + b == b;
    } else {
      assert (a + b)[1..] == a[1..] + b;
      GreetingsAppend(a[1..], b);
    }
  }

  lemma GreetingsCut(events: seq<Event>, room: nat)
    requires room <= |events|
    ensures Greetings(events[..room]) <= Greetings(events)
  {
    assert events == events[..room] + events[room..];
    GreetingsAppend(events[..room], events[room..]);
  }

  /** Hellos a client in this state has sent at most. */
  function Allowance(c: Client): nat
  {
    (if c.phase.Initial? then 0 else 1) + (if c.hrrDone then 1 else 0)
  }

  lemma NoGreeting(events: seq<Event>)
    requires forall i :: 0 <= i < |events| ==> !Greets(events[i])
    ensures Greetings(events) == 0
    decreases |events|
  {
  }

  lemma StartGreets(cfg: Config, c: Client, d: Draw)
    requires c.phase.Initial?
    ensures var o := Start(cfg, c, d);
            Greetings(o.events) <= 1 && (o.Next? ==> !o.client.phase.Initial? && o.client.hrrDone == c.hrrDone)
  {
    hide BoundHello, Aged, SomeSha256, EarlyFor;
    var o := Start(cfg, c, d);
    if o.Next? {
      assert o.events == o.events[..1] + o.events[1..];
      GreetingsAppend(o.events[..1], o.events[1..]);
      NoGreeting(o.events[1..]);
      assert Greetings(o.events[..1]) <= 1;
    }
  }

  lemma HelloGreets(cfg: Config, c: Client, m: Message, d: Draw)
    requires m.ServerHello?
    ensures var o := OnServerHello(cfg, c, m, d);
            && (o.Fail? ==> o.events == [])
            && (o.Next? ==> |o.events| == 1 && !o.client.phase.Initial?)
            && (o.Next? ==> Greetings(o.events) == (if o.client.hrrDone then 1 else 0) - (if c.hrrDone then 1 else 0))
  {
    hide Selecting, ServerShare, PskChoice, RetryRequest, BoundHello, Aged;
    SelectingKeepsFlag(cfg, c, m);
    var o := OnServerHello(cfg, c, m, d);
    if o.Next? {
      assert o.events[1..] == [];
      if m.random == RetryRandom {
        assert o.events[0].messages[0].ClientHello?;
      }
    }
  }

  lemma SelectingKeepsFlag(cfg: Config, c: Client, m: Message)
    requires m.ServerHello?
    ensures Selecting(cfg, c, m).Some? ==> Selecting(cfg, c, m).value.hrrDone == c.hrrDone
  {
  }

  lemma QuietDispatch(cfg: Config, c: Client, epoch: Epoch, m: Message, d: Draw)
    requires !m.ServerHello?
    ensures var o := Dispatch(cfg, c, epoch, m, d);
            && Greetings(o.events) == 0
            && (o.Next? ==> !o.client.phase.Initial? && o.client.hrrDone == c.hrrDone)
  {
    hide Greetings;
    var o := Dispatch(cfg, c, epoch, m, d);
    match (c.phase, m)
    case (ExpectServerFinished(secrets), Finished(_)) =>
      FinishedQuiet(cfg, c, m, secrets);
      NoGreeting([]);
    case _ =>
      NoGreeting(o.events);
  }

  lemma FinishedQuiet(cfg: Config, c: Client, m: Message, secrets: HandshakeSecrets)
    requires m.Finished?
    ensures var o := OnServerFinished(cfg, c, m, secrets);
            Greetings(o.events) == 0 && (o.Next? ==> !o.client.phase.Initial? && o.client.hrrDone == c.hrrDone)
  {
    hide Greetings, PushAll, Hash;
    var o := OnServerFinished(cfg, c, m, secrets);
    forall i | 0 <= i < |o.events| ensures !Greets(o.events[i]) {
      FinishedMessages(cfg, c, m, secrets, i);
    }
    NoGreeting(o.events);
  }

  lemma FinishedMessages(cfg: Config, c: Client, m: Message, secrets: HandshakeSecrets, i: nat)
    requires m.Finished? && i < |OnServerFinished(cfg, c, m, secrets).events|
    ensures !Greets(OnServerFinished(cfg, c, m, secrets).events[i])
  {
  }

  lemma StepGreets(cfg: Config, c: Client, call: Call)
    ensures var (next, events) := Step(cfg, c, call.input, call.room);
            Greetings(events) + Allowance(c) <= Allowance(next)
  {
    hide Start, Dispatch, Greetings;
    NoGreeting([]);
    var o := Handle(cfg, c, call.input);
    if call.room <= |o.events| {
      GreetingsCut(o.events, call.room);
    }
    match call.input
    case StartNow(d) =>
      if c.phase.Initial? {
        StartGreets(cfg, c, d);
      }
    case Read(epoch, None, _) =>
    case Read(epoch, Some(m), d) =>
      if m.ServerHello? {
        HelloDispatch(cfg, c, epoch, m, d);
      } else {
        QuietDispatch(cfg, c, epoch, m, d);
      }
  }

  lemma HelloDispatch(cfg: Config, c: Client, epoch: Epoch, m: Message, d: Draw)
    requires m.ServerHello?
    ensures var o := Dispatch(cfg, c, epoch, m, d);
            && (o.Fail? ==> o.events == [])
            && (o.Next? ==> |o.events| == 1 && !o.client.phase.Initial? && !c.phase.Initial?)
            && (o.Next? ==> Greetings(o.events) == (if o.client.hrrDone then 1 else 0) - (if c.hrrDone then 1 else 0))
  {
    hide OnServerHello, Greetings;
    HelloGreets(cfg, c, m, d);
  }

  lemma {:induction false} RunGreets(cfg: Config, c: Client, calls: seq<Call>)
    ensures Greetings(Run(cfg, c, calls).1) + Allowance(c) <= Allowance(Run(cfg, c, calls).0)
    decreases |calls|
  {
    hide Step, Greetings;
    if calls == [] {
      NoGreeting([]);
    } else {
      var (next, events) := Step(cfg, c, calls[0].input, calls[0].room);
      StepGreets(cfg, c, calls[0]);
      RunGreets(cfg, next, calls[1..]);
      GreetingsAppend(events, Run(cfg, next, calls[1..]).1);
    }
  }

  /** No run sends more than two hellos: the first, and the answer to one retry request. */
  lemma AtMostOneRetryAnswered(cfg: Config, ticket: Option<Ticket>, calls: seq<Call>)
    ensures Greetings(Run(cfg, Fresh(ticket), calls).1) <= 2
  {
    RunGreets(cfg, Fresh(ticket), calls);
  }

  // ------------------------------------------------------------ retry and SHA-384

  /** A well-formed retry request is answered exactly when no usable ticket is left to offer
      or the request chose a SHA-256 suite: a binder needs the SHA-256 transcript. */
  lemma RetryAnsweredIff(cfg: Config, c: Client, m: Message, d: Draw)
    requires m.ServerHello? && m.random == RetryRandom && !c.hrrDone && d.key.Some?
    requires Selecting(cfg, c, m).Some? && RetryRequest(Selecting(cfg, c, m).value, m.extensions).Some?
    ensures OnServerHello(cfg, c, m, d).Next? <==> Aged(c.resumption, d.now).None? || AlgOf(m.suite) == Sha256
  {
  }

  /** Such a run: a client starts with a fresh ticket, is asked to retry under AES-256 with
      SHA-384, and fails. */
  lemma RetryUnderSha384Fails(cfg: Config, d: Draw)
    requires cfg.mode.Tls? && 0x1301 in cfg.suites && 0x1302 in cfg.suites
    requires d.now == 1000 && d.session == 9 && d.key == Some(7)
    ensures var exts := [Versions(Some(TLS_1_3)), KeyShare(None, Some(0x17))];
            var m := ServerHello(TLS_1_2, RetryRandom, 9, 0x1302, 0, exts);
            var calls := [Call(StartNow(d), 4), Call(Read(Plaintext, Some(m), d), 4)];
            var (c, events) := Run(cfg, Fresh(Some(Ticket(1, 2, None, 500, 60000, 0))), calls);
            c.phase.Failed? && Greetings(events) == 1
  {
    hide Start, OnServerHello, Greetings;
    var ticket := Ticket(1, 2, None, 500, 60000, 0);
    var exts := [Versions(Some(TLS_1_3)), KeyShare(None, Some(0x17))];
    var m := ServerHello(TLS_1_2, RetryRandom, 9, 0x1302, 0, exts);
    var (first, second) := (Call(StartNow(d), 4), Call(Read(Plaintext, Some(m), d), 4));
    TicketStarts(cfg, ticket, d);
    var o := Start(cfg, Fresh(Some(ticket)), d);
    RunOne(cfg, Fresh(Some(ticket)), first);
    assert Handle(cfg, Fresh(Some(ticket)), first.input) == o;
    RetryIsWellFormed(cfg, o.client, exts, m);
    RetryAnsweredIff(cfg, o.client, m, d);
    HelloGreets(cfg, o.client, m, d);
    assert Handle(cfg, o.client, second.input) == OnServerHello(cfg, o.client, m, d);
    RunSnoc(cfg, Fresh(Some(ticket)), [first], second);
    assert [first] + [second] == [first, second];
    assert o.events + [] == o.events;
  }

  lemma TicketStarts(cfg: Config, ticket: Ticket, d: Draw)
    requires cfg.mode.Tls? && 0x1301 in cfg.suites && d.now == 1000 && d.session == 9 && d.key == Some(7)
    requires ticket == Ticket(1, 2, None, 500, 60000, 0)
    ensures var o := Start(cfg, Fresh(Some(ticket)), d);
            && o.Next? && |o.events| == 1 && Greetings(o.events) == 1 && o.client.phase.ExpectServerHello?
            && o.client.resumption == Some(ticket) && o.client.pending == Some(Share(0x1d, 7)) && !o.client.hrrDone
            && o.client.session == 9 && o.client.traffic.NoSuite? && o.client.transcript.selected.None?
  {
    var i :| 0 <= i < |cfg.suites| && cfg.suites[i] == 0x1301;
    assert AlgOf(cfg.suites[i]) == Sha256;
    assert Aged(Some(ticket), 1000) == Some((ticket, 500));
    var o := Start(cfg, Fresh(Some(ticket)), d);
    assert o.events[0].messages[0].ClientHello? && o.events[1..] == [];
  }

  lemma RetryIsWellFormed(cfg: Config, c: Client, exts: seq<Extension>, m: Message)
    requires cfg.mode.Tls? && 0x1302 in cfg.suites && c.session == 9 && c.traffic.NoSuite?
    requires c.transcript.selected.None?
    requires c.pending == Some(Share(0x1d, 7)) && exts == [Versions(Some(TLS_1_3)), KeyShare(None, Some(0x17))]
    requires m == ServerHello(TLS_1_2, RetryRandom, 9, 0x1302, 0, exts)
    ensures Selecting(cfg, c, m).Some? && RetryRequest(Selecting(cfg, c, m).value, m.extensions).Some?
  {
    assert ScanRetry(exts, 2, Retry(true, Some(0x17), None)) == Some(Retry(true, Some(0x17), None));
    assert ScanRetry(exts, 1, Retry(true, None, None)) == Some(Retry(true, Some(0x17), None));
  }
}
