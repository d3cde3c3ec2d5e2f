/** What a server's events mean, over whole runs: which calls announce early-data keys
    and a peer's transport extension, and what those are made of. Each condition is said of
    the hello, the configuration and the ticket, without the handlers that decide it. */
module ServerReports {
  import opened Bytes
  import opened Symbols
  import opened ServerMachine
  import opened ServerProofs
  import opened ServerRuns

  // ------------------------------------------------------------- events and calls

  /** The server before call `i`. */
  ghost function At(cfg: Config, calls: seq<Call>, i: nat): Server
    requires i <= |calls|
  {
    Run(cfg, Fresh(), calls[..i]).0
  }

  /** The events of call `i`. */
  ghost function Said(cfg: Config, calls: seq<Call>, i: nat): seq<Event>
    requires i < |calls|
  {
    Step(cfg, At(cfg, calls, i), calls[i].input, calls[i].room).1
  }

  /** An event of a run is an event of one of its calls. */
  lemma {:induction false} SaidBySomeCall(cfg: Config, calls: seq<Call>, e: Event)
    ensures e in Run(cfg, Fresh(), calls).1 <==> exists i :: 0 <= i < |calls| && e in Said(cfg, calls, i)
    decreases |calls|
  {
    hide Run, Step;
    if calls == [] {
      NoCalls(cfg, Fresh());
    } else {
      var n := |calls| - 1;
      var first := calls[..n];
      assert calls == first + [calls[n]];
      RunSnoc(cfg, Fresh(), first, calls[n]);
      SaidBySomeCall(cfg, first, e);
      forall i | 0 <= i < n ensures Said(cfg, calls, i) == Said(cfg, first, i) {
        assert first[..i] == calls[..i];
      }
      assert Said(cfg, calls, n) == Step(cfg, Run(cfg, Fresh(), first).0, calls[n].input, calls[n].room).1;
      if i :| 0 <= i < |first| && e in Said(cfg, first, i) {
        assert e in Said(cfg, calls, i);
      }
    }
  }

  // -------------------------------------------------------------------- hellos

  /** The client offers this suite, and none the server would rather have. */
  ghost predicate Preferred(suites: seq<nat>, suite: nat)
  {
    || (suite == 0x1301 && 0x1301 in suites)
    || (suite == 0x1303 && 0x1303 in suites && 0x1301 !in suites)
    || (suite == 0x1302 && 0x1302 in suites && 0x1303 !in suites && 0x1301 !in suites)
  }

  /** The hello passes every check in front of key agreement. After a retry it must also offer the one
      share that was asked for, no early data, and be the first hello in all that is pinned. */
  ghost predicate Takes(cfg: Config, s: Server, h: Hello, suite: nat, kx: Kx)
  {
    && s.phase.ExpectClientHello? && cfg.parse(h) == Some(kx) && Preferred(h.suites, suite)
    && h.version == 0x0303 && h.compression && (cfg.mode.Quic? ==> h.session == 0) && cfg.checks(h)
    && (s.hrrDone ==>
          && s.traffic == Selected(suite) && s.pin.Some? && !h.early
          && kx.shareCount == 1 && kx.selected.Some? && kx.selected.value.group == s.pin.value.group
          && cfg.fingerprint(h) == Some(s.pin.value.fingerprint))
  }

  /** It holds a share the server agrees on, and a protocol is settled. */
  ghost predicate Settles(cfg: Config, s: Server, h: Hello, suite: nat, share: Share, alpn: Option<nat>)
  {
    && cfg.parse(h).Some? && Takes(cfg, s, h, suite, cfg.parse(h).value)
    && cfg.parse(h).value.selected == Some(share) && cfg.alpn(h) == Some(alpn)
  }

  /** The offered ticket opens and is not stale. */
  ghost predicate Usable(cfg: Config, h: Hello, suite: nat, alpn: Option<nat>, now: nat, data: TicketData)
  {
    && h.psk.Some? && cfg.hasKeys && suite != 0x1302
    && cfg.open(h.psk.value.identity, alpn) == Some(data)
    && data.issuedAt <= now + 10000 && now <= data.issuedAt + 7200000
  }

  /** And its key made the binder, over everything before the binder. */
  ghost predicate Opens(cfg: Config, s: Server, h: Hello, suite: nat, alpn: Option<nat>, now: nat, data: TicketData)
  {
    && Usable(cfg, h, suite, alpn, now, data)
    && var blank := ClientHello(h.(psk := Some(h.psk.value.(binder := Blank))));
       h.psk.value.binder == Binder(data.psk, Digest(Sha256, s.transcript.items + [Cut(blank)]))
  }

  /** The ticket allows early data, for this suite and protocol, and the offer is fresh: issued at most two
      hours ago, of an age within ten seconds of the one claimed, and not seen before. */
  ghost predicate Grants(cfg: Config, h: Hello, suite: nat, data: TicketData, d: Draw)
  {
    && h.psk.Some? && cfg.acceptsEarly && h.early && data.maxEarly.Some? && data.alpnMatches && data.suite == suite
    && data.issuedAt <= d.now <= data.issuedAt + 7200000 && d.registered
    && var (age, claimed) := (d.now - data.issuedAt, (h.psk.value.age - data.ageAdd) % 0x1_0000_0000);
       -10000 <= age - claimed <= 10000
  }

  /** The early-data secret of a ticket's key and the transcript up to this hello. */
  ghost function EarlySecret(psk: nat, before: seq<Item>, h: Hello): Secret
  {
    Derived(Early(Sha256, Some(psk)), ClientEarly, Digest(Sha256, before + [Whole(ClientHello(h))]))
  }

  // --------------------------------------------------------------- one hello

  lemma PicksPreferred(suites: seq<nat>, suite: nat)
    ensures PickSuite(suites) == Some(suite) <==> Preferred(suites, suite)
    ensures PickSuite(suites).None? <==> 0x1301 !in suites && 0x1302 !in suites && 0x1303 !in suites
  {
  }

  /** The server with the suite settled, as it goes on to agree on keys. */
  ghost function Chosen(s: Server, suite: nat): Server
  {
    s.(transcript := s.transcript.(selected := Some(AlgOf(suite))), traffic := Selected(suite))
  }

  lemma TakesIff(cfg: Config, s: Server, h: Hello, d: Draw, suite: nat)
    requires Inv(cfg, s) && s.phase.ExpectClientHello?
    ensures cfg.parse(h).Some? && Takes(cfg, s, h, suite, cfg.parse(h).value) ==>
            OnClientHello(cfg, s, h, d) == Negotiate(cfg, Chosen(s, suite), h, suite, cfg.parse(h).value, d)
    ensures (forall x: nat :: cfg.parse(h).Some? ==> !Takes(cfg, s, h, x, cfg.parse(h).value)) ==>
            OnClientHello(cfg, s, h, d) == Fail([])
  {
    hide Negotiate, PickSuite;
    forall x: nat ensures PickSuite(h.suites) == Some(x) <==> Preferred(h.suites, x) {
      PicksPreferred(h.suites, x);
    }
    if cfg.parse(h).Some? && PickSuite(h.suites).Some? {
      TakenWhen(cfg, s, h, d, PickSuite(h.suites).value, cfg.parse(h).value);
    }
  }

  lemma TakenWhen(cfg: Config, s: Server, h: Hello, d: Draw, suite: nat, kx: Kx)
    requires Inv(cfg, s) && s.phase.ExpectClientHello? && PickSuite(h.suites) == Some(suite) && cfg.parse(h) == Some(kx)
    requires Preferred(h.suites, suite)
    ensures OnClientHello(cfg, s, h, d) ==
            if Takes(cfg, s, h, suite, kx) then Negotiate(cfg, Chosen(s, suite), h, suite, kx, d) else Fail([])
  {
    hide Negotiate, PickSuite, Preferred;
  }

  lemma ModDifference(a: nat, b: nat, w: nat)
    requires w > 0
    ensures (a - b) % w == if a % w >= b % w then a % w - b % w else a % w + w - b % w
  {
    var (x, y) := (a % w, b % w);
    var (p, q) := (a / w, b / w);
    assert a == p * w + x && b == q * w + y;
    var k := if x >= y then p - q else p - q - 1;
    var r := if x >= y then x - y else x + w - y;
    assert a - b == k * w + r by {
      assert (p - q) * w == p * w - q * w;
      assert (p - q - 1) * w == (p - q) * w - w;
    }
    Remainder(a - b, k, w, r);
  }

  lemma Remainder(n: int, k: int, w: nat, r: nat)
    requires w > 0 && r < w && n == k * w + r
    ensures n % w == r
  {
    var (q, m) := (n / w, n % w);
    assert n == q * w + m && 0 <= m < w;
    assert (q - k) * w == r - m by {
      assert (q - k) * w == q * w - k * w;
    }
    Multiple(q - k, w);
  }

  lemma Multiple(x: int, w: nat)
    requires w > 0
    ensures x >= 1 ==> x * w >= w
    ensures x <= -1 ==> x * w <= 0 - w
  {
  }

  lemma GrantsIff(cfg: Config, h: Hello, suite: nat, data: TicketData, d: Draw)
    requires h.psk.Some?
    ensures var a := Accepted(data, h.psk.value.age, h.psk.value.binder);
            Grant(cfg, h.early, Some(a), suite, d).Some? <==> Grants(cfg, h, suite, data, d)
  {
    ModDifference(h.psk.value.age, data.ageAdd, WORD);
  }

  lemma OpensIff(cfg: Config, s: Server, h: Hello, suite: nat, alpn: Option<nat>, now: nat, data: TicketData)
    requires Preferred(h.suites, suite)
    ensures Opens(cfg, s, h, suite, alpn, now, data) ==>
            TryPsk(cfg, Chosen(s, suite), h, AlgOf(suite), alpn, now) ==
            GoodPsk(Accepted(data, h.psk.value.age, h.psk.value.binder))
    ensures TryPsk(cfg, Chosen(s, suite), h, AlgOf(suite), alpn, now).GoodPsk? ==>
            var a := TryPsk(cfg, Chosen(s, suite), h, AlgOf(suite), alpn, now).accepted;
            h.psk.Some? && a == Accepted(a.data, h.psk.value.age, h.psk.value.binder) &&
            Opens(cfg, s, h, suite, alpn, now, a.data)
  {
  }

  // ------------------------------------------------------- what a hello announces

  /** An event that is about neither early-data keys nor the peer's transport extension. */
  predicate Plain(e: Event)
  {
    !e.ZeroRttKeys? && !e.PeerExtension?
  }

  ghost predicate AllPlain(events: seq<Event>)
  {
    forall i :: 0 <= i < |events| ==> Plain(events[i])
  }

  /** The events start with these, and go on with plain ones. */
  ghost predicate StartsWith(events: seq<Event>, head: seq<Event>)
  {
    head <= events && AllPlain(events[|head|..])
  }

  lemma ReplyStarts(cfg: Config, s: Server, h: Hello, suite: nat, theirs: Share, ours: Share, psk: Option<Accepted>,
                    d: Draw, events: seq<Event>)
    ensures StartsWith(Reply(cfg, s, h, suite, theirs, ours, psk, d, events).events, events)
  {
    hide Credentials, HelloMessage, NextPhase;
  }

  lemma StartsRefl(events: seq<Event>)
    ensures StartsWith(events, events)
  {
  }

  /** The transport extension first, then the early-data keys if the window was opened. */
  ghost function Head(quic: Option<nat>, secret: Option<Secret>): seq<Event>
  {
    (match quic case None => [] case Some(data) => [PeerExtension(data)])
    + (match secret case None => [] case Some(k) => [ZeroRttKeys(k)])
  }

  /** The early-data secret this hello earns, if it earns one. */
  ghost predicate Earns(cfg: Config, s: Server, h: Hello, suite: nat, alpn: Option<nat>, d: Draw, k: Secret)
  {
    exists data :: Opens(cfg, s, h, suite, alpn, d.now, data) && Grants(cfg, h, suite, data, d) &&
                   k == EarlySecret(data.psk, s.transcript.items, h)
  }

  lemma AcceptStarts(cfg: Config, s: Server, h: Hello, suite: nat, share: Share, alpn: Option<nat>, d: Draw)
    returns (secret: Option<Secret>)
    requires Preferred(h.suites, suite) && cfg.alpn(h) == Some(alpn)
    ensures StartsWith(Accept(cfg, Chosen(s, suite), h, suite, share, d).events, Head(cfg.quic(h), secret))
    ensures forall k :: secret == Some(k) <==> Earns(cfg, s, h, suite, alpn, d, k)
  {
    hide TryPsk, Grant, Opens, Grants, Reply, StartsWith;
    var r := Chosen(s, suite);
    var tried := TryPsk(cfg, r, h, AlgOf(suite), alpn, d.now);
    var psk := AcceptedOf(tried);
    var window := Admit(cfg, h.early, psk, suite, d);
    var t := Push(r.transcript, ClientHello(h));
    forall data ensures Opens(cfg, s, h, suite, alpn, d.now, data) ==>
        h.psk.Some? && tried == GoodPsk(Accepted(data, h.psk.value.age, h.psk.value.binder))
    {
      OpensIff(cfg, s, h, suite, alpn, d.now, data);
      OpensOffer(cfg, s, h, suite, alpn, d.now, data);
    }
    secret := None;
    if tried.GoodPsk? {
      var data := tried.accepted.data;
      OpensIff(cfg, s, h, suite, alpn, d.now, data);
      GrantsIff(cfg, h, suite, data, d);
      if window.remaining.Some? {
        secret := Some(EarlySecret(data.psk, s.transcript.items, h));
      }
    } else {
      NoGrant(cfg, h.early, suite, d);
    }
    var head := Head(cfg.quic(h), secret);
    assert head == QuicEvents(cfg.quic(h)) + EarlyEvents(psk, window.remaining.Some?, t);
    if tried.BadPsk? {
      assert head == QuicEvents(cfg.quic(h));
    } else if d.key.Some? {
      ReplyStarts(cfg, r.(transcript := t, alpn := alpn, early := window), h, suite, share,
                  Share(share.group, d.key.value), psk, d, head);
    }
    StartsRefl(head);
  }

  lemma OpensOffer(cfg: Config, s: Server, h: Hello, suite: nat, alpn: Option<nat>, now: nat, data: TicketData)
    ensures Opens(cfg, s, h, suite, alpn, now, data) ==> h.psk.Some?
  {
  }

  lemma NoGrant(cfg: Config, offered: bool, suite: nat, d: Draw)
    ensures Grant(cfg, offered, None, suite, d) == None
  {
  }

  lemma HelloStarts(cfg: Config, s: Server, h: Hello, d: Draw, suite: nat, share: Share, alpn: Option<nat>)
    returns (secret: Option<Secret>)
    requires Inv(cfg, s) && Settles(cfg, s, h, suite, share, alpn)
    ensures StartsWith(OnClientHello(cfg, s, h, d).events, Head(cfg.quic(h), secret))
    ensures forall k :: secret == Some(k) <==> Earns(cfg, s, h, suite, alpn, d, k)
  {
    hide Inv, OnClientHello, Accept, Earns, StartsWith;
    TakesIff(cfg, s, h, d, suite);
    secret := AcceptStarts(cfg, s, h, suite, share, alpn, d);
  }

  lemma HelloPlain(cfg: Config, s: Server, h: Hello, d: Draw)
    requires Inv(cfg, s) && s.phase.ExpectClientHello?
    requires forall suite: nat, share, alpn :: !Settles(cfg, s, h, suite, share, alpn)
    ensures AllPlain(OnClientHello(cfg, s, h, d).events)
  {
    hide Inv, OnClientHello, Takes, Chosen, KeepsPin;
    TakesIff(cfg, s, h, d, 0);
    if suite: nat :| cfg.parse(h).Some? && Takes(cfg, s, h, suite, cfg.parse(h).value) {
      TakesIff(cfg, s, h, d, suite);
      var kx := cfg.parse(h).value;
      if kx.selected.Some? && cfg.alpn(h).Some? {
        assert Settles(cfg, s, h, suite, kx.selected.value, cfg.alpn(h).value);
      }
    }
  }

  /** Whichever suite, share and protocol a hello settles, they are the only ones. */
  lemma SettlesOnce(cfg: Config, s: Server, h: Hello, x: nat, y: nat, p: Share, q: Share, a: Option<nat>,
                    b: Option<nat>)
    requires Settles(cfg, s, h, x, p, a) && Settles(cfg, s, h, y, q, b)
    ensures x == y && p == q && a == b
  {
  }

  /** The call reads, in plaintext, a hello that settles a suite, a share and a protocol. */
  ghost predicate Welcomes(cfg: Config, s: Server, call: Call, h: Hello, suite: nat, share: Share, alpn: Option<nat>)
  {
    && call.input.Read? && call.input.epoch.Plaintext? && call.input.message == Some(ClientHello(h))
    && Settles(cfg, s, h, suite, share, alpn)
  }

  /** It carries this transport extension, and the sink has room to say so. */
  ghost predicate TellsExtension(cfg: Config, s: Server, call: Call, data: nat)
  {
    exists h, suite: nat, share, alpn ::
      Welcomes(cfg, s, call, h, suite, share, alpn) && cfg.quic(h) == Some(data) && call.room >= 1
  }

  /** It earns this early-data secret, and the sink has room to say so. */
  ghost predicate TellsEarly(cfg: Config, s: Server, call: Call, k: Secret)
  {
    exists h, suite: nat, share, alpn ::
      && Welcomes(cfg, s, call, h, suite, share, alpn) && Earns(cfg, s, h, suite, alpn, call.input.draw, k)
      && call.room >= (if cfg.quic(h).Some? then 2 else 1)
  }

  lemma HeadIn(events: seq<Event>, quic: Option<nat>, secret: Option<Secret>, room: nat, data: nat, k: Secret)
    requires StartsWith(events, Head(quic, secret))
    ensures var cut := if |events| <= room then events else events[..room];
            && (PeerExtension(data) in cut <==> quic == Some(data) && room >= 1)
            && (ZeroRttKeys(k) in cut <==> secret == Some(k) && room >= (if quic.Some? then 2 else 1))
  {
    var head := Head(quic, secret);
    var cut := if |events| <= room then events else events[..room];
    var n := if |head| <= room then |head| else room;
    PlainRest(events, head, room);
    TwoIn(quic, secret, n, data, k);
    assert cut == head[..n] + cut[n..];
    hide Head, StartsWith;
    assert PeerExtension(data) in cut <==> PeerExtension(data) in head[..n] || PeerExtension(data) in cut[n..];
    assert ZeroRttKeys(k) in cut <==> ZeroRttKeys(k) in head[..n] || ZeroRttKeys(k) in cut[n..];
  }

  lemma PlainRest(events: seq<Event>, head: seq<Event>, room: nat)
    requires StartsWith(events, head)
    ensures var cut := if |events| <= room then events else events[..room];
            var n := if |head| <= room then |head| else room;
            n <= |cut| && cut[..n] == head[..n] && forall e :: e in cut[n..] ==> Plain(e)
  {
    var cut := if |events| <= room then events else events[..room];
    var n := if |head| <= room then |head| else room;
    forall e | e in cut[n..] ensures Plain(e) {
      var i :| 0 <= i < |cut[n..]| && cut[n..][i] == e;
      assert e == events[|head|..][i];
    }
  }

  lemma TwoIn(quic: Option<nat>, secret: Option<Secret>, n: nat, data: nat, k: Secret)
    requires n <= |Head(quic, secret)|
    ensures var front := Head(quic, secret)[..n];
            && (PeerExtension(data) in front <==> quic == Some(data) && n >= 1)
            && (ZeroRttKeys(k) in front <==> secret == Some(k) && n >= (if quic.Some? then 2 else 1))
  {
    var front := Head(quic, secret)[..n];
    if n >= 1 {
      assert front[0] in front;
    }
    if n == 2 {
      assert front[1] in front;
    }
  }

  lemma PlainIn(events: seq<Event>, room: nat, data: nat, k: Secret)
    requires AllPlain(events)
    ensures var cut := if |events| <= room then events else events[..room];
            PeerExtension(data) !in cut && ZeroRttKeys(k) !in cut
  {
  }

  /** Everything else a server handles says neither. */
  lemma OthersPlain(cfg: Config, s: Server, input: Input)
    requires !(input.Read? && input.epoch.Plaintext? && input.message.Some? && input.message.value.ClientHello?
               && s.phase.ExpectClientHello?)
    ensures AllPlain(Handle(cfg, s, input).events)
  {
    hide OnClientHello, StoredIdentity, Charge;
  }

  lemma StepTells(cfg: Config, s: Server, call: Call, data: nat, k: Secret)
    requires Inv(cfg, s)
    ensures PeerExtension(data) in Step(cfg, s, call.input, call.room).1 <==> TellsExtension(cfg, s, call, data)
    ensures ZeroRttKeys(k) in Step(cfg, s, call.input, call.room).1 <==> TellsEarly(cfg, s, call, k)
  {
    hide Inv, Handle, Earns, StartsWith, AllPlain, Settles;
    var (input, room) := (call.input, call.room);
    if s.phase.Failed? {
      FailedSettlesNothing(cfg, s);
    } else if input.Read? && input.epoch.Plaintext? && input.message.Some? && input.message.value.ClientHello?
              && s.phase.ExpectClientHello? {
      var h := input.message.value.hello;
      HandlesHello(cfg, s, h, input.draw);
      if suite: nat, share, alpn :| Settles(cfg, s, h, suite, share, alpn) {
        var secret := HelloStarts(cfg, s, h, input.draw, suite, share, alpn);
        HeadIn(Handle(cfg, s, input).events, cfg.quic(h), secret, room, data, k);
        assert Welcomes(cfg, s, call, h, suite, share, alpn);
        forall x: nat, p, a | Welcomes(cfg, s, call, h, x, p, a) ensures x == suite && p == share && a == alpn {
          SettlesOnce(cfg, s, h, x, suite, p, share, a, alpn);
        }
      } else {
        HelloPlain(cfg, s, h, input.draw);
        PlainIn(Handle(cfg, s, input).events, room, data, k);
      }
    } else {
      OthersPlain(cfg, s, input);
      PlainIn(Handle(cfg, s, input).events, room, data, k);
      OnlyAwaitingSettles(cfg, s);
    }
  }

  lemma HandlesHello(cfg: Config, s: Server, h: Hello, d: Draw)
    requires s.phase.ExpectClientHello?
    ensures Handle(cfg, s, Read(Plaintext, Some(ClientHello(h)), d)) == OnClientHello(cfg, s, h, d)
  {
    hide OnClientHello;
  }

  lemma OnlyAwaitingSettles(cfg: Config, s: Server)
    ensures forall h, suite: nat, share, alpn :: Settles(cfg, s, h, suite, share, alpn) ==> s.phase.ExpectClientHello?
  {
  }

  lemma FailedSettlesNothing(cfg: Config, s: Server)
    requires s.phase.Failed?
    ensures forall h, suite: nat, share, alpn :: !Settles(cfg, s, h, suite, share, alpn)
  {
  }

  // ------------------------------------------------------------------ whole runs

  /** Over every run: a peer's transport extension is announced exactly by the calls that read a hello which
      carries it and settles a suite, a share and a protocol, on a sink with room. */
  lemma ExtensionIff(cfg: Config, calls: seq<Call>, data: nat)
    ensures PeerExtension(data) in Run(cfg, Fresh(), calls).1 <==>
            exists i :: 0 <= i < |calls| && TellsExtension(cfg, At(cfg, calls, i), calls[i], data)
  {
    hide Run, Step, TellsExtension, TellsEarly, Inv;
    SaidBySomeCall(cfg, calls, PeerExtension(data));
    forall i | 0 <= i < |calls|
      ensures PeerExtension(data) in Said(cfg, calls, i) <==> TellsExtension(cfg, At(cfg, calls, i), calls[i], data)
    {
      FreshHolds(cfg);
      RunKeeps(cfg, Fresh(), calls[..i]);
      StepTells(cfg, At(cfg, calls, i), calls[i], data, ANY);
    }
  }

  const ANY: Secret := Derived(Early(Sha256, None), ClientEarly, Digest(Sha256, []))

  /** Over every run: early-data keys are announced exactly by the calls that read a hello whose ticket opened,
      whose binder was made with that ticket's key, and whose early data is granted; and the secret is derived
      from that ticket's key over the transcript up to that hello. */
  lemma EarlyKeysIff(cfg: Config, calls: seq<Call>, k: Secret)
    ensures ZeroRttKeys(k) in Run(cfg, Fresh(), calls).1 <==>
            exists i :: 0 <= i < |calls| && TellsEarly(cfg, At(cfg, calls, i), calls[i], k)
  {
    hide Run, Step, TellsExtension, TellsEarly, Inv;
    SaidBySomeCall(cfg, calls, ZeroRttKeys(k));
    forall i | 0 <= i < |calls|
      ensures ZeroRttKeys(k) in Said(cfg, calls, i) <==> TellsEarly(cfg, At(cfg, calls, i), calls[i], k)
    {
      FreshHolds(cfg);
      RunKeeps(cfg, Fresh(), calls[..i]);
      StepTells(cfg, At(cfg, calls, i), calls[i], 0, k);
    }
  }

  lemma {:induction false} PlainSecrets(events: seq<Event>)
    requires AllPlain(events)
    ensures EarlySecrets(events) == []
    decreases |events|
  {
    if events != [] {
      PlainSecrets(events[1..]);
    }
  }

  lemma StartSecrets(events: seq<Event>, quic: Option<nat>, secret: Option<Secret>, room: nat)
    requires StartsWith(events, Head(quic, secret))
    ensures |EarlySecrets(if |events| <= room then events else events[..room])| <= 1
  {
    hide EarlySecrets;
    var head := Head(quic, secret);
    var cut := if |events| <= room then events else events[..room];
    var n := if |head| <= room then |head| else room;
    PlainRest(events, head, room);
    assert cut == head[..n] + cut[n..];
    EarlyAppend(head[..n], cut[n..]);
    HeadSecrets(quic, secret, n);
    assert forall i :: 0 <= i < |cut[n..]| ==> cut[n..][i] in cut[n..];
    PlainSecrets(cut[n..]);
  }

  lemma HeadSecrets(quic: Option<nat>, secret: Option<Secret>, n: nat)
    requires n <= |Head(quic, secret)|
    ensures |EarlySecrets(Head(quic, secret)[..n])| <= 1
  {
    var cut := Head(quic, secret)[..n];
    if n == 2 {
      assert cut == [cut[0]] + [cut[1]];
      EarlyAppend([cut[0]], [cut[1]]);
      OneSecret(cut[0]);
      OneSecret(cut[1]);
    } else if n == 1 {
      assert cut == [cut[0]];
      OneSecret(cut[0]);
    }
  }

  /** One call announces at most one early-data secret, and only while a hello is awaited; if it does, none is
      awaited afterwards. */
  lemma StepSecrets(cfg: Config, s: Server, call: Call)
    requires Inv(cfg, s)
    ensures var (next, events) := Step(cfg, s, call.input, call.room);
            && |EarlySecrets(events)| <= 1
            && (!s.phase.ExpectClientHello? ==> EarlySecrets(events) == [] && !next.phase.ExpectClientHello?)
            && (EarlySecrets(events) != [] ==> !next.phase.ExpectClientHello?)
  {
    hide Inv, Handle, Earns, StartsWith, AllPlain, Settles;
    var (input, room) := (call.input, call.room);
    var events := Handle(cfg, s, input).events;
    if s.phase.Failed? {
    } else if input.Read? && input.epoch.Plaintext? && input.message.Some? && input.message.value.ClientHello?
              && s.phase.ExpectClientHello? {
      var h := input.message.value.hello;
      HandlesHello(cfg, s, h, input.draw);
      if suite: nat, share, alpn :| Settles(cfg, s, h, suite, share, alpn) {
        var secret := HelloStarts(cfg, s, h, input.draw, suite, share, alpn);
        StartSecrets(events, cfg.quic(h), secret, room);
        SettledMoves(cfg, s, h, input.draw, suite, share, alpn);
      } else {
        HelloPlain(cfg, s, h, input.draw);
        CutPlain(events, room);
      }
    } else {
      OthersPlain(cfg, s, input);
      CutPlain(events, room);
      NoWayBack(cfg, s, input);
    }
  }

  lemma CutPlain(events: seq<Event>, room: nat)
    requires AllPlain(events)
    ensures EarlySecrets(if |events| <= room then events else events[..room]) == []
  {
    PlainSecrets(if |events| <= room then events else events[..room]);
  }

  lemma SettledMoves(cfg: Config, s: Server, h: Hello, d: Draw, suite: nat, share: Share, alpn: Option<nat>)
    requires Inv(cfg, s) && Settles(cfg, s, h, suite, share, alpn)
    ensures var o := OnClientHello(cfg, s, h, d); o.Next? ==> !o.server.phase.ExpectClientHello?
  {
    hide Inv, OnClientHello, Accept;
    TakesIff(cfg, s, h, d, suite);
    AcceptMoves(cfg, Chosen(s, suite), h, suite, share, d);
  }

  lemma NoWayBack(cfg: Config, s: Server, input: Input)
    ensures var o := Handle(cfg, s, input);
            !s.phase.ExpectClientHello? && o.Next? ==> !o.server.phase.ExpectClientHello?
  {
    hide OnClientHello, StoredIdentity, Charge;
  }

  /** Over every run, early-data keys are announced at most once. */
  lemma {:induction false} EarlyKeysOnce(cfg: Config, s: Server, calls: seq<Call>)
    requires Inv(cfg, s)
    ensures |EarlySecrets(Run(cfg, s, calls).1)| <= 1
    ensures !s.phase.ExpectClientHello? ==> EarlySecrets(Run(cfg, s, calls).1) == []
    decreases |calls|
  {
    hide Step, Inv;
    if calls != [] {
      var (next, events) := Step(cfg, s, calls[0].input, calls[0].room);
      StepSecrets(cfg, s, calls[0]);
      StepKeeps(cfg, s, calls[0].input, calls[0].room);
      EarlyKeysOnce(cfg, next, calls[1..]);
      EarlyAppend(events, Run(cfg, next, calls[1..]).1);
    }
  }

  /** A hello earns a secret exactly when it is admitted to early data. */
  lemma EarnsIffAdmitted(cfg: Config, s: Server, h: Hello, suite: nat, alpn: Option<nat>, d: Draw)
    requires Preferred(h.suites, suite)
    ensures var tried := TryPsk(cfg, Chosen(s, suite), h, AlgOf(suite), alpn, d.now);
            (exists k :: Earns(cfg, s, h, suite, alpn, d, k)) <==>
            Grant(cfg, h.early, AcceptedOf(tried), suite, d).Some?
  {
    hide TryPsk, Grant, Opens, Grants;
    var tried := TryPsk(cfg, Chosen(s, suite), h, AlgOf(suite), alpn, d.now);
    NoGrant(cfg, h.early, suite, d);
    if tried.GoodPsk? {
      var data := tried.accepted.data;
      OpensIff(cfg, s, h, suite, alpn, d.now, data);
      GrantsIff(cfg, h, suite, data, d);
      if Grant(cfg, h.early, AcceptedOf(tried), suite, d).Some? {
        assert Earns(cfg, s, h, suite, alpn, d, EarlySecret(data.psk, s.transcript.items, h));
      }
    }
    if k :| Earns(cfg, s, h, suite, alpn, d, k) {
      var data :| Opens(cfg, s, h, suite, alpn, d.now, data) && Grants(cfg, h, suite, data, d) &&
                  k == EarlySecret(data.psk, s.transcript.items, h);
      OpensIff(cfg, s, h, suite, alpn, d.now, data);
      OpensOffer(cfg, s, h, suite, alpn, d.now, data);
    }
  }

  /** A run whose first call reads a hello it settles announces early-data keys exactly when that hello earns them. */
  lemma FirstCallDecides(cfg: Config, calls: seq<Call>, h: Hello, suite: nat, share: Share, alpn: Option<nat>)
    requires calls != [] && Welcomes(cfg, Fresh(), calls[0], h, suite, share, alpn) && calls[0].room >= 2
    ensures EarlySecrets(Run(cfg, Fresh(), calls).1) != [] <==>
            exists k :: Earns(cfg, Fresh(), h, suite, alpn, calls[0].input.draw, k)
  {
    hide Step, Inv, Earns, Settles, EarlySecrets;
    var call := calls[0];
    var (next, events) := Step(cfg, Fresh(), call.input, call.room);
    FreshHolds(cfg);
    StepKeeps(cfg, Fresh(), call.input, call.room);
    WelcomeMoves(cfg, call, h, suite, share, alpn);
    EarlyKeysOnce(cfg, next, calls[1..]);
    EarlyAppend(events, Run(cfg, next, calls[1..]).1);
    if k :| Earns(cfg, Fresh(), h, suite, alpn, call.input.draw, k) {
      assert TellsEarly(cfg, Fresh(), call, k);
      StepTells(cfg, Fresh(), call, 0, k);
      EarlyIff(events, k);
    }
    if EarlySecrets(events) != [] {
      var k := EarlySecrets(events)[0];
      EarlyIff(events, k);
      StepTells(cfg, Fresh(), call, 0, k);
      var g, x: nat, p, a :| Welcomes(cfg, Fresh(), call, g, x, p, a) &&
                             Earns(cfg, Fresh(), g, x, a, call.input.draw, k);
      SettlesOnce(cfg, Fresh(), h, x, suite, p, share, a, alpn);
    }
  }

  lemma WelcomeMoves(cfg: Config, call: Call, h: Hello, suite: nat, share: Share, alpn: Option<nat>)
    requires Welcomes(cfg, Fresh(), call, h, suite, share, alpn)
    ensures !Step(cfg, Fresh(), call.input, call.room).0.phase.ExpectClientHello?
  {
    hide Handle, Settles;
    FreshHolds(cfg);
    HandlesHello(cfg, Fresh(), h, call.input.draw);
    SettledMoves(cfg, Fresh(), h, call.input.draw, suite, share, alpn);
  }

  // --------------------------------------------------------- what a hello is answered with

  /** The key of the ticket this hello resumes; none only if no usable ticket was offered. */
  ghost predicate ResumesWith(cfg: Config, s: Server, h: Hello, suite: nat, alpn: Option<nat>, now: nat,
                              psk: Option<nat>)
  {
    match psk
    case Some(key) => exists data :: Opens(cfg, s, h, suite, alpn, now, data) && data.psk == key
    case None => forall data :: !Usable(cfg, h, suite, alpn, now, data)
  }

  /** Certificate and CertificateVerify, after a CertificateRequest where clients are to be known: the signature
      covers everything up to the Certificate. */
  ghost predicate Identifies(cfg: Config, alg: Alg, before: seq<Item>, ms: seq<Message>)
  {
    var opening := (if cfg.clientAuth.Some? then [CertificateRequest(cfg.request)] else []) + [Certificate(cfg.chain)];
    && cfg.sign(Digest(alg, before + Wholes(opening))).Some?
    && ms == opening + [CertificateVerify(cfg.scheme, cfg.sign(Digest(alg, before + Wholes(opening))).value)]
  }

  /** The answer to a hello, all of it: the ServerHello echoing the session, the handshake keys, the encrypted
      flight from the extensions to the Finished, and the application keys, each over the transcript up to it. */
  ghost predicate Answered(cfg: Config, s: Server, h: Hello, suite: nat, share: Share, alpn: Option<nat>, d: Draw,
                           psk: Option<nat>, early: bool, ms: seq<Message>, events: seq<Event>)
  {
    d.key.Some? &&
    var alg := if suite == 0x1302 then Sha384 else Sha256;
    var hello := ServerHello(0x0303, Ordinary(d.random), h.session, suite, 0,
                             [Versions(Some(0x0304)), KeyShare(Some(Share(share.group, d.key.value)), None)]
                             + (if psk.Some? then [SelectedPsk(Some(0))] else []));
    var greeted := s.transcript.items + Wholes([ClientHello(h), hello]);
    var mixed := Mixed(Early(alg, psk), Shared(share.group, share.key, d.key.value));
    var client := Derived(mixed, ClientHandshake, Digest(alg, greeted));
    var server := Derived(mixed, ServerHandshake, Digest(alg, greeted));
    var ee := EncryptedExtensions(cfg.extensions(h, alpn, early));
    var extended := greeted + Wholes([ee]);
    var finished := Finished(Mac(server, Digest(alg, extended + Wholes(ms))));
    var all := Digest(alg, extended + Wholes(ms) + Wholes([finished]));
    && (if psk.Some? then ms == [] else Identifies(cfg, alg, extended, ms))
    && events == [Send(Plaintext, [hello]), KeysReady(Handshake, client, server),
                  Send(Handshake, [ee] + ms + [finished]),
                  KeysReady(Application, Derived(Master(mixed), ClientTraffic, all),
                            Derived(Master(mixed), ServerTraffic, all))]
  }

  lemma CredentialsAre(cfg: Config, t: Transcript, alg: Alg, resumed: bool)
    requires Credentials(cfg, t, alg, resumed).Some?
    ensures var ms := Credentials(cfg, t, alg, resumed).value;
            if resumed then ms == [] else Identifies(cfg, alg, t.items, ms)
  {
    if !resumed {
      var opening := if cfg.clientAuth.Some? then [CertificateRequest(cfg.request)] else [];
      var certificate := Certificate(cfg.chain);
      PushedAll(t, opening);
      WholesAppend(opening, [certificate]);
      OnePush(PushAll(t, opening), certificate);
      Reassociate(t.items, Wholes(opening), Wholes([certificate]));
      var ms := Credentials(cfg, t, alg, resumed).value;
      assert ms == (opening + [certificate]) + [ms[|ms| - 1]];
    }
  }

  lemma FlightIs(cfg: Config, s: Server, h: Hello, suite: nat, resumed: bool, secrets: HandshakeSecrets,
                 events: seq<Event>) returns (ms: seq<Message>)
    requires Flight(cfg, s, h, suite, resumed, secrets, events).Next?
    ensures if resumed then ms == []
            else Identifies(cfg, AlgOf(suite),
                            s.transcript.items
                            + Wholes([EncryptedExtensions(cfg.extensions(h, s.alpn, s.early.remaining.Some?))]), ms)
    ensures var alg := AlgOf(suite);
            var ee := EncryptedExtensions(cfg.extensions(h, s.alpn, s.early.remaining.Some?));
            var extended := s.transcript.items + Wholes([ee]);
            var finished := Finished(Mac(secrets.server, Digest(alg, extended + Wholes(ms))));
            var all := Digest(alg, extended + Wholes(ms) + Wholes([finished]));
            var master := Master(secrets.schedule);
            Flight(cfg, s, h, suite, resumed, secrets, events).events ==
            events + [Send(Handshake, [ee] + ms + [finished]),
                      KeysReady(Application, Derived(master, ClientTraffic, all), Derived(master, ServerTraffic, all))]
  {
    hide NextPhase, Credentials, PushAll;
    var alg := AlgOf(suite);
    var ee := EncryptedExtensions(cfg.extensions(h, s.alpn, s.early.remaining.Some?));
    var t := Push(s.transcript, ee);
    ms := Credentials(cfg, t, alg, resumed).value;
    OnePush(s.transcript, ee);
    CredentialsAre(cfg, t, alg, resumed);
    PushedAll(t, ms);
    var u := PushAll(t, ms);
    var finished := Finished(FinishedMac(secrets.server, Hash(u, alg).value));
    OnePush(u, finished);
  }

  ghost function KeyIn(psk: Option<Accepted>): Option<nat>
  {
    match psk case None => None case Some(a) => Some(a.data.psk)
  }

  lemma ReplyIs(cfg: Config, s: Server, h: Hello, suite: nat, theirs: Share, psk: Option<Accepted>, d: Draw,
                head: seq<Event>, before: seq<Item>, alpn: Option<nat>)
    returns (ms: seq<Message>, events: seq<Event>)
    requires d.key.Some? && s.transcript.items == before + [Whole(ClientHello(h))] && s.alpn == alpn
    requires Reply(cfg, s, h, suite, theirs, Share(theirs.group, d.key.value), psk, d, head).Next?
    ensures Reply(cfg, s, h, suite, theirs, Share(theirs.group, d.key.value), psk, d, head).events == head + events
    ensures forall r: Server :: r.transcript.items == before ==>
              Answered(cfg, r, h, suite, theirs, alpn, d, KeyIn(psk), s.early.remaining.Some?, ms, events)
  {
    hide Flight, Identifies;
    var ours := Share(theirs.group, d.key.value);
    var m := HelloMessage(h, suite, ours, d.random, psk.Some?);
    var t := Push(s.transcript, m);
    var early := Early(AlgOf(suite), match psk case None => None case Some(a) => Some(a.data.psk));
    var secrets := SecretsFor(Mixed(early, Shared(ours.group, theirs.key, ours.key)), Hash(t, AlgOf(suite)).value);
    var opening := [Send(Plaintext, [m]), KeysReady(Handshake, secrets.client, secrets.server)];
    ms := FlightIs(cfg, s.(transcript := t), h, suite, psk.Some?, secrets, head + opening);
    var o := Reply(cfg, s, h, suite, theirs, ours, psk, d, head);
    assert t.items == before + Wholes([ClientHello(h), m]);
    events := o.events[|head|..];
    assert o.events == head + events;
    AlgIs(suite);
  }

  lemma AlgIs(suite: nat)
    ensures AlgOf(suite) == if suite == 0x1302 then Sha384 else Sha256
  {
  }

  /** A call that reads a hello which settles everything, and does not fail, says the transport extension and the
      early-data keys it earned, and then the answer; it resumes the ticket that extended, if one did. */
  lemma WelcomedIsAnswered(cfg: Config, s: Server, h: Hello, d: Draw, suite: nat, share: Share, alpn: Option<nat>)
    returns (psk: Option<nat>, secret: Option<Secret>, ms: seq<Message>, events: seq<Event>)
    requires Inv(cfg, s) && Settles(cfg, s, h, suite, share, alpn) && OnClientHello(cfg, s, h, d).Next?
    ensures ResumesWith(cfg, s, h, suite, alpn, d.now, psk)
    ensures forall k :: secret == Some(k) <==> Earns(cfg, s, h, suite, alpn, d, k)
    ensures OnClientHello(cfg, s, h, d).events == Head(cfg.quic(h), secret) + events
    ensures Answered(cfg, s, h, suite, share, alpn, d, psk, secret.Some?, ms, events)
  {
    hide Inv, OnClientHello, TryPsk, Grant, Opens, Grants, Reply, Answered, StartsWith, Earns;
    TakesIff(cfg, s, h, d, suite);
    var r := Chosen(s, suite);
    secret := AcceptStarts(cfg, s, h, suite, share, alpn, d);
    var tried := TryPsk(cfg, r, h, AlgOf(suite), alpn, d.now);
    var accepted := AcceptedOf(tried);
    psk := KeyIn(accepted);
    var window := Admit(cfg, h.early, accepted, suite, d);
    var t := Push(r.transcript, ClientHello(h));
    EarnsIffAdmitted(cfg, s, h, suite, alpn, d);
    assert secret.Some? <==> window.remaining.Some? by {
      if secret.Some? {
        assert Earns(cfg, s, h, suite, alpn, d, secret.value);
      }
    }
    var head := QuicEvents(cfg.quic(h)) + EarlyEvents(accepted, window.remaining.Some?, t);
    ms, events := ReplyIs(cfg, r.(transcript := t, alpn := alpn, early := window), h, suite, share, accepted, d, head,
                          s.transcript.items, alpn);
    HeadIs(cfg, s, h, suite, alpn, d, secret);
    ResumptionIs(cfg, s, h, suite, alpn, d.now);
  }

  /** The opening events are the extension and the secret earned. */
  lemma HeadIs(cfg: Config, s: Server, h: Hello, suite: nat, alpn: Option<nat>, d: Draw, secret: Option<Secret>)
    requires Preferred(h.suites, suite)
    requires forall k :: secret == Some(k) <==> Earns(cfg, s, h, suite, alpn, d, k)
    ensures var r := Chosen(s, suite);
            var accepted := AcceptedOf(TryPsk(cfg, r, h, AlgOf(suite), alpn, d.now));
            var window := Admit(cfg, h.early, accepted, suite, d);
            QuicEvents(cfg.quic(h))
            + EarlyEvents(accepted, window.remaining.Some?, Push(r.transcript, ClientHello(h))) ==
            Head(cfg.quic(h), secret)
  {
    hide TryPsk, Grant, Opens, Grants;
    var r := Chosen(s, suite);
    var tried := TryPsk(cfg, r, h, AlgOf(suite), alpn, d.now);
    EarnsIffAdmitted(cfg, s, h, suite, alpn, d);
    NoGrant(cfg, h.early, suite, d);
    if secret.Some? {
      assert Earns(cfg, s, h, suite, alpn, d, secret.value);
    }
    if tried.GoodPsk? {
      var data := tried.accepted.data;
      OpensIff(cfg, s, h, suite, alpn, d.now, data);
      GrantsIff(cfg, h, suite, data, d);
      if Grant(cfg, h.early, AcceptedOf(tried), suite, d).Some? {
        assert Earns(cfg, s, h, suite, alpn, d, EarlySecret(data.psk, s.transcript.items, h));
      }
    }
  }

  lemma ResumptionIs(cfg: Config, s: Server, h: Hello, suite: nat, alpn: Option<nat>, now: nat)
    requires Preferred(h.suites, suite) && !TryPsk(cfg, Chosen(s, suite), h, AlgOf(suite), alpn, now).BadPsk?
    ensures var accepted := AcceptedOf(TryPsk(cfg, Chosen(s, suite), h, AlgOf(suite), alpn, now));
            ResumesWith(cfg, s, h, suite, alpn, now, KeyIn(accepted))
  {
    hide TryPsk, Opens;
    var tried := TryPsk(cfg, Chosen(s, suite), h, AlgOf(suite), alpn, now);
    if tried.GoodPsk? {
      OpensIff(cfg, s, h, suite, alpn, now, tried.accepted.data);
    } else {
      NoneUsable(cfg, s, h, suite, alpn, now);
    }
  }

  lemma NoneUsable(cfg: Config, s: Server, h: Hello, suite: nat, alpn: Option<nat>, now: nat)
    requires Preferred(h.suites, suite) && TryPsk(cfg, Chosen(s, suite), h, AlgOf(suite), alpn, now).NoPsk?
    ensures forall data :: !Usable(cfg, h, suite, alpn, now, data)
  {
  }

  /** Over every run: so is every hello a call welcomes without failing. In particular a usable ticket whose binder
      its key did not make is never passed over: the call that reads it fails. */
  lemma WelcomeInRun(cfg: Config, calls: seq<Call>, i: nat, h: Hello, suite: nat, share: Share, alpn: Option<nat>)
    returns (psk: Option<nat>, secret: Option<Secret>, ms: seq<Message>, events: seq<Event>)
    requires i < |calls| && Welcomes(cfg, At(cfg, calls, i), calls[i], h, suite, share, alpn)
    requires !At(cfg, calls, i + 1).phase.Failed?
    ensures ResumesWith(cfg, At(cfg, calls, i), h, suite, alpn, calls[i].input.draw.now, psk)
    ensures forall k :: secret == Some(k) <==> Earns(cfg, At(cfg, calls, i), h, suite, alpn, calls[i].input.draw, k)
    ensures Said(cfg, calls, i) == Head(cfg.quic(h), secret) + events
    ensures Answered(cfg, At(cfg, calls, i), h, suite, share, alpn, calls[i].input.draw, psk, secret.Some?, ms, events)
  {
    hide Run, Inv, Handle, Settles, Answered, Earns, ResumesWith;
    FreshHolds(cfg);
    RunKeeps(cfg, Fresh(), calls[..i]);
    assert calls[..i + 1] == calls[..i] + [calls[i]];
    RunSnoc(cfg, Fresh(), calls[..i], calls[i]);
    OnlyAwaitingSettles(cfg, At(cfg, calls, i));
    HandlesHello(cfg, At(cfg, calls, i), h, calls[i].input.draw);
    psk, secret, ms, events := WelcomedIsAnswered(cfg, At(cfg, calls, i), h, calls[i].input.draw, suite, share, alpn);
  }

  // ------------------------------------------------------------------ asking again

  /** The hello is taken but holds no share the server agrees on: it asks for one, once, of the group it prefers,
      and pins everything else of the hello. */
  lemma AsksAgain(cfg: Config, s: Server, h: Hello, d: Draw, suite: nat)
    requires Inv(cfg, s) && cfg.parse(h).Some? && Takes(cfg, s, h, suite, cfg.parse(h).value)
    requires cfg.parse(h).value.selected.None?
    ensures !s.hrrDone
    ensures cfg.fingerprint(h).None? ==> OnClientHello(cfg, s, h, d) == Fail([])
    ensures cfg.fingerprint(h).Some? ==>
            var (o, group) := (OnClientHello(cfg, s, h, d), cfg.parse(h).value.retryGroup);
            var m := ServerHello(0x0303, RetryRandom, h.session, suite, 0,
                                 [Versions(Some(0x0304)), KeyShare(None, Some(group))]);
            && o.Next? && o.events == [Send(Plaintext, [m])] && o.server.hrrDone
            && o.server.phase.ExpectClientHello?
            && o.server.pin == Some(Pin(cfg.fingerprint(h).value, group)) && o.server.traffic == Selected(suite)
  {
    hide Inv, OnClientHello, Takes, Preferred;
    NotYetAsked(cfg, s, h, suite);
    TakesIff(cfg, s, h, d, suite);
  }

  lemma NotYetAsked(cfg: Config, s: Server, h: Hello, suite: nat)
    requires cfg.parse(h).Some? && Takes(cfg, s, h, suite, cfg.parse(h).value)
    requires cfg.parse(h).value.selected.None?
    ensures !s.hrrDone && s.phase.ExpectClientHello?
  {
  }

  /** The call read this hello, took it, and asked for a share of the pinned group. */
  ghost predicate AskedFor(cfg: Config, s: Server, call: Call, h: Hello, suite: nat, pin: Pin)
  {
    && call.input.Read? && call.input.epoch.Plaintext? && call.input.message == Some(ClientHello(h)) && !s.hrrDone
    && cfg.parse(h).Some? && Takes(cfg, s, h, suite, cfg.parse(h).value) && cfg.parse(h).value.selected.None?
    && cfg.fingerprint(h) == Some(pin.fingerprint) && cfg.parse(h).value.retryGroup == pin.group
  }

  /** A server that waits for a hello, after asking, got there by such a call. */
  ghost predicate Asked(cfg: Config, calls: seq<Call>, pin: Pin, suite: nat)
  {
    exists j, h :: 0 <= j < |calls| && AskedFor(cfg, At(cfg, calls, j), calls[j], h, suite, pin)
  }

  lemma StepPins(cfg: Config, s: Server, call: Call)
    requires Inv(cfg, s)
    ensures var next := Step(cfg, s, call.input, call.room).0;
            next.phase.ExpectClientHello? && next.hrrDone ==>
            && next.pin.Some? && next.traffic.Selected?
            && if s.hrrDone then s.phase.ExpectClientHello? && next.pin == s.pin && next.traffic == s.traffic
               else exists h :: AskedFor(cfg, s, call, h, next.traffic.suite, next.pin.value)
  {
    hide Inv, OnClientHello, Takes, Charge;
    var input := call.input;
    var next := Step(cfg, s, input, call.room).0;
    if next.phase.ExpectClientHello? && next.hrrDone && !s.phase.Failed? {
      NoWayBack(cfg, s, input);
      StepKeeps(cfg, s, input, call.room);
      PinnedInv(cfg, next);
      if input.Read? {
        var h := input.message.value.hello;
        var o := OnClientHello(cfg, s, h, input.draw);
        assert o.Next? && o.server == next;
        TakesIff(cfg, s, h, input.draw, 0);
        var suite: nat :| cfg.parse(h).Some? && Takes(cfg, s, h, suite, cfg.parse(h).value);
        if cfg.parse(h).value.selected.None? {
          AsksAgain(cfg, s, h, input.draw, suite);
          assert AskedFor(cfg, s, call, h, suite, next.pin.value);
        } else {
          TakenMoves(cfg, s, h, input.draw, suite);
        }
      }
    }
  }

  lemma TakenMoves(cfg: Config, s: Server, h: Hello, d: Draw, suite: nat)
    requires Inv(cfg, s) && cfg.parse(h).Some? && Takes(cfg, s, h, suite, cfg.parse(h).value)
    requires cfg.parse(h).value.selected.Some? && OnClientHello(cfg, s, h, d).Next?
    ensures !OnClientHello(cfg, s, h, d).server.phase.ExpectClientHello?
  {
    hide Inv, OnClientHello, Accept;
    TakesIff(cfg, s, h, d, suite);
    AcceptMoves(cfg, Chosen(s, suite), h, suite, cfg.parse(h).value.selected.value, d);
  }

  lemma PinnedInv(cfg: Config, s: Server)
    requires Inv(cfg, s) && s.phase.ExpectClientHello? && s.hrrDone
    ensures s.pin.Some? && s.traffic.Selected?
  {
  }

  /** Over every run: a server that has asked for another hello holds the fingerprint of the first one it took, the
      group it asked for and the suite it chose. With `Takes`, whatever hello it accepts next agrees with that one. */
  lemma {:induction false} SecondHelloIsPinned(cfg: Config, calls: seq<Call>, i: nat)
    requires i <= |calls|
    ensures var s := At(cfg, calls, i);
            s.phase.ExpectClientHello? && s.hrrDone ==>
            s.pin.Some? && s.traffic.Selected? && Asked(cfg, calls, s.pin.value, s.traffic.suite)
    decreases i
  {
    hide Run, Step, Inv, AskedFor;
    if i == 0 {
      assert calls[..0] == [];
      NoCalls(cfg, Fresh());
    } else {
      SecondHelloIsPinned(cfg, calls, i - 1);
      assert calls[..i] == calls[..i - 1] + [calls[i - 1]];
      RunSnoc(cfg, Fresh(), calls[..i - 1], calls[i - 1]);
      FreshHolds(cfg);
      RunKeeps(cfg, Fresh(), calls[..i - 1]);
      StepPins(cfg, At(cfg, calls, i - 1), calls[i - 1]);
    }
  }

  // ------------------------------------------------------- messages in turn, and tickets

  /** The message a server waits for, and the epoch it must come in. */
  ghost predicate Awaited(s: Server, epoch: Epoch, m: Message)
  {
    match m
    case ClientHello(_) => s.phase.ExpectClientHello? && epoch.Plaintext?
    case EndOfEarlyData => s.phase.ExpectEndOfEarlyData? && epoch.Handshake?
    case Certificate(_) => s.phase.ExpectClientCertificate? && epoch.Handshake?
    case CertificateVerify(_, _) => s.phase.ExpectClientCertVerify? && epoch.Handshake?
    case Finished(_) => s.phase.ExpectClientFinished? && epoch.Handshake?
    case KeyUpdate(_) => s.phase.Done? && epoch.Application?
    case _ => false
  }

  /** Over every run: a server survives no message but the one it waited for, in that message's own epoch. */
  lemma ReadsInTurn(cfg: Config, calls: seq<Call>, i: nat)
    requires i < |calls| && calls[i].input.Read? && !At(cfg, calls, i + 1).phase.Failed?
    ensures calls[i].input.message.Some?
    ensures Awaited(At(cfg, calls, i), calls[i].input.epoch, calls[i].input.message.value)
  {
    hide Run, OnClientHello, StoredIdentity, AwaitFinished;
    assert calls[..i + 1] == calls[..i] + [calls[i]];
    RunSnoc(cfg, Fresh(), calls[..i], calls[i]);
  }

  /** The call reads the client Finished that is expected, under SHA-256 and with ticket keys at hand, seals a
      ticket, and the sink has room for both events. */
  ghost predicate IssuesTicket(cfg: Config, s: Server, call: Call, content: nat)
  {
    && s.phase.ExpectClientFinished? && call.input.Read? && call.input.epoch.Handshake?
    && call.input.message == Some(Finished(s.phase.verifyData))
    && cfg.hasKeys && !s.traffic.NoSuite? && s.traffic.suite != 0x1302
    && cfg.ticket(call.input.draw.nonce) == Some(content) && call.room >= 2
  }

  /** After the handshake, in the application epoch, the call reads a key update that is in order. */
  ghost predicate UpdatesKeys(cfg: Config, s: Server, call: Call, content: nat)
  {
    && s.phase.Done? && call.input.Read? && call.input.epoch.Application? && call.room >= 1
    && call.input.message.Some? && call.input.message.value.KeyUpdate?
    && cfg.keyUpdate(call.input.message.value.content) == Some(content)
  }

  /** Events before the handshake is done: neither a ticket nor a post-handshake event. */
  ghost predicate Unissued(events: seq<Event>)
  {
    forall i :: 0 <= i < |events| ==> !events[i].PostHandshake? && (events[i].Send? ==> !events[i].epoch.Application?)
  }

  lemma ReplyUnissued(cfg: Config, s: Server, h: Hello, suite: nat, theirs: Share, ours: Share, psk: Option<Accepted>,
                      d: Draw, events: seq<Event>)
    requires Unissued(events)
    ensures Unissued(Reply(cfg, s, h, suite, theirs, ours, psk, d, events).events)
  {
    hide Credentials, HelloMessage, NextPhase;
  }

  lemma AcceptUnissued(cfg: Config, s: Server, h: Hello, suite: nat, share: Share, d: Draw)
    ensures Unissued(Accept(cfg, s, h, suite, share, d).events)
  {
    hide TryPsk, Grant, Reply;
    if cfg.alpn(h).Some? && d.key.Some? {
      var alpn := cfg.alpn(h).value;
      var psk := AcceptedOf(TryPsk(cfg, s, h, AlgOf(suite), alpn, d.now));
      var window := Admit(cfg, h.early, psk, suite, d);
      var t := Push(s.transcript, ClientHello(h));
      ReplyUnissued(cfg, s.(transcript := t, alpn := alpn, early := window), h, suite, share,
                    Share(share.group, d.key.value), psk, d,
                    QuicEvents(cfg.quic(h)) + EarlyEvents(psk, window.remaining.Some?, t));
    }
  }

  lemma HelloUnissued(cfg: Config, s: Server, h: Hello, d: Draw)
    ensures Unissued(OnClientHello(cfg, s, h, d).events)
  {
    hide Accept, KeepsPin;
    if cfg.parse(h).Some? && PickSuite(h.suites).Some? && cfg.parse(h).value.selected.Some? {
      var suite := PickSuite(h.suites).value;
      var (t, traffic) := (Select(s.transcript, AlgOf(suite)), SelectSuite(s.traffic, suite));
      if t.Some? && traffic.Some? {
        AcceptUnissued(cfg, s.(transcript := t.value, traffic := traffic.value), h, suite,
                       cfg.parse(h).value.selected.value, d);
      }
    }
  }

  lemma OthersUnissued(cfg: Config, s: Server, input: Input)
    requires !s.phase.ExpectClientFinished? && !s.phase.Done?
    ensures Unissued(Handle(cfg, s, input).events)
  {
    hide OnClientHello, StoredIdentity, Charge;
    if s.phase.ExpectClientHello? && input.Read? && input.message.Some? && input.message.value.ClientHello? {
      HelloUnissued(cfg, s, input.message.value.hello, input.draw);
    }
  }

  lemma CutUnissued(events: seq<Event>, room: nat, content: nat)
    requires Unissued(events)
    ensures var cut := if |events| <= room then events else events[..room];
            Send(Application, [NewSessionTicket(content)]) !in cut && PostHandshake(content) !in cut
  {
  }

  /** The events of a client Finished that is awaited. */
  lemma FinishedIssues(cfg: Config, s: Server, m: Message, d: Draw)
    requires Inv(cfg, s) && s.phase.ExpectClientFinished? && m.Finished?
    ensures var o := OnClientFinished(cfg, s, m, s.phase.verifyData, d);
            var sealed := if cfg.hasKeys && s.traffic.suite != 0x1302 then cfg.ticket(d.nonce) else None;
            o.events == if m.mac != s.phase.verifyData then []
                        else if sealed.None? then [HandshakeDone]
                        else [HandshakeDone, Send(Application, [NewSessionTicket(sealed.value)])]
    ensures !s.traffic.NoSuite?
  {
    MasterAlg(cfg, s);
    AlgIs(s.traffic.suite);
    hide Inv;
  }

  lemma FinishedTells(cfg: Config, s: Server, call: Call, content: nat)
    requires Inv(cfg, s) && s.phase.ExpectClientFinished?
    ensures var events := Step(cfg, s, call.input, call.room).1;
            && (Send(Application, [NewSessionTicket(content)]) in events <==> IssuesTicket(cfg, s, call, content))
            && PostHandshake(content) !in events
  {
    hide Inv, OnClientFinished, Charge;
    var input := call.input;
    if input.Read? && input.epoch.Handshake? && input.message.Some? && input.message.value.Finished? {
      FinishedIssues(cfg, s, input.message.value, input.draw);
      var events := OnClientFinished(cfg, s, input.message.value, s.phase.verifyData, input.draw).events;
      if |events| == 2 && call.room >= 2 {
        assert events[1] in events;
      }
    }
  }

  lemma DoneTells(cfg: Config, s: Server, call: Call, content: nat)
    requires s.phase.Done?
    ensures var events := Step(cfg, s, call.input, call.room).1;
            && Send(Application, [NewSessionTicket(content)]) !in events
            && (PostHandshake(content) in events <==> UpdatesKeys(cfg, s, call, content))
  {
    hide Charge;
    var o := Handle(cfg, s, call.input);
    if |o.events| == 1 && call.room >= 1 {
      assert o.events[0] in o.events;
    }
  }

  lemma StepIssues(cfg: Config, s: Server, call: Call, content: nat)
    requires Inv(cfg, s)
    ensures var events := Step(cfg, s, call.input, call.room).1;
            && (Send(Application, [NewSessionTicket(content)]) in events <==> IssuesTicket(cfg, s, call, content))
            && (PostHandshake(content) in events <==> UpdatesKeys(cfg, s, call, content))
  {
    hide Inv, Handle, Unissued;
    if s.phase.ExpectClientFinished? {
      FinishedTells(cfg, s, call, content);
    } else if s.phase.Done? {
      DoneTells(cfg, s, call, content);
    } else {
      OthersUnissued(cfg, s, call.input);
      CutUnissued(Handle(cfg, s, call.input).events, call.room, content);
    }
  }

  lemma MasterAlg(cfg: Config, s: Server)
    requires Inv(cfg, s) && s.phase.ExpectClientFinished?
    ensures s.master.Some? && s.traffic.Active? && TermAlg(s.master.value) == AlgOf(s.traffic.suite)
  {
  }

  /** Over every run: tickets are sent, and key updates reported, exactly by such calls. */
  lemma TicketIff(cfg: Config, calls: seq<Call>, content: nat)
    ensures Send(Application, [NewSessionTicket(content)]) in Run(cfg, Fresh(), calls).1 <==>
            exists i :: 0 <= i < |calls| && IssuesTicket(cfg, At(cfg, calls, i), calls[i], content)
    ensures PostHandshake(content) in Run(cfg, Fresh(), calls).1 <==>
            exists i :: 0 <= i < |calls| && UpdatesKeys(cfg, At(cfg, calls, i), calls[i], content)
  {
    hide Run, Step, IssuesTicket, UpdatesKeys, Inv;
    SaidBySomeCall(cfg, calls, Send(Application, [NewSessionTicket(content)]));
    SaidBySomeCall(cfg, calls, PostHandshake(content));
    forall i | 0 <= i < |calls|
      ensures Send(Application, [NewSessionTicket(content)]) in Said(cfg, calls, i) <==>
              IssuesTicket(cfg, At(cfg, calls, i), calls[i], content)
      ensures PostHandshake(content) in Said(cfg, calls, i) <==> UpdatesKeys(cfg, At(cfg, calls, i), calls[i], content)
    {
      FreshHolds(cfg);
      RunKeeps(cfg, Fresh(), calls[..i]);
      StepIssues(cfg, At(cfg, calls, i), calls[i], content);
    }
  }
}
