/** What every run of the client keeps, and what its events prove. */
module ClientProofs {
  import opened Bytes
  import opened Symbols
  import opened ClientMachine

  // -------------------------------------------------------------- the transcript

  /** Items before the ServerHello: one hello, or the restart, the retry request and a second hello. */
  function Base(c: Client): nat
  {
    if c.hrrDone then 3 else 1
  }

  ghost predicate Hellos(items: seq<Item>, retried: bool)
  {
    if retried then
      |items| >= 3 && items[0].Restart? && IsRetry(items[1]) && IsHello(items[2])
    else
      |items| >= 1 && IsHello(items[0])
  }

  predicate IsHello(i: Item)
  {
    i.Whole? && i.m.ClientHello?
  }

  predicate IsRetry(i: Item)
  {
    i.Whole? && i.m.ServerHello? && i.m.random == RetryRandom
  }

  predicate IsServerHello(i: Item)
  {
    i.Whole? && i.m.ServerHello? && i.m.random != RetryRandom
  }

  /** The hello offered the ticket's identity under a binder with its key. */
  ghost predicate Offers(i: Item, identity: nat, psk: nat)
  {
    && IsHello(i) && i.m.hello.psk.Some?
    && i.m.hello.psk.value.identity == identity
    && i.m.hello.psk.value.binder.Binder? && i.m.hello.psk.value.binder.psk == psk
  }

  ghost predicate Resumes(c: Client, items: seq<Item>)
    requires Hellos(items, c.hrrDone)
  {
    c.resumption.Some? ==> Offers(items[Base(c) - 1], c.resumption.value.identity, c.resumption.value.psk)
  }

  ghost predicate AwaitingHello(c: Client)
  {
    && |c.transcript.items| == Base(c) && Hellos(c.transcript.items, c.hrrDone) && Resumes(c, c.transcript.items)
    && c.pending.Some? && c.response.None? && c.exporter.None?
    && if c.hrrDone then c.traffic.Selected? && c.transcript.selected == Some(AlgOf(c.traffic.suite))
       else c.traffic.NoSuite? && c.transcript.selected.None?
  }

  // ------------------------------------------------------------ after the hello

  /** The secrets come from the transcript up to the ServerHello, the shared secret and,
      when resuming, the key whose identity was offered and selected. */
  ghost predicate Keyed(c: Client, secrets: HandshakeSecrets)
  {
    && c.traffic.Selected? && c.transcript.selected == Some(AlgOf(c.traffic.suite)) && c.exporter.None?
    && |c.transcript.items| > Base(c) && Hellos(c.transcript.items, c.hrrDone)
    && IsServerHello(c.transcript.items[Base(c)])
    && c.transcript.items[Base(c)].m.suite == c.traffic.suite
    && secrets.schedule.Mixed? && secrets.schedule.early.Early? && secrets.schedule.early.alg == AlgOf(c.traffic.suite)
    && secrets == SecretsFor(secrets.schedule, Digest(AlgOf(c.traffic.suite), c.transcript.items[..Base(c) + 1]))
    && (c.pskUsed <==> secrets.schedule.early.psk.Some?)
    && (c.pskUsed ==> PskSelected(c.transcript.items[Base(c)], c.transcript.items[Base(c) - 1],
                                  secrets.schedule.early.psk.value))
  }

  ghost predicate PskSelected(hello: Item, offer: Item, psk: nat)
  {
    && IsServerHello(hello) && FindPsk(hello.m.extensions, 0) == Some(SelectedPsk(Some(0)))
    && exists identity :: Offers(offer, identity, psk)
  }

  predicate IsExtensions(i: Item) { i.Whole? && i.m.EncryptedExtensions? }

  predicate IsRequest(i: Item) { i.Whole? && i.m.CertificateRequest? }

  predicate IsCertificate(i: Item) { i.Whole? && i.m.Certificate? }

  predicate IsVerify(i: Item) { i.Whole? && i.m.CertificateVerify? }

  predicate IsFinished(i: Item) { i.Whole? && i.m.Finished? }

  /** Where the server's Certificate stands: after the extensions and the request, if any. */
  function CertificateAt(c: Client): nat
  {
    Base(c) + (if c.response.Some? then 3 else 2)
  }

  ghost predicate Opened(c: Client)
  {
    && |c.transcript.items| >= CertificateAt(c) && IsExtensions(c.transcript.items[Base(c) + 1])
    && (c.response.Some? ==> IsRequest(c.transcript.items[Base(c) + 2]))
  }

  /** The chain proves this leaf at this time: it is the pinned Ed25519 key itself, or it validates to it. */
  ghost predicate Proves(cfg: Config, chain: nat, now: nat, leaf: Leaf)
  {
    match cfg.verifier
    case Pinned(key) => cfg.pinnedKey(chain) == Some(key) && leaf == Leaf(0, key)
    case Store => cfg.validate(chain, now) == Some(leaf)
  }

  /** The chain was validated to this leaf at some time. */
  ghost predicate Validated(cfg: Config, chain: nat, leaf: Leaf)
  {
    exists now :: Proves(cfg, chain, now, leaf)
  }

  ghost predicate AwaitingVerify(cfg: Config, c: Client, place: Place)
  {
    && Opened(c) && !c.pskUsed && |c.transcript.items| == CertificateAt(c) + 1
    && IsCertificate(c.transcript.items[CertificateAt(c)])
    && KeptLeaf(cfg, c, place).Some?
    && Validated(cfg, c.transcript.items[CertificateAt(c)].m.chain, KeptLeaf(cfg, c, place).value)
  }

  /** One Certificate, then one CertificateVerify whose signature over everything before it
      was checked with the validated leaf's key. */
  ghost predicate Vouched(cfg: Config, items: seq<Item>, at: nat, alg: Alg)
  {
    && |items| == at + 2 && IsCertificate(items[at]) && IsVerify(items[at + 1])
    && exists leaf :: Validated(cfg, items[at].m.chain, leaf)
                      && cfg.schemeOffered(items[at + 1].m.scheme)
                      && cfg.verify(leaf, items[at + 1].m.scheme, Digest(alg, items[..at + 1]),
                                    items[at + 1].m.signature)
  }

  /** The server is known: by the selected PSK, or by its certificate and signature. */
  ghost predicate Authenticated(cfg: Config, c: Client)
    requires c.traffic.Selected?
  {
    && Opened(c)
    && if c.pskUsed then c.response.None? && |c.transcript.items| == CertificateAt(c)
       else Vouched(cfg, c.transcript.items, CertificateAt(c), AlgOf(c.traffic.suite))
  }

  // ----------------------------------------------------------------------- done

  /** The hash both application secrets were derived over. */
  function FinishedHash(c: Client): Digest
    requires c.traffic.Active?
  {
    c.traffic.client.hash
  }

  /** Every secret of a finished client, as its transcript determines them. */
  ghost predicate Settled(c: Client)
  {
    && c.traffic.Active? && c.transcript.selected == Some(AlgOf(c.traffic.suite))
    && var (alg, h, master, items) := (AlgOf(c.traffic.suite), FinishedHash(c), c.traffic.client.from,
                                       c.transcript.items);
      && master.Master? && h.alg == alg
      && c.traffic == ActiveTraffic(c.traffic.suite, master, h)
      && c.exporter == Some(Derived(master, Exporter, h))
      && c.resumptionMaster == Some(Derived(master, Resumption, Digest(alg, items)))
      && h.items < items && Anchored(h.items, Base(c), c.traffic.suite, master.mixed)
      && Attested(items, alg, master.mixed, ClientHandshake)
  }

  /** The items end in a Finished over everything before it, under a secret of this schedule. */
  ghost predicate Attested(items: seq<Item>, alg: Alg, schedule: Term, usage: Label)
  {
    && items != [] && IsFinished(items[|items| - 1])
    && var mac := items[|items| - 1].m.mac;
      && mac.Mac? && mac.key.from == schedule && mac.key.usage == usage
      && mac.hash == Digest(alg, items[..|items| - 1])
  }

  /** The hash the handshake secrets were derived over: everything up to the ServerHello. */
  function HelloHash(items: seq<Item>, base: nat, suite: nat): Digest
    requires base < |items|
  {
    Digest(AlgOf(suite), items[..base + 1])
  }

  /** The items hold a ServerHello with this suite, and end in a server Finished under the
      handshake secret of this schedule at that hello. */
  ghost predicate Anchored(items: seq<Item>, base: nat, suite: nat, schedule: Term)
  {
    && base < |items| && IsServerHello(items[base]) && items[base].m.suite == suite
    && Attested(items, AlgOf(suite), schedule, ServerHandshake)
    && items[|items| - 1].m.mac.key == SecretsFor(schedule, HelloHash(items, base, suite)).server
  }

  /** The handshake secrets a client holds, or held. */
  ghost function Handshaken(c: Client): Option<HandshakeSecrets>
  {
    match c.phase
    case ExpectEncryptedExtensions(secrets) => Some(secrets)
    case ExpectCertificate(secrets) => Some(secrets)
    case ExpectCertificateVerify(secrets, _) => Some(secrets)
    case ExpectServerFinished(secrets) => Some(secrets)
    case Done =>
      if c.traffic.Active? && c.traffic.client.from.Master? && Base(c) < |FinishedHash(c).items|
      then Some(SecretsFor(c.traffic.client.from.mixed, HelloHash(FinishedHash(c).items, Base(c), c.traffic.suite)))
      else None
    case _ => None
  }

  ghost predicate Inv(cfg: Config, c: Client)
  {
    match c.phase
    case Initial => c.transcript == EMPTY && !c.hrrDone && c.traffic.NoSuite? && c.response.None? && c.exporter.None?
    case ExpectServerHello => AwaitingHello(c)
    case ExpectEncryptedExtensions(secrets) =>
      Keyed(c, secrets) && |c.transcript.items| == Base(c) + 1 && c.response.None?
    case ExpectCertificate(secrets) =>
      Keyed(c, secrets) && Opened(c) && !c.pskUsed && |c.transcript.items| == CertificateAt(c)
    case ExpectCertificateVerify(secrets, place) => Keyed(c, secrets) && AwaitingVerify(cfg, c, place)
    case ExpectServerFinished(secrets) => Keyed(c, secrets) && Authenticated(cfg, c)
    case Done => Settled(c)
    case Failed => c.traffic.NoSuite? && c.exporter.None? && c.resumptionMaster.None?
  }

  // ------------------------------------------------------------- handler by handler

  ghost predicate Keeps(cfg: Config, o: Outcome)
  {
    o.Next? ==> Inv(cfg, o.client)
  }

  lemma BoundOffers(t: Transcript, h: Hello, offer: Option<(Ticket, nat)>)
    requires BoundHello(t, h, offer).Some? && offer.Some?
    requires h.psk == Some(Offer(offer.value.0.identity, offer.value.1, Blank))
    ensures Offers(Whole(ClientHello(BoundHello(t, h, offer).value)), offer.value.0.identity, offer.value.0.psk)
  {
  }

  lemma StartKeeps(cfg: Config, c: Client, d: Draw)
    requires c.phase.Initial? && Inv(cfg, c)
    ensures Keeps(cfg, Start(cfg, c, d))
  {
    hide BoundHello, Aged, SomeSha256, EarlyFor, EarlyEvents, Offers;
    var offer := Aged(if SomeSha256(cfg.suites) then c.resumption else None, d.now);
    var o := Start(cfg, c, d);
    if o.Next? && offer.Some? {
      var seeded := c.(random := d.random, session := d.session);
      BoundOffers(c.transcript,
                  PlainHello(cfg, seeded, Share(c.group, d.key.value), None, EarlyFor(cfg, offer).Some?, offer), offer);
    }
  }

  lemma RetryKeeps(cfg: Config, c: Client, m: Message, d: Draw)
    requires m.ServerHello? && m.random == RetryRandom && c.traffic == Traffic.Selected(m.suite)
    requires c.transcript.selected == Some(AlgOf(m.suite)) && c.response.None? && c.exporter.None?
    ensures Keeps(cfg, OnRetry(cfg, c, m, d))
  {
    hide BoundHello, Aged, ScanRetry, Offers, RetryRequest;
    var o := OnRetry(cfg, c, m, d);
    if o.Next? {
      var (group, cookie) := RetryRequest(c, m.extensions).value;
      var t := Push(Restarted(AlgOf(m.suite), Hash(c.transcript, AlgOf(m.suite)).value), m);
      AnswerKeeps(cfg, c.(transcript := t), group, cookie, d);
    }
  }

  lemma AnswerKeeps(cfg: Config, c: Client, group: Group, cookie: Option<nat>, d: Draw)
    requires c.traffic.Selected? && c.transcript.selected == Some(AlgOf(c.traffic.suite))
    requires |c.transcript.items| == 2 && c.transcript.items[0].Restart? && IsRetry(c.transcript.items[1])
    requires c.response.None? && c.exporter.None?
    ensures Keeps(cfg, AnswerRetry(cfg, c, group, cookie, d))
  {
  }

  lemma AgreeKeeps(cfg: Config, c: Client, m: Message, share: Share, psk: bool)
    requires m.ServerHello? && m.random != RetryRandom && c.traffic == Traffic.Selected(m.suite)
    requires c.transcript.selected == Some(AlgOf(m.suite)) && c.response.None? && c.exporter.None?
    requires |c.transcript.items| == Base(c) && Hellos(c.transcript.items, c.hrrDone) && Resumes(c, c.transcript.items)
    requires psk ==> FindPsk(m.extensions, 0) == Some(SelectedPsk(Some(0)))
    ensures Keeps(cfg, Agree(cfg, c, m, share, psk))
  {
    hide FindPsk, Offers;
    var o := Agree(cfg, c, m, share, psk);
    if o.Next? {
      var items := c.transcript.items + [Whole(m)];
      assert items[..Base(c) + 1] == items && items[..Base(c)] == c.transcript.items;
    }
  }

  lemma ServerHelloKeeps(cfg: Config, c: Client, m: Message, d: Draw)
    requires m.ServerHello? && AwaitingHello(c)
    ensures Keeps(cfg, OnServerHello(cfg, c, m, d))
  {
    hide OnRetry, Agree, ServerShare, FindPsk, Inv, Offers;
    match Selecting(cfg, c, m)
    case None =>
    case Some(chosen) =>
      if m.random == RetryRandom {
        RetryKeeps(cfg, chosen, m, d);
      } else if m.random != DowngradeRandom {
        match (ServerShare(m.extensions), PskChoice(c, AlgOf(m.suite), m.extensions))
        case (Some(share), Some(psk)) => AgreeKeeps(cfg, chosen, m, share, psk);
        case _ =>
      }
  }

  /** Pushing a message keeps the hello part and the keys. */
  lemma PushKeyed(c: Client, secrets: HandshakeSecrets, m: Message)
    requires Keyed(c, secrets)
    ensures Keyed(c.(transcript := Push(c.transcript, m)), secrets)
  {
  }

  /** Only these fields matter to the keys. */
  lemma SameKeyed(c: Client, d: Client, secrets: HandshakeSecrets)
    requires Keyed(c, secrets) && d.transcript == c.transcript && d.traffic == c.traffic && d.exporter == c.exporter
    requires d.hrrDone == c.hrrDone && d.pskUsed == c.pskUsed
    ensures Keyed(d, secrets)
  {
  }

  lemma ExtensionsKeep(cfg: Config, c: Client, m: Message, secrets: HandshakeSecrets)
    requires m.EncryptedExtensions? && Keyed(c, secrets) && |c.transcript.items| == Base(c) + 1 && c.response.None?
    ensures Keeps(cfg, OnEncryptedExtensions(cfg, c, m, secrets))
  {
    hide Keyed, EarlyReply;
    var o := OnEncryptedExtensions(cfg, c, m, secrets);
    if o.Next? {
      PushKeyed(c, secrets, m);
      SameKeyed(c.(transcript := Push(c.transcript, m)), o.client, secrets);
      HasTraffic(o.client, secrets);
    }
  }

  lemma HasTraffic(c: Client, secrets: HandshakeSecrets)
    requires Keyed(c, secrets)
    ensures c.traffic.Selected? && c.transcript.selected == Some(AlgOf(c.traffic.suite))
  {
  }

  lemma RequestKeeps(cfg: Config, c: Client, m: Message)
    requires m.CertificateRequest? && c.phase.ExpectCertificate? && Inv(cfg, c)
    ensures Keeps(cfg, OnCertificateRequest(cfg, c, m))
  {
    hide Keyed;
    var o := OnCertificateRequest(cfg, c, m);
    if o.Next? {
      PushKeyed(c, c.phase.secrets, m);
      SameKeyed(c.(transcript := Push(c.transcript, m)), o.client, c.phase.secrets);
    }
  }

  lemma CertificateKeeps(cfg: Config, c: Client, m: Message, d: Draw)
    requires m.Certificate? && c.phase.ExpectCertificate? && Inv(cfg, c)
    ensures Keeps(cfg, OnCertificate(cfg, c, m, c.phase.secrets, d))
  {
    hide Keyed;
    var o := OnCertificate(cfg, c, m, c.phase.secrets, d);
    if o.Next? {
      PushKeyed(c, c.phase.secrets, m);
      SameKeyed(c.(transcript := Push(c.transcript, m)), o.client, c.phase.secrets);
      assert Proves(cfg, m.chain, d.now, ServerLeaf(cfg, m.chain, d.now).value);
    }
  }

  lemma VerifyKeeps(cfg: Config, c: Client, m: Message)
    requires m.CertificateVerify? && c.phase.ExpectCertificateVerify? && Inv(cfg, c)
    ensures Keeps(cfg, OnCertificateVerify(cfg, c, m, c.phase.secrets, c.phase.place))
  {
    hide Keyed, Validated, KeptLeaf;
    var o := OnCertificateVerify(cfg, c, m, c.phase.secrets, c.phase.place);
    HasTraffic(c, c.phase.secrets);
    if o.Next? {
      PushKeyed(c, c.phase.secrets, m);
      SameKeyed(c.(transcript := Push(c.transcript, m)), o.client, c.phase.secrets);
      var items := o.client.transcript.items;
      assert items[..CertificateAt(c) + 1] == c.transcript.items;
      var leaf := KeptLeaf(cfg, c, c.phase.place).value;
      assert Validated(cfg, items[CertificateAt(c)].m.chain, leaf);
    }
  }

  lemma {:induction false} PushAllExtends(t: Transcript, ms: seq<Message>)
    ensures PushAll(t, ms).selected == t.selected && t.items <= PushAll(t, ms).items
    decreases |ms|
  {
    if ms != [] {
      PushAllExtends(Push(t, ms[0]), ms[1..]);
    }
  }

  lemma LastIs(items: seq<Item>, m: Message)
    ensures (items + [Whole(m)])[|items|] == Whole(m) && (items + [Whole(m)])[..|items|] == items
  {
  }

  lemma FinishKeeps(cfg: Config, c: Client, secrets: HandshakeSecrets)
    requires c.traffic.Selected? && c.transcript.selected == Some(AlgOf(c.traffic.suite))
    requires secrets == SecretsFor(secrets.schedule, secrets.client.hash)
    requires Anchored(c.transcript.items, Base(c), c.traffic.suite, secrets.schedule)
    ensures Keeps(cfg, Finish(cfg, c, secrets))
  {
    hide ResponseMessages, EndOfEarly, EndOfEarlyEvents, Attested, Anchored, PushAll;
    var o := Finish(cfg, c, secrets);
    if o.Next? {
      var alg := AlgOf(c.traffic.suite);
      var t := PushAll(c.transcript, EndOfEarly(cfg, c));
      PushAllExtends(c.transcript, EndOfEarly(cfg, c));
      var messages := ResponseMessages(cfg, t, alg, c.response).value;
      PushAllExtends(t, messages);
      var u := PushAll(t, messages);
      ClosingFinished(u.items, alg, secrets);
    }
  }

  lemma ClosingFinished(items: seq<Item>, alg: Alg, secrets: HandshakeSecrets)
    requires secrets == SecretsFor(secrets.schedule, secrets.client.hash)
    ensures Attested(items + [Whole(Finished(FinishedMac(secrets.client, Digest(alg, items))))], alg, secrets.schedule,
                     ClientHandshake)
  {
  }

  lemma FinishedKeeps(cfg: Config, c: Client, m: Message)
    requires m.Finished? && c.phase.ExpectServerFinished? && Inv(cfg, c)
    ensures Keeps(cfg, OnServerFinished(cfg, c, m, c.phase.secrets))
  {
    hide Finish, Offers, Authenticated, Inv;
    var (secrets, o) := (c.phase.secrets, OnServerFinished(cfg, c, m, c.phase.secrets));
    FinishedPhase(cfg, c);
    if o.Next? {
      LastIs(c.transcript.items, m);
      assert (c.transcript.items + [Whole(m)])[..Base(c) + 1] == c.transcript.items[..Base(c) + 1];
      FinishKeeps(cfg, c.(transcript := Push(c.transcript, m)), secrets);
    }
  }

  lemma FinishedPhase(cfg: Config, c: Client)
    requires c.phase.ExpectServerFinished? && Inv(cfg, c)
    ensures Keyed(c, c.phase.secrets) && Authenticated(cfg, c)
  {
  }

  lemma DispatchKeeps(cfg: Config, c: Client, epoch: Epoch, m: Message, d: Draw)
    requires Inv(cfg, c) && !c.phase.Failed?
    ensures Keeps(cfg, Dispatch(cfg, c, epoch, m, d))
  {
    hide OnServerHello, OnEncryptedExtensions, OnCertificateRequest, OnCertificate, OnCertificateVerify,
         OnServerFinished,
         Keyed, Opened, AwaitingVerify, Authenticated, AwaitingHello, Settled;
    match (c.phase, m)
    case (ExpectServerHello, ServerHello(_, _, _, _, _, _)) => ServerHelloKeeps(cfg, c, m, d);
    case (ExpectEncryptedExtensions(secrets), EncryptedExtensions(_)) => ExtensionsKeep(cfg, c, m, secrets);
    case (ExpectCertificate(secrets), CertificateRequest(_)) => RequestKeeps(cfg, c, m);
    case (ExpectCertificate(secrets), Certificate(_)) => CertificateKeeps(cfg, c, m, d);
    case (ExpectCertificateVerify(secrets, place), CertificateVerify(_, _)) => VerifyKeeps(cfg, c, m);
    case (ExpectServerFinished(secrets), Finished(_)) => FinishedKeeps(cfg, c, m);
    case _ =>
  }

  /** Every call keeps the invariant, whatever it reads and wherever the sink stops it. */
  lemma StepKeeps(cfg: Config, c: Client, input: Input, room: nat)
    requires Inv(cfg, c)
    ensures Inv(cfg, Step(cfg, c, input, room).0)
  {
    hide Start, Dispatch, Keyed, Opened, AwaitingVerify, Authenticated, AwaitingHello, Settled;
    match input
    case StartNow(d) => if c.phase.Initial? { StartKeeps(cfg, c, d); }
    case Read(epoch, None, _) =>
    case Read(epoch, Some(m), d) => if !c.phase.Failed? { DispatchKeeps(cfg, c, epoch, m, d); }
  }
}
