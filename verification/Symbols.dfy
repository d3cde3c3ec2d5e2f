/** Handshake messages, transcripts and secrets as terms: hashing, key derivation,
    MACs and key agreement are injective because they are constructors. */
module Symbols {
  import opened Bytes

  datatype Alg = Sha256 | Sha384

  datatype Epoch = Plaintext | EarlyData | Handshake | Application

  datatype Mode = Tls | Quic

  type Group = nat

  const TLS_1_2: nat := 0x0303
  const TLS_1_3: nat := 0x0304
  const GROUPS: seq<Group> := [0x1d, 0x17, 0x11ec]
  const SUITES: seq<nat> := [0x1301, 0x1303, 0x1302]

  function AlgOf(suite: nat): Alg
  {
    if suite == 0x1302 then Sha384 else Sha256
  }

  // ---------------------------------------------------------------------- terms

  /** What both sides of a key agreement compute from the two public values. */
  datatype Shared = Shared(group: Group, clientKey: nat, serverKey: nat)

  /** The key schedule: an early secret, mixed with the shared secret, then the master. */
  datatype Term = Early(alg: Alg, psk: Option<nat>) | Mixed(early: Term, dhe: Shared) | Master(mixed: Term)

  datatype Label =
    | ClientHandshake | ServerHandshake | ClientTraffic | ServerTraffic | Exporter | Resumption | ClientEarly

  datatype Secret = Derived(from: Term, usage: Label, hash: Digest)

  datatype Digest = Digest(alg: Alg, items: seq<Item>)

  /** A message, a ClientHello cut before its binders, or the hash standing for ClientHello1. */
  datatype Item = Whole(m: Message) | Cut(m: Message) | Restart(h: Digest)

  datatype Mac = Mac(key: Secret, hash: Digest) | Junk(n: nat)

  datatype Binder = Binder(psk: nat, hash: Digest) | Blank | Forged(n: nat)

  datatype Share = Share(group: Group, key: nat)

  datatype Offer = Offer(identity: nat, age: nat, binder: Binder)

  datatype Random = RetryRandom | DowngradeRandom | Ordinary(n: nat)

  /** A ServerHello extension, with what its body parses to. */
  datatype Extension =
    | Versions(version: Option<nat>)
    | KeyShare(share: Option<Share>, retry: Option<Group>)
    | SelectedPsk(index: Option<nat>)
    | Cookie(cookie: Option<nat>)
    | Unexpected(ty: nat)

  /** A ClientHello: what negotiation reads, and the rest as one opaque value. */
  datatype Hello = Hello(
    version: nat, random: nat, session: nat, suites: seq<nat>, compression: bool, shares: seq<Share>,
    cookie: Option<nat>, early: bool, psk: Option<Offer>, rest: nat)

  datatype Message =
    | ClientHello(hello: Hello)
    | ServerHello(version: nat, random: Random, session: nat, suite: nat, compression: nat, extensions: seq<Extension>)
    | EncryptedExtensions(content: nat)
    | CertificateRequest(content: nat)
    | Certificate(chain: nat)
    | CertificateVerify(scheme: nat, signature: nat)
    | Finished(mac: Mac)
    | EndOfEarlyData
    | KeyUpdate(content: nat)
    | NewSessionTicket(content: nat)

  datatype Event =
    | Send(epoch: Epoch, messages: seq<Message>)
    | KeysReady(epoch: Epoch, read: Secret, write: Secret)
    | PeerExtension(data: nat)
    | ZeroRttKeys(secret: Secret)
    | EarlyDataAccepted
    | EarlyDataRejected
    | PostHandshake(content: nat)
    | HandshakeDone

  /** The read and write secrets the events install in an epoch, in order. */
  function KeysIn(events: seq<Event>, epoch: Epoch): seq<(Secret, Secret)>
  {
    if events == [] then []
    else
      (match events[0] case KeysReady(e, read, write) => if e == epoch then [(read, write)] else [] case _ => [])
      + KeysIn(events[1..], epoch)
  }

  lemma {:induction false} KeysAppend(a: seq<Event>, b: seq<Event>, epoch: Epoch)
    ensures KeysIn(a + b, epoch) == KeysIn(a, epoch) + KeysIn(b, epoch)
    decreases |a|
  {
    if a == [] {
      assert a + b == b;
    } else {
      assert (a + b)[1..] == a[1..] + b;
      KeysAppend(a[1..], b, epoch);
    }
  }

  /** Events that install no keys. */
  lemma {:induction false} NoKeys(events: seq<Event>, epoch: Epoch)
    requires forall i :: 0 <= i < |events| ==> !events[i].KeysReady? || events[i].epoch != epoch
    ensures KeysIn(events, epoch) == []
    decreases |events|
  {
    if events != [] {
      NoKeys(events[1..], epoch);
    }
  }

  /** The early-data secrets the events install, in order. */
  function EarlySecrets(events: seq<Event>): seq<Secret>
  {
    if events == [] then []
    else (match events[0] case ZeroRttKeys(secret) => [secret] case _ => []) + EarlySecrets(events[1..])
  }

  lemma {:induction false} EarlyAppend(a: seq<Event>, b: seq<Event>)
    ensures EarlySecrets(a + b) == EarlySecrets(a) + EarlySecrets(b)
    decreases |a|
  {
    if a == [] {
      assert a + b == b;
    } else {
      assert (a + b)[1..] == a[1..] + b;
      EarlyAppend(a[1..], b);
    }
  }

  lemma OneSecret(e: Event)
    ensures EarlySecrets([e]) == match e case ZeroRttKeys(secret) => [secret] case _ => []
  {
    assert [e][1..] == [];
  }

  lemma {:induction false} EarlyIff(events: seq<Event>, secret: Secret)
    ensures secret in EarlySecrets(events) <==> ZeroRttKeys(secret) in events
    decreases |events|
  {
    if events != [] {
      EarlyIff(events[1..], secret);
      assert events == [events[0]] + events[1..];
    }
  }

  /** What the events say about early data, in order: `true` where it was accepted. */
  function Verdicts(events: seq<Event>): seq<bool>
  {
    if events == [] then []
    else
      (match events[0] case EarlyDataAccepted => [true] case EarlyDataRejected => [false] case _ => [])
      + Verdicts(events[1..])
  }

  lemma {:induction false} VerdictsAppend(a: seq<Event>, b: seq<Event>)
    ensures Verdicts(a + b) == Verdicts(a) + Verdicts(b)
    decreases |a|
  {
    if a == [] {
      assert a + b == b;
    } else {
      assert (a + b)[1..] == a[1..] + b;
      VerdictsAppend(a[1..], b);
    }
  }

  lemma OneVerdict(e: Event)
    ensures Verdicts([e]) == match e case EarlyDataAccepted => [true] case EarlyDataRejected => [false] case _ => []
  {
    assert [e][1..] == [];
  }

  lemma {:induction false} VerdictsIff(events: seq<Event>)
    ensures true in Verdicts(events) <==> EarlyDataAccepted in events
    ensures false in Verdicts(events) <==> EarlyDataRejected in events
    decreases |events|
  {
    if events != [] {
      VerdictsIff(events[1..]);
      assert events == [events[0]] + events[1..];
    }
  }

  // ----------------------------------------------------------------- transcripts

  /** Both hashes run until one is selected. */
  datatype Transcript = Transcript(selected: Option<Alg>, items: seq<Item>)

  const EMPTY: Transcript := Transcript(None, [])

  function Select(t: Transcript, alg: Alg): Option<Transcript>
  {
    if t.selected == None || t.selected == Some(alg) then Some(t.(selected := Some(alg))) else None
  }

  function Push(t: Transcript, m: Message): Transcript
  {
    t.(items := t.items + [Whole(m)])
  }

  function PushAll(t: Transcript, ms: seq<Message>): Transcript
    decreases |ms|
  {
    if ms == [] then t else PushAll(Push(t, ms[0]), ms[1..])
  }

  /** The messages as transcript items. */
  function Wholes(ms: seq<Message>): (items: seq<Item>)
    ensures |items| == |ms|
    ensures forall i :: 0 <= i < |ms| ==> items[i] == Whole(ms[i])
  {
    seq(|ms|, i requires 0 <= i < |ms| => Whole(ms[i]))
  }

  lemma WholesAppend(a: seq<Message>, b: seq<Message>)
    ensures Wholes(a + b) == Wholes(a) + Wholes(b)
  {
  }

  lemma {:induction false} PushedAll(t: Transcript, ms: seq<Message>)
    ensures PushAll(t, ms) == t.(items := t.items + Wholes(ms))
    decreases |ms|
  {
    if ms == [] {
      assert t.items + Wholes(ms) == t.items;
    } else {
      var (first, rest) := (Whole(ms[0]), Wholes(ms[1..]));
      PushedAll(Push(t, ms[0]), ms[1..]);
      assert Wholes(ms) == [first] + rest;
      Reassociate(t.items, [first], rest);
    }
  }

  lemma Reassociate<T>(a: seq<T>, b: seq<T>, c: seq<T>)
    ensures (a + b) + c == a + (b + c)
  {
  }

  lemma OnePush(t: Transcript, m: Message)
    ensures Push(t, m).items == t.items + Wholes([m])
  {
    assert Wholes([m]) == [Whole(m)];
  }

  lemma PushAllOne(t: Transcript, m: Message)
    ensures PushAll(t, [m]) == Push(t, m)
  {
  }

  lemma {:induction false} PushAllAppend(t: Transcript, a: seq<Message>, b: seq<Message>)
    ensures PushAll(t, a + b) == PushAll(PushAll(t, a), b)
    decreases |a|
  {
    if a == [] {
      assert a + b == b;
    } else {
      assert (a + b)[1..] == a[1..] + b;
      PushAllAppend(Push(t, a[0]), a[1..], b);
    }
  }

  /** A hash under an algorithm other than the selected one is an error. */
  function Hash(t: Transcript, alg: Alg): Option<Digest>
  {
    if t.selected.Some? && t.selected != Some(alg) then None else Some(Digest(alg, t.items))
  }

  /** Section 4.4.1 of RFC 8446: the first hello is replaced by its hash. */
  function Restarted(alg: Alg, h: Digest): Transcript
  {
    Transcript(Some(alg), [Restart(h)])
  }

  /** A ClientHello without its binders. */
  function CutHello(h: Hello): Message
  {
    match h.psk
    case None => ClientHello(h)
    case Some(o) => ClientHello(h.(psk := Some(o.(binder := Blank))))
  }

  /** The hash a binder covers: always under SHA-256. */
  function BinderHash(t: Transcript, h: Hello): Option<Digest>
  {
    Hash(t.(items := t.items + [Cut(CutHello(h))]), Sha256)
  }

  function FinishedMac(key: Secret, d: Digest): Mac
  {
    Mac(key, d)
  }

  datatype HandshakeSecrets = HandshakeSecrets(schedule: Term, client: Secret, server: Secret)

  function SecretsFor(schedule: Term, d: Digest): HandshakeSecrets
  {
    HandshakeSecrets(schedule, Derived(schedule, ClientHandshake, d), Derived(schedule, ServerHandshake, d))
  }

  /** The traffic state: nothing, a suite, or a suite with both secrets. */
  datatype Traffic = NoSuite | Selected(suite: nat) | Active(suite: nat, client: Secret, server: Secret)

  function SelectSuite(t: Traffic, suite: nat): Option<Traffic>
  {
    match t
    case NoSuite => Some(Selected(suite))
    case Selected(s) => if s == suite then Some(t) else None
    case Active(s, _, _) => if s == suite then Some(t) else None
  }

  predicate HasSuite(t: Traffic)
  {
    !t.NoSuite?
  }
}
