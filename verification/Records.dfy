/** TLS 1.3 record protection: sealing, opening, nonces and the poison flag
    (sections 5.2 to 5.5 of RFC 8446). The AEAD is a pair of arbitrary functions. */
module Records {
  import opened Bytes
  import Bits

  const HEADER_LEN: nat := 5
  const TAG_LEN: nat := 16
  const MAX_PLAINTEXT_BODY: nat := 16384
  const MAX_CIPHERTEXT_BODY: nat := 16640
  const CONFIDENTIALITY_LIMIT: nat := 8388608
  const U16: nat := 2
  const U64: nat := 8
  const SEQ_MAX: nat := 0xffff_ffff_ffff_ffff

  datatype ContentType = ChangeCipherSpec | Alert | Handshake | ApplicationData

  function Code(t: ContentType): Byte
  {
    match t case ChangeCipherSpec => 20 case Alert => 21 case Handshake => 22 case ApplicationData => 23
  }

  function TypeOf(b: Byte): (t: Option<ContentType>)
    ensures t.Some? ==> Code(t.value) == b
  {
    if b == 20 then Some(ChangeCipherSpec)
    else if b == 21 then Some(Alert)
    else if b == 22 then Some(Handshake)
    else if b == 23 then Some(ApplicationData)
    else None
  }

  datatype Error =
    | BadContentType | BodyTooLarge | RecordOverflow | SealFailed | OpenFailed | AllZeroInner | NotCipherTextOuter
    | BadLegacyVersion | SeqExhausted | KeyLimitReached | UnexpectedChangeCipherSpec | Poisoned

  /** One traffic key: its IV, and authenticated encryption of (nonce, header, plaintext). */
  datatype Key = Key(
    iv: Octets,
    seal: (Octets, Octets, Octets) -> Octets,
    open: (Octets, Octets, Octets) -> Option<Octets>)

  /** What is asked of the AEAD: a tag is appended, and opening undoes sealing. */
  ghost predicate Sound(key: Key)
  {
    && |key.iv| == 12
    && (forall n, h, p :: |key.seal(n, h, p)| == |p| + TAG_LEN)
    && (forall n, h, p :: key.open(n, h, key.seal(n, h, p)) == Some(p))
    && (forall n, h, c :: key.open(n, h, c).Some? ==> |key.open(n, h, c).value| + TAG_LEN == |c|)
  }

  // --------------------------------------------------------------------- nonces

  /** Bitwise exclusive or. */
  function Xor(a: nat, b: nat): nat
    decreases a + b
  {
    if a == 0 && b == 0 then 0 else (if a % 2 == b % 2 then 0 else 1) + 2 * Xor(a / 2, b / 2)
  }

  lemma {:induction false} XorCancels(a: nat, b: nat, c: nat)
    requires Xor(a, b) == Xor(a, c)
    ensures b == c
    decreases a + b + c
  {
    if a + b + c != 0 {
      assert Xor(a, b) / 2 == Xor(a / 2, b / 2) && Xor(a, c) / 2 == Xor(a / 2, c / 2);
      assert Xor(a, b) % 2 == if a % 2 == b % 2 then 0 else 1;
      assert Xor(a, c) % 2 == if a % 2 == c % 2 then 0 else 1;
      XorCancels(a / 2, b / 2, c / 2);
    }
  }

  lemma {:induction false} XorBound(a: nat, b: nat, limit: nat)
    requires a < Twice(limit) && b < Twice(limit)
    ensures Xor(a, b) < Twice(limit)
    decreases limit
  {
    if limit != 0 && (a != 0 || b != 0) {
      XorBound(a / 2, b / 2, limit - 1);
    }
  }

  function Twice(n: nat): nat
  {
    if n == 0 then 1 else 2 * Twice(n - 1)
  }

  lemma XorByteBound(a: Byte, b: Byte)
    ensures Xor(a, b) < 256
  {
    assert Twice(4) == 16;
    assert Twice(8) == 256;
    XorBound(a, b, 8);
  }

  function XorByte(a: Byte, b: Byte): Byte
  {
    XorByteBound(a, b);
    Xor(a, b)
  }

  /** A digit of the exclusive or is set where exactly one operand has it set. */
  lemma {:induction false} XorDigits(a: nat, b: nat, i: nat)
    ensures Bits.Has(Xor(a, b), i) <==> Bits.Has(a, i) != Bits.Has(b, i)
    decreases i
  {
    if a == 0 && b == 0 {
      Bits.ZeroHasNothing(i);
    } else if i != 0 {
      assert Xor(a, b) / 2 == Xor(a / 2, b / 2);
      XorDigits(a / 2, b / 2, i - 1);
    } else {
      assert Xor(a, b) % 2 == if a % 2 == b % 2 then 0 else 1;
    }
  }

  /** The per-record nonce: the IV with the sequence number xored into its last bytes. */
  function Nonce(iv: Octets, number: nat): (n: Octets)
    requires |iv| == 12
    ensures |n| == 12
    ensures forall i :: 0 <= i < 12 ==> n[i] == if i < 4 then iv[i] else XorByte(iv[i], Be(number, U64)[i - 4])
  {
    seq(12, i requires 0 <= i < 12 => if i < 4 then iv[i] else XorByte(iv[i], Be(number, U64)[i - 4]))
  }

  /** `Key::nonce`: the loop over the eight sequence bytes. */
  method NonceFor(iv: Octets, number: nat) returns (nonce: Octets)
    requires |iv| == 12
    ensures nonce == Nonce(iv, number)
  {
    hide XorByte, Be;
    nonce := iv;
    var bytes := Be(number, U64);
    for i := 0 to U64
      invariant |nonce| == 12
      invariant forall k :: 0 <= k < 12 ==> nonce[k] == if 4 <= k < 4 + i then XorByte(iv[k], bytes[k - 4]) else iv[k]
    {
      nonce := nonce[4 + i := XorByte(nonce[4 + i], bytes[i])];
    }
  }

  /** Distinct 64-bit sequence numbers never share a nonce. */
  lemma NonceInjective(iv: Octets, m: nat, n: nat)
    requires |iv| == 12 && m < Span(U64) && n < Span(U64) && Nonce(iv, m) == Nonce(iv, n)
    ensures m == n
  {
    var a, b := Be(m, U64), Be(n, U64);
    forall i | 0 <= i < U64 ensures a[i] == b[i] {
      assert Nonce(iv, m)[i + 4] == Nonce(iv, n)[i + 4];
      XorCancels(iv[i + 4], a[i], b[i]);
    }
    assert a == b;
    BeInjective(m, n, U64);
  }

  // -------------------------------------------------------------- the wire format

  function Header(bodyLen: nat): (h: Octets)
    ensures |h| == HEADER_LEN
  {
    [23, 3, 3] + Be(bodyLen, U16)
  }

  lemma HeaderLen(bodyLen: nat, rest: Octets)
    requires bodyLen < 65536
    ensures BodyLen(Header(bodyLen) + rest) == bodyLen
    ensures (Header(bodyLen) + rest)[..3] == [23, 3, 3]
  {
    var h := Header(bodyLen) + rest;
    assert Span(2) == 65536;
    ValueBe(bodyLen, U16);
    var low := Be(bodyLen, U16);
    assert h[3] == low[0] && h[4] == low[1];
    assert Leading(low, 1) == 256 * Leading(low, 0) + low[0];
  }

  function BodyLen(s: Octets): nat
    requires |s| >= HEADER_LEN
  {
    256 * (s[3] as int) + s[4] as int
  }

  /** The protected record: `seal_into` for a body within the limits. */
  function SealedRecord(key: Key, number: nat, t: ContentType, body: Octets): Octets
    requires |key.iv| == 12
  {
    var header := Header(|body| + 1 + TAG_LEN);
    header + key.seal(Nonce(key.iv, number), header, body + [Code(t)])
  }

  /** The position of the last non-zero byte; `|s|` when there is none. */
  function LastNonZero(s: Octets, n: nat): (r: nat)
    requires n <= |s|
    ensures r <= |s|
    ensures r < |s| ==> r < n && s[r] != 0 && forall i :: r < i < n ==> s[i] == 0
    ensures r == |s| ==> forall i :: 0 <= i < n ==> s[i] == 0
  {
    if n == 0 then |s| else if s[n - 1] != 0 then n - 1 else LastNonZero(s, n - 1)
  }

  datatype Opening =
    | Incomplete
    | Opened(contentType: ContentType, content: Octets, total: nat)
    | Failed(error: Error)

  /** What `Opener::open` answers on these bytes, at this sequence number. */
  function OpenSpec(key: Key, number: nat, poisoned: bool, input: Octets): Opening
    requires |key.iv| == 12
  {
    if poisoned then Failed(Poisoned)
    else if |input| < HEADER_LEN then Incomplete
    else if input[1..3] != [3, 3] then Failed(BadLegacyVersion)
    else if BodyLen(input) > MAX_CIPHERTEXT_BODY then Failed(BodyTooLarge)
    else
      var total := HEADER_LEN + BodyLen(input);
      if |input| < total then Incomplete
      else if input[0] != 23 then Failed(NotCipherTextOuter)
      else if number == SEQ_MAX then Failed(SeqExhausted)
      else if number >= CONFIDENTIALITY_LIMIT then Failed(KeyLimitReached)
      else
        match key.open(Nonce(key.iv, number), input[..HEADER_LEN], input[HEADER_LEN..total])
        case None => Failed(OpenFailed)
        case Some(inner) => Unpad(inner, total)
  }

  /** The inner plaintext: content, one type byte, zero padding. */
  function Unpad(inner: Octets, total: nat): Opening
  {
    var at := LastNonZero(inner, |inner|);
    if at == |inner| then Failed(AllZeroInner)
    else if at > MAX_PLAINTEXT_BODY then Failed(RecordOverflow)
    else
      match TypeOf(inner[at])
      case None => Failed(BadContentType)
      case Some(ChangeCipherSpec) => Failed(UnexpectedChangeCipherSpec)
      case Some(t) => Opened(t, inner[..at], total)
  }

  // ------------------------------------------------------------------ the classes

  datatype Sealing = Sealed(total: nat) | Refused(error: Error)

  class Sealer {
    const key: Key
    var number: nat

    ghost predicate Valid()
      reads this
    {
      |key.iv| == 12 && number <= CONFIDENTIALITY_LIMIT
    }

    constructor (key: Key)
      requires |key.iv| == 12
      ensures Valid() && number == 0 && this.key == key
    {
      this.key := key;
      number := 0;
    }

    /** `seal_into`: appends one record and advances, or refuses and appends nothing. When the
        AEAD itself fails (`fails`), its sequence number stays used up: no nonce is tried twice. */
    method SealInto(t: ContentType, body: Octets, out: Octets, fails: bool) returns (r: Sealing, extended: Octets)
      requires Valid()
      modifies this`number
      ensures Valid()
      ensures r == if |body| > MAX_PLAINTEXT_BODY then Refused(BodyTooLarge)
                   else if old(number) >= CONFIDENTIALITY_LIMIT then Refused(KeyLimitReached)
                   else if fails then Refused(SealFailed)
                   else Sealed(HEADER_LEN + |body| + 1 + TAG_LEN)
      ensures r.Sealed? ==> number == old(number) + 1 && extended == out + SealedRecord(key, old(number), t, body)
      ensures r.Refused? ==> extended == out && number == old(number) + if r.error == SealFailed then 1 else 0
    {
      extended := out;
      if |body| > MAX_PLAINTEXT_BODY {
        return Refused(BodyTooLarge), extended;
      }
      if number >= CONFIDENTIALITY_LIMIT {
        return Refused(KeyLimitReached), extended;
      }
      var header := Header(|body| + 1 + TAG_LEN);
      var nonce := NonceFor(key.iv, number);
      number := number + 1;
      if fails {
        return Refused(SealFailed), extended;
      }
      extended := out + (header + key.seal(nonce, header, body + [Code(t)]));
      r := Sealed(HEADER_LEN + |body| + 1 + TAG_LEN);
    }
  }

  class Opener {
    const key: Key
    var number: nat
    var poisoned: bool

    ghost predicate Valid()
      reads this
    {
      |key.iv| == 12 && number <= CONFIDENTIALITY_LIMIT
    }

    constructor (key: Key)
      requires |key.iv| == 12
      ensures Valid() && number == 0 && !poisoned && this.key == key
    {
      this.key := key;
      number, poisoned := 0, false;
    }

    /** `Opener::open`, decrypting in place: the content lies right after the header.
        Any failure poisons the opener; waiting for more input changes nothing. */
    method Open(input: array<Byte>) returns (r: Opening)
      requires Valid() && Sound(key)
      modifies this, input
      ensures Valid()
      ensures r == OpenSpec(key, old(number), old(poisoned), old(input[..]))
      ensures poisoned == (old(poisoned) || r.Failed?)
      ensures r.Opened? ==> number == old(number) + 1
      ensures r.Opened? ==> HEADER_LEN + |r.content| <= r.total <= input.Length
      ensures r.Opened? ==> input[HEADER_LEN..HEADER_LEN + |r.content|] == r.content
      ensures r.Opened? ==> input[r.total..] == old(input[r.total..])
      ensures r.Incomplete? ==> number == old(number) && input[..] == old(input[..])
    {
      ghost var was := input[..];
      if poisoned {
        return Failed(Poisoned);
      }
      if input.Length < HEADER_LEN {
        return Incomplete;
      }
      poisoned := true;
      if input[1] != 3 || input[2] != 3 {
        assert was[1..3] != [3, 3] by { assert was[1..3][0] == was[1] && was[1..3][1] == was[2]; }
        return Failed(BadLegacyVersion);
      }
      assert was[1..3] == [3, 3];
      var bodyLen := 256 * (input[3] as int) + input[4] as int;
      if bodyLen > MAX_CIPHERTEXT_BODY {
        return Failed(BodyTooLarge);
      }
      var total := HEADER_LEN + bodyLen;
      if input.Length < total {
        poisoned := false;
        return Incomplete;
      }
      if input[0] != 23 {
        return Failed(NotCipherTextOuter);
      }
      if number == SEQ_MAX {
        return Failed(SeqExhausted);
      }
      if number >= CONFIDENTIALITY_LIMIT {
        return Failed(KeyLimitReached);
      }
      var nonce := NonceFor(key.iv, number);
      var plain := key.open(nonce, input[..HEADER_LEN], input[HEADER_LEN..total]);
      if plain.None? {
        return Failed(OpenFailed);
      }
      var inner := plain.value;
      forall i | 0 <= i < |inner| {
        input[HEADER_LEN + i] := inner[i];
      }
      number := number + 1;
      var at := LastNonZero(inner, |inner|);
      if at == |inner| {
        return Failed(AllZeroInner);
      }
      if at > MAX_PLAINTEXT_BODY {
        return Failed(RecordOverflow);
      }
      var t := TypeOf(inner[at]);
      if t.None? {
        return Failed(BadContentType);
      }
      if t.value == ChangeCipherSpec {
        return Failed(UnexpectedChangeCipherSpec);
      }
      poisoned := false;
      r := Opened(t.value, inner[..at], total);
    }
  }

  // ------------------------------------------------------------- streams of records

  datatype Plain = Plain(contentType: ContentType, body: Octets)

  predicate Sendable(p: Plain)
  {
    p.contentType != ChangeCipherSpec && |p.body| <= MAX_PLAINTEXT_BODY
  }

  /** The wire bytes of consecutive seals. */
  function SealAll(key: Key, number: nat, plains: seq<Plain>): Octets
    requires |key.iv| == 12
    decreases |plains|
  {
    if plains == [] then []
    else SealedRecord(key, number, plains[0].contentType, plains[0].body) + SealAll(key, number + 1, plains[1..])
  }

  datatype Drained = Drained(plains: seq<Plain>, number: nat, poisoned: bool, rest: Octets)

  /** Opening record after record until one is incomplete or fails. */
  function OpenAll(key: Key, number: nat, input: Octets): Drained
    requires |key.iv| == 12
    decreases |input|
  {
    match OpenSpec(key, number, false, input)
    case Incomplete => Drained([], number, false, input)
    case Failed(_) => Drained([], number, true, input)
    case Opened(t, content, total) =>
      OpenedTotal(key, number, input);
      var later := OpenAll(key, number + 1, input[total..]);
      Drained([Plain(t, content)] + later.plains, later.number, later.poisoned, later.rest)
  }

  lemma OpenedTotal(key: Key, number: nat, input: Octets)
    requires |key.iv| == 12 && OpenSpec(key, number, false, input).Opened?
    ensures 0 < OpenSpec(key, number, false, input).total <= |input|
  {
  }

  lemma UnpadSealed(t: ContentType, body: Octets, total: nat)
    requires t != ChangeCipherSpec && |body| <= MAX_PLAINTEXT_BODY
    ensures Unpad(body + [Code(t)], total) == Opened(t, body, total)
  {
    var inner := body + [Code(t)];
    assert LastNonZero(inner, |inner|) == |body|;
    assert inner[..|body|] == body;
  }

  /** Opening a sealed record, whatever follows it, returns what was sealed. */
  lemma OpenSealed(key: Key, number: nat, p: Plain, rest: Octets)
    requires Sound(key) && number < CONFIDENTIALITY_LIMIT && Sendable(p)
    ensures var record := SealedRecord(key, number, p.contentType, p.body);
            OpenSpec(key, number, false, record + rest) == Opened(p.contentType, p.body, |record|)
  {
    hide Nonce, Unpad, Header;
    var header := Header(|p.body| + 1 + TAG_LEN);
    var inner := p.body + [Code(p.contentType)];
    var sealed := key.seal(Nonce(key.iv, number), header, inner);
    var input := (header + sealed) + rest;
    assert input == header + (sealed + rest);
    HeaderLen(|p.body| + 1 + TAG_LEN, sealed + rest);
    assert |sealed| == |inner| + TAG_LEN;
    assert input[0] == input[..3][0] && input[1..3] == input[..3][1..3];
    assert input[..HEADER_LEN] == header;
    assert input[HEADER_LEN..HEADER_LEN + BodyLen(input)] == sealed;
    UnpadSealed(p.contentType, p.body, HEADER_LEN + |sealed|);
  }

  /** A protected record byte by byte: type 23, version 3.3 and the length of what follows in two
      bytes, which is the sealed content and its type, under the header as additional data. */
  lemma RecordLayout(key: Key, number: nat, p: Plain)
    requires |key.iv| == 12 && |p.body| <= MAX_PLAINTEXT_BODY
    ensures var n := |p.body| + 17;
            var header: Octets := [23, 3, 3, n / 256, n % 256];
            SealedRecord(key, number, p.contentType, p.body) ==
            header + key.seal(Nonce(key.iv, number), header, p.body + [TypeNumber(p.contentType)])
  {
    hide Nonce;
    var n := |p.body| + 17;
    assert Be(n / 256, 1) == Be(n / 256 / 256, 0) + [n / 256 % 256];
    assert Header(n) == [23, 3, 3, n / 256, n % 256];
  }

  /** The content types of section 5.1 of RFC 8446. */
  ghost function TypeNumber(t: ContentType): Byte
  {
    match t case ChangeCipherSpec => 20 case Alert => 21 case Handshake => 22 case ApplicationData => 23
  }

  ghost function Zeros(n: nat): (z: Octets)
    ensures |z| == n && forall i :: 0 <= i < n ==> z[i] == 0
  {
    seq(n, _ => 0)
  }

  /** The input starts with a whole protected record of `total` bytes that this key at this number
      opens, with the record's header as additional data, to the content, its type and some zeros. */
  ghost predicate Holds(key: Key, number: nat, input: Octets, t: ContentType, content: Octets, total: nat, pad: nat)
    requires |key.iv| == 12
  {
    && 5 <= total <= |input| && total <= 5 + 16640
    && input[..5] == [23, 3, 3, (total - 5) / 256, (total - 5) % 256]
    && number < 8388608
    && key.open(Nonce(key.iv, number), input[..5], input[5..total]) ==
       Some(content + [TypeNumber(t)] + Zeros(pad))
    && !t.ChangeCipherSpec? && |content| <= 16384
  }

  lemma UnpadsTo(inner: Octets, t: ContentType, content: Octets, pad: nat, total: nat)
    requires inner == content + [TypeNumber(t)] + Zeros(pad) && !t.ChangeCipherSpec? && |content| <= 16384
    ensures Unpad(inner, total) == Opened(t, content, total)
  {
    assert inner[|content|] != 0 && forall i :: |content| < i < |inner| ==> inner[i] == 0;
    assert LastNonZero(inner, |inner|) == |content|;
    assert inner[..|content|] == content;
  }

  lemma HeaderBytes(input: Octets, total: nat)
    requires |input| >= 5 && 5 <= total < 5 + 65536
    ensures input[..5] == [23, 3, 3, (total - 5) / 256, (total - 5) % 256] <==>
            input[0] == 23 && input[1..3] == [3, 3] && BodyLen(input) == total - 5
  {
    var h := input[..5];
    assert input[1..3] == [input[1], input[2]];
    assert h == [input[0], input[1], input[2], input[3], input[4]];
    if BodyLen(input) == total - 5 {
      assert (total - 5) / 256 == input[3] && (total - 5) % 256 == input[4];
    }
  }

  /** `Opener::open` yields content exactly when the input starts with a record that holds it. */
  lemma OpensIff(key: Key, number: nat, input: Octets, t: ContentType, content: Octets, total: nat)
    requires |key.iv| == 12
    ensures OpenSpec(key, number, false, input) == Opened(t, content, total) <==>
            exists pad :: Holds(key, number, input, t, content, total, pad)
    ensures !OpenSpec(key, number, true, input).Opened?
  {
    hide Nonce, LastNonZero;
    if pad :| Holds(key, number, input, t, content, total, pad) {
      HeaderBytes(input, total);
      UnpadsTo(content + [TypeNumber(t)] + Zeros(pad), t, content, pad, total);
    }
    if OpenSpec(key, number, false, input) == Opened(t, content, total) {
      HeaderBytes(input, total);
      var inner := key.open(Nonce(key.iv, number), input[..5], input[5..total]).value;
      var pad := |inner| - |content| - 1;
      assert inner == content + [TypeNumber(t)] + Zeros(pad);
      assert Holds(key, number, input, t, content, total, pad);
    }
  }

  /** The AEAD opens nothing but what was sealed with the same nonce and additional data. */
  ghost predicate Authentic(key: Key)
  {
    forall n, h, c, p :: key.open(n, h, c) == Some(p) ==> c == key.seal(n, h, p)
  }

  /** Under such a key every record accepted is, header included, one that was sealed at this number:
      a changed header, length or number is never accepted. */
  lemma AcceptedWasSealed(key: Key, number: nat, input: Octets)
    requires |key.iv| == 12 && Authentic(key) && OpenSpec(key, number, false, input).Opened?
    ensures var r := OpenSpec(key, number, false, input);
            var typed := r.content + [TypeNumber(r.contentType)];
            exists pad :: input[..r.total] ==
                          input[..5] + key.seal(Nonce(key.iv, number), input[..5], typed + Zeros(pad))
  {
    hide Nonce, Unpad, OpenSpec;
    var r := OpenSpec(key, number, false, input);
    OpensIff(key, number, input, r.contentType, r.content, r.total);
    var pad :| Holds(key, number, input, r.contentType, r.content, r.total, pad);
    var inner := r.content + [TypeNumber(r.contentType)] + Zeros(pad);
    assert key.open(Nonce(key.iv, number), input[..5], input[5..r.total]) == Some(inner);
    assert input[..r.total] == input[..5] + input[5..r.total];
  }

  /** Sealing a list and opening the concatenated records, followed by any unfinished
      bytes, returns exactly the list, with both sequence numbers in step. */
  lemma {:induction false} StreamRoundTrip(key: Key, number: nat, plains: seq<Plain>, rest: Octets)
    requires Sound(key) && number + |plains| <= CONFIDENTIALITY_LIMIT
    requires forall i :: 0 <= i < |plains| ==> Sendable(plains[i])
    requires OpenSpec(key, number + |plains|, false, rest).Incomplete?
    ensures OpenAll(key, number, SealAll(key, number, plains) + rest) ==
            Drained(plains, number + |plains|, false, rest)
    decreases |plains|
  {
    hide OpenSpec, SealedRecord;
    if plains == [] {
      assert [] + rest == rest;
    } else {
      var p := plains[0];
      var record := SealedRecord(key, number, p.contentType, p.body);
      var later := SealAll(key, number + 1, plains[1..]) + rest;
      assert SealAll(key, number, plains) + rest == record + later;
      OpenSealed(key, number, p, later);
      StreamRoundTrip(key, number + 1, plains[1..], rest);
      assert (record + later)[|record|..] == later;
      assert [p] + plains[1..] == plains;
    }
  }

  /** No two records of one key share a nonce: a sealer refuses once the key limit is
      reached, long before sequence numbers could repeat. */
  lemma NoncesDistinct(key: Key, m: nat, n: nat)
    requires |key.iv| == 12 && m < n < CONFIDENTIALITY_LIMIT
    ensures Nonce(key.iv, m) != Nonce(key.iv, n)
  {
    assert Span(4) == 4294967296;
    assert Span(U64) == 18446744073709551616;
    hide Nonce, Span;
    if Nonce(key.iv, m) == Nonce(key.iv, n) {
      NonceInjective(key.iv, m, n);
    }
  }
}
