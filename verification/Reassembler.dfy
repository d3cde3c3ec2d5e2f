/** Handshake message reassembly over arbitrary record fragmentation. */
module Reassembler {
  import opened Bytes

  const HEADER_LEN: nat := 4
  const MAX_SIZE: nat := 262144
  const MAX_KEY_UPDATES_PER_RECORD: nat := 8
  const KEY_UPDATE: Byte := 24

  datatype Epoch = Plaintext | EarlyData | Handshake | Application

  datatype Error = HandshakeTooLarge | HandshakeSpansEpoch | WorkspaceExhausted | UnexpectedMessage | Rejected

  datatype Outcome = Ok | Err(error: Error)

  /** The complete length a header announces: its own four bytes and a 24-bit body length. */
  function MessageLen(s: Octets): nat
    requires |s| >= HEADER_LEN
  {
    HEADER_LEN + 65536 * (s[1] as int) + 256 * (s[2] as int) + s[3] as int
  }

  predicate Oversize(s: Octets)
  {
    |s| >= HEADER_LEN && MessageLen(s) > MAX_SIZE
  }

  /** The stream starts with one whole message. */
  predicate Whole(s: Octets)
  {
    |s| >= HEADER_LEN && MessageLen(s) <= MAX_SIZE && MessageLen(s) <= |s|
  }

  /** A proper prefix of a message of admissible size. */
  predicate Partial(s: Octets)
  {
    |s| < HEADER_LEN || (MessageLen(s) <= MAX_SIZE && |s| < MessageLen(s))
  }

  datatype Framing = Framing(messages: seq<Octets>, rest: Octets)

  /** The reference: cut a byte stream at the lengths its headers announce. */
  function Frames(s: Octets): Framing
  {
    if Whole(s) then
      var tail := Frames(s[MessageLen(s)..]);
      Framing([s[..MessageLen(s)]] + tail.messages, tail.rest)
    else Framing([], s)
  }

  function Flatten(messages: seq<Octets>): Octets
  {
    if messages == [] then [] else messages[0] + Flatten(messages[1..])
  }

  /** A message is whole and nothing follows it. */
  predicate Exact(m: Octets)
  {
    Whole(m) && MessageLen(m) == |m|
  }

  // --------------------------------------------------------- facts about framing

  lemma {:induction false} FramesExact(s: Octets)
    ensures forall i :: 0 <= i < |Frames(s).messages| ==> Exact(Frames(s).messages[i])
    ensures !Whole(Frames(s).rest)
  {
    if Whole(s) {
      FramesExact(s[MessageLen(s)..]);
      assert Exact(s[..MessageLen(s)]);
    }
  }

  lemma FlattenCons(m: Octets, ms: seq<Octets>)
    ensures Flatten([m] + ms) == m + Flatten(ms)
  {
  }

  lemma FramesStep(s: Octets) returns (n: nat)
    ensures Whole(s) ==> 0 < n <= |s| && Frames(s) == Framing([s[..n]] + Frames(s[n..]).messages, Frames(s[n..]).rest)
    ensures !Whole(s) ==> Frames(s) == Framing([], s)
  {
    n := if Whole(s) then MessageLen(s) else 0;
  }

  /** Framing loses and invents nothing. */
  lemma {:induction false} FramesConserve(s: Octets)
    ensures Flatten(Frames(s).messages) + Frames(s).rest == s
  {
    hide Frames, Whole;
    var n := FramesStep(s);
    if Whole(s) {
      var tail := Frames(s[n..]);
      FramesConserve(s[n..]);
      FlattenCons(s[..n], tail.messages);
      hide Flatten;
      assert s == s[..n] + s[n..];
      assert (s[..n] + Flatten(tail.messages)) + tail.rest == s[..n] + (Flatten(tail.messages) + tail.rest);
    }
  }

  lemma WholeAppend(s: Octets, more: Octets)
    requires Whole(s)
    ensures Whole(s + more) && MessageLen(s + more) == MessageLen(s)
    ensures (s + more)[..MessageLen(s)] == s[..MessageLen(s)]
    ensures (s + more)[MessageLen(s)..] == s[MessageLen(s)..] + more
  {
  }

  /** Framing may be resumed at any cut of the stream. */
  lemma {:induction false} FramesResume(s: Octets, more: Octets)
    ensures var first := Frames(s);
            var second := Frames(first.rest + more);
            Frames(s + more) == Framing(first.messages + second.messages, second.rest)
    decreases |s|
  {
    if Whole(s) {
      var n := MessageLen(s);
      WholeAppend(s, more);
      FramesResume(s[n..], more);
      var first := Frames(s[n..]);
      var second := Frames(first.rest + more);
      assert [s[..n]] + (first.messages + second.messages) == ([s[..n]] + first.messages) + second.messages;
    }
  }

  lemma FramesOfExact(m: Octets, more: Octets)
    requires Exact(m)
    ensures Frames(m + more) == Framing([m] + Frames(more).messages, Frames(more).rest)
  {
  }

  // ------------------------------------------------------------- the reassembler

  /** `HsReassembler`: fragment storage of bounded size, the epoch of the stored
      fragment, and the KeyUpdate allowance of the current record. */
  class HsReassembler {
    var buf: Octets
    const limit: nat
    var epoch: Option<Epoch>
    var keyUpdates: nat

    ghost predicate Valid()
      reads this
    {
      && |buf| <= limit && Partial(buf)
      && (buf != [] ==> epoch.Some?)
      && keyUpdates <= MAX_KEY_UPDATES_PER_RECORD
    }

    constructor (limit: nat)
      ensures Valid() && buf == [] && epoch == None && this.limit == limit
    {
      buf, epoch, keyUpdates := [], None, 0;
      this.limit := limit;
    }

    method Append(bytes: Octets) returns (o: Outcome)
      requires |buf| <= limit
      modifies this`buf
      ensures o == (if |bytes| <= limit - |old(buf)| then Ok else Err(WorkspaceExhausted))
      ensures buf == if o.Ok? then old(buf) + bytes else old(buf)
    {
      if |bytes| > limit - |buf| {
        return Err(WorkspaceExhausted);
      }
      buf := buf + bytes;
      o := Ok;
    }

    method ValidateMessage(ty: Byte) returns (o: Outcome)
      modifies this`keyUpdates
      ensures var spent := ty == KEY_UPDATE && old(keyUpdates) >= MAX_KEY_UPDATES_PER_RECORD;
              o == if spent then Err(UnexpectedMessage) else Ok
      ensures keyUpdates == old(keyUpdates) + if ty == KEY_UPDATE && o.Ok? then 1 else 0
    {
      if ty == KEY_UPDATE {
        if keyUpdates >= MAX_KEY_UPDATES_PER_RECORD {
          return Err(UnexpectedMessage);
        }
        keyUpdates := keyUpdates + 1;
      }
      o := Ok;
    }

    /** Fills the stored fragment from the input: up to the header first, then up to
        the announced length. Afterwards it is one whole message or all input is used. */
    method Fill(input: Octets) returns (o: Outcome, rest: Octets)
      requires |buf| <= limit && Partial(buf) && buf != []
      modifies this`buf
      ensures o.Ok? ==> |buf| <= limit && buf != [] && buf + rest == old(buf) + input
      ensures o.Ok? ==> if Exact(buf) then |rest| < |input| else rest == [] && Partial(buf)
      ensures o.Err? ==> Refusal(o.error, old(buf) + input, limit)
    {
      rest := input;
      if |buf| < HEADER_LEN {
        o, rest := Header(rest);
        if o.Err? || |buf| < HEADER_LEN {
          return;
        }
      }
      if MessageLen(buf) > MAX_SIZE {
        SameHeader(buf, rest);
        return Err(HandshakeTooLarge), rest;
      }
      ghost var middle := buf;
      SameHeader(middle, rest);
      o, rest := Contents(rest);
      if o.Ok? {
        SameHeader(middle, buf[|middle|..]);
        assert middle + buf[|middle|..] == buf;
      }
    }

    /** The stored fragment filled up to its header. */
    method Header(input: Octets) returns (o: Outcome, rest: Octets)
      requires |buf| <= limit && |buf| < HEADER_LEN
      modifies this`buf
      ensures o.Ok? ==> |buf| <= limit && buf + rest == old(buf) + input && |rest| <= |input|
      ensures o.Ok? ==> if |buf| < HEADER_LEN then rest == [] else |buf| == HEADER_LEN && |rest| < |input|
      ensures o.Ok? && old(buf) != [] ==> buf != []
      ensures o.Err? ==> o.error == WorkspaceExhausted && |old(buf) + input| > limit && limit < HEADER_LEN
    {
      var take := if HEADER_LEN - |buf| <= |input| then HEADER_LEN - |buf| else |input|;
      rest := input[take..];
      CutAt(buf, input, take);
      o := Append(input[..take]);
    }

    /** And then up to the length its header announces. */
    method Contents(input: Octets) returns (o: Outcome, rest: Octets)
      requires HEADER_LEN <= |buf| <= limit && MessageLen(buf) <= MAX_SIZE && |buf| <= MessageLen(buf)
      modifies this`buf
      ensures o.Ok? ==> |buf| <= limit && old(buf) <= buf && buf + rest == old(buf) + input && |rest| <= |input|
      ensures o.Ok? ==> |buf| <= MessageLen(old(buf))
      ensures o.Ok? ==> if |buf| == MessageLen(old(buf)) then |rest| == |old(buf)| + |input| - |buf| else rest == []
      ensures o.Err? ==> o.error == WorkspaceExhausted && |old(buf) + input| > limit && MessageLen(old(buf)) > limit
    {
      var needed := MessageLen(buf) - |buf|;
      var take := if needed <= |input| then needed else |input|;
      rest := input[take..];
      CutAt(buf, input, take);
      o := Append(input[..take]);
    }

    /** One turn of the read loop up to a delivery: a message in place at the front of
        the input, or the stored fragment completed, or nothing until more input. */
    method Next(record: Epoch, input: Octets) returns (step: Step, rest: Octets)
      requires |buf| <= limit && Partial(buf) && (buf != [] ==> epoch == Some(record))
      modifies this`buf, this`epoch
      ensures step.Got? ==> Exact(step.message) && buf == [] && step.message + rest == old(buf) + input
      ensures step.Got? ==> |rest| < |input|
      ensures step.Idle? ==> |buf| <= limit && Partial(buf) && buf == old(buf) + input
      ensures step.Idle? && buf != [] ==> epoch == Some(record)
      ensures step.Failed? ==> Refusal(step.error, old(buf) + input, limit)
    {
      rest := input;
      var o: Outcome;
      if buf == [] {
        if input == [] {
          return Idle, rest;
        }
        if |input| >= HEADER_LEN {
          var n := MessageLen(input);
          if n > MAX_SIZE {
            assert [] + input == input;
            return Failed(HandshakeTooLarge), rest;
          }
          if |input| >= n {
            assert Exact(input[..n]) && input[..n] + input[n..] == [] + input;
            return Got(input[..n]), input[n..];
          }
        }
        o := Append(input);
        epoch := Some(record);
        return if o.Ok? then Idle else Failed(o.error), rest;
      }
      o, rest := Fill(input);
      if o.Err? {
        return Failed(o.error), rest;
      }
      if |buf| < HEADER_LEN || |buf| < MessageLen(buf) {
        assert buf + [] == buf;
        return Idle, rest;
      }
      step, epoch := Got(buf), None;
      buf := [];
    }

    /** `HsReassembler::read`: `process` is asked about each message in turn, given all
        messages delivered so far in this call. On success the delivered messages and
        the stored fragment are exactly the framing of the stored fragment followed by
        the input; on any failure what was delivered is a prefix of that framing. */
    method Read(record: Epoch, input: Octets, process: seq<Octets> -> bool)
      returns (o: Outcome, delivered: seq<Octets>)
      requires Valid()
      modifies this
      ensures delivered <= Frames(old(buf) + input).messages
      ensures o.Ok? ==> Valid() && Framing(delivered, buf) == Frames(old(buf) + input)
      ensures o.Ok? && buf != [] ==> epoch == Some(record)
      ensures o.Ok? ==> KeyUpdates(delivered) <= MAX_KEY_UPDATES_PER_RECORD
      ensures o == Err(HandshakeSpansEpoch) <==> old(buf) != [] && old(epoch) != Some(record)
      ensures o == Err(HandshakeSpansEpoch) ==> delivered == []
      ensures o.Err? && o.error != HandshakeSpansEpoch ==>
                exists tail :: old(buf) + input == Flatten(delivered) + tail &&
                               Justified(o.error, delivered, tail, limit, process)
      ensures forall i :: 0 < i <= |delivered| ==> (process(delivered[..i]) || (o.Err? && i == |delivered|))
    {
      hide Frames, Exact, Partial, Oversize, Whole, Flatten, KeyUpdates;
      delivered := [];
      if buf != [] && epoch != Some(record) {
        return Err(HandshakeSpansEpoch), delivered;
      }
      keyUpdates := 0;
      ghost var stream := buf + input;
      var rest := input;
      Start(stream);
      while true
        invariant |buf| <= limit && Partial(buf) && (buf != [] ==> epoch == Some(record))
        invariant keyUpdates == KeyUpdates(delivered) <= MAX_KEY_UPDATES_PER_RECORD
        invariant Ahead(stream, delivered, buf + rest)
        invariant stream == Flatten(delivered) + (buf + rest)
        invariant forall i :: 0 < i <= |delivered| ==> process(delivered[..i])
        decreases |rest|
      {
        ghost var tail := buf + rest;
        var step: Step;
        step, rest := Next(record, rest);
        if step.Failed? {
          assert Justified(step.error, delivered, tail, limit, process);
          return Err(step.error), delivered;
        }
        if step.Idle? {
          Settled(stream, delivered, buf);
          return Ok, delivered;
        }
        Deliver(stream, delivered, step.message, rest);
        o := ValidateMessage(step.message[0]);
        if o.Err? {
          assert Justified(UnexpectedMessage, delivered, tail, limit, process);
          return;
        }
        Count(delivered, step.message, process);
        delivered := delivered + [step.message];
        if !process(delivered) {
          assert Justified(Rejected, delivered, [] + rest, limit, process);
          return Err(Rejected), delivered;
        }
        assert delivered[..|delivered|] == delivered;
      }
    }
  }

  lemma CutAt(stored: Octets, input: Octets, take: nat)
    requires take <= |input|
    ensures (stored + input[..take]) + input[take..] == stored + input
  {
  }

  /** More bytes do not change what the header announces. */
  lemma SameHeader(s: Octets, more: Octets)
    requires |s| >= HEADER_LEN
    ensures MessageLen(s + more) == MessageLen(s)
  {
  }

  /** The message these bytes start does not fit the storage, and is not whole within it. */
  ghost predicate Outgrows(tail: Octets, limit: nat)
  {
    |tail| > limit && (|tail| >= HEADER_LEN ==> MessageLen(tail) > limit)
  }

  /** The announced length is the three-byte integer after the type, in network byte order. */
  lemma AnnouncedLength(s: Octets)
    requires |s| >= HEADER_LEN
    ensures MessageLen(s) == 4 + Value(s[1..4])
  {
    var n := s[1..4];
    assert Leading(n, 3) == 256 * Leading(n, 2) + n[2];
    assert Leading(n, 2) == 256 * Leading(n, 1) + n[1];
    assert Leading(n, 1) == n[0];
  }

  /** Why bytes that start at a message boundary could not be taken in. */
  ghost predicate Refusal(error: Error, tail: Octets, limit: nat)
  {
    match error
    case HandshakeTooLarge => Oversize(tail)
    case WorkspaceExhausted => Outgrows(tail, limit)
    case _ => false
  }

  function KeyUpdates(messages: seq<Octets>): nat
  {
    if messages == [] then 0
    else
      var last := messages[|messages| - 1];
      KeyUpdates(messages[..|messages| - 1]) + if last != [] && last[0] == KEY_UPDATE then 1 else 0
  }

  /** Why a read failed after delivering these messages, the undelivered bytes being `tail`. */
  ghost predicate Justified(error: Error, delivered: seq<Octets>, tail: Octets, limit: nat,
                            process: seq<Octets> -> bool)
  {
    match error
    case Rejected => delivered != [] && !process(delivered)
    case UnexpectedMessage =>
      KeyUpdates(delivered) >= MAX_KEY_UPDATES_PER_RECORD && Whole(tail) && tail[0] == KEY_UPDATE
    case HandshakeSpansEpoch => false
    case _ => Refusal(error, tail, limit)
  }

  lemma {:induction false} FlattenSnoc(ms: seq<Octets>, m: Octets)
    ensures Flatten(ms + [m]) == Flatten(ms) + m
  {
    if ms == [] {
      assert [] + [m] == [m];
      assert [m][1..] == [];
      assert Flatten([]) == [];
    } else {
      FlattenSnoc(ms[1..], m);
      assert (ms + [m])[1..] == ms[1..] + [m];
      assert ms[0] + (Flatten(ms[1..]) + m) == (ms[0] + Flatten(ms[1..])) + m;
    }
  }

  datatype Step = Got(message: Octets) | Idle | Failed(error: Error)

  lemma Count(delivered: seq<Octets>, m: Octets, process: seq<Octets> -> bool)
    requires m != []
    ensures KeyUpdates(delivered + [m]) == KeyUpdates(delivered) + if m[0] == KEY_UPDATE then 1 else 0
    ensures forall i :: 0 < i <= |delivered| ==> (delivered + [m])[..i] == delivered[..i]
  {
  }

  /** What is already delivered and what the remaining bytes frame to make up the
      framing of the whole stream. */
  ghost predicate Ahead(stream: Octets, delivered: seq<Octets>, remaining: Octets)
  {
    var tail := Frames(remaining);
    Frames(stream) == Framing(delivered + tail.messages, tail.rest)
  }

  lemma Start(stream: Octets)
    ensures Ahead(stream, [], stream) && Flatten([]) + stream == stream && KeyUpdates([]) == 0
  {
  }

  lemma Settled(stream: Octets, delivered: seq<Octets>, buf: Octets)
    requires Ahead(stream, delivered, buf) && Partial(buf)
    ensures Frames(stream) == Framing(delivered, buf)
  {
  }

  lemma Deliver(stream: Octets, delivered: seq<Octets>, message: Octets, rest: Octets)
    requires Ahead(stream, delivered, message + rest) && Exact(message)
    ensures message != [] && Ahead(stream, delivered + [message], [] + rest)
    ensures delivered <= Frames(stream).messages && delivered + [message] <= Frames(stream).messages
    ensures Whole(message + rest) && Partial([])
    ensures Flatten(delivered) + (message + rest) == Flatten(delivered + [message]) + ([] + rest)
  {
    hide Frames, Flatten;
    WholeAppend(message, rest);
    FlattenSnoc(delivered, message);
    FramesOfExact(message, rest);
    assert [] + rest == rest;
    assert delivered + ([message] + Frames(rest).messages) == (delivered + [message]) + Frames(rest).messages;
  }

  // ------------------------------------------------------- sequences of records

  /** A record's payload and the epoch it was protected in. */
  datatype Record = Record(epoch: Epoch, payload: Octets)

  function Payloads(records: seq<Record>): (ps: seq<Octets>)
    ensures |ps| == |records|
    ensures forall i :: 0 <= i < |records| ==> ps[i] == records[i].payload
  {
    seq(|records|, i requires 0 <= i < |records| => records[i].payload)
  }

  /** The bytes a sequence of records carries. */
  function Carried(records: seq<Record>): Octets
  {
    Flatten(Payloads(records))
  }

  lemma CarriedSnoc(records: seq<Record>, i: nat)
    requires i < |records|
    ensures Carried(records[..i + 1]) == Carried(records[..i]) + records[i].payload
  {
    hide Flatten;
    assert Payloads(records[..i + 1]) == Payloads(records[..i]) + [records[i].payload];
    FlattenSnoc(Payloads(records[..i]), records[i].payload);
  }

  lemma {:induction false} FlattenAppend(a: seq<Octets>, b: seq<Octets>)
    ensures Flatten(a + b) == Flatten(a) + Flatten(b)
    decreases |a|
  {
    if a == [] {
      assert a + b == b;
    } else {
      assert (a + b)[1..] == a[1..] + b;
      FlattenAppend(a[1..], b);
    }
  }

  /** Reading on after everything so far was taken in frames the longer stream. */
  lemma ReadOn(start: Octets, taken: Octets, more: Octets, rest: Octets, delivered: seq<Octets>, buf: Octets,
               next: seq<Octets>, left: Octets)
    requires Framing(delivered, buf) == Frames(start + taken)
    requires next <= Frames(buf + more).messages
    ensures delivered + next <= Frames(start + (taken + more + rest)).messages
    ensures Framing(next, left) == Frames(buf + more) ==>
              Framing(delivered + next, left) == Frames(start + (taken + more))
  {
    hide Frames;
    assert start + (taken + more) == (start + taken) + more;
    FramesResume(start + taken, more);
    assert start + (taken + more + rest) == (start + (taken + more)) + rest;
    FramesResume(start + (taken + more), rest);
    var all := Frames(start + (taken + more)).messages;
    assert delivered + next <= all;
    assert all <= Frames(start + (taken + more + rest)).messages;
  }

  /** The messages whose last byte record `i` carries. */
  ghost function Completed(start: Octets, records: seq<Record>, i: nat): seq<Octets>
    requires i < |records|
  {
    var before := Frames(start + Carried(records[..i])).messages;
    var after := Frames(start + Carried(records[..i + 1])).messages;
    if before <= after then after[|before|..] else []
  }

  lemma CompletedNext(start: Octets, records: seq<Record>, i: nat, next: seq<Octets>)
    requires i < |records|
    requires Frames(start + Carried(records[..i + 1])).messages == Frames(start + Carried(records[..i])).messages + next
    ensures Completed(start, records, i) == next
  {
    hide Frames, Carried;
  }

  /** Why reading stopped in record `i`, after `before` messages had been delivered from the records
      in front of it, the undelivered bytes up to the end of that record being `tail`. */
  ghost predicate StoppedAt(error: Error, first: Option<Epoch>, records: seq<Record>, i: nat, before: nat,
                            delivered: seq<Octets>, tail: Octets, limit: nat, process: seq<Octets> -> bool)
    requires i < |records| && before <= |delivered|
  {
    match error
    case HandshakeSpansEpoch => Some(records[i].epoch) != if i == 0 then first else Some(records[i - 1].epoch)
    case Rejected => delivered != [] && !process(delivered)
    case UnexpectedMessage =>
      KeyUpdates(delivered[before..]) >= MAX_KEY_UPDATES_PER_RECORD && Whole(tail) && tail[0] == KEY_UPDATE
    case _ => Refusal(error, tail, limit)
  }

  ghost predicate Stopped(error: Error, start: Octets, first: Option<Epoch>, records: seq<Record>,
                          delivered: seq<Octets>, limit: nat, process: seq<Octets> -> bool, i: nat, tail: Octets)
  {
    && i < |records|
    && start + Carried(records[..i + 1]) == Flatten(delivered) + tail
    && var before := |Frames(start + Carried(records[..i])).messages|;
    && before <= |delivered| && StoppedAt(error, first, records, i, before, delivered, tail, limit, process)
    && (error == HandshakeSpansEpoch ==> Frames(start + Carried(records[..i])).rest != [])
  }

  /** `read`, record after record: as long as it succeeds, the messages delivered and the
      fragment left are the framing of all the bytes, wherever the records were cut; and
      whatever was delivered before a failure is a prefix of that framing. */
  method ReadAll(r: HsReassembler, records: seq<Record>, process: seq<Octets> -> bool) returns (o: Outcome,
                                                                                                delivered: seq<Octets>)
    requires r.Valid()
    modifies r
    ensures o.Ok? ==> r.Valid() && Framing(delivered, r.buf) == Frames(old(r.buf) + Carried(records))
    ensures delivered <= Frames(old(r.buf) + Carried(records)).messages
    ensures o.Ok? ==> forall i :: 0 < i <= |delivered| ==> process(delivered[..i])
    ensures o.Ok? ==> forall i :: 0 <= i < |records| ==>
                        KeyUpdates(Completed(old(r.buf), records, i)) <= MAX_KEY_UPDATES_PER_RECORD
    ensures o.Err? ==> exists i, tail :: Stopped(o.error, old(r.buf), old(r.epoch), records, delivered, r.limit,
                                                 process, i, tail)
  {
    hide Frames, Flatten, HsReassembler.Valid, Carried, KeyUpdates, Completed, Stopped;
    delivered := [];
    Nothing(r);
    for i := 0 to |records|
      invariant r.Valid() && Framing(delivered, r.buf) == Frames(old(r.buf) + Carried(records[..i]))
      invariant forall k :: 0 < k <= |delivered| ==> process(delivered[..k])
      invariant forall k :: 0 <= k < i ==>
                  KeyUpdates(Completed(old(r.buf), records, k)) <= MAX_KEY_UPDATES_PER_RECORD
      invariant r.buf != [] ==> r.epoch == if i == 0 then old(r.epoch) else Some(records[i - 1].epoch)
    {
      ghost var (before, buf, epoch) := (delivered, r.buf, r.epoch);
      var sofar := delivered;
      var next;
      o, next := r.Read(records[i].epoch, records[i].payload, (ms: seq<Octets>) => process(sofar + ms));
      delivered := sofar + next;
      CarriedSnoc(records, i);
      CarriedRest(records, i + 1);
      ReadOn(old(r.buf), Carried(records[..i]), records[i].payload, Carried(records[i + 1..]), before, buf, next,
             r.buf);
      if o.Err? {
        ghost var tail := Ending(o.error, old(r.buf), old(r.epoch), records, i, before, buf, epoch, next, r.limit,
                                 process);
        assert Stopped(o.error, old(r.buf), old(r.epoch), records, delivered, r.limit, process, i, tail);
        return;
      }
      CompletedNext(old(r.buf), records, i, next);
      forall k | 0 < k <= |delivered| ensures process(delivered[..k]) {
        if k <= |before| {
          assert delivered[..k] == before[..k];
        } else {
          assert delivered[..k] == sofar + next[..k - |before|];
        }
      }
    }
    assert records[..|records|] == records;
    o := Ok;
  }

  /** A failed read says why reading all the records stopped. */
  lemma Ending(error: Error, start: Octets, first: Option<Epoch>, records: seq<Record>, i: nat, before: seq<Octets>,
               buf: Octets, epoch: Option<Epoch>, next: seq<Octets>, limit: nat, process: seq<Octets> -> bool)
    returns (tail: Octets)
    requires i < |records| && Framing(before, buf) == Frames(start + Carried(records[..i]))
    requires Carried(records[..i + 1]) == Carried(records[..i]) + records[i].payload
    requires buf != [] ==> epoch == if i == 0 then first else Some(records[i - 1].epoch)
    requires error == HandshakeSpansEpoch ==> buf != [] && epoch != Some(records[i].epoch) && next == []
    requires error != HandshakeSpansEpoch ==>
               exists rest :: buf + records[i].payload == Flatten(next) + rest &&
                              Justified(error, next, rest, limit, (ms: seq<Octets>) => process(before + ms))
    ensures Stopped(error, start, first, records, before + next, limit, process, i, tail)
  {
    hide Frames, Flatten, KeyUpdates, Whole, Carried, Refusal;
    var more := records[i].payload;
    FramesConserve(start + Carried(records[..i]));
    FlattenAppend(before, next);
    assert (before + next)[|before|..] == next;
    if error == HandshakeSpansEpoch {
      tail := buf + more;
      assert before + next == before;
    } else {
      tail :| buf + more == Flatten(next) + tail &&
              Justified(error, next, tail, limit, (ms: seq<Octets>) => process(before + ms));
    }
    assert start + (Carried(records[..i]) + more) == (start + Carried(records[..i])) + more;
    assert (Flatten(before) + buf) + more == Flatten(before) + (buf + more);
    if error != HandshakeSpansEpoch {
      assert Flatten(before) + (Flatten(next) + tail) == (Flatten(before) + Flatten(next)) + tail;
    }
  }

  lemma CarriedRest(records: seq<Record>, i: nat)
    requires i <= |records|
    ensures Carried(records) == Carried(records[..i]) + Carried(records[i..])
  {
    hide Flatten;
    assert Payloads(records) == Payloads(records[..i]) + Payloads(records[i..]);
    FlattenAppend(Payloads(records[..i]), Payloads(records[i..]));
  }

  lemma Nothing(r: HsReassembler)
    requires r.Valid()
    ensures Carried([]) == [] && r.buf + [] == r.buf && Framing([], r.buf) == Frames(r.buf)
  {
  }

  /** Two readers of the same bytes in differently cut records, if both take everything in,
      deliver the same messages and are left with the same fragment. */
  method FragmentationInvisible(a: HsReassembler, b: HsReassembler, xs: seq<Record>, ys: seq<Record>,
                                process: seq<Octets> -> bool)
    returns (same: bool, p: seq<Octets>, q: seq<Octets>)
    requires a != b && a.Valid() && b.Valid() && a.buf == b.buf && Carried(xs) == Carried(ys)
    modifies a, b
    ensures same ==> p == q && a.buf == b.buf
    ensures p <= q || q <= p
  {
    hide Frames, Flatten, HsReassembler.Valid, Carried;
    ghost var all := Frames(a.buf + Carried(xs)).messages;
    var first, second;
    first, p := ReadAll(a, xs, process);
    second, q := ReadAll(b, ys, process);
    assert p <= all && q <= all;
    same := first.Ok? && second.Ok?;
  }
}
