/** Length-prefixed encoding over three back ends: a growable vector, a bounded buffer
    and a size counter, with frames that roll back when they fail or are dropped. */
module Encoding {
  import opened Bytes

  datatype EncodeError = Overflow | Capacity

  /** An encoding program: raw bytes, or a frame with a length prefix of one to three
      bytes around a nested program; an abandoned frame is dropped without finishing. */
  datatype Op = Put(data: Octets) | Framed(width: nat, body: seq<Op>, abandon: bool)

  const USIZE_MAX: nat := 0xffff_ffff_ffff_ffff

  // ------------------------------------------------------------- the reference

  /** The bytes a program denotes; `None` when some finished frame is too long. */
  function Meaning(op: Op): Option<Octets>
    decreases op, 1
  {
    match op
    case Put(data) => Some(data)
    case Framed(width, body, abandon) =>
      match MeaningAll(body)
      case None => None
      case Some(inner) =>
        if abandon then Some([])
        else if |inner| >= Span(width) then None
        else Some(Be(|inner|, width) + inner)
  }

  function MeaningAll(ops: seq<Op>): Option<Octets>
    decreases ops, 0
  {
    if ops == [] then Some([])
    else
      match (Meaning(ops[0]), MeaningAll(ops[1..]))
      case (Some(a), Some(b)) => Some(a + b)
      case _ => None
  }

  /** The most room a program occupies at any moment, including frames later dropped. */
  function Peak(op: Op): nat
    decreases op, 1
  {
    match op
    case Put(data) => |data|
    case Framed(width, body, _) => width + PeakAll(body)
  }

  function PeakAll(ops: seq<Op>): nat
    decreases ops, 0
  {
    if ops == [] then 0
    else
      var kept := match Meaning(ops[0]) case Some(a) => |a| case None => 0;
      if Peak(ops[0]) >= kept + PeakAll(ops[1..]) then Peak(ops[0]) else kept + PeakAll(ops[1..])
  }

  // ------------------------------------------------------------- the back ends

  datatype Sink =
    | Growable(bytes: Octets)
    | Bounded(bytes: Octets, limit: nat, overflowed: bool)
    | Sized(len: nat, overflowed: bool)

  function Len(s: Sink): nat
  {
    match s case Growable(b) => |b| case Bounded(b, _, _) => |b| case Sized(n, _) => n
  }

  function Contents(s: Sink): Octets
  {
    match s case Growable(b) => b case Bounded(b, _, _) => b case Sized(_, _) => []
  }

  predicate Room(s: Sink, more: nat)
  {
    match s
    case Growable(_) => true
    case Bounded(b, limit, _) => |b| + more <= limit
    case Sized(n, _) => n + more <= USIZE_MAX
  }

  predicate Spoiled(s: Sink)
  {
    match s case Growable(_) => false case Bounded(_, _, o) => o case Sized(_, o) => o
  }

  function Spoil(s: Sink): Sink
  {
    match s
    case Growable(_) => s
    case Bounded(b, limit, _) => Bounded(b, limit, true)
    case Sized(n, _) => Sized(n, true)
  }

  function ErrorOf(s: Sink): EncodeError
  {
    if s.Bounded? then Capacity else Overflow
  }

  function Grow(s: Sink, data: Octets): Sink
  {
    match s
    case Growable(b) => Growable(b + data)
    case Bounded(b, limit, o) => Bounded(b + data, limit, o)
    case Sized(n, o) => Sized(n + |data|, o)
  }

  /** `put_slice`: all or nothing, and nothing once overflowed. A size counter that has
      overflowed keeps counting what still fits. */
  function PutTo(s: Sink, data: Octets): Sink
  {
    match s
    case Growable(_) => Grow(s, data)
    case Bounded(_, _, o) => if o || !Room(s, |data|) then Spoil(s) else Grow(s, data)
    case Sized(_, _) => if Room(s, |data|) then Grow(s, data) else Spoil(s)
  }

  /** `rollback_to` */
  function Rollback(s: Sink, len: nat): Sink
  {
    match s
    case Growable(b) => Growable(if len <= |b| then b[..len] else b)
    case Bounded(b, limit, o) => Bounded(if len <= |b| then b[..len] else b, limit, o)
    case Sized(_, o) => Sized(len, o)
  }

  function PatchBytes(b: Octets, start: nat, width: nat, len: nat): Octets
  {
    if start + width <= |b| then b[..start] + Be(len, width) + b[start + width..] else b
  }

  /** `patch_length_prefix` */
  function Patch(s: Sink, start: nat, width: nat, len: nat): Sink
  {
    match s
    case Growable(b) => Growable(PatchBytes(b, start, width, len))
    case Bounded(b, limit, o) => Bounded(PatchBytes(b, start, width, len), limit, o)
    case Sized(_, _) => s
  }

  function Zeros(width: nat): (z: Octets)
    ensures |z| == width
  {
    seq(width, _ => 0)
  }

  datatype Outcome = Outcome(state: Sink, error: Option<EncodeError>)

  /** Leaving a frame that began at the end of `s`: an error inside or a dropped frame
      rolls back; finishing checks the status and the length, then patches the prefix. */
  function Close(s: Sink, width: nat, abandon: bool, inner: Outcome): Outcome
  {
    var back := Rollback(inner.state, Len(s));
    if inner.error.Some? then Outcome(back, inner.error)
    else if abandon then Outcome(back, None)
    else if Spoiled(inner.state) then Outcome(back, Some(ErrorOf(s)))
    else
      var len := Len(inner.state) - (Len(s) + width);
      if len < 0 || len >= Span(width) then Outcome(back, Some(Overflow))
      else Outcome(Patch(inner.state, Len(s), width, len), None)
  }

  /** `LengthFrame`: begin checks the status and reserves the prefix. */
  function Exec(s: Sink, op: Op): Outcome
    decreases op, 1
  {
    match op
    case Put(data) => Outcome(PutTo(s, data), None)
    case Framed(width, body, abandon) =>
      if Spoiled(s) then Outcome(s, Some(ErrorOf(s)))
      else if !Room(s, width) then Outcome(Spoil(s), Some(ErrorOf(s)))
      else Close(s, width, abandon, ExecAll(Grow(s, Zeros(width)), body))
  }

  function ExecAll(s: Sink, ops: seq<Op>): Outcome
    decreases ops, 0
  {
    if ops == [] then Outcome(s, None)
    else
      var first := Exec(s, ops[0]);
      if first.error.Some? then first else ExecAll(first.state, ops[1..])
  }

  // ---------------------------------------------------------------- what is kept

  /** The later state is the earlier one with bytes added, possibly spoiled. */
  ghost predicate Keeps(a: Sink, b: Sink)
  {
    match a
    case Growable(x) => b.Growable? && x <= b.bytes
    case Bounded(x, limit, o) => b.Bounded? && b.limit == limit && x <= b.bytes && (o ==> b.overflowed)
    case Sized(n, o) => b.Sized? && n <= b.len && (o ==> b.overflowed)
  }

  lemma KeepsTrans(a: Sink, b: Sink, c: Sink)
    requires Keeps(a, b) && Keeps(b, c)
    ensures Keeps(a, c)
  {
  }

  /** Nothing already encoded is ever lost or altered, and overflow is sticky. */
  lemma {:induction false} ExecKeeps(s: Sink, op: Op)
    ensures Keeps(s, Exec(s, op).state)
    ensures Spoiled(s) && s.Bounded? ==> Exec(s, op).state.bytes == s.bytes
    decreases op, 1
  {
    if op.Framed? && !Spoiled(s) && Room(s, op.width) {
      ExecAllKeeps(Grow(s, Zeros(op.width)), op.body);
      FrameKeeps(s, op.width, ExecAll(Grow(s, Zeros(op.width)), op.body).state);
    }
  }

  lemma {:induction false} ExecAllKeeps(s: Sink, ops: seq<Op>)
    ensures Keeps(s, ExecAll(s, ops).state)
    ensures Spoiled(s) && s.Bounded? ==> ExecAll(s, ops).state.bytes == s.bytes
    decreases ops, 0
  {
    if ops != [] {
      ExecKeeps(s, ops[0]);
      var first := Exec(s, ops[0]);
      if first.error.None? {
        ExecAllKeeps(first.state, ops[1..]);
        KeepsTrans(s, first.state, ExecAll(first.state, ops[1..]).state);
      }
    }
  }

  lemma FrameKeeps(s: Sink, width: nat, inner: Sink)
    requires Keeps(Grow(s, Zeros(width)), inner)
    ensures Keeps(s, Rollback(inner, Len(s)))
    ensures forall len: nat :: Keeps(s, Patch(inner, Len(s), width, len))
    ensures Len(inner) >= Len(s) + width
  {
    if !s.Sized? {
      assert s.bytes <= s.bytes + Zeros(width) <= inner.bytes;
      assert inner.bytes[..Len(s)] == s.bytes;
    }
  }

  /** A frame that is dropped or fails leaves exactly the bytes that preceded it. */
  lemma FrameRestores(s: Sink, width: nat, body: seq<Op>, abandon: bool)
    requires abandon || Exec(s, Framed(width, body, abandon)).error.Some?
    ensures var after := Exec(s, Framed(width, body, abandon)).state;
            Len(after) == Len(s) && (!s.Sized? ==> !after.Sized? && after.bytes == s.bytes)
  {
    if !Spoiled(s) && Room(s, width) {
      var inner := ExecAll(Grow(s, Zeros(width)), body).state;
      ExecAllKeeps(Grow(s, Zeros(width)), body);
      FrameKeeps(s, width, inner);
      if !s.Sized? {
        assert inner.bytes[..Len(s)] == s.bytes by {
          assert s.bytes <= s.bytes + Zeros(width) <= inner.bytes;
        }
      }
    }
  }

  // -------------------------------------------------------- back ends agree

  /** The program has a meaning and the back end has room for its peak. */
  predicate Fits(s: Sink, peak: nat, bytes: Option<Octets>)
  {
    bytes.Some? && Room(s, peak)
  }

  lemma {:induction false} KeptWithinPeak(op: Op)
    requires Meaning(op).Some?
    ensures |Meaning(op).value| <= Peak(op)
    decreases op, 1
  {
    if op.Framed? {
      KeptWithinPeakAll(op.body);
    }
  }

  lemma {:induction false} KeptWithinPeakAll(ops: seq<Op>)
    requires MeaningAll(ops).Some?
    ensures |MeaningAll(ops).value| <= PeakAll(ops)
    decreases ops, 0
  {
    if ops != [] {
      KeptWithinPeak(ops[0]);
      KeptWithinPeakAll(ops[1..]);
    }
  }

  lemma PatchGrownBytes(b: Octets, width: nat, inner: Octets)
    ensures PatchBytes(b + Zeros(width) + inner, |b|, width, |inner|) == b + (Be(|inner|, width) + inner)
    ensures (b + Zeros(width) + inner)[..|b|] == b
  {
    hide Be;
    var all := b + Zeros(width) + inner;
    assert all[|b| + width..] == inner;
    assert all[..|b|] == b;
  }

  lemma PatchGrown(s: Sink, width: nat, inner: Octets)
    ensures Patch(Grow(Grow(s, Zeros(width)), inner), Len(s), width, |inner|) == Grow(s, Be(|inner|, width) + inner)
    ensures Rollback(Grow(Grow(s, Zeros(width)), inner), Len(s)) == Grow(s, [])
  {
    hide Be, PatchBytes;
    if !s.Sized? {
      PatchGrownBytes(s.bytes, width, inner);
      assert s.bytes + [] == s.bytes;
    }
  }

  lemma RoomGrown(s: Sink, a: Octets, n: nat)
    ensures Room(Grow(s, a), n) <==> Room(s, |a| + n)
    ensures Spoiled(Grow(s, a)) == Spoiled(s) && Len(Grow(s, a)) == Len(s) + |a|
  {
  }

  lemma CloseMeans(s: Sink, width: nat, abandon: bool, inner: Octets)
    requires !Spoiled(s)
    ensures var closed := Close(s, width, abandon, Outcome(Grow(Grow(s, Zeros(width)), inner), None));
            if abandon then closed == Outcome(Grow(s, []), None)
            else if |inner| >= Span(width) then closed.error == Some(Overflow)
            else closed == Outcome(Grow(s, Be(|inner|, width) + inner), None)
  {
    hide Be, Patch, Rollback, Grow, Spoiled, Len, Zeros;
    PatchGrown(s, width, inner);
    RoomGrown(s, Zeros(width), 0);
    RoomGrown(Grow(s, Zeros(width)), inner, 0);
  }

  lemma CloseSpoils(s: Sink, width: nat, abandon: bool, inner: Outcome)
    requires inner.error.Some? || Spoiled(inner.state)
    ensures var closed := Close(s, width, abandon, inner);
            closed.error.Some? || Spoiled(closed.state)
  {
  }

  lemma RoomMonotone(s: Sink, a: nat, b: nat)
    requires Room(s, b) && a <= b
    ensures Room(s, a)
  {
  }

  /** On every back end a program either appends exactly its bytes, which it does when
      it has a meaning and its peak fits, or reports an error or is left spoiled. */
  lemma {:induction false} ExecMeans(s: Sink, op: Op)
    requires !Spoiled(s) && Room(s, 0)
    ensures Fits(s, Peak(op), Meaning(op)) ==> Exec(s, op) == Outcome(Grow(s, Meaning(op).value), None)
    ensures !Fits(s, Peak(op), Meaning(op)) ==> Exec(s, op).error.Some? || Spoiled(Exec(s, op).state)
    decreases op, 1
  {
    if op.Framed? {
      hide Close, Grow, Be, Room, Spoiled;
      var width, body := op.width, op.body;
      if Room(s, Peak(op)) {
        RoomMonotone(s, width, Peak(op));
      }
      if Room(s, width) {
        var begun := Grow(s, Zeros(width));
        RoomGrown(s, Zeros(width), 0);
        RoomGrown(s, Zeros(width), PeakAll(body));
        ExecAllMeans(begun, body);
        if Fits(begun, PeakAll(body), MeaningAll(body)) {
          CloseMeans(s, width, op.abandon, MeaningAll(body).value);
        } else {
          CloseSpoils(s, width, op.abandon, ExecAll(begun, body));
        }
      }
    }
  }

  lemma SpoiledStays(s: Sink, ops: seq<Op>)
    requires Spoiled(s)
    ensures Spoiled(ExecAll(s, ops).state)
  {
    ExecAllKeeps(s, ops);
  }

  lemma GrowTwice(s: Sink, a: Octets, b: Octets)
    ensures Grow(Grow(s, a), b) == Grow(s, a + b)
  {
    if !s.Sized? {
      assert (s.bytes + a) + b == s.bytes + (a + b);
    }
  }

  lemma {:induction false} ExecAllMeans(s: Sink, ops: seq<Op>)
    requires !Spoiled(s) && Room(s, 0)
    ensures Fits(s, PeakAll(ops), MeaningAll(ops)) ==> ExecAll(s, ops) == Outcome(Grow(s, MeaningAll(ops).value), None)
    ensures !Fits(s, PeakAll(ops), MeaningAll(ops)) ==> ExecAll(s, ops).error.Some? || Spoiled(ExecAll(s, ops).state)
    decreases ops, 0
  {
    if ops == [] {
      assert Grow(s, []) == s by {
        if !s.Sized? { assert s.bytes + [] == s.bytes; }
      }
    } else {
      hide Exec, Grow, Room, Spoiled, Meaning, Peak;
      var first, rest := Exec(s, ops[0]), ops[1..];
      ExecMeans(s, ops[0]);
      if Fits(s, Peak(ops[0]), Meaning(ops[0])) {
        var a := Meaning(ops[0]).value;
        KeptWithinPeak(ops[0]);
        RoomMonotone(s, |a|, Peak(ops[0]));
        RoomGrown(s, a, 0);
        RoomGrown(s, a, PeakAll(rest));
        ExecAllMeans(Grow(s, a), rest);
        if Room(s, PeakAll(ops)) {
          RoomMonotone(s, |a| + PeakAll(rest), PeakAll(ops));
        }
        if MeaningAll(rest).Some? {
          GrowTwice(s, a, MeaningAll(rest).value);
        }
      } else {
        if Room(s, PeakAll(ops)) {
          RoomMonotone(s, Peak(ops[0]), PeakAll(ops));
        }
        if first.error.None? {
          SpoiledStays(first.state, rest);
        }
      }
    }
  }

  /** A bounded buffer ends clean exactly when the growable one succeeds and the peak
      fits; then both appended the same bytes and the counter counted them. Otherwise it
      errs or is spoiled. */
  lemma BackEndsAgree(ops: seq<Op>, vec: Octets, buffer: Octets, limit: nat, n: nat)
    requires |buffer| <= limit && n <= USIZE_MAX
    ensures var g := ExecAll(Growable(vec), ops);
            var b := ExecAll(Bounded(buffer, limit, false), ops);
            var z := ExecAll(Sized(n, false), ops);
            && (g.error.None? <==> MeaningAll(ops).Some?)
            && (b.error.None? && !Spoiled(b.state) <==> g.error.None? && |buffer| + PeakAll(ops) <= limit)
            && (z.error.None? && !Spoiled(z.state) <==> g.error.None? && n + PeakAll(ops) <= USIZE_MAX)
            && (g.error.None? ==> g.state == Growable(vec + MeaningAll(ops).value))
            && (b.error.None? && !Spoiled(b.state) ==> b.state == Bounded(buffer + MeaningAll(ops).value, limit, false))
            && (z.error.None? && !Spoiled(z.state) ==> z.state == Sized(n + |MeaningAll(ops).value|, false))
  {
    hide ExecAll;
    ExecAllMeans(Growable(vec), ops);
    ExecAllMeans(Bounded(buffer, limit, false), ops);
    ExecAllMeans(Sized(n, false), ops);
    NeverSpoiled(vec, ops);
  }

  lemma NeverSpoiled(vec: Octets, ops: seq<Op>)
    ensures !Spoiled(ExecAll(Growable(vec), ops).state)
  {
    ExecAllKeeps(Growable(vec), ops);
  }
}
