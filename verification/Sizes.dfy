/** Sizes of encoding programs, counted without producing bytes. */
module Sizes {
  import opened Bytes
  import opened Encoding
  import opened Programs

  function Size(op: Op): nat
    decreases op, 1
  {
    match op
    case Put(data) => |data|
    case Framed(width, body, _) => width + SizeAll(body)
  }

  function SizeAll(ops: seq<Op>): nat
    decreases ops, 0
  {
    if ops == [] then 0 else Size(ops[0]) + SizeAll(ops[1..])
  }

  /** No frame is dropped and every frame's contents fit its length prefix. */
  predicate Closes(op: Op)
    decreases op, 1
  {
    match op
    case Put(_) => true
    case Framed(width, body, abandon) => !abandon && ClosesAll(body) && SizeAll(body) < Span(width)
  }

  predicate ClosesAll(ops: seq<Op>)
    decreases ops, 0
  {
    ops == [] || (Closes(ops[0]) && ClosesAll(ops[1..]))
  }

  /** A fitting program encodes, into exactly its size, and never takes more room on the way. */
  lemma {:induction false} ClosesEncodes(op: Op)
    requires Closes(op)
    ensures Meaning(op).Some? && |Meaning(op).value| == Size(op) && Peak(op) == Size(op)
    decreases op, 1
  {
    match op
    case Put(_) =>
    case Framed(width, body, _) =>
      ClosesAllEncodes(body);
  }

  lemma {:induction false} ClosesAllEncodes(ops: seq<Op>)
    requires ClosesAll(ops)
    ensures MeaningAll(ops).Some? && |MeaningAll(ops).value| == SizeAll(ops) && PeakAll(ops) == SizeAll(ops)
    decreases ops, 0
  {
    if ops != [] {
      hide Meaning, Peak, Closes, Size;
      ClosesEncodes(ops[0]);
      ClosesAllEncodes(ops[1..]);
    }
  }

  lemma {:induction false} SizeAppend(a: seq<Op>, b: seq<Op>)
    ensures SizeAll(a + b) == SizeAll(a) + SizeAll(b)
    ensures ClosesAll(a + b) <==> ClosesAll(a) && ClosesAll(b)
    decreases |a|
  {
    hide Size, Closes;
    if a == [] {
      assert a + b == b;
    } else {
      assert (a + b)[1..] == a[1..] + b;
      SizeAppend(a[1..], b);
    }
  }

  lemma One(a: Op)
    ensures SizeAll([a]) == Size(a) && (ClosesAll([a]) <==> Closes(a))
  {
  }

  lemma Two(a: Op, b: Op)
    ensures SizeAll([a, b]) == Size(a) + Size(b) && (ClosesAll([a, b]) <==> Closes(a) && Closes(b))
  {
    hide Size, Closes;
    One(b);
    assert [a, b][1..] == [b];
  }

  lemma Number(n: nat, width: nat)
    ensures Size(PutNum(n, width)) == width && Closes(PutNum(n, width))
  {
  }

  lemma FrameSize(width: nat, ops: seq<Op>)
    ensures Size(Framed(width, ops, false)) == width + SizeAll(ops)
    ensures Closes(Framed(width, ops, false)) <==> ClosesAll(ops) && SizeAll(ops) < Span(width)
  {
  }

  lemma Vector(data: Octets, width: nat)
    ensures Size(PutVec(data, width)) == width + |data|
    ensures Closes(PutVec(data, width)) <==> |data| < Span(width)
  {
    One(Put(data));
    FrameSize(width, [Put(data)]);
  }

  /** A program that fits a buffer's room is written there whole, without overflow. */
  lemma FitsBuffer(ops: seq<Op>, buffer: Octets, limit: nat)
    requires ClosesAll(ops) && |buffer| + SizeAll(ops) <= limit
    ensures var run := ExecAll(Bounded(buffer, limit, false), ops);
            && run.error.None? && MeaningAll(ops).Some?
            && run.state == Bounded(buffer + MeaningAll(ops).value, limit, false)
  {
    hide ClosesAll, SizeAll, MeaningAll, ExecAll, PeakAll;
    ClosesAllEncodes(ops);
    BackEndsAgree(ops, [], buffer, limit, 0);
  }

  /** No frame is dropped. */
  predicate Whole(op: Op)
    decreases op, 1
  {
    match op
    case Put(_) => true
    case Framed(_, body, abandon) => !abandon && WholeAll(body)
  }

  predicate WholeAll(ops: seq<Op>)
    decreases ops, 0
  {
    ops == [] || (Whole(ops[0]) && WholeAll(ops[1..]))
  }

  /** Without dropped frames, encoding succeeds exactly when every frame's contents fit. */
  lemma {:induction false} EncodesCloses(op: Op)
    requires Whole(op)
    ensures Meaning(op).Some? <==> Closes(op)
    decreases op, 1
  {
    match op
    case Put(_) =>
    case Framed(width, body, _) =>
      EncodesAllCloses(body);
      if ClosesAll(body) {
        ClosesAllEncodes(body);
      }
  }

  lemma {:induction false} EncodesAllCloses(ops: seq<Op>)
    requires WholeAll(ops)
    ensures MeaningAll(ops).Some? <==> ClosesAll(ops)
    decreases ops, 0
  {
    if ops != [] {
      hide Meaning, Closes, Whole;
      EncodesCloses(ops[0]);
      EncodesAllCloses(ops[1..]);
    }
  }

  lemma {:induction false} WholeAppend(a: seq<Op>, b: seq<Op>)
    ensures WholeAll(a + b) <==> WholeAll(a) && WholeAll(b)
    decreases |a|
  {
    hide Whole;
    if a == [] {
      assert a + b == b;
    } else {
      assert (a + b)[1..] == a[1..] + b;
      WholeAppend(a[1..], b);
    }
  }

  lemma WholeOne(a: Op)
    ensures WholeAll([a]) <==> Whole(a)
  {
  }

  lemma WholeTwo(a: Op, b: Op)
    ensures WholeAll([a, b]) <==> Whole(a) && Whole(b)
  {
    WholeOne(b);
    assert [a, b][1..] == [b];
  }

  /** What `EncodedSize` measures. */
  lemma Measured(ops: seq<Op>, n: nat)
    requires WholeAll(ops) && ExecAll(Sized(0, false), ops) == Outcome(Sized(n, false), None)
    ensures ClosesAll(ops) && SizeAll(ops) == n
  {
    hide ExecAll, MeaningAll, SizeAll, ClosesAll, WholeAll, PeakAll;
    BackEndsAgree(ops, [], [], 0, 0);
    EncodesAllCloses(ops);
    ClosesAllEncodes(ops);
  }
}
