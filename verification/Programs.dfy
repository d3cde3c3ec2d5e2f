/** Encoding programs that write wire structures field by field. */
module Programs {
  import opened Bytes
  import opened Fields
  import opened Encoding

  /** The program writes exactly the field, or fails when the field does not fit or its
      contents could not be written (`ok` is false). */
  ghost predicate Writes(op: Op, f: Field, shape: Shape, ok: bool)
  {
    Meaning(op) == if ok && Matches(f, shape) then Some(EncodeField(f, shape)) else None
  }

  ghost predicate WritesAll(ops: seq<Op>, fs: seq<Field>, shapes: seq<Shape>, ok: bool)
    requires |fs| == |shapes|
  {
    MeaningAll(ops) == if ok && MatchesAll(fs, shapes) then Some(EncodeFields(fs, shapes)) else None
  }

  predicate AllTrue(oks: seq<bool>)
  {
    forall i :: 0 <= i < |oks| ==> oks[i]
  }

  /** `put_u8` to `put_u32`. */
  function PutNum(n: nat, width: nat): Op
  {
    Put(Be(n, width))
  }

  /** `begin_u8` to `begin_u24`, a slice, `finish`. */
  function PutVec(data: Octets, width: nat): Op
  {
    Framed(width, [Put(data)], false)
  }

  lemma NumWrites(n: nat, width: nat)
    requires n < Span(width)
    ensures Writes(PutNum(n, width), NumF(n), Num(width), true)
  {
  }

  lemma RawWrites(data: Octets)
    ensures Writes(Put(data), RawF(data), Raw(|data|), true)
  {
  }

  lemma NestedWrites(ops: seq<Op>, data: Octets, width: nat, ok: bool)
    requires MeaningAll(ops) == if ok then Some(data) else None
    ensures Writes(Framed(width, ops, false), VecF(data), Vec(width), ok)
  {
  }

  lemma VecWrites(data: Octets, width: nat)
    ensures Writes(PutVec(data, width), VecF(data), Vec(width), true)
  {
    hide Be, Span;
    var ops := [Put(data)];
    assert MeaningAll(ops[1..]) == Some([]);
    assert data + [] == data;
    NestedWrites(ops, data, width, true);
  }

  /** A record is written field by field. */
  lemma {:induction false} RecordWrites(ops: seq<Op>, fs: seq<Field>, shapes: seq<Shape>, oks: seq<bool>)
    requires |ops| == |fs| == |shapes| == |oks|
    requires forall i :: 0 <= i < |ops| ==> Writes(ops[i], fs[i], shapes[i], oks[i])
    ensures WritesAll(ops, fs, shapes, AllTrue(oks))
    decreases |ops|
  {
    hide Meaning, Matches, EncodeField;
    if ops != [] {
      assert Writes(ops[0], fs[0], shapes[0], oks[0]);
      assert forall i :: 0 <= i < |ops| - 1 ==> Writes(ops[1..][i], fs[1..][i], shapes[1..][i], oks[1..][i]);
      RecordWrites(ops[1..], fs[1..], shapes[1..], oks[1..]);
      HeadAndTail(fs, shapes, oks);
    }
  }

  lemma HeadAndTail(fs: seq<Field>, shapes: seq<Shape>, oks: seq<bool>)
    requires |fs| == |shapes| == |oks| > 0
    ensures MatchesAll(fs, shapes) <==> Matches(fs[0], shapes[0]) && MatchesAll(fs[1..], shapes[1..])
    ensures AllTrue(oks) <==> oks[0] && AllTrue(oks[1..])
  {
  }

  function Concat(programs: seq<seq<Op>>): seq<Op>
  {
    if programs == [] then [] else programs[0] + Concat(programs[1..])
  }

  lemma {:induction false} MeaningAppend(a: seq<Op>, b: seq<Op>)
    ensures MeaningAll(a + b) ==
            match (MeaningAll(a), MeaningAll(b))
            case (Some(x), Some(y)) => Some(x + y)
            case _ => None
    decreases |a|
  {
    hide Meaning;
    if a == [] {
      assert a + b == b;
      assert MeaningAll(b).Some? ==> [] + MeaningAll(b).value == MeaningAll(b).value;
    } else {
      assert (a + b)[1..] == a[1..] + b;
      MeaningAppend(a[1..], b);
      match (Meaning(a[0]), MeaningAll(a[1..]), MeaningAll(b))
      case (Some(x), Some(y), Some(z)) => assert x + (y + z) == (x + y) + z;
      case _ =>
    }
  }

  /** A list is written item by item. */
  lemma {:induction false} ListWrites(programs: seq<seq<Op>>, items: seq<seq<Field>>, shapes: seq<Shape>,
                                      oks: seq<bool>)
    requires |programs| == |items| == |oks|
    requires forall i :: 0 <= i < |items| ==> |items[i]| == |shapes|
    requires forall i :: 0 <= i < |items| ==> WritesAll(programs[i], items[i], shapes, oks[i])
    ensures MeaningAll(Concat(programs)) ==
            if AllTrue(oks) && AllMatch(items, shapes) then Some(EncodeList(items, shapes)) else None
    decreases |programs|
  {
    hide MeaningAll, MatchesAll, EncodeFields;
    if programs == [] {
      Empty();
    } else {
      assert WritesAll(programs[0], items[0], shapes, oks[0]);
      assert forall i :: 0 <= i < |items| - 1 ==> WritesAll(programs[1..][i], items[1..][i], shapes, oks[1..][i]);
      ListWrites(programs[1..], items[1..], shapes, oks[1..]);
      MeaningAppend(programs[0], Concat(programs[1..]));
      FirstAndRest(items, shapes, oks);
    }
  }

  lemma Empty()
    ensures MeaningAll([]) == Some([])
  {
  }

  lemma FirstAndRest(items: seq<seq<Field>>, shapes: seq<Shape>, oks: seq<bool>)
    requires |items| == |oks| > 0
    ensures AllMatch(items, shapes) <==> MatchesAll(items[0], shapes) && AllMatch(items[1..], shapes)
    ensures AllTrue(oks) <==> oks[0] && AllTrue(oks[1..])
  {
  }
}
