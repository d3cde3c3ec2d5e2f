/** Wire structures as sequences of fields: fixed integers, fixed byte strings and
    length-prefixed vectors. Decoding and encoding are inverse, with no slack. */
module Fields {
  import opened Bytes

  datatype Shape = Num(width: nat) | Raw(len: nat) | Vec(width: nat)

  datatype Field = NumF(value: nat) | RawF(data: Octets) | VecF(data: Octets)

  /** The field has the shape and its length or value can be written down. */
  predicate Matches(f: Field, shape: Shape)
  {
    match shape
    case Num(width) => f.NumF? && f.value < Span(width)
    case Raw(len) => f.RawF? && |f.data| == len
    case Vec(width) => f.VecF? && |f.data| < Span(width)
  }

  function EncodeField(f: Field, shape: Shape): Octets
  {
    match (f, shape)
    case (NumF(value), Num(width)) => Be(value, width)
    case (RawF(data), _) => data
    case (VecF(data), Vec(width)) => Be(|data|, width) + data
    case _ => []
  }

  datatype Decoded<T> = Got(value: T, rest: Octets) | Bad

  /** `Reader::u8` to `u32`, `take` and `vec_u8` to `vec_u24`. */
  function DecodeField(s: Octets, shape: Shape): Decoded<Field>
  {
    match shape
    case Num(width) =>
      if |s| < width then Bad else Got(NumF(Value(s[..width])), s[width..])
    case Raw(len) =>
      if |s| < len then Bad else Got(RawF(s[..len]), s[len..])
    case Vec(width) =>
      if |s| < width then Bad
      else
        var n := Value(s[..width]);
        if |s| < width + n then Bad else Got(VecF(s[width..width + n]), s[width + n..])
  }

  lemma FieldCanonical(s: Octets, shape: Shape)
    requires DecodeField(s, shape).Got?
    ensures var d := DecodeField(s, shape);
            Matches(d.value, shape) && s == EncodeField(d.value, shape) + d.rest
  {
    hide Be, Value, Span;
    match shape
    case Num(width) =>
      BeValue(s[..width]);
    case Raw(len) =>
    case Vec(width) =>
      BeValue(s[..width]);
      var n := Value(s[..width]);
      assert s == s[..width] + s[width..width + n] + s[width + n..];
  }

  lemma FieldComplete(f: Field, shape: Shape, rest: Octets)
    requires Matches(f, shape)
    ensures DecodeField(EncodeField(f, shape) + rest, shape) == Got(f, rest)
  {
    hide Be, Value, Span;
    var s := EncodeField(f, shape) + rest;
    match shape
    case Num(width) =>
      ValueBe(f.value, width);
      assert s[..width] == Be(f.value, width) && s[width..] == rest;
    case Raw(len) =>
      assert s[..len] == f.data && s[len..] == rest;
    case Vec(width) =>
      ValueBe(|f.data|, width);
      assert s[..width] == Be(|f.data|, width);
      assert s[width..width + |f.data|] == f.data && s[width + |f.data|..] == rest;
  }

  // ----------------------------------------------------------------- records

  predicate MatchesAll(fs: seq<Field>, shapes: seq<Shape>)
  {
    |fs| == |shapes| && forall i :: 0 <= i < |fs| ==> Matches(fs[i], shapes[i])
  }

  function EncodeFields(fs: seq<Field>, shapes: seq<Shape>): Octets
    requires |fs| == |shapes|
    decreases |fs|
  {
    if fs == [] then [] else EncodeField(fs[0], shapes[0]) + EncodeFields(fs[1..], shapes[1..])
  }

  function DecodeFields(s: Octets, shapes: seq<Shape>): Decoded<seq<Field>>
    decreases |shapes|
  {
    if shapes == [] then Got([], s)
    else
      match DecodeField(s, shapes[0])
      case Bad => Bad
      case Got(f, rest) =>
        match DecodeFields(rest, shapes[1..])
        case Bad => Bad
        case Got(fs, last) => Got([f] + fs, last)
  }

  /** Whatever decodes was the encoding of its value. */
  lemma {:induction false} FieldsCanonical(s: Octets, shapes: seq<Shape>)
    requires DecodeFields(s, shapes).Got?
    ensures var d := DecodeFields(s, shapes);
            MatchesAll(d.value, shapes) && s == EncodeFields(d.value, shapes) + d.rest
    decreases |shapes|
  {
    hide EncodeField, DecodeField, Matches;
    if shapes != [] {
      FieldCanonical(s, shapes[0]);
      var first := DecodeField(s, shapes[0]);
      FieldsCanonical(first.rest, shapes[1..]);
      var later := DecodeFields(first.rest, shapes[1..]);
      assert ([first.value] + later.value)[1..] == later.value;
    }
  }

  /** Whatever encodes decodes back to its value. */
  lemma {:induction false} FieldsComplete(fs: seq<Field>, shapes: seq<Shape>, rest: Octets)
    requires MatchesAll(fs, shapes)
    ensures DecodeFields(EncodeFields(fs, shapes) + rest, shapes) == Got(fs, rest)
    decreases |fs|
  {
    hide EncodeField, DecodeField, Matches;
    if fs == [] {
      assert [] + rest == rest;
    } else {
      var tail := EncodeFields(fs[1..], shapes[1..]) + rest;
      assert EncodeFields(fs, shapes) + rest == EncodeField(fs[0], shapes[0]) + tail;
      FieldComplete(fs[0], shapes[0], tail);
      FieldsComplete(fs[1..], shapes[1..], rest);
      assert [fs[0]] + fs[1..] == fs;
    }
  }

  // -------------------------------------------------------------------- lists

  /** Every item takes up at least one byte. */
  predicate Solid(shapes: seq<Shape>)
  {
    shapes != [] && match shapes[0] case Num(w) => w > 0 case Raw(n) => n > 0 case Vec(w) => w > 0
  }

  lemma SolidProgress(s: Octets, shapes: seq<Shape>)
    requires Solid(shapes) && DecodeFields(s, shapes).Got?
    ensures |DecodeFields(s, shapes).rest| < |s|
  {
    hide Value;
    var first := DecodeField(s, shapes[0]);
    assert |first.rest| < |s|;
    RestShrinks(first.rest, shapes[1..]);
  }

  lemma {:induction false} RestShrinks(s: Octets, shapes: seq<Shape>)
    requires DecodeFields(s, shapes).Got?
    ensures |DecodeFields(s, shapes).rest| <= |s|
    decreases |shapes|
  {
    hide Value;
    if shapes != [] {
      RestShrinks(DecodeField(s, shapes[0]).rest, shapes[1..]);
    }
  }

  function EncodeList(items: seq<seq<Field>>, shapes: seq<Shape>): Octets
    requires forall i :: 0 <= i < |items| ==> |items[i]| == |shapes|
    decreases |items|
  {
    if items == [] then [] else EncodeFields(items[0], shapes) + EncodeList(items[1..], shapes)
  }

  /** Items until the bytes run out. */
  function DecodeList(s: Octets, shapes: seq<Shape>): Option<seq<seq<Field>>>
    requires Solid(shapes)
    decreases |s|
  {
    if s == [] then Some([])
    else
      match DecodeFields(s, shapes)
      case Bad => None
      case Got(item, rest) =>
        SolidProgress(s, shapes);
        match DecodeList(rest, shapes)
        case None => None
        case Some(items) => Some([item] + items)
  }

  predicate AllMatch(items: seq<seq<Field>>, shapes: seq<Shape>)
  {
    forall i :: 0 <= i < |items| ==> MatchesAll(items[i], shapes)
  }

  lemma {:induction false} ListCanonical(s: Octets, shapes: seq<Shape>)
    requires Solid(shapes) && DecodeList(s, shapes).Some?
    ensures var items := DecodeList(s, shapes).value;
            AllMatch(items, shapes) && s == EncodeList(items, shapes)
    decreases |s|
  {
    hide EncodeFields, DecodeFields, MatchesAll;
    if s != [] {
      FieldsCanonical(s, shapes);
      var first := DecodeFields(s, shapes);
      SolidProgress(s, shapes);
      ListCanonical(first.rest, shapes);
      var later := DecodeList(first.rest, shapes).value;
      assert ([first.value] + later)[1..] == later;
      ListLengths([first.value] + later, shapes);
    }
  }

  lemma ListLengths(items: seq<seq<Field>>, shapes: seq<Shape>)
    requires AllMatch(items, shapes)
    ensures forall i :: 0 <= i < |items| ==> |items[i]| == |shapes|
  {
  }

  lemma {:induction false} ListComplete(items: seq<seq<Field>>, shapes: seq<Shape>)
    requires Solid(shapes) && AllMatch(items, shapes)
    ensures DecodeList(EncodeList(items, shapes), shapes) == Some(items)
    decreases |items|
  {
    hide EncodeFields, DecodeFields, MatchesAll, Solid;
    ListLengths(items, shapes);
    if items != [] {
      var tail := EncodeList(items[1..], shapes);
      var s := EncodeFields(items[0], shapes) + tail;
      FieldsComplete(items[0], shapes, tail);
      SolidProgress(s, shapes);
      ListComplete(items[1..], shapes);
      assert [items[0]] + items[1..] == items;
      assert s != [];
    }
  }
}
