/** Extension lists: each type at most once, at most 64 of them. */
module Extensions {
  import opened Bytes
  import opened Fields

  const MAX_EXTENSIONS: nat := 64

  type U16 = n: nat | n < 65536

  datatype Extension = Extension(ty: U16, data: Octets)

  const EXTENSION: seq<Shape> := [Num(2), Vec(2)]

  // ---------------------------------------------------------------- the codec

  predicate Distinct(exts: seq<Extension>)
  {
    forall i, j :: 0 <= i < j < |exts| ==> exts[i].ty != exts[j].ty
  }

  /** At most 64 extensions, of distinct types, each within its width. */
  predicate ValidExtensions(exts: seq<Extension>)
  {
    && |exts| <= MAX_EXTENSIONS && Distinct(exts)
    && forall i :: 0 <= i < |exts| ==> MatchesAll(ExtensionFields(exts[i]), EXTENSION)
  }

  function ExtensionFields(e: Extension): (fs: seq<Field>)
    ensures |fs| == 2
  {
    [NumF(e.ty), VecF(e.data)]
  }

  function ExtensionItems(exts: seq<Extension>): (items: seq<seq<Field>>)
    ensures |items| == |exts|
    ensures forall i :: 0 <= i < |exts| ==> items[i] == ExtensionFields(exts[i])
  {
    seq(|exts|, i requires 0 <= i < |exts| => ExtensionFields(exts[i]))
  }

  function ToExtension(fs: seq<Field>): Extension
    requires MatchesAll(fs, EXTENSION)
  {
    assert Matches(fs[0], Num(2)) && Matches(fs[1], Vec(2));
    Extension(fs[0].value, fs[1].data)
  }

  function ToExtensions(items: seq<seq<Field>>): (exts: seq<Extension>)
    requires AllMatch(items, EXTENSION)
    ensures |exts| == |items|
    ensures forall i :: 0 <= i < |items| ==> exts[i] == ToExtension(items[i])
  {
    seq(|items|, i requires 0 <= i < |items| => ToExtension(items[i]))
  }

  function EncodeExtensions(exts: seq<Extension>): Octets
  {
    EncodeList(ExtensionItems(exts), EXTENSION)
  }

  /** `Extensions::decode` on the list's bytes: refuses a type seen before and a
      sixty-fifth extension. */
  function DecodeExtensions(s: Octets): Option<seq<Extension>>
  {
    match DecodeList(s, EXTENSION)
    case None => None
    case Some(items) =>
      ListCanonical(s, EXTENSION);
      var exts := ToExtensions(items);
      if |exts| <= MAX_EXTENSIONS && Distinct(exts) then Some(exts) else None
  }

  lemma FieldsOfExtension(fs: seq<Field>)
    requires MatchesAll(fs, EXTENSION)
    ensures ExtensionFields(ToExtension(fs)) == fs
  {
  }

  lemma ExtensionsCanonical(s: Octets)
    requires DecodeExtensions(s).Some?
    ensures var exts := DecodeExtensions(s).value;
            ValidExtensions(exts) && EncodeExtensions(exts) == s
  {
    hide EncodeList, DecodeList, MatchesAll, Span;
    ListCanonical(s, EXTENSION);
    var items := DecodeList(s, EXTENSION).value;
    var exts := ToExtensions(items);
    forall i | 0 <= i < |items| ensures ExtensionItems(exts)[i] == items[i] {
      FieldsOfExtension(items[i]);
    }
    assert ExtensionItems(exts) == items;
  }

  lemma ExtensionsComplete(exts: seq<Extension>)
    requires ValidExtensions(exts)
    ensures DecodeExtensions(EncodeExtensions(exts)) == Some(exts)
  {
    hide EncodeList, DecodeList, Span;
    var items := ExtensionItems(exts);
    ListComplete(items, EXTENSION);
    forall i | 0 <= i < |exts| ensures ToExtension(items[i]) == exts[i] {
    }
    assert ToExtensions(items) == exts;
  }

  // ------------------------------------------------- the sorted duplicate check

  ghost predicate Ascending(seen: seq<nat>)
  {
    forall i, j :: 0 <= i < j < |seen| ==> seen[i] < seen[j]
  }

  /** `binary_search`: where the value is, or where it belongs. */
  method Search(seen: seq<nat>, ty: nat) returns (found: bool, at: nat)
    requires Ascending(seen)
    ensures at <= |seen|
    ensures found <==> ty in seen
    ensures !found ==> forall i :: 0 <= i < at ==> seen[i] < ty
    ensures !found ==> forall i :: at <= i < |seen| ==> seen[i] > ty
  {
    var low, high := 0, |seen|;
    while low < high
      invariant 0 <= low <= high <= |seen|
      invariant forall i :: 0 <= i < low ==> seen[i] < ty
      invariant forall i :: high <= i < |seen| ==> seen[i] > ty
    {
      var middle := (low + high) / 2;
      if seen[middle] == ty {
        return true, middle;
      } else if seen[middle] < ty {
        low := middle + 1;
      } else {
        high := middle;
      }
    }
    return false, low;
  }

  function Types(exts: seq<Extension>): set<nat>
  {
    set e | e in exts :: e.ty
  }

  lemma TypesSnoc(exts: seq<Extension>, e: Extension)
    ensures Types(exts + [e]) == Types(exts) + {e.ty}
    ensures Distinct(exts + [e]) <==> Distinct(exts) && e.ty !in Types(exts)
  {
    var all := exts + [e];
    assert all[|exts|] == e;
    forall x | x in exts ensures x in all {
      var i :| 0 <= i < |exts| && exts[i] == x;
      assert all[i] == x;
    }
    if Distinct(all) {
      assert forall i, j :: 0 <= i < j < |exts| ==> all[i] == exts[i] && all[j] == exts[j];
      forall i | 0 <= i < |exts| ensures exts[i].ty != e.ty {
        assert all[i].ty != all[|exts|].ty;
      }
    }
  }

  /** `Extensions::decode`: one pass with the types seen so far in a sorted array of 64. */
  method DecodeExtensionList(s: Octets) returns (r: Option<seq<Extension>>)
    ensures r == DecodeExtensions(s)
  {
    hide Span, Remaining, DecodeFields, DecodeList, MatchesAll, ToExtension, Distinct, Types, DecodeExtensions;
    var rest, exts, seen := s, [], [];
    NothingRead(s);
    while rest != []
      invariant Remaining(s, exts, rest)
      invariant |exts| == |seen| <= MAX_EXTENSIONS && Distinct(exts)
      invariant Ascending(seen) && (set t | t in seen) == Types(exts)
      decreases |rest|
    {
      var item := DecodeFields(rest, EXTENSION);
      if item.Bad? {
        BadItem(s, exts, rest);
        return None;
      }
      FieldsCanonical(rest, EXTENSION);
      SolidProgress(rest, EXTENSION);
      var e := ToExtension(item.value);
      TypesSnoc(exts, e);
      TakeItem(s, exts, rest);
      exts, rest := exts + [e], item.rest;
      var found, at := Search(seen, e.ty);
      if found || |seen| == MAX_EXTENSIONS {
        NotValid(s, exts, rest);
        return None;
      }
      ghost var before := seen;
      seen := seen[..at] + [e.ty] + seen[at..];
      InsertedTypes(before, at, e.ty);
    }
    EverythingRead(s, exts);
    r := Some(exts);
  }

  lemma InsertedTypes(seen: seq<nat>, at: nat, ty: nat)
    requires at <= |seen|
    ensures (set t | t in seen[..at] + [ty] + seen[at..]) == (set t | t in seen) + {ty}
  {
  }

  /** The items still to come complete those already read. */
  ghost predicate Remaining(s: Octets, exts: seq<Extension>, rest: Octets)
  {
    match DecodeList(rest, EXTENSION)
    case None => DecodeList(s, EXTENSION).None?
    case Some(later) =>
      DecodeList(s, EXTENSION).Some? && AllMatch(later, EXTENSION)
        && AllMatch(DecodeList(s, EXTENSION).value, EXTENSION) &&
      ToExtensions(DecodeList(s, EXTENSION).value) == exts + ToExtensions(later)
  }

  lemma NothingRead(s: Octets)
    ensures Remaining(s, [], s) && Distinct([]) && Types([]) == {}
  {
    hide DecodeList, MatchesAll;
    if DecodeList(s, EXTENSION).Some? {
      ListCanonical(s, EXTENSION);
      var all := ToExtensions(DecodeList(s, EXTENSION).value);
      assert [] + all == all;
    }
  }

  lemma BadItem(s: Octets, exts: seq<Extension>, rest: Octets)
    requires Remaining(s, exts, rest) && rest != [] && DecodeFields(rest, EXTENSION).Bad?
    ensures DecodeExtensions(s) == None
  {
  }

  lemma TakeItem(s: Octets, exts: seq<Extension>, rest: Octets)
    requires Remaining(s, exts, rest) && rest != [] && DecodeFields(rest, EXTENSION).Got?
    requires MatchesAll(DecodeFields(rest, EXTENSION).value, EXTENSION)
    ensures var item := DecodeFields(rest, EXTENSION);
            Remaining(s, exts + [ToExtension(item.value)], item.rest)
  {
    hide DecodeFields, MatchesAll, ToExtension;
    var item := DecodeFields(rest, EXTENSION);
    SolidProgress(rest, EXTENSION);
    if DecodeList(rest, EXTENSION).Some? {
      var later := DecodeList(item.rest, EXTENSION).value;
      ListCanonical(item.rest, EXTENSION);
      assert ToExtensions([item.value] + later) == [ToExtension(item.value)] + ToExtensions(later);
      assert exts + ([ToExtension(item.value)] + ToExtensions(later)) ==
             (exts + [ToExtension(item.value)]) + ToExtensions(later);
    }
  }

  lemma NotValid(s: Octets, exts: seq<Extension>, rest: Octets)
    requires Remaining(s, exts, rest) && (|exts| > MAX_EXTENSIONS || !Distinct(exts))
    ensures DecodeExtensions(s) == None
  {
    hide DecodeList, MatchesAll;
    if DecodeList(rest, EXTENSION).Some? && !Distinct(exts) {
      var all := ToExtensions(DecodeList(s, EXTENSION).value);
      var i, j :| 0 <= i < j < |exts| && exts[i].ty == exts[j].ty;
      assert all[i] == exts[i] && all[j] == exts[j];
    }
  }

  lemma EverythingRead(s: Octets, exts: seq<Extension>)
    requires Remaining(s, exts, []) && |exts| <= MAX_EXTENSIONS && Distinct(exts)
    ensures DecodeExtensions(s) == Some(exts)
  {
    assert DecodeList([], EXTENSION) == Some([]);
    hide DecodeList;
    assert exts + ToExtensions([]) == exts;
  }
}
