/** Distinguished-name comparison and the name key used to index trust anchors.
    SHA-256 and the Unicode directory-string profile are arbitrary functions. */
module Names {
  import opened Bytes
  import Bits

  const MAX_ATTRIBUTES_PER_RDN: nat := 64
  const DIGEST_LEN: nat := 32
  const COUNT_LEN: nat := 8
  const CHARACTER_LEN: nat := 4
  const UTF8_STRING: Byte := 12
  const PRINTABLE_STRING: Byte := 19
  const IA5_STRING: Byte := 22
  const DOMAIN_COMPONENT_OID: Octets := [0x09, 0x92, 0x26, 0x89, 0x93, 0xf2, 0x2c, 0x64, 0x01, 0x19]

  datatype Attribute = Attribute(oid: Octets, tag: Byte, contents: Octets)

  type Rdn = seq<Attribute>

  type Name = seq<Rdn>

  /** A digest read as a big-endian integer. */
  type Digest = nat

  /** Foreign functions: UTF-8 validity, the string-preparation profile and SHA-256. */
  datatype Foreign = Foreign(
    utf8: Octets -> bool,
    acceptable: Octets -> bool,
    fold: Octets -> seq<nat>,
    sha256: Octets -> Octets)

  /** The comparison class of an attribute value. */
  datatype Canonical =
    | DomainComponent(oid: Octets, lower: Octets)
    | Folded(oid: Octets, characters: seq<nat>)
    | Verbatim(oid: Octets, tag: Byte, contents: Octets)

  // ---------------------------------------------------------------- attributes

  function Lower(b: Byte): Byte
  {
    if 65 <= b <= 90 then b + 32 else b
  }

  function LowerAll(s: Octets): Octets
  {
    seq(|s|, i requires 0 <= i < |s| => Lower(s[i]))
  }

  predicate Ascii(s: Octets)
  {
    forall i :: 0 <= i < |s| ==> s[i] < 128
  }

  predicate Printable(b: Byte)
  {
    || 48 <= b <= 57 || 65 <= b <= 90 || 97 <= b <= 122
    || b in {32, 39, 40, 41, 43, 44, 45, 46, 47, 58, 61, 63}
  }

  predicate AllPrintable(s: Octets)
  {
    forall i :: 0 <= i < |s| ==> Printable(s[i])
  }

  predicate IsDomainComponent(a: Attribute)
  {
    a.oid == DOMAIN_COMPONENT_OID && a.tag == IA5_STRING && Ascii(a.contents)
  }

  predicate CaseIgnoreOid(oid: Octets)
  {
    && |oid| == 3 && oid[0] == 0x55 && oid[1] == 0x04
    && (|| 3 <= oid[2] <= 13 || oid[2] == 15 || 17 <= oid[2] <= 19 || oid[2] == 27
        || 41 <= oid[2] <= 44 || oid[2] in {46, 51, 54, 65, 97})
  }

  /** `string_value`: malformed, a directory string, or some other type. */
  datatype StringValue = Malformed | NotString | Text(value: Octets)

  function StringOf(f: Foreign, a: Attribute): StringValue
  {
    if a.tag == UTF8_STRING then
      if f.utf8(a.contents) then Text(a.contents) else Malformed
    else if a.tag == PRINTABLE_STRING then
      if AllPrintable(a.contents) && f.utf8(a.contents) then Text(a.contents) else Malformed
    else NotString
  }

  function CaseIgnoreString(f: Foreign, a: Attribute): StringValue
  {
    if CaseIgnoreOid(a.oid) then StringOf(f, a) else NotString
  }

  /** `validate_attribute` succeeds. */
  predicate ValidAttribute(f: Foreign, a: Attribute)
  {
    match CaseIgnoreString(f, a)
    case Malformed => false
    case Text(value) => f.acceptable(value)
    case NotString => !StringOf(f, a).Malformed?
  }

  /** `hash_attribute` succeeds: unlike validation it never looks inside the
      string of an attribute type that is compared verbatim. */
  predicate HashableAttribute(f: Foreign, a: Attribute)
  {
    IsDomainComponent(a) ||
    match CaseIgnoreString(f, a)
    case Malformed => false
    case Text(value) => f.acceptable(value)
    case NotString => true
  }

  predicate AttributesEqual(f: Foreign, l: Attribute, r: Attribute)
  {
    if l.oid != r.oid then false
    else if IsDomainComponent(l) && IsDomainComponent(r) then LowerAll(l.contents) == LowerAll(r.contents)
    else
      match (CaseIgnoreString(f, l), CaseIgnoreString(f, r))
      case (Text(x), Text(y)) => f.fold(x) == f.fold(y)
      case (NotString, NotString) => l.tag == r.tag && l.contents == r.contents
      case _ => false
  }

  function Canon(f: Foreign, a: Attribute): Canonical
  {
    if IsDomainComponent(a) then DomainComponent(a.oid, LowerAll(a.contents))
    else
      match CaseIgnoreString(f, a)
      case Text(value) => Folded(a.oid, f.fold(value))
      case _ => Verbatim(a.oid, a.tag, a.contents)
  }

  function CanonAll(f: Foreign, rdn: Rdn): (c: seq<Canonical>)
    ensures |c| == |rdn|
    ensures forall i :: 0 <= i < |rdn| ==> c[i] == Canon(f, rdn[i])
  {
    if rdn == [] then [] else [Canon(f, rdn[0])] + CanonAll(f, rdn[1..])
  }

  /** On validated attributes the pairwise comparison is equality of canonical forms. */
  lemma AttributesEqualIsCanonical(f: Foreign, l: Attribute, r: Attribute)
    requires ValidAttribute(f, l) && ValidAttribute(f, r)
    ensures AttributesEqual(f, l, r) <==> Canon(f, l) == Canon(f, r)
  {
    if l.oid == DOMAIN_COMPONENT_OID {
      assert !CaseIgnoreOid(l.oid);
    }
  }

  /** The X.520 attribute types whose values are compared ignoring case: 2.5.4 followed by one of these. */
  const CASE_IGNORE_TYPES: set<Byte> :=
    {3, 4, 5, 6, 7, 8, 9, 10, 11, 12, 13, 15, 17, 18, 19, 27, 41, 42, 43, 44, 46, 51, 54, 65, 97}

  ghost predicate IgnoresCase(oid: Octets)
  {
    |oid| == 3 && oid[..2] == [0x55, 0x04] && oid[2] in CASE_IGNORE_TYPES
  }

  /** The character may stand in a PrintableString (X.680, section 41.4). */
  ghost predicate InPrintable(c: char)
  {
    'A' <= c <= 'Z' || 'a' <= c <= 'z' || '0' <= c <= '9' || c in " '()+,-./:=?"
  }

  /** What a comparable attribute is, read off its type, tag and contents. */
  ghost predicate WellFormed(f: Foreign, a: Attribute)
  {
    && (a.tag == 12 || a.tag == 19 ==> f.utf8(a.contents))
    && (a.tag == 19 ==> forall i :: 0 <= i < |a.contents| ==> InPrintable(a.contents[i] as char))
    && (IgnoresCase(a.oid) && (a.tag == 12 || a.tag == 19) ==> f.acceptable(a.contents))
  }

  lemma ValidIsWellFormed(f: Foreign, a: Attribute)
    ensures ValidAttribute(f, a) <==> WellFormed(f, a)
  {
    assert CaseIgnoreOid(a.oid) == IgnoresCase(a.oid);
    assert forall b: Byte :: Printable(b) == InPrintable(b as char);
  }

  /** Equality of two attributes, read off their types, tags and contents: domain components
      ignore ASCII case, directory strings are compared as folded, all else byte by byte. */
  ghost predicate SameAttribute(f: Foreign, l: Attribute, r: Attribute)
  {
    && l.oid == r.oid
    && if l.oid == DOMAIN_COMPONENT_OID && l.tag == r.tag == 22 &&
          forall i :: 0 <= i < |l.contents + r.contents| ==> (l.contents + r.contents)[i] < 128 then
         AllAlike(l.contents, r.contents)
       else if IgnoresCase(l.oid) && l.tag in {12, 19} && r.tag in {12, 19} then
         f.fold(l.contents) == f.fold(r.contents)
       else
         l.tag == r.tag && l.contents == r.contents
  }

  lemma LowerIsAlike(a: Octets, b: Octets)
    ensures LowerAll(a) == LowerAll(b) <==> AllAlike(a, b)
  {
    assert forall x: Byte, y: Byte :: Alike(x, y) <==> Lower(x) == Lower(y);
    if LowerAll(a) == LowerAll(b) {
      forall i | 0 <= i < |a| ensures Alike(a[i], b[i]) {
        assert LowerAll(a)[i] == LowerAll(b)[i];
      }
    }
  }

  /** The comparison decides this relation, on attributes that were validated. */
  lemma EqualIsSame(f: Foreign, l: Attribute, r: Attribute)
    requires ValidAttribute(f, l) && ValidAttribute(f, r)
    ensures AttributesEqual(f, l, r) <==> SameAttribute(f, l, r)
    ensures Canon(f, l) == Canon(f, r) <==> SameAttribute(f, l, r)
  {
    AttributesEqualIsCanonical(f, l, r);
    LowerIsAlike(l.contents, r.contents);
    var both := l.contents + r.contents;
    assert Ascii(l.contents) && Ascii(r.contents) <==> forall i :: 0 <= i < |both| ==> both[i] < 128 by {
      if forall i :: 0 <= i < |both| ==> both[i] < 128 {
        assert forall i :: 0 <= i < |l.contents| ==> l.contents[i] == both[i];
        assert forall i :: 0 <= i < |r.contents| ==> r.contents[i] == both[|l.contents| + i];
      }
    }
    assert CaseIgnoreOid(l.oid) == IgnoresCase(l.oid);
  }

  // ------------------------------------------------------------------- pairings

  /** `n` positions, each below `n`, no two the same. */
  ghost predicate Rearranges(at: seq<nat>, n: nat)
  {
    && |at| == n && (forall k :: 0 <= k < n ==> at[k] < n)
    && (forall j, k :: 0 <= j < k < n ==> at[j] != at[k])
  }

  /** Every left position has a right position of its own, holding the same value. */
  ghost predicate Pairs<T>(l: seq<T>, r: seq<T>, at: seq<nat>)
  {
    |l| == |r| && Rearranges(at, |r|) && forall k :: 0 <= k < |l| ==> l[k] == r[at[k]]
  }

  ghost function Without<T>(s: seq<T>, j: nat): seq<T>
    requires j < |s|
  {
    s[..j] + s[j + 1..]
  }

  lemma WithoutOne<T>(s: seq<T>, j: nat)
    requires j < |s|
    ensures multiset(s) == multiset(Without(s, j)) + multiset{s[j]}
  {
    assert s == s[..j] + [s[j]] + s[j + 1..];
  }

  /** Positions in a sequence without its entry `j`, as positions in the whole. */
  ghost function Skip(at: seq<nat>, j: nat): (s: seq<nat>)
    ensures |s| == |at|
    ensures forall k :: 0 <= k < |at| ==> s[k] == if at[k] < j then at[k] else at[k] + 1
  {
    seq(|at|, k requires 0 <= k < |at| => if at[k] < j then at[k] else at[k] + 1)
  }

  lemma PairOneMore<T>(l: seq<T>, r: seq<T>, j: nat, rest: seq<nat>)
    requires 0 < |l| == |r| && j < |r| && r[j] == l[|l| - 1]
    requires Pairs(l[..|l| - 1], Without(r, j), rest)
    ensures Pairs(l, r, Skip(rest, j) + [j])
  {
    var n, at := |l| - 1, Skip(rest, j) + [j];
    forall k | 0 <= k < n ensures l[k] == r[at[k]] {
      assert l[k] == l[..n][k] == Without(r, j)[rest[k]];
    }
  }

  lemma Partner<T>(l: seq<T>, r: seq<T>) returns (j: nat)
    requires l != [] && multiset(l) == multiset(r)
    ensures j < |r| && r[j] == l[|l| - 1]
  {
    assert l[|l| - 1] in multiset(r);
    j :| 0 <= j < |r| && r[j] == l[|l| - 1];
  }

  lemma SameRest<T>(l: seq<T>, r: seq<T>, j: nat)
    requires l != [] && multiset(l) == multiset(r) && j < |r| && r[j] == l[|l| - 1]
    ensures multiset(l[..|l| - 1]) == multiset(Without(r, j))
  {
    var n := |l| - 1;
    WithoutOne(r, j);
    WithoutOne(l, n);
    assert Without(l, n) == l[..n];
    hide Without;
    assert multiset(l[..n]) == multiset(l) - multiset{l[n]} == multiset(r) - multiset{r[j]};
  }

  /** A pairing of equal values exists between any two arrangements of one multiset. */
  lemma {:induction false} PairUp<T>(l: seq<T>, r: seq<T>) returns (at: seq<nat>)
    requires multiset(l) == multiset(r)
    ensures Pairs(l, r, at)
    decreases |l|
  {
    assert |l| == |multiset(l)| == |multiset(r)| == |r|;
    if l == [] {
      at := [];
    } else {
      hide Pairs;
      var n := |l| - 1;
      var j := Partner(l, r);
      SameRest(l, r, j);
      var rest := PairUp(l[..n], Without(r, j));
      PairOneMore(l, r, j, rest);
      at := Skip(rest, j) + [j];
    }
  }

  /** And where one exists, the two hold the same values equally often. */
  lemma {:induction false} PairedAlike<T>(l: seq<T>, r: seq<T>, at: seq<nat>)
    requires Pairs(l, r, at)
    ensures multiset(l) == multiset(r)
    decreases |l|
  {
    if l != [] {
      var n := |l| - 1;
      var j := at[n];
      WithoutOne(r, j);
      WithoutOne(l, n);
      assert Without(l, n) == l[..n];
      PairedAlike(l[..n], Without(r, j), seq(n, k requires 0 <= k < n => if at[k] < j then at[k] else at[k] - 1));
    }
  }

  // ------------------------------------------------------------ relative names

  /** `Rdn::scan` with the validating visitor succeeds. */
  predicate ValidRdn(f: Foreign, rdn: Rdn)
  {
    && 1 <= |rdn| <= MAX_ATTRIBUTES_PER_RDN
    && forall i :: 0 <= i < |rdn| ==> ValidAttribute(f, rdn[i])
  }

  predicate HashableRdn(f: Foreign, rdn: Rdn)
  {
    && 1 <= |rdn| <= MAX_ATTRIBUTES_PER_RDN
    && forall i :: 0 <= i < |rdn| ==> HashableAttribute(f, rdn[i])
  }

  /** Two relative names hold the same canonical attributes with the same multiplicities. */
  predicate SameAttributes(f: Foreign, l: Rdn, r: Rdn)
  {
    multiset(CanonAll(f, l)) == multiset(CanonAll(f, r))
  }

  /** The canonical attributes at the positions whose digit is set in `mask`. */
  ghost function Picked(c: seq<Canonical>, mask: nat): multiset<Canonical>
  {
    if c == [] then multiset{}
    else Picked(c[..|c| - 1], mask) + if Bits.Has(mask, |c| - 1) then multiset{c[|c| - 1]} else multiset{}
  }

  lemma {:induction false} PickedNothing(c: seq<Canonical>)
    ensures Picked(c, 0) == multiset{}
  {
    if c != [] {
      PickedNothing(c[..|c| - 1]);
      Bits.ZeroHasNothing(|c| - 1);
    }
  }

  lemma {:induction false} PickedSetBit(c: seq<Canonical>, mask: nat, j: nat)
    requires !Bits.Has(mask, j)
    ensures Picked(c, Bits.SetBit(mask, j)) ==
            Picked(c, mask) + if j < |c| then multiset{c[j]} else multiset{}
  {
    if c != [] {
      PickedSetBit(c[..|c| - 1], mask, j);
      Bits.HasSetBit(mask, j, |c| - 1);
    }
  }

  lemma {:induction false} PickedWithin(c: seq<Canonical>, mask: nat)
    ensures Picked(c, mask) <= multiset(c)
    ensures |Picked(c, mask)| == |c| ==> Picked(c, mask) == multiset(c)
  {
    if c != [] {
      PickedWithin(c[..|c| - 1], mask);
      assert c == c[..|c| - 1] + [c[|c| - 1]];
      assert |Picked(c[..|c| - 1], mask)| <= |c| - 1 by {
        SubmultisetSize(Picked(c[..|c| - 1], mask), multiset(c[..|c| - 1]));
      }
    }
  }

  lemma SubmultisetSize<T>(a: multiset<T>, b: multiset<T>)
    requires a <= b
    ensures |a| <= |b|
  {
    assert b == a + (b - a);
  }

  /** An element no unpicked position holds occurs exactly as often as it was picked. */
  lemma {:induction false} PickedAll(c: seq<Canonical>, mask: nat, x: Canonical)
    requires forall j :: 0 <= j < |c| && !Bits.Has(mask, j) ==> c[j] != x
    ensures Picked(c, mask)[x] == multiset(c)[x]
  {
    if c != [] {
      PickedAll(c[..|c| - 1], mask, x);
      assert c == c[..|c| - 1] + [c[|c| - 1]];
    }
  }

  /** The inner loop of `rdns_equal`: the first unclaimed attribute equal to `wanted`. */
  method FirstUnclaimed(f: Foreign, wanted: Attribute, right: Rdn, matched: nat) returns (j: nat)
    requires ValidAttribute(f, wanted) && ValidRdn(f, right)
    ensures j <= |right|
    ensures j < |right| ==> !Bits.Has(matched, j) && Canon(f, right[j]) == Canon(f, wanted)
    ensures forall k :: 0 <= k < j && !Bits.Has(matched, k) ==> Canon(f, right[k]) != Canon(f, wanted)
  {
    j := 0;
    while j < |right|
      invariant 0 <= j <= |right|
      invariant forall k :: 0 <= k < j && !Bits.Has(matched, k) ==> Canon(f, right[k]) != Canon(f, wanted)
    {
      AttributesEqualIsCanonical(f, wanted, right[j]);
      if !Bits.Has(matched, j) && AttributesEqual(f, wanted, right[j]) {
        return;
      }
      j := j + 1;
    }
  }

  lemma ClaimStep(l: seq<Canonical>, r: seq<Canonical>, i: nat, j: nat, mask: nat)
    requires i < |l| && j < |r| && r[j] == l[i] && !Bits.Has(mask, j)
    requires Picked(r, mask) == multiset(l[..i])
    ensures Picked(r, Bits.SetBit(mask, j)) == multiset(l[..i + 1])
  {
    hide Picked, Bits.Has, Bits.SetBit;
    PickedSetBit(r, mask, j);
    TakeOne(l, i);
  }

  lemma TakeOne<T>(l: seq<T>, i: nat)
    requires i < |l|
    ensures multiset(l[..i + 1]) == multiset(l[..i]) + multiset{l[i]}
  {
    assert l[..i + 1] == l[..i] + [l[i]];
  }

  lemma NoClaimLeft(l: seq<Canonical>, r: seq<Canonical>, i: nat, mask: nat)
    requires i < |l|
    requires forall k :: 0 <= k < |r| && !Bits.Has(mask, k) ==> r[k] != l[i]
    requires Picked(r, mask) == multiset(l[..i])
    ensures multiset(l) != multiset(r)
  {
    PickedAll(r, mask, l[i]);
    assert l == l[..i] + [l[i]] + l[i + 1..];
  }

  lemma AllClaimed(l: seq<Canonical>, r: seq<Canonical>, mask: nat)
    requires |l| == |r| && Picked(r, mask) == multiset(l[..|l|])
    ensures multiset(l) == multiset(r)
  {
    assert l[..|l|] == l;
    PickedWithin(r, mask);
  }

  /** The outer loop of `rdns_equal`: every left attribute claims the first unclaimed
      equal right one. The claims are a 64-digit word. */
  method ClaimAll(f: Foreign, left: Rdn, right: Rdn) returns (all: bool)
    requires ValidRdn(f, left) && ValidRdn(f, right) && |left| == |right|
    ensures all <==> SameAttributes(f, left, right)
  {
    hide Canon, ValidAttribute;
    ghost var l, r := CanonAll(f, left), CanonAll(f, right);
    var matched: nat := 0;
    PickedNothing(r);
    for i := 0 to |left|
      invariant matched < Bits.Pow2(64)
      invariant Picked(r, matched) == multiset(l[..i])
    {
      var j := FirstUnclaimed(f, left[i], right, matched);
      if j == |right| {
        NoClaimLeft(l, r, i, matched);
        return false;
      }
      ClaimStep(l, r, i, j, matched);
      Bits.SetBitWidth(matched, j, 64);
      matched := Bits.SetBit(matched, j);
    }
    AllClaimed(l, r, matched);
    return true;
  }

  /** Between one and 64 comparable attributes on either side, paired off as equal in some order. */
  ghost predicate SameRdn(f: Foreign, l: Rdn, r: Rdn)
  {
    && 1 <= |l| == |r| <= 64
    && (forall k :: 0 <= k < |l| ==> WellFormed(f, l[k]) && WellFormed(f, r[k]))
    && exists at :: PairsOff(f, l, r, at)
  }

  /** Every left attribute has a right one of its own that equals it. */
  ghost predicate PairsOff(f: Foreign, l: Rdn, r: Rdn, at: seq<nat>)
  {
    |l| == |r| && Rearranges(at, |r|) && forall k :: 0 <= k < |l| ==> SameAttribute(f, l[k], r[at[k]])
  }

  lemma PairsOfCanonical(f: Foreign, l: Rdn, r: Rdn, at: seq<nat>)
    requires ValidRdn(f, l) && ValidRdn(f, r) && |l| == |r|
    ensures PairsOff(f, l, r, at) <==>
            Pairs(CanonAll(f, l), CanonAll(f, r), at)
  {
    hide Canon, SameAttribute, ValidAttribute;
    forall j, k | 0 <= j < |l| && 0 <= k < |r|
      ensures Canon(f, l[j]) == Canon(f, r[k]) <==> SameAttribute(f, l[j], r[k])
    {
      EqualIsSame(f, l[j], r[k]);
    }
  }

  lemma EquivalentIsSame(f: Foreign, l: Rdn, r: Rdn)
    ensures RdnEquivalent(f, l, r) <==> SameRdn(f, l, r)
  {
    hide CanonAll, ValidAttribute, WellFormed;
    forall a ensures ValidAttribute(f, a) <==> WellFormed(f, a) {
      ValidIsWellFormed(f, a);
    }
    var x, y := CanonAll(f, l), CanonAll(f, r);
    if RdnEquivalent(f, l, r) {
      var at := PairUp(x, y);
      PairsOfCanonical(f, l, r, at);
    }
    if SameRdn(f, l, r) {
      var at :| PairsOff(f, l, r, at);
      PairsOfCanonical(f, l, r, at);
      PairedAlike(x, y, at);
    }
  }

  /** `rdns_equal`: greedy claiming finds a pairing of equal attributes whenever there is one. */
  method RdnsEqual(f: Foreign, left: Rdn, right: Rdn) returns (equal: bool)
    ensures equal <==> RdnEquivalent(f, left, right)
    ensures equal <==> SameRdn(f, left, right)
  {
    EquivalentIsSame(f, left, right);
    if !ValidRdn(f, left) || !ValidRdn(f, right) {
      return false;
    }
    if |left| != |right| {
      assert |multiset(CanonAll(f, left))| != |multiset(CanonAll(f, right))|;
      return false;
    }
    equal := ClaimAll(f, left, right);
  }

  // --------------------------------------------------------------------- names

  predicate RdnEquivalent(f: Foreign, l: Rdn, r: Rdn)
  {
    ValidRdn(f, l) && ValidRdn(f, r) && SameAttributes(f, l, r)
  }

  /** Names match position by position, each position as a multiset (RFC 5280, section 7.1). */
  predicate NamesMatch(f: Foreign, l: Name, r: Name)
  {
    |l| == |r| && forall i :: 0 <= i < |l| ==> RdnEquivalent(f, l[i], r[i])
  }

  predicate Equivalent(f: Foreign, l: Name, r: Name)
  {
    l == r || NamesMatch(f, l, r)
  }

  /** Identical names, or as many relative names on both sides, each position the same. */
  ghost predicate SameName(f: Foreign, l: Name, r: Name)
  {
    l == r || (|l| == |r| && forall i :: 0 <= i < |l| ==> SameRdn(f, l[i], r[i]))
  }

  lemma EquivalentNamesAreSame(f: Foreign, l: Name, r: Name)
    ensures Equivalent(f, l, r) <==> SameName(f, l, r)
  {
    hide RdnEquivalent, SameRdn;
    if |l| == |r| {
      forall i | 0 <= i < |l| ensures RdnEquivalent(f, l[i], r[i]) <==> SameRdn(f, l[i], r[i]) {
        EquivalentIsSame(f, l[i], r[i]);
      }
    }
  }

  /** `DistinguishedName::equivalent`: identical encodings, or `names_equal`. */
  method AreEquivalent(f: Foreign, left: Name, right: Name) returns (equal: bool)
    ensures equal <==> Equivalent(f, left, right)
    ensures equal <==> SameName(f, left, right)
  {
    EquivalentNamesAreSame(f, left, right);
    if left == right {
      return true;
    }
    var i := 0;
    while i < |left| && i < |right|
      invariant 0 <= i <= |left| && i <= |right|
      invariant forall k :: 0 <= k < i ==> RdnEquivalent(f, left[k], right[k])
    {
      var same := RdnsEqual(f, left[i], right[i]);
      if !same {
        return false;
      }
      i := i + 1;
    }
    return i == |left| && i == |right|;
  }

  // ------------------------------------------------------------------ name key

  function Characters(cs: seq<nat>): Octets
  {
    if cs == [] then [] else Be(cs[0], CHARACTER_LEN) + Characters(cs[1..])
  }

  /** The bytes fed to the attribute digest. */
  function AttributeImage(c: Canonical): Octets
  {
    Be(|c.oid|, COUNT_LEN) + c.oid +
    match c
    case DomainComponent(_, lower) => [1] + lower
    case Folded(_, characters) => [2] + Characters(characters)
    case Verbatim(_, tag, contents) => [3, tag] + Be(|contents|, COUNT_LEN) + contents
  }

  /** Lengths fit their eight bytes, and characters their four. */
  ghost predicate Imageable(c: Canonical)
  {
    && |c.oid| < Span(COUNT_LEN)
    && match c
       case DomainComponent(_, _) => true
       case Folded(_, characters) => forall i :: 0 <= i < |characters| ==> characters[i] < Span(CHARACTER_LEN)
       case Verbatim(_, _, contents) => |contents| < Span(COUNT_LEN)
  }

  lemma {:induction false} CharactersInjective(a: seq<nat>, b: seq<nat>)
    requires forall i :: 0 <= i < |a| ==> a[i] < Span(CHARACTER_LEN)
    requires forall i :: 0 <= i < |b| ==> b[i] < Span(CHARACTER_LEN)
    requires Characters(a) == Characters(b)
    ensures a == b
    decreases |a|
  {
    hide Be, Span;
    if a != [] && b != [] {
      SplitEqual(Be(a[0], CHARACTER_LEN), Characters(a[1..]), Be(b[0], CHARACTER_LEN), Characters(b[1..]));
      BeInjective(a[0], b[0], CHARACTER_LEN);
      CharactersInjective(a[1..], b[1..]);
      assert a == [a[0]] + a[1..] && b == [b[0]] + b[1..];
    }
  }

  /** What is hashed of an attribute tells everything comparison looks at. */
  lemma ImageInjective(a: Canonical, b: Canonical)
    requires Imageable(a) && Imageable(b) && AttributeImage(a) == AttributeImage(b)
    ensures a == b
  {
    hide Be, Span, Characters;
    var (x, y) := (ImageTail(a), ImageTail(b));
    ImageSplit(a);
    ImageSplit(b);
    SplitEqual(Be(|a.oid|, COUNT_LEN), a.oid + x, Be(|b.oid|, COUNT_LEN), b.oid + y);
    BeInjective(|a.oid|, |b.oid|, COUNT_LEN);
    SplitEqual(a.oid, x, b.oid, y);
    assert x[0] == y[0];
    match (a, b)
    case (DomainComponent(_, l), DomainComponent(_, m)) => SplitEqual([1], l, [1], m);
    case (Folded(_, l), Folded(_, m)) =>
      SplitEqual([2], Characters(l), [2], Characters(m));
      CharactersInjective(l, m);
    case (Verbatim(_, s, l), Verbatim(_, t, m)) =>
      SplitEqual([3, s], Be(|l|, COUNT_LEN) + l, [3, t], Be(|m|, COUNT_LEN) + m);
      assert [3, s][1] == [3, t][1];
      SplitEqual(Be(|l|, COUNT_LEN), l, Be(|m|, COUNT_LEN), m);
    case _ =>
  }

  ghost function ImageTail(c: Canonical): Octets
  {
    match c
    case DomainComponent(_, lower) => [1] + lower
    case Folded(_, characters) => [2] + Characters(characters)
    case Verbatim(_, tag, contents) => [3, tag] + (Be(|contents|, COUNT_LEN) + contents)
  }

  lemma ImageSplit(c: Canonical)
    ensures AttributeImage(c) == Be(|c.oid|, COUNT_LEN) + (c.oid + ImageTail(c))
  {
    hide Be, Characters;
  }

  /** The digests of an RDN's attributes, in encoding order. */
  function Digests(f: Foreign, c: seq<Canonical>): (d: seq<Octets>)
    ensures |d| == |c|
    ensures forall i :: 0 <= i < |c| ==> d[i] == f.sha256(AttributeImage(c[i]))
  {
    if c == [] then [] else [f.sha256(AttributeImage(c[0]))] + Digests(f, c[1..])
  }

  function Total<T>(weight: T -> nat, c: seq<T>): nat
  {
    if c == [] then 0 else Total(weight, c[..|c| - 1]) + weight(c[|c| - 1])
  }

  /** The remainder of `x` modulo `m`. */
  function Wrap(x: nat, m: nat): (r: nat)
    requires m > 0
    ensures r < m
  {
    if x < m then x else Wrap(x - m, m)
  }

  lemma {:induction false} WrapAdd(x: nat, y: nat, m: nat)
    requires m > 0
    ensures Wrap(Wrap(x, m) + y, m) == Wrap(x + y, m)
  {
    if x >= m {
      WrapAdd(x - m, y, m);
    }
  }

  /** The aggregate of an RDN's attribute digests: their sum modulo 2^256. */
  function SetDigest(f: Foreign, rdn: Rdn): Digest
  {
    Wrap(Total(Value, Digests(f, CanonAll(f, rdn))), Span(DIGEST_LEN))
  }

  function RdnImage(f: Foreign, rdn: Rdn): Octets
  {
    Be(|rdn|, COUNT_LEN) + Be(SetDigest(f, rdn), DIGEST_LEN)
  }

  function NameImage(f: Foreign, name: Name): Octets
  {
    if name == [] then [] else RdnImage(f, name[0]) + NameImage(f, name[1..])
  }

  predicate Hashable(f: Foreign, name: Name)
  {
    forall i :: 0 <= i < |name| ==> HashableRdn(f, name[i])
  }

  /** `NameKey::new`: the index key, absent when some attribute cannot be hashed. */
  function KeyOf(f: Foreign, name: Name): Option<Digest>
  {
    if Hashable(f, name) then Some(Value(f.sha256(NameImage(f, name) + Be(|name|, COUNT_LEN)))) else None
  }

  /** Every relative name has between one and 64 attributes, and those compared as
      directory strings hold strings the profile accepts. */
  ghost predicate Keyable(f: Foreign, name: Name)
  {
    forall rdn :: rdn in name ==>
      && 1 <= |rdn| <= 64
      && forall a :: a in rdn && IgnoresCase(a.oid) && (a.tag == 12 || a.tag == 19) ==> WellFormed(f, a)
  }

  lemma KeyExistsIff(f: Foreign, name: Name)
    ensures KeyOf(f, name).Some? <==> Keyable(f, name)
  {
    forall a
      ensures HashableAttribute(f, a) <==> (IgnoresCase(a.oid) && (a.tag == 12 || a.tag == 19) ==> WellFormed(f, a))
    {
      assert CaseIgnoreOid(a.oid) == IgnoresCase(a.oid);
      ValidIsWellFormed(f, a);
    }
    hide HashableAttribute, WellFormed, IgnoresCase;
    if Keyable(f, name) {
      forall i | 0 <= i < |name| ensures HashableRdn(f, name[i]) {
        assert name[i] in name;
      }
    }
    if Hashable(f, name) {
      forall rdn | rdn in name ensures HashableRdn(f, rdn) {
      }
    }
  }

  lemma {:induction false} LeadingFront(b: Byte, rest: Octets, n: nat)
    requires n <= |rest|
    ensures Leading([b] + rest, n + 1) == b * Span(n) + Leading(rest, n)
  {
    if n == 0 {
      assert Leading([b] + rest, 0) == 0;
    } else {
      LeadingFront(b, rest, n - 1);
    }
  }

  /** One column of the addition: `digit` is written and `carry` passed on. */
  lemma ColumnSum(x: Byte, y: Byte, digit: Byte, carry: nat, carried: nat,
                  xs: Octets, ys: Octets, sum: Octets)
    requires |xs| == |ys| == |sum|
    requires x + y + carried == digit + 256 * carry
    requires Value(sum) + carried * Span(|sum|) == Value(xs) + Value(ys)
    ensures Value([digit] + sum) + carry * Span(|sum| + 1) == Value([x] + xs) + Value([y] + ys)
  {
    LeadingFront(x, xs, |xs|);
    LeadingFront(y, ys, |ys|);
    LeadingFront(digit, sum, |sum|);
    Distribute(x, y, carried, digit, carry, Span(|sum|));
  }

  lemma Distribute(x: int, y: int, carried: int, digit: int, carry: int, s: int)
    requires x + y + carried == digit + 256 * carry
    ensures digit * s + carry * (256 * s) == x * s + y * s + carried * s
  {
    assert (digit + 256 * carry) * s == (x + y + carried) * s;
  }

  lemma LastCarry(done: Octets, carry: nat, total: nat)
    requires carry <= 1 && total == Value(done) + carry * Span(|done|)
    ensures Value(done) == Wrap(total, Span(|done|))
  {
    BeValue(done);
    if carry == 1 {
      assert total == Value(done) + Span(|done|);
    }
  }

  /** `AttributeSetHash::insert`: byte-wise addition with carry, last byte first. */
  method InsertDigest(sum: array<Byte>, digest: Octets)
    requires |digest| == sum.Length
    modifies sum
    ensures Value(sum[..]) == Wrap(old(Value(sum[..])) + Value(digest), Span(sum.Length))
  {
    ghost var was := sum[..];
    ghost var done: Octets := [];
    var carry := 0;
    var i := sum.Length;
    while i > 0
      invariant 0 <= i <= sum.Length && 0 <= carry <= 1 && |done| == sum.Length - i
      invariant forall k :: 0 <= k < i ==> sum[k] == was[k]
      invariant forall k :: i <= k < sum.Length ==> sum[k] == done[k - i]
      invariant Value(done) + carry * Span(|done|) == Value(was[i..]) + Value(digest[i..])
    {
      i := i - 1;
      var value := sum[i] + digest[i] + carry;
      ColumnSum(was[i], digest[i], value % 256, value / 256, carry, was[i + 1..], digest[i + 1..], done);
      assert was[i..] == [was[i]] + was[i + 1..];
      assert digest[i..] == [digest[i]] + digest[i + 1..];
      sum[i] := value % 256;
      carry := value / 256;
      done := [value % 256] + done;
    }
    assert sum[..] == done && was[0..] == was && digest[0..] == digest;
    LastCarry(done, carry, Value(was) + Value(digest));
  }

  /** The visitor of `hash_rdn`, called once per attribute digest. */
  method SumDigests(digests: seq<Octets>, sum: array<Byte>)
    requires forall i :: 0 <= i < |digests| ==> |digests[i]| == sum.Length
    requires Value(sum[..]) == 0
    modifies sum
    ensures Value(sum[..]) == Wrap(Total(Value, digests), Span(sum.Length))
  {
    ghost var total := 0;
    for i := 0 to |digests|
      invariant total == Total(Value, digests[..i])
      invariant Value(sum[..]) == Wrap(total, Span(sum.Length))
    {
      WrapAdd(total, Value(digests[i]), Span(sum.Length));
      InsertDigest(sum, digests[i]);
      total := total + Value(digests[i]);
      assert digests[..i + 1][..i] == digests[..i];
    }
    assert digests[..|digests|] == digests;
  }

  /** `hash_rdn`: the attribute count, then the aggregate digest. */
  method HashRdn(f: Foreign, rdn: Rdn) returns (image: Octets)
    requires forall s :: |f.sha256(s)| == DIGEST_LEN
    ensures image == RdnImage(f, rdn)
  {
    var sum := new Byte[DIGEST_LEN](_ => 0);
    ZeroLeading(sum[..], DIGEST_LEN);
    SumDigests(Digests(f, CanonAll(f, rdn)), sum);
    BeValue(sum[..]);
    image := Be(|rdn|, COUNT_LEN) + sum[..];
  }

  lemma {:induction false} ZeroLeading(s: Octets, n: nat)
    requires n <= |s| && forall i :: 0 <= i < |s| ==> s[i] == 0
    ensures Leading(s, n) == 0
  {
    if n != 0 {
      ZeroLeading(s, n - 1);
    }
  }

  // ------------------------------------------- the key is constant on name classes

  /** Any one element of the sum may be taken last. */
  lemma {:induction false} TotalExtract<T>(weight: T -> nat, c: seq<T>, k: nat)
    requires k < |c|
    ensures Total(weight, c) == Total(weight, c[..k] + c[k + 1..]) + weight(c[k])
  {
    var n := |c| - 1;
    var rest := c[..k] + c[k + 1..];
    if k == n {
      assert rest == c[..n];
    } else {
      TotalExtract(weight, c[..n], k);
      assert c[..n][..k] + c[..n][k + 1..] == rest[..n - 1];
    }
  }

  lemma RemoveOne<T>(b: seq<T>, k: nat)
    requires k < |b|
    ensures multiset(b[..k] + b[k + 1..]) == multiset(b) - multiset{b[k]}
  {
    assert b == b[..k] + [b[k]] + b[k + 1..];
  }

  /** Equal multisets have equal sums, whatever the order. */
  lemma {:induction false} TotalOrderFree<T>(weight: T -> nat, a: seq<T>, b: seq<T>)
    requires multiset(a) == multiset(b)
    ensures Total(weight, a) == Total(weight, b)
    decreases |a|
  {
    if a == [] {
      assert |multiset(b)| == 0;
    } else {
      var n := |a| - 1;
      assert a[n] in multiset(b);
      var k :| 0 <= k < |b| && b[k] == a[n];
      RemoveOne(a, n);
      RemoveOne(b, k);
      assert a[..n] + a[n + 1..] == a[..n];
      TotalOrderFree(weight, a[..n], b[..k] + b[k + 1..]);
      TotalExtract(weight, b, k);
    }
  }

  function Weight(f: Foreign): Canonical -> nat
  {
    c => Value(f.sha256(AttributeImage(c)))
  }

  lemma {:induction false} DigestTotal(f: Foreign, c: seq<Canonical>)
    ensures Total(Value, Digests(f, c)) == Total(Weight(f), c)
  {
    if c != [] {
      var d := Digests(f, c);
      DigestTotal(f, c[..|c| - 1]);
      assert d[..|d| - 1] == Digests(f, c[..|c| - 1]);
    }
  }

  lemma EquivalentRdnImages(f: Foreign, l: Rdn, r: Rdn)
    requires SameAttributes(f, l, r)
    ensures RdnImage(f, l) == RdnImage(f, r)
  {
    var a, b := CanonAll(f, l), CanonAll(f, r);
    assert |a| == |multiset(a)| == |multiset(b)| == |b|;
    TotalOrderFree(Weight(f), a, b);
    DigestTotal(f, a);
    DigestTotal(f, b);
  }

  lemma ValidIsHashable(f: Foreign, rdn: Rdn)
    requires ValidRdn(f, rdn)
    ensures HashableRdn(f, rdn)
  {
  }

  lemma {:induction false} EquivalentImages(f: Foreign, l: Name, r: Name)
    requires NamesMatch(f, l, r)
    ensures NameImage(f, l) == NameImage(f, r)
  {
    if l != [] {
      assert RdnEquivalent(f, l[0], r[0]);
      EquivalentRdnImages(f, l[0], r[0]);
      EquivalentImages(f, l[1..], r[1..]);
    }
  }

  /** Equivalent names have the same key, whatever the order inside each SET, and names
      that match by comparison do have one: the index never separates names that match. */
  lemma EquivalentNamesShareKey(f: Foreign, l: Name, r: Name)
    requires Equivalent(f, l, r)
    ensures KeyOf(f, l) == KeyOf(f, r)
    ensures NamesMatch(f, l, r) ==> KeyOf(f, l).Some?
  {
    hide NameImage, HashableRdn, RdnEquivalent;
    if NamesMatch(f, l, r) {
      EquivalentImages(f, l, r);
      MatchingIsHashable(f, l, r);
    }
  }

  lemma MatchingIsHashable(f: Foreign, l: Name, r: Name)
    requires NamesMatch(f, l, r)
    ensures Hashable(f, l) && Hashable(f, r)
  {
    hide HashableRdn, SameAttributes, ValidRdn;
    forall i | 0 <= i < |l| ensures HashableRdn(f, l[i]) && HashableRdn(f, r[i]) {
      assert RdnEquivalent(f, l[i], r[i]);
      ValidIsHashable(f, l[i]);
      ValidIsHashable(f, r[i]);
    }
  }

  /** Some attribute of a type compared verbatim carries an ill-formed string. */
  predicate HasIllFormedVerbatim(f: Foreign, name: Name)
  {
    exists i, j :: 0 <= i < |name| && 0 <= j < |name[i]| &&
      !CaseIgnoreOid(name[i][j].oid) && StringOf(f, name[i][j]).Malformed?
  }

  /** Hashing admits names that comparison rejects: such a name is equivalent only
      to its own encoding. A hashable name is comparable exactly when no attribute of
      a verbatim type carries an ill-formed string. */
  lemma ComparableIff(f: Foreign, name: Name)
    requires Hashable(f, name)
    ensures NamesMatch(f, name, name) <==> !HasIllFormedVerbatim(f, name)
    ensures HasIllFormedVerbatim(f, name) ==>
              forall other :: Equivalent(f, name, other) || Equivalent(f, other, name) ==> other == name
  {
    if HasIllFormedVerbatim(f, name) {
      var i, j :| 0 <= i < |name| && 0 <= j < |name[i]| &&
        !CaseIgnoreOid(name[i][j].oid) && StringOf(f, name[i][j]).Malformed?;
      assert !ValidAttribute(f, name[i][j]);
      assert !ValidRdn(f, name[i]);
      forall other: Name ensures !NamesMatch(f, name, other) && !NamesMatch(f, other, name) {
        if |other| == |name| {
          assert !RdnEquivalent(f, name[i], other[i]) && !RdnEquivalent(f, other[i], name[i]);
        }
      }
    } else {
      forall i | 0 <= i < |name| ensures RdnEquivalent(f, name[i], name[i]) {
        WellFormedIsValid(f, name, i);
      }
    }
  }

  /** Such a name: one attribute of a verbatim type, with an asterisk in a PrintableString. */
  lemma SomeNameIsIncomparable(f: Foreign)
    ensures var name := [[Attribute([0x2a, 0x03], PRINTABLE_STRING, [42])]];
            && Hashable(f, name) && HasIllFormedVerbatim(f, name) && !NamesMatch(f, name, name)
  {
    var a := Attribute([0x2a, 0x03], PRINTABLE_STRING, [42]);
    var name := [[a]];
    assert !Printable(a.contents[0]);
    assert StringOf(f, name[0][0]).Malformed? && !CaseIgnoreOid(name[0][0].oid);
    assert HashableRdn(f, name[0]);
    ComparableIff(f, name);
  }

  lemma WellFormedIsValid(f: Foreign, name: Name, i: nat)
    requires i < |name| && Hashable(f, name) && !HasIllFormedVerbatim(f, name)
    ensures ValidRdn(f, name[i])
  {
    assert HashableRdn(f, name[i]);
    forall j | 0 <= j < |name[i]| ensures ValidAttribute(f, name[i][j]) {
      assert HashableAttribute(f, name[i][j]);
      assert !CaseIgnoreOid(DOMAIN_COMPONENT_OID);
    }
  }
}
