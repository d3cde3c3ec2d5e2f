/** The issuer-indexed trust store: anchors sorted by name key, searched from a
    partition point instead of scanned. */
module TrustStore {
  import opened Bytes
  import opened Names
  import ChainPolicy

  const MAX_TRUST_ANCHORS: nat := 256

  /** An anchor as configured: its subject's name and encoding, its key, its constraints. */
  datatype Anchor = Anchor(subject: Name, der: Octets, spki: Octets, constraints: Option<ChainPolicy.NameConstraints>)

  datatype Indexed = Indexed(key: Digest, anchor: Anchor)

  datatype ConfigError = MissingTrustAnchors | TooManyTrustAnchors | MalformedTrustAnchor(index: nat)

  datatype Built = Built(anchors: seq<Indexed>) | Refused(error: ConfigError)

  /** Byte strings in lexicographic order. */
  predicate Upto(a: Octets, b: Octets)
  {
    a == [] || (b != [] && (a[0] < b[0] || (a[0] == b[0] && Upto(a[1..], b[1..]))))
  }

  lemma {:induction false} UptoTotal(a: Octets, b: Octets)
    ensures Upto(a, b) || Upto(b, a)
  {
    if a != [] && b != [] {
      UptoTotal(a[1..], b[1..]);
    }
  }

  lemma {:induction false} UptoTransitive(a: Octets, b: Octets, c: Octets)
    requires Upto(a, b) && Upto(b, c)
    ensures Upto(a, c)
  {
    if a != [] && a[0] == b[0] == c[0] {
      UptoTransitive(a[1..], b[1..], c[1..]);
    }
  }

  /** One is a prefix of the other, or the first byte in which they differ decides. */
  ghost predicate Precedes(a: Octets, b: Octets)
  {
    a <= b || exists k :: 0 <= k < |a| && k < |b| && a[..k] == b[..k] && a[k] < b[k]
  }

  lemma {:induction false} UptoIsLexicographic(a: Octets, b: Octets)
    ensures Upto(a, b) <==> Precedes(a, b)
  {
    if a != [] && b != [] {
      UptoIsLexicographic(a[1..], b[1..]);
      PrecedesStep(a, b);
    }
  }

  lemma PrecedesStep(a: Octets, b: Octets)
    requires a != [] && b != []
    ensures Precedes(a, b) <==> a[0] < b[0] || (a[0] == b[0] && Precedes(a[1..], b[1..]))
  {
    var (x, y) := (a[1..], b[1..]);
    if a[0] < b[0] {
      assert a[..0] == b[..0];
    }
    if a[0] == b[0] && Precedes(x, y) && !(x <= y) {
      var k :| 0 <= k < |x| && k < |y| && x[..k] == y[..k] && x[k] < y[k];
      assert a[..k + 1] == [a[0]] + x[..k] && b[..k + 1] == [b[0]] + y[..k];
      assert a[k + 1] == x[k] && b[k + 1] == y[k];
    }
    if Precedes(a, b) && !(a <= b) {
      var k :| 0 <= k < |a| && k < |b| && a[..k] == b[..k] && a[k] < b[k];
      if k > 0 {
        assert a[0] == a[..k][0] == b[..k][0] == b[0];
        assert x[..k - 1] == a[..k][1..] && y[..k - 1] == b[..k][1..];
        assert x[k - 1] == a[k] && y[k - 1] == b[k];
      }
    }
  }

  /** By key, then by encoding. */
  predicate NotAfter(x: Indexed, y: Indexed)
  {
    x.key < y.key || (x.key == y.key && Upto(x.anchor.der, y.anchor.der))
  }

  lemma OrderTotal(x: Indexed, y: Indexed)
    ensures NotAfter(x, y) || NotAfter(y, x)
  {
    UptoTotal(x.anchor.der, y.anchor.der);
  }

  lemma OrderTransitive(x: Indexed, y: Indexed, z: Indexed)
    requires NotAfter(x, y) && NotAfter(y, z)
    ensures NotAfter(x, z)
  {
    if x.key == y.key == z.key {
      UptoTransitive(x.anchor.der, y.anchor.der, z.anchor.der);
    }
  }

  ghost predicate Sorted(s: seq<Indexed>)
  {
    forall i, j :: 0 <= i < j < |s| ==> NotAfter(s[i], s[j])
  }

  ghost predicate WellIndexed(f: Foreign, s: seq<Indexed>)
  {
    Sorted(s) && forall i :: 0 <= i < |s| ==> KeyOf(f, s[i].anchor.subject) == Some(s[i].key)
  }

  lemma SplitInsert(s: seq<Indexed>, i: nat, x: Indexed)
    requires i <= |s|
    ensures multiset(s[..i] + [x] + s[i..]) == multiset(s) + multiset{x}
  {
    assert s == s[..i] + s[i..];
  }

  /** Inserts one entry into a sorted index. */
  method Insert(s: seq<Indexed>, x: Indexed) returns (t: seq<Indexed>)
    requires Sorted(s)
    ensures Sorted(t) && multiset(t) == multiset(s) + multiset{x}
  {
    hide NotAfter;
    var i := |s|;
    while i > 0 && !NotAfter(s[i - 1], x)
      invariant 0 <= i <= |s|
      invariant forall k :: i <= k < |s| ==> NotAfter(x, s[k])
    {
      i := i - 1;
      OrderTotal(s[i], x);
    }
    t := s[..i] + [x] + s[i..];
    SplitInsert(s, i, x);
    forall k | 0 <= k < i ensures NotAfter(s[k], x) {
      if k < i - 1 {
        OrderTransitive(s[k], s[i - 1], x);
      }
    }
  }

  /** The sort; anchors with one key and one encoding may stand in either order. */
  method Sort(s: seq<Indexed>) returns (t: seq<Indexed>)
    ensures Sorted(t) && multiset(t) == multiset(s)
  {
    t := [];
    for i := 0 to |s|
      invariant Sorted(t) && multiset(t) == multiset(s[..i])
    {
      t := Insert(t, s[i]);
      assert s[..i + 1] == s[..i] + [s[i]];
    }
    assert s[..|s|] == s;
  }

  /** The anchors paired with the keys of their subjects. */
  ghost predicate Indices(f: Foreign, anchors: seq<Anchor>, s: seq<Indexed>)
  {
    |s| == |anchors| &&
    forall i :: 0 <= i < |s| ==> s[i].anchor == anchors[i] && KeyOf(f, anchors[i].subject) == Some(s[i].key)
  }

  /** `PreparedTrustAnchor::new` succeeds: the name can be keyed, and key and constraints parse. */
  predicate Usable(f: Foreign, parses: Anchor -> bool, a: Anchor)
  {
    KeyOf(f, a.subject).Some? && parses(a)
  }

  /** `TrustStore::new`: every anchor is kept, exactly once, ordered by key and encoding; the
      first anchor that cannot be prepared is reported. */
  method Build(f: Foreign, parses: Anchor -> bool, anchors: seq<Anchor>) returns (r: Built)
    ensures r.Built? <==>
            0 < |anchors| <= MAX_TRUST_ANCHORS && forall i :: 0 <= i < |anchors| ==> Usable(f, parses, anchors[i])
    ensures r.Built? ==> WellIndexed(f, r.anchors)
    ensures r.Built? ==> exists s :: Indices(f, anchors, s) && multiset(r.anchors) == multiset(s)
    ensures r.Refused? && r.error.MalformedTrustAnchor? ==>
            && r.error.index < |anchors| && !Usable(f, parses, anchors[r.error.index])
            && forall i :: 0 <= i < r.error.index ==> Usable(f, parses, anchors[i])
  {
    hide KeyOf;
    if |anchors| == 0 {
      return Refused(MissingTrustAnchors);
    }
    if |anchors| > MAX_TRUST_ANCHORS {
      return Refused(TooManyTrustAnchors);
    }
    var prepared: seq<Indexed> := [];
    for i := 0 to |anchors|
      invariant Indices(f, anchors[..i], prepared)
      invariant forall k :: 0 <= k < i ==> Usable(f, parses, anchors[k])
    {
      var key := KeyOf(f, anchors[i].subject);
      if key.None? || !parses(anchors[i]) {
        return Refused(MalformedTrustAnchor(i));
      }
      prepared := prepared + [Indexed(key.value, anchors[i])];
    }
    assert anchors[..|anchors|] == anchors;
    var index := Sort(prepared);
    KeysSurvive(f, anchors, prepared, index);
    r := Built(index);
  }

  lemma KeysSurvive(f: Foreign, anchors: seq<Anchor>, prepared: seq<Indexed>, index: seq<Indexed>)
    requires Indices(f, anchors, prepared) && multiset(index) == multiset(prepared)
    ensures forall i :: 0 <= i < |index| ==> KeyOf(f, index[i].anchor.subject) == Some(index[i].key)
  {
    forall i | 0 <= i < |index| ensures KeyOf(f, index[i].anchor.subject) == Some(index[i].key) {
      assert index[i] in multiset(index);
      assert index[i] in prepared;
    }
  }

  lemma KeysSorted(s: seq<Indexed>)
    requires Sorted(s)
    ensures forall i, j :: 0 <= i < j < |s| ==> s[i].key <= s[j].key
  {
    forall i, j | 0 <= i < j < |s| ensures s[i].key <= s[j].key {
      assert NotAfter(s[i], s[j]);
    }
  }

  /** `partition_point`: how many leading entries have a smaller key. */
  method PartitionPoint(s: seq<Indexed>, key: Digest) returns (n: nat)
    requires Sorted(s)
    ensures n <= |s|
    ensures forall i :: 0 <= i < n ==> s[i].key < key
    ensures forall i :: n <= i < |s| ==> s[i].key >= key
  {
    KeysSorted(s);
    var low, high := 0, |s|;
    while low < high
      invariant 0 <= low <= high <= |s|
      invariant forall i :: 0 <= i < low ==> s[i].key < key
      invariant forall i :: high <= i < |s| ==> s[i].key >= key
    {
      var middle := (low + high) / 2;
      if s[middle].key < key {
        low := middle + 1;
      } else {
        high := middle;
      }
    }
    n := low;
  }

  /** An anchor vouches for a certificate when it bears the issuer's name and its
      key verifies the signature. */
  predicate Vouches(f: Foreign, verifies: (Octets, Octets) -> bool, a: Anchor, issuer: Name, signed: Octets)
  {
    Equivalent(f, a.subject, issuer) && verifies(signed, a.spki)
  }

  /** The anchor's name is the issuer's, and its key verifies the signature. */
  ghost predicate Certifies(f: Foreign, verifies: (Octets, Octets) -> bool, a: Anchor, issuer: Name, signed: Octets)
  {
    SameName(f, a.subject, issuer) && verifies(signed, a.spki)
  }

  lemma VouchesRule(f: Foreign, verifies: (Octets, Octets) -> bool, a: Anchor, issuer: Name, signed: Octets)
    ensures Vouches(f, verifies, a, issuer, signed) <==> Certifies(f, verifies, a, issuer, signed)
  {
    hide Equivalent, SameName;
    EquivalentNamesAreSame(f, a.subject, issuer);
  }

  /** The unindexed reference: scan every anchor and take the first that vouches. */
  function LinearScan(f: Foreign, verifies: (Octets, Octets) -> bool, s: seq<Indexed>, issuer: Name,
                      signed: Octets): Option<Anchor>
  {
    if s == [] then None
    else if Vouches(f, verifies, s[0].anchor, issuer, signed) then Some(s[0].anchor)
    else LinearScan(f, verifies, s[1..], issuer, signed)
  }

  lemma {:induction false} ScanSkips(f: Foreign, verifies: (Octets, Octets) -> bool, s: seq<Indexed>, n: nat,
                                     issuer: Name, signed: Octets)
    requires n <= |s|
    requires forall i :: 0 <= i < n ==> !Vouches(f, verifies, s[i].anchor, issuer, signed)
    ensures LinearScan(f, verifies, s, issuer, signed) == LinearScan(f, verifies, s[n..], issuer, signed)
  {
    if n == 0 {
      assert s[0..] == s;
    } else {
      ScanSkips(f, verifies, s[1..], n - 1, issuer, signed);
      assert s[1..][n - 1..] == s[n..];
    }
  }

  lemma OtherKeysNeverVouch(f: Foreign, verifies: (Octets, Octets) -> bool, x: Indexed, issuer: Name, key: Digest,
                            signed: Octets)
    requires KeyOf(f, x.anchor.subject) == Some(x.key) && KeyOf(f, issuer) == Some(key) && x.key != key
    ensures !Vouches(f, verifies, x.anchor, issuer, signed)
  {
    if Equivalent(f, x.anchor.subject, issuer) {
      EquivalentNamesShareKey(f, x.anchor.subject, issuer);
    }
  }

  ghost predicate NoneVouch(f: Foreign, verifies: (Octets, Octets) -> bool, s: seq<Indexed>, from: nat, to: nat,
                            issuer: Name, signed: Octets)
    requires to <= |s|
  {
    forall k :: from <= k < to ==> !Vouches(f, verifies, s[k].anchor, issuer, signed)
  }

  lemma OutsideRun(f: Foreign, verifies: (Octets, Octets) -> bool, s: seq<Indexed>, from: nat, to: nat, issuer: Name,
                   key: Digest, signed: Octets)
    requires WellIndexed(f, s) && KeyOf(f, issuer) == Some(key) && to <= |s|
    requires forall k :: from <= k < to ==> s[k].key != key
    ensures NoneVouch(f, verifies, s, from, to, issuer, signed)
  {
    forall k | from <= k < to ensures !Vouches(f, verifies, s[k].anchor, issuer, signed) {
      OtherKeysNeverVouch(f, verifies, s[k], issuer, key, signed);
    }
  }

  lemma VouchesWhen(f: Foreign, verifies: (Octets, Octets) -> bool, a: Anchor, issuer: Name, signed: Octets)
    ensures Vouches(f, verifies, a, issuer, signed) <==> Equivalent(f, a.subject, issuer) && verifies(signed, a.spki)
  {
  }

  /** `verify_subject`: reading only the run of equal keys finds exactly the anchor a
      full scan of the index would find. */
  method VerifySubject(f: Foreign, verifies: (Octets, Octets) -> bool, s: seq<Indexed>, issuer: Name, key: Digest,
                       signed: Octets)
    returns (r: Option<Anchor>)
    requires WellIndexed(f, s) && KeyOf(f, issuer) == Some(key)
    ensures r == LinearScan(f, verifies, s, issuer, signed)
    ensures r.None? <==> forall i :: 0 <= i < |s| ==> !Certifies(f, verifies, s[i].anchor, issuer, signed)
    ensures r.Some? ==> exists i :: 0 <= i < |s| && s[i].anchor == r.value &&
                          Certifies(f, verifies, s[i].anchor, issuer, signed) &&
                          forall j :: 0 <= j < i ==> !Certifies(f, verifies, s[j].anchor, issuer, signed)
  {
    hide KeyOf, Equivalent, Certifies, Vouches;
    forall a ensures Vouches(f, verifies, a, issuer, signed) <==> Certifies(f, verifies, a, issuer, signed) {
      VouchesRule(f, verifies, a, issuer, signed);
    }
    KeysSorted(s);
    var i := PartitionPoint(s, key);
    OutsideRun(f, verifies, s, 0, i, issuer, key, signed);
    while i < |s| && s[i].key == key
      invariant 0 <= i <= |s|
      invariant forall k :: i <= k < |s| ==> s[k].key >= key
      invariant NoneVouch(f, verifies, s, 0, i, issuer, signed)
    {
      var equal := AreEquivalent(f, s[i].anchor.subject, issuer);
      VouchesWhen(f, verifies, s[i].anchor, issuer, signed);
      if equal && verifies(signed, s[i].anchor.spki) {
        ScanSkips(f, verifies, s, i, issuer, signed);
        return Some(s[i].anchor);
      }
      i := i + 1;
    }
    assert forall k :: i <= k < |s| ==> s[k].key >= s[i].key;
    OutsideRun(f, verifies, s, i, |s|, issuer, key, signed);
    ScanSkips(f, verifies, s, |s|, issuer, signed);
    r := None;
  }

  /** A match is found if and only if some stored anchor vouches for the certificate. */
  lemma {:induction false} ScanFindsIff(f: Foreign, verifies: (Octets, Octets) -> bool, s: seq<Indexed>, issuer: Name,
                                        signed: Octets)
    ensures LinearScan(f, verifies, s, issuer, signed).Some? <==>
            exists i :: 0 <= i < |s| && Vouches(f, verifies, s[i].anchor, issuer, signed)
    ensures var r := LinearScan(f, verifies, s, issuer, signed);
            r.Some? ==> Vouches(f, verifies, r.value, issuer, signed)
  {
    if s != [] && !Vouches(f, verifies, s[0].anchor, issuer, signed) {
      ScanFindsIff(f, verifies, s[1..], issuer, signed);
      if i :| 0 <= i < |s| && Vouches(f, verifies, s[i].anchor, issuer, signed) {
        assert s[1..][i - 1] == s[i];
      }
    }
  }
}
