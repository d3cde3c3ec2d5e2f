/** What the policy checks decide, said of a profile's fields, of the labels of a
    DNS name and of the bits of an address: the checks themselves are not mentioned
    in these definitions, only in the lemmas that equate the two. */
module PolicyRules {
  import opened Bytes
  import opened ChainPolicy
  import Bits

  const DOT: Byte := '.' as int

  // ----------------------------------------------------------------- DNS labels

  /** The labels of a domain name, first to last. */
  ghost function Labels(s: Octets): (l: seq<Octets>)
    ensures l != []
  {
    if s == [] then [[]]
    else
      var rest := Labels(s[1..]);
      if s[0] == DOT then [[]] + rest else [[s[0]] + rest[0]] + rest[1..]
  }

  /** Labels spelled out with dots between them. */
  ghost function Dotted(l: seq<Octets>): Octets
    requires l != []
  {
    if |l| == 1 then l[0] else l[0] + [DOT] + Dotted(l[1..])
  }

  lemma {:induction false} LabelsSpell(s: Octets)
    ensures Dotted(Labels(s)) == s
    ensures forall k :: 0 <= k < |Labels(s)| ==> DOT !in Labels(s)[k]
  {
    if s != [] {
      LabelsSpell(s[1..]);
      var rest := Labels(s[1..]);
      if s[0] == DOT {
        assert Labels(s)[1..] == rest;
      } else {
        assert Labels(s)[1..] == rest[1..];
      }
    }
  }

  lemma Spelled(s: Octets)
    ensures Dotted(Labels(s)) == s
  {
    LabelsSpell(s);
  }

  /** A first byte joined to a list of labels is joined to the list's first part. */
  lemma JoinFirst(x: Byte, l: seq<Octets>, m: seq<Octets>)
    requires l != []
    ensures [[]] + (l + m) == ([[]] + l) + m
    ensures [[x] + (l + m)[0]] + (l + m)[1..] == ([[x] + l[0]] + l[1..]) + m
  {
    assert (l + m)[1..] == l[1..] + m;
  }

  lemma {:induction false} LabelsSplit(a: Octets, b: Octets)
    ensures Labels(a + [DOT] + b) == Labels(a) + Labels(b)
  {
    var s := a + [DOT] + b;
    if a == [] {
      assert s[1..] == b;
    } else {
      LabelsSplit(a[1..], b);
      assert s[1..] == a[1..] + [DOT] + b;
      JoinFirst(s[0], Labels(a[1..]), Labels(b));
    }
  }

  lemma {:induction false} DottedSplit(l: seq<Octets>, k: nat)
    requires 0 < k < |l|
    ensures Dotted(l) == Dotted(l[..k]) + [DOT] + Dotted(l[k..])
  {
    if k == 1 {
      assert l[..1] == [l[0]];
    } else {
      DottedSplit(l[1..], k - 1);
      assert l[1..][..k - 1] == l[..k][1..] && l[1..][k - 1..] == l[k..];
    }
  }

  /** As many labels, each the same up to ASCII case. */
  ghost predicate SameLabels(l: seq<Octets>, m: seq<Octets>)
  {
    |l| == |m| && forall i :: 0 <= i < |l| ==> AllAlike(l[i], m[i])
  }

  lemma {:induction false} AlikeLabels(a: Octets, b: Octets)
    requires AllAlike(a, b)
    ensures SameLabels(Labels(a), Labels(b))
  {
    if a != [] {
      assert Alike(a[0], b[0]);
      AlikeLabels(a[1..], b[1..]);
      var l, m := Labels(a[1..]), Labels(b[1..]);
      assert AllAlike(l[0], m[0]);
      if a[0] != DOT {
        assert AllAlike([a[0]] + l[0], [b[0]] + m[0]);
      }
    }
  }

  lemma {:induction false} AlikeDotted(l: seq<Octets>, m: seq<Octets>)
    requires l != [] && SameLabels(l, m)
    ensures AllAlike(Dotted(l), Dotted(m))
  {
    assert AllAlike(l[0], m[0]);
    if |l| > 1 {
      AlikeDotted(l[1..], m[1..]);
    }
  }

  /** The constraint's labels end the name's, and a constraint with a leading dot leaves some over. */
  ghost predicate Below(name: Octets, constraint: Octets)
  {
    var deeper := |constraint| > 0 && constraint[0] == DOT;
    var n, b := Labels(name), Labels(if deeper then constraint[1..] else constraint);
    && (if deeper then |b| < |n| else |b| <= |n|)
    && SameLabels(n[|n| - |b|..], b)
  }

  lemma IgnoringCaseIsAlike(a: Octets, b: Octets)
    ensures SameIgnoringCase(a, b) <==> AllAlike(a, b)
  {
    assert forall x: Byte, y: Byte :: Alike(x, y) <==> Lower(x) == Lower(y);
  }

  lemma SuffixIsBelow(front: Octets, tail: Octets, base: Octets)
    requires AllAlike(tail, base)
    ensures var n, b := Labels(front + [DOT] + tail), Labels(base);
            |b| < |n| && SameLabels(n[|n| - |b|..], b)
  {
    LabelsSplit(front, tail);
    AlikeLabels(tail, base);
    var n := Labels(front + [DOT] + tail);
    assert n[|Labels(front)|..] == Labels(tail);
  }

  lemma DottedSuffix(n: seq<Octets>, b: seq<Octets>, name: Octets, base: Octets)
    requires 0 < |b| < |n| && SameLabels(n[|n| - |b|..], b) && name == Dotted(n) && base == Dotted(b)
    ensures SuffixAfterDot(name, base)
  {
    hide Dotted, AllAlike, SameLabels, SuffixAfterDot;
    var k := |n| - |b|;
    var (front, tail) := (n[..k], n[k..]);
    DottedSplit(n, k);
    AlikeDotted(tail, b);
    AfterDot(Dotted(front), Dotted(tail), base);
  }

  /** The name ends in a dot and something that is the base up to case. */
  ghost predicate SuffixAfterDot(name: Octets, base: Octets)
  {
    |name| > |base| && name[|name| - |base| - 1] == DOT && AllAlike(name[|name| - |base|..], base)
  }

  lemma BelowIsSuffix(name: Octets, base: Octets)
    requires var n, b := Labels(name), Labels(base); |b| < |n| && SameLabels(n[|n| - |b|..], b)
    ensures SuffixAfterDot(name, base)
  {
    hide Dotted, AllAlike, SameLabels, Labels, SuffixAfterDot;
    Spelled(name);
    Spelled(base);
    DottedSuffix(Labels(name), Labels(base), name, base);
  }

  lemma AfterDot(front: Octets, tail: Octets, base: Octets)
    requires AllAlike(tail, base)
    ensures SuffixAfterDot(front + [DOT] + tail, base)
  {
    var name := front + [DOT] + tail;
    assert name[|front|] == DOT && name[|front| + 1..] == tail;
  }

  /** More labels than the base, the last of them the base's. */
  ghost predicate EndsIn(n: seq<Octets>, b: seq<Octets>)
  {
    |b| < |n| && SameLabels(n[|n| - |b|..], b)
  }

  lemma SuffixRule(name: Octets, base: Octets)
    ensures SuffixAfterDot(name, base) <==> EndsIn(Labels(name), Labels(base))
  {
    hide Labels, SameLabels, AllAlike;
    if SuffixAfterDot(name, base) {
      var cut := |name| - |base|;
      assert name == name[..cut - 1] + [DOT] + name[cut..];
      SuffixIsBelow(name[..cut - 1], name[cut..], base);
    }
    if EndsIn(Labels(name), Labels(base)) {
      BelowIsSuffix(name, base);
    }
  }

  lemma SameRule(name: Octets, base: Octets)
    ensures AllAlike(name, base) <==> SameLabels(Labels(name), Labels(base))
  {
    hide Labels, AllAlike, Dotted, SameLabels;
    if AllAlike(name, base) {
      AlikeLabels(name, base);
    }
    if SameLabels(Labels(name), Labels(base)) {
      Spelled(name);
      Spelled(base);
      AlikeDotted(Labels(name), Labels(base));
    }
  }

  lemma SubtreeCases(name: Octets, constraint: Octets)
    ensures var deeper := |constraint| > 0 && constraint[0] == DOT;
            var base := if deeper then constraint[1..] else constraint;
            DnsInSubtree(name, constraint) <==> (!deeper && AllAlike(name, base)) || SuffixAfterDot(name, base)
  {
    hide SameIgnoringCase, AllAlike;
    var deeper := |constraint| > 0 && constraint[0] == DOT;
    var base := if deeper then constraint[1..] else constraint;
    IgnoringCaseIsAlike(name, base);
    if |name| > |base| {
      IgnoringCaseIsAlike(name[|name| - |base|..], base);
    }
  }

  lemma BelowCases(name: Octets, constraint: Octets)
    ensures var deeper := |constraint| > 0 && constraint[0] == DOT;
            var n, b := Labels(name), Labels(if deeper then constraint[1..] else constraint);
            Below(name, constraint) <==> (!deeper && SameLabels(n, b)) || EndsIn(n, b)
  {
    hide Labels, AllAlike;
    var deeper := |constraint| > 0 && constraint[0] == DOT;
    var n, b := Labels(name), Labels(if deeper then constraint[1..] else constraint);
    assert n[0..] == n;
  }

  /** `dns_in_subtree` compares whole labels from the right. */
  lemma DnsSubtree(name: Octets, constraint: Octets)
    ensures DnsInSubtree(name, constraint) <==> Below(name, constraint)
  {
    hide Labels, AllAlike, SameLabels, EndsIn, SuffixAfterDot, DnsInSubtree, Below;
    var deeper := |constraint| > 0 && constraint[0] == DOT;
    var base := if deeper then constraint[1..] else constraint;
    SubtreeCases(name, constraint);
    BelowCases(name, constraint);
    SuffixRule(name, base);
    SameRule(name, base);
  }

  // --------------------------------------------------------------- address bits

  /** The two bytes agree in every bit the mask sets. */
  ghost predicate Agree(a: Byte, b: Byte, mask: Byte)
  {
    forall bit: nat :: bit < 8 && Bits.Has(mask, bit) ==> (Bits.Has(a, bit) <==> Bits.Has(b, bit))
  }

  /** A network and then its mask, each as long as the address, which agrees with the network under the mask. */
  ghost predicate Masked(address: Octets, network: Octets)
  {
    var n := |address|;
    |network| == 2 * n && forall i :: 0 <= i < n ==> Agree(address[i], network[i], network[n + i])
  }

  lemma {:induction false} AndHas(a: nat, b: nat, bit: nat)
    ensures Bits.Has(And(a, b), bit) <==> Bits.Has(a, bit) && Bits.Has(b, bit)
    decreases bit
  {
    if a == 0 {
      Bits.ZeroHasNothing(bit);
    } else if bit != 0 {
      AndHas(a / 2, b / 2, bit - 1);
    }
  }

  lemma {:induction false} AndBelow(a: nat, b: nat)
    ensures And(a, b) <= a
  {
    if a != 0 {
      AndBelow(a / 2, b / 2);
    }
  }

  /** Words of one width are equal when they have the same digits. */
  lemma {:induction false} SameDigits(x: nat, y: nat, width: nat)
    requires x < Bits.Pow2(width) && y < Bits.Pow2(width)
    requires forall bit: nat :: bit < width ==> (Bits.Has(x, bit) <==> Bits.Has(y, bit))
    ensures x == y
    decreases width
  {
    if width != 0 {
      assert Bits.Has(x, 0) <==> Bits.Has(y, 0);
      forall bit: nat | bit < width - 1 ensures Bits.Has(x / 2, bit) <==> Bits.Has(y / 2, bit) {
        assert Bits.Has(x, bit + 1) <==> Bits.Has(y, bit + 1);
      }
      SameDigits(x / 2, y / 2, width - 1);
    }
  }

  lemma MaskedByte(address: Byte, network: Byte, mask: Byte)
    ensures And(address, mask) == And(network, mask) <==> Agree(address, network, mask)
  {
    var x, y := And(address, mask), And(network, mask);
    forall bit: nat
      ensures Bits.Has(x, bit) <==> Bits.Has(address, bit) && Bits.Has(mask, bit)
      ensures Bits.Has(y, bit) <==> Bits.Has(network, bit) && Bits.Has(mask, bit)
    {
      AndHas(address, mask, bit);
      AndHas(network, mask, bit);
    }
    AndBelow(address, mask);
    AndBelow(network, mask);
    assert Bits.Pow2(8) == 256;
    if Agree(address, network, mask) {
      SameDigits(x, y, 8);
    }
  }

  /** `ip_in_subtree` compares the masked bits and no others. */
  lemma IpSubtree(address: Octets, network: Octets)
    ensures IpInSubtree(address, network) <==> Masked(address, network)
  {
    hide And, Agree;
    forall a: Byte, b: Byte, mask: Byte ensures And(a, mask) == And(b, mask) <==> Agree(a, b, mask) {
      MaskedByte(a, b, mask);
    }
  }

  // ----------------------------------------------------------- name constraints

  ghost predicate Within(name: GeneralName, subtree: GeneralName)
  {
    || (name.DnsName? && subtree.DnsName? && Below(name.name, subtree.name))
    || (name.IpAddress? && subtree.IpAddress? && Masked(name.address, subtree.address))
  }

  /** No excluded subtree holds the name, and if the permitted list speaks of names
      of this kind, one of its subtrees does. Names of other kinds are not judged. */
  ghost predicate Permits(c: NameConstraints, name: GeneralName)
  {
    name.DnsName? || name.IpAddress? ==>
      && (forall s :: s in c.excluded ==> !Within(name, s))
      && ((exists s :: s in c.permitted && s.DnsName? == name.DnsName? && s.IpAddress? == name.IpAddress?) ==>
            exists s :: s in c.permitted && Within(name, s))
  }

  /** Every subtree is of a kind that is understood, and every name is permitted. */
  ghost predicate PermitsAll(c: NameConstraints, below: seq<Profile>)
  {
    && (forall s :: s in c.permitted || s in c.excluded ==> s.DnsName? || s.IpAddress?)
    && (forall p, n :: p in below && n in p.names ==> Permits(c, n))
  }

  lemma SubtreeRule(name: GeneralName, subtree: GeneralName)
    ensures InSubtree(name, subtree) <==> Within(name, subtree)
  {
    hide DnsInSubtree, IpInSubtree, Below, Masked;
    if name.DnsName? && subtree.DnsName? {
      DnsSubtree(name.name, subtree.name);
    } else if name.IpAddress? && subtree.IpAddress? {
      IpSubtree(name.address, subtree.address);
    }
  }

  lemma NameRule(c: NameConstraints, name: GeneralName)
    ensures NameAllowed(c, name) <==> Permits(c, name)
  {
    hide InSubtree, Within;
    forall s ensures InSubtree(name, s) <==> Within(name, s) {
      SubtreeRule(name, s);
    }
  }

  lemma ConstraintsRule(c: NameConstraints, below: seq<Profile>)
    ensures CheckNameConstraints(c, below).Pass? <==> PermitsAll(c, below)
  {
    hide NameAllowed, Permits, CheckSubordinates;
    CheckSubordinatesIff(c, below);
    assert HasUnsupported(c) <==> exists s :: (s in c.permitted || s in c.excluded) && s.OtherName?;
    forall n ensures NameAllowed(c, n) <==> Permits(c, n) {
      NameRule(c, n);
    }
  }

  // ----------------------------------------------------------------------- roles

  /** A certificate authority, allowed to sign certificates and to be used for servers
      where it says what it is for, with room for the certificates already below it. */
  ghost predicate MayIssue(p: Profile, position: nat, below: seq<Profile>)
  {
    && p.hasBasicConstraints && p.ca
    && (p.hasKeyUsage ==> p.keyCertSign)
    && (p.hasExtendedKeyUsage ==> p.serverAuth || p.anyUsage)
    && position <= p.pathLimit
    && (p.constraints.Some? ==> PermitsAll(p.constraints.value, below))
  }

  /** Not an authority, allowed to sign and to be used for servers where it says what
      it is for, and naming the host. */
  ghost predicate MayServe(p: Profile, matchesHost: GeneralName -> bool)
  {
    && !p.ca
    && (p.hasKeyUsage ==> p.digitalSignature)
    && (p.hasExtendedKeyUsage ==> p.serverAuth)
    && exists n :: n in p.names && matchesHost(n)
  }

  lemma IssuerRule(p: Profile, below: seq<Profile>, position: nat)
    ensures CheckIssuer(p, below, position).Pass? <==> MayIssue(p, position, below)
  {
    hide CheckNameConstraints, PermitsAll;
    if p.constraints.Some? {
      ConstraintsRule(p.constraints.value, below);
    }
  }

  lemma LeafRule(p: Profile, matchesHost: GeneralName -> bool)
    ensures CheckLeaf(p, matchesHost).Pass? <==> MayServe(p, matchesHost)
  {
  }
}
