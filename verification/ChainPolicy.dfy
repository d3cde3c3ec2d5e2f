/** What a certificate may vouch for: name constraints, CA flags, path length. */
module ChainPolicy {
  import opened Bytes

  datatype Error =
    | Empty | ChainTooLong | NotYetValid | Expired | IssuerNotCa | NoKeyCertSign
    | PathLenExceeded | NotEndEntity | IssuerSubjectMismatch | NoServerAuth
    | LeafKeyUsageInvalid | HostnameMismatch | NameConstraintViolation | NoTrustAnchor
    | UnhandledCriticalExtension | DuplicateExtension | BadSignature | Parse

  datatype Outcome = Pass | Fail(error: Error)

  datatype Result<+T> = Ok(value: T) | Err(error: Error)

  datatype GeneralName = DnsName(name: Octets) | IpAddress(address: Octets) | OtherName(tag: Byte)

  datatype NameConstraints = NameConstraints(permitted: seq<GeneralName>, excluded: seq<GeneralName>)

  /** The policy a parsed extension list amounts to. */
  datatype Profile = Profile(
    names: seq<GeneralName>,
    constraints: Option<NameConstraints>,
    hasBasicConstraints: bool,
    ca: bool,
    hasKeyUsage: bool,
    digitalSignature: bool,
    keyCertSign: bool,
    hasExtendedKeyUsage: bool,
    serverAuth: bool,
    anyUsage: bool,
    pathLimit: nat)

  // -------------------------------------------------------------- name matching

  function Lower(b: Byte): Byte
  {
    if 65 <= b <= 90 then b + 32 else b
  }

  predicate SameIgnoringCase(a: Octets, b: Octets)
  {
    |a| == |b| && forall i :: 0 <= i < |a| ==> Lower(a[i]) == Lower(b[i])
  }

  predicate DnsInSubtree(name: Octets, constraint: Octets)
  {
    var subdomainsOnly := |constraint| > 0 && constraint[0] == 46;
    var base := if subdomainsOnly then constraint[1..] else constraint;
    || (!subdomainsOnly && SameIgnoringCase(name, base))
    || (|name| > |base| && name[|name| - |base| - 1] == 46 && SameIgnoringCase(name[|name| - |base|..], base))
  }

  /** Bitwise conjunction of two bytes. */
  function And(a: nat, b: nat): nat
  {
    if a == 0 then 0 else (if a % 2 == 1 && b % 2 == 1 then 1 else 0) + 2 * And(a / 2, b / 2)
  }

  predicate IpInSubtree(address: Octets, network: Octets)
  {
    var n := |address|;
    && |network| == 2 * n
    && forall i :: 0 <= i < n ==> And(address[i], network[n + i]) == And(network[i], network[n + i])
  }

  predicate InSubtree(name: GeneralName, subtree: GeneralName)
  {
    match (name, subtree)
    case (DnsName(n), DnsName(base)) => DnsInSubtree(n, base)
    case (IpAddress(a), IpAddress(network)) => IpInSubtree(a, network)
    case _ => false
  }

  predicate SameKind(a: GeneralName, b: GeneralName)
  {
    (a.DnsName? && b.DnsName?) || (a.IpAddress? && b.IpAddress?)
  }

  predicate HasUnsupported(c: NameConstraints)
  {
    (exists i :: 0 <= i < |c.permitted| && c.permitted[i].OtherName?) ||
    (exists i :: 0 <= i < |c.excluded| && c.excluded[i].OtherName?)
  }

  predicate Covered(name: GeneralName, subtrees: seq<GeneralName>)
  {
    exists i :: 0 <= i < |subtrees| && InSubtree(name, subtrees[i])
  }

  predicate Mentions(name: GeneralName, subtrees: seq<GeneralName>)
  {
    exists i :: 0 <= i < |subtrees| && SameKind(name, subtrees[i])
  }

  /** One presented name against the constraints. */
  predicate NameAllowed(c: NameConstraints, name: GeneralName)
  {
    name.OtherName? ||
    (!Covered(name, c.excluded) && (Mentions(name, c.permitted) ==> Covered(name, c.permitted)))
  }

  function CheckNames(c: NameConstraints, names: seq<GeneralName>): Outcome
  {
    if names == [] then Pass
    else if !NameAllowed(c, names[0]) then Fail(NameConstraintViolation)
    else CheckNames(c, names[1..])
  }

  /** `check_name_constraints`: subordinates in path order, each one's names in order. */
  function CheckSubordinates(c: NameConstraints, subordinates: seq<Profile>): Outcome
  {
    if subordinates == [] then Pass
    else if CheckNames(c, subordinates[0].names).Fail? then Fail(NameConstraintViolation)
    else CheckSubordinates(c, subordinates[1..])
  }

  function CheckNameConstraints(c: NameConstraints, subordinates: seq<Profile>): Outcome
  {
    if HasUnsupported(c) then Fail(NameConstraintViolation) else CheckSubordinates(c, subordinates)
  }

  // ---------------------------------------------------------------- role checks

  function CheckIssuerIsCa(p: Profile): Outcome
  {
    if !p.hasBasicConstraints || !p.ca then Fail(IssuerNotCa)
    else if p.hasKeyUsage && !p.keyCertSign then Fail(NoKeyCertSign)
    else Pass
  }

  function CheckCaUsage(p: Profile): Outcome
  {
    if p.hasExtendedKeyUsage && !p.serverAuth && !p.anyUsage then Fail(NoServerAuth) else Pass
  }

  /** `check_issuer`: `position` is the index of the certificate the issuer signs. */
  function CheckIssuer(p: Profile, subordinates: seq<Profile>, position: nat): Outcome
  {
    if CheckIssuerIsCa(p).Fail? then CheckIssuerIsCa(p)
    else if CheckCaUsage(p).Fail? then CheckCaUsage(p)
    else if position > p.pathLimit then Fail(PathLenExceeded)
    else if p.constraints.None? then Pass
    else CheckNameConstraints(p.constraints.value, subordinates)
  }

  /** `check_leaf`, with the host name comparison given as a predicate on names. */
  function CheckLeaf(p: Profile, matchesHost: GeneralName -> bool): Outcome
  {
    if p.ca then Fail(NotEndEntity)
    else if p.hasKeyUsage && !p.digitalSignature then Fail(LeafKeyUsageInvalid)
    else if p.hasExtendedKeyUsage && !p.serverAuth then Fail(NoServerAuth)
    else if exists i :: 0 <= i < |p.names| && matchesHost(p.names[i]) then Pass
    else Fail(HostnameMismatch)
  }

  // ------------------------------------------------------- order independence

  lemma {:induction false} CheckNamesIff(c: NameConstraints, names: seq<GeneralName>)
    ensures CheckNames(c, names).Pass? <==> forall n :: n in names ==> NameAllowed(c, n)
  {
    if names != [] {
      CheckNamesIff(c, names[1..]);
      assert names == [names[0]] + names[1..];
    }
  }

  ghost predicate ProfileAllowed(c: NameConstraints, p: Profile)
  {
    forall n :: n in p.names ==> NameAllowed(c, n)
  }

  lemma {:induction false} CheckSubordinatesIff(c: NameConstraints, subordinates: seq<Profile>)
    ensures CheckSubordinates(c, subordinates).Pass? <==>
            forall p :: p in subordinates ==> ProfileAllowed(c, p)
  {
    if subordinates != [] {
      CheckNamesIff(c, subordinates[0].names);
      CheckSubordinatesIff(c, subordinates[1..]);
      var first, rest := subordinates[0], subordinates[1..];
      assert first in subordinates;
      assert forall p :: p in subordinates <==> p == first || p in rest;
    }
  }

  /** The verdict reads the subordinates only as a set: neither their order nor
      repetition changes whether the constraints are met. */
  lemma ConstraintsReadTheSet(c: NameConstraints, a: seq<Profile>, b: seq<Profile>)
    requires forall p :: p in a <==> p in b
    ensures CheckNameConstraints(c, a).Pass? <==> CheckNameConstraints(c, b).Pass?
  {
    CheckSubordinatesIff(c, a);
    CheckSubordinatesIff(c, b);
  }

  lemma IssuerReadsTheSet(issuer: Profile, a: seq<Profile>, b: seq<Profile>)
    requires |a| == |b| > 0 && forall p :: p in a <==> p in b
    ensures CheckIssuer(issuer, a, |a| - 1).Pass? <==> CheckIssuer(issuer, b, |b| - 1).Pass?
  {
    if issuer.constraints.Some? {
      ConstraintsReadTheSet(issuer.constraints.value, a, b);
    }
  }

  // -------------------------------------------------------- prepared constraints

  /** Constraints regrouped once: the DNS and IP subtrees of each list in four
      consecutive runs of one table, delimited by four end positions. */
  datatype Prepared = Prepared(spans: seq<Octets>, ends: seq<nat>, unsupported: bool)

  /** The DNS bases, or the IP bases, of the subtrees from position `i` on. */
  function Bases(subtrees: seq<GeneralName>, dns: bool, i: nat): seq<Octets>
    requires i <= |subtrees|
    decreases |subtrees| - i
  {
    if i == |subtrees| then []
    else
      var rest := Bases(subtrees, dns, i + 1);
      match subtrees[i]
      case DnsName(base) => if dns then [base] + rest else rest
      case IpAddress(network) => if dns then rest else [network] + rest
      case OtherName(_) => rest
  }

  /** `PreparedNameConstraints::append`: one kind of subtree goes to the table's end. */
  method AppendBases(subtrees: seq<GeneralName>, dns: bool, spans: seq<Octets>) returns (all: seq<Octets>)
    ensures all == spans + Bases(subtrees, dns, 0)
  {
    var found: seq<Octets> := [];
    for i := 0 to |subtrees|
      invariant found + Bases(subtrees, dns, i) == Bases(subtrees, dns, 0)
    {
      match subtrees[i] {
        case DnsName(base) =>
          if dns { found := found + [base]; }
        case IpAddress(network) =>
          if !dns { found := found + [network]; }
        case OtherName(_) =>
      }
    }
    all := spans + found;
  }

  /** `PreparedNameConstraints::parse`, on parsed subtree lists. */
  method PrepareConstraints(c: NameConstraints) returns (p: Prepared)
    ensures IsPrepared(p, c)
  {
    var a := AppendBases(c.permitted, true, []);
    var b := AppendBases(c.permitted, false, a);
    var d := AppendBases(c.excluded, true, b);
    var e := AppendBases(c.excluded, false, d);
    p := Prepared(e, [|a|, |b|, |d|, |e|], HasUnsupported(c));
    FourRuns(Bases(c.permitted, true, 0), Bases(c.permitted, false, 0),
             Bases(c.excluded, true, 0), Bases(c.excluded, false, 0), e);
  }

  lemma FourRuns(a: seq<Octets>, b: seq<Octets>, c: seq<Octets>, d: seq<Octets>, all: seq<Octets>)
    requires all == ((([] + a) + b) + c) + d
    ensures var (i, j, k) := (|a|, |a| + |b|, |a| + |b| + |c|);
            all[..i] == a && all[i..j] == b && all[j..k] == c && all[k..] == d
  {
  }

  ghost predicate IsPrepared(p: Prepared, c: NameConstraints)
  {
    && |p.ends| == 4
    && 0 <= p.ends[0] <= p.ends[1] <= p.ends[2] <= p.ends[3] == |p.spans|
    && p.spans[..p.ends[0]] == Bases(c.permitted, true, 0)
    && p.spans[p.ends[0]..p.ends[1]] == Bases(c.permitted, false, 0)
    && p.spans[p.ends[1]..p.ends[2]] == Bases(c.excluded, true, 0)
    && p.spans[p.ends[2]..] == Bases(c.excluded, false, 0)
    && p.unsupported == HasUnsupported(c)
  }

  /** The run of the table that constrains names of this kind. */
  function Run(p: Prepared, name: GeneralName, excluded: bool): seq<Octets>
    requires |p.ends| == 4 && 0 <= p.ends[0] <= p.ends[1] <= p.ends[2] <= p.ends[3] == |p.spans|
    requires !name.OtherName?
  {
    match (name.DnsName?, excluded)
    case (true, false) => p.spans[..p.ends[0]]
    case (false, false) => p.spans[p.ends[0]..p.ends[1]]
    case (true, true) => p.spans[p.ends[1]..p.ends[2]]
    case (false, true) => p.spans[p.ends[2]..]
  }

  predicate Hits(name: GeneralName, bases: seq<Octets>)
    requires !name.OtherName?
  {
    exists b :: b in bases && HitsBase(name, b)
  }

  predicate HitsBase(name: GeneralName, base: Octets)
    requires !name.OtherName?
  {
    if name.DnsName? then DnsInSubtree(name.name, base) else IpInSubtree(name.address, base)
  }

  lemma {:induction false} BasesCover(name: GeneralName, subtrees: seq<GeneralName>, i: nat)
    requires !name.OtherName? && i <= |subtrees|
    ensures (exists b :: b in Bases(subtrees, name.DnsName?, i) && HitsBase(name, b)) <==>
            exists k :: i <= k < |subtrees| && InSubtree(name, subtrees[k])
    ensures Bases(subtrees, name.DnsName?, i) != [] <==>
            exists k :: i <= k < |subtrees| && SameKind(name, subtrees[k])
    decreases |subtrees| - i
  {
    hide InSubtree, HitsBase;
    if i < |subtrees| {
      BasesCover(name, subtrees, i + 1);
      BasesStep(name, subtrees, i);
      var here, rest := Bases(subtrees, name.DnsName?, i), Bases(subtrees, name.DnsName?, i + 1);
      hide Bases;
      if SameKind(name, subtrees[i]) {
        assert forall b :: b in here <==> b == here[0] || b in rest;
      }
    }
  }

  lemma BasesStep(name: GeneralName, subtrees: seq<GeneralName>, i: nat)
    requires !name.OtherName? && i < |subtrees|
    ensures var here, rest := Bases(subtrees, name.DnsName?, i), Bases(subtrees, name.DnsName?, i + 1);
            && (SameKind(name, subtrees[i]) ==>
                  here != [] && here == [here[0]] + rest && (InSubtree(name, subtrees[i]) <==> HitsBase(name, here[0])))
            && (!SameKind(name, subtrees[i]) ==> here == rest && !InSubtree(name, subtrees[i]))
  {
    hide DnsInSubtree, IpInSubtree;
  }

  /** Looking a name up in the prepared table gives the verdict of the constraint lists. */
  lemma PreparedAgrees(p: Prepared, c: NameConstraints, name: GeneralName)
    requires IsPrepared(p, c) && !name.OtherName?
    ensures NameAllowed(c, name) <==>
            !Hits(name, Run(p, name, true)) && (Run(p, name, false) != [] ==> Hits(name, Run(p, name, false)))
  {
    BasesCover(name, c.permitted, 0);
    BasesCover(name, c.excluded, 0);
  }
}
