/** What a valid certificate path is (section 6.1 of RFC 5280), and why the search
    may forget everything about a path except its last certificate and its set. */
module PathSpec {
  import opened Bits
  import opened Bytes
  import opened ChainPolicy
  import Names

  datatype Certificate = Certificate(
    issuer: Names.Name,
    subject: Names.Name,
    signed: Octets,
    spki: Octets,
    notBefore: int,
    notAfter: int,
    parsed: Result<Profile>)

  datatype AnchorMatch = AnchorMatch(constraints: Option<NameConstraints>)

  /** The presented certificates, leaf first, and everything they are judged by. */
  datatype Env = Env(
    certs: seq<Certificate>,
    now: int,
    matchesHost: GeneralName -> bool,
    foreign: Names.Foreign,
    verifies: (Octets, Octets) -> bool,
    anchor: Certificate -> Result<Option<AnchorMatch>>)

  /** `PathCert::prepare`: the extensions parse, and the validity period includes now. */
  function Prepare(env: Env, i: nat): Outcome
    requires i < |env.certs|
  {
    var c := env.certs[i];
    if c.parsed.Err? then Fail(c.parsed.error)
    else if env.now < c.notBefore then Fail(NotYetValid)
    else if env.now > c.notAfter then Fail(Expired)
    else Pass
  }

  predicate Ready(env: Env, i: nat)
  {
    i < |env.certs| && Prepare(env, i).Pass?
  }

  const NO_PROFILE := Profile([], None, false, false, false, false, false, false, false, false, 0)

  function ProfileOf(env: Env, i: nat): Profile
  {
    if i < |env.certs| && env.certs[i].parsed.Ok? then env.certs[i].parsed.value else NO_PROFILE
  }

  function Profiles(env: Env, path: seq<nat>): (ps: seq<Profile>)
    ensures |ps| == |path|
    ensures forall k :: 0 <= k < |path| ==> ps[k] == ProfileOf(env, path[k])
  {
    if path == [] then [] else [ProfileOf(env, path[0])] + Profiles(env, path[1..])
  }

  function Last(path: seq<nat>): nat
    requires path != []
  {
    path[|path| - 1]
  }

  predicate Signs(env: Env, subject: nat, issuer: nat)
    requires subject < |env.certs| && issuer < |env.certs|
  {
    env.verifies(env.certs[subject].signed, env.certs[issuer].spki)
  }

  predicate Named(env: Env, subject: nat, issuer: nat)
    requires subject < |env.certs| && issuer < |env.certs|
  {
    Names.Equivalent(env.foreign, env.certs[issuer].subject, env.certs[subject].issuer)
  }

  /** Certificate `t` may issue the last certificate of the path. */
  predicate Issues(env: Env, path: seq<nat>, t: nat)
  {
    && path != [] && Last(path) < |env.certs|
    && Ready(env, t) && t !in path
    && Named(env, Last(path), t)
    && CheckIssuer(ProfileOf(env, t), Profiles(env, path), |path| - 1).Pass?
    && Signs(env, Last(path), t)
  }

  /** A path from the leaf in which each certificate issues its predecessor. */
  predicate IsPath(env: Env, path: seq<nat>)
  {
    path != [] &&
    var init := path[..|path| - 1];
    if init == [] then path[0] == 0 && Ready(env, 0) else IsPath(env, init) && Issues(env, init, Last(path))
  }

  /** A trust anchor issues the last certificate, and its constraints hold below it. */
  predicate Anchored(env: Env, path: seq<nat>)
  {
    && path != [] && Last(path) < |env.certs|
    && var match_ := env.anchor(env.certs[Last(path)]);
    && match_.Ok? && match_.value.Some?
    && (match_.value.value.constraints.Some? ==>
          CheckNameConstraints(match_.value.value.constraints.value, Profiles(env, path)).Pass?)
  }

  ghost predicate Completes(env: Env, path: seq<nat>, rest: seq<nat>)
  {
    IsPath(env, path + rest) && Anchored(env, path + rest)
  }

  /** The path can be prolonged to a trust anchor. */
  ghost predicate Extends(env: Env, path: seq<nat>)
  {
    exists rest :: Completes(env, path, rest)
  }

  /** The leaf is usable for the host and some simple path leads from it to an anchor. */
  ghost predicate Acceptable(env: Env)
  {
    Ready(env, 0) && CheckLeaf(ProfileOf(env, 0), env.matchesHost).Pass? &&
    exists path :: IsPath(env, path) && Anchored(env, path)
  }

  // -------------------------------------------------------------------- paths

  lemma {:induction false} PathBasics(env: Env, path: seq<nat>)
    requires IsPath(env, path)
    ensures path != [] && path[0] == 0
    ensures forall k :: 0 <= k < |path| ==> Ready(env, path[k])
    ensures forall j, k :: 0 <= j < k < |path| ==> path[j] != path[k]
    decreases |path|
  {
    hide Named, CheckIssuer, Prepare, Profiles;
    var init := path[..|path| - 1];
    if init != [] {
      PathBasics(env, init);
      forall j, k | 0 <= j < k < |path| ensures path[j] != path[k] {
        assert path[j] == init[j] && path[j] in init;
        assert k < |init| ==> path[k] == init[k];
      }
    }
  }

  lemma {:induction false} PathPrefix(env: Env, path: seq<nat>, n: nat)
    requires IsPath(env, path) && 0 < n <= |path|
    ensures IsPath(env, path[..n])
    ensures n < |path| ==> Issues(env, path[..n], path[n])
    decreases |path|
  {
    hide Issues;
    var init := path[..|path| - 1];
    if n == |path| {
      assert path[..n] == path;
    } else if n == |init| {
      assert path[..n] == init;
    } else {
      PathPrefix(env, init, n);
      assert init[..n] == path[..n];
    }
  }

  lemma ExtendPath(env: Env, path: seq<nat>, t: nat)
    requires IsPath(env, path) && Issues(env, path, t)
    ensures IsPath(env, path + [t]) && t < |env.certs|
  {
    var longer := path + [t];
    assert longer[..|longer| - 1] == path;
  }

  // ----------------------------------------------------- the state of a path

  /** The used set as a machine word. */
  function MaskOf(path: seq<nat>): nat
  {
    if path == [] then 0 else SetBit(MaskOf(path[..|path| - 1]), Last(path))
  }

  lemma {:induction false} MaskHas(path: seq<nat>, i: nat)
    ensures Has(MaskOf(path), i) <==> i in path
  {
    if path == [] {
      ZeroHasNothing(i);
    } else {
      var init := path[..|path| - 1];
      MaskHas(init, i);
      HasSetBit(MaskOf(init), Last(path), i);
      assert path == init + [Last(path)];
    }
  }

  lemma {:induction false} MaskWidth(path: seq<nat>, width: nat)
    requires forall k :: 0 <= k < |path| ==> path[k] < width
    ensures MaskOf(path) < Pow2(width)
  {
    if path != [] {
      MaskWidth(path[..|path| - 1], width);
      SetBitWidth(MaskOf(path[..|path| - 1]), Last(path), width);
    }
  }

  ghost predicate SameState(env: Env, p: seq<nat>, q: seq<nat>)
  {
    IsPath(env, p) && IsPath(env, q) && Last(p) == Last(q) && MaskOf(p) == MaskOf(q)
  }

  lemma SameMembers(p: seq<nat>, q: seq<nat>)
    requires MaskOf(p) == MaskOf(q)
    ensures forall i: nat :: i in p <==> i in q
  {
    forall i: nat ensures i in p <==> i in q {
      MaskHas(p, i);
      MaskHas(q, i);
    }
  }

  function Elements(p: seq<nat>): set<nat>
  {
    set i | i in p
  }

  lemma {:induction false} DistinctSize(p: seq<nat>)
    requires forall j, k :: 0 <= j < k < |p| ==> p[j] != p[k]
    ensures |Elements(p)| == |p|
  {
    if p == [] {
      assert Elements(p) == {};
    } else {
      var init, last := p[..|p| - 1], Last(p);
      DistinctSize(init);
      assert p == init + [last];
      assert Elements(p) == Elements(init) + {last};
    }
  }

  lemma DistinctSameLength(p: seq<nat>, q: seq<nat>)
    requires forall j, k :: 0 <= j < k < |p| ==> p[j] != p[k]
    requires forall j, k :: 0 <= j < k < |q| ==> q[j] != q[k]
    requires forall i: nat :: i in p <==> i in q
    ensures |p| == |q|
  {
    DistinctSize(p);
    DistinctSize(q);
    assert Elements(p) == Elements(q);
  }

  lemma SameProfiles(env: Env, p: seq<nat>, q: seq<nat>)
    requires forall i: nat :: i in p <==> i in q
    ensures forall x :: x in Profiles(env, p) <==> x in Profiles(env, q)
  {
    forall x ensures x in Profiles(env, p) <==> x in Profiles(env, q) {
      if x in Profiles(env, p) {
        var k :| 0 <= k < |p| && Profiles(env, p)[k] == x;
        assert p[k] in q;
        var j :| 0 <= j < |q| && q[j] == p[k];
        assert Profiles(env, q)[j] == x;
      }
      if x in Profiles(env, q) {
        var k :| 0 <= k < |q| && Profiles(env, q)[k] == x;
        assert q[k] in p;
        var j :| 0 <= j < |p| && p[j] == q[k];
        assert Profiles(env, p)[j] == x;
      }
    }
  }

  /** Every verdict on the next step reads the path only through its state. */
  lemma StateDecides(env: Env, p: seq<nat>, q: seq<nat>, t: nat)
    requires SameState(env, p, q)
    ensures Issues(env, p, t) <==> Issues(env, q, t)
    ensures Anchored(env, p) <==> Anchored(env, q)
  {
    hide Names.Equivalent, CheckIssuerIsCa, CheckCaUsage, IsPath;
    PathBasics(env, p);
    PathBasics(env, q);
    SameMembers(p, q);
    DistinctSameLength(p, q);
    SameProfiles(env, p, q);
    StateDecidesIssuer(env, p, q, t);
    StateDecidesAnchor(env, p, q);
  }

  lemma StateDecidesIssuer(env: Env, p: seq<nat>, q: seq<nat>, t: nat)
    requires |p| == |q| > 0 && Last(p) == Last(q) && (forall i: nat :: i in p <==> i in q)
    requires forall x :: x in Profiles(env, p) <==> x in Profiles(env, q)
    ensures Issues(env, p, t) <==> Issues(env, q, t)
  {
    hide Names.Equivalent, CheckIssuer;
    IssuerReadsTheSet(ProfileOf(env, t), Profiles(env, p), Profiles(env, q));
  }

  lemma StateDecidesAnchor(env: Env, p: seq<nat>, q: seq<nat>)
    requires |p| == |q| > 0 && Last(p) == Last(q)
    requires forall x :: x in Profiles(env, p) <==> x in Profiles(env, q)
    ensures Anchored(env, p) <==> Anchored(env, q)
  {
    hide CheckNameConstraints;
    if Last(p) < |env.certs| {
      var found := env.anchor(env.certs[Last(p)]);
      if found.Ok? && found.value.Some? && found.value.value.constraints.Some? {
        ConstraintsReadTheSet(found.value.value.constraints.value, Profiles(env, p), Profiles(env, q));
      }
    }
  }

  lemma SameStateSteps(env: Env, p: seq<nat>, q: seq<nat>, t: nat)
    requires SameState(env, p, q) && Issues(env, p, t)
    ensures SameState(env, p + [t], q + [t])
  {
    StateDecides(env, p, q, t);
    ExtendPath(env, p, t);
    ExtendPath(env, q, t);
    assert (p + [t])[..|p|] == p && (q + [t])[..|q|] == q;
  }

  lemma {:induction false} SameStateSameFuture(env: Env, p: seq<nat>, q: seq<nat>, rest: seq<nat>)
    requires SameState(env, p, q) && Completes(env, p, rest)
    ensures Completes(env, q, rest)
    decreases |rest|
  {
    hide Issues, Anchored, IsPath, MaskOf;
    if rest == [] {
      assert p + rest == p && q + rest == q;
      StateDecides(env, p, q, 0);
    } else {
      var t := rest[0];
      PathBasics(env, p);
      PathPrefix(env, p + rest, |p|);
      assert (p + rest)[..|p|] == p;
      SameStateSteps(env, p, q, t);
      assert p + rest == (p + [t]) + rest[1..] && q + rest == (q + [t]) + rest[1..];
      SameStateSameFuture(env, p + [t], q + [t], rest[1..]);
    }
  }

  /** Two paths in the same state are completed by the same continuations, so
      refuting one refutes the other: this is what the memo relies on. */
  lemma MemoLosesNothing(env: Env, p: seq<nat>, q: seq<nat>)
    requires SameState(env, p, q)
    ensures Extends(env, p) <==> Extends(env, q)
  {
    if rest :| Completes(env, p, rest) {
      SameStateSameFuture(env, p, q, rest);
    }
    if rest :| Completes(env, q, rest) {
      SameStateSameFuture(env, q, p, rest);
    }
  }

  // ----------------------------------------------------------- depth-first steps

  /** The path is not anchored, and of the issuers below `upTo` every one is either
      refused or leads nowhere, except the one still being explored. */
  ghost predicate Explored(env: Env, path: seq<nat>, upTo: nat, pending: int)
  {
    && !Anchored(env, path)
    && forall t: nat :: t < upTo && t != pending && Issues(env, path, t) ==> !Extends(env, path + [t])
  }

  lemma ExhaustedIsDead(env: Env, path: seq<nat>)
    requires IsPath(env, path) && Explored(env, path, |env.certs|, -1)
    ensures !Extends(env, path)
  {
    hide Issues, Anchored;
    if rest :| Completes(env, path, rest) {
      if rest == [] {
        assert path + rest == path;
      } else {
        var t, whole := rest[0], path + rest;
        PathPrefix(env, whole, |path|);
        PathBasics(env, whole);
        assert whole[..|path|] == path && whole[|path|] == t;
        assert whole == (path + [t]) + rest[1..];
        assert Completes(env, path + [t], rest[1..]);
        assert Ready(env, t);
      }
    }
  }

  lemma AcceptableIff(env: Env)
    requires Ready(env, 0) && CheckLeaf(ProfileOf(env, 0), env.matchesHost).Pass?
    ensures IsPath(env, [0])
    ensures Acceptable(env) <==> Extends(env, [0])
  {
    hide Anchored, CheckLeaf;
    if path :| IsPath(env, path) && Anchored(env, path) {
      PathBasics(env, path);
      assert [0] + path[1..] == path;
      assert Completes(env, [0], path[1..]);
    }
  }
}
