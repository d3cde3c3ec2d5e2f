/** What an acceptable certificate path is, said of the presented certificates
    directly (section 6.1 of RFC 5280), and its agreement with the paths the search
    builds one issuer at a time. */
module PathRules {
  import opened Bytes
  import opened ChainPolicy
  import opened PathSpec
  import opened PolicyRules
  import Names

  /** The certificate's extensions were understood and its validity period includes now. */
  ghost predicate InForce(env: Env, i: nat)
  {
    i < |env.certs| && env.certs[i].parsed.Ok? && env.certs[i].notBefore <= env.now <= env.certs[i].notAfter
  }

  /** The constraints are understood and permit every name of the certificates below. */
  ghost predicate Respected(env: Env, c: NameConstraints, below: seq<nat>)
  {
    && (forall s :: s in c.permitted || s in c.excluded ==> s.DnsName? || s.IpAddress?)
    && (forall i, n :: i in below && InForce(env, i) && n in env.certs[i].parsed.value.names ==> Permits(c, n))
  }

  /** Certificate `t` bears the issuer's name of the last certificate below it, its key
      verifies that certificate's signature, and its own extensions let it issue here. */
  ghost predicate Issued(env: Env, below: seq<nat>, t: nat)
  {
    && below != [] && InForce(env, below[|below| - 1]) && InForce(env, t)
    && var (subject, issuer, p) := (env.certs[below[|below| - 1]], env.certs[t], env.certs[t].parsed.value);
    && Names.SameName(env.foreign, issuer.subject, subject.issuer)
    && env.verifies(subject.signed, issuer.spki)
    && p.hasBasicConstraints && p.ca
    && (p.hasKeyUsage ==> p.keyCertSign)
    && (p.hasExtendedKeyUsage ==> p.serverAuth || p.anyUsage)
    && |below| - 1 <= p.pathLimit
    && (p.constraints.Some? ==> Respected(env, p.constraints.value, below))
  }

  /** Distinct certificates in force, the leaf first, each issued by the next. */
  ghost predicate SoundPath(env: Env, path: seq<nat>)
  {
    && path != [] && path[0] == 0
    && (forall k :: 0 <= k < |path| ==> InForce(env, path[k]))
    && (forall j, k :: 0 <= j < k < |path| ==> path[j] != path[k])
    && (forall k :: 1 <= k < |path| ==> Issued(env, path[..k], path[k]))
  }

  /** A trust anchor was found for the last certificate, and its constraints are respected. */
  ghost predicate SoundEnd(env: Env, path: seq<nat>)
  {
    && path != [] && InForce(env, path[|path| - 1])
    && var found := env.anchor(env.certs[path[|path| - 1]]);
    && found.Ok? && found.value.Some?
    && (found.value.value.constraints.Some? ==> Respected(env, found.value.value.constraints.value, path))
  }

  /** The leaf may serve the host. */
  ghost predicate SoundLeaf(env: Env)
  {
    InForce(env, 0) && MayServe(env.certs[0].parsed.value, env.matchesHost)
  }

  /** The first thing wrong with a leaf that may not serve the host. */
  ghost function Complaint(leaf: Certificate, now: int): Error
  {
    if leaf.parsed.Err? then leaf.parsed.error
    else if now < leaf.notBefore then NotYetValid
    else if now > leaf.notAfter then Expired
    else if leaf.parsed.value.ca then NotEndEntity
    else if leaf.parsed.value.hasKeyUsage && !leaf.parsed.value.digitalSignature then LeafKeyUsageInvalid
    else if leaf.parsed.value.hasExtendedKeyUsage && !leaf.parsed.value.serverAuth then NoServerAuth
    else HostnameMismatch
  }

  /** The leaf may serve the host, and a sound path leads from it to a trust anchor. */
  ghost predicate Accepts(env: Env)
  {
    SoundLeaf(env) && exists path :: SoundPath(env, path) && SoundEnd(env, path)
  }

  // ------------------------------------------------------ agreement with the search

  lemma ReadyIsInForce(env: Env, i: nat)
    ensures Ready(env, i) <==> InForce(env, i)
  {
  }

  lemma RespectedRule(env: Env, c: NameConstraints, below: seq<nat>)
    requires forall k :: 0 <= k < |below| ==> InForce(env, below[k])
    ensures CheckNameConstraints(c, Profiles(env, below)).Pass? <==> Respected(env, c, below)
  {
    hide Permits, CheckNameConstraints;
    var ps := Profiles(env, below);
    ConstraintsRule(c, ps);
    if Respected(env, c, below) {
      forall p, n | p in ps && n in p.names ensures Permits(c, n) {
        var k :| 0 <= k < |ps| && ps[k] == p;
        assert below[k] in below;
      }
    }
    if PermitsAll(c, ps) {
      forall i, n | i in below && InForce(env, i) && n in env.certs[i].parsed.value.names ensures Permits(c, n) {
        var k :| 0 <= k < |below| && below[k] == i;
        assert ps[k] in ps;
      }
    }
  }

  lemma IssuesRule(env: Env, below: seq<nat>, t: nat)
    requires forall k :: 0 <= k < |below| ==> InForce(env, below[k])
    ensures Issues(env, below, t) <==> Issued(env, below, t) && t !in below
  {
    hide Names.SameName, Names.Equivalent, CheckIssuer, Respected, PermitsAll, Profiles;
    if below != [] && InForce(env, t) {
      var p := env.certs[t].parsed.value;
      Names.EquivalentNamesAreSame(env.foreign, env.certs[t].subject, env.certs[Last(below)].issuer);
      IssuerRule(p, Profiles(env, below), |below| - 1);
      if p.constraints.Some? {
        ConstraintsRule(p.constraints.value, Profiles(env, below));
        RespectedRule(env, p.constraints.value, below);
      }
    }
  }

  lemma {:induction false} PathRule(env: Env, path: seq<nat>)
    ensures IsPath(env, path) <==> SoundPath(env, path)
    decreases |path|
  {
    hide Issues, Issued, InForce, Prepare;
    if path != [] {
      var n := |path| - 1;
      var init := path[..n];
      forall i ensures Ready(env, i) <==> InForce(env, i) {
        ReadyIsInForce(env, i);
      }
      if init != [] {
        PathRule(env, init);
        assert forall k :: 1 <= k < n ==> init[..k] == path[..k];
        if IsPath(env, path) || SoundPath(env, path) {
          SoundInit(env, path);
          IssuesRule(env, init, path[n]);
          IssuedInForce(env, init, path[n]);
          assert path[n] !in init <==> forall j :: 0 <= j < n ==> path[j] != path[n];
        }
      }
    }
  }

  lemma IssuedInForce(env: Env, below: seq<nat>, t: nat)
    ensures Issued(env, below, t) ==> InForce(env, t)
  {
  }

  lemma SoundInit(env: Env, path: seq<nat>)
    requires |path| > 1 && (IsPath(env, path) || SoundPath(env, path))
    requires var init := path[..|path| - 1]; IsPath(env, init) <==> SoundPath(env, init)
    ensures SoundPath(env, path[..|path| - 1])
  {
    hide Issues, Issued, InForce;
    var init := path[..|path| - 1];
    assert forall k :: 1 <= k < |init| ==> init[..k] == path[..k];
  }

  lemma EndRule(env: Env, path: seq<nat>)
    requires SoundPath(env, path)
    ensures Anchored(env, path) <==> SoundEnd(env, path)
  {
    hide CheckNameConstraints, Respected, Issued;
    var found := env.anchor(env.certs[Last(path)]);
    if found.Ok? && found.value.Some? && found.value.value.constraints.Some? {
      RespectedRule(env, found.value.value.constraints.value, path);
    }
  }

  lemma LeafOfEnv(env: Env)
    ensures Ready(env, 0) && CheckLeaf(ProfileOf(env, 0), env.matchesHost).Pass? <==> SoundLeaf(env)
    ensures |env.certs| > 0 && !SoundLeaf(env) ==>
            Fail(Complaint(env.certs[0], env.now)) ==
            if Prepare(env, 0).Fail? then Prepare(env, 0) else CheckLeaf(ProfileOf(env, 0), env.matchesHost)
  {
    hide MayServe;
    LeafRule(ProfileOf(env, 0), env.matchesHost);
  }

  /** What the search decides is acceptance as defined here. */
  lemma AcceptableRule(env: Env)
    ensures Acceptable(env) <==> Accepts(env)
  {
    hide CheckLeaf, Anchored, IsPath, SoundPath, SoundEnd, SoundLeaf, Prepare;
    LeafOfEnv(env);
    forall path ensures IsPath(env, path) && Anchored(env, path) <==> SoundPath(env, path) && SoundEnd(env, path) {
      PathRule(env, path);
      if SoundPath(env, path) {
        EndRule(env, path);
      }
    }
  }
}
