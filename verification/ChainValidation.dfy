/** Validation of a presented chain against a trust store. */
module ChainValidation {
  import opened Bytes
  import opened ChainPolicy
  import opened PathSpec
  import opened PathRules
  import opened PathSearch
  import opened PolicyRules
  import SearchMemo
  import Names
  import TrustStore

  type Verify = (Octets, Octets) -> bool

  /** The anchor verifier the handshake passes to the search. */
  function StoreAnchor(f: Names.Foreign, verifies: Verify, store: seq<TrustStore.Indexed>):
    Certificate -> Result<Option<AnchorMatch>>
  {
    (c: Certificate) =>
      match TrustStore.LinearScan(f, verifies, store, c.issuer, c.signed)
      case None => Ok(None)
      case Some(anchor) => Ok(Some(AnchorMatch(anchor.constraints)))
  }

  function Policy(f: Names.Foreign, verifies: Verify, store: seq<TrustStore.Indexed>,
                  presented: seq<Certificate>, now: int, matchesHost: GeneralName -> bool): Env
  {
    Env(presented, now, matchesHost, f, verifies, StoreAnchor(f, verifies, store))
  }

  /** Some presented certificates lead from the leaf to a certificate for which the
      store's first vouching anchor has constraints satisfied by the whole path. */
  ghost predicate Trusted(env: Env, store: seq<TrustStore.Indexed>, path: seq<nat>)
  {
    && SoundPath(env, path)
    && exists i :: 0 <= i < |store| && IsFirst(env, store, path, i) && Allows(env, store[i].anchor, path)
  }

  /** This is the first anchor of the store that vouches for the last certificate of the path. */
  ghost predicate IsFirst(env: Env, store: seq<TrustStore.Indexed>, path: seq<nat>, i: nat)
    requires path != [] && Last(path) < |env.certs| && i < |store|
  {
    var c := env.certs[Last(path)];
    && TrustStore.Certifies(env.foreign, env.verifies, store[i].anchor, c.issuer, c.signed)
    && forall j :: 0 <= j < i ==> !TrustStore.Certifies(env.foreign, env.verifies, store[j].anchor, c.issuer, c.signed)
  }

  /** The anchor's constraints allow the whole path. */
  ghost predicate Allows(env: Env, a: TrustStore.Anchor, path: seq<nat>)
  {
    a.constraints.Some? ==> Respected(env, a.constraints.value, path)
  }

  lemma {:induction false} ScanFirst(f: Names.Foreign, verifies: Verify, s: seq<TrustStore.Indexed>, i: nat,
                                     issuer: Names.Name, signed: Octets)
    requires i < |s| && TrustStore.Vouches(f, verifies, s[i].anchor, issuer, signed)
    requires forall j :: 0 <= j < i ==> !TrustStore.Vouches(f, verifies, s[j].anchor, issuer, signed)
    ensures TrustStore.LinearScan(f, verifies, s, issuer, signed) == Some(s[i].anchor)
  {
    hide TrustStore.Vouches;
    if i != 0 {
      assert s[1..][i - 1] == s[i];
      ScanFirst(f, verifies, s[1..], i - 1, issuer, signed);
    }
  }

  lemma FirstVouching(f: Names.Foreign, verifies: Verify, s: seq<TrustStore.Indexed>,
                      issuer: Names.Name, signed: Octets) returns (i: nat)
    requires exists k :: 0 <= k < |s| && TrustStore.Vouches(f, verifies, s[k].anchor, issuer, signed)
    ensures i < |s| && TrustStore.Vouches(f, verifies, s[i].anchor, issuer, signed)
    ensures forall j :: 0 <= j < i ==> !TrustStore.Vouches(f, verifies, s[j].anchor, issuer, signed)
  {
    hide TrustStore.Vouches;
    i := 0;
    while !TrustStore.Vouches(f, verifies, s[i].anchor, issuer, signed)
      invariant 0 <= i < |s|
      invariant exists k :: i <= k < |s| && TrustStore.Vouches(f, verifies, s[k].anchor, issuer, signed)
      invariant forall j :: 0 <= j < i ==> !TrustStore.Vouches(f, verifies, s[j].anchor, issuer, signed)
      decreases |s| - i
    {
      i := i + 1;
    }
  }

  lemma VouchingIsCertifying(env: Env, issuer: Names.Name, signed: Octets)
    ensures forall a :: TrustStore.Vouches(env.foreign, env.verifies, a, issuer, signed) <==>
                        TrustStore.Certifies(env.foreign, env.verifies, a, issuer, signed)
  {
    forall a ensures TrustStore.Vouches(env.foreign, env.verifies, a, issuer, signed) <==>
                     TrustStore.Certifies(env.foreign, env.verifies, a, issuer, signed)
    {
      TrustStore.VouchesRule(env.foreign, env.verifies, a, issuer, signed);
    }
  }

  /** A sound end in the search is trust in the store. */
  lemma SoundIsTrusted(env: Env, store: seq<TrustStore.Indexed>, path: seq<nat>)
    requires env.anchor == StoreAnchor(env.foreign, env.verifies, store)
    ensures SoundPath(env, path) && SoundEnd(env, path) <==> Trusted(env, store, path)
  {
    hide TrustStore.Vouches, TrustStore.Certifies, Issued, Respected;
    if SoundPath(env, path) {
      var c := env.certs[Last(path)];
      VouchingIsCertifying(env, c.issuer, c.signed);
      TrustStore.ScanFindsIff(env.foreign, env.verifies, store, c.issuer, c.signed);
      if TrustStore.LinearScan(env.foreign, env.verifies, store, c.issuer, c.signed).Some? {
        var i := FirstVouching(env.foreign, env.verifies, store, c.issuer, c.signed);
        ScanFirst(env.foreign, env.verifies, store, i, c.issuer, c.signed);
        assert forall k :: 0 <= k < |store| && IsFirst(env, store, path, k) ==> k == i;
        assert IsFirst(env, store, path, i);
      }
    }
  }

  /** The leaf parsed, is in its validity period, is no authority, may sign and serve where
      it says what it is for, and bears a name that matches the host. */
  ghost predicate ServesHost(leaf: Certificate, now: int, matchesHost: GeneralName -> bool)
  {
    && leaf.parsed.Ok? && leaf.notBefore <= now <= leaf.notAfter
    && var p := leaf.parsed.value;
    && !p.ca
    && (p.hasKeyUsage ==> p.digitalSignature)
    && (p.hasExtendedKeyUsage ==> p.serverAuth)
    && exists n :: n in p.names && matchesHost(n)
  }

  /** `Chain::validate_with_anchor_verifier`: yields the leaf's key exactly when between
      one and ten certificates were presented, the leaf is usable for the host, and a
      trusted simple path exists among them. */
  method Validate(f: Names.Foreign, verifies: Verify, store: seq<TrustStore.Indexed>,
                  presented: seq<Certificate>, now: int, matchesHost: GeneralName -> bool)
    returns (r: Result<Octets>)
    ensures var env := Policy(f, verifies, store, presented, now, matchesHost);
            r.Ok? <==>
            && 1 <= |presented| <= 10 && ServesHost(presented[0], now, matchesHost)
            && exists path :: Trusted(env, store, path)
    ensures r.Ok? ==> r.value == presented[0].spki
    ensures |presented| == 0 ==> r == Err(Empty)
    ensures |presented| > 10 ==> r == Err(ChainTooLong)
    ensures 1 <= |presented| <= 10 && !ServesHost(presented[0], now, matchesHost) ==>
            r == Err(Complaint(presented[0], now))
  {
    if |presented| > SearchMemo.MAX_LEN {
      return Err(ChainTooLong);
    }
    if |presented| == 0 {
      return Err(Empty);
    }
    hide SoundPath, SoundEnd, Trusted, Search.Valid;
    var env := Policy(f, verifies, store, presented, now, matchesHost);
    var search := new Search(env);
    var verdict := search.Run();
    forall path ensures SoundPath(env, path) && SoundEnd(env, path) <==> Trusted(env, store, path) {
      SoundIsTrusted(env, store, path);
    }
    assert SoundLeaf(env) <==> ServesHost(presented[0], now, matchesHost);
    r := match verdict case Pass => Ok(presented[0].spki) case Fail(error) => Err(error);
  }

  // ------------------------------------------------------------ the configured anchors

  lemma UnkeyedNeverVouches(f: Names.Foreign, verifies: Verify, store: seq<TrustStore.Indexed>, issuer: Names.Name,
                            signed: Octets)
    requires TrustStore.WellIndexed(f, store) && Names.KeyOf(f, issuer).None?
    ensures TrustStore.LinearScan(f, verifies, store, issuer, signed).None?
  {
    hide Names.KeyOf, Names.Equivalent;
    TrustStore.ScanFindsIff(f, verifies, store, issuer, signed);
    forall i | 0 <= i < |store| ensures !TrustStore.Vouches(f, verifies, store[i].anchor, issuer, signed) {
      if Names.Equivalent(f, store[i].anchor.subject, issuer) {
        Names.EquivalentNamesShareKey(f, store[i].anchor.subject, issuer);
      }
    }
  }

  /** The anchor verifier through the index: it answers as the scan the search is judged by. */
  method AnchorFor(f: Names.Foreign, verifies: Verify, store: seq<TrustStore.Indexed>, c: Certificate)
    returns (r: Result<Option<AnchorMatch>>)
    requires TrustStore.WellIndexed(f, store)
    ensures r == StoreAnchor(f, verifies, store)(c)
  {
    hide TrustStore.LinearScan, Names.KeyOf, TrustStore.WellIndexed;
    var key := Names.KeyOf(f, c.issuer);
    if key.None? {
      UnkeyedNeverVouches(f, verifies, store, c.issuer, c.signed);
      return Ok(None);
    }
    var found := TrustStore.VerifySubject(f, verifies, store, c.issuer, key.value, c.signed);
    r := match found case None => Ok(None) case Some(anchor) => Ok(Some(AnchorMatch(anchor.constraints)));
  }

  /** This anchor vouches for the last certificate of the path. */
  ghost predicate Heads(env: Env, a: TrustStore.Anchor, path: seq<nat>)
  {
    && SoundPath(env, path)
    && var c := env.certs[Last(path)]; TrustStore.Certifies(env.foreign, env.verifies, a, c.issuer, c.signed)
  }

  /** Some configured anchor vouches for the end of the path and allows it. */
  ghost predicate Backed(env: Env, anchors: seq<TrustStore.Anchor>, path: seq<nat>)
  {
    exists a :: a in anchors && Heads(env, a, path) && Allows(env, a, path)
  }

  /** Some configured anchor vouches for the end of the path, and all that do allow it. */
  ghost predicate FullyBacked(env: Env, anchors: seq<TrustStore.Anchor>, path: seq<nat>)
  {
    && (exists a :: a in anchors && Heads(env, a, path))
    && (forall a :: a in anchors && Heads(env, a, path) ==> Allows(env, a, path))
  }

  /** What a path is, and what constraints it respects, does not depend on the anchors. */
  lemma PathsIgnoreAnchors(a: Env, b: Env, path: seq<nat>)
    requires b == a.(anchor := b.anchor)
    ensures SoundPath(a, path) == SoundPath(b, path)
  {
    hide Names.SameName, Permits, Respected;
    forall c, below ensures Respected(a, c, below) == Respected(b, c, below) {
      RespectIgnoresAnchors(a, b, c, below);
    }
    assert forall below, t :: Issued(a, below, t) == Issued(b, below, t);
  }

  lemma RespectIgnoresAnchors(a: Env, b: Env, c: NameConstraints, below: seq<nat>)
    requires b == a.(anchor := b.anchor)
    ensures Respected(a, c, below) == Respected(b, c, below)
  {
    hide Permits;
  }

  lemma AllowsIgnoresAnchors(a: Env, b: Env, anchor: TrustStore.Anchor, path: seq<nat>)
    requires b == a.(anchor := b.anchor)
    ensures Allows(a, anchor, path) == Allows(b, anchor, path)
  {
    hide Respected;
    if anchor.constraints.Some? {
      RespectIgnoresAnchors(a, b, anchor.constraints.value, path);
    }
  }

  /** The index holds exactly the configured anchors. */
  ghost predicate Holds(f: Names.Foreign, anchors: seq<TrustStore.Anchor>, store: seq<TrustStore.Indexed>)
  {
    exists s :: TrustStore.Indices(f, anchors, s) && multiset(store) == multiset(s)
  }

  /** Trust in the index is trust in some configured anchor. */
  lemma TrustedIsBacked(env: Env, judged: Env, anchors: seq<TrustStore.Anchor>, store: seq<TrustStore.Indexed>,
                        path: seq<nat>)
    requires env == judged.(anchor := env.anchor) && Holds(env.foreign, anchors, store) && Trusted(judged, store, path)
    ensures Backed(env, anchors, path)
  {
    hide Issued, TrustStore.Vouches, TrustStore.Certifies, Allows, Holds;
    PathsIgnoreAnchors(env, judged, path);
    StoreHoldsAnchors(env.foreign, anchors, store);
    var i :| 0 <= i < |store| && IsFirst(judged, store, path, i) && Allows(judged, store[i].anchor, path);
    AllowsIgnoresAnchors(env, judged, store[i].anchor, path);
    assert store[i].anchor in anchors && Heads(env, store[i].anchor, path);
  }

  /** What every vouching anchor allows, the index trusts whichever stands first. */
  lemma FullyBackedIsTrusted(env: Env, judged: Env, anchors: seq<TrustStore.Anchor>, store: seq<TrustStore.Indexed>,
                             path: seq<nat>)
    requires env == judged.(anchor := env.anchor) && Holds(env.foreign, anchors, store)
    requires FullyBacked(env, anchors, path)
    ensures Trusted(judged, store, path)
  {
    hide Issued, TrustStore.Vouches, TrustStore.Certifies, Allows, Holds;
    PathsIgnoreAnchors(env, judged, path);
    StoreHoldsAnchors(env.foreign, anchors, store);
    var a :| a in anchors && Heads(env, a, path);
    var k :| 0 <= k < |store| && store[k].anchor == a;
    var c := env.certs[Last(path)];
    VouchingIsCertifying(env, c.issuer, c.signed);
    var i := FirstVouching(env.foreign, env.verifies, store, c.issuer, c.signed);
    assert IsFirst(judged, store, path, i);
    assert store[i].anchor in anchors && Heads(env, store[i].anchor, path);
    AllowsIgnoresAnchors(env, judged, store[i].anchor, path);
  }

  lemma StoreHoldsAnchors(f: Names.Foreign, anchors: seq<TrustStore.Anchor>, store: seq<TrustStore.Indexed>)
    requires Holds(f, anchors, store)
    ensures forall i :: 0 <= i < |store| ==> store[i].anchor in anchors
    ensures forall a :: a in anchors ==> exists i :: 0 <= i < |store| && store[i].anchor == a
  {
    hide Names.KeyOf;
    var s :| TrustStore.Indices(f, anchors, s) && multiset(store) == multiset(s);
    forall i | 0 <= i < |store| ensures store[i].anchor in anchors {
      assert store[i] in multiset(store);
      assert store[i] in s;
    }
    forall a | a in anchors ensures exists i :: 0 <= i < |store| && store[i].anchor == a {
      var k :| 0 <= k < |anchors| && anchors[k] == a;
      assert s[k] in multiset(s);
      assert s[k] in store;
    }
  }

  /** A chain validated against configured anchors. It is accepted only if a simple valid path
      leads from a leaf usable for the host to a certificate that some configured anchor vouches
      for and whose constraints allow the path; and it is accepted whenever there is such a path
      that every anchor vouching for its end allows. */
  method ValidateAgainst(f: Names.Foreign, verifies: Verify, parses: TrustStore.Anchor -> bool,
                         anchors: seq<TrustStore.Anchor>,
                         presented: seq<Certificate>, now: int, matchesHost: GeneralName -> bool)
    returns (r: Result<Octets>)
    ensures var env := Policy(f, verifies, [], presented, now, matchesHost);
            r.Ok? ==> Admissible(f, parses, anchors, env) && exists path :: Backed(env, anchors, path)
    ensures var env := Policy(f, verifies, [], presented, now, matchesHost);
            Admissible(f, parses, anchors, env) && (exists path :: FullyBacked(env, anchors, path)) ==> r.Ok?
    ensures r.Ok? ==> r.value == presented[0].spki
  {
    hide Trusted, ServesHost, Backed, FullyBacked, Names.Keyable, TrustStore.Usable, TrustStore.WellIndexed,
         TrustStore.Indices;
    UsableRule(f, parses, anchors);
    var built := TrustStore.Build(f, parses, anchors);
    if built.Refused? {
      return Err(NoTrustAnchor);
    }
    var store := built.anchors;
    ghost var env := Policy(f, verifies, [], presented, now, matchesHost);
    ghost var judged := Policy(f, verifies, store, presented, now, matchesHost);
    assert Holds(f, anchors, store);
    r := Validate(f, verifies, store, presented, now, matchesHost);
    if path :| Trusted(judged, store, path) {
      TrustedIsBacked(env, judged, anchors, store, path);
    }
    if path :| FullyBacked(env, anchors, path) {
      FullyBackedIsTrusted(env, judged, anchors, store, path);
    }
  }

  /** The store can be built, the chain has one to ten certificates, and the leaf is usable. */
  ghost predicate Admissible(f: Names.Foreign, parses: TrustStore.Anchor -> bool, anchors: seq<TrustStore.Anchor>,
                             env: Env)
  {
    && 1 <= |anchors| <= 256 && (forall a :: a in anchors ==> Names.Keyable(f, a.subject) && parses(a))
    && 1 <= |env.certs| <= 10 && ServesHost(env.certs[0], env.now, env.matchesHost)
  }

  lemma UsableRule(f: Names.Foreign, parses: TrustStore.Anchor -> bool, anchors: seq<TrustStore.Anchor>)
    ensures (forall i :: 0 <= i < |anchors| ==> TrustStore.Usable(f, parses, anchors[i])) <==>
            forall a :: a in anchors ==> Names.Keyable(f, a.subject) && parses(a)
  {
    hide Names.Keyable, Names.KeyOf;
    forall a: TrustStore.Anchor ensures Names.KeyOf(f, a.subject).Some? <==> Names.Keyable(f, a.subject) {
      Names.KeyExistsIff(f, a.subject);
    }
    if forall a :: a in anchors ==> Names.Keyable(f, a.subject) && parses(a) {
      forall i | 0 <= i < |anchors| ensures TrustStore.Usable(f, parses, anchors[i]) {
        assert anchors[i] in anchors;
      }
    }
  }
}
