/** The iterative, memoised depth-first certificate path search. */
module PathSearch {
  import opened Bits
  import opened Bytes
  import opened ChainPolicy
  import opened PathSpec
  import PathRules
  import opened SearchMemo
  import Names

  datatype Frame = Frame(subject: nat, next: nat)

  datatype Status = Raw | Known(profile: Result<Profile>)

  function Path(frames: seq<Frame>): (p: seq<nat>)
    ensures |p| == |frames|
    ensures forall k :: 0 <= k < |frames| ==> p[k] == frames[k].subject
  {
    seq(|frames|, k requires 0 <= k < |frames| => frames[k].subject)
  }

  // ------------------------------------------------------- the search invariant

  /** No path in this state leads to a trust anchor. */
  ghost predicate Dead(env: Env, subject: nat, used: nat)
  {
    forall p :: IsPath(env, p) && Last(p) == subject && MaskOf(p) == used ==> !Extends(env, p)
  }

  ghost predicate StackOk(env: Env, frames: seq<Frame>, used: nat)
  {
    && (frames != [] ==> IsPath(env, Path(frames)))
    && used == MaskOf(Path(frames))
    && (forall k :: 0 <= k < |frames| ==> frames[k].next <= |env.certs|)
    && (forall k :: 0 <= k < |frames| - 1 ==> frames[k].next >= 1)
  }

  ghost predicate FrameOk(env: Env, frames: seq<Frame>, k: nat, visited: set<(nat, nat)>)
    requires k < |frames|
  {
    var p := Path(frames)[..k + 1];
    frames[k].next >= 1 ==>
      && (frames[k].subject, MaskOf(p)) in visited
      && Explored(env, p, frames[k].next, if k + 1 < |frames| then frames[k + 1].subject else -1)
  }

  ghost predicate OnStack(frames: seq<Frame>, subject: nat, used: nat)
  {
    exists k :: 0 <= k < |frames| && frames[k].next >= 1 && frames[k].subject == subject &&
                MaskOf(Path(frames)[..k + 1]) == used
  }

  ghost predicate VisitedOk(env: Env, frames: seq<Frame>, visited: set<(nat, nat)>)
  {
    forall s: nat, u: nat :: (s, u) in visited ==> Dead(env, s, u) || OnStack(frames, s, u)
  }

  ghost predicate Inv(env: Env, frames: seq<Frame>, used: nat, visited: set<(nat, nat)>)
  {
    && StackOk(env, frames, used)
    && (forall k :: 0 <= k < |frames| ==> FrameOk(env, frames, k, visited))
    && VisitedOk(env, frames, visited)
    && ((0, 1) in visited || frames == [Frame(0, 0)])
  }

  ghost function Retop(frames: seq<Frame>, next: nat): seq<Frame>
    requires frames != []
  {
    frames[|frames| - 1 := Frame(frames[|frames| - 1].subject, next)]
  }

  lemma RetopPath(frames: seq<Frame>, next: nat)
    requires frames != []
    ensures Path(Retop(frames, next)) == Path(frames)
  {
  }

  lemma InvInitial(env: Env)
    requires IsPath(env, [0])
    ensures Inv(env, [Frame(0, 0)], 1, {})
  {
  }

  lemma RefutedIsDead(env: Env, path: seq<nat>)
    requires IsPath(env, path) && !Extends(env, path)
    ensures Dead(env, Last(path), MaskOf(path))
  {
    hide Extends, MaskOf, Issues;
    forall p | IsPath(env, p) && Last(p) == Last(path) && MaskOf(p) == MaskOf(path)
      ensures !Extends(env, p)
    {
      MemoLosesNothing(env, p, path);
    }
  }

  // --------------------------------------------------- steps keep the invariant

  lemma LeafMask(path: seq<nat>)
    requires path == [0]
    ensures MaskOf(path) == 1
  {
  }

  lemma LeafNeverIssues(env: Env, path: seq<nat>)
    requires path != [] && path[0] == 0
    ensures !Issues(env, path, 0)
  {
  }

  lemma KeepFrame(env: Env, a: seq<Frame>, b: seq<Frame>, k: nat, v: set<(nat, nat)>, w: set<(nat, nat)>)
    requires k + 1 < |a| && k + 1 < |b| && a[..k + 1] == b[..k + 1] && a[k + 1].subject == b[k + 1].subject
    requires FrameOk(env, a, k, v) && v <= w
    ensures FrameOk(env, b, k, w)
  {
    hide Explored, MaskOf;
    assert a[..k + 1][k] == b[..k + 1][k];
    forall i | 0 <= i <= k ensures a[i] == b[i] {
      assert a[..k + 1][i] == b[..k + 1][i];
    }
    assert Path(a)[..k + 1] == Path(b)[..k + 1];
  }

  lemma KeepStack(a: seq<Frame>, b: seq<Frame>, s: nat, u: nat)
    requires OnStack(a, s, u) && |a| <= |b|
    requires forall k :: 0 <= k < |a| ==> b[k].subject == a[k].subject && (a[k].next >= 1 ==> b[k].next >= 1)
    ensures OnStack(b, s, u)
  {
    hide MaskOf;
    var k :| 0 <= k < |a| && a[k].next >= 1 && a[k].subject == s && MaskOf(Path(a)[..k + 1]) == u;
    assert Path(a)[..k + 1] == Path(b)[..k + 1];
  }

  lemma KeepVisited(env: Env, a: seq<Frame>, b: seq<Frame>, visited: set<(nat, nat)>)
    requires VisitedOk(env, a, visited) && |a| <= |b|
    requires forall k :: 0 <= k < |a| ==> b[k].subject == a[k].subject && (a[k].next >= 1 ==> b[k].next >= 1)
    ensures VisitedOk(env, b, visited)
  {
    hide Dead, OnStack;
    forall s: nat, u: nat | (s, u) in visited ensures Dead(env, s, u) || OnStack(b, s, u) {
      if !Dead(env, s, u) {
        KeepStack(a, b, s, u);
      }
    }
  }

  /** Entering a state for the first time, when no anchor accepts it. */
  lemma Enter(env: Env, frames: seq<Frame>, used: nat, visited: set<(nat, nat)>)
    requires frames != [] && Inv(env, frames, used, visited)
    requires frames[|frames| - 1].next == 0 && !Anchored(env, Path(frames)) && |env.certs| >= 1
    ensures Inv(env, Retop(frames, 1), used, visited + {(frames[|frames| - 1].subject, used)})
  {
    hide IsPath, Anchored, MaskOf, Issues, Dead, Extends;
    var top, path, after := |frames| - 1, Path(frames), Retop(frames, 1);
    var state := (frames[top].subject, used);
    var now := visited + {state};
    RetopPath(frames, 1);
    PathBasics(env, path);
    LeafNeverIssues(env, path);
    assert path[..top + 1] == path;
    forall k | 0 <= k < |after| ensures FrameOk(env, after, k, now) {
      if k < top {
        KeepFrame(env, frames, after, k, visited, now);
      }
    }
    KeepVisited(env, frames, after, visited);
    assert OnStack(after, state.0, state.1) by { assert after[top].next == 1; }
    if (0, 1) !in visited {
      LeafMask(path);
    }
  }

  /** Passing over candidates that may not issue the top certificate. */
  lemma Skip(env: Env, frames: seq<Frame>, used: nat, visited: set<(nat, nat)>, next: nat)
    requires frames != [] && Inv(env, frames, used, visited)
    requires 1 <= frames[|frames| - 1].next <= next <= |env.certs|
    requires forall t: nat :: frames[|frames| - 1].next <= t < next ==> !Issues(env, Path(frames), t)
    ensures Inv(env, Retop(frames, next), used, visited)
  {
    hide IsPath, Anchored, MaskOf, Issues, Dead, Extends;
    var top, path, after := |frames| - 1, Path(frames), Retop(frames, next);
    RetopPath(frames, next);
    assert path[..top + 1] == path;
    assert FrameOk(env, frames, top, visited);
    forall k | 0 <= k < |after| ensures FrameOk(env, after, k, visited) {
      if k < top {
        KeepFrame(env, frames, after, k, visited, visited);
      }
    }
    KeepVisited(env, frames, after, visited);
  }

  lemma PushStack(env: Env, frames: seq<Frame>, used: nat, t: nat)
    requires frames != [] && StackOk(env, frames, used) && Issues(env, Path(frames), t)
    ensures StackOk(env, Retop(frames, t + 1) + [Frame(t, 0)], SetBit(used, t))
  {
    hide IsPath, Issues;
    var path, after := Path(frames), Retop(frames, t + 1) + [Frame(t, 0)];
    ExtendPath(env, path, t);
    assert Path(after) == path + [t];
    assert (path + [t])[..|path|] == path;
  }

  /** Descending to an issuer. */
  lemma Push(env: Env, frames: seq<Frame>, used: nat, visited: set<(nat, nat)>, t: nat)
    requires frames != [] && Inv(env, frames, used, visited)
    requires frames[|frames| - 1].next == t >= 1 && Issues(env, Path(frames), t)
    ensures Inv(env, Retop(frames, t + 1) + [Frame(t, 0)], SetBit(used, t), visited)
  {
    hide IsPath, Anchored, Issues, Dead, Extends, MaskOf, StackOk, VisitedOk;
    var top, path, after := |frames| - 1, Path(frames), Retop(frames, t + 1) + [Frame(t, 0)];
    PushStack(env, frames, used, t);
    assert path[..top + 1] == path;
    assert FrameOk(env, frames, top, visited);
    forall k | 0 <= k < |after| ensures FrameOk(env, after, k, visited) {
      if k < top {
        KeepFrame(env, frames, after, k, visited, visited);
      } else if k == top {
        assert Path(after)[..top + 1] == path;
      }
    }
    KeepVisited(env, frames, after, visited);
  }

  lemma PopMask(env: Env, path: seq<nat>)
    requires IsPath(env, path)
    ensures ClearBit(MaskOf(path), Last(path)) == MaskOf(path[..|path| - 1])
  {
    var init := path[..|path| - 1];
    PathBasics(env, path);
    MaskHas(init, Last(path));
    ClearSetBit(MaskOf(init), Last(path));
  }

  lemma PopVisited(env: Env, frames: seq<Frame>, visited: set<(nat, nat)>)
    requires frames != [] && IsPath(env, Path(frames)) && !Extends(env, Path(frames))
    requires VisitedOk(env, frames, visited)
    ensures VisitedOk(env, frames[..|frames| - 1], visited)
  {
    hide IsPath, MaskOf, Extends, Dead;
    var top, path := |frames| - 1, Path(frames);
    RefutedIsDead(env, path);
    assert path[..top + 1] == path;
    forall s: nat, u: nat | (s, u) in visited ensures Dead(env, s, u) || OnStack(frames[..top], s, u) {
      if !Dead(env, s, u) {
        var k :| 0 <= k < |frames| && frames[k].next >= 1 && frames[k].subject == s && MaskOf(path[..k + 1]) == u;
        assert k < top;
        assert Path(frames[..top])[..k + 1] == path[..k + 1];
      }
    }
  }

  lemma PopStack(env: Env, frames: seq<Frame>, used: nat)
    requires frames != [] && StackOk(env, frames, used)
    ensures StackOk(env, frames[..|frames| - 1], ClearBit(used, frames[|frames| - 1].subject))
  {
    hide Issues, MaskOf;
    var path, after := Path(frames), frames[..|frames| - 1];
    assert Path(after) == path[..|path| - 1];
    PopMask(env, path);
  }

  /** Leaving a refuted state. */
  lemma Pop(env: Env, frames: seq<Frame>, used: nat, visited: set<(nat, nat)>)
    requires frames != [] && Inv(env, frames, used, visited)
    requires !Extends(env, Path(frames)) && (frames[|frames| - 1].subject, used) in visited
    ensures Inv(env, frames[..|frames| - 1], ClearBit(used, frames[|frames| - 1].subject), visited)
  {
    hide IsPath, MaskOf, Anchored, Extends, Issues;
    var top, path, after := |frames| - 1, Path(frames), frames[..|frames| - 1];
    PopStack(env, frames, used);
    PopVisited(env, frames, visited);
    if frames == [Frame(0, 0)] {
      LeafMask(path);
    }
    forall k | 0 <= k < |after| ensures FrameOk(env, after, k, visited) {
      if k + 1 < top {
        KeepFrame(env, frames, after, k, visited, visited);
      } else {
        PopParent(env, frames, visited);
      }
    }
  }

  lemma PopParent(env: Env, frames: seq<Frame>, visited: set<(nat, nat)>)
    requires |frames| > 1 && FrameOk(env, frames, |frames| - 2, visited) && !Extends(env, Path(frames))
    ensures FrameOk(env, frames[..|frames| - 1], |frames| - 2, visited)
  {
    hide MaskOf, Anchored, Extends, Issues;
    var top, path := |frames| - 1, Path(frames);
    assert Path(frames[..top])[..top] == path[..top];
    assert path[..top] + [frames[top].subject] == path;
  }

  /** A state met again was refuted before: it cannot be on the stack. */
  lemma SeenIsRefuted(env: Env, frames: seq<Frame>, used: nat, visited: set<(nat, nat)>)
    requires frames != [] && Inv(env, frames, used, visited)
    requires frames[|frames| - 1].next == 0 && (frames[|frames| - 1].subject, used) in visited
    ensures !Extends(env, Path(frames))
  {
    hide IsPath, MaskOf, Extends, FrameOk;
    var top, path := |frames| - 1, Path(frames);
    PathBasics(env, path);
    assert forall k :: 0 <= k < top ==> path[k] != path[top];
  }

  lemma ExhaustedTop(env: Env, frames: seq<Frame>, used: nat, visited: set<(nat, nat)>)
    requires frames != [] && Inv(env, frames, used, visited)
    requires frames[|frames| - 1].next == |env.certs| >= 1
    ensures !Extends(env, Path(frames)) && (frames[|frames| - 1].subject, used) in visited
  {
    hide IsPath, MaskOf, Extends, Explored;
    var top, path := |frames| - 1, Path(frames);
    assert FrameOk(env, frames, top, visited);
    assert path[..top + 1] == path;
    ExhaustedIsDead(env, path);
  }

  /** When the stack runs empty, the leaf leads nowhere. */
  lemma EmptyStack(env: Env, used: nat, visited: set<(nat, nat)>)
    requires Inv(env, [], used, visited) && IsPath(env, [0])
    ensures !Extends(env, [0])
  {
  }

  // ------------------------------------------------------------------ measure

  ghost function AllStates(): set<(nat, nat)>
  {
    set s: nat, u: nat | s < MAX_LEN && u < 1024 && Reachable(s, u) :: (s, u)
  }

  /** Work left on the stack while no new state is entered. */
  ghost function Weight(frames: seq<Frame>, n: nat): nat
  {
    if frames == [] then 0
    else
      var next := frames[|frames| - 1].next;
      Weight(frames[..|frames| - 1], n) + if next == 0 then 1 else if next <= n then 2 * (n - next) + 2 else 0
  }

  lemma PathState(env: Env, path: seq<nat>)
    requires IsPath(env, path) && |env.certs| <= MAX_LEN
    ensures Reachable(Last(path), MaskOf(path))
  {
    hide IsPath;
    PathBasics(env, path);
    MaskWidth(path, 10);
    assert Pow2(5) == 32;
    assert Pow2(10) == 1024;
    MaskHas(path, 0);
    MaskHas(path, Last(path));
    if Last(path) == 0 {
      assert path == [0];
      LeafMask(path);
    }
  }

  lemma InvParts(env: Env, frames: seq<Frame>, used: nat, visited: set<(nat, nat)>)
    requires frames != [] && Inv(env, frames, used, visited)
    ensures StackOk(env, frames, used)
    ensures IsPath(env, Path(frames)) && used == MaskOf(Path(frames))
    ensures frames[|frames| - 1].next <= |env.certs|
  {
  }

  datatype Arrival = Accepted | Refuted | Entered

  lemma StackState(env: Env, frames: seq<Frame>, used: nat)
    requires frames != [] && StackOk(env, frames, used) && |env.certs| <= MAX_LEN
    ensures var subject := frames[|frames| - 1].subject;
            Reachable(subject, used) && subject < MAX_LEN && used < 1024 && Has(used, subject)
    ensures (frames[|frames| - 1].subject, used) in AllStates()
    ensures Normal(frames[|frames| - 1].subject, used) == (frames[|frames| - 1].subject, used)
  {
    hide IsPath, MaskOf;
    PathState(env, Path(frames));
    NormalReachable(frames[|frames| - 1].subject, used);
  }

  lemma WeightPop(frames: seq<Frame>, n: nat)
    requires frames != [] && frames[|frames| - 1].next <= n
    ensures Weight(frames[..|frames| - 1], n) < Weight(frames, n)
  {
  }

  lemma WeightPush(frames: seq<Frame>, t: nat, n: nat)
    requires frames != [] && 1 <= frames[|frames| - 1].next <= t < n
    ensures var last := |frames| - 1;
            Weight(frames[last := Frame(frames[last].subject, t + 1)] + [Frame(t, 0)], n) < Weight(frames, n)
  {
  }

  function Verdict(env: Env): (nat, nat) -> bool
  {
    (s: nat, i: nat) => s < |env.certs| && i < |env.certs| && Signs(env, s, i)
  }

  /** `Search`: the certificates and policy, the two tables and the first failure. */
  class Search {
    const env: Env
    const seen: Seen
    const signatures: SignatureCache
    const status: array<Status>
    var failure: Option<Error>

    ghost predicate Valid()
      reads this, seen, seen.words, signatures, signatures.checked, signatures.valid, status
    {
      && 1 <= |env.certs| <= MAX_LEN && status.Length == |env.certs|
      && seen.words != signatures.checked && seen.words != signatures.valid
      && seen.Valid() && signatures.Valid(Verdict(env))
      && forall i :: 0 <= i < status.Length && status[i].Known? ==> status[i].profile == env.certs[i].parsed
    }

    constructor (env: Env)
      requires 1 <= |env.certs| <= MAX_LEN
      ensures Valid() && this.env == env && seen.visited == {} && signatures.log == [] && failure == None
      ensures fresh(seen) && fresh(seen.words) && fresh(status)
      ensures fresh(signatures) && fresh(signatures.checked) && fresh(signatures.valid)
    {
      this.env := env;
      seen := new Seen();
      signatures := new SignatureCache(Verdict(env));
      status := new Status[|env.certs|](_ => Raw);
      failure := None;
    }

    method Reject(error: Error)
      modifies this`failure
      ensures failure == if old(failure).None? then Some(error) else old(failure)
    {
      if failure.None? {
        failure := Some(error);
      }
    }

    /** `prepare_candidate`: parses the extensions at most once, then checks validity. */
    method PrepareCandidate(i: nat) returns (o: Outcome)
      requires Valid() && i < |env.certs|
      modifies status
      ensures Valid() && o == Prepare(env, i) && status[i].Known?
      ensures o.Pass? ==> Prepared([Frame(i, 0)]) && Ready(env, i)
      ensures o.Pass? ==> status[i].profile == Ok(ProfileOf(env, i))
      ensures forall j :: 0 <= j < status.Length && old(status[j].Known?) ==> status[j].Known?
    {
      if status[i].Raw? {
        status[i] := Known(env.certs[i].parsed);
      }
      var c := env.certs[i];
      if status[i].profile.Err? {
        return Fail(status[i].profile.error);
      }
      o := if env.now < c.notBefore then Fail(NotYetValid)
           else if env.now > c.notAfter then Fail(Expired)
           else Pass;
    }

    /** The prepared profiles along the path, leaf first. */
    method Subordinates(frames: seq<Frame>) returns (ps: seq<Profile>)
      requires Valid() && Prepared(frames)
      ensures ps == Profiles(env, Path(frames))
    {
      ps := [];
      for k := 0 to |frames|
        invariant |ps| == k
        invariant forall j :: 0 <= j < k ==> ps[j] == ProfileOf(env, frames[j].subject)
      {
        assert status[frames[k].subject].profile == env.certs[frames[k].subject].parsed;
        ps := ps + [status[frames[k].subject].profile.value];
      }
    }

    ghost predicate Prepared(frames: seq<Frame>)
      reads this, status
    {
      forall k :: 0 <= k < |frames| ==>
        frames[k].subject < status.Length && frames[k].subject < |env.certs| &&
        status[frames[k].subject].Known? && env.certs[frames[k].subject].parsed.Ok? &&
        status[frames[k].subject].profile.Ok?
    }

    /** `signature_is_valid`: a cached answer, or one verification that is then cached. */
    method SignatureIsValid(subject: nat, issuer: nat) returns (ok: bool)
      requires Valid() && subject < |env.certs| && issuer < |env.certs|
      modifies this`failure, signatures, signatures.checked, signatures.valid
      ensures Valid() && ok == Signs(env, subject, issuer)
      ensures signatures.log == old(signatures.log) +
                if (subject, issuer) in old(signatures.log) then [] else [(subject, issuer)]
    {
      var cached := signatures.Get(subject, issuer, Verdict(env));
      if cached.Some? {
        return cached.value;
      }
      ok := env.verifies(env.certs[subject].signed, env.certs[issuer].spki);
      signatures.Insert(subject, issuer, ok, Verdict(env));
      if !ok {
        Reject(BadSignature);
      }
    }

    /** `anchor_accepts`: an error from the anchor store or its constraints is a refusal. */
    method AnchorAccepts(frames: seq<Frame>) returns (accepted: bool)
      requires Valid() && frames != [] && Prepared(frames)
      modifies this`failure
      ensures Valid() && accepted == Anchored(env, Path(frames))
    {
      hide CheckNameConstraints, Seen.Valid, SignatureCache.Valid;
      var found := env.anchor(env.certs[frames[|frames| - 1].subject]);
      match found {
        case Err(error) =>
          Reject(error);
          return false;
        case Ok(None) =>
          return false;
        case Ok(Some(match_)) =>
          if match_.constraints.None? {
            return true;
          }
          var below := Subordinates(frames);
          var verdict := CheckNameConstraints(match_.constraints.value, below);
          if verdict.Fail? {
            Reject(verdict.error);
          }
          return verdict.Pass?;
      }
    }

    /** One round of the candidate loop in `next_issuer`. */
    method Qualifies(frames: seq<Frame>, used: nat, t: nat) returns (ok: bool)
      requires Valid() && frames != [] && Prepared(frames)
      requires used == MaskOf(Path(frames)) && t < |env.certs|
      modifies this`failure, status, signatures, signatures.checked, signatures.valid
      ensures Valid() && Prepared(frames) && ok == Issues(env, Path(frames), t)
      ensures ok ==> Prepared([Frame(t, 0)])
    {
      hide Names.Equivalent, CheckIssuer, Seen.Valid, SignatureCache.Valid, MaskOf, Prepare, ProfileOf, Profiles,
           Verdict;
      var subject := frames[|frames| - 1].subject;
      MaskHas(Path(frames), t);
      if Has(used, t) {
        return false;
      }
      var named := Names.AreEquivalent(env.foreign, env.certs[t].subject, env.certs[subject].issuer);
      if !named {
        return false;
      }
      var prepared := PrepareCandidate(t);
      if prepared.Fail? {
        Reject(prepared.error);
        return false;
      }
      assert status[t].profile.value == ProfileOf(env, t);
      var below := Subordinates(frames);
      var verdict := CheckIssuer(status[t].profile.value, below, |frames| - 1);
      if verdict.Fail? {
        Reject(verdict.error);
        return false;
      }
      ok := SignatureIsValid(subject, t);
    }

    /** `next_issuer`: the first qualifying candidate from the frame's cursor on, and
        where the cursor then stands. */
    method NextIssuer(frames: seq<Frame>, used: nat) returns (found: bool, t: nat)
      requires Valid() && frames != [] && Prepared(frames)
      requires used == MaskOf(Path(frames)) && frames[|frames| - 1].next <= |env.certs|
      modifies this`failure, status, signatures, signatures.checked, signatures.valid
      ensures Valid() && Prepared(frames)
      ensures frames[|frames| - 1].next <= t <= |env.certs|
      ensures forall c: nat :: frames[|frames| - 1].next <= c < t ==> !Issues(env, Path(frames), c)
      ensures if found then t < |env.certs| && Issues(env, Path(frames), t) && Prepared([Frame(t, 0)])
              else t == |env.certs|
    {
      hide Issues, MaskOf, Seen.Valid, SignatureCache.Valid;
      t := frames[|frames| - 1].next;
      while t < |env.certs|
        invariant Valid() && Prepared(frames)
        invariant frames[|frames| - 1].next <= t <= |env.certs|
        invariant forall c: nat :: frames[|frames| - 1].next <= c < t ==> !Issues(env, Path(frames), c)
      {
        var ok := Qualifies(frames, used, t);
        if ok {
          return true, t;
        }
        t := t + 1;
      }
      found := false;
    }

    /** Arriving at a certificate: the memo and the trust anchors are consulted once. */
    method Arrive(frames: seq<Frame>, used: nat) returns (arrival: Arrival)
      requires Valid() && frames != [] && frames[|frames| - 1].next == 0 && Prepared(frames)
      requires Inv(env, frames, used, seen.visited)
      modifies this`failure, seen, seen.words
      ensures Valid() && Prepared(frames)
      ensures arrival == Accepted ==> IsPath(env, Path(frames)) && Anchored(env, Path(frames))
      ensures arrival == Refuted ==> seen.visited == old(seen.visited)
      ensures arrival == Refuted ==>
                Inv(env, frames[..|frames| - 1], ClearBit(used, frames[|frames| - 1].subject), seen.visited)
      ensures arrival == Entered ==> AllStates() - seen.visited < AllStates() - old(seen.visited)
      ensures arrival == Entered ==> Inv(env, Retop(frames, 1), used, seen.visited)
    {
      hide Seen.Valid, SignatureCache.Valid, Anchored, IsPath, Inv, AllStates, Reachable;
      ghost var visited := seen.visited;
      ghost var state := (frames[|frames| - 1].subject, used);
      InvParts(env, frames, used, visited);
      StackState(env, frames, used);
      var admission := seen.Admit(frames[|frames| - 1].subject, used);
      if !admission.first {
        SeenIsRefuted(env, frames, used, visited);
        Pop(env, frames, used, visited);
        assert seen.visited == visited;
        return Refuted;
      }
      var accepted := AnchorAccepts(frames);
      if accepted {
        return Accepted;
      }
      Enter(env, frames, used, visited);
      assert state in AllStates() - visited;
      return Entered;
    }

    /** Moving on from a certificate: down to the next issuer, or back when none is left. */
    method Descend(frames: seq<Frame>, used: nat) returns (next: seq<Frame>, mask: nat)
      requires Valid() && frames != [] && frames[|frames| - 1].next >= 1 && Prepared(frames)
      requires Inv(env, frames, used, seen.visited)
      modifies this`failure, status, signatures, signatures.checked, signatures.valid
      ensures Valid() && Prepared(next)
      ensures Inv(env, next, mask, seen.visited)
      ensures Weight(next, |env.certs|) < Weight(frames, |env.certs|)
    {
      hide Seen.Valid, SignatureCache.Valid, IsPath, Issues, Inv, Weight, MaskOf;
      var top := |frames| - 1;
      var subject := frames[top].subject;
      InvParts(env, frames, used, seen.visited);
      var found, t := NextIssuer(frames, used);
      Skip(env, frames, used, seen.visited, t);
      if found {
        RetopPath(frames, t);
        Push(env, Retop(frames, t), used, seen.visited, t);
        WeightPush(frames, t, |env.certs|);
        next := frames[top := Frame(subject, t + 1)] + [Frame(t, 0)];
        assert next == Retop(Retop(frames, t), t + 1) + [Frame(t, 0)];
        mask := SetBit(used, t);
      } else {
        Reject(if |frames| == |env.certs| then NoTrustAnchor else IssuerSubjectMismatch);
        ExhaustedTop(env, Retop(frames, t), used, seen.visited);
        Pop(env, Retop(frames, t), used, seen.visited);
        WeightPop(frames, |env.certs|);
        assert Retop(frames, t)[..top] == frames[..top];
        next, mask := frames[..top], ClearBit(used, subject);
      }
    }

    /** `run`: succeeds exactly when the leaf passes its checks and some simple valid
        path leads from it to an accepting trust anchor. Every iteration enters a new
        state or lowers the weight of the stack. */
    method Run() returns (r: Outcome)
      requires Valid() && seen.visited == {} && signatures.log == []
      modifies this, seen, seen.words, signatures, signatures.checked, signatures.valid, status
      ensures Valid()
      ensures r.Pass? <==> PathRules.Accepts(env)
      ensures !PathRules.SoundLeaf(env) ==> r == Fail(PathRules.Complaint(env.certs[0], env.now))
    {
      PathRules.AcceptableRule(env);
      PathRules.LeafOfEnv(env);
      hide Seen.Valid, SignatureCache.Valid, Anchored, IsPath, Extends, Inv, CheckLeaf, Prepare, AllStates, Weight,
           PathRules.Accepts, PathRules.SoundLeaf, PathRules.Complaint;
      var leaf := PrepareCandidate(0);
      if leaf.Fail? {
        return leaf;
      }
      var usable := CheckLeaf(status[0].profile.value, env.matchesHost);
      if usable.Fail? {
        return usable;
      }
      AcceptableIff(env);
      InvInitial(env);
      var frames: seq<Frame>, used: nat := [Frame(0, 0)], 1;
      while frames != []
        invariant Valid() && Prepared(frames)
        invariant Inv(env, frames, used, seen.visited)
        decreases AllStates() - seen.visited, Weight(frames, |env.certs|)
      {
        var top := |frames| - 1;
        InvParts(env, frames, used, seen.visited);
        if frames[top].next == 0 {
          var arrival := Arrive(frames, used);
          match arrival {
            case Accepted =>
              return Pass;
            case Refuted =>
              WeightPop(frames, |env.certs|);
              used := ClearBit(used, frames[top].subject);
              frames := frames[..top];
              continue;
            case Entered =>
              frames := frames[top := Frame(frames[top].subject, 1)];
          }
        }
        frames, used := Descend(frames, used);
      }
      EmptyStack(env, used, seen.visited);
      return Fail(if failure.Some? then failure.value else NoTrustAnchor);
    }
  }
}
