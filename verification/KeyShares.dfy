/** Server key-exchange negotiation: one pass over the client's key shares and
    supported groups (section 4.2.8 of RFC 8446). */
module KeyShares {
  import opened Bits
  import opened Bytes

  type Group = nat

  /** Local groups in preference order: X25519, secp256r1, X25519MLKEM768. */
  const LOCAL: seq<Group> := [0x1d, 0x17, 0x11ec]

  datatype Share = Share(group: Group, key: Octets)

  datatype Kx = Kx(selected: Option<Share>, retryGroup: Group, shareCount: nat)

  datatype Parsed = Parsed(kx: Kx) | IllegalParameter | UnsupportedGroup

  function Groups(shares: seq<Share>): (gs: seq<Group>)
    ensures |gs| == |shares|
    ensures forall i :: 0 <= i < |shares| ==> gs[i] == shares[i].group
  {
    seq(|shares|, i requires 0 <= i < |shares| => shares[i].group)
  }

  /** `local_group`: the preference rank of a group, `|LOCAL|` when it is not local. */
  function Rank(g: Group): (r: nat)
    ensures r <= |LOCAL|
    ensures r < |LOCAL| <==> g in LOCAL
    ensures r < |LOCAL| ==> LOCAL[r] == g
  {
    if g == LOCAL[0] then 0 else if g == LOCAL[1] then 1 else if g == LOCAL[2] then 2 else 3
  }

  // -------------------------------------------------------------- what is accepted

  /** `indices` places the elements of `short` at increasing positions of `long`. */
  ghost predicate Places(short: seq<Group>, long: seq<Group>, indices: seq<nat>)
  {
    && |indices| == |short|
    && (forall i :: 0 <= i < |indices| ==> indices[i] < |long| && long[indices[i]] == short[i])
    && (forall i, j :: 0 <= i < j < |indices| ==> indices[i] < indices[j])
  }

  ghost predicate Subsequence(short: seq<Group>, long: seq<Group>)
  {
    exists indices :: Places(short, long, indices)
  }

  predicate NoLocalRepeat(gs: seq<Group>)
  {
    forall i, j :: 0 <= i < j < |gs| && gs[i] == gs[j] ==> gs[i] !in LOCAL
  }

  /** Shares in the order of the supported groups, no local group twice, a local group in common. */
  ghost predicate Acceptable(supported: seq<Group>, shares: seq<Share>)
  {
    && Subsequence(Groups(shares), supported)
    && NoLocalRepeat(supported) && NoLocalRepeat(Groups(shares))
    && exists i :: 0 <= i < |supported| && supported[i] in LOCAL
  }

  /** The most preferred local share. */
  ghost predicate IsBestShare(best: Option<Share>, shares: seq<Share>)
  {
    match best
    case None => forall i :: 0 <= i < |shares| ==> shares[i].group !in LOCAL
    case Some(s) =>
      s in shares && s.group in LOCAL && forall i :: 0 <= i < |shares| ==> Rank(s.group) <= Rank(shares[i].group)
  }

  /** The most preferred local group the client supports. */
  ghost predicate IsBestGroup(g: Group, supported: seq<Group>)
  {
    g in LOCAL && g in supported && forall i :: 0 <= i < |supported| ==> Rank(g) <= Rank(supported[i])
  }

  // ---------------------------------------------------------- greedy subsequences

  predicate Embeds(short: seq<Group>, long: seq<Group>)
    decreases |long|
  {
    if short == [] then true
    else if long == [] then false
    else if short[0] == long[0] then Embeds(short[1..], long[1..])
    else Embeds(short, long[1..])
  }

  lemma {:induction false} EmbedsPlaces(short: seq<Group>, long: seq<Group>) returns (indices: seq<nat>)
    requires Embeds(short, long)
    ensures Places(short, long, indices)
    decreases |long|
  {
    if short == [] {
      indices := [];
    } else if short[0] == long[0] {
      var rest := EmbedsPlaces(short[1..], long[1..]);
      indices := [0] + seq(|rest|, i requires 0 <= i < |rest| => rest[i] + 1);
    } else {
      var rest := EmbedsPlaces(short, long[1..]);
      indices := seq(|rest|, i requires 0 <= i < |rest| => rest[i] + 1);
    }
  }

  lemma {:induction false} PlacesEmbeds(short: seq<Group>, long: seq<Group>, indices: seq<nat>)
    requires Places(short, long, indices)
    ensures Embeds(short, long)
    decreases |long|
  {
    if short != [] {
      var down := seq(|indices|, i requires 0 <= i < |indices| => if indices[i] > 0 then indices[i] - 1 else 0);
      forall i | 0 < i < |indices| ensures indices[i] > 0 {
        assert indices[0] < indices[i];
      }
      if short[0] == long[0] {
        var rest := down[1..];
        forall i | 0 <= i < |rest| ensures rest[i] < |long[1..]| && long[1..][rest[i]] == short[1..][i] {
          assert rest[i] == indices[i + 1] - 1;
        }
        PlacesEmbeds(short[1..], long[1..], rest);
      } else {
        assert indices[0] > 0;
        PlacesEmbeds(short, long[1..], down);
      }
    }
  }

  /** Taking the first match each time decides the subsequence relation. */
  lemma GreedyIff(short: seq<Group>, long: seq<Group>)
    ensures Embeds(short, long) <==> Subsequence(short, long)
  {
    if Embeds(short, long) {
      var indices := EmbedsPlaces(short, long);
    }
    if indices :| Places(short, long, indices) {
      PlacesEmbeds(short, long, indices);
    }
  }

  /** Shares drawn in order from a list without local repeats have none either, so the
      separate duplicate-share test of the parser is implied by its other tests. */
  lemma SharesCannotRepeat(supported: seq<Group>, gs: seq<Group>)
    requires Subsequence(gs, supported) && NoLocalRepeat(supported)
    ensures NoLocalRepeat(gs)
  {
    var indices :| Places(gs, supported, indices);
    forall i, j | 0 <= i < j < |gs| && gs[i] == gs[j] ensures gs[i] !in LOCAL {
      assert indices[i] < indices[j];
    }
  }

  // ---------------------------------------------------------------------- the pass

  /** Every local group met so far, as a rank mask. */
  ghost predicate Notes(mask: nat, gs: seq<Group>)
  {
    forall r :: 0 <= r < |LOCAL| ==> (Has(mask, r) <==> LOCAL[r] in gs)
  }

  lemma NoteLocal(mask: nat, gs: seq<Group>, g: Group)
    requires Notes(mask, gs)
    ensures g !in LOCAL ==> Notes(mask, gs + [g])
    ensures g in LOCAL ==> Notes(SetBit(mask, Rank(g)), gs + [g])
    ensures g in LOCAL ==> (Has(mask, Rank(g)) <==> g in gs)
  {
    forall r | 0 <= r < |LOCAL|
      ensures LOCAL[r] in gs + [g] <==> LOCAL[r] in gs || LOCAL[r] == g
      ensures Has(SetBit(mask, Rank(g)), r) <==> r == Rank(g) || Has(mask, r)
    {
      HasSetBit(mask, Rank(g), r);
    }
    assert forall r :: 0 <= r < |LOCAL| ==> Rank(LOCAL[r]) == r;
  }

  lemma RepeatStep(gs: seq<Group>, g: Group)
    requires NoLocalRepeat(gs)
    ensures NoLocalRepeat(gs + [g]) <==> g !in LOCAL || g !in gs
  {
    var all := gs + [g];
    if g in LOCAL && g in gs {
      var i :| 0 <= i < |gs| && gs[i] == g;
      assert all[i] == all[|gs|];
    }
  }

  lemma {:induction false} PrefixRepeat(gs: seq<Group>, n: nat)
    requires n <= |gs| && !NoLocalRepeat(gs[..n])
    ensures !NoLocalRepeat(gs)
  {
    var i, j :| 0 <= i < j < |gs[..n]| && gs[..n][i] == gs[..n][j] && gs[..n][i] in LOCAL;
    assert gs[i] == gs[j];
  }

  datatype Note = Noted(mask: nat) | Repeated

  /** `note_supported` */
  method NoteSupported(g: Group, mask: nat, ghost gs: seq<Group>) returns (note: Note)
    requires Notes(mask, gs) && NoLocalRepeat(gs)
    ensures note == Repeated <==> !NoLocalRepeat(gs + [g])
    ensures note.Noted? ==> Notes(note.mask, gs + [g])
  {
    NoteLocal(mask, gs, g);
    RepeatStep(gs, g);
    if Rank(g) < |LOCAL| {
      if Has(mask, Rank(g)) {
        return Repeated;
      }
      return Noted(SetBit(mask, Rank(g)));
    }
    note := Noted(mask);
  }

  datatype Advance = Matched(next: nat, mask: nat) | Missing | RepeatedGroup

  /** The inner loop: consume supported groups up to and including the wanted one. */
  method AdvanceTo(wanted: Group, supported: seq<Group>, from: nat, mask: nat) returns (a: Advance)
    requires from <= |supported| && Notes(mask, supported[..from]) && NoLocalRepeat(supported[..from])
    ensures a.Matched? ==> from < a.next <= |supported| && supported[a.next - 1] == wanted
    ensures a.Matched? ==> wanted !in supported[from..a.next - 1]
    ensures a.Matched? ==> Notes(a.mask, supported[..a.next]) && NoLocalRepeat(supported[..a.next])
    ensures a.Missing? ==> wanted !in supported[from..]
    ensures a.RepeatedGroup? ==> !NoLocalRepeat(supported)
  {
    var i, seen := from, mask;
    while i < |supported|
      invariant from <= i <= |supported|
      invariant Notes(seen, supported[..i]) && NoLocalRepeat(supported[..i])
      invariant wanted !in supported[from..i]
    {
      hide Notes, NoLocalRepeat;
      assert supported[..i + 1] == supported[..i] + [supported[i]];
      var note := NoteSupported(supported[i], seen, supported[..i]);
      if note.Repeated? {
        PrefixRepeat(supported, i + 1);
        return RepeatedGroup;
      }
      seen, i := note.mask, i + 1;
      if supported[i - 1] == wanted {
        return Matched(i, seen);
      }
      assert supported[from..i] == supported[from..i - 1] + [supported[i - 1]];
    }
    a := Missing;
  }

  lemma {:induction false} EmbedsSkip(short: seq<Group>, long: seq<Group>, n: nat)
    requires short != [] && n <= |long| && short[0] !in long[..n]
    ensures Embeds(short, long) <==> Embeds(short, long[n..])
    decreases n
  {
    if n == 0 {
      assert long[0..] == long;
    } else {
      assert long[0] == long[..n][0];
      assert long[1..][..n - 1] == long[..n][1..];
      EmbedsSkip(short, long[1..], n - 1);
      assert long[1..][n - 1..] == long[n..];
    }
  }

  lemma EmbedsTake(short: seq<Group>, long: seq<Group>, n: nat)
    requires short != [] && n < |long| && short[0] !in long[..n] && long[n] == short[0]
    ensures Embeds(short, long) <==> Embeds(short[1..], long[n + 1..])
  {
    EmbedsSkip(short, long, n);
    assert long[n..][1..] == long[n + 1..];
  }

  lemma EmbedsNothing(short: seq<Group>, long: seq<Group>)
    requires short != [] && short[0] !in long
    ensures !Embeds(short, long)
  {
    assert long[..|long|] == long;
    EmbedsSkip(short, long, |long|);
  }

  /** Still to be matched: the remaining shares within the remaining groups. */
  ghost predicate Pending(supported: seq<Group>, gs: seq<Group>, i: nat, at: nat)
    requires i <= |gs| && at <= |supported|
  {
    Embeds(gs, supported) <==> Embeds(gs[i..], supported[at..])
  }

  lemma PendingStep(supported: seq<Group>, gs: seq<Group>, i: nat, at: nat, next: nat)
    requires i < |gs| && at < next <= |supported| && Pending(supported, gs, i, at)
    requires supported[next - 1] == gs[i] && gs[i] !in supported[at..next - 1]
    ensures Pending(supported, gs, i + 1, next)
  {
    var long := supported[at..];
    assert long[..next - 1 - at] == supported[at..next - 1];
    EmbedsTake(gs[i..], long, next - 1 - at);
    assert gs[i..][1..] == gs[i + 1..];
    assert long[next - at..] == supported[next..];
  }

  lemma BestStep(best: Option<Share>, shares: seq<Share>, i: nat)
    requires i < |shares| && IsBestShare(best, shares[..i])
    ensures var s := shares[i];
            var better := s.group in LOCAL && (best.None? || Rank(s.group) < Rank(best.value.group));
            IsBestShare(if better then Some(s) else best,
                        shares[..i + 1])
  {
    assert shares[..i + 1] == shares[..i] + [shares[i]];
  }

  /** The share loop: matches every share and keeps the most preferred local one. */
  method MatchShares(supported: seq<Group>, shares: seq<Share>)
    returns (ok: bool, at: nat, mask: nat, selected: Option<Share>)
    ensures at <= |supported|
    ensures ok ==> Subsequence(Groups(shares), supported) && NoLocalRepeat(Groups(shares))
    ensures ok ==> Notes(mask, supported[..at]) && NoLocalRepeat(supported[..at])
    ensures ok ==> IsBestShare(selected, shares)
    ensures !ok ==> !Acceptable(supported, shares)
  {
    ghost var gs := Groups(shares);
    GreedyIff(gs, supported);
    var shared: nat := 0;
    at, mask, selected := 0, 0, None;
    forall r | 0 <= r < |LOCAL| ensures !Has(0, r) { ZeroHasNothing(r); }
    assert gs[0..] == gs && supported[0..] == supported;
    for i := 0 to |shares|
      invariant at <= |supported|
      invariant Pending(supported, gs, i, at)
      invariant Notes(mask, supported[..at]) && NoLocalRepeat(supported[..at])
      invariant Notes(shared, gs[..i]) && NoLocalRepeat(gs[..i])
      invariant IsBestShare(selected, shares[..i])
    {
      hide Notes, NoLocalRepeat, Embeds, IsBestShare, Subsequence;
      var share := shares[i];
      var a := AdvanceTo(share.group, supported, at, mask);
      if !a.Matched? {
        if a.Missing? {
          EmbedsNothing(gs[i..], supported[at..]);
        }
        return false, at, mask, selected;
      }
      PendingStep(supported, gs, i, at, a.next);
      at, mask := a.next, a.mask;
      assert gs[..i + 1] == gs[..i] + [share.group];
      var note := NoteSupported(share.group, shared, gs[..i]);
      if note.Repeated? {
        PrefixRepeat(gs, i + 1);
        return false, at, mask, selected;
      }
      shared := note.mask;
      BestStep(selected, shares, i);
      if Rank(share.group) < |LOCAL| && (selected.None? || Rank(share.group) < Rank(selected.value.group)) {
        selected := Some(share);
      }
    }
    assert gs[..|shares|] == gs && shares[..|shares|] == shares && gs[|shares|..] == [];
    ok := true;
  }

  /** `find_map` over the local groups in preference order. */
  method FirstNoted(mask: nat, ghost supported: seq<Group>) returns (rank: nat)
    requires Notes(mask, supported)
    ensures rank <= |LOCAL|
    ensures rank < |LOCAL| ==> IsBestGroup(LOCAL[rank], supported)
    ensures rank == |LOCAL| ==> forall i :: 0 <= i < |supported| ==> supported[i] !in LOCAL
  {
    rank := 0;
    while rank < |LOCAL| && !Has(mask, rank)
      invariant 0 <= rank <= |LOCAL|
      invariant forall r :: 0 <= r < rank ==> LOCAL[r] !in supported
    {
      rank := rank + 1;
    }
    forall i | 0 <= i < |supported| ensures rank <= Rank(supported[i]) {
      assert supported[i] in supported;
    }
    assert rank < |LOCAL| ==> Rank(LOCAL[rank]) == rank;
  }

  /** `ClientKx::parse`: accepts exactly the acceptable pairs of lists, selects the most
      preferred local share, and names the most preferred common group for a retry. */
  method Parse(supported: seq<Group>, shares: seq<Share>) returns (r: Parsed)
    ensures r.Parsed? <==> Acceptable(supported, shares)
    ensures r.Parsed? ==> IsBestShare(r.kx.selected, shares)
    ensures r.Parsed? ==> IsBestGroup(r.kx.retryGroup, supported) && r.kx.shareCount == |shares|
    ensures r.UnsupportedGroup? ==>
              Subsequence(Groups(shares), supported) && forall i :: 0 <= i < |supported| ==> supported[i] !in LOCAL
  {
    hide Notes, NoLocalRepeat, IsBestShare, Subsequence;
    var ok, at, mask, selected := MatchShares(supported, shares);
    if !ok {
      return IllegalParameter;
    }
    while at < |supported|
      invariant at <= |supported|
      invariant Notes(mask, supported[..at]) && NoLocalRepeat(supported[..at])
    {
      assert supported[..at + 1] == supported[..at] + [supported[at]];
      var note := NoteSupported(supported[at], mask, supported[..at]);
      if note.Repeated? {
        PrefixRepeat(supported, at + 1);
        return IllegalParameter;
      }
      mask, at := note.mask, at + 1;
    }
    assert supported[..at] == supported;
    var rank := FirstNoted(mask, supported);
    if rank == |LOCAL| {
      return UnsupportedGroup;
    }
    r := Parsed(Kx(selected, LOCAL[rank], |shares|));
  }

  /** `require_retry`: the retried hello brings exactly one share, of the requested group. */
  predicate RequireRetry(kx: Kx, requested: Group)
  {
    kx.shareCount == 1 && kx.selected.Some? && kx.selected.value.group == requested
  }

  lemma RetryMeansOneShare(kx: Kx, requested: Group, shares: seq<Share>)
    requires requested in LOCAL && IsBestShare(kx.selected, shares) && kx.shareCount == |shares|
    ensures RequireRetry(kx, requested) <==> |shares| == 1 && shares[0].group == requested
  {
    if |shares| == 1 {
      assert kx.selected.Some? ==> kx.selected.value == shares[0];
    }
  }

  /** The outcome is determined: two accepted results on the same lists agree. */
  lemma SelectionUnique(supported: seq<Group>, shares: seq<Share>, a: Kx, b: Kx)
    requires NoLocalRepeat(Groups(shares))
    requires IsBestShare(a.selected, shares) && IsBestShare(b.selected, shares)
    requires IsBestGroup(a.retryGroup, supported) && IsBestGroup(b.retryGroup, supported)
    ensures a.selected == b.selected && a.retryGroup == b.retryGroup
  {
    if a.selected.Some? && b.selected.Some? {
      var i :| 0 <= i < |shares| && shares[i] == a.selected.value;
      var j :| 0 <= j < |shares| && shares[j] == b.selected.value;
      assert Groups(shares)[i] == Groups(shares)[j];
    }
  }
}
