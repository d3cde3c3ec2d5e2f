/** What a server pins of the first ClientHello across a HelloRetryRequest. */
module RetryBinding {
  import opened Bytes
  import opened Fields
  import opened Extensions
  import opened Frames
  import opened Psk
  import KeyShares

  const KEY_SHARE: U16 := 51
  const EARLY_DATA: U16 := 42
  const COOKIE: U16 := 44
  const PADDING: U16 := 21
  const U32_WIDTH: nat := 4

  /** The domain separator, in ASCII. */
  const LABEL: Octets := [
    115, 104, 105, 110, 32, 104, 114, 114, 32, 99, 108, 105, 101, 110, 116, 32, 104, 101, 108, 108,
    111, 32, 105, 110, 118, 97, 114, 105, 97, 110, 116, 32, 118, 49]

  datatype Body = Whole(data: Octets) | Pinned(identities: Octets, binderLengths: seq<nat>)

  datatype Kept = Kept(ty: U16, body: Body)

  predicate Mutable(ty: U16)
  {
    ty == COOKIE || ty == KEY_SHARE || ty == EARLY_DATA || ty == PADDING
  }

  predicate AllZero(s: Octets)
  {
    forall i :: 0 <= i < |s| ==> s[i] == 0
  }

  function Lengths(xs: seq<Octets>): (ns: seq<nat>)
    ensures |ns| == |xs|
    ensures forall i :: 0 <= i < |xs| ==> ns[i] == |xs[i]|
  {
    seq(|xs|, i requires 0 <= i < |xs| => |xs[i]|)
  }

  /** What is kept of one extension; `None` when its PSK offer is malformed. */
  function KeptBody(e: Extension): Option<Body>
  {
    if e.ty != PRE_SHARED_KEY then Some(Whole(e.data))
    else
      match (Halves(e.data), DecodeOffer(e.data))
      case (Some((identities, _)), Some(offer)) => Some(Pinned(identities, Lengths(offer.binders)))
      case _ => None
  }

  /** What is kept of the extensions from `i` on; `None` on a fault. */
  function KeptFrom(exts: seq<Extension>, i: nat): Option<seq<Kept>>
    requires i <= |exts|
    decreases |exts| - i
  {
    if i == |exts| then Some([])
    else if exts[i].ty == PADDING && !AllZero(exts[i].data) then None
    else if Mutable(exts[i].ty) then KeptFrom(exts, i + 1)
    else
      match (KeptBody(exts[i]), KeptFrom(exts, i + 1))
      case (Some(body), Some(later)) => Some([Kept(exts[i].ty, body)] + later)
      case _ => None
  }

  // ---------------------------------------------------------- the hashed bytes

  function Words(xs: seq<nat>, width: nat, i: nat): Octets
    requires i <= |xs|
    decreases |xs| - i
  {
    if i == |xs| then [] else Be(xs[i], width) + Words(xs, width, i + 1)
  }

  /** `update_bytes`: a 32-bit length, then the bytes. */
  function Counted(s: Octets): Octets
  {
    Be(|s|, U32_WIDTH) + s
  }

  function BodyBytes(b: Body): Octets
  {
    match b
    case Whole(data) => Counted(data)
    case Pinned(identities, lengths) =>
      Be(|lengths|, U32_WIDTH) + (Counted(identities) + (Be(|lengths|, U32_WIDTH) + Words(lengths, U32_WIDTH, 0)))
  }

  function KeptBytes(kept: seq<Kept>): Octets
  {
    if kept == [] then [] else Be(kept[0].ty, 2) + (BodyBytes(kept[0].body) + KeptBytes(kept[1..]))
  }

  function PreimageOf(h: Frame, kept: seq<Kept>): Octets
    requires h.ClientHello?
  {
    LABEL + (Be(h.version, 2) + (h.random + (Counted(h.sessionId)
    + (Be(|h.suites|, U32_WIDTH) + (Words(h.suites, 2, 0) + (Counted(h.compression)
    + (Be(|kept|, U32_WIDTH) + KeptBytes(kept))))))))
  }

  /** The bytes the fingerprint hashes; hashing them is taken to be injective. */
  function Fingerprint(h: Frame): Option<Octets>
    requires h.ClientHello?
  {
    match KeptFrom(h.extensions, 0)
    case None => None
    case Some(kept) => Some(PreimageOf(h, kept))
  }

  // ------------------------------------------------------------- the procedure

  function CountFrom(exts: seq<Extension>, i: nat): nat
    requires i <= |exts|
    decreases |exts| - i
  {
    if i == |exts| then 0 else (if Mutable(exts[i].ty) then 0 else 1) + CountFrom(exts, i + 1)
  }

  lemma {:induction false} CountIsKept(exts: seq<Extension>, i: nat)
    requires i <= |exts| && KeptFrom(exts, i).Some?
    ensures |KeptFrom(exts, i).value| == CountFrom(exts, i)
    decreases |exts| - i
  {
    hide KeptBody;
    if i < |exts| {
      CountIsKept(exts, i + 1);
    }
  }

  method CountInvariant(exts: seq<Extension>) returns (n: nat)
    ensures n == CountFrom(exts, 0)
  {
    n := 0;
    for i := 0 to |exts|
      invariant n + CountFrom(exts, i) == CountFrom(exts, 0)
    {
      if !Mutable(exts[i].ty) {
        n := n + 1;
      }
    }
  }

  method UpdateWords(t: Octets, xs: seq<nat>, width: nat) returns (r: Octets)
    ensures r == t + Words(xs, width, 0)
  {
    hide Be;
    r := t;
    for i := 0 to |xs|
      invariant r + Words(xs, width, i) == t + Words(xs, width, 0)
    {
      assert (r + Be(xs[i], width)) + Words(xs, width, i + 1) == r + Words(xs, width, i);
      r := r + Be(xs[i], width);
    }
    assert r + [] == r;
  }

  /** `update_psk_invariant`. */
  method UpdateOffer(t: Octets, data: Octets) returns (r: Option<Octets>)
    ensures r == match KeptBody(Extension(PRE_SHARED_KEY, data))
                 case None => None
                 case Some(body) => Some(t + BodyBytes(body))
  {
    hide Be, Words, Halves, DecodeOffer;
    var offered := ReadOffer(data);
    if offered.None? {
      return None;
    }
    var o := offered.value;
    var lengths := Lengths(DecodeOffer(data).value.binders);
    var u := UpdateWords(t + Be(o.count, U32_WIDTH) + Counted(o.identities) + Be(o.count, U32_WIDTH), lengths,
                         U32_WIDTH);
    OfferSummary(o, data);
    assert KeptBody(Extension(PRE_SHARED_KEY, data)) == Some(Pinned(o.identities, lengths));
    assert u == t + BodyBytes(Pinned(o.identities, lengths));
    r := Some(u);
  }

  lemma OfferSummary(o: Psk.Offered, data: Octets)
    requires Summarises(o, data)
    ensures o.count == |DecodeOffer(data).value.binders|
  {
  }

  function Continued(t: Octets, kept: Option<seq<Kept>>): Option<Octets>
  {
    match kept case None => None case Some(ks) => Some(t + KeptBytes(ks))
  }

  /** The loop over extensions in `fingerprint`. */
  method UpdateExtensions(t: Octets, exts: seq<Extension>) returns (r: Option<Octets>)
    ensures r == Continued(t, KeptFrom(exts, 0))
  {
    hide Be, KeptBody, BodyBytes, Counted;
    var u := t;
    for i := 0 to |exts|
      invariant Continued(t, KeptFrom(exts, 0)) == Continued(u, KeptFrom(exts, i))
    {
      var e := exts[i];
      if e.ty == PADDING && !AllZero(e.data) {
        return None;
      }
      if !Mutable(e.ty) {
        var typed := u + Be(e.ty, 2);
        if e.ty == PRE_SHARED_KEY {
          var updated := UpdateOffer(typed, e.data);
          NextKept(exts, i, u);
          if updated.None? {
            return None;
          }
          u := updated.value;
        } else {
          NextKept(exts, i, u);
          WholeBody(e);
          u := typed + Counted(e.data);
        }
      }
    }
    assert u + [] == u;
    r := Some(u);
  }

  lemma WholeBody(e: Extension)
    requires e.ty != PRE_SHARED_KEY
    ensures KeptBody(e) == Some(Whole(e.data)) && BodyBytes(Whole(e.data)) == Counted(e.data)
  {
  }

  lemma NextKept(exts: seq<Extension>, i: nat, u: Octets)
    requires i < |exts| && !Mutable(exts[i].ty)
    ensures KeptBody(exts[i]).None? ==> KeptFrom(exts, i).None?
    ensures KeptBody(exts[i]).Some? ==>
            Continued(u, KeptFrom(exts, i)) ==
            Continued(u + Be(exts[i].ty, 2) + BodyBytes(KeptBody(exts[i]).value), KeptFrom(exts, i + 1))
  {
    hide Be, BodyBytes, KeptBody;
    if KeptBody(exts[i]).Some? && KeptFrom(exts, i + 1).Some? {
      var (k, later) := (Kept(exts[i].ty, KeptBody(exts[i]).value), KeptFrom(exts, i + 1).value);
      assert ([k] + later)[1..] == later;
      assert u + (Be(k.ty, 2) + (BodyBytes(k.body) + KeptBytes(later))) ==
             (u + Be(k.ty, 2) + BodyBytes(k.body)) + KeptBytes(later);
    }
  }

  /** `fingerprint`. */
  method ComputeFingerprint(h: Frame) returns (r: Option<Octets>)
    requires h.ClientHello?
    ensures r == Fingerprint(h)
  {
    hide Be, KeptFrom, KeptBytes, Words, Counted, CountFrom;
    var t := LABEL + Be(h.version, 2) + h.random + Counted(h.sessionId) + Be(|h.suites|, U32_WIDTH);
    var u := UpdateWords(t, h.suites, 2);
    var n := CountInvariant(h.extensions);
    var v := u + Counted(h.compression) + Be(n, U32_WIDTH);
    r := UpdateExtensions(v, h.extensions);
    if KeptFrom(h.extensions, 0).Some? {
      CountIsKept(h.extensions, 0);
      var kept := KeptFrom(h.extensions, 0).value;
      assert v + KeptBytes(kept) == PreimageOf(h, kept);
    }
  }

  // --------------------------------------------------------------- injectivity

  lemma {:induction false} WordsInjective(xs: seq<nat>, ys: seq<nat>, width: nat, i: nat, a: Octets, b: Octets)
    requires i <= |xs| == |ys|
    requires forall k :: 0 <= k < |xs| ==> xs[k] < Span(width) && ys[k] < Span(width)
    requires Words(xs, width, i) + a == Words(ys, width, i) + b
    ensures xs[i..] == ys[i..] && a == b
    decreases |xs| - i
  {
    hide Be, Span;
    if i < |xs| {
      var (x, y) := (Words(xs, width, i + 1) + a, Words(ys, width, i + 1) + b);
      assert Be(xs[i], width) + x == Words(xs, width, i) + a;
      assert Be(ys[i], width) + y == Words(ys, width, i) + b;
      NumInjective(xs[i], ys[i], width, x, y);
      WordsInjective(xs, ys, width, i + 1, a, b);
      assert xs[i..] == [xs[i]] + xs[i + 1..] && ys[i..] == [ys[i]] + ys[i + 1..];
    } else {
      assert Words(xs, width, i) + a == a && Words(ys, width, i) + b == b;
    }
  }

  lemma NumInjective(m: nat, n: nat, width: nat, a: Octets, b: Octets)
    requires m < Span(width) && n < Span(width) && Be(m, width) + a == Be(n, width) + b
    ensures m == n && a == b
  {
    hide Be, Span;
    SplitEqual(Be(m, width), a, Be(n, width), b);
    BeInjective(m, n, width);
  }

  lemma CountedInjective(s: Octets, t: Octets, a: Octets, b: Octets)
    requires |s| < Span(U32_WIDTH) && |t| < Span(U32_WIDTH) && Counted(s) + a == Counted(t) + b
    ensures s == t && a == b
  {
    hide Be, Span;
    assert Counted(s) + a == Be(|s|, U32_WIDTH) + (s + a);
    assert Counted(t) + b == Be(|t|, U32_WIDTH) + (t + b);
    NumInjective(|s|, |t|, U32_WIDTH, s + a, t + b);
    SplitEqual(s, a, t, b);
  }

  /** Every length fits in 32 bits, and only a PSK offer is pinned in part. */
  predicate Sized(k: Kept)
  {
    && (k.body.Pinned? <==> k.ty == PRE_SHARED_KEY)
    && match k.body
       case Whole(data) => |data| < Span(U32_WIDTH)
       case Pinned(identities, lengths) =>
         && |identities| < Span(U32_WIDTH) && |lengths| < Span(U32_WIDTH)
         && forall i :: 0 <= i < |lengths| ==> lengths[i] < Span(U32_WIDTH)
  }

  lemma Regroup(a: Octets, b: Octets, c: Octets, d: Octets, e: Octets)
    ensures (a + (b + (c + d))) + e == a + (b + (c + (d + e)))
  {
  }

  lemma PinnedSplit(s: Octets, ms: seq<nat>, a: Octets)
    ensures var n := Be(|ms|, U32_WIDTH);
            BodyBytes(Pinned(s, ms)) + a == n + (Counted(s) + (n + (Words(ms, U32_WIDTH, 0) + a)))
  {
    hide Be, Counted, Words;
    var n := Be(|ms|, U32_WIDTH);
    Regroup(n, Counted(s), n, Words(ms, U32_WIDTH, 0), a);
  }

  lemma PinnedInjective(s: Octets, ms: seq<nat>, t: Octets, ns: seq<nat>, a: Octets, b: Octets)
    requires Sized(Kept(PRE_SHARED_KEY, Pinned(s, ms))) && Sized(Kept(PRE_SHARED_KEY, Pinned(t, ns)))
    requires BodyBytes(Pinned(s, ms)) + a == BodyBytes(Pinned(t, ns)) + b
    ensures s == t && ms == ns && a == b
  {
    hide Be, Span, Counted, Words, BodyBytes;
    var (x, y) := (Words(ms, U32_WIDTH, 0) + a, Words(ns, U32_WIDTH, 0) + b);
    PinnedSplit(s, ms, a);
    PinnedSplit(t, ns, b);
    NumInjective(|ms|, |ns|, U32_WIDTH, Counted(s) + (Be(|ms|, U32_WIDTH) + x), Counted(t) + (Be(|ns|, U32_WIDTH) + y));
    CountedInjective(s, t, Be(|ms|, U32_WIDTH) + x, Be(|ns|, U32_WIDTH) + y);
    NumInjective(|ms|, |ns|, U32_WIDTH, x, y);
    WordsInjective(ms, ns, U32_WIDTH, 0, a, b);
    assert ms[0..] == ms && ns[0..] == ns;
  }

  lemma BodyInjective(k: Kept, l: Kept, a: Octets, b: Octets)
    requires k.ty == l.ty && Sized(k) && Sized(l) && BodyBytes(k.body) + a == BodyBytes(l.body) + b
    ensures k == l && a == b
  {
    match (k.body, l.body)
    case (Whole(s), Whole(t)) => CountedInjective(s, t, a, b);
    case (Pinned(s, ms), Pinned(t, ns)) => PinnedInjective(s, ms, t, ns, a, b);
    case _ =>
  }

  lemma {:induction false} KeptInjective(ks: seq<Kept>, ls: seq<Kept>)
    requires |ks| == |ls| && KeptBytes(ks) == KeptBytes(ls)
    requires forall i :: 0 <= i < |ks| ==> Sized(ks[i]) && Sized(ls[i])
    ensures ks == ls
    decreases |ks|
  {
    hide Be, BodyBytes, Sized;
    if ks != [] {
      assert Sized(ks[0]) && Sized(ls[0]);
      Widths();
      NumInjective(ks[0].ty, ls[0].ty, 2, BodyBytes(ks[0].body) + KeptBytes(ks[1..]),
                   BodyBytes(ls[0].body) + KeptBytes(ls[1..]));
      BodyInjective(ks[0], ls[0], KeptBytes(ks[1..]), KeptBytes(ls[1..]));
      KeptInjective(ks[1..], ls[1..]);
      assert ks == [ks[0]] + ks[1..] && ls == [ls[0]] + ls[1..];
    }
  }

  /** Lengths of a hello that fit in the fingerprint's 32-bit counts. */
  predicate FitsCounts(h: Frame)
    requires h.ClientHello?
  {
    && |h.sessionId| < Span(U32_WIDTH) && |h.suites| < Span(U32_WIDTH) && |h.compression| < Span(U32_WIDTH)
    && |h.extensions| < Span(U32_WIDTH)
    && forall i :: 0 <= i < |h.extensions| ==> |h.extensions[i].data| < Span(U32_WIDTH)
  }

  lemma KeptSized(e: Extension)
    requires |e.data| < Span(U32_WIDTH) && KeptBody(e).Some?
    ensures Sized(Kept(e.ty, KeptBody(e).value))
  {
    hide Span, DecodeOffer, Halves;
    if e.ty == PRE_SHARED_KEY {
      HalvesLength(e.data);
      BinderBounds(e.data);
    }
  }

  lemma BinderBounds(data: Octets)
    requires DecodeOffer(data).Some? && Halves(data).Some?
    ensures var bs := DecodeOffer(data).value.binders;
            |bs| <= |data| && forall i :: 0 <= i < |bs| ==> |bs[i]| <= |data|
  {
    hide DecodeIdentities, DecodeList, Halves;
    var s := Halves(data).value.1;
    HalvesLength(data);
    ListCanonical(s, BINDER);
    var items := DecodeList(s, BINDER).value;
    BinderListLength(items);
    forall i | 0 <= i < |items| ensures |ToBinders(items)[i]| <= |data| {
      assert ToBinders(items)[i] == ToBinder(items[i]);
    }
  }

  lemma {:induction false} BinderListLength(items: seq<seq<Field>>)
    requires AllBinders(items)
    ensures |items| <= |EncodeList(items, BINDER)|
    ensures forall i :: 0 <= i < |items| ==> BinderItem(items[i]) && |ToBinder(items[i])| <= |EncodeList(items, BINDER)|
    decreases |items|
  {
    if items != [] {
      var tail := items[1..];
      assert forall i :: 0 <= i < |tail| ==> tail[i] == items[i + 1];
      BinderListLength(tail);
      BinderLength(items[0]);
      forall i | 0 <= i < |items| ensures |ToBinder(items[i])| <= |EncodeList(items, BINDER)| {
        if i > 0 {
          assert items[i] == tail[i - 1];
        }
      }
    }
  }

  lemma BinderLength(item: seq<Field>)
    requires BinderItem(item)
    ensures |EncodeFields(item, BINDER)| == 1 + |ToBinder(item)|
  {
  }

  lemma {:induction false} AllKeptSized(exts: seq<Extension>, i: nat)
    requires i <= |exts| && KeptFrom(exts, i).Some?
    requires forall k :: 0 <= k < |exts| ==> |exts[k].data| < Span(U32_WIDTH)
    ensures var kept := KeptFrom(exts, i).value;
            |kept| <= |exts| - i && forall k :: 0 <= k < |kept| ==> Sized(kept[k])
    decreases |exts| - i
  {
    hide KeptBody, Sized, Span;
    if i < |exts| {
      AllKeptSized(exts, i + 1);
      if !Mutable(exts[i].ty) {
        KeptSized(exts[i]);
      }
    }
  }

  /** Two hellos with one fingerprint agree on everything that is pinned. */
  lemma FingerprintInjective(g: Frame, h: Frame)
    requires g.ClientHello? && h.ClientHello? && FitsCounts(g) && FitsCounts(h)
    requires Fingerprint(g).Some? && Fingerprint(g) == Fingerprint(h)
    ensures g.version == h.version && g.random == h.random && g.sessionId == h.sessionId
    ensures g.suites == h.suites && g.compression == h.compression
    ensures KeptFrom(g.extensions, 0) == KeptFrom(h.extensions, 0)
  {
    hide Be, Span, Counted, Words, KeptBytes, KeptFrom, Sized;
    Widths();
    var (ks, ls) := (KeptFrom(g.extensions, 0).value, KeptFrom(h.extensions, 0).value);
    AllKeptSized(g.extensions, 0);
    AllKeptSized(h.extensions, 0);
    HelloInjective(g, h, ks, ls);
    KeptInjective(ks, ls);
  }

  function Later(h: Frame, kept: seq<Kept>): Octets
    requires h.ClientHello?
  {
    Be(|h.suites|, U32_WIDTH)
      + (Words(h.suites, 2, 0) + (Counted(h.compression) + (Be(|kept|, U32_WIDTH) + KeptBytes(kept))))
  }

  lemma HelloInjective(g: Frame, h: Frame, ks: seq<Kept>, ls: seq<Kept>)
    requires g.ClientHello? && h.ClientHello? && FitsCounts(g) && FitsCounts(h)
    requires |ks| < Span(U32_WIDTH) && |ls| < Span(U32_WIDTH) && PreimageOf(g, ks) == PreimageOf(h, ls)
    ensures g.version == h.version && g.random == h.random && g.sessionId == h.sessionId
    ensures g.suites == h.suites && g.compression == h.compression
    ensures |ks| == |ls| && KeptBytes(ks) == KeptBytes(ls)
  {
    hide Be, Span, Counted, Later;
    Widths();
    var (x, y) := (Counted(g.sessionId) + Later(g, ks), Counted(h.sessionId) + Later(h, ls));
    HelloSplit(g, ks);
    HelloSplit(h, ls);
    SplitEqual(LABEL, Be(g.version, 2) + (g.random + x), LABEL, Be(h.version, 2) + (h.random + y));
    NumInjective(g.version, h.version, 2, g.random + x, h.random + y);
    SplitEqual(g.random, x, h.random, y);
    CountedInjective(g.sessionId, h.sessionId, Later(g, ks), Later(h, ls));
    LaterInjective(g, h, ks, ls);
  }

  lemma HelloSplit(h: Frame, kept: seq<Kept>)
    requires h.ClientHello?
    ensures PreimageOf(h, kept) == LABEL + (Be(h.version, 2) + (h.random + (Counted(h.sessionId) + Later(h, kept))))
  {
  }

  lemma LaterInjective(g: Frame, h: Frame, ks: seq<Kept>, ls: seq<Kept>)
    requires g.ClientHello? && h.ClientHello? && FitsCounts(g) && FitsCounts(h)
    requires |ks| < Span(U32_WIDTH) && |ls| < Span(U32_WIDTH) && Later(g, ks) == Later(h, ls)
    ensures g.suites == h.suites && g.compression == h.compression
    ensures |ks| == |ls| && KeptBytes(ks) == KeptBytes(ls)
  {
    hide Be, Span, Counted, Words, KeptBytes;
    Widths();
    var (a, b) := (Be(|ks|, U32_WIDTH) + KeptBytes(ks), Be(|ls|, U32_WIDTH) + KeptBytes(ls));
    var (x, y) := (Counted(g.compression) + a, Counted(h.compression) + b);
    NumInjective(|g.suites|, |h.suites|, U32_WIDTH, Words(g.suites, 2, 0) + x, Words(h.suites, 2, 0) + y);
    WordsInjective(g.suites, h.suites, 2, 0, x, y);
    assert g.suites[0..] == g.suites && h.suites[0..] == h.suites;
    CountedInjective(g.compression, h.compression, a, b);
    NumInjective(|ks|, |ls|, U32_WIDTH, KeptBytes(ks), KeptBytes(ls));
  }

  // ------------------------------------------------------------ what is pinned

  /** The extensions from `i` on that a second hello may not change: all but padding (21), early
      data (42), the cookie (44) and the key shares (51). */
  function Immutable(exts: seq<Extension>, i: nat): seq<Extension>
    requires i <= |exts|
    decreases |exts| - i
  {
    if i == |exts| then []
    else if exts[i].ty in {21, 42, 44, 51} then Immutable(exts, i + 1)
    else [exts[i]] + Immutable(exts, i + 1)
  }

  predicate Faultless(e: Extension)
  {
    (e.ty == 21 ==> forall i :: 0 <= i < |e.data| ==> e.data[i] == 0) && (e.ty == 41 ==> DecodeOffer(e.data).Some?)
  }

  predicate FaultlessFrom(exts: seq<Extension>, i: nat)
  {
    forall k :: i <= k < |exts| ==> Faultless(exts[k])
  }

  /** Same type and body; for a PSK offer, same identities and ages and as many binders of the same lengths. */
  ghost predicate SamePinned(e: Extension, f: Extension)
  {
    && e.ty == f.ty
    && if e.ty != 41 then e.data == f.data
       else
         && DecodeOffer(e.data).Some? && DecodeOffer(f.data).Some?
         && DecodeOffer(e.data).value.identities == DecodeOffer(f.data).value.identities
         && var (bs, cs) := (DecodeOffer(e.data).value.binders, DecodeOffer(f.data).value.binders);
            |bs| == |cs| && forall i :: 0 <= i < |bs| ==> |bs[i]| == |cs[i]|
  }

  lemma IdentitiesDetermined(a: Octets, b: Octets)
    requires DecodeIdentities(a).Some? && DecodeIdentities(b).Some?
    ensures DecodeIdentities(a) == DecodeIdentities(b) <==> a == b
  {
    hide DecodeList, EncodeList, IdentityItem;
    ListCanonical(a, IDENTITY);
    ListCanonical(b, IDENTITY);
    var (xs, ys) := (DecodeList(a, IDENTITY).value, DecodeList(b, IDENTITY).value);
    if DecodeIdentities(a) == DecodeIdentities(b) {
      forall i | 0 <= i < |xs| ensures xs[i] == ys[i] {
        assert ToIdentities(xs)[i] == ToIdentities(ys)[i];
        ItemDetermined(xs[i], ys[i]);
      }
      assert xs == ys;
    }
  }

  lemma ItemDetermined(x: seq<Field>, y: seq<Field>)
    requires IdentityItem(x) && IdentityItem(y) && ToIdentity(x) == ToIdentity(y)
    ensures x == y
  {
  }

  lemma BodyPins(e: Extension, f: Extension)
    requires Faultless(e) && Faultless(f) && e.ty == f.ty
    ensures KeptBody(e).Some? && KeptBody(f).Some?
    ensures KeptBody(e) == KeptBody(f) <==> SamePinned(e, f)
  {
    hide DecodeIdentities, DecodeBinders, Halves, AllZero;
    if e.ty == PRE_SHARED_KEY {
      IdentitiesDetermined(Halves(e.data).value.0, Halves(f.data).value.0);
      var (bs, cs) := (DecodeOffer(e.data).value.binders, DecodeOffer(f.data).value.binders);
      var (ms, ns) := (Lengths(bs), Lengths(cs));
      assert (|bs| == |cs| && forall i :: 0 <= i < |bs| ==> |bs[i]| == |cs[i]|) ==> ms == ns;
      assert ms == ns ==> forall i :: 0 <= i < |bs| ==> |bs[i]| == ms[i] == ns[i] == |cs[i]|;
    }
  }

  lemma {:induction false} KeptIsImmutable(exts: seq<Extension>, i: nat)
    requires i <= |exts|
    ensures KeptFrom(exts, i).Some? <==> FaultlessFrom(exts, i)
    ensures KeptFrom(exts, i).Some? ==> |KeptFrom(exts, i).value| == |Immutable(exts, i)|
    ensures KeptFrom(exts, i).Some? ==> forall k :: 0 <= k < |Immutable(exts, i)| ==>
              var e := Immutable(exts, i)[k];
              && Faultless(e) && KeptBody(e).Some? && KeptFrom(exts, i).value[k] == Kept(e.ty, KeptBody(e).value)
    decreases |exts| - i
  {
    hide KeptBody, Faultless;
    if i < |exts| {
      KeptIsImmutable(exts, i + 1);
      FaultlessOne(exts, i);
      if KeptFrom(exts, i).Some? && !Mutable(exts[i].ty) {
        var (ks, es) := (KeptFrom(exts, i).value, Immutable(exts, i));
        forall k | 0 <= k < |es|
          ensures Faultless(es[k]) && KeptBody(es[k]).Some? && ks[k] == Kept(es[k].ty, KeptBody(es[k]).value)
        {
          if k > 0 {
            assert es[k] == Immutable(exts, i + 1)[k - 1] && ks[k] == KeptFrom(exts, i + 1).value[k - 1];
          }
        }
      }
    }
  }

  lemma FaultlessOne(exts: seq<Extension>, i: nat)
    requires i < |exts|
    ensures FaultlessFrom(exts, i) <==> Faultless(exts[i]) && FaultlessFrom(exts, i + 1)
    ensures Mutable(exts[i].ty) ==> (Faultless(exts[i]) <==> exts[i].ty != PADDING || AllZero(exts[i].data))
    ensures !Mutable(exts[i].ty) ==> (Faultless(exts[i]) <==> KeptBody(exts[i]).Some?)
  {
  }

  ghost predicate SameImmutable(xs: seq<Extension>, ys: seq<Extension>)
  {
    |xs| == |ys| && forall k :: 0 <= k < |xs| ==> SamePinned(xs[k], ys[k])
  }

  ghost predicate SameButMutable(g: Frame, h: Frame)
    requires g.ClientHello? && h.ClientHello?
  {
    && g.version == h.version && g.random == h.random && g.sessionId == h.sessionId
    && g.suites == h.suites && g.compression == h.compression
    && SameImmutable(Immutable(g.extensions, 0), Immutable(h.extensions, 0))
  }

  lemma KeptPins(xs: seq<Extension>, ys: seq<Extension>)
    requires FaultlessFrom(xs, 0) && FaultlessFrom(ys, 0)
    ensures KeptFrom(xs, 0) == KeptFrom(ys, 0) <==> SameImmutable(Immutable(xs, 0), Immutable(ys, 0))
  {
    hide KeptFrom, Immutable, KeptBody, SamePinned, Faultless;
    KeptIsImmutable(xs, 0);
    KeptIsImmutable(ys, 0);
    var (ks, ls, es, fs) := (KeptFrom(xs, 0).value, KeptFrom(ys, 0).value, Immutable(xs, 0), Immutable(ys, 0));
    if |es| == |fs| {
      forall k | 0 <= k < |es| ensures ks[k] == ls[k] <==> SamePinned(es[k], fs[k]) {
        if es[k].ty == fs[k].ty {
          BodyPins(es[k], fs[k]);
        } else {
          SameType(es[k], fs[k]);
        }
      }
      assert ks == ls <==> forall k :: 0 <= k < |ks| ==> ks[k] == ls[k];
    }
  }

  lemma SameType(e: Extension, f: Extension)
    ensures SamePinned(e, f) ==> e.ty == f.ty
  {
  }

  lemma WireBounded(raw: Octets)
    requires Decode(raw).Some? && Decode(raw).value.ClientHello?
    ensures FitsCounts(Decode(raw).value)
  {
    hide Decode, Encode, EncodeSuites, EncodeExtensions;
    Widths();
    var h := Decode(raw).value;
    WireIsCanonical(raw);
    EncodeIs(h);
    var (fs, shapes) := (ToFields(h), Shapes(CH, 0));
    assert Matches(fs[2], shapes[2]) && Matches(fs[3], shapes[3]) && Matches(fs[4], shapes[4]);
    SuitesAreBytes(h.suites);
    assert MAX_EXTENSIONS < Span(U32_WIDTH);
    forall i | 0 <= i < |h.extensions| ensures |h.extensions[i].data| < Span(U32_WIDTH) {
      var item := ExtensionItems(h.extensions)[i];
      assert MatchesAll(item, EXTENSION) && Matches(item[1], EXTENSION[1]);
    }
  }

  lemma SuitesAreBytes(suites: seq<U16>)
    ensures |EncodeSuites(suites)| == 2 * |suites|
  {
    SuitesLength(SuiteItems(suites));
  }

  /** Two hellos off the wire have one fingerprint exactly when both are faultless and the
      second changes nothing but the cookie, key shares, early data, padding and binder bytes. */
  lemma FingerprintPins(first: Octets, second: Octets)
    requires Decode(first).Some? && Decode(first).value.ClientHello?
    requires Decode(second).Some? && Decode(second).value.ClientHello?
    ensures var (g, h) := (Decode(first).value, Decode(second).value);
            Fingerprint(g).Some? && Fingerprint(g) == Fingerprint(h) <==>
            FaultlessFrom(g.extensions, 0) && FaultlessFrom(h.extensions, 0) && SameButMutable(g, h)
  {
    hide Decode, KeptFrom, Immutable, SameImmutable, FaultlessFrom, PreimageOf, FitsCounts;
    var (g, h) := (Decode(first).value, Decode(second).value);
    WireBounded(first);
    WireBounded(second);
    KeptIsImmutable(g.extensions, 0);
    KeptIsImmutable(h.extensions, 0);
    if Fingerprint(g).Some? && Fingerprint(h).Some? {
      KeptPins(g.extensions, h.extensions);
      if Fingerprint(g) == Fingerprint(h) {
        FingerprintInjective(g, h);
      } else if SameButMutable(g, h) {
        SameBytes(g, h, KeptFrom(g.extensions, 0).value);
      }
    }
  }

  lemma SameBytes(g: Frame, h: Frame, kept: seq<Kept>)
    requires g.ClientHello? && h.ClientHello? && SameButMutable(g, h)
    ensures PreimageOf(g, kept) == PreimageOf(h, kept)
  {
  }

  // ---------------------------------------------------------- the second hello

  predicate HasType(exts: seq<Extension>, ty: U16)
  {
    exists i :: 0 <= i < |exts| && exts[i].ty == ty
  }

  /** `ClientHelloInvariant::validate`: early data, then the share, then the fingerprint. */
  method Validate(fingerprint: Octets, requested: KeyShares.Group, h: Frame, kx: KeyShares.Kx) returns (ok: bool)
    requires h.ClientHello?
    ensures ok <==> && !HasType(h.extensions, 42) && KeyShares.RequireRetry(kx, requested)
                    && Fingerprint(h) == Some(fingerprint)
  {
    var found := FindType(h.extensions, EARLY_DATA);
    if found || !KeyShares.RequireRetry(kx, requested) {
      return false;
    }
    var again := ComputeFingerprint(h);
    return again == Some(fingerprint);
  }

  method FindType(exts: seq<Extension>, ty: U16) returns (found: bool)
    ensures found <==> HasType(exts, ty)
  {
    for i := 0 to |exts|
      invariant forall k :: 0 <= k < i ==> exts[k].ty != ty
    {
      if exts[i].ty == ty {
        return true;
      }
    }
    return false;
  }
}
