/** The `pre_shared_key` offer: its decoder, and the binder slot shared by client and server. */
module Psk {
  import opened Bytes
  import opened Fields
  import opened Extensions
  import opened Frames

  const PRE_SHARED_KEY: U16 := 41
  const SHA256_LEN: nat := 32

  const OFFER: seq<Shape> := [Vec(2), Vec(2)]
  const IDENTITY: seq<Shape> := [Vec(2), Num(4)]
  const BINDER: seq<Shape> := [Vec(1)]

  datatype Identity = Identity(identity: Octets, age: U32)

  datatype Offer = Offer(identities: seq<Identity>, binders: seq<Octets>)

  // ------------------------------------------------------- identities, binders

  predicate IdentityItem(item: seq<Field>)
  {
    |item| == 2 && item[0].VecF? && item[1].NumF? && 1 <= |item[0].data| < 65536 && item[1].value < 0x1_0000_0000
  }

  function ToIdentity(item: seq<Field>): Identity
    requires IdentityItem(item)
  {
    Identity(item[0].data, item[1].value)
  }

  predicate AllIdentities(items: seq<seq<Field>>)
  {
    forall i :: 0 <= i < |items| ==> IdentityItem(items[i])
  }

  function ToIdentities(items: seq<seq<Field>>): (ids: seq<Identity>)
    requires AllIdentities(items)
    ensures |ids| == |items|
    ensures forall i :: 0 <= i < |items| ==> IdentityItem(items[i]) && ids[i] == ToIdentity(items[i])
  {
    seq(|items|, i requires 0 <= i < |items| && IdentityItem(items[i]) => ToIdentity(items[i]))
  }

  predicate BinderItem(item: seq<Field>)
  {
    |item| == 1 && item[0].VecF? && |item[0].data| >= SHA256_LEN
  }

  predicate AllBinders(items: seq<seq<Field>>)
  {
    forall i :: 0 <= i < |items| ==> BinderItem(items[i])
  }

  function ToBinder(item: seq<Field>): Octets
    requires BinderItem(item)
  {
    item[0].data
  }

  function ToBinders(items: seq<seq<Field>>): (bs: seq<Octets>)
    requires AllBinders(items)
    ensures |bs| == |items|
    ensures forall i :: 0 <= i < |items| ==> BinderItem(items[i]) && bs[i] == ToBinder(items[i])
  {
    seq(|items|, i requires 0 <= i < |items| && BinderItem(items[i]) => ToBinder(items[i]))
  }

  /** The identities in a vector: each non-empty, followed by its age. */
  function DecodeIdentities(s: Octets): Option<seq<Identity>>
  {
    match DecodeList(s, IDENTITY)
    case None => None
    case Some(items) =>
      if AllIdentities(items) then Some(ToIdentities(items)) else None
  }

  /** The binders in a vector: each at least a SHA-256 output long. */
  function DecodeBinders(s: Octets): Option<seq<Octets>>
  {
    match DecodeList(s, BINDER)
    case None => None
    case Some(items) =>
      if AllBinders(items) then Some(ToBinders(items)) else None
  }

  /** The two vectors of an offer, and nothing after them. */
  function Halves(data: Octets): Option<(Octets, Octets)>
  {
    match DecodeFields(data, OFFER)
    case Bad => None
    case Got(fs, rest) =>
      FieldsCanonical(data, OFFER);
      assert Matches(fs[0], Vec(2)) && Matches(fs[1], Vec(2));
      if rest != [] then None else Some((fs[0].data, fs[1].data))
  }

  /** A well-formed offer: as many binders as identities, at least one of each. */
  function DecodeOffer(data: Octets): Option<Offer>
  {
    match Halves(data)
    case None => None
    case Some((ids, bs)) =>
      match (DecodeIdentities(ids), DecodeBinders(bs))
      case (Some(identities), Some(binders)) =>
        if |identities| == |binders| > 0 then Some(Offer(identities, binders)) else None
      case _ => None
  }

  /** What `OfferedPsks::decode` keeps of an offer. */
  datatype Offered = Offered(encoded: Octets, identities: Octets, binders: Octets,
                             identity: Octets, age: U32, binder: Octets, count: nat, bindersWireLen: nat)

  ghost predicate Summarises(r: Offered, data: Octets)
  {
    && DecodeOffer(data).Some? && Halves(data) == Some((r.identities, r.binders))
    && var o := DecodeOffer(data).value;
      && r.encoded == data && r.count == |o.identities| < 65536
      && r.identity == o.identities[0].identity && r.age == o.identities[0].age && r.binder == o.binders[0]
      && r.bindersWireLen == 2 + |r.binders|
  }

  // ------------------------------------------------------------------- lengths

  lemma {:induction false} IdentitiesLength(items: seq<seq<Field>>)
    requires AllIdentities(items)
    requires forall i :: 0 <= i < |items| ==> |items[i]| == 2
    ensures |EncodeList(items, IDENTITY)| >= 7 * |items|
    decreases |items|
  {
    hide IdentityItem, EncodeFields;
    if items != [] {
      IdentityAtLeast(items[0]);
      IdentitiesLength(items[1..]);
    }
  }

  lemma IdentityAtLeast(item: seq<Field>)
    requires IdentityItem(item)
    ensures |EncodeFields(item, IDENTITY)| >= 7
  {
  }

  // -------------------------------------------------------------- the scanners

  /** The first element of a list and how many there are. */
  datatype Scan<+T> = Scan(first: Option<T>, count: nat)

  function Summary<T>(xs: seq<T>): Scan<T>
  {
    Scan(if xs == [] then None else Some(xs[0]), |xs|)
  }

  lemma ListStep(s: Octets, shapes: seq<Shape>)
    requires Solid(shapes) && s != []
    ensures var d := DecodeFields(s, shapes);
            DecodeList(s, shapes) ==
            if d.Bad? then None
            else match DecodeList(d.rest, shapes)
                 case None => None
                 case Some(items) => Some([d.value] + items)
  {
  }

  lemma IdentitiesCons(item: seq<Field>, items: seq<seq<Field>>)
    ensures AllIdentities([item] + items) <==> IdentityItem(item) && AllIdentities(items)
    ensures IdentityItem(item) && AllIdentities(items) ==>
            ToIdentities([item] + items) == [ToIdentity(item)] + ToIdentities(items)
  {
    hide IdentityItem, ToIdentity;
    var all := [item] + items;
    assert all[0] == item && forall i :: 0 <= i < |items| ==> all[i + 1] == items[i];
    if AllIdentities(all) {
      forall i | 0 <= i < |items| ensures IdentityItem(items[i]) {
        assert IdentityItem(all[i + 1]);
      }
    }
  }

  lemma NextIdentity(rest: Octets)
    requires rest != []
    ensures var d := DecodeFields(rest, IDENTITY);
            DecodeIdentities(rest) ==
            if d.Bad? || !IdentityItem(d.value) then None
            else match DecodeIdentities(d.rest)
                 case None => None
                 case Some(later) => Some([ToIdentity(d.value)] + later)
  {
    hide IdentityItem, ToIdentity, AllIdentities, ToIdentities, DecodeList;
    ListStep(rest, IDENTITY);
    var d := DecodeFields(rest, IDENTITY);
    if d.Got? && DecodeList(d.rest, IDENTITY).Some? {
      IdentitiesCons(d.value, DecodeList(d.rest, IDENTITY).value);
    }
  }

  method ScanIdentities(s: Octets) returns (r: Option<Scan<Identity>>)
    ensures r == match DecodeIdentities(s) case None => None case Some(ids) => Some(Summary(ids))
  {
    hide DecodeIdentities, DecodeFields, IdentityItem, ToIdentity;
    var rest, first, count := s, None, 0;
    ghost var done: seq<Identity> := [];
    assert forall ids: seq<Identity> :: [] + ids == ids;
    while rest != []
      invariant Scan(first, count) == Summary(done)
      invariant DecodeIdentities(s) ==
                match DecodeIdentities(rest) case None => None case Some(later) => Some(done + later)
      decreases |rest|
    {
      NextIdentity(rest);
      var d := DecodeFields(rest, IDENTITY);
      if d.Bad? || !IdentityItem(d.value) {
        return None;
      }
      SolidProgress(rest, IDENTITY);
      var identity := ToIdentity(d.value);
      if first.None? {
        first := Some(identity);
      }
      ghost var later := DecodeIdentities(d.rest);
      assert later.Some? ==> done + ([identity] + later.value) == (done + [identity]) + later.value;
      done := done + [identity];
      rest, count := d.rest, count + 1;
    }
    NoIdentities();
    assert done + [] == done;
    r := Some(Scan(first, count));
  }

  lemma NoIdentities()
    ensures DecodeIdentities([]) == Some([])
  {
  }

  lemma BindersCons(item: seq<Field>, items: seq<seq<Field>>)
    ensures AllBinders([item] + items) <==> BinderItem(item) && AllBinders(items)
    ensures BinderItem(item) && AllBinders(items) ==>
            ToBinders([item] + items) == [ToBinder(item)] + ToBinders(items)
  {
    hide BinderItem, ToBinder;
    var all := [item] + items;
    assert all[0] == item && forall i :: 0 <= i < |items| ==> all[i + 1] == items[i];
    if AllBinders(all) {
      forall i | 0 <= i < |items| ensures BinderItem(items[i]) {
        assert BinderItem(all[i + 1]);
      }
    }
  }

  lemma NextBinder(rest: Octets)
    requires rest != []
    ensures var d := DecodeFields(rest, BINDER);
            DecodeBinders(rest) ==
            if d.Bad? || !BinderItem(d.value) then None
            else match DecodeBinders(d.rest)
                 case None => None
                 case Some(later) => Some([ToBinder(d.value)] + later)
  {
    hide BinderItem, ToBinder, AllBinders, ToBinders, DecodeList;
    ListStep(rest, BINDER);
    var d := DecodeFields(rest, BINDER);
    if d.Got? && DecodeList(d.rest, BINDER).Some? {
      BindersCons(d.value, DecodeList(d.rest, BINDER).value);
    }
  }

  method ScanBinders(s: Octets) returns (r: Option<Scan<Octets>>)
    ensures r == match DecodeBinders(s) case None => None case Some(bs) => Some(Summary(bs))
  {
    hide DecodeBinders, DecodeFields, BinderItem, ToBinder;
    var rest, first, count := s, None, 0;
    ghost var done: seq<Octets> := [];
    assert forall bs: seq<Octets> :: [] + bs == bs;
    while rest != []
      invariant Scan(first, count) == Summary(done)
      invariant DecodeBinders(s) ==
                match DecodeBinders(rest) case None => None case Some(later) => Some(done + later)
      decreases |rest|
    {
      NextBinder(rest);
      var d := DecodeFields(rest, BINDER);
      if d.Bad? || !BinderItem(d.value) {
        return None;
      }
      SolidProgress(rest, BINDER);
      var binder := ToBinder(d.value);
      if first.None? {
        first := Some(binder);
      }
      ghost var later := DecodeBinders(d.rest);
      assert later.Some? ==> done + ([binder] + later.value) == (done + [binder]) + later.value;
      done := done + [binder];
      rest, count := d.rest, count + 1;
    }
    NoBinders();
    assert done + [] == done;
    r := Some(Scan(first, count));
  }

  lemma NoBinders()
    ensures DecodeBinders([]) == Some([])
  {
  }

  lemma IdentitiesTakeSeven(s: Octets)
    requires DecodeIdentities(s).Some?
    ensures |s| >= 7 * |DecodeIdentities(s).value|
  {
    hide DecodeList;
    ListCanonical(s, IDENTITY);
    IdentitiesLength(DecodeList(s, IDENTITY).value);
  }

  lemma BindersTakeThirtyThree(s: Octets)
    requires DecodeBinders(s).Some? && DecodeBinders(s).value != []
    ensures |s| >= 33
  {
    hide DecodeList;
    ListCanonical(s, BINDER);
    var items := DecodeList(s, BINDER).value;
    assert BinderItem(items[0]);
    assert |EncodeFields(items[0], BINDER)| >= 33;
  }

  lemma HalvesLength(data: Octets)
    requires Halves(data).Some?
    ensures |data| == 4 + |Halves(data).value.0| + |Halves(data).value.1|
    ensures |Halves(data).value.0| < 65536
  {
    hide DecodeFields;
    Widths();
    FieldsCanonical(data, OFFER);
    var fs := DecodeFields(data, OFFER).value;
    assert Matches(fs[0], Vec(2)) && Matches(fs[1], Vec(2));
    assert EncodeFields(fs[1..][1..], OFFER[1..][1..]) == [];
    assert |EncodeFields(fs[1..], OFFER[1..])| == 2 + |fs[1].data|;
  }

  /** `OfferedPsks::decode`. */
  method ReadOffer(data: Octets) returns (r: Option<Offered>)
    ensures r.Some? <==> DecodeOffer(data).Some?
    ensures r.Some? ==> Summarises(r.value, data)
  {
    hide DecodeIdentities, DecodeBinders, Halves;
    var halves := Halves(data);
    if halves.None? {
      return None;
    }
    HalvesLength(data);
    var (ids, bs) := halves.value;
    var identities := ScanIdentities(ids);
    var binders := ScanBinders(bs);
    if DecodeIdentities(ids).Some? {
      IdentitiesTakeSeven(ids);
    }
    if DecodeBinders(bs).Some? && DecodeBinders(bs).value != [] {
      BindersTakeThirtyThree(bs);
    }
    if |ids| < 7 || identities.None? || |bs| < 33 || binders.None? {
      return None;
    }
    var (i, b) := (identities.value, binders.value);
    if i.count == 0 || i.count != b.count {
      return None;
    }
    r := Some(Offered(data, ids, bs, i.first.value.identity, i.first.value.age, b.first.value, i.count,
                      |data| - 2 - |ids|));
  }

  // ------------------------------------------------------------------ the tail

  predicate EndsWith(s: Octets, tail: Octets)
  {
    |tail| <= |s| && s[|s| - |tail|..] == tail
  }

  /** What the server keeps of an offer bound to the ClientHello that carried it. */
  datatype Tail = Tail(identity: Octets, age: U32, binder: Octets, transcriptPrefix: Octets)

  /** `OfferedPsks::bind_tail`. */
  function BindTail(o: Offered, clientHello: Octets): Option<Tail>
  {
    if !EndsWith(clientHello, o.encoded) || |clientHello| < o.bindersWireLen then None
    else Some(Tail(o.identity, o.age, o.binder, clientHello[..|clientHello| - o.bindersWireLen]))
  }

  lemma EndsTrans(a: Octets, b: Octets, c: Octets)
    requires EndsWith(a, b) && EndsWith(b, c)
    ensures EndsWith(a, c)
  {
  }

  lemma {:induction false} LastVectorEnds(fs: seq<Field>, shapes: seq<Shape>)
    requires |fs| == |shapes| > 0 && fs[|fs| - 1].VecF? && shapes[|fs| - 1].Vec?
    ensures EndsWith(EncodeFields(fs, shapes), fs[|fs| - 1].data)
    decreases |fs|
  {
    hide Be;
    if |fs| == 1 {
      assert EncodeFields(fs[1..], shapes[1..]) == [];
      var (s, d) := (EncodeFields(fs, shapes), fs[0].data);
      assert s == Be(|d|, shapes[0].width) + d;
      assert s[|s| - |d|..] == d;
    } else {
      LastVectorEnds(fs[1..], shapes[1..]);
      var (s, t, d) := (EncodeFields(fs, shapes), EncodeFields(fs[1..], shapes[1..]), fs[|fs| - 1].data);
      assert s[|s| - |t|..] == t;
      EndsTrans(s, t, d);
    }
  }

  lemma {:induction false} LastItemEnds(items: seq<seq<Field>>, shapes: seq<Shape>)
    requires items != [] && forall i :: 0 <= i < |items| ==> |items[i]| == |shapes|
    ensures EndsWith(EncodeList(items, shapes), EncodeFields(items[|items| - 1], shapes))
    decreases |items|
  {
    hide EncodeFields;
    var s := EncodeList(items, shapes);
    if |items| == 1 {
      assert EncodeList(items[1..], shapes) == [];
    } else {
      LastItemEnds(items[1..], shapes);
      var t := EncodeList(items[1..], shapes);
      assert s[|s| - |t|..] == t;
      EndsTrans(s, t, EncodeFields(items[|items| - 1], shapes));
    }
  }

  lemma LastExtensionEnds(exts: seq<Extension>)
    requires exts != []
    ensures EndsWith(EncodeExtensions(exts), exts[|exts| - 1].data)
  {
    hide EncodeFields, EncodeList, EndsWith;
    var items := ExtensionItems(exts);
    LastItemEnds(items, EXTENSION);
    LastVectorEnds(items[|items| - 1], EXTENSION);
    EndsTrans(EncodeExtensions(exts), EncodeFields(items[|items| - 1], EXTENSION), exts[|exts| - 1].data);
  }

  /** A ClientHello ends with the body of its last extension. */
  lemma HelloEndsWithLastExtension(raw: Octets)
    requires Decode(raw).Some? && Decode(raw).value.ClientHello? && Decode(raw).value.extensions != []
    ensures var exts := Decode(raw).value.extensions; EndsWith(raw, exts[|exts| - 1].data)
  {
    hide Decode, Encode, EncodeFields, EncodeExtensions, EncodeSuites, EndsWith, Encodable;
    var f := Decode(raw).value;
    WireIsCanonical(raw);
    EncodeIs(f);
    var (header, body, fs, shapes) := (Header(f, Body(f)), Body(f), ToFields(f), Shapes(CH, BodyLen(f)));
    LastVectorEnds(header, HEADER);
    LastVectorEnds(fs, shapes);
    LastExtensionEnds(f.extensions);
    EndsTrans(raw, body, fs[5].data);
    EndsTrans(raw, fs[5].data, f.extensions[|f.extensions| - 1].data);
  }

  /** Binding an offer that came last never fails; the prefix and the binders make up the hello. */
  lemma TailBinds(raw: Octets, o: Offered)
    requires Decode(raw).Some? && Decode(raw).value.ClientHello? && Decode(raw).value.extensions != []
    requires var exts := Decode(raw).value.extensions; Summarises(o, exts[|exts| - 1].data)
    ensures BindTail(o, raw).Some?
    ensures BindTail(o, raw).value.transcriptPrefix + Be(|o.binders|, 2) + o.binders == raw
  {
    hide Decode, DecodeOffer, Halves, Be;
    HelloEndsWithLastExtension(raw);
    HalvesLength(o.encoded);
    HalvesEnd(o.encoded);
    var (n, wire) := (|raw| - o.bindersWireLen, Be(|o.binders|, 2) + o.binders);
    EndsTrans(raw, o.encoded, wire);
    assert raw == raw[..n] + raw[n..];
  }

  lemma HalvesEnd(data: Octets)
    requires Halves(data).Some?
    ensures var bs := Halves(data).value.1; EndsWith(data, Be(|bs|, 2) + bs)
  {
    hide DecodeFields, Be;
    FieldsCanonical(data, OFFER);
    var fs := DecodeFields(data, OFFER).value;
    assert Matches(fs[0], Vec(2)) && Matches(fs[1], Vec(2));
    assert EncodeFields(fs[1..][1..], OFFER[1..][1..]) == [];
    var tail := EncodeFields(fs[1..], OFFER[1..]);
    assert tail == Be(|fs[1].data|, 2) + fs[1].data;
    assert data == EncodeField(fs[0], OFFER[0]) + tail;
  }
}
