/** The client's reading of the server's EncryptedExtensions. */
module ServerExtensions {
  import opened Bytes

  /** One extension, with what its body parses to. */
  datatype Extension =
    | ServerName(empty: bool)
    | SupportedGroups(wellFormed: bool)
    | ServerType(selected: Option<nat>)
    | ClientType(selected: Option<nat>)
    | QuicParameters(data: nat)
    | Alpn(names: Option<seq<nat>>)
    | EarlyData(empty: bool)
    | Unknown(ty: nat)

  /** What the client offered. */
  datatype Offered = Offered(hostname: bool, quic: bool, serverType: Option<nat>, clientType: Option<nat>,
                             alpn: seq<nat>, early: bool)

  datatype Negotiated = Negotiated(quic: Option<nat>, alpn: Option<nat>, early: bool)

  /** The extension number; unknown ones are kept apart from the known. */
  function Type(e: Extension): nat
  {
    match e
    case ServerName(_) => 0
    case SupportedGroups(_) => 10
    case ServerType(_) => 20
    case ClientType(_) => 19
    case QuicParameters(_) => 57
    case Alpn(_) => 16
    case EarlyData(_) => 42
    case Unknown(ty) => 100 + ty
  }

  /** Answers only what was offered, with one of the values offered. */
  predicate Solicited(e: Extension, o: Offered)
  {
    match e
    case ServerName(empty) => o.hostname && empty
    case SupportedGroups(wellFormed) => wellFormed
    case ServerType(selected) => o.serverType.Some? && selected == o.serverType
    case ClientType(selected) => o.clientType.Some? && selected == o.clientType
    case QuicParameters(_) => o.quic
    case Alpn(names) => names.Some? && |names.value| == 1 && names.value[0] in o.alpn
    case EarlyData(empty) => o.early && empty
    case Unknown(_) => false
  }

  predicate Has(exts: seq<Extension>, ty: nat)
  {
    exists i :: 0 <= i < |exts| && Type(exts[i]) == ty
  }

  predicate Distinct(exts: seq<Extension>)
  {
    forall i, j :: 0 <= i < j < |exts| ==> Type(exts[i]) != Type(exts[j])
  }

  /** Everything solicited, certificate types confirmed as offered, QUIC parameters present under QUIC. */
  ghost predicate Acceptable(exts: seq<Extension>, o: Offered)
  {
    && (forall i :: 0 <= i < |exts| ==> Solicited(exts[i], o))
    && (o.serverType.Some? ==> Has(exts, 20)) && (o.clientType.Some? ==> Has(exts, 19)) && (o.quic ==> Has(exts, 57))
  }

  /** The answers found so far are those of the extensions read. */
  ghost predicate Records(n: Negotiated, exts: seq<Extension>)
  {
    && (forall data: nat :: n.quic == Some(data) <==> QuicParameters(data) in exts)
    && (forall name: nat :: n.alpn == Some(name) <==> Alpn(Some([name])) in exts)
    && (n.early <==> Has(exts, 42))
  }

  ghost predicate Confirms(t: Option<nat>, exts: seq<Extension>, ty: nat, offered: Option<nat>)
  {
    if Has(exts, ty) then t == offered else t.None?
  }

  /** `NegotiatedExtensions::decode`. */
  method Decode(exts: seq<Extension>, o: Offered) returns (r: Option<Negotiated>)
    requires Distinct(exts)
    ensures r.Some? <==> Acceptable(exts, o)
    ensures r.Some? ==> Records(r.value, exts)
  {
    hide Records, Confirms, Has;
    var n := Negotiated(None, None, false);
    var server, client: Option<nat> := None, None;
    NothingRead(o);
    for i := 0 to |exts|
      invariant forall k :: 0 <= k < i ==> Solicited(exts[k], o)
      invariant Records(n, exts[..i]) && Confirms(server, exts[..i], 20, o.serverType)
      invariant Confirms(client, exts[..i], 19, o.clientType)
    {
      var e := exts[i];
      if !Solicited(e, o) {
        return None;
      }
      OneMore(exts, i);
      RecordsOne(n, exts[..i], e, o);
      ConfirmsOne(server, exts[..i], e, 20, o.serverType);
      ConfirmsOne(client, exts[..i], e, 19, o.clientType);
      match e {
        case ServerType(selected) => server := selected;
        case ClientType(selected) => client := selected;
        case QuicParameters(data) => n := n.(quic := Some(data));
        case Alpn(names) => n := n.(alpn := Some(names.value[0]));
        case EarlyData(_) => n := n.(early := true);
        case _ =>
      }
    }
    assert exts[..|exts|] == exts;
    Confirmed(server, exts, 20, o.serverType);
    Confirmed(client, exts, 19, o.clientType);
    QuicFound(n, exts);
    if server != o.serverType || client != o.clientType || (o.quic && n.quic.None?) {
      return None;
    }
    r := Some(n);
  }

  lemma NothingRead(o: Offered)
    ensures Records(Negotiated(None, None, false), []) && Confirms(None, [], 20, o.serverType)
    ensures Confirms(None, [], 19, o.clientType)
  {
  }

  lemma OneMore(exts: seq<Extension>, i: nat)
    requires i < |exts| && Distinct(exts)
    ensures exts[..i + 1] == exts[..i] + [exts[i]] && !Has(exts[..i], Type(exts[i]))
  {
  }

  lemma HasOne(exts: seq<Extension>, e: Extension, ty: nat)
    ensures Has(exts + [e], ty) <==> Has(exts, ty) || Type(e) == ty
  {
    var all := exts + [e];
    assert all[|exts|] == e;
    if Has(exts, ty) {
      var i :| 0 <= i < |exts| && Type(exts[i]) == ty;
      assert all[i] == exts[i];
    }
  }

  /** The record after one more solicited extension of a new type. */
  function Noted(n: Negotiated, e: Extension): Negotiated
  {
    match e
    case QuicParameters(data) => n.(quic := Some(data))
    case Alpn(names) => if names.Some? && |names.value| == 1 then n.(alpn := Some(names.value[0])) else n
    case EarlyData(_) => n.(early := true)
    case _ => n
  }

  lemma RecordsOne(n: Negotiated, exts: seq<Extension>, e: Extension, o: Offered)
    requires Records(n, exts) && Solicited(e, o) && !Has(exts, Type(e))
    ensures Records(Noted(n, e), exts + [e])
  {
    HasOne(exts, e, 42);
    var all := exts + [e];
    assert forall x :: x in all <==> x in exts || x == e;
    if e.Alpn? {
      assert e.names.value == [e.names.value[0]];
    }
    forall x | x in exts ensures Type(x) != Type(e) {
      var i :| 0 <= i < |exts| && exts[i] == x;
    }
  }

  lemma ConfirmsOne(t: Option<nat>, exts: seq<Extension>, e: Extension, ty: nat, offered: Option<nat>)
    requires Confirms(t, exts, ty, offered)
    ensures Type(e) != ty ==> Confirms(t, exts + [e], ty, offered)
    ensures Type(e) == ty ==> Confirms(offered, exts + [e], ty, offered)
  {
    HasOne(exts, e, ty);
  }

  lemma Confirmed(t: Option<nat>, exts: seq<Extension>, ty: nat, offered: Option<nat>)
    requires Confirms(t, exts, ty, offered)
    ensures t == offered <==> offered.None? || Has(exts, ty)
  {
  }

  lemma QuicFound(n: Negotiated, exts: seq<Extension>)
    requires Records(n, exts)
    ensures n.quic.Some? <==> Has(exts, 57)
  {
    if Has(exts, 57) {
      var i :| 0 <= i < |exts| && Type(exts[i]) == 57;
      assert exts[i].QuicParameters?;
    }
    if n.quic.Some? {
      assert QuicParameters(n.quic.value) in exts;
    }
  }
}
