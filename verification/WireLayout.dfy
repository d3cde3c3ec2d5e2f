/** The handshake messages byte by byte, as sections 4 and 4.1 to 4.6 of RFC 8446 lay them
    out: the encoder writes exactly these bytes, for exactly the messages whose parts
    fit the length fields. */
module WireLayout {
  import opened Bytes
  import opened Fields
  import opened Extensions
  import opened Frames

  // ------------------------------------------------------------------- integers

  ghost function U8(n: nat): Octets { [n % 256] }

  ghost function U16Bytes(n: nat): Octets { [n / 256 % 256, n % 256] }

  ghost function U24(n: nat): Octets { [n / 65536 % 256, n / 256 % 256, n % 256] }

  ghost function U32Bytes(n: nat): Octets { [n / 16777216 % 256, n / 65536 % 256, n / 256 % 256, n % 256] }

  /** Network byte order: the most significant byte comes first. */
  lemma BigEndian(n: nat)
    ensures Be(n, 1) == U8(n) && Be(n, 2) == U16Bytes(n) && Be(n, 3) == U24(n) && Be(n, 4) == U32Bytes(n)
  {
    assert n / 256 / 256 == n / 65536 && n / 65536 / 256 == n / 16777216;
    assert Be(n / 16777216, 0) == [];
    assert Be(n / 65536, 1) == [n / 65536 % 256];
    assert Be(n / 65536, 2) == Be(n / 16777216, 1) + [n / 65536 % 256];
    assert Be(n / 256, 1) == [n / 256 % 256];
    assert Be(n / 256, 2) == Be(n / 65536, 1) + [n / 256 % 256];
    assert Be(n / 256, 3) == Be(n / 65536, 2) + [n / 256 % 256];
    assert Be(n, 1) == [] + [n % 256];
  }

  // ---------------------------------------------------------------------- lists

  ghost function ExtensionBytes(exts: seq<Extension>): Octets
  {
    if exts == [] then []
    else U16Bytes(exts[0].ty) + U16Bytes(|exts[0].data|) + exts[0].data + ExtensionBytes(exts[1..])
  }

  ghost function SuiteBytes(suites: seq<U16>): Octets
  {
    if suites == [] then [] else U16Bytes(suites[0]) + SuiteBytes(suites[1..])
  }

  ghost function EntryBytes(entries: seq<Entry>): Octets
  {
    if entries == [] then []
    else
      var exts := ExtensionBytes(entries[0].extensions);
      U24(|entries[0].certData|) + entries[0].certData + U16Bytes(|exts|) + exts + EntryBytes(entries[1..])
  }

  lemma {:induction false} ExtensionsLayout(exts: seq<Extension>)
    ensures EncodeExtensions(exts) == ExtensionBytes(exts)
  {
    hide Be;
    if exts != [] {
      var (e, items) := (exts[0], ExtensionItems(exts));
      ExtensionsLayout(exts[1..]);
      assert items[1..] == ExtensionItems(exts[1..]);
      BigEndian(e.ty);
      BigEndian(|e.data|);
      TwoFields(ExtensionFields(e), EXTENSION);
    }
  }

  lemma {:induction false} SuitesLayout(suites: seq<U16>)
    ensures EncodeSuites(suites) == SuiteBytes(suites)
  {
    hide Be;
    if suites != [] {
      var items := SuiteItems(suites);
      SuitesLayout(suites[1..]);
      assert items[1..] == SuiteItems(suites[1..]);
      BigEndian(suites[0]);
      FieldsFrom(items[0], SUITE, 0);
    }
  }

  lemma {:induction false} EntriesLayout(entries: seq<Entry>)
    ensures EncodeEntries(entries) == EntryBytes(entries)
  {
    hide Be, EncodeExtensions;
    if entries != [] {
      var (e, items) := (entries[0], EntryItems(entries));
      EntriesLayout(entries[1..]);
      assert items[1..] == EntryItems(entries[1..]);
      ExtensionsLayout(e.extensions);
      BigEndian(|e.certData|);
      BigEndian(|ExtensionBytes(e.extensions)|);
      TwoFields(EntryFields(e), ENTRY);
    }
  }

  lemma FieldsFrom(fs: seq<Field>, shapes: seq<Shape>, i: nat)
    requires i < |fs| == |shapes|
    ensures EncodeFields(fs[i..], shapes[i..]) ==
            EncodeField(fs[i], shapes[i]) + EncodeFields(fs[i + 1..], shapes[i + 1..])
    ensures fs[0..] == fs && shapes[0..] == shapes
    ensures EncodeFields(fs[|fs|..], shapes[|fs|..]) == []
  {
    assert fs[i..][1..] == fs[i + 1..] && shapes[i..][1..] == shapes[i + 1..];
  }

  lemma TwoFields(fs: seq<Field>, shapes: seq<Shape>)
    requires |fs| == |shapes| == 2
    ensures EncodeFields(fs, shapes) == EncodeField(fs[0], shapes[0]) + EncodeField(fs[1], shapes[1])
  {
    hide EncodeField;
    FieldsFrom(fs, shapes, 0);
    FieldsFrom(fs, shapes, 1);
  }

  lemma Regroup(a: Octets, b: Octets, c: Octets, d: Octets, e: Octets)
    ensures a + (b + (c + (d + (e + [])))) == a + b + c + d + e
  {
    assert e + [] == e;
    assert c + (d + e) == c + d + e;
    assert b + (c + d + e) == b + c + d + e;
  }

  lemma FiveFields(fs: seq<Field>, shapes: seq<Shape>)
    requires |fs| == |shapes| == 5
    ensures EncodeFields(fs, shapes) ==
            EncodeField(fs[0], shapes[0]) + EncodeField(fs[1], shapes[1]) + EncodeField(fs[2], shapes[2]) +
            EncodeField(fs[3], shapes[3]) + EncodeField(fs[4], shapes[4])
  {
    hide EncodeField;
    FieldsFrom(fs, shapes, 0);
    FieldsFrom(fs, shapes, 1);
    FieldsFrom(fs, shapes, 2);
    FieldsFrom(fs, shapes, 3);
    FieldsFrom(fs, shapes, 4);
    Regroup(EncodeField(fs[0], shapes[0]), EncodeField(fs[1], shapes[1]), EncodeField(fs[2], shapes[2]),
            EncodeField(fs[3], shapes[3]), EncodeField(fs[4], shapes[4]));
  }

  lemma SixParts(a: Octets, b: Octets, c: Octets, d: Octets, e: Octets, g: Octets)
    ensures a + (b + c + d + e + g) == a + b + c + d + e + g
  {
    assert b + c + d + e + g == (b + c + d + e) + g;
    assert a + (b + c + d + e) == a + b + c + d + e;
  }

  lemma SixFields(fs: seq<Field>, shapes: seq<Shape>)
    requires |fs| == |shapes| == 6
    ensures EncodeFields(fs, shapes) ==
            EncodeField(fs[0], shapes[0]) + EncodeField(fs[1], shapes[1]) + EncodeField(fs[2], shapes[2]) +
            EncodeField(fs[3], shapes[3]) + EncodeField(fs[4], shapes[4]) + EncodeField(fs[5], shapes[5])
  {
    hide EncodeField;
    FieldsFrom(fs, shapes, 0);
    FiveFields(fs[1..], shapes[1..]);
    var (b, c, d) := (EncodeField(fs[1], shapes[1]), EncodeField(fs[2], shapes[2]), EncodeField(fs[3], shapes[3]));
    SixParts(EncodeField(fs[0], shapes[0]), b, c, d, EncodeField(fs[4], shapes[4]), EncodeField(fs[5], shapes[5]));
  }

  // ------------------------------------------------------------------- messages

  /** The handshake types of section 4 of RFC 8446. */
  ghost function TypeByte(f: Frame): Byte
  {
    match f
    case ClientHello(_, _, _, _, _, _) => 1
    case ServerHello(_, _, _, _, _, _) => 2
    case NewSessionTicket(_, _, _, _, _) => 4
    case EndOfEarlyData => 5
    case EncryptedExtensions(_) => 8
    case Certificate(_, _) => 11
    case CertificateRequest(_, _) => 13
    case CertificateVerify(_, _) => 15
    case Finished(_) => 20
    case KeyUpdate(_) => 24
  }

  ghost function V8(data: Octets): Octets { U8(|data|) + data }

  ghost function V16(data: Octets): Octets { U16Bytes(|data|) + data }

  ghost function V24(data: Octets): Octets { U24(|data|) + data }

  ghost function BodyBytes(f: Frame): Octets
  {
    match f
    case ClientHello(version, random, session, suites, compression, exts) =>
      U16Bytes(version) + random + V8(session) + V16(SuiteBytes(suites)) + V8(compression) + V16(ExtensionBytes(exts))
    case ServerHello(version, random, session, suite, compression, exts) =>
      U16Bytes(version) + random + V8(session) + U16Bytes(suite) + U8(compression) + V16(ExtensionBytes(exts))
    case EncryptedExtensions(exts) => V16(ExtensionBytes(exts))
    case CertificateRequest(context, exts) => V8(context) + V16(ExtensionBytes(exts))
    case Certificate(context, entries) => V8(context) + V24(EntryBytes(entries))
    case CertificateVerify(algorithm, signature) => U16Bytes(algorithm) + V16(signature)
    case Finished(verifyData) => verifyData
    case EndOfEarlyData => []
    case KeyUpdate(request) => [if request.Requested? then 1 else 0]
    case NewSessionTicket(lifetime, ageAdd, nonce, ticket, exts) =>
      U32Bytes(lifetime) + U32Bytes(ageAdd) + V8(nonce) + V16(ticket) + V16(ExtensionBytes(exts))
  }

  ghost predicate ExtensionsSized(exts: seq<Extension>)
  {
    |ExtensionBytes(exts)| <= 0xffff && forall e :: e in exts ==> |e.data| <= 0xffff
  }

  /** Every part fits the length field in front of it. */
  ghost predicate Sized(f: Frame)
  {
    && |BodyBytes(f)| <= 0xff_ffff
    && match f
       case ClientHello(_, _, session, suites, compression, exts) =>
         |session| <= 0xff && |suites| <= 0x7fff && |compression| <= 0xff && ExtensionsSized(exts)
       case ServerHello(_, _, session, _, _, exts) => |session| <= 0xff && ExtensionsSized(exts)
       case EncryptedExtensions(exts) => ExtensionsSized(exts)
       case CertificateRequest(context, exts) => |context| <= 0xff && ExtensionsSized(exts)
       case Certificate(context, entries) =>
         |context| <= 0xff && |EntryBytes(entries)| <= 0xff_ffff &&
         forall e :: e in entries ==> |e.certData| <= 0xff_ffff && ExtensionsSized(e.extensions)
       case CertificateVerify(_, signature) => |signature| <= 0xffff
       case NewSessionTicket(_, _, nonce, ticket, exts) =>
         |nonce| <= 0xff && |ticket| <= 0xffff && ExtensionsSized(exts)
       case _ => true
  }

  lemma FieldLayout(f: Field, shape: Shape)
    ensures f.NumF? && shape.Num? && shape.width == 1 ==> EncodeField(f, shape) == U8(f.value)
    ensures f.NumF? && shape.Num? && shape.width == 2 ==> EncodeField(f, shape) == U16Bytes(f.value)
    ensures f.NumF? && shape.Num? && shape.width == 4 ==> EncodeField(f, shape) == U32Bytes(f.value)
    ensures f.RawF? ==> EncodeField(f, shape) == f.data
    ensures f.VecF? && shape.Vec? && shape.width == 1 ==> EncodeField(f, shape) == V8(f.data)
    ensures f.VecF? && shape.Vec? && shape.width == 2 ==> EncodeField(f, shape) == V16(f.data)
    ensures f.VecF? && shape.Vec? && shape.width == 3 ==> EncodeField(f, shape) == V24(f.data)
  {
    if f.NumF? {
      BigEndian(f.value);
    } else {
      BigEndian(|f.data|);
    }
  }

  lemma HelloBody(f: Frame)
    requires f.ClientHello? || f.ServerHello?
    ensures EncodeFields(ToFields(f), Shapes(KindOf(f), BodyLen(f))) == BodyBytes(f)
  {
    hide EncodeField, EncodeFields, EncodeExtensions, EncodeSuites, ExtensionBytes, SuiteBytes, U8, U16Bytes, V8, V16,
         V24;
    var (fs, shapes) := (ToFields(f), Shapes(KindOf(f), BodyLen(f)));
    SixFields(fs, shapes);
    NestedLayout(f);
    FieldLayout(fs[0], shapes[0]);
    FieldLayout(fs[1], shapes[1]);
    FieldLayout(fs[2], shapes[2]);
    FieldLayout(fs[3], shapes[3]);
    FieldLayout(fs[4], shapes[4]);
    FieldLayout(fs[5], shapes[5]);
  }

  lemma TicketBody(f: Frame)
    requires f.NewSessionTicket?
    ensures EncodeFields(ToFields(f), Shapes(KindOf(f), BodyLen(f))) == BodyBytes(f)
  {
    hide EncodeField, EncodeFields, EncodeExtensions, ExtensionBytes, U32Bytes, V8, V16, V24;
    var (fs, shapes) := (ToFields(f), Shapes(KindOf(f), BodyLen(f)));
    FiveFields(fs, shapes);
    NestedLayout(f);
    FieldLayout(fs[0], shapes[0]);
    FieldLayout(fs[1], shapes[1]);
    FieldLayout(fs[2], shapes[2]);
    FieldLayout(fs[3], shapes[3]);
    FieldLayout(fs[4], shapes[4]);
  }

  lemma ShortBody(f: Frame)
    requires !f.ClientHello? && !f.ServerHello? && !f.NewSessionTicket?
    ensures |ToFields(f)| == |Shapes(KindOf(f), BodyLen(f))| <= 2
    ensures EncodeFields(ToFields(f), Shapes(KindOf(f), BodyLen(f))) == BodyBytes(f)
  {
    hide EncodeField, EncodeExtensions, EncodeEntries, ExtensionBytes, EntryBytes, U8, U16Bytes, V8, V16, V24;
    var (fs, shapes) := (ToFields(f), Shapes(KindOf(f), BodyLen(f)));
    NestedLayout(f);
    if |fs| == 2 {
      TwoFields(fs, shapes);
      FieldLayout(fs[0], shapes[0]);
      FieldLayout(fs[1], shapes[1]);
    } else if |fs| == 1 {
      FieldsFrom(fs, shapes, 0);
      FieldLayout(fs[0], shapes[0]);
      if f.KeyUpdate? {
        OneByte(fs[0].value);
      }
    }
  }

  lemma BodyLayout(f: Frame)
    ensures Body(f) == BodyBytes(f)
  {
    hide EncodeFields, BodyBytes, ToFields, Shapes;
    BodyWrites(f);
    if f.ClientHello? || f.ServerHello? {
      HelloBody(f);
    } else if f.NewSessionTicket? {
      TicketBody(f);
    } else {
      ShortBody(f);
    }
  }

  lemma OneByte(n: Byte)
    ensures U8(n) == [n]
  {
  }

  lemma NestedLayout(f: Frame)
    ensures f.ClientHello? ==> EncodeSuites(f.suites) == SuiteBytes(f.suites)
    ensures f.Certificate? ==> EncodeEntries(f.entries) == EntryBytes(f.entries)
    ensures var listed := f.ClientHello? || f.ServerHello? || f.EncryptedExtensions? || f.CertificateRequest? ||
                          f.NewSessionTicket?;
            listed ==> EncodeExtensions(f.extensions) == ExtensionBytes(f.extensions)
  {
    match f
    case ClientHello(_, _, _, suites, _, exts) => SuitesLayout(suites); ExtensionsLayout(exts);
    case ServerHello(_, _, _, _, _, exts) => ExtensionsLayout(exts);
    case EncryptedExtensions(exts) => ExtensionsLayout(exts);
    case CertificateRequest(_, exts) => ExtensionsLayout(exts);
    case Certificate(_, entries) => EntriesLayout(entries);
    case NewSessionTicket(_, _, _, _, exts) => ExtensionsLayout(exts);
    case _ =>
  }

  // ----------------------------------------------------------------------- sizes

  lemma ExtensionsSizedIff(exts: seq<Extension>)
    ensures ExtensionsFit(exts) && |EncodeExtensions(exts)| < Span(2) <==> ExtensionsSized(exts)
  {
    hide EncodeExtensions, ExtensionBytes, Span;
    Widths();
    ExtensionsLayout(exts);
    var items := ExtensionItems(exts);
    forall i | 0 <= i < |exts| ensures MatchesAll(items[i], EXTENSION) <==> |exts[i].data| <= 0xffff {
      assert items[i] == ExtensionFields(exts[i]);
      OneExtension(exts[i]);
    }
    if ExtensionsSized(exts) {
      forall i | 0 <= i < |exts| ensures MatchesAll(items[i], EXTENSION) {
        assert exts[i] in exts;
      }
    }
  }

  lemma OneExtension(e: Extension)
    ensures MatchesAll(ExtensionFields(e), EXTENSION) <==> |e.data| <= 0xffff
  {
    hide Span;
    Widths();
    var fs := ExtensionFields(e);
    assert Matches(fs[0], EXTENSION[0]);
    assert Matches(fs[1], EXTENSION[1]) <==> |e.data| <= 0xffff;
  }

  lemma OneEntry(e: Entry)
    ensures ExtensionsFit(e.extensions) && MatchesAll(EntryFields(e), ENTRY) <==>
            |e.certData| <= 0xff_ffff && ExtensionsSized(e.extensions)
  {
    hide EncodeExtensions, ExtensionsFit, ExtensionsSized, Span;
    Widths();
    ExtensionsSizedIff(e.extensions);
    var fs := EntryFields(e);
    assert Matches(fs[0], ENTRY[0]) <==> |e.certData| <= 0xff_ffff;
    assert Matches(fs[1], ENTRY[1]) <==> |EncodeExtensions(e.extensions)| < Span(2);
  }

  lemma EntriesSizedIff(entries: seq<Entry>)
    ensures EntriesFit(entries) && AllMatch(EntryItems(entries), ENTRY) <==>
            forall e :: e in entries ==> |e.certData| <= 0xff_ffff && ExtensionsSized(e.extensions)
  {
    hide ExtensionsFit, ExtensionsSized, MatchesAll, EntryFields;
    var items := EntryItems(entries);
    forall e: Entry ensures ExtensionsFit(e.extensions) && MatchesAll(EntryFields(e), ENTRY) <==>
                     |e.certData| <= 0xff_ffff && ExtensionsSized(e.extensions)
    {
      OneEntry(e);
    }
    assert forall i :: 0 <= i < |entries| ==> items[i] == EntryFields(entries[i]);
    if forall e :: e in entries ==> |e.certData| <= 0xff_ffff && ExtensionsSized(e.extensions) {
      forall i | 0 <= i < |entries| ensures ExtensionsFit(entries[i].extensions) && MatchesAll(items[i], ENTRY) {
        assert entries[i] in entries;
      }
    }
  }

  lemma {:induction false} SuiteBytesLen(suites: seq<U16>)
    ensures |SuiteBytes(suites)| == 2 * |suites|
  {
    if suites != [] {
      SuiteBytesLen(suites[1..]);
    }
  }

  lemma EachMatches(fs: seq<Field>, shapes: seq<Shape>)
    requires |fs| == |shapes| && |fs| in {0, 1, 2, 5, 6}
    ensures MatchesAll(fs, shapes) <==>
            && (|fs| > 0 ==> Matches(fs[0], shapes[0]))
            && (|fs| > 1 ==> Matches(fs[1], shapes[1]))
            && (|fs| > 2 ==> Matches(fs[2], shapes[2]) && Matches(fs[3], shapes[3]) && Matches(fs[4], shapes[4]))
            && (|fs| > 5 ==> Matches(fs[5], shapes[5]))
  {
    hide Matches;
  }

  lemma SizedIff(f: Frame)
    ensures Encodable(f) <==> Sized(f)
  {
    hide EncodeExtensions, EncodeSuites, EncodeEntries, ExtensionBytes, SuiteBytes, EntryBytes, EncodeFields,
         BodyBytes, Span, ExtensionsFit, ExtensionsSized, EntriesFit, AllMatch, MatchesAll;
    Widths();
    BodyWrites(f);
    BodyLayout(f);
    NestedLayout(f);
    EachMatches(ToFields(f), Shapes(KindOf(f), BodyLen(f)));
    match f
    case ClientHello(_, _, _, suites, _, exts) =>
      SuiteBytesLen(suites);
      ExtensionsSizedIff(exts);
    case ServerHello(_, _, _, _, _, exts) => ExtensionsSizedIff(exts);
    case EncryptedExtensions(exts) => ExtensionsSizedIff(exts);
    case CertificateRequest(_, exts) => ExtensionsSizedIff(exts);
    case Certificate(_, entries) => EntriesSizedIff(entries);
    case NewSessionTicket(_, _, _, _, exts) => ExtensionsSizedIff(exts);
    case _ =>
  }

  /** `Frame::encode` writes the type, the length of the body in three bytes and the body, and
      refuses a message exactly when one of its parts does not fit its length field. */
  lemma EncodeLayout(f: Frame)
    ensures Encode(f) == if Sized(f) then Some([TypeByte(f)] + V24(BodyBytes(f))) else None
  {
    hide Body, BodyBytes, Sized, Encodable, EncodeFields, Be, Program;
    EncodeIs(f);
    SizedIff(f);
    BodyLayout(f);
    var fs := Header(f, Body(f));
    TwoFields(fs, HEADER);
    FieldLayout(fs[0], HEADER[0]);
    FieldLayout(fs[1], HEADER[1]);
    OneByte(TypeByte(f));
  }
}
