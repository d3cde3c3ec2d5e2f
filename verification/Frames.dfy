/** The ten handshake messages: `Frame::encode` and `MessageRef::decode` are inverse. */
module Frames {
  import opened Bytes
  import opened Fields
  import opened Encoding
  import opened Programs
  import opened Extensions

  const MAX_CERTIFICATE_ENTRIES: nat := 16
  const RANDOM_LEN: nat := 32

  type U32 = n: nat | n < 0x1_0000_0000

  type Random = s: Octets | |s| == RANDOM_LEN witness seq(RANDOM_LEN, _ => 0)

  datatype Entry = Entry(certData: Octets, extensions: seq<Extension>)

  datatype UpdateRequest = NotRequested | Requested

  datatype Frame =
    | ClientHello(version: U16, random: Random, sessionId: Octets, suites: seq<U16>,
                  compression: Octets, extensions: seq<Extension>)
    | ServerHello(version: U16, random: Random, sessionId: Octets, suite: U16,
                  compressionMethod: Byte, extensions: seq<Extension>)
    | EncryptedExtensions(extensions: seq<Extension>)
    | CertificateRequest(context: Octets, extensions: seq<Extension>)
    | Certificate(context: Octets, entries: seq<Entry>)
    | CertificateVerify(algorithm: U16, signature: Octets)
    | Finished(verifyData: Octets)
    | EndOfEarlyData
    | KeyUpdate(request: UpdateRequest)
    | NewSessionTicket(lifetime: U32, ageAdd: U32, nonce: Octets, ticket: Octets, extensions: seq<Extension>)

  datatype Kind =
    CH | SH | NST | EOED | EE | CERT | CR | CV | FIN | KU | HASH

  const HEADER: seq<Shape> := [Num(1), Vec(3)]
  const SUITE: seq<Shape> := [Num(2)]
  const ENTRY: seq<Shape> := [Vec(3), Vec(2)]

  function Code(k: Kind): Byte
  {
    match k
    case CH => 1
    case SH => 2
    case NST => 4
    case EOED => 5
    case EE => 8
    case CERT => 11
    case CR => 13
    case CV => 15
    case FIN => 20
    case KU => 24
    case HASH => 254
  }

  /** `Type::from_u8`. */
  function FromCode(b: nat): (k: Option<Kind>)
    ensures k.Some? ==> Code(k.value) == b
    ensures forall kind :: Code(kind) == b ==> k == Some(kind)
  {
    if b == 1 then Some(CH) else if b == 2 then Some(SH) else if b == 4 then Some(NST)
    else if b == 5 then Some(EOED) else if b == 8 then Some(EE) else if b == 11 then Some(CERT)
    else if b == 13 then Some(CR) else if b == 15 then Some(CV) else if b == 20 then Some(FIN)
    else if b == 24 then Some(KU) else if b == 254 then Some(HASH) else None
  }

  function KindOf(f: Frame): Kind
  {
    match f
    case ClientHello(_, _, _, _, _, _) => CH
    case ServerHello(_, _, _, _, _, _) => SH
    case EncryptedExtensions(_) => EE
    case CertificateRequest(_, _) => CR
    case Certificate(_, _) => CERT
    case CertificateVerify(_, _) => CV
    case Finished(_) => FIN
    case EndOfEarlyData => EOED
    case KeyUpdate(_) => KU
    case NewSessionTicket(_, _, _, _, _) => NST
  }

  /** The fields of a body; a Finished takes all `n` of its bytes. */
  function Shapes(k: Kind, n: nat): seq<Shape>
  {
    match k
    case CH => [Num(2), Raw(RANDOM_LEN), Vec(1), Vec(2), Vec(1), Vec(2)]
    case SH => [Num(2), Raw(RANDOM_LEN), Vec(1), Num(2), Num(1), Vec(2)]
    case NST => [Num(4), Num(4), Vec(1), Vec(2), Vec(2)]
    case EOED => []
    case EE => [Vec(2)]
    case CERT => [Vec(1), Vec(3)]
    case CR => [Vec(1), Vec(2)]
    case CV => [Num(2), Vec(2)]
    case FIN => [Raw(n)]
    case KU => [Num(1)]
    case HASH => []
  }

  // ------------------------------------------------------------- cipher suites

  function SuiteItems(suites: seq<U16>): (items: seq<seq<Field>>)
    ensures |items| == |suites|
    ensures forall i :: 0 <= i < |suites| ==> items[i] == [NumF(suites[i])]
  {
    seq(|suites|, i requires 0 <= i < |suites| => [NumF(suites[i])])
  }

  function EncodeSuites(suites: seq<U16>): Octets
  {
    EncodeList(SuiteItems(suites), SUITE)
  }

  predicate SuiteItem(item: seq<Field>)
  {
    |item| == 1 && item[0].NumF? && item[0].value < 65536
  }

  function SuiteOf(item: seq<Field>): U16
    requires SuiteItem(item)
  {
    item[0].value
  }

  function ToSuites(items: seq<seq<Field>>): (suites: seq<U16>)
    requires forall i :: 0 <= i < |items| ==> SuiteItem(items[i])
    ensures |suites| == |items|
    ensures forall i :: 0 <= i < |items| ==> SuiteItem(items[i]) && suites[i] == SuiteOf(items[i])
  {
    seq(|items|, i requires 0 <= i < |items| && SuiteItem(items[i]) => SuiteOf(items[i]))
  }

  /** `U16List::decode`: at least one suite, an even number of bytes. */
  function DecodeSuites(s: Octets): Option<seq<U16>>
  {
    if |s| < 2 || |s| % 2 != 0 then None
    else
      match DecodeList(s, SUITE)
      case None => None
      case Some(items) =>
        ListCanonical(s, SUITE);
        AllSuites(items);
        Some(ToSuites(items))
  }

  lemma AllSuites(items: seq<seq<Field>>)
    ensures AllMatch(items, SUITE) <==> forall i :: 0 <= i < |items| ==> SuiteItem(items[i])
  {
  }

  lemma SuitesCanonical(s: Octets)
    requires DecodeSuites(s).Some?
    ensures DecodeSuites(s).value != [] && EncodeSuites(DecodeSuites(s).value) == s
  {
    hide DecodeList, MatchesAll;
    ListCanonical(s, SUITE);
    var items := DecodeList(s, SUITE).value;
    AllSuites(items);
    var suites := ToSuites(items);
    forall i | 0 <= i < |items| ensures SuiteItems(suites)[i] == items[i] {
    }
    assert SuiteItems(suites) == items;
  }

  lemma {:induction false} SuitesLength(items: seq<seq<Field>>)
    requires forall i :: 0 <= i < |items| ==> |items[i]| == 1 && items[i][0].NumF?
    ensures |EncodeList(items, SUITE)| == 2 * |items|
    decreases |items|
  {
    if items != [] {
      SuiteLength(items[0]);
      SuitesLength(items[1..]);
    }
  }

  lemma SuiteLength(item: seq<Field>)
    requires |item| == 1 && item[0].NumF?
    ensures |EncodeFields(item, SUITE)| == 2
  {
  }

  lemma SuitesComplete(suites: seq<U16>)
    requires suites != []
    ensures DecodeSuites(EncodeSuites(suites)) == Some(suites)
  {
    hide DecodeList, EncodeList, MatchesAll;
    var items := SuiteItems(suites);
    AllSuites(items);
    ListComplete(items, SUITE);
    SuitesLength(items);
    assert ToSuites(items) == suites;
  }

  // ------------------------------------------------------- certificate entries

  function EntryFields(e: Entry): (fs: seq<Field>)
    ensures |fs| == 2
  {
    [VecF(e.certData), VecF(EncodeExtensions(e.extensions))]
  }

  function EntryItems(entries: seq<Entry>): (items: seq<seq<Field>>)
    ensures |items| == |entries|
    ensures forall i :: 0 <= i < |entries| ==> items[i] == EntryFields(entries[i])
  {
    seq(|entries|, i requires 0 <= i < |entries| => EntryFields(entries[i]))
  }

  function EncodeEntries(entries: seq<Entry>): Octets
  {
    EncodeList(EntryItems(entries), ENTRY)
  }

  /** `CertificateEntryRef::decode` past its vectors. */
  function ToEntry(fs: seq<Field>): Option<Entry>
    requires MatchesAll(fs, ENTRY)
  {
    assert Matches(fs[0], Vec(3)) && Matches(fs[1], Vec(2));
    match DecodeExtensions(fs[1].data)
    case None => None
    case Some(exts) => if fs[0].data == [] then None else Some(Entry(fs[0].data, exts))
  }

  predicate GoodEntries(items: seq<seq<Field>>)
    requires AllMatch(items, ENTRY)
  {
    forall i :: 0 <= i < |items| ==> ToEntry(items[i]).Some?
  }

  function ToEntries(items: seq<seq<Field>>): (entries: seq<Entry>)
    requires AllMatch(items, ENTRY) && GoodEntries(items)
    ensures |entries| == |items|
    ensures forall i :: 0 <= i < |items| ==> Some(entries[i]) == ToEntry(items[i])
  {
    seq(|items|, i requires 0 <= i < |items| => ToEntry(items[i]).value)
  }

  function DecodeEntries(s: Octets): Option<seq<Entry>>
  {
    match DecodeList(s, ENTRY)
    case None => None
    case Some(items) =>
      ListCanonical(s, ENTRY);
      if |items| <= MAX_CERTIFICATE_ENTRIES && GoodEntries(items) then Some(ToEntries(items)) else None
  }

  predicate ExtensionsFit(exts: seq<Extension>)
  {
    AllMatch(ExtensionItems(exts), EXTENSION)
  }

  predicate FewDistinct(exts: seq<Extension>)
  {
    |exts| <= MAX_EXTENSIONS && Distinct(exts)
  }

  predicate ValidEntry(e: Entry)
  {
    e.certData != [] && FewDistinct(e.extensions)
  }

  lemma ExtensionsInverse(exts: seq<Extension>)
    requires ExtensionsFit(exts) && FewDistinct(exts)
    ensures DecodeExtensions(EncodeExtensions(exts)) == Some(exts)
  {
    hide EncodeExtensions, DecodeExtensions, MatchesAll;
    var items := ExtensionItems(exts);
    forall i | 0 <= i < |exts| ensures MatchesAll(ExtensionFields(exts[i]), EXTENSION) {
      assert items[i] == ExtensionFields(exts[i]);
    }
    ExtensionsComplete(exts);
  }

  lemma DecodedExtensions(s: Octets)
    requires DecodeExtensions(s).Some?
    ensures var exts := DecodeExtensions(s).value;
            ExtensionsFit(exts) && FewDistinct(exts) && EncodeExtensions(exts) == s
  {
    hide EncodeExtensions, DecodeExtensions, MatchesAll;
    ExtensionsCanonical(s);
  }

  lemma EntryCanonical(fs: seq<Field>)
    requires MatchesAll(fs, ENTRY) && ToEntry(fs).Some?
    ensures var e := ToEntry(fs).value;
            ValidEntry(e) && ExtensionsFit(e.extensions) && EntryFields(e) == fs
  {
    hide EncodeExtensions, DecodeExtensions, ExtensionsFit, FewDistinct;
    assert Matches(fs[0], Vec(3)) && Matches(fs[1], Vec(2));
    DecodedExtensions(fs[1].data);
    assert fs == [fs[0], fs[1]];
  }

  predicate EntriesFit(entries: seq<Entry>)
  {
    forall i :: 0 <= i < |entries| ==> ExtensionsFit(entries[i].extensions)
  }

  predicate ValidEntries(entries: seq<Entry>)
  {
    |entries| <= MAX_CERTIFICATE_ENTRIES && forall i :: 0 <= i < |entries| ==> ValidEntry(entries[i])
  }

  lemma EntriesCanonical(s: Octets)
    requires DecodeEntries(s).Some?
    ensures var entries := DecodeEntries(s).value;
            && ValidEntries(entries) && EntriesFit(entries) && EncodeEntries(entries) == s
            && AllMatch(EntryItems(entries), ENTRY)
  {
    hide DecodeList, MatchesAll, ToEntry, ExtensionsFit, ValidEntry, EntryFields;
    ListCanonical(s, ENTRY);
    var items := DecodeList(s, ENTRY).value;
    var entries := ToEntries(items);
    forall i | 0 <= i < |items|
      ensures ValidEntry(entries[i]) && ExtensionsFit(entries[i].extensions) && EntryFields(entries[i]) == items[i]
    {
      EntryCanonical(items[i]);
    }
    assert EntryItems(entries) == items;
  }

  lemma EntryComplete(e: Entry)
    requires ValidEntry(e) && ExtensionsFit(e.extensions) && MatchesAll(EntryFields(e), ENTRY)
    ensures ToEntry(EntryFields(e)) == Some(e)
  {
    hide EncodeExtensions, DecodeExtensions, ExtensionsFit, FewDistinct;
    ExtensionsInverse(e.extensions);
  }

  lemma EntriesComplete(entries: seq<Entry>)
    requires ValidEntries(entries) && EntriesFit(entries) && AllMatch(EntryItems(entries), ENTRY)
    ensures DecodeEntries(EncodeEntries(entries)) == Some(entries)
  {
    hide DecodeList, EncodeList, MatchesAll, ToEntry, ExtensionsFit, ValidEntry, EntryFields;
    var items := EntryItems(entries);
    ListComplete(items, ENTRY);
    forall i | 0 <= i < |entries| ensures ToEntry(items[i]) == Some(entries[i]) {
      assert items[i] == EntryFields(entries[i]);
      EntryComplete(entries[i]);
    }
    assert ToEntries(items) == entries;
  }

  // ------------------------------------------------------------------- bodies

  function ToFields(f: Frame): seq<Field>
  {
    match f
    case ClientHello(version, random, session, suites, compression, exts) =>
      [NumF(version), RawF(random), VecF(session), VecF(EncodeSuites(suites)), VecF(compression),
       VecF(EncodeExtensions(exts))]
    case ServerHello(version, random, session, suite, compression, exts) =>
      [NumF(version), RawF(random), VecF(session), NumF(suite), NumF(compression), VecF(EncodeExtensions(exts))]
    case EncryptedExtensions(exts) => [VecF(EncodeExtensions(exts))]
    case CertificateRequest(context, exts) => [VecF(context), VecF(EncodeExtensions(exts))]
    case Certificate(context, entries) => [VecF(context), VecF(EncodeEntries(entries))]
    case CertificateVerify(algorithm, signature) => [NumF(algorithm), VecF(signature)]
    case Finished(verifyData) => [RawF(verifyData)]
    case EndOfEarlyData => []
    case KeyUpdate(request) => [NumF(if request.Requested? then 1 else 0)]
    case NewSessionTicket(lifetime, ageAdd, nonce, ticket, exts) =>
      [NumF(lifetime), NumF(ageAdd), VecF(nonce), VecF(ticket), VecF(EncodeExtensions(exts))]
  }

  function WithExtensions(s: Octets, build: seq<Extension> -> Frame): Option<Frame>
  {
    match DecodeExtensions(s)
    case None => None
    case Some(exts) => Some(build(exts))
  }

  /** The message decoders, past their framing. */
  function FromFields(k: Kind, n: nat, fs: seq<Field>): Option<Frame>
    requires MatchesAll(fs, Shapes(k, n))
  {
    Widths();
    match k
    case CH =>
      var (a, b, c, d, e, x) := (fs[0], fs[1], fs[2], fs[3], fs[4], fs[5]);
      assert Matches(a, Num(2)) && Matches(b, Raw(RANDOM_LEN)) && Matches(c, Vec(1));
      assert Matches(d, Vec(2)) && Matches(e, Vec(1)) && Matches(x, Vec(2));
      (match DecodeSuites(d.data)
       case None => None
       case Some(suites) =>
         WithExtensions(x.data, exts => ClientHello(a.value, b.data, c.data, suites, e.data, exts)))
    case SH =>
      var (a, b, c, d, e, x) := (fs[0], fs[1], fs[2], fs[3], fs[4], fs[5]);
      assert Matches(a, Num(2)) && Matches(b, Raw(RANDOM_LEN)) && Matches(c, Vec(1));
      assert Matches(d, Num(2)) && Matches(e, Num(1)) && Matches(x, Vec(2));
      WithExtensions(x.data, exts => ServerHello(a.value, b.data, c.data, d.value, e.value, exts))
    case NST =>
      var (a, b, c, d, x) := (fs[0], fs[1], fs[2], fs[3], fs[4]);
      assert Matches(a, Num(4)) && Matches(b, Num(4)) && Matches(c, Vec(1)) && Matches(d, Vec(2)) && Matches(x, Vec(2));
      if d.data == [] then None
      else WithExtensions(x.data, exts => NewSessionTicket(a.value, b.value, c.data, d.data, exts))
    case EOED => Some(EndOfEarlyData)
    case EE =>
      assert Matches(fs[0], Vec(2));
      WithExtensions(fs[0].data, exts => EncryptedExtensions(exts))
    case CERT =>
      assert Matches(fs[0], Vec(1)) && Matches(fs[1], Vec(3));
      (match DecodeEntries(fs[1].data)
       case None => None
       case Some(entries) => Some(Certificate(fs[0].data, entries)))
    case CR =>
      assert Matches(fs[0], Vec(1)) && Matches(fs[1], Vec(2));
      var context := fs[0].data;
      WithExtensions(fs[1].data, exts => CertificateRequest(context, exts))
    case CV =>
      assert Matches(fs[0], Num(2)) && Matches(fs[1], Vec(2));
      Some(CertificateVerify(fs[0].value, fs[1].data))
    case FIN =>
      assert Matches(fs[0], Raw(n));
      Some(Finished(fs[0].data))
    case KU =>
      assert Matches(fs[0], Num(1));
      if fs[0].value == 0 then Some(KeyUpdate(NotRequested))
      else if fs[0].value == 1 then Some(KeyUpdate(Requested)) else None
    case HASH => None
  }

  lemma Widths()
    ensures Span(1) == 256 && Span(2) == 65536 && Span(3) == 0x100_0000 && Span(4) == 0x1_0000_0000
  {
  }

  /** Nested contents can be written. */
  predicate Fit(f: Frame)
  {
    match f
    case Certificate(_, entries) => EntriesFit(entries) && AllMatch(EntryItems(entries), ENTRY)
    case CertificateVerify(_, _) => true
    case Finished(_) => true
    case EndOfEarlyData => true
    case KeyUpdate(_) => true
    case _ => ExtensionsFit(f.extensions)
  }

  /** What a decoder demands beyond framing. */
  predicate WithinLimits(f: Frame)
  {
    match f
    case ClientHello(_, _, _, suites, _, exts) => suites != [] && FewDistinct(exts)
    case ServerHello(_, _, _, _, _, exts) => FewDistinct(exts)
    case EncryptedExtensions(exts) => FewDistinct(exts)
    case CertificateRequest(_, exts) => FewDistinct(exts)
    case Certificate(_, entries) => ValidEntries(entries)
    case NewSessionTicket(_, _, _, ticket, exts) => ticket != [] && FewDistinct(exts)
    case _ => true
  }

  lemma ExtensionsVector(x: Field)
    requires Matches(x, Vec(2)) && DecodeExtensions(x.data).Some?
    ensures var exts := DecodeExtensions(x.data).value;
            ExtensionsFit(exts) && FewDistinct(exts) && VecF(EncodeExtensions(exts)) == x
  {
    DecodedExtensions(x.data);
  }

  /** Whatever a body decoder accepts, its encoder writes the same fields. */
  lemma FromThenTo(k: Kind, n: nat, fs: seq<Field>)
    requires MatchesAll(fs, Shapes(k, n)) && FromFields(k, n, fs).Some?
    ensures var f := FromFields(k, n, fs).value;
            && KindOf(f) == k && ToFields(f) == fs && Fit(f) && WithinLimits(f)
  {
    hide DecodeExtensions, EncodeExtensions, DecodeSuites, EncodeSuites, DecodeEntries, EncodeEntries,
         ExtensionsFit, FewDistinct, EntriesFit, ValidEntries, AllMatch, Span;
    Widths();
    var f := FromFields(k, n, fs).value;
    var shapes := Shapes(k, n);
    assert forall i :: 0 <= i < |fs| ==> Matches(fs[i], shapes[i]);
    match k
    case CH =>
      SuitesCanonical(fs[3].data);
      ExtensionsVector(fs[5]);
      assert ToFields(f) == fs;
    case SH =>
      ExtensionsVector(fs[5]);
      assert ToFields(f) == fs;
    case NST =>
      ExtensionsVector(fs[4]);
      assert ToFields(f) == fs;
    case EE =>
      ExtensionsVector(fs[0]);
      assert ToFields(f) == fs;
    case CR =>
      ExtensionsVector(fs[1]);
      assert ToFields(f) == fs;
    case CERT =>
      EntriesCanonical(fs[1].data);
      assert ToFields(f) == fs;
    case HASH =>
    case _ =>
      assert ToFields(f) == fs;
  }

  predicate BodyMatches(f: Frame)
  {
    MatchesAll(ToFields(f), Shapes(KindOf(f), BodyLen(f)))
  }

  function BodyLen(f: Frame): nat
  {
    match f
    case Finished(verifyData) => |verifyData|
    case _ => 0
  }

  lemma ToThenFrom(f: Frame, n: nat)
    requires BodyMatches(f) && Fit(f) && WithinLimits(f) && (f.Finished? ==> n == BodyLen(f))
    ensures MatchesAll(ToFields(f), Shapes(KindOf(f), n))
    ensures FromFields(KindOf(f), n, ToFields(f)) == Some(f)
  {
    hide DecodeExtensions, EncodeExtensions, DecodeSuites, EncodeSuites, DecodeEntries, EncodeEntries,
         ExtensionsFit, FewDistinct, EntriesFit, ValidEntries, AllMatch, Span;
    Widths();
    match f
    case ClientHello(_, _, _, suites, _, exts) =>
      SuitesComplete(suites);
      ExtensionsInverse(exts);
    case ServerHello(_, _, _, _, _, exts) => ExtensionsInverse(exts);
    case EncryptedExtensions(exts) => ExtensionsInverse(exts);
    case CertificateRequest(_, exts) => ExtensionsInverse(exts);
    case Certificate(_, entries) => EntriesComplete(entries);
    case NewSessionTicket(_, _, _, _, exts) => ExtensionsInverse(exts);
    case _ =>
  }

  // ----------------------------------------------------------------- encoders

  function ExtensionOps(e: Extension): seq<Op>
  {
    [PutNum(e.ty, 2), PutVec(e.data, 2)]
  }

  function ExtensionPrograms(exts: seq<Extension>): (ps: seq<seq<Op>>)
    ensures |ps| == |exts|
    ensures forall i :: 0 <= i < |exts| ==> ps[i] == ExtensionOps(exts[i])
  {
    seq(|exts|, i requires 0 <= i < |exts| => ExtensionOps(exts[i]))
  }

  /** `Extension::encode_list` inside its frame. */
  function ListOps(exts: seq<Extension>): seq<Op>
  {
    Concat(ExtensionPrograms(exts))
  }

  lemma ExtensionWrites(e: Extension)
    ensures WritesAll(ExtensionOps(e), ExtensionFields(e), EXTENSION, true)
  {
    hide Writes, WritesAll, PutNum, PutVec, Span;
    Widths();
    NumWrites(e.ty, 2);
    VecWrites(e.data, 2);
    var (ops, fs, oks) := (ExtensionOps(e), ExtensionFields(e), [true, true]);
    assert Writes(ops[0], fs[0], EXTENSION[0], oks[0]) && Writes(ops[1], fs[1], EXTENSION[1], oks[1]);
    RecordWrites(ops, fs, EXTENSION, oks);
  }

  function Yes(n: nat): (oks: seq<bool>)
    ensures |oks| == n && AllTrue(oks)
  {
    seq(n, _ => true)
  }

  lemma ExtensionsWrite(exts: seq<Extension>)
    ensures MeaningAll(ListOps(exts)) ==
            if ExtensionsFit(exts) then Some(EncodeExtensions(exts)) else None
  {
    hide WritesAll, EncodeList, ExtensionOps, ExtensionFields, MeaningAll, AllMatch, AllTrue, Concat;
    var (ps, items, oks) := (ExtensionPrograms(exts), ExtensionItems(exts), Yes(|exts|));
    forall i | 0 <= i < |exts| ensures WritesAll(ps[i], items[i], EXTENSION, oks[i]) {
      ExtensionWrites(exts[i]);
      assert ps[i] == ExtensionOps(exts[i]) && items[i] == ExtensionFields(exts[i]);
    }
    ListWrites(ps, items, EXTENSION, oks);
  }

  function PutExtensions(exts: seq<Extension>): Op
  {
    Framed(2, ListOps(exts), false)
  }

  lemma ExtensionListWrites(exts: seq<Extension>)
    ensures Writes(PutExtensions(exts), VecF(EncodeExtensions(exts)), Vec(2), ExtensionsFit(exts))
  {
    hide Writes, ListOps, EncodeExtensions, ExtensionsFit, MeaningAll;
    ExtensionsWrite(exts);
    NestedWrites(ListOps(exts), EncodeExtensions(exts), 2, ExtensionsFit(exts));
  }

  function SuitePrograms(suites: seq<U16>): (ps: seq<seq<Op>>)
    ensures |ps| == |suites|
    ensures forall i :: 0 <= i < |suites| ==> ps[i] == [PutNum(suites[i], 2)]
  {
    seq(|suites|, i requires 0 <= i < |suites| => [PutNum(suites[i], 2)])
  }

  lemma SuiteWrites(suite: U16)
    ensures WritesAll([PutNum(suite, 2)], [NumF(suite)], SUITE, true)
  {
  }

  function PutSuites(suites: seq<U16>): Op
  {
    Framed(2, Concat(SuitePrograms(suites)), false)
  }

  lemma SuiteListWrites(suites: seq<U16>)
    ensures Writes(PutSuites(suites), VecF(EncodeSuites(suites)), Vec(2), true)
  {
    hide Writes, WritesAll, EncodeList, MeaningAll, Concat, MatchesAll, PutNum;
    var (ps, items, oks) := (SuitePrograms(suites), SuiteItems(suites), Yes(|suites|));
    forall i | 0 <= i < |suites| ensures WritesAll(ps[i], items[i], SUITE, oks[i]) {
      SuiteWrites(suites[i]);
    }
    ListWrites(ps, items, SUITE, oks);
    AllSuites(items);
    NestedWrites(Concat(ps), EncodeSuites(suites), 2, true);
  }

  function EntryOps(e: Entry): seq<Op>
  {
    [PutVec(e.certData, 3), PutExtensions(e.extensions)]
  }

  function EntryPrograms(entries: seq<Entry>): (ps: seq<seq<Op>>)
    ensures |ps| == |entries|
    ensures forall i :: 0 <= i < |entries| ==> ps[i] == EntryOps(entries[i])
  {
    seq(|entries|, i requires 0 <= i < |entries| => EntryOps(entries[i]))
  }

  lemma EntryWrites(e: Entry)
    ensures WritesAll(EntryOps(e), EntryFields(e), ENTRY, ExtensionsFit(e.extensions))
  {
    hide Writes, WritesAll, PutExtensions, PutVec, EncodeExtensions, ExtensionsFit;
    VecWrites(e.certData, 3);
    ExtensionListWrites(e.extensions);
    var (ops, fs, oks) := (EntryOps(e), EntryFields(e), [true, ExtensionsFit(e.extensions)]);
    assert Writes(ops[0], fs[0], ENTRY[0], oks[0]) && Writes(ops[1], fs[1], ENTRY[1], oks[1]);
    RecordWrites(ops, fs, ENTRY, oks);
    assert AllTrue(oks) <==> oks[1];
  }

  function PutEntries(entries: seq<Entry>): Op
  {
    Framed(3, Concat(EntryPrograms(entries)), false)
  }

  function FitFlags(entries: seq<Entry>): (oks: seq<bool>)
    ensures |oks| == |entries|
    ensures forall i :: 0 <= i < |entries| ==> oks[i] == ExtensionsFit(entries[i].extensions)
  {
    seq(|entries|, i requires 0 <= i < |entries| => ExtensionsFit(entries[i].extensions))
  }

  lemma FlagsMeanFit(entries: seq<Entry>)
    ensures AllTrue(FitFlags(entries)) <==> EntriesFit(entries)
  {
  }

  lemma EntryListWrites(entries: seq<Entry>)
    ensures Writes(PutEntries(entries), VecF(EncodeEntries(entries)), Vec(3),
                   EntriesFit(entries) && AllMatch(EntryItems(entries), ENTRY))
  {
    hide Writes, WritesAll, EncodeList, MeaningAll, Concat, MatchesAll, EntryOps, EntryFields,
         EntriesFit, AllTrue, ExtensionsFit;
    var (ps, items, oks) := (EntryPrograms(entries), EntryItems(entries), FitFlags(entries));
    forall i | 0 <= i < |entries| ensures WritesAll(ps[i], items[i], ENTRY, oks[i]) {
      EntryWrites(entries[i]);
      assert ps[i] == EntryOps(entries[i]) && items[i] == EntryFields(entries[i]);
    }
    ListWrites(ps, items, ENTRY, oks);
    FlagsMeanFit(entries);
    NestedWrites(Concat(ps), EncodeEntries(entries), 3, EntriesFit(entries) && AllMatch(items, ENTRY));
  }

  function BodyOps(f: Frame): seq<Op>
  {
    match f
    case ClientHello(version, random, session, suites, compression, exts) =>
      [PutNum(version, 2), Put(random), PutVec(session, 1), PutSuites(suites), PutVec(compression, 1),
       PutExtensions(exts)]
    case ServerHello(version, random, session, suite, compression, exts) =>
      [PutNum(version, 2), Put(random), PutVec(session, 1), PutNum(suite, 2), PutNum(compression, 1),
       PutExtensions(exts)]
    case EncryptedExtensions(exts) => [PutExtensions(exts)]
    case CertificateRequest(context, exts) => [PutVec(context, 1), PutExtensions(exts)]
    case Certificate(context, entries) => [PutVec(context, 1), PutEntries(entries)]
    case CertificateVerify(algorithm, signature) => [PutNum(algorithm, 2), PutVec(signature, 2)]
    case Finished(verifyData) => [Put(verifyData)]
    case EndOfEarlyData => []
    case KeyUpdate(request) => [PutNum(if request.Requested? then 1 else 0, 1)]
    case NewSessionTicket(lifetime, ageAdd, nonce, ticket, exts) =>
      [PutNum(lifetime, 4), PutNum(ageAdd, 4), PutVec(nonce, 1), PutVec(ticket, 2), PutExtensions(exts)]
  }

  /** Which fields have contents of their own that may fail. */
  function Flags(f: Frame): seq<bool>
  {
    match f
    case ClientHello(_, _, _, _, _, exts) => [true, true, true, true, true, ExtensionsFit(exts)]
    case ServerHello(_, _, _, _, _, exts) => [true, true, true, true, true, ExtensionsFit(exts)]
    case EncryptedExtensions(exts) => [ExtensionsFit(exts)]
    case CertificateRequest(_, exts) => [true, ExtensionsFit(exts)]
    case Certificate(_, entries) => [true, EntriesFit(entries) && AllMatch(EntryItems(entries), ENTRY)]
    case CertificateVerify(_, _) => [true, true]
    case EndOfEarlyData => []
    case NewSessionTicket(_, _, _, _, exts) => [true, true, true, true, ExtensionsFit(exts)]
    case _ => [true]
  }

  lemma FlagsMeanFrameFit(f: Frame)
    ensures AllTrue(Flags(f)) <==> Fit(f)
  {
    hide ExtensionsFit, EntriesFit, AllMatch;
    var oks := Flags(f);
    if oks != [] {
      assert AllTrue(oks) <==> oks[|oks| - 1];
    }
  }

  /** Each step of a body encoder writes its field. */
  lemma BodyFieldWrites(f: Frame, i: nat)
    requires |BodyOps(f)| == |ToFields(f)| == |Shapes(KindOf(f), BodyLen(f))| == |Flags(f)| > i
    ensures Writes(BodyOps(f)[i], ToFields(f)[i], Shapes(KindOf(f), BodyLen(f))[i], Flags(f)[i])
  {
    hide Writes, PutNum, PutVec, PutExtensions, PutSuites, PutEntries,
         EncodeExtensions, EncodeSuites, EncodeEntries, ExtensionsFit, EntriesFit, AllMatch, Span;
    Widths();
    var (op, v, shape) := (BodyOps(f)[i], ToFields(f)[i], Shapes(KindOf(f), BodyLen(f))[i]);
    match v
    case NumF(n) => NumWrites(n, shape.width);
    case RawF(data) => RawWrites(data);
    case VecF(data) =>
      VecWrites(data, shape.width);
      match f {
        case ClientHello(_, _, _, suites, _, exts) => SuiteListWrites(suites); ExtensionListWrites(exts);
        case ServerHello(_, _, _, _, _, exts) => ExtensionListWrites(exts);
        case EncryptedExtensions(exts) => ExtensionListWrites(exts);
        case CertificateRequest(_, exts) => ExtensionListWrites(exts);
        case Certificate(_, entries) => EntryListWrites(entries);
        case NewSessionTicket(_, _, _, _, exts) => ExtensionListWrites(exts);
        case _ =>
      }
  }

  lemma BodyWrites(f: Frame)
    ensures |ToFields(f)| == |Shapes(KindOf(f), BodyLen(f))|
    ensures WritesAll(BodyOps(f), ToFields(f), Shapes(KindOf(f), BodyLen(f)), Fit(f))
  {
    hide Writes, WritesAll, Fit, AllTrue, EncodeExtensions, EncodeSuites, EncodeEntries,
         PutNum, PutVec, PutExtensions, PutSuites, PutEntries;
    var (ops, fs, shapes, oks) := (BodyOps(f), ToFields(f), Shapes(KindOf(f), BodyLen(f)), Flags(f));
    forall i | 0 <= i < |ops| ensures Writes(ops[i], fs[i], shapes[i], oks[i]) {
      BodyFieldWrites(f, i);
    }
    RecordWrites(ops, fs, shapes, oks);
    FlagsMeanFrameFit(f);
  }

  // ------------------------------------------------------------------- frames

  /** `Frame::encode` as an encoding program, and the bytes it writes. */
  function Program(f: Frame): seq<Op>
  {
    [PutNum(Code(KindOf(f)), 1), Framed(3, BodyOps(f), false)]
  }

  function Encode(f: Frame): Option<Octets>
  {
    MeaningAll(Program(f))
  }

  /** `MessageRef::decode`. */
  function Decode(raw: Octets): Option<Frame>
  {
    match DecodeFields(raw, HEADER)
    case Bad => None
    case Got(fs, rest) =>
      FieldsCanonical(raw, HEADER);
      assert Matches(fs[0], Num(1)) && Matches(fs[1], Vec(3));
      if rest != [] then None
      else
        match FromCode(fs[0].value)
        case None => None
        case Some(k) => DecodeBody(k, fs[1].data)
  }

  function DecodeBody(k: Kind, body: Octets): Option<Frame>
  {
    match DecodeFields(body, Shapes(k, |body|))
    case Bad => None
    case Got(fs, rest) =>
      FieldsCanonical(body, Shapes(k, |body|));
      if rest != [] then None else FromFields(k, |body|, fs)
  }

  function Header(f: Frame, body: Octets): seq<Field>
  {
    [NumF(Code(KindOf(f))), VecF(body)]
  }

  ghost predicate Encodable(f: Frame)
  {
    BodyWrites(f);
    Fit(f) && BodyMatches(f) && |Body(f)| < Span(3)
  }

  ghost function Body(f: Frame): Octets
  {
    BodyWrites(f);
    EncodeFields(ToFields(f), Shapes(KindOf(f), BodyLen(f)))
  }

  lemma EncodeIs(f: Frame)
    ensures Encode(f) == if Encodable(f) then Some(EncodeFields(Header(f, Body(f)), HEADER)) else None
  {
    hide BodyOps, ToFields, Shapes, Writes, Fit, MeaningAll, EncodeFields, PutNum, Span, MatchesAll;
    Widths();
    BodyWrites(f);
    var ok := Fit(f) && BodyMatches(f);
    NumWrites(Code(KindOf(f)), 1);
    NestedWrites(BodyOps(f), Body(f), 3, ok);
    var (ops, fs, oks) := (Program(f), Header(f, Body(f)), [true, ok]);
    assert Writes(ops[0], fs[0], HEADER[0], oks[0]) && Writes(ops[1], fs[1], HEADER[1], oks[1]);
    RecordWrites(ops, fs, HEADER, oks);
    assert AllTrue(oks) <==> oks[1];
    HeaderMatches(f, Body(f));
  }

  lemma HeaderMatches(f: Frame, body: Octets)
    ensures MatchesAll(Header(f, body), HEADER) <==> |body| < Span(3)
  {
    Widths();
    var fs := Header(f, body);
    assert Matches(fs[0], HEADER[0]);
    assert Matches(fs[1], HEADER[1]) <==> |body| < Span(3);
  }

  lemma BodyCanonical(k: Kind, body: Octets)
    requires DecodeBody(k, body).Some?
    ensures var f := DecodeBody(k, body).value;
            KindOf(f) == k && WithinLimits(f) && Fit(f) && BodyMatches(f) && Body(f) == body
  {
    hide FromFields, ToFields, DecodeFields, EncodeFields, WithinLimits, Fit, Matches;
    FieldsCanonical(body, Shapes(k, |body|));
    var fs := DecodeFields(body, Shapes(k, |body|)).value;
    FromThenTo(k, |body|, fs);
    var f := DecodeBody(k, body).value;
    FinishedLength(k, body, fs);
    assert EncodeFields(fs, Shapes(k, |body|)) + [] == EncodeFields(fs, Shapes(k, |body|));
  }

  lemma FinishedLength(k: Kind, body: Octets, fs: seq<Field>)
    requires MatchesAll(fs, Shapes(k, |body|)) && FromFields(k, |body|, fs).Some?
    requires KindOf(FromFields(k, |body|, fs).value) == k
    ensures Shapes(k, BodyLen(FromFields(k, |body|, fs).value)) == Shapes(k, |body|)
  {
  }

  lemma BodyComplete(f: Frame)
    requires Fit(f) && BodyMatches(f) && WithinLimits(f)
    ensures DecodeBody(KindOf(f), Body(f)) == Some(f)
  {
    hide FromFields, ToFields, DecodeFields, EncodeFields, WithinLimits, Fit, MatchesAll;
    var (k, body, fs) := (KindOf(f), Body(f), ToFields(f));
    FinishedBody(f);
    ToThenFrom(f, |body|);
    assert Shapes(k, BodyLen(f)) == Shapes(k, |body|);
    FieldsComplete(fs, Shapes(k, |body|), []);
    assert body + [] == body;
  }

  lemma FinishedBody(f: Frame)
    ensures f.Finished? ==> |Body(f)| == BodyLen(f)
  {
    if f.Finished? {
      var (fs, shapes) := (ToFields(f), Shapes(FIN, BodyLen(f)));
      assert EncodeFields(fs[1..], shapes[1..]) == [];
    }
  }

  /** Every accepted byte string is exactly what the encoder writes for its message. */
  lemma WireIsCanonical(raw: Octets)
    requires Decode(raw).Some?
    ensures Encode(Decode(raw).value) == Some(raw) && WithinLimits(Decode(raw).value)
  {
    hide DecodeBody, DecodeFields, EncodeFields, WithinLimits, Fit, BodyMatches, Body, Span, Program;
    Widths();
    FieldsCanonical(raw, HEADER);
    var fs := DecodeFields(raw, HEADER).value;
    assert Matches(fs[0], Num(1)) && Matches(fs[1], Vec(3));
    var f := Decode(raw).value;
    BodyCanonical(FromCode(fs[0].value).value, fs[1].data);
    EncodeIs(f);
    assert Header(f, Body(f)) == fs;
    assert EncodeFields(fs, HEADER) + [] == EncodeFields(fs, HEADER);
  }

  /** Every encoded message decodes back to itself exactly when it keeps the limits. */
  lemma FrameRoundTrip(f: Frame, raw: Octets)
    requires Encode(f) == Some(raw)
    ensures Decode(raw) == Some(f) <==> WithinLimits(f)
  {
    if WithinLimits(f) {
      Decodes(f, raw);
    }
    if Decode(raw) == Some(f) {
      WireIsCanonical(raw);
    }
  }

  lemma Decodes(f: Frame, raw: Octets)
    requires Encode(f) == Some(raw) && WithinLimits(f)
    ensures Decode(raw) == Some(f)
  {
    hide DecodeBody, DecodeFields, EncodeFields, WithinLimits, Fit, BodyMatches, Body, Span, Program, MatchesAll;
    EncodeIs(f);
    var fs := Header(f, Body(f));
    HeaderMatches(f, Body(f));
    FieldsComplete(fs, HEADER, []);
    assert raw + [] == raw;
    BodyComplete(f);
  }
}
