/** What is written is what is read: the printer of `Serve` against the reader of `Reader`. */
module RoundTrip {
  import opened Bytes
  import opened Lists
  import Json
  import Cbor
  import opened Framing
  import opened Serve
  import opened Reader

  // --- what the library is taken to do ------------------------------------------------

  /** Ids print injectively as short ASCII text; a report reads back, and is never mistaken for a claim. */
  ghost predicate Lawful<Id(!new), Report(!new)>(lib: Library<Id, Report>) {
    && (forall id: Id :: lib.parse(lib.show(id)) == Some(id) && Json.Ascii(lib.show(id)) && |lib.show(id)| < Cbor.TWO64)
    && (forall p: Report :: JsonReport(lib.reportJson(p)) && lib.readJson(lib.reportJson(p)) == Some(p))
    && (forall p: Report :: CborReport(lib.reportCbor(p)) && lib.readCbor(lib.reportCbor(p)) == Some(p))
  }

  /** A JSON object with nothing around it, short of one of the two keys that mark a claim. */
  ghost predicate JsonReport(raw: Bytes) {
    Trimmed(raw) && Json.Parse(raw).Some? && Json.Parse(raw).value.Object?
    && !IsClaimObject(Json.Parse(raw).value.fields)
  }

  ghost predicate JsonClaim(raw: Bytes) {
    Trimmed(raw) && Json.Parse(raw).Some? && Json.Parse(raw).value.Object?
    && IsClaimObject(Json.Parse(raw).value.fields)
  }

  /** A well-formed, non-empty CBOR map, whatever the width or form of its count. */
  ghost predicate CborMap(raw: Bytes) {
    && Cbor.WellFormed(raw)
    && var x := Cbor.Parse(raw).value.value;
    x.Major() == Cbor.MAP && (x.Group? || x.OpenGroup?) && x.items != []
  }

  ghost function FirstKeyMajor(raw: Bytes): nat
    requires CborMap(raw)
  {
    Cbor.Parse(raw).value.value.items[0].Major()
  }

  ghost predicate CborReport(raw: Bytes) {
    CborMap(raw) && FirstKeyMajor(raw) == Cbor.TEXT
  }

  /** A claim record's keys are integers, so its first is not text. */
  ghost predicate CborClaim(raw: Bytes) {
    CborMap(raw) && FirstKeyMajor(raw) in {0, 1}
  }

  ghost predicate Envelope<Id, Report>(lib: Library<Id, Report>, raw: Bytes) {
    Cbor.WellFormed(raw) && Cbor.Parse(raw).value.value.Major() == Cbor.TAG && lib.stored(raw)
  }

  /** What the engine is taken to hand over under each kind; stored records travel as CBOR alone. */
  ghost predicate Sound<Id, Report>(lib: Library<Id, Report>, enc: Encoding, r: QueryResult<Id>) {
    match r
    case ClaimId(_) => true
    case PathId(ids) => |ids| < Cbor.TWO64
    case ClaimEncoded(b) => if enc == CBOR then CborClaim(b) else JsonClaim(b)
    case PathEncoded(bs) => forall i | 0 <= i < |bs| :: (if enc == CBOR then CborClaim(bs[i]) else JsonClaim(bs[i]))
    case ClaimEnvelope(b) => enc == CBOR && Envelope(lib, b)
    case PathEnvelope(bs) => enc == CBOR && forall i | 0 <= i < |bs| :: Envelope(lib, bs[i])
    case ReportElement => true
    case Native => false
  }

  // --- what the reader should answer ---------------------------------------------------

  function ClaimsOf<Id, Report>(bs: seq<Bytes>): seq<Reading<Id, Report>> {
    if bs == [] then [] else [ReadClaim(bs[0])] + ClaimsOf(bs[1..])
  }

  /** A result's readings: one of its own kind, or one a claim for a route of claims. */
  function Readings<Id, Report>(r: QueryResult<Id>): seq<Reading<Id, Report>> {
    match r
    case ClaimId(id) => [ReadId(id)]
    case PathId(ids) => [ReadRoute(ids)]
    case ClaimEncoded(b) => [ReadClaim(b)]
    case ClaimEnvelope(b) => [ReadEnvelope(b)]
    case PathEncoded(bs) => ClaimsOf(bs)
    case PathEnvelope(bs) => EnvelopesOf(bs)
    case _ => []
  }

  function AllReadings<Id, Report>(rs: seq<QueryResult<Id>>): seq<Reading<Id, Report>> {
    if rs == [] then [] else Readings(rs[0]) + AllReadings(rs[1..])
  }

  function ReportReading<Id, Report>(report: Option<Report>): seq<Reading<Id, Report>> {
    if report.None? then [] else [ReadReport(report.value)]
  }

  // --- one record ---------------------------------------------------------------------

  ghost predicate Splits(enc: Encoding, payload: Bytes) {
    if enc == CBOR then Cbor.WellFormed(payload) else JsonRecord(payload)
  }

  /** A payload that splits off its neighbours and decodes to `x`. */
  ghost predicate Decodes<Id, Report>(lib: Library<Id, Report>, enc: Encoding, payload: Bytes, x: Reading<Id, Report>) {
    && Splits(enc, payload)
    && DecodeRecord(lib, enc, payload) == Ok(x)
  }

  /** The reader's guess at the first key is right on every non-empty map. */
  lemma {:induction false} FirstMapKeyMajorIsRight(raw: Bytes)
    requires CborMap(raw)
    ensures raw != [] && raw[0] / 32 == Cbor.MAP && FirstMapKeyMajor(raw) == Some(FirstKeyMajor(raw))
  {
    var x := Cbor.Parse(raw).value.value;
    Cbor.EncodeOfParse(raw);
    assert raw == Cbor.Encode(x);
    Cbor.FirstByte(x);
    Cbor.FirstByte(x.items[0]);
    var key := Cbor.Encode(x.items[0]);
    assert Cbor.EncodeAll(x.items) == key + Cbor.EncodeAll(x.items[1..]);
    if x.Group? {
      var h := x.h;
      assert raw[0] == h.major * 32 + h.info;
      assert raw[|h.Encode()|] == key[0];
    } else {
      assert raw[0] == x.major * 32 + Cbor.INDEFINITE;
      assert raw[1] == key[0];
    }
  }

  /**
   A map without entries is refused, except that one of indefinite length shows its break as a key
   and reads as a claim.
   */
  lemma {:induction false} FirstMapKeyMajorOfEmpty<Id, Report>(lib: Library<Id, Report>, raw: Bytes)
    requires Cbor.WellFormed(raw)
    requires var x := Cbor.Parse(raw).value.value; x.Major() == Cbor.MAP && (x.Group? || x.OpenGroup?) && x.items == []
    ensures raw != []
    ensures FirstMapKeyMajor(raw) == if Cbor.Parse(raw).value.value.OpenGroup? then Some(Cbor.BREAK / 32) else None
    ensures DecodeCborRecord(lib, raw)
         == if Cbor.Parse(raw).value.value.OpenGroup? then Ok(ReadClaim(raw)) else Err(UnknownFraming)
  {
    var x := Cbor.Parse(raw).value.value;
    Cbor.EncodeOfParse(raw);
    Cbor.FirstByte(x);
    assert raw == Cbor.Encode(x);
    if x.Group? {
      EmptyGroupShowsNoKey(raw, x.h);
    } else {
      assert raw == [x.major * 32 + Cbor.INDEFINITE, Cbor.BREAK];
    }
  }

  lemma EmptyGroupShowsNoKey(raw: Bytes, h: Cbor.Head)
    requires h.Valid() && raw == h.Encode() + []
    ensures raw != [] && FirstMapKeyMajor(raw) == None
  {
    assert raw == h.Encode();
    assert raw[0] == h.major * 32 + h.info;
  }

  lemma {:induction false} NamesOfTexts(texts: seq<Bytes>)
    ensures Names(Cbor.TextItems(texts)) == Some(texts)
  {
    if texts != [] {
      NamesOfTexts(texts[1..]);
      assert Cbor.TextItems(texts)[1..] == Cbor.TextItems(texts[1..]);
      FirstName(texts);
      assert texts == [texts[0]] + texts[1..];
    }
  }

  lemma FirstName(texts: seq<Bytes>)
    requires texts != []
    ensures Cbor.TextItems(texts) != []
    ensures var x := Cbor.TextItems(texts)[0]; x.Major() == Cbor.TEXT && ItemText(x) == texts[0]
  {
  }

  lemma {:induction false} ParseIdsOfPrints<Id(!new), Report(!new)>(lib: Library<Id, Report>, ids: seq<Id>)
    requires Lawful(lib)
    ensures ParseIds(lib, Prints(lib, ids)) == Ok(ids)
  {
    if ids != [] {
      ParseIdsOfPrints(lib, ids[1..]);
      assert Prints(lib, ids)[1..] == Prints(lib, ids[1..]);
      assert ids == [ids[0]] + ids[1..];
    }
  }

  lemma {:induction false} JsonIdsOfPrints<Id(!new), Report(!new)>(lib: Library<Id, Report>, ids: seq<Id>)
    requires Lawful(lib)
    ensures JsonIds(lib, Json.Texts(Prints(lib, ids))) == Ok(ids)
  {
    if ids != [] {
      JsonIdsOfPrints(lib, ids[1..]);
      assert Prints(lib, ids)[1..] == Prints(lib, ids[1..]);
      assert Json.Texts(Prints(lib, ids))[1..] == Json.Texts(Prints(lib, ids)[1..]);
      assert ids == [ids[0]] + ids[1..];
    }
  }

  lemma NoLeadSpace(s: Bytes)
    requires s != [] && 0x20 < s[0] < 0x80
    ensures LeadSpace(s) == 0
  {
    assert s[..1][0] == s[0];
    assert |s| >= 2 ==> s[..2][0] == s[0];
    assert |s| >= 3 ==> s[..3][0] == s[0];
  }

  lemma NoSpaceTail(s: Bytes, n: nat)
    requires 1 <= n <= |s| && 0x20 < s[|s| - 1] < 0x80
    ensures !IsSpaceRune(s[|s| - n..])
  {
    var r := s[|s| - n..];
    assert r[n - 1] == s[|s| - 1];
  }

  lemma NoTailSpace(s: Bytes)
    requires s != [] && 0x20 < s[|s| - 1] < 0x80
    ensures TailSpace(s) == 0
  {
    NoSpaceTail(s, 1);
    if |s| >= 2 {
      NoSpaceTail(s, 2);
    }
    if |s| >= 3 {
      NoSpaceTail(s, 3);
    }
  }

  /** A text between two ASCII marks that are no space is trimmed. */
  lemma TrimmedBetweenMarks(s: Bytes)
    requires |s| >= 2 && 0x20 < s[0] < 0x80 && 0x20 < s[|s| - 1] < 0x80
    ensures Trimmed(s)
  {
    NoLeadSpace(s);
    NoTailSpace(s);
  }

  lemma {:induction false} JsonRecordBetweenMarks(s: Bytes)
    requires |s| >= 2 && 0x20 < s[0] < 0x80 && 0x20 < s[|s| - 1] < 0x80 && Json.Parse(s).Some?
    ensures JsonRecord(s)
  {
    TrimmedBetweenMarks(s);
    Json.JsonHoldsNoSeparator(s);
  }

  lemma {:induction false} CborIdDecodes<Id(!new), Report(!new)>(lib: Library<Id, Report>, id: Id)
    requires Lawful(lib)
    ensures Decodes(lib, CBOR, MarshalId(lib, CBOR, id), ReadId(id))
  {
    var text := lib.show(id);
    var raw := Cbor.MarshalText(text);
    Cbor.MarshalTextIsItem(text);
    Cbor.FirstByte(Cbor.TextItem(text));
    assert raw != [] && raw[0] / 32 == Cbor.TEXT && ItemText(Cbor.Parse(raw).value.value) == text;
  }

  lemma {:induction false} JsonIdDecodes<Id(!new), Report(!new)>(lib: Library<Id, Report>, id: Id)
    requires Lawful(lib)
    ensures Decodes(lib, JSON, MarshalId(lib, JSON, id), ReadId(id))
  {
    var text := lib.show(id);
    var raw := Json.MarshalText(text);
    Json.MarshalTextParses(text);
    JsonRecordBetweenMarks(raw);
  }

  lemma {:induction false} ListBodyEnds(texts: seq<Bytes>)
    ensures var s := Json.ListBody(texts); s != [] && s[|s| - 1] == Json.RBRACKET
  {
    if texts != [] {
      ListBodyEnds(texts[1..]);
    }
  }

  lemma {:induction false} CborRouteDecodes<Id(!new), Report(!new)>(lib: Library<Id, Report>, ids: seq<Id>)
    requires Lawful(lib) && |ids| < Cbor.TWO64
    ensures Decodes(lib, CBOR, MarshalIds(lib, CBOR, ids), ReadRoute(ids))
  {
    var texts, raw := Prints(lib, ids), MarshalIds(lib, CBOR, ids);
    Cbor.MarshalTextsIsItem(texts);
    var x := Cbor.Parse(raw).value.value;
    assert raw != [] && raw[0] / 32 == Cbor.ARRAY by {
      Cbor.EncodeOfParse(raw);
      Cbor.FirstByte(x);
    }
    NamesOfTexts(texts);
    ParseIdsOfPrints(lib, ids);
  }

  lemma {:induction false} JsonRouteDecodes<Id(!new), Report(!new)>(lib: Library<Id, Report>, ids: seq<Id>)
    requires Lawful(lib)
    ensures Decodes(lib, JSON, MarshalIds(lib, JSON, ids), ReadRoute(ids))
  {
    var texts := Prints(lib, ids);
    var raw := Json.MarshalTexts(texts);
    Json.MarshalTextsParses(texts);
    ListBodyEnds(texts);
    JsonRecordBetweenMarks(raw);
    JsonIdsOfPrints(lib, ids);
  }

  lemma {:induction false} ClaimDecodes<Id, Report>(lib: Library<Id, Report>, enc: Encoding, raw: Bytes)
    requires if enc == CBOR then CborClaim(raw) else JsonClaim(raw)
    ensures Decodes(lib, enc, raw, ReadClaim(raw))
  {
    if enc == CBOR {
      FirstMapKeyMajorIsRight(raw);
    } else {
      Json.JsonHoldsNoSeparator(raw);
    }
  }

  lemma {:induction false} EnvelopeDecodes<Id, Report>(lib: Library<Id, Report>, raw: Bytes)
    requires Envelope(lib, raw)
    ensures Decodes(lib, CBOR, raw, ReadEnvelope(raw))
  {
    Cbor.EncodeOfParse(raw);
    Cbor.FirstByte(Cbor.Parse(raw).value.value);
    assert raw == Cbor.Encode(Cbor.Parse(raw).value.value);
  }

  lemma {:induction false} CborReportDecodes<Id, Report>(lib: Library<Id, Report>, raw: Bytes, report: Report)
    requires CborReport(raw) && lib.readCbor(raw) == Some(report)
    ensures Decodes(lib, CBOR, raw, ReadReport(report))
  {
    FirstMapKeyMajorIsRight(raw);
  }

  lemma {:induction false} JsonReportDecodes<Id, Report>(lib: Library<Id, Report>, raw: Bytes, report: Report)
    requires JsonReport(raw) && lib.readJson(raw) == Some(report)
    ensures Decodes(lib, JSON, raw, ReadReport(report))
  {
    Json.JsonHoldsNoSeparator(raw);
    JsonReportReads(lib, raw, report);
  }

  lemma {:induction false} JsonReportReads<Id, Report>(lib: Library<Id, Report>, raw: Bytes, report: Report)
    requires Json.Parse(raw).Some? && Json.Parse(raw).value.Object? && !IsClaimObject(Json.Parse(raw).value.fields)
    requires lib.readJson(raw) == Some(report)
    ensures DecodeJsonRecord(lib, raw) == Ok(ReadReport(report))
  {
  }

  lemma {:induction false} ReportDecodes<Id(!new), Report(!new)>(lib: Library<Id, Report>, enc: Encoding,
                                                                 report: Report)
    requires Lawful(lib)
    ensures Decodes(lib, enc, MarshalReport(lib, enc, report), ReadReport(report))
  {
    if enc == CBOR {
      CborReportDecodes(lib, lib.reportCbor(report), report);
    } else {
      JsonReportDecodes(lib, lib.reportJson(report), report);
    }
  }

  // --- lists of records -------------------------------------------------------------------

  /** `Decodes` as a relation of its own, so that what holds of lists of records need not look inside it. */
  ghost function Decoding<Id, Report>(lib: Library<Id, Report>, enc: Encoding): (Bytes, Reading<Id, Report>) -> bool {
    (p, x) => Decodes(lib, enc, p, x)
  }

  /** The two lists agree entry by entry. */
  ghost predicate Related<X>(d: (Bytes, X) -> bool, ps: seq<Bytes>, xs: seq<X>) {
    if ps == [] then xs == []
    else xs != [] && d(ps[0], xs[0]) && Related(d, ps[1..], xs[1..])
  }

  lemma {:induction false} RelatedAppend<X>(d: (Bytes, X) -> bool, ps: seq<Bytes>, xs: seq<X>, qs: seq<Bytes>,
                                            ys: seq<X>)
    requires Related(d, ps, xs) && Related(d, qs, ys)
    ensures Related(d, ps + qs, xs + ys)
  {
    if ps == [] {
      assert ps + qs == qs && xs + ys == ys;
    } else {
      RelatedAppend(d, ps[1..], xs[1..], qs, ys);
      assert (ps + qs)[1..] == ps[1..] + qs && (xs + ys)[1..] == xs[1..] + ys;
    }
  }

  /** The payloads decode, one by one, to the readings. */
  ghost predicate AllDecode<Id, Report>(lib: Library<Id, Report>, enc: Encoding, ps: seq<Bytes>,
                                        xs: seq<Reading<Id, Report>>) {
    Related(Decoding(lib, enc), ps, xs)
  }

  lemma AllDecodeOne<Id, Report>(lib: Library<Id, Report>, enc: Encoding, p: Bytes, x: Reading<Id, Report>)
    requires Decodes(lib, enc, p, x)
    ensures AllDecode(lib, enc, [p], [x])
  {
  }

  lemma {:induction false} ClaimsDecode<Id, Report>(lib: Library<Id, Report>, enc: Encoding, bs: seq<Bytes>)
    requires forall i | 0 <= i < |bs| :: (if enc == CBOR then CborClaim(bs[i]) else JsonClaim(bs[i]))
    ensures AllDecode(lib, enc, bs, ClaimsOf(bs))
  {
    if bs != [] {
      ClaimsDecode(lib, enc, bs[1..]);
      ClaimDecodes(lib, enc, bs[0]);
    }
  }

  lemma {:induction false} EnvelopesDecode<Id, Report>(lib: Library<Id, Report>, bs: seq<Bytes>)
    requires forall i | 0 <= i < |bs| :: Envelope(lib, bs[i])
    ensures AllDecode(lib, CBOR, bs, EnvelopesOf(bs))
  {
    if bs != [] {
      EnvelopesDecode(lib, bs[1..]);
      EnvelopeDecodes(lib, bs[0]);
    }
  }

  lemma {:induction false} ResultDecodes<Id(!new), Report(!new)>(lib: Library<Id, Report>, enc: Encoding,
                                                                 r: QueryResult<Id>)
    requires Lawful(lib) && Sound(lib, enc, r)
    ensures AllDecode(lib, enc, Payloads(lib, enc, r), Readings(r))
  {
    match r
    case ClaimId(id) =>
      if enc == CBOR { CborIdDecodes(lib, id); } else { JsonIdDecodes(lib, id); }
    case PathId(ids) =>
      if enc == CBOR { CborRouteDecodes(lib, ids); } else { JsonRouteDecodes(lib, ids); }
    case ClaimEncoded(b) => ClaimDecodes(lib, enc, b);
    case PathEncoded(bs) => ClaimsDecode(lib, enc, bs);
    case ClaimEnvelope(b) => EnvelopeDecodes(lib, b);
    case PathEnvelope(bs) => EnvelopesDecode(lib, bs);
    case ReportElement =>
  }

  lemma {:induction false} SentDecodes<Id(!new), Report(!new)>(lib: Library<Id, Report>, enc: Encoding,
                                                               rs: seq<QueryResult<Id>>)
    requires Lawful(lib) && forall i | 0 <= i < |rs| :: Sound(lib, enc, rs[i])
    ensures AllDecode(lib, enc, Sent(lib, enc, rs), AllReadings(rs))
  {
    if rs != [] {
      ResultDecodes(lib, enc, rs[0]);
      SentDecodes(lib, enc, rs[1..]);
      RelatedAppend(Decoding(lib, enc), Payloads(lib, enc, rs[0]), Readings(rs[0]), Sent(lib, enc, rs[1..]),
                    AllReadings(rs[1..]));
    }
  }

  /** Decoding after framing: the records split apart again, then read one by one. */
  lemma {:induction false} DecodeAllOf<Id, Report>(lib: Library<Id, Report>, enc: Encoding, ps: seq<Bytes>,
                                                   xs: seq<Reading<Id, Report>>)
    requires AllDecode(lib, enc, ps, xs)
    ensures DecodeAll(lib, enc, ps) == Ok(xs)
  {
    if ps != [] {
      DecodeAllOf(lib, enc, ps[1..], xs[1..]);
      DecodesHead(lib, enc, ps, xs);
      assert xs == [xs[0]] + xs[1..];
    }
  }

  lemma {:induction false} DecodesHead<Id, Report>(lib: Library<Id, Report>, enc: Encoding, ps: seq<Bytes>,
                                                   xs: seq<Reading<Id, Report>>)
    requires AllDecode(lib, enc, ps, xs) && ps != []
    ensures xs != [] && DecodeRecord(lib, enc, ps[0]) == Ok(xs[0]) && Splits(enc, ps[0])
  {
    assert Decoding(lib, enc)(ps[0], xs[0]);
  }

  lemma {:induction false} AllSplit<Id, Report>(lib: Library<Id, Report>, enc: Encoding, ps: seq<Bytes>,
                                                xs: seq<Reading<Id, Report>>)
    requires AllDecode(lib, enc, ps, xs)
    ensures forall i | 0 <= i < |ps| :: Splits(enc, ps[i])
  {
    if ps != [] {
      AllSplit(lib, enc, ps[1..], xs[1..]);
      DecodesHead(lib, enc, ps, xs);
    }
  }

  lemma {:induction false} FramesAreFramings(ps: seq<Bytes>)
    ensures Frames(JSON, ps) == JsonFrames(ps) && Frames(CBOR, ps) == Concat(ps)
  {
    if ps != [] {
      FramesAreFramings(ps[1..]);
    }
  }

  lemma {:induction false} ReadBodyOfFrames<Id, Report>(lib: Library<Id, Report>, enc: Encoding, ps: seq<Bytes>,
                                                        xs: seq<Reading<Id, Report>>)
    requires AllDecode(lib, enc, ps, xs)
    ensures ReadBody(lib, enc, Frames(enc, ps)) == Ok(xs)
  {
    FramesAreFramings(ps);
    DecodeAllOf(lib, enc, ps, xs);
    AllSplit(lib, enc, ps, xs);
    assert forall i | 0 <= i < |ps| :: Splits(enc, ps[i]) ==>
                                         if enc == CBOR then Cbor.WellFormed(ps[i]) else JsonRecord(ps[i]);
    if enc == CBOR {
      Cbor.SplitOfConcat(ps);
    } else {
      JsonRecordsOfFrames(ps);
    }
  }

  // --- the theorems ---------------------------------------------------------------------------

  /** The bytes a stream that does not break puts on the wire. */
  function Body<Id, Report>(lib: Library<Id, Report>, enc: Encoding, rs: seq<QueryResult<Id>>,
                            report: Option<Report>): Bytes {
    Frames(enc, Served(lib, enc, ResultStream(rs, false, report)).0)
  }

  /** Kinds, payloads and order survive the wire, and the report comes exactly once and last. */
  lemma {:induction false} WhatIsServedIsRead<Id(!new), Report(!new)>(
    lib: Library<Id, Report>, enc: Encoding, rs: seq<QueryResult<Id>>, report: Option<Report>)
    requires Lawful(lib) && forall i | 0 <= i < |rs| :: Sound(lib, enc, rs[i])
    ensures ReadBody(lib, enc, Body(lib, enc, rs, report)) == Ok(AllReadings(rs) + ReportReading(report))
  {
    BodyIs(lib, enc, rs, report);
    SentDecodes(lib, enc, rs);
    ReportPayloadDecodes(lib, enc, report);
    RelatedAppend(Decoding(lib, enc), Sent(lib, enc, rs), AllReadings(rs), ReportPayload(lib, enc, report),
                  ReportReading(report));
    ReadBodyOfFrames(lib, enc, Sent(lib, enc, rs) + ReportPayload(lib, enc, report),
                     AllReadings(rs) + ReportReading(report));
  }

  function ReportPayload<Id, Report>(lib: Library<Id, Report>, enc: Encoding, report: Option<Report>): seq<Bytes> {
    if report.None? then [] else [MarshalReport(lib, enc, report.value)]
  }

  lemma BodyIs<Id, Report>(lib: Library<Id, Report>, enc: Encoding, rs: seq<QueryResult<Id>>, report: Option<Report>)
    requires forall i | 0 <= i < |rs| :: Sound(lib, enc, rs[i])
    ensures Body(lib, enc, rs, report) == Frames(enc, Sent(lib, enc, rs) + ReportPayload(lib, enc, report))
  {
    assert Serializable(rs) by {
      forall i | 0 <= i < |rs| ensures !rs[i].Native? {
        assert Sound(lib, enc, rs[i]);
      }
    }
    assert Sent(lib, enc, rs) + [] == Sent(lib, enc, rs);
  }

  lemma ReportPayloadDecodes<Id(!new), Report(!new)>(lib: Library<Id, Report>, enc: Encoding, report: Option<Report>)
    requires Lawful(lib)
    ensures AllDecode(lib, enc, ReportPayload(lib, enc, report), ReportReading(report))
  {
    if report.Some? {
      ReportDecodes(lib, enc, report.value);
      AllDecodeOne(lib, enc, MarshalReport(lib, enc, report.value), ReadReport(report.value));
    }
  }

  /** The kinds of result an output asks for, the report's own element aside. */
  predicate Produces<Id>(out: Output, r: QueryResult<Id>) {
    if out.shape == ShapePath then
      if out.detail == DetailId then r.PathId? else if out.detail == DetailEnvelope then r.PathEnvelope?
      else r.PathEncoded?
    else
    if out.detail == DetailId then r.ClaimId? else if out.detail == DetailEnvelope then r.ClaimEnvelope?
    else r.ClaimEncoded?
  }

  ghost predicate Answers<Id, Report>(lib: Library<Id, Report>, enc: Encoding, out: Output, rs: seq<QueryResult<Id>>) {
    forall i | 0 <= i < |rs| :: Sound(lib, enc, rs[i]) && Produces(out, rs[i])
  }

  /** On such an output every result is one reading. */
  lemma {:induction false} OneReadingEach<Id, Report>(out: Output, rs: seq<QueryResult<Id>>)
    requires RoutesAreReadable(out) && forall i | 0 <= i < |rs| :: Produces(out, rs[i])
    ensures |AllReadings<Id, Report>(rs)| == |rs|
  {
    if rs != [] {
      OneReadingEach<Id, Report>(out, rs[1..]);
      assert |Readings<Id, Report>(rs[0])| == 1;
    }
  }

  lemma {:induction false} ReadingsTellResultsApart<Id, Report>(out: Output, rs: seq<QueryResult<Id>>,
                                                                qs: seq<QueryResult<Id>>)
    requires RoutesAreReadable(out)
    requires forall i | 0 <= i < |rs| :: Produces(out, rs[i])
    requires forall i | 0 <= i < |qs| :: Produces(out, qs[i])
    requires AllReadings<Id, Report>(rs) == AllReadings<Id, Report>(qs)
    ensures rs == qs
  {
    OneReadingEach<Id, Report>(out, rs);
    OneReadingEach<Id, Report>(out, qs);
    if rs != [] {
      var xs, ys := AllReadings<Id, Report>(rs), AllReadings<Id, Report>(qs);
      assert Readings<Id, Report>(rs[0]) == [xs[0]] && Readings<Id, Report>(qs[0]) == [ys[0]];
      assert xs[1..] == AllReadings(rs[1..]) && ys[1..] == AllReadings(qs[1..]);
      ReadingsTellResultsApart<Id, Report>(out, rs[1..], qs[1..]);
    }
  }

  lemma {:induction false} NoReportAmongReadings<Id, Report>(rs: seq<QueryResult<Id>>)
    ensures forall i | 0 <= i < |AllReadings<Id, Report>(rs)| :: !AllReadings<Id, Report>(rs)[i].ReadReport?
  {
    if rs != [] {
      NoReportAmongReadings<Id, Report>(rs[1..]);
      if rs[0].PathEncoded? { NoReportAmongClaims<Id, Report>(rs[0].claims); }
      if rs[0].PathEnvelope? { NoReportAmongClaims<Id, Report>(rs[0].claims); }
    }
  }

  lemma {:induction false} NoReportAmongClaims<Id, Report>(bs: seq<Bytes>)
    ensures forall i | 0 <= i < |ClaimsOf<Id, Report>(bs)| :: ClaimsOf<Id, Report>(bs)[i].ReadClaim?
    ensures forall i | 0 <= i < |EnvelopesOf<Id, Report>(bs)| :: EnvelopesOf<Id, Report>(bs)[i].ReadEnvelope?
  {
    if bs != [] {
      NoReportAmongClaims<Id, Report>(bs[1..]);
    }
  }

  lemma ReportTellsItselfApart<Id, Report>(xs: seq<Reading<Id, Report>>, p: Option<Report>,
                                           ys: seq<Reading<Id, Report>>, q: Option<Report>)
    requires forall i | 0 <= i < |xs| :: !xs[i].ReadReport?
    requires forall i | 0 <= i < |ys| :: !ys[i].ReadReport?
    requires xs + ReportReading(p) == ys + ReportReading(q)
    ensures xs == ys && p == q
  {
    var all := xs + ReportReading(p);
    assert p.Some? <==> all != [] && all[|all| - 1].ReadReport?;
    assert q.Some? <==> all != [] && all[|all| - 1].ReadReport?;
    assert p.Some? ==> all[|all| - 1] == ReadReport(p.value) == ReadReport(q.value);
    assert xs == all[..|xs|] && ys == all[..|ys|];
  }

  /** On an output the reader accepts, the bytes determine the result list and the report. */
  lemma {:induction false} BytesDetermineResults<Id(!new), Report(!new)>(
    lib: Library<Id, Report>, enc: Encoding, out: Output,
    rs: seq<QueryResult<Id>>, p: Option<Report>, qs: seq<QueryResult<Id>>, q: Option<Report>)
    requires Lawful(lib) && RoutesAreReadable(out) && Answers(lib, enc, out, rs) && Answers(lib, enc, out, qs)
    requires Body(lib, enc, rs, p) == Body(lib, enc, qs, q)
    ensures rs == qs && p == q
  {
    SameBodySameReadings(lib, enc, rs, p, qs, q);
    ReadingsTellResultsApart<Id, Report>(out, rs, qs);
  }

  /** The claims of a route, each a result of its own. */
  function Each<Id>(envelope: bool, bs: seq<Bytes>): seq<QueryResult<Id>> {
    if bs == [] then [] else [if envelope then ClaimEnvelope(bs[0]) else ClaimEncoded(bs[0])] + Each(envelope, bs[1..])
  }

  function Singly<Id>(r: QueryResult<Id>): seq<QueryResult<Id>> {
    if r.PathEncoded? || r.PathEnvelope? then Each(r.PathEnvelope?, r.claims) else [r]
  }

  /** The results with every route of claims taken apart. */
  function Ungrouped<Id>(rs: seq<QueryResult<Id>>): seq<QueryResult<Id>> {
    if rs == [] then [] else Singly(rs[0]) + Ungrouped(rs[1..])
  }

  lemma SentCons<Id, Report>(lib: Library<Id, Report>, enc: Encoding, r: QueryResult<Id>, rest: seq<QueryResult<Id>>)
    requires !r.Native?
    ensures Sent(lib, enc, [r] + rest) == Payloads(lib, enc, r) + Sent(lib, enc, rest)
  {
    assert ([r] + rest)[1..] == rest;
  }

  lemma {:induction false} SentOfEach<Id, Report>(
    lib: Library<Id, Report>, enc: Encoding, envelope: bool, bs: seq<Bytes>, rest: seq<QueryResult<Id>>)
    ensures Sent(lib, enc, Each(envelope, bs) + rest) == bs + Sent(lib, enc, rest)
  {
    if bs == [] {
      assert Each<Id>(envelope, bs) + rest == rest;
    } else {
      var x: QueryResult<Id> := if envelope then ClaimEnvelope(bs[0]) else ClaimEncoded(bs[0]);
      var tail := Each<Id>(envelope, bs[1..]);
      SentOfEach(lib, enc, envelope, bs[1..], rest);
      Regroup([x], tail, rest);
      SentCons(lib, enc, x, tail + rest);
      Regroup([bs[0]], bs[1..], Sent(lib, enc, rest));
      assert bs == [bs[0]] + bs[1..];
    }
  }

  lemma {:induction false} SentOfUngrouped<Id, Report>(lib: Library<Id, Report>, enc: Encoding,
                                                       rs: seq<QueryResult<Id>>)
    ensures Sent(lib, enc, Ungrouped(rs)) == Sent(lib, enc, rs)
  {
    if rs != [] {
      var rest := Ungrouped(rs[1..]);
      SentOfUngrouped(lib, enc, rs[1..]);
      if rs[0].PathEncoded? || rs[0].PathEnvelope? {
        SentOfEach(lib, enc, rs[0].PathEnvelope?, rs[0].claims, rest);
      } else if !rs[0].Native? {
        SentCons(lib, enc, rs[0], rest);
      }
    }
  }

  lemma {:induction false} EachCarriesBytes<Id>(envelope: bool, bs: seq<Bytes>)
    ensures Native !in Each<Id>(envelope, bs)
  {
    if bs != [] {
      EachCarriesBytes<Id>(envelope, bs[1..]);
    }
  }

  lemma {:induction false} UngroupedCarryBytes<Id>(rs: seq<QueryResult<Id>>)
    ensures Native in Ungrouped(rs) <==> Native in rs
  {
    if rs != [] {
      UngroupedCarryBytes(rs[1..]);
      assert rs == [rs[0]] + rs[1..];
      if rs[0].PathEncoded? || rs[0].PathEnvelope? {
        EachCarriesBytes<Id>(rs[0].PathEnvelope?, rs[0].claims);
      }
    }
  }

  /** Streams that differ only in how their claims are grouped into routes put the same bytes on the wire. */
  lemma {:induction false} GroupingIsInvisible<Id, Report>(
    lib: Library<Id, Report>, enc: Encoding, rs: seq<QueryResult<Id>>, qs: seq<QueryResult<Id>>, report: Option<Report>)
    requires Ungrouped(rs) == Ungrouped(qs)
    ensures Body(lib, enc, rs, report) == Body(lib, enc, qs, report)
  {
    SentOfUngrouped(lib, enc, rs);
    SentOfUngrouped(lib, enc, qs);
    UngroupedCarryBytes(rs);
    UngroupedCarryBytes(qs);
    assert Serializable(rs) <==> Native !in rs;
    assert Serializable(qs) <==> Native !in qs;
  }

  lemma {:induction false} EachAppend<Id>(envelope: bool, a: seq<Bytes>, b: seq<Bytes>)
    ensures Each<Id>(envelope, a + b) == Each<Id>(envelope, a) + Each<Id>(envelope, b)
  {
    if a == [] {
      assert a + b == b;
    } else {
      assert (a + b)[1..] == a[1..] + b;
      EachAppend<Id>(envelope, a[1..], b);
    }
  }

  /** A route under an output that is refused. */
  function Route<Id>(out: Output, bs: seq<Bytes>): QueryResult<Id> {
    if out.detail == DetailEnvelope then PathEnvelope(bs) else PathEncoded(bs)
  }

  lemma UngroupedRoutes<Id>(out: Output, a: seq<Bytes>, b: seq<Bytes>)
    ensures Ungrouped([Route<Id>(out, a), Route<Id>(out, b)]) == Ungrouped([Route<Id>(out, a + b)])
  {
    EachAppend<Id>(out.detail == DetailEnvelope, a, b);
    var x, y, z := Route<Id>(out, a), Route<Id>(out, b), Route<Id>(out, a + b);
    assert [x, y][1..] == [y] && [y][1..] == [] && [z][1..] == [];
    assert Ungrouped([y]) == Singly(y) + [] == Singly(y);
    assert Ungrouped([z]) == Singly(z) + [] == Singly(z);
  }

  /** Every output the reader refuses has two different answers with the same bytes; no other output has. */
  lemma {:induction false} RefusedOutputsAreAmbiguous<Id(!new), Report(!new)>(
    lib: Library<Id, Report>, enc: Encoding, out: Output, a: seq<Bytes>, b: seq<Bytes>, report: Option<Report>)
    requires !RoutesAreReadable(out) && Sound(lib, enc, Route<Id>(out, a)) && Sound(lib, enc, Route<Id>(out, b))
    ensures var rs, qs := [Route<Id>(out, a), Route<Id>(out, b)], [Route<Id>(out, a + b)];
            && rs != qs
            && Answers(lib, enc, out, rs) && Answers(lib, enc, out, qs)
            && Body(lib, enc, rs, report) == Body(lib, enc, qs, report)
  {
    UngroupedRoutes<Id>(out, a, b);
    GroupingIsInvisible(lib, enc, [Route<Id>(out, a), Route<Id>(out, b)], [Route<Id>(out, a + b)], report);
    assert Sound(lib, enc, Route<Id>(out, a + b));
  }

  lemma {:induction false} EnvelopesRead<Id, Report>(bs: seq<Bytes>)
    ensures AllReadings<Id, Report>(Each(true, bs)) == EnvelopesOf(bs)
  {
    if bs != [] {
      EnvelopesRead<Id, Report>(bs[1..]);
      assert Each<Id>(true, bs)[1..] == Each<Id>(true, bs[1..]);
    }
  }

  lemma {:induction false} EachIsSound<Id, Report>(lib: Library<Id, Report>, bs: seq<Bytes>)
    requires forall i | 0 <= i < |bs| :: Envelope(lib, bs[i])
    ensures forall i | 0 <= i < |Each<Id>(true, bs)| :: Sound(lib, CBOR, Each<Id>(true, bs)[i])
  {
    if bs != [] {
      EachIsSound(lib, bs[1..]);
    }
  }

  /** Stored records served one by one come back as they are, every one and in order. */
  lemma {:induction false} StoredRecordsAreRead<Id(!new), Report(!new)>(lib: Library<Id, Report>, claims: seq<Bytes>)
    requires Lawful(lib) && forall i | 0 <= i < |claims| :: Envelope(lib, claims[i])
    ensures ReadBody(lib, CBOR, Body(lib, CBOR, Each<Id>(true, claims), None)) == Ok(EnvelopesOf(claims))
  {
    EachIsSound(lib, claims);
    WhatIsServedIsRead(lib, CBOR, Each<Id>(true, claims), None);
    EnvelopesRead<Id, Report>(claims);
    assert EnvelopesOf<Id, Report>(claims) + [] == EnvelopesOf<Id, Report>(claims);
  }

  // --- all that the wire loses ----------------------------------------------------------------

  /** The results without the stream's own report elements, which are never written as such. */
  function Results<Id>(rs: seq<QueryResult<Id>>): seq<QueryResult<Id>> {
    if rs == [] then [] else (if rs[0].ReportElement? then [] else [rs[0]]) + Results(rs[1..])
  }

  predicate Single<Id>(r: QueryResult<Id>) {
    r.ClaimId? || r.PathId? || r.ClaimEncoded? || r.ClaimEnvelope?
  }

  ghost predicate AllSingle<Id>(rs: seq<QueryResult<Id>>) {
    forall i | 0 <= i < |rs| :: Single(rs[i])
  }

  lemma {:induction false} SentOfResults<Id, Report>(lib: Library<Id, Report>, enc: Encoding, rs: seq<QueryResult<Id>>)
    requires Native !in rs
    ensures Sent(lib, enc, Results(rs)) == Sent(lib, enc, rs) && Native !in Results(rs)
  {
    if rs != [] {
      assert rs == [rs[0]] + rs[1..];
      SentOfResults(lib, enc, rs[1..]);
      if rs[0].ReportElement? {
        SentSkip(lib, enc, rs, 0);
        assert rs[0..] == rs;
        assert [] + Results(rs[1..]) == Results(rs[1..]);
      } else {
        SentCons(lib, enc, rs[0], Results(rs[1..]));
      }
    }
  }

  lemma {:induction false} AllReadingsAppend<Id, Report>(a: seq<QueryResult<Id>>, b: seq<QueryResult<Id>>)
    ensures AllReadings<Id, Report>(a + b) == AllReadings(a) + AllReadings(b)
  {
    if a == [] {
      assert a + b == b;
      assert [] + AllReadings<Id, Report>(b) == AllReadings(b);
    } else {
      assert (a + b)[1..] == a[1..] + b;
      AllReadingsAppend<Id, Report>(a[1..], b);
      Regroup(Readings<Id, Report>(a[0]), AllReadings(a[1..]), AllReadings(b));
    }
  }

  lemma {:induction false} EachReads<Id, Report>(envelope: bool, bs: seq<Bytes>)
    ensures AllReadings<Id, Report>(Each(envelope, bs)) == if envelope then EnvelopesOf(bs) else ClaimsOf(bs)
    ensures AllSingle(Each<Id>(envelope, bs))
  {
    if bs != [] {
      EachReads<Id, Report>(envelope, bs[1..]);
      assert Each<Id>(envelope, bs)[1..] == Each<Id>(envelope, bs[1..]);
    }
  }

  lemma {:induction false} SinglyReads<Id, Report>(r: QueryResult<Id>)
    requires !r.Native? && !r.ReportElement?
    ensures AllReadings<Id, Report>(Singly(r)) == Readings(r) && AllSingle(Singly(r))
  {
    if r.PathEncoded? || r.PathEnvelope? {
      EachReads<Id, Report>(r.PathEnvelope?, r.claims);
    } else {
      assert [r][1..] == [];
      assert AllReadings<Id, Report>([r]) == Readings(r) + [];
    }
  }

  /** Taking routes apart and dropping report elements changes no reading. */
  lemma {:induction false} UngroupedRead<Id, Report>(rs: seq<QueryResult<Id>>)
    requires Native !in rs
    ensures AllReadings<Id, Report>(Ungrouped(Results(rs))) == AllReadings(rs) && AllSingle(Ungrouped(Results(rs)))
  {
    if rs != [] {
      assert rs == [rs[0]] + rs[1..];
      UngroupedRead<Id, Report>(rs[1..]);
      var rest := Results(rs[1..]);
      if rs[0].ReportElement? {
        assert Results(rs) == [] + rest == rest;
        assert AllReadings<Id, Report>(rs) == [] + AllReadings(rs[1..]) == AllReadings(rs[1..]);
      } else {
        assert Results(rs)[1..] == rest;
        SinglyReads<Id, Report>(rs[0]);
        AllReadingsAppend<Id, Report>(Singly(rs[0]), Ungrouped(rest));
      }
    }
  }

  lemma {:induction false} OneReadingPerSingle<Id, Report>(rs: seq<QueryResult<Id>>)
    requires AllSingle(rs)
    ensures |AllReadings<Id, Report>(rs)| == |rs|
  {
    if rs != [] {
      OneReadingPerSingle<Id, Report>(rs[1..]);
    }
  }

  lemma {:induction false} ReadingsTellSinglesApart<Id, Report>(rs: seq<QueryResult<Id>>, qs: seq<QueryResult<Id>>)
    requires AllSingle(rs) && AllSingle(qs) && AllReadings<Id, Report>(rs) == AllReadings<Id, Report>(qs)
    ensures rs == qs
  {
    OneReadingPerSingle<Id, Report>(rs);
    OneReadingPerSingle<Id, Report>(qs);
    if rs != [] {
      var xs, ys := AllReadings<Id, Report>(rs), AllReadings<Id, Report>(qs);
      assert Readings<Id, Report>(rs[0]) == [xs[0]] && Readings<Id, Report>(qs[0]) == [ys[0]];
      assert xs[1..] == AllReadings(rs[1..]) && ys[1..] == AllReadings(qs[1..]);
      ReadingsTellSinglesApart<Id, Report>(rs[1..], qs[1..]);
    }
  }

  lemma BodyOfUngrouped<Id, Report>(lib: Library<Id, Report>, enc: Encoding, rs: seq<QueryResult<Id>>,
                                    report: Option<Report>)
    requires Native !in rs
    ensures Body(lib, enc, Ungrouped(Results(rs)), report) == Body(lib, enc, rs, report)
  {
    SentOfResults(lib, enc, rs);
    SentOfUngrouped(lib, enc, Results(rs));
    UngroupedCarryBytes(Results(rs));
    assert Serializable(rs) && Serializable(Ungrouped(Results(rs)));
  }

  lemma SoundCarryBytes<Id, Report>(lib: Library<Id, Report>, enc: Encoding, rs: seq<QueryResult<Id>>)
    requires forall i | 0 <= i < |rs| :: Sound(lib, enc, rs[i])
    ensures Native !in rs
  {
    forall i | 0 <= i < |rs| ensures !rs[i].Native? {
      assert Sound(lib, enc, rs[i]);
    }
  }

  /**
   Two streams put the same bytes on the wire exactly when their reports are equal and so are
   their results, how claims are grouped into routes aside: that is all the wire loses.
   */
  lemma {:induction false} GroupingIsAllThatIsLost<Id(!new), Report(!new)>(
    lib: Library<Id, Report>, enc: Encoding,
    rs: seq<QueryResult<Id>>, p: Option<Report>, qs: seq<QueryResult<Id>>, q: Option<Report>)
    requires Lawful(lib)
    requires forall i | 0 <= i < |rs| :: Sound(lib, enc, rs[i])
    requires forall i | 0 <= i < |qs| :: Sound(lib, enc, qs[i])
    ensures Body(lib, enc, rs, p) == Body(lib, enc, qs, q) <==>
            p == q && Ungrouped(Results(rs)) == Ungrouped(Results(qs))
  {
    SoundCarryBytes(lib, enc, rs);
    SoundCarryBytes(lib, enc, qs);
    BodyOfUngrouped(lib, enc, rs, p);
    BodyOfUngrouped(lib, enc, qs, q);
    if Body(lib, enc, rs, p) == Body(lib, enc, qs, q) {
      SameBodySameReadings(lib, enc, rs, p, qs, q);
      UngroupedRead<Id, Report>(rs);
      UngroupedRead<Id, Report>(qs);
      ReadingsTellSinglesApart<Id, Report>(Ungrouped(Results(rs)), Ungrouped(Results(qs)));
    }
  }

  lemma {:induction false} SameBodySameReadings<Id(!new), Report(!new)>(
    lib: Library<Id, Report>, enc: Encoding,
    rs: seq<QueryResult<Id>>, p: Option<Report>, qs: seq<QueryResult<Id>>, q: Option<Report>)
    requires Lawful(lib) && Body(lib, enc, rs, p) == Body(lib, enc, qs, q)
    requires forall i | 0 <= i < |rs| :: Sound(lib, enc, rs[i])
    requires forall i | 0 <= i < |qs| :: Sound(lib, enc, qs[i])
    ensures AllReadings<Id, Report>(rs) == AllReadings(qs) && p == q
  {
    WhatIsServedIsRead(lib, enc, rs, p);
    WhatIsServedIsRead(lib, enc, qs, q);
    NoReportAmongReadings<Id, Report>(rs);
    NoReportAmongReadings<Id, Report>(qs);
    ReportTellsItselfApart<Id, Report>(AllReadings(rs), p, AllReadings(qs), q);
  }
}
