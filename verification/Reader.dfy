/**
 Reading a response back (client/seq.go, client/read.go): the wire carries no tag, so a
 record's kind is inferred from its bytes.
 */
module Reader {
  import opened Bytes
  import opened Framing
  import Json
  import Cbor
  import opened Serve

  /** A record read back. */
  datatype Reading<Id, Report> =
    | ReadId(id: Id)
    | ReadRoute(ids: seq<Id>)
    | ReadClaim(raw: Bytes)
    | ReadEnvelope(raw: Bytes)
    | ReadReport(report: Report)

  /** "type" and "created_at", which together mark a JSON record as a claim. */
  const TYPE_KEY: Bytes := [0x74, 0x79, 0x70, 0x65]
  const DATE_KEY: Bytes := [0x63, 0x72, 0x65, 0x61, 0x74, 0x65, 0x64, 0x5f, 0x61, 0x74]

  // --- JSON records ----------------------------------------------------------------

  /** The ids a JSON list names: the first entry that is no string, or no id, decides the error. */
  function JsonIds<Id, Report>(lib: Library<Id, Report>, entries: seq<Json.Json>): Result<seq<Id>, ReadError> {
    if entries == [] then Ok([])
    else if !entries[0].Text? then Err(UnknownFraming)
    else
      match lib.parse(entries[0].text)
      case None => Err(BadId)
      case Some(id) => Prepend([id], JsonIds(lib, entries[1..]))
  }

  method CollectJsonIds<Id, Report>(lib: Library<Id, Report>, entries: seq<Json.Json>)
    returns (r: Result<seq<Id>, ReadError>)
    ensures r == JsonIds(lib, entries)
  {
    var ids: seq<Id> := [];
    var i := 0;
    assert entries[0..] == entries;
    PrependNone(JsonIds(lib, entries));
    while i < |entries|
      invariant i <= |entries|
      invariant JsonIds(lib, entries)
             == Prepend(ids, JsonIds(lib, entries[i..]))
    {
      assert entries[i..][1..] == entries[i + 1..];
      if !entries[i].Text? {
        return Err(UnknownFraming);
      }
      match lib.parse(entries[i].text) {
        case None =>
          return Err(BadId);
        case Some(id) =>
          PrependOne(ids, id, JsonIds(lib, entries[i + 1..]));
          ids := ids + [id];
      }
      i := i + 1;
    }
    assert ids + [] == ids;
    r := Ok(ids);
  }

  predicate IsClaimObject(fields: seq<Json.Field>) {
    TYPE_KEY in Json.Keys(fields) && DATE_KEY in Json.Keys(fields)
  }

  function DecodeJsonRecord<Id, Report>(lib: Library<Id, Report>, raw: Bytes): Result<Reading<Id, Report>, ReadError> {
    match Json.Parse(raw)
    case None => Err(UnknownFraming)
    case Some(Text(s)) =>
      (match lib.parse(s)
       case None => Err(BadId)
       case Some(id) => Ok(ReadId(id)))
    case Some(List(entries)) =>
      (match JsonIds(lib, entries)
       case Err(e) => Err(e)
       case Ok(ids) => Ok(ReadRoute(ids)))
    case Some(Object(fields)) =>
      if IsClaimObject(fields) then Ok(ReadClaim(raw))
      else
        (match lib.readJson(raw)
         case None => Err(UnknownFraming)
         case Some(report) => Ok(ReadReport(report)))
    case Some(_) => Err(UnknownFraming)
  }

  /** The bytes of an ASCII text. */
  function Spelt(text: string): (s: Bytes)
    ensures |s| == |text| && forall i | 0 <= i < |s| && text[i] < 128 as char :: s[i] == text[i] as int
  {
    if text == "" then []
    else
      var b: Byte := if text[0] < 128 as char then text[0] as int else 0;
      [b] + Spelt(text[1..])
  }

  lemma KeysAreSpelt()
    ensures Spelt("type") == TYPE_KEY && Spelt("created_at") == DATE_KEY
  {
    TextsAgree("type", TYPE_KEY);
    TextsAgree("created_at", DATE_KEY);
  }

  lemma TextsAgree(text: string, s: Bytes)
    requires |text| == |s| && forall i | 0 <= i < |s| :: text[i] < 128 as char && s[i] == text[i] as int
    ensures Spelt(text) == s
  {
  }

  /** An object with both keys, whatever else it holds, is a claim; any other is for the report's reader. */
  lemma ObjectsByKey<Id, Report>(lib: Library<Id, Report>, raw: Bytes, fields: seq<Json.Field>, typed: Bytes,
                                 dated: Bytes)
    requires Json.Parse(raw) == Some(Json.Object(fields)) && typed == Spelt("type") && dated == Spelt("created_at")
    ensures DecodeJsonRecord(lib, raw)
         == if typed in Json.Keys(fields) && dated in Json.Keys(fields) then Ok(ReadClaim(raw))
            else if lib.readJson(raw).None? then Err(UnknownFraming)
            else Ok(ReadReport(lib.readJson(raw).value))
  {
    assert typed == TYPE_KEY && dated == DATE_KEY by { KeysAreSpelt(); }
    ObjectDecodes(lib, raw, fields);
  }

  lemma ObjectDecodes<Id, Report>(lib: Library<Id, Report>, raw: Bytes, fields: seq<Json.Field>)
    requires Json.Parse(raw) == Some(Json.Object(fields))
    ensures DecodeJsonRecord(lib, raw)
         == if IsClaimObject(fields) then Ok(ReadClaim(raw))
            else if lib.readJson(raw).None? then Err(UnknownFraming)
            else Ok(ReadReport(lib.readJson(raw).value))
  {
  }

  // --- CBOR records ------------------------------------------------------------------

  /** What the reader takes for the first key of a map: the byte after its head. */
  function FirstMapKeyMajor(raw: Bytes): Option<nat>
    requires raw != []
  {
    var info := raw[0] % 32;
    if !(info < 24 || info == 31) && info !in {24, 25, 26, 27} then None
    else
      var header := if info == 24 then 2 else if info == 25 then 3 else if info == 26 then 5 else if info == 27 then 9
                    else 1;
      if |raw| <= header then None else Some(raw[header] / 32)
  }

  /** The text of a string item, its chunks joined. */
  function ItemText(x: Cbor.Item): Bytes {
    match x
    case Str(_, data) => data
    case OpenStr(_, items) => ChunkText(items)
    case _ => []
  }

  function ChunkText(chunks: seq<Cbor.Item>): Bytes {
    if chunks == [] then [] else (if chunks[0].Str? then chunks[0].data else []) + ChunkText(chunks[1..])
  }

  /** The strings of an array, or nothing when one of its items is no text string. */
  function Names(items: seq<Cbor.Item>): Option<seq<Bytes>> {
    if items == [] then Some([])
    else if items[0].Major() != Cbor.TEXT then None
    else
      match Names(items[1..])
      case None => None
      case Some(tail) => Some([ItemText(items[0])] + tail)
  }

  function ParseIds<Id, Report>(lib: Library<Id, Report>, names: seq<Bytes>): Result<seq<Id>, ReadError> {
    if names == [] then Ok([])
    else
      match lib.parse(names[0])
      case None => Err(BadId)
      case Some(id) => Prepend([id], ParseIds(lib, names[1..]))
  }

  function DecodeCborRecord<Id, Report>(lib: Library<Id, Report>, raw: Bytes): Result<Reading<Id, Report>, ReadError>
    requires raw != []
  {
    var major := raw[0] / 32;
    if major == Cbor.TEXT then
      if !Cbor.WellFormed(raw) then Err(UnknownFraming)
      else
        match lib.parse(ItemText(Cbor.Parse(raw).value.value))
        case None => Err(BadId)
        case Some(id) => Ok(ReadId(id))
    else if major == Cbor.ARRAY then
      if !Cbor.WellFormed(raw) then Err(UnknownFraming)
      else
        var x := Cbor.Parse(raw).value.value;
        match (if x.Group? || x.OpenGroup? then Names(x.items) else None)
        case None => Err(UnknownFraming)
        case Some(names) =>
          match ParseIds(lib, names)
          case Err(e) => Err(e)
          case Ok(ids) => Ok(ReadRoute(ids))
    else if major == Cbor.MAP then
      match FirstMapKeyMajor(raw)
      case None => Err(UnknownFraming)
      case Some(key) =>
        if key != Cbor.TEXT then Ok(ReadClaim(raw))
        else
          match lib.readCbor(raw)
          case None => Err(UnknownFraming)
          case Some(report) => Ok(ReadReport(report))
    else if major == Cbor.TAG then
      if lib.stored(raw) then Ok(ReadEnvelope(raw)) else Err(BadId)
    else Err(UnknownFraming)
  }

  function DecodeRecord<Id, Report>(lib: Library<Id, Report>, enc: Encoding, raw: Bytes)
    : Result<Reading<Id, Report>, ReadError>
  {
    if raw == [] then Err(UnknownFraming)
    else if enc == CBOR then DecodeCborRecord(lib, raw)
    else DecodeJsonRecord(lib, raw)
  }

  // --- the decoding, as it is run ---------------------------------------------------------

  method DecodeJson<Id, Report>(lib: Library<Id, Report>, raw: Bytes)
    returns (r: Result<Reading<Id, Report>, ReadError>)
    ensures r == DecodeJsonRecord(lib, raw)
  {
    match Json.Parse(raw) {
      case Some(Text(s)) =>
        var id := lib.parse(s);
        r := if id.Some? then Ok(ReadId(id.value)) else Err(BadId);
      case Some(List(entries)) =>
        var ids := CollectJsonIds(lib, entries);
        r := if ids.Ok? then Ok(ReadRoute(ids.value)) else Err(ids.error);
      case Some(Object(fields)) =>
        if IsClaimObject(fields) {
          return Ok(ReadClaim(raw));
        }
        var report := lib.readJson(raw);
        r := if report.Some? then Ok(ReadReport(report.value)) else Err(UnknownFraming);
      case _ =>
        r := Err(UnknownFraming);
    }
  }

  method CollectIds<Id, Report>(lib: Library<Id, Report>, names: seq<Bytes>) returns (r: Result<seq<Id>, ReadError>)
    ensures r == ParseIds(lib, names)
  {
    var ids: seq<Id> := [];
    var i := 0;
    assert names[0..] == names;
    PrependNone(ParseIds(lib, names));
    while i < |names|
      invariant i <= |names|
      invariant ParseIds(lib, names) == Prepend(ids, ParseIds(lib, names[i..]))
    {
      assert names[i..][1..] == names[i + 1..];
      match lib.parse(names[i]) {
        case None =>
          return Err(BadId);
        case Some(id) =>
          PrependOne(ids, id, ParseIds(lib, names[i + 1..]));
          ids := ids + [id];
      }
      i := i + 1;
    }
    assert ids + [] == ids;
    r := Ok(ids);
  }

  /** A CBOR array of texts: one that is cut short, or holds anything else, is no route. */
  method DecodeCborArray<Id, Report>(lib: Library<Id, Report>, raw: Bytes)
    returns (r: Result<Reading<Id, Report>, ReadError>)
    requires raw != [] && raw[0] / 32 == Cbor.ARRAY
    ensures r == DecodeCborRecord(lib, raw)
  {
    if !Cbor.WellFormed(raw) {
      return Err(UnknownFraming);
    }
    var x := Cbor.Parse(raw).value.value;
    var names := if x.Group? || x.OpenGroup? then Names(x.items) else None;
    if names.None? {
      return Err(UnknownFraming);
    }
    var ids := CollectIds(lib, names.value);
    r := if ids.Ok? then Ok(ReadRoute(ids.value)) else Err(ids.error);
  }

  method Decode<Id, Report>(lib: Library<Id, Report>, enc: Encoding, raw: Bytes)
    returns (r: Result<Reading<Id, Report>, ReadError>)
    ensures r == DecodeRecord(lib, enc, raw)
  {
    if raw == [] {
      r := Err(UnknownFraming);
    } else if enc == JSON {
      r := DecodeJson(lib, raw);
    } else if raw[0] / 32 == Cbor.ARRAY {
      r := DecodeCborArray(lib, raw);
    } else {
      r := DecodeCborRecord(lib, raw);
    }
  }

  // --- a whole response -----------------------------------------------------------------

  function DecodeAll<Id, Report>(lib: Library<Id, Report>, enc: Encoding, records: seq<Bytes>)
    : Result<seq<Reading<Id, Report>>, ReadError>
  {
    if records == [] then Ok([])
    else
      match DecodeRecord(lib, enc, records[0])
      case Err(e) => Err(e)
      case Ok(reading) => Prepend([reading], DecodeAll(lib, enc, records[1..]))
  }

  method DecodeEach<Id, Report>(lib: Library<Id, Report>, enc: Encoding, records: seq<Bytes>)
    returns (r: Result<seq<Reading<Id, Report>>, ReadError>)
    ensures r == DecodeAll(lib, enc, records)
  {
    var results: seq<Reading<Id, Report>> := [];
    var i := 0;
    assert records[0..] == records;
    PrependNone(DecodeAll(lib, enc, records));
    while i < |records|
      invariant i <= |records|
      invariant DecodeAll(lib, enc, records) == Prepend(results, DecodeAll(lib, enc, records[i..]))
    {
      assert records[i..][1..] == records[i + 1..];
      var decoded := Decode(lib, enc, records[i]);
      match decoded {
        case Err(e) =>
          return Err(e);
        case Ok(reading) =>
          PrependOne(results, reading, DecodeAll(lib, enc, records[i + 1..]));
          results := results + [reading];
      }
      i := i + 1;
    }
    assert results + [] == results;
    r := Ok(results);
  }

  /** What a body read to its end yields. */
  function ReadBody<Id, Report>(lib: Library<Id, Report>, enc: Encoding, body: Bytes)
    : Result<seq<Reading<Id, Report>>, ReadError>
  {
    if enc == JSON then DecodeAll(lib, enc, JsonRecords(body))
    else
      match Cbor.Split(body)
      case None => Err(Malformed)
      case Some(records) => DecodeAll(lib, enc, records)
  }

  /** A query's output axes that decide which kind its results have. */
  datatype Shape = ShapeClaim | ShapePath
  datatype Detail = DetailId | DetailSerialized | DetailEnvelope
  datatype Output = Output(shape: Shape, detail: Detail)

  /** Routes of ids come one a record; routes of claims run into each other, and are refused. */
  predicate RoutesAreReadable(out: Output) {
    !(out.shape == ShapePath && out.detail != DetailId)
  }

  // --- which framing a response is in --------------------------------------------------

  /** The standard library's parser of media types: the bare type, or nothing when the header does not parse. */
  type Mime = string -> Option<string>

  predicate IsWhite(c: char) {
    IsWhiteSpace(c as nat)
  }

  function TrimWhite(s: string): string
    decreases |s|
  {
    if s != "" && IsWhite(s[0]) then TrimWhite(s[1..])
    else if s != "" && IsWhite(s[|s| - 1]) then TrimWhite(s[..|s| - 1])
    else s
  }

  /** Trimming takes white characters off both ends and nothing else, and leaves none there. */
  lemma {:induction false} TrimWhiteIs(s: string) returns (before: string, after: string)
    ensures s == before + TrimWhite(s) + after
    ensures (forall c | c in before :: IsWhiteSpace(c as nat)) && (forall c | c in after :: IsWhiteSpace(c as nat))
    ensures var t := TrimWhite(s);
            t == "" || (!IsWhiteSpace(t[0] as nat) && !IsWhiteSpace(t[|t| - 1] as nat))
    decreases |s|
  {
    before, after := "", "";
    if s != "" && IsWhite(s[0]) {
      var more;
      more, after := TrimWhiteIs(s[1..]);
      before := [s[0]] + more;
    } else if s != "" && IsWhite(s[|s| - 1]) {
      var more;
      before, more := TrimWhiteIs(s[..|s| - 1]);
      after := more + [s[|s| - 1]];
    }
  }

  /** The type a header names, read leniently where it does not parse. */
  function Named(mime: Mime, contentType: string): string {
    match mime(contentType)
    case Some(t) => t
    case None => TrimWhite(contentType)
  }

  /** The framing a response declares, whatever was asked for; none for any other type. */
  function FramingOf(mime: Mime, contentType: string): (enc: Option<Encoding>)
    ensures forall e: Encoding :: enc == Some(e) <==> Named(mime, contentType) == MediaType(e)
    ensures enc == Some(JSON) <==> Named(mime, contentType) == "application/json-seq"
    ensures enc == Some(CBOR) <==> Named(mime, contentType) == "application/cbor-seq"
  {
    assert MEDIA_JSON_SEQ[12] != MEDIA_CBOR_SEQ[12];
    var t := Named(mime, contentType);
    if t == MEDIA_JSON_SEQ then Some(JSON) else if t == MEDIA_CBOR_SEQ then Some(CBOR) else None
  }

  method SplitBody(mime: Mime, contentType: string, body: ByteReader)
    returns (r: Result<(seq<Bytes>, Encoding), ReadError>)
    modifies body
    ensures FramingOf(mime, contentType).None? ==> r == Err(UnknownFraming) && body.rest == old(body.rest)
    ensures r.Ok? ==> !body.broken && Some(r.value.1) == FramingOf(mime, contentType)
    ensures FramingOf(mime, contentType) == Some(JSON) && !body.broken ==> r == Ok((JsonRecords(old(body.rest)), JSON))
    ensures FramingOf(mime, contentType) == Some(CBOR) && !body.broken ==>
              var split := Cbor.Split(old(body.rest));
              (r.Ok? <==> split.Some?) && (r.Ok? ==> r.value.0 == split.value)
  {
    var ct := Named(mime, contentType);
    var split, enc;
    if ct == MEDIA_JSON_SEQ {
      split := SplitJSONSeq(body);
      enc := JSON;
    } else if ct == MEDIA_CBOR_SEQ {
      split := SplitCBORSeq(body);
      enc := CBOR;
    } else {
      return Err(UnknownFraming);
    }
    r := if split.Err? then Err(split.error) else Ok((split.value, enc));
  }

  method Query<Id, Report>(lib: Library<Id, Report>, mime: Mime, out: Output, contentType: string, body: ByteReader)
    returns (r: Result<seq<Reading<Id, Report>>, ReadError>)
    modifies body
    ensures !RoutesAreReadable(out) ==> r == Err(RouteBoundary)
    ensures RoutesAreReadable(out) && FramingOf(mime, contentType).None? ==> r == Err(UnknownFraming)
    ensures r.Ok? ==> !body.broken && FramingOf(mime, contentType).Some?
    ensures RoutesAreReadable(out) && FramingOf(mime, contentType).Some? && !body.broken ==>
              var read := ReadBody(lib, FramingOf(mime, contentType).value, old(body.rest));
              (r.Ok? <==> read.Ok?) && (r.Ok? ==> r == read)
  {
    if !RoutesAreReadable(out) {
      return Err(RouteBoundary);
    }
    var split := SplitBody(mime, contentType, body);
    if split.Err? {
      return Err(split.error);
    }
    r := DecodeEach(lib, split.value.1, split.value.0);
  }

  /** Stored records as they are read. */
  function EnvelopesOf<Id, Report>(bs: seq<Bytes>): seq<Reading<Id, Report>> {
    if bs == [] then [] else [ReadEnvelope(bs[0])] + EnvelopesOf(bs[1..])
  }

  /** Reads stored records and nothing else: a record of any other kind is an error. */
  method QueryClaims<Id, Report>(lib: Library<Id, Report>, mime: Mime, shape: Shape, contentType: string,
                                 body: ByteReader)
    returns (r: Result<seq<Bytes>, ReadError>)
    modifies body
    ensures shape == ShapePath ==> r == Err(RouteBoundary)
    ensures r.Ok? ==>
              && !body.broken && FramingOf(mime, contentType).Some?
              && ReadBody(lib, FramingOf(mime, contentType).value, old(body.rest)) == Ok(EnvelopesOf(r.value))
    ensures shape != ShapePath && FramingOf(mime, contentType).Some? && !body.broken && r.Err? ==>
              var read := ReadBody(lib, FramingOf(mime, contentType).value, old(body.rest));
              read.Err? || exists i :: 0 <= i < |read.value| && !read.value[i].ReadEnvelope?
  {
    var results := Query(lib, mime, Output(shape, DetailEnvelope), contentType, body);
    if results.Err? {
      return Err(results.error);
    }
    r := StoredOnly(results.value);
  }

  method StoredOnly<Id, Report>(results: seq<Reading<Id, Report>>) returns (r: Result<seq<Bytes>, ReadError>)
    ensures r.Ok? ==> results == EnvelopesOf(r.value)
    ensures r.Err? ==> exists i :: 0 <= i < |results| && !results[i].ReadEnvelope?
  {
    var claims: seq<Bytes> := [];
    assert results[..0] == [];
    for i := 0 to |results|
      invariant results[..i] == EnvelopesOf(claims)
    {
      if !results[i].ReadEnvelope? {
        return Err(UnknownFraming);
      }
      EnvelopesExtend<Id, Report>(claims, results[i].raw);
      assert results[..i + 1] == results[..i] + [results[i]];
      claims := claims + [results[i].raw];
    }
    assert results[..|results|] == results;
    r := Ok(claims);
  }

  lemma {:induction false} EnvelopesExtend<Id, Report>(bs: seq<Bytes>, b: Bytes)
    ensures EnvelopesOf<Id, Report>(bs + [b]) == EnvelopesOf<Id, Report>(bs) + [ReadEnvelope(b)]
  {
    if bs == [] {
      assert [] + [b] == [b] && [b][1..] == [];
    } else {
      assert (bs + [b])[1..] == bs[1..] + [b];
      EnvelopesExtend<Id, Report>(bs[1..], b);
    }
  }
}
