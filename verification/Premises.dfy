/** What RoundTrip takes of the library and of stored records can be had: a library and records that are so. */
module Premises {
  import opened Bytes
  import opened Lists
  import opened Serve
  import opened Reader
  import opened RoundTrip
  import Json
  import Cbor

  // --- a library ------------------------------------------------------------------------


  lemma EmptyObject()
    ensures Json.Parse([Json.LBRACE, Json.RBRACE]) == Some(Json.Object([]))
  {
    var s: Bytes := [Json.LBRACE, Json.RBRACE];
    assert s[1..] == [Json.RBRACE] && s[1..][1..] == [];
  }

  /** `{"a": 0}` in CBOR. */
  lemma SmallMap()
    ensures Cbor.Parse([0xa1, 0x61, 0x61, 0x00])
         == Some(Parsed(Cbor.Group(Cbor.Head(5, 1, []),
                                   [Cbor.Str(Cbor.Head(3, 1, []), [0x61]), Cbor.Leaf(Cbor.Head(0, 0, []))]), []))
  {
    var key, value := Cbor.Str(Cbor.Head(3, 1, []), [0x61]), Cbor.Leaf(Cbor.Head(0, 0, []));
    var x := Cbor.Group(Cbor.Head(5, 1, []), [key, value]);
    assert x.Valid();
    assert Cbor.Encode(x) == [0xa1, 0x61, 0x61, 0x00] by {
      assert Cbor.Encode(value) == [0x00] && Cbor.Encode(key) == [0x61, 0x61];
      PairEncodes(key, value);
    }
    Cbor.ParseOfEncode(x, []);
    assert Cbor.Encode(x) + [] == Cbor.Encode(x);
  }

  lemma PairEncodes(a: Cbor.Item, b: Cbor.Item)
    requires a.Valid() && b.Valid()
    ensures Cbor.EncodeAll([a, b]) == Cbor.Encode(a) + Cbor.Encode(b)
  {
    assert [a, b][1..] == [b] && [b][1..] == [];
    assert Cbor.EncodeAll([b]) == Cbor.Encode(b) + [];
  }

  lemma SmallReports() returns (json: Bytes, cbor: Bytes)
    ensures JsonReport(json) && CborReport(cbor)
  {
    json, cbor := [Json.LBRACE, Json.RBRACE], [0xa1, 0x61, 0x61, 0x00];
    EmptyObject();
    SmallMap();
    TrimmedBetweenMarks(json);
  }

  datatype Bit = Zero | One
  datatype NoDetail = NoDetail

  function ShowBit(id: Bit): Bytes {
    [if id.Zero? then 0x30 else 0x31]
  }

  function ParseBit(s: Bytes): Option<Bit> {
    if |s| == 1 then Some(if s[0] == 0x30 then Zero else One) else None
  }

  lemma LawfulIf(lib: Library<Bit, NoDetail>, json: Bytes, cbor: Bytes)
    requires JsonReport(json) && CborReport(cbor)
    requires forall id: Bit :: lib.show(id) == ShowBit(id) && lib.parse(lib.show(id)) == Some(id)
    requires forall p: NoDetail :: lib.reportJson(p) == json && lib.readJson(json) == Some(p)
    requires forall p: NoDetail :: lib.reportCbor(p) == cbor && lib.readCbor(cbor) == Some(p)
    ensures Lawful(lib)
  {
  }

  lemma BitsParse(lib: Library<Bit, NoDetail>)
    requires forall id: Bit :: lib.show(id) == ShowBit(id)
    requires forall s: Bytes :: lib.parse(s) == ParseBit(s)
    ensures forall id: Bit :: lib.show(id) == ShowBit(id) && lib.parse(lib.show(id)) == Some(id)
  {
    forall id: Bit ensures lib.show(id) == ShowBit(id) && lib.parse(lib.show(id)) == Some(id) {
      assert lib.parse(ShowBit(id)) == ParseBit(ShowBit(id));
    }
  }

  lemma LawfulBits(lib: Library<Bit, NoDetail>, json: Bytes, cbor: Bytes)
    requires JsonReport(json) && CborReport(cbor)
    requires forall id: Bit :: lib.show(id) == ShowBit(id)
    requires forall s: Bytes :: lib.parse(s) == ParseBit(s)
    requires forall p: NoDetail :: lib.reportJson(p) == json && lib.reportCbor(p) == cbor
    requires lib.readJson(json) == Some(NoDetail) && lib.readCbor(cbor) == Some(NoDetail)
    ensures Lawful(lib)
  {
    BitsParse(lib);
    forall p: NoDetail ensures lib.reportJson(p) == json && lib.readJson(json) == Some(p)
                               && lib.readCbor(cbor) == Some(p) {
      assert p == NoDetail;
    }
    LawfulIf(lib, json, cbor);
  }

  /** Some library is as it is taken to be. */
  lemma LawfulLibraryExists() returns (lib: Library<Bit, NoDetail>)
    ensures Lawful(lib) && forall raw :: lib.stored(raw)
  {
    var json, cbor := SmallReports();
    lib := Library(ShowBit, ParseBit, (p: NoDetail) => json, (s: Bytes) => Some(NoDetail),
                   (p: NoDetail) => cbor, (s: Bytes) => Some(NoDetail), (s: Bytes) => true);
    LawfulBits(lib, json, cbor);
  }

  // --- records of each kind ---------------------------------------------------------------

  /** A field of text written compactly, and what follows it. */
  function FieldText(key: Bytes, text: Bytes, rest: Bytes): Bytes {
    Json.MarshalText(key) + ([Json.COLON] + (Json.MarshalText(text) + rest))
  }

  lemma FieldReads(key: Bytes, text: Bytes, rest: Bytes)
    requires Json.Ascii(key) && Json.Ascii(text)
    ensures Json.ParseKey(FieldText(key, text, rest)) == Some(Parsed(key, Json.MarshalText(text) + rest))
    ensures Json.ParseValue(Json.MarshalText(text) + rest) == Some(Parsed(Json.Text(text), rest))
  {
    NamedReads(key, Json.MarshalText(text) + rest);
    Json.MarshalTextReads(text, rest);
  }

  lemma NamedReads(key: Bytes, value: Bytes)
    requires Json.Ascii(key)
    ensures Json.ParseKey(Json.MarshalText(key) + ([Json.COLON] + value)) == Some(Parsed(key, value))
  {
    var after := [Json.COLON] + value;
    var escaped := Json.Escape(key) + ([Json.QUOTE] + after);
    Json.EscapeReads(key, after);
    QuotedText(key, after);
    KeyReads(escaped, key, value);
  }

  lemma QuotedText(key: Bytes, after: Bytes)
    ensures Json.MarshalText(key) + after == [Json.QUOTE] + (Json.Escape(key) + ([Json.QUOTE] + after))
  {
    Regroup([Json.QUOTE], Json.Escape(key), [Json.QUOTE]);
    Regroup([Json.QUOTE] + Json.Escape(key), [Json.QUOTE], after);
    Regroup([Json.QUOTE], Json.Escape(key), [Json.QUOTE] + after);
  }

  lemma KeyReads(s: Bytes, key: Bytes, rest: Bytes)
    requires Json.ParseText(s) == Some(Parsed(key, [Json.COLON] + rest))
    ensures Json.ParseKey([Json.QUOTE] + s) == Some(Parsed(key, rest))
  {
    assert ([Json.QUOTE] + s)[1..] == s;
    assert Json.SkipSpace([Json.QUOTE] + s) == [Json.QUOTE] + s;
    assert Json.SkipSpace([Json.COLON] + rest) == [Json.COLON] + rest;
    assert ([Json.COLON] + rest)[1..] == rest;
  }

  lemma LastFieldReads(key: Bytes, text: Bytes)
    requires Json.Ascii(key) && Json.Ascii(text)
    ensures Json.ParseFields(FieldText(key, text, [Json.RBRACE]))
         == Some(Parsed([Json.Field(key, Json.Text(text))], []))
  {
    FieldReads(key, text, [Json.RBRACE]);
    assert Json.SkipSpace([Json.RBRACE]) == [Json.RBRACE] && [Json.RBRACE][1..] == [];
  }

  lemma FirstFieldReads(key: Bytes, text: Bytes, rest: Bytes, fields: seq<Json.Field>)
    requires Json.Ascii(key) && Json.Ascii(text) && Json.ParseFields(rest) == Some(Parsed(fields, []))
    ensures Json.ParseFields(FieldText(key, text, [Json.COMMA] + rest))
         == Some(Parsed([Json.Field(key, Json.Text(text))] + fields, []))
  {
    FieldReads(key, text, [Json.COMMA] + rest);
    assert Json.SkipSpace([Json.COMMA] + rest) == [Json.COMMA] + rest && ([Json.COMMA] + rest)[1..] == rest;
  }

  lemma ObjectReads(body: Bytes, fields: seq<Json.Field>)
    requires body != [] && body[0] == Json.QUOTE && Json.ParseFields(body) == Some(Parsed(fields, []))
    ensures Json.Parse([Json.LBRACE] + body) == Some(Json.Object(fields))
  {
    var s := [Json.LBRACE] + body;
    assert s[1..] == body;
    assert Json.SkipSpace(s) == s && Json.SkipSpace(body) == body;
  }

  lemma ClaimObject(body: Bytes, fields: seq<Json.Field>)
    requires body != [] && body[0] == Json.QUOTE && Last(body) == Json.RBRACE
    requires Json.ParseFields(body) == Some(Parsed(fields, [])) && IsClaimObject(fields)
    ensures JsonClaim([Json.LBRACE] + body)
  {
    ObjectReads(body, fields);
    TrimmedBetweenMarks([Json.LBRACE] + body);
  }

  /** An object of two empty texts. */
  function TwoFields(key: Bytes, other: Bytes): Bytes {
    [Json.LBRACE] + FieldText(key, [], [Json.COMMA] + FieldText(other, [], [Json.RBRACE]))
  }

  lemma TwoFieldsClaim(key: Bytes, other: Bytes)
    requires Json.Ascii(key) && Json.Ascii(other)
    requires IsClaimObject([Json.Field(key, Json.Text([]))] + [Json.Field(other, Json.Text([]))])
    ensures JsonClaim(TwoFields(key, other))
  {
    var last := FieldText(other, [], [Json.RBRACE]);
    LastFieldReads(other, []);
    FirstFieldReads(key, [], last, [Json.Field(other, Json.Text([]))]);
    FieldTextEnds(other, [], [Json.RBRACE]);
    FieldTextEnds(key, [], [Json.COMMA] + last);
    assert Last([Json.COMMA] + last) == Last(last);
    ClaimObject(FieldText(key, [], [Json.COMMA] + last),
                [Json.Field(key, Json.Text([]))] + [Json.Field(other, Json.Text([]))]);
  }

  /** An object with a type and a date is a claim record in JSON. */
  lemma SomeJsonClaim() returns (raw: Bytes)
    ensures JsonClaim(raw)
  {
    ClaimFields(Json.Field(TYPE_KEY, Json.Text([])), Json.Field(DATE_KEY, Json.Text([])));
    TwoFieldsClaim(TYPE_KEY, DATE_KEY);
    raw := TwoFields(TYPE_KEY, DATE_KEY);
  }

  lemma FieldTextEnds(key: Bytes, text: Bytes, rest: Bytes)
    requires rest != []
    ensures var s := FieldText(key, text, rest); s != [] && s[0] == Json.QUOTE && Last(s) == Last(rest)
  {
  }

  lemma ClaimFields(typed: Json.Field, dated: Json.Field)
    requires typed.key == TYPE_KEY && dated.key == DATE_KEY
    ensures IsClaimObject([typed] + [dated])
  {
    assert typed in [typed] + [dated] && dated in [typed] + [dated];
  }

  /** A map from integer keys is a claim record in CBOR, and a tagged item is an envelope where the library takes it. */
  lemma SomeCborRecords(lib: Library<Bit, NoDetail>) returns (claim: Bytes, envelope: Bytes)
    requires forall raw :: lib.stored(raw)
    ensures CborClaim(claim) && Envelope(lib, envelope)
  {
    var key, value := Cbor.Leaf(Cbor.Head(0, 1, [])), Cbor.Leaf(Cbor.Head(0, 2, []));
    claim := EncodedGroup(Cbor.Head(5, 1, []), [key, value]);
    envelope := EncodedGroup(Cbor.Head(6, 1, []), [value]);
  }

  lemma EncodedGroup(h: Cbor.Head, items: seq<Cbor.Item>) returns (raw: Bytes)
    requires Cbor.Group(h, items).Valid()
    ensures Cbor.WellFormed(raw) && Cbor.Parse(raw).value.value == Cbor.Group(h, items)
  {
    var x := Cbor.Group(h, items);
    raw := Cbor.Encode(x);
    Cbor.ParseOfEncode(x, []);
    assert raw + [] == raw;
  }

  /** Results of every kind RoundTrip speaks of exist, in each encoding that carries them. */
  lemma SoundResultsExist() returns (lib: Library<Bit, NoDetail>, text: Bytes, claim: Bytes, envelope: Bytes)
    ensures Lawful(lib)
    ensures forall enc: Encoding, id: Bit :: Sound(lib, enc, ClaimId(id)) && Sound(lib, enc, PathId([id, id]))
    ensures Sound(lib, JSON, ClaimEncoded(text)) && Sound(lib, JSON, PathEncoded([text, text]))
    ensures Sound(lib, CBOR, ClaimEncoded(claim)) && Sound(lib, CBOR, PathEncoded([claim, claim]))
    ensures Sound(lib, CBOR, ClaimEnvelope(envelope)) && Sound(lib, CBOR, PathEnvelope([envelope, envelope]))
  {
    lib := LawfulLibraryExists();
    text := SomeJsonClaim();
    claim, envelope := SomeCborRecords(lib);
    SoundText(lib, text);
    SoundClaim(lib, claim);
    SoundEnvelope(lib, envelope);
  }

  lemma SoundText(lib: Library<Bit, NoDetail>, text: Bytes)
    requires JsonClaim(text)
    ensures Sound(lib, JSON, ClaimEncoded(text)) && Sound(lib, JSON, PathEncoded([text, text]))
  {
    SoundTexts(lib, text, [text, text]);
  }

  lemma SoundTexts(lib: Library<Bit, NoDetail>, text: Bytes, texts: seq<Bytes>)
    requires JsonClaim(text) && forall i | 0 <= i < |texts| :: texts[i] == text
    ensures Sound(lib, JSON, PathEncoded(texts))
  {
    forall i | 0 <= i < |texts| ensures JsonClaim(texts[i]) {
      assert texts[i] == text;
    }
  }

  lemma SoundClaim(lib: Library<Bit, NoDetail>, claim: Bytes)
    requires CborClaim(claim)
    ensures Sound(lib, CBOR, ClaimEncoded(claim)) && Sound(lib, CBOR, PathEncoded([claim, claim]))
  {
  }

  lemma SoundEnvelope(lib: Library<Bit, NoDetail>, envelope: Bytes)
    requires Envelope(lib, envelope)
    ensures Sound(lib, CBOR, ClaimEnvelope(envelope)) && Sound(lib, CBOR, PathEnvelope([envelope, envelope]))
  {
  }
}
