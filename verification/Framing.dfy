/**
 Splitting a response into records: the reader's half of RFC 7464 and RFC 8742
 (client/seq.go), over a reader that may break before its end.
 */
module Framing {
  import opened Bytes
  import opened Lists
  import Json
  import Cbor

  datatype ReadError = UnknownFraming | BadId | ReadFailed | Malformed | RouteBoundary

  /** How a read on the stream ended: with what was asked for, at the end, or broken. */
  datatype End = Found | EndOfFile | Failed

  /** The response body: the bytes still to come, and whether they end in a failure rather than an end of file. */
  class ByteReader {
    var rest: Bytes
    const broken: bool

    constructor (body: Bytes, broken: bool)
      ensures rest == body && this.broken == broken
    {
      this.rest, this.broken := body, broken;
    }

    /** Everything up to and including the first `delim`, or everything there is. */
    method ReadBytes(delim: Byte) returns (chunk: Bytes, end: End)
      modifies this
      ensures chunk + rest == old(rest)
      ensures end.Found? ==> chunk != [] && chunk[|chunk| - 1] == delim && delim !in chunk[..|chunk| - 1]
      ensures !end.Found? ==> rest == [] && delim !in chunk && end == (if broken then Failed else EndOfFile)
    {
      var i := 0;
      while i < |rest| && rest[i] != delim
        invariant i <= |rest| && delim !in rest[..i]
      {
        i := i + 1;
      }
      if i < |rest| {
        chunk, end := rest[..i + 1], Found;
        assert chunk[..i] == rest[..i];
        rest := rest[i + 1..];
      } else {
        chunk, end := rest, if broken then Failed else EndOfFile;
        assert rest[..i] == rest;
        rest := [];
      }
    }
  }

  // --- trimming space ------------------------------------------------------------

  /** The code points with the White_Space property. */
  predicate IsWhiteSpace(c: nat) {
    || 9 <= c <= 13 || c in {0x20, 0x85, 0xa0, 0x1680} || 0x2000 <= c <= 0x200a
    || c in {0x2028, 0x2029, 0x202f, 0x205f, 0x3000}
  }

  /** The UTF-8 form of one character with the White_Space property. */
  predicate IsSpaceRune(r: Bytes) {
    || (|r| == 1 && (9 <= r[0] <= 13 || r[0] == 0x20))
    || (|r| == 2 && r[0] == 0xc2 && (r[1] == 0x85 || r[1] == 0xa0))
    || (|r| == 3 && r[0] == 0xe1 && r[1] == 0x9a && r[2] == 0x80)
    || (|r| == 3 && r[0] == 0xe2 && r[1] == 0x80
        && (0x80 <= r[2] <= 0x8a || r[2] == 0xa8 || r[2] == 0xa9 || r[2] == 0xaf))
    || (|r| == 3 && r[0] == 0xe2 && r[1] == 0x81 && r[2] == 0x9f)
    || (|r| == 3 && r[0] == 0xe3 && r[1] == 0x80 && r[2] == 0x80)
  }

  /** The length of the space character `s` opens with, zero for none. */
  function LeadSpace(s: Bytes): (n: nat)
    ensures n <= |s|
  {
    if |s| >= 1 && IsSpaceRune(s[..1]) then 1
    else if |s| >= 2 && IsSpaceRune(s[..2]) then 2
    else if |s| >= 3 && IsSpaceRune(s[..3]) then 3
    else 0
  }

  function TailSpace(s: Bytes): (n: nat)
    ensures n <= |s|
  {
    if |s| >= 1 && IsSpaceRune(s[|s| - 1..]) then 1
    else if |s| >= 2 && IsSpaceRune(s[|s| - 2..]) then 2
    else if |s| >= 3 && IsSpaceRune(s[|s| - 3..]) then 3
    else 0
  }

  function TrimLeft(s: Bytes): Bytes
    decreases |s|
  {
    if LeadSpace(s) > 0 then TrimLeft(s[LeadSpace(s)..]) else s
  }

  function TrimRight(s: Bytes): Bytes
    decreases |s|
  {
    if TailSpace(s) > 0 then TrimRight(s[..|s| - TailSpace(s)]) else s
  }

  function TrimSpace(s: Bytes): Bytes {
    TrimRight(TrimLeft(s))
  }

  lemma ShortSpace(r: Bytes)
    requires |r| < 3 && IsSpaceRune(r)
    ensures exists c: nat :: IsWhiteSpace(c) && r == Json.Utf8(c)
  {
    if |r| == 1 {
      assert IsWhiteSpace(r[0]) && r == Json.Utf8(r[0]);
    } else {
      assert IsWhiteSpace(r[1]) && r == Json.Utf8(r[1]);
    }
  }

  lemma LongSpace(r: Bytes)
    requires |r| == 3 && IsSpaceRune(r)
    ensures exists c: nat :: IsWhiteSpace(c) && r == Json.Utf8(c)
  {
    var d := (r[0] - 0xe0) as nat * 64 + (r[1] - 0x80);
    var c := d * 64 + (r[2] - 0x80);
    assert c / 64 == d && c % 64 == r[2] - 0x80 && c / 0x1000 == r[0] - 0xe0 && d % 64 == r[1] - 0x80;
    assert IsWhiteSpace(c);
    assert r == Json.Utf8(c);
  }

  lemma WhiteSpaceIsSpace(c: nat)
    requires IsWhiteSpace(c)
    ensures IsSpaceRune(Json.Utf8(c))
  {
    if c >= 0x800 {
      var d := c / 64;
      assert c / 0x1000 == d / 64;
      assert d in {90, 128, 129, 192};
    }
  }

  lemma SpaceRuneIs(r: Bytes)
    ensures IsSpaceRune(r) <==> exists c: nat :: IsWhiteSpace(c) && r == Json.Utf8(c)
  {
    if IsSpaceRune(r) {
      if |r| < 3 { ShortSpace(r); } else { LongSpace(r); }
    }
    forall c: nat | IsWhiteSpace(c) && r == Json.Utf8(c) ensures IsSpaceRune(r) {
      WhiteSpaceIsSpace(c);
    }
  }

  ghost predicate AllSpaceRunes(rs: seq<Bytes>) {
    forall i | 0 <= i < |rs| :: IsSpaceRune(rs[i])
  }

  lemma {:induction false} TrimLeftIs(s: Bytes) returns (lead: seq<Bytes>)
    ensures AllSpaceRunes(lead) && s == Concat(lead) + TrimLeft(s)
    ensures LeadSpace(TrimLeft(s)) == 0
    decreases |s|
  {
    lead := [];
    var n := LeadSpace(s);
    if n > 0 {
      var more := TrimLeftIs(s[n..]);
      lead := [s[..n]] + more;
      assert lead[1..] == more;
      Regroup(s[..n], Concat(more), TrimLeft(s));
    }
  }

  lemma {:induction false} TrimRightIs(s: Bytes) returns (tail: seq<Bytes>)
    ensures AllSpaceRunes(tail) && s == TrimRight(s) + Concat(tail)
    ensures TailSpace(TrimRight(s)) == 0
    decreases |s|
  {
    tail := [];
    if TailSpace(s) > 0 {
      var k := |s| - TailSpace(s);
      var more := TrimRightIs(s[..k]);
      TailIsSpace(s);
      tail := OneMoreRune(s, k, TrimRight(s[..k]), more);
    }
  }

  lemma TailIsSpace(s: Bytes)
    requires TailSpace(s) > 0
    ensures IsSpaceRune(s[|s| - TailSpace(s)..])
  {
  }

  lemma OneMoreRune(s: Bytes, k: nat, t: Bytes, more: seq<Bytes>) returns (tail: seq<Bytes>)
    requires k <= |s| && s[..k] == t + Concat(more) && AllSpaceRunes(more) && IsSpaceRune(s[k..])
    ensures AllSpaceRunes(tail) && s == t + Concat(tail)
  {
    var last := s[k..];
    tail := more + [last];
    ConcatAppend(more, [last]);
    assert Concat([last]) == last + [] == last;
    Regroup(t, Concat(more), last);
    assert s == s[..k] + last;
  }

  /** Trimming takes white space off both ends and nothing else. */
  lemma TrimSpaceIs(s: Bytes) returns (lead: seq<Bytes>, tail: seq<Bytes>)
    ensures AllSpaceRunes(lead) && AllSpaceRunes(tail) && s == Concat(lead) + TrimSpace(s) + Concat(tail)
  {
    lead := TrimLeftIs(s);
    tail := TrimRightIs(TrimLeft(s));
    Regroup(Concat(lead), TrimSpace(s), Concat(tail));
  }

  /** And leaves none there. */
  lemma TrimSpaceLeavesNone(s: Bytes)
    ensures LeadSpace(TrimSpace(s)) == 0 && TailSpace(TrimSpace(s)) == 0
  {
    var lead := TrimLeftIs(s);
    var tail := TrimRightIs(TrimLeft(s));
    LeadOfPrefix(TrimLeft(s), TrimSpace(s));
  }

  lemma LeadOfPrefix(t: Bytes, u: Bytes)
    requires LeadSpace(t) == 0 && u <= t
    ensures LeadSpace(u) == 0
  {
    assert |u| >= 1 ==> u[..1] == t[..1];
    assert |u| >= 2 ==> u[..2] == t[..2];
    assert |u| >= 3 ==> u[..3] == t[..3];
  }

  /** Where no length is found no white space stands. */
  lemma NoSpaceAtStart(s: Bytes, r: Bytes)
    requires LeadSpace(s) == 0 && IsSpaceRune(r) && |r| <= |s|
    ensures s[..|r|] != r
  {
  }

  lemma NoSpaceAtEnd(s: Bytes, r: Bytes)
    requires TailSpace(s) == 0 && IsSpaceRune(r) && |r| <= |s|
    ensures s[|s| - |r|..] != r
  {
  }

  predicate Trimmed(s: Bytes) {
    s != [] && LeadSpace(s) == 0 && TailSpace(s) == 0
  }

  // --- RFC 7464 ---------------------------------------------------------------------

  /** A chunk's contribution: its trimmed text, unless nothing is left. */
  function Kept(chunk: Bytes): seq<Bytes> {
    var t := TrimSpace(chunk);
    if t == [] then [] else [t]
  }

  function IndexOf(s: Bytes, b: Byte): (k: nat)
    ensures k <= |s| && b !in s[..k] && (k < |s| ==> s[k] == b)
  {
    if s == [] || s[0] == b then 0
    else
      var k := 1 + IndexOf(s[1..], b);
      assert s[..k] == [s[0]] + s[1..][..k - 1];
      k
  }

  /** The records of a JSON text sequence. */
  function JsonRecords(s: Bytes): seq<Bytes>
    decreases |s|
  {
    var k := IndexOf(s, Json.RS);
    if k == |s| then Kept(s) else Kept(s[..k]) + JsonRecords(s[k + 1..])
  }

  function TrimSuffix(chunk: Bytes, b: Byte): Bytes {
    if chunk != [] && chunk[|chunk| - 1] == b then chunk[..|chunk| - 1] else chunk
  }

  method SplitJSONSeq(r: ByteReader) returns (out: Result<seq<Bytes>, ReadError>)
    modifies r
    ensures out == if r.broken then Err(ReadFailed) else Ok(JsonRecords(old(r.rest)))
  {
    var records: seq<Bytes> := [];
    ghost var all := r.rest;
    while true
      invariant JsonRecords(all) == records + JsonRecords(r.rest)
      decreases |r.rest|
    {
      ghost var before, had := r.rest, records;
      var chunk, end := r.ReadBytes(Json.RS);
      var trimmed := TrimSpace(TrimSuffix(chunk, Json.RS));
      if |trimmed| > 0 {
        records := records + [trimmed];
      }
      assert had + [] == had;
      assert TrimSuffix(chunk, Json.RS) == if end.Found? then chunk[..|chunk| - 1] else chunk;
      if !end.Found? {
        NoChunk(before);
        assert chunk == before;
        return if end.EndOfFile? then Ok(records) else Err(ReadFailed);
      }
      FirstChunk(before, chunk, r.rest);
      Regroup(had, Kept(chunk[..|chunk| - 1]), JsonRecords(r.rest));
    }
  }

  lemma {:induction false} IndexIs(s: Bytes, b: Byte, n: nat)
    requires n < |s| && s[n] == b && b !in s[..n]
    ensures IndexOf(s, b) == n
  {
    if n > 0 {
      assert s[..n] == [s[0]] + s[1..][..n - 1];
      IndexIs(s[1..], b, n - 1);
    }
  }

  lemma FirstChunk(s: Bytes, chunk: Bytes, rest: Bytes)
    requires s == chunk + rest && chunk != [] && chunk[|chunk| - 1] == Json.RS && Json.RS !in chunk[..|chunk| - 1]
    ensures JsonRecords(s) == Kept(chunk[..|chunk| - 1]) + JsonRecords(rest)
  {
    var n := |chunk| - 1;
    assert s[..n] == chunk[..n];
    IndexIs(s, Json.RS, n);
    assert s[n + 1..] == rest;
  }

  lemma NoChunk(s: Bytes)
    requires Json.RS !in s
    ensures JsonRecords(s) == Kept(s)
  {
  }

  /** One record of a JSON text sequence on the wire. */
  function JsonFrame(payload: Bytes): Bytes {
    [Json.RS] + payload + [Json.LF]
  }

  ghost predicate JsonRecord(payload: Bytes) {
    Trimmed(payload) && Json.RS !in payload
  }

  lemma LeadSpaceOfFramed(payload: Bytes)
    requires Trimmed(payload)
    ensures LeadSpace(payload + [Json.LF]) == 0
  {
    var s := payload + [Json.LF];
    assert s[..1] == payload[..1];
    if |payload| == 1 {
      assert s[..2][1] == Json.LF;
    } else {
      assert s[..2] == payload[..2];
      if |payload| == 2 {
        assert s[..3][2] == Json.LF;
      } else {
        assert s[..3] == payload[..3];
      }
    }
  }

  lemma {:induction false} TrimOfFramed(payload: Bytes)
    requires Trimmed(payload)
    ensures TrimSpace(payload + [Json.LF]) == payload
  {
    var s := payload + [Json.LF];
    LeadSpaceOfFramed(payload);
    assert TrimLeft(s) == s;
    assert s[|s| - 1..] == [Json.LF];
    assert TailSpace(s) == 1;
    assert s[..|s| - 1] == payload;
    assert TrimRight(payload) == payload;
    assert TrimRight(s) == TrimRight(s[..|s| - 1]);
  }

  function JsonFrames(payloads: seq<Bytes>): Bytes {
    if payloads == [] then [] else JsonFrame(payloads[0]) + JsonFrames(payloads[1..])
  }

  /** Splitting undoes framing on every list of trimmed records that hold no separator. */
  lemma {:induction false} JsonRecordsOfFrames(payloads: seq<Bytes>)
    requires forall i | 0 <= i < |payloads| :: JsonRecord(payloads[i])
    ensures JsonRecords(JsonFrames(payloads)) == payloads
  {
    if payloads != [] {
      var first, more := payloads[0], payloads[1..];
      JsonRecordsOfFrames(more);
      assert more != [] ==> JsonFrames(more)[0] == Json.RS;
      FirstFrame(first, JsonFrames(more));
      assert payloads == [first] + more;
    }
  }

  lemma KeptFramed(payload: Bytes)
    requires JsonRecord(payload)
    ensures Kept(payload + [Json.LF]) == [payload] && Json.RS !in payload + [Json.LF]
  {
    TrimOfFramed(payload);
  }

  /** A framed record, and whatever frames come after it. */
  lemma FirstFrame(payload: Bytes, rest: Bytes)
    requires JsonRecord(payload) && (rest == [] || rest[0] == Json.RS)
    ensures JsonRecords(JsonFrame(payload) + rest) == [payload] + if rest == [] then [] else JsonRecords(rest)
    ensures rest == [] ==> JsonRecords(rest) == []
  {
    var body := payload + [Json.LF];
    KeptFramed(payload);
    FrameIs(payload, rest);
    FrameOpens(body, rest);
    BodyThen(body, rest, payload);
  }

  lemma FrameIs(payload: Bytes, rest: Bytes)
    ensures JsonFrame(payload) + rest == [Json.RS] + ((payload + [Json.LF]) + rest)
  {
    Regroup([Json.RS], payload, [Json.LF]);
    Regroup([Json.RS], payload + [Json.LF], rest);
  }

  lemma BodyThen(body: Bytes, rest: Bytes, payload: Bytes)
    requires Json.RS !in body && Kept(body) == [payload] && (rest == [] || rest[0] == Json.RS)
    ensures JsonRecords(body + rest) == [payload] + if rest == [] then [] else JsonRecords(rest)
    ensures rest == [] ==> JsonRecords(rest) == []
  {
    if rest == [] {
      assert body + rest == body;
      NoChunk(body);
      NoChunk(rest);
    } else {
      JsonRecordsPast(body, rest);
    }
  }

  lemma FrameOpens(body: Bytes, rest: Bytes)
    ensures JsonRecords([Json.RS] + (body + rest)) == JsonRecords(body + rest)
  {
    var s := [Json.RS] + (body + rest);
    assert s[1..] == body + rest;
    SeparatorOpensNothing(s);
  }

  lemma SeparatorOpensNothing(rest: Bytes)
    requires rest != [] && rest[0] == Json.RS
    ensures JsonRecords(rest) == JsonRecords(rest[1..])
  {
    var chunk, body := [Json.RS], rest[1..];
    assert rest == chunk + body && chunk[..0] == [];
    FirstChunk(rest, chunk, body);
    KeptNothing();
    assert [] + JsonRecords(body) == JsonRecords(body);
  }

  lemma KeptNothing()
    ensures Kept([]) == []
  {
  }

  /** A body followed by a separator is one record's worth, whatever comes after. */
  lemma {:induction false} JsonRecordsPast(body: Bytes, rest: Bytes)
    requires Json.RS !in body && rest != [] && rest[0] == Json.RS
    ensures JsonRecords(body + rest) == Kept(body) + JsonRecords(rest)
  {
    var chunk := body + [Json.RS];
    SeparatorOpensNothing(rest);
    assert rest == [Json.RS] + rest[1..];
    Regroup(body, [Json.RS], rest[1..]);
    assert chunk[..|chunk| - 1] == body;
    FirstChunk(body + rest, chunk, rest[1..]);
  }

  // --- RFC 8742 ------------------------------------------------------------------------

  method SplitCBORSeq(r: ByteReader) returns (out: Result<seq<Bytes>, ReadError>)
    modifies r
    ensures out.Ok? <==> !r.broken && Cbor.Split(old(r.rest)).Some?
    ensures out.Ok? ==> Cbor.Split(old(r.rest)) == Some(out.value)
  {
    var records: seq<Bytes> := [];
    while r.rest != []
      invariant Cbor.Split(old(r.rest)).Some? <==> Cbor.Split(r.rest).Some?
      invariant Cbor.Split(r.rest).Some? ==> Cbor.Split(old(r.rest)).value == records + Cbor.Split(r.rest).value
      decreases |r.rest|
    {
      match Cbor.Parse(r.rest)
      case None =>
        return Err(Malformed);
      case Some(p) =>
        records := records + [r.rest[..|r.rest| - |p.rest|]];
        r.rest := p.rest;
    }
    assert records + [] == records;
    out := if r.broken then Err(ReadFailed) else Ok(records);
  }
}
