/** Putting a query's results on the wire: internal/core/serve.go's queryStream and its framing. */
module Serve {
  import opened Bytes
  import opened Lists
  import Json
  import Cbor
  import Framing

  datatype Encoding = JSON | CBOR

  /**
   What ranke-go supplies and this repository only calls: an id's printed form and its
   parser, the report's encoders and decoders, and which stored records decode.
   */
  datatype Library<!Id, !Report> = Library(
    show: Id -> Bytes,
    parse: Bytes -> Option<Id>,
    reportJson: Report -> Bytes,
    readJson: Bytes -> Option<Report>,
    reportCbor: Report -> Bytes,
    readCbor: Bytes -> Option<Report>,
    stored: Bytes -> bool)

  /** One result, tagged with the payload it carries. */
  datatype QueryResult<Id> =
    | ClaimId(id: Id)
    | PathId(ids: seq<Id>)
    | ClaimEncoded(claim: Bytes)
    | PathEncoded(claims: seq<Bytes>)
    | ClaimEnvelope(claim: Bytes)
    | PathEnvelope(claims: seq<Bytes>)
    | Native
    | ReportElement

  /** The library's result stream: its elements, whether it breaks after them, and its report. */
  datatype ResultStream<Id, Report> = ResultStream(results: seq<QueryResult<Id>>, broken: bool, report: Option<Report>)

  datatype WriteError = NoPayload | StreamFailed | WriterFailed

  /** Each framing has its media type, and a response is sent under that of its own. */
  const MEDIA_JSON_SEQ := "application/json-seq"
  const MEDIA_CBOR_SEQ := "application/cbor-seq"

  function MediaType(enc: Encoding): string {
    if enc == CBOR then MEDIA_CBOR_SEQ else MEDIA_JSON_SEQ
  }

  // --- what should reach the wire -----------------------------------------------------

  function Frame(enc: Encoding, payload: Bytes): Bytes {
    if enc == CBOR then payload else Framing.JsonFrame(payload)
  }

  function Frames(enc: Encoding, payloads: seq<Bytes>): Bytes {
    if payloads == [] then [] else Frame(enc, payloads[0]) + Frames(enc, payloads[1..])
  }

  function Prints<Id, Report>(lib: Library<Id, Report>, ids: seq<Id>): (r: seq<Bytes>)
    ensures |r| == |ids| && forall i | 0 <= i < |r| :: r[i] == lib.show(ids[i])
  {
    if ids == [] then [] else [lib.show(ids[0])] + Prints(lib, ids[1..])
  }

  function MarshalId<Id, Report>(lib: Library<Id, Report>, enc: Encoding, id: Id): Bytes {
    if enc == CBOR then Cbor.MarshalText(lib.show(id)) else Json.MarshalText(lib.show(id))
  }

  function MarshalIds<Id, Report>(lib: Library<Id, Report>, enc: Encoding, ids: seq<Id>): Bytes {
    if enc == CBOR then Cbor.MarshalTexts(Prints(lib, ids)) else Json.MarshalTexts(Prints(lib, ids))
  }

  function MarshalReport<Id, Report>(lib: Library<Id, Report>, enc: Encoding, report: Report): Bytes {
    if enc == CBOR then lib.reportCbor(report) else lib.reportJson(report)
  }

  /** The records a result becomes, one payload each: none for a report, or for a kind that carries no bytes. */
  function Payloads<Id, Report>(lib: Library<Id, Report>, enc: Encoding, r: QueryResult<Id>): seq<Bytes> {
    match r
    case ClaimId(id) => [MarshalId(lib, enc, id)]
    case PathId(ids) => [MarshalIds(lib, enc, ids)]
    case ClaimEncoded(b) => [b]
    case ClaimEnvelope(b) => [b]
    case PathEncoded(bs) => bs
    case PathEnvelope(bs) => bs
    case ReportElement => []
    case Native => []
  }

  /** The records of a list of results up to the first that carries no bytes. */
  function Sent<Id, Report>(lib: Library<Id, Report>, enc: Encoding, rs: seq<QueryResult<Id>>): seq<Bytes> {
    if rs == [] || rs[0].Native? then [] else Payloads(lib, enc, rs[0]) + Sent(lib, enc, rs[1..])
  }

  predicate Serializable<Id>(rs: seq<QueryResult<Id>>) {
    forall i | 0 <= i < |rs| :: !rs[i].Native?
  }

  /** The records a stream puts out, and the error that stops it, if one does. */
  function Served<Id, Report>(lib: Library<Id, Report>, enc: Encoding, s: ResultStream<Id, Report>)
    : (seq<Bytes>, Option<WriteError>)
  {
    var sent := Sent(lib, enc, s.results);
    if !Serializable(s.results) then (sent, Some(NoPayload))
    else if s.broken then (sent, Some(StreamFailed))
    else if s.report.None? then (sent, None)
    else (sent + [MarshalReport(lib, enc, s.report.value)], None)
  }

  /** On the wire: a JSON record between a record separator and a line feed, a CBOR record as it is. */
  lemma FramesTell(payload: Bytes)
    ensures Frame(JSON, payload) == [0x1e] + payload + [0x0a] && Frame(CBOR, payload) == payload
    ensures MediaType(JSON) == "application/json-seq" && MediaType(CBOR) == "application/cbor-seq"
  {
  }

  lemma {:induction false} FramesAppend(enc: Encoding, a: seq<Bytes>, b: seq<Bytes>)
    ensures Frames(enc, a + b) == Frames(enc, a) + Frames(enc, b)
  {
    if a == [] {
      assert a + b == b;
    } else {
      assert (a + b)[1..] == a[1..] + b;
      FramesAppend(enc, a[1..], b);
    }
  }

  // --- the writer ----------------------------------------------------------------------

  /**
   An io.Writer that may fail, or accept less than it was handed, at any byte. An `honest`
   one keeps io.Writer's contract: it never accepts less without saying so. `Write` may not
   be called again once it has failed.
   */
  class Writer {
    var accepted: Bytes
    var failed: bool
    const honest: bool

    constructor (honest: bool)
      ensures accepted == [] && !failed && this.honest == honest
    {
      accepted, failed, this.honest := [], false, honest;
    }

    method Write(p: Bytes) returns (n: nat)
      requires !failed
      modifies this
      ensures n <= |p| && accepted == old(accepted) + p[..n]
      ensures honest && n < |p| ==> failed
    {
      n :| 0 <= n <= |p|;
      accepted := accepted + p[..n];
      var fails: bool :| true;
      failed := fails || (honest && n < |p|);
    }
  }

  /**
   From `before` the writer has come to `after`, `n` bytes on: all of `whole` if it is honest
   and has not failed, a prefix of it if it is honest and has.
   */
  ghost predicate Took(honest: bool, failed: bool, before: Bytes, after: Bytes, n: nat, whole: Bytes) {
    && |after| == |before| + n
    && before <= after
    && (honest ==> after[|before|..] <= whole)
    && (honest && !failed ==> after == before + whole)
  }

  lemma TookThen(honest: bool, failed: bool, a: Bytes, b: Bytes, c: Bytes, m: nat, n: nat, x: Bytes, y: Bytes)
    requires Took(honest, false, a, b, m, x) && Took(honest, failed, b, c, n, y)
    ensures Took(honest, failed, a, c, m + n, x + y)
  {
    if honest {
      assert c[|a|..] == x + c[|b|..];
    }
  }

  /** A writer that failed on the way has also taken no more than a prefix of the longer text. */
  lemma TookPart(honest: bool, a: Bytes, b: Bytes, n: nat, x: Bytes, y: Bytes)
    requires Took(honest, true, a, b, n, x)
    ensures Took(honest, true, a, b, n, x + y)
  {
  }

  /** The parts in order, an empty one skipped. */
  method WriteParts(w: Writer, parts: seq<Bytes>) returns (n: nat)
    requires !w.failed
    modifies w
    ensures Took(w.honest, w.failed, old(w.accepted), w.accepted, n, Concat(parts))
  {
    n := 0;
    var i := 0;
    ghost var done: Bytes := [];
    while i < |parts|
      invariant i <= |parts| && !w.failed
      invariant Concat(parts) == done + Concat(parts[i..])
      invariant Took(w.honest, false, old(w.accepted), w.accepted, n, done)
    {
      var part := parts[i];
      ghost var had, had_n, rest := w.accepted, n, Concat(parts[i + 1..]);
      assert parts[i..][1..] == parts[i + 1..];
      Regroup(done, part, rest);
      if |part| > 0 {
        var written := w.Write(part);
        n := n + written;
        TookThen(w.honest, w.failed, old(w.accepted), had, w.accepted, had_n, written, done, part);
        if w.failed {
          TookPart(w.honest, old(w.accepted), w.accepted, n, done + part, rest);
          return;
        }
      } else {
        assert done + part == done;
      }
      done := done + part;
      i := i + 1;
    }
    assert done + [] == done;
  }

  lemma {:induction false} ConcatOfThree(a: Bytes, b: Bytes, c: Bytes)
    ensures Concat([a, b, c]) == a + b + c
  {
    var one, two, three := [c], [b, c], [a, b, c];
    assert two[1..] == one && three[1..] == two;
    assert Concat(one) == c + [] == c;
    assert Concat(two) == b + c;
    Regroup(a, b, c);
  }

  method WriteRecord(enc: Encoding, w: Writer, payload: Bytes) returns (n: nat)
    requires !w.failed
    modifies w
    ensures Took(w.honest, w.failed, old(w.accepted), w.accepted, n, Frame(enc, payload))
  {
    var prefix: Bytes := if enc == CBOR then [] else [Json.RS];
    var suffix: Bytes := if enc == CBOR then [] else [Json.LF];
    ConcatOfThree(prefix, payload, suffix);
    assert enc == CBOR ==> prefix + payload + suffix == payload;
    n := WriteParts(w, [prefix, payload, suffix]);
  }

  /** A route's claims, one record each. */
  method WriteRecords(enc: Encoding, w: Writer, payloads: seq<Bytes>) returns (n: nat)
    requires !w.failed
    modifies w
    ensures Took(w.honest, w.failed, old(w.accepted), w.accepted, n, Frames(enc, payloads))
  {
    n := 0;
    var i := 0;
    ghost var done: Bytes := [];
    while i < |payloads|
      invariant i <= |payloads| && !w.failed
      invariant Frames(enc, payloads) == done + Frames(enc, payloads[i..])
      invariant Took(w.honest, false, old(w.accepted), w.accepted, n, done)
    {
      ghost var had, had_n := w.accepted, n;
      ghost var frame, rest := Frame(enc, payloads[i]), Frames(enc, payloads[i + 1..]);
      assert payloads[i..][1..] == payloads[i + 1..];
      Regroup(done, frame, rest);
      var written := WriteRecord(enc, w, payloads[i]);
      n := n + written;
      TookThen(w.honest, w.failed, old(w.accepted), had, w.accepted, had_n, written, done, frame);
      if w.failed {
        TookPart(w.honest, old(w.accepted), w.accepted, n, done + frame, rest);
        return;
      }
      done := done + frame;
      i := i + 1;
    }
    assert done + [] == done;
  }

  lemma FramesOfOne(enc: Encoding, p: Bytes)
    ensures Frames(enc, [p]) == Frame(enc, p)
  {
    assert Frame(enc, p) + [] == Frame(enc, p);
  }

  /** The one payload a result's kind names; a kind that carries none is refused, the stream's own report with it. */
  method WriteResult<Id, Report>(lib: Library<Id, Report>, enc: Encoding, w: Writer, r: QueryResult<Id>)
    returns (n: nat, err: Option<WriteError>)
    requires !w.failed
    modifies w
    ensures Took(w.honest, w.failed, old(w.accepted), w.accepted, n, Frames(enc, Payloads(lib, enc, r)))
    ensures err == if w.failed then Some(WriterFailed)
                   else if r.Native? || r.ReportElement? then Some(NoPayload) else None
    ensures r.Native? || r.ReportElement? ==> !w.failed && n == 0
  {
    match r {
      case ClaimEncoded(b) =>
        FramesOfOne(enc, b);
        n := WriteRecord(enc, w, b);
      case PathEncoded(bs) =>
        n := WriteRecords(enc, w, bs);
      case ClaimEnvelope(b) =>
        FramesOfOne(enc, b);
        n := WriteRecord(enc, w, b);
      case PathEnvelope(bs) =>
        n := WriteRecords(enc, w, bs);
      case ClaimId(id) =>
        FramesOfOne(enc, MarshalId(lib, enc, id));
        n := WriteRecord(enc, w, MarshalId(lib, enc, id));
      case PathId(ids) =>
        FramesOfOne(enc, MarshalIds(lib, enc, ids));
        n := WriteRecord(enc, w, MarshalIds(lib, enc, ids));
      case _ =>
        assert Payloads(lib, enc, r) == [] && Frames(enc, []) == [];
        return 0, Some(NoPayload);
    }
    err := if w.failed then Some(WriterFailed) else None;
  }

  /** One turn of the loop, read off the specification. */
  lemma SentStep<Id, Report>(lib: Library<Id, Report>, enc: Encoding, rs: seq<QueryResult<Id>>, i: nat)
    requires i < |rs|
    ensures rs[i].Native? ==> Sent(lib, enc, rs[i..]) == [] && !Serializable(rs)
    ensures !rs[i].Native? ==>
              Frames(enc, Sent(lib, enc, rs[i..]))
              == Frames(enc, Payloads(lib, enc, rs[i])) + Frames(enc, Sent(lib, enc, rs[i + 1..]))
  {
    assert rs[i..][1..] == rs[i + 1..];
    FramesAppend(enc, Payloads(lib, enc, rs[i]), Sent(lib, enc, rs[i + 1..]));
  }

  lemma SentSkip<Id, Report>(lib: Library<Id, Report>, enc: Encoding, rs: seq<QueryResult<Id>>, i: nat)
    requires i < |rs| && rs[i].ReportElement?
    ensures Sent(lib, enc, rs[i..]) == Sent(lib, enc, rs[i + 1..])
  {
    assert rs[i..][1..] == rs[i + 1..];
    assert [] + Sent(lib, enc, rs[i + 1..]) == Sent(lib, enc, rs[i + 1..]);
  }

  /** The writer has taken the results before `i` from `a` to `b`, then result `i` as far as `c`. */
  lemma TookResult<Id, Report>(lib: Library<Id, Report>, enc: Encoding, rs: seq<QueryResult<Id>>, i: nat,
                               honest: bool, failed: bool, a: Bytes, b: Bytes, c: Bytes, m: nat, n: nat, done: Bytes)
    requires i < |rs| && Frames(enc, Sent(lib, enc, rs)) == done + Frames(enc, Sent(lib, enc, rs[i..]))
    requires Took(honest, false, a, b, m, done)
    requires Took(honest, failed, b, c, n, Frames(enc, Payloads(lib, enc, rs[i])))
    ensures failed || rs[i].Native? ==> Took(honest, failed, a, c, m + n, Frames(enc, Sent(lib, enc, rs)))
    ensures !failed && !rs[i].Native? ==>
              var next := done + Frames(enc, Payloads(lib, enc, rs[i]));
              && Took(honest, false, a, c, m + n, next)
              && Frames(enc, Sent(lib, enc, rs)) == next + Frames(enc, Sent(lib, enc, rs[i + 1..]))
  {
    var frames, rest := Frames(enc, Payloads(lib, enc, rs[i])), Frames(enc, Sent(lib, enc, rs[i + 1..]));
    SentStep(lib, enc, rs, i);
    Regroup(done, frames, rest);
    TookThen(honest, failed, a, b, c, m, n, done, frames);
    if rs[i].Native? {
      assert frames == [] && done + frames == done + [] == done;
    } else if failed {
      TookPart(honest, a, c, m + n, done + frames, rest);
    }
  }

  /** The writer has taken the results before `i`, `n` bytes of them. */
  ghost predicate SentUpTo<Id, Report>(lib: Library<Id, Report>, enc: Encoding, rs: seq<QueryResult<Id>>, i: nat,
                                       honest: bool, a: Bytes, b: Bytes, n: nat, done: Bytes)
    requires i <= |rs|
  {
    && Frames(enc, Sent(lib, enc, rs)) == done + Frames(enc, Sent(lib, enc, rs[i..]))
    && Took(honest, false, a, b, n, done)
  }

  /**
   Result `i`, the ones before it taken from `start` on. A report is stepped over: it is written
   last, by the caller.
   */
  method WriteNext<Id, Report>(lib: Library<Id, Report>, enc: Encoding, rs: seq<QueryResult<Id>>, i: nat, w: Writer,
                               n: nat, ghost start: Bytes, ghost done: Bytes)
    returns (m: nat, err: Option<WriteError>, ghost next: Bytes)
    requires i < |rs| && !w.failed && SentUpTo(lib, enc, rs, i, w.honest, start, w.accepted, n, done)
    modifies w
    ensures err == if w.failed then Some(WriterFailed) else if rs[i].Native? then Some(NoPayload) else None
    ensures err.None? ==> SentUpTo(lib, enc, rs, i + 1, w.honest, start, w.accepted, m, next)
    ensures err.Some? ==> Took(w.honest, w.failed, start, w.accepted, m, Frames(enc, Sent(lib, enc, rs)))
  {
    if rs[i].ReportElement? {
      SentSkip(lib, enc, rs, i);
      return n, None, done;
    }
    var written;
    ghost var had := w.accepted;
    written, err := WriteResult(lib, enc, w, rs[i]);
    TookResult(lib, enc, rs, i, w.honest, w.failed, start, had, w.accepted, n, written, done);
    m, next := n + written, done + Frames(enc, Payloads(lib, enc, rs[i]));
  }

  /** The results, up to an error. */
  method WriteResults<Id, Report>(lib: Library<Id, Report>, enc: Encoding, rs: seq<QueryResult<Id>>, w: Writer)
    returns (n: nat, err: Option<WriteError>)
    requires !w.failed
    modifies w
    ensures Took(w.honest, w.failed, old(w.accepted), w.accepted, n, Frames(enc, Sent(lib, enc, rs)))
    ensures err == if w.failed then Some(WriterFailed) else if Serializable(rs) then None else Some(NoPayload)
  {
    n, err := 0, None;
    var i := 0;
    ghost var done: Bytes := [];
    assert rs[0..] == rs;
    while i < |rs|
      invariant i <= |rs| && !w.failed && err.None?
      invariant forall k | 0 <= k < i :: !rs[k].Native?
      invariant SentUpTo(lib, enc, rs, i, w.honest, old(w.accepted), w.accepted, n, done)
    {
      n, err, done := WriteNext(lib, enc, rs, i, w, n, old(w.accepted), done);
      if err.Some? {
        return;
      }
      i := i + 1;
    }
    AllSent(lib, enc, rs, i, done);
  }

  lemma AllSent<Id, Report>(lib: Library<Id, Report>, enc: Encoding, rs: seq<QueryResult<Id>>, i: nat, done: Bytes)
    requires i == |rs| && Frames(enc, Sent(lib, enc, rs)) == done + Frames(enc, Sent(lib, enc, rs[i..]))
    ensures Frames(enc, Sent(lib, enc, rs)) == done
  {
    assert rs[i..] == [] && done + [] == done;
  }

  /**
   The count is what the writer accepted, whatever the writer; an honest one has taken a
   prefix of the served records, all of them when it did not fail, and then the error is the
   stream's own.
   */
  method WriteTo<Id, Report>(lib: Library<Id, Report>, enc: Encoding, s: ResultStream<Id, Report>, w: Writer)
    returns (n: nat, err: Option<WriteError>)
    requires !w.failed
    modifies w
    ensures Took(w.honest, w.failed, old(w.accepted), w.accepted, n, Frames(enc, Served(lib, enc, s).0))
    ensures err == if w.failed then Some(WriterFailed) else Served(lib, enc, s).1
  {
    ghost var sent := Sent(lib, enc, s.results);
    n, err := WriteResults(lib, enc, s.results, w);
    if err.Some? {
      if w.failed {
        FramesAppend(enc, sent, Served(lib, enc, s).0[|sent|..]);
        TookPart(w.honest, old(w.accepted), w.accepted, n, Frames(enc, sent),
                 Frames(enc, Served(lib, enc, s).0[|sent|..]));
        assert sent + Served(lib, enc, s).0[|sent|..] == Served(lib, enc, s).0;
      }
      return;
    }
    if s.broken {
      return n, Some(StreamFailed);
    }
    if s.report.Some? {
      var payload := MarshalReport(lib, enc, s.report.value);
      FramesAppend(enc, sent, [payload]);
      FramesOfOne(enc, payload);
      ghost var had, had_n := w.accepted, n;
      var written := WriteRecord(enc, w, payload);
      n := n + written;
      TookThen(w.honest, w.failed, old(w.accepted), had, w.accepted, had_n, written, Frames(enc, sent),
               Frame(enc, payload));
      if w.failed {
        err := Some(WriterFailed);
      }
    }
  }
}
