/**
 A query from one end to the other: the server writes its stream
 (adapters/endpoints/rest_http/respond.go), and the client reads whatever was accepted.
 */
module Exchange {
  import opened Bytes
  import opened Lists
  import opened Framing
  import opened Serve
  import opened Reader
  import opened RoundTrip

  /** The results up to the first that carries no bytes. */
  function Carried<Id>(rs: seq<QueryResult<Id>>): seq<QueryResult<Id>> {
    if rs == [] || rs[0].Native? then [] else [rs[0]] + Carried(rs[1..])
  }

  /** The stream was written to its end. */
  predicate Whole<Id, Report>(s: ResultStream<Id, Report>) {
    Serializable(s.results) && !s.broken
  }

  /** What reaches a reader: what was carried, and the report if the stream came to its end. */
  function Arriving<Id, Report>(s: ResultStream<Id, Report>): seq<Reading<Id, Report>> {
    AllReadings(Carried(s.results)) + if Whole(s) then ReportReading(s.report) else []
  }

  /** Of the two types a response is sent under, the parser makes nothing else. */
  ghost predicate NamesKept(mime: Mime) {
    forall enc :: mime(MediaType(enc)) == Some(MediaType(enc)) || mime(MediaType(enc)) == None
  }

  /** The reader splits by the framing that wrote. */
  lemma FramingIsKept(mime: Mime, enc: Encoding)
    requires NamesKept(mime)
    ensures FramingOf(mime, MediaType(enc)) == Some(enc)
  {
    var t := MediaType(enc);
    assert t != "" && !IsWhite(t[0]) && !IsWhite(t[|t| - 1]);
    assert Named(mime, t) == t;
  }

  /**
   The status is out before the body, so of the ways a write stops only a lost connection reaches
   the client as one.
   */
  method Ask<Id(!new), Report(!new)>(
    lib: Library<Id, Report>, mime: Mime, enc: Encoding, out: Output, s: ResultStream<Id, Report>, w: Writer)
    returns (err: Option<WriteError>, r: Result<seq<Reading<Id, Report>>, ReadError>)
    requires NamesKept(mime) && Lawful(lib)
    requires forall i | 0 <= i < |Carried(s.results)| :: Sound(lib, enc, Carried(s.results)[i])
    requires w.honest && !w.failed && w.accepted == []
    modifies w
    ensures !RoutesAreReadable(out) ==> r == Err(RouteBoundary)
    ensures RoutesAreReadable(out) && w.failed ==> r.Err?
    ensures RoutesAreReadable(out) && !w.failed ==> r == Ok(Arriving(s))
    ensures err.None? <==> !w.failed && Whole(s)
    ensures RoutesAreReadable(out) && err.None? ==> r == Ok(AllReadings(s.results) + ReportReading(s.report))
  {
    var n;
    n, err := WriteTo(lib, enc, s, w);
    var body := new ByteReader(w.accepted, w.failed);
    FramingIsKept(mime, enc);
    r := Query(lib, mime, out, MediaType(enc), body);
    ServedIsRead(lib, enc, s);
    if Whole(s) {
      AllCarried(s.results);
    }
  }

  lemma {:induction false} SentIsCarried<Id, Report>(lib: Library<Id, Report>, enc: Encoding, rs: seq<QueryResult<Id>>)
    ensures Sent(lib, enc, Carried(rs)) == Sent(lib, enc, rs)
  {
    if rs != [] && !rs[0].Native? {
      SentIsCarried(lib, enc, rs[1..]);
      SentCons(lib, enc, rs[0], Carried(rs[1..]));
    }
  }

  lemma {:induction false} AllCarried<Id>(rs: seq<QueryResult<Id>>)
    requires Serializable(rs)
    ensures Carried(rs) == rs
  {
    if rs != [] {
      assert !rs[0].Native?;
      AllCarried(rs[1..]);
    }
  }

  lemma {:induction false} CarriedIsSerializable<Id>(rs: seq<QueryResult<Id>>)
    ensures Serializable(Carried(rs))
  {
    if rs != [] {
      CarriedIsSerializable(rs[1..]);
    }
  }

  /** However the stream ends, reading what was served of it gives what it carried. */
  lemma {:induction false} ServedIsRead<Id(!new), Report(!new)>(lib: Library<Id, Report>, enc: Encoding,
                                                                s: ResultStream<Id, Report>)
    requires Lawful(lib) && forall i | 0 <= i < |Carried(s.results)| :: Sound(lib, enc, Carried(s.results)[i])
    ensures ReadBody(lib, enc, Frames(enc, Served(lib, enc, s).0)) == Ok(Arriving(s))
  {
    var report := if Whole(s) then s.report else None;
    SentIsCarried(lib, enc, s.results);
    CarriedIsSerializable(s.results);
    WhatIsServedIsRead(lib, enc, Carried(s.results), report);
  }

  /** So a reader can tell a stream that broke from one that did not exactly when a report was to close it. */
  lemma {:induction false} OnlyAReportTellsABreak<Id, Report>(s: ResultStream<Id, Report>)
    ensures Arriving(s.(broken := true)) != Arriving(s.(broken := false)) <==> Serializable(s.results) && s.report.Some?
  {
    var carried := AllReadings<Id, Report>(Carried(s.results));
    assert |carried + []| == |carried|;
    if s.report.Some? {
      assert |carried + ReportReading(s.report)| == |carried| + 1;
    }
  }

  /** An answer that closes with a report is the whole of the stream's. */
  lemma {:induction false} AReportEndsTheWhole<Id, Report>(s: ResultStream<Id, Report>)
    ensures (Arriving(s) != [] && Last(Arriving(s)).ReadReport?) <==> Whole(s) && s.report.Some?
  {
    NoReportAmongReadings<Id, Report>(Carried(s.results));
    var carried := AllReadings<Id, Report>(Carried(s.results));
    assert carried + [] == carried;
  }
}
