/**
 Looking up the registration of a key over the wire (client/contributor.go): two reads of stored
 records, neither of which asks for a report, and either of which may break on the server.
 */
module KeyLookup {
  import opened Bytes
  import opened Framing
  import opened Serve
  import opened Reader
  import opened RoundTrip
  import opened Exchange
  import ClientClaims
  import opened ContributorWindow

  type Claim = ClientClaims.Claim

  datatype LookupFailure = Unread(read: ReadError) | Unfound(reason: ContributorWindow.Error)

  /** The claims in stored records, each decoded as the library decodes it. */
  function ClaimsIn(decode: Bytes -> Claim, records: seq<Bytes>): (claims: seq<Claim>)
    ensures |claims| == |records| && forall i | 0 <= i < |records| :: claims[i] == decode(records[i])
  {
    seq(|records|, i requires 0 <= i < |records| => decode(records[i]))
  }

  // --- one read -----------------------------------------------------------------------

  lemma {:induction false} EnvelopesTellApart<Id, Report>(a: seq<Bytes>, b: seq<Bytes>)
    requires EnvelopesOf<Id, Report>(a) == EnvelopesOf<Id, Report>(b)
    ensures a == b
  {
    EnvelopesAre<Id, Report>(a);
    EnvelopesAre<Id, Report>(b);
    forall i | 0 <= i < |a| ensures a[i] == b[i] {
      assert EnvelopesOf<Id, Report>(a)[i] == EnvelopesOf<Id, Report>(b)[i];
    }
  }

  lemma {:induction false} EnvelopesAre<Id, Report>(bs: seq<Bytes>)
    ensures |EnvelopesOf<Id, Report>(bs)| == |bs|
    ensures forall i | 0 <= i < |bs| :: EnvelopesOf<Id, Report>(bs)[i] == ReadEnvelope(bs[i])
  {
    if bs != [] {
      EnvelopesAre<Id, Report>(bs[1..]);
    }
  }

  /** What arrives of stored records that come singly, the stream breaking after them or not. */
  lemma {:induction false} StoredArrive<Id(!new), Report(!new)>(lib: Library<Id, Report>, records: seq<Bytes>,
                                                                broken: bool)
    requires Lawful(lib) && forall i | 0 <= i < |records| :: Envelope(lib, records[i])
    ensures var s := ResultStream(Each<Id>(true, records), broken, None);
            ReadBody(lib, CBOR, Frames(CBOR, Served(lib, CBOR, s).0)) == Ok(EnvelopesOf(records))
  {
    var s: ResultStream<Id, Report> := ResultStream(Each<Id>(true, records), broken, None);
    EachIsSound(lib, records);
    EachCarriesBytes<Id>(true, records);
    AllCarried(s.results);
    ServedIsRead(lib, CBOR, s);
    EnvelopesRead<Id, Report>(records);
    assert EnvelopesOf<Id, Report>(records) + [] == EnvelopesOf<Id, Report>(records);
  }

  /** A read of stored records whose stream breaks after the first `k` answers with those, and no error. */
  method ReadStored<Id(!new), Report(!new)>(lib: Library<Id, Report>, mime: Mime, stored: seq<Bytes>, k: nat, w: Writer)
    returns (r: Result<seq<Bytes>, ReadError>)
    requires NamesKept(mime) && Lawful(lib)
    requires k <= |stored| && forall i | 0 <= i < |stored| :: Envelope(lib, stored[i])
    requires w.honest && !w.failed && w.accepted == []
    modifies w
    ensures if w.failed then r.Err? else r == Ok(stored[..k])
  {
    var s: ResultStream<Id, Report> := ResultStream(Each<Id>(true, stored[..k]), k < |stored|, None);
    var n, err := WriteTo(lib, CBOR, s, w);
    var body := new ByteReader(w.accepted, w.failed);
    FramingIsKept(mime, CBOR);
    r := QueryClaims(lib, mime, ShapeClaim, MediaType(CBOR), body);
    StoredArrive(lib, stored[..k], k < |stored|);
    NoReportAmongClaims<Id, Report>(stored[..k]);
    if r.Ok? && !w.failed {
      EnvelopesTellApart<Id, Report>(r.value, stored[..k]);
    }
  }

  // --- the lookup -----------------------------------------------------------------------

  /** A claim past either break that a window would have been read against, and that retires `id` before `at`. */
  ghost predicate RetiredPast(parse: Parser, id: ClientClaims.Id, registered: seq<Claim>, expiries: seq<Claim>,
                              pubkey: Bytes, at: int) {
    exists c :: (c in expiries || (c in registered && c.inline == Some(pubkey))) && RetiredOn(parse, id, c, at)
  }

  /**
   A registration live by what was read before the breaks is live by all there is exactly when
   nothing past them retires it.
   */
  lemma BreaksDecide(parse: Parser, self: Claim, registered: seq<Claim>, j: nat, expiries: seq<Claim>, k: nat,
                     pubkey: Bytes, at: int)
    requires j <= |registered| && k <= |expiries|
    requires Live(parse, self, expiries[..k] + Carrying(registered[..j], pubkey), at)
    ensures Live(parse, self, expiries + Carrying(registered, pubkey), at) <==>
            !RetiredPast(parse, self.id, registered[j..], expiries[k..], pubkey, at)
  {
    var read, all := expiries[..k] + Carrying(registered[..j], pubkey), expiries + Carrying(registered, pubkey);
    LiveMeans(parse, self, read, at);
    LiveMeans(parse, self, all, at);
    CarryingMembers(registered, pubkey);
    CarryingMembers(registered[..j], pubkey);
    assert registered == registered[..j] + registered[j..] && expiries == expiries[..k] + expiries[k..];
    assert forall c :: c in all <==>
                       c in read || c in expiries[k..] || (c in registered[j..] && c.inline == Some(pubkey));
  }

  /** Finds the registration a key signs under, the two reads breaking after the first `j` and `k` records. */
  method FindContributor<Id(!new), Report(!new)>(
    lib: Library<Id, Report>, mime: Mime, parse: Parser, decode: Bytes -> Claim,
    registered: seq<Bytes>, j: nat, expiries: seq<Bytes>, k: nat, pubkey: Bytes, at: int, w: Writer, x: Writer)
    returns (r: Result<Claim, LookupFailure>)
    requires NamesKept(mime) && Lawful(lib) && j <= |registered| && k <= |expiries|
    requires forall i | 0 <= i < |registered| :: Envelope(lib, registered[i])
    requires forall i | 0 <= i < |expiries| :: Envelope(lib, expiries[i])
    requires IdsIdentify(ClaimsIn(decode, registered))
    requires w != x && w.honest && !w.failed && w.accepted == [] && x.honest && !x.failed && x.accepted == []
    modifies w, x
    ensures pubkey == [] ==> r == Err(Unfound(NoPubkey))
    ensures r.Ok? ==> !w.failed && !x.failed
    ensures r == Err(Unfound(NoLiveContributor)) ==>
              var held := Carrying(ClaimsIn(decode, registered)[..j], pubkey);
              var read := ClaimsIn(decode, expiries)[..k] + held;
              forall c | c in held :: !Live(parse, c, read, at)
    ensures r.Ok? ==>
              var claims, dated := ClaimsIn(decode, registered), ClaimsIn(decode, expiries);
              && FirstAdmitting(parse, Carrying(claims[..j], pubkey), dated[..k], at, r.value)
              && (Live(parse, r.value, dated + Carrying(claims, pubkey), at) <==>
                  !RetiredPast(parse, r.value.id, claims[j..], dated[k..], pubkey, at))
  {
    if |pubkey| == 0 {
      return Err(Unfound(NoPubkey));
    }
    var held := ReadStored(lib, mime, registered, j, w);
    if held.Err? {
      return Err(Unread(held.error));
    }
    ghost var claims, dated := ClaimsIn(decode, registered), ClaimsIn(decode, expiries);
    var claimed := ClaimsIn(decode, held.value);
    assert claimed == claims[..j];
    var carrying := ContributorsFor(claimed, pubkey);
    if |carrying.value| == 0 {
      return Err(Unfound(NoLiveContributor));
    }
    var read := ReadStored(lib, mime, expiries, k, x);
    if read.Err? {
      return Err(Unread(read.error));
    }
    var ended := ClaimsIn(decode, read.value);
    assert ended == dated[..k];
    var found := ContributorFor(parse, claimed, ended, pubkey, at);
    if found.Err? {
      return Err(Unfound(found.error));
    }
    BreaksDecide(parse, found.value, claims, j, dated, k, pubkey, at);
    r := Ok(found.value);
  }

  /** A break before the one expiry claim there is: the key it retired is returned past its date. */
  lemma ABreakReturnsARetiredKey(parse: Parser)
    requires parse("2026-06-01T00:00:00Z") == Some(0)
    ensures var retired := ClientClaims.Claim("old", None, Some([1]), None, None, []);
            var edge := ClientClaims.Edge(true, "old", None, Some("2026-06-01T00:00:00Z"));
            var expiry := ClientClaims.Claim("end", None, None, None, None, [edge]);
            && FirstAdmitting(parse, Carrying([retired], [1]), [expiry][..0], 1, retired)
            && !Live(parse, retired, [expiry] + Carrying([retired], [1]), 1)
  {
    var retired := ClientClaims.Claim("old", None, Some([1]), None, None, []);
    var edge := ClientClaims.Edge(true, "old", None, Some("2026-06-01T00:00:00Z"));
    var expiry := ClientClaims.Claim("end", None, None, None, None, [edge]);
    var held := [retired];
    assert [retired][1..] == [] && Carrying(held, [1]) == held && [expiry][..0] + held == held;
    LiveMeans(parse, retired, held, 1);
    assert Live(parse, held[0], [expiry][..0] + held, 1);
    assert edge in expiry.edges && Retires(parse, "old", edge, 1);
    assert RetiredOn(parse, "old", expiry, 1) && expiry in [expiry] + held;
    LiveMeans(parse, retired, [expiry] + held, 1);
  }
}
