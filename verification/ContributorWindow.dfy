/**
 How long a contributor's key is good for (client/contributor_window.go), and which
 registration of a key signs at an instant (client/contributor.go).
 */
module ContributorWindow {
  import opened Bytes
  import opened Lists
  import opened ClientClaims

  /** The one timestamp form, and the reader of it the standard library supplies. */
  type Parser = string -> Option<int>

  datatype Window = Window(from: Option<int>, until: Option<int>, revoked: bool) {
    predicate Admits(at: int) {
      if from.Some? && at < from.value then false
      else until.None? || at <= until.value
    }
  }

  datatype Error = BadTimestamp | NoPubkey | NoLiveContributor

  // --- bounds --------------------------------------------------------------------

  function ParseBound(parse: Parser, raw: string): Result<Option<int>, Error> {
    if raw == "" then Ok(None)
    else if parse(raw).None? then Err(BadTimestamp)
    else Ok(parse(raw))
  }

  /** A bound of a claim or an edge, absent as none. */
  function Bound(parse: Parser, raw: Option<string>): Result<Option<int>, Error> {
    if raw.None? then Ok(None) else ParseBound(parse, raw.value)
  }

  predicate Expires(id: Id, e: Edge) {
    e.expiry && e.reference == id
  }

  /** When an edge ends the claim `id`: never, unless it is an expiry that names it. */
  function EdgeEnd(parse: Parser, id: Id, e: Edge): Result<Option<int>, Error> {
    if !Expires(id, e) then Ok(None) else Bound(parse, e.expiresAfter)
  }

  function Earlier(a: Option<int>, b: Option<int>): Option<int> {
    if a.None? then b else if b.None? || a.value <= b.value then a else b
  }

  /** The earliest end among the edges, or an error when one of them cannot be read. */
  function EarliestEnd(parse: Parser, id: Id, edges: seq<Edge>): Result<Option<int>, Error> {
    if edges == [] then Ok(None)
    else Sooner(EdgeEnd(parse, id, edges[0]), EarliestEnd(parse, id, edges[1..]))
  }

  function Sooner(a: Result<Option<int>, Error>, b: Result<Option<int>, Error>): Result<Option<int>, Error> {
    match (a, b)
    case (Ok(x), Ok(y)) => Ok(Earlier(x, y))
    case (Err(e), _) => Err(e)
    case (_, Err(e)) => Err(e)
  }

  /** The window of `self`, its end the sooner of its own and any an expiry edge imposes. */
  function WindowOf(parse: Parser, self: Claim, carriers: seq<Claim>): Result<Window, Error> {
    match (Bound(parse, self.validFrom), Bound(parse, self.expiresAfter))
    case (Err(e), _) => Err(e)
    case (_, Err(e)) => Err(e)
    case (Ok(from), Ok(until)) =>
      match EarliestEnd(parse, self.id, EdgesOf(carriers))
      case Err(e) => Err(e)
      case Ok(end) =>
        if end.Some? && (until.None? || end.value < until.value) then Ok(Window(from, end, true))
        else Ok(Window(from, until, false))
  }

  // --- the loops -------------------------------------------------------------------

  method Revocation(parse: Parser, id: Id, carriers: seq<Claim>) returns (r: Result<Option<int>, Error>)
    ensures r == EarliestEnd(parse, id, EdgesOf(carriers))
  {
    var earliest: Option<int> := None;
    var i := 0;
    ghost var all := EarliestEnd(parse, id, EdgesOf(carriers));
    assert carriers[0..] == carriers;
    SoonerUnit(all);
    while i < |carriers|
      invariant i <= |carriers|
      invariant all == Sooner(Ok(earliest), EarliestEnd(parse, id, EdgesOf(carriers[i..])))
    {
      ghost var later := EdgesOf(carriers[i + 1..]);
      assert carriers[i..][1..] == carriers[i + 1..];
      r := RevocationBy(parse, id, carriers[i].edges, earliest, later);
      if r.Err? {
        return;
      }
      earliest := r.value;
      i := i + 1;
    }
    SoonerUnit(Ok(earliest));
    r := Ok(earliest);
  }

  /** The inner loop: the earliest end so far, brought down by one carrier's edges. */
  method RevocationBy(parse: Parser, id: Id, edges: seq<Edge>, sofar: Option<int>, ghost later: seq<Edge>)
    returns (r: Result<Option<int>, Error>)
    ensures r.Ok? ==>
              Sooner(Ok(sofar), EarliestEnd(parse, id, edges + later)) == Sooner(r, EarliestEnd(parse, id, later))
    ensures r.Err? ==> Sooner(Ok(sofar), EarliestEnd(parse, id, edges + later)) == r
  {
    var earliest := sofar;
    var j := 0;
    ghost var all := Sooner(Ok(sofar), EarliestEnd(parse, id, edges + later));
    assert edges[0..] == edges;
    while j < |edges|
      invariant j <= |edges|
      invariant all == Sooner(Ok(earliest), EarliestEnd(parse, id, edges[j..] + later))
    {
      var e := edges[j];
      assert (edges[j..] + later)[1..] == edges[j + 1..] + later;
      SoonerAssociates(Ok(earliest), EdgeEnd(parse, id, e), EarliestEnd(parse, id, edges[j + 1..] + later));
      if e.expiry && e.reference == id {
        var at := Bound(parse, e.expiresAfter);
        if at.Err? {
          return Err(at.error);
        }
        if at.value.Some? && (earliest.None? || at.value.value < earliest.value) {
          earliest := at.value;
        }
      }
      j := j + 1;
    }
    assert edges[j..] + later == later;
    r := Ok(earliest);
  }

  lemma SoonerUnit(a: Result<Option<int>, Error>)
    ensures Sooner(Ok(None), a) == a && Sooner(a, Ok(None)) == a
  {
  }

  lemma SoonerAssociates(a: Result<Option<int>, Error>, b: Result<Option<int>, Error>, c: Result<Option<int>, Error>)
    ensures Sooner(a, Sooner(b, c)) == Sooner(Sooner(a, b), c)
  {
  }

  method ContributorWindowOf(parse: Parser, self: Claim, carriers: seq<Claim>) returns (r: Result<Window, Error>)
    ensures r == WindowOf(parse, self, carriers)
  {
    var from := Bound(parse, self.validFrom);
    if from.Err? {
      return Err(from.error);
    }
    var until := Bound(parse, self.expiresAfter);
    if until.Err? {
      return Err(until.error);
    }
    var w := Window(from.value, until.value, false);
    var revoked := Revocation(parse, self.id, carriers);
    if revoked.Err? {
      return Err(revoked.error);
    }
    if revoked.value.Some? && (w.until.None? || revoked.value.value < w.until.value) {
      w := Window(w.from, revoked.value, true);
    }
    r := Ok(w);
  }

  // --- what a window means -------------------------------------------------------------

  /** Some expiry edge naming `id` carries a date that cannot be read. */
  ghost predicate Unreadable(parse: Parser, id: Id, edges: seq<Edge>) {
    exists e :: e in edges && EdgeEnd(parse, id, e).Err?
  }

  /** `at` lies no later than every end the edges impose. */
  ghost predicate BeforeEveryEnd(parse: Parser, id: Id, edges: seq<Edge>, at: int) {
    forall e | e in edges && EdgeEnd(parse, id, e).Ok? && EdgeEnd(parse, id, e).value.Some? ::
      at <= EdgeEnd(parse, id, e).value.value
  }

  lemma {:induction false} EarliestEndIsAMinimum(parse: Parser, id: Id, edges: seq<Edge>)
    ensures EarliestEnd(parse, id, edges).Err? <==> Unreadable(parse, id, edges)
    ensures EarliestEnd(parse, id, edges).Ok? ==>
              var m := EarliestEnd(parse, id, edges).value;
              && (forall at :: BeforeEveryEnd(parse, id, edges, at) <==> m.None? || at <= m.value)
              && (m.Some? ==> exists e :: e in edges && EdgeEnd(parse, id, e) == Ok(m))
  {
    if edges != [] {
      var head, tail := edges[0], edges[1..];
      EarliestEndIsAMinimum(parse, id, tail);
      assert forall e :: e in edges <==> e == head || e in tail;
      assert Unreadable(parse, id, edges) <==> EdgeEnd(parse, id, head).Err? || Unreadable(parse, id, tail);
      assert forall at :: BeforeEveryEnd(parse, id, edges, at) <==>
                          BeforeEveryEnd(parse, id, [head], at) && BeforeEveryEnd(parse, id, tail, at);
      assert head in edges;
    }
  }

  /** Some expiry edge naming `id` ends it before `until`. */
  ghost predicate Shortened(parse: Parser, id: Id, edges: seq<Edge>, until: Option<int>) {
    exists e :: e in edges && EndsBefore(EdgeEnd(parse, id, e), until)
  }

  predicate EndsBefore(end: Result<Option<int>, Error>, until: Option<int>) {
    end.Ok? && end.value.Some? && (until.None? || end.value.value < until.value)
  }

  /**
   A window admits an instant exactly when it falls within the claim's own bounds and no
   later than the date of any expiry edge naming it; it is said revoked exactly when such a
   date, and not its own bound, ends it.
   */
  lemma WindowMeans(parse: Parser, self: Claim, carriers: seq<Claim>, at: int)
    requires WindowOf(parse, self, carriers).Ok?
    ensures var w := WindowOf(parse, self, carriers).value;
            var from := Bound(parse, self.validFrom).value;
            var until := Bound(parse, self.expiresAfter).value;
            && (w.Admits(at) <==>
                && (from.None? || from.value <= at) && (until.None? || at <= until.value)
                && BeforeEveryEnd(parse, self.id, EdgesOf(carriers), at))
            && (w.revoked <==> Shortened(parse, self.id, EdgesOf(carriers), until))
  {
    var edges := EdgesOf(carriers);
    EarliestEndIsAMinimum(parse, self.id, edges);
    var m := EarliestEnd(parse, self.id, edges).value;
    var until := Bound(parse, self.expiresAfter).value;
    if m.Some? {
      assert BeforeEveryEnd(parse, self.id, edges, m.value);
      var e :| e in edges && EdgeEnd(parse, self.id, e) == Ok(m);
      assert EndsBefore(EdgeEnd(parse, self.id, e), until) <==> until.None? || m.value < until.value;
    } else {
      forall e | e in edges ensures !EndsBefore(EdgeEnd(parse, self.id, e), until) {
        var end := EdgeEnd(parse, self.id, e);
        var past := if end.Ok? && end.value.Some? then end.value.value + 1 else 0;
        assert BeforeEveryEnd(parse, self.id, edges, past);
      }
    }
  }

  lemma WindowFails(parse: Parser, self: Claim, carriers: seq<Claim>)
    ensures WindowOf(parse, self, carriers).Err? <==>
            || Bound(parse, self.validFrom).Err? || Bound(parse, self.expiresAfter).Err?
            || Unreadable(parse, self.id, EdgesOf(carriers))
  {
    EarliestEndIsAMinimum(parse, self.id, EdgesOf(carriers));
  }

  lemma {:induction false} BadTimestampOnly(parse: Parser, id: Id, edges: seq<Edge>)
    ensures EarliestEnd(parse, id, edges).Err? ==> EarliestEnd(parse, id, edges) == Err(BadTimestamp)
  {
    if edges != [] {
      BadTimestampOnly(parse, id, edges[1..]);
    }
  }

  /** Neither the order of carriers nor the grouping or repetition of their edges matters. */
  lemma WindowIgnoresOrder(parse: Parser, self: Claim, a: seq<Claim>, b: seq<Claim>)
    requires forall e :: e in EdgesOf(a) <==> e in EdgesOf(b)
    ensures WindowOf(parse, self, a) == WindowOf(parse, self, b)
  {
    SameEdgesSameEnd(parse, self.id, EdgesOf(a), EdgesOf(b));
  }

  lemma SameEdgesSameEnd(parse: Parser, id: Id, a: seq<Edge>, b: seq<Edge>)
    requires forall e :: e in a <==> e in b
    ensures EarliestEnd(parse, id, a) == EarliestEnd(parse, id, b)
  {
    EarliestEndIsAMinimum(parse, id, a);
    EarliestEndIsAMinimum(parse, id, b);
    assert Unreadable(parse, id, a) <==> Unreadable(parse, id, b);
    BadTimestampOnly(parse, id, a);
    BadTimestampOnly(parse, id, b);
    if EarliestEnd(parse, id, a).Ok? {
      assert forall at :: BeforeEveryEnd(parse, id, a, at) <==> BeforeEveryEnd(parse, id, b, at);
      var m, n := EarliestEnd(parse, id, a).value, EarliestEnd(parse, id, b).value;
      if m.Some? { assert BeforeEveryEnd(parse, id, a, m.value) && !BeforeEveryEnd(parse, id, a, m.value + 1); }
      if n.Some? { assert BeforeEveryEnd(parse, id, b, n.value) && !BeforeEveryEnd(parse, id, b, n.value + 1); }
    }
  }

  /** More carriers never admit an instant that fewer refused. */
  lemma MoreCarriersNeverWiden(parse: Parser, self: Claim, carriers: seq<Claim>, more: seq<Claim>, at: int)
    requires WindowOf(parse, self, carriers + more).Ok? && WindowOf(parse, self, carriers + more).value.Admits(at)
    ensures WindowOf(parse, self, carriers).Ok? && WindowOf(parse, self, carriers).value.Admits(at)
  {
    EdgesOfAppend(carriers, more);
    WindowFails(parse, self, carriers + more);
    WindowFails(parse, self, carriers);
    assert WindowOf(parse, self, carriers).Ok?;
    WindowMeans(parse, self, carriers + more, at);
    WindowMeans(parse, self, carriers, at);
  }

  // --- a window in the claims' own terms ----------------------------------------------------

  /** A date that is there, not empty, and read as `t`. */
  predicate ReadAs(parse: Parser, raw: Option<string>, t: int) {
    raw.Some? && raw.value != "" && parse(raw.value) == Some(t)
  }

  /** A date that is there, not empty, and not to be read. */
  predicate Garbled(parse: Parser, raw: Option<string>) {
    raw.Some? && raw.value != "" && parse(raw.value).None?
  }

  /** An edge of one of the claims is an expiry that names `id`. */
  ghost predicate Names(carriers: seq<Claim>, id: Id, e: Edge) {
    exists c :: c in carriers && e in c.edges && e.expiry && e.reference == id
  }

  lemma BoundReads(parse: Parser, raw: Option<string>)
    ensures Bound(parse, raw).Err? <==> Garbled(parse, raw)
    ensures forall t :: Bound(parse, raw) == Ok(Some(t)) <==> ReadAs(parse, raw, t)
    ensures forall t | ReadAs(parse, raw, t) :: Bound(parse, raw).value == Some(t)
  {
  }

  lemma EdgesNaming(carriers: seq<Claim>, id: Id)
    ensures forall e :: Names(carriers, id, e) <==> e in EdgesOf(carriers) && e.expiry && e.reference == id
  {
    forall e ensures Names(carriers, id, e) <==> e in EdgesOf(carriers) && e.expiry && e.reference == id {
      EdgesOfMembers(carriers, e);
    }
  }

  /**
   The window of a claim, read off the fields: it fails exactly when a bound of its own, or of an
   expiry edge naming it, is garbled, and admits what lies from its own beginning to its own end
   and to the date of every such edge.
   */
  lemma WindowSays(parse: Parser, self: Claim, carriers: seq<Claim>, at: int)
    ensures WindowOf(parse, self, carriers).Err? <==>
            || Garbled(parse, self.validFrom) || Garbled(parse, self.expiresAfter)
            || exists e :: Names(carriers, self.id, e) && Garbled(parse, e.expiresAfter)
    ensures WindowOf(parse, self, carriers).Ok? ==>
              (WindowOf(parse, self, carriers).value.Admits(at) <==>
               && (forall from | ReadAs(parse, self.validFrom, from) :: from <= at)
               && (forall until | ReadAs(parse, self.expiresAfter, until) :: at <= until)
               && (forall e, end | Names(carriers, self.id, e) && ReadAs(parse, e.expiresAfter, end) :: at <= end))
    ensures WindowOf(parse, self, carriers).Ok? ==>
              (WindowOf(parse, self, carriers).value.revoked <==>
               exists e, end :: Names(carriers, self.id, e) && ReadAs(parse, e.expiresAfter, end)
                                && forall until | ReadAs(parse, self.expiresAfter, until) :: end < until)
  {
    var edges := EdgesOf(carriers);
    EdgesNaming(carriers, self.id);
    BoundReads(parse, self.validFrom);
    BoundReads(parse, self.expiresAfter);
    forall e: Edge
      ensures Bound(parse, e.expiresAfter).Err? <==> Garbled(parse, e.expiresAfter)
      ensures forall t :: Bound(parse, e.expiresAfter) == Ok(Some(t)) <==> ReadAs(parse, e.expiresAfter, t)
    {
      BoundReads(parse, e.expiresAfter);
    }
    WindowFails(parse, self, carriers);
    assert Unreadable(parse, self.id, edges) <==>
           exists e :: Names(carriers, self.id, e) && Garbled(parse, e.expiresAfter);
    if WindowOf(parse, self, carriers).Ok? {
      WindowMeans(parse, self, carriers, at);
      EndsAreDates(parse, self.id, carriers, at);
      BoundBefore(parse, self.validFrom);
      BoundBefore(parse, self.expiresAfter);
      ShorteningIsEarlier(parse, self, carriers);
    }
  }

  lemma ShorteningIsEarlier(parse: Parser, self: Claim, carriers: seq<Claim>)
    requires WindowOf(parse, self, carriers).Ok?
    ensures Shortened(parse, self.id, EdgesOf(carriers), Bound(parse, self.expiresAfter).value) <==>
            exists e, end :: Names(carriers, self.id, e) && ReadAs(parse, e.expiresAfter, end)
                             && forall until | ReadAs(parse, self.expiresAfter, until) :: end < until
  {
    var id, edges, until := self.id, EdgesOf(carriers), Bound(parse, self.expiresAfter).value;
    EdgesNaming(carriers, id);
    BoundReads(parse, self.expiresAfter);
    if Shortened(parse, id, edges, until) {
      var e :| e in edges && EndsBefore(EdgeEnd(parse, id, e), until);
      var end := EdgeEnd(parse, id, e).value.value;
      assert Names(carriers, id, e) && ReadAs(parse, e.expiresAfter, end);
    }
    forall e, end | Names(carriers, id, e) && ReadAs(parse, e.expiresAfter, end)
                    && forall until | ReadAs(parse, self.expiresAfter, until) :: end < until
      ensures Shortened(parse, id, edges, until)
    {
      BoundBefore(parse, self.expiresAfter);
      assert EndsBefore(EdgeEnd(parse, id, e), until);
    }
  }

  lemma BoundBefore(parse: Parser, raw: Option<string>)
    requires Bound(parse, raw).Ok?
    ensures Bound(parse, raw).value.Some? ==> ReadAs(parse, raw, Bound(parse, raw).value.value)
  {
  }

  lemma EndsAreDates(parse: Parser, id: Id, carriers: seq<Claim>, at: int)
    requires forall e | e in EdgesOf(carriers) :: EdgeEnd(parse, id, e).Ok?
    ensures BeforeEveryEnd(parse, id, EdgesOf(carriers), at) <==>
            forall e, end | Names(carriers, id, e) && ReadAs(parse, e.expiresAfter, end) :: at <= end
  {
    var edges := EdgesOf(carriers);
    EdgesNaming(carriers, id);
    forall e, end | Names(carriers, id, e) && ReadAs(parse, e.expiresAfter, end)
      ensures e in edges && EdgeEnd(parse, id, e) == Ok(Some(end)) {}
    if forall e, end | Names(carriers, id, e) && ReadAs(parse, e.expiresAfter, end) :: at <= end {
      forall e | e in edges && EdgeEnd(parse, id, e).value.Some? ensures at <= EdgeEnd(parse, id, e).value.value {
        assert Names(carriers, id, e) && ReadAs(parse, e.expiresAfter, EdgeEnd(parse, id, e).value.value);
      }
    }
  }

  function Relevant(id: Id, edges: seq<Edge>): seq<Edge> {
    if edges == [] then []
    else (if edges[0].expiry && edges[0].reference == id then [edges[0]] else []) + Relevant(id, edges[1..])
  }

  lemma {:induction false} RelevantDecide(parse: Parser, id: Id, edges: seq<Edge>)
    ensures EarliestEnd(parse, id, edges) == EarliestEnd(parse, id, Relevant(id, edges))
    ensures forall e :: e in Relevant(id, edges) <==> e in edges && e.expiry && e.reference == id
  {
    if edges != [] {
      var rest := Relevant(id, edges[1..]);
      RelevantDecide(parse, id, edges[1..]);
      assert edges == [edges[0]] + edges[1..];
      if edges[0].expiry && edges[0].reference == id {
        assert ([edges[0]] + rest)[1..] == rest;
      } else {
        assert [] + rest == rest;
        SoonerUnit(EarliestEnd(parse, id, edges[1..]));
      }
    }
  }

  /** Edges that are no expiry, or name another claim, change no window, whoever carries them. */
  lemma WindowIgnoresOthers(parse: Parser, self: Claim, a: seq<Claim>, b: seq<Claim>)
    requires forall e: Edge | e.expiry && e.reference == self.id :: e in EdgesOf(a) <==> e in EdgesOf(b)
    ensures WindowOf(parse, self, a) == WindowOf(parse, self, b)
  {
    RelevantDecide(parse, self.id, EdgesOf(a));
    RelevantDecide(parse, self.id, EdgesOf(b));
    SameEdgesSameEnd(parse, self.id, Relevant(self.id, EdgesOf(a)), Relevant(self.id, EdgesOf(b)));
  }

  // --- the registration a key signs under ------------------------------------------------

  function Carrying(contributors: seq<Claim>, pubkey: Bytes): seq<Claim> {
    if contributors == [] then []
    else (if contributors[0].inline == Some(pubkey) then [contributors[0]] else [])
         + Carrying(contributors[1..], pubkey)
  }

  method ContributorsFor(contributors: seq<Claim>, pubkey: Bytes) returns (r: Result<seq<Claim>, Error>)
    ensures r == if |pubkey| == 0 then Err(NoPubkey) else Ok(Carrying(contributors, pubkey))
  {
    if |pubkey| == 0 {
      return Err(NoPubkey);
    }
    var carrying: seq<Claim> := [];
    var i := 0;
    assert contributors[0..] == contributors;
    while i < |contributors|
      invariant i <= |contributors|
      invariant CarriedSoFar(contributors, pubkey, i, carrying)
    {
      CarryOne(contributors, pubkey, i, carrying);
      var content := contributors[i].inline;
      if content.Some? && content.value == pubkey {
        carrying := carrying + [contributors[i]];
      }
      i := i + 1;
    }
    assert carrying + [] == carrying;
    r := Ok(carrying);
  }

  /** Of one claim it is that claim or none, and of two lists what it is of one and then of the other. */
  lemma {:induction false} CarryingInOrder(a: seq<Claim>, b: seq<Claim>, c: Claim, pubkey: Bytes)
    ensures Carrying([c], pubkey) == if c.inline == Some(pubkey) then [c] else []
    ensures Carrying(a + b, pubkey) == Carrying(a, pubkey) + Carrying(b, pubkey)
  {
    assert [c][1..] == [];
    if a == [] {
      assert a + b == b;
    } else {
      assert (a + b)[1..] == a[1..] + b;
      CarryingInOrder(a[1..], b, c, pubkey);
      Regroup(if a[0].inline == Some(pubkey) then [a[0]] else [], Carrying(a[1..], pubkey), Carrying(b, pubkey));
    }
  }

  ghost predicate CarriedSoFar(contributors: seq<Claim>, pubkey: Bytes, i: nat, carrying: seq<Claim>)
    requires i <= |contributors|
  {
    carrying + Carrying(contributors[i..], pubkey) == Carrying(contributors, pubkey)
  }

  lemma CarryOne(contributors: seq<Claim>, pubkey: Bytes, i: nat, carrying: seq<Claim>)
    requires i < |contributors| && CarriedSoFar(contributors, pubkey, i, carrying)
    ensures CarriedSoFar(contributors, pubkey, i + 1,
                         if contributors[i].inline == Some(pubkey) then carrying + [contributors[i]] else carrying)
  {
    assert contributors[i..][1..] == contributors[i + 1..];
    Regroup(carrying, [contributors[i]], Carrying(contributors[i + 1..], pubkey));
    assert [] + Carrying(contributors[i + 1..], pubkey) == Carrying(contributors[i + 1..], pubkey);
  }

  /** An id names one claim. */
  ghost predicate IdsIdentify(claims: seq<Claim>) {
    forall i, j | 0 <= i < |claims| && 0 <= j < |claims| && claims[i].id == claims[j].id :: claims[i] == claims[j]
  }

  method ContributorWindows(parse: Parser, held: seq<Claim>, expiries: seq<Claim>)
    returns (r: Result<map<Id, Window>, Error>)
    requires IdsIdentify(held)
    ensures r.Err? <==> exists i :: 0 <= i < |held| && WindowOf(parse, held[i], expiries + held).Err?
    ensures r.Ok? ==> forall i | 0 <= i < |held| ::
                held[i].id in r.value && WindowOf(parse, held[i], expiries + held) == Ok(r.value[held[i].id])
  {
    var carriers := expiries + held;
    var windows: map<Id, Window> := map[];
    for i := 0 to |held|
      invariant forall k | 0 <= k < i :: held[k].id in windows
                                         && WindowOf(parse, held[k], carriers) == Ok(windows[held[k].id])
    {
      var w := ContributorWindowOf(parse, held[i], carriers);
      if w.Err? {
        return Err(w.error);
      }
      windows := windows[held[i].id := w.value];
    }
    r := Ok(windows);
  }

  /** `c` is the first of `held` whose window, shortened by the expiries and by `held` itself, admits `at`. */
  ghost predicate FirstAdmitting(parse: Parser, held: seq<Claim>, expiries: seq<Claim>, at: int, c: Claim) {
    exists i :: 0 <= i < |held| && held[i] == c && Live(parse, held[i], expiries + held, at)
                && forall j | 0 <= j < i :: !Live(parse, held[j], expiries + held, at)
  }

  predicate Live(parse: Parser, self: Claim, carriers: seq<Claim>, at: int) {
    WindowOf(parse, self, carriers).Ok? && WindowOf(parse, self, carriers).value.Admits(at)
  }

  function FirstLive(parse: Parser, held: seq<Claim>, carriers: seq<Claim>, at: int): Result<Claim, Error> {
    if held == [] then Err(NoLiveContributor)
    else if Live(parse, held[0], carriers, at) then Ok(held[0])
    else FirstLive(parse, held[1..], carriers, at)
  }

  /** The registration of a key, or why there is none. */
  ghost function Found(parse: Parser, contributors: seq<Claim>, expiries: seq<Claim>, pubkey: Bytes, at: int)
    : Result<Claim, Error>
  {
    var held := Carrying(contributors, pubkey);
    if |pubkey| == 0 then Err(NoPubkey)
    else if exists c :: c in held && WindowOf(parse, c, expiries + held).Err? then Err(BadTimestamp)
    else FirstLive(parse, held, expiries + held, at)
  }

  lemma {:induction false} FirstLiveAt(parse: Parser, held: seq<Claim>, carriers: seq<Claim>, at: int, i: nat)
    requires i <= |held| && forall j | 0 <= j < i :: !Live(parse, held[j], carriers, at)
    ensures FirstLive(parse, held, carriers, at)
         == if i < |held| && Live(parse, held[i], carriers, at) then Ok(held[i])
            else FirstLive(parse, held[i..], carriers, at)
  {
    if i > 0 {
      assert held[1..][i - 1..] == held[i..];
      FirstLiveAt(parse, held[1..], carriers, at, i - 1);
    } else {
      assert held[0..] == held;
    }
  }

  lemma FoundAt(parse: Parser, contributors: seq<Claim>, expiries: seq<Claim>, pubkey: Bytes, at: int,
                held: seq<Claim>, i: nat)
    requires |pubkey| > 0 && held == Carrying(contributors, pubkey) && i <= |held|
    requires forall j | 0 <= j < |held| :: WindowOf(parse, held[j], expiries + held).Ok?
    requires forall j | 0 <= j < i :: !Live(parse, held[j], expiries + held, at)
    ensures i < |held| && Live(parse, held[i], expiries + held, at) ==>
              Found(parse, contributors, expiries, pubkey, at) == Ok(held[i])
    ensures i == |held| ==> Found(parse, contributors, expiries, pubkey, at) == Err(NoLiveContributor)
  {
    FirstLiveAt(parse, held, expiries + held, at, i);
  }

  lemma {:induction false} FirstLiveAlike(parse: Parser, held: seq<Claim>, a: seq<Claim>, b: seq<Claim>, at: int)
    requires forall c | c in held :: WindowOf(parse, c, a) == WindowOf(parse, c, b)
    ensures FirstLive(parse, held, a, at) == FirstLive(parse, held, b, at)
  {
    if held != [] {
      assert held[0] in held && forall c | c in held[1..] :: c in held;
      FirstLiveAlike(parse, held[1..], a, b, at);
    }
  }

  /** What else the expiries carry, edges of other types or naming other claims, changes no answer. */
  lemma FoundIgnoresOthers(parse: Parser, contributors: seq<Claim>, a: seq<Claim>, b: seq<Claim>, pubkey: Bytes,
                           at: int)
    requires forall c, e: Edge | c in contributors && e.expiry && e.reference == c.id :: e in EdgesOf(a) <==>
                                                                                         e in EdgesOf(b)
    ensures Found(parse, contributors, a, pubkey, at) == Found(parse, contributors, b, pubkey, at)
  {
    var held := Carrying(contributors, pubkey);
    CarryingMembers(contributors, pubkey);
    EdgesOfAppend(a, held);
    EdgesOfAppend(b, held);
    forall c | c in held ensures WindowOf(parse, c, a + held) == WindowOf(parse, c, b + held) {
      WindowIgnoresOthers(parse, c, a + held, b + held);
    }
    FirstLiveAlike(parse, held, a + held, b + held, at);
  }

  method ContributorFor(parse: Parser, contributors: seq<Claim>, expiries: seq<Claim>, pubkey: Bytes, at: int)
    returns (r: Result<Claim, Error>)
    requires IdsIdentify(contributors)
    ensures r == Found(parse, contributors, expiries, pubkey, at)
    ensures r == Err(NoPubkey) <==> |pubkey| == 0
    ensures |pubkey| > 0 ==>
              var held := Carrying(contributors, pubkey);
              && (r == Err(BadTimestamp) <==>
                  exists i :: 0 <= i < |held| && WindowOf(parse, held[i], expiries + held).Err?)
              && (r.Ok? ==> FirstAdmitting(parse, held, expiries, at, r.value))
              && (r == Err(NoLiveContributor) ==>
                    forall i | 0 <= i < |held| :: !Live(parse, held[i], expiries + held, at))
  {
    var found := ContributorsFor(contributors, pubkey);
    if found.Err? {
      return Err(found.error);
    }
    var held := found.value;
    if |held| == 0 {
      return Err(NoLiveContributor);
    }
    CarryingIdentify(contributors, pubkey);
    var windows := ContributorWindows(parse, held, expiries);
    if windows.Err? {
      WindowsFailAlike(parse, held, expiries + held);
      return Err(BadTimestamp);
    }
    for i := 0 to |held|
      invariant forall j | 0 <= j < i :: !Live(parse, held[j], expiries + held, at)
    {
      FoundAt(parse, contributors, expiries, pubkey, at, held, i);
      if windows.value[held[i].id].Admits(at) {
        return Ok(held[i]);
      }
    }
    FoundAt(parse, contributors, expiries, pubkey, at, held, |held|);
    r := Err(NoLiveContributor);
  }

  lemma WindowsFailAlike(parse: Parser, held: seq<Claim>, carriers: seq<Claim>)
    ensures forall i | 0 <= i < |held| && WindowOf(parse, held[i], carriers).Err? ::
              WindowOf(parse, held[i], carriers) == Err(BadTimestamp)
  {
    forall i | 0 <= i < |held| && WindowOf(parse, held[i], carriers).Err?
      ensures WindowOf(parse, held[i], carriers) == Err(BadTimestamp)
    {
      BadTimestampOnly(parse, held[i].id, EdgesOf(carriers));
    }
  }

  lemma {:induction false} CarryingMembers(contributors: seq<Claim>, pubkey: Bytes)
    ensures forall c :: c in Carrying(contributors, pubkey) <==> c in contributors && c.inline == Some(pubkey)
  {
    if contributors != [] {
      CarryingMembers(contributors[1..], pubkey);
      assert contributors == [contributors[0]] + contributors[1..];
    }
  }

  lemma CarryingIdentify(contributors: seq<Claim>, pubkey: Bytes)
    requires IdsIdentify(contributors)
    ensures IdsIdentify(Carrying(contributors, pubkey))
  {
    CarryingMembers(contributors, pubkey);
    var held := Carrying(contributors, pubkey);
    forall i, j | 0 <= i < |held| && 0 <= j < |held| && held[i].id == held[j].id ensures held[i] == held[j] {
      assert held[i] in contributors && held[j] in contributors;
    }
  }

  // --- expiry edges a registration is not read against ------------------------------------

  /** An edge that would refuse the contributor at `id` the instant `at`: unreadable, or dated before it. */
  predicate Retires(parse: Parser, id: Id, e: Edge, at: int) {
    var end := EdgeEnd(parse, id, e);
    end.Err? || (end.value.Some? && end.value.value < at)
  }

  /** A contributor claim of another key carries an edge that retires `id` before `at`. */
  ghost predicate RetiredElsewhere(parse: Parser, id: Id, contributors: seq<Claim>, pubkey: Bytes, at: int) {
    exists c :: c in contributors && c.inline != Some(pubkey) && RetiredOn(parse, id, c, at)
  }

  ghost predicate RetiredOn(parse: Parser, id: Id, c: Claim, at: int) {
    exists e :: e in c.edges && Retires(parse, id, e, at)
  }

  /** A claim is live exactly when its own bounds admit the instant and no carrier retires it. */
  lemma LiveMeans(parse: Parser, self: Claim, carriers: seq<Claim>, at: int)
    ensures Live(parse, self, carriers, at) <==>
            && Live(parse, self, [], at)
            && !(exists c :: c in carriers && RetiredOn(parse, self.id, c, at))
  {
    var edges := EdgesOf(carriers);
    WindowFails(parse, self, carriers);
    WindowFails(parse, self, []);
    if WindowOf(parse, self, carriers).Ok? {
      WindowMeans(parse, self, carriers, at);
      WindowMeans(parse, self, [], at);
    }
    forall e ensures e in edges <==> exists c :: c in carriers && e in c.edges {
      EdgesOfMembers(carriers, e);
    }
    var bad := exists e :: e in edges && Retires(parse, self.id, e, at);
    assert bad <==> exists c :: c in carriers && RetiredOn(parse, self.id, c, at) by {
      if bad {
        var e :| e in edges && Retires(parse, self.id, e, at);
        var c :| c in carriers && e in c.edges;
        assert RetiredOn(parse, self.id, c, at);
      }
    }
    assert bad <==> Unreadable(parse, self.id, edges) || !BeforeEveryEnd(parse, self.id, edges, at);
  }

  /**
   ContributorFor reads a registration only against the expiries and the claims of its own
   key, so what it finds live is live against every contributor claim in scope exactly when
   none of another key carries an expiry edge that retires it.
   */
  lemma LiveAgainstEveryContributor(
    parse: Parser, self: Claim, contributors: seq<Claim>, expiries: seq<Claim>, pubkey: Bytes, at: int)
    requires Live(parse, self, expiries + Carrying(contributors, pubkey), at)
    ensures Live(parse, self, expiries + contributors, at) <==>
            !RetiredElsewhere(parse, self.id, contributors, pubkey, at)
  {
    CarryingMembers(contributors, pubkey);
    LiveMeans(parse, self, expiries + Carrying(contributors, pubkey), at);
    LiveMeans(parse, self, expiries + contributors, at);
  }

  /**
   The retired key of a rotation: its successor's contributor claim carries the expiry edge,
   and the window the registration is read by still admits an instant past that date.
   */
  lemma ASuccessorsExpiryGoesUnread(parse: Parser)
    requires parse("2026-06-01T00:00:00Z") == Some(0)
    ensures var retired := Claim("old", None, Some([1]), None, None, []);
            var successor := Claim("new", None, Some([2]), None, None,
                                   [Edge(true, "old", None, Some("2026-06-01T00:00:00Z"))]);
            var contributors := [retired, successor];
            && IdsIdentify(contributors)
            && FirstAdmitting(parse, Carrying(contributors, [1]), [], 1, retired)
            && !Live(parse, retired, contributors, 1)
  {
    var e := Edge(true, "old", None, Some("2026-06-01T00:00:00Z"));
    var retired := Claim("old", None, Some([1]), None, None, []);
    var successor := Claim("new", None, Some([2]), None, None, [e]);
    var contributors := [retired, successor];
    assert contributors[1..] == [successor] && [successor][1..] == [] && [retired][1..] == [];
    assert Carrying([successor], [1]) == [];
    assert Carrying(contributors, [1]) == [retired];
    var held := [retired];
    assert [] + held == held;
    LiveMeans(parse, retired, held, 1);
    assert Live(parse, held[0], [] + held, 1);
    LiveMeans(parse, retired, contributors, 1);
    assert contributors[1] == successor && e in successor.edges && Retires(parse, "old", e, 1);
    assert RetiredOn(parse, "old", successor, 1);
  }

  // --- the instant a key expires ------------------------------------------------------------

  /** The reading that ends a key at its expiry: the expiry itself, or anything later, is refused. */
  predicate AdmitsBefore(w: Window, at: int) {
    (w.from.None? || w.from.value <= at) && (w.until.None? || at < w.until.value)
  }

  /** `at` lies before every end the edges impose. */
  ghost predicate StrictlyBeforeEveryEnd(parse: Parser, id: Id, edges: seq<Edge>, at: int) {
    forall e | e in edges && EdgeEnd(parse, id, e).Ok? && EdgeEnd(parse, id, e).value.Some? ::
      at < EdgeEnd(parse, id, e).value.value
  }

  ghost predicate EndsAt(parse: Parser, id: Id, edges: seq<Edge>, at: int) {
    exists e :: e in edges && EdgeEnd(parse, id, e) == Ok(Some(at))
  }

  /** A window read either way agrees everywhere but at its end, where the closed one admits unless it has not begun. */
  lemma ClosedAndExclusiveDiffer(w: Window, at: int)
    ensures (w.Admits(at) <==> AdmitsBefore(w, at)) <==> !(w.until == Some(at) && (w.from.None? || w.from.value <= at))
  {
  }

  /**
   The window of a claim and the exclusive reading of its bounds and of the expiry edges naming
   it differ at exactly the instants that are one of those ends, no later than the others and
   not before the claim's beginning.
   */
  lemma ExpiryInstantDecides(parse: Parser, self: Claim, carriers: seq<Claim>, at: int)
    requires WindowOf(parse, self, carriers).Ok?
    ensures var edges := EdgesOf(carriers);
            var from, until := Bound(parse, self.validFrom).value, Bound(parse, self.expiresAfter).value;
            var begun := from.None? || from.value <= at;
            (Live(parse, self, carriers, at) <==>
             begun && (until.None? || at < until.value) && StrictlyBeforeEveryEnd(parse, self.id, edges, at))
            <==>
            !(&& begun && (until.None? || at <= until.value) && BeforeEveryEnd(parse, self.id, edges, at)
                && (until == Some(at) || EndsAt(parse, self.id, edges, at)))
  {
    WindowMeans(parse, self, carriers, at);
    StrictOrEnds(parse, self.id, EdgesOf(carriers), at);
  }

  lemma StrictOrEnds(parse: Parser, id: Id, edges: seq<Edge>, at: int)
    ensures StrictlyBeforeEveryEnd(parse, id, edges, at) <==>
            BeforeEveryEnd(parse, id, edges, at) && !EndsAt(parse, id, edges, at)
  {
    if BeforeEveryEnd(parse, id, edges, at) && !EndsAt(parse, id, edges, at) {
      forall e | e in edges && EdgeEnd(parse, id, e).Ok? && EdgeEnd(parse, id, e).value.Some?
        ensures at < EdgeEnd(parse, id, e).value.value
      {
        assert EdgeEnd(parse, id, e) == Ok(Some(EdgeEnd(parse, id, e).value.value));
      }
    }
  }

  /** A key still signs at the very instant it expires. */
  lemma AKeySignsAtItsExpiry(parse: Parser, key: Bytes)
    requires parse("2026-06-01T00:00:00Z") == Some(0)
    ensures var self := Claim("key", None, Some(key), None, Some("2026-06-01T00:00:00Z"), []);
            Live(parse, self, [self], 0) && !Live(parse, self, [self], 1)
  {
    var self := Claim("key", None, Some(key), None, Some("2026-06-01T00:00:00Z"), []);
    assert [self][1..] == [];
    assert EdgesOf([self]) == [] + EdgesOf([]) == [];
    WindowMeans(parse, self, [self], 0);
    WindowMeans(parse, self, [self], 1);
  }
}
