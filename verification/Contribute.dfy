/**
 One contribution (client/contribute.go): the external content the claims address is listed,
 gathered, and sent with them in one stream, or nothing is sent.
 */
module Contribute {
  import opened Bytes
  import opened Lists
  import opened ClientClaims

  // --- the content claims address ---------------------------------------------------

  function Given(content: Option<Address>): seq<Address> {
    if content.Some? then [content.value] else []
  }

  function EdgeAddresses(edges: seq<Edge>): seq<Address> {
    if edges == [] then [] else EdgeAddresses(Front(edges)) + Given(Last(edges).content)
  }

  /** Every address in the claims as they come: a node's, then each of its edges'. */
  function Addressed(claims: seq<Option<Claim>>): seq<Address> {
    if claims == [] then []
    else
      var last := Last(claims);
      Addressed(Front(claims))
      + (if last.None? then [] else Given(last.value.content) + EdgeAddresses(last.value.edges))
  }

  function Hashes(all: seq<Address>): set<Id> {
    set a | a in all :: a.hash
  }

  /** Each address whose hash none before it has. */
  function Firsts(all: seq<Address>): seq<Address> {
    if all == [] then []
    else
      var before, last := Front(all), Last(all);
      Firsts(before) + if last.hash in Hashes(before) then [] else [last]
  }

  /** Where a hash first appears. */
  function FirstAt(all: seq<Address>, hash: Id): (i: nat)
    requires hash in Hashes(all)
    ensures i < |all| && all[i].hash == hash
    ensures forall j | 0 <= j < i :: all[j].hash != hash
  {
    var before := Front(all);
    assert forall a | a in all :: a in before || a == Last(all);
    assert forall j | 0 <= j < |before| :: all[j] in before;
    if hash in Hashes(before) then FirstAt(before, hash) else |all| - 1
  }

  /** Each entry is the address at which its hash first appears, and the entries come in that order. */
  ghost predicate InFirstAppearance(all: seq<Address>, refs: seq<Address>) {
    && (forall k | 0 <= k < |refs| :: StandsFirst(all, refs[k]))
    && (forall k, l | 0 <= k < l < |refs| :: FirstAt(all, refs[k].hash) < FirstAt(all, refs[l].hash))
  }

  predicate StandsFirst(all: seq<Address>, ref: Address) {
    ref.hash in Hashes(all) && ref == all[FirstAt(all, ref.hash)]
  }

  lemma HashesExtend(before: seq<Address>, a: Address)
    ensures Hashes(before + [a]) == Hashes(before) + {a.hash}
  {
    assert forall b | b in before + [a] :: b in before || b == a;
    assert forall b | b in before :: b in before + [a];
    assert a in before + [a];
  }

  lemma {:induction false} FirstsHashes(all: seq<Address>)
    ensures Hashes(Firsts(all)) == Hashes(all)
  {
    if all != [] {
      var before, a := Front(all), Last(all);
      FirstsHashes(before);
      HashesExtend(before, a);
      HashesExtend(Firsts(before), a);
      assert all == before + [a];
    }
  }

  predicate OnceEach(refs: seq<Address>) {
    forall k, l | 0 <= k < l < |refs| :: refs[k].hash != refs[l].hash
  }

  /** The list holds a hash once. */
  lemma {:induction false} FirstsAreDistinct(all: seq<Address>)
    ensures OnceEach(Firsts(all))
  {
    if all != [] {
      var before := Front(all);
      FirstsAreDistinct(before);
      FirstsHashes(before);
      if Last(all).hash !in Hashes(before) {
        DistinctExtends(Firsts(before), Last(all));
      }
    }
  }

  lemma DistinctExtends(refs: seq<Address>, a: Address)
    requires OnceEach(refs) && a.hash !in Hashes(refs)
    ensures OnceEach(refs + [a])
  {
    assert forall k | 0 <= k < |refs| :: refs[k].hash in Hashes(refs);
  }

  lemma FirstAtExtends(before: seq<Address>, a: Address, hash: Id)
    requires hash in Hashes(before)
    ensures hash in Hashes(before + [a]) && FirstAt(before + [a], hash) == FirstAt(before, hash)
  {
    HashesExtend(before, a);
    assert Front(before + [a]) == before;
  }

  lemma NewStandsLast(before: seq<Address>, a: Address)
    requires a.hash !in Hashes(before)
    ensures StandsFirst(before + [a], a) && FirstAt(before + [a], a.hash) == |before|
  {
    HashesExtend(before, a);
    assert Front(before + [a]) == before;
  }

  lemma OldStand(before: seq<Address>, a: Address, refs: seq<Address>)
    requires InFirstAppearance(before, refs)
    ensures InFirstAppearance(before + [a], refs)
    ensures forall k | 0 <= k < |refs| :: FirstAt(before + [a], refs[k].hash) < |before|
  {
    forall k | 0 <= k < |refs|
      ensures StandsFirst(before + [a], refs[k]) && FirstAt(before + [a], refs[k].hash) == FirstAt(before, refs[k].hash)
    {
      assert StandsFirst(before, refs[k]);
      FirstAtExtends(before, a, refs[k].hash);
    }
  }

  lemma FirstsExtend(all: seq<Address>, before: seq<Address>, a: Address, refs: seq<Address>)
    requires all != [] && before == Front(all) && a == Last(all) && InFirstAppearance(before, refs)
    ensures InFirstAppearance(all, if a.hash in Hashes(before) then refs else refs + [a])
  {
    assert all == before + [a];
    OldStand(before, a, refs);
    if a.hash !in Hashes(before) {
      NewStandsLast(before, a);
      OneMoreStands(before + [a], refs, a);
    }
  }

  lemma OneMoreStands(all: seq<Address>, refs: seq<Address>, a: Address)
    requires InFirstAppearance(all, refs) && StandsFirst(all, a)
    requires forall k | 0 <= k < |refs| :: FirstAt(all, refs[k].hash) < FirstAt(all, a.hash)
    ensures InFirstAppearance(all, refs + [a])
  {
    var longer, n := refs + [a], |refs|;
    forall k | 0 <= k <= n ensures StandsFirst(all, longer[k]) {
      assert longer[k] == if k < n then refs[k] else a;
    }
    forall k, l | 0 <= k < l <= n ensures FirstAt(all, longer[k].hash) < FirstAt(all, longer[l].hash) {
      assert longer[k] == refs[k] && longer[l] == if l < n then refs[l] else a;
    }
  }

  /** The list holds every addressed hash at its first appearance, in order, with the size stated there. */
  lemma {:induction false} FirstsAreFirst(all: seq<Address>)
    ensures InFirstAppearance(all, Firsts(all))
  {
    if all != [] {
      var before, a := Front(all), Last(all);
      var refs := Firsts(before);
      FirstsAreFirst(before);
      FirstsExtend(all, before, a, refs);
      assert refs + [] == refs;
    }
  }

  // --- what is listed, in the claims' own terms ---------------------------------------------

  /** Place `j` of claim `i`: its node is place 0, its edges come after. */
  predicate IsPlace(claims: seq<Option<Claim>>, i: nat, j: nat) {
    i < |claims| && claims[i].Some? && j <= |claims[i].value.edges|
  }

  function ContentAt(claims: seq<Option<Claim>>, i: nat, j: nat): Option<Address>
    requires IsPlace(claims, i, j)
  {
    if j == 0 then claims[i].value.content else claims[i].value.edges[j - 1].content
  }

  /** The place addresses content. */
  predicate Addresses(claims: seq<Option<Claim>>, i: nat, j: nat) {
    IsPlace(claims, i, j) && ContentAt(claims, i, j).Some?
  }

  predicate Earlier(i: nat, j: nat, k: nat, l: nat) {
    i < k || (i == k && j < l)
  }

  /** The first place that addresses a hash. */
  ghost predicate FirstPlace(claims: seq<Option<Claim>>, i: nat, j: nat, hash: Id) {
    && Addresses(claims, i, j) && ContentAt(claims, i, j).value.hash == hash
    && forall k: nat, l: nat | Addresses(claims, k, l) && Earlier(k, l, i, j) ::
         ContentAt(claims, k, l).value.hash != hash
  }

  lemma {:induction false} EdgeAddressesAppend(a: seq<Edge>, b: seq<Edge>)
    ensures EdgeAddresses(a + b) == EdgeAddresses(a) + EdgeAddresses(b)
  {
    if b == [] {
      assert a + b == a;
    } else {
      assert Front(a + b) == a + Front(b) && Last(a + b) == Last(b);
      EdgeAddressesAppend(a, Front(b));
      Regroup(EdgeAddresses(a), EdgeAddresses(Front(b)), Given(Last(b).content));
    }
  }

  lemma {:induction false} AddressedAppend(a: seq<Option<Claim>>, b: seq<Option<Claim>>)
    ensures Addressed(a + b) == Addressed(a) + Addressed(b)
  {
    if b == [] {
      assert a + b == a;
    } else {
      assert Front(a + b) == a + Front(b) && Last(a + b) == Last(b);
      AddressedAppend(a, Front(b));
      Regroup(Addressed(a), Addressed(Front(b)), Addressed([Last(b)]));
      AddressedOne(Last(b));
    }
  }

  /** What one claim addresses. */
  function Own(c: Option<Claim>): seq<Address> {
    if c.None? then [] else Given(c.value.content) + EdgeAddresses(c.value.edges)
  }

  lemma AddressedOne(c: Option<Claim>)
    ensures Addressed([c]) == Own(c)
  {
    assert Front([c]) == [] && [] + Own(c) == Own(c);
  }

  /** How many addresses come before a place. */
  function Before(claims: seq<Option<Claim>>, i: nat, j: nat): nat
    requires IsPlace(claims, i, j)
  {
    |Addressed(claims[..i])|
    + if j == 0 then 0 else |Given(claims[i].value.content)| + |EdgeAddresses(claims[i].value.edges[..j - 1])|
  }

  lemma OwnAt(c: Claim, j: nat)
    requires 0 < j <= |c.edges| && c.edges[j - 1].content.Some?
    ensures var n := |Given(c.content)| + |EdgeAddresses(c.edges[..j - 1])|;
            n < |Own(Some(c))| && Own(Some(c))[n] == c.edges[j - 1].content.value
  {
    var before, e, after := c.edges[..j - 1], c.edges[j - 1], c.edges[j..];
    EdgeAddressesAppend(before + [e], after);
    assert Front(before + [e]) == before && before + [e] + after == c.edges;
    assert EdgeAddresses(before + [e]) == EdgeAddresses(before) + [e.content.value];
  }

  lemma ClaimsSplit(claims: seq<Option<Claim>>, i: nat)
    requires i < |claims|
    ensures Addressed(claims) == Addressed(claims[..i]) + Own(claims[i]) + Addressed(claims[i + 1..])
    ensures Addressed(claims[..i + 1]) == Addressed(claims[..i]) + Own(claims[i])
  {
    Around(claims, i);
    SplitAround(claims[..i], claims[i], claims[i + 1..]);
  }

  lemma SplitAround(before: seq<Option<Claim>>, c: Option<Claim>, after: seq<Option<Claim>>)
    ensures Addressed(before + [c] + after) == Addressed(before) + Own(c) + Addressed(after)
    ensures Addressed(before + [c]) == Addressed(before) + Own(c)
  {
    AddressedOne(c);
    AddressedAppend(before, [c]);
    AddressedAppend(before + [c], after);
  }

  /** A place that addresses content is listed where as many addresses come before it. */
  lemma StandsAt(claims: seq<Option<Claim>>, i: nat, j: nat)
    requires Addresses(claims, i, j)
    ensures Before(claims, i, j) < |Addressed(claims)|
    ensures Addressed(claims)[Before(claims, i, j)] == ContentAt(claims, i, j).value
    ensures Before(claims, i, j) < |Addressed(claims[..i + 1])|
  {
    ClaimsSplit(claims, i);
    if j > 0 {
      OwnAt(claims[i].value, j);
    }
  }

  lemma {:induction false} MoreClaimsMore(claims: seq<Option<Claim>>, i: nat, k: nat)
    requires i <= k <= |claims|
    ensures |Addressed(claims[..i])| <= |Addressed(claims[..k])|
  {
    assert claims[..k] == claims[..i] + claims[i..k];
    AddressedAppend(claims[..i], claims[i..k]);
  }

  /** The later place has more before it. */
  lemma BeforeIncreases(claims: seq<Option<Claim>>, i: nat, j: nat, k: nat, l: nat)
    requires Addresses(claims, i, j) && Addresses(claims, k, l) && Earlier(i, j, k, l)
    ensures Before(claims, i, j) < Before(claims, k, l)
  {
    if i < k {
      StandsAt(claims, i, j);
      MoreClaimsMore(claims, i + 1, k);
    } else if j > 0 {
      MoreEdgesMore(claims[i].value.edges, j, l);
    }
  }

  lemma MoreEdgesMore(edges: seq<Edge>, j: nat, l: nat)
    requires 0 < j < l <= |edges| && edges[j - 1].content.Some?
    ensures |EdgeAddresses(edges[..j - 1])| < |EdgeAddresses(edges[..l - 1])|
  {
    var mid, rest := edges[..j], edges[j..l - 1];
    assert Front(mid) == edges[..j - 1] && Last(mid) == edges[j - 1];
    assert edges[..l - 1] == mid + rest;
    EdgeAddressesAppend(mid, rest);
  }

  lemma {:induction false} EdgePlace(edges: seq<Edge>, n: nat) returns (j: nat)
    requires n < |EdgeAddresses(edges)|
    ensures 0 < j <= |edges| && edges[j - 1].content.Some? && |EdgeAddresses(edges[..j - 1])| == n
  {
    if n < |EdgeAddresses(Front(edges))| {
      j := EdgePlace(Front(edges), n);
      assert Front(edges)[..j - 1] == edges[..j - 1];
    } else {
      j := |edges|;
    }
  }

  /** Every address listed comes from some place. */
  lemma {:induction false} PlaceOf(claims: seq<Option<Claim>>, n: nat) returns (i: nat, j: nat)
    requires n < |Addressed(claims)|
    ensures Addresses(claims, i, j) && Before(claims, i, j) == n
  {
    var last := |claims| - 1;
    ClaimsSplit(claims, last);
    assert claims[last + 1..] == [];
    if n < |Addressed(claims[..last])| {
      i, j := PlaceOf(claims[..last], n);
      assert claims[..last][..i] == claims[..i];
    } else {
      i := last;
      var m := n - |Addressed(claims[..last])|;
      j := 0;
      if m >= |Given(claims[i].value.content)| {
        j := EdgePlace(claims[i].value.edges, m - |Given(claims[i].value.content)|);
      }
    }
  }

  lemma FirstPlaceIsFirst(claims: seq<Option<Claim>>, i: nat, j: nat, hash: Id)
    requires FirstPlace(claims, i, j, hash)
    ensures hash in Hashes(Addressed(claims)) && FirstAt(Addressed(claims), hash) == Before(claims, i, j)
  {
    var all := Addressed(claims);
    StandsAt(claims, i, j);
    assert all[Before(claims, i, j)] in all;
    var n := FirstAt(all, hash);
    if n < Before(claims, i, j) {
      var k, l := PlaceOf(claims, n);
      StandsAt(claims, k, l);
      if Earlier(i, j, k, l) {
        BeforeIncreases(claims, i, j, k, l);
      }
      assert false;
    }
  }

  /**
   Every place that addresses content has its hash listed, and nothing else is: each entry is what
   its hash's first place addresses, and entries come in the order of those places.
   */
  lemma ListedByPlace(claims: seq<Option<Claim>>)
    ensures forall i: nat, j: nat | Addresses(claims, i, j) ::
              ContentAt(claims, i, j).value.hash in Hashes(Firsts(Addressed(claims)))
    ensures forall ref | ref in Firsts(Addressed(claims)) ::
              exists i: nat, j: nat :: FirstPlace(claims, i, j, ref.hash) && ContentAt(claims, i, j) == Some(ref)
  {
    var all := Addressed(claims);
    var refs := Firsts(all);
    FirstsHashes(all);
    FirstsAreFirst(all);
    forall i: nat, j: nat | Addresses(claims, i, j) ensures ContentAt(claims, i, j).value.hash in Hashes(refs) {
      StandsAt(claims, i, j);
      assert ContentAt(claims, i, j).value in all;
    }
    forall ref | ref in refs
      ensures exists i: nat, j: nat :: FirstPlace(claims, i, j, ref.hash) && ContentAt(claims, i, j) == Some(ref)
    {
      assert StandsFirst(all, ref);
      var i, j := EntryPlace(claims, ref);
    }
  }

  lemma EntryPlace(claims: seq<Option<Claim>>, ref: Address) returns (i: nat, j: nat)
    requires StandsFirst(Addressed(claims), ref)
    ensures FirstPlace(claims, i, j, ref.hash) && ContentAt(claims, i, j) == Some(ref)
  {
    var all := Addressed(claims);
    i, j := PlaceOf(claims, FirstAt(all, ref.hash));
    StandsAt(claims, i, j);
    forall k: nat, l: nat | Addresses(claims, k, l) && Earlier(k, l, i, j)
      ensures ContentAt(claims, k, l).value.hash != ref.hash
    {
      StandsAt(claims, k, l);
      BeforeIncreases(claims, k, l, i, j);
    }
  }

  lemma ListedInOrder(claims: seq<Option<Claim>>, m: nat, n: nat, i: nat, j: nat, k: nat, l: nat)
    requires m < n < |Firsts(Addressed(claims))|
    requires FirstPlace(claims, i, j, Firsts(Addressed(claims))[m].hash)
    requires FirstPlace(claims, k, l, Firsts(Addressed(claims))[n].hash)
    ensures Earlier(i, j, k, l)
  {
    var all := Addressed(claims);
    var refs := Firsts(all);
    FirstsAreFirst(all);
    FirstPlaceIsFirst(claims, i, j, refs[m].hash);
    FirstPlaceIsFirst(claims, k, l, refs[n].hash);
    if Earlier(k, l, i, j) {
      BeforeIncreases(claims, k, l, i, j);
    }
  }

  datatype Error =
    | NoBranch
    | NilClaim
    | NoUniverse
    | ContentMissing
    | Unreachable(why: string)
    | Unwritable(frame: Frame)
    | Refused(why: string)

  /** Adds an address unless its hash is absent or already listed. */
  method Add(refs: seq<Address>, seen: set<Id>, content: Option<Address>, ghost all: seq<Address>)
    returns (listed: seq<Address>, known: set<Id>)
    requires refs == Firsts(all) && seen == Hashes(all)
    ensures listed == Firsts(all + Given(content)) && known == Hashes(all + Given(content))
  {
    if content.None? || content.value.hash in seen {
      assert content.None? ==> all + Given(content) == all;
      assert content.Some? ==> Front(all + Given(content)) == all;
      return refs, seen;
    }
    assert Front(all + [content.value]) == all;
    HashesExtend(all, content.value);
    known := seen + {content.value.hash};
    listed := refs + [content.value];
  }

  /** Adds what each edge addresses. */
  method AddEdges(refs: seq<Address>, seen: set<Id>, edges: seq<Edge>, ghost all: seq<Address>)
    returns (listed: seq<Address>, known: set<Id>)
    requires refs == Firsts(all) && seen == Hashes(all)
    ensures listed == Firsts(all + EdgeAddresses(edges)) && known == Hashes(all + EdgeAddresses(edges))
  {
    listed, known := refs, seen;
    ghost var done := all;
    assert all + [] == all;
    for j := 0 to |edges|
      invariant done == all + EdgeAddresses(edges[..j])
      invariant listed == Firsts(done) && known == Hashes(done)
    {
      listed, known := Add(listed, known, edges[j].content, done);
      done := done + Given(edges[j].content);
      assert Front(edges[..j + 1]) == edges[..j];
      Regroup(all, EdgeAddresses(edges[..j]), Given(edges[j].content));
    }
    assert edges[..|edges|] == edges;
  }

  method ExternalContent(claims: seq<Option<Claim>>) returns (r: Result<seq<Address>, Error>)
    ensures r == if None in claims then Err(NilClaim) else Ok(Firsts(Addressed(claims)))
  {
    var refs: seq<Address>, seen: set<Id> := [], {};
    ghost var done: seq<Address> := [];
    for i := 0 to |claims|
      invariant None !in claims[..i]
      invariant done == Addressed(claims[..i])
      invariant refs == Firsts(done) && seen == Hashes(done)
    {
      if claims[i].None? {
        return Err(NilClaim);
      }
      var claim := claims[i].value;
      refs, seen := Add(refs, seen, claim.content, done);
      refs, seen := AddEdges(refs, seen, claim.edges, done + Given(claim.content));
      Regroup(done, Given(claim.content), EdgeAddresses(claim.edges));
      done := done + (Given(claim.content) + EdgeAddresses(claim.edges));
      assert Front(claims[..i + 1]) == claims[..i];
    }
    assert claims[..|claims|] == claims;
    r := Ok(refs);
  }

  // --- gathering it ---------------------------------------------------------------------

  datatype Fetch = Fetched(data: seq<Option<Bytes>>) | Absent | Failed(why: string)

  /** What reads content by reference; it may answer short, or with nothing for a reference. */
  type Universe = seq<Address> -> Fetch

  datatype Blob = Blob(hash: Id, content: Bytes)

  /** The answer holds content for every reference. */
  predicate Whole(refs: seq<Address>, data: seq<Option<Bytes>>) {
    |refs| <= |data| && forall k | 0 <= k < |refs| :: data[k].Some?
  }

  method FetchContent(u: Option<Universe>, refs: seq<Address>) returns (r: Result<seq<Blob>, Error>)
    ensures r.Ok? <==> refs == [] || (u.Some? && u.value(refs).Fetched? && Whole(refs, u.value(refs).data))
    ensures r.Ok? ==> |r.value| == |refs|
    ensures r.Ok? ==> forall k | 0 <= k < |refs| ::
                r.value[k].hash == refs[k].hash && Some(r.value[k].content) == u.value(refs).data[k]
    ensures refs != [] ==>
              && (r == Err(NoUniverse) <==> u.None?)
              && (r == Err(ContentMissing) <==> u.Some? && (u.value(refs).Absent? ||
                                                            (u.value(refs).Fetched?
                                                             && !Whole(refs, u.value(refs).data))))
  {
    if |refs| == 0 {
      return Ok([]);
    }
    if u.None? {
      return Err(NoUniverse);
    }
    var answer := u.value(refs);
    if answer.Absent? {
      return Err(ContentMissing);
    }
    if answer.Failed? {
      return Err(Unreachable(answer.why));
    }
    var data := answer.data;
    var blobs: seq<Blob> := [];
    for i := 0 to |refs|
      invariant |blobs| == i <= |data|
      invariant forall k | 0 <= k < i ::
          data[k].Some? && blobs[k] == Blob(refs[k].hash, data[k].value)
    {
      if i >= |data| || data[i].None? {
        return Err(ContentMissing);
      }
      blobs := blobs + [Blob(refs[i].hash, data[i].value)];
    }
    r := Ok(blobs);
  }

  // --- the stream --------------------------------------------------------------------------

  datatype Constraints = Constraints(branches: seq<string>, creatable: seq<string>, referencable: seq<string>)

  datatype ContributeOption = Creating | Referencing(scopes: seq<string>)

  datatype Frame =
    | Head(constraints: Constraints)
    | ClaimFrame(branch: string, claim: Claim)
    | ContentFrame(blob: Blob)

  function Ask(c: Constraints, o: ContributeOption): Constraints {
    match o
    case Creating => c.(creatable := c.creatable + c.branches)
    case Referencing(scopes) => c.(referencable := scopes)
  }

  function AskAll(c: Constraints, opts: seq<ContributeOption>): Constraints {
    if opts == [] then c else Ask(AskAll(c, Front(opts)), Last(opts))
  }

  function Asked(branch: string, opts: seq<ContributeOption>): Constraints {
    AskAll(Constraints([branch], [], [branch]), opts)
  }

  method AskFor(branch: string, opts: seq<ContributeOption>) returns (cons: Constraints)
    ensures cons == Asked(branch, opts)
  {
    cons := Constraints([branch], [], [branch]);
    for i := 0 to |opts|
      invariant cons == AskAll(Constraints([branch], [], [branch]), opts[..i])
    {
      assert Front(opts[..i + 1]) == opts[..i];
      cons := Ask(cons, opts[i]);
    }
    assert opts[..|opts|] == opts;
  }

  /** No option reaches another branch: it writes the one, may create only that, and only when asked. */
  lemma {:induction false} OptionsNarrow(branch: string, opts: seq<ContributeOption>)
    ensures var c := Asked(branch, opts);
            && c.branches == [branch]
            && (forall b | b in c.creatable :: b == branch)
            && (branch in c.creatable <==> Creating in opts)
            && (c.referencable != [branch] ==> Referencing(c.referencable) in opts)
  {
    if opts != [] {
      var init := Front(opts);
      OptionsNarrow(branch, init);
      assert opts == init + [Last(opts)];
    }
  }

  /** The last option that names scopes decides which may be referenced; with none, the branch itself. */
  lemma {:induction false} LastScopesDecide(branch: string, opts: seq<ContributeOption>, k: nat)
    requires k <= |opts| && forall i | k <= i < |opts| :: opts[i] == Creating
    requires k > 0 ==> opts[k - 1].Referencing?
    ensures Asked(branch, opts).referencable == if k == 0 then [branch] else opts[k - 1].scopes
  {
    if k < |opts| {
      LastScopesDecide(branch, Front(opts), k);
    }
  }

  function ClaimFrames(branch: string, claims: seq<Option<Claim>>): seq<Frame>
    requires None !in claims
  {
    seq(|claims|, i requires 0 <= i < |claims| => assert claims[i] in claims; ClaimFrame(branch, claims[i].value))
  }

  function ContentFrames(blobs: seq<Blob>): seq<Frame> {
    seq(|blobs|, i requires 0 <= i < |blobs| => ContentFrame(blobs[i]))
  }

  /** A blob for every reference, each what was fetched for it. */
  ghost predicate Gathered(u: Option<Universe>, refs: seq<Address>, blobs: seq<Blob>) {
    && |blobs| == |refs|
    && forall k | 0 <= k < |refs| ::
         && blobs[k].hash == refs[k].hash
         && u.Some? && u.value(refs).Fetched? && k < |u.value(refs).data|
         && Some(blobs[k].content) == u.value(refs).data[k]
  }

  /** A stream as it is sent: its constraints, every claim in order, then every blob in order. */
  ghost predicate IsStream(u: Option<Universe>, branch: string, claims: seq<Option<Claim>>,
                           opts: seq<ContributeOption>, stream: seq<Frame>)
    requires None !in claims
  {
    exists blobs ::
      && Gathered(u, Firsts(Addressed(claims)), blobs)
      && stream == [Head(Asked(branch, opts))] + ClaimFrames(branch, claims) + ContentFrames(blobs)
  }

  /** Nothing stands in the way of the contribution: every claim is there, and every blob is to hand. */
  predicate Sendable(u: Option<Universe>, claims: seq<Option<Claim>>) {
    && None !in claims
    && var refs := Firsts(Addressed(claims));
    refs == [] || (u.Some? && u.value(refs).Fetched? && Whole(refs, u.value(refs).data))
  }

  /** Every address in a stream's claims is met by exactly one content frame, carrying what was fetched for it. */
  lemma StreamIsComplete(
    u: Option<Universe>, branch: string, claims: seq<Option<Claim>>, opts: seq<ContributeOption>, stream: seq<Frame>)
    requires None !in claims && IsStream(u, branch, claims, opts, stream)
    ensures forall a: Address | a in Addressed(claims) :: CarriedOnce(stream, a.hash)
    ensures forall f: Frame | f in stream && f.ContentFrame? :: f.blob.hash in Hashes(Addressed(claims))
  {
    var refs := Firsts(Addressed(claims));
    FirstsAreDistinct(Addressed(claims));
    FirstsHashes(Addressed(claims));
    var blobs :| && Gathered(u, refs, blobs)
                 && stream == [Head(Asked(branch, opts))] + ClaimFrames(branch, claims) + ContentFrames(blobs);
    CarriesEach([Head(Asked(branch, opts))] + ClaimFrames(branch, claims), refs, blobs);
  }

  /** So what any claim's node or edge addresses is carried once, and nothing is carried that none addresses. */
  lemma EveryPlaceIsCarried(
    u: Option<Universe>, branch: string, claims: seq<Option<Claim>>, opts: seq<ContributeOption>, stream: seq<Frame>)
    requires None !in claims && IsStream(u, branch, claims, opts, stream)
    ensures forall i: nat, j: nat | Addresses(claims, i, j) :: CarriedOnce(stream, ContentAt(claims, i, j).value.hash)
    ensures forall f: Frame | f in stream && f.ContentFrame? ::
              exists i: nat, j: nat :: FirstPlace(claims, i, j, f.blob.hash)
  {
    var all := Addressed(claims);
    StreamIsComplete(u, branch, claims, opts, stream);
    forall i: nat, j: nat | Addresses(claims, i, j)
      ensures CarriedOnce(stream, ContentAt(claims, i, j).value.hash)
    {
      StandsAt(claims, i, j);
      assert ContentAt(claims, i, j).value in all;
    }
    FirstsHashes(all);
    ListedByPlace(claims);
    forall f: Frame | f in stream && f.ContentFrame?
      ensures exists i: nat, j: nat :: FirstPlace(claims, i, j, f.blob.hash)
    {
      var ref :| ref in Firsts(all) && ref.hash == f.blob.hash;
    }
  }

  /** Frame by frame: the constraints, each claim in its place and on the branch, and content after them. */
  lemma StreamTells(
    u: Option<Universe>, branch: string, claims: seq<Option<Claim>>, opts: seq<ContributeOption>, stream: seq<Frame>)
    requires None !in claims && IsStream(u, branch, claims, opts, stream)
    ensures |stream| == 1 + |claims| + |Firsts(Addressed(claims))|
    ensures stream[0] == Head(Asked(branch, opts))
    ensures forall i | 0 <= i < |claims| ::
              stream[1 + i].ClaimFrame? && stream[1 + i].branch == branch && Some(stream[1 + i].claim) == claims[i]
    ensures forall j | 1 + |claims| <= j < |stream| :: stream[j].ContentFrame?
  {
    forall i | 0 <= i < |claims| ensures claims[i].Some? && stream[1 + i] == ClaimFrame(branch, claims[i].value) {
      assert claims[i] in claims;
    }
  }

  lemma CarriesEach(head: seq<Frame>, refs: seq<Address>, blobs: seq<Blob>)
    requires OnceEach(refs) && |blobs| == |refs|
    requires forall k | 0 <= k < |refs| :: blobs[k].hash == refs[k].hash
    requires forall f | f in head :: !f.ContentFrame?
    ensures forall h | h in Hashes(refs) :: CarriedOnce(head + ContentFrames(blobs), h)
    ensures forall f | f in head + ContentFrames(blobs) && f.ContentFrame? :: f.blob.hash in Hashes(refs)
  {
    var stream, n := head + ContentFrames(blobs), |head|;
    forall j | 0 <= j < |stream| ensures stream[j].ContentFrame? ==> n <= j && stream[j] == ContentFrame(blobs[j - n]) {
      assert j < n ==> stream[j] in head;
    }
    forall h | h in Hashes(refs) ensures CarriedOnce(stream, h) {
      var k :| 0 <= k < |refs| && refs[k].hash == h;
      assert stream[n + k] == ContentFrame(blobs[k]);
      OnlyOneCarries(stream, n, refs, blobs, k);
    }
    forall f | f in stream && f.ContentFrame? ensures f.blob.hash in Hashes(refs) {
      var j :| 0 <= j < |stream| && stream[j] == f;
      assert refs[j - n] in refs;
    }
  }

  lemma OnlyOneCarries(stream: seq<Frame>, n: nat, refs: seq<Address>, blobs: seq<Blob>, k: nat)
    requires OnceEach(refs) && k < |blobs| == |refs| && |stream| == n + |blobs|
             && stream[n + k] == ContentFrame(blobs[k])
    requires forall l | 0 <= l < |refs| :: blobs[l].hash == refs[l].hash
    requires forall j | 0 <= j < |stream| :: stream[j].ContentFrame? ==>
                                               n <= j && stream[j] == ContentFrame(blobs[j - n])
    ensures CarriedOnce(stream, refs[k].hash)
  {
    var h := refs[k].hash;
    assert Carries(stream, n + k, h);
    forall j | Carries(stream, j, h) ensures j == n + k {
      assert blobs[j - n].hash == refs[j - n].hash == h;
    }
  }

  predicate Carries(stream: seq<Frame>, i: int, hash: Id) {
    0 <= i < |stream| && stream[i].ContentFrame? && stream[i].blob.hash == hash
  }

  ghost predicate CarriedOnce(stream: seq<Frame>, hash: Id) {
    exists i :: Carries(stream, i, hash) && forall j | Carries(stream, j, hash) :: j == i
  }

  /** The frames in order, or the first of them the writer cannot encode. */
  method WriteStream(encodes: Frame -> bool, cons: Constraints, branch: string, claims: seq<Option<Claim>>,
                     blobs: seq<Blob>)
    returns (r: Result<seq<Frame>, Error>)
    requires None !in claims
    ensures var frames := ClaimFrames(branch, claims) + ContentFrames(blobs);
            && (r.Ok? ==> r.value == [Head(cons)] + frames && forall f | f in frames :: encodes(f))
            && (r.Err? ==> exists i :: 0 <= i < |frames| && r.error == Unwritable(frames[i])
                                       && !encodes(frames[i]) && forall j | 0 <= j < i :: encodes(frames[j]))
  {
    ghost var frames := ClaimFrames(branch, claims) + ContentFrames(blobs);
    var stream := [Head(cons)];
    for i := 0 to |claims|
      invariant stream == [Head(cons)] + frames[..i]
      invariant forall j | 0 <= j < i :: encodes(frames[j])
    {
      assert claims[i] in claims;
      var f := ClaimFrame(branch, claims[i].value);
      assert f == frames[i];
      if !encodes(f) {
        return Err(Unwritable(f));
      }
      stream := stream + [f];
    }
    for i := 0 to |blobs|
      invariant stream == [Head(cons)] + frames[..|claims| + i]
      invariant forall j | 0 <= j < |claims| + i :: encodes(frames[j])
    {
      var f := ContentFrame(blobs[i]);
      assert f == frames[|claims| + i];
      if !encodes(f) {
        return Err(Unwritable(f));
      }
      stream := stream + [f];
    }
    assert frames[..|frames|] == frames;
    r := Ok(stream);
  }

  lemma StreamFits(
    u: Option<Universe>, branch: string, claims: seq<Option<Claim>>, opts: seq<ContributeOption>,
    blobs: seq<Blob>, stream: seq<Frame>)
    requires None !in claims && Gathered(u, Firsts(Addressed(claims)), blobs)
    requires stream == [Head(Asked(branch, opts))] + (ClaimFrames(branch, claims) + ContentFrames(blobs))
    ensures IsStream(u, branch, claims, opts, stream)
  {
    Regroup([Head(Asked(branch, opts))], ClaimFrames(branch, claims), ContentFrames(blobs));
  }

  // --- sending it -----------------------------------------------------------------------------

  /** The client over one server: which frames its writer encodes, what the server answers, and what was posted. */
  class Client {
    const encodes: Frame -> bool
    const answers: seq<Frame> -> Result<seq<Id>, Error>
    var posted: seq<seq<Frame>>

    constructor (encodes: Frame -> bool, answers: seq<Frame> -> Result<seq<Id>, Error>)
      ensures this.encodes == encodes && this.answers == answers && posted == []
    {
      this.encodes := encodes;
      this.answers := answers;
      posted := [];
    }

    /** Merges the claims into the branch: one post of the whole stream, or an error and no post. */
    method Contribute(u: Option<Universe>, branch: string, claims: seq<Option<Claim>>, opts: seq<ContributeOption>)
      returns (r: Result<seq<Id>, Error>)
      modifies this
      ensures branch == "" ==> r == Err(NoBranch)
      ensures branch != "" && claims == [] ==> r == Ok([])
      ensures branch == "" || claims == [] || !Sendable(u, claims) ==> posted == old(posted)
      ensures branch != "" && claims != [] && !Sendable(u, claims) ==> r.Err?
      ensures branch != "" && claims != [] && Sendable(u, claims) ==>
                || (r.Err? && r.error.Unwritable? && !encodes(r.error.frame) && posted == old(posted))
                || (exists stream :: IsStream(u, branch, claims, opts, stream)
                                     && posted == old(posted) + [stream] && r == answers(stream)
                                     && forall f | f in stream[1..] :: encodes(f))
    {
      if branch == "" {
        return Err(NoBranch);
      }
      if |claims| == 0 {
        return Ok([]);
      }
      var refs := ExternalContent(claims);
      if refs.Err? {
        return Err(refs.error);
      }
      var blobs := FetchContent(u, refs.value);
      if blobs.Err? {
        return Err(blobs.error);
      }
      var cons := AskFor(branch, opts);
      var stream := WriteStream(encodes, cons, branch, claims, blobs.value);
      if stream.Err? {
        return Err(stream.error);
      }
      StreamFits(u, branch, claims, opts, blobs.value, stream.value);
      posted := posted + [stream.value];
      r := answers(stream.value);
    }
  }
}
