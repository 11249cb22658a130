/** An archive grown contribution by contribution, each claim citing what came before (cmd/generator/graph.go). */
module Chain {
  import opened Bytes
  import opened Lists
  import opened Claims
  import opened Graph

  /** Types in the order a chain repeats them; half are sources. */
  const CHAIN_TYPES: seq<NodeType> :=
    [NOTE, NOTE, NodeType(Source, "record"), EXTRACTION, PERSON, NodeType(Relation, "mention")]

  const RECENT_WINDOW := 40
  const FAR_REACH_ODDS := 8
  const MAX_REFERENCES := 3

  /** The claims made on a branch, in the order they were made. */
  function ClaimsOn(ms: seq<Made>, branch: string): seq<Claim> {
    if ms == [] then []
    else ClaimsOn(Front(ms), branch) + if Last(ms).branch == branch then [Last(ms).claim] else []
  }

  lemma ClaimsOnExtends(ms: seq<Made>, m: Made, branch: string)
    ensures ClaimsOn(ms + [m], branch) == ClaimsOn(ms, branch) + if m.branch == branch then [m.claim] else []
  {
    assert Front(ms + [m]) == ms;
  }

  /** Up to `n` different claims among those had, and at least one where there is one to be had. */
  predicate Picked(had: seq<Claim>, n: int, refs: seq<Claim>) {
    && (had == [] || n < 1 <==> refs == [])
    && (n >= 1 ==> |refs| <= n)
    && (forall k | 0 <= k < |refs| :: refs[k] in had)
    && (forall k, l | 0 <= k < l < |refs| :: refs[k] != refs[l])
  }

  /** Draws earlier claims on the branch to cite, mostly recent ones; a claim drawn twice is cited once. */
  method PickFrom(g: Grower, branch: string, n: int) returns (refs: seq<Claim>)
    ensures Picked(ClaimsOn(g.made, branch), n, refs)
  {
    var candidates: seq<Claim> := [];
    for i := 0 to |g.made|
      invariant candidates == ClaimsOn(g.made[..i], branch)
    {
      ClaimsOnExtends(g.made[..i], g.made[i], branch);
      assert g.made[..i] + [g.made[i]] == g.made[..i + 1];
      if g.made[i].branch == branch {
        candidates := candidates + [g.made[i].claim];
      }
    }
    assert g.made[..|g.made|] == g.made;
    if |candidates| == 0 || n < 1 {
      return [];
    }
    var seen: set<Claim> := {};
    refs := [];
    var draws := g.IntN(n);
    for d := 0 to draws + 1
      invariant |refs| <= d && (d > 0 ==> refs != [])
      invariant seen == set c | c in refs
      invariant forall k | 0 <= k < |refs| :: refs[k] in candidates
      invariant forall k, l | 0 <= k < l < |refs| :: refs[k] != refs[l]
    {
      var back := g.IntN(if |candidates| < RECENT_WINDOW then |candidates| else RECENT_WINDOW);
      var i := |candidates| - 1 - back;
      var odds := g.IntN(FAR_REACH_ODDS);
      if odds == 0 {
        i := g.IntN(|candidates|);
      }
      if candidates[i] !in seen {
        seen := seen + {candidates[i]};
        refs := refs + [candidates[i]];
      }
    }
  }

  // --- growing -----------------------------------------------------------------------

  /** Even contributions go to the primary; odd ones to the remaining branches, one after the other. */
  function BranchAt(branches: seq<string>, i: nat): string
    requires branches != []
  {
    if i % 2 == 1 && |branches| > 1 then branches[1 + (i / 2) % (|branches| - 1)] else branches[0]
  }

  /** The type a claim gets: the one its turn brings, unless there is nothing for it to derive from. */
  function TypeAt(had: seq<Claim>, q: nat): NodeType {
    var typ := CHAIN_TYPES[q % |CHAIN_TYPES|];
    if !IsSource(typ) && had == [] then CHAIN_TYPES[0] else typ
  }

  /** The contribution the `q`-th claim falls into when each takes `per`, and its place there. */
  function Turn(q: nat, per: nat): nat
    requires per > 0
  {
    if q < per then 0 else 1 + Turn(q - per, per)
  }

  function Place(q: nat, per: nat): nat
    requires per > 0
  {
    if q < per then q else Place(q - per, per)
  }

  function ChainText(typ: NodeType, i: nat, j: nat): Text {
    Text("%s %d.%d", [typ.name], [i + 1, j + 1])
  }

  /** Inputs to up to `n` different claims among those had, and at least one where there is one to be had. */
  predicate Draws(had: seq<Claim>, n: int, cites: seq<Cite>) {
    && (had == [] || n < 1 <==> cites == [])
    && (n >= 1 ==> |cites| <= n)
    && (forall k | 0 <= k < |cites| :: cites[k].typ == Input && cites[k].to in had)
    && (forall k, l | 0 <= k < l < |cites| :: cites[k].to != cites[l].to)
  }

  lemma PickedDraws(had: seq<Claim>, n: int, refs: seq<Claim>)
    requires Picked(had, n, refs)
    ensures Draws(had, n, Inputs(refs))
  {
  }

  /** `c` is the `j`-th claim of the `i`-th contribution, citing of the claims `had` if it is no source. */
  predicate GrowsAs(root: Claim, at: int, had: seq<Claim>, typ: NodeType, i: nat, j: nat, c: Claim) {
    && (if IsSource(typ) then c.cites == [] else Draws(had, MAX_REFERENCES, c.cites))
    && c.typ == typ && c.text == ChainText(typ, i, j) && c.fields == map[] && c.at == at && c.signer == Some(root)
  }

  /** `m` may be the `q`-th claim a chain makes, when `before` was made before it. */
  predicate Grows(root: Claim, base: int, per: nat, branches: seq<string>, before: seq<Made>, m: Made, q: nat)
    requires branches != [] && per > 0
  {
    var had := ClaimsOn(before, m.branch);
    && m.branch == BranchAt(branches, Turn(q, per))
    && GrowsAs(root, base + q * CLOCK_STEP, had, TypeAt(had, q), Turn(q, per), Place(q, per), m.claim)
  }

  /** A run of a chain: what it made, claim by claim, after what the grower had made already. */
  ghost predicate Grown(root: Claim, base: int, per: nat, branches: seq<string>, had: seq<Made>, ms: seq<Made>)
    requires branches != [] && per > 0
  {
    ms != [] ==>
      && Grown(root, base, per, branches, had, Front(ms))
      && Grows(root, base, per, branches, had + Front(ms), Last(ms), |Front(ms)|)
  }

  lemma {:induction false} GrownAt(root: Claim, base: int, per: nat, branches: seq<string>, had: seq<Made>,
                                   ms: seq<Made>, q: nat)
    requires branches != [] && per > 0 && q < |ms| && Grown(root, base, per, branches, had, ms)
    ensures Grows(root, base, per, branches, had + ms[..q], ms[q], q)
  {
    if q < |ms| - 1 {
      GrownAt(root, base, per, branches, had, Front(ms), q);
      assert Front(ms)[..q] == ms[..q];
    }
  }

  lemma {:induction false} BatchOf(i: nat, per: nat, j: nat)
    requires j < per
    ensures 0 <= i * per && Turn(i * per + j, per) == i && Place(i * per + j, per) == j
  {
    if i > 0 {
      BatchOf(i - 1, per, j);
      assert i * per == (i - 1) * per + per;
    }
  }

  lemma OneMore(root: Claim, base: int, per: nat, branches: seq<string>, had: seq<Made>, ms: seq<Made>, m: Made,
                i: nat, j: nat, typ: NodeType, refs: seq<Claim>, more: seq<Made>)
    requires branches != [] && per > 0 && Turn(|ms|, per) == i && Place(|ms|, per) == j
    requires Grown(root, base, per, branches, had, ms)
    requires more == ms + [m]
    requires m == Made(OwnClaim(root, base + |ms| * CLOCK_STEP, typ, ChainText(typ, i, j), refs), BranchAt(branches, i))
    requires var on := ClaimsOn(had + ms, m.branch);
             && typ == TypeAt(on, |ms|)
             && if IsSource(typ) then refs == [] else Picked(on, MAX_REFERENCES, refs)
    ensures Grown(root, base, per, branches, had, more)
  {
    if !IsSource(typ) {
      PickedDraws(ClaimsOn(had + ms, m.branch), MAX_REFERENCES, refs);
    }
    assert Front(more) == ms;
  }

  /** The claims of a run, cut into contributions of `per` and told apart by branch. */
  ghost predicate Cut(bs: seq<Batch>, ms: seq<Made>, per: nat, branches: seq<string>)
    requires branches != []
  {
    && |ms| == |bs| * per
    && (forall i | 0 <= i < |bs| :: bs[i].branch == BranchAt(branches, i) && |bs[i].claims| == per)
    && (forall b :: OnBranch(bs, b) == ClaimsOn(ms, b))
  }

  /** The type of the `q`-th claim and what it cites: nothing for a source, else earlier claims of its branch. */
  method Draw(g: Grower, branch: string, q: nat) returns (typ: NodeType, refs: seq<Claim>)
    ensures var had := ClaimsOn(g.made, branch);
            && typ == TypeAt(had, q)
            && if IsSource(typ) then refs == [] else Picked(had, MAX_REFERENCES, refs)
  {
    typ := CHAIN_TYPES[q % |CHAIN_TYPES|];
    refs := [];
    if !IsSource(typ) {
      refs := PickFrom(g, branch, MAX_REFERENCES);
      if |refs| == 0 {
        typ := CHAIN_TYPES[0];
      }
    }
  }

  /**
   Signs the `j`-th claim of the `i`-th contribution; `ms` is what the run has made, `had` what was
   made before it.
   */
  method NextClaim(
    g: Grower, i: nat, j: nat, from: nat, branch: string,
    ghost per: nat, ghost branches: seq<string>, ghost base: int, ghost had: seq<Made>, ghost ms: seq<Made>)
    returns (m: Made)
    requires branches != [] && j < per && branch == BranchAt(branches, i) && from == i * per && |ms| == from + j
    requires Grown(g.self, base, per, branches, had, ms)
    requires g.made == had + ms && g.at == base + |ms| * CLOCK_STEP
    modifies g
    ensures Grown(g.self, base, per, branches, had, ms + [m]) && m.branch == branch
    ensures g.made == had + (ms + [m]) && g.at == base + (|ms| + 1) * CLOCK_STEP
  {
    BatchOf(i, per, j);
    var typ, refs := Draw(g, branch, from + j);
    m := g.ClaimOn(branch, typ, ChainText(typ, i, j), refs);
    OneMore(g.self, base, per, branches, had, ms, m, i, j, typ, refs, ms + [m]);
  }

  /** Signs the claims of the `i`-th contribution. */
  method Contribution(
    g: Grower, i: nat, per: nat, branch: string,
    ghost branches: seq<string>, ghost base: int, ghost had: seq<Made>, ghost cut: seq<Made>)
    returns (claims: seq<Claim>, ghost ms: seq<Made>)
    requires branches != [] && per > 0 && branch == BranchAt(branches, i) && |cut| == i * per
    requires Grown(g.self, base, per, branches, had, cut)
    requires g.made == had + cut && g.at == base + |cut| * CLOCK_STEP
    modifies g
    ensures Grown(g.self, base, per, branches, had, ms)
    ensures g.made == had + ms && g.at == base + |ms| * CLOCK_STEP
    ensures |claims| == per && |ms| == |cut| + per && Adds(cut, ms, branch, claims)
  {
    var from := i * per;
    claims, ms := [], cut;
    Untouched(cut, branch);
    for j := 0 to per
      invariant |ms| == |cut| + j && |claims| == j
      invariant Grown(g.self, base, per, branches, had, ms)
      invariant g.made == had + ms && g.at == base + |ms| * CLOCK_STEP
      invariant Adds(cut, ms, branch, claims)
    {
      var m := NextClaim(g, i, j, from, branch, per, branches, base, had, ms);
      AddsOne(cut, ms, branch, claims, m);
      ms := ms + [m];
      claims := claims + [m.claim];
    }
  }

  /** Grows an archive over many contributions; `ms` is what it made, in order. */
  method Chain(g: Grower, contributions: nat, per: nat, branches: seq<string>)
    returns (bs: seq<Batch>, ghost ms: seq<Made>)
    requires branches != [] && per > 0
    modifies g
    ensures |bs| == contributions && Cut(bs, ms, per, branches)
    ensures Grown(g.self, old(g.at), per, branches, old(g.made), ms)
    ensures g.made == old(g.made) + ms && g.at == old(g.at) + |ms| * CLOCK_STEP
  {
    bs, ms := [], [];
    for i := 0 to contributions
      invariant |bs| == i && Cut(bs, ms, per, branches)
      invariant Grown(g.self, old(g.at), per, branches, old(g.made), ms)
      invariant g.made == old(g.made) + ms && g.at == old(g.at) + |ms| * CLOCK_STEP
    {
      var branch := branches[0];
      if i % 2 == 1 && |branches| > 1 {
        branch := branches[1 + (i / 2) % (|branches| - 1)];
      }
      var claims: seq<Claim>;
      ghost var cut := ms;
      claims, ms := Contribution(g, i, per, branch, branches, old(g.at), old(g.made), cut);
      CutExtends(bs, cut, ms, per, branches, Batch(branch, claims));
      bs := bs + [Batch(branch, claims)];
    }
  }

  /** Between two points of a run only `branch` gained claims, and these. */
  ghost predicate Adds(cut: seq<Made>, ms: seq<Made>, branch: string, claims: seq<Claim>) {
    forall b :: ClaimsOn(ms, b) == ClaimsOn(cut, b) + if b == branch then claims else []
  }

  lemma Untouched(cut: seq<Made>, branch: string)
    ensures Adds(cut, cut, branch, [])
  {
  }

  lemma AddsOne(cut: seq<Made>, ms: seq<Made>, branch: string, claims: seq<Claim>, m: Made)
    requires Adds(cut, ms, branch, claims) && m.branch == branch
    ensures Adds(cut, ms + [m], branch, claims + [m.claim])
  {
    forall b ensures ClaimsOn(ms + [m], b) == ClaimsOn(cut, b) + if b == branch then claims + [m.claim] else [] {
      ClaimsOnExtends(ms, m, b);
    }
  }

  lemma CutExtends(bs: seq<Batch>, cut: seq<Made>, ms: seq<Made>, per: nat, branches: seq<string>, b: Batch)
    requires branches != [] && Cut(bs, cut, per, branches)
    requires b.branch == BranchAt(branches, |bs|) && |b.claims| == per
    requires |ms| == |bs| * per + per && Adds(cut, ms, b.branch, b.claims)
    ensures Cut(bs + [b], ms, per, branches)
  {
    assert Front(bs + [b]) == bs;
    assert (|bs| + 1) * per == |bs| * per + per;
  }

  // --- what a chain is ------------------------------------------------------------------

  lemma {:induction false} ClaimsOnMembers(ms: seq<Made>, branch: string, c: Claim)
    ensures c in ClaimsOn(ms, branch) <==> exists k :: 0 <= k < |ms| && ms[k] == Made(c, branch)
  {
    if ms != [] {
      ClaimsOnMembers(Front(ms), branch, c);
      assert forall k | 0 <= k < |Front(ms)| :: Front(ms)[k] == ms[k];
    }
  }

  /** What one claim of a run reaches was made on its branch before it, and is dated strictly before it. */
  lemma GrownReaches(root: Claim, base: int, per: nat, branches: seq<string>, ms: seq<Made>, q: nat, k: nat)
    requires branches != [] && per > 0 && Grown(root, base, per, branches, [], ms)
    requires q < |ms| && k < |ms[q].claim.cites|
    ensures ms[q].claim.cites[k].typ == Input
    ensures exists p :: 0 <= p < q && ms[p] == Made(ms[q].claim.cites[k].to, ms[q].branch)
    ensures ms[q].claim.cites[k].to.at < ms[q].claim.at
  {
    var to := ms[q].claim.cites[k].to;
    GrownAt(root, base, per, branches, [], ms, q);
    assert [] + ms[..q] == ms[..q];
    assert to in ClaimsOn(ms[..q], ms[q].branch);
    ClaimsOnMembers(ms[..q], ms[q].branch, to);
    var p :| 0 <= p < q && ms[..q][p] == Made(to, ms[q].branch);
    assert ms[p] == Made(to, ms[q].branch);
    GrownAt(root, base, per, branches, [], ms, p);
  }

  /** Every claim of a run derives from a source by input edges. */
  lemma {:induction false} GrownFromSource(root: Claim, base: int, per: nat, branches: seq<string>, ms: seq<Made>,
                                           q: nat)
    requires branches != [] && per > 0 && Grown(root, base, per, branches, [], ms) && q < |ms|
    ensures FromSource(ms[q].claim)
  {
    var c := ms[q].claim;
    GrownAt(root, base, per, branches, [], ms, q);
    if !IsSource(c.typ) {
      GrownReaches(root, base, per, branches, ms, q, 0);
      var p :| 0 <= p < q && ms[p] == Made(c.cites[0].to, ms[q].branch);
      GrownFromSource(root, base, per, branches, ms, p);
    }
  }

  /** What a claim of a run cites, and the key it is signed with, have dates that are not past its own. */
  lemma GrownDated(root: Claim, base: int, per: nat, branches: seq<string>, ms: seq<Made>, q: nat)
    requires branches != [] && per > 0 && root.at <= base && Grown(root, base, per, branches, [], ms) && q < |ms|
    ensures Dated(ms[q].claim)
  {
    var c := ms[q].claim;
    GrownAt(root, base, per, branches, [], ms, q);
    forall k | 0 <= k < |c.cites| ensures c.cites[k].to.at <= c.at {
      GrownReaches(root, base, per, branches, ms, q, k);
    }
  }

  /** The `q`-th claim made reaches only the root and claims made before it on its branch. */
  predicate Resolves(root: Claim, ms: seq<Made>, q: nat)
    requires q < |ms|
  {
    ResolvedBy(ms[q].claim, {root} + Elements(ClaimsOn(ms[..q], ms[q].branch)))
  }

  /** So on each branch, the claims made reach only the root and each other, backwards. */
  lemma {:induction false} ResolvedIsOrdered(root: Claim, ms: seq<Made>, n: nat, branch: string)
    requires n <= |ms| && forall q: nat | q < n :: Resolves(root, ms, q)
    ensures Ordered({root}, ClaimsOn(ms[..n], branch))
  {
    if n > 0 {
      var q := n - 1;
      ResolvedIsOrdered(root, ms, q, branch);
      assert ms[..n] == ms[..q] + [ms[q]];
      ClaimsOnExtends(ms[..q], ms[q], branch);
      assert Resolves(root, ms, q);
      if ms[q].branch == branch {
        OrderedSnoc({root}, ClaimsOn(ms[..q], branch), ms[q].claim);
      } else {
        assert ClaimsOn(ms[..q], branch) + [] == ClaimsOn(ms[..q], branch);
      }
    }
  }

  lemma GrownResolves(root: Claim, base: int, per: nat, branches: seq<string>, ms: seq<Made>, q: nat)
    requires branches != [] && per > 0 && Grown(root, base, per, branches, [], ms) && q < |ms|
    ensures Resolves(root, ms, q)
  {
    var c, before := ms[q].claim, ClaimsOn(ms[..q], ms[q].branch);
    GrownAt(root, base, per, branches, [], ms, q);
    forall k | 0 <= k < |c.cites| ensures c.cites[k].to in Elements(before) {
      GrownReaches(root, base, per, branches, ms, q, k);
      var p :| 0 <= p < q && ms[p] == Made(c.cites[k].to, ms[q].branch);
      assert ms[..q][p] == ms[p];
      ClaimsOnMembers(ms[..q], ms[q].branch, c.cites[k].to);
      ElementsMembers(before, c.cites[k].to);
    }
  }

  /**
   Whatever is drawn, every branch is closed under reference, and every claim dated in order and
   rooted in sources.
   */
  lemma ChainHolds(root: Claim, base: int, per: nat, branches: seq<string>, bs: seq<Batch>, ms: seq<Made>)
    requires branches != [] && per > 0 && root.at <= base
    requires Grown(root, base, per, branches, [], ms) && Cut(bs, ms, per, branches)
    ensures Coherent(root, bs) && AllDated(bs) && AllRooted(bs)
  {
    forall q: nat | q < |ms| ensures Resolves(root, ms, q) {
      GrownResolves(root, base, per, branches, ms, q);
    }
    forall branch ensures Ordered({root}, OnBranch(bs, branch)) {
      assert ms[..|ms|] == ms;
      ResolvedIsOrdered(root, ms, |ms|, branch);
    }
    forall b, c | b in bs && c in b.claims ensures Dated(c) && Rooted(c) {
      OnBranchHolds(bs, b, c);
      ClaimsOnMembers(ms, b.branch, c);
      var q :| 0 <= q < |ms| && ms[q] == Made(c, b.branch);
      GrownDated(root, base, per, branches, ms, q);
      GrownFromSource(root, base, per, branches, ms, q);
    }
  }

  lemma {:induction false} OnBranchHolds(bs: seq<Batch>, b: Batch, c: Claim)
    requires b in bs && c in b.claims
    ensures c in OnBranch(bs, b.branch)
  {
    if b != Last(bs) {
      assert bs == Front(bs) + [Last(bs)];
      OnBranchHolds(Front(bs), b, c);
    }
  }

  /** A claim that is no source cites between one and three different claims, all made on its branch before it. */
  lemma ChainReferences(root: Claim, base: int, per: nat, branches: seq<string>, ms: seq<Made>, q: nat)
    requires branches != [] && per > 0 && Grown(root, base, per, branches, [], ms) && q < |ms|
    ensures var c := ms[q].claim;
            && (IsSource(c.typ) <==> c.cites == [])
            && |c.cites| <= 3
            && (forall k, l | 0 <= k < l < |c.cites| :: c.cites[k].to != c.cites[l].to)
            && (forall k | 0 <= k < |c.cites| ::
                  && c.cites[k].typ == Input
                  && exists p :: 0 <= p < q && ms[p] == Made(c.cites[k].to, ms[q].branch))
  {
    var c := ms[q].claim;
    GrownAt(root, base, per, branches, [], ms, q);
    forall k | 0 <= k < |c.cites|
      ensures c.cites[k].typ == Input && exists p :: 0 <= p < q && ms[p] == Made(c.cites[k].to, ms[q].branch)
    {
      GrownReaches(root, base, per, branches, ms, q, k);
    }
  }

  // --- a chain in numbers ---------------------------------------------------------------------

  lemma HalfOfOdd(i: nat)
    requires i % 2 == 1
    ensures (i + 2) / 2 == i / 2 + 1 && (i + 2) % 2 == 1
  {
  }

  lemma {:induction false} TimesGrows(x: nat, y: nat, n: nat)
    requires x < y
    ensures x * n + n <= y * n
  {
    assert y * n == (y - 1) * n + n;
    if x < y - 1 {
      TimesGrows(x, y - 1, n);
    }
  }

  lemma RemainderIs(a: nat, n: nat, k: nat, r: nat)
    requires n > 0 && r < n && a == k * n + r
    ensures a % n == r
  {
    var k2, r2 := a / n, a % n;
    assert a == k2 * n + r2;
    if k < k2 {
      TimesGrows(k, k2, n);
    } else if k2 < k {
      TimesGrows(k2, k, n);
    }
  }

  /** One turn further round `n` names. */
  lemma NextInTurn(q: nat, n: nat)
    requires n > 0
    ensures (q + 1) % n == if q % n == n - 1 then 0 else q % n + 1
  {
    var k, r := q / n, q % n;
    assert q == k * n + r;
    if r == n - 1 {
      assert (k + 1) * n == k * n + n;
      RemainderIs(q + 1, n, k + 1, 0);
    } else {
      RemainderIs(q + 1, n, k, r + 1);
    }
  }

  /** Even contributions go to the primary branch, and all of them where there is no other. */
  lemma PrimaryEveryOther(bs: seq<Batch>, ms: seq<Made>, per: nat, branches: seq<string>, i: nat)
    requires branches != [] && Cut(bs, ms, per, branches) && i < |bs|
    ensures i % 2 == 0 || |branches| == 1 ==> bs[i].branch == branches[0]
    ensures i % 2 == 1 && |branches| > 1 ==> bs[i].branch in branches[1..]
    ensures i % 2 == 1 && |branches| > 1 && Distinct(branches) ==> bs[i].branch != branches[0]
    ensures |bs[i].claims| == per
  {
    if i % 2 == 1 && |branches| > 1 {
      var k := (i / 2) % (|branches| - 1);
      assert branches[1..][k] == branches[1 + k] == bs[i].branch;
    }
  }

  /** Odd ones go to the others one by one, and after the last to the first of them again. */
  lemma OthersInTurn(bs: seq<Batch>, ms: seq<Made>, per: nat, branches: seq<string>, i: nat, k: nat)
    requires |branches| > 1 && Cut(bs, ms, per, branches) && i % 2 == 1 && i < |bs|
    requires 0 < k < |branches| && (i / 2) % (|branches| - 1) == k - 1
    ensures bs[i].branch == branches[k]
    ensures i + 2 < |bs| ==>
              var next := if k == |branches| - 1 then 1 else k + 1;
              bs[i + 2].branch == branches[next] && ((i + 2) / 2) % (|branches| - 1) == next - 1
  {
    HalfOfOdd(i);
    NextInTurn(i / 2, |branches| - 1);
  }

  /** So the `k`-th of the others has its first turn at contribution `2 * k - 1`. */
  lemma {:induction false} FirstTurn(bs: seq<Batch>, ms: seq<Made>, per: nat, branches: seq<string>, k: nat, i: nat)
    requires 0 < k < |branches| && Cut(bs, ms, per, branches) && i == 2 * k - 1 && i < |bs|
    ensures i % 2 == 1 && (i / 2) % (|branches| - 1) == k - 1 && bs[i].branch == branches[k]
  {
    if k > 1 {
      FirstTurn(bs, ms, per, branches, k - 1, i - 2);
      OthersInTurn(bs, ms, per, branches, i - 2, k - 1);
    }
    OthersInTurn(bs, ms, per, branches, i, k);
  }

  /** And a chain of at least two contributions a branch, the primary aside, reaches every branch. */
  lemma EveryBranchIsReached(bs: seq<Batch>, ms: seq<Made>, per: nat, branches: seq<string>, k: nat)
    requires branches != [] && Cut(bs, ms, per, branches) && k < |branches|
    requires bs != [] && |bs| >= 2 * (|branches| - 1)
    ensures exists i :: 0 <= i < |bs| && bs[i].branch == branches[k]
  {
    if k == 0 {
      assert bs[0].branch == branches[0];
    } else {
      FirstTurn(bs, ms, per, branches, k, 2 * k - 1);
    }
  }

  /**
   The types by turn: two notes, a record, an extraction, a person, a mention; a note where there
   is nothing to cite.
   */
  lemma TypesInTurn(had: seq<Claim>, q: nat)
    ensures q % 6 in {0, 1} ==> TypeAt(had, q) == NodeType(Source, "note")
    ensures q % 6 == 2 ==> TypeAt(had, q) == NodeType(Source, "record")
    ensures q % 6 in {3, 4, 5} && had == [] ==> TypeAt(had, q) == NodeType(Source, "note")
    ensures q % 6 == 3 && had != [] ==> TypeAt(had, q) == NodeType(Derivation, "extraction")
    ensures q % 6 == 4 && had != [] ==> TypeAt(had, q) == NodeType(Entity, "person")
    ensures q % 6 == 5 && had != [] ==> TypeAt(had, q) == NodeType(Relation, "mention")
  {
  }

  /**
   The `j`-th claim of the `i`-th contribution: its type by its turn, its date by its number, its
   number in its text.
   */
  lemma ClaimsInTurn(root: Claim, base: int, per: nat, branches: seq<string>, ms: seq<Made>, i: nat, j: nat, q: nat)
    requires branches != [] && j < per && Grown(root, base, per, branches, [], ms) && q < |ms|
    requires q == i * per + j
    ensures var c := ms[q].claim;
            && c.at == base + q * 60_000_000_000 && c.signer == Some(root) && c.fields == map[]
            && c.typ == TypeAt(ClaimsOn(ms[..q], ms[q].branch), q)
            && c.text.words == [c.typ.name] && c.text.numbers == [i + 1, j + 1]
  {
    assert Turn(q, per) == i && Place(q, per) == j by {
      BatchOf(i, per, j);
    }
    GrownAt(root, base, per, branches, [], ms, q);
    assert [] + ms[..q] == ms[..q];
    GrowsTells(root, base, per, branches, ms[..q], ms[q], q, i, j);
  }

  lemma GrowsTells(root: Claim, base: int, per: nat, branches: seq<string>, before: seq<Made>, m: Made, q: nat,
                   i: nat, j: nat)
    requires branches != [] && per > 0 && Grows(root, base, per, branches, before, m, q)
    requires Turn(q, per) == i && Place(q, per) == j
    ensures var c := m.claim;
            && c.at == base + q * 60_000_000_000 && c.signer == Some(root) && c.fields == map[]
            && c.typ == TypeAt(ClaimsOn(before, m.branch), q)
            && c.text.words == [c.typ.name] && c.text.numbers == [i + 1, j + 1]
  {
  }
}
