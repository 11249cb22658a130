/**
 Seeding an archive (cmd/generator/main.go, client/dev.go): a shape's contributions go up one at
 a time, each branch's first led by the root claim and each after the clock is steered to it.
 */
module Deliver {
  import opened Bytes
  import opened Lists
  import opened Claims
  import opened Clock

  // --- what is sent -------------------------------------------------------------------

  predicate Seeded(bs: seq<Batch>, branch: string) {
    exists k :: 0 <= k < |bs| && bs[k].branch == branch
  }

  /** What goes up for `b` after `before`: its claims, led by the root claim on a branch not seen yet. */
  function Sent(root: Claim, before: seq<Batch>, b: Batch): seq<Claim> {
    (if Seeded(before, b.branch) then [] else [root]) + b.claims
  }

  /** All that went up for a branch. */
  function SentTo(root: Claim, bs: seq<Batch>, branch: string): seq<Claim> {
    if bs == [] then []
    else SentTo(root, Front(bs), branch) + if Last(bs).branch == branch then Sent(root, Front(bs), Last(bs)) else []
  }

  lemma {:induction false} SentToIs(root: Claim, bs: seq<Batch>, branch: string)
    ensures SentTo(root, bs, branch) == (if Seeded(bs, branch) then [root] else []) + OnBranch(bs, branch)
  {
    if bs != [] {
      var before, b := Front(bs), Last(bs);
      SentToIs(root, before, branch);
      SeededOn(bs, |before|);
      assert bs[..|bs|] == bs;
      if b.branch == branch && !Seeded(before, branch) {
        NothingYet(before, branch);
        assert [] + [] + ([root] + b.claims) == [root] + ([] + b.claims);
      } else {
        Regroup(if Seeded(before, branch) then [root] else [], OnBranch(before, branch),
                if b.branch == branch then b.claims else []);
        assert [] + b.claims == b.claims;
      }
    }
  }

  lemma {:induction false} NothingYet(bs: seq<Batch>, branch: string)
    requires !Seeded(bs, branch)
    ensures OnBranch(bs, branch) == []
  {
    if bs != [] {
      assert forall k | 0 <= k < |Front(bs)| :: Front(bs)[k] == bs[k];
      NothingYet(Front(bs), branch);
    }
  }

  /** The root claim names no signer and cites nothing. */
  predicate IsRoot(root: Claim) {
    root.signer.None? && root.cites == []
  }

  /**
   After every contribution of a coherent shape, what a branch has received reaches nothing
   outside it: each claim finds all it cites, its signer's claim included, among those before it.
   */
  lemma BranchesStayClosed(root: Claim, bs: seq<Batch>, k: nat, branch: string, i: nat)
    requires IsRoot(root) && Coherent(root, bs) && k <= |bs| && i < |SentTo(root, bs[..k], branch)|
    ensures var up := SentTo(root, bs[..k], branch); ResolvedBy(up[i], Elements(up[..i]))
  {
    var up := SentTo(root, bs[..k], branch);
    CoherentPrefix(root, bs, k);
    SentToIs(root, bs[..k], branch);
    var rest := OnBranch(bs[..k], branch);
    if Seeded(bs[..k], branch) {
      OrderedCons({}, root, rest);
      assert {} + {root} == {root};
    } else {
      NothingYet(bs[..k], branch);
    }
    OrderedMeans({}, up);
    assert ResolvedBy(up[i], {} + Elements(up[..i]));
    assert {} + Elements(up[..i]) == Elements(up[..i]);
  }

  // --- the stack it goes to --------------------------------------------------------------

  /** A contribution the archive merged, and when. */
  datatype Merge = Merge(branch: string, claims: seq<Claim>, at: int)

  datatype Error = Refused | NoShape

  /** Where the dev clock stands, or that the stack has none. */
  datatype Standing = Standing(time: int, available: bool)

  /** The latest date among the claims, the zero time when there is none. */
  function Latest(claims: seq<Option<Claim>>): (r: int)
    ensures 0 <= r
    ensures forall c | c in claims && c.Some? :: c.value.at <= r
    ensures r == 0 || exists c :: c in claims && c.Some? && c.value.at == r
  {
    if claims == [] then 0
    else
      var before := Latest(Front(claims));
      assert claims == Front(claims) + [Last(claims)];
      if Last(claims).Some? && Last(claims).value.at > before then Last(claims).value.at else before
  }

  method MaxCreatedAt(claims: seq<Option<Claim>>) returns (latest: int)
    ensures latest == Latest(claims)
  {
    latest := 0;
    for i := 0 to |claims|
      invariant latest == Latest(claims[..i])
    {
      assert Front(claims[..i + 1]) == claims[..i] && Last(claims[..i + 1]) == claims[i];
      if claims[i].Some? && claims[i].value.at > latest {
        latest := claims[i].value.at;
      }
    }
    assert claims[..|claims|] == claims;
  }

  function Present(claims: seq<Claim>): seq<Option<Claim>> {
    seq(|claims|, k requires 0 <= k < |claims| => Some(claims[k]))
  }

  /** A stack, with the dev routes or without, shared with other clients. */
  class Stack {
    const dev: bool
    const clock: SteerableClock
    var wall: int
    var merges: seq<Merge>

    constructor (dev: bool, clock: SteerableClock, wall: int)
      requires 0 <= wall && 0 <= clock.position && (!dev ==> clock.position == 0)
      ensures Valid() && this.dev == dev && this.clock == clock && merges == []
    {
      this.dev := dev;
      this.clock := clock;
      this.wall := wall;
      merges := [];
    }

    ghost predicate Valid()
      reads this, clock
    {
      0 <= wall && 0 <= clock.position && (!dev ==> clock.position == 0)
    }

    /** Time passes, and other clients ask and contribute as they will. */
    method Others()
      requires Valid()
      modifies this, clock
      ensures Valid() && clock.position >= old(clock.position) && wall >= old(wall)
      ensures |merges| >= |old(merges)| && merges[..|old(merges)|] == old(merges)
    {
      var n: nat :| 0 <= n;
      for i := 0 to n
        invariant Valid() && clock.position >= old(clock.position) && wall >= old(wall)
        invariant |merges| >= |old(merges)| && merges[..|old(merges)|] == old(merges)
      {
        var later :| later >= wall;
        wall := later;
        var t: int, branch: string, claims: seq<Claim> := *, *, *;
        if dev {
          var p := clock.Advance(t);
        }
        var now := clock.Now(wall);
        merges := merges + [Merge(branch, claims, now)];
      }
    }

    /** The request may fail on its way there or back; without the dev routes there is no clock to move. */
    method AdvanceClock(at: int) returns (r: Result<Standing, Error>)
      requires Valid()
      modifies clock
      ensures Valid()
      ensures clock.position == old(clock.position) || (dev && clock.position == Moved(old(clock.position), at))
      ensures r.Ok? && dev ==>
                clock.position == Moved(old(clock.position), at) && r.value == Standing(clock.position, true)
      ensures r.Ok? && !dev ==> r.value == Standing(0, false)
    {
      var lost: bool, late: bool := *, *;
      if lost && !late {
        return Err(Refused);
      }
      if !dev {
        return Ok(Standing(0, false));
      }
      var p := clock.Advance(at);
      if lost {
        return Err(Refused);
      }
      r := Ok(Standing(p, true));
    }

    /** Moves the clock to the latest date the claims carry, if they carry one. */
    method AdvanceClockPast(claims: seq<Claim>) returns (r: Result<Standing, Error>)
      requires Valid()
      modifies clock
      ensures Valid() && clock.position >= old(clock.position)
      ensures r.Ok? && dev ==> forall c | c in claims :: c.at <= clock.position
    {
      var at := MaxCreatedAt(Present(claims));
      assert forall c | c in claims :: Some(c) in Present(claims) by {
        assert forall k | 0 <= k < |claims| :: Present(claims)[k] == Some(claims[k]);
      }
      if at == 0 {
        return Ok(Standing(0, false));
      }
      r := AdvanceClock(at);
    }

    /** Merges the claims at the time the clock tells, or refuses; the answer, or the merge, may be lost. */
    method Contribute(branch: string, claims: seq<Claim>) returns (r: Result<nat, Error>)
      modifies this`merges
      ensures claims == [] ==> r == Ok(0) && merges == old(merges)
      ensures r.Ok? && claims != [] ==> merges == old(merges) + [Merge(branch, claims, Reading(clock.position, wall))]
      ensures r.Err? ==> merges == old(merges)
                         || merges == old(merges) + [Merge(branch, claims, Reading(clock.position, wall))]
    {
      if |claims| == 0 {
        return Ok(0);
      }
      var refused: bool, lost: bool := *, *;
      if refused {
        return Err(Refused);
      }
      var now := clock.Now(wall);
      merges := merges + [Merge(branch, claims, now)];
      if lost {
        return Err(Refused);
      }
      var landed: nat :| 0 <= landed;
      r := Ok(landed);
    }
  }

  // --- delivering ---------------------------------------------------------------------------

  /** What one contribution of a shape came to: what went up, where among
      the archive's merges it is if anything did, and how many claims landed. */
  datatype Delivery = Delivery(branch: string, claims: seq<Claim>, merged: Option<nat>, landed: nat)

  /** The claims landed, in all and on each branch. */
  datatype Tally = Tally(total: nat, perBranch: map<string, nat>)

  /** The `k`-th delivery carried the `k`-th contribution, and is the merge it says it is. */
  predicate Delivered(root: Claim, bs: seq<Batch>, merges: seq<Merge>, d: Delivery, k: nat)
    requires k < |bs|
  {
    && d.branch == bs[k].branch && d.claims == Sent(root, bs[..k], bs[k])
    && (d.merged.Some? <==> d.claims != [])
    && (d.merged.Some? ==>
          && d.merged.value < |merges|
          && merges[d.merged.value].branch == d.branch && merges[d.merged.value].claims == d.claims)
  }

  predicate AllDelivered(root: Claim, bs: seq<Batch>, merges: seq<Merge>, ds: seq<Delivery>) {
    |ds| <= |bs| && forall k | 0 <= k < |ds| :: Delivered(root, bs, merges, ds[k], k)
  }

  /** When a delivery was merged. */
  function MergedAt(merges: seq<Merge>, d: Delivery): int
    requires d.merged.Some? && d.merged.value < |merges|
  {
    merges[d.merged.value].at
  }

  /** A delivery was merged at an instant no earlier than any claim it carried. */
  predicate MergedInTime(merges: seq<Merge>, d: Delivery) {
    d.merged.Some? && d.merged.value < |merges| ==> forall c | c in d.claims :: c.at <= MergedAt(merges, d)
  }

  /** Deliveries were merged in the order they went up, and at instants that never went back. */
  predicate InMergeOrder(merges: seq<Merge>, ds: seq<Delivery>) {
    forall j, k | 0 <= j < k < |ds| && ds[j].merged.Some? && ds[k].merged.Some? ::
      && ds[j].merged.value < ds[k].merged.value < |merges|
      && MergedAt(merges, ds[j]) <= MergedAt(merges, ds[k])
  }

  /** What a delivery so far rests on: the clock was moved to or past every instant merged at, and the root's. */
  predicate Behind(merges: seq<Merge>, ds: seq<Delivery>, position: int, root: Claim) {
    && (ds != [] ==> root.at <= position)
    && forall k | 0 <= k < |ds| && ds[k].merged.Some? :: ds[k].merged.value < |merges|
                                                         && MergedAt(merges, ds[k]) <= position
  }

  /** One contribution goes up; what others do meanwhile is theirs. */
  method DeliverOne(stack: Stack, root: Claim, ghost before: seq<Batch>, branch: string, claims: seq<Claim>)
    returns (r: Result<nat, Error>, ghost d: Delivery)
    requires stack.Valid()
    modifies stack, stack.clock
    ensures stack.Valid() && |stack.merges| >= |old(stack.merges)|
            && stack.merges[..|old(stack.merges)|] == old(stack.merges)
    ensures stack.clock.position >= old(stack.clock.position)
    ensures r.Ok? ==>
              && d.branch == branch && d.claims == claims && d.landed == r.value && (d.merged.Some? <==> claims != [])
              && (d.merged.Some? ==>
                    && |old(stack.merges)| <= d.merged.value < |stack.merges|
                    && stack.merges[d.merged.value].branch == branch && stack.merges[d.merged.value].claims == claims)
    ensures r.Ok? && stack.dev ==> MergedInTime(stack.merges, d)
    ensures r.Ok? && stack.dev ==> forall c | c in claims :: c.at <= stack.clock.position
    ensures r.Ok? && d.merged.Some? && stack.dev
            && (old(stack.clock.position) > 0 || exists c :: c in claims && c.at > 0) ==>
              old(stack.clock.position) <= MergedAt(stack.merges, d) <= stack.clock.position
  {
    d := Delivery(branch, claims, None, 0);
    stack.Others();
    var standing := stack.AdvanceClockPast(claims);
    if standing.Err? {
      return Err(standing.error), d;
    }
    stack.Others();
    ghost var n := |stack.merges|;
    r := stack.Contribute(branch, claims);
    d := Delivery(branch, claims, if claims == [] then None else Some(n), if r.Ok? then r.value else 0);
  }

  lemma DeliveriesStand(root: Claim, bs: seq<Batch>, had: seq<Merge>, merges: seq<Merge>, ds: seq<Delivery>)
    requires |had| <= |merges| && merges[..|had|] == had && AllDelivered(root, bs, had, ds)
    ensures AllDelivered(root, bs, merges, ds)
    ensures forall k | 0 <= k < |ds| && ds[k].merged.Some? :: MergedAt(had, ds[k]) == MergedAt(merges, ds[k])
  {
    assert forall i | 0 <= i < |had| :: had[i] == merges[i];
    forall k | 0 <= k < |ds| ensures Delivered(root, bs, merges, ds[k], k) {
      assert Delivered(root, bs, had, ds[k], k);
    }
    assert forall k | 0 <= k < |ds| && ds[k].merged.Some? :: Delivered(root, bs, had, ds[k], k);
  }

  /** What a development stack keeps from one delivery to the next. */
  ghost predicate Steered(root: Claim, merges: seq<Merge>, ds: seq<Delivery>, position: int) {
    && Behind(merges, ds, position, root)
    && InMergeOrder(merges, ds)
    && forall k | 0 <= k < |ds| :: MergedInTime(merges, ds[k])
  }

  lemma SteeredOn(root: Claim, bs: seq<Batch>, had: seq<Merge>, merges: seq<Merge>, ds: seq<Delivery>, d: Delivery,
                  was: int, position: int)
    requires |had| <= |merges| && merges[..|had|] == had && AllDelivered(root, bs, had, ds)
    requires Steered(root, had, ds, was) && was <= position
    requires MergedInTime(merges, d) && (d.merged.Some? ==> |had| <= d.merged.value < |merges|)
    requires forall c | c in d.claims :: c.at <= position
    requires ds == [] ==> root in d.claims
    requires d.merged.Some? && (ds != [] || root in d.claims) ==> was <= MergedAt(merges, d) <= position
    ensures Steered(root, merges, ds + [d], position)
  {
    DeliveriesStand(root, bs, had, merges, ds);
    assert forall k | 0 <= k < |ds| && ds[k].merged.Some? :: Delivered(root, bs, had, ds[k], k);
    forall k | 0 <= k < |ds| ensures MergedInTime(merges, ds[k]) {
      assert MergedInTime(had, ds[k]);
    }
  }

  lemma SteeredStands(root: Claim, bs: seq<Batch>, had: seq<Merge>, merges: seq<Merge>, ds: seq<Delivery>, was: int,
                      position: int)
    requires |had| <= |merges| && merges[..|had|] == had && AllDelivered(root, bs, had, ds)
    requires Steered(root, had, ds, was) && was <= position
    ensures Steered(root, merges, ds, position)
  {
    DeliveriesStand(root, bs, had, merges, ds);
    assert forall k | 0 <= k < |ds| && ds[k].merged.Some? :: Delivered(root, bs, had, ds[k], k);
    forall k | 0 <= k < |ds| ensures MergedInTime(merges, ds[k]) {
      assert MergedInTime(had, ds[k]);
    }
  }

  /** The next contribution goes up: the deliveries so far stand, and this one joins them. */
  method DeliverNext(stack: Stack, root: Claim, ghost bs: seq<Batch>, branch: string, claims: seq<Claim>,
                     ghost ds: seq<Delivery>)
    returns (r: Result<nat, Error>, ghost all: seq<Delivery>)
    requires stack.Valid() && AllDelivered(root, bs, stack.merges, ds) && |ds| < |bs|
    requires branch == bs[|ds|].branch && claims == Sent(root, bs[..|ds|], bs[|ds|])
    requires stack.dev && root.at > 0 ==> Steered(root, stack.merges, ds, stack.clock.position)
    modifies stack, stack.clock
    ensures stack.Valid() && AllDelivered(root, bs, stack.merges, all)
    ensures stack.dev && root.at > 0 ==> Steered(root, stack.merges, all, stack.clock.position)
    ensures r.Err? ==> all == ds
    ensures r.Ok? ==> all != [] && all == ds + [Last(all)] && Last(all).branch == branch && Last(all).landed == r.value
  {
    ghost var had, was := stack.merges, stack.clock.position;
    ghost var d;
    r, d := DeliverOne(stack, root, bs[..|ds|], branch, claims);
    DeliveriesStand(root, bs, had, stack.merges, ds);
    if stack.dev && root.at > 0 {
      SteeredStands(root, bs, had, stack.merges, ds, was, stack.clock.position);
    }
    all := ds;
    if r.Ok? {
      all := ds + [d];
      if stack.dev && root.at > 0 {
        assert ds == [] ==> root in claims;
        SteeredOn(root, bs, had, stack.merges, ds, d, was, stack.clock.position);
      }
    }
  }

  function Landed(ds: seq<Delivery>): nat {
    if ds == [] then 0 else Landed(Front(ds)) + Last(ds).landed
  }

  function LandedOn(ds: seq<Delivery>, branch: string): nat {
    if ds == [] then 0 else LandedOn(Front(ds), branch) + if Last(ds).branch == branch then Last(ds).landed else 0
  }

  /** The tally agrees with the deliveries: the whole, and each branch that received any. */
  ghost predicate Tallies(t: Tally, ds: seq<Delivery>) {
    && t.total == Landed(ds)
    && (forall d | d in ds :: d.branch in t.perBranch)
    && (forall b | b in t.perBranch :: t.perBranch[b] == LandedOn(ds, b))
  }

  lemma {:induction false} NoneLanded(ds: seq<Delivery>, branch: string)
    requires forall d | d in ds :: d.branch != branch
    ensures LandedOn(ds, branch) == 0
  {
    if ds != [] {
      assert forall d | d in Front(ds) :: d in ds;
      NoneLanded(Front(ds), branch);
    }
  }

  function Count(t: Tally, branch: string, landed: nat): Tally {
    Tally(t.total + landed, t.perBranch[branch := landed + if branch in t.perBranch then t.perBranch[branch] else 0])
  }

  lemma TalliesOn(t: Tally, ds: seq<Delivery>, d: Delivery)
    requires Tallies(t, ds)
    ensures Tallies(Count(t, d.branch, d.landed), ds + [d])
  {
    assert Front(ds + [d]) == ds;
    if d.branch !in t.perBranch {
      NoneLanded(ds, d.branch);
    }
  }

  /** Sends a shape's contributions up in order, each after the clock is steered to it. */
  method Deliver(stack: Stack, root: Claim, bs: seq<Batch>) returns (r: Result<Tally, Error>, ghost ds: seq<Delivery>)
    requires stack.Valid()
    modifies stack, stack.clock
    ensures stack.Valid() && AllDelivered(root, bs, stack.merges, ds)
    ensures r.Ok? ==> |ds| == |bs| && Tallies(r.value, ds)
    ensures stack.dev && root.at > 0 ==> Steered(root, stack.merges, ds, stack.clock.position)
  {
    ds := [];
    var tally, seeded: set<string> := Tally(0, map[]), {};
    for i := 0 to |bs|
      invariant stack.Valid() && |ds| == i && AllDelivered(root, bs, stack.merges, ds)
      invariant forall b :: b in seeded <==> Seeded(bs[..i], b)
      invariant stack.dev && root.at > 0 ==> Steered(root, stack.merges, ds, stack.clock.position)
      invariant Tallies(tally, ds)
    {
      var b := bs[i];
      var claims := b.claims;
      if b.branch !in seeded {
        claims := [root] + claims;
      }
      assert claims == Sent(root, bs[..i], b);
      SeededOn(bs, i);
      seeded := seeded + {b.branch};
      var landed;
      ghost var before := ds;
      landed, ds := DeliverNext(stack, root, bs, b.branch, claims, ds);
      if landed.Err? {
        return Err(landed.error), ds;
      }
      TalliesOn(tally, before, Last(ds));
      tally := Count(tally, b.branch, landed.value);
    }
    r := Ok(tally);
  }

  lemma SeededOn(bs: seq<Batch>, i: nat)
    requires i < |bs|
    ensures forall b :: Seeded(bs[..i + 1], b) <==> Seeded(bs[..i], b) || b == bs[i].branch
  {
    forall b ensures Seeded(bs[..i + 1], b) <==> Seeded(bs[..i], b) || b == bs[i].branch {
      if Seeded(bs[..i], b) {
        var k :| 0 <= k < i && bs[..i][k].branch == b;
        assert bs[..i + 1][k].branch == b;
      }
      assert bs[..i + 1][i] == bs[i];
    }
  }

  function LandedOnAll(ds: seq<Delivery>, branches: seq<string>): nat {
    if branches == [] then 0 else LandedOn(ds, branches[0]) + LandedOnAll(ds, branches[1..])
  }

  lemma {:induction false} NothingLanded(branches: seq<string>)
    ensures LandedOnAll([], branches) == 0
  {
    if branches != [] {
      NothingLanded(branches[1..]);
    }
  }

  lemma {:induction false} OneMoreLanded(ds: seq<Delivery>, branches: seq<string>)
    requires ds != [] && Distinct(branches)
    ensures LandedOnAll(ds, branches)
         == LandedOnAll(Front(ds), branches) + if Last(ds).branch in branches then Last(ds).landed else 0
    decreases branches
  {
    if branches != [] {
      OneMoreLanded(ds, branches[1..]);
      assert branches == [branches[0]] + branches[1..];
    }
  }

  /** What landed on each of the branches adds up to what landed. */
  lemma {:induction false} LandedAddsUp(ds: seq<Delivery>, branches: seq<string>)
    requires Distinct(branches) && forall d | d in ds :: d.branch in branches
    ensures Landed(ds) == LandedOnAll(ds, branches)
  {
    if ds == [] {
      NothingLanded(branches);
    } else {
      assert forall d | d in Front(ds) :: d in ds;
      LandedAddsUp(Front(ds), branches);
      OneMoreLanded(ds, branches);
    }
  }
}
