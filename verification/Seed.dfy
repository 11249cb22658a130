/** The generator's commands (cmd/generator/main.go): build a shape with a new identity, then deliver it. */
module Seed {
  import opened Bytes
  import opened Lists
  import opened Claims
  import opened Graph
  import opened Deliver
  import Chain
  import Release

  datatype Shape = Example | Chain(contributions: int, per: int) | Release(releases: int)

  /** The counts a command is refused for. */
  predicate Refused(shape: Shape) {
    match shape
    case Example => false
    case Chain(contributions, per) => contributions < 1 || per < 1
    case Release(releases) => releases < 1
  }

  function Names(branch: string, branches: int): seq<string> {
    Spread(BRANCH_NAMES, branch, if branches > 1 then branches else 1)
  }

  /** The primary first, then as many of the fixture's other branches as asked for, or as there are. */
  lemma NamesTell(branch: string, branches: int)
    ensures var names := Names(branch, branches);
            var others := if branch in BRANCH_NAMES then 4 else 5;
            && names[0] == branch && Distinct(names)
            && |names| == (if branches <= 1 then 1 else if branches - 1 <= others then branches else 1 + others)
  {
    assert Distinct(BRANCH_NAMES);
    SpreadIsDistinct(BRANCH_NAMES, branch, if branches > 1 then branches else 1);
  }

  /** The contributions are those of a run of the shape, for some draws. */
  ghost predicate Shaped(shape: Shape, root: Claim, at: int, branch: string, branches: int, bs: seq<Batch>) {
    match shape
    case Example => bs == ExampleBatches(root, at, Names(branch, branches))
    case Chain(contributions, per) =>
      |bs| == contributions && per > 0 && exists ms ::
        Chain.Grown(root, at, per, Names(branch, branches), [], ms) && Chain.Cut(bs, ms, per, Names(branch, branches))
    case Release(releases) =>
      exists draws :: |draws| == releases && Release.AllDrawn(draws)
                      && bs == Release.ReleaseBatches(root, at, branch, draws)
  }

  method Build(g: Grower, shape: Shape, branch: string, branches: int) returns (r: Result<seq<Batch>, Error>)
    requires g.made == [] && 0 < g.self.at <= g.at
    modifies g
    ensures r.Err? <==> Refused(shape)
    ensures shape.Example? ==> r.Ok?
    ensures shape.Chain? ==> (r.Ok? <==> shape.contributions >= 1 && shape.per >= 1)
    ensures shape.Release? ==> (r.Ok? <==> shape.releases >= 1)
    ensures r.Ok? ==> Shaped(shape, g.self, old(g.at), branch, branches, r.value)
    ensures r.Ok? ==> Coherent(g.self, r.value) && AllDated(r.value) && AllRooted(r.value)
  {
    ghost var at := g.at;
    match shape {
      case Example =>
        var names := BranchesFor(BRANCH_NAMES, branch, if branches > 1 then branches else 1);
        var bs := Graph.Example(g, names);
        ExampleHolds(g.self, at, names);
        r := Ok(bs);
      case Chain(contributions, per) =>
        if contributions < 1 || per < 1 {
          return Err(NoShape);
        }
        var names := BranchesFor(BRANCH_NAMES, branch, if branches > 1 then branches else 1);
        var bs;
        ghost var ms;
        bs, ms := Chain.Chain(g, contributions, per, names);
        assert names == Names(branch, branches);
        Chain.ChainHolds(g.self, at, per, names, bs, ms);
        r := Ok(bs);
      case Release(releases) =>
        var bs;
        ghost var draws;
        bs, draws := Release.Release(g, branch, releases);
        if bs.Err? {
          return Err(NoShape);
        }
        Release.ReleaseRunHolds(g.self, at, branch, draws);
        r := Ok(bs.value);
    }
  }

  /**
   Seeds a stack: whatever is drawn and whatever else the stack is asked meanwhile, every branch
   stays closed under reference after every contribution, and on a development stack each is
   merged no earlier than any claim it carries and no earlier than the one before it.
   */
  method Seed(stack: Stack, shape: Shape, name: string, branch: string, branches: int)
    returns (r: Result<Tally, Error>, ghost bs: seq<Batch>, ghost ds: seq<Delivery>)
    requires stack.Valid()
    modifies stack, stack.clock
    ensures var root := RootClaim(name);
            && AllDelivered(root, bs, stack.merges, ds) && Closed(root, bs) && AllDated(bs) && AllRooted(bs)
            && (stack.dev ==> Steered(root, stack.merges, ds, stack.clock.position))
    ensures Refused(shape) ==> r == Err(NoShape) && stack.merges == old(stack.merges)
    ensures r.Ok? ==> |ds| == |bs| && Tallies(r.value, ds)
                      && Shaped(shape, RootClaim(name), EPOCH, branch, branches, bs)
  {
    var g := new Grower(name);
    bs, ds := [], [];
    var built := Build(g, shape, branch, branches);
    if built.Err? {
      return Err(NoShape), bs, ds;
    }
    bs := built.value;
    CoherentIsClosed(g.self, bs);
    r, ds := Deliver.Deliver(stack, g.self, built.value);
  }

  /** After any number of contributions, each claim of a branch reaches only those that branch received before it. */
  ghost predicate Closed(root: Claim, bs: seq<Batch>) {
    forall k: nat, branch, i: nat | k <= |bs| && i < |SentTo(root, bs[..k], branch)| ::
      ClosedAt(SentTo(root, bs[..k], branch), i)
  }

  predicate ClosedAt(up: seq<Claim>, i: nat)
    requires i < |up|
  {
    ResolvedBy(up[i], Elements(up[..i]))
  }

  lemma CoherentIsClosed(root: Claim, bs: seq<Batch>)
    requires IsRoot(root) && Coherent(root, bs)
    ensures Closed(root, bs)
  {
    forall k: nat, branch, i: nat | k <= |bs| && i < |SentTo(root, bs[..k], branch)|
      ensures ClosedAt(SentTo(root, bs[..k], branch), i)
    {
      BranchesStayClosed(root, bs, k, branch, i);
    }
  }
}
