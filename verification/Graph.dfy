/** The fixture identity, the one way it signs, and the smallest shape (cmd/generator/graph.go). */
module Graph {
  import opened Bytes
  import opened Lists
  import opened Claims

  const MINUTE := 60_000_000_000
  const HOUR := 60 * MINUTE
  const DAY := 24 * HOUR

  /** The fixture clock's start, and how far it moves for each claim. */
  const EPOCH := 739767 * DAY
  const CLOCK_STEP := MINUTE

  /** A signed claim and the branch holding it. */
  datatype Made = Made(claim: Claim, branch: string)

  /** An identity claims are attributed to, by the claim that names its key. */
  datatype Signer = Signer(name: string, claim: Claim)

  /** One claim to sign; a date of zero rides the ambient clock. */
  datatype Spec = Spec(
    signer: Signer, branch: string, typ: NodeType, text: Text, fields: map<string, string>, cites: seq<Cite>, at: int)

  /** The claim a spec signs when the ambient clock stands at `ambient`. */
  function Signed(s: Spec, ambient: int): Claim {
    Claim(s.typ, s.text, s.fields, if s.at == 0 then ambient else s.at, Some(s.signer.claim), s.cites)
  }

  /** Where the ambient clock stands after it: an unscheduled claim ticks it, a scheduled one may pull it ahead. */
  function Ticked(s: Spec, ambient: int): int {
    if s.at == 0 then ambient + CLOCK_STEP else if s.at > ambient then s.at else ambient
  }

  /** A key claim that names its owner. */
  function KeyClaim(name: string, at: int, signer: Option<Claim>, cites: seq<Cite>): Claim {
    Claim(CONTRIBUTOR, Text("pubkey", [name], []), map[], at, signer, cites)
  }

  function RootClaim(name: string): Claim {
    KeyClaim(name, EPOCH, None, [])
  }

  /** A claim the root signs itself, citing `refs` as inputs. */
  function OwnClaim(root: Claim, at: int, typ: NodeType, text: Text, refs: seq<Claim>): Claim {
    Claim(typ, text, map[], at, Some(root), Inputs(refs))
  }

  /** The claims as the grower remembers them. */
  function Tagged(branch: string, cs: seq<Claim>): seq<Made> {
    seq(|cs|, k requires 0 <= k < |cs| => Made(cs[k], branch))
  }

  lemma TaggedAppend(branch: string, a: seq<Claim>, b: seq<Claim>)
    ensures Tagged(branch, a + b) == Tagged(branch, a) + Tagged(branch, b)
  {
  }

  /** A fixture begins on the first of June 2026, that many days after the zero time. */
  lemma EpochIsADay()
    ensures EPOCH == (365 * 2025 + 2025 / 4 - 2025 / 100 + 2025 / 400 + 31 + 28 + 31 + 30 + 31) * 86_400_000_000_000
  {
  }

  /** The root is a key claim under its name, signed by no other key and citing nothing, at the epoch. */
  lemma RootTells(name: string)
    ensures var c := RootClaim(name);
            && c.typ == NodeType(Contribution, "contributor") && c.text.words == [name] && c.fields == map[]
            && c.at == EPOCH && c.signer == None && c.cites == []
  {
  }

  class Grower {
    const self: Claim
    var at: int
    var made: seq<Made>

    constructor (name: string)
      ensures self == RootClaim(name) && at == EPOCH && made == []
    {
      self := RootClaim(name);
      at := EPOCH;
      made := [];
    }

    /** The generator's draw: any number below `n`. */
    method IntN(n: int) returns (k: int)
      requires n > 0
      ensures 0 <= k < n
    {
      k :| 0 <= k < n;
    }

    function RootSigner(): Signer {
      Signer("root", self)
    }

    /** Signs one claim and remembers it. */
    method Write(s: Spec) returns (m: Made)
      modifies this
      ensures m == Made(Signed(s, old(at)), s.branch)
      ensures at == Ticked(s, old(at))
      ensures made == old(made) + [m]
    {
      var when := s.at;
      if when == 0 {
        when := at;
      }
      var claim := Claim(s.typ, s.text, s.fields, when, Some(s.signer.claim), s.cites);
      if s.at == 0 {
        at := at + CLOCK_STEP;
      } else if when > at {
        at := when;
      }
      m := Made(claim, s.branch);
      made := made + [m];
    }

    /** Derives an identity the root vouches for, its key claim citing the actor it belongs to. */
    method Attest(name: string, of: Claim) returns (s: Signer)
      modifies this
      ensures s == Signer(name, KeyClaim(name, old(at), Some(self), [Cite(of, Identity)]))
      ensures at == old(at) + CLOCK_STEP && made == old(made)
    {
      s := Signer(name, KeyClaim(name, at, Some(self), [Cite(of, Identity)]));
      at := at + CLOCK_STEP;
    }

    /** Signs a claim of the grower's own, citing `refs` as inputs. */
    method ClaimOn(branch: string, typ: NodeType, text: Text, refs: seq<Claim>) returns (m: Made)
      modifies this
      ensures m == Made(OwnClaim(self, old(at), typ, text, refs), branch)
      ensures at == old(at) + CLOCK_STEP && made == old(made) + [m]
    {
      m := Write(Spec(RootSigner(), branch, typ, text, map[], Inputs(refs), 0));
    }
  }

  // --- the branches an archive spreads over ------------------------------------------

  const BRANCH_NAMES: seq<string> := ["main", "notes", "review", "entities", "ingest"]

  /** The primary branch, then as many of the others as `n` leaves room for. */
  function Spread(known: seq<string>, primary: string, n: int): seq<string> {
    var others := Without(known, primary);
    [primary] + if n - 1 >= |others| then others else if n < 1 then [] else others[..n - 1]
  }

  method BranchesFor(known: seq<string>, primary: string, n: int) returns (names: seq<string>)
    ensures names == Spread(known, primary, n)
  {
    names := [primary];
    var i := 0;
    ghost var taken := [];
    assert known[0..] == known;
    while i < |known| && |names| < n
      invariant i <= |known|
      invariant names == [primary] + taken && (taken == [] || |names| <= n)
      invariant TakenSoFar(known, primary, i, taken)
    {
      TakeOne(known, primary, i, taken);
      if known[i] != primary {
        names := names + [known[i]];
        taken := taken + [known[i]];
      }
      i := i + 1;
    }
    SpreadIs(known, primary, n, taken, Without(known[i..], primary));
  }

  ghost predicate TakenSoFar(known: seq<string>, primary: string, i: nat, taken: seq<string>)
    requires i <= |known|
  {
    taken + Without(known[i..], primary) == Without(known, primary)
  }

  lemma TakeOne(known: seq<string>, primary: string, i: nat, taken: seq<string>)
    requires i < |known| && TakenSoFar(known, primary, i, taken)
    ensures TakenSoFar(known, primary, i + 1, if known[i] == primary then taken else taken + [known[i]])
  {
    assert known[i..][1..] == known[i + 1..];
    var rest := Without(known[i + 1..], primary);
    assert taken + ([known[i]] + rest) == (taken + [known[i]]) + rest;
    assert [] + rest == rest;
  }

  lemma SpreadIs(known: seq<string>, primary: string, n: int, taken: seq<string>, rest: seq<string>)
    requires taken + rest == Without(known, primary)
    requires taken == [] || 1 + |taken| <= n
    requires rest == [] || 1 + |taken| >= n
    ensures Spread(known, primary, n) == [primary] + taken
  {
    assert taken == (taken + rest)[..|taken|];
  }

  /** Distinct names, the primary first; one always, and never more than the fixture's own and the primary. */
  lemma SpreadIsDistinct(known: seq<string>, primary: string, n: int)
    requires Distinct(known)
    ensures var names := Spread(known, primary, n);
            && Distinct(names) && names[0] == primary
            && |names| == (if n < 1 then 1
                           else if n < |known| then n
                           else if n == |known| || primary in known then if |known| == 0 then 1 else |known|
                           else |known| + 1)
            && names[1..] <= Without(known, primary)
            && forall b | b in names[1..] :: b in known
  {
    WithoutMeans(known, primary);
  }

  /** So are those of a fixture: at most its own five and the primary. */
  lemma FixtureBranches(primary: string, n: int)
    ensures Distinct(Spread(BRANCH_NAMES, primary, n)) && 1 <= |Spread(BRANCH_NAMES, primary, n)| <= 6
  {
    assert Distinct(BRANCH_NAMES);
    SpreadIsDistinct(BRANCH_NAMES, primary, n);
  }

  /** On the usual primary the branches are these, in this order, as many as asked for. */
  lemma FixtureNames(n: int)
    requires 1 <= n <= 5
    ensures Spread(BRANCH_NAMES, "main", n) == ["main", "notes", "review", "entities", "ingest"][..n]
  {
    var others := ["notes", "review", "entities", "ingest"];
    FixtureOthers(others);
    FirstOf("main", others, n);
  }

  lemma FirstOf(name: string, others: seq<string>, n: nat)
    requires 1 <= n <= 1 + |others|
    ensures ([name] + others)[..n] == [name] + others[..n - 1]
  {
  }

  lemma FixtureOthers(others: seq<string>)
    requires others == ["notes", "review", "entities", "ingest"]
    ensures Without(BRANCH_NAMES, "main") == others && ["main"] + others == BRANCH_NAMES
  {
    assert BRANCH_NAMES == ["main"] + others;
    WithoutAppend(["main"], others, "main", "main");
    KeptWhole(others, "main");
  }

  lemma {:induction false} KeptWhole(names: seq<string>, name: string)
    requires name !in names
    ensures Without(names, name) == names
  {
    if names != [] {
      assert names == [names[0]] + names[1..];
      KeptWhole(names[1..], name);
    }
  }

  // --- the example ------------------------------------------------------------------------

  const NOTE := NodeType(Source, "note")
  const EXTRACTION := NodeType(Derivation, "extraction")
  const SUMMARY := NodeType(Derivation, "summary")
  const PERSON := NodeType(Entity, "person")

  /** Two sources, a derivation citing both, and an entity from that derivation. */
  function ExampleMain(root: Claim, at: int): seq<Claim> {
    var first := OwnClaim(root, at, NOTE, Text("a first note", [], []), []);
    var second := OwnClaim(root, at + CLOCK_STEP, NOTE, Text("a second note", [], []), []);
    var derivation := OwnClaim(root, at + 2 * CLOCK_STEP, EXTRACTION, Text("Ada Lovelace", [], []), [first, second]);
    [first, second, derivation, OwnClaim(root, at + 3 * CLOCK_STEP, PERSON, Text("Ada Lovelace", [], []), [derivation])]
  }

  function ExampleNote(root: Claim, at: int, name: string): seq<Claim> {
    var note := OwnClaim(root, at, NOTE, Text("a note on ", [name], []), []);
    [note, OwnClaim(root, at + CLOCK_STEP, SUMMARY, Text("what says", [name], []), [note])]
  }

  function ExampleBatches(root: Claim, at: int, branches: seq<string>): seq<Batch>
    requires branches != []
  {
    if |branches| == 1 then [Batch(branches[0], ExampleMain(root, at))]
    else
      var n := |branches| - 1;
      ExampleBatches(root, at, branches[..n])
      + [Batch(branches[n], ExampleNote(root, at + (2 + 2 * n) * CLOCK_STEP, branches[n]))]
  }

  method Example(g: Grower, branches: seq<string>) returns (bs: seq<Batch>)
    requires branches != []
    modifies g
    ensures bs == ExampleBatches(g.self, old(g.at), branches)
    ensures g.at == old(g.at) + (2 + 2 * |branches|) * CLOCK_STEP
  {
    var first := g.ClaimOn("", NOTE, Text("a first note", [], []), []);
    var second := g.ClaimOn("", NOTE, Text("a second note", [], []), []);
    var derivation := g.ClaimOn("", EXTRACTION, Text("Ada Lovelace", [], []), [first.claim, second.claim]);
    var entity := g.ClaimOn("", PERSON, Text("Ada Lovelace", [], []), [derivation.claim]);
    bs := [Batch(branches[0], [first.claim, second.claim, derivation.claim, entity.claim])];
    for i := 1 to |branches|
      invariant bs == ExampleBatches(g.self, old(g.at), branches[..i])
      invariant g.at == old(g.at) + (2 + 2 * i) * CLOCK_STEP
    {
      var note := g.ClaimOn("", NOTE, Text("a note on ", [branches[i]], []), []);
      var summary := g.ClaimOn("", SUMMARY, Text("what says", [branches[i]], []), [note.claim]);
      assert branches[..i + 1][..i] == branches[..i];
      bs := bs + [Batch(branches[i], [note.claim, summary.claim])];
    }
    assert branches[..|branches|] == branches;
  }

  /**
   The main contribution: two notes, what was extracted from both, and the person that names; a
   minute between each.
   */
  lemma ExampleMainTells(root: Claim, at: int)
    ensures var cs := ExampleMain(root, at);
            && |cs| == 4
            && cs[0].typ == cs[1].typ == NodeType(Source, "note") && cs[0].cites == cs[1].cites == []
            && cs[2].typ == NodeType(Derivation, "extraction")
            && cs[2].cites == [Cite(cs[0], Input), Cite(cs[1], Input)]
            && cs[3].typ == NodeType(Entity, "person") && cs[3].cites == [Cite(cs[2], Input)]
            && cs[0] != cs[1]
            && forall k | 0 <= k < 4 :: cs[k].at == at + k * 60_000_000_000 && cs[k].signer == Some(root)
  {
    var cs := ExampleMain(root, at);
    assert cs[0].text.form != cs[1].text.form by {
      assert "a first note"[2] != "a second note"[2];
    }
  }

  /** One on another branch: a note that names the branch, and a summary of it a minute later. */
  lemma ExampleNoteTells(root: Claim, at: int, name: string)
    ensures var cs := ExampleNote(root, at, name);
            && |cs| == 2
            && cs[0].typ == NodeType(Source, "note") && cs[0].cites == [] && cs[0].text.words == [name]
            && cs[1].typ == NodeType(Derivation, "summary") && cs[1].cites == [Cite(cs[0], Input)]
            && cs[1].text.words == [name]
            && cs[0].at == at && cs[1].at == at + 60_000_000_000 && cs[0].signer == cs[1].signer == Some(root)
  {
  }

  /** One contribution a branch, in the order of the branches, the claims numbered on from one to the next. */
  lemma {:induction false} ExampleBatchesTell(root: Claim, at: int, branches: seq<string>, i: nat)
    requires i < |branches|
    ensures var bs := ExampleBatches(root, at, branches);
            && |bs| == |branches| && bs[i].branch == branches[i]
            && bs[i].claims == if i == 0 then ExampleMain(root, at)
                               else ExampleNote(root, at + (2 + 2 * i) * 60_000_000_000, branches[i])
  {
    var n := |branches| - 1;
    if i < n {
      ExampleBatchesTell(root, at, branches[..n], i);
    } else if n > 0 {
      ExampleBatchesTell(root, at, branches[..n], 0);
    }
  }

  lemma ExampleMainOrdered(root: Claim, at: int)
    ensures Ordered({root}, ExampleMain(root, at))
  {
    var cs := ExampleMain(root, at);
    assert [] + [cs[0]] == [cs[0]] && [cs[0]] + [cs[1]] == cs[..2] && cs[..2] + [cs[2]] == cs[..3]
           && cs[..3] + [cs[3]] == cs;
    ElementsMembers(cs[..2], cs[0]);
    ElementsMembers(cs[..2], cs[1]);
    ElementsMembers(cs[..3], cs[2]);
    OrderedSnoc({root}, [], cs[0]);
    OrderedSnoc({root}, [cs[0]], cs[1]);
    OrderedSnoc({root}, cs[..2], cs[2]);
    OrderedSnoc({root}, cs[..3], cs[3]);
  }

  lemma ExampleMainRooted(root: Claim, at: int)
    ensures forall c | c in ExampleMain(root, at) :: FromSource(c)
  {
    var cs := ExampleMain(root, at);
    assert FromSource(cs[0]) && FromSource(cs[1]);
    assert cs[2].cites[0] == Cite(cs[0], Input) && FromSource(cs[2]);
    assert cs[3].cites[0] == Cite(cs[2], Input) && FromSource(cs[3]);
  }

  lemma ExampleMainHolds(root: Claim, at: int)
    requires root.at <= at
    ensures var cs := ExampleMain(root, at); Ordered({root}, cs) && forall c | c in cs :: Dated(c) && FromSource(c)
  {
    ExampleMainOrdered(root, at);
    ExampleMainRooted(root, at);
  }

  lemma ExampleNoteHolds(root: Claim, at: int, name: string)
    requires root.at <= at
    ensures var cs := ExampleNote(root, at, name);
            Ordered({root}, cs) && forall c | c in cs :: Dated(c) && FromSource(c)
  {
    var cs := ExampleNote(root, at, name);
    assert cs[1].cites[0] == Cite(cs[0], Input);
    assert FromSource(cs[0]) && FromSource(cs[1]);
    OrderedCons({root} + {cs[0]}, cs[1], []);
    OrderedCons({root}, cs[0], [cs[1]]);
  }

  /** Whatever the branches, the example is closed under reference on each, dated in order, and rooted in sources. */
  lemma {:induction false} ExampleHolds(root: Claim, at: int, branches: seq<string>)
    requires branches != [] && root.at <= at
    ensures var bs := ExampleBatches(root, at, branches); Coherent(root, bs) && AllDated(bs) && AllRooted(bs)
  {
    var n := |branches| - 1;
    if n == 0 {
      ExampleMainHolds(root, at);
      assert [] + [Batch(branches[0], ExampleMain(root, at))] == ExampleBatches(root, at, branches);
      OneMoreBatch(root, [], Batch(branches[0], ExampleMain(root, at)));
    } else {
      ExampleHolds(root, at, branches[..n]);
      var when := at + (2 + 2 * n) * CLOCK_STEP;
      ExampleNoteHolds(root, when, branches[n]);
      OneMoreBatch(root, ExampleBatches(root, at, branches[..n]),
                   Batch(branches[n], ExampleNote(root, when, branches[n])));
    }
  }

  /** A contribution that reaches only itself and the root keeps the whole coherent. */
  lemma OneMoreBatch(root: Claim, bs: seq<Batch>, b: Batch)
    requires Coherent(root, bs) && AllDated(bs) && AllRooted(bs)
    requires Ordered({root}, b.claims) && forall c | c in b.claims :: Dated(c) && Rooted(c)
    ensures Coherent(root, bs + [b]) && AllDated(bs + [b]) && AllRooted(bs + [b])
  {
    forall branch ensures Ordered({root}, OnBranch(bs + [b], branch)) {
      var before := OnBranch(bs, branch);
      assert Front(bs + [b]) == bs;
      OrderedGrows({root}, {root} + Elements(before), b.claims);
      OrderedAppend({root}, before, b.claims);
      assert before + [] == before;
    }
  }
}
