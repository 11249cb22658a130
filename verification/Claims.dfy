/**
 The claims a fixture signs (cmd/generator), a claim being what it says and whom it cites:
 two claims are one exactly when they agree in that, as their ids do.
 */
module Claims {
  import opened Bytes
  import opened Lists

  /** The class a type belongs to, the part of its name before the slash. */
  datatype Group = Contribution | Source | Derivation | Entity | Relation

  datatype NodeType = NodeType(group: Group, name: string)

  datatype EdgeType = Input | Identity | Mentions | DecidedBy

  /** The content of a claim, by the form it is written in and what is written into it. */
  datatype Text = Text(form: string, words: seq<string>, numbers: seq<int>)

  datatype Cite = Cite(to: Claim, typ: EdgeType)

  /** Times are nanoseconds since the zero time. A claim signed by nobody's key but its own has no `signer`. */
  datatype Claim = Claim(
    typ: NodeType, text: Text, fields: map<string, string>, at: int, signer: Option<Claim>, cites: seq<Cite>)

  const CONTRIBUTOR := NodeType(Contribution, "contributor")

  predicate IsSource(typ: NodeType) {
    typ.group.Source?
  }

  function Inputs(refs: seq<Claim>): seq<Cite> {
    seq(|refs|, k requires 0 <= k < |refs| => Cite(refs[k], Input))
  }

  // --- dates -----------------------------------------------------------------------

  /** No claim it cites is dated after it, nor the claim of the key that signs it. */
  predicate Dated(c: Claim) {
    && (c.signer.Some? ==> c.signer.value.at <= c.at)
    && forall e | e in c.cites :: e.to.at <= c.at
  }

  // --- provenance --------------------------------------------------------------------

  /** A source, or reached from one by input edges alone. */
  ghost predicate FromSource(c: Claim) {
    IsSource(c.typ) || exists k :: 0 <= k < |c.cites| && c.cites[k].typ == Input && FromSource(c.cites[k].to)
  }

  /** From a source by input edges; or a key, either its own or that of an actor who is. */
  ghost predicate Rooted(c: Claim) {
    || FromSource(c)
    || (c.typ == CONTRIBUTOR && c.signer.None? && c.cites == [])
    || (c.typ == CONTRIBUTOR && exists e :: e in c.cites && e.typ == Identity && FromSource(e.to))
  }

  // --- closure under reference ----------------------------------------------------------

  /** Everything a claim reaches, its signer's claim included, is known. */
  predicate ResolvedBy(c: Claim, known: set<Claim>) {
    && (c.signer.Some? ==> c.signer.value in known)
    && forall e | e in c.cites :: e.to in known
  }

  function Elements(cs: seq<Claim>): set<Claim> {
    if cs == [] then {} else {cs[0]} + Elements(cs[1..])
  }

  /** Each claim reaches only what was known before and what precedes it. */
  ghost predicate Ordered(known: set<Claim>, cs: seq<Claim>)
    decreases cs
  {
    cs == [] || (ResolvedBy(cs[0], known) && Ordered(known + {cs[0]}, cs[1..]))
  }

  lemma {:induction false} ElementsAppend(a: seq<Claim>, b: seq<Claim>)
    ensures Elements(a + b) == Elements(a) + Elements(b)
  {
    if a == [] {
      assert a + b == b;
    } else {
      assert (a + b)[1..] == a[1..] + b;
      ElementsAppend(a[1..], b);
    }
  }

  lemma {:induction false} ElementsMembers(cs: seq<Claim>, c: Claim)
    ensures c in Elements(cs) <==> c in cs
  {
    if cs != [] {
      ElementsMembers(cs[1..], c);
      assert cs == [cs[0]] + cs[1..];
    }
  }

  lemma OrderedCons(known: set<Claim>, c: Claim, rest: seq<Claim>)
    ensures Ordered(known, [c] + rest) <==> ResolvedBy(c, known) && Ordered(known + {c}, rest)
  {
    assert ([c] + rest)[1..] == rest;
  }

  lemma {:induction false} OrderedGrows(known: set<Claim>, more: set<Claim>, cs: seq<Claim>)
    requires Ordered(known, cs) && known <= more
    ensures Ordered(more, cs)
    decreases cs
  {
    if cs != [] {
      OrderedGrows(known + {cs[0]}, more + {cs[0]}, cs[1..]);
    }
  }

  lemma {:induction false} OrderedAppend(known: set<Claim>, a: seq<Claim>, b: seq<Claim>)
    ensures Ordered(known, a + b) <==> Ordered(known, a) && Ordered(known + Elements(a), b)
    decreases a
  {
    if a == [] {
      assert a + b == b && known + {} == known;
    } else {
      assert (a + b)[1..] == a[1..] + b;
      OrderedAppend(known + {a[0]}, a[1..], b);
      assert known + {a[0]} + Elements(a[1..]) == known + Elements(a);
    }
  }

  lemma OrderedSnoc(known: set<Claim>, cs: seq<Claim>, c: Claim)
    ensures Ordered(known, cs + [c]) <==> Ordered(known, cs) && ResolvedBy(c, known + Elements(cs))
  {
    OrderedCons(known + Elements(cs), c, []);
    OrderedAppend(known, cs, [c]);
  }

  lemma {:induction false} OrderedMeans(known: set<Claim>, cs: seq<Claim>)
    ensures Ordered(known, cs) <==> forall i | 0 <= i < |cs| :: ResolvedBy(cs[i], known + Elements(cs[..i]))
    decreases cs
  {
    if cs != [] {
      var more := known + {cs[0]};
      OrderedMeans(more, cs[1..]);
      assert ResolvedBy(cs[0], known) <==> ResolvedBy(cs[0], known + Elements(cs[..0]));
      forall i | 1 <= i < |cs| ensures more + Elements(cs[1..][..i - 1]) == known + Elements(cs[..i]) {
        assert cs[..i][1..] == cs[1..][..i - 1];
      }
      assert forall i | 1 <= i < |cs| :: cs[1..][i - 1] == cs[i];
      if forall i | 0 <= i < |cs| :: ResolvedBy(cs[i], known + Elements(cs[..i])) {
        assert forall j | 0 <= j < |cs[1..]| :: ResolvedBy(cs[1..][j], known + Elements(cs[..j + 1]));
      }
    }
  }

  // --- building -----------------------------------------------------------------------------

  /** Everything a claim reaches is known or among these. */
  predicate Reaches(c: Claim, known: set<Claim>, cs: seq<Claim>) {
    && (c.signer.Some? ==> c.signer.value in known || c.signer.value in cs)
    && forall e | e in c.cites :: e.to in known || e.to in cs
  }

  /** A claim dated in order and rooted, no later than `until`. */
  ghost predicate Proper(c: Claim, until: int) {
    Dated(c) && Rooted(c) && c.at <= until
  }

  /** The first claim that reaches something neither known nor before it, or is not proper. */
  ghost function FirstFlaw(known: set<Claim>, cs: seq<Claim>, until: int): Option<Claim>
    decreases cs
  {
    if cs == [] then None
    else
      var n := |cs| - 1;
      var before := FirstFlaw(known, cs[..n], until);
      if before.Some? then before
      else if Reaches(cs[n], known, cs[..n]) && Proper(cs[n], until) then None
      else Some(cs[n])
  }

  /** Each claim reaches only what is known and those before it, and is proper. */
  ghost predicate Holds(known: set<Claim>, cs: seq<Claim>, until: int) {
    FirstFlaw(known, cs, until).None?
  }

  lemma {:induction false} HoldsMeans(known: set<Claim>, cs: seq<Claim>, until: int)
    requires Holds(known, cs, until)
    ensures Ordered(known, cs)
    ensures forall c | c in cs :: Proper(c, until)
    decreases cs
  {
    if cs != [] {
      var n := |cs| - 1;
      HoldsMeans(known, cs[..n], until);
      assert cs == cs[..n] + [cs[n]];
      forall e | e in cs[..n] ensures e in Elements(cs[..n]) {
        ElementsMembers(cs[..n], e);
      }
      OrderedSnoc(known, cs[..n], cs[n]);
    }
  }

  lemma {:induction false} HoldsLater(known: set<Claim>, cs: seq<Claim>, until: int, later: int)
    requires Holds(known, cs, until) && until <= later
    ensures Holds(known, cs, later)
    decreases cs
  {
    if cs != [] {
      HoldsLater(known, cs[..|cs| - 1], until, later);
    }
  }

  lemma HoldsSnoc(known: set<Claim>, cs: seq<Claim>, c: Claim, until: int, later: int)
    requires Holds(known, cs, until) && until <= later
    requires Reaches(c, known, cs) && Proper(c, later)
    ensures Holds(known, cs + [c], later)
  {
    HoldsLater(known, cs, until, later);
    assert (cs + [c])[..|cs|] == cs;
  }

  lemma {:induction false} HoldsAppend(known: set<Claim>, a: seq<Claim>, b: seq<Claim>, until: int, later: int)
    requires Holds(known, a, until) && Holds(known + Elements(a), b, later) && until <= later
    ensures Holds(known, a + b, later)
    decreases b
  {
    if b == [] {
      HoldsLater(known, a, until, later);
      assert a + b == a;
    } else {
      var n := |b| - 1;
      HoldsAppend(known, a, b[..n], until, later);
      forall e | e in Elements(a) ensures e in a {
        ElementsMembers(a, e);
      }
      HoldsSnoc(known, a + b[..n], b[n], later, later);
      assert a + b == a + b[..n] + [b[n]];
    }
  }

  /** The `k`-th of some claims may follow those before it. */
  ghost predicate MayFollow(known: set<Claim>, before: seq<Claim>, cs: seq<Claim>, k: nat, until: int)
    requires k < |cs|
  {
    Reaches(cs[k], known, before + cs[..k]) && Proper(cs[k], until)
  }

  lemma {:induction false} HoldsEach(known: set<Claim>, before: seq<Claim>, cs: seq<Claim>, until: int)
    requires Holds(known, before, until) && forall k: nat | k < |cs| :: MayFollow(known, before, cs, k, until)
    ensures Holds(known, before + cs, until)
    decreases cs
  {
    if cs == [] {
      assert before + cs == before;
    } else {
      var n := |cs| - 1;
      forall k: nat | k < n ensures MayFollow(known, before, cs[..n], k, until) {
        assert MayFollow(known, before, cs, k, until);
        assert cs[..n][..k] == cs[..k];
      }
      HoldsEach(known, before, cs[..n], until);
      assert MayFollow(known, before, cs, n, until);
      HoldsSnoc(known, before + cs[..n], cs[n], until, until);
      assert before + cs[..n] + [cs[n]] == before + cs;
    }
  }

  // --- contributions ----------------------------------------------------------------------

  /** The claims of one merge, and where it goes. */
  datatype Batch = Batch(branch: string, claims: seq<Claim>)

  /** The claims of the contributions to a branch, in the order they merge. */
  function OnBranch(bs: seq<Batch>, branch: string): seq<Claim> {
    if bs == [] then []
    else OnBranch(Front(bs), branch) + if Last(bs).branch == branch then Last(bs).claims else []
  }

  lemma {:induction false} OnBranchAppend(a: seq<Batch>, b: seq<Batch>, branch: string)
    ensures OnBranch(a + b, branch) == OnBranch(a, branch) + OnBranch(b, branch)
  {
    if b == [] {
      assert a + b == a;
    } else {
      assert Front(a + b) == a + Front(b) && Last(a + b) == Last(b);
      OnBranchAppend(a, Front(b), branch);
    }
  }

  /** On every branch, each claim reaches only the root claim and what that branch received before it. */
  ghost predicate Coherent(root: Claim, bs: seq<Batch>) {
    forall branch :: Ordered({root}, OnBranch(bs, branch))
  }

  ghost predicate AllDated(bs: seq<Batch>) {
    forall b, c | b in bs && c in b.claims :: Dated(c)
  }

  ghost predicate AllRooted(bs: seq<Batch>) {
    forall b, c | b in bs && c in b.claims :: Rooted(c)
  }

  /** Cut anywhere, coherent contributions leave every branch closed under reference. */
  lemma CoherentPrefix(root: Claim, bs: seq<Batch>, k: nat)
    requires Coherent(root, bs) && k <= |bs|
    ensures Coherent(root, bs[..k])
  {
    forall branch ensures Ordered({root}, OnBranch(bs[..k], branch)) {
      assert bs == bs[..k] + bs[k..];
      OnBranchAppend(bs[..k], bs[k..], branch);
      OrderedAppend({root}, OnBranch(bs[..k], branch), OnBranch(bs[k..], branch));
    }
  }
}
