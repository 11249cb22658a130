/** Who and what a release process refers to, told before anything cites it (cmd/generator/release.go). */
module Cast {
  import opened Bytes
  import opened Lists
  import opened Claims
  import opened Graph

  datatype Who = ReleaseManager | SecurityExpert | TestExecutor | CiRunner

  function Handle(who: Who): string {
    match who
    case ReleaseManager => "release-manager"
    case SecurityExpert => "security-expert"
    case TestExecutor => "test-executor"
    case CiRunner => "ci-runner"
  }

  datatype Participant = Participant(who: Who, entity: NodeType, record: NodeType, name: string, role: string)

  const STAFF_RECORD := NodeType(Source, "staff_record")
  const RUNNER_RECORD := NodeType(Source, "runner_registration")
  const CI_INSTANCE := NodeType(Entity, "ci_instance")

  const PARTICIPANTS: seq<Participant> := [
    Participant(ReleaseManager, PERSON, STAFF_RECORD, "Ada Okonjo", "release manager"),
    Participant(SecurityExpert, PERSON, STAFF_RECORD, "Bruno Sallé", "security expert"),
    Participant(TestExecutor, PERSON, STAFF_RECORD, "Chen Wei", "test executor"),
    Participant(CiRunner, CI_INSTANCE, RUNNER_RECORD, "ci-runner-07", "x86_64 build runner")]

  /** Someone cast: who they are on the branch, and how they sign. */
  datatype Actor = Actor(entity: Claim, signs: Signer)

  // --- the participants -----------------------------------------------------------

  function RecordOf(root: Claim, at: int, p: Participant): Claim {
    Claim(p.record, Text("record", [p.name, p.role, Handle(p.who)], []), map["name" := Handle(p.who)], at, Some(root),
          [])
  }

  function EntityOf(root: Claim, at: int, p: Participant): Claim {
    Claim(p.entity, Text("name", [p.name], []), map["name" := Handle(p.who)], at + CLOCK_STEP, Some(root),
          Inputs([RecordOf(root, at, p)]))
  }

  function KeyOf(root: Claim, at: int, p: Participant): Claim {
    KeyClaim(Handle(p.who), at + 2 * CLOCK_STEP, Some(root), [Cite(EntityOf(root, at, p), Identity)])
  }

  function ActorOf(root: Claim, at: int, p: Participant): Actor {
    Actor(EntityOf(root, at, p), Signer(Handle(p.who), KeyOf(root, at, p)))
  }

  /** The record, the entity it introduces, and the key the root attests, each resting on the one before. */
  function Introduction(root: Claim, at: int, p: Participant): seq<Claim> {
    [RecordOf(root, at, p), EntityOf(root, at, p), KeyOf(root, at, p)]
  }

  /** When the participants introduced from `at` on are all introduced. */
  function Introduced(at: int, ps: seq<Participant>): int {
    at + 3 * |ps| * CLOCK_STEP
  }

  function Introductions(root: Claim, at: int, ps: seq<Participant>): seq<Claim> {
    if ps == [] then []
    else Introductions(root, at, Front(ps)) + Introduction(root, Introduced(at, Front(ps)), Last(ps))
  }

  /** What of it the grower remembers: a key claim is attested, not written. */
  function Recorded(root: Claim, at: int, ps: seq<Participant>): seq<Claim> {
    if ps == [] then []
    else
      var when := Introduced(at, Front(ps));
      Recorded(root, at, Front(ps)) + [RecordOf(root, when, Last(ps)), EntityOf(root, when, Last(ps))]
  }

  function CastOf(root: Claim, at: int, ps: seq<Participant>): map<Who, Actor> {
    if ps == [] then map[]
    else CastOf(root, at, Front(ps))[Last(ps).who := ActorOf(root, Introduced(at, Front(ps)), Last(ps))]
  }

  method Introduce(g: Grower, branch: string, p: Participant) returns (a: Actor, claims: seq<Claim>)
    modifies g
    ensures a == ActorOf(g.self, old(g.at), p) && claims == Introduction(g.self, old(g.at), p)
    ensures g.at == old(g.at) + 3 * CLOCK_STEP
    ensures g.made == old(g.made) + Tagged(branch, [RecordOf(g.self, old(g.at), p), EntityOf(g.self, old(g.at), p)])
  {
    var name := map["name" := Handle(p.who)];
    var record := g.Write(Spec(g.RootSigner(), branch, p.record, Text("record", [p.name, p.role, Handle(p.who)], []),
                               name, [], 0));
    var entity := g.Write(Spec(g.RootSigner(), branch, p.entity, Text("name", [p.name], []), name,
                               Inputs([record.claim]), 0));
    var signs := g.Attest(Handle(p.who), entity.claim);
    a := Actor(entity.claim, signs);
    claims := [record.claim, entity.claim, signs.claim];
  }

  method Actors(g: Grower, branch: string) returns (cast: map<Who, Actor>, claims: seq<Claim>)
    modifies g
    ensures cast == CastOf(g.self, old(g.at), PARTICIPANTS)
    ensures claims == Introductions(g.self, old(g.at), PARTICIPANTS)
    ensures g.at == Introduced(old(g.at), PARTICIPANTS)
    ensures g.made == old(g.made) + Tagged(branch, Recorded(g.self, old(g.at), PARTICIPANTS))
  {
    cast, claims := IntroduceAll(g, branch, PARTICIPANTS);
  }

  method IntroduceAll(g: Grower, branch: string, ps: seq<Participant>)
    returns (cast: map<Who, Actor>, claims: seq<Claim>)
    modifies g
    ensures cast == CastOf(g.self, old(g.at), ps) && claims == Introductions(g.self, old(g.at), ps)
    ensures g.at == Introduced(old(g.at), ps)
    ensures g.made == old(g.made) + Tagged(branch, Recorded(g.self, old(g.at), ps))
  {
    cast, claims := map[], [];
    for i := 0 to |ps|
      invariant cast == CastOf(g.self, old(g.at), ps[..i]) && claims == Introductions(g.self, old(g.at), ps[..i])
      invariant g.at == Introduced(old(g.at), ps[..i])
      invariant g.made == old(g.made) + Tagged(branch, Recorded(g.self, old(g.at), ps[..i]))
    {
      assert Front(ps[..i + 1]) == ps[..i];
      TaggedAppend(branch, Recorded(g.self, old(g.at), ps[..i]),
                   [RecordOf(g.self, g.at, ps[i]), EntityOf(g.self, g.at, ps[i])]);
      var a, more := Introduce(g, branch, ps[i]);
      cast := cast[ps[i].who := a];
      claims := claims + more;
    }
    assert ps[..|ps|] == ps;
  }

  lemma IntroductionRooted(root: Claim, at: int, p: Participant)
    requires IsSource(p.record)
    ensures Rooted(RecordOf(root, at, p)) && Rooted(EntityOf(root, at, p)) && Rooted(KeyOf(root, at, p))
  {
    var record, entity := RecordOf(root, at, p), EntityOf(root, at, p);
    assert FromSource(record);
    assert entity.cites[0] == Cite(record, Input) && FromSource(entity);
    assert Cite(entity, Identity) in KeyOf(root, at, p).cites;
  }

  lemma IntroductionHolds(root: Claim, at: int, p: Participant, before: seq<Claim>, until: int)
    requires root.at <= at && IsSource(p.record) && Holds({root}, before, at) && at + 2 * CLOCK_STEP <= until
    ensures Holds({root}, before + Introduction(root, at, p), until)
  {
    var record, entity, key := RecordOf(root, at, p), EntityOf(root, at, p), KeyOf(root, at, p);
    IntroductionRooted(root, at, p);
    HoldsSnoc({root}, before, record, at, until);
    HoldsSnoc({root}, before + [record], entity, until, until);
    HoldsSnoc({root}, before + [record] + [entity], key, until, until);
    assert before + [record] + [entity] + [key] == before + Introduction(root, at, p);
  }

  /** The participants' claims reach only the root and each other, are dated in order, and are done by the time said. */
  lemma {:induction false} IntroductionsHold(root: Claim, at: int, ps: seq<Participant>)
    requires root.at <= at && forall p | p in ps :: IsSource(p.record)
    ensures Holds({root}, Introductions(root, at, ps), Introduced(at, ps))
  {
    if ps != [] {
      assert forall p | p in Front(ps) :: p in ps;
      IntroductionsHold(root, at, Front(ps));
      IntroductionHolds(root, Introduced(at, Front(ps)), Last(ps), Introductions(root, at, Front(ps)),
                        Introduced(at, ps));
    }
  }

  /** Everyone cast was introduced: entity and key are among the claims told. */
  lemma {:induction false} CastIsIntroduced(root: Claim, at: int, ps: seq<Participant>)
    ensures forall w | w in CastOf(root, at, ps) ::
              var a := CastOf(root, at, ps)[w];
              a.entity in Introductions(root, at, ps) && a.signs.claim in Introductions(root, at, ps)
    ensures forall p | p in ps :: p.who in CastOf(root, at, ps)
  {
    if ps != [] {
      CastIsIntroduced(root, at, Front(ps));
      var more := Introduction(root, Introduced(at, Front(ps)), Last(ps));
      assert more[1] in more && more[2] in more;
      assert ps == Front(ps) + [Last(ps)];
    }
  }

  // --- the advisories -----------------------------------------------------------------

  datatype Advisory = Advisory(id: string, summary: string, affects: seq<string>)

  /** What the scans match; an advisory that names no package affects them all. */
  const ADVISORIES: seq<Advisory> := [
    Advisory("CVE-2024-31337", "unbounded allocation in a length-prefixed decoder", []),
    Advisory("CVE-2024-40001", "signature check skipped when the algorithm field is absent", ["ranke-go"])]

  predicate Affects(v: Advisory, pkg: string) {
    |v.affects| == 0 || pkg in v.affects
  }

  function AdvisoryClaim(signer: Claim, at: int, v: Advisory): Claim {
    Claim(NodeType(Source, "advisory"), Text("log", [v.id, v.summary], [2]), map["name" := v.id], at, Some(signer), [])
  }

  function VulnerabilityClaim(signer: Claim, at: int, v: Advisory): Claim {
    Claim(NodeType(Entity, "vulnerability"), Text("%s: %s", [v.id, v.summary], []), map["name" := v.id],
          at + CLOCK_STEP, Some(signer),
          Inputs([AdvisoryClaim(signer, at, v)]))
  }

  /** When the advisories told from `at` on are all told. */
  function Warned(at: int, vs: seq<Advisory>): int {
    at + 2 * |vs| * CLOCK_STEP
  }

  function Warnings(signer: Claim, at: int, vs: seq<Advisory>): seq<Claim> {
    if vs == [] then []
    else
      var when := Warned(at, Front(vs));
      Warnings(signer, at, Front(vs))
      + [AdvisoryClaim(signer, when, Last(vs)), VulnerabilityClaim(signer, when, Last(vs))]
  }

  function Found(signer: Claim, at: int, vs: seq<Advisory>): (found: seq<Claim>)
    ensures |found| == |vs|
  {
    if vs == [] then []
    else Found(signer, at, Front(vs)) + [VulnerabilityClaim(signer, Warned(at, Front(vs)), Last(vs))]
  }

  method Vulnerabilities(g: Grower, branch: string, signs: Signer, vs: seq<Advisory>)
    returns (found: seq<Claim>, claims: seq<Claim>)
    modifies g
    ensures found == Found(signs.claim, old(g.at), vs) && claims == Warnings(signs.claim, old(g.at), vs)
    ensures g.at == Warned(old(g.at), vs) && g.made == old(g.made) + Tagged(branch, claims)
  {
    found, claims := [], [];
    for i := 0 to |vs|
      invariant found == Found(signs.claim, old(g.at), vs[..i]) && claims == Warnings(signs.claim, old(g.at), vs[..i])
      invariant g.at == Warned(old(g.at), vs[..i]) && g.made == old(g.made) + Tagged(branch, claims)
    {
      var v := vs[i];
      var name := map["name" := v.id];
      var advisory := g.Write(Spec(signs, branch, NodeType(Source, "advisory"), Text("log", [v.id, v.summary], [2]),
                                   name, [], 0));
      var entity := g.Write(Spec(signs, branch, NodeType(Entity, "vulnerability"),
                                 Text("%s: %s", [v.id, v.summary], []), name,
                                 Inputs([advisory.claim]), 0));
      assert Front(vs[..i + 1]) == vs[..i];
      TaggedAppend(branch, claims, [advisory.claim, entity.claim]);
      found := found + [entity.claim];
      claims := claims + [advisory.claim, entity.claim];
    }
    assert vs[..|vs|] == vs;
  }

  lemma WarningHolds(signer: Claim, at: int, v: Advisory, known: set<Claim>, before: seq<Claim>, until: int)
    requires signer.at <= at && signer in known && Holds(known, before, at) && at + CLOCK_STEP <= until
    ensures Holds(known, before + [AdvisoryClaim(signer, at, v), VulnerabilityClaim(signer, at, v)], until)
  {
    var advisory, entity := AdvisoryClaim(signer, at, v), VulnerabilityClaim(signer, at, v);
    assert FromSource(advisory);
    assert entity.cites[0] == Cite(advisory, Input) && FromSource(entity);
    HoldsSnoc(known, before, advisory, at, until);
    HoldsSnoc(known, before + [advisory], entity, until, until);
    assert before + [advisory] + [entity] == before + [advisory, entity];
  }

  lemma {:induction false} WarningsHold(signer: Claim, at: int, vs: seq<Advisory>, known: set<Claim>)
    requires signer.at <= at && signer in known
    ensures Holds(known, Warnings(signer, at, vs), Warned(at, vs))
    ensures forall c | c in Found(signer, at, vs) :: c in Warnings(signer, at, vs)
  {
    if vs != [] {
      WarningsHold(signer, at, Front(vs), known);
      WarningHolds(signer, Warned(at, Front(vs)), Last(vs), known, Warnings(signer, at, Front(vs)), Warned(at, vs));
    }
  }

  // --- who and what, by name -------------------------------------------------------------------

  /**
   A participant's three claims, a minute apart: a record of who they were, the entity that
   introduces, and its key.
   */
  lemma IntroductionTells(root: Claim, at: int, p: Participant)
    ensures var cs := Introduction(root, at, p);
            && |cs| == 3
            && cs[0].typ == p.record && cs[0].cites == [] && cs[0].text.words == [p.name, p.role, Handle(p.who)]
            && cs[1].typ == p.entity && cs[1].cites == [Cite(cs[0], Input)] && cs[1].text.words == [p.name]
            && cs[2].typ == NodeType(Contribution, "contributor") && cs[2].cites == [Cite(cs[1], Identity)]
            && cs[2].text.words == [Handle(p.who)] && cs[2].fields == map[]
            && cs[0].fields == cs[1].fields == map["name" := Handle(p.who)]
            && forall k | 0 <= k < 3 :: cs[k].signer == Some(root) && cs[k].at == at + k * 60_000_000_000
  {
  }

  /** Everyone is cast as themselves: the entity names them, and the key is that entity's. */
  lemma {:induction false} CastByName(root: Claim, at: int, ps: seq<Participant>, w: Who)
    requires w in CastOf(root, at, ps)
    ensures var a := CastOf(root, at, ps)[w];
            && a.signs.name == Handle(w) && a.entity.fields == map["name" := Handle(w)]
            && a.signs.claim.cites == [Cite(a.entity, Identity)] && a.signs.claim.signer == Some(root)
            && exists p :: p in ps && p.who == w && a.entity.typ == p.entity && a.entity.text.words == [p.name]
  {
    assert ps == Front(ps) + [Last(ps)];
    if Last(ps).who != w {
      CastByName(root, at, Front(ps), w);
    } else {
      assert Last(ps) in ps;
    }
  }

  /** Each goes by their own handle. */
  lemma HandlesTell(v: Who, w: Who)
    ensures Handle(ReleaseManager) == "release-manager" && Handle(SecurityExpert) == "security-expert"
    ensures Handle(TestExecutor) == "test-executor" && Handle(CiRunner) == "ci-runner"
    ensures Handle(v) == Handle(w) ==> v == w
  {
    assert "release-manager"[0] == 'r' && "security-expert"[0] == 's' && "test-executor"[0] == 't'
           && "ci-runner"[0] == 'c';
  }

  /** The four of the release process, three people and a machine. */
  lemma FourParticipants()
    ensures |PARTICIPANTS| == 4
    ensures PARTICIPANTS[0].who == ReleaseManager && PARTICIPANTS[1].who == SecurityExpert
    ensures PARTICIPANTS[2].who == TestExecutor && PARTICIPANTS[3].who == CiRunner
    ensures forall i | 0 <= i < 3 ::
              && PARTICIPANTS[i].entity == NodeType(Entity, "person")
              && PARTICIPANTS[i].record == NodeType(Source, "staff_record")
    ensures PARTICIPANTS[3].entity == NodeType(Entity, "ci_instance")
    ensures PARTICIPANTS[3].record == NodeType(Source, "runner_registration")
  {
  }

  /** An advisory as it arrived, and the vulnerability it tells of, a minute later; so for each in turn. */
  lemma {:induction false} WarningsTell(signer: Claim, at: int, vs: seq<Advisory>, i: nat)
    requires i < |vs|
    ensures var cs := Warnings(signer, at, vs);
            && |cs| == 2 * |vs|
            && cs[2 * i].typ == NodeType(Source, "advisory") && cs[2 * i].cites == []
            && cs[2 * i + 1].typ == NodeType(Entity, "vulnerability")
            && cs[2 * i + 1].cites == [Cite(cs[2 * i], Input)] && cs[2 * i + 1] == Found(signer, at, vs)[i]
            && cs[2 * i].fields == cs[2 * i + 1].fields == map["name" := vs[i].id]
            && cs[2 * i].text.words == cs[2 * i + 1].text.words == [vs[i].id, vs[i].summary]
            && cs[2 * i].signer == cs[2 * i + 1].signer == Some(signer)
            && cs[2 * i].at == at + 2 * i * 60_000_000_000 && cs[2 * i + 1].at == at + (2 * i + 1) * 60_000_000_000
  {
    var before := Front(vs);
    if i < |before| {
      WarningsTell(signer, at, before, i);
    } else if before != [] {
      WarningsTell(signer, at, before, 0);
    }
  }
}
