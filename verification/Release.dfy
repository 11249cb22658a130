/** Release after release: the whole run, and what every draw of it keeps (cmd/generator/release.go). */
module Release {
  import opened Bytes
  import opened Lists
  import opened Claims
  import opened Graph
  import opened Cast
  import opened Packages

  // --- one package ---------------------------------------------------------------------

  /** Whoever signs and whatever is mentioned is among the claims told, and dated by the floor. */
  ghost predicate Ready(s: Setup, told: seq<Claim>, floor: int) {
    && Staffed(s)
    && (forall w | w in s.cast :: TellsOf(s.cast[w].entity, told, floor) && TellsOf(s.cast[w].signs.claim, told, floor))
    && (forall c | c in s.found :: TellsOf(c, told, floor))
  }

  predicate TellsOf(c: Claim, told: seq<Claim>, floor: int) {
    c in told && c.at <= floor
  }

  lemma ReadyGrows(s: Setup, told: seq<Claim>, more: seq<Claim>, floor: int)
    requires Ready(s, told, floor)
    ensures Ready(s, told + more, floor)
  {
    forall w | w in s.cast
      ensures TellsOf(s.cast[w].entity, told + more, floor) && TellsOf(s.cast[w].signs.claim, told + more, floor)
    {
      assert TellsOf(s.cast[w].entity, told, floor) && TellsOf(s.cast[w].signs.claim, told, floor);
    }
    forall c | c in s.found ensures TellsOf(c, told + more, floor) {
      assert TellsOf(c, told, floor);
    }
  }

  lemma {:induction false} MentionsFound(found: seq<Claim>, pkg: string, k: nat)
    requires k <= |found| <= |ADVISORIES|
    ensures forall e | e in Mentioned(found, pkg, k) :: e.to in found
  {
    if k > 0 {
      MentionsFound(found, pkg, k - 1);
    }
  }

  /** Everything a package puts on the branch derives from what arrived from outside. */
  lemma PackageFromSources(s: Setup, pkg: string, version: string, t: Schedule)
    requires Staffed(s)
    ensures forall c | c in PackageOf(s, pkg, version, t).Events() :: FromSource(c)
  {
    var p := PackageOf(s, pkg, version, t);
    assert FromSource(p.snapshot) && FromSource(p.buildLog) && FromSource(p.testReport);
    assert p.scan.cites[0] == Cite(p.snapshot, Input) && FromSource(p.scan);
    assert p.candidate.cites[3] == Cite(p.scan, Input) && FromSource(p.candidate);
    assert p.decision.cites[0] == Cite(p.candidate, Input) && FromSource(p.decision);
    assert p.note.cites[0] == Cite(p.decision, Input) && FromSource(p.note);
  }

  lemma ReadyMeans(s: Setup, told: seq<Claim>, floor: int)
    requires Ready(s, told, floor)
    ensures forall c | c in s.found :: c in told && c.at <= floor
    ensures forall w | w in s.cast :: s.cast[w].entity in told && s.cast[w].entity.at <= floor
    ensures forall w | w in s.cast :: s.cast[w].signs.claim in told && s.cast[w].signs.claim.at <= floor
  {
    forall c | c in s.found ensures c in told && c.at <= floor {
      assert TellsOf(c, told, floor);
    }
    forall w | w in s.cast
      ensures s.cast[w].entity in told && s.cast[w].entity.at <= floor
      ensures s.cast[w].signs.claim in told && s.cast[w].signs.claim.at <= floor
    {
      assert TellsOf(s.cast[w].entity, told, floor) && TellsOf(s.cast[w].signs.claim, told, floor);
    }
  }

  /** Kept on schedule, no event is dated before what it cites or the key it is signed with. */
  lemma PackageDated(s: Setup, pkg: string, version: string, t: Schedule, told: seq<Claim>, floor: int)
    requires Ready(s, told, floor) && Ascending(t) && floor <= t.snapshot
    ensures forall c | c in PackageOf(s, pkg, version, t).Events() :: Dated(c)
  {
    var p := PackageOf(s, pkg, version, t);
    MentionsFound(s.found, pkg, |s.found|);
    ReadyMeans(s, told, floor);
    assert Dated(p.snapshot) && Dated(p.buildLog) && Dated(p.testReport);
    assert Dated(p.scan) && Dated(p.candidate);
    assert Dated(p.decision) && Dated(p.note);
  }

  /** Each event cites only what was told before the package, or the package's events before it. */
  lemma PackageReaches(s: Setup, pkg: string, version: string, t: Schedule, told: seq<Claim>, floor: int,
                       known: set<Claim>, k: nat)
    requires Ready(s, told, floor) && k < 7
    ensures Reaches(PackageOf(s, pkg, version, t).Events()[k], known,
                    told + PackageOf(s, pkg, version, t).Events()[..k])
  {
    var p := PackageOf(s, pkg, version, t);
    var cs := p.Events();
    MentionsFound(s.found, pkg, |s.found|);
    ReadyMeans(s, told, floor);
    var before := told + cs[..k];
    assert forall j | 0 <= j < k :: cs[j] == before[|told| + j];
    assert k > 0 ==> p.snapshot == before[|told|];
    assert k > 3 ==> p.buildLog == before[|told| + 1] && p.testReport == before[|told| + 2]
                     && p.scan == before[|told| + 3];
    assert k > 4 ==> p.candidate == before[|told| + 4];
    assert k > 5 ==> p.decision == before[|told| + 5];
  }

  lemma PackageHolds(root: Claim, s: Setup, pkg: string, version: string, t: Schedule, told: seq<Claim>, floor: int,
                     until: int)
    requires Ready(s, told, floor) && Ascending(t) && floor <= t.snapshot
    requires Holds({root}, told, until) && t.note <= until
    ensures Holds({root}, told + PackageOf(s, pkg, version, t).Events(), until)
  {
    var cs := PackageOf(s, pkg, version, t).Events();
    PackageFromSources(s, pkg, version, t);
    PackageDated(s, pkg, version, t, told, floor);
    forall k: nat | k < |cs| ensures MayFollow({root}, told, cs, k, until) {
      PackageReaches(s, pkg, version, t, told, floor, {root}, k);
      assert cs[k] in cs;
    }
    HoldsEach({root}, told, cs, until);
  }

  // --- one release ---------------------------------------------------------------------------

  const PACKAGE_NAMES: seq<string> := ["ranke-go", "ranke-db"]

  /** What is drawn for one release; the first package triages on the day, the second a stagger later. */
  datatype ReleaseDraws = ReleaseDraws(gap: int, first: PackageDraws, stagger: int, second: PackageDraws, cut: int)

  predicate Drawn(i: nat, d: ReleaseDraws) {
    && (if i == 0 then FIRST_RELEASE_DELAY_MIN <= d.gap < FIRST_RELEASE_DELAY_MAX
        else RELEASE_CADENCE_MIN <= d.gap < RELEASE_CADENCE_MAX)
    && InRange(d.first) && InRange(d.second)
    && PACKAGE_STAGGER_MIN <= d.stagger < PACKAGE_STAGGER_MAX
    && RELEASE_DELAY_MIN <= d.cut < RELEASE_DELAY_MAX
  }

  function Version(i: nat): string {
    "v0." + Decimal(i + 1) + ".0"
  }

  function NthPackage(s: Setup, i: nat, k: nat, triageAt: int, floor: int, d: PackageDraws): Package
    requires Staffed(s) && k < |PACKAGE_NAMES|
  {
    PackageOf(s, PACKAGE_NAMES[k], Version(i), ScheduleOf(triageAt, floor, d))
  }

  function ArtifactOf(s: Setup, i: nat, decisions: seq<Claim>, at: int): Claim
    requires Staffed(s)
  {
    Act(s, ReleaseManager, RELEASE_TYPE, Text("release", [Version(i)] + PACKAGE_NAMES, []), map["name" := Version(i)],
        Inputs(decisions), at)
  }

  datatype Told = Told(claims: seq<Claim>, end: int)

  /** Both packages of a release, and the artifact that cites their decisions once both are reviewed. */
  function Joined(s: Setup, i: nat, p: Package, q: Package, cut: int): Told
    requires Staffed(s)
  {
    var at := LaterTime(p.note.at, q.note.at) + cut;
    Told(p.Events() + q.Events() + [ArtifactOf(s, i, [p.decision, q.decision], at)], at)
  }

  function FirstPackage(s: Setup, i: nat, cursor: int, floor: int, d: ReleaseDraws): Package
    requires Staffed(s)
  {
    NthPackage(s, i, 0, cursor + d.gap, floor, d.first)
  }

  function SecondPackage(s: Setup, i: nat, cursor: int, floor: int, d: ReleaseDraws): Package
    requires Staffed(s)
  {
    NthPackage(s, i, 1, cursor + d.gap + d.stagger, floor, d.second)
  }

  /** One release after `cursor`. */
  function ReleaseOf(s: Setup, i: nat, cursor: int, floor: int, d: ReleaseDraws): Told
    requires Staffed(s)
  {
    Joined(s, i, FirstPackage(s, i, cursor, floor, d), SecondPackage(s, i, cursor, floor, d), d.cut)
  }

  /** One package of a release, on the day or a stagger after it. */
  method RunPackage(g: Grower, s: Setup, i: nat, k: nat, day: int, floor: int)
    returns (bs: seq<Batch>, decision: Claim, reviewedAt: int, ghost d: PackageDraws, ghost stagger: int)
    requires Staffed(s) && floor > 0 && k < |PACKAGE_NAMES|
    modifies g
    ensures InRange(d) && (if k == 0 then stagger == 0 else PACKAGE_STAGGER_MIN <= stagger < PACKAGE_STAGGER_MAX)
    ensures var p := NthPackage(s, i, k, day + stagger, floor, d);
            && bs == Singles(s.branch, p.Events()) && decision == p.decision && reviewedAt == p.note.at > 0
            && g.made == old(g.made) + Tagged(s.branch, p.Events())
    ensures g.at == LaterTime(old(g.at), reviewedAt)
  {
    var triageAt, late := day, 0;
    if k > 0 {
      late := Jitter(g, PACKAGE_STAGGER_MIN, PACKAGE_STAGGER_MAX);
      triageAt := day + late;
    }
    bs, decision, reviewedAt, d := ReleaseOnePackage(g, s, PACKAGE_NAMES[k], Version(i), triageAt, floor);
    stagger := late;
  }

  lemma SinglesAppend(branch: string, a: seq<Claim>, b: seq<Claim>)
    ensures Singles(branch, a + b) == Singles(branch, a) + Singles(branch, b)
  {
  }

  method RunPackages(g: Grower, s: Setup, i: nat, day: int, floor: int)
    returns (bs: seq<Batch>, triaged: seq<Claim>, latest: int, ghost first: PackageDraws, ghost stagger: int,
             ghost second: PackageDraws,
             ghost p: Package, ghost q: Package)
    requires Staffed(s) && floor > 0
    modifies g
    ensures InRange(first) && InRange(second) && PACKAGE_STAGGER_MIN <= stagger < PACKAGE_STAGGER_MAX && latest > 0
    ensures p == NthPackage(s, i, 0, day, floor, first) && q == NthPackage(s, i, 1, day + stagger, floor, second)
    ensures bs == Singles(s.branch, p.Events() + q.Events()) && triaged == [p.decision, q.decision]
    ensures latest == LaterTime(p.note.at, q.note.at)
    ensures g.at == LaterTime(old(g.at), latest) && g.made == old(g.made) + Tagged(s.branch, p.Events() + q.Events())
  {
    bs, triaged, latest, stagger := [], [], 0, 0;
    ghost var ps: seq<Package>, ds: seq<PackageDraws>, told: seq<Claim> := [], [], [];
    for k := 0 to |PACKAGE_NAMES|
      invariant |ps| == |ds| == k
      invariant k > 0 ==> InRange(ds[0]) && ps[0] == NthPackage(s, i, 0, day, floor, ds[0]) && ps[0].note.at > 0
      invariant k > 1 ==> InRange(ds[1]) && PACKAGE_STAGGER_MIN <= stagger < PACKAGE_STAGGER_MAX
                          && ps[1] == NthPackage(s, i, 1, day + stagger, floor, ds[1])
      invariant bs == Singles(s.branch, told) && g.made == old(g.made) + Tagged(s.branch, told)
      invariant g.at == if k == 0 then old(g.at) else LaterTime(old(g.at), latest)
      invariant k == 0 ==> told == [] && triaged == [] && latest == 0
      invariant k == 1 ==> told == ps[0].Events() && triaged == [ps[0].decision] && latest == ps[0].note.at
      invariant k == 2 ==> told == ps[0].Events() + ps[1].Events() && triaged == [ps[0].decision, ps[1].decision]
                           && latest == LaterTime(ps[0].note.at, ps[1].note.at)
    {
      var more, decision, reviewedAt;
      ghost var d;
      more, decision, reviewedAt, d, stagger := RunPackage(g, s, i, k, day, floor);
      ghost var p := NthPackage(s, i, k, day + stagger, floor, d);
      SinglesAppend(s.branch, told, p.Events());
      TaggedAppend(s.branch, told, p.Events());
      Regroup(old(g.made), Tagged(s.branch, told), Tagged(s.branch, p.Events()));
      ps, ds, told := ps + [p], ds + [d], told + p.Events();
      bs := bs + more;
      triaged := triaged + [decision];
      latest := LaterTime(latest, reviewedAt);
    }
    first, second, p, q := ds[0], ds[1], ps[0], ps[1];
  }

  /** Both packages known, the release is told. */
  lemma ReleaseFrom(s: Setup, i: nat, cursor: int, floor: int, d: ReleaseDraws, day: int, p: Package, q: Package,
                    artifact: Claim,
                    told: Told)
    requires Staffed(s) && day == cursor + d.gap
    requires p == NthPackage(s, i, 0, day, floor, d.first) && q == NthPackage(s, i, 1, day + d.stagger, floor, d.second)
    requires artifact == ArtifactOf(s, i, [p.decision, q.decision], LaterTime(p.note.at, q.note.at) + d.cut)
    requires told == ReleaseOf(s, i, cursor, floor, d)
    ensures told == Told(p.Events() + q.Events() + [artifact], artifact.at)
    ensures Singles(s.branch, told.claims) == Singles(s.branch, p.Events() + q.Events()) + [Batch(s.branch, [artifact])]
    ensures Tagged(s.branch, told.claims) == Tagged(s.branch, p.Events() + q.Events()) + Tagged(s.branch, [artifact])
  {
    assert p == FirstPackage(s, i, cursor, floor, d) && q == SecondPackage(s, i, cursor, floor, d);
    SinglesAppend(s.branch, p.Events() + q.Events(), [artifact]);
    TaggedAppend(s.branch, p.Events() + q.Events(), [artifact]);
  }

  /** The artifact, cut once both packages are reviewed. */
  method Cut(g: Grower, s: Setup, i: nat, triaged: seq<Claim>, at: int) returns (artifact: Claim)
    requires Staffed(s) && at != 0
    modifies g
    ensures artifact == ArtifactOf(s, i, triaged, at)
    ensures g.at == LaterTime(old(g.at), at) && g.made == old(g.made) + Tagged(s.branch, [artifact])
  {
    artifact := WriteAt(g, s, ReleaseManager, RELEASE_TYPE, Text("release", [Version(i)] + PACKAGE_NAMES, []),
                        map["name" := Version(i)], Inputs(triaged), at);
  }

  method RunRelease(g: Grower, s: Setup, i: nat, cursor: int, floor: int)
    returns (bs: seq<Batch>, artifactAt: int, ghost d: ReleaseDraws)
    requires Staffed(s) && floor > 0
    modifies g
    ensures Drawn(i, d)
    ensures var told := ReleaseOf(s, i, cursor, floor, d);
            && bs == Singles(s.branch, told.claims) && artifactAt == told.end
            && g.made == old(g.made) + Tagged(s.branch, told.claims)
    ensures g.at == LaterTime(old(g.at), artifactAt)
  {
    var gap := Jitter(g, RELEASE_CADENCE_MIN, RELEASE_CADENCE_MAX);
    if i == 0 {
      gap := Jitter(g, FIRST_RELEASE_DELAY_MIN, FIRST_RELEASE_DELAY_MAX);
    }
    ghost var p, q, artifact;
    var day := cursor + gap;
    bs, artifactAt, d, p, q, artifact := ReleaseOn(g, s, i, day, gap, floor);
    ghost var told := ReleaseOf(s, i, cursor, floor, d);
    ReleaseFrom(s, i, cursor, floor, d, day, p, q, artifact, told);
    assert bs == Singles(s.branch, told.claims) && artifactAt == told.end;
  }

  /** The release whose first package triages on `day`, that being `gap` after the one before. */
  method ReleaseOn(g: Grower, s: Setup, i: nat, day: int, ghost gap: int, floor: int)
    returns (bs: seq<Batch>, artifactAt: int, ghost d: ReleaseDraws, ghost p: Package, ghost q: Package,
             ghost artifact: Claim)
    requires Staffed(s) && floor > 0
    modifies g
    ensures d.gap == gap && InRange(d.first) && InRange(d.second)
    ensures PACKAGE_STAGGER_MIN <= d.stagger < PACKAGE_STAGGER_MAX && RELEASE_DELAY_MIN <= d.cut < RELEASE_DELAY_MAX
    ensures p == NthPackage(s, i, 0, day, floor, d.first) && q == NthPackage(s, i, 1, day + d.stagger, floor, d.second)
    ensures artifact == ArtifactOf(s, i, [p.decision, q.decision], LaterTime(p.note.at, q.note.at) + d.cut)
    ensures bs == Singles(s.branch, p.Events() + q.Events()) + [Batch(s.branch, [artifact])]
    ensures g.made == old(g.made) + (Tagged(s.branch, p.Events() + q.Events()) + Tagged(s.branch, [artifact]))
    ensures artifactAt == artifact.at && g.at == LaterTime(old(g.at), artifactAt)
  {
    var triaged, latestReview;
    ghost var first, stagger, second;
    bs, triaged, latestReview, first, stagger, second, p, q := RunPackages(g, s, i, day, floor);
    var cut := Jitter(g, RELEASE_DELAY_MIN, RELEASE_DELAY_MAX);
    artifactAt := latestReview + cut;
    d := ReleaseDraws(gap, first, stagger, second, cut);
    var made := Cut(g, s, i, triaged, artifactAt);
    artifact := made;
    Regroup(old(g.made), Tagged(s.branch, p.Events() + q.Events()), Tagged(s.branch, [artifact]));
    bs := bs + [Batch(s.branch, [made])];
  }

  // --- the whole run ---------------------------------------------------------------------------

  ghost predicate AllDrawn(ds: seq<ReleaseDraws>) {
    forall i | 0 <= i < |ds| :: Drawn(i, ds[i])
  }

  /** The releases told so far and where the cursor stands: each is scheduled off the one before. */
  function Story(s: Setup, floor: int, ds: seq<ReleaseDraws>): Told
    requires Staffed(s)
  {
    if ds == [] then Told([], floor)
    else
      var before := Story(s, floor, Front(ds));
      var told := ReleaseOf(s, |Front(ds)|, before.end, floor, Last(ds));
      Told(before.claims + told.claims, told.end)
  }

  function SetupOf(root: Claim, at: int, branch: string): (s: Setup)
    ensures Staffed(s) && s.branch == branch
  {
    CastIsIntroduced(root, at, PARTICIPANTS);
    assert PARTICIPANTS[0].who == ReleaseManager && PARTICIPANTS[1].who == SecurityExpert;
    assert PARTICIPANTS[2].who == TestExecutor && PARTICIPANTS[3].who == CiRunner;
    var cast := CastOf(root, at, PARTICIPANTS);
    Setup(branch, cast, Found(cast[SecurityExpert].signs.claim, Introduced(at, PARTICIPANTS), ADVISORIES))
  }

  /** The setup contribution: the participants, then the advisories the security expert reports. */
  function SetupClaims(root: Claim, at: int): seq<Claim> {
    var s := SetupOf(root, at, "");
    Introductions(root, at, PARTICIPANTS)
    + Warnings(s.cast[SecurityExpert].signs.claim, Introduced(at, PARTICIPANTS), ADVISORIES)
  }

  /** Of the setup the grower remembers what it wrote, the key claims not being among that. */
  function RecordedAtSetup(root: Claim, at: int, branch: string): seq<Claim> {
    Recorded(root, at, PARTICIPANTS)
    + Warnings(SetupOf(root, at, branch).cast[SecurityExpert].signs.claim, Introduced(at, PARTICIPANTS), ADVISORIES)
  }

  function RecordedClaims(root: Claim, at: int, branch: string, ds: seq<ReleaseDraws>): seq<Claim> {
    RecordedAtSetup(root, at, branch) + Story(SetupOf(root, at, branch), FloorOf(at), ds).claims
  }

  function FloorOf(at: int): int {
    Warned(Introduced(at, PARTICIPANTS), ADVISORIES)
  }

  function ReleaseBatches(root: Claim, at: int, branch: string, ds: seq<ReleaseDraws>): seq<Batch>
  {
    [Batch(branch, SetupClaims(root, at))] + Singles(branch, Story(SetupOf(root, at, branch), FloorOf(at), ds).claims)
  }

  datatype Error = NoReleases

  /** Runs the process `releases` times on one branch, an ambient clock being past the zero time. */
  method Release(g: Grower, branch: string, releases: int)
    returns (r: Result<seq<Batch>, Error>, ghost ds: seq<ReleaseDraws>)
    requires g.at > 0
    modifies g
    ensures r.Err? <==> releases < 1
    ensures r.Err? ==> g.at == old(g.at) && g.made == old(g.made)
    ensures r.Ok? ==> |ds| == releases && AllDrawn(ds)
    ensures r.Ok? ==> r.value == ReleaseBatches(g.self, old(g.at), branch, ds)
    ensures r.Ok? ==> g.made == old(g.made) + Tagged(branch, RecordedClaims(g.self, old(g.at), branch, ds))
    ensures r.Ok? ==> g.at == Story(SetupOf(g.self, old(g.at), branch), FloorOf(old(g.at)), ds).end
  {
    ds := [];
    if releases < 1 {
      return Err(NoReleases), ds;
    }
    var s, first := SetUp(g, branch);
    var bs;
    bs, ds := RunReleases(g, s, g.at, releases);
    ghost var recorded, story := RecordedAtSetup(g.self, old(g.at), branch), Story(s, FloorOf(old(g.at)), ds).claims;
    TaggedAppend(branch, recorded, story);
    Regroup(old(g.made), Tagged(branch, recorded), Tagged(branch, story));
    r := Ok([Batch(branch, first)] + bs);
  }

  method RunReleases(g: Grower, s: Setup, floor: int, releases: nat)
    returns (bs: seq<Batch>, ghost ds: seq<ReleaseDraws>)
    requires Staffed(s) && g.at == floor > 0
    modifies g
    ensures |ds| == releases && AllDrawn(ds)
    ensures var story := Story(s, floor, ds);
            && bs == Singles(s.branch, story.claims) && g.at == story.end
            && g.made == old(g.made) + Tagged(s.branch, story.claims)
  {
    bs, ds := [], [];
    var cursor := floor;
    ghost var story := Told([], floor);
    for i := 0 to releases
      invariant |ds| == i && AllDrawn(ds) && story == Story(s, floor, ds)
      invariant bs == Singles(s.branch, story.claims) && cursor == story.end == g.at
      invariant g.made == old(g.made) + Tagged(s.branch, story.claims)
    {
      var more;
      ghost var d;
      more, cursor, d := RunRelease(g, s, i, cursor, floor);
      ghost var told := ReleaseOf(s, i, story.end, floor, d);
      Regroup(old(g.made), Tagged(s.branch, story.claims), Tagged(s.branch, told.claims));
      story := StoryExtends(s, floor, ds, d, story, told);
      ds := ds + [d];
      bs := bs + more;
    }
  }

  method SetUp(g: Grower, branch: string) returns (s: Setup, claims: seq<Claim>)
    modifies g
    ensures s == SetupOf(g.self, old(g.at), branch) && claims == SetupClaims(g.self, old(g.at))
    ensures g.at == FloorOf(old(g.at))
            && g.made == old(g.made) + Tagged(branch, RecordedAtSetup(g.self, old(g.at), branch))
  {
    ghost var spec := SetupOf(g.self, g.at, branch);
    var cast, introduced := Actors(g, branch);
    var found, advised := Vulnerabilities(g, branch, cast[SecurityExpert].signs, ADVISORIES);
    s := Setup(branch, cast, found);
    claims := introduced + advised;
    TaggedAppend(branch, Recorded(g.self, old(g.at), PARTICIPANTS), advised);
  }

  lemma StoryExtends(s: Setup, floor: int, ds: seq<ReleaseDraws>, d: ReleaseDraws, before: Told, told: Told)
    returns (after: Told)
    requires Staffed(s) && AllDrawn(ds) && Drawn(|ds|, d)
    requires before == Story(s, floor, ds) && told == ReleaseOf(s, |ds|, before.end, floor, d)
    ensures AllDrawn(ds + [d]) && after == Story(s, floor, ds + [d])
    ensures Singles(s.branch, after.claims) == Singles(s.branch, before.claims) + Singles(s.branch, told.claims)
    ensures Tagged(s.branch, after.claims) == Tagged(s.branch, before.claims) + Tagged(s.branch, told.claims)
    ensures after.end == told.end == LaterTime(before.end, told.end)
  {
    AllDrawnExtends(ds, d);
    assert Front(ds + [d]) == ds;
    after := Told(before.claims + told.claims, told.end);
    SinglesAppend(s.branch, before.claims, told.claims);
    TaggedAppend(s.branch, before.claims, told.claims);
    ReleaseEndsLater(s, |ds|, before.end, floor, d);
  }

  // --- what every run keeps -------------------------------------------------------------------

  /** Two packages and their artifact may follow what was told before them. */
  lemma JoinedHolds(root: Claim, s: Setup, i: nat, told: seq<Claim>, floor: int, t: Schedule, u: Schedule, p: Package,
                    q: Package,
                    r: Told, cut: int, until: int)
    requires Ready(s, told, floor) && Holds({root}, told, until) && until <= r.end
    requires Ascending(t) && floor <= t.snapshot && Ascending(u) && floor <= u.snapshot && 0 <= cut
    requires p == PackageOf(s, PACKAGE_NAMES[0], Version(i), t) && q == PackageOf(s, PACKAGE_NAMES[1], Version(i), u)
    requires r == Joined(s, i, p, q, cut)
    ensures Holds({root}, told + r.claims, r.end)
  {
    var first, second, artifact := p.Events(), q.Events(), Last(r.claims);
    assert Holds({root}, told + first, r.end) by {
      HoldsLater({root}, told, until, r.end);
      PackageHolds(root, s, PACKAGE_NAMES[0], Version(i), t, told, floor, r.end);
    }
    assert Holds({root}, told + first + second, r.end) by {
      ReadyGrows(s, told, first, floor);
      PackageHolds(root, s, PACKAGE_NAMES[1], Version(i), u, told + first, floor, r.end);
    }
    assert Holds({root}, told + first + second + [artifact], r.end) by {
      ArtifactFollows(s, i, told, floor, t, u, p, q, r, cut);
      LastHolds(root, told + first + second, artifact, r.end);
    }
    assert told + first + second + [artifact] == told + r.claims;
  }

  lemma LastHolds(root: Claim, before: seq<Claim>, c: Claim, until: int)
    requires Holds({root}, before, until) && Reaches(c, {}, before) && Proper(c, until)
    ensures Holds({root}, before + [c], until)
  {
    HoldsSnoc({root}, before, c, until, until);
  }

  lemma ArtifactFollows(s: Setup, i: nat, told: seq<Claim>, floor: int, t: Schedule, u: Schedule, p: Package,
                        q: Package, r: Told, cut: int)
    requires Ready(s, told, floor)
    requires Ascending(t) && floor <= t.snapshot && Ascending(u) && floor <= u.snapshot && 0 <= cut
    requires p == PackageOf(s, PACKAGE_NAMES[0], Version(i), t) && q == PackageOf(s, PACKAGE_NAMES[1], Version(i), u)
    requires r == Joined(s, i, p, q, cut)
    ensures Reaches(Last(r.claims), {}, told + p.Events() + q.Events()) && Proper(Last(r.claims), r.end)
    ensures Front(r.claims) == p.Events() + q.Events()
  {
    var artifact := Last(r.claims);
    assert s.cast[ReleaseManager].signs.claim in told && s.cast[ReleaseManager].signs.claim.at <= floor by {
      ReadyMeans(s, told, floor);
    }
    assert FromSource(p.decision) by {
      PackageFromSources(s, PACKAGE_NAMES[0], Version(i), t);
      assert p.decision == p.Events()[5];
    }
    assert p.decision == p.Events()[5] && q.decision == q.Events()[5];
    assert artifact.cites == [Cite(p.decision, Input), Cite(q.decision, Input)];
    assert artifact.cites[0].to == p.decision;
    assert FromSource(artifact);
  }

  /** A release ends after the day it is scheduled for. */
  lemma ReleaseEndsLater(s: Setup, i: nat, cursor: int, floor: int, d: ReleaseDraws)
    requires Staffed(s) && Drawn(i, d)
    ensures ReleaseOf(s, i, cursor, floor, d).end > cursor + d.gap > cursor
  {
    ScheduleAscends(cursor + d.gap, floor, d.first);
  }

  lemma ReleaseHolds(root: Claim, s: Setup, i: nat, cursor: int, floor: int, d: ReleaseDraws, told: seq<Claim>, r: Told)
    requires Drawn(i, d) && Ready(s, told, floor) && Holds({root}, told, cursor) && floor <= cursor
    requires r == ReleaseOf(s, i, cursor, floor, d)
    ensures cursor <= r.end && Holds({root}, told + r.claims, r.end)
  {
    ReleaseEndsLater(s, i, cursor, floor, d);
    var t, u := SchedulesOf(cursor, floor, i, d);
    ScheduledHolds(root, s, i, floor, d, t, u, told, r, cursor);
  }

  /** When the two packages of a release land. */
  lemma SchedulesOf(cursor: int, floor: int, i: nat, d: ReleaseDraws) returns (t: Schedule, u: Schedule)
    requires Drawn(i, d)
    ensures t == ScheduleOf(cursor + d.gap, floor, d.first) && Ascending(t) && floor <= t.snapshot
    ensures u == ScheduleOf(cursor + d.gap + d.stagger, floor, d.second) && Ascending(u) && floor <= u.snapshot
  {
    t, u := ScheduleOf(cursor + d.gap, floor, d.first), ScheduleOf(cursor + d.gap + d.stagger, floor, d.second);
    ScheduleAscends(cursor + d.gap, floor, d.first);
    ScheduleAscends(cursor + d.gap + d.stagger, floor, d.second);
  }

  lemma ScheduledHolds(root: Claim, s: Setup, i: nat, floor: int, d: ReleaseDraws, t: Schedule, u: Schedule,
                       told: seq<Claim>, r: Told, cursor: int)
    requires Drawn(i, d) && Ready(s, told, floor) && Holds({root}, told, cursor) && cursor <= r.end
    requires r == ReleaseOf(s, i, cursor, floor, d)
    requires t == ScheduleOf(cursor + d.gap, floor, d.first) && Ascending(t) && floor <= t.snapshot
    requires u == ScheduleOf(cursor + d.gap + d.stagger, floor, d.second) && Ascending(u) && floor <= u.snapshot
    ensures Holds({root}, told + r.claims, r.end)
  {
    var p, q := PackageOf(s, PACKAGE_NAMES[0], Version(i), t), PackageOf(s, PACKAGE_NAMES[1], Version(i), u);
    JoinedHolds(root, s, i, told, floor, t, u, p, q, r, d.cut, cursor);
  }

  lemma {:induction false} StoryHolds(root: Claim, s: Setup, floor: int, ds: seq<ReleaseDraws>, told: seq<Claim>)
    requires AllDrawn(ds) && Ready(s, told, floor) && Holds({root}, told, floor)
    ensures var story := Story(s, floor, ds); floor <= story.end && Holds({root}, told + story.claims, story.end)
  {
    if ds == [] {
      assert told + [] == told;
    } else {
      var before := Story(s, floor, Front(ds));
      AllDrawnFront(ds);
      StoryHolds(root, s, floor, Front(ds), told);
      ReadyGrows(s, told, before.claims, floor);
      var r := ReleaseOf(s, |Front(ds)|, before.end, floor, Last(ds));
      ReleaseHolds(root, s, |Front(ds)|, before.end, floor, Last(ds), told + before.claims, r);
      Regroup(told, before.claims, r.claims);
    }
  }

  lemma AllDrawnExtends(ds: seq<ReleaseDraws>, d: ReleaseDraws)
    requires AllDrawn(ds) && Drawn(|ds|, d)
    ensures AllDrawn(ds + [d])
  {
  }

  lemma AllDrawnFront(ds: seq<ReleaseDraws>)
    requires AllDrawn(ds) && ds != []
    ensures AllDrawn(Front(ds)) && Drawn(|Front(ds)|, Last(ds))
  {
    assert forall i | 0 <= i < |ds| - 1 :: Front(ds)[i] == ds[i] && Drawn(i, ds[i]);
  }

  /** Everyone is introduced and every advisory told before the first release. */
  lemma SetupHolds(root: Claim, at: int, branch: string)
    requires root.at <= at
    ensures Holds({root}, SetupClaims(root, at), FloorOf(at))
    ensures Ready(SetupOf(root, at, branch), SetupClaims(root, at), FloorOf(at))
  {
    var s := SetupOf(root, at, branch);
    var signer, when := s.cast[SecurityExpert].signs.claim, Introduced(at, PARTICIPANTS);
    assert forall p | p in PARTICIPANTS :: IsSource(p.record);
    IntroductionsHold(root, at, PARTICIPANTS);
    CastIsIntroduced(root, at, PARTICIPANTS);
    CastAndFound(root, s, Introductions(root, at, PARTICIPANTS), when, FloorOf(at));
  }

  lemma CastAndFound(root: Claim, s: Setup, introduced: seq<Claim>, when: int, floor: int)
    requires Staffed(s) && Holds({root}, introduced, when) && floor == Warned(when, ADVISORIES)
    requires forall w | w in s.cast :: s.cast[w].entity in introduced && s.cast[w].signs.claim in introduced
    requires s.found == Found(s.cast[SecurityExpert].signs.claim, when, ADVISORIES)
    ensures var told := introduced + Warnings(s.cast[SecurityExpert].signs.claim, when, ADVISORIES);
            Holds({root}, told, floor) && Ready(s, told, floor)
  {
    var signer := s.cast[SecurityExpert].signs.claim;
    var advised := Warnings(signer, when, ADVISORIES);
    HoldsMeans({root}, introduced, when);
    assert Proper(signer, when);
    ElementsMembers(introduced, signer);
    WarningsHold(signer, when, ADVISORIES, {root} + Elements(introduced));
    HoldsAppend({root}, introduced, advised, when, floor);
    var told := introduced + advised;
    HoldsMeans({root}, told, floor);
    forall c | c in told ensures TellsOf(c, told, floor) {
      assert Proper(c, floor);
    }
  }

  lemma SinglesSplit(branch: string, cs: seq<Claim>)
    requires cs != []
    ensures var bs := Singles(branch, cs);
            bs != [] && Front(bs) == Singles(branch, Front(cs)) && Last(bs) == Batch(branch, [Last(cs)])
  {
  }

  lemma {:induction false} SinglesOnBranch(branch: string, cs: seq<Claim>, b: string)
    ensures OnBranch(Singles(branch, cs), b) == if b == branch then cs else []
  {
    if cs != [] {
      var before, last := Front(cs), Batch(branch, [Last(cs)]);
      SinglesOnBranch(branch, before, b);
      SinglesSplit(branch, cs);
      assert OnBranch(Singles(branch, cs), b)
          == OnBranch(Singles(branch, before), b) + if branch == b then [Last(cs)] else [];
      assert before + [Last(cs)] == cs;
    }
  }

  /** Whatever is drawn, the process is closed under reference, and every claim dated in order and rooted in sources. */
  lemma ReleaseRunHolds(root: Claim, at: int, branch: string, ds: seq<ReleaseDraws>)
    requires root.at <= at && AllDrawn(ds)
    ensures var bs := ReleaseBatches(root, at, branch, ds); Coherent(root, bs) && AllDated(bs) && AllRooted(bs)
  {
    var s, told := SetupOf(root, at, branch), SetupClaims(root, at);
    var story := Story(s, FloorOf(at), ds);
    var bs := ReleaseBatches(root, at, branch, ds);
    SetupHolds(root, at, branch);
    StoryHolds(root, s, FloorOf(at), ds, told);
    BatchesHold(root, branch, told, story.claims, story.end);
  }

  lemma BatchesHold(root: Claim, branch: string, first: seq<Claim>, rest: seq<Claim>, until: int)
    requires Holds({root}, first + rest, until)
    ensures var bs := [Batch(branch, first)] + Singles(branch, rest);
            Coherent(root, bs) && AllDated(bs) && AllRooted(bs)
  {
    var bs := [Batch(branch, first)] + Singles(branch, rest);
    HoldsMeans({root}, first + rest, until);
    forall b ensures Ordered({root}, OnBranch(bs, b)) {
      OnBranchAppend([Batch(branch, first)], Singles(branch, rest), b);
      SinglesOnBranch(branch, rest, b);
      assert Front([Batch(branch, first)]) == [];
      assert OnBranch([Batch(branch, first)], b) == if b == branch then first else [];
    }
    forall b, c | b in bs && c in b.claims ensures Dated(c) && Rooted(c) {
      assert c in first + rest;
      assert Proper(c, until);
    }
  }

  /** Every claim of a release is dated strictly after the artifact of the one before. */
  lemma ReleaseFollowsTheLast(s: Setup, i: nat, cursor: int, floor: int, d: ReleaseDraws, r: Told)
    requires Staffed(s) && Drawn(i, d) && floor <= cursor && r == ReleaseOf(s, i, cursor, floor, d)
    ensures forall c | c in r.claims :: c.at > cursor
  {
    FirstFollows(s, i, cursor, floor, d, FirstPackage(s, i, cursor, floor, d));
    SecondFollows(s, i, cursor, floor, d, SecondPackage(s, i, cursor, floor, d));
    ReleaseEndsLater(s, i, cursor, floor, d);
    JoinedIs(s, i, FirstPackage(s, i, cursor, floor, d), SecondPackage(s, i, cursor, floor, d), d.cut, r);
  }

  lemma FirstFollows(s: Setup, i: nat, cursor: int, floor: int, d: ReleaseDraws, p: Package)
    requires Staffed(s) && Drawn(i, d) && floor <= cursor && p == FirstPackage(s, i, cursor, floor, d)
    ensures forall c | c in p.Events() :: c.at > cursor
  {
    PackageFollows(s, i, 0, cursor, cursor + d.gap, floor, d.first, p);
  }

  lemma SecondFollows(s: Setup, i: nat, cursor: int, floor: int, d: ReleaseDraws, p: Package)
    requires Staffed(s) && Drawn(i, d) && floor <= cursor && p == SecondPackage(s, i, cursor, floor, d)
    ensures forall c | c in p.Events() :: c.at > cursor
  {
    PackageFollows(s, i, 1, cursor, cursor + d.gap + d.stagger, floor, d.second, p);
  }

  /** A release is its two packages' events and an artifact, cut last, that cites both decisions and nothing else. */
  lemma JoinedIs(s: Setup, i: nat, p: Package, q: Package, cut: int, r: Told)
    requires Staffed(s) && r == Joined(s, i, p, q, cut)
    ensures r.claims != [] && Front(r.claims) == p.Events() + q.Events()
    ensures Last(r.claims).at == r.end && Last(r.claims).cites == [Cite(p.decision, Input), Cite(q.decision, Input)]
    ensures Last(r.claims).signer == Some(s.cast[ReleaseManager].signs.claim)
    ensures Last(r.claims).typ == NodeType(Derivation, "release") && Last(r.claims).fields == map["name" := Version(i)]
    ensures Last(r.claims).text.words == [Version(i), "ranke-go", "ranke-db"]
    ensures r.end == (if q.note.at > p.note.at then q.note.at else p.note.at) + cut
    ensures forall c | c in r.claims :: c in p.Events() || c in q.Events() || c.at == r.end
  {
    assert r.claims == p.Events() + q.Events() + [Last(r.claims)];
  }

  lemma PackageFollows(s: Setup, i: nat, k: nat, cursor: int, triageAt: int, floor: int, d: PackageDraws, p: Package)
    requires Staffed(s) && k < |PACKAGE_NAMES| && InRange(d) && floor <= cursor
             && cursor + FIRST_RELEASE_DELAY_MIN <= triageAt
    requires p == NthPackage(s, i, k, triageAt, floor, d)
    ensures forall c | c in p.Events() :: c.at > cursor
  {
    MarginsSuffice(triageAt, floor, d);
    ScheduleAscends(triageAt, floor, d);
    EventsAreLater(s, PACKAGE_NAMES[k], Version(i), ScheduleOf(triageAt, floor, d), cursor);
  }

  lemma EventsAreLater(s: Setup, pkg: string, version: string, t: Schedule, cursor: int)
    requires Staffed(s) && Ascending(t) && cursor < t.snapshot
    ensures forall c | c in PackageOf(s, pkg, version, t).Events() :: c.at > cursor
  {
  }

  /** No margin is ever too thin: no clamp changes a date, so both decisions land exactly on their triage times. */
  lemma DecisionsLandOnTime(s: Setup, i: nat, cursor: int, floor: int, d: ReleaseDraws)
    requires Staffed(s) && Drawn(i, d) && floor <= cursor
    ensures Unclamped(cursor + d.gap, floor, d.first) && Unclamped(cursor + d.gap + d.stagger, floor, d.second)
    ensures FirstPackage(s, i, cursor, floor, d).decision.at == cursor + d.gap
    ensures SecondPackage(s, i, cursor, floor, d).decision.at == cursor + d.gap + d.stagger
  {
    MarginsSuffice(cursor + d.gap, floor, d.first);
    MarginsSuffice(cursor + d.gap + d.stagger, floor, d.second);
  }

  // --- over the whole run ---------------------------------------------------------------------

  /** One release more of the story. */
  lemma StoryStep(s: Setup, floor: int, ds: seq<ReleaseDraws>, i: nat)
    requires Staffed(s) && i < |ds|
    ensures var before, after := Story(s, floor, ds[..i]), Story(s, floor, ds[..i + 1]);
            var r := ReleaseOf(s, i, before.end, floor, ds[i]);
            after.claims == before.claims + r.claims && after.end == r.end
  {
    assert Front(ds[..i + 1]) == ds[..i] && Last(ds[..i + 1]) == ds[i];
  }

  /** Where the cursor stands, everything told so far is told. */
  lemma StoryToldBy(root: Claim, s: Setup, floor: int, ds: seq<ReleaseDraws>, told: seq<Claim>)
    requires AllDrawn(ds) && Ready(s, told, floor) && Holds({root}, told, floor)
    ensures var story := Story(s, floor, ds);
            floor <= story.end && forall c | c in told + story.claims :: c.at <= story.end
  {
    var story := Story(s, floor, ds);
    StoryHolds(root, s, floor, ds, told);
    HoldsMeans({root}, told + story.claims, story.end);
    forall c | c in told + story.claims ensures c.at <= story.end {
      assert Proper(c, story.end);
    }
  }

  /**
   A release all of which comes later than the cursor, its artifact by more than the gap drawn
   and both decisions exactly on their triage times.
   */
  ghost predicate ComesAfter(s: Setup, i: nat, cursor: int, floor: int, d: ReleaseDraws)
    requires Staffed(s)
  {
    var r := ReleaseOf(s, i, cursor, floor, d);
    && (forall c | c in r.claims :: cursor < c.at <= r.end)
    && r.end > cursor + d.gap
    && FirstPackage(s, i, cursor, floor, d).decision.at == cursor + d.gap
    && SecondPackage(s, i, cursor, floor, d).decision.at == cursor + d.gap + d.stagger
  }

  lemma ItComesAfter(s: Setup, i: nat, cursor: int, floor: int, d: ReleaseDraws, r: Told)
    requires Staffed(s) && Drawn(i, d) && floor <= cursor
    requires r == ReleaseOf(s, i, cursor, floor, d) && forall c | c in r.claims :: c.at <= r.end
    ensures ComesAfter(s, i, cursor, floor, d)
  {
    ReleaseFollowsTheLast(s, i, cursor, floor, d, r);
    ReleaseEndsLater(s, i, cursor, floor, d);
    DecisionsLandOnTime(s, i, cursor, floor, d);
  }

  lemma NextComesAfter(root: Claim, s: Setup, floor: int, ds: seq<ReleaseDraws>, i: nat, told: seq<Claim>)
    requires AllDrawn(ds) && Ready(s, told, floor) && Holds({root}, told, floor) && i < |ds|
    ensures var before := Story(s, floor, ds[..i]);
            && (forall c | c in told + before.claims :: c.at <= before.end)
            && ComesAfter(s, i, before.end, floor, ds[i])
  {
    var before, after := Story(s, floor, ds[..i]), Story(s, floor, ds[..i + 1]);
    AllDrawnPrefix(ds, i);
    AllDrawnPrefix(ds, i + 1);
    StoryToldBy(root, s, floor, ds[..i], told);
    StoryToldBy(root, s, floor, ds[..i + 1], told);
    StoryStep(s, floor, ds, i);
    var r := ReleaseOf(s, i, before.end, floor, ds[i]);
    forall c | c in r.claims ensures c.at <= r.end {
      assert c in told + after.claims;
    }
    ItComesAfter(s, i, before.end, floor, ds[i], r);
  }

  /**
   Whatever is drawn for the run, everything told before a release, setup included, is dated no
   later than the artifact before it, and everything in the release strictly later.
   */
  lemma EveryReleaseComesAfter(root: Claim, at: int, branch: string, ds: seq<ReleaseDraws>, i: nat)
    requires root.at <= at && AllDrawn(ds) && i < |ds|
    ensures var s, floor := SetupOf(root, at, branch), FloorOf(at);
            var before := Story(s, floor, ds[..i]);
            && (forall c | c in SetupClaims(root, at) + before.claims :: c.at <= before.end)
            && ComesAfter(s, i, before.end, floor, ds[i])
  {
    SetupHolds(root, at, branch);
    NextComesAfter(root, SetupOf(root, at, branch), FloorOf(at), ds, i, SetupClaims(root, at));
  }

  lemma AllDrawnPrefix(ds: seq<ReleaseDraws>, k: nat)
    requires AllDrawn(ds) && k <= |ds|
    ensures AllDrawn(ds[..k])
  {
    assert forall i | 0 <= i < k :: ds[..k][i] == ds[i] && Drawn(i, ds[i]);
  }

  // --- a release in its own terms -----------------------------------------------------------------

  /** What may be drawn for a release, in minutes and days of nanoseconds. */
  lemma ReleaseInDays(i: nat, d: ReleaseDraws)
    ensures Drawn(i, d) <==>
            var minute, day := 60_000_000_000, 86_400_000_000_000;
            && (if i == 0 then 7 * day <= d.gap < 10 * day else 14 * day <= d.gap < 28 * day)
            && 30 * minute <= d.stagger < 90 * minute && 30 * minute <= d.cut < 240 * minute
            && InRange(d.first) && InRange(d.second)
  {
  }

  /** Versions count up from v0.1.0. */
  lemma VersionTells(i: nat)
    ensures var v := Version(i);
            |v| > 5 && v[..3] == "v0." && v[|v| - 2..] == ".0" && Spelled(v[3..|v| - 2]) == i + 1
  {
    var v := Version(i);
    DecimalSpells(i + 1);
    assert v[3..|v| - 2] == Decimal(i + 1);
  }

  /** Both packages of a release bear its version, the second's decision a stagger after the first's. */
  lemma ReleaseTells(s: Setup, i: nat, cursor: int, floor: int, d: ReleaseDraws)
    requires Staffed(s) && Drawn(i, d) && floor <= cursor
    ensures var p, q := FirstPackage(s, i, cursor, floor, d), SecondPackage(s, i, cursor, floor, d);
            && p.decision.fields == map["name" := "ranke-go", "version" := Version(i)]
            && q.decision.fields == map["name" := "ranke-db", "version" := Version(i)]
            && p.decision.at == cursor + d.gap && q.decision.at == cursor + d.gap + d.stagger
  {
    DecisionsLandOnTime(s, i, cursor, floor, d);
  }

  /** The setup introduces the four and tells of both vulnerabilities, a minute a claim; nothing else is in it. */
  lemma SetupTells(root: Claim, at: int, branch: string)
    ensures var s := SetupOf(root, at, branch);
            && |SetupClaims(root, at)| == 16 && FloorOf(at) == at + 16 * 60_000_000_000
            && (forall w: Who :: w in s.cast) && |s.found| == 2
            && s.found[0].fields == map["name" := "CVE-2024-31337"]
            && s.found[1].fields == map["name" := "CVE-2024-40001"]
            && forall v | v in s.found :: v.signer == Some(s.cast[SecurityExpert].signs.claim)
  {
    var s := SetupOf(root, at, branch);
    var signer, when := s.cast[SecurityExpert].signs.claim, Introduced(at, PARTICIPANTS);
    forall w: Who ensures w in s.cast {
      FourParticipants();
      CastIsIntroduced(root, at, PARTICIPANTS);
      var i := match w case ReleaseManager => 0 case SecurityExpert => 1 case TestExecutor => 2 case CiRunner => 3;
      assert w == PARTICIPANTS[i].who;
    }
    IntroductionsCount(root, at, PARTICIPANTS);
    WarningsTell(signer, when, ADVISORIES, 0);
    WarningsTell(signer, when, ADVISORIES, 1);
  }

  lemma {:induction false} IntroductionsCount(root: Claim, at: int, ps: seq<Participant>)
    ensures |Introductions(root, at, ps)| == 3 * |ps|
  {
    if ps != [] {
      IntroductionsCount(root, at, Front(ps));
    }
  }
}
