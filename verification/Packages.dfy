/** One package of one release: its schedule, and the claims it signs (cmd/generator/release.go). */
module Packages {
  import opened Bytes
  import opened Claims
  import opened Graph
  import opened Cast

  // --- the schedule ------------------------------------------------------------------

  const BUILD_DELAY_MIN := 4 * MINUTE
  const BUILD_DELAY_MAX := 15 * MINUTE
  const TEST_DELAY_MIN := 20 * MINUTE
  const TEST_DELAY_MAX := 3 * HOUR
  const DEV_TO_TRIAGE_MIN := 2 * DAY
  const DEV_TO_TRIAGE_MAX := 5 * DAY
  const SCAN_LEAD_MIN := 2 * HOUR
  const SCAN_LEAD_MAX := 6 * HOUR
  const CANDIDATE_DELAY_MIN := 10 * MINUTE
  const CANDIDATE_DELAY_MAX := 40 * MINUTE
  const REVIEW_DELAY_MIN := 15 * MINUTE
  const REVIEW_DELAY_MAX := 2 * HOUR
  const PACKAGE_STAGGER_MIN := 30 * MINUTE
  const PACKAGE_STAGGER_MAX := 90 * MINUTE
  const RELEASE_DELAY_MIN := 30 * MINUTE
  const RELEASE_DELAY_MAX := 4 * HOUR
  const FIRST_RELEASE_DELAY_MIN := 7 * DAY
  const FIRST_RELEASE_DELAY_MAX := 10 * DAY
  const RELEASE_CADENCE_MIN := 14 * DAY
  const RELEASE_CADENCE_MAX := 28 * DAY

  function AtLeast(t: int, floor: int): int {
    if t < floor then floor else t
  }

  function LaterTime(a: int, b: int): int {
    if b > a then b else a
  }

  method Jitter(g: Grower, lo: int, hi: int) returns (d: int)
    ensures if hi <= lo then d == lo else lo <= d < hi
  {
    if hi <= lo {
      return lo;
    }
    var k := g.IntN(hi - lo);
    d := lo + k;
  }

  /** What is drawn for one package of one release. */
  datatype PackageDraws = PackageDraws(lead: int, build: int, test: int, scan: int, candidate: int, review: int)

  predicate InRange(d: PackageDraws) {
    && DEV_TO_TRIAGE_MIN <= d.lead < DEV_TO_TRIAGE_MAX
    && BUILD_DELAY_MIN <= d.build < BUILD_DELAY_MAX
    && TEST_DELAY_MIN <= d.test < TEST_DELAY_MAX
    && SCAN_LEAD_MIN <= d.scan < SCAN_LEAD_MAX
    && CANDIDATE_DELAY_MIN <= d.candidate < CANDIDATE_DELAY_MAX
    && REVIEW_DELAY_MIN <= d.review < REVIEW_DELAY_MAX
  }

  /** When each event of a package lands. */
  datatype Schedule = Schedule(snapshot: int, build: int, test: int, scan: int, candidate: int, decision: int,
                               note: int)

  function ScheduleOf(triageAt: int, floor: int, d: PackageDraws): Schedule {
    var snapshot := AtLeast(triageAt - d.lead, floor);
    var build := snapshot + d.build;
    var test := build + d.test;
    var scan := AtLeast(triageAt - d.scan, test);
    var candidate := scan + d.candidate;
    var decision := AtLeast(triageAt, candidate);
    Schedule(snapshot, build, test, scan, candidate, decision, decision + d.review)
  }

  predicate Ascending(t: Schedule) {
    t.snapshot < t.build < t.test <= t.scan < t.candidate <= t.decision < t.note
  }

  /** Whatever is drawn and wherever the floor is, no event lands before one it follows, nor before the floor. */
  lemma ScheduleAscends(triageAt: int, floor: int, d: PackageDraws)
    requires InRange(d)
    ensures var t := ScheduleOf(triageAt, floor, d); Ascending(t) && floor <= t.snapshot && triageAt <= t.decision
  {
  }

  /** No clamp changes what it is given. */
  predicate Unclamped(triageAt: int, floor: int, d: PackageDraws) {
    var t := ScheduleOf(triageAt, floor, d);
    && t.snapshot == triageAt - d.lead
    && t.scan == triageAt - d.scan
    && t.decision == triageAt
  }

  /** Given that much room before its window, a package lands every event where it was scheduled. */
  lemma MarginsSuffice(triageAt: int, floor: int, d: PackageDraws)
    requires InRange(d) && floor + DEV_TO_TRIAGE_MAX <= triageAt
    ensures Unclamped(triageAt, floor, d)
  {
  }

  /** The room is what the draws call for: below it some draw is clamped, and at it none is. */
  lemma RoomNeeded(triageAt: int, floor: int)
    ensures (forall d | InRange(d) :: Unclamped(triageAt, floor, d)) <==> floor < triageAt - DEV_TO_TRIAGE_MAX + 2
  {
    var d := PackageDraws(DEV_TO_TRIAGE_MAX - 1, BUILD_DELAY_MIN, TEST_DELAY_MIN, SCAN_LEAD_MIN, CANDIDATE_DELAY_MIN,
                          REVIEW_DELAY_MIN);
    assert InRange(d);
    if forall d | InRange(d) :: Unclamped(triageAt, floor, d) {
      assert Unclamped(triageAt, floor, d);
    }
  }

  /**
   The quiet between code being ready and the scan is days, though not always the shortest
   development lead: exactly when the lead drawn exceeds that by the scan's own lead. The
   scan always lands hours before the decision.
   */
  lemma QuietForDays(triageAt: int, floor: int, d: PackageDraws)
    requires InRange(d) && floor + DEV_TO_TRIAGE_MAX <= triageAt
    ensures var t := ScheduleOf(triageAt, floor, d);
            && (t.scan - t.snapshot >= DEV_TO_TRIAGE_MIN <==> d.lead >= DEV_TO_TRIAGE_MIN + d.scan)
            && t.scan - t.snapshot > DEV_TO_TRIAGE_MIN - SCAN_LEAD_MAX
            && SCAN_LEAD_MIN <= t.decision - t.scan < SCAN_LEAD_MAX
  {
    MarginsSuffice(triageAt, floor, d);
  }

  /** A draw in range after which the scan follows the snapshot by less than two days. */
  lemma TheQuietCanBeShort(triageAt: int, floor: int) returns (d: PackageDraws)
    requires floor + DEV_TO_TRIAGE_MAX <= triageAt
    ensures InRange(d)
    ensures var t := ScheduleOf(triageAt, floor, d); t.scan - t.snapshot < DEV_TO_TRIAGE_MIN
  {
    d := PackageDraws(DEV_TO_TRIAGE_MIN, BUILD_DELAY_MIN, TEST_DELAY_MIN, SCAN_LEAD_MIN, CANDIDATE_DELAY_MIN,
                      REVIEW_DELAY_MIN);
  }

  // --- one package -----------------------------------------------------------------------

  const GIT_SNAPSHOT := NodeType(Source, "git_snapshot")
  const BUILD_LOG := NodeType(Source, "build_log")
  const TEST_REPORT := NodeType(Source, "test_report")
  const SCAN := NodeType(Derivation, "vulnerability_scan")
  const CANDIDATE := NodeType(Derivation, "release_candidate")
  const TRIAGE := NodeType(Derivation, "triage")
  const REVIEW_NOTE := NodeType(Derivation, "review_note")
  const RELEASE_TYPE := NodeType(Derivation, "release")

  /** Who takes part and what the scans may find, told on the branch already. */
  datatype Setup = Setup(branch: string, cast: map<Who, Actor>, found: seq<Claim>)

  predicate Staffed(s: Setup) {
    && |s.found| == |ADVISORIES|
    && ReleaseManager in s.cast && SecurityExpert in s.cast && TestExecutor in s.cast && CiRunner in s.cast
  }

  function Named(pkg: string, version: string): map<string, string> {
    map["name" := pkg, "version" := version]
  }

  /** The vulnerabilities among the first `k` found that touch the package, mentioned. */
  function Mentioned(found: seq<Claim>, pkg: string, k: nat): seq<Cite>
    requires k <= |found| <= |ADVISORIES|
  {
    if k == 0 then []
    else Mentioned(found, pkg, k - 1) + if Affects(ADVISORIES[k - 1], pkg) then [Cite(found[k - 1], Mentions)] else []
  }

  function Matched(pkg: string, k: nat): seq<string>
    requires k <= |ADVISORIES|
  {
    if k == 0 then [] else Matched(pkg, k - 1) + if Affects(ADVISORIES[k - 1], pkg) then [ADVISORIES[k - 1].id] else []
  }

  function Act(s: Setup, who: Who, typ: NodeType, text: Text, fields: map<string, string>, cites: seq<Cite>,
               at: int): Claim
    requires who in s.cast
  {
    Claim(typ, text, fields, at, Some(s.cast[who].signs.claim), cites)
  }

  /** What one package puts on the branch: an event each, in the order they land. */
  datatype Package = Package(
    snapshot: Claim, buildLog: Claim, testReport: Claim, scan: Claim, candidate: Claim, decision: Claim, note: Claim)
  {
    function Events(): seq<Claim> {
      [snapshot, buildLog, testReport, scan, candidate, decision, note]
    }
  }

  function Decided(s: Setup, candidate: Claim): seq<Cite>
    requires Staffed(s)
  {
    Inputs([candidate]) + [Cite(s.cast[ReleaseManager].entity, DecidedBy),
                           Cite(s.cast[SecurityExpert].entity, DecidedBy)]
  }

  function SnapshotOf(s: Setup, pkg: string, version: string, at: int): Claim
    requires Staffed(s)
  {
    Act(s, CiRunner, GIT_SNAPSHOT, Text("snapshot", [pkg, version], []), Named(pkg, version), [], at)
  }

  function BuildLogOf(s: Setup, pkg: string, version: string, at: int): Claim
    requires Staffed(s)
  {
    Act(s, CiRunner, BUILD_LOG, Text("build", [pkg, version], [6]), Named(pkg, version), [], at)
  }

  function TestReportOf(s: Setup, pkg: string, version: string, at: int): Claim
    requires Staffed(s)
  {
    Act(s, TestExecutor, TEST_REPORT, Text("test", [pkg, version], [8]), Named(pkg, version), [], at)
  }

  function ScanOf(s: Setup, pkg: string, version: string, snapshot: Claim, at: int): Claim
    requires Staffed(s)
  {
    Act(s, SecurityExpert, SCAN, Text("scan", [pkg, version] + Matched(pkg, |s.found|), []), Named(pkg, version),
        Inputs([snapshot]) + Mentioned(s.found, pkg, |s.found|), at)
  }

  function CandidateOf(s: Setup, pkg: string, version: string, inputs: seq<Claim>, at: int): Claim
    requires Staffed(s)
  {
    Act(s, CiRunner, CANDIDATE, Text("release candidate", [pkg, version], []), Named(pkg, version), Inputs(inputs), at)
  }

  function DecisionOf(s: Setup, pkg: string, version: string, candidate: Claim, at: int): Claim
    requires Staffed(s)
  {
    Act(s, ReleaseManager, TRIAGE, Text("triage", [pkg, version] + Matched(pkg, |s.found|), []), Named(pkg, version),
        Decided(s, candidate), at)
  }

  function NoteOf(s: Setup, pkg: string, version: string, decision: Claim, at: int): Claim
    requires Staffed(s)
  {
    Act(s, SecurityExpert, REVIEW_NOTE, Text("review", [pkg, version] + Matched(pkg, |s.found|), []),
        Named(pkg, version),
        Inputs([decision]), at)
  }

  function PackageOf(s: Setup, pkg: string, version: string, t: Schedule): Package
    requires Staffed(s)
  {
    var snapshot := SnapshotOf(s, pkg, version, t.snapshot);
    var buildLog := BuildLogOf(s, pkg, version, t.build);
    var testReport := TestReportOf(s, pkg, version, t.test);
    var scan := ScanOf(s, pkg, version, snapshot, t.scan);
    var candidate := CandidateOf(s, pkg, version, [snapshot, buildLog, testReport, scan], t.candidate);
    var decision := DecisionOf(s, pkg, version, candidate, t.decision);
    Package(snapshot, buildLog, testReport, scan, candidate, decision, NoteOf(s, pkg, version, decision, t.note))
  }

  /** One contribution for each claim. */
  function Singles(branch: string, cs: seq<Claim>): seq<Batch> {
    seq(|cs|, k requires 0 <= k < |cs| => Batch(branch, [cs[k]]))
  }

  method WriteAt(g: Grower, s: Setup, who: Who, typ: NodeType, text: Text, fields: map<string, string>,
                 cites: seq<Cite>, at: int)
    returns (c: Claim)
    requires who in s.cast && at != 0
    modifies g
    ensures c == Act(s, who, typ, text, fields, cites, at)
    ensures g.at == LaterTime(old(g.at), at) && g.made == old(g.made) + Tagged(s.branch, [c])
  {
    var m := g.Write(Spec(s.cast[who].signs, s.branch, typ, text, fields, cites, at));
    c := m.claim;
  }

  method Scanned(found: seq<Claim>, snapshot: Claim, pkg: string) returns (cites: seq<Cite>, matched: seq<string>)
    requires |found| <= |ADVISORIES|
    ensures cites == Inputs([snapshot]) + Mentioned(found, pkg, |found|) && matched == Matched(pkg, |found|)
  {
    cites, matched := Inputs([snapshot]), [];
    for i := 0 to |found|
      invariant cites == Inputs([snapshot]) + Mentioned(found, pkg, i) && matched == Matched(pkg, i)
    {
      if Affects(ADVISORIES[i], pkg) {
        cites := cites + [Cite(found[i], Mentions)];
        matched := matched + [ADVISORIES[i].id];
      }
    }
  }

  /** The dev work: commit, build, test, done days before the window it waits for. */
  method Develop(g: Grower, s: Setup, pkg: string, version: string, triageAt: int, floor: int)
    returns (snapshot: Claim, buildLog: Claim, testReport: Claim, ghost lead: int, ghost build: int, ghost test: int)
    requires Staffed(s) && floor > 0
    modifies g
    ensures DEV_TO_TRIAGE_MIN <= lead < DEV_TO_TRIAGE_MAX && BUILD_DELAY_MIN <= build < BUILD_DELAY_MAX
            && TEST_DELAY_MIN <= test < TEST_DELAY_MAX
    ensures var at := AtLeast(triageAt - lead, floor);
            && snapshot == SnapshotOf(s, pkg, version, at)
            && buildLog == BuildLogOf(s, pkg, version, at + build)
            && testReport == TestReportOf(s, pkg, version, at + build + test)
            && g.at == LaterTime(old(g.at), at + build + test)
    ensures g.made == old(g.made) + Tagged(s.branch, [snapshot, buildLog, testReport])
  {
    var name := Named(pkg, version);
    var early := Jitter(g, DEV_TO_TRIAGE_MIN, DEV_TO_TRIAGE_MAX);
    var snapshotAt := AtLeast(triageAt - early, floor);
    snapshot := WriteAt(g, s, CiRunner, GIT_SNAPSHOT, Text("snapshot", [pkg, version], []), name, [], snapshotAt);
    var building := Jitter(g, BUILD_DELAY_MIN, BUILD_DELAY_MAX);
    var buildAt := snapshotAt + building;
    buildLog := WriteAt(g, s, CiRunner, BUILD_LOG, Text("build", [pkg, version], [6]), name, [], buildAt);
    var testing := Jitter(g, TEST_DELAY_MIN, TEST_DELAY_MAX);
    var testAt := buildAt + testing;
    testReport := WriteAt(g, s, TestExecutor, TEST_REPORT, Text("test", [pkg, version], [8]), name, [], testAt);
    lead, build, test := early, building, testing;
  }

  /** The run-up to the decision: the scan, and the candidate it is the last part of. */
  method Assemble(g: Grower, s: Setup, pkg: string, version: string, triageAt: int,
                  snapshot: Claim, buildLog: Claim, testReport: Claim, testAt: int)
    returns (scan: Claim, candidate: Claim, candidateAt: int, matched: seq<string>, ghost lag: int, ghost wait: int)
    requires Staffed(s) && testAt > 0
    modifies g
    ensures SCAN_LEAD_MIN <= lag < SCAN_LEAD_MAX && CANDIDATE_DELAY_MIN <= wait < CANDIDATE_DELAY_MAX
    ensures var at := AtLeast(triageAt - lag, testAt);
            && scan == ScanOf(s, pkg, version, snapshot, at) && candidateAt == at + wait
            && candidate == CandidateOf(s, pkg, version, [snapshot, buildLog, testReport, scan], candidateAt)
            && g.at == LaterTime(old(g.at), candidateAt)
    ensures matched == Matched(pkg, |s.found|) && g.made == old(g.made) + Tagged(s.branch, [scan, candidate])
  {
    var name := Named(pkg, version);
    var early := Jitter(g, SCAN_LEAD_MIN, SCAN_LEAD_MAX);
    var scanAt := AtLeast(triageAt - early, testAt);
    var cites;
    cites, matched := Scanned(s.found, snapshot, pkg);
    scan := WriteAt(g, s, SecurityExpert, SCAN, Text("scan", [pkg, version] + matched, []), name, cites, scanAt);
    var late := Jitter(g, CANDIDATE_DELAY_MIN, CANDIDATE_DELAY_MAX);
    candidateAt := scanAt + late;
    candidate := WriteAt(g, s, CiRunner, CANDIDATE, Text("release candidate", [pkg, version], []), name,
                         Inputs([snapshot, buildLog, testReport, scan]), candidateAt);
    lag, wait := early, late;
  }

  /** The decision on the candidate, naming who decided, and the remark that follows it. */
  method Decide(g: Grower, s: Setup, pkg: string, version: string, matched: seq<string>, candidate: Claim,
                decisionAt: int)
    returns (decision: Claim, note: Claim, noteAt: int, ghost review: int)
    requires Staffed(s) && decisionAt > 0 && matched == Matched(pkg, |s.found|)
    modifies g
    ensures REVIEW_DELAY_MIN <= review < REVIEW_DELAY_MAX && noteAt == decisionAt + review
    ensures decision == DecisionOf(s, pkg, version, candidate, decisionAt)
    ensures note == NoteOf(s, pkg, version, decision, noteAt)
    ensures g.at == LaterTime(old(g.at), noteAt) && g.made == old(g.made) + Tagged(s.branch, [decision, note])
  {
    var name := Named(pkg, version);
    decision := WriteAt(g, s, ReleaseManager, TRIAGE, Text("triage", [pkg, version] + matched, []), name,
                        Decided(s, candidate), decisionAt);
    var late := Jitter(g, REVIEW_DELAY_MIN, REVIEW_DELAY_MAX);
    noteAt := decisionAt + late;
    note := WriteAt(g, s, SecurityExpert, REVIEW_NOTE, Text("review", [pkg, version] + matched, []), name,
                    Inputs([decision]), noteAt);
    review := late;
  }

  /** A package's seven events in turn, each contributed by itself; a floor is some time after the zero time. */
  method ReleaseOnePackage(g: Grower, s: Setup, pkg: string, version: string, triageAt: int, floor: int)
    returns (bs: seq<Batch>, decision: Claim, reviewedAt: int, ghost d: PackageDraws)
    requires Staffed(s) && floor > 0
    modifies g
    ensures InRange(d)
    ensures var t := ScheduleOf(triageAt, floor, d);
            var p := PackageOf(s, pkg, version, t);
            && bs == Singles(s.branch, p.Events()) && decision == p.decision && reviewedAt == t.note
            && g.at == LaterTime(old(g.at), t.note) && g.made == old(g.made) + Tagged(s.branch, p.Events())
  {
    ghost var lead, build, test, lag, wait, review;
    var snapshot, buildLog, testReport, scan, candidate, candidateAt, matched, note;
    snapshot, buildLog, testReport, lead, build, test := Develop(g, s, pkg, version, triageAt, floor);
    scan, candidate, candidateAt, matched, lag, wait :=
      Assemble(g, s, pkg, version, triageAt, snapshot, buildLog, testReport, testReport.at);
    decision, note, reviewedAt, review :=
      Decide(g, s, pkg, version, matched, candidate, AtLeast(triageAt, candidateAt));
    d := PackageDraws(lead, build, test, lag, wait, review);
    bs := [Batch(s.branch, [snapshot]), Batch(s.branch, [buildLog]), Batch(s.branch, [testReport]),
           Batch(s.branch, [scan]),
           Batch(s.branch, [candidate]), Batch(s.branch, [decision]), Batch(s.branch, [note])];
  }

  // --- a package in its own terms ----------------------------------------------------------------

  /** When each event of a package lands when there is room, in minutes and hours of nanoseconds. */
  lemma PackageInHours(triageAt: int, floor: int, d: PackageDraws)
    requires InRange(d) && floor + 120 * 3_600_000_000_000 <= triageAt
    ensures var t, minute, hour := ScheduleOf(triageAt, floor, d), 60_000_000_000, 3_600_000_000_000;
            && 48 * hour <= triageAt - t.snapshot < 120 * hour
            && 4 * minute <= t.build - t.snapshot < 15 * minute
            && 20 * minute <= t.test - t.build < 180 * minute
            && 2 * hour <= triageAt - t.scan < 6 * hour
            && 10 * minute <= t.candidate - t.scan < 40 * minute
            && t.decision == triageAt
            && 15 * minute <= t.note - t.decision < 120 * minute
  {
    MarginsSuffice(triageAt, floor, d);
  }

  /** Any draw within those hours is one. */
  lemma EveryDrawInHours(d: PackageDraws)
    ensures InRange(d) <==>
            var minute, hour := 60_000_000_000, 3_600_000_000_000;
            && 48 * hour <= d.lead < 120 * hour && 4 * minute <= d.build < 15 * minute
            && 20 * minute <= d.test < 180 * minute && 2 * hour <= d.scan < 6 * hour
            && 10 * minute <= d.candidate < 40 * minute && 15 * minute <= d.review < 120 * minute
  {
  }

  /** Who signs what, of which type, on what it rests. */
  lemma PackageTells(s: Setup, pkg: string, version: string, t: Schedule)
    requires Staffed(s)
    ensures var p := PackageOf(s, pkg, version, t);
            var runner, tester := s.cast[CiRunner].signs.claim, s.cast[TestExecutor].signs.claim;
            var expert, manager := s.cast[SecurityExpert].signs.claim, s.cast[ReleaseManager].signs.claim;
            && p.snapshot.typ == NodeType(Source, "git_snapshot") && p.snapshot.signer == Some(runner)
            && p.buildLog.typ == NodeType(Source, "build_log") && p.buildLog.signer == Some(runner)
            && p.testReport.typ == NodeType(Source, "test_report") && p.testReport.signer == Some(tester)
            && p.snapshot.cites == p.buildLog.cites == p.testReport.cites == []
            && p.scan.typ == NodeType(Derivation, "vulnerability_scan") && p.scan.signer == Some(expert)
            && p.candidate.typ == NodeType(Derivation, "release_candidate") && p.candidate.signer == Some(runner)
            && p.candidate.cites == [Cite(p.snapshot, Input), Cite(p.buildLog, Input), Cite(p.testReport, Input),
                                     Cite(p.scan, Input)]
            && p.decision.typ == NodeType(Derivation, "triage") && p.decision.signer == Some(manager)
            && p.decision.cites == [Cite(p.candidate, Input), Cite(s.cast[ReleaseManager].entity, DecidedBy),
                                    Cite(s.cast[SecurityExpert].entity, DecidedBy)]
            && p.note.typ == NodeType(Derivation, "review_note") && p.note.signer == Some(expert)
            && p.note.cites == [Cite(p.decision, Input)]
  {
  }

  /** All bear the package's name and version, and those that come of the scan what it matched. */
  lemma PackageSays(s: Setup, pkg: string, version: string, t: Schedule)
    requires Staffed(s)
    ensures var p := PackageOf(s, pkg, version, t);
            && (forall c | c in p.Events() :: c.fields == map["name" := pkg, "version" := version])
            && p.snapshot.text.words == p.buildLog.text.words == p.testReport.text.words == [pkg, version]
            && p.candidate.text.words == [pkg, version]
            && p.scan.text.words == p.decision.text.words == p.note.text.words == [pkg, version] + Matched(pkg, 2)
  {
  }

  /** A package's events land in the order and at the times of its schedule. */
  lemma PackageKeepsTime(s: Setup, pkg: string, version: string, t: Schedule)
    requires Staffed(s)
    ensures var cs := PackageOf(s, pkg, version, t).Events();
            && |cs| == 7 && cs[0].at == t.snapshot && cs[1].at == t.build && cs[2].at == t.test && cs[3].at == t.scan
            && cs[4].at == t.candidate && cs[5].at == t.decision && cs[6].at == t.note
  {
  }

  /** The scan mentions a vulnerability exactly when its advisory names the package, or names none. */
  lemma {:induction false} MentionedExactly(found: seq<Claim>, pkg: string, k: nat, e: Cite)
    requires k <= |found| <= |ADVISORIES|
    ensures e in Mentioned(found, pkg, k) <==>
            exists i :: 0 <= i < k && (ADVISORIES[i].affects == [] || pkg in ADVISORIES[i].affects)
                        && e == Cite(found[i], Mentions)
  {
    if k > 0 {
      MentionedExactly(found, pkg, k - 1, e);
    }
  }

  /** Of the two, one package's scan mentions both, and every other package's the first alone. */
  lemma ScansTell(s: Setup, pkg: string, version: string, snapshot: Claim, at: int)
    requires Staffed(s)
    ensures var c := ScanOf(s, pkg, version, snapshot, at);
            var first, second := Cite(s.found[0], Mentions), Cite(s.found[1], Mentions);
            c.cites == [Cite(snapshot, Input)] + if pkg == "ranke-go" then [first, second] else [first]
  {
    var found := s.found;
    assert Mentioned(found, pkg, 0) == [];
    assert Mentioned(found, pkg, 1) == [] + [Cite(found[0], Mentions)] == [Cite(found[0], Mentions)];
    assert pkg in ADVISORIES[1].affects <==> pkg == "ranke-go";
  }

  /** What the scan and the decision say of them by name. */
  lemma MatchedTells(pkg: string)
    ensures Matched(pkg, 2) == if pkg == "ranke-go" then ["CVE-2024-31337", "CVE-2024-40001"] else ["CVE-2024-31337"]
  {
    assert Matched(pkg, 0) == [];
    assert Matched(pkg, 1) == [] + ["CVE-2024-31337"] == ["CVE-2024-31337"];
    assert pkg in ADVISORIES[1].affects <==> pkg == "ranke-go";
  }
}
