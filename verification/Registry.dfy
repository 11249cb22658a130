/**
 The verification runs a server knows about (internal/core/verification.go).

 `Table` is what the mutex guards and the functions on it are the critical sections. Starting
 a run takes two of them, with the lock dropped in between and the walk launched meanwhile. A
 `State` also holds the ids reserved by starts still between the two, those of them already
 launched, the registered runs not yet collected, and the walks that are going on; a history is
 any interleaving of atomic steps.
 */
module Registry {
  import opened Bytes
  import opened Lists

  // --- what a run is ------------------------------------------------------------

  datatype Status = Running | Complete | Stopped | Error

  datatype Config = Config(closure: string, depth: string, layer: string)

  /** A failure as the library's handle shows it, id and error possibly absent. */
  datatype Finding = Finding(id: Option<string>, error: Option<string>)

  /** What a walk's handle shows once the walk has ended. */
  datatype Outcome = Outcome(verified: nat, findings: seq<Finding>, failed: bool)

  datatype Failure = Failure(id: string, layer: string, detail: string)

  datatype Report = Report(
    id: string, config: Config, head: string, status: Status, startedAt: int,
    completedAt: Option<int>, claimsChecked: nat, ok: bool, failures: seq<Failure>)

  function NewReport(id: string, config: Config, head: string, at: int): Report {
    Report(id, config, head, Running, at, None, 0, false, [])
  }

  function Failures(config: Config, findings: seq<Finding>): (r: seq<Failure>)
    ensures |r| == |findings|
  {
    if findings == [] then []
    else [Failure(findings[0].id.GetOr(""), config.layer, findings[0].error.GetOr(""))]
         + Failures(config, findings[1..])
  }

  /** The walk's counters and findings, copied onto the report. */
  function Absorb(r: Report, o: Outcome): Report {
    r.(claimsChecked := o.verified, failures := Failures(r.config, o.findings), ok := |o.findings| == 0)
  }

  /** A finished walk's report: a run marked stopped stays stopped. */
  function Settle(r: Report, o: Outcome, at: int): Report {
    var absorbed := Absorb(r, o).(completedAt := Some(at));
    if absorbed.status != Running then absorbed else absorbed.(status := if o.failed then Error else Complete)
  }

  // --- ids ----------------------------------------------------------------------

  function RunId(n: nat): string {
    "ver-" + Decimal(n)
  }

  /** An id is a prefix and the counter in decimal. */
  lemma RunIdSpells(n: nat)
    ensures RunId(n)[..4] == "ver-" && Spelled(RunId(n)[4..]) == n
  {
    assert RunId(n)[4..] == Decimal(n);
    DecimalSpells(n);
  }

  lemma RunIdInjective(m: nat, n: nat)
    requires RunId(m) == RunId(n)
    ensures m == n
  {
    assert RunId(m)[4..] == Decimal(m) && RunId(n)[4..] == Decimal(n);
    DecimalInjective(m, n);
  }

  // --- the table under the lock ----------------------------------------------------

  datatype Table = Table(runs: map<string, Report>, order: seq<string>, max: nat, nextID: nat)

  function RunningIds(runs: map<string, Report>): set<string> {
    set id | id in runs && runs[id].status == Running
  }

  /** Lines 68 to 75: refuse at the cap, else take the next id. */
  function Reserve(t: Table): (Table, Option<string>) {
    if |RunningIds(t.runs)| >= t.max then (t, None)
    else (t.(nextID := t.nextID + 1), Some(RunId(t.nextID + 1)))
  }

  /** Lines 93 to 96. */
  function Register(t: Table, report: Report): Table {
    t.(runs := t.runs[report.id := report], order := t.order + [report.id])
  }

  /** Lines 106 to 121: a run deleted while walking leaves nothing to record. */
  function Collect(t: Table, id: string, o: Outcome, at: int): Table {
    if id !in t.runs then t else t.(runs := t.runs[id := Settle(t.runs[id], o, at)])
  }

  /** Lines 168 to 181: only a running run is marked. */
  function Mark(t: Table, id: string): Table {
    if id !in t.runs || t.runs[id].status != Running then t
    else t.(runs := t.runs[id := t.runs[id].(status := Stopped)])
  }

  /** Lines 189 to 198. */
  function Remove(t: Table, id: string): Table {
    if id !in t.runs then t else t.(runs := t.runs - {id}, order := Without(t.order, id))
  }

  datatype LookupError = NotFound

  /** Lines 142 to 150. */
  function Lookup(t: Table, id: string): Result<Report, LookupError> {
    if id in t.runs then Ok(t.runs[id]) else Err(NotFound)
  }

  /** The retained reports, newest first. */
  function Listed(t: Table): seq<Report>
    decreases |t.order|
  {
    if t.order == [] then []
    else
      var last := t.order[|t.order| - 1];
      (if last in t.runs then [t.runs[last]] else []) + Listed(t.(order := t.order[..|t.order| - 1]))
  }

  // --- interleavings -----------------------------------------------------------------

  datatype State = State(
    table: Table, pending: set<string>, launched: set<string>, uncollected: set<string>, walking: set<string>)

  /** A start reserves, launches its walk or gives up, and registers; the walk ends by itself and is collected after. */
  datatype Step =
    | DoReserve
    | DoLaunch(id: string)
    | DoAbandon(id: string)
    | DoRegister(id: string, config: Config, head: string, at: int)
    | DoEnd(id: string)
    | DoCollect(id: string, outcome: Outcome, at: int)
    | DoMark(id: string)
    | DoRemove(id: string)

  function Init(max: int): State {
    State(Table(map[], [], if max <= 0 then 1 else max, 0), {}, {}, {}, {})
  }

  /** A start launches only what it reserved, and then registers it; a walk is collected once, when it has ended. */
  predicate Enabled(s: State, step: Step) {
    match step
    case DoLaunch(id) => id in s.pending && id !in s.launched
    case DoAbandon(id) => id in s.pending && id !in s.launched
    case DoRegister(id, _, _, _) => id in s.pending && id in s.launched
    case DoEnd(id) => id in s.walking
    case DoCollect(id, _, _) => id in s.uncollected && id !in s.walking
    case _ => true
  }

  function Apply(s: State, step: Step): State {
    match step
    case DoReserve =>
      var (t, id) := Reserve(s.table);
      s.(table := t, pending := if id.Some? then s.pending + {id.value} else s.pending)
    case DoLaunch(id) => s.(launched := s.launched + {id}, walking := s.walking + {id})
    case DoAbandon(id) => s.(pending := s.pending - {id})
    case DoRegister(id, config, head, at) =>
      s.(table := Register(s.table, NewReport(id, config, head, at)), pending := s.pending - {id},
      launched := s.launched - {id}, uncollected := s.uncollected + {id})
    case DoEnd(id) => s.(walking := s.walking - {id})
    case DoCollect(id, o, at) => s.(table := Collect(s.table, id, o, at), uncollected := s.uncollected - {id})
    case DoMark(id) => s.(table := Mark(s.table, id))
    case DoRemove(id) => s.(table := Remove(s.table, id))
  }

  function After(max: int, steps: seq<Step>): State {
    if steps == [] then Init(max) else Apply(After(max, Front(steps)), Last(steps))
  }

  predicate Legal(max: int, steps: seq<Step>) {
    steps != [] ==> Legal(max, Front(steps)) && Enabled(After(max, Front(steps)), Last(steps))
  }

  // --- what every reachable state keeps ------------------------------------------------

  /** One of the first `n` ids. */
  ghost predicate Issued(n: nat, id: string) {
    exists k: nat :: k <= n && id == RunId(k)
  }

  /** `order` lists each retained run once, and every report carries its own key. */
  ghost predicate TableOk(t: Table) {
    && t.max >= 1
    && Distinct(t.order) && (forall id :: id in t.order <==> id in t.runs)
    && (forall id | id in t.runs :: t.runs[id].id == id)
  }

  /** Every id in use was issued, and one reserved is in use nowhere else. */
  ghost predicate IdsOk(s: State) {
    && (forall id | id in s.table.runs || id in s.pending || id in s.uncollected :: Issued(s.table.nextID, id))
    && s.pending !! s.table.runs.Keys && s.pending !! s.uncollected
  }

  /** Counters, findings and verdict stand at zero until the walk is collected; then `ok` means no failure. */
  ghost predicate WellSettled(r: Report, uncollected: bool) {
    && (uncollected <==> r.completedAt.None?)
    && (uncollected ==> r.claimsChecked == 0 && r.failures == [] && !r.ok && r.status in {Running, Stopped})
    && (!uncollected ==> r.status != Running && (r.ok <==> r.failures == []))
  }

  ghost predicate RunsOk(s: State) {
    forall id | id in s.table.runs :: WellSettled(s.table.runs[id], id in s.uncollected)
  }

  /** What was launched is pending, and a walk going on was launched and is not yet collected. */
  ghost predicate WalksOk(s: State) {
    s.launched <= s.pending && s.walking <= s.launched + s.uncollected
  }

  ghost predicate Inv(s: State) {
    TableOk(s.table) && IdsOk(s) && RunsOk(s) && WalksOk(s)
  }

  lemma IssuedLater(m: nat, n: nat, id: string)
    requires Issued(m, id) && m <= n
    ensures Issued(n, id)
  {
    var k: nat :| k <= m && id == RunId(k);
    assert k <= n;
  }

  lemma NextIsNew(n: nat)
    ensures !Issued(n, RunId(n + 1)) && Issued(n + 1, RunId(n + 1))
  {
    if Issued(n, RunId(n + 1)) {
      var k: nat :| k <= n && RunId(n + 1) == RunId(k);
      RunIdInjective(k, n + 1);
    }
    assert n + 1 <= n + 1;
  }

  lemma {:induction false} StepKeepsTable(s: State, step: Step)
    requires Inv(s) && Enabled(s, step)
    ensures TableOk(Apply(s, step).table)
  {
    match step
    case DoRegister(id, _, _, _) =>
      assert id !in s.table.order;
    case DoRemove(id) =>
      WithoutMeans(s.table.order, id);
    case _ =>
  }

  lemma {:induction false} StepKeepsIds(s: State, step: Step)
    requires Inv(s) && Enabled(s, step)
    ensures IdsOk(Apply(s, step))
  {
    if step.DoReserve? {
      ReserveKeepsIds(s);
    }
  }

  lemma {:induction false} ReserveKeepsIds(s: State)
    requires IdsOk(s)
    ensures IdsOk(Apply(s, DoReserve))
  {
    var n := s.table.nextID;
    NextIsNew(n);
    forall id | Issued(n, id) ensures Issued(n + 1, id) { IssuedLater(n, n + 1, id); }
  }

  /** An issued id that no start has reserved is never reserved again. */
  lemma {:induction false} StepKeepsIssued(s: State, step: Step, id: string)
    requires Issued(s.table.nextID, id) && id !in s.pending
    ensures Issued(Apply(s, step).table.nextID, id) && id !in Apply(s, step).pending
  {
    var n := s.table.nextID;
    NextIsNew(n);
    IssuedLater(n, n + 1, id);
  }

  lemma {:induction false} StepKeepsRuns(s: State, step: Step)
    requires Inv(s) && Enabled(s, step)
    ensures RunsOk(Apply(s, step))
  {
    var t := Apply(s, step);
    forall id | id in t.table.runs ensures WellSettled(t.table.runs[id], id in t.uncollected) {
      if id in s.table.runs {
        assert WellSettled(s.table.runs[id], id in s.uncollected);
      }
    }
  }

  lemma {:induction false} StepKeepsInv(s: State, step: Step)
    requires Inv(s) && Enabled(s, step)
    ensures Inv(Apply(s, step))
  {
    StepKeepsTable(s, step);
    StepKeepsIds(s, step);
    StepKeepsRuns(s, step);
    assert WalksOk(Apply(s, step));
  }

  lemma {:induction false} ReachableInv(max: int, steps: seq<Step>)
    requires Legal(max, steps)
    ensures Inv(After(max, steps))
  {
    if steps != [] {
      ReachableInv(max, Front(steps));
      StepKeepsInv(After(max, Front(steps)), Last(steps));
    }
  }
}
