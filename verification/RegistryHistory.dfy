/** What holds over every interleaving of the registry's steps, read off the history alone. */
module RegistryHistory {
  import opened Bytes
  import opened Lists
  import opened Registry

  lemma Extended(max: int, steps: seq<Step>, step: Step)
    ensures Front(steps + [step]) == steps && Last(steps + [step]) == step
    ensures After(max, steps + [step]) == Apply(After(max, steps), step)
    ensures Legal(max, steps + [step]) <==> Legal(max, steps) && Enabled(After(max, steps), step)
  {
    assert (steps + [step])[..|steps|] == steps;
  }

  function Cap(max: int): nat {
    if max <= 0 then 1 else max
  }

  // --- the cap ---------------------------------------------------------------------

  /** At no point were more than `p` starts between their check and their registration. */
  ghost predicate AtMostPending(max: int, steps: seq<Step>, p: nat) {
    forall k | 0 <= k <= |steps| :: |After(max, steps[..k]).pending| <= p
  }

  function Active(s: State): nat {
    |RunningIds(s.table.runs)|
  }

  lemma SmallerRunning(a: map<string, Report>, b: map<string, Report>)
    requires RunningIds(a) <= RunningIds(b)
    ensures |RunningIds(a)| <= |RunningIds(b)|
  {
    assert RunningIds(b) == RunningIds(a) + (RunningIds(b) - RunningIds(a));
  }

  lemma RunningInsert(runs: map<string, Report>, id: string, r: Report)
    requires id !in runs && r.status == Running
    ensures RunningIds(runs[id := r]) == RunningIds(runs) + {id}
  {
    forall k ensures k in RunningIds(runs[id := r]) <==> k in RunningIds(runs) + {id} {
    }
  }

  /** A registration moves one id from the pending to the running. */
  lemma {:induction false} RegisterMoves(s: State, id: string, config: Config, head: string, at: int)
    requires id in s.pending && id !in s.table.runs
    ensures var t := Apply(s, DoRegister(id, config, head, at));
            Active(t) == Active(s) + 1 && |t.pending| == |s.pending| - 1
  {
    var t := Apply(s, DoRegister(id, config, head, at));
    assert s.pending == t.pending + {id};
    RunningInsert(s.table.runs, id, NewReport(id, config, head, at));
    assert id !in RunningIds(s.table.runs);
  }

  lemma {:induction false} OthersShrink(s: State, step: Step)
    requires !step.DoReserve? && !step.DoAbandon? && !step.DoRegister?
    ensures Active(Apply(s, step)) <= Active(s) && Apply(s, step).pending == s.pending
  {
    SmallerRunning(Apply(s, step).table.runs, s.table.runs);
  }

  lemma {:induction false} StepKeepsBound(s: State, step: Step, p: nat)
    requires IdsOk(s) && Enabled(s, step)
    requires Active(s) + |s.pending| <= s.table.max - 1 + p && |Apply(s, step).pending| <= p
    ensures Active(Apply(s, step)) + |Apply(s, step).pending| <= s.table.max - 1 + p
            && Apply(s, step).table.max == s.table.max
  {
    match step
    case DoReserve =>
      ReserveKeepsBound(s, p);
    case DoAbandon(id) =>
      assert s.pending == Apply(s, step).pending + {id};
    case DoRegister(id, config, head, at) =>
      RegisterMoves(s, id, config, head, at);
    case _ =>
      OthersShrink(s, step);
  }

  lemma ReserveKeepsBound(s: State, p: nat)
    requires Active(s) + |s.pending| <= s.table.max - 1 + p && |Apply(s, DoReserve).pending| <= p
    ensures var t := Apply(s, DoReserve);
            Active(t) + |t.pending| <= s.table.max - 1 + p && t.table.max == s.table.max
  {
  }

  /** The exact bound: runs and pending starts together stay within the cap but for the starts that overlap. */
  lemma {:induction false} ActiveIsBounded(max: int, steps: seq<Step>, p: nat)
    requires Legal(max, steps) && AtMostPending(max, steps, p)
    ensures Active(After(max, steps)) + |After(max, steps).pending| <= Cap(max) - 1 + p
    ensures After(max, steps).table.max == Cap(max)
  {
    if steps == [] {
      assert RunningIds(After(max, []).table.runs) == {};
    } else {
      forall k | 0 <= k < |steps| ensures |After(max, Front(steps)[..k]).pending| <= p {
        assert Front(steps)[..k] == steps[..k];
      }
      ActiveIsBounded(max, Front(steps), p);
      ReachableInv(max, Front(steps));
      assert steps[..|steps|] == steps;
      StepKeepsBound(After(max, Front(steps)), Last(steps), p);
    }
  }

  /** The documented cap, for starts that never overlap. */
  lemma OneStartAtATimeKeepsTheCap(max: int, steps: seq<Step>)
    requires Legal(max, steps) && AtMostPending(max, steps, 1)
    ensures Active(After(max, steps)) <= Cap(max)
  {
    ActiveIsBounded(max, steps, 1);
  }

  lemma {:induction false} PendingExtended(max: int, steps: seq<Step>, step: Step, p: nat)
    requires AtMostPending(max, steps, p) && |Apply(After(max, steps), step).pending| <= p
    ensures AtMostPending(max, steps + [step], p)
  {
    Extended(max, steps, step);
    forall k | 0 <= k <= |steps + [step]| ensures |After(max, (steps + [step])[..k]).pending| <= p {
      if k <= |steps| {
        assert (steps + [step])[..k] == steps[..k];
      } else {
        assert (steps + [step])[..k] == steps + [step];
      }
    }
  }

  const SOME_CONFIG: Config := Config("$archive", "completeness", "")

  /** A history that fills `k` slots one start after the other, every walk having ended uncollected. */
  lemma {:induction false} FillSlots(max: int, k: nat) returns (steps: seq<Step>)
    requires k <= Cap(max)
    ensures Legal(max, steps) && AtMostPending(max, steps, 1)
    ensures Active(After(max, steps)) == k && After(max, steps).pending == {}
    ensures After(max, steps).walking == {}
  {
    if k == 0 {
      steps := [];
      assert RunningIds(After(max, []).table.runs) == {};
    } else {
      var before := FillSlots(max, k - 1);
      ActiveIsBounded(max, before, 1);
      steps := ReserveOne(max, before, 1);
      var id := RunId(After(max, before).table.nextID + 1);
      steps := RegisterOne(max, steps, id, 1);
      steps := EndOne(max, steps, id, 1);
    }
  }

  /** One more start passes its check. */
  lemma {:induction false} ReserveOne(max: int, steps: seq<Step>, p: nat) returns (longer: seq<Step>)
    requires Legal(max, steps) && AtMostPending(max, steps, p) && |After(max, steps).pending| < p
    requires Active(After(max, steps)) < Cap(max)
    ensures longer == steps + [DoReserve] && Legal(max, longer) && AtMostPending(max, longer, p)
    ensures var s, t, id := After(max, steps), After(max, longer), RunId(After(max, steps).table.nextID + 1);
            && id !in s.pending && id !in s.launched
            && t == s.(table := s.table.(nextID := s.table.nextID + 1), pending := s.pending + {id})
  {
    longer := steps + [DoReserve];
    ActiveIsBounded(max, steps, p);
    ReachableInv(max, steps);
    NextIsNew(After(max, steps).table.nextID);
    Extended(max, steps, DoReserve);
    PendingExtended(max, steps, DoReserve, p);
  }

  /** A pending start launches its walk. */
  lemma {:induction false} LaunchOne(max: int, steps: seq<Step>, id: string, p: nat) returns (longer: seq<Step>)
    requires Legal(max, steps) && AtMostPending(max, steps, p)
    requires id in After(max, steps).pending && id !in After(max, steps).launched
    ensures longer == steps + [DoLaunch(id)] && Legal(max, longer) && AtMostPending(max, longer, p)
    ensures After(max, longer) == Apply(After(max, steps), DoLaunch(id)) && id !in After(max, steps).walking
  {
    longer := steps + [DoLaunch(id)];
    ReachableInv(max, steps);
    Extended(max, steps, DoLaunch(id));
    assert steps[..|steps|] == steps;
    PendingExtended(max, steps, DoLaunch(id), p);
  }

  /** A pending start launches its walk and registers. */
  lemma {:induction false} RegisterOne(max: int, steps: seq<Step>, id: string, p: nat) returns (longer: seq<Step>)
    requires Legal(max, steps) && AtMostPending(max, steps, p)
    requires id in After(max, steps).pending && id !in After(max, steps).launched
    ensures Legal(max, longer) && AtMostPending(max, longer, p)
    ensures After(max, longer).pending == After(max, steps).pending - {id}
    ensures After(max, longer).launched == After(max, steps).launched
    ensures Active(After(max, longer)) == Active(After(max, steps)) + 1
    ensures After(max, longer).walking == After(max, steps).walking + {id} && id !in After(max, steps).walking
    ensures id in After(max, longer).table.runs && After(max, longer).table.runs[id].status == Running
  {
    var launched := LaunchOne(max, steps, id, p);
    var step := DoRegister(id, SOME_CONFIG, "", 0);
    longer := launched + [step];
    var s := After(max, launched);
    assert IdsOk(s) by { ReachableInv(max, launched); }
    Extended(max, launched, step);
    RegisterMoves(s, id, SOME_CONFIG, "", 0);
    assert launched[..|launched|] == launched;
    PendingExtended(max, launched, step, p);
  }

  /** A walk comes to its end. */
  lemma {:induction false} EndOne(max: int, steps: seq<Step>, id: string, p: nat) returns (longer: seq<Step>)
    requires Legal(max, steps) && AtMostPending(max, steps, p) && id in After(max, steps).walking
    ensures longer == steps + [DoEnd(id)] && Legal(max, longer) && AtMostPending(max, longer, p)
    ensures After(max, longer) == Apply(After(max, steps), DoEnd(id))
  {
    longer := steps + [DoEnd(id)];
    Extended(max, steps, DoEnd(id));
    assert steps[..|steps|] == steps;
    PendingExtended(max, steps, DoEnd(id), p);
  }

  /** A running run is marked stopped. */
  lemma {:induction false} MarkOne(max: int, steps: seq<Step>, id: string, p: nat) returns (longer: seq<Step>)
    requires Legal(max, steps) && AtMostPending(max, steps, p)
    requires id in After(max, steps).table.runs && After(max, steps).table.runs[id].status == Running
    ensures longer == steps + [DoMark(id)] && Legal(max, longer) && AtMostPending(max, longer, p)
    ensures var s, t := After(max, steps), After(max, longer);
            && t == s.(table := Mark(s.table, id)) && Active(t) == Active(s) - 1
  {
    longer := steps + [DoMark(id)];
    Extended(max, steps, DoMark(id));
    var s, t := After(max, steps), After(max, longer);
    assert steps[..|steps|] == steps;
    PendingExtended(max, steps, DoMark(id), p);
    assert RunningIds(s.table.runs) == RunningIds(t.table.runs) + {id};
  }

  lemma {:induction false} ReserveMany(max: int, steps: seq<Step>, j: nat, p: nat) returns (longer: seq<Step>)
    requires Legal(max, steps) && AtMostPending(max, steps, p)
    requires |After(max, steps).pending| + j <= p && Active(After(max, steps)) < Cap(max)
    ensures Legal(max, longer) && AtMostPending(max, longer, p)
    ensures After(max, longer).table.runs == After(max, steps).table.runs
    ensures |After(max, longer).pending| == |After(max, steps).pending| + j
    ensures After(max, longer).launched == After(max, steps).launched
    decreases j
  {
    longer := steps;
    if j > 0 {
      longer := ReserveOne(max, steps, p);
      longer := ReserveMany(max, longer, j - 1, p);
    }
  }

  lemma {:induction false} RegisterAll(max: int, steps: seq<Step>, p: nat) returns (longer: seq<Step>)
    requires Legal(max, steps) && AtMostPending(max, steps, p) && After(max, steps).launched == {}
    ensures Legal(max, longer) && AtMostPending(max, longer, p)
    ensures Active(After(max, longer)) == Active(After(max, steps)) + |After(max, steps).pending|
    decreases |After(max, steps).pending|
  {
    longer := steps;
    if After(max, steps).pending != {} {
      var id :| id in After(max, steps).pending;
      longer := RegisterOne(max, steps, id, p);
      assert After(max, steps).pending == After(max, longer).pending + {id};
      longer := RegisterAll(max, longer, p);
    }
  }

  /** The bound is met for every cap and every overlap: `p` starts that all passed the check all run. */
  lemma {:induction false} TheBoundIsReached(max: int, p: nat) returns (steps: seq<Step>)
    requires p >= 1
    ensures Legal(max, steps) && AtMostPending(max, steps, p)
    ensures Active(After(max, steps)) == Cap(max) - 1 + p
  {
    var filled := FillSlots(max, Cap(max) - 1);
    assert forall k | 0 <= k <= |filled| :: |After(max, filled[..k]).pending| <= 1 ==>
                                              |After(max, filled[..k]).pending| <= p;
    ReachableInv(max, filled);
    steps := ReserveMany(max, filled, p, p);
    steps := RegisterAll(max, steps, p);
  }

  // --- walks against active runs -----------------------------------------------------------

  /** Walks going on that `active` does not count: the start has yet to register, or the run is removed or stopped. */
  ghost function Missed(s: State): set<string> {
    set id | id in s.walking &&
             (id in s.launched || id !in s.table.runs || s.table.runs[id].status == Stopped)
  }

  /** Runs it counts whose walk has ended: retained, not stopped, and yet to be collected. */
  ghost function Overcounted(s: State): set<string> {
    set id | id in s.uncollected && id !in s.walking && id in s.table.runs && s.table.runs[id].status != Stopped
  }

  /**
   `active` counts by status, not by walk. The walks it misses and the runs it counts for no
   walk are exactly these, so it counts the walks going on exactly when there are none of either.
   */
  lemma ActiveAgainstWalking(max: int, steps: seq<Step>)
    requires Legal(max, steps)
    ensures var s := After(max, steps);
            && s.walking - RunningIds(s.table.runs) == Missed(s)
            && RunningIds(s.table.runs) - s.walking == Overcounted(s)
            && (RunningIds(s.table.runs) == s.walking <==> Missed(s) == {} && Overcounted(s) == {})
  {
    ReachableInv(max, steps);
    var s := After(max, steps);
    var running := RunningIds(s.table.runs);
    forall id | id in s.table.runs
      ensures id in running ==> id in s.uncollected && id !in s.launched
      ensures id in s.uncollected ==> s.table.runs[id].status in {Running, Stopped}
    {
      assert WellSettled(s.table.runs[id], id in s.uncollected);
    }
    assert s.walking - running == Missed(s);
    assert running - s.walking == Overcounted(s);
  }

  /** A start that has launched its walk and not registered is walking, and nothing counts it. */
  lemma AStartWalksUncounted(max: int)
    ensures var steps := [DoReserve, DoLaunch(RunId(1))];
            var s := After(max, steps);
            && Legal(max, steps) && s.walking == {RunId(1)} == Missed(s) && Active(s) == 0
  {
    var one, two := [DoReserve], [DoReserve, DoLaunch(RunId(1))];
    assert [] + one == one && one + [DoLaunch(RunId(1))] == two;
    assert RunningIds(After(max, []).table.runs) == {};
    Extended(max, [], DoReserve);
    Extended(max, one, DoLaunch(RunId(1)));
  }

  /** A start is refused at a full cap although nothing walks: the ended walks are still to be collected. */
  lemma {:induction false} ABusyRegistryMayWalkNothing(max: int) returns (steps: seq<Step>)
    ensures Legal(max, steps) && After(max, steps).walking == {}
    ensures Reserve(After(max, steps).table).1 == None
  {
    steps := FillSlots(max, Cap(max));
    ActiveIsBounded(max, steps, 1);
  }

  /** Nor does the cap bound the walks: stopping frees the slot at once, whatever the walk still does. */
  lemma {:induction false} WalksAreUnbounded(max: int, n: nat) returns (steps: seq<Step>)
    ensures Legal(max, steps) && AtMostPending(max, steps, 1)
    ensures |After(max, steps).walking| == n && Active(After(max, steps)) == 0 && After(max, steps).pending == {}
  {
    if n == 0 {
      steps := [];
      assert RunningIds(After(max, []).table.runs) == {};
    } else {
      var before := WalksAreUnbounded(max, n - 1);
      var id := RunId(After(max, before).table.nextID + 1);
      steps := ReserveOne(max, before, 1);
      steps := RegisterOne(max, steps, id, 1);
      steps := MarkOne(max, steps, id, 1);
    }
  }

  // --- a run's report is a function of its history -----------------------------------------

  function Registration(steps: seq<Step>, id: string): Option<Step> {
    if steps == [] then None
    else
      var before := Registration(Front(steps), id);
      if before.Some? then before
      else if Last(steps).DoRegister? && Last(steps).id == id then Some(Last(steps)) else None
  }

  function Collection(steps: seq<Step>, id: string): Option<Step> {
    if steps == [] then None
    else
      var before := Collection(Front(steps), id);
      if before.Some? then before
      else if Last(steps).DoCollect? && Last(steps).id == id then Some(Last(steps)) else None
  }

  /** The first stop mark or collection after the run was registered. */
  function Settling(steps: seq<Step>, id: string): Option<Step> {
    if steps == [] then None
    else
      var before := Settling(Front(steps), id);
      if before.Some? then before
      else if Registration(Front(steps), id).Some? && (Last(steps).DoMark? || Last(steps).DoCollect?)
              && Last(steps).id == id then
        Some(Last(steps))
      else None
  }

  /** Stopped when the mark came first, else as the walk ended, else still running. */
  function StatusBy(settling: Option<Step>): Status {
    match settling
    case Some(DoMark(_)) => Stopped
    case Some(DoCollect(_, o, _)) => if o.failed then Error else Complete
    case _ => Running
  }

  /** The report as the history tells it. */
  function Told(steps: seq<Step>, id: string): Report
    requires Registration(steps, id).Some? && Registration(steps, id).value.DoRegister?
  {
    var r := Registration(steps, id).value;
    var initial := NewReport(id, r.config, r.head, r.at);
    var found := match Collection(steps, id) {
      case Some(DoCollect(_, o, at)) => Absorb(initial, o).(completedAt := Some(at))
      case _ => initial
    };
    found.(status := StatusBy(Settling(steps, id)))
  }

  lemma {:induction false} RegistrationRegisters(steps: seq<Step>, id: string)
    ensures Registration(steps, id).Some? ==> Registration(steps, id).value.DoRegister?
    ensures Collection(steps, id).Some? ==> Collection(steps, id).value.DoCollect?
  {
    if steps != [] {
      RegistrationRegisters(Front(steps), id);
    }
  }

  /** An id registers once: from then on it is issued and reserved by no start. */
  lemma {:induction false} RegisteredOnce(max: int, steps: seq<Step>, id: string)
    requires Legal(max, steps)
    ensures Registration(steps, id).Some? ==>
              Issued(After(max, steps).table.nextID, id) && id !in After(max, steps).pending
  {
    if steps != [] {
      var before := Front(steps);
      RegisteredOnce(max, before, id);
      var s := After(max, before);
      assert IdsOk(s) by { ReachableInv(max, before); }
      if Registration(before, id).Some? {
        StepKeepsIssued(s, Last(steps), id);
      }
    }
  }

  lemma {:induction false} InUseWasRegistered(max: int, steps: seq<Step>, id: string)
    requires Legal(max, steps)
    ensures id in After(max, steps).table.runs || id in After(max, steps).uncollected ==> Registration(steps, id).Some?
  {
    if steps != [] {
      InUseWasRegistered(max, Front(steps), id);
    }
  }

  /** A walk is collected once. */
  lemma {:induction false} CollectedOnce(max: int, steps: seq<Step>, id: string)
    requires Legal(max, steps)
    ensures Collection(steps, id).Some? ==> Registration(steps, id).Some? && id !in After(max, steps).uncollected
  {
    if steps != [] {
      var before := Front(steps);
      CollectedOnce(max, before, id);
      RegisteredOnce(max, before, id);
      InUseWasRegistered(max, before, id);
    }
  }

  lemma {:induction false} SettlingSettles(steps: seq<Step>, id: string)
    ensures Settling(steps, id).Some? ==>
              (Settling(steps, id).value.DoMark? || Settling(steps, id).value.DoCollect?)
              && Registration(steps, id).Some?
  {
    if steps != [] {
      SettlingSettles(Front(steps), id);
    }
  }

  /** What one step does to a run that is there before and after it. */
  function StepReport(r: Report, step: Step): Report {
    match step
    case DoCollect(id, o, at) => if id == r.id then Settle(r, o, at) else r
    case DoMark(id) => if id == r.id && r.status == Running then r.(status := Stopped) else r
    case _ => r
  }

  lemma {:induction false} ApplyOnRun(s: State, step: Step, id: string)
    requires TableOk(s.table) && IdsOk(s) && Enabled(s, step)
    requires id in s.table.runs && id in Apply(s, step).table.runs
    ensures Apply(s, step).table.runs[id] == StepReport(s.table.runs[id], step)
  {
  }

  lemma {:induction false} ToldStep(steps: seq<Step>, id: string)
    requires steps != [] && Registration(Front(steps), id).Some?
    requires Last(steps).DoCollect? && Last(steps).id == id ==> Collection(Front(steps), id).None?
    ensures Registration(steps, id) == Registration(Front(steps), id) && Registration(steps, id).value.DoRegister?
    ensures Told(steps, id) == StepReport(Told(Front(steps), id), Last(steps))
  {
    RegistrationRegisters(Front(steps), id);
    SettlingSettles(Front(steps), id);
  }

  /** Every retained report is what its history tells: status by the first settling step, findings by the collection. */
  lemma {:induction false} ReportIsTold(max: int, steps: seq<Step>, id: string)
    requires Legal(max, steps) && id in After(max, steps).table.runs
    ensures Registration(steps, id).Some? && Registration(steps, id).value.DoRegister?
    ensures After(max, steps).table.runs[id] == Told(steps, id)
  {
    var before := Front(steps);
    var s := After(max, before);
    assert TableOk(s.table) && IdsOk(s) by { ReachableInv(max, before); }
    InUseWasRegistered(max, steps, id);
    if id in s.table.runs {
      ReportIsTold(max, before, id);
      CollectedOnce(max, before, id);
      ApplyOnRun(s, Last(steps), id);
      ToldStep(steps, id);
    } else {
      assert Last(steps).DoRegister? && Last(steps).id == id;
      RegisteredOnce(max, before, id);
      CollectedOnce(max, before, id);
      SettlingSettles(before, id);
    }
  }

  lemma {:induction false} CollectedBy(max: int, steps: seq<Step>, id: string, o: Outcome, at: int)
    requires Legal(max, steps) && DoCollect(id, o, at) in steps
    ensures Collection(steps, id) == Some(DoCollect(id, o, at))
  {
    var before := Front(steps);
    assert steps == before + [Last(steps)];
    if DoCollect(id, o, at) in before {
      CollectedBy(max, before, id, o, at);
    } else {
      CollectedOnce(max, before, id);
    }
  }

  lemma {:induction false} RegisteredBy(max: int, steps: seq<Step>, id: string, config: Config, head: string, at: int)
    requires Legal(max, steps) && DoRegister(id, config, head, at) in steps
    ensures Registration(steps, id) == Some(DoRegister(id, config, head, at))
  {
    var before := Front(steps);
    assert steps == before + [Last(steps)];
    if DoRegister(id, config, head, at) in before {
      RegisteredBy(max, before, id, config, head, at);
    } else {
      RegisteredOnce(max, before, id);
    }
  }

  lemma {:induction false} FailuresAre(config: Config, findings: seq<Finding>, k: nat)
    requires k < |findings|
    ensures var f := Failures(config, findings)[k];
            && f.id == (match findings[k].id case Some(id) => id case None => "")
            && f.layer == config.layer
            && f.detail == (match findings[k].error case Some(error) => error case None => "")
  {
    if k > 0 {
      FailuresAre(config, findings[1..], k - 1);
    }
  }

  /** A collected run's report tells what its walk's handle showed, finding by finding. */
  lemma CollectedReportTells(max: int, steps: seq<Step>, id: string, o: Outcome, at: int)
    requires Legal(max, steps) && DoCollect(id, o, at) in steps && id in After(max, steps).table.runs
    ensures var r := After(max, steps).table.runs[id];
            && r.claimsChecked == o.verified && r.completedAt == Some(at)
            && (r.ok <==> o.findings == []) && |r.failures| == |o.findings|
            && forall k | 0 <= k < |o.findings| ::
                 && r.failures[k].id == (match o.findings[k].id case Some(i) => i case None => "")
                 && r.failures[k].layer == r.config.layer
                 && r.failures[k].detail == (match o.findings[k].error case Some(e) => e case None => "")
  {
    ReportIsTold(max, steps, id);
    CollectedBy(max, steps, id, o, at);
    var r := After(max, steps).table.runs[id];
    forall k | 0 <= k < |o.findings|
      ensures r.failures[k].id == (match o.findings[k].id case Some(i) => i case None => "")
      ensures r.failures[k].layer == r.config.layer
      ensures r.failures[k].detail == (match o.findings[k].error case Some(e) => e case None => "")
    {
      FailuresAre(r.config, o.findings, k);
    }
  }

  /**
   Its configuration, head and start are those it was registered with, and until it is collected it
   tells of nothing found.
   */
  lemma RegisteredReportTells(max: int, steps: seq<Step>, id: string, config: Config, head: string, at: int)
    requires Legal(max, steps) && DoRegister(id, config, head, at) in steps && id in After(max, steps).table.runs
    ensures var r := After(max, steps).table.runs[id];
            && r.id == id && r.config == config && r.head == head && r.startedAt == at
            && (Collection(steps, id).None? ==>
                  r.claimsChecked == 0 && r.failures == [] && !r.ok && r.completedAt.None?)
  {
    ReportIsTold(max, steps, id);
    RegisteredBy(max, steps, id, config, head, at);
    RegistrationRegisters(steps, id);
  }

  lemma {:induction false} SettlingStays(steps: seq<Step>, more: seq<Step>, id: string)
    requires Settling(steps, id).Some?
    ensures Settling(steps + more, id) == Settling(steps, id)
  {
    if more == [] {
      assert steps + more == steps;
    } else {
      SettlingStays(steps, Front(more), id);
      assert Front(steps + more) == steps + Front(more);
    }
  }

  lemma {:induction false} LegalPrefix(max: int, steps: seq<Step>, more: seq<Step>)
    requires Legal(max, steps + more)
    ensures Legal(max, steps)
  {
    if more == [] {
      assert steps + more == steps;
    } else {
      assert Front(steps + more) == steps + Front(more);
      LegalPrefix(max, steps, Front(more));
    }
  }

  /** A report leaves `Running` at most once and keeps the status it left for. */
  lemma StatusIsFinal(max: int, steps: seq<Step>, more: seq<Step>, id: string)
    requires Legal(max, steps + more)
    requires id in After(max, steps).table.runs && id in After(max, steps + more).table.runs
    requires After(max, steps).table.runs[id].status != Running
    ensures After(max, steps + more).table.runs[id].status == After(max, steps).table.runs[id].status
  {
    LegalPrefix(max, steps, more);
    ReportIsTold(max, steps, id);
    ReportIsTold(max, steps + more, id);
    SettlingStays(steps, more, id);
  }

  // --- removal and order --------------------------------------------------------------------

  /** Issued, in no table and reserved by no start: what an id is after its run was removed. */
  ghost predicate Gone(s: State, id: string) {
    Issued(s.table.nextID, id) && id !in s.table.runs && id !in s.pending
  }

  lemma {:induction false} GoneStaysGone(max: int, steps: seq<Step>, more: seq<Step>, id: string)
    requires Legal(max, steps + more) && Gone(After(max, steps), id)
    ensures Gone(After(max, steps + more), id)
  {
    if more == [] {
      assert steps + more == steps;
    } else {
      var before := steps + Front(more);
      assert Front(steps + more) == before;
      GoneStaysGone(max, steps, Front(more), id);
      StepKeepsIssued(After(max, before), Last(more), id);
    }
  }

  /** A removed run never comes back, not even when its walk ends later. */
  lemma RemovedForGood(max: int, steps: seq<Step>, id: string, more: seq<Step>)
    requires Legal(max, steps + [DoRemove(id)] + more) && id in After(max, steps).table.runs
    ensures id !in After(max, steps + [DoRemove(id)] + more).table.runs
  {
    LegalPrefix(max, steps + [DoRemove(id)], more);
    Extended(max, steps, DoRemove(id));
    ReachableInv(max, steps);
    GoneStaysGone(max, steps + [DoRemove(id)], more, id);
  }

  // --- a stop and what comes between its two reads -------------------------------------------

  lemma {:induction false} RegistrationStays(steps: seq<Step>, more: seq<Step>, id: string)
    requires Registration(steps, id).Some?
    ensures Registration(steps + more, id) == Registration(steps, id)
  {
    if more == [] {
      assert steps + more == steps;
    } else {
      RegistrationStays(steps, Front(more), id);
      assert Front(steps + more) == steps + Front(more);
    }
  }

  /** What becomes of a report marked stopped: the findings are in if the walk has been collected. */
  function Halted(was: Report, collection: Option<Step>): Report {
    match collection
    case Some(DoCollect(_, o, at)) => Absorb(was, o).(completedAt := Some(at), status := Stopped)
    case _ => was.(status := Stopped)
  }

  /**
   A stop that marked a run drops the lock, cancels and reads again. Whatever comes in between,
   it answers not found exactly when the run was removed, and otherwise with its report stopped.
   */
  lemma {:induction false} StopAnswers(max: int, steps: seq<Step>, id: string, more: seq<Step>)
    requires Legal(max, steps + [DoMark(id)] + more) && id in RunningIds(After(max, steps).table.runs)
    ensures Lookup(After(max, steps + [DoMark(id)] + more).table, id)
         == if DoRemove(id) in more then Err(NotFound)
            else Ok(Halted(After(max, steps).table.runs[id], Collection(more, id)))
  {
    var marked := steps + [DoMark(id)];
    Extended(max, steps, DoMark(id));
    if more == [] {
      assert marked + more == marked;
    } else {
      var before := marked + Front(more);
      assert Front(marked + more) == before && more == Front(more) + [Last(more)];
      StopAnswers(max, steps, id, Front(more));
      assert steps + ([DoMark(id)] + Front(more)) == before;
      LegalPrefix(max, steps, [DoMark(id)] + Front(more));
      InUseWasRegistered(max, steps, id);
      RegistrationStays(steps, [DoMark(id)] + Front(more), id);
      RegisteredOnce(max, before, id);
      RegistrationRegisters(Front(more), id);
      ReachableInv(max, before);
      StopFurther(After(max, before), Last(more), id, After(max, steps).table.runs[id], Front(more));
    }
  }

  /** What a stop would answer, one step later. */
  lemma StopFurther(s: State, step: Step, id: string, was: Report, more: seq<Step>)
    requires RunsOk(s) && Enabled(s, step) && id !in s.pending
    requires Collection(more, id).Some? ==> Collection(more, id).value.DoCollect?
    requires Lookup(s.table, id) == if DoRemove(id) in more then Err(NotFound)
                                    else Ok(Halted(was, Collection(more, id)))
    ensures Lookup(Apply(s, step).table, id)
         == if DoRemove(id) in more + [step] then Err(NotFound) else Ok(Halted(was, Collection(more + [step], id)))
  {
    CollectionExtends(more, step, id);
    assert DoRemove(id) in more + [step] <==> DoRemove(id) in more || step == DoRemove(id);
    StopStep(s, step, id);
    if id in s.table.runs && step != DoRemove(id) {
      assert WellSettled(s.table.runs[id], id in s.uncollected);
      StillHalted(was, s.table.runs[id], Collection(more, id), step, id);
    }
  }

  lemma CollectionExtends(more: seq<Step>, step: Step, id: string)
    ensures Collection(more + [step], id)
         == if Collection(more, id).Some? then Collection(more, id)
            else if step.DoCollect? && step.id == id then Some(step) else None
  {
    assert Front(more + [step]) == more && Last(more + [step]) == step;
  }

  /** A halted report after one more step, a collection only if there was none. */
  lemma StillHalted(was: Report, now: Report, collection: Option<Step>, step: Step, id: string)
    requires (collection.Some? ==> collection.value.DoCollect?) && now == Halted(was, collection)
    requires step.DoCollect? && step.id == id ==> collection.None?
    ensures now.status == Stopped
    ensures (if step.DoCollect? && step.id == id then Settle(now, step.outcome, step.at) else now)
         == Halted(was, if collection.None? && step.DoCollect? && step.id == id then Some(step) else collection)
  {
  }

  /** One step at a run marked stopped, or at one removed. */
  lemma StopStep(s: State, step: Step, id: string)
    requires Enabled(s, step) && id !in s.pending
    ensures id !in s.table.runs ==> id !in Apply(s, step).table.runs
    ensures id in s.table.runs && step != DoRemove(id) ==>
              id in Apply(s, step).table.runs
              && (s.table.runs[id].status == Stopped ==>
                    Apply(s, step).table.runs[id]
                    == if step.DoCollect? && step.id == id then Settle(s.table.runs[id], step.outcome, step.at)
                    else s.table.runs[id])
    ensures step == DoRemove(id) ==> id !in Apply(s, step).table.runs
  {
  }

  function RegistrationOrder(steps: seq<Step>): seq<string> {
    if steps == [] then []
    else RegistrationOrder(Front(steps)) + (if Last(steps).DoRegister? then [Last(steps).id] else [])
  }

  function Kept(ids: seq<string>, keys: set<string>): seq<string> {
    if ids == [] then [] else (if ids[0] in keys then [ids[0]] else []) + Kept(ids[1..], keys)
  }

  lemma {:induction false} KeptOfMore(ids: seq<string>, id: string, keys: set<string>)
    requires id !in ids
    ensures Kept(ids + [id], keys + {id}) == Kept(ids, keys) + [id]
  {
    if ids == [] {
      assert [id][1..] == [];
    } else {
      assert (ids + [id])[1..] == ids[1..] + [id];
      KeptOfMore(ids[1..], id, keys);
      var rest := Kept(ids[1..], keys);
      assert [ids[0]] + (rest + [id]) == [ids[0]] + rest + [id];
      assert [] + (rest + [id]) == [] + rest + [id];
    }
  }

  lemma {:induction false} KeptOfFewer(ids: seq<string>, id: string, keys: set<string>)
    ensures Kept(ids, keys - {id}) == Without(Kept(ids, keys), id)
  {
    if ids != [] {
      KeptOfFewer(ids[1..], id, keys);
      var rest := Kept(ids[1..], keys);
      assert ([ids[0]] + rest)[1..] == rest;
      assert [] + rest == rest && [] + Without(rest, id) == Without(rest, id);
    }
  }

  lemma {:induction false} OrderedIsRegistered(steps: seq<Step>, id: string)
    ensures id in RegistrationOrder(steps) <==> Registration(steps, id).Some?
  {
    if steps != [] {
      OrderedIsRegistered(Front(steps), id);
    }
  }

  /** `order` is the order of registration over the retained runs, whatever was removed in between. */
  lemma {:induction false} OrderIsRegistrationOrder(max: int, steps: seq<Step>)
    requires Legal(max, steps)
    ensures var t := After(max, steps).table; t.order == Kept(RegistrationOrder(steps), t.runs.Keys)
  {
    if steps != [] {
      var before := Front(steps);
      var s, t := After(max, before), After(max, steps);
      OrderIsRegistrationOrder(max, before);
      assert RegistrationOrder(before) + [] == RegistrationOrder(before);
      match Last(steps)
      case DoRegister(id, _, _, _) =>
        RegisteredOnce(max, before, id);
        OrderedIsRegistered(before, id);
        KeptOfMore(RegistrationOrder(before), id, s.table.runs.Keys);
        assert t.table.runs.Keys == s.table.runs.Keys + {id};
      case DoRemove(id) =>
        KeptOfFewer(RegistrationOrder(before), id, s.table.runs.Keys);
        assert id in s.table.runs ==> t.table.runs.Keys == s.table.runs.Keys - {id};
      case _ =>
        assert t.table.runs.Keys == s.table.runs.Keys;
    }
  }

  /** The listing is that order reversed, one report a run. */
  lemma {:induction false} ListedIsReversed(t: Table)
    requires forall id | id in t.order :: id in t.runs
    ensures |Listed(t)| == |t.order|
    ensures forall i | 0 <= i < |t.order| :: Listed(t)[i] == t.runs[t.order[|t.order| - 1 - i]]
    decreases |t.order|
  {
    if t.order != [] {
      ListedIsReversed(t.(order := t.order[..|t.order| - 1]));
    }
  }
}
