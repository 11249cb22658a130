/** The registry itself: the fields the mutex guards, updated in place by one method a critical section. */
module RunRegistry {
  import opened Bytes
  import opened Lists
  import opened Registry
  import opened RegistryHistory

  /** Drops one id from the first `n` entries, preserving the rest, inside the array it is given. */
  method RemoveID(ids: array<string>, n: nat, id: string) returns (m: nat)
    requires n <= ids.Length
    modifies ids
    ensures m <= n && ids[..m] == Without(old(ids[..n]), id)
    ensures ids[n..] == old(ids[n..])
  {
    m := 0;
    var i := 0;
    ghost var all := ids[..n];
    assert all[0..] == all;
    while i < n
      invariant m <= i <= n
      invariant Compacted(all, id, i, ids[..m])
      invariant forall k | i <= k < ids.Length :: ids[k] == old(ids[k])
    {
      CompactOne(all, id, i, ids[..m]);
      assert ids[i] == old(ids[i]) == all[i];
      if ids[i] != id {
        ghost var kept := ids[..m];
        ids[m] := ids[i];
        m := m + 1;
        assert ids[..m] == kept + [all[i]];
      }
      i := i + 1;
    }
    assert ids[..m] + [] == ids[..m];
  }

  /** The entries kept of the first `i` and what the rest will keep are all that is to be kept. */
  ghost predicate Compacted(all: seq<string>, id: string, i: nat, kept: seq<string>)
    requires i <= |all|
  {
    kept + Without(all[i..], id) == Without(all, id)
  }

  lemma CompactOne(all: seq<string>, id: string, i: nat, kept: seq<string>)
    requires i < |all| && Compacted(all, id, i, kept)
    ensures Compacted(all, id, i + 1, if all[i] == id then kept else kept + [all[i]])
  {
    assert all[i..][1..] == all[i + 1..];
    var rest := Without(all[i + 1..], id);
    assert kept + ([all[i]] + rest) == (kept + [all[i]]) + rest;
    assert [] + rest == rest;
  }

  /** A roomier array that opens with the first `n` entries. */
  method Larger(ids: array<string>, n: nat) returns (larger: array<string>)
    requires n <= ids.Length
    ensures fresh(larger) && larger.Length == 2 * n + 1 && larger[..n] == ids[..n]
  {
    larger := new string[2 * n + 1];
    for i := 0 to n
      invariant larger[..i] == ids[..i]
    {
      larger[i] := ids[i];
    }
  }

  lemma RunningSeen(runs: map<string, Report>, keys: set<string>, id: string)
    requires id in keys && id in runs
    ensures RunningIds(runs) - (keys - {id})
         == if runs[id].status == Running then RunningIds(runs) - keys + {id} else RunningIds(runs) - keys
    ensures id !in RunningIds(runs) - keys
  {
    assert id in RunningIds(runs) <==> runs[id].status == Running;
  }

  datatype StartError = NoArchive | Busy | VerifyFailed

  /** The steps of another start than that of `id`, and of walks and operators. */
  predicate NotOf(id: string, steps: seq<Step>) {
    forall step | step in steps :: !step.DoReserve? && !step.DoMark? && !step.DoRemove? && !step.DoEnd? ==>
                                     step.id != id
  }

  class RunRegistry {
    var runs: map<string, Report>
    var order: array<string>
    var count: nat
    var nextID: nat
    const max: nat
    /** Every step taken so far, those outside the lock included. */
    ghost var history: seq<Step>

    ghost predicate Valid()
      reads this, order
    {
      && count <= order.Length
      && Legal(max, history) && After(max, history).table == Table(runs, order[..count], max, nextID)
    }

    /** What the lock guards, as a value. */
    ghost function Guarded(): Table
      reads this, order
      requires Valid()
    {
      Table(runs, order[..count], max, nextID)
    }

    constructor (max: int)
      ensures Valid() && fresh(order) && this.max == Cap(max) && history == []
    {
      runs, count, nextID := map[], 0, 0;
      order := new string[0];
      this.max := if max <= 0 then 1 else max;
      history := [];
    }

    /** How many runs are still marked running. */
    method Active() returns (n: nat)
      ensures n == |RunningIds(runs)|
    {
      n := 0;
      var keys := runs.Keys;
      ghost var seen: set<string> := {};
      while keys != {}
        invariant keys <= runs.Keys && seen == RunningIds(runs) - keys && n == |seen|
        decreases keys
      {
        var id :| id in keys;
        RunningSeen(runs, keys, id);
        if runs[id].status == Running {
          n := n + 1;
          seen := seen + {id};
        }
        keys := keys - {id};
      }
      assert seen == RunningIds(runs);
    }

    /** The first critical section of a start. */
    method ReserveID() returns (id: Option<string>)
      requires Valid()
      modifies this`nextID, this`history
      ensures Valid() && history == old(history) + [DoReserve]
      ensures (Guarded(), id) == Reserve(old(Guarded()))
    {
      Extended(max, history, DoReserve);
      history := history + [DoReserve];
      var active := Active();
      if active >= max {
        return None;
      }
      nextID := nextID + 1;
      id := Some(RunId(nextID));
    }

    /** The second: the id appended, into a larger array when this one is full. */
    method AddRun(report: Report)
      requires Valid() && Enabled(After(max, history),
                                  DoRegister(report.id, report.config, report.head, report.startedAt))
      requires report == NewReport(report.id, report.config, report.head, report.startedAt)
      modifies this`runs, this`order, this`count, this`history, order
      ensures Valid() && (order == old(order) || fresh(order))
      ensures history == old(history) + [DoRegister(report.id, report.config, report.head, report.startedAt)]
      ensures Guarded() == Register(old(Guarded()), report)
    {
      Extended(max, history, DoRegister(report.id, report.config, report.head, report.startedAt));
      history := history + [DoRegister(report.id, report.config, report.head, report.startedAt)];
      runs := runs[report.id := report];
      if count == order.Length {
        order := Larger(order, count);
      }
      order[count] := report.id;
      count := count + 1;
    }

    /** A step taken outside the lock: a walk launched, given up or ended. */
    ghost method Note(step: Step)
      requires Valid() && Enabled(After(max, history), step) && (step.DoLaunch? || step.DoAbandon? || step.DoEnd?)
      modifies this`history
      ensures Valid() && history == old(history) + [step] && Guarded() == old(Guarded())
    {
      Extended(max, history, step);
      history := history + [step];
    }

    /** One step of some other request, or of a walk. */
    method Play(step: Step)
      requires Valid() && Enabled(After(max, history), step)
      modifies this, order
      ensures Valid() && (order == old(order) || fresh(order)) && history == old(history) + [step]
    {
      match step {
        case DoReserve =>
          var id := ReserveID();
        case DoRegister(id, config, head, at) =>
          AddRun(NewReport(id, config, head, at));
        case DoCollect(id, o, at) =>
          CollectRun(id, o, at);
        case DoMark(id) =>
          var answer := MarkStopped(id);
        case DoRemove(id) =>
          var r := RemoveRun(id);
        case _ =>
          Note(step);
      }
    }

    /** What others do while a request holds no lock. */
    method Meanwhile(steps: seq<Step>)
      requires Valid() && Legal(max, history + steps)
      modifies this, order
      ensures Valid() && (order == old(order) || fresh(order)) && history == old(history) + steps
    {
      ghost var was, done := history, history;
      assert was + steps[..0] == was;
      for i := 0 to |steps|
        invariant Valid() && (order == old(order) || fresh(order)) && history == done && done == was + steps[..i]
      {
        done := NextLegal(max, was, steps, i, done);
        Play(steps[i]);
      }
      assert steps[..|steps|] == steps;
    }

    /**
     A start: refused, given up with its id spent, or registered. Others may do anything while
     its walk is about to be launched, and again until it is registered.
     */
    method Start(archive: bool, config: Config, head: string, verifies: bool, at: int, before: seq<Step>,
                 after: seq<Step>)
      returns (r: Result<Report, StartError>)
      requires Valid()
      requires archive && |RunningIds(runs)| < max ==>
                 && Legal(max, history + [DoReserve] + before) && NotOf(RunId(nextID + 1), before)
                 && (verifies ==> Legal(max, history + [DoReserve] + before + [DoLaunch(RunId(nextID + 1))] + after))
                 && NotOf(RunId(nextID + 1), after)
      modifies this, order
      ensures Valid() && (order == old(order) || fresh(order))
      ensures r == Err(NoArchive) <==> !archive
      ensures r == Err(Busy) <==> archive && |RunningIds(old(runs))| >= max
      ensures r == Err(NoArchive) ==> history == old(history)
      ensures r == Err(Busy) ==> history == old(history) + [DoReserve]
      ensures var id := RunId(old(nextID) + 1);
              && (r == Err(VerifyFailed) ==> history == old(history) + [DoReserve] + before + [DoAbandon(id)])
              && (r.Ok? ==>
                    history == old(history) + [DoReserve] + before + [DoLaunch(id)] + after
                    + [DoRegister(id, config, head, at)])
              && (r.Ok? ==> r.value == NewReport(id, config, head, at) && id in runs && runs[id] == r.value)
    {
      if !archive {
        return Err(NoArchive);
      }
      var id := ReserveID();
      if id.None? {
        return Err(Busy);
      }
      assert id.value in After(max, history).pending && id.value !in After(max, history).launched by {
        JustReserved(max, old(history), id.value);
      }
      Meanwhile(before);
      StaysPending(max, old(history) + [DoReserve], before, id.value);
      r := Launch(id.value, config, head, verifies, at, after);
    }

    /** The rest of a start once its id is reserved. */
    method Launch(id: string, config: Config, head: string, verifies: bool, at: int, after: seq<Step>)
      returns (r: Result<Report, StartError>)
      requires Valid() && id in After(max, history).pending && id !in After(max, history).launched
      requires (verifies ==> Legal(max, history + [DoLaunch(id)] + after)) && NotOf(id, after)
      modifies this, order
      ensures Valid() && (order == old(order) || fresh(order))
      ensures r == if verifies then Ok(NewReport(id, config, head, at)) else Err(VerifyFailed)
      ensures !verifies ==> history == old(history) + [DoAbandon(id)]
      ensures verifies ==>
                && history == old(history) + [DoLaunch(id)] + after + [DoRegister(id, config, head, at)]
                && id in runs && runs[id] == r.value
    {
      if !verifies {
        Note(DoAbandon(id));
        return Err(VerifyFailed);
      }
      Note(DoLaunch(id));
      Extended(max, old(history), DoLaunch(id));
      Meanwhile(after);
      StaysLaunched(max, old(history) + [DoLaunch(id)], after, id);
      var report := NewReport(id, config, head, at);
      AddRun(report);
      r := Ok(report);
    }

    /** The walk has ended. */
    method CollectRun(id: string, o: Outcome, at: int)
      requires Valid() && Enabled(After(max, history), DoCollect(id, o, at))
      modifies this`runs, this`history
      ensures Valid() && history == old(history) + [DoCollect(id, o, at)]
      ensures Guarded() == Collect(old(Guarded()), id, o, at)
    {
      Extended(max, history, DoCollect(id, o, at));
      history := history + [DoCollect(id, o, at)];
      if id !in runs {
        return;
      }
      var held := Absorb(runs[id], o).(completedAt := Some(at));
      if held.status == Running {
        held := held.(status := Complete);
        if o.failed {
          held := held.(status := Error);
        }
      }
      runs := runs[id := held];
    }

    /** The report of a run that is still known, under its own id. */
    method Get(id: string) returns (r: Result<Report, LookupError>)
      requires Valid()
      ensures r == Lookup(Guarded(), id)
      ensures (r.Ok? <==> id in Guarded().order) && (r.Ok? ==> r.value.id == id)
      ensures r.Ok? ==> r.value == runs[id]
    {
      ReachableInv(max, history);
      r := if id in runs then Ok(runs[id]) else Err(NotFound);
    }

    /** Every retained report, newest first. */
    method List() returns (reports: seq<Report>)
      requires Valid()
      ensures reports == Listed(Guarded())
    {
      reports := Newest(Guarded());
    }

    method Newest(ghost t: Table) returns (reports: seq<Report>)
      requires count <= order.Length && t.order == order[..count] && t.runs == runs
      ensures reports == Listed(t)
    {
      reports := [];
      var i := count;
      assert t.order[..count] == t.order;
      while i > 0
        invariant 0 <= i <= count
        invariant Listed(t) == reports + ListedFrom(t, i)
      {
        ListedStep(t, i);
        i := i - 1;
        var id := order[i];
        assert t.order[i] == id;
        if id in runs {
          Regroup(reports, [runs[id]], ListedFrom(t, i));
          reports := reports + [runs[id]];
        } else {
          assert [] + ListedFrom(t, i) == ListedFrom(t, i);
        }
      }
      assert reports + [] == reports;
    }

    /** The critical section of a stop: an answer at once, or a run marked stopped and now to be cancelled. */
    method MarkStopped(id: string) returns (answer: Option<Result<Report, LookupError>>)
      requires Valid()
      modifies this`runs, this`history
      ensures Valid() && history == old(history) + [DoMark(id)] && Guarded() == Mark(old(Guarded()), id)
      ensures answer.None? <==> id in RunningIds(old(runs))
      ensures answer.Some? ==> Guarded() == old(Guarded()) && answer.value == Lookup(Guarded(), id)
    {
      Extended(max, history, DoMark(id));
      history := history + [DoMark(id)];
      if id !in runs {
        return Some(Err(NotFound));
      }
      if runs[id].status != Running {
        return Some(Ok(runs[id]));
      }
      runs := runs[id := runs[id].(status := Stopped)];
      answer := None;
    }

    /** A stop: the mark, and, once the run is cancelled, its report read again after whatever others did in between. */
    method Stop(id: string, meanwhile: seq<Step>) returns (r: Result<Report, LookupError>, cancelled: bool)
      requires Valid() && Legal(max, history + [DoMark(id)] + meanwhile)
      modifies this, order
      ensures Valid() && (order == old(order) || fresh(order))
      ensures cancelled <==> id in RunningIds(old(runs))
      ensures history == old(history) + [DoMark(id)] + if cancelled then meanwhile else []
      ensures r == if !cancelled then Lookup(old(Guarded()), id)
                   else if DoRemove(id) in meanwhile then Err(NotFound)
                   else Ok(Halted(old(runs)[id], Collection(meanwhile, id)))
    {
      var answer := MarkStopped(id);
      if answer.Some? {
        return answer.value, false;
      }
      Meanwhile(meanwhile);
      StopAnswers(max, old(history), id, meanwhile);
      r := Get(id);
      cancelled := true;
    }

    /** Drops a run's record, whether or not its walk has ended. */
    method RemoveRun(id: string) returns (r: Result<(), LookupError>)
      requires Valid()
      modifies this`runs, this`count, this`history, order
      ensures Valid() && history == old(history) + [DoRemove(id)] && Guarded() == Remove(old(Guarded()), id)
      ensures r.Err? <==> id !in old(runs)
    {
      Extended(max, history, DoRemove(id));
      history := history + [DoRemove(id)];
      if id !in runs {
        return Err(NotFound);
      }
      runs := runs - {id};
      count := RemoveID(order, count, id);
      r := Ok(());
    }
  }

  /** The reports of the first `i` ids, newest first. */
  function ListedFrom(t: Table, i: nat): seq<Report>
    requires i <= |t.order|
  {
    Listed(t.(order := t.order[..i]))
  }

  lemma ListedStep(t: Table, i: nat)
    requires 0 < i <= |t.order|
    ensures var id := t.order[i - 1];
            ListedFrom(t, i) == (if id in t.runs then [t.runs[id]] else []) + ListedFrom(t, i - 1)
  {
    var upTo := t.(order := t.order[..i]);
    assert upTo.order[..|upTo.order| - 1] == t.order[..i - 1];
  }

  lemma JustReserved(max: int, history: seq<Step>, id: string)
    requires Legal(max, history) && Reserve(After(max, history).table).1 == Some(id)
    ensures var s := After(max, history + [DoReserve]); id in s.pending && id !in s.launched
  {
    ReachableInv(max, history);
    NextIsNew(After(max, history).table.nextID);
    Extended(max, history, DoReserve);
  }

  lemma NextLegal(max: int, history: seq<Step>, steps: seq<Step>, i: nat, before: seq<Step>) returns (longer: seq<Step>)
    requires i < |steps| && Legal(max, history + steps) && before == history + steps[..i]
    ensures Enabled(After(max, before), steps[i])
    ensures longer == before + [steps[i]] == history + steps[..i + 1]
  {
    longer := before + [steps[i]];
    assert history + steps[..i + 1] + steps[i + 1..] == history + steps;
    LegalPrefix(max, history + steps[..i + 1], steps[i + 1..]);
    assert history + steps[..i + 1] == (history + steps[..i]) + [steps[i]];
    Extended(max, history + steps[..i], steps[i]);
  }

  /** Nobody but its own start launches, gives up or registers a reserved id. */
  lemma {:induction false} StaysPending(max: int, history: seq<Step>, steps: seq<Step>, id: string)
    requires Legal(max, history + steps) && NotOf(id, steps)
    requires id in After(max, history).pending && id !in After(max, history).launched
    ensures id in After(max, history + steps).pending && id !in After(max, history + steps).launched
  {
    if steps == [] {
      assert history + steps == history;
    } else {
      assert Front(history + steps) == history + Front(steps) && Last(history + steps) == Last(steps);
      assert forall step | step in Front(steps) :: step in steps;
      StaysPending(max, history, Front(steps), id);
      assert Last(steps) in steps;
    }
  }

  lemma {:induction false} StaysLaunched(max: int, history: seq<Step>, steps: seq<Step>, id: string)
    requires Legal(max, history + steps) && NotOf(id, steps)
    requires id in After(max, history).pending && id in After(max, history).launched
    ensures id in After(max, history + steps).pending && id in After(max, history + steps).launched
  {
    if steps == [] {
      assert history + steps == history;
    } else {
      assert Front(history + steps) == history + Front(steps) && Last(history + steps) == Last(steps);
      assert forall step | step in Front(steps) :: step in steps;
      StaysLaunched(max, history, Front(steps), id);
      assert Last(steps) in steps;
    }
  }
}
