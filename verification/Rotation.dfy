/**
 When a rotated secret is served, and when not (config/section.go, lines 29 to 110): from some
 moment on the vault answers for a ref with its new value alone, and calls that fetched the old
 one before may be under way still.
 */
module Rotation {
  import opened Bytes
  import opened VaultBox

  // --- what is asked of a continuation -------------------------------------------------

  /** Past `from`, every fetch for the ref yields `val`. */
  ghost predicate Yields(log: seq<Event>, from: nat, ref: string, val: string) {
    forall i | from <= i < |log| && log[i].Fetched? && log[i].ref == ref :: log[i].val == val
  }

  predicate HitSince(e: Event, ref: string, since: int) {
    e.Answered? && e.ref == ref && e.source.FromCache? && since <= e.source.at
  }

  /** Past `from`, everything served off the cache for the ref at or after `since` is `val`. */
  ghost predicate HitsGive(log: seq<Event>, from: nat, ref: string, val: string, since: int) {
    forall i | from <= i < |log| && HitSince(log[i], ref, since) :: log[i].given == Some(val)
  }

  /** Past `from`, every answer for the ref that is one is `val`, wherever it came from. */
  ghost predicate AnswersGive(log: seq<Event>, from: nat, ref: string, val: string) {
    forall i | from <= i < |log| && log[i].Answered? && log[i].ref == ref && log[i].given.Some? ::
      log[i].given == Some(val)
  }

  /** A run from `s` to `t` in which the vault answers for the ref with `val` alone. */
  ghost predicate Rotated(s: State, steps: seq<Step>, t: State, ref: string, val: string) {
    Reaches(s, steps, t) && Yields(t.log, |s.log|, ref, val)
  }

  // --- the conditions --------------------------------------------------------------------

  /** A call under way has fetched something else for the ref and not stored it yet. */
  ghost predicate OldUnderWay(s: State, ref: string, val: string) {
    exists c :: c in s.calls && HoldsOld(s.calls[c], ref, val)
  }

  predicate HoldsOld(call: Call, ref: string, val: string) {
    call.ref == ref && call.phase.Storing? && call.phase.val != val
  }

  /** What is cached for the ref is `val`, or has expired by `since`; and no call will store anything else. */
  ghost predicate Spent(s: State, ref: string, val: string, since: int) {
    && (ref in s.box.cache ==> s.box.cache[ref].val == val || s.box.cache[ref].exp <= since)
    && !OldUnderWay(s, ref, val)
  }

  /** A call under way would end in something else: what it fetched, or what it had found if its fetch fails. */
  predicate EndsOld(call: Call, ref: string, val: string) {
    call.ref == ref && if call.phase.Storing? then call.phase.val != val else call.had.Some? && call.had.value != val
  }

  /** Nothing else than `val` is cached for the ref or known to a call under way. */
  ghost predicate Forgotten(s: State, ref: string, val: string) {
    && (ref in s.box.cache ==> s.box.cache[ref].val == val)
    && forall c | c in s.calls :: !EndsOld(s.calls[c], ref, val)
  }

  // --- the conditions suffice --------------------------------------------------------------

  lemma LogExtends(s: State, step: Step)
    requires Enabled(s, step)
    ensures s.log <= Apply(s, step).log
  {
  }

  lemma {:induction false} LogExtendsOver(s: State, steps: seq<Step>, t: State)
    requires Reaches(s, steps, t)
    ensures s.log <= t.log
    decreases steps
  {
    if steps != [] {
      LogExtends(s, steps[0]);
      LogExtendsOver(Apply(s, steps[0]), steps[1..], t);
    }
  }

  lemma StepStaysSpent(s: State, step: Step, ref: string, val: string, since: int)
    requires Enabled(s, step) && Spent(s, ref, val, since) && Yields(Apply(s, step).log, |s.log|, ref, val)
    ensures Spent(Apply(s, step), ref, val, since) && HitsGive(Apply(s, step).log, |s.log|, ref, val, since)
  {
    var t := Apply(s, step);
    if step.DoFetch? && step.got.Some? {
      assert t.log[|s.log|] == Fetched(step.call, s.calls[step.call].ref, step.got.value);
    }
    forall c | c in t.calls ensures !HoldsOld(t.calls[c], ref, val) {
      assert c in s.calls ==> !HoldsOld(s.calls[c], ref, val);
    }
    if step.DoStore? {
      assert !HoldsOld(s.calls[step.call], ref, val);
    }
  }

  lemma {:induction false} StaysSpent(s: State, steps: seq<Step>, t: State, ref: string, val: string, since: int)
    requires Reaches(s, steps, t) && Spent(s, ref, val, since) && Yields(t.log, |s.log|, ref, val)
    ensures HitsGive(t.log, |s.log|, ref, val, since)
    decreases steps
  {
    if steps != [] {
      var u := Apply(s, steps[0]);
      LogExtends(s, steps[0]);
      LogExtendsOver(u, steps[1..], t);
      assert forall i | |s.log| <= i < |u.log| :: u.log[i] == t.log[i];
      StepStaysSpent(s, steps[0], ref, val, since);
      StaysSpent(u, steps[1..], t, ref, val, since);
    }
  }

  lemma StepStaysForgotten(s: State, step: Step, ref: string, val: string)
    requires Enabled(s, step) && Forgotten(s, ref, val) && Yields(Apply(s, step).log, |s.log|, ref, val)
    ensures Forgotten(Apply(s, step), ref, val) && AnswersGive(Apply(s, step).log, |s.log|, ref, val)
  {
    var t := Apply(s, step);
    if !step.Begin? {
      assert !EndsOld(s.calls[step.call], ref, val);
    }
    if step.DoFetch? && step.got.Some? {
      assert t.log[|s.log|] == Fetched(step.call, s.calls[step.call].ref, step.got.value);
    }
    forall c | c in t.calls ensures !EndsOld(t.calls[c], ref, val) {
      assert c in s.calls ==> !EndsOld(s.calls[c], ref, val);
    }
  }

  lemma {:induction false} StaysForgotten(s: State, steps: seq<Step>, t: State, ref: string, val: string)
    requires Reaches(s, steps, t) && Forgotten(s, ref, val) && Yields(t.log, |s.log|, ref, val)
    ensures AnswersGive(t.log, |s.log|, ref, val)
    decreases steps
  {
    if steps != [] {
      var u := Apply(s, steps[0]);
      LogExtends(s, steps[0]);
      LogExtendsOver(u, steps[1..], t);
      assert forall i | |s.log| <= i < |u.log| :: u.log[i] == t.log[i];
      StepStaysForgotten(s, steps[0], ref, val);
      StaysForgotten(u, steps[1..], t, ref, val);
    }
  }

  // --- and are needed -----------------------------------------------------------------------

  lemma OneStep(s: State, step: Step)
    requires Enabled(s, step)
    ensures Reaches(s, [step], Apply(s, step))
  {
    assert [step][1..] == [];
    assert Reaches(Apply(s, step), [], Apply(s, step));
  }

  lemma TwoSteps(s: State, one: Step, two: Step)
    requires Enabled(s, one) && Enabled(Apply(s, one), two)
    ensures Reaches(s, [one, two], Apply(Apply(s, one), two))
  {
    OneStep(Apply(s, one), two);
    assert [one, two][1..] == [two];
  }

  /** Where the condition fails, a lookup at that very instant is served the old value: at once, or after one store. */
  lemma OldIsServed(s: State, ref: string, val: string, since: int) returns (steps: seq<Step>, t: State)
    requires s.box.ttl > 0 && !Spent(s, ref, val, since)
    ensures forall i | 0 <= i < |steps| :: (steps[i].Begin? || steps[i].DoStore?) && steps[i].now == since
    ensures Rotated(s, steps, t, ref, val) && !HitsGive(t.log, |s.log|, ref, val, since)
  {
    var look := Begin(ref, since);
    if OldUnderWay(s, ref, val) {
      var c :| c in s.calls && HoldsOld(s.calls[c], ref, val);
      var u := Apply(s, DoStore(c, since));
      TwoSteps(s, DoStore(c, since), look);
      steps, t := [DoStore(c, since), look], Apply(u, look);
      assert t.log[|s.log| + 3] == Answered(u.nextCall, ref, Some(s.calls[c].phase.val), FromCache(since));
    } else {
      OneStep(s, look);
      steps, t := [look], Apply(s, look);
      assert t.log[|s.log| + 1] == Answered(s.nextCall, ref, Some(s.box.cache[ref].val), FromCache(since));
    }
  }

  /** Where the other fails, some continuation gives the old value again, with no fetch at all. */
  lemma OldIsGiven(s: State, ref: string, val: string) returns (steps: seq<Step>, t: State)
    requires !Forgotten(s, ref, val)
    ensures Rotated(s, steps, t, ref, val) && !AnswersGive(t.log, |s.log|, ref, val)
  {
    if ref in s.box.cache && s.box.cache[ref].val != val {
      var look := Begin(ref, s.box.cache[ref].exp - 1);
      OneStep(s, look);
      steps, t := [look], Apply(s, look);
      assert t.log[|s.log| + 1].given == Some(s.box.cache[ref].val);
    } else {
      var c :| c in s.calls && EndsOld(s.calls[c], ref, val);
      steps, t := OldCallEnds(s, c, ref, val);
    }
  }

  lemma OldCallEnds(s: State, c: nat, ref: string, val: string) returns (steps: seq<Step>, t: State)
    requires c in s.calls && EndsOld(s.calls[c], ref, val)
    ensures Rotated(s, steps, t, ref, val) && !AnswersGive(t.log, |s.log|, ref, val)
  {
    match s.calls[c].phase
    case Storing(x) =>
      OneStep(s, DoStore(c, 0));
      steps, t := [DoStore(c, 0)], Apply(s, DoStore(c, 0));
      assert t.log[|s.log| + 1] == Answered(c, ref, Some(x), FromVault);
    case Fetching =>
      OneStep(s, DoFetch(c, None));
      steps, t := [DoFetch(c, None)], Apply(s, DoFetch(c, None));
      assert t.log[|s.log|].given == s.calls[c].had;
    case Building =>
      var u := Apply(s, DoBuild(c, false));
      if u.box.build == Built {
        TwoSteps(s, DoBuild(c, false), DoFetch(c, None));
        steps, t := [DoBuild(c, false), DoFetch(c, None)], Apply(u, DoFetch(c, None));
      } else {
        OneStep(s, DoBuild(c, false));
        steps, t := [DoBuild(c, false)], u;
      }
      assert t.log[|s.log|].given == s.calls[c].had;
  }

  // --- the theorems ---------------------------------------------------------------------------

  /**
   Everything served off the cache from `since` on is the new value, whatever else happens,
   exactly when what is cached is new or expired by then and no call under way is yet to store
   anything older.
   */
  lemma CacheServesTheNewExactlyWhenSpent(s: State, ref: string, val: string, since: int)
    requires s.box.ttl > 0
    ensures (forall steps, t | Rotated(s, steps, t, ref, val) :: HitsGive(t.log, |s.log|, ref, val, since))
       <==> Spent(s, ref, val, since)
  {
    if Spent(s, ref, val, since) {
      forall steps, t | Rotated(s, steps, t, ref, val)
        ensures HitsGive(t.log, |s.log|, ref, val, since)
      {
        StaysSpent(s, steps, t, ref, val, since);
      }
    } else {
      var steps, t := OldIsServed(s, ref, val, since);
    }
  }

  /**
   Every answer is the new value, failed fetches included, exactly when nothing older is cached or
   known to a call.
   */
  lemma AnswersAreNewExactlyWhenForgotten(s: State, ref: string, val: string)
    ensures (forall steps, t | Rotated(s, steps, t, ref, val) :: AnswersGive(t.log, |s.log|, ref, val))
       <==> Forgotten(s, ref, val)
  {
    if Forgotten(s, ref, val) {
      forall steps, t | Rotated(s, steps, t, ref, val)
        ensures AnswersGive(t.log, |s.log|, ref, val)
      {
        StaysForgotten(s, steps, t, ref, val);
      }
    } else {
      var steps, t := OldIsGiven(s, ref, val);
    }
  }

  /** All that was stored for the ref was stored by then. */
  ghost predicate StoredBy(log: seq<Event>, ref: string, at: int) {
    forall i | 0 <= i < |log| && log[i].Stored? && log[i].ref == ref :: log[i].at <= at
  }

  /**
   A secret rotated at `at` is the only one served off the cache from a ttl later on exactly
   when, at the rotation, no call had fetched the old one without storing it yet.
   */
  lemma RotationTakesEffectWithinTtl(configured: bool, ttl: int, before: seq<Step>, s: State, ref: string,
                                     val: string, at: int)
    requires ttl > 0 && Reaches(Init(configured, ttl), before, s) && StoredBy(s.log, ref, at)
    ensures (forall steps, t | Rotated(s, steps, t, ref, val) :: HitsGive(t.log, |s.log|, ref, val, at + ttl))
       <==> !OldUnderWay(s, ref, val)
  {
    InitOk(configured, ttl);
    ReachableInv(Init(configured, ttl), before, s);
    TtlStays(Init(configured, ttl), before, s);
    if ref in s.box.cache {
      var held := s.box.cache[ref];
      assert WasStoredAt(s.log, ref, held.val, held.exp - s.box.ttl);
    }
    CacheServesTheNewExactlyWhenSpent(s, ref, val, at + ttl);
  }

  /** A failed fetch gives the last known value at any time, however long ago it expired. */
  lemma AFailedFetchServesTheExpired(s: State, ref: string, now: int) returns (steps: seq<Step>, t: State)
    requires ref in s.box.cache && s.box.cache[ref].exp <= now && s.box.build == Built
    ensures Reaches(s, steps, t)
    ensures t.log == s.log
                     + [Began(s.nextCall, ref), Answered(s.nextCall, ref, Some(s.box.cache[ref].val), StaleNoFetch)]
  {
    var c := s.nextCall;
    var u := Apply(s, Begin(ref, now));
    var v := Apply(u, DoBuild(c, true));
    TwoSteps(u, DoBuild(c, true), DoFetch(c, None));
    steps, t := [Begin(ref, now), DoBuild(c, true), DoFetch(c, None)], Apply(v, DoFetch(c, None));
    assert steps[1..] == [DoBuild(c, true), DoFetch(c, None)];
  }

  /** Two calls overlap, both yet to fetch. */
  lemma {:induction false} BothBegin(ttl: int, ref: string) returns (steps: seq<Step>, t: State)
    ensures Reaches(Init(true, ttl), steps, t)
    ensures t.box == Box(map[], Built, true, ttl) && t.nextCall == 2 && t.log == [Began(0, ref), Began(1, ref)]
    ensures t.calls == map[0 := Call(ref, None, Fetching, 0), 1 := Call(ref, None, Fetching, 1)]
  {
    steps, t := [], Init(true, ttl);
    steps, t := Further(ttl, steps, t, Begin(ref, 0));
    steps, t := Further(ttl, steps, t, Begin(ref, 0));
    steps, t := Further(ttl, steps, t, DoBuild(0, true));
    steps, t := Further(ttl, steps, t, DoBuild(1, true));
  }

  /** One of them fetches the old secret and one the new. */
  lemma {:induction false} BothFetch(ttl: int, ref: string, stale: string, rotated: string)
    returns (steps: seq<Step>, t: State)
    ensures Reaches(Init(true, ttl), steps, t)
    ensures t.box == Box(map[], Built, true, ttl) && t.nextCall == 2
    ensures t.calls == map[0 := Call(ref, None, Storing(stale), 0), 1 := Call(ref, None, Storing(rotated), 1)]
    ensures t.log == [Began(0, ref), Began(1, ref), Fetched(0, ref, stale), Fetched(1, ref, rotated)]
  {
    steps, t := BothBegin(ttl, ref);
    steps, t := Further(ttl, steps, t, DoFetch(0, Some(stale)));
    steps, t := Further(ttl, steps, t, DoFetch(1, Some(rotated)));
  }

  lemma Further(ttl: int, steps: seq<Step>, t: State, step: Step) returns (longer: seq<Step>, u: State)
    requires Reaches(Init(true, ttl), steps, t) && Enabled(t, step)
    ensures Reaches(Init(true, ttl), longer, u) && u == Apply(t, step)
  {
    ReachesFurther(Init(true, ttl), steps, t, step);
    longer, u := steps + [step], Apply(t, step);
  }

  /**
   So a rotation can be lost for as long as a fetch takes to be stored: of two overlapping calls
   the one that fetched the old secret stores it at any time `late`, past the ttl of the new one,
   and the old secret is then served off the cache for a whole ttl more.
   */
  lemma {:induction false} ARotationCanBeLost(ttl: int, ref: string, stale: string, rotated: string, late: int)
    returns (steps: seq<Step>, t: State)
    requires ttl > 0 && stale != rotated && late >= ttl
    ensures Reaches(Init(true, ttl), steps, t)
    ensures t.log == [Began(0, ref), Began(1, ref), Fetched(0, ref, stale), Fetched(1, ref, rotated),
                      Stored(1, ref, rotated, 0), Answered(1, ref, Some(rotated), FromVault),
                      Stored(0, ref, stale, late), Answered(0, ref, Some(stale), FromVault),
                      Began(2, ref), Answered(2, ref, Some(stale), FromCache(late + ttl - 1))]
  {
    steps, t := BothFetch(ttl, ref, stale, rotated);
    steps, t := Further(ttl, steps, t, DoStore(1, 0));
    steps, t := Further(ttl, steps, t, DoStore(0, late));
    assert t.box.cache[ref] == Cached(stale, late + ttl);
    steps, t := Further(ttl, steps, t, Begin(ref, late + ttl - 1));
  }
}
