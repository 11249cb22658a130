/**
 The secret cache of a config (config/section.go, lines 29 to 110): a vault built once, values
 held for a while, and the last known value served when the vault fails. The lock is held
 for the lookup and for the store alone, so calls interleave at four steps each.
 */
module VaultBox {
  import opened Bytes

  datatype Cached = Cached(val: string, exp: int)

  datatype Build = Unbuilt | Built | BuildFailed

  datatype Box = Box(cache: map<string, Cached>, build: Build, configured: bool, ttl: int)

  // --- one critical section each -----------------------------------------------------

  /** Lines 84 to 88: a value whose time has not come is served. */
  predicate IsFresh(b: Box, ref: string, now: int) {
    ref in b.cache && now < b.cache[ref].exp
  }

  function Known(b: Box, ref: string): Option<string> {
    if ref in b.cache then Some(b.cache[ref].val) else None
  }

  /** Lines 65 to 71: built the first time it is asked for, whatever came of it. */
  function BuildOnce(b: Box, builds: bool): Box {
    if b.build != Unbuilt then b else b.(build := if b.configured && builds then Built else BuildFailed)
  }

  /** Lines 106 to 108. */
  function Store(b: Box, ref: string, val: string, now: int): Box {
    b.(cache := b.cache[ref := Cached(val, now + b.ttl)])
  }

  // --- interleaved calls ------------------------------------------------------------------

  /** How an answer came about: off the cache, after a failed build or a failed fetch, or fetched. */
  datatype Source = FromCache(at: int) | StaleNoVault | StaleNoFetch | FromVault | Nowhere

  datatype Event =
    | Began(call: nat, ref: string)
    | Fetched(call: nat, ref: string, val: string)
    | Stored(call: nat, ref: string, val: string, at: int)
    | Answered(call: nat, ref: string, given: Option<string>, source: Source)

  datatype Phase = Building | Fetching | Storing(val: string)

  /** A call past its lookup: what it had found there, and where in the log it began. */
  datatype Call = Call(ref: string, had: Option<string>, phase: Phase, began: nat)

  /** The box, the calls under way, and the log of everything that happened. */
  datatype State = State(box: Box, calls: map<nat, Call>, nextCall: nat, log: seq<Event>)

  datatype Step =
    | Begin(ref: string, now: int)
    | DoBuild(call: nat, builds: bool)
    | DoFetch(call: nat, got: Option<string>)
    | DoStore(call: nat, now: int)

  function Init(configured: bool, ttl: int): State {
    State(Box(map[], Unbuilt, configured, ttl), map[], 0, [])
  }

  predicate Enabled(s: State, step: Step) {
    match step
    case Begin(_, _) => true
    case DoBuild(c, _) => c in s.calls && s.calls[c].phase.Building?
    case DoFetch(c, _) => c in s.calls && s.calls[c].phase.Fetching?
    case DoStore(c, _) => c in s.calls && s.calls[c].phase.Storing?
  }

  /** Ends a call: with what it had found, if it had found anything. */
  function FallBack(s: State, c: nat, source: Source): State
    requires c in s.calls
  {
    var call := s.calls[c];
    s.(calls := s.calls - {c},
    log := s.log + [Answered(c, call.ref, call.had, if call.had.Some? then source else Nowhere)])
  }

  function Apply(s: State, step: Step): State
    requires Enabled(s, step)
  {
    match step
    case Begin(ref, now) =>
      var c, log := s.nextCall, s.log + [Began(s.nextCall, ref)];
      if IsFresh(s.box, ref, now) then
        s.(nextCall := c + 1, log := log + [Answered(c, ref, Known(s.box, ref), FromCache(now))])
      else
        s.(nextCall := c + 1, log := log, calls := s.calls[c := Call(ref, Known(s.box, ref), Building, |s.log|)])
    case DoBuild(c, builds) =>
      var box := BuildOnce(s.box, builds);
      if box.build == Built then s.(box := box, calls := s.calls[c := s.calls[c].(phase := Fetching)])
      else FallBack(s.(box := box), c, StaleNoVault)
    case DoFetch(c, got) =>
      if got.None? then FallBack(s, c, StaleNoFetch)
      else
        s.(calls := s.calls[c := s.calls[c].(phase := Storing(got.value))],
        log := s.log + [Fetched(c, s.calls[c].ref, got.value)])
    case DoStore(c, now) =>
      var call := s.calls[c];
      s.(box := Store(s.box, call.ref, call.phase.val, now), calls := s.calls - {c},
      log := s.log + [Stored(c, call.ref, call.phase.val, now), Answered(c, call.ref, Some(call.phase.val), FromVault)])
  }

  ghost predicate Reaches(s: State, steps: seq<Step>, t: State)
    decreases steps
  {
    if steps == [] then s == t
    else Enabled(s, steps[0]) && Reaches(Apply(s, steps[0]), steps[1..], t)
  }

  // --- what every reachable state keeps ------------------------------------------------

  ghost predicate WasFetched(log: seq<Event>, ref: string, val: string) {
    exists i :: 0 <= i < |log| && log[i].Fetched? && log[i].ref == ref && log[i].val == val
  }

  ghost predicate WasStoredAt(log: seq<Event>, ref: string, val: string, at: int) {
    exists i :: 0 <= i < |log| && log[i].Stored? && log[i].ref == ref && log[i].val == val && log[i].at == at
  }

  ghost predicate WasStored(log: seq<Event>, ref: string) {
    exists i :: 0 <= i < |log| && log[i].Stored? && log[i].ref == ref
  }

  /** Cached values were fetched for their own ref, and stored a ttl before they expire. */
  ghost predicate CacheOk(s: State) {
    && (forall ref | ref in s.box.cache ::
          && WasFetched(s.log, ref, s.box.cache[ref].val)
          && WasStoredAt(s.log, ref, s.box.cache[ref].val, s.box.cache[ref].exp - s.box.ttl))
    && (forall ref :: ref in s.box.cache <==> WasStored(s.log, ref))
    && (s.box.cache != map[] ==> s.box.build == Built)
  }

  /** A call that had found nothing began before anything was stored for its ref. */
  ghost predicate CallOk(s: State, c: nat, call: Call) {
    && c < s.nextCall
    && call.began < |s.log| && s.log[call.began] == Began(c, call.ref)
    && (call.had.Some? ==> WasFetched(s.log, call.ref, call.had.value) && s.box.build == Built)
    && (call.had.None? ==> !WasStored(s.log[..call.began], call.ref))
    && (!call.phase.Building? ==> s.box.build == Built)
    && (call.phase.Storing? ==> WasFetched(s.log, call.ref, call.phase.val))
  }

  ghost predicate CallsOk(s: State, calls: map<nat, Call>) {
    forall c | c in calls :: CallOk(s, c, calls[c])
  }

  ghost predicate LogOk(s: State) {
    && (forall i | 0 <= i < |s.log| && s.log[i].Began? :: s.log[i].call < s.nextCall)
    && (forall i, j | 0 <= i < j < |s.log| && s.log[i].Began? && s.log[j].Began? :: s.log[i].call != s.log[j].call)
  }

  /** What the log promises of every answer in it. */
  ghost predicate AnswersOk(ttl: int, log: seq<Event>) {
    forall k | 0 <= k < |log| && log[k].Answered? :: AnswerOk(ttl, log, k)
  }

  ghost predicate AnswerOk(ttl: int, log: seq<Event>, k: nat)
    requires k < |log| && log[k].Answered?
  {
    var a := log[k];
    && (a.given.Some? ==> WasFetched(log[..k], a.ref, a.given.value))
    && (a.source.FromCache? ==>
          a.given.Some? && exists at :: WasStoredAt(log[..k], a.ref, a.given.value, at) && a.source.at - at < ttl)
    && !a.source.StaleNoVault?
    && (a.given.None? ==>
          exists b :: 0 <= b < k && log[b] == Began(a.call, a.ref) && !WasStored(log[..b], a.ref))
  }

  ghost predicate Inv(s: State) {
    && CacheOk(s)
    && CallsOk(s, s.calls)
    && LogOk(s)
    && AnswersOk(s.box.ttl, s.log)
  }

  lemma LogGrows(a: seq<Event>, b: seq<Event>, ref: string, val: string, at: int)
    requires a <= b
    ensures WasFetched(a, ref, val) ==> WasFetched(b, ref, val)
    ensures WasStoredAt(a, ref, val, at) ==> WasStoredAt(b, ref, val, at)
    ensures WasStored(a, ref) ==> WasStored(b, ref)
    ensures WasStoredAt(a, ref, val, at) ==> WasStored(a, ref)
  {
  }

  /** Nothing was stored between the two logs. */
  ghost predicate NoStoreSince(a: seq<Event>, b: seq<Event>) {
    a <= b && forall i | |a| <= i < |b| :: !b[i].Stored?
  }

  lemma CacheKept(s: State, t: State)
    requires CacheOk(s) && NoStoreSince(s.log, t.log)
    requires t.box.cache == s.box.cache && t.box.ttl == s.box.ttl && (s.box.build == Built ==> t.box.build == Built)
    ensures CacheOk(t)
  {
    forall ref | ref in t.box.cache
      ensures WasFetched(t.log, ref, t.box.cache[ref].val)
      ensures WasStoredAt(t.log, ref, t.box.cache[ref].val, t.box.cache[ref].exp - t.box.ttl)
    {
      LogGrows(s.log, t.log, ref, t.box.cache[ref].val, t.box.cache[ref].exp - t.box.ttl);
    }
    forall ref ensures WasStored(t.log, ref) <==> WasStored(s.log, ref) {
      if WasStored(t.log, ref) {
        var i :| 0 <= i < |t.log| && t.log[i].Stored? && t.log[i].ref == ref;
        assert i < |s.log| && s.log[i] == t.log[i];
      }
      LogGrows(s.log, t.log, ref, "", 0);
    }
  }

  lemma CallKept(s: State, t: State, c: nat, call: Call)
    requires CallOk(s, c, call) && s.log <= t.log && s.nextCall <= t.nextCall
    requires s.box.build == Built ==> t.box.build == Built
    ensures CallOk(t, c, call)
  {
    if call.had.Some? { LogGrows(s.log, t.log, call.ref, call.had.value, 0); }
    if call.phase.Storing? { LogGrows(s.log, t.log, call.ref, call.phase.val, 0); }
    assert t.log[..call.began] == s.log[..call.began];
  }

  lemma CallsKept(s: State, t: State, calls: map<nat, Call>)
    requires CallsOk(s, calls) && s.log <= t.log && s.nextCall <= t.nextCall
    requires s.box.build == Built ==> t.box.build == Built
    ensures CallsOk(t, calls)
  {
    forall c | c in calls ensures CallOk(t, c, calls[c]) { CallKept(s, t, c, calls[c]); }
  }

  /** An answer stays as good in a longer log. */
  lemma AnswersKept(ttl: int, a: seq<Event>, b: seq<Event>)
    requires AnswersOk(ttl, a) && a <= b
    requires forall k | |a| <= k < |b| && b[k].Answered? :: AnswerOk(ttl, b, k)
    ensures AnswersOk(ttl, b)
  {
    forall k | 0 <= k < |b| && b[k].Answered? ensures AnswerOk(ttl, b, k) {
      if k < |a| {
        assert AnswerOk(ttl, a, k);
        assert a[..k] == b[..k];
        forall i | 0 <= i < k ensures a[..i] == b[..i] {}
      }
    }
  }

  lemma {:induction false} BeginKeepsLog(s: State, ref: string, now: int)
    requires LogOk(s)
    ensures LogOk(Apply(s, Begin(ref, now)))
  {
    var t := Apply(s, Begin(ref, now));
    forall i | 0 <= i < |t.log| && t.log[i].Began? ensures i <= |s.log| && (i < |s.log| ==> t.log[i] == s.log[i]) {}
  }

  lemma {:induction false} HitKeepsInv(s: State, ref: string, now: int)
    requires Inv(s) && IsFresh(s.box, ref, now)
    ensures Inv(Apply(s, Begin(ref, now)))
  {
    var t := Apply(s, Begin(ref, now));
    HitLogs(s, ref, now, t);
    assert CacheOk(t) by { CacheKept(s, t); }
    assert CallsOk(t, t.calls) by { CallsKept(s, t, s.calls); }
    assert LogOk(t) by { BeginKeepsLog(s, ref, now); }
    assert AnswersOk(t.box.ttl, t.log) by { HitIsOk(s, ref, now, t); }
  }

  lemma HitLogs(s: State, ref: string, now: int, t: State)
    requires IsFresh(s.box, ref, now) && t == Apply(s, Begin(ref, now))
    ensures t.log == s.log
                     + [Began(s.nextCall, ref), Answered(s.nextCall, ref, Some(s.box.cache[ref].val), FromCache(now))]
    ensures t == s.(nextCall := s.nextCall + 1, log := t.log)
  {
  }

  lemma {:induction false} HitIsOk(s: State, ref: string, now: int, t: State)
    requires CacheOk(s) && AnswersOk(s.box.ttl, s.log) && IsFresh(s.box, ref, now) && t == Apply(s, Begin(ref, now))
    ensures AnswersOk(s.box.ttl, t.log)
  {
    var held := s.box.cache[ref];
    HitLogs(s, ref, now, t);
    HitAnswers(s.box.ttl, s.log, s.nextCall, ref, held.val, held.exp - s.box.ttl, now);
  }

  lemma {:induction false} HitAnswers(ttl: int, log: seq<Event>, c: nat, ref: string, val: string, at: int, now: int)
    requires AnswersOk(ttl, log) && WasFetched(log, ref, val) && WasStoredAt(log, ref, val, at) && now - at < ttl
    ensures AnswersOk(ttl, log + [Began(c, ref), Answered(c, ref, Some(val), FromCache(now))])
  {
    var began, longer := log + [Began(c, ref)], log + [Began(c, ref), Answered(c, ref, Some(val), FromCache(now))];
    assert longer[..|began|] == began;
    LogGrows(log, began, ref, val, at);
    assert AnswerOk(ttl, longer, |began|);
    AnswersKept(ttl, log, longer);
  }

  lemma {:induction false} MissKeepsInv(s: State, ref: string, now: int)
    requires Inv(s) && !IsFresh(s.box, ref, now)
    ensures Inv(Apply(s, Begin(ref, now)))
  {
    var t := Apply(s, Begin(ref, now));
    CacheKept(s, t);
    CallsKept(s, t, s.calls);
    BeginKeepsLog(s, ref, now);
    AnswersKept(s.box.ttl, s.log, t.log);
    assert t.log[..|s.log|] == s.log;
    if ref in s.box.cache { LogGrows(s.log, t.log, ref, s.box.cache[ref].val, 0); }
    assert CallOk(t, s.nextCall, t.calls[s.nextCall]);
  }

  /** A call that falls back gives what it had, and fails only if nothing was stored before it began. */
  lemma {:induction false} FallBackKeepsInv(s: State, c: nat, source: Source)
    requires Inv(s) && c in s.calls && (source.StaleNoFetch? || (source.StaleNoVault? && s.calls[c].had.None?))
    ensures Inv(FallBack(s, c, source))
  {
    var t := FallBack(s, c, source);
    var call := s.calls[c];
    CacheKept(s, t);
    CallsKept(s, t, s.calls);
    var k := |s.log|;
    assert t.log[..k] == s.log;
    assert CallOk(s, c, call);
    if call.had.None? {
      assert t.log[call.began] == Began(c, call.ref) && t.log[..call.began] == s.log[..call.began];
    }
    assert AnswerOk(s.box.ttl, t.log, k);
    AnswersKept(s.box.ttl, s.log, t.log);
  }

  lemma {:induction false} BuildKeepsInv(s: State, c: nat, builds: bool)
    requires Inv(s) && Enabled(s, DoBuild(c, builds))
    ensures Inv(Apply(s, DoBuild(c, builds)))
  {
    var mid := s.(box := BuildOnce(s.box, builds));
    BoxKeepsInv(s, mid);
    assert CallOk(mid, c, mid.calls[c]);
    if mid.box.build == Built {
      PhaseKeepsInv(mid, c);
    } else {
      FallBackKeepsInv(mid, c, StaleNoVault);
    }
  }

  lemma {:induction false} PhaseKeepsInv(s: State, c: nat)
    requires Inv(s) && c in s.calls && s.calls[c].phase.Building? && s.box.build == Built
    ensures Inv(s.(calls := s.calls[c := s.calls[c].(phase := Fetching)]))
  {
    var t := s.(calls := s.calls[c := s.calls[c].(phase := Fetching)]);
    forall d | d in t.calls ensures CallOk(t, d, t.calls[d]) { assert CallOk(s, d, s.calls[d]); }
    CacheKept(s, t);
  }

  lemma {:induction false} BoxKeepsInv(s: State, mid: State)
    requires Inv(s) && mid == s.(box := mid.box) && mid.box == s.box.(build := mid.box.build)
    requires s.box.build == Built ==> mid.box.build == Built
    ensures Inv(mid)
  {
    CacheKept(s, mid);
    CallsKept(s, mid, s.calls);
  }

  lemma {:induction false} FetchKeepsInv(s: State, c: nat, got: Option<string>)
    requires Inv(s) && Enabled(s, DoFetch(c, got))
    ensures Inv(Apply(s, DoFetch(c, got)))
  {
    if got.None? {
      FallBackKeepsInv(s, c, StaleNoFetch);
    } else {
      var t := Apply(s, DoFetch(c, got));
      CacheKept(s, t);
      CallsKept(s, t, s.calls);
      assert t.log[|s.log|] == Fetched(c, s.calls[c].ref, got.value);
      assert WasFetched(t.log, s.calls[c].ref, got.value);
      AnswersKept(s.box.ttl, s.log, t.log);
    }
  }

  lemma {:induction false} StoreKeepsInv(s: State, c: nat, now: int)
    requires Inv(s) && Enabled(s, DoStore(c, now))
    ensures Inv(Apply(s, DoStore(c, now)))
  {
    var t := Apply(s, DoStore(c, now));
    var ref, val := s.calls[c].ref, s.calls[c].phase.val;
    CallsKept(s, t, s.calls);
    assert CallOk(s, c, s.calls[c]);
    StoreKeepsCache(s, c, now);
    StoreAnswers(s.box.ttl, s.log, c, ref, val, now);
  }

  lemma StoreAnswers(ttl: int, log: seq<Event>, c: nat, ref: string, val: string, now: int)
    requires AnswersOk(ttl, log) && WasFetched(log, ref, val)
    ensures AnswersOk(ttl, log + [Stored(c, ref, val, now), Answered(c, ref, Some(val), FromVault)])
  {
    var stored := log + [Stored(c, ref, val, now)];
    var longer := log + [Stored(c, ref, val, now), Answered(c, ref, Some(val), FromVault)];
    assert longer[..|stored|] == stored;
    LogGrows(log, stored, ref, val, 0);
    assert AnswerOk(ttl, longer, |stored|);
    AnswersKept(ttl, log, longer);
  }

  lemma {:induction false} StoreKeepsCache(s: State, c: nat, now: int)
    requires CacheOk(s) && Enabled(s, DoStore(c, now)) && CallOk(s, c, s.calls[c])
    ensures CacheOk(Apply(s, DoStore(c, now)))
  {
    var t := Apply(s, DoStore(c, now));
    var ref, val := s.calls[c].ref, s.calls[c].phase.val;
    var k := |s.log|;
    assert t.log[k] == Stored(c, ref, val, now);
    LogGrows(s.log, t.log, ref, val, now);
    forall other | other in s.box.cache
      ensures WasFetched(t.log, other, s.box.cache[other].val)
      ensures WasStoredAt(t.log, other, s.box.cache[other].val, s.box.cache[other].exp - s.box.ttl)
    {
      LogGrows(s.log, t.log, other, s.box.cache[other].val, s.box.cache[other].exp - s.box.ttl);
    }
    forall other ensures WasStored(t.log, other) <==> WasStored(s.log, other) || other == ref {
      LogGrows(s.log, t.log, other, "", 0);
      if WasStored(t.log, other) {
        var i :| 0 <= i < |t.log| && t.log[i].Stored? && t.log[i].ref == other;
        if i < k { assert s.log[i] == t.log[i]; }
      }
    }
  }

  lemma {:induction false} StepKeepsInv(s: State, step: Step)
    requires Inv(s) && Enabled(s, step)
    ensures Inv(Apply(s, step))
  {
    match step
    case Begin(ref, now) =>
      if IsFresh(s.box, ref, now) { HitKeepsInv(s, ref, now); } else { MissKeepsInv(s, ref, now); }
    case DoBuild(c, builds) => BuildKeepsInv(s, c, builds);
    case DoFetch(c, got) => FetchKeepsInv(s, c, got);
    case DoStore(c, now) => StoreKeepsInv(s, c, now);
  }

  lemma {:induction false} ReachableInv(s: State, steps: seq<Step>, t: State)
    requires Inv(s) && Reaches(s, steps, t)
    ensures Inv(t)
    decreases steps
  {
    if steps != [] {
      StepKeepsInv(s, steps[0]);
      ReachableInv(Apply(s, steps[0]), steps[1..], t);
    }
  }

  // --- what a caller may rely on ----------------------------------------------------------

  lemma InitOk(configured: bool, ttl: int)
    ensures Inv(Init(configured, ttl))
  {
  }

  /**
   Every value given was fetched before, for the same ref; one given without a fetch was
   stored less than a ttl ago; and no answer ever came off the cache because the vault could
   not be built.
   */
  lemma AnswersAgreeWithTheVault(configured: bool, ttl: int, steps: seq<Step>, t: State, k: nat)
    requires Reaches(Init(configured, ttl), steps, t) && k < |t.log| && t.log[k].Answered?
    ensures t.log[k].given.Some? ==> WasFetched(t.log[..k], t.log[k].ref, t.log[k].given.value)
    ensures t.log[k].source.FromCache? ==>
              && t.log[k].given.Some?
              && exists at :: WasStoredAt(t.log[..k], t.log[k].ref, t.log[k].given.value, at)
                              && t.log[k].source.at - at < ttl
    ensures !t.log[k].source.StaleNoVault?
  {
    InitOk(configured, ttl);
    ReachableInv(Init(configured, ttl), steps, t);
    TtlStays(Init(configured, ttl), steps, t);
    assert AnswerOk(ttl, t.log, k);
  }

  lemma {:induction false} TtlStays(s: State, steps: seq<Step>, t: State)
    requires Reaches(s, steps, t)
    ensures t.box.ttl == s.box.ttl && t.box.configured == s.box.configured
    decreases steps
  {
    if steps != [] {
      TtlStays(Apply(s, steps[0]), steps[1..], t);
    }
  }

  /** A call that begins once something was stored for its ref does not fail. */
  lemma StoredNeverFailsAgain(configured: bool, ttl: int, steps: seq<Step>, t: State, i: nat, j: nat, k: nat)
    requires Reaches(Init(configured, ttl), steps, t) && i < j < k < |t.log|
    requires t.log[i].Stored? && t.log[j] == Began(t.log[k].call, t.log[i].ref)
    requires t.log[k].Answered? && t.log[k].ref == t.log[i].ref
    ensures t.log[k].given.Some?
  {
    InitOk(configured, ttl);
    ReachableInv(Init(configured, ttl), steps, t);
    assert AnswerOk(t.box.ttl, t.log, k);
    if t.log[k].given.None? {
      var b :| 0 <= b < k && t.log[b] == Began(t.log[k].call, t.log[k].ref) && !WasStored(t.log[..b], t.log[k].ref);
      assert b == j;
      assert t.log[..b][i].Stored?;
    }
  }

  /** Anything cached means the build succeeded, so the fallback of lines 93 to 95 is never taken. */
  lemma CachedMeansBuilt(configured: bool, ttl: int, steps: seq<Step>, t: State)
    requires Reaches(Init(configured, ttl), steps, t)
    ensures t.box.cache != map[] ==> t.box.build == Built && configured
    ensures forall c | c in t.calls && t.calls[c].had.Some? :: t.box.build == Built
  {
    InitOk(configured, ttl);
    ReachableInv(Init(configured, ttl), steps, t);
    BuiltMeansConfigured(Init(configured, ttl), steps, t);
    forall c | c in t.calls && t.calls[c].had.Some? ensures t.box.build == Built {
      assert CallOk(t, c, t.calls[c]);
    }
  }

  lemma {:induction false} BuiltMeansConfigured(s: State, steps: seq<Step>, t: State)
    requires Reaches(s, steps, t) && (s.box.build == Built ==> s.box.configured)
    ensures t.box.build == Built ==> t.box.configured
    ensures t.box.configured == s.box.configured
    decreases steps
  {
    if steps != [] {
      BuiltMeansConfigured(Apply(s, steps[0]), steps[1..], t);
    }
  }

  /** Against a vault whose secret does not change, the cache cannot be told from the vault. */
  lemma ConstantSecretIsTransparent(configured: bool, ttl: int, steps: seq<Step>, t: State, ref: string, val: string,
                                    k: nat)
    requires Reaches(Init(configured, ttl), steps, t) && k < |t.log|
    requires forall i | 0 <= i < |t.log| && t.log[i].Fetched? && t.log[i].ref == ref :: t.log[i].val == val
    requires t.log[k].Answered? && t.log[k].ref == ref && t.log[k].given.Some?
    ensures t.log[k].given == Some(val)
  {
    AnswersAgreeWithTheVault(configured, ttl, steps, t, k);
    var i :| 0 <= i < k && t.log[..k][i].Fetched? && t.log[..k][i].ref == ref
             && t.log[..k][i].val == t.log[k].given.value;
    assert t.log[i] == t.log[..k][i];
  }

  lemma {:induction false} ReachesFurther(s: State, steps: seq<Step>, t: State, step: Step)
    requires Reaches(s, steps, t) && Enabled(t, step)
    ensures Reaches(s, steps + [step], Apply(t, step))
    decreases steps
  {
    if steps == [] {
      assert [step][1..] == [];
      assert Reaches(Apply(t, step), [], Apply(t, step));
      assert [] + [step] == [step];
    } else {
      assert (steps + [step])[1..] == steps[1..] + [step];
      ReachesFurther(Apply(s, steps[0]), steps[1..], t, step);
    }
  }

  // --- the build is decided once ------------------------------------------------------------

  /** Whether the first build of a run could be made, if there was one. */
  function FirstBuild(steps: seq<Step>): Option<bool> {
    if steps == [] then None
    else if steps[0].DoBuild? then Some(steps[0].builds)
    else FirstBuild(steps[1..])
  }

  /** The first build decides, for good: made if there is a vault to make and it could be, else failed ever after. */
  lemma {:induction false} FirstBuildDecides(s: State, steps: seq<Step>, t: State)
    requires Reaches(s, steps, t)
    ensures t.box.build == if s.box.build != Unbuilt then s.box.build
                           else if FirstBuild(steps).None? then Unbuilt
                           else if s.box.configured && FirstBuild(steps).value then Built
                           else BuildFailed
    ensures t.box.configured == s.box.configured
    decreases steps
  {
    if steps != [] {
      FirstBuildDecides(Apply(s, steps[0]), steps[1..], t);
    }
  }

  /** Nothing is fetched, stored or given past this point of the log. */
  ghost predicate NothingPast(log: seq<Event>, from: nat) {
    forall i | from <= i < |log| :: !log[i].Fetched? && !log[i].Stored? && (log[i].Answered? ==> log[i].given.None?)
  }

  lemma FailedStep(s: State, step: Step)
    requires Inv(s) && s.box.build == BuildFailed && Enabled(s, step)
    ensures var u := Apply(s, step); u.box.build == BuildFailed && s.log <= u.log && NothingPast(u.log, |s.log|)
  {
    if !step.Begin? {
      assert CallOk(s, step.call, s.calls[step.call]);
    }
  }

  /** A vault that failed to build is never asked, and every later call fails. */
  lemma {:induction false} FailedForGood(s: State, steps: seq<Step>, t: State)
    requires Inv(s) && s.box.build == BuildFailed && Reaches(s, steps, t)
    ensures t.box.build == BuildFailed && s.log <= t.log && NothingPast(t.log, |s.log|)
    decreases steps
  {
    if steps != [] {
      var u := Apply(s, steps[0]);
      StepKeepsInv(s, steps[0]);
      FailedStep(s, steps[0]);
      FailedForGood(u, steps[1..], t);
      assert forall i | |s.log| <= i < |u.log| :: u.log[i] == t.log[i];
    }
  }

  lemma EveryFailureIsForGood(configured: bool, ttl: int, before: seq<Step>, s: State, steps: seq<Step>, t: State)
    requires Reaches(Init(configured, ttl), before, s) && s.box.build == BuildFailed && Reaches(s, steps, t)
    ensures t.box.build == BuildFailed && s.log <= t.log && NothingPast(t.log, |s.log|)
  {
    InitOk(configured, ttl);
    ReachableInv(Init(configured, ttl), before, s);
    FailedForGood(s, steps, t);
  }

  // --- what was stored last is served until its time --------------------------------------------

  /** The last store for its ref. */
  ghost predicate LastStore(log: seq<Event>, i: nat) {
    i < |log| && log[i].Stored? && forall j | i < j < |log| && log[j].Stored? :: log[j].ref != log[i].ref
  }

  ghost predicate CacheHoldsLast(s: State) {
    forall i: nat | LastStore(s.log, i) ::
      && s.log[i].ref in s.box.cache
      && s.box.cache[s.log[i].ref] == Cached(s.log[i].val, s.log[i].at + s.box.ttl)
  }

  lemma StepKeepsLast(s: State, step: Step)
    requires CacheHoldsLast(s) && Enabled(s, step)
    ensures CacheHoldsLast(Apply(s, step))
  {
    var t := Apply(s, step);
    forall i: nat | LastStore(t.log, i)
      ensures t.log[i].ref in t.box.cache
      ensures t.box.cache[t.log[i].ref] == Cached(t.log[i].val, t.log[i].at + t.box.ttl)
    {
      if i < |s.log| {
        assert s.log[i] == t.log[i];
        assert forall j | i < j < |s.log| :: s.log[j] == t.log[j];
        assert LastStore(s.log, i);
        if step.DoStore? {
          assert t.log[|s.log|].Stored?;
        }
      }
    }
  }

  lemma {:induction false} CacheHoldsLastOver(s: State, steps: seq<Step>, t: State)
    requires CacheHoldsLast(s) && Reaches(s, steps, t)
    ensures CacheHoldsLast(t)
    decreases steps
  {
    if steps != [] {
      StepKeepsLast(s, steps[0]);
      CacheHoldsLastOver(Apply(s, steps[0]), steps[1..], t);
    }
  }

  /**
   A call within a ttl of the last store for its ref is answered with that at once; a later one
   goes to the vault with it in hand.
   */
  lemma LastStoreIsServed(configured: bool, ttl: int, steps: seq<Step>, t: State, i: nat, now: int)
    requires Reaches(Init(configured, ttl), steps, t) && LastStore(t.log, i)
    ensures var e, c, u := t.log[i], t.nextCall, Apply(t, Begin(t.log[i].ref, now));
            if now < e.at + ttl then
              u.log == t.log + [Began(c, e.ref), Answered(c, e.ref, Some(e.val), FromCache(now))]
            else
              u.log == t.log + [Began(c, e.ref)] && c in u.calls && u.calls[c].had == Some(e.val)
  {
    CacheHoldsLastOver(Init(configured, ttl), steps, t);
    TtlStays(Init(configured, ttl), steps, t);
  }

  // --- the box itself ----------------------------------------------------------------------

  /** The calls of the vault this box may make: whether building it works, and what a fetch yields. */
  datatype Vault = Vault(builds: bool, got: Option<string>)

  /** What a call does to the box at once: build the vault, or store what it fetched. */
  datatype Touch = ToBuild(builds: bool) | ToStore(ref: string, val: string, at: int)

  function TouchBy(b: Box, touch: Touch): Box {
    match touch
    case ToBuild(builds) => BuildOnce(b, builds)
    case ToStore(ref, val, at) => Store(b, ref, val, at)
  }

  function Touched(b: Box, ts: seq<Touch>): Box
    decreases ts
  {
    if ts == [] then b else Touched(TouchBy(b, ts[0]), ts[1..])
  }

  /** What others do to the box while one call waits: for its turn to build, for its fetch, and to store. */
  datatype Waits = Waits(built: seq<Touch>, fetched: seq<Touch>, stored: seq<Touch>)

  /** A call amid others: the box it leaves and the answer it gives. */
  function Amid(b: Box, ref: string, now: int, vault: Vault, later: int, w: Waits): (Box, Option<string>) {
    if IsFresh(b, ref, now) then (b, Known(b, ref))
    else
      var built := BuildOnce(Touched(b, w.built), vault.builds);
      if built.build != Built then (built, Known(b, ref))
      else
        var fetched := Touched(built, w.fetched);
        if vault.got.None? then (fetched, Known(b, ref))
        else (Store(Touched(fetched, w.stored), ref, vault.got.value, later), vault.got)
  }

  function TouchesOf(s: State, steps: seq<Step>): seq<Touch>
    decreases steps
  {
    if steps == [] || !Enabled(s, steps[0]) then []
    else
      (match steps[0]
       case DoBuild(_, builds) => [ToBuild(builds)]
       case DoStore(c, now) => [ToStore(s.calls[c].ref, s.calls[c].phase.val, now)]
       case _ => [])
      + TouchesOf(Apply(s, steps[0]), steps[1..])
  }

  /** Steps of other calls than `c`. */
  predicate NotBy(c: nat, steps: seq<Step>) {
    forall step | step in steps :: !step.Begin? ==> step.call != c
  }

  /** Whatever others do, they change the box by their touches alone and leave a call as it is. */
  lemma {:induction false} OthersTouch(s: State, steps: seq<Step>, t: State, c: nat)
    requires Reaches(s, steps, t) && NotBy(c, steps) && c in s.calls && c < s.nextCall
    ensures t.box == Touched(s.box, TouchesOf(s, steps))
    ensures c in t.calls && t.calls[c] == s.calls[c] && c < t.nextCall
    decreases steps
  {
    if steps != [] {
      var u := Apply(s, steps[0]);
      assert steps[0] in steps && forall step | step in steps[1..] :: step in steps;
      OthersTouch(u, steps[1..], t, c);
      TouchFirst(s, steps);
    }
  }

  lemma TouchFirst(s: State, steps: seq<Step>)
    requires steps != [] && Enabled(s, steps[0])
    ensures Touched(s.box, TouchesOf(s, steps))
         == Touched(Apply(s, steps[0]).box, TouchesOf(Apply(s, steps[0]), steps[1..]))
  {
    var rest := TouchesOf(Apply(s, steps[0]), steps[1..]);
    assert [] + rest == rest;
    if steps[0].DoBuild? || steps[0].DoStore? {
      var touch := TouchesOf(s, steps)[0];
      assert TouchesOf(s, steps) == [touch] + rest && ([touch] + rest)[1..] == rest;
    }
  }

  /** A call that missed, up to its build: others ran first, from after its lookup to `u`. */
  ghost predicate Awaits(s: State, ref: string, now: int, first: seq<Step>, u: State) {
    !IsFresh(s.box, ref, now) && Reaches(Apply(s, Begin(ref, now)), first, u) && NotBy(s.nextCall, first)
  }

  lemma BuildsAmid(s: State, ref: string, now: int, vault: Vault, first: seq<Step>, u: State)
    requires Awaits(s, ref, now, first, u)
    ensures var c := s.nextCall;
            && c in u.calls && c < u.nextCall && u.calls[c] == Call(ref, Known(s.box, ref), Building, |s.log|)
            && u.box == Touched(s.box, TouchesOf(Apply(s, Begin(ref, now)), first))
            && Apply(u, DoBuild(c, vault.builds)).box == BuildOnce(u.box, vault.builds)
  {
    OthersTouch(Apply(s, Begin(ref, now)), first, u, s.nextCall);
  }

  /** A call whose build fails leaves the box and gives the answer said, whatever others did meanwhile. */
  lemma UnbuiltAmid(s: State, ref: string, now: int, vault: Vault, later: int, first: seq<Step>, u: State, w: Waits)
    requires Awaits(s, ref, now, first, u) && w.built == TouchesOf(Apply(s, Begin(ref, now)), first)
    requires BuildOnce(u.box, vault.builds).build != Built
    ensures Enabled(u, DoBuild(s.nextCall, vault.builds))
    ensures var t := Apply(u, DoBuild(s.nextCall, vault.builds));
            t.log != [] && t.log[|t.log| - 1].Answered?
            && (t.box, t.log[|t.log| - 1].given) == Amid(s.box, ref, now, vault, later, w)
  {
    BuildsAmid(s, ref, now, vault, first, u);
  }

  /** So does one that gets to its fetch, whether the fetch fails or its value is stored later. */
  lemma FetchedAmid(s: State, ref: string, now: int, vault: Vault, later: int, first: seq<Step>, u: State,
                    second: seq<Step>, v: State, third: seq<Step>, x: State, w: Waits)
    requires Awaits(s, ref, now, first, u) && w.built == TouchesOf(Apply(s, Begin(ref, now)), first)
    requires BuildOnce(u.box, vault.builds).build == Built && Enabled(u, DoBuild(s.nextCall, vault.builds))
    requires var mid := Apply(u, DoBuild(s.nextCall, vault.builds));
             Reaches(mid, second, v) && NotBy(s.nextCall, second) && w.fetched == TouchesOf(mid, second)
    requires Enabled(v, DoFetch(s.nextCall, vault.got))
    requires vault.got.Some? ==>
               var mid := Apply(v, DoFetch(s.nextCall, vault.got));
               Reaches(mid, third, x) && NotBy(s.nextCall, third) && w.stored == TouchesOf(mid, third)
    ensures vault.got.Some? ==> Enabled(x, DoStore(s.nextCall, later))
    ensures var t := if vault.got.None? then Apply(v, DoFetch(s.nextCall, None))
                     else Apply(x, DoStore(s.nextCall, later));
            t.log != [] && t.log[|t.log| - 1].Answered?
            && (t.box, t.log[|t.log| - 1].given) == Amid(s.box, ref, now, vault, later, w)
  {
    var c := s.nextCall;
    BuildsAmid(s, ref, now, vault, first, u);
    OthersTouch(Apply(u, DoBuild(c, vault.builds)), second, v, c);
    if vault.got.Some? {
      OthersTouch(Apply(v, DoFetch(c, vault.got)), third, x, c);
    }
  }

  /** With nothing in between, the four steps of a call taken in a row. */
  lemma {:induction false} AloneIsARun(s: State, ref: string, now: int, vault: Vault, later: int)
    returns (steps: seq<Step>, t: State)
    ensures Reaches(s, steps, t) && t.log != [] && t.log[|t.log| - 1].Answered?
    ensures (t.box, t.log[|t.log| - 1].given) == Amid(s.box, ref, now, vault, later, Waits([], [], []))
  {
    var c := s.nextCall;
    steps, t := [Begin(ref, now)], Apply(s, Begin(ref, now));
    assert [Begin(ref, now)][1..] == [] && Reaches(t, [], t);
    if !IsFresh(s.box, ref, now) {
      ReachesFurther(s, steps, t, DoBuild(c, vault.builds));
      steps, t := steps + [DoBuild(c, vault.builds)], Apply(t, DoBuild(c, vault.builds));
      if t.box.build == Built {
        ReachesFurther(s, steps, t, DoFetch(c, vault.got));
        steps, t := steps + [DoFetch(c, vault.got)], Apply(t, DoFetch(c, vault.got));
        if vault.got.Some? {
          ReachesFurther(s, steps, t, DoStore(c, later));
          steps, t := steps + [DoStore(c, later)], Apply(t, DoStore(c, later));
        }
      }
    }
  }

  class VaultBox {
    var cache: map<string, Cached>
    var build: Build
    const configured: bool
    const ttl: int

    ghost function Value(): Box
      reads this
    {
      Box(cache, build, configured, ttl)
    }

    constructor (configured: bool, ttl: int)
      ensures Value() == Init(configured, ttl).box
    {
      cache, build := map[], Unbuilt;
      this.configured, this.ttl := configured, ttl;
    }

    /** The vault, built by the first call that asks for it. */
    method Get(vault: Vault) returns (ok: bool)
      modifies this`build
      ensures Value() == BuildOnce(old(Value()), vault.builds) && ok == (build == Built)
    {
      if build == Unbuilt {
        build := if configured && vault.builds then Built else BuildFailed;
      }
      ok := build == Built;
    }

    /** What other calls do to the box. */
    method Meanwhile(ts: seq<Touch>)
      modifies this
      ensures Value() == Touched(old(Value()), ts)
    {
      var i := 0;
      assert ts[0..] == ts;
      while i < |ts|
        invariant i <= |ts| && Touched(Value(), ts[i..]) == Touched(old(Value()), ts)
      {
        assert ts[i..][1..] == ts[i + 1..];
        match ts[i] {
          case ToBuild(builds) =>
            var ok := Get(Vault(builds, None));
          case ToStore(ref, val, at) =>
            cache := cache[ref := Cached(val, at + ttl)];
        }
        i := i + 1;
      }
    }

    /**
     A fresh value as it is; else a fetch, and on failure what was known. Nothing when nothing
     was. The lock is dropped while the vault is built, while it is asked, and before the store.
     */
    method Secret(ref: string, now: int, vault: Vault, later: int, w: Waits) returns (given: Option<string>)
      modifies this
      ensures (Value(), given) == Amid(old(Value()), ref, now, vault, later, w)
    {
      var had := ref in cache;
      var prev := if had then cache[ref] else Cached("", 0);
      if had && now < prev.exp {
        return Some(prev.val);
      }
      Meanwhile(w.built);
      var ok := Get(vault);
      if !ok {
        return if had then Some(prev.val) else None;
      }
      Meanwhile(w.fetched);
      if vault.got.None? {
        return if had then Some(prev.val) else None;
      }
      Meanwhile(w.stored);
      cache := cache[ref := Cached(vault.got.value, later + ttl)];
      given := vault.got;
    }
  }
}
