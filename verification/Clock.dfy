/**
 The steerable clock of a development stack (adapters/sequencer/clock_dev.go): real time until
 told otherwise, then standing where it was put. Times are nanoseconds since the zero time.
 */
module Clock {
  import opened Lists

  /** What a clock at a position reads; the zero position is that of a clock never advanced. */
  function Reading(position: int, wall: int): int {
    if position == 0 then wall else position
  }

  function Moved(position: int, t: int): int {
    if t > position then t else position
  }

  class SteerableClock {
    var position: int

    constructor ()
      ensures position == 0
    {
      position := 0;
    }

    method Now(wall: int) returns (t: int)
      ensures t == Reading(position, wall)
    {
      if position == 0 {
        return wall;
      }
      t := position;
    }

    /** The position is no earlier than `t` afterwards, and is told. */
    method Advance(t: int) returns (p: int)
      modifies this
      ensures position == Moved(old(position), t) && p == position
    {
      if t > position {
        position := t;
      }
      p := position;
    }
  }

  // --- runs of a clock ---------------------------------------------------------------

  /** A request of some client to advance, or a reading taken when real time is `wall`. */
  datatype Event = Ask(t: int) | Read(wall: int)

  function Position(es: seq<Event>): int {
    if es == [] then 0
    else if Last(es).Ask? then Moved(Position(Front(es)), Last(es).t)
    else Position(Front(es))
  }

  /** What the `i`-th event read. */
  function Stamp(es: seq<Event>, i: nat): int
    requires i < |es| && es[i].Read?
  {
    Reading(Position(es[..i]), es[i].wall)
  }

  /** A run of the class is a run of the events. */
  method Run(clock: SteerableClock, es: seq<Event>) returns (stamps: seq<int>)
    requires clock.position == 0
    modifies clock
    ensures clock.position == Position(es)
    ensures |stamps| == |es| && forall i | 0 <= i < |es| && es[i].Read? :: stamps[i] == Stamp(es, i)
  {
    stamps := [];
    for i := 0 to |es|
      invariant clock.position == Position(es[..i]) && |stamps| == i
      invariant forall j | 0 <= j < i && es[j].Read? :: stamps[j] == Stamp(es, j)
    {
      assert Front(es[..i + 1]) == es[..i] && Last(es[..i + 1]) == es[i];
      var t;
      match es[i] {
        case Ask(at) => t := clock.Advance(at);
        case Read(wall) => t := clock.Now(wall);
      }
      stamps := stamps + [t];
    }
    assert es[..|es|] == es;
  }

  /** The clock stands at the latest instant ever asked for, and at zero when none was. */
  lemma {:induction false} PositionIsLatest(es: seq<Event>)
    ensures Position(es) >= 0
    ensures forall e | e in es && e.Ask? :: e.t <= Position(es)
    ensures Position(es) == 0 || Ask(Position(es)) in es
  {
    if es != [] {
      PositionIsLatest(Front(es));
      assert es == Front(es) + [Last(es)];
    }
  }

  /** So it does not matter how the clients' requests interleave, nor how often one is repeated. */
  lemma PositionIgnoresOrder(a: seq<Event>, b: seq<Event>)
    requires forall t :: Ask(t) in a <==> Ask(t) in b
    ensures Position(a) == Position(b)
  {
    PositionIsLatest(a);
    PositionIsLatest(b);
  }

  lemma {:induction false} PositionOnlyGrows(es: seq<Event>, i: nat, j: nat)
    requires i <= j <= |es|
    ensures Position(es[..i]) <= Position(es[..j])
  {
    if i < j {
      assert Front(es[..j]) == es[..j - 1];
      PositionOnlyGrows(es, i, j - 1);
    }
  }

  /** Once the clock was advanced, a reading is no earlier than anything asked for, and no later reading is earlier. */
  lemma ReadingsNeverGoBack(es: seq<Event>, i: nat, j: nat)
    requires i < j < |es| && es[i].Read? && es[j].Read? && Position(es[..i]) > 0
    ensures Stamp(es, i) <= Stamp(es, j)
    ensures forall k | 0 <= k < i && es[k].Ask? :: es[k].t <= Stamp(es, i)
  {
    PositionOnlyGrows(es, i, j);
    PositionIsLatest(es[..i]);
    forall k | 0 <= k < i && es[k].Ask? ensures es[k].t <= Stamp(es, i) {
      assert es[k] in es[..i];
    }
  }

  /** Real time does not go back. */
  ghost predicate RealTime(es: seq<Event>) {
    && (forall i | 0 <= i < |es| && es[i].Read? :: es[i].wall >= 0)
    && forall i, j | 0 <= i < j < |es| && es[i].Read? && es[j].Read? :: es[i].wall <= es[j].wall
  }

  /** Neither do the readings. */
  ghost predicate NeverBack(es: seq<Event>) {
    forall i: nat, j: nat | i < j < |es| && es[i].Read? && es[j].Read? :: Stamp(es, i) <= Stamp(es, j)
  }

  /** No reading was taken of real time later than `t`. */
  ghost predicate ReadBy(es: seq<Event>, t: int) {
    forall e | e in es && e.Read? :: e.wall <= t
  }

  /**
   A clock first advanced to `t` never reads earlier than it read before, whatever follows,
   exactly when no reading taken before that was of a real time later than `t`.
   */
  lemma FirstAdvanceDecides(before: seq<Event>, t: int)
    requires Position(before) == 0 && t > 0 && RealTime(before)
    ensures (forall after | RealTime(before + [Ask(t)] + after) :: NeverBack(before + [Ask(t)] + after)) <==>
            ReadBy(before, t)
  {
    if ReadBy(before, t) {
      forall after | RealTime(before + [Ask(t)] + after) ensures NeverBack(before + [Ask(t)] + after) {
        AdvancedInTime(before, t, after);
      }
    } else {
      AdvancedTooLate(before, t);
    }
  }

  lemma PositionAround(before: seq<Event>, t: int, after: seq<Event>, i: nat)
    requires Position(before) == 0 && t > 0 && i <= |before| + 1 + |after|
    ensures var es := before + [Ask(t)] + after;
            if i <= |before| then Position(es[..i]) == 0 else Position(es[..i]) >= t
  {
    var es, n := before + [Ask(t)] + after, |before|;
    PositionIsLatest(es[..i]);
    assert es[..n] == before;
    if i <= n {
      PositionOnlyGrows(es, i, n);
    } else {
      PositionOnlyGrows(es, n + 1, i);
      assert es[..n + 1] == before + [Ask(t)];
      assert Front(es[..n + 1]) == before && Last(es[..n + 1]) == Ask(t);
    }
  }

  lemma AdvancedInTime(before: seq<Event>, t: int, after: seq<Event>)
    requires Position(before) == 0 && t > 0 && ReadBy(before, t) && RealTime(before + [Ask(t)] + after)
    ensures NeverBack(before + [Ask(t)] + after)
  {
    var es, n := before + [Ask(t)] + after, |before|;
    forall i: nat, j: nat | i < j < |es| && es[i].Read? && es[j].Read? ensures Stamp(es, i) <= Stamp(es, j) {
      PositionAround(before, t, after, i);
      PositionAround(before, t, after, j);
      if i > n {
        PositionOnlyGrows(es, i, j);
      } else if j > n {
        assert es[i] == before[i] && before[i] in before;
      }
    }
  }

  lemma AdvancedTooLate(before: seq<Event>, t: int)
    requires Position(before) == 0 && t > 0 && RealTime(before) && !ReadBy(before, t)
    ensures exists after :: RealTime(before + [Ask(t)] + after) && !NeverBack(before + [Ask(t)] + after)
  {
    var e :| e in before && e.Read? && e.wall > t;
    var i :| 0 <= i < |before| && before[i] == e;
    var wall := LatestRead(before, t);
    var after, n := [Read(wall)], |before|;
    var es := before + [Ask(t)] + after;
    RealTimeExtends(before, t, wall);
    assert es[i] == before[i];
    PositionAround(before, t, after, i);
    assert es[..n + 1] == before + [Ask(t)];
    assert Front(es[..n + 1]) == before && Last(es[..n + 1]) == Ask(t);
    assert Stamp(es, i) == e.wall && Stamp(es, n + 1) == t;
  }

  lemma RealTimeExtends(before: seq<Event>, t: int, wall: int)
    requires RealTime(before) && ReadBy(before, wall) && wall >= 0
    ensures RealTime(before + [Ask(t)] + [Read(wall)])
  {
    var es := before + [Ask(t)] + [Read(wall)];
    assert forall k | 0 <= k < |before| :: es[k] == before[k] && es[k] in before;
  }

  /** A real time no earlier than any read so far. */
  function LatestRead(es: seq<Event>, least: int): (r: int)
    ensures least <= r && ReadBy(es, r)
  {
    if es == [] then least
    else
      var before := LatestRead(Front(es), least);
      assert es == Front(es) + [Last(es)];
      if Last(es).Read? && Last(es).wall > before then Last(es).wall else before
  }

  /** Real time had been read already when the clock was put behind it. */
  lemma AFirstAdvanceCanGoBack()
    ensures var es := [Read(10), Ask(5), Read(11)]; RealTime(es) && Stamp(es, 0) == 10 && Stamp(es, 2) == 5
  {
    var es := [Read(10), Ask(5), Read(11)];
    assert es[..0] == [];
    assert Front(es[..2]) == [Read(10)] && Last(es[..2]) == Ask(5);
    assert Front([Read(10)]) == [];
  }
}
