/** Exits of a 5 EMA position: the ordered reasons, and the trailing floor against its closed form over a price path. */
module TrailingFloor {
  import opened Domain

  const TRAIL_STEP: real := 0.20

  const TRAIL_LOCK: real := 0.15

  const REWARD_RATIO: real := 3.0

  const FALLBACK_STOP: real := 0.20

  /** 15:45, in minutes of the day. */
  const TIME_EXIT: int := 945

  datatype Reason = TimeExit | UnderlyingStop | Target | Trail | Fallback

  // ---------------------------------------------------------------
  // The floor in closed form
  // ---------------------------------------------------------------

  function Times(a: real, unit: real): real {
    a * unit
  }

  /** Python's int(): truncation towards zero. */
  function Truncated(x: real): int {
    if x >= 0.0 then x.Floor else -((-x).Floor)
  }

  /** What the peak must rise by for the next lock. */
  function StepOf(entry: Price): (r: real)
    ensures r > 0.0
  {
    entry * TRAIL_STEP
  }

  /** What one lock raises the floor by. */
  function LockOf(entry: Price): (r: real)
    ensures r > 0.0
  {
    entry * TRAIL_LOCK
  }

  /** Whole steps the peak has risen above the entry premium. */
  function Steps(entry: Price, peak: real): int {
    Truncated((peak - entry) / StepOf(entry))
  }

  /** The peak has come at least one step above entry. */
  predicate Lifted(entry: Price, peak: real) {
    peak - entry >= StepOf(entry)
  }

  /** The floor after `steps` locks. */
  function Locked(entry: Price, steps: int): real {
    entry + Times(steps as real, LockOf(entry))
  }

  /** The floor a peak locks: one lock per whole step, none below the first. */
  function FloorFrom(entry: Price, peak: real): Option<real> {
    if Steps(entry, peak) > 0 then Some(Locked(entry, Steps(entry, peak))) else None
  }

  /** The highest of the entry premium and the prices seen. */
  function PeakOf(entry: real, mids: seq<real>): real {
    if mids == [] then entry else MaxReal(PeakOf(entry, mids[..|mids| - 1]), mids[|mids| - 1])
  }

  lemma Scale(a: real, b: real, unit: real)
    requires unit > 0.0
    ensures a <= b <==> Times(a, unit) <= Times(b, unit)
    ensures a < b <==> Times(a, unit) < Times(b, unit)
  {
  }

  lemma QuotientTimes(x: real, unit: real)
    requires unit > 0.0
    ensures Times(x / unit, unit) == x
    ensures x >= 0.0 ==> x / unit >= 0.0
  {
  }

  lemma StepsBetween(entry: Price, peak: real)
    requires peak >= entry
    ensures
      var k := Steps(entry, peak) as real;
      && Steps(entry, peak) >= 0
      && Times(k, StepOf(entry)) <= peak - entry < Times(k + 1.0, StepOf(entry))
  {
    hide StepOf, Times;
    var unit := StepOf(entry);
    var q := (peak - entry) / unit;
    QuotientTimes(peak - entry, unit);
    var k := q.Floor as real;
    Scale(k, q, unit);
    Scale(q, k + 1.0, unit);
  }

  /** A locked floor is strictly above entry, strictly below the peak, and keeps at least 3/8 of the best gain. */
  lemma FloorBetween(entry: Price, peak: real)
    requires peak >= entry && FloorFrom(entry, peak).Some?
    ensures entry < FloorFrom(entry, peak).value < peak
    ensures FloorFrom(entry, peak).value - entry >= (peak - entry) * 0.375
  {
    hide Steps, StepOf, LockOf, Times, Locked;
    StepsBetween(entry, peak);
    LockedBetween(entry, peak, Steps(entry, peak));
  }

  lemma LockedBetween(entry: Price, peak: real, k: int)
    requires k >= 1 && Times(k as real, StepOf(entry)) <= peak - entry < Times(k as real + 1.0, StepOf(entry))
    ensures entry < Locked(entry, k) < peak
    ensures Locked(entry, k) - entry >= (peak - entry) * 0.375
  {
    hide Times;
    Scale(1.0, k as real, entry);
    InUnits(k as real, entry);
  }

  lemma InUnits(k: real, entry: Price)
    ensures Times(k, StepOf(entry)) == Times(k, entry) * TRAIL_STEP
    ensures Times(k, LockOf(entry)) == Times(k, entry) * TRAIL_LOCK
    ensures Times(k + 1.0, StepOf(entry)) == (Times(k, entry) + entry) * TRAIL_STEP
    ensures Times(1.0, entry) == entry
  {
  }

  /** A higher peak never unlocks or lowers the floor. */
  lemma FloorMonotone(entry: Price, low: real, high: real)
    requires entry <= low <= high && FloorFrom(entry, low).Some?
    ensures FloorFrom(entry, high).Some? && FloorFrom(entry, low).value <= FloorFrom(entry, high).value
  {
    hide Steps, StepOf, LockOf, Times;
    StepsMonotone(entry, low, high);
    Scale(Steps(entry, low) as real, Steps(entry, high) as real, LockOf(entry));
  }

  lemma StepsMonotone(entry: Price, low: real, high: real)
    requires entry <= low <= high
    ensures Steps(entry, low) <= Steps(entry, high)
  {
    hide StepOf, Times;
    var unit := StepOf(entry);
    QuotientTimes(low - entry, unit);
    QuotientTimes(high - entry, unit);
    Scale((low - entry) / unit, (high - entry) / unit, unit);
  }

  /** The first floor locks exactly at 20% above entry. */
  lemma FloorLocksIff(entry: Price, peak: real)
    requires peak >= entry
    ensures FloorFrom(entry, peak).Some? <==> Lifted(entry, peak)
  {
    hide Steps, Locked, StepOf, LockOf, Times;
    StepsBetween(entry, peak);
    Scale(1.0, Steps(entry, peak) as real, StepOf(entry));
    Once(StepOf(entry));
  }

  lemma Once(unit: real)
    ensures Times(1.0, unit) == unit
    ensures Times(0.0 + 1.0, unit) == unit
  {
  }

  lemma {:induction false} PeakCovers(entry: real, mids: seq<real>)
    ensures PeakOf(entry, mids) >= entry
    ensures forall k :: 0 <= k < |mids| ==> mids[k] <= PeakOf(entry, mids)
  {
    if mids != [] {
      PeakCovers(entry, mids[..|mids| - 1]);
      assert forall k :: 0 <= k < |mids| - 1 ==> mids[k] == mids[..|mids| - 1][k];
    }
  }

  lemma {:induction false} PeakGrows(entry: real, mids: seq<real>, n: nat)
    requires n <= |mids|
    ensures PeakOf(entry, mids[..n]) <= PeakOf(entry, mids)
  {
    if n == |mids| {
      assert mids[..n] == mids;
    } else {
      assert mids[..|mids| - 1][..n] == mids[..n];
      PeakGrows(entry, mids[..|mids| - 1], n);
    }
  }

  // ---------------------------------------------------------------
  // The running state
  // ---------------------------------------------------------------

  datatype State = State(peak: real, floor: Option<real>)

  /** The floor comes from the peak before this price; only then does the price move the peak. */
  function Trailed(entry: Price, s: State, mid: real): State {
    State(MaxReal(s.peak, mid), if FloorFrom(entry, s.peak).Some? then FloorFrom(entry, s.peak) else s.floor)
  }

  function TrailedAll(entry: Price, mids: seq<real>): State {
    if mids == [] then State(entry, None)
    else Trailed(entry, TrailedAll(entry, mids[..|mids| - 1]), mids[|mids| - 1])
  }

  predicate TrailFires(entry: Price, s: State, mid: real) {
    var floor := Trailed(entry, s, mid).floor;
    floor.Some? && mid <= floor.value
  }

  /** After any path the peak is the path's, and the floor is that of the peak before the last price. */
  lemma {:induction false} TrailedClosedForm(entry: Price, mids: seq<real>)
    ensures TrailedAll(entry, mids).peak == PeakOf(entry, mids)
    ensures TrailedAll(entry, mids).floor
            == if mids == [] then None else FloorFrom(entry, PeakOf(entry, mids[..|mids| - 1]))
  {
    hide Steps, Locked, StepOf, LockOf;
    var n := |mids| - 1;
    if mids != [] {
      TrailedClosedForm(entry, mids[..n]);
      if n > 0 {
        PeakCovers(entry, mids[..n][..n - 1]);
        PeakGrows(entry, mids[..n], n - 1);
        if FloorFrom(entry, PeakOf(entry, mids[..n][..n - 1])).Some? {
          FloorMonotone(entry, PeakOf(entry, mids[..n][..n - 1]), PeakOf(entry, mids[..n]));
        }
      } else {
        assert mids[..n] == [];
      }
    }
  }

  /** Along any path neither the peak nor the floor ever comes down. */
  lemma TrailNeverFalls(entry: Price, mids: seq<real>, n: nat)
    requires n <= |mids|
    ensures
      var early, late := TrailedAll(entry, mids[..n]), TrailedAll(entry, mids);
      && early.peak <= late.peak
      && (early.floor.Some? ==> late.floor.Some? && early.floor.value <= late.floor.value)
  {
    hide Steps, Locked, StepOf, LockOf;
    TrailedClosedForm(entry, mids[..n]);
    TrailedClosedForm(entry, mids);
    PeakGrows(entry, mids, n);
    if n > 0 {
      var m := |mids| - 1;
      assert mids[..n][..n - 1] == mids[..m][..n - 1];
      PeakCovers(entry, mids[..n][..n - 1]);
      PeakGrows(entry, mids[..m], n - 1);
      if FloorFrom(entry, PeakOf(entry, mids[..n][..n - 1])).Some? {
        FloorMonotone(entry, PeakOf(entry, mids[..n][..n - 1]), PeakOf(entry, mids[..m]));
      }
    }
  }

  /** A price fires exactly when an earlier peak reached 20% above entry and the price is at or below its floor. */
  lemma TrailFiresIff(entry: Price, mids: seq<real>, mid: real)
    ensures TrailFires(entry, TrailedAll(entry, mids), mid) <==>
            var peak := PeakOf(entry, mids);
            Lifted(entry, peak) && mid <= Locked(entry, Steps(entry, peak))
  {
    hide Steps, Locked, Lifted, StepOf, LockOf;
    TrailedClosedForm(entry, mids + [mid]);
    TrailedClosedForm(entry, mids);
    assert (mids + [mid])[..|mids|] == mids;
    PeakCovers(entry, mids);
    FloorLocksIff(entry, PeakOf(entry, mids));
  }

  /** The price that fires is never a new high, so it gives back something. */
  lemma FiringPriceBelowPeak(entry: Price, mids: seq<real>, mid: real)
    requires TrailFires(entry, TrailedAll(entry, mids), mid)
    ensures mid < PeakOf(entry, mids)
  {
    hide Steps, Locked, Lifted, StepOf, LockOf;
    TrailFiresIff(entry, mids, mid);
    PeakCovers(entry, mids);
    FloorLocksIff(entry, PeakOf(entry, mids));
    FloorBetween(entry, PeakOf(entry, mids));
  }

  // ---------------------------------------------------------------
  // All reasons
  // ---------------------------------------------------------------

  /** What is known about a position: the levels on the underlying are absent after a restart. */
  datatype Levels = Levels(right: Right, stop: Option<real>, entryUnderlying: Option<real>)

  /** One look at the market; the option's mid is fetched again for the fallback stop, as `later`. */
  datatype Look = Look(minute: int, underlying: Option<real>, mid: Option<real>, later: Option<real>)

  predicate StopHit(l: Levels, underlying: Option<real>) {
    && underlying.Some? && l.stop.Some?
    && if l.right == Call then underlying.value <= l.stop.value else underlying.value >= l.stop.value
  }

  predicate TargetHit(l: Levels, underlying: Option<real>) {
    && underlying.Some? && l.stop.Some? && l.entryUnderlying.Some?
    && var risk := AbsReal(l.entryUnderlying.value - l.stop.value);
       && risk > 0.0
       && if l.right == Call then underlying.value >= l.entryUnderlying.value + REWARD_RATIO * risk
          else underlying.value <= l.entryUnderlying.value - REWARD_RATIO * risk
  }

  predicate FallbackHit(entry: Price, l: Levels, mid: Option<real>) {
    l.stop.None? && mid.Some? && mid.value <= entry * (1.0 - FALLBACK_STOP)
  }

  /** The first reason that applies, in order of priority. */
  function ReasonFor(entry: Price, l: Levels, trailing: bool, s: State, look: Look): Option<Reason> {
    if look.minute >= TIME_EXIT then Some(TimeExit)
    else if StopHit(l, look.underlying) then Some(UnderlyingStop)
    else if !trailing && TargetHit(l, look.underlying) then Some(Target)
    else if trailing && look.mid.Some? && TrailFires(entry, s, look.mid.value) then Some(Trail)
    else if FallbackHit(entry, l, look.later) then Some(Fallback)
    else None
  }

  function Observed(entry: Price, trailing: bool, s: State, look: Look): State {
    if trailing && look.mid.Some? then Trailed(entry, s, look.mid.value) else s
  }

  function MidsOf(looks: seq<Look>): seq<real> {
    if looks == [] then []
    else
      var look := looks[|looks| - 1];
      MidsOf(looks[..|looks| - 1]) + if look.mid.Some? then [look.mid.value] else []
  }

  function ObservedAll(entry: Price, trailing: bool, looks: seq<Look>): State {
    if looks == [] then State(entry, None)
    else Observed(entry, trailing, ObservedAll(entry, trailing, looks[..|looks| - 1]), looks[|looks| - 1])
  }

  lemma {:induction false} ObservedIsTrailed(entry: Price, looks: seq<Look>)
    ensures ObservedAll(entry, true, looks) == TrailedAll(entry, MidsOf(looks))
  {
    if looks != [] {
      var n := |looks| - 1;
      ObservedIsTrailed(entry, looks[..n]);
      var before := MidsOf(looks[..n]);
      if looks[n].mid.Some? {
        assert (before + [looks[n].mid.value])[..|before|] == before;
      } else {
        assert before + [] == before;
      }
    }
  }

  /**
   * The trail variant exits for the trail exactly at the first look that is not overridden by the
   * clock or the underlying stop and whose price is at or below the floor of the earlier peak.
   */
  lemma TrailReasonIff(entry: Price, l: Levels, looks: seq<Look>, look: Look)
    ensures ReasonFor(entry, l, true, ObservedAll(entry, true, looks), look) == Some(Trail) <==>
            var peak := PeakOf(entry, MidsOf(looks));
            && look.minute < TIME_EXIT && !StopHit(l, look.underlying) && look.mid.Some?
            && Lifted(entry, peak)
            && look.mid.value <= Locked(entry, Steps(entry, peak))
  {
    hide Steps, Locked, Lifted, StepOf, LockOf;
    ObservedIsTrailed(entry, looks);
    if look.mid.Some? {
      TrailFiresIff(entry, MidsOf(looks), look.mid.value);
    }
  }

  /**
   * With a floor locked, the fallback stop still closes a position exactly when its levels are lost and the
   * price falls, between the two fetches of one look, from above the floor to 20% below entry.
   */
  lemma FallbackWhileLockedIff(entry: Price, l: Levels, looks: seq<Look>, look: Look)
    requires Lifted(entry, PeakOf(entry, MidsOf(looks)))
    ensures ReasonFor(entry, l, true, ObservedAll(entry, true, looks), look) == Some(Fallback) <==>
            && look.minute < TIME_EXIT && FallbackHit(entry, l, look.later)
            && (look.mid.Some? ==> look.mid.value > Locked(entry, Steps(entry, PeakOf(entry, MidsOf(looks)))))
  {
    hide Steps, Locked, Truncated, StepOf, PeakOf;
    TrailReasonIff(entry, l, looks, look);
  }

  /** When both fetches see the same price, the fallback stop never closes a position with a locked floor. */
  lemma FallbackOnlyUnlocked(entry: Price, l: Levels, looks: seq<Look>, look: Look)
    requires look.later == look.mid
    requires ReasonFor(entry, l, true, ObservedAll(entry, true, looks), look) == Some(Fallback)
    ensures !Lifted(entry, PeakOf(entry, MidsOf(looks)))
  {
    hide Steps, Locked, Truncated, StepOf, PeakOf;
    var peak := PeakOf(entry, MidsOf(looks));
    PeakCovers(entry, MidsOf(looks));
    FloorLocksIff(entry, peak);
    if Lifted(entry, peak) {
      FallbackWhileLockedIff(entry, l, looks, look);
      FloorBetween(entry, peak);
    }
  }

  /** What the underlying has moved in the position's favour. */
  function Favour(right: Right, from: real, to: real): real {
    if right == Call then to - from else from - to
  }

  /** What the stop puts at risk, either way. */
  function Risk(entry: real, stop: real): real {
    if entry >= stop then entry - stop else stop - entry
  }

  /** Before 15:45 the stop on the underlying closes a position exactly when the underlying is at it or beyond. */
  lemma StopReasonIff(entry: Price, l: Levels, trailing: bool, s: State, look: Look)
    ensures ReasonFor(entry, l, trailing, s, look) == Some(UnderlyingStop) <==>
            && look.minute < 15 * 60 + 45 && look.underlying.Some? && l.stop.Some?
            && Favour(l.right, l.stop.value, look.underlying.value) <= 0.0
    ensures ReasonFor(entry, l, trailing, s, look) == Some(TimeExit) <==> look.minute >= 15 * 60 + 45
  {
    hide TrailFires;
  }

  /** Short of the stop, the fixed target does exactly when the underlying has earned three times what was at risk. */
  lemma TargetReasonIff(entry: Price, l: Levels, trailing: bool, s: State, look: Look)
    ensures ReasonFor(entry, l, trailing, s, look) == Some(Target) <==>
            && !trailing && look.minute < 15 * 60 + 45 && look.underlying.Some?
            && l.stop.Some? && l.entryUnderlying.Some? && l.stop.value != l.entryUnderlying.value
            && Favour(l.right, l.stop.value, look.underlying.value) > 0.0
            && Favour(l.right, l.entryUnderlying.value, look.underlying.value)
               >= 3.0 * Risk(l.entryUnderlying.value, l.stop.value)
  {
    hide TrailFires;
  }

  /** With its stop on the losing side a position is never at stop and target at once, and a target is a gain. */
  lemma StopAndTargetApart(l: Levels, underlying: Option<real>)
    requires l.stop.Some? && l.entryUnderlying.Some?
    requires Favour(l.right, l.entryUnderlying.value, l.stop.value) <= 0.0
    ensures !(StopHit(l, underlying) && TargetHit(l, underlying))
    ensures TargetHit(l, underlying) ==> Favour(l.right, l.entryUnderlying.value, underlying.value) > 0.0
  {
  }

  /**
   * Without levels, and unless the trail fires first, the fallback stop does exactly at a fifth below the entry
   * premium.
   */
  lemma FallbackReasonIff(entry: Price, l: Levels, trailing: bool, s: State, look: Look)
    ensures ReasonFor(entry, l, trailing, s, look) == Some(Fallback) <==>
            && look.minute < 15 * 60 + 45 && l.stop.None?
            && !(trailing && look.mid.Some? && TrailFires(entry, s, look.mid.value))
            && look.later.Some? && 5.0 * look.later.value <= 4.0 * entry
  {
    hide TrailFires;
  }

  lemma StepCount(entry: Price, peak: real, k: nat)
    requires Times(k as real, entry) <= 5.0 * (peak - entry) < Times(k as real, entry) + entry
    ensures Steps(entry, peak) == k
  {
    hide Steps, Times, StepOf;
    StepsOfFifth(entry, peak, k);
    AtLeastEntry(entry, peak, k);
    StepsBetween(entry, peak);
    CountsAgree(StepOf(entry), Steps(entry, peak), k, peak - entry);
  }

  lemma AtLeastEntry(entry: Price, peak: real, k: nat)
    requires Times(k as real, entry) <= 5.0 * (peak - entry)
    ensures peak >= entry
  {
    assert k as real * entry >= 0.0;
  }

  lemma StepsOfFifth(entry: Price, peak: real, k: nat)
    requires Times(k as real, entry) <= 5.0 * (peak - entry) < Times(k as real, entry) + entry
    ensures Times(k as real, StepOf(entry)) <= peak - entry < Times(k as real + 1.0, StepOf(entry))
  {
    InUnits(k as real, entry);
  }

  lemma CountsAgree(unit: real, n: int, k: int, x: real)
    requires unit > 0.0
    requires Times(n as real, unit) <= x < Times(n as real + 1.0, unit)
    requires Times(k as real, unit) <= x < Times(k as real + 1.0, unit)
    ensures n == k
  {
    hide Times;
    Scale(n as real, k as real + 1.0, unit);
    Scale(k as real, n as real + 1.0, unit);
  }

  /** For each full fifth of the premium the peak has gained, the floor keeps fifteen hundredths of it. */
  lemma FloorPerStep(entry: Price, peak: real, k: nat)
    requires Times(k as real, entry) <= 5.0 * (peak - entry) < Times(k as real, entry) + entry
    ensures FloorFrom(entry, peak) == if k == 0 then None else Some(entry + Times(k as real, entry) * 15.0 / 100.0)
  {
    hide Steps, Times;
    StepCount(entry, peak, k);
    InUnits(k as real, entry);
  }

  // ---------------------------------------------------------------
  // The context the provider keeps per position
  // ---------------------------------------------------------------

  class PositionContext {
    const levels: Levels
    const entry: Price
    var peak: real
    var lockedFloor: Option<real>

    ghost function View(): State
      reads this
    {
      State(peak, lockedFloor)
    }

    constructor (levels: Levels, entry: Price)
      ensures this.levels == levels && this.entry == entry && View() == ObservedAll(entry, true, [])
    {
      this.levels, this.entry := levels, entry;
      peak, lockedFloor := entry, None;
    }

    method CheckExit(trailing: bool, look: Look) returns (reason: Option<Reason>)
      requires peak >= entry
      modifies this
      ensures reason == ReasonFor(entry, levels, trailing, old(View()), look)
      ensures View() == Observed(entry, trailing, old(View()), look)
      ensures peak >= old(peak)
    {
      hide FloorFrom, AbsReal;
      reason := None;
      if look.minute >= TIME_EXIT {
        reason := Some(TimeExit);
      }
      var u := look.underlying;
      if reason.None? && u.Some? && levels.stop.Some? {
        if levels.right == Call && u.value <= levels.stop.value {
          reason := Some(UnderlyingStop);
        } else if levels.right == Put && u.value >= levels.stop.value {
          reason := Some(UnderlyingStop);
        }
      }
      if !trailing {
        if reason.None? && u.Some? && levels.stop.Some? && levels.entryUnderlying.Some? {
          var start := levels.entryUnderlying.value;
          var risk := AbsReal(start - levels.stop.value);
          if risk > 0.0 {
            if levels.right == Call && u.value >= start + REWARD_RATIO * risk {
              reason := Some(Target);
            } else if levels.right == Put && u.value <= start - REWARD_RATIO * risk {
              reason := Some(Target);
            }
          }
        }
      } else if look.mid.Some? {
        reason := FollowTrail(look.mid.value, reason);
      }
      if reason.None? && levels.stop.None? && look.later.Some? && look.later.value <= entry * (1.0 - FALLBACK_STOP) {
        reason := Some(Fallback);
      }
    }

    method FollowTrail(mid: real, reason: Option<Reason>) returns (r: Option<Reason>)
      requires peak >= entry
      modifies this
      ensures r == if reason.None? && TrailFires(entry, old(View()), mid) then Some(Trail) else reason
      ensures View() == Trailed(entry, old(View()), mid)
    {
      r := reason;
      var steps := Truncated((peak - entry) / StepOf(entry));
      assert steps == Steps(entry, peak);
      if steps > 0 {
        var floor := entry + steps as real * LockOf(entry);
        assert floor == Locked(entry, steps);
        lockedFloor := Some(floor);
      }
      hide Steps, Locked, Truncated;
      assert lockedFloor == Trailed(entry, old(View()), mid).floor;
      if r.None? && lockedFloor.Some? && mid <= lockedFloor.value {
        r := Some(Trail);
      }
      if mid > peak {
        peak := mid;
      }
    }
  }
}
