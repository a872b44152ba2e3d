/** The 5-minute EMA signal machine: however it is called during a day, it is a fold over the 5-minute boundaries. */
module EmaMachine {
  import opened Domain

  // ---------------------------------------------------------------
  // Values
  // ---------------------------------------------------------------

  datatype Candle = Candle(open: real, high: real, low: real, close: real)

  /** An armed signal bar: puts are armed below its low, calls above its high. */
  datatype Alert = Alert(right: Right, high: real, low: real, at: int)

  datatype Trigger = Trigger(right: Right, stop: real, entry: real, at: int)

  /** The day's market state; `next` is the first boundary not yet processed, in minutes of the day. */
  datatype Machine = Machine(ema: Option<real>, alert: Option<Alert>, trigger: Option<Trigger>, failed: bool, next: int)

  /** What the broker answers for each boundary on this day. */
  datatype Feed = Feed(live: int -> Option<Candle>, history: int -> Option<real>, putsOnly: bool)

  const FIRST_CLOSE: int := 575

  const LAST_CLOSE: int := 960

  const STEP: int := 5

  const MAX_FETCHES: nat := 3

  /** The number of boundaries from 9:35 to 16:00. */
  const BOUNDARIES: nat := 78

  function Boundary(k: nat): int {
    FIRST_CLOSE + STEP * k
  }

  function Start(failed: bool): Machine {
    Machine(None, None, None, failed, FIRST_CLOSE)
  }

  // ---------------------------------------------------------------
  // One boundary
  // ---------------------------------------------------------------

  function NextEma(ema: Option<real>, close: real): real {
    if ema.None? then close else close * (1.0 / 3.0) + ema.value * (2.0 / 3.0)
  }

  predicate Breaks(a: Alert, close: real, putsOnly: bool) {
    if a.right == Put then close <= a.low else close >= a.high && !putsOnly
  }

  /** A bar wholly on one side of the average arms; any other bar disarms. */
  function Arming(bar: Candle, ema: real, at: int, putsOnly: bool): Option<Alert> {
    if bar.low > ema then Some(Alert(Put, bar.high, bar.low, at))
    else if bar.high < ema && !putsOnly then Some(Alert(Call, bar.high, bar.low, at))
    else None
  }

  function Stop(a: Alert): real {
    if a.right == Put then a.high else a.low
  }

  /** A 5-minute close, with the whole bar when it was built live. */
  function Close(s: Machine, close: real, bar: Option<Candle>, putsOnly: bool): Machine {
    var ema := NextEma(s.ema, close);
    var s1 := s.(ema := Some(ema), next := s.next + STEP);
    if s.alert.Some? && s.next > s.alert.value.at && Breaks(s.alert.value, close, putsOnly) then
      var a := s.alert.value;
      s1.(alert := None, trigger := Some(Trigger(a.right, Stop(a), close, s.next)))
    else
      s1.(trigger := None, alert := if bar.Some? then Arming(bar.value, ema, s.next, putsOnly) else s.alert)
  }

  predicate NeedsFetch(f: Feed, s: Machine) {
    f.live(s.next).None? && !s.failed
  }

  /** The price the boundary contributes, if any. */
  function Price(f: Feed, s: Machine): Option<real> {
    match f.live(s.next)
    case Some(bar) => Some(bar.close)
    case None => if s.failed then None else f.history(s.next)
  }

  function Step(f: Feed, s: Machine): Machine {
    match Price(f, s)
    case Some(close) => Close(s, close, f.live(s.next), f.putsOnly)
    case None => s.(failed := true, next := s.next + STEP)
  }

  // ---------------------------------------------------------------
  // One call, and a day of calls
  // ---------------------------------------------------------------

  function CatchUp(f: Feed, s: Machine, now: int, fetches: nat): Machine
    decreases LAST_CLOSE + STEP - s.next
  {
    if now < s.next || s.next > LAST_CLOSE || (NeedsFetch(f, s) && fetches >= MAX_FETCHES) then s
    else CatchUp(f, Step(f, s), now, if NeedsFetch(f, s) then fetches + 1 else fetches)
  }

  function Calls(f: Feed, s: Machine, times: seq<int>): Machine
    decreases |times|
  {
    if times == [] then s else Calls(f, CatchUp(f, s, times[0], 0), times[1..])
  }

  // ---------------------------------------------------------------
  // The fold
  // ---------------------------------------------------------------

  /** The first `n` boundaries, one after the other. */
  function Folded(f: Feed, failed: bool, n: nat): Machine {
    if n == 0 then Start(failed) else Step(f, Folded(f, failed, n - 1))
  }

  lemma {:induction false} FoldedAt(f: Feed, failed: bool, n: nat)
    ensures Folded(f, failed, n).next == Boundary(n)
  {
    if n > 0 {
      FoldedAt(f, failed, n - 1);
    }
  }

  /** How many boundaries are due at a time of day. */
  function Due(now: int): nat {
    if now < FIRST_CLOSE then 0 else Min((now - FIRST_CLOSE) / STEP + 1, BOUNDARIES)
  }

  lemma DueIff(now: int, n: nat)
    requires n <= BOUNDARIES
    ensures n < Due(now) <==> now >= Boundary(n) && Boundary(n) <= LAST_CLOSE
  {
  }

  /** One call folds further, and unless it catches up it folds at least three boundaries more. */
  lemma {:induction false} CatchUpFolds(f: Feed, failed: bool, n: nat, now: int, fetches: nat) returns (m: nat)
    requires n <= BOUNDARIES && fetches <= MAX_FETCHES
    ensures n <= m <= BOUNDARIES && CatchUp(f, Folded(f, failed, n), now, fetches) == Folded(f, failed, m)
    ensures m >= Due(now) || m >= n + MAX_FETCHES - fetches
    ensures m == n || m <= Due(now)
    decreases BOUNDARIES - n
  {
    hide NextEma;
    FoldedAt(f, failed, n);
    DueIff(now, n);
    var s := Folded(f, failed, n);
    if now < s.next || s.next > LAST_CLOSE || (NeedsFetch(f, s) && fetches >= MAX_FETCHES) {
      m := n;
    } else {
      assert Folded(f, failed, n + 1) == Step(f, s);
      m := CatchUpFolds(f, failed, n + 1, now, if NeedsFetch(f, s) then fetches + 1 else fetches);
    }
  }

  /** Any calls of a day leave the fold of some prefix of the boundaries. */
  lemma {:induction false} CallsFold(f: Feed, failed: bool, n: nat, times: seq<int>) returns (m: nat)
    requires n <= BOUNDARIES
    ensures n <= m <= BOUNDARIES && Calls(f, Folded(f, failed, n), times) == Folded(f, failed, m)
    ensures m == n || exists k :: 0 <= k < |times| && m <= Due(times[k])
    decreases |times|
  {
    if times == [] {
      m := n;
    } else {
      var n1 := CatchUpFolds(f, failed, n, times[0], 0);
      m := CallsFold(f, failed, n1, times[1..]);
      if m != n1 {
        var k :| 0 <= k < |times[1..]| && m <= Due(times[1..][k]);
        assert times[k + 1] == times[1..][k];
      }
    }
  }

  /** Two schedules that have come equally far hold the same market state. */
  lemma ScheduleIndependent(f: Feed, failed: bool, times: seq<int>, others: seq<int>)
    ensures
      var a, b := Calls(f, Start(failed), times), Calls(f, Start(failed), others);
      a.next == b.next ==> a == b
  {
    var m := CallsFold(f, failed, 0, times);
    var n := CallsFold(f, failed, 0, others);
    FoldedAt(f, failed, m);
    FoldedAt(f, failed, n);
  }

  /** The fetch budget only delays: k calls at or after `now` process at least min(3k, all that was due). */
  lemma {:induction false} BudgetOnlyDelays(f: Feed, failed: bool, n: nat, times: seq<int>, now: int) returns (m: nat)
    requires n <= BOUNDARIES && forall k :: 0 <= k < |times| ==> times[k] >= now
    ensures n <= m <= BOUNDARIES && Calls(f, Folded(f, failed, n), times) == Folded(f, failed, m)
    ensures m >= Min(Due(now), n + MAX_FETCHES * |times|)
    decreases |times|
  {
    if times == [] {
      m := n;
    } else {
      var n1 := CatchUpFolds(f, failed, n, times[0], 0);
      assert Due(times[0]) >= Due(now);
      m := BudgetOnlyDelays(f, failed, n1, times[1..], now);
    }
  }

  /** So 26 calls at or after the close leave the whole day folded, whatever the data source. */
  lemma DayCompletes(f: Feed, failed: bool, early: seq<int>, late: seq<int>)
    requires |late| >= 26 && forall k :: 0 <= k < |late| ==> late[k] >= LAST_CLOSE
    ensures Calls(f, Calls(f, Start(failed), early), late) == Folded(f, failed, BOUNDARIES)
  {
    var n := CallsFold(f, failed, 0, early);
    var m := BudgetOnlyDelays(f, failed, n, late, LAST_CLOSE);
  }

  // ---------------------------------------------------------------
  // The average
  // ---------------------------------------------------------------

  /** The price folded at boundary k, if there was one. */
  function PriceAt(f: Feed, failed: bool, k: nat): Option<real> {
    Price(f, Folded(f, failed, k))
  }

  /** The average exists once a price was folded, and lies between any bounds of the folded prices. */
  lemma {:induction false} EmaWithinPrices(f: Feed, failed: bool, n: nat, lo: real, hi: real)
    requires forall k: nat :: k < n && PriceAt(f, failed, k).Some? ==> lo <= PriceAt(f, failed, k).value <= hi
    ensures
      var ema := Folded(f, failed, n).ema;
      && (ema.Some? <==> exists k: nat :: k < n && PriceAt(f, failed, k).Some?)
      && (ema.Some? ==> lo <= ema.value <= hi)
  {
    if n > 0 {
      EmaWithinPrices(f, failed, n - 1, lo, hi);
      var price := PriceAt(f, failed, n - 1);
      if price.Some? {
        assert lo <= price.value <= hi;
      }
    }
  }

  /** Boundary k has no live bar, and its history cannot be fetched either. */
  predicate Unpriced(f: Feed, k: nat) {
    f.live(Boundary(k)).None? && f.history(Boundary(k)).None?
  }

  /** The backfill counts as failed from the first boundary that neither source can price, for the rest of the day. */
  lemma {:induction false} FailedIff(f: Feed, failed: bool, n: nat)
    ensures Folded(f, failed, n).failed <==> failed || exists k: nat :: k < n && Unpriced(f, k)
  {
    hide NextEma, Breaks, Arming;
    if n > 0 {
      FailedIff(f, failed, n - 1);
      FoldedAt(f, failed, n - 1);
      assert (exists k: nat :: k < n && Unpriced(f, k)) <==>
             (exists k: nat :: k < n - 1 && Unpriced(f, k)) || Unpriced(f, n - 1);
    }
  }

  /** A live bar always prices its boundary; the history does only while no boundary of the day has failed. */
  lemma PriceIff(f: Feed, failed: bool, n: nat)
    ensures
      var live := f.live(Boundary(n));
      PriceAt(f, failed, n) ==
        if live.Some? then Some(live.value.close)
        else if failed || exists k: nat :: k < n && Unpriced(f, k) then None
        else f.history(Boundary(n))
  {
    FoldedAt(f, failed, n);
    FailedIff(f, failed, n);
  }

  /** The prices of the first n boundaries, oldest first. */
  function PricesUpTo(f: Feed, failed: bool, n: nat): seq<real> {
    if n == 0 then []
    else
      var price := PriceAt(f, failed, n - 1);
      PricesUpTo(f, failed, n - 1) + if price.Some? then [price.value] else []
  }

  const PERIOD: int := 5

  /** The smoothing factor of a PERIOD-bar exponential average. */
  const SMOOTHING: real := 2.0 / (PERIOD as real + 1.0)

  function Power(x: real, n: nat): real {
    if n == 0 then 1.0 else x * Power(x, n - 1)
  }

  /** What the k-th of n prices weighs: the first starts the average, each later one decays with age. */
  function Weight(n: nat, k: nat): real
    requires k < n
  {
    if k == 0 then Power(1.0 - SMOOTHING, n - 1) else SMOOTHING * Power(1.0 - SMOOTHING, n - 1 - k)
  }

  /** The weighted sum of the first m of the prices. */
  function WeightedSum(prices: seq<real>, m: nat): real
    requires m <= |prices|
  {
    if m == 0 then 0.0 else WeightedSum(prices, m - 1) + Share(Weight(|prices|, m - 1), prices[m - 1])
  }

  function Share(weight: real, price: real): real {
    weight * price
  }

  function WeightTotal(n: nat, m: nat): real
    requires m <= n
  {
    if m == 0 then 0.0 else WeightTotal(n, m - 1) + Weight(n, m - 1)
  }

  /** What is left of a weight, or of an average, when a newer price comes. */
  function Kept(x: real): real {
    (1.0 - SMOOTHING) * x
  }

  lemma KeptIsLinear(a: real, b: real)
    ensures Kept(0.0) == 0.0 && Kept(a + b) == Kept(a) + Kept(b) && Kept(Share(a, b)) == Share(Kept(a), b)
  {
  }

  lemma WeightDecays(n: nat, k: nat)
    requires k < n
    ensures Weight(n + 1, k) == Kept(Weight(n, k))
  {
  }

  lemma {:induction false} SumDecays(prices: seq<real>, p: real, m: nat)
    requires m <= |prices|
    ensures WeightedSum(prices + [p], m) == Kept(WeightedSum(prices, m))
  {
    hide Weight, Kept, Share;
    KeptIsLinear(0.0, 0.0);
    if m > 0 {
      var w := Weight(|prices|, m - 1);
      SumDecays(prices, p, m - 1);
      WeightDecays(|prices|, m - 1);
      assert (prices + [p])[m - 1] == prices[m - 1];
      KeptIsLinear(w, prices[m - 1]);
      KeptIsLinear(WeightedSum(prices, m - 1), Share(w, prices[m - 1]));
    }
  }

  lemma {:induction false} TotalDecays(n: nat, m: nat)
    requires m <= n
    ensures WeightTotal(n + 1, m) == Kept(WeightTotal(n, m))
  {
    hide Weight, Kept;
    KeptIsLinear(0.0, 0.0);
    if m > 0 {
      TotalDecays(n, m - 1);
      WeightDecays(n, m - 1);
      KeptIsLinear(WeightTotal(n, m - 1), Weight(n, m - 1));
    }
  }

  lemma NewestWeight(n: nat)
    requires n > 0
    ensures Weight(n + 1, n) == SMOOTHING
  {
    assert Power(1.0 - SMOOTHING, 0) == 1.0;
  }

  lemma OnlyWeight()
    ensures WeightTotal(1, 1) == 1.0 && Weight(1, 0) == 1.0
  {
    assert Power(1.0 - SMOOTHING, 0) == 1.0;
    assert WeightTotal(1, 0) == 0.0;
  }

  /** The weights are a whole. */
  lemma {:induction false} WeightsAddToOne(n: nat)
    requires n > 0
    ensures WeightTotal(n, n) == 1.0
  {
    hide Weight;
    if n > 1 {
      WeightsAddToOne(n - 1);
      TotalDecays(n - 1, n - 1);
      NewestWeight(n - 1);
    } else {
      OnlyWeight();
    }
  }

  /** The newest price counts with the smoothing factor, and the average before it with the rest. */
  lemma NewestPrice(prices: seq<real>, p: real)
    requires prices != []
    ensures WeightedSum(prices + [p], |prices| + 1) == Share(SMOOTHING, p) + Kept(WeightedSum(prices, |prices|))
  {
    hide Weight, Kept, Share;
    var all := prices + [p];
    SumDecays(prices, p, |prices|);
    NewestWeight(|prices|);
    assert all[|prices|] == p && |all| == |prices| + 1;
  }

  lemma FirstPrice(p: real)
    ensures WeightedSum([p], 1) == p
  {
    hide Weight;
    OnlyWeight();
    assert WeightedSum([p], 0) == 0.0;
  }

  lemma Started(p: real)
    ensures NextEma(None, p) == p
  {
  }

  lemma Thirds(p: real, average: real)
    ensures NextEma(Some(average), p) == Share(SMOOTHING, p) + Kept(average)
  {
    assert SMOOTHING == 1.0 / 3.0;
  }

  /** The average after any boundaries is the exponentially weighted mean of the prices folded, of period five. */
  lemma {:induction false} EmaIsWeightedMean(f: Feed, failed: bool, n: nat)
    ensures
      var prices := PricesUpTo(f, failed, n);
      Folded(f, failed, n).ema == if prices == [] then None else Some(WeightedSum(prices, |prices|))
  {
    hide WeightedSum, Arming, Breaks, NextEma, Kept, Share;
    if n > 0 {
      EmaIsWeightedMean(f, failed, n - 1);
      var before, price := PricesUpTo(f, failed, n - 1), PriceAt(f, failed, n - 1);
      if price.Some? {
        if before == [] {
          FirstPrice(price.value);
          Started(price.value);
          assert before + [price.value] == [price.value];
        } else {
          NewestPrice(before, price.value);
          Thirds(price.value, WeightedSum(before, |before|));
        }
      } else {
        assert before + [] == before;
      }
    }
  }

  // ---------------------------------------------------------------
  // Signals
  // ---------------------------------------------------------------

  /**
   * Boundary k's bar is armed before boundary n: it was live, fired nothing itself, lay wholly on one
   * side of the average, has been followed by no live bar, and no close since has broken it.
   */
  predicate Armed(f: Feed, failed: bool, n: nat, k: nat, a: Alert) {
    && k < n
    && f.live(Boundary(k)).Some?
    && !Fires(f, failed, k)
    && Folded(f, failed, k + 1).ema.Some?
    && Some(a) == Arming(f.live(Boundary(k)).value, Folded(f, failed, k + 1).ema.value, Boundary(k), f.putsOnly)
    && forall j: nat :: k < j < n ==>
         && f.live(Boundary(j)).None?
         && (PriceAt(f, failed, j).Some? ==> !Breaks(a, PriceAt(f, failed, j).value, f.putsOnly))
  }

  /** Boundary k itself fired a trigger. */
  predicate Fires(f: Feed, failed: bool, k: nat) {
    PriceAt(f, failed, k).Some? && Folded(f, failed, k + 1).trigger.Some?
  }

  lemma {:induction false} AlertIsPast(f: Feed, failed: bool, n: nat)
    ensures Folded(f, failed, n).alert.Some? ==> Folded(f, failed, n).alert.value.at < Boundary(n)
  {
    hide NextEma;
    FoldedAt(f, failed, n);
    if n > 0 {
      FoldedAt(f, failed, n - 1);
      AlertIsPast(f, failed, n - 1);
    }
  }

  lemma ArmedByBar(f: Feed, failed: bool, k: nat)
    requires f.live(Boundary(k)).Some? && Folded(f, failed, k + 1).alert.Some?
    ensures Armed(f, failed, k + 1, k, Folded(f, failed, k + 1).alert.value)
  {
    hide NextEma, Breaks;
    FoldedAt(f, failed, k);
    AlertIsPast(f, failed, k);
  }

  lemma AlertKept(f: Feed, failed: bool, n: nat)
    requires f.live(Boundary(n)).None? && Folded(f, failed, n + 1).alert.Some?
    ensures Folded(f, failed, n).alert == Folded(f, failed, n + 1).alert
    ensures PriceAt(f, failed, n).Some? ==>
              !Breaks(Folded(f, failed, n).alert.value, PriceAt(f, failed, n).value, f.putsOnly)
  {
    hide NextEma;
    FoldedAt(f, failed, n);
    AlertIsPast(f, failed, n);
  }

  /** What the machine holds as armed is armed. */
  lemma {:induction false} AlertOrigin(f: Feed, failed: bool, n: nat) returns (k: nat)
    requires Folded(f, failed, n).alert.Some?
    ensures Armed(f, failed, n, k, Folded(f, failed, n).alert.value)
  {
    hide Folded, Breaks, Arming, PriceAt, Fires;
    if n == 0 {
      NothingArmed(f, failed);
    } else if f.live(Boundary(n - 1)).Some? {
      k := n - 1;
      ArmedByBar(f, failed, k);
    } else {
      AlertKept(f, failed, n - 1);
      k := AlertOrigin(f, failed, n - 1);
    }
  }

  lemma NothingArmed(f: Feed, failed: bool)
    ensures Folded(f, failed, 0).alert.None?
  {
  }

  /** What is armed the machine holds. */
  lemma {:induction false} ArmedIsHeld(f: Feed, failed: bool, n: nat, k: nat, a: Alert)
    requires Armed(f, failed, n, k, a)
    ensures Folded(f, failed, n).alert == Some(a)
  {
    hide NextEma;
    FoldedAt(f, failed, n - 1);
    AlertIsPast(f, failed, n - 1);
    if k < n - 1 {
      ArmedIsHeld(f, failed, n - 1, k, a);
    }
  }

  /** A boundary fires exactly when its price breaks an armed bar, and then with that bar's levels. */
  lemma FiresIff(f: Feed, failed: bool, n: nat)
    ensures Fires(f, failed, n) <==>
            && PriceAt(f, failed, n).Some?
            && exists k, a :: Armed(f, failed, n, k, a) && Breaks(a, PriceAt(f, failed, n).value, f.putsOnly)
    ensures forall k, a :: Fires(f, failed, n) && Armed(f, failed, n, k, a) ==>
              Folded(f, failed, n + 1).trigger
                == Some(Trigger(a.right, Stop(a), PriceAt(f, failed, n).value, Boundary(n)))
  {
    FoldedAt(f, failed, n);
    AlertIsPast(f, failed, n);
    var s := Folded(f, failed, n);
    if s.alert.Some? {
      var k := AlertOrigin(f, failed, n);
    }
    forall k, a | Armed(f, failed, n, k, a) ensures s.alert == Some(a) {
      ArmedIsHeld(f, failed, n, k, a);
    }
  }

  /** Live bar k lies wholly above the average, no live bar has come since, and no close since is down to its low. */
  ghost predicate PutIsOn(f: Feed, failed: bool, n: nat, k: nat, low: real) {
    && k < n && f.live(Boundary(k)).Some? && f.live(Boundary(k)).value.low == low
    && Folded(f, failed, k + 1).trigger.None?
    && Folded(f, failed, k + 1).ema.Some? && low > Folded(f, failed, k + 1).ema.value
    && forall j: nat :: k < j < n ==>
         && f.live(Boundary(j)).None?
         && (PriceAt(f, failed, j).Some? ==> PriceAt(f, failed, j).value > low)
  }

  /** The mirror: bar k lies wholly below the average, and no close since is up to its high. */
  ghost predicate CallIsOn(f: Feed, failed: bool, n: nat, k: nat, high: real) {
    && k < n && !f.putsOnly && f.live(Boundary(k)).Some? && f.live(Boundary(k)).value.high == high
    && Folded(f, failed, k + 1).trigger.None?
    && Folded(f, failed, k + 1).ema.Some? && high < Folded(f, failed, k + 1).ema.value
    && forall j: nat :: k < j < n ==>
         && f.live(Boundary(j)).None?
         && (PriceAt(f, failed, j).Some? ==> PriceAt(f, failed, j).value < high)
  }

  lemma ArmedPutIff(f: Feed, failed: bool, n: nat, k: nat)
    requires WellFormed(f) && k < n && f.live(Boundary(k)).Some?
    ensures
      var bar := f.live(Boundary(k)).value;
      Armed(f, failed, n, k, Alert(Put, bar.high, bar.low, Boundary(k))) <==> PutIsOn(f, failed, n, k, bar.low)
  {
    hide Folded;
    FoldedAt(f, failed, k);
  }

  lemma ArmedCallIff(f: Feed, failed: bool, n: nat, k: nat)
    requires WellFormed(f) && k < n && f.live(Boundary(k)).Some?
    ensures
      var bar := f.live(Boundary(k)).value;
      Armed(f, failed, n, k, Alert(Call, bar.high, bar.low, Boundary(k))) <==> CallIsOn(f, failed, n, k, bar.high)
  {
    hide Folded;
    FoldedAt(f, failed, k);
  }

  lemma ArmedIsABar(f: Feed, failed: bool, n: nat, k: nat, a: Alert)
    requires Armed(f, failed, n, k, a)
    ensures k < n && f.live(Boundary(k)).Some?
    ensures
      var bar := f.live(Boundary(k)).value;
      a == Alert(a.right, bar.high, bar.low, Boundary(k))
  {
    hide Folded;
  }

  lemma BreaksIff(bar: Candle, at: int, price: real, putsOnly: bool)
    ensures Breaks(Alert(Put, bar.high, bar.low, at), price, putsOnly) <==> price <= bar.low
    ensures Breaks(Alert(Call, bar.high, bar.low, at), price, putsOnly) <==> price >= bar.high && !putsOnly
    ensures Stop(Alert(Put, bar.high, bar.low, at)) == bar.high && Stop(Alert(Call, bar.high, bar.low, at)) == bar.low
  {
  }

  /**
   * Boundary n gives a put exactly when its price comes down to the low of a bar that stood wholly above the average.
   */
  lemma PutSignalIff(f: Feed, failed: bool, n: nat)
    requires WellFormed(f)
    ensures Fires(f, failed, n) && Folded(f, failed, n + 1).trigger.value.right == Put <==>
            PriceAt(f, failed, n).Some?
            && exists k, low :: PutIsOn(f, failed, n, k, low) && PriceAt(f, failed, n).value <= low
    ensures forall k, low :: PutIsOn(f, failed, n, k, low) && Fires(f, failed, n) ==>
              Folded(f, failed, n + 1).trigger
              == Some(Trigger(Put, f.live(Boundary(k)).value.high, PriceAt(f, failed, n).value, Boundary(n)))
  {
    hide Folded, Armed, Breaks, Stop, PriceAt, Arming;
    FiresIff(f, failed, n);
    forall k, a | Armed(f, failed, n, k, a)
      ensures a.right == Put ==> PutIsOn(f, failed, n, k, a.low)
      ensures PriceAt(f, failed, n).Some? && a.right == Put ==>
                (Breaks(a, PriceAt(f, failed, n).value, f.putsOnly) <==> PriceAt(f, failed, n).value <= a.low)
    {
      ArmedIsABar(f, failed, n, k, a);
      ArmedPutIff(f, failed, n, k);
      if PriceAt(f, failed, n).Some? {
        BreaksIff(f.live(Boundary(k)).value, Boundary(k), PriceAt(f, failed, n).value, f.putsOnly);
      }
    }
    forall k, low | PutIsOn(f, failed, n, k, low)
      ensures
        var a := Alert(Put, f.live(Boundary(k)).value.high, low, Boundary(k));
        && Armed(f, failed, n, k, a) && Stop(a) == f.live(Boundary(k)).value.high
        && (PriceAt(f, failed, n).Some? && PriceAt(f, failed, n).value <= low ==>
              Breaks(a, PriceAt(f, failed, n).value, f.putsOnly))
    {
      ArmedPutIff(f, failed, n, k);
      if PriceAt(f, failed, n).Some? {
        BreaksIff(f.live(Boundary(k)).value, Boundary(k), PriceAt(f, failed, n).value, f.putsOnly);
      } else {
        BreaksIff(f.live(Boundary(k)).value, Boundary(k), 0.0, f.putsOnly);
      }
    }
  }

  /**
   * And a call exactly when it comes up to the high of a bar that stood wholly below it, unless only puts are traded.
   */
  lemma CallSignalIff(f: Feed, failed: bool, n: nat)
    requires WellFormed(f)
    ensures Fires(f, failed, n) && Folded(f, failed, n + 1).trigger.value.right == Call <==>
            PriceAt(f, failed, n).Some?
            && exists k, high :: CallIsOn(f, failed, n, k, high) && PriceAt(f, failed, n).value >= high
    ensures forall k, high :: CallIsOn(f, failed, n, k, high) && Fires(f, failed, n) ==>
              Folded(f, failed, n + 1).trigger
              == Some(Trigger(Call, f.live(Boundary(k)).value.low, PriceAt(f, failed, n).value, Boundary(n)))
  {
    hide Folded, Armed, Breaks, Stop, PriceAt, Arming;
    FiresIff(f, failed, n);
    forall k, a | Armed(f, failed, n, k, a)
      ensures a.right == Call ==> CallIsOn(f, failed, n, k, a.high)
      ensures PriceAt(f, failed, n).Some? && a.right == Call && !f.putsOnly ==>
                (Breaks(a, PriceAt(f, failed, n).value, f.putsOnly) <==> PriceAt(f, failed, n).value >= a.high)
    {
      ArmedIsABar(f, failed, n, k, a);
      ArmedCallIff(f, failed, n, k);
      if PriceAt(f, failed, n).Some? {
        BreaksIff(f.live(Boundary(k)).value, Boundary(k), PriceAt(f, failed, n).value, f.putsOnly);
      }
    }
    forall k, high | CallIsOn(f, failed, n, k, high)
      ensures
        var a := Alert(Call, high, f.live(Boundary(k)).value.low, Boundary(k));
        && Armed(f, failed, n, k, a) && Stop(a) == f.live(Boundary(k)).value.low
        && (PriceAt(f, failed, n).Some? && PriceAt(f, failed, n).value >= high ==>
              Breaks(a, PriceAt(f, failed, n).value, f.putsOnly))
    {
      ArmedCallIff(f, failed, n, k);
      if PriceAt(f, failed, n).Some? {
        BreaksIff(f.live(Boundary(k)).value, Boundary(k), PriceAt(f, failed, n).value, f.putsOnly);
      } else {
        BreaksIff(f.live(Boundary(k)).value, Boundary(k), 0.0, f.putsOnly);
      }
    }
  }

  /** A trigger standing after n boundaries was fired by the last boundary that had a price. */
  lemma {:induction false} TriggerIsLatest(f: Feed, failed: bool, n: nat) returns (k: nat)
    requires Folded(f, failed, n).trigger.Some?
    ensures k < n && Fires(f, failed, k) && Folded(f, failed, k + 1).trigger == Folded(f, failed, n).trigger
    ensures forall j: nat :: k < j < n ==> PriceAt(f, failed, j).None?
  {
    if PriceAt(f, failed, n - 1).Some? {
      k := n - 1;
    } else {
      k := TriggerIsLatest(f, failed, n - 1);
    }
  }

  ghost predicate WellFormed(f: Feed) {
    forall t :: f.live(t).Some? ==> f.live(t).value.low <= f.live(t).value.high
  }

  /** A trigger's stop is on the losing side of its entry, and with puts only it is a put. */
  lemma TriggerStop(f: Feed, failed: bool, n: nat)
    requires WellFormed(f) && Folded(f, failed, n).trigger.Some?
    ensures
      var t := Folded(f, failed, n).trigger.value;
      && (if t.right == Put then t.stop >= t.entry else t.stop <= t.entry)
      && (f.putsOnly ==> t.right == Put)
  {
    var k := TriggerIsLatest(f, failed, n);
    FiresIff(f, failed, k);
    var b: nat, a :| Armed(f, failed, k, b, a) && Breaks(a, PriceAt(f, failed, k).value, f.putsOnly);
    assert Folded(f, failed, k + 1).trigger
        == Some(Trigger(a.right, Stop(a), PriceAt(f, failed, k).value, Boundary(k)));
  }

  // ---------------------------------------------------------------
  // The provider
  // ---------------------------------------------------------------

  class Provider {
    const putsOnly: bool
    var day: Option<int>
    var ema: Option<real>
    var signalBar: Option<Alert>
    var entryTrigger: Option<Trigger>
    var nextClose: int
    var failedDay: Option<int>

    ghost function View(): Machine
      reads this
    {
      Machine(ema, signalBar, entryTrigger, day.Some? && failedDay == day, nextClose)
    }

    constructor (putsOnly: bool)
      ensures day.None? && failedDay.None? && this.putsOnly == putsOnly
    {
      this.putsOnly := putsOnly;
      day, ema, signalBar, entryTrigger, failedDay := None, None, None, None, None;
      nextClose := FIRST_CLOSE;
    }

    method ResetDay(today: int)
      modifies this
      ensures day == Some(today) && failedDay == old(failedDay) && View() == Start(failedDay == Some(today))
    {
      day := Some(today);
      ema, signalBar, entryTrigger := None, None, None;
      nextClose := FIRST_CLOSE;
    }

    /** Process every due boundary, as far as the fetch budget goes. */
    method UpdateMarketState(live: int -> Option<Candle>, history: int -> Option<real>, today: int, now: int)
      modifies this
      ensures day == Some(today)
      ensures
        var begin := if old(day) == Some(today) then old(View()) else Start(old(failedDay) == Some(today));
        View() == CatchUp(Feed(live, history, putsOnly), begin, now, 0)
    {
      hide NextEma, Breaks, Arming, Close;
      ghost var f := Feed(live, history, putsOnly);
      if day != Some(today) {
        ResetDay(today);
      }
      ghost var begin := View();
      var fetches := 0;
      while now >= nextClose
        invariant day == Some(today)
        invariant CatchUp(f, View(), now, fetches) == CatchUp(f, begin, now, 0)
        decreases LAST_CLOSE + STEP - nextClose
      {
        var at := nextClose;
        if at > LAST_CLOSE {
          break;
        }
        var bar := live(at);
        var close;
        if bar.Some? {
          close := bar.value.close;
        } else {
          if failedDay == day {
            nextClose := at + STEP;
            continue;
          }
          if fetches >= MAX_FETCHES {
            return;
          }
          fetches := fetches + 1;
          var fetched := history(at);
          if fetched.None? {
            failedDay := day;
            nextClose := at + STEP;
            continue;
          }
          close := fetched.value;
        }
        Process(at, close, bar);
        nextClose := at + STEP;
      }
    }

    /** Fold one close: the average, then the armed bar against it, then the bar itself. */
    method Process(at: int, close: real, bar: Option<Candle>)
      requires at == nextClose
      modifies this`ema, this`signalBar, this`entryTrigger
      ensures View().(next := at + STEP) == Close(old(View()), close, bar, putsOnly)
    {
      if ema.None? {
        ema := Some(close);
      } else {
        ema := Some(close * (1.0 / 3.0) + ema.value * (2.0 / 3.0));
      }
      var triggered := false;
      if signalBar.Some? && at > signalBar.value.at {
        var signal := signalBar.value;
        if signal.right == Put && close <= signal.low {
          entryTrigger := Some(Trigger(Put, signal.high, close, at));
          signalBar := None;
          triggered := true;
        } else if signal.right == Call && close >= signal.high && !putsOnly {
          entryTrigger := Some(Trigger(Call, signal.low, close, at));
          signalBar := None;
          triggered := true;
        }
      }
      if !triggered {
        entryTrigger := None;
        if bar.Some? {
          if bar.value.low > ema.value {
            signalBar := Some(Alert(Put, bar.value.high, bar.value.low, at));
          } else if bar.value.high < ema.value && !putsOnly {
            signalBar := Some(Alert(Call, bar.value.high, bar.value.low, at));
          } else if signalBar.Some? {
            signalBar := None;
          }
        }
      }
    }
  }
}
