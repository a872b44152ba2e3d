/** The minimum price variation and the price the repricer asks for. */
module Pricing {
  import opened Domain

  datatype RepriceConfig = RepriceConfig(
    enabled: bool,
    maxAttempts: nat,
    maxBuy: real,
    minSell: real,
    timeoutSeconds: int,
    crossAfter: Option<nat>,
    crossOffset: real,
    inPlace: bool)

  datatype Quote = Quote(bid: Option<real>, ask: Option<real>)

  /** Round to the nearest integer, ties to the even one. */
  function RoundHalfEven(x: real): int {
    var f := x.Floor;
    var d := x - f as real;
    if d < 0.5 then f
    else if d > 0.5 then f + 1
    else if f % 2 == 0 then f
    else f + 1
  }

  function Cents(x: real): real {
    RoundHalfEven(x * 100.0) as real / 100.0
  }

  function Nickels(x: real): real {
    RoundHalfEven(x * 20.0) as real / 20.0
  }

  /** Cents below 3.00, nickels from 3.00 up. */
  function Tick(x: real): real {
    if x < 3.0 then Cents(x) else Nickels(x)
  }

  predicate Crosses(attempts: nat, cfg: RepriceConfig) {
    cfg.crossAfter.Some? && attempts >= cfg.crossAfter.value
  }

  /** The repricer's target before rounding: unchanged when the touch is unusable. */
  function RawPrice(side: Side, limit: real, bid: real, ask: real, attempts: nat, cfg: RepriceConfig): real {
    if side == Buy then
      if 0.0 < ask <= cfg.maxBuy then
        if Crosses(attempts, cfg) then MinReal(ask + cfg.crossOffset, cfg.maxBuy)
        else MinReal(if attempts == 0 then (limit + ask) / 2.0 else ask, ask)
      else limit
    else
      if bid > 0.0 && bid >= cfg.minSell then
        if Crosses(attempts, cfg) then MaxReal(bid - cfg.crossOffset, cfg.minSell)
        else MaxReal(if attempts == 0 then (limit + bid) / 2.0 else bid, bid)
      else limit
  }

  function NextPrice(side: Side, limit: real, bid: real, ask: real, attempts: nat, cfg: RepriceConfig): real {
    Tick(RawPrice(side, limit, bid, ask, attempts, cfg))
  }

  // ---------------------------------------------------------------
  // Rounding
  // ---------------------------------------------------------------

  lemma RoundNear(x: real)
    ensures RoundHalfEven(x) as real - 0.5 <= x <= RoundHalfEven(x) as real + 0.5
  {
  }

  lemma RoundInteger(n: int)
    ensures RoundHalfEven(n as real) == n
  {
  }

  lemma RoundMonotone(x: real, y: real)
    requires x <= y
    ensures RoundHalfEven(x) <= RoundHalfEven(y)
  {
    RoundNear(x);
    RoundNear(y);
    if x.Floor == y.Floor {
    } else {
      assert x.Floor + 1 <= y.Floor;
    }
  }

  /** A cent price below 3.00 stays at or below 3.00 after rounding, a nickel price at or above. */
  lemma RegimesMeet(x: real)
    ensures x < 3.0 ==> Tick(x) <= 3.0
    ensures x >= 3.0 ==> Tick(x) >= 3.0
  {
    if x < 3.0 {
      RoundMonotone(x * 100.0, 300.0);
      RoundInteger(300);
    } else {
      RoundMonotone(60.0, x * 20.0);
      RoundInteger(60);
    }
  }

  /** Rounding a rounded price changes nothing, so the broker keeps the limit it is sent. */
  lemma TickIdempotent(x: real)
    ensures Tick(Tick(x)) == Tick(x)
  {
    RegimesMeet(x);
    if x < 3.0 {
      var n := RoundHalfEven(x * 100.0);
      if Tick(x) < 3.0 {
        assert Tick(x) * 100.0 == n as real;
        RoundInteger(n);
      } else {
        assert Tick(x) == 3.0;
        RoundInteger(60);
      }
    } else {
      var n := RoundHalfEven(x * 20.0);
      assert Tick(x) * 20.0 == n as real;
      RoundInteger(n);
    }
  }

  /** Order is kept, also across the 3.00 change of regime. */
  lemma TickMonotone(x: real, y: real)
    requires x <= y
    ensures Tick(x) <= Tick(y)
  {
    RegimesMeet(x);
    RegimesMeet(y);
    RoundMonotone(x * 100.0, y * 100.0);
    RoundMonotone(x * 20.0, y * 20.0);
  }

  /** Rounding moves a price by at most half a nickel, well inside the reconciliation tolerance. */
  lemma TickWithinTolerance(x: real)
    ensures AbsReal(Tick(x) - x) <= 0.025
    ensures x < 3.0 ==> AbsReal(Tick(x) - x) <= 0.005
    ensures !(AbsReal(x - Tick(x)) > 0.0501)
  {
    RoundNear(x * 100.0);
    RoundNear(x * 20.0);
  }

  lemma RoundIsNearest(x: real, k: int)
    ensures AbsReal(RoundHalfEven(x) as real - x) <= AbsReal(k as real - x)
    ensures AbsReal(RoundHalfEven(x) as real - x) == 0.5 ==> RoundHalfEven(x) % 2 == 0
  {
    if k <= x.Floor {
    } else {
      assert k >= x.Floor + 1;
    }
  }

  /**
   * No cent below 3.00 and no nickel from there up is nearer than the rounded price, which is one; ties go to the even
   * one.
   */
  lemma TickIsNearest(x: real, k: int) returns (n: int)
    ensures x < 3.0 ==> Tick(x) == n as real / 100.0 && AbsReal(Tick(x) - x) <= AbsReal(k as real / 100.0 - x)
    ensures x < 3.0 && AbsReal(Tick(x) - x) == 0.005 ==> n % 2 == 0
    ensures x >= 3.0 ==> Tick(x) == n as real / 20.0 && AbsReal(Tick(x) - x) <= AbsReal(k as real / 20.0 - x)
    ensures x >= 3.0 && AbsReal(Tick(x) - x) == 0.025 ==> n % 2 == 0
  {
    hide RoundHalfEven;
    if x < 3.0 {
      n := RoundHalfEven(x * 100.0);
      RoundIsNearest(x * 100.0, k);
    } else {
      n := RoundHalfEven(x * 20.0);
      RoundIsNearest(x * 20.0, k);
    }
  }

  // ---------------------------------------------------------------
  // The repriced limit
  // ---------------------------------------------------------------

  /**
   * With a usable touch, a repriced buy stays within the rounded ask (or the rounded
   * cross) and the rounded cap, a repriced sell mirrors it, and the broker's own
   * rounding leaves the limit as it is.
   */
  lemma RepricedLimitBounds(side: Side, limit: real, bid: real, ask: real, attempts: nat, cfg: RepriceConfig)
    ensures
      var price := NextPrice(side, limit, bid, ask, attempts, cfg);
      && Tick(price) == price
      && (side == Buy && 0.0 < ask <= cfg.maxBuy ==>
            && price <= Tick(cfg.maxBuy)
            && price <= Tick(if Crosses(attempts, cfg) then ask + cfg.crossOffset else ask))
      && (side == Sell && bid > 0.0 && bid >= cfg.minSell ==>
            && price >= Tick(cfg.minSell)
            && price >= Tick(if Crosses(attempts, cfg) then bid - cfg.crossOffset else bid))
  {
    var raw := RawPrice(side, limit, bid, ask, attempts, cfg);
    TickIdempotent(raw);
    if side == Buy && 0.0 < ask <= cfg.maxBuy {
      TickMonotone(raw, cfg.maxBuy);
      TickMonotone(raw, if Crosses(attempts, cfg) then ask + cfg.crossOffset else ask);
    }
    if side == Sell && bid > 0.0 && bid >= cfg.minSell {
      TickMonotone(cfg.minSell, raw);
      TickMonotone(if Crosses(attempts, cfg) then bid - cfg.crossOffset else bid, raw);
    }
  }

  /** Every usable quote leaves the buy limit at or below the configured cap. */
  ghost predicate BuysRespectCap(cfg: RepriceConfig) {
    forall limit: real, bid: real, ask: real, attempts: nat :: 0.0 < ask <= cfg.maxBuy ==>
      NextPrice(Buy, limit, bid, ask, attempts, cfg) <= cfg.maxBuy
  }

  ghost predicate SellsRespectFloor(cfg: RepriceConfig) {
    forall limit: real, bid: real, ask: real, attempts: nat :: bid > 0.0 && bid >= cfg.minSell ==>
      NextPrice(Sell, limit, bid, ask, attempts, cfg) >= cfg.minSell
  }

  /** The highest price a usable ask can produce before rounding. */
  function HighestBuy(cfg: RepriceConfig): real {
    if Crosses(0, cfg) then MinReal(cfg.maxBuy + cfg.crossOffset, cfg.maxBuy) else cfg.maxBuy
  }

  function LowestSell(cfg: RepriceConfig): real {
    if Crosses(0, cfg) then MaxReal(cfg.minSell - cfg.crossOffset, cfg.minSell) else cfg.minSell
  }

  /** The cap is applied before rounding: it binds exactly when rounding does not lift the price past it. */
  lemma CapHoldsIff(cfg: RepriceConfig)
    requires 0.0 < cfg.maxBuy
    ensures BuysRespectCap(cfg) <==> Tick(HighestBuy(cfg)) <= cfg.maxBuy
  {
    if Tick(HighestBuy(cfg)) <= cfg.maxBuy {
      forall limit: real, bid: real, ask: real, attempts: nat | 0.0 < ask <= cfg.maxBuy
        ensures NextPrice(Buy, limit, bid, ask, attempts, cfg) <= cfg.maxBuy
      {
        TickMonotone(RawPrice(Buy, limit, bid, ask, attempts, cfg), HighestBuy(cfg));
      }
    } else {
      var cap := cfg.maxBuy;
      assert RawPrice(Buy, cap, cap, cap, 0, cfg) == HighestBuy(cfg);
      assert NextPrice(Buy, cap, cap, cap, 0, cfg) > cap;
    }
  }

  lemma FloorHoldsIff(cfg: RepriceConfig)
    requires 0.0 < cfg.minSell
    ensures SellsRespectFloor(cfg) <==> Tick(LowestSell(cfg)) >= cfg.minSell
  {
    if Tick(LowestSell(cfg)) >= cfg.minSell {
      forall limit: real, bid: real, ask: real, attempts: nat | bid > 0.0 && bid >= cfg.minSell
        ensures NextPrice(Sell, limit, bid, ask, attempts, cfg) >= cfg.minSell
      {
        TickMonotone(LowestSell(cfg), RawPrice(Sell, limit, bid, ask, attempts, cfg));
      }
    } else {
      var floor := cfg.minSell;
      assert RawPrice(Sell, floor, floor, floor, 0, cfg) == LowestSell(cfg);
      assert NextPrice(Sell, floor, floor, floor, 0, cfg) < floor;
    }
  }

  /** A cap between two nickels is overshot: at 3.03 a buy goes out at 3.05. */
  lemma CapCanBeOvershot()
    ensures exists cfg: RepriceConfig :: 0.0 < cfg.maxBuy && !BuysRespectCap(cfg)
  {
    var cfg := RepriceConfig(true, 3, 3.03, 0.01, 30, None, 0.05, false);
    assert RoundHalfEven(60.6) == 61;
    assert Tick(3.03) == 3.05;
    CapHoldsIff(cfg);
  }
}
