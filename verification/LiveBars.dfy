/** The 5-minute bar the EMA machine is fed: one-minute bars of a window, put together, summarise the window's ticks. */
module LiveBars {
  import opened Domain
  import Bars
  import EmaMachine

  function InWindow(bars: seq<Bars.Candle>, from: int, to: int): seq<Bars.Candle> {
    var n := |bars| - 1;
    if bars == [] then []
    else InWindow(bars[..n], from, to) + if from <= bars[n].minute < to then [bars[n]] else []
  }

  function Highest(bars: seq<Bars.Candle>): real
    requires bars != []
  {
    var n := |bars| - 1;
    if n == 0 then bars[0].high else MaxReal(Highest(bars[..n]), bars[n].high)
  }

  function Lowest(bars: seq<Bars.Candle>): real
    requires bars != []
  {
    var n := |bars| - 1;
    if n == 0 then bars[0].low else MinReal(Lowest(bars[..n]), bars[n].low)
  }

  /** Absent unless the builder has bars from before the window opened, and some in it. */
  function LiveBar(bars: seq<Bars.Candle>, from: int, to: int): Option<EmaMachine.Candle> {
    if bars == [] || bars[0].minute > from then None
    else
      var window := InWindow(bars, from, to);
      if window == [] then None
      else Some(EmaMachine.Candle(window[0].open, Highest(window), Lowest(window), window[|window| - 1].close))
  }

  lemma {:induction false} DroppedOutside(bars: seq<Bars.Candle>, d: nat, from: int, to: int)
    requires d <= |bars| && forall i :: 0 <= i < d ==> bars[i].minute < from
    ensures InWindow(bars[d..], from, to) == InWindow(bars, from, to)
    decreases |bars|
  {
    var n := |bars| - 1;
    if bars != [] {
      if d == |bars| {
        assert bars[..n][n..] == [];
        DroppedOutside(bars[..n], n, from, to);
        assert InWindow(bars[..n], from, to) + [] == [];
      } else {
        assert bars[d..][..n - d] == bars[..n][d..];
        DroppedOutside(bars[..n], d, from, to);
      }
    }
  }

  /** When the oldest kept bar is not after the window's start, the cap has dropped nothing of the window. */
  lemma CoverageSuffices(c: seq<Bars.Candle>, cap: nat, from: int, to: int)
    requires Bars.Increasing(c) && LiveBar(Bars.Latest(c, cap), from, to).Some?
    ensures LiveBar(Bars.Latest(c, cap), from, to) == LiveBar(c, from, to)
  {
    var d := |c| - Min(cap, |c|);
    assert Bars.Latest(c, cap)[0] == c[d];
    DroppedOutside(c, d, from, to);
  }

  lemma {:induction false} WindowOf(bars: seq<Bars.Candle>, from: int, to: int)
    ensures forall b :: b in InWindow(bars, from, to) <==> b in bars && from <= b.minute < to
    ensures Bars.Increasing(bars) ==> Bars.Increasing(InWindow(bars, from, to))
  {
    var n := |bars| - 1;
    if bars != [] {
      WindowOf(bars[..n], from, to);
      assert bars == bars[..n] + [bars[n]];
      var w := InWindow(bars[..n], from, to);
      assert forall k :: 0 <= k < |w| ==> w[k] in bars[..n];
    }
  }

  lemma {:induction false} LowestAt(bars: seq<Bars.Candle>) returns (lo: nat)
    requires bars != []
    ensures lo < |bars| && Lowest(bars) == bars[lo].low
    ensures forall k :: 0 <= k < |bars| ==> Lowest(bars) <= bars[k].low
  {
    var n := |bars| - 1;
    lo := n;
    if n > 0 {
      var rest := LowestAt(bars[..n]);
      assert forall k :: 0 <= k < n ==> bars[k] == bars[..n][k];
      lo := if bars[rest].low <= bars[n].low then rest else n;
    }
  }

  lemma {:induction false} HighestAt(bars: seq<Bars.Candle>) returns (hi: nat)
    requires bars != []
    ensures hi < |bars| && Highest(bars) == bars[hi].high
    ensures forall k :: 0 <= k < |bars| ==> bars[k].high <= Highest(bars)
  {
    var n := |bars| - 1;
    hi := n;
    if n > 0 {
      var rest := HighestAt(bars[..n]);
      assert forall k :: 0 <= k < n ==> bars[k] == bars[..n][k];
      hi := if bars[rest].high >= bars[n].high then rest else n;
    }
  }

  /** The price belongs to some minute of the window. */
  ghost predicate PriceIn(ticks: seq<Bars.Tick>, from: int, to: int, price: real) {
    exists m :: from <= m < to && price in Bars.PricesAt(ticks, m)
  }

  lemma BarPrices(c: seq<Bars.Candle>, ticks: seq<Bars.Tick>, from: int, to: int, b: Bars.Candle)
    requires Bars.Right(c, ticks) && b in InWindow(c, from, to)
    ensures Bars.Summarises(b, Bars.PricesAt(ticks, b.minute)) && from <= b.minute < to
    ensures PriceIn(ticks, from, to, b.low) && PriceIn(ticks, from, to, b.high)
  {
    hide Bars.PricesAt;
    WindowOf(c, from, to);
    var i :| 0 <= i < |c| && c[i] == b;
  }

  lemma WindowCovers(c: seq<Bars.Candle>, ticks: seq<Bars.Tick>, from: int, to: int, price: real)
    requires Bars.Right(c, ticks) && PriceIn(ticks, from, to, price)
    ensures InWindow(c, from, to) != []
    ensures Lowest(InWindow(c, from, to)) <= price <= Highest(InWindow(c, from, to))
  {
    hide Bars.PricesAt, Highest, Lowest, InWindow;
    var m :| from <= m < to && price in Bars.PricesAt(ticks, m);
    assert Bars.HasMinute(c, m);
    var i :| 0 <= i < |c| && c[i].minute == m;
    WindowOf(c, from, to);
    assert c[i] in c && c[i] in InWindow(c, from, to);
    var window := InWindow(c, from, to);
    var k :| 0 <= k < |window| && window[k] == c[i];
    var _ := LowestAt(window);
    var _ := HighestAt(window);
    assert Bars.Summarises(c[i], Bars.PricesAt(ticks, m));
  }

  /** The assembled bar bounds every accepted tick of the window and attains both bounds. */
  lemma LiveBarBounds(ticks: seq<Bars.Tick>, c: seq<Bars.Candle>, from: int, to: int)
    requires Bars.Right(c, ticks) && LiveBar(c, from, to).Some?
    ensures
      var bar := LiveBar(c, from, to).value;
      && (forall price :: PriceIn(ticks, from, to, price) ==> bar.low <= price <= bar.high)
      && PriceIn(ticks, from, to, bar.low) && PriceIn(ticks, from, to, bar.high)
      && bar.low <= bar.high
  {
    hide Bars.PricesAt, Bars.Right, Highest, Lowest, InWindow, PriceIn, Bars.Summarises;
    var window := InWindow(c, from, to);
    var lo := LowestAt(window);
    var hi := HighestAt(window);
    BarPrices(c, ticks, from, to, window[lo]);
    BarPrices(c, ticks, from, to, window[hi]);
    forall price | PriceIn(ticks, from, to, price) ensures Lowest(window) <= price <= Highest(window) {
      WindowCovers(c, ticks, from, to, price);
    }
    assert PriceIn(ticks, from, to, window[lo].low);
  }

  lemma WindowSpans(ticks: seq<Bars.Tick>, c: seq<Bars.Candle>, from: int, to: int, m: int)
    requires Bars.Right(c, ticks) && from <= m < to && Bars.PricesAt(ticks, m) != []
    ensures
      var window := InWindow(c, from, to);
      window != [] && window[0].minute <= m <= window[|window| - 1].minute
  {
    hide Bars.PricesAt, Bars.Summarises, InWindow;
    var window := InWindow(c, from, to);
    assert Bars.HasMinute(c, m);
    var i :| 0 <= i < |c| && c[i].minute == m;
    WindowOf(c, from, to);
    assert c[i] in c;
    var k :| 0 <= k < |window| && window[k] == c[i];
  }

  /**
   * `first` and `last` are the window's first and last traded minutes, and the bar opens and closes with their prices.
   */
  ghost predicate Ends(bar: EmaMachine.Candle, ticks: seq<Bars.Tick>, from: int, to: int, first: int, last: int) {
    var opening, closing := Bars.PricesAt(ticks, first), Bars.PricesAt(ticks, last);
    && (forall m :: from <= m < to && Bars.PricesAt(ticks, m) != [] ==> first <= m <= last)
    && opening != [] && bar.open == opening[0]
    && closing != [] && bar.close == closing[|closing| - 1]
  }

  /** It opens with the first price of the window's first traded minute and closes with the last of its last. */
  lemma LiveBarEnds(ticks: seq<Bars.Tick>, c: seq<Bars.Candle>, from: int, to: int)
    requires Bars.Right(c, ticks) && LiveBar(c, from, to).Some?
    ensures
      var window := InWindow(c, from, to);
      window != [] && Ends(LiveBar(c, from, to).value, ticks, from, to, window[0].minute, window[|window| - 1].minute)
  {
    hide Bars.PricesAt, Bars.Right, Highest, Lowest, InWindow, PriceIn;
    var window := InWindow(c, from, to);
    BarPrices(c, ticks, from, to, window[0]);
    BarPrices(c, ticks, from, to, window[|window| - 1]);
    forall m | from <= m < to && Bars.PricesAt(ticks, m) != []
      ensures window[0].minute <= m <= window[|window| - 1].minute
    {
      WindowSpans(ticks, c, from, to, m);
    }
  }

  lemma LiveBarOrdered(ticks: seq<Bars.Tick>, cap: nat, from: int, to: int)
    ensures
      var bar := LiveBar(Bars.Latest(Bars.Candles(ticks), cap), from, to);
      bar.Some? ==> bar.value.low <= bar.value.high
  {
    hide Bars.Candles;
    if LiveBar(Bars.Latest(Bars.Candles(ticks), cap), from, to).Some? {
      Bars.CandlesRight(ticks);
      CoverageSuffices(Bars.Candles(ticks), cap, from, to);
      LiveBarBounds(ticks, Bars.Candles(ticks), from, to);
    }
  }

  /** So whatever live feed the builder gives, its bars are well formed, as TriggerStop asks. */
  lemma LiveFeedWellFormed(ticksAt: int -> seq<Bars.Tick>, cap: nat, history: int -> Option<real>, putsOnly: bool)
    ensures EmaMachine.WellFormed(EmaMachine.Feed(
              (t: int) => LiveBar(Bars.Latest(Bars.Candles(ticksAt(t)), cap), t - EmaMachine.STEP, t),
              history, putsOnly))
  {
    hide LiveBar, Bars.Latest, Bars.Candles;
    forall t: int
      ensures
        var bar := LiveBar(Bars.Latest(Bars.Candles(ticksAt(t)), cap), t - EmaMachine.STEP, t);
        bar.Some? ==> bar.value.low <= bar.value.high
    {
      LiveBarOrdered(ticksAt(t), cap, t - EmaMachine.STEP, t);
    }
  }
}
