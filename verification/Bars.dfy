/** One-minute bars built from ticks and rolled lazily by readers, against a fold of the ticks alone. */
module Bars {
  import opened Domain

  // ---------------------------------------------------------------
  // One symbol's state, on values
  // ---------------------------------------------------------------

  datatype Candle = Candle(minute: int, open: real, high: real, low: real, close: real, ticks: nat)

  /** The bar being built, if any, and the bars kept of those already finished. */
  datatype Feed = Feed(working: Option<Candle>, completed: seq<Candle>)

  const Empty := Feed(None, [])

  datatype Tick = Tick(minute: int, price: real)

  datatype Act = OnTick(tick: Tick) | OnRead(minute: int)

  function First(t: Tick): Candle {
    Candle(t.minute, t.price, t.price, t.price, t.price, 1)
  }

  function Updated(c: Candle, price: real): Candle {
    c.(high := MaxReal(c.high, price), low := MinReal(c.low, price), close := price, ticks := c.ticks + 1)
  }

  /** The latest `n` elements: what a deque of length `n` keeps. */
  function Latest<T>(s: seq<T>, n: nat): seq<T> {
    s[|s| - Min(n, |s|)..]
  }

  function Rolled(f: Feed, cap: nat): Feed {
    if f.working.None? then f else Feed(None, Latest(f.completed + [f.working.value], cap))
  }

  function Ticked(f: Feed, t: Tick, cap: nat): Feed {
    if t.price <= 0.0 then f
    else if f.working.None? then f.(working := Some(First(t)))
    else if f.working.value.minute < t.minute then Rolled(f, cap).(working := Some(First(t)))
    else if f.working.value.minute > t.minute then f
    else f.(working := Some(Updated(f.working.value, t.price)))
  }

  function Looked(f: Feed, minute: int, cap: nat): Feed {
    if f.working.Some? && f.working.value.minute < minute then Rolled(f, cap) else f
  }

  function Next(f: Feed, a: Act, cap: nat): Feed {
    match a
    case OnTick(t) => Ticked(f, t, cap)
    case OnRead(minute) => Looked(f, minute, cap)
  }

  function After(acts: seq<Act>, cap: nat): Feed {
    if acts == [] then Empty else Next(After(acts[..|acts| - 1], cap), acts[|acts| - 1], cap)
  }

  // ---------------------------------------------------------------
  // The reference: a fold of the ticks that knows no readers and no cap
  // ---------------------------------------------------------------

  function TicksOf(acts: seq<Act>): seq<Tick> {
    if acts == [] then []
    else
      var a := acts[|acts| - 1];
      TicksOf(acts[..|acts| - 1]) + if a.OnTick? then [a.tick] else []
  }

  function Candles(ticks: seq<Tick>): seq<Candle> {
    if ticks == [] then [] else WithTick(Candles(ticks[..|ticks| - 1]), ticks[|ticks| - 1])
  }

  function WithTick(c: seq<Candle>, t: Tick): seq<Candle> {
    var n := |c| - 1;
    if t.price <= 0.0 then c
    else if c == [] || c[n].minute < t.minute then c + [First(t)]
    else if c[n].minute > t.minute then c
    else c[..n] + [Updated(c[n], t.price)]
  }

  /** The prices a minute's bar is made of: positive, and not behind an earlier one. */
  ghost function PricesAt(ticks: seq<Tick>, minute: int): seq<real> {
    if ticks == [] then []
    else
      var n := |ticks| - 1;
      PricesAt(ticks[..n], minute) + if ticks[n].minute == minute && InOrder(ticks, n) then [ticks[n].price] else []
  }

  ghost predicate InOrder(ticks: seq<Tick>, i: nat)
    requires i < |ticks|
  {
    ticks[i].price > 0.0 && forall j :: 0 <= j < i && ticks[j].price > 0.0 ==> ticks[j].minute <= ticks[i].minute
  }

  ghost predicate Summarises(c: Candle, prices: seq<real>) {
    && prices != [] && c.ticks == |prices|
    && c.open == prices[0] && c.close == prices[|prices| - 1]
    && c.high in prices && c.low in prices
    && forall k :: 0 <= k < |prices| ==> c.low <= prices[k] <= c.high
  }

  ghost predicate Increasing(c: seq<Candle>) {
    forall i, j :: 0 <= i < j < |c| ==> c[i].minute < c[j].minute
  }

  ghost predicate HasMinute(c: seq<Candle>, minute: int) {
    exists i :: 0 <= i < |c| && c[i].minute == minute
  }

  /** Increasing minutes, each bar summarising its minute, and no accepted tick without a bar. */
  ghost predicate Right(c: seq<Candle>, ticks: seq<Tick>) {
    && Increasing(c)
    && (forall i :: 0 <= i < |c| ==> Summarises(c[i], PricesAt(ticks, c[i].minute)))
    && (forall m :: PricesAt(ticks, m) != [] ==> HasMinute(c, m))
    && (forall k :: 0 <= k < |ticks| && ticks[k].price > 0.0 ==> c != [] && ticks[k].minute <= c[|c| - 1].minute)
  }

  /** Is the tick folded into a bar? */
  predicate Accepted(c: seq<Candle>, t: Tick) {
    t.price > 0.0 && (c == [] || c[|c| - 1].minute <= t.minute)
  }

  lemma PricesStep(c: seq<Candle>, ticks: seq<Tick>, t: Tick, minute: int)
    requires Right(c, ticks)
    ensures PricesAt(ticks + [t], minute)
            == PricesAt(ticks, minute) + if t.minute == minute && Accepted(c, t) then [t.price] else []
  {
    var all, n := ticks + [t], |ticks|;
    assert all[..n] == ticks && all[n] == t;
    assert forall j :: 0 <= j < n ==> all[j] == ticks[j];
    if c != [] {
      assert Summarises(c[|c| - 1], PricesAt(ticks, c[|c| - 1].minute));
      var k := SomeTick(ticks, c[|c| - 1].minute);
      assert all[k] == ticks[k];
    }
    assert InOrder(all, n) <==> Accepted(c, t);
  }

  lemma StepSummarises(c: seq<Candle>, ticks: seq<Tick>, t: Tick, i: nat)
    requires Right(c, ticks) && i < |WithTick(c, t)|
    ensures Summarises(WithTick(c, t)[i], PricesAt(ticks + [t], WithTick(c, t)[i].minute))
  {
    hide PricesAt, Summarises, First;
    var d := WithTick(c, t);
    PricesStep(c, ticks, t, d[i].minute);
    var was := PricesAt(ticks, d[i].minute);
    if i < |c| && d[i] == c[i] {
      assert was + [] == was;
      assert Summarises(c[i], was);
    } else if i < |c| {
      assert Summarises(c[i], PricesAt(ticks, c[i].minute));
      assert d[i] == Updated(c[i], t.price);
      UpdateSummarises(c[i], was, t.price);
    } else {
      FirstSummarises(t);
      assert !HasMinute(c, t.minute);
      assert was == [];
      assert [] + [t.price] == [t.price];
    }
  }

  lemma FirstSummarises(t: Tick)
    ensures First(t).minute == t.minute && Summarises(First(t), [t.price])
  {
  }

  lemma StepHasMinute(c: seq<Candle>, ticks: seq<Tick>, t: Tick, minute: int)
    requires Right(c, ticks) && PricesAt(ticks + [t], minute) != []
    ensures HasMinute(WithTick(c, t), minute)
  {
    var d := WithTick(c, t);
    PricesStep(c, ticks, t, minute);
    if t.minute == minute && Accepted(c, t) {
      assert d[|d| - 1].minute == minute;
    } else {
      assert PricesAt(ticks, minute) != [];
      var i :| 0 <= i < |c| && c[i].minute == minute;
      assert d[i].minute == minute;
    }
  }

  lemma StepNotAhead(c: seq<Candle>, ticks: seq<Tick>, t: Tick)
    requires Right(c, ticks)
    ensures
      var d, all := WithTick(c, t), ticks + [t];
      && Increasing(d)
      && forall k :: 0 <= k < |all| && all[k].price > 0.0 ==> d != [] && all[k].minute <= d[|d| - 1].minute
  {
    hide PricesAt, Summarises, HasMinute;
  }

  /** The fold is right. */
  lemma {:induction false} CandlesRight(ticks: seq<Tick>)
    ensures Right(Candles(ticks), ticks)
    decreases |ticks|
  {
    hide PricesAt, Summarises, HasMinute, WithTick;
    if ticks != [] {
      var n := |ticks| - 1;
      var before, t := ticks[..n], ticks[n];
      CandlesRight(before);
      var c := Candles(before);
      assert ticks == before + [t];
      StepNotAhead(c, before, t);
      forall i | 0 <= i < |Candles(ticks)|
        ensures Summarises(Candles(ticks)[i], PricesAt(ticks, Candles(ticks)[i].minute))
      {
        StepSummarises(c, before, t, i);
      }
      forall m | PricesAt(ticks, m) != [] ensures HasMinute(Candles(ticks), m) {
        StepHasMinute(c, before, t, m);
      }
    } else {
      NothingAt();
    }
  }

  lemma NothingAt()
    ensures forall m :: PricesAt([], m) == []
  {
  }

  lemma UpdateSummarises(c: Candle, prices: seq<real>, price: real)
    requires Summarises(c, prices)
    ensures Updated(c, price).minute == c.minute && Summarises(Updated(c, price), prices + [price])
  {
    var u := Updated(c, price);
    assert (prices + [price])[|prices|] == price && u.high == MaxReal(c.high, price) && u.low == MinReal(c.low, price);
    assert forall k :: 0 <= k < |prices| ==> (prices + [price])[k] == prices[k];
  }

  lemma {:induction false} SomeTick(ticks: seq<Tick>, minute: int) returns (k: nat)
    requires PricesAt(ticks, minute) != []
    ensures k < |ticks| && ticks[k].minute == minute && ticks[k].price > 0.0
    decreases |ticks|
  {
    k := |ticks| - 1;
    if !(ticks[k].minute == minute && InOrder(ticks, k)) {
      k := SomeTick(ticks[..k], minute);
    }
  }

  // ---------------------------------------------------------------
  // Refinement
  // ---------------------------------------------------------------

  /** The kept bars are the latest of the fold's, the working one (if any) being its last. */
  ghost predicate Agrees(f: Feed, c: seq<Candle>, cap: nat) {
    match f.working
    case None => f.completed == Latest(c, cap)
    case Some(w) => c != [] && w == c[|c| - 1] && f.completed == Latest(c[..|c| - 1], cap)
  }

  /** A tick for a minute that a reader has already closed. */
  predicate Late(f: Feed, a: Act) {
    && a.OnTick? && a.tick.price > 0.0
    && f.working.None? && f.completed != []
    && a.tick.minute <= f.completed[|f.completed| - 1].minute
  }

  lemma RollKeeps(f: Feed, c: seq<Candle>, cap: nat)
    requires Agrees(f, c, cap)
    ensures Agrees(Rolled(f, cap), c, cap)
  {
    if f.working.Some? {
      assert c == c[..|c| - 1] + [c[|c| - 1]];
    }
  }

  lemma TickAgrees(f: Feed, c: seq<Candle>, t: Tick, cap: nat)
    requires cap > 0 && Agrees(f, c, cap) && !Late(f, OnTick(t))
    ensures Agrees(Ticked(f, t, cap), WithTick(c, t), cap)
  {
    hide Latest, Updated;
    RollKeeps(f, c, cap);
    assert (c + [First(t)])[..|c|] == c;
    if f.working.Some? {
      SameStart(c, Updated(c[|c| - 1], t.price));
    } else if c != [] {
      LatestLast(c, cap);
    }
  }

  lemma SameStart(c: seq<Candle>, u: Candle)
    requires c != []
    ensures
      var d := c[..|c| - 1] + [u];
      |d| == |c| && d[|d| - 1] == u && d[..|d| - 1] == c[..|c| - 1]
  {
  }

  lemma LatestLast(c: seq<Candle>, cap: nat)
    requires cap > 0 && c != []
    ensures Latest(c, cap) != [] && Latest(c, cap)[|Latest(c, cap)| - 1] == c[|c| - 1]
  {
  }

  lemma LateDiffers(f: Feed, c: seq<Candle>, t: Tick, cap: nat)
    requires cap > 0 && Late(f, OnTick(t)) && Increasing(c)
    ensures !Agrees(Ticked(f, t, cap), c, cap)
  {
    if |c| >= 2 {
      LatestLast(c[..|c| - 1], cap);
      assert c[|c| - 2].minute < c[|c| - 1].minute;
    }
  }

  /** One step agrees with the fold exactly when it is not a late tick. */
  lemma StepAgreesIff(f: Feed, ticks: seq<Tick>, a: Act, cap: nat)
    requires cap > 0 && Agrees(f, Candles(ticks), cap)
    ensures
      var after := if a.OnTick? then ticks + [a.tick] else ticks;
      Agrees(Next(f, a, cap), Candles(after), cap) <==> !Late(f, a)
  {
    hide Agrees, WithTick, Ticked, PricesAt, Summarises, HasMinute, Increasing, Rolled;
    if a.OnRead? {
      RollKeeps(f, Candles(ticks), cap);
    } else {
      var t := a.tick;
      assert (ticks + [t])[..|ticks|] == ticks;
      if Late(f, a) {
        CandlesRight(ticks + [t]);
        LateDiffers(f, Candles(ticks + [t]), t, cap);
      } else {
        TickAgrees(f, Candles(ticks), t, cap);
      }
    }
  }

  ghost predicate NeverLate(acts: seq<Act>, cap: nat) {
    forall i :: 0 <= i < |acts| ==> !Late(After(acts[..i], cap), acts[i])
  }

  lemma EmptyAgrees(cap: nat)
    ensures Agrees(Empty, Candles([]), cap)
  {
  }

  /** Over a whole run the builder keeps the latest bars of the fold, wherever the reads fall. */
  lemma {:induction false} RefinesFold(acts: seq<Act>, cap: nat)
    requires cap > 0 && NeverLate(acts, cap)
    ensures Agrees(After(acts, cap), Candles(TicksOf(acts)), cap)
    decreases |acts|
  {
    hide Agrees, Late, Next, Candles;
    if acts == [] {
      EmptyAgrees(cap);
    } else {
      var n := |acts| - 1;
      assert forall i :: 0 <= i < n ==> acts[..n][..i] == acts[..i] && acts[..n][i] == acts[i];
      RefinesFold(acts[..n], cap);
      StepAgreesIff(After(acts[..n], cap), TicksOf(acts[..n]), acts[n], cap);
      assert TicksOf(acts[..n]) + [] == TicksOf(acts[..n]);
    }
  }

  /** The first late tick is where the builder and the fold part. */
  lemma LateTickParts(acts: seq<Act>, i: nat, cap: nat)
    requires cap > 0 && i < |acts| && NeverLate(acts[..i], cap) && Late(After(acts[..i], cap), acts[i])
    ensures !Agrees(After(acts[..i + 1], cap), Candles(TicksOf(acts[..i + 1])), cap)
  {
    RefinesFold(acts[..i], cap);
    StepAgreesIff(After(acts[..i], cap), TicksOf(acts[..i]), acts[i], cap);
    assert acts[..i + 1][..i] == acts[..i];
  }

  /** No tick is older than the minute of an earlier read. */
  predicate Timely(acts: seq<Act>) {
    forall i, j :: 0 <= i < j < |acts| && acts[i].OnRead? && acts[j].OnTick? ==> acts[i].minute <= acts[j].tick.minute
  }

  /** With clocks that agree no tick is ever late. */
  lemma {:induction false} TimelyNeverLate(acts: seq<Act>, cap: nat)
    requires Timely(acts)
    ensures NeverLate(acts, cap)
  {
    forall i | 0 <= i < |acts| ensures !Late(After(acts[..i], cap), acts[i]) {
      if After(acts[..i], cap).working.None? && After(acts[..i], cap).completed != [] {
        var r := ClosingRead(acts[..i], cap);
        assert acts[r] == acts[..i][r];
      }
    }
  }

  /** Nothing being built while bars are kept means that some read closed the last one. */
  lemma {:induction false} ClosingRead(acts: seq<Act>, cap: nat) returns (r: nat)
    requires After(acts, cap).working.None? && After(acts, cap).completed != []
    ensures r < |acts| && acts[r].OnRead?
    ensures
      var done := After(acts, cap).completed;
      done[|done| - 1].minute < acts[r].minute
    decreases |acts|
  {
    var n := |acts| - 1;
    var before := After(acts[..n], cap);
    if before.working.Some? {
      r := n;
    } else {
      r := ClosingRead(acts[..n], cap);
      assert acts[..n][r] == acts[r];
    }
  }

  /** Everything a reader could be shown, at most `cap` of it. */
  function Shown(f: Feed, cap: nat): seq<Candle> {
    Latest(f.completed + (if f.working.Some? then [f.working.value] else []), cap)
  }

  lemma AgreesShows(f: Feed, c: seq<Candle>, cap: nat)
    requires Agrees(f, c, cap)
    ensures Shown(f, cap) == Latest(c, cap)
  {
    if f.working.Some? {
      assert c == c[..|c| - 1] + [c[|c| - 1]];
    } else {
      assert f.completed + [] == f.completed;
    }
  }

  /** Inserting, moving or removing reads changes no bar. */
  lemma ReadsAreInvisible(acts: seq<Act>, others: seq<Act>, cap: nat)
    requires cap > 0 && NeverLate(acts, cap) && NeverLate(others, cap)
    requires TicksOf(acts) == TicksOf(others)
    ensures Shown(After(acts, cap), cap) == Shown(After(others, cap), cap)
  {
    RefinesFold(acts, cap);
    RefinesFold(others, cap);
    AgreesShows(After(acts, cap), Candles(TicksOf(acts)), cap);
    AgreesShows(After(others, cap), Candles(TicksOf(acts)), cap);
  }

  /** Late ticks do happen: one read too early makes two bars of one minute. */
  lemma EarlyReadSplitsMinute(cap: nat)
    requires cap > 0
    ensures
      var acts := [OnTick(Tick(5, 1.0)), OnRead(6), OnTick(Tick(5, 2.0))];
      var f := After(acts, cap);
      f.working.Some? && f.completed != [] && f.working.value.minute == f.completed[|f.completed| - 1].minute
  {
    var acts := [OnTick(Tick(5, 1.0)), OnRead(6), OnTick(Tick(5, 2.0))];
    assert acts[..2] == [OnTick(Tick(5, 1.0)), OnRead(6)];
    assert acts[..2][..1] == [OnTick(Tick(5, 1.0))];
    assert acts[..2][..1][..0] == [];
    assert After(acts[..2][..1], cap) == Feed(Some(First(Tick(5, 1.0))), []);
    assert After(acts[..2], cap) == Feed(None, [First(Tick(5, 1.0))]);
  }

  // ---------------------------------------------------------------
  // The builder
  // ---------------------------------------------------------------

  class Bar {
    const minute: int
    var open: real
    var high: real
    var low: real
    var close: real
    var ticks: nat

    ghost function View(): Candle
      reads this
    {
      Candle(minute, open, high, low, close, ticks)
    }

    constructor (minute: int, price: real)
      ensures View() == First(Tick(minute, price))
    {
      this.minute := minute;
      open, high, low, close, ticks := price, price, price, price, 1;
    }

    method Update(price: real)
      modifies this
      ensures View() == Updated(old(View()), price)
    {
      high := MaxReal(high, price);
      low := MinReal(low, price);
      close := price;
      ticks := ticks + 1;
    }
  }

  ghost function Views(bars: seq<Bar>): seq<Candle>
    reads bars
  {
    seq(|bars|, i requires 0 <= i < |bars| reads bars => bars[i].View())
  }

  lemma ViewsLatest(bars: seq<Bar>, n: nat)
    ensures Views(Latest(bars, n)) == Latest(Views(bars), n)
  {
  }

  lemma ViewsAppend(bars: seq<Bar>, bar: Bar)
    ensures Views(bars + [bar]) == Views(bars) + [bar.View()]
  {
  }

  lemma LatestMembers<T>(s: seq<T>, n: nat)
    ensures forall x :: x in Latest(s, n) ==> x in s
  {
  }

  lemma ViewsTail(bars: seq<Bar>, count: int)
    ensures Views(Tail(bars, count)) == Tail(Views(bars), count)
  {
  }

  /** A Python slice `[-count:]`. */
  function Tail<T>(s: seq<T>, count: int): seq<T> {
    if count > 0 then Latest(s, count) else s[Min(-count, |s|)..]
  }

  class BarBuilder {
    const maxCompleted: nat
    var working: map<string, Bar>
    var completed: map<string, seq<Bar>>

    /** No bar is built for two symbols, and a finished bar is never the one being built. */
    ghost predicate Valid()
      reads this
    {
      && (forall s, t :: s in working && t in working && s != t ==> working[s] != working[t])
      && (forall s, t :: s in working && t in completed ==> working[s] !in completed[t])
    }

    ghost function BarsOf(symbol: string): set<Bar>
      reads this
    {
      (if symbol in working then {working[symbol]} else {})
      + if symbol in completed then set b | b in completed[symbol] else {}
    }

    ghost function FeedOf(symbol: string): Feed
      reads this, BarsOf(symbol)
    {
      Feed(if symbol in working then Some(working[symbol].View()) else None,
           if symbol in completed then Views(completed[symbol]) else [])
    }

    constructor (maxCompleted: nat)
      ensures Valid() && this.maxCompleted == maxCompleted
      ensures forall symbol :: FeedOf(symbol) == Empty
    {
      this.maxCompleted := maxCompleted;
      working, completed := map[], map[];
    }

    /** Fold one observed price into the bar of its minute. Finished bars are never touched. */
    method OnTick(symbol: string, price: Option<real>, minute: int)
      requires Valid()
      modifies this, if symbol in working then {working[symbol]} else {}
      ensures Valid()
      ensures FeedOf(symbol) ==
              hide Latest, MaxReal, MinReal;
      if price.None? then old(FeedOf(symbol)) else Ticked(old(FeedOf(symbol)), Tick(minute, price.value), maxCompleted)
      ensures forall other :: other != symbol ==> FeedOf(other) == old(FeedOf(other))
    {
      if price.None? || price.value <= 0.0 {
        return;
      }
      if symbol in working && working[symbol].minute == minute {
        working[symbol].Update(price.value);
        return;
      }
      if symbol in working {
        if working[symbol].minute > minute {
          return;
        }
        Roll(symbol);
      }
      StartBar(symbol, price.value, minute);
    }

    method StartBar(symbol: string, price: real, minute: int)
      requires Valid() && symbol !in working
      modifies this
      ensures Valid() && completed == old(completed)
      ensures FeedOf(symbol) == old(FeedOf(symbol)).(working := Some(First(Tick(minute, price))))
      ensures forall other :: other != symbol ==> FeedOf(other) == old(FeedOf(other))
    {
      var bar := new Bar(minute, price);
      working := working[symbol := bar];
    }

    /** Append the working bar to the finished ones, dropping the oldest beyond the cap, and forget it. */
    method Roll(symbol: string)
      requires Valid() && symbol in working
      modifies this
      ensures Valid() && working == old(working) - {symbol}
      ensures FeedOf(symbol) == Rolled(old(FeedOf(symbol)), maxCompleted)
      ensures forall other :: other != symbol ==> FeedOf(other) == old(FeedOf(other))
    {
      hide Latest;
      var bars := if symbol in completed then completed[symbol] else [];
      var bar := working[symbol];
      LatestMembers(bars + [bar], maxCompleted);
      ViewsLatest(bars + [bar], maxCompleted);
      ViewsAppend(bars, bar);
      completed := completed[symbol := Latest(bars + [bar], maxCompleted)];
      working := working - {symbol};
    }

    /** Close the working bar once a reader's clock is past its minute. */
    method MaybeRollStale(symbol: string, now: int)
      requires Valid()
      modifies this
      ensures Valid()
      ensures FeedOf(symbol) == Looked(old(FeedOf(symbol)), now, maxCompleted)
      ensures forall other :: other != symbol ==> FeedOf(other) == old(FeedOf(other))
    {
      if symbol in working && working[symbol].minute < now {
        Roll(symbol);
      }
    }

    method GetLatestCompletedBar(symbol: string, now: int) returns (bar: Option<Bar>)
      requires Valid()
      modifies this
      ensures Valid()
      ensures FeedOf(symbol) == Looked(old(FeedOf(symbol)), now, maxCompleted)
      ensures forall other :: other != symbol ==> FeedOf(other) == old(FeedOf(other))
      ensures
        var done := FeedOf(symbol).completed;
        if done == [] then bar.None? else bar.Some? && bar.value.View() == done[|done| - 1]
    {
      MaybeRollStale(symbol, now);
      if symbol in completed && completed[symbol] != [] {
        bar := Some(completed[symbol][|completed[symbol]| - 1]);
      } else {
        bar := None;
      }
    }

    method GetCompletedBars(symbol: string, count: int, now: int) returns (bars: seq<Bar>)
      requires Valid()
      modifies this
      ensures Valid()
      ensures FeedOf(symbol) == Looked(old(FeedOf(symbol)), now, maxCompleted)
      ensures forall other :: other != symbol ==> FeedOf(other) == old(FeedOf(other))
      ensures Views(bars) == Tail(FeedOf(symbol).completed, count)
    {
      MaybeRollStale(symbol, now);
      bars := [];
      if symbol in completed {
        bars := Tail(completed[symbol], count);
        ViewsTail(completed[symbol], count);
      }
    }
  }
}
