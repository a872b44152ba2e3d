/** Realized results by first-in first-out matching, and their agreement with average cost. */
module Fifo {
  import opened Domain
  import opened Positions
  import opened Sums
  import opened Netting

  datatype Lot = Lot(quantity: int, price: real, side: Side)

  datatype Matched = Matched(lots: seq<Lot>, left: int, gain: real)

  /** What one lot yields when `quantity` of it is closed by a fill of the given side and price. */
  function LotGain(lot: Lot, side: Side, price: real, quantity: int): real {
    if side == Sell then (price - lot.price) * quantity as real else (lot.price - price) * quantity as real
  }

  /** Consume opposite lots, oldest first. */
  function Match(lots: seq<Lot>, side: Side, price: real, quantity: int): Matched
    decreases |lots|
  {
    if quantity <= 0 || lots == [] || lots[0].side == side then Matched(lots, quantity, 0.0)
    else
      var taken := Min(quantity, lots[0].quantity);
      var gain := LotGain(lots[0], side, price, taken);
      if lots[0].quantity == taken then
        var rest := Match(lots[1..], side, price, quantity - taken);
        rest.(gain := gain + rest.gain)
      else Matched([lots[0].(quantity := lots[0].quantity - taken)] + lots[1..], quantity - taken, gain)
  }

  /** The lots after a fill: what it could not match becomes a new lot. */
  function LotsAfter(lots: seq<Lot>, f: Fill): seq<Lot> {
    var m := Match(lots, f.side, f.price, f.quantity);
    if m.left > 0 then m.lots + [Lot(m.left, f.price, f.side)] else m.lots
  }

  function GainOf(lots: seq<Lot>, f: Fill): real {
    Match(lots, f.side, f.price, f.quantity).gain
  }

  // ---------------------------------------------------------------
  // The report
  // ---------------------------------------------------------------

  datatype Kind = FillEvent | FillCallback | FillReceived | Other

  datatype Logged = Logged(kind: Kind, fill: Fill)

  predicate IsFill(e: Logged) {
    e.kind != Other
  }

  function FillsOf(events: seq<Logged>): seq<Fill> {
    var n := |events| - 1;
    if events == [] then []
    else FillsOf(events[..n]) + (if IsFill(events[n]) then [events[n].fill] else [])
  }

  datatype Slot = Slot(key: BookKey, lots: seq<Lot>)

  function SlotOf(slots: seq<Slot>, key: BookKey): (r: Option<nat>)
    ensures r.Some? ==> r.value < |slots| && slots[r.value].key == key
                        && forall j :: 0 <= j < r.value ==> slots[j].key != key
    ensures r.None? ==> forall j :: 0 <= j < |slots| ==> slots[j].key != key
  {
    FirstWhere(slots, (slot: Slot) => slot.key == key)
  }

  function LotsOf(slots: seq<Slot>, key: BookKey): seq<Lot> {
    var i := SlotOf(slots, key);
    if i.None? then [] else slots[i.value].lots
  }

  function WithLots(slots: seq<Slot>, key: BookKey, lots: seq<Lot>): seq<Slot> {
    var i := SlotOf(slots, key);
    if i.None? then slots + [Slot(key, lots)] else slots[i.value := Slot(key, lots)]
  }

  /** The inventory after the fills. */
  function Inventory(fs: seq<Fill>): seq<Slot> {
    var n := |fs| - 1;
    if fs == [] then []
    else
      var slots := Inventory(fs[..n]);
      WithLots(slots, FillKey(fs[n]), LotsAfter(LotsOf(slots, FillKey(fs[n])), fs[n]))
  }

  /** Total gain of the fills belonging to the group. */
  function FifoGain(fs: seq<Fill>, scope: Scope): real {
    var n := |fs| - 1;
    if fs == [] then 0.0
    else
      FifoGain(fs[..n], scope)
      + (if In(scope, FillKey(fs[n])) then GainOf(LotsOf(Inventory(fs[..n]), FillKey(fs[n])), fs[n]) else 0.0)
  }

  /** The reported figure of an account; accounts without a result are absent. */
  function Reported(report: map<(string, string), real>, strategy: string, symbol: string): real {
    if (strategy, symbol) in report then report[(strategy, symbol)] else 0.0
  }

  /** The matching loop: pop or shrink the oldest opposite lots until the fill or the lots run out. */
  method MatchLots(lots: seq<Lot>, side: Side, price: real, quantity: int)
        returns (rest: seq<Lot>, left: int, gain: real)
    ensures Matched(rest, left, gain) == Match(lots, side, price, quantity)
  {
    rest, left, gain := lots, quantity, 0.0;
    while left > 0 && rest != [] && rest[0].side != side
      invariant Match(lots, side, price, quantity)
                == (var m := Match(rest, side, price, left); m.(gain := gain + m.gain))
      decreases |rest|, left
    {
      var first := rest[0];
      var taken := Min(left, first.quantity);
      var one;
      if side == Sell {
        one := (price - first.price) * taken as real;
      } else {
        one := (first.price - price) * taken as real;
      }
      assert one == LotGain(first, side, price, taken);
      hide LotGain;
      gain := gain + one;
      first := first.(quantity := first.quantity - taken);
      left := left - taken;
      if first.quantity == 0 {
        rest := rest[1..];
      } else {
        rest := [first] + rest[1..];
        break;
      }
    }
  }

  lemma InventoryStep(fs: seq<Fill>, f: Fill)
    ensures Inventory(fs + [f]) == WithLots(Inventory(fs), FillKey(f), LotsAfter(LotsOf(Inventory(fs), FillKey(f)), f))
  {
    assert (fs + [f])[..|fs|] == fs;
  }

  lemma FifoGainStep(fs: seq<Fill>, f: Fill, scope: Scope)
    ensures FifoGain(fs + [f], scope)
            == FifoGain(fs, scope)
              + (if In(scope, FillKey(f)) then GainOf(LotsOf(Inventory(fs), FillKey(f)), f) else 0.0)
  {
    assert (fs + [f])[..|fs|] == fs;
  }

  lemma FillsOfStep(events: seq<Logged>, i: nat)
    requires i < |events|
    ensures FillsOf(events[..i + 1]) == FillsOf(events[..i]) + (if IsFill(events[i]) then [events[i].fill] else [])
  {
    assert events[..i + 1][..i] == events[..i];
  }

  /** A zero gain leaves the account's entry alone, also when that means leaving it absent. */
  method AddGain(report: map<(string, string), real>, account: (string, string), gain: real)
    returns (r: map<(string, string), real>)
    ensures forall strategy, symbol ::
      Reported(r, strategy, symbol)
        == Reported(report, strategy, symbol) + (if (strategy, symbol) == account then gain else 0.0)
  {
    r := report;
    if gain != 0.0 {
      var sofar := 0.0;
      if account in report {
        sofar := report[account];
      }
      r := r[account := sofar + gain];
    }
  }

  /** Match one fill against its key's lots; what is left becomes a new lot. */
  method TakeFill(inventory: seq<Slot>, f: Fill) returns (after: seq<Slot>, gain: real)
    ensures after == WithLots(inventory, FillKey(f), LotsAfter(LotsOf(inventory, FillKey(f)), f))
    ensures gain == GainOf(LotsOf(inventory, FillKey(f)), f)
  {
    hide SlotOf, Match;
    var lots, left;
    lots, left, gain := MatchLots(LotsOf(inventory, FillKey(f)), f.side, f.price, f.quantity);
    if left > 0 {
      lots := lots + [Lot(left, f.price, f.side)];
    }
    after := WithLots(inventory, FillKey(f), lots);
  }

  method ComputeRealizedPnl(events: seq<Logged>) returns (report: map<(string, string), real>)
    ensures forall strategy, symbol ::
      Reported(report, strategy, symbol) == FifoGain(FillsOf(events), Account(strategy, symbol))
  {
    hide WithLots, LotsAfter, GainOf, LotsOf;
    var inventory: seq<Slot> := [];
    report := map[];
    for i := 0 to |events|
      invariant inventory == Inventory(FillsOf(events[..i]))
      invariant forall strategy, symbol ::
        Reported(report, strategy, symbol) == FifoGain(FillsOf(events[..i]), Account(strategy, symbol))
    {
      ghost var before := FillsOf(events[..i]);
      FillsOfStep(events, i);
      if events[i].kind == Other {
        assert before + [] == before;
        continue;
      }
      var f := events[i].fill;
      InventoryStep(before, f);
      forall strategy, symbol {
        FifoGainStep(before, f, Account(strategy, symbol));
      }
      var gain;
      inventory, gain := TakeFill(inventory, f);
      report := AddGain(report, (f.strategy, f.contract.symbol), gain);
    }
    assert events[..|events|] == events;
  }
}
