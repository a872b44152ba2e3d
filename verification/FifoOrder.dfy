/** First in, first out: which part of which lot a fill closes, in closed form. */
module FifoOrder {
  import opened Domain
  import opened Positions
  import opened Netting
  import opened Fifo

  /** What the lots ahead of the k-th hold. */
  function Ahead(lots: seq<Lot>, k: nat): int
    requires k <= |lots|
  {
    if k == 0 then 0 else lots[0].quantity + Ahead(lots[1..], k - 1)
  }

  /** How much of the k-th lot a fill of this quantity takes: what the lots ahead of it leave, at most all of it. */
  function Taken(lots: seq<Lot>, k: nat, quantity: int): int
    requires k < |lots|
  {
    var reaches := quantity - Ahead(lots, k);
    if reaches <= 0 then 0 else if reaches >= lots[k].quantity then lots[k].quantity else reaches
  }

  /** What closing a contract of the lot at this price earns: a bought lot earns the rise, a sold one the fall. */
  function Earned(lot: Lot, price: real): real {
    if lot.side == Buy then price - lot.price else lot.price - price
  }

  function EarnedFrom(lots: seq<Lot>, price: real, quantity: int, k: nat): real
    requires k <= |lots|
    decreases |lots| - k
  {
    if k == |lots| then 0.0
    else Earned(lots[k], price) * Taken(lots, k, quantity) as real + EarnedFrom(lots, price, quantity, k + 1)
  }

  ghost predicate Opposite(lots: seq<Lot>, side: Side) {
    forall k :: 0 <= k < |lots| ==> lots[k].side != side && lots[k].quantity > 0
  }

  lemma {:induction false} AheadGrows(lots: seq<Lot>, k: nat, side: Side)
    requires Opposite(lots, side) && k <= |lots|
    ensures Ahead(lots, k) >= k
    decreases k
  {
    if k > 0 {
      assert lots[0].quantity > 0;
      AheadGrows(lots[1..], k - 1, side);
    }
  }

  lemma TakenShifts(lots: seq<Lot>, k: nat, quantity: int)
    requires k + 1 < |lots|
    ensures Taken(lots, k + 1, quantity) == Taken(lots[1..], k, quantity - lots[0].quantity)
  {
  }

  lemma {:induction false} EarnedShifts(lots: seq<Lot>, price: real, quantity: int, k: nat)
    requires k < |lots|
    ensures EarnedFrom(lots, price, quantity, k + 1) == EarnedFrom(lots[1..], price, quantity - lots[0].quantity, k)
    decreases |lots| - k
  {
    hide Earned, Taken;
    if k + 1 < |lots| {
      TakenShifts(lots, k, quantity);
      EarnedShifts(lots, price, quantity, k + 1);
    }
  }

  lemma NothingTaken(lots: seq<Lot>, k: nat, quantity: int, side: Side)
    requires Opposite(lots, side) && k < |lots| && quantity <= Ahead(lots, k)
    ensures Taken(lots, k, quantity) == 0
  {
  }

  /** Beyond where the fill reaches it takes nothing and earns nothing. */
  lemma {:induction false} NothingEarned(lots: seq<Lot>, price: real, quantity: int, k: nat, side: Side)
    requires Opposite(lots, side) && k <= |lots| && quantity <= Ahead(lots, k)
    ensures EarnedFrom(lots, price, quantity, k) == 0.0
    ensures forall j :: k <= j < |lots| ==> Taken(lots, j, quantity) == 0
    decreases |lots| - k
  {
    hide Earned, Taken;
    if k < |lots| {
      NothingTaken(lots, k, quantity, side);
      AheadStep(lots, k, side);
      NothingEarned(lots, price, quantity, k + 1, side);
    }
  }

  lemma {:induction false} AheadStep(lots: seq<Lot>, k: nat, side: Side)
    requires Opposite(lots, side) && k < |lots|
    ensures Ahead(lots, k + 1) == Ahead(lots, k) + lots[k].quantity
    decreases k
  {
    if k > 0 {
      assert lots[1..][k - 1] == lots[k];
      AheadStep(lots[1..], k - 1, side);
    }
  }

  /** The lots left: the untouched part of those that are not used up, in the order they came. */
  predicate Leaves(lots: seq<Lot>, rest: seq<Lot>, quantity: int) {
    && |rest| <= |lots|
    && var used := |lots| - |rest|;
       && (forall k :: 0 <= k < used ==> Taken(lots, k, quantity) == lots[k].quantity)
       && (forall k :: used <= k < |lots| ==>
             && Taken(lots, k, quantity) < lots[k].quantity
             && rest[k - used] == lots[k].(quantity := lots[k].quantity - Taken(lots, k, quantity)))
  }

  lemma OneEarned(lot: Lot, side: Side, price: real, quantity: int)
    requires lot.side != side
    ensures LotGain(lot, side, price, quantity) == Earned(lot, price) * quantity as real
  {
  }

  predicate OldestFirst(lots: seq<Lot>, price: real, quantity: int, m: Matched) {
    && m.gain == EarnedFrom(lots, price, quantity, 0) && Leaves(lots, m.lots, quantity)
    && m.left == if quantity > Ahead(lots, |lots|) then quantity - Ahead(lots, |lots|) else 0
  }

  lemma NothingMatched(lots: seq<Lot>, side: Side, price: real, quantity: nat)
    requires Opposite(lots, side) && (quantity == 0 || lots == [])
    ensures OldestFirst(lots, price, quantity, Match(lots, side, price, quantity))
  {
    hide Earned;
    AheadGrows(lots, |lots|, side);
    if quantity == 0 {
      NothingEarned(lots, price, quantity, 0, side);
    }
  }

  /** The oldest lot is more than the fill asks for. */
  lemma PartOfFirst(lots: seq<Lot>, side: Side, price: real, quantity: nat)
    requires Opposite(lots, side) && lots != [] && 0 < quantity < lots[0].quantity
    ensures OldestFirst(lots, price, quantity, Match(lots, side, price, quantity))
  {
    hide Earned, LotGain;
    OneEarned(lots[0], side, price, quantity);
    AheadGrows(lots[1..], |lots| - 1, side);
    NothingEarned(lots, price, quantity, 1, side);
    assert Taken(lots, 0, quantity) == quantity;
  }

  lemma AllOfFirst(lots: seq<Lot>, side: Side, price: real, quantity: nat)
    requires Opposite(lots, side) && lots != [] && 0 < lots[0].quantity <= quantity
    requires
      OldestFirst(lots[1..], price, quantity - lots[0].quantity,
                  Match(lots[1..], side, price, quantity - lots[0].quantity))
    ensures OldestFirst(lots, price, quantity, Match(lots, side, price, quantity))
  {
    hide Earned, LotGain, Leaves;
    OneEarned(lots[0], side, price, lots[0].quantity);
    assert Taken(lots, 0, quantity) == lots[0].quantity;
    EarnedShifts(lots, price, quantity, 0);
    LeavesShifts(lots, Match(lots[1..], side, price, quantity - lots[0].quantity).lots, quantity);
  }

  /**
   * A fill closes the oldest lots first, each as far as the ones before it leave it, and earns on each its own price.
   */
  lemma {:induction false} MatchesOldestFirst(lots: seq<Lot>, side: Side, price: real, quantity: nat)
    requires Opposite(lots, side)
    ensures OldestFirst(lots, price, quantity, Match(lots, side, price, quantity))
    decreases |lots|
  {
    hide OldestFirst, Match;
    if quantity == 0 || lots == [] {
      NothingMatched(lots, side, price, quantity);
    } else if quantity < lots[0].quantity {
      PartOfFirst(lots, side, price, quantity);
    } else {
      MatchesOldestFirst(lots[1..], side, price, quantity - lots[0].quantity);
      AllOfFirst(lots, side, price, quantity);
    }
  }

  lemma LeavesShifts(lots: seq<Lot>, rest: seq<Lot>, quantity: int)
    requires lots != [] && lots[0].quantity > 0 && Taken(lots, 0, quantity) == lots[0].quantity
    requires Leaves(lots[1..], rest, quantity - lots[0].quantity)
    ensures Leaves(lots, rest, quantity)
  {
    hide Taken;
    forall k | 1 <= k < |lots|
      ensures Taken(lots, k, quantity) == Taken(lots[1..], k - 1, quantity - lots[0].quantity)
    {
      TakenShifts(lots, k - 1, quantity);
    }
    var used := |lots| - |rest|;
    forall k | 0 <= k < used ensures Taken(lots, k, quantity) == lots[k].quantity {
      if k > 0 {
        assert lots[1..][k - 1] == lots[k];
      }
    }
    forall k | used <= k < |lots|
      ensures Taken(lots, k, quantity) < lots[k].quantity
      ensures rest[k - used] == lots[k].(quantity := lots[k].quantity - Taken(lots, k, quantity))
    {
      assert lots[1..][k - 1] == lots[k];
    }
  }

  // ---------------------------------------------------------------
  // The queue the fills make
  // ---------------------------------------------------------------

  predicate AllFor(fs: seq<Fill>, key: BookKey, side: Side) {
    forall k :: 0 <= k < |fs| ==> FillKey(fs[k]) == key && fs[k].side == side
  }

  /** The fills as lots, oldest first. */
  function AsLots(fs: seq<Fill>): (lots: seq<Lot>)
    ensures |lots| == |fs|
    ensures forall k :: 0 <= k < |fs| ==> lots[k] == Lot(fs[k].quantity, fs[k].price, fs[k].side)
  {
    var n := |fs| - 1;
    if fs == [] then [] else AsLots(fs[..n]) + [Lot(fs[n].quantity, fs[n].price, fs[n].side)]
  }

  /** Fills of one side queue up in the order they came. */
  lemma {:induction false} OpensQueueUp(fs: seq<Fill>, key: BookKey, side: Side)
    requires AllFor(fs, key, side)
    ensures LotsOf(Inventory(fs), key) == AsLots(fs)
  {
    hide SlotOf;
    if fs != [] {
      var n := |fs| - 1;
      OpensQueueUp(fs[..n], key, side);
      LotsReplaced(Inventory(fs[..n]), key, LotsAfter(AsLots(fs[..n]), fs[n]));
      if n > 0 {
        assert AsLots(fs[..n])[0].side == fs[..n][0].side == side;
      }
    }
  }

  lemma LotsReplaced(slots: seq<Slot>, key: BookKey, lots: seq<Lot>)
    ensures LotsOf(WithLots(slots, key, lots), key) == lots
  {
    var i, after := SlotOf(slots, key), WithLots(slots, key, lots);
    var at := if i.Some? then i.value else |slots|;
    assert after[at].key == key && forall j :: 0 <= j < at ==> after[j].key != key;
  }

  /** So a fill against a one-sided history earns, fill by fill from the oldest, on what the older ones leave it. */
  lemma ClosesOldestFirst(opens: seq<Fill>, close: Fill)
    requires AllFor(opens, FillKey(close), Domain.Opposite(close.side))
    ensures
      var lots := AsLots(opens);
      GainOf(LotsOf(Inventory(opens), FillKey(close)), close) == EarnedFrom(lots, close.price, close.quantity, 0)
  {
    hide EarnedFrom, Match, AsLots;
    OpensQueueUp(opens, FillKey(close), Domain.Opposite(close.side));
    MatchesOldestFirst(AsLots(opens), close.side, close.price, close.quantity);
  }
}
