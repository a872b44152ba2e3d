/** Positions driven by fills at average cost. */
module Positions {
  import opened Domain

  datatype PositionStatus = Opening | Open | PartiallyClosed | Closed | ForceClosed

  datatype Position = Position(
    id: int,
    strategy: string,
    contract: Contract,
    side: Side,
    quantity: nat,
    filled: nat,
    average: real,
    currentPrice: Option<real>,
    realized: real,
    status: PositionStatus,
    entryOrder: int,
    exitOrders: seq<int>,
    entryTime: Option<int>,
    createdAt: int,
    stopPrice: Option<real>,
    targetPrice: Option<real>,
    timeExit: Option<int>,
    useMidForExits: bool)

  datatype Fill = Fill(
    orderId: int,
    strategy: string,
    contract: Contract,
    side: Side,
    quantity: Qty,
    price: Price,
    at: int)

  predicate IsOpen(p: Position) {
    p.status == Opening || p.status == Open
  }

  function FillKey(f: Fill): BookKey {
    BookKey(f.strategy, KeyOf(f.contract))
  }

  function PositionKey(p: Position): BookKey {
    BookKey(p.strategy, KeyOf(p.contract))
  }

  // ---------------------------------------------------------------
  // Lookups in the order the positions were opened
  // ---------------------------------------------------------------

  /** The position with the given id. */
  function IndexOf(ps: seq<Position>, id: int): (r: Option<nat>)
    ensures r.Some? ==> r.value < |ps| && ps[r.value].id == id && forall j :: 0 <= j < r.value ==> ps[j].id != id
    ensures r.None? ==> forall j :: 0 <= j < |ps| ==> ps[j].id != id
  {
    FirstWhere(ps, (p: Position) => p.id == id)
  }

  /** The oldest open position of the key. */
  function FirstOpen(ps: seq<Position>, key: BookKey): (r: Option<nat>)
    ensures r.Some? ==> r.value < |ps| && IsOpen(ps[r.value]) && PositionKey(ps[r.value]) == key
                        && forall j :: 0 <= j < r.value ==> !(IsOpen(ps[j]) && PositionKey(ps[j]) == key)
    ensures r.None? ==> forall j :: 0 <= j < |ps| ==> !(IsOpen(ps[j]) && PositionKey(ps[j]) == key)
  {
    FirstWhere(ps, (p: Position) => IsOpen(p) && PositionKey(p) == key)
  }

  /** Was the order the position's entry or one of its exits? */
  predicate Owns(p: Position, orderId: int) {
    p.entryOrder == orderId || orderId in p.exitOrders
  }

  /** The oldest position whose entry or exit the order was. */
  function OwnerOf(ps: seq<Position>, orderId: int): (r: Option<nat>)
    ensures r.Some? ==> r.value < |ps| && Owns(ps[r.value], orderId)
                        && forall j :: 0 <= j < r.value ==> !Owns(ps[j], orderId)
    ensures r.None? ==> forall j :: 0 <= j < |ps| ==> !Owns(ps[j], orderId)
  {
    FirstWhere(ps, (p: Position) => Owns(p, orderId))
  }

  function Target(ps: seq<Position>, f: Fill, positionId: Option<int>): (r: Option<nat>)
    ensures r.Some? ==> r.value < |ps|
  {
    if positionId.Some? then IndexOf(ps, positionId.value) else FirstOpen(ps, FillKey(f))
  }

  // ---------------------------------------------------------------
  // Fills
  // ---------------------------------------------------------------

  function Opened(f: Fill, id: int): Position {
    Position(id, f.strategy, f.contract, f.side, f.quantity, f.quantity, f.price, None, 0.0, Open, f.orderId, [],
             Some(f.at), f.at, None, None, None, false)
  }

  function Gain(side: Side, entry: real, exit: real, quantity: int, multiplier: int): real {
    (if side == Buy then exit - entry else entry - exit) * quantity as real * multiplier as real
  }

  function WithExit(exits: seq<int>, orderId: int): seq<int> {
    if orderId in exits then exits else exits + [orderId]
  }

  /** The average entry price after adding to what is held. */
  function Blend(average: real, held: nat, price: real, added: Qty): real {
    (average * held as real + price * added as real) / (held + added) as real
  }

  function Filled(p: Position, f: Fill): Position {
    var m := f.contract.multiplier;
    if f.side == p.side then
      var quantity := p.quantity + f.quantity;
      p.(average := Blend(p.average, p.quantity, f.price, f.quantity),
         quantity := quantity, filled := quantity)
    else if f.quantity < p.quantity then
      p.(quantity := p.quantity - f.quantity,
         realized := p.realized + Gain(p.side, p.average, f.price, f.quantity, m),
         exitOrders := WithExit(p.exitOrders, f.orderId))
    else
      p.(quantity := 0, status := Closed,
         realized := p.realized + Gain(p.side, p.average, f.price, p.quantity, m),
         exitOrders := WithExit(p.exitOrders, f.orderId))
  }

  /** `newId` is the id generated for a new position. */
  function HandleFill(ps: seq<Position>, f: Fill, positionId: Option<int>, newId: int): seq<Position> {
    var t := Target(ps, f, positionId);
    if t.None? then ps + [Opened(f, if positionId.Some? then positionId.value else newId)]
    else ps[t.value := Filled(ps[t.value], f)]
  }

  function ForceClosedAt(p: Position, exit: real): Position {
    p.(quantity := 0, status := Closed,
       realized := p.realized + Gain(p.side, p.average, exit, p.quantity, p.contract.multiplier))
  }

  function ForceClose(ps: seq<Position>, id: int, exit: real): seq<Position> {
    var t := IndexOf(ps, id);
    if t.None? || ps[t.value].status == Closed then ps
    else ps[t.value := ForceClosedAt(ps[t.value], exit)]
  }

  /** A broker commission is taken out of the realized result of the first position the order belongs to. */
  function NetCommission(ps: seq<Position>, orderId: int, amount: real): seq<Position> {
    var t := OwnerOf(ps, orderId);
    if t.None? then ps
    else ps[t.value := ps[t.value].(realized := ps[t.value].realized - amount)]
  }

  // ---------------------------------------------------------------
  // The object
  // ---------------------------------------------------------------

  class PositionManager {
    var positions: seq<Position>

    constructor ()
      ensures positions == []
    {
      positions := [];
    }

    method FindById(id: int) returns (r: Option<nat>)
      ensures r == IndexOf(positions, id)
    {
      for i := 0 to |positions|
        invariant forall j :: 0 <= j < i ==> positions[j].id != id
      {
        if positions[i].id == id {
          return Some(i);
        }
      }
      return None;
    }

    method FindOpen(key: BookKey) returns (r: Option<nat>)
      ensures r == FirstOpen(positions, key)
    {
      for i := 0 to |positions|
        invariant forall j :: 0 <= j < i ==> !(IsOpen(positions[j]) && PositionKey(positions[j]) == key)
      {
        if IsOpen(positions[i]) && PositionKey(positions[i]) == key {
          return Some(i);
        }
      }
      return None;
    }

    method GetOpenPositions() returns (open: seq<Position>)
      ensures open == OpenOnly(positions)
    {
      open := [];
      for i := 0 to |positions|
        invariant open == OpenOnly(positions[..i])
      {
        assert positions[..i + 1][..i] == positions[..i];
        if IsOpen(positions[i]) {
          open := open + [positions[i]];
        }
      }
      assert positions[..|positions|] == positions;
    }

    /** A fill on the position's own side grows it at the weighted average price. */
    static method Add(p: Position, f: Fill) returns (q: Position)
      requires f.side == p.side
      ensures q == Filled(p, f)
    {
      var quantity := p.quantity + f.quantity;
      var cost := p.average * p.quantity as real + f.price * f.quantity as real;
      var blended := cost / quantity as real;
      assert blended == Blend(p.average, p.quantity, f.price, f.quantity);
      q := p.(average := blended, quantity := quantity, filled := quantity);
    }

    /** A fill on the other side exits part of it, or all of it and no more. */
    static method Reduce(p: Position, f: Fill) returns (q: Position)
      requires f.side != p.side
      ensures q == Filled(p, f)
    {
      var exited := p.quantity;
      q := p;
      if f.quantity < p.quantity {
        exited := f.quantity;
        q := q.(quantity := p.quantity - f.quantity);
      } else {
        q := q.(quantity := 0, status := Closed);
      }
      var gain;
      if p.side == Buy {
        gain := (f.price - p.average) * exited as real * f.contract.multiplier as real;
      } else {
        gain := (p.average - f.price) * exited as real * f.contract.multiplier as real;
      }
      assert gain == Gain(p.side, p.average, f.price, exited, f.contract.multiplier);
      hide Gain;
      q := q.(realized := p.realized + gain);
      if f.orderId !in q.exitOrders {
        q := q.(exitOrders := q.exitOrders + [f.orderId]);
      }
    }

    method ApplyFill(f: Fill, positionId: Option<int>, newId: int)
      modifies this
      ensures positions == HandleFill(old(positions), f, positionId, newId)
    {
      var t;
      if positionId.Some? {
        t := FindById(positionId.value);
      } else {
        t := FindOpen(FillKey(f));
      }
      if t.None? {
        var id := newId;
        if positionId.Some? {
          id := positionId.value;
        }
        positions := positions + [Opened(f, id)];
        return;
      }
      var p := positions[t.value];
      if f.side == p.side {
        p := Add(p, f);
      } else {
        p := Reduce(p, f);
      }
      positions := positions[t.value := p];
    }

    method ForceClosePosition(id: int, exit: real)
      modifies this
      ensures positions == ForceClose(old(positions), id, exit)
    {
      var t := FindById(id);
      if t.None? || positions[t.value].status == Closed {
        return;
      }
      var p := positions[t.value];
      var gain;
      if p.side == Buy {
        gain := (exit - p.average) * p.quantity as real * p.contract.multiplier as real;
      } else {
        gain := (p.average - exit) * p.quantity as real * p.contract.multiplier as real;
      }
      assert gain == Gain(p.side, p.average, exit, p.quantity, p.contract.multiplier);
      hide Gain;
      positions := positions[t.value := p.(realized := p.realized + gain, quantity := 0, status := Closed)];
    }

    method OnCommission(orderId: int, amount: real)
      modifies this
      ensures positions == NetCommission(old(positions), orderId, amount)
    {
      for i := 0 to |positions|
        invariant positions == old(positions)
        invariant forall j :: 0 <= j < i ==> !Owns(positions[j], orderId)
      {
        if positions[i].entryOrder == orderId || orderId in positions[i].exitOrders {
          positions := positions[i := positions[i].(realized := positions[i].realized - amount)];
          return;
        }
      }
    }
  }

  function OpenOnly(ps: seq<Position>): seq<Position> {
    if ps == [] then []
    else OpenOnly(ps[..|ps| - 1]) + (if IsOpen(ps[|ps| - 1]) then [ps[|ps| - 1]] else [])
  }
}
