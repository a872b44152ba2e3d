/** The simulated broker: order lifecycle, emitted fills and the signed net it keeps per strategy and contract. */
module MockBroking {
  import opened Domain
  import opened Orders
  import opened Positions
  import opened Sums
  import opened Netting

  datatype BrokerPosition = BrokerPosition(key: BookKey, side: Side, quantity: int)

  function MockHeldIn(scope: Scope): BrokerPosition -> int {
    (p: BrokerPosition) => if In(scope, p.key) then Sign(p.side) * p.quantity else 0
  }

  function MockNet(ms: seq<BrokerPosition>, scope: Scope): int {
    SumInt(ms, MockHeldIn(scope))
  }

  function MockIndex(ms: seq<BrokerPosition>, key: BookKey): (r: Option<nat>)
    ensures r.Some? ==> r.value < |ms| && ms[r.value].key == key
                        && forall j :: 0 <= j < r.value ==> ms[j].key != key
    ensures r.None? ==> forall j :: 0 <= j < |ms| ==> ms[j].key != key
  {
    FirstWhere(ms, (m: BrokerPosition) => m.key == key)
  }

  function SignedPosition(key: BookKey, net: int): BrokerPosition
    requires net != 0
  {
    BrokerPosition(key, if net > 0 then Buy else Sell, if net > 0 then net else -net)
  }

  /** Add a signed quantity: open, change, flip or remove the key's entry. */
  function Shifted(ms: seq<BrokerPosition>, key: BookKey, delta: int): seq<BrokerPosition> {
    var i := MockIndex(ms, key);
    if i.None? then (if delta == 0 then ms else ms + [SignedPosition(key, delta)])
    else
      var net := Sign(ms[i.value].side) * ms[i.value].quantity + delta;
      if net == 0 then ms[..i.value] + ms[i.value + 1..]
      else ms[i.value := SignedPosition(key, net)]
  }

  /** One entry per key, each holding something. */
  ghost predicate MockTidy(ms: seq<BrokerPosition>) {
    && (forall i :: 0 <= i < |ms| ==> ms[i].quantity > 0)
    && (forall i, j :: 0 <= i < |ms| && 0 <= j < |ms| && ms[i].key == ms[j].key ==> i == j)
  }

  lemma ShiftKeepsTidy(ms: seq<BrokerPosition>, key: BookKey, delta: int)
    requires MockTidy(ms)
    ensures MockTidy(Shifted(ms, key, delta))
  {
    var i := MockIndex(ms, key);
    if i.Some? {
      var rest := ms[..i.value] + ms[i.value + 1..];
      assert forall j :: 0 <= j < |rest| ==> rest[j] == ms[if j < i.value then j else j + 1];
    }
  }

  lemma ShiftMovesNet(ms: seq<BrokerPosition>, key: BookKey, delta: int, scope: Scope)
    ensures MockNet(Shifted(ms, key, delta), scope) == MockNet(ms, scope) + (if In(scope, key) then delta else 0)
  {
    hide In;
    var i := MockIndex(ms, key);
    if i.None? {
      if delta != 0 {
        SumIntAppend(ms, SignedPosition(key, delta), MockHeldIn(scope));
        SignedBack(key, delta);
      }
    } else {
      var net := Sign(ms[i.value].side) * ms[i.value].quantity + delta;
      if net == 0 {
        SumIntRemove(ms, i.value, MockHeldIn(scope));
      } else {
        SumIntUpdate(ms, i.value, SignedPosition(key, net), MockHeldIn(scope));
        SignedBack(key, net);
      }
    }
  }

  lemma SignedBack(key: BookKey, net: int)
    requires net != 0
    ensures Sign(SignedPosition(key, net).side) * SignedPosition(key, net).quantity == net
  {
  }

  /** The broker's book after the fills. */
  function MockBooked(fs: seq<Fill>): seq<BrokerPosition> {
    var n := |fs| - 1;
    if fs == [] then [] else Shifted(MockBooked(fs[..n]), FillKey(fs[n]), FillQty(fs[n]))
  }

  /** Whatever the fills, over-closing or not, the broker's book is their signed net. */
  lemma {:induction false} MockHoldsNet(fs: seq<Fill>, scope: Scope)
    ensures MockTidy(MockBooked(fs))
    ensures MockNet(MockBooked(fs), scope) == NetFilled(fs, scope)
  {
    var n := |fs| - 1;
    if fs != [] {
      MockHoldsNet(fs[..n], scope);
      ShiftKeepsTidy(MockBooked(fs[..n]), FillKey(fs[n]), FillQty(fs[n]));
      ShiftMovesNet(MockBooked(fs[..n]), FillKey(fs[n]), FillQty(fs[n]), scope);
    }
  }

  // ---------------------------------------------------------------
  // Order lifecycle
  // ---------------------------------------------------------------

  /** Where the simulation task of an order is suspended. */
  datatype Stage = Accepting | Filling | FillingRest(first: Qty) | Over

  datatype MockOrder = MockOrder(
    strategy: string, contract: Contract, side: Side, quantity: Qty, limit: Price,
    status: Status, filled: nat, stage: Stage)

  function EmittedFor(fs: seq<Fill>, id: int): int {
    SumInt(fs, QuantityFor(id))
  }

  function QuantityFor(id: int): Fill -> int {
    (f: Fill) => if f.orderId == id then f.quantity else 0
  }

  class MockBroker {
    var orders: seq<MockOrder>
    var book: seq<BrokerPosition>
    /** Every fill event emitted so far. */
    var emitted: seq<Fill>

    /** An order has emitted exactly what it reports filled, never more than it asked for. */
    ghost predicate OrderHonest(id: nat)
      requires id < |orders|
      reads this
    {
      var o := orders[id];
      && EmittedFor(emitted, id) == o.filled <= o.quantity
      && match o.stage {
           case Accepting => o.filled == 0 && (o.status == New || o.status == Cancelled)
           case Filling => o.filled == 0 && (o.status == Submitted || o.status == Cancelled)
           case FillingRest(first) =>
             o.filled == first < o.quantity && (o.status == PartiallyFilled || o.status == Cancelled)
           case Over => o.status == Filled ==> o.filled == o.quantity
         }
    }

    ghost predicate Valid()
      reads this
    {
      && (forall id :: 0 <= id < |orders| ==> OrderHonest(id))
      && (forall k :: 0 <= k < |emitted| ==> 0 <= emitted[k].orderId < |orders|)
      && book == MockBooked(emitted)
    }

    constructor ()
      ensures Valid() && orders == [] && emitted == []
    {
      orders, book, emitted := [], [], [];
    }

    method PlaceOrder(strategy: string, contract: Contract, side: Side, quantity: Qty, limit: Price) returns (id: nat)
      requires Valid()
      modifies this
      ensures Valid() && id == |old(orders)| && emitted == old(emitted)
      ensures orders == old(orders) + [MockOrder(strategy, contract, side, quantity, limit, New, 0, Accepting)]
    {
      id := |orders|;
      SumIntZero(emitted, QuantityFor(id));
      orders := orders + [MockOrder(strategy, contract, side, quantity, limit, New, 0, Accepting)];
      forall k | 0 <= k < |orders| ensures OrderHonest(k) {
        if k < id {
          assert old(OrderHonest(k));
        }
      }
    }

    /** Cancelling reports CANCELLED at once; the simulation task notices when it next runs. */
    method CancelOrder(id: nat) returns (accepted: bool)
      requires Valid()
      modifies this`orders
      ensures Valid()
      ensures accepted <==> id < |old(orders)| && !Terminal(old(orders)[id].status)
      ensures orders == if accepted then old(orders)[id := old(orders)[id].(status := Cancelled)] else old(orders)
    {
      if id >= |orders| || Terminal(orders[id].status) {
        return false;
      }
      accepted := true;
      orders := orders[id := orders[id].(status := Cancelled)];
      forall k | 0 <= k < |orders| ensures OrderHonest(k) {
        assert old(OrderHonest(k));
      }
    }

    method SetOrder(id: nat, o: MockOrder)
      requires Valid() && id < |orders|
      requires o.filled == orders[id].filled && o.quantity == orders[id].quantity
      requires match o.stage
               case Accepting => false
               case Filling => o.filled == 0 && (o.status == Submitted || o.status == Cancelled)
               case FillingRest(first) => false
               case Over => o.status == Filled ==> o.filled == o.quantity
      modifies this`orders
      ensures Valid() && orders == old(orders)[id := o]
    {
      orders := orders[id := o];
      forall k | 0 <= k < |orders| ensures OrderHonest(k) {
        assert old(OrderHonest(k));
      }
    }

    /** The simulation's first turn: gone, rejected, or accepted and, unless fills are off, on to the fill phase. */
    method Accept(id: nat, rejects: bool, autoFill: bool)
      requires Valid() && id < |orders| && orders[id].stage == Accepting
      modifies this`orders
      ensures Valid()
      ensures
        var o := old(orders)[id];
        orders == old(orders)[id := if o.status == Cancelled then o.(stage := Over)
                                    else if rejects then o.(status := Rejected, stage := Over)
                                    else o.(status := Submitted, stage := if autoFill then Filling else Over)]
    {
      assert OrderHonest(id);
      var o := orders[id];
      if o.status == Cancelled {
        SetOrder(id, o.(stage := Over));
      } else if rejects {
        SetOrder(id, o.(status := Rejected, stage := Over));
      } else {
        SetOrder(id, o.(status := Submitted, stage := if autoFill then Filling else Over));
      }
    }

    /** Execute `quantity` more contracts: status report, fill event, then the position. */
    method Execute(id: nat, quantity: Qty, status: Status, stage: Stage)
      requires Valid() && id < |orders|
      requires orders[id].filled + quantity <= orders[id].quantity
      requires match stage
               case FillingRest(first) =>
                 first == quantity && orders[id].filled == 0 && quantity < orders[id].quantity
                   && status == PartiallyFilled
               case Over => status == Filled && orders[id].filled + quantity == orders[id].quantity
               case _ => false
      modifies this
      ensures Valid()
      ensures
        var o := old(orders)[id];
        && orders == old(orders)[id := o.(status := status, filled := o.filled + quantity, stage := stage)]
        && emitted == old(emitted) + [Fill(id, o.strategy, o.contract, o.side, quantity, o.limit, 0)]
    {
      var o := orders[id];
      var f := Fill(id, o.strategy, o.contract, o.side, quantity, o.limit, 0);
      orders := orders[id := o.(status := status, filled := o.filled + quantity, stage := stage)];
      book := Shifted(book, FillKey(f), FillQty(f));
      emitted := emitted + [f];
      assert emitted[..|emitted| - 1] == old(emitted);
      forall k | 0 <= k < |orders| ensures OrderHonest(k) {
        assert old(OrderHonest(k));
        EmittedStep(old(emitted), f, k);
      }
    }

    /** The fill phase: a partial fill first when one is configured below the order size, else all at once. */
    method FillPhase(id: nat, partial: Option<Qty>)
      requires Valid() && id < |orders| && orders[id].stage == Filling
      modifies this
      ensures Valid()
      ensures
        var o := old(orders)[id];
        if o.status == Cancelled then
          orders == old(orders)[id := o.(stage := Over)] && emitted == old(emitted)
        else if partial.Some? && partial.value < o.quantity then
          && orders == old(orders)[id := o.(status := PartiallyFilled, filled := partial.value,
                                            stage := FillingRest(partial.value))]
          && emitted == old(emitted) + [Fill(id, o.strategy, o.contract, o.side, partial.value, o.limit, 0)]
        else
          && orders == old(orders)[id := o.(status := Filled, filled := o.quantity, stage := Over)]
          && emitted == old(emitted) + [Fill(id, o.strategy, o.contract, o.side, o.quantity, o.limit, 0)]
    {
      assert OrderHonest(id);
      var o := orders[id];
      if o.status == Cancelled {
        SetOrder(id, o.(stage := Over));
      } else if partial.Some? && partial.value < o.quantity {
        Execute(id, partial.value, PartiallyFilled, FillingRest(partial.value));
      } else {
        Execute(id, o.quantity, Filled, Over);
      }
    }

    /** The rest of a partially filled order, unless it was cancelled meanwhile. */
    method FillRest(id: nat)
      requires Valid() && id < |orders| && orders[id].stage.FillingRest?
      modifies this
      ensures Valid()
      ensures
        var o := old(orders)[id];
        if o.status == Cancelled then
          orders == old(orders)[id := o.(stage := Over)] && emitted == old(emitted)
        else
          && orders == old(orders)[id := o.(status := Filled, filled := o.quantity, stage := Over)]
          && o.filled < o.quantity
          && emitted == old(emitted) + [Fill(id, o.strategy, o.contract, o.side, o.quantity - o.filled, o.limit, 0)]
    {
      assert OrderHonest(id);
      var o := orders[id];
      if o.status == Cancelled {
        SetOrder(id, o.(stage := Over));
      } else {
        Execute(id, o.quantity - o.filled, Filled, Over);
      }
    }
  }

  lemma EmittedStep(fs: seq<Fill>, f: Fill, id: int)
    ensures EmittedFor(fs + [f], id) == EmittedFor(fs, id) + if f.orderId == id then f.quantity else 0
  {
    SumIntAppend(fs, f, QuantityFor(id));
  }
}
