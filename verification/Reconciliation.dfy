/** Comparing internal and broker books: what each detail means, when the report is clean, when it locks. */
module Reconciliation {
  import opened Domain
  import opened Orders
  import opened Positions
  import opened Sums
  import opened Netting
  import opened MockBroking
  import Pricing

  datatype BrokerOrder = BrokerOrder(brokerId: Option<int>, contract: ContractKey, side: Side, quantity: int,
                                     limit: real)

  datatype Detail =
    | InternalOnlyPosition(contract: ContractKey, internal: int)
    | BrokerOnlyPosition(contract: ContractKey, broker: int)
    | PositionQuantityMismatch(contract: ContractKey, internal: int, broker: int)
    | UnknownBrokerOrder(id: int)
    | OrderParameterMismatch(id: int)
    | InternalOrderNotAtBroker(id: int)

  datatype Report = Report(details: seq<Detail>, isClean: bool)

  predicate Severe(d: Detail) {
    d.InternalOnlyPosition? || d.PositionQuantityMismatch?
  }

  predicate AboutPosition(d: Detail) {
    d.InternalOnlyPosition? || d.BrokerOnlyPosition? || d.PositionQuantityMismatch?
  }

  // ---------------------------------------------------------------
  // What is compared
  // ---------------------------------------------------------------

  /** Signed quantity of the open positions in a contract, over all strategies. */
  function InternalNet(ps: seq<Position>, c: ContractKey): int {
    NetHeld(ps, AcrossStrategies(c))
  }

  function BrokerHeldIn(c: ContractKey): BrokerPosition -> int {
    (p: BrokerPosition) => if p.quantity > 0 && p.key.contract == c then Sign(p.side) * p.quantity else 0
  }

  function BrokerNet(bs: seq<BrokerPosition>, c: ContractKey): int {
    SumInt(bs, BrokerHeldIn(c))
  }

  /** The detail a contract with these two nets gives rise to. */
  function PositionDetail(c: ContractKey, i: int, b: int): Option<Detail> {
    if i == b then None
    else if i != 0 && b == 0 then Some(InternalOnlyPosition(c, i))
    else if b != 0 && i == 0 then Some(BrokerOnlyPosition(c, b))
    else Some(PositionQuantityMismatch(c, i, b))
  }

  const LIMIT_TOLERANCE: real := 0.0501

  predicate SameParameters(io: Order, bo: BrokerOrder) {
    && KeyOf(io.contract) == bo.contract && io.side == bo.side && io.quantity == bo.quantity
    && !(AbsReal(io.limit - bo.limit) > LIMIT_TOLERANCE)
  }

  /** The internal order indexed under a broker id: the last one carrying it. */
  function Indexed(orders: seq<Order>, id: int): (r: Option<Order>)
    ensures r.None? <==> forall k :: 0 <= k < |orders| ==> orders[k].brokerId != Some(id)
  {
    var n := |orders| - 1;
    if orders == [] then None
    else if orders[n].brokerId == Some(id) then Some(orders[n])
    else Indexed(orders[..n], id)
  }

  function BrokerOrderDetail(orders: seq<Order>, bo: BrokerOrder): Option<Detail> {
    if bo.brokerId.None? then None
    else
      var io := Indexed(orders, bo.brokerId.value);
      if io.None? then Some(UnknownBrokerOrder(bo.brokerId.value))
      else if SameParameters(io.value, bo) then None
      else Some(OrderParameterMismatch(bo.brokerId.value))
  }

  predicate AtBroker(bos: seq<BrokerOrder>, id: int) {
    exists k :: 0 <= k < |bos| && bos[k].brokerId == Some(id)
  }

  function InternalOrderDetail(io: Order, bos: seq<BrokerOrder>): Option<Detail> {
    if io.brokerId.Some? && !AtBroker(bos, io.brokerId.value) then Some(InternalOrderNotAtBroker(io.brokerId.value))
    else None
  }

  // ---------------------------------------------------------------
  // The clean state, stated without the algorithm
  // ---------------------------------------------------------------

  ghost predicate PositionsAgree(ps: seq<Position>, bs: seq<BrokerPosition>) {
    forall c :: InternalNet(ps, c) == BrokerNet(bs, c)
  }

  predicate OrdersAgree(orders: seq<Order>, bos: seq<BrokerOrder>) {
    && (forall k :: 0 <= k < |bos| && bos[k].brokerId.Some? ==>
          && Indexed(orders, bos[k].brokerId.value).Some?
          && SameParameters(Indexed(orders, bos[k].brokerId.value).value, bos[k]))
    && (forall k :: 0 <= k < |orders| && orders[k].brokerId.Some? ==> AtBroker(bos, orders[k].brokerId.value))
  }

  // ---------------------------------------------------------------
  // The engine
  // ---------------------------------------------------------------

  class OverrideManager {
    var systemLocked: bool

    constructor ()
      ensures !systemLocked
    {
      systemLocked := false;
    }

    method LockSystem() returns (changed: bool)
      modifies this
      ensures systemLocked && changed == !old(systemLocked)
    {
      changed := !systemLocked;
      systemLocked := true;
    }

    method UnlockSystem() returns (changed: bool)
      modifies this
      ensures !systemLocked && changed == old(systemLocked)
    {
      changed := systemLocked;
      systemLocked := false;
    }
  }

  function Lookup(m: map<ContractKey, int>, c: ContractKey): int {
    if c in m then m[c] else 0
  }

  method InternalNets(ps: seq<Position>) returns (nets: map<ContractKey, int>)
    ensures forall c :: Lookup(nets, c) == InternalNet(ps, c)
  {
    nets := map[];
    for i := 0 to |ps|
      invariant forall c :: Lookup(nets, c) == InternalNet(ps[..i], c)
    {
      forall c
        ensures InternalNet(ps[..i + 1], c) == InternalNet(ps[..i], c) + HeldIn(AcrossStrategies(c))(ps[i])
      {
        assert ps[..i + 1] == ps[..i] + [ps[i]];
        SumIntAppend(ps[..i], ps[i], HeldIn(AcrossStrategies(c)));
      }
      if IsOpen(ps[i]) && ps[i].quantity > 0 {
        var c := KeyOf(ps[i].contract);
        nets := nets[c := Lookup(nets, c) + Sign(ps[i].side) * ps[i].quantity];
      }
    }
    assert ps[..|ps|] == ps;
  }

  method BrokerNets(bs: seq<BrokerPosition>) returns (nets: map<ContractKey, int>)
    ensures forall c :: Lookup(nets, c) == BrokerNet(bs, c)
  {
    nets := map[];
    for i := 0 to |bs|
      invariant forall c :: Lookup(nets, c) == BrokerNet(bs[..i], c)
    {
      forall c
        ensures BrokerNet(bs[..i + 1], c) == BrokerNet(bs[..i], c) + BrokerHeldIn(c)(bs[i])
      {
        assert bs[..i + 1] == bs[..i] + [bs[i]];
        SumIntAppend(bs[..i], bs[i], BrokerHeldIn(c));
      }
      if bs[i].quantity > 0 {
        var c := bs[i].key.contract;
        nets := nets[c := Lookup(nets, c) + Sign(bs[i].side) * bs[i].quantity];
      }
    }
    assert bs[..|bs|] == bs;
  }

  /** A list of details tells exactly the contracts that differ. */
  ghost predicate TellsPositions(details: seq<Detail>, ps: seq<Position>, bs: seq<BrokerPosition>) {
    && (forall c :: PositionDetail(c, InternalNet(ps, c), BrokerNet(bs, c)).Some? ==>
          PositionDetail(c, InternalNet(ps, c), BrokerNet(bs, c)).value in details)
    && (forall d :: d in details && AboutPosition(d) ==>
          PositionDetail(d.contract, InternalNet(ps, d.contract), BrokerNet(bs, d.contract)) == Some(d))
  }

  method ComparePositions(ps: seq<Position>, bs: seq<BrokerPosition>) returns (details: seq<Detail>)
    ensures TellsPositions(details, ps, bs)
    ensures forall d :: d in details ==> AboutPosition(d)
  {
    var internal := InternalNets(ps);
    var broker := BrokerNets(bs);
    details := [];
    var keys := internal.Keys + broker.Keys;
    ghost var seen: set<ContractKey> := {};
    while keys != {}
      invariant seen + keys == internal.Keys + broker.Keys
      invariant forall c :: c in seen && PositionDetail(c, Lookup(internal, c), Lookup(broker, c)).Some? ==>
        PositionDetail(c, Lookup(internal, c), Lookup(broker, c)).value in details
      invariant forall d :: d in details ==>
        AboutPosition(d)
          && PositionDetail(d.contract, Lookup(internal, d.contract), Lookup(broker, d.contract)) == Some(d)
      decreases keys
    {
      var c :| c in keys;
      keys := keys - {c};
      seen := seen + {c};
      var i, b := Lookup(internal, c), Lookup(broker, c);
      if i == b {
        continue;
      }
      if i != 0 && b == 0 {
        details := details + [InternalOnlyPosition(c, i)];
      } else if b != 0 && i == 0 {
        details := details + [BrokerOnlyPosition(c, b)];
      } else {
        details := details + [PositionQuantityMismatch(c, i, b)];
      }
    }
    forall c | PositionDetail(c, InternalNet(ps, c), BrokerNet(bs, c)).Some?
      ensures PositionDetail(c, InternalNet(ps, c), BrokerNet(bs, c)).value in details
    {
      assert Lookup(internal, c) == InternalNet(ps, c) && Lookup(broker, c) == BrokerNet(bs, c);
      assert c in seen;
    }
  }

  ghost predicate TellsOrders(details: seq<Detail>, orders: seq<Order>, bos: seq<BrokerOrder>) {
    && (forall k :: 0 <= k < |bos| && BrokerOrderDetail(orders, bos[k]).Some? ==>
          BrokerOrderDetail(orders, bos[k]).value in details)
    && (forall k :: 0 <= k < |orders| && InternalOrderDetail(orders[k], bos).Some? ==>
          InternalOrderDetail(orders[k], bos).value in details)
    && (forall d :: d in details ==>
          || (exists k :: 0 <= k < |bos| && BrokerOrderDetail(orders, bos[k]) == Some(d))
          || (exists k :: 0 <= k < |orders| && InternalOrderDetail(orders[k], bos) == Some(d)))
  }

  method IndexByBrokerId(orders: seq<Order>) returns (index: map<int, Order>)
    ensures forall id :: (if id in index then Some(index[id]) else None) == Indexed(orders, id)
  {
    index := map[];
    for i := 0 to |orders|
      invariant forall id :: (if id in index then Some(index[id]) else None) == Indexed(orders[..i], id)
    {
      assert orders[..i + 1][..i] == orders[..i];
      if orders[i].brokerId.Some? {
        index := index[orders[i].brokerId.value := orders[i]];
      }
    }
    assert orders[..|orders|] == orders;
  }

  method CompareBrokerOrders(orders: seq<Order>, bos: seq<BrokerOrder>)
    returns (details: seq<Detail>, ids: set<int>)
    ensures forall k :: 0 <= k < |bos| && BrokerOrderDetail(orders, bos[k]).Some? ==>
      BrokerOrderDetail(orders, bos[k]).value in details
    ensures forall d :: d in details ==> exists k :: 0 <= k < |bos| && BrokerOrderDetail(orders, bos[k]) == Some(d)
    ensures forall id :: id in ids <==> AtBroker(bos, id)
  {
    var index := IndexByBrokerId(orders);
    details, ids := [], {};
    for k := 0 to |bos|
      invariant forall j :: 0 <= j < k && BrokerOrderDetail(orders, bos[j]).Some? ==>
        BrokerOrderDetail(orders, bos[j]).value in details
      invariant forall d :: d in details ==> exists j :: 0 <= j < k && BrokerOrderDetail(orders, bos[j]) == Some(d)
      invariant forall id :: id in ids <==> exists j :: 0 <= j < k && bos[j].brokerId == Some(id)
    {
      var bo := bos[k];
      if bo.brokerId.None? {
        continue;
      }
      var id := bo.brokerId.value;
      ids := ids + {id};
      assert (if id in index then Some(index[id]) else None) == Indexed(orders, id);
      if id !in index {
        details := details + [UnknownBrokerOrder(id)];
        assert BrokerOrderDetail(orders, bos[k]) == Some(UnknownBrokerOrder(id));
      } else {
        var io := index[id];
        if KeyOf(io.contract) != bo.contract || io.side != bo.side || io.quantity != bo.quantity
           || AbsReal(io.limit - bo.limit) > LIMIT_TOLERANCE {
          details := details + [OrderParameterMismatch(id)];
          assert BrokerOrderDetail(orders, bos[k]) == Some(OrderParameterMismatch(id));
        }
      }
    }
  }

  method CompareOrders(orders: seq<Order>, bos: seq<BrokerOrder>) returns (details: seq<Detail>)
    ensures TellsOrders(details, orders, bos)
    ensures forall d :: d in details ==> !AboutPosition(d)
  {
    var ids;
    details, ids := CompareBrokerOrders(orders, bos);
    for k := 0 to |orders|
      invariant forall j :: 0 <= j < |bos| && BrokerOrderDetail(orders, bos[j]).Some? ==>
        BrokerOrderDetail(orders, bos[j]).value in details
      invariant forall j :: 0 <= j < k && InternalOrderDetail(orders[j], bos).Some? ==>
        InternalOrderDetail(orders[j], bos).value in details
      invariant forall d :: d in details ==>
        || (exists j :: 0 <= j < |bos| && BrokerOrderDetail(orders, bos[j]) == Some(d))
        || (exists j :: 0 <= j < k && InternalOrderDetail(orders[j], bos) == Some(d))
    {
      if orders[k].brokerId.Some? && orders[k].brokerId.value !in ids {
        details := details + [InternalOrderNotAtBroker(orders[k].brokerId.value)];
        assert InternalOrderDetail(orders[k], bos) == Some(InternalOrderNotAtBroker(orders[k].brokerId.value));
      }
    }
  }

  method HasSevere(details: seq<Detail>) returns (severe: bool)
    ensures severe <==> exists d :: d in details && Severe(d)
  {
    severe := false;
    for k := 0 to |details|
      invariant severe <==> exists j :: 0 <= j < k && Severe(details[j])
    {
      if Severe(details[k]) {
        severe := true;
      }
    }
  }

  /**
   * The report is clean exactly when every contract nets to the same on both sides and the
   * identified open orders correspond; the system is locked exactly when something held
   * internally is held differently at the broker.
   */
  method Reconcile(ps: seq<Position>, bs: seq<BrokerPosition>, orders: seq<Order>, bos: seq<BrokerOrder>,
                   overrides: OverrideManager) returns (report: Report)
    modifies overrides
    ensures report.isClean <==> PositionsAgree(ps, bs) && OrdersAgree(orders, bos)
    ensures report.isClean <==> report.details == []
    ensures (forall d :: d in report.details ==> !AboutPosition(d)) <==> PositionsAgree(ps, bs)
    ensures overrides.systemLocked <==>
            old(overrides.systemLocked) || exists c :: InternalNet(ps, c) != 0 && InternalNet(ps, c) != BrokerNet(bs, c)
  {
    hide InternalNet, BrokerNet, OrdersAgree, TellsOrders, PositionDetail;
    var details := ComparePositions(ps, bs);
    var details' := CompareOrders(orders, bos);
    var all := details + details';
    report := Report(all, |all| == 0);
    PositionsAgreeIff(details, ps, bs);
    OrdersAgreeIff(details', orders, bos);
    SevereIff(details, ps, bs);
    var severe := HasSevere(all);
    assert forall d :: d in all <==> d in details || d in details';
    assert details != [] ==> details[0] in all && AboutPosition(details[0]);
    if severe {
      var _ := overrides.LockSystem();
    }
  }

  lemma PositionsAgreeIff(details: seq<Detail>, ps: seq<Position>, bs: seq<BrokerPosition>)
    requires TellsPositions(details, ps, bs) && forall d :: d in details ==> AboutPosition(d)
    ensures details == [] <==> PositionsAgree(ps, bs)
  {
    if details == [] {
      forall c ensures InternalNet(ps, c) == BrokerNet(bs, c) {
        assert PositionDetail(c, InternalNet(ps, c), BrokerNet(bs, c)).None?;
      }
    } else {
      assert details[0] in details;
      var c := details[0].contract;
      assert InternalNet(ps, c) != BrokerNet(bs, c);
    }
  }

  lemma OrdersAgreeIff(details: seq<Detail>, orders: seq<Order>, bos: seq<BrokerOrder>)
    requires TellsOrders(details, orders, bos)
    ensures details == [] <==> OrdersAgree(orders, bos)
  {
    if details == [] {
      forall k | 0 <= k < |bos| && bos[k].brokerId.Some?
        ensures Indexed(orders, bos[k].brokerId.value).Some?
        ensures SameParameters(Indexed(orders, bos[k].brokerId.value).value, bos[k])
      {
        assert BrokerOrderDetail(orders, bos[k]).None?;
      }
      forall k | 0 <= k < |orders| && orders[k].brokerId.Some? ensures AtBroker(bos, orders[k].brokerId.value) {
        assert InternalOrderDetail(orders[k], bos).None?;
      }
    } else {
      assert details[0] in details;
    }
  }

  lemma SevereIff(details: seq<Detail>, ps: seq<Position>, bs: seq<BrokerPosition>)
    requires TellsPositions(details, ps, bs) && forall d :: d in details ==> AboutPosition(d)
    ensures (exists d :: d in details && Severe(d))
            <==> exists c :: InternalNet(ps, c) != 0 && InternalNet(ps, c) != BrokerNet(bs, c)
  {
    forall c | InternalNet(ps, c) != 0 && InternalNet(ps, c) != BrokerNet(bs, c)
      ensures exists d :: d in details && Severe(d)
    {
      assert Severe(PositionDetail(c, InternalNet(ps, c), BrokerNet(bs, c)).value);
    }
    forall d | d in details && Severe(d)
      ensures exists c :: InternalNet(ps, c) != 0 && InternalNet(ps, c) != BrokerNet(bs, c)
    {
      assert InternalNet(ps, d.contract) != 0;
    }
  }

  // ---------------------------------------------------------------
  // What is told
  // ---------------------------------------------------------------

  /** The newest internal order carrying the broker id. */
  predicate NewestWith(orders: seq<Order>, id: int, k: nat) {
    && k < |orders| && orders[k].brokerId == Some(id)
    && forall j :: k < j < |orders| ==> orders[j].brokerId != Some(id)
  }

  lemma {:induction false} IndexedIsNewest(orders: seq<Order>, id: int, k: nat)
    requires NewestWith(orders, id, k)
    ensures Indexed(orders, id) == Some(orders[k])
  {
    var n := |orders| - 1;
    if k < n {
      assert orders[n].brokerId != Some(id);
      IndexedIsNewest(orders[..n], id, k);
    }
  }

  /**
   * A broker order is told to differ exactly when contract, side or quantity differ from those of the newest
   * internal order with its id, or the limits are more than 0.0501 apart; to be unknown when there is none.
   */
  lemma BrokerOrderToldIff(orders: seq<Order>, bo: BrokerOrder, id: int)
    requires bo.brokerId == Some(id)
    ensures BrokerOrderDetail(orders, bo) == Some(UnknownBrokerOrder(id)) <==>
            forall k :: 0 <= k < |orders| ==> orders[k].brokerId != Some(id)
    ensures BrokerOrderDetail(orders, bo) == Some(OrderParameterMismatch(id)) <==>
            exists k: nat :: NewestWith(orders, id, k) && Differs(orders[k], bo)
  {
    hide Indexed, SameParameters, Differs;
    if Indexed(orders, id).Some? {
      var k := NewestOf(orders, id);
      IndexedIsNewest(orders, id, k);
      DiffersIff(orders[k], bo);
      assert forall j: nat :: NewestWith(orders, id, j) ==> j == k;
    }
  }

  predicate Differs(o: Order, bo: BrokerOrder) {
    || o.contract.symbol != bo.contract.symbol || o.contract.expiry != bo.contract.expiry
    || o.contract.strike != bo.contract.strike || o.contract.right != bo.contract.right
    || o.side != bo.side || o.quantity != bo.quantity
    || o.limit > bo.limit + 0.0501 || o.limit < bo.limit - 0.0501
  }

  lemma DiffersIff(o: Order, bo: BrokerOrder)
    ensures Differs(o, bo) <==> !SameParameters(o, bo)
  {
  }

  lemma {:induction false} NewestOf(orders: seq<Order>, id: int) returns (k: nat)
    requires exists j :: 0 <= j < |orders| && orders[j].brokerId == Some(id)
    ensures NewestWith(orders, id, k)
  {
    var n := |orders| - 1;
    if orders[n].brokerId == Some(id) {
      k := n;
    } else {
      var j :| 0 <= j < |orders| && orders[j].brokerId == Some(id);
      assert orders[..n][j] == orders[j];
      k := NewestOf(orders[..n], id);
      assert forall i :: 0 <= i < n ==> orders[..n][i] == orders[i];
    }
  }

  /** A contract is told to be held here only, there only, or differently, exactly when it is. */
  lemma PositionToldIff(c: ContractKey, internal: int, broker: int)
    ensures PositionDetail(c, internal, broker) == Some(InternalOnlyPosition(c, internal)) <==>
            internal != 0 && broker == 0
    ensures PositionDetail(c, internal, broker) == Some(BrokerOnlyPosition(c, broker)) <==>
            internal == 0 && broker != 0
    ensures PositionDetail(c, internal, broker) == Some(PositionQuantityMismatch(c, internal, broker)) <==>
            internal != 0 && broker != 0 && internal != broker
    ensures PositionDetail(c, internal, broker).None? <==> internal == broker
  {
  }

  /** An order the broker holds with the same terms, its limit rounded to the tick, is never told to differ. */
  lemma RoundedLimitAgrees(o: Order, bo: BrokerOrder)
    requires KeyOf(o.contract) == bo.contract && o.side == bo.side && o.quantity == bo.quantity
    requires bo.limit == Pricing.Tick(o.limit)
    ensures SameParameters(o, bo)
  {
    Pricing.TickWithinTolerance(o.limit);
  }

  // ---------------------------------------------------------------
  // The books agree
  // ---------------------------------------------------------------

  lemma MockNetIsBrokerNet(ms: seq<BrokerPosition>, c: ContractKey)
    requires MockTidy(ms)
    ensures BrokerNet(ms, c) == MockNet(ms, AcrossStrategies(c))
    decreases |ms|
  {
    if ms != [] {
      var n := |ms| - 1;
      assert MockTidy(ms[..n]);
      MockNetIsBrokerNet(ms[..n], c);
    }
  }

  /**
   * After any fills that never close more than is held, the position manager and the mock
   * broker hold the same for every strategy and contract, each with at most one entry per
   * key, and reconciliation finds no position to report.
   */
  lemma BooksAgree(fs: seq<Fill>, ids: seq<int>)
    requires |ids| == |fs| && AllCovered(fs, ids)
    ensures Tidy(Booked(fs, ids)) && MockTidy(MockBooked(fs))
    ensures forall key :: NetHeld(Booked(fs, ids), OneKey(key)) == MockNet(MockBooked(fs), OneKey(key))
    ensures PositionsAgree(Booked(fs, ids), MockBooked(fs))
  {
    BookedTidy(fs, ids);
    MockHoldsNet(fs, AcrossStrategies(ContractKey("", "", 0.0, Call)));
    forall key ensures NetHeld(Booked(fs, ids), OneKey(key)) == MockNet(MockBooked(fs), OneKey(key)) {
      BookedHoldsNet(fs, ids, OneKey(key));
      MockHoldsNet(fs, OneKey(key));
    }
    forall c ensures InternalNet(Booked(fs, ids), c) == BrokerNet(MockBooked(fs), c) {
      BookedHoldsNet(fs, ids, AcrossStrategies(c));
      MockHoldsNet(fs, AcrossStrategies(c));
      MockNetIsBrokerNet(MockBooked(fs), c);
    }
  }

  /** From agreeing books, the next fill keeps them agreeing exactly when it does not over-close. */
  lemma BooksPartIffOverClose(fs: seq<Fill>, ids: seq<int>, f: Fill, id: int)
    requires |ids| == |fs| && AllCovered(fs, ids)
    ensures
      var key := OneKey(FillKey(f));
      NetHeld(Booked(fs + [f], ids + [id]), key) == MockNet(MockBooked(fs + [f]), key)
      <==> Covered(Booked(fs, ids), f)
  {
    var key := OneKey(FillKey(f));
    assert (fs + [f])[..|fs|] == fs && (ids + [id])[..|ids|] == ids;
    BookedTidy(fs, ids);
    BookedHoldsNet(fs, ids, key);
    MockHoldsNet(fs, key);
    MockHoldsNet(fs + [f], key);
    SumIntAppend(fs, f, FillQtyIn(key));
    NetKeptIffCovered(Booked(fs, ids), f, id);
  }
}
