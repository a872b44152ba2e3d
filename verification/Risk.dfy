/** The quantity the risk engine allows, and that no run of the order book exceeds it. */
module Risk {
  import opened Domain
  import opened Orders
  import opened OrderChains
  import opened OrderTheorems

  /** Premium paid or received for q contracts. */
  function Premium(q: int, limit: Price): real {
    q as real * (limit * 100.0)
  }

  predicate WithinBudget(q: int, limit: Option<Price>, budget: Option<Price>) {
    budget.Some? && limit.Some? ==> Premium(q, limit.value) <= budget.value
  }

  /** A contract is for a hundred, and the premium of the whole order is what the budget must cover. */
  lemma BudgetCovers(q: int, limit: Price, budget: Price)
    ensures WithinBudget(q, Some(limit), Some(budget)) <==> 100.0 * (q as real * limit) <= budget
    ensures WithinBudget(q, None, Some(budget)) && WithinBudget(q, Some(limit), None)
  {
    assert q as real * (limit * 100.0) == 100.0 * (q as real * limit);
  }

  /**
   * The largest quantity within the request, the contract limit and the premium budget, but
   * never less than one: the budget gives way when a single contract exceeds it.
   */
  method ComputeAllowedQuantity(requested: Qty, maxContracts: Qty, budget: Option<Price>, limit: Option<Price>)
    returns (quantity: int)
    ensures 1 <= quantity <= Min(requested, maxContracts)
    ensures quantity == 1 || WithinBudget(quantity, limit, budget)
    ensures forall q :: 1 <= q <= Min(requested, maxContracts) && WithinBudget(q, limit, budget) ==> q <= quantity
  {
    quantity := requested;
    if quantity > maxContracts {
      quantity := maxContracts;
    }
    if budget.Some? && limit.Some? {
      var perContract := limit.value * 100.0;
      var affordable := (budget.value / perContract).Floor;
      forall q | q > affordable ensures !WithinBudget(q, limit, budget) {
        TooMany(q, affordable, perContract, budget.value);
      }
      if affordable < quantity {
        quantity := affordable;
        FloorAffordable(affordable, perContract, budget.value);
      } else {
        FloorAffordable(affordable, perContract, budget.value);
        Fewer(quantity, affordable, perContract);
      }
    }
    if quantity < 1 {
      quantity := 1;
    }
  }

  lemma FloorAffordable(n: int, unit: real, budget: real)
    requires unit > 0.0 && n == (budget / unit).Floor
    ensures n as real * unit <= budget
  {
    assert n as real <= budget / unit;
    assert n as real * unit <= budget / unit * unit;
    assert budget / unit * unit == budget;
  }

  lemma TooMany(q: int, n: int, unit: real, budget: real)
    requires unit > 0.0 && n == (budget / unit).Floor && q > n
    ensures q as real * unit > budget
  {
    assert q as real > budget / unit;
    assert q as real * unit > budget / unit * unit;
    assert budget / unit * unit == budget;
  }

  lemma Fewer(q: int, n: int, unit: real)
    requires q <= n && unit > 0.0
    ensures q as real * unit <= n as real * unit
  {
  }

  // ---------------------------------------------------------------
  // The limit over whole runs
  // ---------------------------------------------------------------

  lemma {:induction false} QuantityFixed(b: Book, events: seq<Event>, i: OrderId)
    requires Inv(b) && i < |b.orders|
    ensures i < |Run(b, events).orders| && Run(b, events).orders[i].quantity == b.orders[i].quantity
    decreases |events|
  {
    if events != [] {
      StepEvolves(b, events[0], i);
      StepKeeps(b, events[0]);
      QuantityFixed(Step(b, events[0]), events[1..], i);
    }
  }

  /**
   * Whatever happens before and after, all that an accepted submission and its replacements
   * ever fill stays within the quantity the risk engine allowed it.
   */
  lemma FillsStayWithinAllowed(now: int, before: seq<Event>, submit: Event, after: seq<Event>)
    requires submit.EvSubmit? && SubmitRefusal(Reached(now, before).orders, submit.intent, submit.decision).None?
    requires HonestRun(Init(now), before + [submit] + after)
    ensures
      var i := |Reached(now, before).orders|;
      var orders := Reached(now, before + [submit] + after).orders;
      && i < |orders| && Forward(orders)
      && SumFilled(orders, Chain(orders, i)) <= submit.decision.allowedQuantity
  {
    var i := |Reached(now, before).orders|;
    var b := Reached(now, before);
    ReachedInv(now, before);
    RunAppend(Init(now), before, [submit]);
    RunAppend(Init(now), before + [submit], after);
    var b1 := Step(b, submit);
    assert Run(b, [submit]) == b1;
    StepKeeps(b, submit);
    assert b1.orders[i].quantity == submit.decision.allowedQuantity;
    QuantityFixed(b1, after, i);
    ChainNeverOverfills(now, before + [submit] + after, i);
  }
}
