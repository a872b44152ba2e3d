/** Which orders a position answers for, and so which commissions reach its result. */
module Ownership {
  import opened Domain
  import opened Positions
  import opened CashFlow

  /** A fill that reaches no position opens one, on its side, for what it filled, at its price and time. */
  lemma FillOpens(ps: seq<Position>, f: Fill, positionId: Option<int>, newId: int)
    requires Target(ps, f, positionId).None?
    ensures
      var qs := HandleFill(ps, f, positionId, newId);
      && |qs| == |ps| + 1 && qs[..|ps|] == ps
      && var p := qs[|ps|];
         && p.id == (if positionId.Some? then positionId.value else newId)
         && p.strategy == f.strategy && p.contract == f.contract && p.side == f.side && IsOpen(p)
         && p.quantity == f.quantity && p.filled == f.quantity && p.average == f.price && p.realized == 0.0
         && p.entryOrder == f.orderId && p.exitOrders == [] && p.entryTime == Some(f.at) && p.createdAt == f.at
         && p.stopPrice.None? && p.targetPrice.None? && p.timeExit.None? && !p.useMidForExits
  {
  }

  /** One that reaches a position leaves every other alone, and of its own changes only what a fill may. */
  lemma FillReaches(ps: seq<Position>, f: Fill, positionId: Option<int>, newId: int)
    requires Target(ps, f, positionId).Some?
    ensures
      var qs, t := HandleFill(ps, f, positionId, newId), Target(ps, f, positionId).value;
      && |qs| == |ps| && (forall i :: 0 <= i < |ps| && i != t ==> qs[i] == ps[i])
      && var p, q := ps[t], qs[t];
         && q == p.(quantity := q.quantity, filled := q.filled, average := q.average, realized := q.realized,
                    status := q.status, exitOrders := q.exitOrders)
         && (if f.side == p.side then q.quantity == p.quantity + f.quantity && q.filled == q.quantity
             else
               && q.quantity == (if f.quantity < p.quantity then p.quantity - f.quantity else 0)
               && q.filled == p.filled)
         && (q.status == if f.side != p.side && f.quantity >= p.quantity then Closed else p.status)
  {
    hide Gain, Blend;
  }

  /** A forced close empties the first position of that id, unless it is closed already, and touches no other. */
  lemma CloseOutcome(ps: seq<Position>, id: int, exit: real, t: nat)
    requires t < |ps| && ps[t].id == id && forall j :: 0 <= j < t ==> ps[j].id != id
    ensures
      var qs := ForceClose(ps, id, exit);
      && |qs| == |ps| && (forall i :: 0 <= i < |ps| && i != t ==> qs[i] == ps[i])
      && qs[t] == if ps[t].status == Closed then ps[t]
                  else ps[t].(quantity := 0, status := Closed, realized := qs[t].realized)
  {
    hide Gain;
    assert IndexOf(ps, id) == Some(t);
  }

  /** The order an action registers with position `id`: one that opens it, or takes some of it back. */
  function Registers(ps: seq<Position>, a: Action, id: int): Option<int> {
    match a
    case AFill(f, positionId, newId) =>
      var t := Target(ps, f, positionId);
      if t.None? then
        if (if positionId.Some? then positionId.value else newId) == id then Some(f.orderId) else None
      else if ps[t.value].id == id && f.side != ps[t.value].side then Some(f.orderId)
      else None
    case _ => None
  }

  /** The orders a run registers with position `id`. */
  function Registered(ps: seq<Position>, actions: seq<Action>, id: int): set<int>
    decreases |actions|
  {
    if actions == [] then {}
    else
      var order := Registers(ps, actions[0], id);
      (if order.Some? then {order.value} else {}) + Registered(Apply(ps, actions[0]), actions[1..], id)
  }

  lemma FilledOwns(p: Position, f: Fill, order: int)
    ensures Owns(Filled(p, f), order) <==> Owns(p, order) || (f.side != p.side && order == f.orderId)
    ensures Filled(p, f).id == p.id
  {
    hide Gain, Blend;
  }

  lemma OpenedOwns(f: Fill, id: int, order: int)
    ensures Owns(Opened(f, id), order) <==> order == f.orderId
  {
  }

  /** One action registers an order with at most the position it reaches, and takes none away. */
  lemma ApplyOwns(ps: seq<Position>, a: Action, i: nat, order: int)
    requires UniqueIds(ps) && Sound(ps, a) && i < |Apply(ps, a)|
    ensures |Apply(ps, a)| >= |ps| && (i < |ps| ==> Apply(ps, a)[i].id == ps[i].id)
    ensures Owns(Apply(ps, a)[i], order) <==>
            (i < |ps| && Owns(ps[i], order)) || Registers(ps, a, Apply(ps, a)[i].id) == Some(order)
  {
    hide Filled, IndexOf, FirstOpen, OwnerOf, Owns, Gain;
    match a
    case AFill(f, positionId, newId) =>
      var t := Target(ps, f, positionId);
      if t.None? {
        OpenedOwns(f, if positionId.Some? then positionId.value else newId, order);
        if i < |ps| {
          NotThere(ps, f, positionId, newId, i);
        }
      } else {
        FilledOwns(ps[t.value], f, order);
      }
    case AForceClose(id, exit) =>
      ClosedOwns(ps, id, exit, i, order);
    case ACommission(paid, amount) =>
      PaidOwns(ps, paid, amount, i, order);
  }

  lemma NotThere(ps: seq<Position>, f: Fill, positionId: Option<int>, newId: int, i: nat)
    requires i < |ps| && Target(ps, f, positionId).None? && Sound(ps, AFill(f, positionId, newId))
    ensures ps[i].id != if positionId.Some? then positionId.value else newId
  {
  }

  lemma ClosedOwns(ps: seq<Position>, id: int, exit: real, i: nat, order: int)
    requires i < |ps|
    ensures |ForceClose(ps, id, exit)| == |ps| && ForceClose(ps, id, exit)[i].id == ps[i].id
    ensures Owns(ForceClose(ps, id, exit)[i], order) <==> Owns(ps[i], order)
  {
    hide Gain;
  }

  lemma PaidOwns(ps: seq<Position>, paid: int, amount: real, i: nat, order: int)
    requires i < |ps|
    ensures |NetCommission(ps, paid, amount)| == |ps| && NetCommission(ps, paid, amount)[i].id == ps[i].id
    ensures Owns(NetCommission(ps, paid, amount)[i], order) <==> Owns(ps[i], order)
  {
  }

  /**
   * After any run a position answers for exactly the orders that the run registered with it, besides those it began
   * with.
   */
  lemma {:induction false} OwnsIff(ps: seq<Position>, actions: seq<Action>, i: nat, order: int)
    requires UniqueIds(ps) && SoundRun(ps, actions) && i < |ApplyAll(ps, actions)|
    ensures i < |ps| ==> ApplyAll(ps, actions)[i].id == ps[i].id
    ensures Owns(ApplyAll(ps, actions)[i], order) <==>
            (i < |ps| && Owns(ps[i], order)) || order in Registered(ps, actions, ApplyAll(ps, actions)[i].id)
    decreases |actions|
  {
    hide Apply, Owns, Registers, UniqueIds, Sound;
    if actions != [] {
      var a, qs := actions[0], Apply(ps, actions[0]);
      SoundKeepsUnique(ps, a);
      OwnsIff(qs, actions[1..], i, order);
      if i < |qs| {
        ApplyOwns(ps, a, i, order);
      } else {
        ApplyGrows(ps, a);
        var final := ApplyAll(ps, actions);
        if Registers(ps, a, final[i].id) == Some(order) {
          var j := ReachedIsThere(ps, a, final[i].id);
          OwnsIff(qs, actions[1..], j, order);
          RunGrows(qs, actions[1..]);
          RunKeepsUnique(qs, actions[1..]);
          SameId(final, i, j);
        }
      }
    }
  }

  lemma SameId(ps: seq<Position>, i: nat, j: nat)
    requires UniqueIds(ps) && i < |ps| && j < |ps| && ps[i].id == ps[j].id
    ensures i == j
  {
  }

  lemma ReachedIsThere(ps: seq<Position>, a: Action, id: int) returns (j: nat)
    requires Registers(ps, a, id).Some?
    ensures j < |Apply(ps, a)| && Apply(ps, a)[j].id == id
  {
    hide Filled, Gain;
    var t := Target(ps, a.fill, a.positionId);
    if t.None? {
      j := |ps|;
    } else {
      j := t.value;
      FilledKeepsId(ps[j], a.fill);
    }
  }

  lemma {:induction false} RunGrows(ps: seq<Position>, actions: seq<Action>)
    ensures |ApplyAll(ps, actions)| >= |ps|
    decreases |actions|
  {
    hide Apply;
    if actions != [] {
      ApplyGrows(ps, actions[0]);
      RunGrows(Apply(ps, actions[0]), actions[1..]);
    }
  }

  lemma ApplyGrows(ps: seq<Position>, a: Action)
    ensures |Apply(ps, a)| >= |ps|
  {
    hide Filled, Gain;
  }

  lemma {:induction false} RunKeepsUnique(ps: seq<Position>, actions: seq<Action>)
    requires UniqueIds(ps) && SoundRun(ps, actions)
    ensures UniqueIds(ApplyAll(ps, actions))
    decreases |actions|
  {
    hide Apply, UniqueIds, Sound;
    if actions != [] {
      SoundKeepsUnique(ps, actions[0]);
      RunKeepsUnique(Apply(ps, actions[0]), actions[1..]);
    }
  }

  lemma SoundKeepsUnique(ps: seq<Position>, a: Action)
    requires UniqueIds(ps) && Sound(ps, a)
    ensures UniqueIds(Apply(ps, a))
  {
    hide Apply, UniqueIds;
    ApplyKeepsUnique(ps, a);
  }

  /**
   * A commission is taken, in full and from one position only, out of the oldest position the run registered its
   * order with; and from none exactly when it registered it with none.
   */
  lemma CommissionLands(actions: seq<Action>, order: int, amount: real, i: nat)
    requires SoundRun([], actions) && i < |ApplyAll([], actions)|
    ensures
      var ps := ApplyAll([], actions);
      var qs := Apply(ps, ACommission(order, amount));
      var oldest := order in Registered([], actions, ps[i].id)
                    && forall j :: 0 <= j < i ==> order !in Registered([], actions, ps[j].id);
      && |qs| == |ps|
      && qs[i] == if oldest then ps[i].(realized := ps[i].realized - amount) else ps[i]
  {
    hide Registered, Owns;
    var ps := ApplyAll([], actions);
    forall j | 0 <= j <= i ensures Owns(ps[j], order) <==> order in Registered([], actions, ps[j].id) {
      OwnsIff([], actions, j, order);
    }
    var t := OwnerOf(ps, order);
  }
}
