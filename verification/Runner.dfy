/** The runner's fail-closed lock, its two ways out, and the gate in front of new entries. */
module Running {
  import opened Domain
  import opened Orders
  import opened OrderChains
  import opened OrderTheorems
  import opened OrderManagement
  import opened ActiveOrders
  import opened LegCoordination
  import opened MockBroking
  import opened Reconciliation
  import CashFlow
  import Positions

  // ---------------------------------------------------------------
  // The lock as a state machine
  // ---------------------------------------------------------------

  /** What a reconciliation sees: both sides' positions and open orders. */
  datatype Books = Books(
    positions: seq<Positions.Position>,
    brokerPositions: seq<BrokerPosition>,
    orders: seq<Order>,
    brokerOrders: seq<BrokerOrder>)

  datatype Lock = Lock(locked: bool, byDisconnect: bool)

  /** Everything that touches the lock. Books are absent when the broker could not be read. */
  datatype Act =
    | Disconnected
    | Reconciled(books: Option<Books>)
    | OperatorLocked
    | OperatorUnlock(books: Option<Books>)
    | AutoResume(connected: bool, books: Option<Books>)
    | RejectionsFound

  ghost predicate Agree(books: Option<Books>) {
    && books.Some?
    && PositionsAgree(books.value.positions, books.value.brokerPositions)
    && OrdersAgree(books.value.orders, books.value.brokerOrders)
  }

  ghost function LockStep(s: Lock, a: Act): Lock {
    match a
    case Disconnected => Lock(true, true)
    case Reconciled(books) =>
      if books.Some? && !Agree(books) then s.(locked := true) else s
    case OperatorLocked => s.(locked := true)
    case OperatorUnlock(books) =>
      if books.None? then s else if Agree(books) then Lock(false, false) else s.(locked := true)
    case AutoResume(connected, books) =>
      if !(s.locked && s.byDisconnect) || !connected || books.None? then s
      else if Agree(books) then Lock(false, false)
      else Lock(true, false)
    case RejectionsFound => s.(locked := true)
  }

  ghost function LockRun(s: Lock, acts: seq<Act>): Lock
    decreases |acts|
  {
    if acts == [] then s else LockRun(LockStep(s, acts[0]), acts[1..])
  }

  /** A lock is released exactly by an operator, or by auto-resume of a disconnect lock, on agreeing books. */
  lemma ReleasedIff(s: Lock, a: Act)
    requires s.locked
    ensures !LockStep(s, a).locked <==>
            || (a.OperatorUnlock? && Agree(a.books))
            || (a.AutoResume? && s.byDisconnect && a.connected && Agree(a.books))
  {
  }

  /** Both sides could be read and differ. */
  ghost predicate Differ(books: Option<Books>) {
    books.Some? && !Agree(books)
  }

  /** What locks, what keeps the lock, and when the lock counts as one that a disconnect took. */
  lemma LockTable(s: Lock, a: Act)
    ensures LockStep(s, a).locked <==>
            || a.Disconnected? || a.OperatorLocked? || a.RejectionsFound?
            || ((a.Reconciled? || a.OperatorUnlock?) && Differ(a.books))
            || (s.locked && !(a.OperatorUnlock? && Agree(a.books))
                && !(a.AutoResume? && s.byDisconnect && a.connected && Agree(a.books)))
    ensures LockStep(s, a).byDisconnect <==>
            || a.Disconnected?
            || (s.byDisconnect && !(a.OperatorUnlock? && Agree(a.books))
                && !(a.AutoResume? && s.locked && a.connected && a.books.Some?))
  {
  }

  ghost predicate NoDisconnect(acts: seq<Act>) {
    forall k :: 0 <= k < |acts| ==> !acts[k].Disconnected?
  }

  ghost predicate NoOperatorRelease(acts: seq<Act>) {
    forall k :: 0 <= k < |acts| ==> !(acts[k].OperatorUnlock? && Agree(acts[k].books))
  }

  /** A lock that no disconnect took holds until a disconnect or an operator's clean unlock. */
  lemma {:induction false} LockHolds(s: Lock, acts: seq<Act>)
    requires s.locked && !s.byDisconnect && NoDisconnect(acts) && NoOperatorRelease(acts)
    ensures LockRun(s, acts).locked && !LockRun(s, acts).byDisconnect
    decreases |acts|
  {
    if acts != [] {
      assert !acts[0].Disconnected?;
      LockHolds(LockStep(s, acts[0]), acts[1..]);
    }
  }

  /** Whatever released a lock during a run, the books agreed at that moment. */
  lemma {:induction false} ReleaseFound(s: Lock, acts: seq<Act>) returns (k: nat)
    requires s.locked && !LockRun(s, acts).locked
    ensures k < |acts| && LockRun(s, acts[..k]).locked && !LockRun(s, acts[..k + 1]).locked
    ensures (acts[k].OperatorUnlock? || acts[k].AutoResume?) && Agree(acts[k].books)
    decreases |acts|
  {
    var s1 := LockStep(s, acts[0]);
    if !s1.locked {
      k := 0;
      assert acts[..1][1..] == [];
      ReleasedIff(s, acts[0]);
    } else {
      var j := ReleaseFound(s1, acts[1..]);
      k := j + 1;
      assert acts[..k][1..] == acts[1..][..j];
      assert acts[..k + 1][1..] == acts[1..][..j + 1];
    }
  }

  lemma {:induction false} LockRunAppend(s: Lock, first: seq<Act>, second: seq<Act>)
    ensures LockRun(s, first + second) == LockRun(LockRun(s, first), second)
    decreases |first|
  {
    if first == [] {
      assert first + second == second;
    } else {
      assert (first + second)[1..] == first[1..] + second;
      LockRunAppend(LockStep(s, first[0]), first[1..], second);
    }
  }

  // ---------------------------------------------------------------
  // What the runner looks at
  // ---------------------------------------------------------------

  /** The order book and the positions. */
  datatype World = World(book: Book, positions: seq<Positions.Position>)

  /** What coroutines and callbacks do to both while the runner waits. */
  datatype Happening = Happening(events: seq<Event>, actions: seq<CashFlow.Action>)

  function After(w: World, h: Happening): World {
    World(Run(w.book, h.events), CashFlow.ApplyAll(w.positions, h.actions))
  }

  /** The world after the first n happenings. */
  function WorldAt(w: World, during: nat -> Happening, n: nat): World {
    if n == 0 then w else After(WorldAt(w, during, n - 1), during(n - 1))
  }

  /** It is reached by a run of the order machine and a run of position events. */
  lemma {:induction false} WorldAtIsRun(w: World, during: nat -> Happening, n: nat)
    returns (events: seq<Event>, actions: seq<CashFlow.Action>)
    ensures WorldAt(w, during, n) == World(Run(w.book, events), CashFlow.ApplyAll(w.positions, actions))
  {
    hide Run, CashFlow.ApplyAll;
    if n == 0 {
      events, actions := [], [];
      NothingRuns(w.book);
      NothingApplied(w.positions);
    } else {
      var before, applied := WorldAtIsRun(w, during, n - 1);
      events, actions := before + during(n - 1).events, applied + during(n - 1).actions;
      RunAppend(w.book, before, during(n - 1).events);
      ApplyAppend(w.positions, applied, during(n - 1).actions);
    }
  }

  lemma NothingApplied(ps: seq<Positions.Position>)
    ensures CashFlow.ApplyAll(ps, []) == ps
  {
  }

  lemma {:induction false} ApplyAppend(ps: seq<Positions.Position>, first: seq<CashFlow.Action>,
                                       second: seq<CashFlow.Action>)
    ensures CashFlow.ApplyAll(ps, first + second) == CashFlow.ApplyAll(CashFlow.ApplyAll(ps, first), second)
    decreases |first|
  {
    hide CashFlow.Apply;
    if first == [] {
      assert first + second == second;
    } else {
      assert (first + second)[1..] == first[1..] + second;
      ApplyAppend(CashFlow.Apply(ps, first[0]), first[1..], second);
    }
  }

  // ---------------------------------------------------------------
  // Entries
  // ---------------------------------------------------------------

  /** A strategy as the gate sees it this tick. */
  datatype Strategy = Strategy(
    id: string, enabled: bool, paused: bool, windowClosed: bool,
    allowReentry: bool, tradedToday: bool, backingOff: bool)

  predicate HoldsNone(positions: seq<Positions.Position>, strategy: string) {
    forall k :: 0 <= k < |positions| ==> !(positions[k].strategy == strategy && Positions.IsOpen(positions[k]))
  }

  predicate WorksNone(orders: seq<Order>, strategy: string) {
    forall k :: 0 <= k < |orders| ==> !(orders[k].strategy == strategy && Active(orders[k].status))
  }

  /** No open position, and no order that is working or being cancelled. */
  predicate Flat(w: World, strategy: string) {
    HoldsNone(w.positions, strategy) && WorksNone(w.book.orders, strategy)
  }

  predicate Reachable(s: Strategy) {
    s.enabled && !s.paused
  }

  /** May this strategy be asked for an entry? A manual fire bypasses only the once-a-day and back-off gates. */
  predicate MayEnter(s: Strategy, manual: bool, w: World) {
    && Reachable(s) && !s.windowClosed && Flat(w, s.id)
    && (manual || ((s.allowReentry || !s.tradedToday) && !s.backingOff))
  }

  /** May the k-th strategy enter, in the world its turn finds? */
  predicate MayEnterAt(strategies: seq<Strategy>, manual: set<string>, w: World, during: nat -> Happening, k: nat)
    requires k < |strategies|
  {
    var left := manual - Consumed(strategies[..k], manual);
    MayEnter(strategies[k], strategies[k].id in left, WorldAt(w, during, k + 1))
  }

  /** The strategies asked, in order, starting from world w; `during(k)` happens before the k-th one's turn. */
  function Polled(strategies: seq<Strategy>, manual: set<string>, w: World, during: nat -> Happening): seq<string> {
    var n := |strategies| - 1;
    if strategies == [] then []
    else
      var before := Polled(strategies[..n], manual, w, during);
      if MayEnterAt(strategies, manual, w, during, n) then before + [strategies[n].id] else before
  }

  /** One click is one attempt: a fire request is used up when its strategy is reached. */
  function Consumed(strategies: seq<Strategy>, manual: set<string>): set<string> {
    set k | 0 <= k < |strategies| && Reachable(strategies[k]) && strategies[k].id in manual :: strategies[k].id
  }

  // ---------------------------------------------------------------
  // The runner
  // ---------------------------------------------------------------

  datatype Command = Unlock(books: Option<Books>) | LockCommand | FlattenAll | FireNow(strategy: string) | OtherCommand

  function ActsOfCommand(command: Command): seq<Act> {
    match command
    case Unlock(books) => [OperatorUnlock(books)]
    case LockCommand => [OperatorLocked]
    case _ => []
  }

  function CommandActs(commands: seq<Command>): seq<Act> {
    var n := |commands| - 1;
    if commands == [] then [] else CommandActs(commands[..n]) + ActsOfCommand(commands[n])
  }

  function Fired(commands: seq<Command>): set<string> {
    set k | 0 <= k < |commands| && commands[k].FireNow? :: commands[k].strategy
  }

  lemma FiredStep(commands: seq<Command>, k: nat)
    requires k < |commands|
    ensures Fired(commands[..k + 1])
            == Fired(commands[..k]) + (if commands[k].FireNow? then {commands[k].strategy} else {})
  {
    var before, after := commands[..k], commands[..k + 1];
    assert after[k] == commands[k];
    forall s | s in Fired(before) ensures s in Fired(after) {
      var j :| 0 <= j < |before| && before[j].FireNow? && before[j].strategy == s;
      assert after[j] == before[j];
    }
  }

  /**
   * The environment of one pass through the main loop: what happened since the last one, the broker's answers,
   * what interleaves while the tick manages the orders, and what happens before each strategy's turn.
   */
  datatype Pass = Pass(
    resumeConnected: bool, resumeBooks: Option<Books>,
    since: Happening, connected: bool, commands: seq<Command>,
    surroundings: Surroundings, actions: seq<CashFlow.Action>,
    strategies: seq<Strategy>, during: nat -> Happening,
    periodicDue: bool, periodicBooks: Option<Books>)

  /** What a connected tick does to the lock before its gate, finding the order book b. */
  ghost function TickActs(p: Pass, b: Book): seq<Act> {
    if !p.connected then [Disconnected]
    else CommandActs(p.commands) + (if Swept(b, p.surroundings).rejected != {} then [RejectionsFound] else [])
  }

  ghost function ActsBeforeGate(p: Pass, b: Book): seq<Act> {
    [AutoResume(p.resumeConnected, p.resumeBooks)] + TickActs(p, b)
  }

  ghost function ActsOf(p: Pass, b: Book): seq<Act> {
    ActsBeforeGate(p, b) + (if p.periodicDue then [Reconciled(p.periodicBooks)] else [])
  }

  /** The world at the gate of a tick that finds w. */
  function AtGate(p: Pass, w: World): World {
    if p.connected then World(Managed(w.book, p.surroundings), CashFlow.ApplyAll(w.positions, p.actions)) else w
  }

  /** The world at the end of a tick that finds w: at a shut gate no strategy has its turn. */
  function AfterTick(p: Pass, w: World, shut: bool): World {
    if shut then AtGate(p, w) else WorldAt(AtGate(p, w), p.during, |p.strategies|)
  }

  /** Does the tick that finds w flag the position as asymmetric? */
  ghost predicate FlaggedBy(p: Pass, w: World, id: int) {
    var open := Positions.OpenOnly(AtGate(p, w).positions);
    p.connected && exists k :: 0 <= k < |open| && open[k].id == id && Asymmetric(w.book, p.surroundings, open[k])
  }

  /** Whom the tick asks, the fire requests being those pending and those in its commands. */
  function AskedBy(p: Pass, w: World, shut: bool, pending: set<string>): seq<string> {
    if shut then [] else Polled(p.strategies, pending + Fired(p.commands), AtGate(p, w), p.during)
  }

  /** The fire requests still pending at its end. */
  function PendingAfter(p: Pass, shut: bool, pending: set<string>): set<string> {
    var all := pending + Fired(p.commands);
    if !p.connected then pending else if shut then all else all - Consumed(p.strategies, all)
  }

  datatype State = State(lock: Lock, world: World)

  function Found(s: State, p: Pass): World {
    After(s.world, p.since)
  }

  ghost predicate GateShut(s: State, p: Pass) {
    LockRun(s.lock, ActsBeforeGate(p, Found(s, p).book)).locked
  }

  ghost function AfterPass(s: State, p: Pass): State {
    State(LockRun(s.lock, ActsOf(p, Found(s, p).book)), AfterTick(p, Found(s, p), GateShut(s, p)))
  }

  class Runner {
    const overrides: OverrideManager
    const om: OrderManager
    const pm: Positions.PositionManager
    const legs: LegCoordinator
    var lockedByDisconnect: bool
    var flattenAll: bool
    var manualFires: set<string>

    ghost function LockState(): Lock
      reads this, overrides
    {
      Lock(overrides.systemLocked, lockedByDisconnect)
    }

    ghost function Now(): World
      reads om, pm
    {
      World(om.View(), pm.positions)
    }

    constructor (now: int)
      ensures fresh(overrides) && fresh(om) && fresh(pm) && fresh(legs) && Now() == World(Init(now), [])
      ensures LockState() == Lock(false, false) && !flattenAll && manualFires == {}
    {
      overrides := new OverrideManager();
      om := new OrderManager(now);
      pm := new Positions.PositionManager();
      legs := new LegCoordinator();
      lockedByDisconnect, flattenAll := false, false;
      manualFires := {};
    }

    /** Let fills, forced closes and commissions reach the positions. */
    method PerformActions(actions: seq<CashFlow.Action>)
      modifies pm
      ensures pm.positions == CashFlow.ApplyAll(old(pm.positions), actions)
    {
      hide CashFlow.Apply;
      for k := 0 to |actions|
        invariant CashFlow.ApplyAll(pm.positions, actions[k..]) == CashFlow.ApplyAll(old(pm.positions), actions)
      {
        assert actions[k..][1..] == actions[k + 1..];
        PerformAction(actions[k]);
      }
    }

    method PerformAction(action: CashFlow.Action)
      modifies pm
      ensures pm.positions == CashFlow.Apply(old(pm.positions), action)
    {
      match action
      case AFill(fill, positionId, newId) => pm.ApplyFill(fill, positionId, newId);
      case AForceClose(id, exit) => pm.ForceClosePosition(id, exit);
      case ACommission(orderId, amount) => pm.OnCommission(orderId, amount);
    }

    method LetHappen(h: Happening)
      modifies om, pm
      ensures Now() == After(old(Now()), h)
    {
      hide Run, CashFlow.ApplyAll;
      om.PerformAll(h.events);
      PerformActions(h.actions);
    }

    /** Fails when the broker cannot be read; otherwise clean exactly when the books agree, and locks when not. */
    method RunReconciliation(books: Option<Books>) returns (clean: Option<bool>)
      modifies overrides
      ensures LockState() == LockStep(old(LockState()), Reconciled(books))
      ensures clean == if books.None? then None else Some(Agree(books))
    {
      if books.None? {
        return None;
      }
      var b := books.value;
      var report := Reconcile(b.positions, b.brokerPositions, b.orders, b.brokerOrders, overrides);
      if report.isClean {
        AgreeingBooksNeverLock(b);
        return Some(true);
      }
      overrides.systemLocked := true;
      return Some(false);
    }

    method ProcessCommands(commands: seq<Command>)
      modifies this, overrides
      ensures LockState() == LockRun(old(LockState()), CommandActs(commands))
      ensures flattenAll <==> old(flattenAll) || FlattenAll in commands
      ensures manualFires == old(manualFires) + Fired(commands)
    {
      hide Fired, Agree, LockRun, ActsOfCommand;
      NothingFired();
      NoActs(LockState());
      for i := 0 to |commands|
        invariant LockState() == LockRun(old(LockState()), CommandActs(commands[..i]))
        invariant flattenAll <==> old(flattenAll) || FlattenAll in commands[..i]
        invariant manualFires == old(manualFires) + Fired(commands[..i])
      {
        FiredStep(commands, i);
        assert commands[..i + 1][..i] == commands[..i];
        assert commands[..i + 1] == commands[..i] + [commands[i]];
        LockRunAppend(old(LockState()), CommandActs(commands[..i]), ActsOfCommand(commands[i]));
        ProcessCommand(commands[i]);
      }
      assert commands[..|commands|] == commands;
    }

    method ProcessCommand(command: Command)
      modifies this, overrides
      ensures LockState() == LockRun(old(LockState()), ActsOfCommand(command))
      ensures flattenAll <==> old(flattenAll) || command == FlattenAll
      ensures manualFires == old(manualFires) + (if command.FireNow? then {command.strategy} else {})
    {
      hide Agree;
      match command {
        case Unlock(books) =>
          OneAct(LockState(), OperatorUnlock(books));
          var clean := RunReconciliation(books);
          if clean == Some(true) {
            var _ := overrides.UnlockSystem();
            lockedByDisconnect := false;
          }
        case LockCommand =>
          OneAct(LockState(), OperatorLocked);
          var _ := overrides.LockSystem();
        case FlattenAll =>
          flattenAll := true;
        case FireNow(strategy) =>
          manualFires := manualFires + {strategy};
        case OtherCommand =>
      }
    }

    method TryAutoResume(connected: bool, books: Option<Books>)
      requires overrides.systemLocked && lockedByDisconnect
      modifies this`lockedByDisconnect, overrides
      ensures LockState() == LockStep(old(LockState()), AutoResume(connected, books))
    {
      if !connected {
        return;
      }
      var clean := RunReconciliation(books);
      if clean.None? {
        return;
      }
      if !clean.value {
        lockedByDisconnect := false;
        return;
      }
      var _ := overrides.UnlockSystem();
      lockedByDisconnect := false;
    }

    /** Has the strategy no open position, and no order working or being cancelled, right now? */
    method IsFlat(strategy: string) returns (flat: bool)
      ensures flat <==> Flat(Now(), strategy)
    {
      for k := 0 to |pm.positions|
        invariant forall j :: 0 <= j < k ==>
          !(pm.positions[j].strategy == strategy && Positions.IsOpen(pm.positions[j]))
      {
        if pm.positions[k].strategy == strategy && Positions.IsOpen(pm.positions[k]) {
          return false;
        }
      }
      for k := 0 to |om.orders|
        invariant forall j :: 0 <= j < k ==> !(om.orders[j].strategy == strategy && Active(om.orders[j].status))
      {
        if om.orders[k].strategy == strategy && Active(om.orders[k].status) {
          return false;
        }
      }
      return true;
    }

    /** One strategy's turn: a fire request for it is used up, and it is asked if it may enter now. */
    method TakeTurn(s: Strategy) returns (ask: bool)
      modifies this`manualFires
      ensures ask <==> MayEnter(s, s.id in old(manualFires), Now())
      ensures manualFires == if Reachable(s) then old(manualFires) - {s.id} else old(manualFires)
    {
      hide Flat;
      if !s.enabled || s.paused {
        return false;
      }
      var manual := s.id in manualFires;
      manualFires := manualFires - {s.id};
      if s.windowClosed {
        return false;
      }
      if !manual && !s.allowReentry && s.tradedToday {
        return false;
      }
      if !manual && s.backingOff {
        return false;
      }
      ask := IsFlat(s.id);
    }

    /** Ask the strategies that may enter, in order, each in the world its turn finds; none while locked. */
    method PollEntries(strategies: seq<Strategy>, during: nat -> Happening) returns (polled: seq<string>)
      modifies this`manualFires, om, pm
      ensures polled == if overrides.systemLocked then [] else Polled(strategies, old(manualFires), old(Now()), during)
      ensures manualFires == if overrides.systemLocked then old(manualFires)
                             else old(manualFires) - Consumed(strategies, old(manualFires))
      ensures Now() == if overrides.systemLocked then old(Now()) else WorldAt(old(Now()), during, |strategies|)
    {
      hide Consumed, MayEnter, After;
      NothingConsumed(manualFires);
      polled := [];
      var locked := overrides.systemLocked;
      if locked {
        return;
      }
      assert strategies[..0] == [];
      for i := 0 to |strategies|
        invariant polled == Polled(strategies[..i], old(manualFires), old(Now()), during)
        invariant manualFires == old(manualFires) - Consumed(strategies[..i], old(manualFires))
        invariant Now() == WorldAt(old(Now()), during, i)
      {
        LetHappen(during(i));
        assert Now() == WorldAt(old(Now()), during, i + 1);
        PolledStep(strategies, i, old(manualFires), old(Now()), during);
        ConsumedStep(strategies[..i], strategies[i], old(manualFires));
        assert strategies[..i + 1] == strategies[..i] + [strategies[i]];
        var ask := TakeTurn(strategies[i]);
        if ask {
          polled := polled + [strategies[i].id];
        }
      }
      assert strategies[..|strategies|] == strategies;
    }

    /** The reaction to rejections: lock, cancel every working order in turn, clear the set. */
    method ManageRejections(pause: OrderId -> seq<Event>)
      requires om.rejectedIds != {}
      modifies overrides, om
      ensures om.View() == Reaction(old(om.View()), pause)
      ensures LockState() == LockStep(old(LockState()), RejectionsFound)
    {
      hide CancelEach, Turn;
      ghost var before := om.View();
      var _ := overrides.LockSystem();
      var n := |om.orders|;
      NothingCancelled(before, pause);
      assert FirstIds(0) == [];
      for i := 0 to n
        invariant om.View() == CancelEach(before, FirstIds(i), pause)
        invariant overrides.systemLocked
      {
        assert FirstIds(i + 1) == FirstIds(i) + [i];
        CancelEachOneMore(before, FirstIds(i), i, pause);
        CancelIfWorking(i, pause);
      }
      om.ClearRejected();
    }

    /** Hard-cancel the captured entries that have reached their strategy's timeout and are working at their turn. */
    method EnforceTimeouts(captured: seq<Order>, at: int, timeouts: map<string, int>, pause: OrderId -> seq<Event>)
      modifies om
      ensures om.View() == CancelEach(old(om.View()), Overdue(captured, at, timeouts), pause)
    {
      hide CancelEach, OverdueOf, EntryStrategies;
      ghost var before := om.View();
      var strategies := LegCoordinator.StrategiesOf(captured, |captured|);
      NothingCancelled(before, pause);
      for s := 0 to |strategies|
        invariant om.View() == CancelEach(before, OverdueIn(captured, strategies[..s], at, timeouts), pause)
      {
        assert strategies[..s + 1][..s] == strategies[..s];
        ghost var ids := OverdueIn(captured, strategies[..s], at, timeouts);
        if strategies[s] in timeouts {
          var limit := timeouts[strategies[s]];
          CancelEachAppend(before, ids, OverdueOf(captured, |captured|, strategies[s], at, limit), pause);
          EnforceTimeout(captured, strategies[s], at, limit, pause);
        } else {
          assert ids + [] == ids;
        }
      }
      assert strategies[..|strategies|] == strategies;
    }

    method EnforceTimeout(captured: seq<Order>, strategy: string, at: int, limit: int, pause: OrderId -> seq<Event>)
      modifies om
      ensures om.View() == CancelEach(old(om.View()), OverdueOf(captured, |captured|, strategy, at, limit), pause)
    {
      hide CancelEach, Turn;
      ghost var before := om.View();
      NothingCancelled(before, pause);
      for i := 0 to |captured|
        invariant om.View() == CancelEach(before, OverdueOf(captured, i, strategy, at, limit), pause)
      {
        ghost var ids := OverdueOf(captured, i, strategy, at, limit);
        var o := captured[i];
        if o.isEntry && o.strategy == strategy && at - o.createdAt >= limit {
          CancelEachOneMore(before, ids, i, pause);
          CancelIfWorking(i, pause);
        } else {
          assert ids + [] == ids;
        }
      }
    }

    method CancelIfWorking(i: OrderId, pause: OrderId -> seq<Event>)
      modifies om
      ensures om.View() == Turn(old(om.View()), i, pause)
    {
      hide Cancel, Run;
      if i < |om.orders| && Working(om.orders[i].status) {
        var _ := om.CancelOrder(i, true);
        om.PerformAll(pause(i));
      }
    }

    /** Sweep, then either react to rejections, or enforce the entry timeouts and coordinate the legs. */
    method ManageActiveOrders(s: Surroundings, actions: seq<CashFlow.Action>)
      requires Inv(om.View())
      modifies overrides, om, pm, legs
      ensures Inv(om.View()) && om.View() == Managed(old(om.View()), s)
      ensures pm.positions == CashFlow.ApplyAll(old(pm.positions), actions)
      ensures LockState() == if Swept(old(om.View()), s).rejected == {} then old(LockState())
                             else LockStep(old(LockState()), RejectionsFound)
      ensures forall id :: id in legs.asymmetricExits <==>
        || id in old(legs.asymmetricExits)
        || exists k ::
             var open := Positions.OpenOnly(pm.positions);
             0 <= k < |open| && open[k].id == id && Asymmetric(old(om.View()), s, open[k])
    {
      hide Inv, Run, CashFlow.ApplyAll, Overdue, CancelEach, LegPass, PassFlags, SweepAll, EntryGroups, Reaction;
      ghost var b := om.View();
      ManagedKeeps(b, s);
      om.ResolveStuckCancels(s.reports, s.recancels, s.sweepPause);
      if om.rejectedIds != {} {
        ManageRejections(s.pause);
        PerformActions(actions);
        return;
      }
      ghost var swept := om.View();
      ghost var sweep := SweptIsRun(b, s);
      RunKeeps(b, sweep);
      var captured := om.orders;
      EnforceTimeouts(captured, s.at, s.timeouts, s.pause);
      ghost var cancels := CancelEachIsRun(swept, Overdue(captured, s.at, s.timeouts), s.pause);
      RunKeeps(swept, cancels);
      RunGrows(swept, cancels);
      PerformActions(actions);
      var open := pm.GetOpenPositions();
      legs.Coordinate(om, open, captured, s.legPause);
    }

    /** One tick: connectivity, commands, the active orders, then the gate and the strategies behind it. */
    method ProcessTick(p: Pass) returns (polled: seq<string>)
      requires Inv(om.View())
      modifies this, overrides, om, pm, legs
      ensures LockState() == LockRun(old(LockState()), TickActs(p, old(om.View())))
      ensures
        var shut := LockRun(old(LockState()), TickActs(p, old(om.View()))).locked;
        && Now() == AfterTick(p, old(Now()), shut) && polled == AskedBy(p, old(Now()), shut, old(manualFires))
        && manualFires == PendingAfter(p, shut, old(manualFires))
      ensures flattenAll <==> old(flattenAll) || (p.connected && FlattenAll in p.commands)
      ensures forall id :: id in legs.asymmetricExits <==>
        id in old(legs.asymmetricExits) || FlaggedBy(p, old(Now()), id)
      ensures Inv(om.View())
    {
      hide Flat, CommandActs, Run, Inv, Managed, Swept, CashFlow.ApplyAll, Asymmetric, After, Polled, Consumed, Fired;
      if !p.connected {
        overrides.systemLocked := true;
        lockedByDisconnect := true;
        assert LockRun(old(LockState()), [Disconnected]) == LockStep(old(LockState()), Disconnected);
        return [];
      }
      ProcessCommands(p.commands);
      assert CommandActs(p.commands) + [] == CommandActs(p.commands);
      LockRunAppend(old(LockState()), CommandActs(p.commands), [RejectionsFound]);
      OneAct(LockState(), RejectionsFound);
      ManageActiveOrders(p.surroundings, p.actions);
      ghost var gate := Now();
      ghost var events, actions := WorldAtIsRun(gate, p.during, |p.strategies|);
      RunKeeps(gate.book, events);
      polled := PollEntries(p.strategies, p.during);
    }

    /** One pass: auto-resume if due, the tick, the periodic reconciliation. */
    method MainLoopPass(p: Pass) returns (polled: seq<string>)
      requires Inv(om.View())
      modifies this, overrides, om, pm, legs
      ensures
        var s := State(old(LockState()), old(Now()));
        && State(LockState(), Now()) == AfterPass(s, p)
        && polled == AskedBy(p, Found(s, p), GateShut(s, p), old(manualFires))
        && manualFires == PendingAfter(p, GateShut(s, p), old(manualFires))
        && forall id :: id in legs.asymmetricExits <==>
             id in old(legs.asymmetricExits) || FlaggedBy(p, Found(s, p), id)
      ensures flattenAll <==> old(flattenAll) || (p.connected && FlattenAll in p.commands)
      ensures Inv(om.View())
    {
      hide Run, TickActs, AfterTick, Agree, Inv, CashFlow.ApplyAll, AtGate, FlaggedBy, AskedBy, PendingAfter;
      RunKeeps(om.View(), p.since.events);
      LetHappen(p.since);
      ghost var w := Now();
      var resume := overrides.systemLocked && lockedByDisconnect;
      if resume {
        TryAutoResume(p.resumeConnected, p.resumeBooks);
      }
      ghost var first := [AutoResume(p.resumeConnected, p.resumeBooks)];
      OneAct(old(LockState()), first[0]);
      polled := ProcessTick(p);
      LockRunAppend(old(LockState()), first, TickActs(p, w.book));
      if p.periodicDue {
        LockRunAppend(old(LockState()), ActsBeforeGate(p, w.book), [Reconciled(p.periodicBooks)]);
        OneAct(LockState(), Reconciled(p.periodicBooks));
        var _ := RunReconciliation(p.periodicBooks);
      } else {
        assert ActsBeforeGate(p, w.book) + [] == ActsBeforeGate(p, w.book);
      }
    }
  }

  lemma NothingCancelled(b: Book, pause: OrderId -> seq<Event>)
    ensures CancelEach(b, [], pause) == b
  {
  }

  lemma CancelEachOneMore(b: Book, ids: seq<OrderId>, i: OrderId, pause: OrderId -> seq<Event>)
    ensures CancelEach(b, ids + [i], pause) == Turn(CancelEach(b, ids, pause), i, pause)
  {
    hide Turn;
    assert (ids + [i])[..|ids|] == ids;
  }

  lemma CancelEachAppend(b: Book, first: seq<OrderId>, second: seq<OrderId>, pause: OrderId -> seq<Event>)
    ensures CancelEach(b, first + second, pause) == CancelEach(CancelEach(b, first, pause), second, pause)
  {
    hide CancelEach;
    assert (first + second)[..|first|] == first && (first + second)[|first|..] == second;
    CancelEachSplit(b, first + second, |first|, pause);
  }

  lemma NoActs(s: Lock)
    ensures LockRun(s, []) == s
  {
  }

  lemma NothingFired()
    ensures Fired([]) == {}
  {
  }

  lemma OneAct(s: Lock, a: Act)
    ensures LockRun(s, [a]) == LockStep(s, a)
  {
    assert [a][1..] == [];
  }

  lemma AgreeingBooksNeverLock(b: Books)
    requires PositionsAgree(b.positions, b.brokerPositions)
    ensures forall c ::
      InternalNet(b.positions, c) == 0 || InternalNet(b.positions, c) == BrokerNet(b.brokerPositions, c)
  {
  }

  lemma NothingConsumed(manual: set<string>)
    ensures Consumed([], manual) == {}
  {
  }

  lemma ConsumedStep(strategies: seq<Strategy>, s: Strategy, manual: set<string>)
    ensures Consumed(strategies + [s], manual)
            == Consumed(strategies, manual) + (if Reachable(s) && s.id in manual then {s.id} else {})
  {
    var all := strategies + [s];
    assert all[|strategies|] == s;
    forall id | id in Consumed(strategies, manual) ensures id in Consumed(all, manual) {
      var k :| 0 <= k < |strategies| && Reachable(strategies[k]) && strategies[k].id in manual
          && strategies[k].id == id;
      assert all[k] == strategies[k];
    }
  }

  lemma PolledStep(strategies: seq<Strategy>, k: nat, manual: set<string>, w: World, during: nat -> Happening)
    requires k < |strategies|
    ensures Polled(strategies[..k + 1], manual, w, during)
            == Polled(strategies[..k], manual, w, during)
               + (if MayEnterAt(strategies, manual, w, during, k) then [strategies[k].id] else [])
  {
    hide Consumed, MayEnter, WorldAt;
    assert strategies[..k + 1][..k] == strategies[..k];
  }

  /** Exactly those strategies are asked that may enter in the world their turn finds. */
  lemma {:induction false} PolledIff(strategies: seq<Strategy>, manual: set<string>, w: World, during: nat -> Happening)
    ensures forall id :: id in Polled(strategies, manual, w, during) <==>
      exists k :: 0 <= k < |strategies| && strategies[k].id == id && MayEnterAt(strategies, manual, w, during, k)
    decreases |strategies|
  {
    hide MayEnter, WorldAt, Consumed;
    var n := |strategies| - 1;
    if strategies != [] {
      var before := strategies[..n];
      PolledIff(before, manual, w, during);
      assert forall k :: 0 <= k < n ==> before[k] == strategies[k] && before[..k] == strategies[..k];
      assert forall k :: 0 <= k < n ==>
        (MayEnterAt(before, manual, w, during, k) <==> MayEnterAt(strategies, manual, w, during, k));
    }
  }

  /** An operator's fire request for the k-th strategy that no earlier entry of the same id has used up. */
  predicate FireRequested(strategies: seq<Strategy>, manual: set<string>, k: nat)
    requires k < |strategies|
  {
    && strategies[k].id in manual
    && forall j :: 0 <= j < k && strategies[j].id == strategies[k].id ==> !strategies[j].enabled || strategies[j].paused
  }

  /** The k-th strategy is enabled, in its window and flat, and fired or free to trade again today. */
  ghost predicate ClearToEnter(strategies: seq<Strategy>, manual: set<string>, w: World, during: nat -> Happening,
                               k: nat)
    requires k < |strategies|
  {
    var s := strategies[k];
    && s.enabled && !s.paused && !s.windowClosed
    && WorksNone(WorldAt(w, during, k + 1).book.orders, s.id) && HoldsNone(WorldAt(w, during, k + 1).positions, s.id)
    && (!FireRequested(strategies, manual, k) ==> !s.backingOff && (s.tradedToday ==> s.allowReentry))
  }

  lemma ClearIff(strategies: seq<Strategy>, manual: set<string>, w: World, during: nat -> Happening, k: nat)
    requires k < |strategies|
    ensures MayEnterAt(strategies, manual, w, during, k) <==> ClearToEnter(strategies, manual, w, during, k)
  {
    hide HoldsNone, WorksNone, WorldAt;
    assert forall j :: 0 <= j < k ==> strategies[..k][j] == strategies[j];
    assert strategies[k].id in Consumed(strategies[..k], manual) <==>
           exists j :: 0 <= j < k && Reachable(strategies[j]) && strategies[j].id in manual
             && strategies[j].id == strategies[k].id;
  }

  /**
   * A strategy is asked exactly when it is clear to enter at its turn: enabled and not paused, inside its window,
   * flat in the world its turn finds, and, unless an operator fires it, neither backing off nor done for the day.
   */
  lemma EntryRules(strategies: seq<Strategy>, manual: set<string>, w: World, during: nat -> Happening)
    ensures forall id :: id in Polled(strategies, manual, w, during) <==>
      exists k :: 0 <= k < |strategies| && strategies[k].id == id && ClearToEnter(strategies, manual, w, during, k)
  {
    hide Polled, MayEnterAt, ClearToEnter;
    PolledIff(strategies, manual, w, during);
    forall k | 0 <= k < |strategies|
      ensures MayEnterAt(strategies, manual, w, during, k) <==> ClearToEnter(strategies, manual, w, during, k)
    {
      ClearIff(strategies, manual, w, during, k);
    }
  }

  /**
   * "Always wait until flat": whoever is asked has, in the order book and the positions reached at its turn by
   * whatever happened since the gate, no active order and no open position.
   */
  lemma PolledAreFlat(strategies: seq<Strategy>, manual: set<string>, w: World, during: nat -> Happening, id: string)
    returns (k: nat, events: seq<Event>, actions: seq<CashFlow.Action>)
    requires id in Polled(strategies, manual, w, during)
    ensures k < |strategies| && strategies[k].id == id
    ensures WorldAt(w, during, k + 1) == World(Run(w.book, events), CashFlow.ApplyAll(w.positions, actions))
    ensures WorksNone(Run(w.book, events).orders, id) && HoldsNone(CashFlow.ApplyAll(w.positions, actions), id)
  {
    hide Polled, Run, CashFlow.ApplyAll, WorldAt, WorksNone, HoldsNone;
    PolledIff(strategies, manual, w, during);
    k :| 0 <= k < |strategies| && strategies[k].id == id && MayEnterAt(strategies, manual, w, during, k);
    events, actions := WorldAtIsRun(w, during, k + 1);
  }

  /**
   * One click is one attempt: a fire request outlives a tick exactly when the tick is disconnected, or its gate is
   * shut, or the strategy is disabled or paused; a disconnected tick does not even take new ones.
   */
  lemma OneClickOneAttempt(p: Pass, shut: bool, pending: set<string>, id: string)
    ensures id in PendingAfter(p, shut, pending) <==>
            if !p.connected then id in pending
            else
              && (id in pending || exists k :: 0 <= k < |p.commands| && p.commands[k] == FireNow(id))
              && (shut || forall k :: 0 <= k < |p.strategies| && p.strategies[k].id == id ==>
                    !p.strategies[k].enabled || p.strategies[k].paused)
  {
    assert id in Fired(p.commands) <==> exists k :: 0 <= k < |p.commands| && p.commands[k] == FireNow(id);
    var all := pending + Fired(p.commands);
    assert id in Consumed(p.strategies, all) <==>
           id in all && exists k :: 0 <= k < |p.strategies| && Reachable(p.strategies[k]) && p.strategies[k].id == id;
  }

  // ---------------------------------------------------------------
  // Whole runs of the main loop
  // ---------------------------------------------------------------

  ghost function ActsOfAll(s: State, passes: seq<Pass>): seq<Act>
    decreases |passes|
  {
    if passes == [] then []
    else ActsOf(passes[0], Found(s, passes[0]).book) + ActsOfAll(AfterPass(s, passes[0]), passes[1..])
  }

  /** Some pass of the run reaches its gate unlocked, so entries may be asked for. */
  ghost predicate GateOpens(s: State, passes: seq<Pass>)
    decreases |passes|
  {
    passes != [] && (!GateShut(s, passes[0]) || GateOpens(AfterPass(s, passes[0]), passes[1..]))
  }

  /**
   * Locked without a disconnect, the gate stays shut through any run of the main loop that has
   * neither a disconnect nor an operator unlock on agreeing books: no entry is ever asked for.
   */
  lemma {:induction false} GateStaysShut(s: State, passes: seq<Pass>)
    requires s.lock.locked && !s.lock.byDisconnect
    requires NoDisconnect(ActsOfAll(s, passes)) && NoOperatorRelease(ActsOfAll(s, passes))
    ensures !GateOpens(s, passes)
    decreases |passes|
  {
    hide Found, AfterTick, TickActs;
    if passes != [] {
      var b := Found(s, passes[0]).book;
      var acts, all := ActsOf(passes[0], b), ActsOfAll(s, passes);
      var rest := ActsOfAll(AfterPass(s, passes[0]), passes[1..]);
      assert all == acts + rest;
      SubActs(all, acts, rest);
      var gate := ActsBeforeGate(passes[0], b);
      SubActs(acts, gate, acts[|gate|..]);
      LockHolds(s.lock, gate);
      LockHolds(s.lock, acts);
      GateStaysShut(AfterPass(s, passes[0]), passes[1..]);
    }
  }

  ghost function LoopRun(s: State, passes: seq<Pass>): State
    decreases |passes|
  {
    if passes == [] then s else LoopRun(AfterPass(s, passes[0]), passes[1..])
  }

  lemma TickIsRun(p: Pass, w: World, shut: bool) returns (events: seq<Event>, actions: seq<CashFlow.Action>)
    ensures AfterTick(p, w, shut) == World(Run(w.book, events), CashFlow.ApplyAll(w.positions, actions))
  {
    hide Run, CashFlow.ApplyAll, Managed, WorldAt;
    events, actions := [], [];
    NothingRuns(w.book);
    NothingApplied(w.positions);
    if p.connected {
      events := ManagedIsRun(w.book, p.surroundings);
      actions := p.actions;
    }
    if !shut {
      var more, applied := WorldAtIsRun(AtGate(p, w), p.during, |p.strategies|);
      RunAppend(w.book, events, more);
      ApplyAppend(w.positions, actions, applied);
      events, actions := events + more, actions + applied;
    }
  }

  /**
   * Any run of the main loop is a run of the order machine and one of position events, so every theorem about
   * those covers the books the runner looks at.
   */
  lemma {:induction false} LoopIsRun(s: State, passes: seq<Pass>)
    returns (events: seq<Event>, actions: seq<CashFlow.Action>)
    ensures LoopRun(s, passes).world == World(Run(s.world.book, events), CashFlow.ApplyAll(s.world.positions, actions))
    decreases |passes|
  {
    hide Run, CashFlow.ApplyAll, AfterTick;
    if passes == [] {
      events, actions := [], [];
      NothingRuns(s.world.book);
      NothingApplied(s.world.positions);
    } else {
      var p, w := passes[0], Found(s, passes[0]);
      var own, ownActions := TickIsRun(p, w, GateShut(s, p));
      var rest, restActions := LoopIsRun(AfterPass(s, p), passes[1..]);
      var first, firstActions := p.since.events + own, p.since.actions + ownActions;
      RunAppend(s.world.book, p.since.events, own);
      ApplyAppend(s.world.positions, p.since.actions, ownActions);
      RunAppend(s.world.book, first, rest);
      ApplyAppend(s.world.positions, firstActions, restActions);
      events, actions := first + rest, firstActions + restActions;
    }
  }

  lemma SubActs(all: seq<Act>, first: seq<Act>, second: seq<Act>)
    requires all == first + second && NoDisconnect(all) && NoOperatorRelease(all)
    ensures NoDisconnect(first) && NoOperatorRelease(first) && NoDisconnect(second) && NoOperatorRelease(second)
  {
    assert forall k :: 0 <= k < |first| ==> first[k] == all[k];
    assert forall k :: 0 <= k < |second| ==> second[k] == all[|first| + k];
  }

  /**
   * A later disconnect re-labels the lock: after it, reconnecting on agreeing books releases even an operator's lock.
   */
  lemma DisconnectRelabelsLock(s: Lock, between: seq<Act>, books: Option<Books>)
    requires Agree(books) && NoDisconnect(between) && NoOperatorRelease(between)
    ensures !LockRun(s, [OperatorLocked, Disconnected, AutoResume(true, books)]).locked
    ensures s.byDisconnect || LockRun(LockStep(s, OperatorLocked), between + [AutoResume(true, books)]).locked
  {
    var resume := AutoResume(true, books);
    LockRunAppend(s, [OperatorLocked, Disconnected], [resume]);
    LockRunAppend(s, [OperatorLocked], [Disconnected]);
    assert [OperatorLocked, Disconnected, resume] == [OperatorLocked, Disconnected] + [resume];
    assert [OperatorLocked, Disconnected] == [OperatorLocked] + [Disconnected];
    if !s.byDisconnect {
      LockRunAppend(LockStep(s, OperatorLocked), between, [resume]);
      LockHolds(LockStep(s, OperatorLocked), between);
    }
  }

  // ---------------------------------------------------------------
  // From a broker's rejection to a stopped book
  // ---------------------------------------------------------------

  /**
   * A report that ends a working order badly trips the fail-closed lock in the next connected pass: the
   * gate of that pass is shut, it ends locked with the set cleared, and no order that the broker knew when
   * the tick found the book is still working.
   */
  lemma RejectionLocksAndStops(s: State, brokerId: int, status: Status, filled: nat, i: OrderId, rest: seq<Event>,
                               p: Pass)
    requires Inv(s.world.book) && p.connected && p.since.events == [EvBrokerUpdate(brokerId, status, filled)] + rest
    requires FindByBrokerId(s.world.book.orders, brokerId) == Some(i) && Dead(status)
    requires Working(s.world.book.orders[i].status)
    requires AllPausesMapped(p.surroundings)
    requires NothingCleared(rest) && forall k :: NothingCleared(p.surroundings.sweepPause(k))
    ensures
      var b, s' := Found(s, p).book, AfterPass(s, p);
      var end := s'.world.book;
      && GateShut(s, p) && s'.lock.locked
      && Inv(end) && end.rejected == {} && |b.orders| <= |end.orders|
      && forall k :: 0 <= k < |b.orders| && b.orders[k].brokerId.Some? ==> !Working(end.orders[k].status)
  {
    hide Inv, Managed, Swept, CommandActs, Agree, AllPausesMapped, NothingCleared, CashFlow.ApplyAll;
    var report := EvBrokerUpdate(brokerId, status, filled);
    var b := Found(s, p).book;
    ReportRejects(s.world.book, brokerId, status, filled, i);
    assert p.since.events[1..] == rest;
    RejectedStays(Step(s.world.book, report), rest);
    RunKeeps(s.world.book, p.since.events);
    RejectionIsActedOn(b, p.surroundings);
    var resume := [AutoResume(p.resumeConnected, p.resumeBooks)];
    assert ActsBeforeGate(p, b) == (resume + CommandActs(p.commands)) + [RejectionsFound];
    LockRunAppend(s.lock, resume + CommandActs(p.commands), [RejectionsFound]);
    OneAct(LockRun(s.lock, resume + CommandActs(p.commands)), RejectionsFound);
    StaysLocked(s.lock, p, b);
  }

  lemma ReportRejects(b: Book, brokerId: int, status: Status, filled: nat, i: OrderId)
    requires FindByBrokerId(b.orders, brokerId) == Some(i) && Working(b.orders[i].status) && Dead(status)
    ensures i in Step(b, EvBrokerUpdate(brokerId, status, filled)).rejected
  {
  }

  lemma StaysLocked(s: Lock, p: Pass, b: Book)
    requires LockRun(s, ActsBeforeGate(p, b)).locked
    ensures LockRun(s, ActsOf(p, b)).locked
  {
    hide TickActs, Agree;
    LockRunAppend(s, ActsBeforeGate(p, b), [Reconciled(p.periodicBooks)]);
    OneAct(LockRun(s, ActsBeforeGate(p, b)), Reconciled(p.periodicBooks));
    assert ActsBeforeGate(p, b) + [] == ActsBeforeGate(p, b);
  }
}
