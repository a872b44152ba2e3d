/** The event store's background writer: what is logged is written once, in order, whatever interleaves. */
module EventWriter {
  import opened Domain

  datatype Entry = Entry(kind: string, strategy: Option<string>, payload: string, at: int)

  const BATCH_CAP: nat := 100

  const MEMORY_CAP: nat := 20000

  const MEMORY_CUT: nat := 10000

  // ---------------------------------------------------------------
  // The machine. One step is the code between two suspension points.
  // ---------------------------------------------------------------

  /** Where the writer coroutine is suspended, with the entries it holds. */
  datatype Phase =
    | Waiting
    | Writing(batch: seq<Entry>, stopAfter: bool)
    | Draining
    | Flushing(entry: Entry)
    | Finished

  /** Entries the writer has disposed of in one insert, and whether the insert succeeded. */
  datatype Batch = Batch(entries: seq<Entry>, stored: bool)

  /** `None` in the queue is the stop sentinel. `done` and `logged` are history: no step reads them. */
  datatype Store = Store(
    queue: seq<Option<Entry>>,
    phase: Phase,
    cancelled: bool,
    memory: seq<Entry>,
    done: seq<Batch>,
    logged: seq<Entry>)

  const Fresh := Store([], Waiting, false, [], [], [])

  datatype Filled = Filled(taken: seq<Entry>, rest: seq<Option<Entry>>, sentinel: bool)

  /** Take entries until there is no room, the queue is empty, or a sentinel has been taken. */
  function Fill(queue: seq<Option<Entry>>, room: nat): Filled {
    if room == 0 || queue == [] then Filled([], queue, false)
    else if queue[0].None? then Filled([], queue[1..], true)
    else
      var f := Fill(queue[1..], room - 1);
      f.(taken := [queue[0].value] + f.taken)
  }

  function Remember(memory: seq<Entry>, e: Entry): seq<Entry> {
    var longer := memory + [e];
    if |longer| > MEMORY_CAP then longer[MEMORY_CUT..] else longer
  }

  function Log(s: Store, e: Entry): Store {
    s.(queue := s.queue + [Some(e)], memory := Remember(s.memory, e), logged := s.logged + [e])
  }

  function Stop(s: Store): Store {
    if s.phase.Finished? then s else s.(queue := s.queue + [None])
  }

  function Take(s: Store): Store {
    if !s.phase.Waiting? || s.queue == [] then s
    else if s.queue[0].None? then s.(queue := s.queue[1..], phase := Draining)
    else
      var f := Fill(s.queue, BATCH_CAP);
      s.(queue := f.rest, phase := Writing(f.taken, f.sentinel))
  }

  function Inserted(s: Store, ok: bool): Store {
    match s.phase
    case Writing(batch, stopAfter) =>
      s.(phase := if stopAfter then Draining else Waiting, done := s.done + [Batch(batch, ok)])
    case Flushing(entry) => s.(phase := Draining, done := s.done + [Batch([entry], ok)])
    case _ => s
  }

  function Drain(s: Store): Store {
    if !s.phase.Draining? then s
    else if s.queue == [] then s.(phase := Finished)
    else if s.queue[0].None? then s.(queue := s.queue[1..])
    else s.(queue := s.queue[1..], phase := Flushing(s.queue[0].value))
  }

  /** Cancellation: the insert in progress is given up and the rest drained; a second one ends the writer. */
  function Cancel(s: Store): Store {
    match s.phase
    case Waiting => s.(phase := Draining, cancelled := true)
    case Writing(batch, _) => s.(phase := Draining, cancelled := true, done := s.done + [Batch(batch, false)])
    case Flushing(entry) =>
      s.(phase := if s.cancelled then Finished else Draining, cancelled := true,
         done := s.done + [Batch([entry], false)])
    case _ => s
  }

  datatype Event = EvLog(entry: Entry) | EvStop | EvTake | EvInserted(ok: bool) | EvDrain | EvCancel

  function Step(s: Store, e: Event): Store {
    match e
    case EvLog(entry) => Log(s, entry)
    case EvStop => Stop(s)
    case EvTake => Take(s)
    case EvInserted(ok) => Inserted(s, ok)
    case EvDrain => Drain(s)
    case EvCancel => Cancel(s)
  }

  function Run(s: Store, events: seq<Event>): Store
    decreases |events|
  {
    if events == [] then s else Run(Step(s, events[0]), events[1..])
  }

  // ---------------------------------------------------------------
  // Conservation
  // ---------------------------------------------------------------

  function EntriesOf(queue: seq<Option<Entry>>): seq<Entry> {
    if queue == [] then []
    else (if queue[0].Some? then [queue[0].value] else []) + EntriesOf(queue[1..])
  }

  function InHand(p: Phase): seq<Entry> {
    match p
    case Writing(batch, _) => batch
    case Flushing(entry) => [entry]
    case _ => []
  }

  /** Everything disposed of, in order. */
  function Handled(done: seq<Batch>): seq<Entry> {
    if done == [] then [] else Handled(done[..|done| - 1]) + done[|done| - 1].entries
  }

  /** What reached the database, in order. */
  function Written(done: seq<Batch>): seq<Entry> {
    if done == [] then []
    else Written(done[..|done| - 1]) + (if done[|done| - 1].stored then done[|done| - 1].entries else [])
  }

  predicate IsSuffix(a: seq<Entry>, b: seq<Entry>) {
    |a| <= |b| && a == b[|b| - |a|..]
  }

  predicate Good(s: Store) {
    && Handled(s.done) + InHand(s.phase) + EntriesOf(s.queue) == s.logged
    && (forall k :: 0 <= k < |s.done| ==> 1 <= |s.done[k].entries| <= BATCH_CAP)
    && (s.phase.Writing? ==> 1 <= |s.phase.batch| <= BATCH_CAP)
    && IsSuffix(s.memory, s.logged) && |s.memory| <= MEMORY_CAP
    && (|s.memory| > MEMORY_CUT || s.memory == s.logged)
  }

  lemma {:induction false} EntriesAppend(queue: seq<Option<Entry>>, item: Option<Entry>)
    ensures EntriesOf(queue + [item]) == EntriesOf(queue) + (if item.Some? then [item.value] else [])
  {
    if queue == [] {
      assert queue + [item] == [item] && [item][1..] == [];
    } else {
      assert (queue + [item])[1..] == queue[1..] + [item];
      EntriesAppend(queue[1..], item);
      var head, tail := EntriesOf(queue[..1]), if item.Some? then [item.value] else [];
      Associates(head, EntriesOf(queue[1..]), tail);
      EntriesHead(queue);
      EntriesHead(queue + [item]);
      assert (queue + [item])[..1] == queue[..1];
    }
  }

  lemma Associates(a: seq<Entry>, b: seq<Entry>, c: seq<Entry>)
    ensures (a + b) + c == a + (b + c)
  {
  }

  lemma EntriesHead(queue: seq<Option<Entry>>)
    requires queue != []
    ensures EntriesOf(queue[..1]) == if queue[0].Some? then [queue[0].value] else []
    ensures EntriesOf(queue) == EntriesOf(queue[..1]) + EntriesOf(queue[1..])
  {
    assert queue[..1][1..] == [];
  }

  /** Taking a batch moves entries from the front of the queue, in order, and loses none. */
  lemma {:induction false} FillMoves(queue: seq<Option<Entry>>, room: nat)
    ensures
      var f := Fill(queue, room);
      && f.taken + EntriesOf(f.rest) == EntriesOf(queue)
      && |f.taken| <= room
      && (room > 0 && queue != [] && queue[0].Some? ==> f.taken != [])
  {
    if room > 0 && queue != [] && queue[0].Some? {
      FillMoves(queue[1..], room - 1);
      var f := Fill(queue[1..], room - 1);
      assert ([queue[0].value] + f.taken) + EntriesOf(f.rest) == [queue[0].value] + (f.taken + EntriesOf(f.rest));
    }
  }

  lemma HandledAppend(done: seq<Batch>, b: Batch)
    ensures Handled(done + [b]) == Handled(done) + b.entries
    ensures Written(done + [b]) == Written(done) + (if b.stored then b.entries else [])
  {
    assert (done + [b])[..|done|] == done;
  }

  lemma RememberKeeps(memory: seq<Entry>, logged: seq<Entry>, e: Entry)
    requires IsSuffix(memory, logged) && |memory| <= MEMORY_CAP && (|memory| > MEMORY_CUT || memory == logged)
    ensures
      var m := Remember(memory, e);
      && IsSuffix(m, logged + [e]) && |m| <= MEMORY_CAP && (|m| > MEMORY_CUT || m == logged + [e])
  {
  }

  lemma LogKeeps(s: Store, e: Entry)
    requires Good(s)
    ensures Good(Log(s, e))
  {
    EntriesAppend(s.queue, Some(e));
    RememberKeeps(s.memory, s.logged, e);
    hide Handled, EntriesOf, Remember, IsSuffix;
  }

  lemma StopKeeps(s: Store)
    requires Good(s)
    ensures Good(Stop(s))
  {
    EntriesAppend(s.queue, None);
    assert EntriesOf(s.queue) + [] == EntriesOf(s.queue);
  }

  lemma TakeKeeps(s: Store)
    requires Good(s)
    ensures Good(Take(s))
  {
    hide Fill, EntriesOf, Handled, IsSuffix;
    FillMoves(s.queue, BATCH_CAP);
    if s.queue != [] {
      EntriesHead(s.queue);
    }
    var f := Fill(s.queue, BATCH_CAP);
    Associates(Handled(s.done), f.taken, EntriesOf(f.rest));
  }

  lemma DrainKeeps(s: Store)
    requires Good(s)
    ensures Good(Drain(s))
  {
    hide EntriesOf, Handled, IsSuffix;
    if s.queue != [] {
      EntriesHead(s.queue);
      Associates(Handled(s.done), EntriesOf(s.queue[..1]), EntriesOf(s.queue[1..]));
    }
  }

  /** Whatever is in hand when an insert ends, or is given up, is disposed of. */
  lemma DisposeKeeps(s: Store, b: Batch, phase: Phase, cancelled: bool)
    requires Good(s) && b.entries == InHand(s.phase) && b.entries != [] && InHand(phase) == [] && !phase.Writing?
    ensures Good(s.(phase := phase, cancelled := cancelled, done := s.done + [b]))
  {
    hide Handled, Written, EntriesOf, IsSuffix;
    HandledAppend(s.done, b);
  }

  lemma InsertedKeeps(s: Store, ok: bool)
    requires Good(s)
    ensures Good(Inserted(s, ok))
  {
    hide Handled, EntriesOf, IsSuffix;
    if InHand(s.phase) != [] {
      DisposeKeeps(s, Batch(InHand(s.phase), ok), Inserted(s, ok).phase, s.cancelled);
    }
  }

  lemma CancelKeeps(s: Store)
    requires Good(s)
    ensures Good(Cancel(s))
  {
    hide Handled, EntriesOf, IsSuffix;
    if InHand(s.phase) != [] {
      DisposeKeeps(s, Batch(InHand(s.phase), false), Cancel(s).phase, true);
    }
  }

  lemma StepKeeps(s: Store, e: Event)
    requires Good(s)
    ensures Good(Step(s, e))
  {
    hide Good, Log, Stop, Take, Inserted, Drain, Cancel;
    match e
    case EvLog(entry) => LogKeeps(s, entry);
    case EvStop => StopKeeps(s);
    case EvTake => TakeKeeps(s);
    case EvDrain => DrainKeeps(s);
    case EvInserted(ok) => InsertedKeeps(s, ok);
    case EvCancel => CancelKeeps(s);
  }

  /**
   * In every reachable state: disposed of, then in hand, then queued is exactly what was logged, in
   * order; inserts take 1 to 100 entries; memory is the latest at least 10001 entries, or all.
   */
  lemma {:induction false} RunKeeps(s: Store, events: seq<Event>)
    requires Good(s)
    ensures Good(Run(s, events))
    decreases |events|
  {
    hide Good, Step;
    if events != [] {
      StepKeeps(s, events[0]);
      RunKeeps(Step(s, events[0]), events[1..]);
    }
  }

  lemma ReachedGood(events: seq<Event>)
    ensures Good(Run(Fresh, events))
  {
    RunKeeps(Fresh, events);
  }

  // ---------------------------------------------------------------
  // What is lost, and when
  // ---------------------------------------------------------------

  /** What reached the database is all that was disposed of exactly when every insert succeeded. */
  lemma {:induction false} WrittenIff(done: seq<Batch>)
    requires forall k :: 0 <= k < |done| ==> done[k].entries != []
    ensures |Written(done)| <= |Handled(done)|
    ensures Written(done) == Handled(done) <==> forall k :: 0 <= k < |done| ==> done[k].stored
  {
    if done != [] {
      var n := |done| - 1;
      WrittenIff(done[..n]);
      assert forall k :: 0 <= k < n ==> done[..n][k] == done[k];
      if done[n].stored {
        var a, b, c := Written(done[..n]), Handled(done[..n]), done[n].entries;
        assert a + c == b + c ==> a == b by {
          if a + c == b + c {
            assert a == (a + c)[..|a|] && b == (b + c)[..|b|];
          }
        }
      }
    }
  }

  /** An insert fails only if the database refuses it or a cancellation interrupts it. */
  lemma FailedOnlyIf(s: Store, e: Event)
    requires |Step(s, e).done| > |s.done|
    ensures
      var b := Step(s, e).done[|s.done|];
      !b.stored <==> e == EvInserted(false) || e.EvCancel?
  {
  }

  /** A second cancellation while the drain is inserting: the only way to leave with entries queued. */
  predicate Abandons(s: Store, e: Event) {
    e.EvCancel? && s.phase.Flushing? && s.cancelled
  }

  /** The writer ends with everything logged disposed of, unless it is abandoned with entries queued. */
  lemma FinishesWithAllIff(s: Store, e: Event)
    requires Good(s) && !s.phase.Finished? && Step(s, e).phase.Finished?
    ensures Handled(Step(s, e).done) == Step(s, e).logged <==> !(Abandons(s, e) && EntriesOf(s.queue) != [])
  {
    hide Handled, IsSuffix, Fill, Remember;
    StepKeeps(s, e);
  }

  /** The writer ends exactly when it finds the queue drained, or is cancelled once more while flushing. */
  lemma FinishesIff(s: Store, e: Event)
    requires !s.phase.Finished?
    ensures Step(s, e).phase.Finished? <==>
            || (e.EvDrain? && s.phase.Draining? && s.queue == [])
            || (e.EvCancel? && s.phase.Flushing? && s.cancelled)
  {
  }

  /** The entries ahead of the first sentinel. */
  predicate Leading(queue: seq<Option<Entry>>, n: nat) {
    n <= |queue| && (forall k :: 0 <= k < n ==> queue[k].Some?) && (n < |queue| ==> queue[n].None?)
  }

  /** A batch takes, in order, all entries ahead of the first sentinel, or the first hundred of them. */
  lemma {:induction false} FillTakes(queue: seq<Option<Entry>>, room: nat, n: nat)
    requires Leading(queue, n)
    ensures
      var f := Fill(queue, room);
      && |f.taken| == Min(n, room) && (forall k :: 0 <= k < |f.taken| ==> queue[k] == Some(f.taken[k]))
      && (f.sentinel <==> n < room && n < |queue|)
      && f.rest == queue[if f.sentinel then n + 1 else |f.taken|..]
  {
    if room > 0 && n > 0 {
      assert Leading(queue[1..], n - 1);
      FillTakes(queue[1..], room - 1, n - 1);
    }
  }

  lemma TakeTakes(s: Store, n: nat)
    requires s.phase.Waiting? && s.queue != [] && Leading(s.queue, n) && n > 0
    ensures
      var s' := Step(s, EvTake);
      && s'.phase.Writing? && |s'.phase.batch| == Min(n, 100)
      && (forall k :: 0 <= k < |s'.phase.batch| ==> s.queue[k] == Some(s'.phase.batch[k]))
      && (s'.phase.stopAfter <==> n < 100 && n < |s.queue|)
  {
    FillTakes(s.queue, 100, n);
  }

  ghost predicate NeverAbandoned(s: Store, events: seq<Event>)
    decreases |events|
  {
    events == [] || (!Abandons(s, events[0]) && NeverAbandoned(Step(s, events[0]), events[1..]))
  }

  lemma {:induction false} FinishedStays(s: Store, events: seq<Event>)
    requires s.phase.Finished?
    ensures Run(s, events).done == s.done && Run(s, events).phase.Finished?
    decreases |events|
  {
    if events != [] {
      FinishedStays(Step(s, events[0]), events[1..]);
    }
  }

  lemma LogGrows(s: Store, e: Event)
    ensures s.logged <= Step(s, e).logged
  {
  }

  /**
   * When the writer that stop() waits for has ended, everything logged up to the call has been
   * disposed of once and in order; with no failed insert it has all been written.
   */
  lemma {:induction false} StopFlushes(s: Store, events: seq<Event>)
    requires Good(s) && !s.phase.Finished? && NeverAbandoned(s, events) && Run(s, events).phase.Finished?
    ensures s.logged <= Handled(Run(s, events).done)
    ensures (forall k :: 0 <= k < |Run(s, events).done| ==> Run(s, events).done[k].stored) ==>
              s.logged <= Written(Run(s, events).done)
    decreases |events|
  {
    var s1 := Step(s, events[0]);
    StepKeeps(s, events[0]);
    LogGrows(s, events[0]);
    if s1.phase.Finished? {
      FinishesWithAllIff(s, events[0]);
      FinishedStays(s1, events[1..]);
    } else {
      StopFlushes(s1, events[1..]);
    }
    RunKeeps(s, events);
    WrittenIff(Run(s, events).done);
  }

  // ---------------------------------------------------------------
  // The store
  // ---------------------------------------------------------------

  class EventStore {
    var events: seq<Entry>
    var queue: seq<Option<Entry>>
    var phase: Phase
    var cancelled: bool
    ghost var done: seq<Batch>
    ghost var logged: seq<Entry>

    ghost function View(): Store
      reads this
    {
      Store(queue, phase, cancelled, events, done, logged)
    }

    constructor ()
      ensures View() == Fresh
    {
      events, queue := [], [];
      phase, cancelled, done, logged := Waiting, false, [], [];
    }

    method LogCallback(e: Entry)
      modifies this
      ensures View() == Log(old(View()), e)
    {
      events := events + [e];
      if |events| > MEMORY_CAP {
        events := events[MEMORY_CUT..];
      }
      queue := queue + [Some(e)];
      logged := logged + [e];
    }

    method RequestStop()
      modifies this
      ensures View() == Stop(old(View()))
    {
      if !phase.Finished? {
        queue := queue + [None];
      }
    }

    /** The writer wakes up with something queued and collects a batch without suspending. */
    method TakeBatch()
      requires phase.Waiting? && queue != []
      modifies this
      ensures View() == Take(old(View()))
    {
      var item := queue[0];
      ghost var f := Fill(queue, BATCH_CAP);
      queue := queue[1..];
      if item.None? {
        phase := Draining;
        return;
      }
      var batch, stopAfter := [item.value], false;
      while |batch| < BATCH_CAP && !stopAfter && queue != []
        invariant 1 <= |batch| <= BATCH_CAP
        invariant phase == old(phase) && cancelled == old(cancelled) && events == old(events)
        invariant done == old(done) && logged == old(logged)
        invariant if stopAfter then f == Filled(batch, queue, true)
                  else f == (var g := Fill(queue, BATCH_CAP - |batch|); g.(taken := batch + g.taken))
        decreases |queue|
      {
        var next := queue[0];
        ghost var g := Fill(queue, BATCH_CAP - |batch|);
        queue := queue[1..];
        if next.None? {
          assert batch + [] == batch;
          stopAfter := true;
        } else {
          Associates(batch, [next.value], Fill(queue, BATCH_CAP - |batch| - 1).taken);
          batch := batch + [next.value];
        }
      }
      assert batch + [] == batch;
      phase := Writing(batch, stopAfter);
    }

    /** The insert in progress returned. */
    method InsertReturned(ok: bool)
      modifies this
      ensures View() == Inserted(old(View()), ok)
    {
      match phase
      case Writing(batch, stopAfter) =>
        done := done + [Batch(batch, ok)];
        phase := if stopAfter then Draining else Waiting;
      case Flushing(entry) =>
        done := done + [Batch([entry], ok)];
        phase := Draining;
      case _ =>
    }

    /** One turn of the drain loop: end on an empty queue, drop a sentinel, or start one insert. */
    method DrainOne()
      requires phase.Draining?
      modifies this
      ensures View() == Drain(old(View()))
    {
      if queue == [] {
        phase := Finished;
        return;
      }
      var remaining := queue[0];
      queue := queue[1..];
      if remaining.Some? {
        phase := Flushing(remaining.value);
      }
    }

    /** Cancellation lands at the await the writer is suspended in. */
    method CancelWriter()
      modifies this
      ensures View() == Cancel(old(View()))
    {
      match phase
      case Waiting =>
        cancelled, phase := true, Draining;
      case Writing(batch, _) =>
        done := done + [Batch(batch, false)];
        cancelled, phase := true, Draining;
      case Flushing(entry) =>
        done := done + [Batch([entry], false)];
        phase := if cancelled then Finished else Draining;
        cancelled := true;
      case _ =>
    }
  }
}
