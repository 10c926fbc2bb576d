/** All interleavings of the event scheduler's threads: any number of callers of eventSchedule, callers
    of eventCancel, the dispatcher, and the destructor.  A critical section is one step; what is done
    outside the lock - the capacity check, taking an id, the loop test, dispatching to the pool - is a
    step of its own. */
module SchedulerRuns {
  import opened EventTime
  import opened EventHeap
  import opened Scheduler
  import opened Sums

  datatype CallerPc =
    | Idle
    | Passed(job: nat, delay: int32)  // has seen numEvents < maxEvents
    | Holding(event: Event)           // has taken an id and built the event

  datatype DispatcherPc =
    | AtTest          // about to test the loop condition, without the lock
    | Entering        // about to take the lock
    | Waiting         // in wait_for
    | Handing(event: Event)  // has released the lock, about to dispatch to the pool
    | Finished

  /** `made`, `dispatched` with the clock `readings`, and `cancelled` are logs. */
  datatype State = State(
    maxEvents: nat, nextId: int, queue: seq<Event>, numEvents: int, terminate: bool,
    callers: seq<CallerPc>, dispatcher: DispatcherPc,
    made: seq<Event>, dispatched: seq<Event>, readings: seq<Timespec>, cancelled: seq<Event>)

  /** `queue` is the heap a critical section leaves behind. */
  datatype Step =
    | Check(caller: nat, job: nat, delay: int32)
    | TakeId(caller: nat, now: Timespec)
    | Insert(caller: nat, queue: seq<Event>)
    | Cancel(id: int, queue: seq<Event>)
    | Test
    | Enter(now: Timespec, round: Round, queue: seq<Event>)
    | Wake
    | HandOver
    | Terminate

  ghost predicate Enabled(s: State, step: Step) {
    match step
    case Check(c, _, _) => c < |s.callers| && s.callers[c] == Idle
    case TakeId(c, now) => c < |s.callers| && s.callers[c].Passed? && ClockReading(now)
    case Insert(c, q) =>
      c < |s.callers| && s.callers[c].Holding?
      && Inserted(s.queue, s.numEvents, q, s.numEvents + 1, s.callers[c].event)
    case Cancel(id, q) =>
      var i := FirstWith(s.queue, id);
      if i < |s.queue| then Removed(s.queue, s.numEvents, q, s.numEvents - 1, s.queue[i]) else q == s.queue
    case Test => s.dispatcher == AtTest
    case Enter(now, round, q) =>
      s.dispatcher == Entering && ClockReading(now)
      && RoundOk(s.queue, s.numEvents, q, s.numEvents - (if round.Fire? then 1 else 0), now, round)
    case Wake => s.dispatcher == Waiting
    case HandOver => s.dispatcher.Handing?
    case Terminate => true
  }

  ghost function Next(s: State, step: Step): State
    requires Enabled(s, step)
  {
    match step
    case Check(c, job, delay) =>
      s.(callers := s.callers[c := if s.numEvents < s.maxEvents then Passed(job, delay) else Idle])
    case TakeId(c, now) =>
      var Passed(job, delay) := s.callers[c];
      var e := Event(s.nextId, job, Deadline(now, delay), now, delay);
      s.(callers := s.callers[c := Holding(e)], nextId := s.nextId + 1, made := s.made + [e])
    case Insert(c, q) => s.(callers := s.callers[c := Idle], queue := q, numEvents := s.numEvents + 1)
    case Cancel(id, q) =>
      var i := FirstWith(s.queue, id);
      if i < |s.queue| then
        s.(queue := q, numEvents := s.numEvents - 1, cancelled := s.cancelled + [s.queue[i]])
      else s
    case Test => s.(dispatcher := if !s.terminate || s.numEvents > 0 then Entering else Finished)
    case Enter(now, round, q) =>
      match round {
        case Wait => s.(dispatcher := Waiting, queue := q)
        case Fire(e) =>
          s.(dispatcher := Handing(e), queue := q, numEvents := s.numEvents - 1, readings := s.readings + [now])
      }
    case Wake => s.(dispatcher := AtTest)
    case HandOver => s.(dispatcher := AtTest, dispatched := s.dispatched + [s.dispatcher.event])
    case Terminate => s.(terminate := true)
  }

  function Initial(maxEvents: nat, callers: nat): State {
    State(maxEvents, 0, [], 0, false, seq(callers, _ => Idle), AtTest, [], [], [], [])
  }

  ghost predicate CanRun(s: State, steps: seq<Step>)
    decreases |steps|
  {
    steps == [] || (Enabled(s, steps[0]) && CanRun(Next(s, steps[0]), steps[1..]))
  }

  ghost function Run(s: State, steps: seq<Step>): State
    requires CanRun(s, steps)
    decreases |steps|
  {
    if steps == [] then s else Run(Next(s, steps[0]), steps[1..])
  }

  // ---------- The invariant ----------

  function BuiltBy(pc: CallerPc, e: Event): nat {
    if pc == Holding(e) then 1 else 0
  }

  /** How often an event is in the hands of callers, built and not yet queued. */
  function Built(callers: seq<CallerPc>, e: Event): nat {
    if callers == [] then 0 else Built(callers[..|callers| - 1], e) + BuiltBy(callers[|callers| - 1], e)
  }

  lemma {:induction false} BuiltUpdate(callers: seq<CallerPc>, c: nat, pc: CallerPc, e: Event)
    requires c < |callers|
    ensures Built(callers[c := pc], e) == Built(callers, e) - BuiltBy(callers[c], e) + BuiltBy(pc, e)
  {
    var n := |callers| - 1;
    if c < n {
      BuiltUpdate(callers[..n], c, pc, e);
      assert callers[c := pc][..n] == callers[..n][c := pc];
    } else {
      assert callers[c := pc][..n] == callers[..n];
    }
  }

  /** Fired events: those dispatched, and the one on its way to the pool. */
  function FiredEvents(s: State): seq<Event> {
    s.dispatched + if s.dispatcher.Handing? then [s.dispatcher.event] else []
  }

  /** How often an event is somewhere: built, queued, fired or cancelled. */
  function Places(s: State, e: Event): nat {
    Built(s.callers, e) + multiset(s.queue)[e] + multiset(FiredEvents(s))[e] + multiset(s.cancelled)[e]
  }

  /** The event was built by the constructor at a reading of the clock. */
  predicate WellMade(e: Event) {
    ClockReading(e.madeAt) && e.timeout == Deadline(e.madeAt, e.delay)
  }

  ghost predicate TimesOk(s: State) {
    && s.nextId == |s.made|
    && (forall i :: 0 <= i < |s.made| ==> s.made[i].id == i && WellMade(s.made[i]))
    && |s.readings| == |FiredEvents(s)|
    && (forall i :: 0 <= i < |s.readings| ==> Nanos(s.readings[i]) >= Nanos(FiredEvents(s)[i].timeout))
  }

  ghost predicate Inv(s: State) {
    && IsHeap(s.queue) && s.numEvents == |s.queue|
    && TimesOk(s)
    && (forall e :: Places(s, e) == multiset(s.made)[e])
  }

  lemma InitialInv(maxEvents: nat, callers: nat)
    ensures Inv(Initial(maxEvents, callers))
  {
    forall e ensures Places(Initial(maxEvents, callers), e) == 0 {
      NothingBuilt(seq(callers, _ => Idle), e);
    }
  }

  lemma {:induction false} NothingBuilt(callers: seq<CallerPc>, e: Event)
    requires forall c :: 0 <= c < |callers| ==> !callers[c].Holding?
    ensures Built(callers, e) == 0
  {
    if callers != [] {
      NothingBuilt(callers[..|callers| - 1], e);
    }
  }

  // Each kind of step moves one event, seen event by event.

  lemma TakeIdPlaces(s: State, c: nat, now: Timespec, e: Event)
    requires Enabled(s, TakeId(c, now)) && Places(s, e) == multiset(s.made)[e]
    ensures var s' := Next(s, TakeId(c, now)); Places(s', e) == multiset(s'.made)[e]
  {
    BuiltUpdate(s.callers, c, Next(s, TakeId(c, now)).callers[c], e);
  }

  lemma InsertPlaces(s: State, c: nat, q: seq<Event>, e: Event)
    requires Enabled(s, Insert(c, q))
    ensures Places(Next(s, Insert(c, q)), e) == Places(s, e)
  {
    BuiltUpdate(s.callers, c, Idle, e);
  }

  lemma CheckPlaces(s: State, c: nat, job: nat, delay: int32, e: Event)
    requires Enabled(s, Check(c, job, delay))
    ensures Places(Next(s, Check(c, job, delay)), e) == Places(s, e)
  {
    BuiltUpdate(s.callers, c, Next(s, Check(c, job, delay)).callers[c], e);
  }

  lemma CancelPlaces(s: State, id: int, q: seq<Event>, e: Event)
    requires Enabled(s, Cancel(id, q))
    ensures Places(Next(s, Cancel(id, q)), e) == Places(s, e)
  {
  }

  lemma EnterPlaces(s: State, now: Timespec, round: Round, q: seq<Event>, e: Event)
    requires Enabled(s, Enter(now, round, q))
    ensures Places(Next(s, Enter(now, round, q)), e) == Places(s, e)
  {
    var s' := Next(s, Enter(now, round, q));
    assert FiredEvents(s') == FiredEvents(s) + if round.Fire? then [round.event] else [];
  }

  lemma LoopPlaces(s: State, step: Step, e: Event)
    requires Enabled(s, step) && (step.Test? || step.Wake? || step.HandOver? || step.Terminate?)
    ensures Places(Next(s, step), e) == Places(s, e)
  {
    assert FiredEvents(Next(s, step)) == FiredEvents(s);
  }

  lemma NextPlaces(s: State, step: Step, e: Event)
    requires Enabled(s, step) && Places(s, e) == multiset(s.made)[e]
    ensures Places(Next(s, step), e) == multiset(Next(s, step).made)[e]
  {
    match step
    case Check(c, job, delay) => CheckPlaces(s, c, job, delay, e);
    case TakeId(c, now) => TakeIdPlaces(s, c, now, e);
    case Insert(c, q) => InsertPlaces(s, c, q, e);
    case Enter(now, round, q) => EnterPlaces(s, now, round, q, e);
    case Cancel(id, q) => CancelPlaces(s, id, q, e);
    case _ => LoopPlaces(s, step, e);
  }

  lemma EnterHeap(s: State, now: Timespec, round: Round, q: seq<Event>)
    requires Enabled(s, Enter(now, round, q)) && IsHeap(s.queue) && s.numEvents == |s.queue|
    ensures IsHeap(q) && |q| == |s.queue| - if round.Fire? then 1 else 0
  {
    if s.queue != [] {
      SameSize(if round.Fire? then q + [round.event] else q, s.queue);
    }
  }

  lemma CancelHeap(s: State, id: int, q: seq<Event>)
    requires Enabled(s, Cancel(id, q)) && IsHeap(s.queue) && s.numEvents == |s.queue|
    ensures IsHeap(q) && |q| == |s.queue| - if FirstWith(s.queue, id) < |s.queue| then 1 else 0
  {
    var i := FirstWith(s.queue, id);
    if i < |s.queue| {
      SameSize(q + [s.queue[i]], s.queue);
    }
  }

  /** The heap and its count. */
  lemma NextHeap(s: State, step: Step)
    requires Enabled(s, step) && IsHeap(s.queue) && s.numEvents == |s.queue|
    ensures IsHeap(Next(s, step).queue) && Next(s, step).numEvents == |Next(s, step).queue|
  {
    match step
    case Insert(c, q) => SameSize(q, s.queue + [s.callers[c].event]);
    case Enter(now, round, q) => EnterHeap(s, now, round, q);
    case Cancel(id, q) => CancelHeap(s, id, q);
    case _ =>
  }

  lemma NextTimes(s: State, step: Step)
    requires Inv(s) && Enabled(s, step)
    ensures TimesOk(Next(s, step))
  {
    var s' := Next(s, step);
    if step.Enter? {
      assert FiredEvents(s') == FiredEvents(s) + if step.round.Fire? then [step.round.event] else [];
      if step.round.Fire? {
        DifferenceExact(step.now, s.queue[0].timeout);
      }
    } else {
      assert FiredEvents(s') == FiredEvents(s);
    }
  }

  /** Heap, count, partition and times, kept by every step of every thread. */
  lemma NextInv(s: State, step: Step)
    requires Inv(s) && Enabled(s, step)
    ensures Inv(Next(s, step))
  {
    NextHeap(s, step);
    NextTimes(s, step);
    forall e ensures Places(Next(s, step), e) == multiset(Next(s, step).made)[e] {
      NextPlaces(s, step, e);
    }
  }

  lemma {:induction false} RunInv(s: State, steps: seq<Step>)
    requires Inv(s) && CanRun(s, steps)
    ensures Inv(Run(s, steps))
    decreases |steps|
  {
    if steps != [] {
      NextInv(s, steps[0]);
      RunInv(Next(s, steps[0]), steps[1..]);
    }
  }

  // ---------- What follows ----------

  lemma {:induction false} DistinctOnce(made: seq<Event>, i: nat)
    requires forall j :: 0 <= j < |made| ==> made[j].id == j
    requires i < |made|
    ensures multiset(made)[made[i]] == 1
    decreases |made|
  {
    var n := |made| - 1;
    assert made == made[..n] + [made[n]];
    if i < n {
      DistinctOnce(made[..n], i);
      assert made[..n][i] == made[i];
    } else {
      assert made[n] !in made[..n];
    }
  }

  lemma ReachableInv(maxEvents: nat, callers: nat, steps: seq<Step>)
    requires CanRun(Initial(maxEvents, callers), steps)
    ensures Inv(Run(Initial(maxEvents, callers), steps))
  {
    InitialInv(maxEvents, callers);
    RunInv(Initial(maxEvents, callers), steps);
  }

  /** Every id ever given out belongs to one event, which is in exactly one place, exactly once, in every
      state of every run. */
  lemma ExactlyOnePlace(maxEvents: nat, callers: nat, steps: seq<Step>, id: nat)
    requires CanRun(Initial(maxEvents, callers), steps) && id < Run(Initial(maxEvents, callers), steps).nextId
    ensures var s := Run(Initial(maxEvents, callers), steps);
            && |s.made| == s.nextId && s.made[id].id == id
            && var e := s.made[id];
               Built(s.callers, e) + multiset(s.queue)[e] + multiset(FiredEvents(s))[e] + multiset(s.cancelled)[e] == 1
  {
    var s := Run(Initial(maxEvents, callers), steps);
    ReachableInv(maxEvents, callers, steps);
    DistinctOnce(s.made, id);
    assert Places(s, s.made[id]) == 1;
  }

  /** Nothing else is anywhere: whatever is queued, fired or cancelled was given out under its id. */
  lemma NothingElse(s: State, e: Event)
    requires Inv(s) && (e in s.queue || e in FiredEvents(s) || e in s.cancelled)
    ensures 0 <= e.id < s.nextId && s.made[e.id] == e
  {
    assert e in multiset(s.queue) || e in multiset(FiredEvents(s)) || e in multiset(s.cancelled);
    assert Places(s, e) > 0;
    assert e in multiset(s.made);
    var i :| 0 <= i < |s.made| && s.made[i] == e;
  }

  /** Never early: when an event was fired the clock had reached the time it was scheduled at plus its
      timeout in milliseconds, for negative timeouts too. */
  lemma NeverEarly(maxEvents: nat, callers: nat, steps: seq<Step>, i: nat)
    requires CanRun(Initial(maxEvents, callers), steps)
    requires i < |FiredEvents(Run(Initial(maxEvents, callers), steps))|
    ensures var s := Run(Initial(maxEvents, callers), steps);
            && |s.readings| == |FiredEvents(s)|
            && var e := FiredEvents(s)[i];
               Nanos(s.readings[i]) >= Nanos(e.madeAt) + e.delay * 1_000_000
  {
    var s := Run(Initial(maxEvents, callers), steps);
    ReachableInv(maxEvents, callers, steps);
    var e := FiredEvents(s)[i];
    NothingElse(s, e);
    DeadlineExact(e.madeAt, e.delay);
  }

  /** The event the dispatcher fires is not put later by the comparator than one it leaves behind. */
  lemma FiresFirst(s: State, now: Timespec, e: Event, q: seq<Event>, x: Event)
    requires Inv(s) && Enabled(s, Enter(now, Fire(e), q)) && x in q
    ensures !Later(e.timeout, x.timeout) && WellMade(e) && WellMade(x)
  {
    assert x in multiset(s.queue) && e in multiset(s.queue);
    NothingElse(s, x);
    NothingElse(s, e);
    var i :| 0 <= i < |s.queue| && s.queue[i] == x;
    FrontIsEarliest(s.queue, i);
  }

  /** In every run: the event the dispatcher fires is due later than an event it leaves in the queue
      exactly when their deadlines are inverted, that is, when the other has one second more and over
      10^9 nanoseconds less (or, with a negative timeout, two seconds more and over 2 * 10^9 less).
      It is then due at most 998,999,999 ns later, 1,997,999,999 ns if that timeout is negative. */
  lemma FiresNearlyEarliest(maxEvents: nat, callers: nat, steps: seq<Step>, now: Timespec, e: Event, q: seq<Event>, x: Event)
    requires CanRun(Initial(maxEvents, callers), steps)
    requires Enabled(Run(Initial(maxEvents, callers), steps), Enter(now, Fire(e), q)) && x in q
    ensures Nanos(e.timeout) > Nanos(x.timeout) <==> Inverted(e.timeout, x.timeout)
    ensures x.delay >= 0 ==>
              (Inverted(e.timeout, x.timeout) <==>
               x.timeout.sec == e.timeout.sec + 1 && e.timeout.nsec - x.timeout.nsec > BILLION)
    ensures Nanos(e.timeout) - Nanos(x.timeout) <= if x.delay >= 0 then 998_999_999 else 1_997_999_999
    ensures ClockReading(e.timeout) && ClockReading(x.timeout) ==> Nanos(e.timeout) <= Nanos(x.timeout)
  {
    ReachableInv(maxEvents, callers, steps);
    FiresFirst(Run(Initial(maxEvents, callers), steps), now, e, q, x);
    DeadlineRange(x.madeAt, x.delay);
    DeadlineRange(e.madeAt, e.delay);
    InversionExact(e.timeout, x.timeout);
    InversionBound(e.timeout, x.timeout, if x.delay >= 0 then 0 else -999_000_000, 1_998_999_999);
    if ClockReading(e.timeout) && ClockReading(x.timeout) {
      NormalisedExact(e.timeout, x.timeout);
    }
  }

  /** The dispatcher leaves its loop only after `terminate`, and only when nothing is queued. */
  lemma LeavesEmpty(s: State)
    requires Inv(s) && Enabled(s, Test) && Next(s, Test).dispatcher == Finished
    ensures s.terminate && s.queue == []
  {
  }

  ghost predicate NoScheduling(steps: seq<Step>) {
    forall i :: 0 <= i < |steps| ==> !steps[i].Check?
  }

  ghost predicate AllQuiet(s: State) {
    s.dispatcher == Finished && s.queue == [] && forall c :: 0 <= c < |s.callers| ==> s.callers[c] == Idle
  }

  lemma QuietKept(s: State, step: Step)
    requires AllQuiet(s) && Enabled(s, step) && !step.Check?
    ensures AllQuiet(Next(s, step))
  {
  }

  /** If no caller is under way when it leaves and none comes later, every event ever made has been
      dispatched or cancelled, for good. */
  lemma {:induction false} AllDone(s: State, steps: seq<Step>)
    requires Inv(s) && CanRun(s, steps) && NoScheduling(steps) && AllQuiet(s)
    ensures var s' := Run(s, steps);
            AllQuiet(s') && multiset(s'.dispatched) + multiset(s'.cancelled) == multiset(s'.made)
    decreases |steps|
  {
    if steps == [] {
      assert FiredEvents(s) == s.dispatched;
      forall e ensures multiset(s.dispatched)[e] + multiset(s.cancelled)[e] == multiset(s.made)[e] {
        NothingBuilt(s.callers, e);
        assert Places(s, e) == multiset(s.made)[e];
      }
    } else {
      NextInv(s, steps[0]);
      QuietKept(s, steps[0]);
      AllDone(Next(s, steps[0]), steps[1..]);
    }
  }

  // ---------- Capacity ----------

  function UnderWay(c: nat, pc: CallerPc): nat {
    if pc == Idle then 0 else 1
  }

  /** Callers between the check and the insertion. */
  function Pending(s: State): nat {
    Sum(Weigh(s.callers, UnderWay))
  }

  ghost predicate CapacityInv(s: State) {
    |s.callers| > 0 ==> s.numEvents + Pending(s) <= s.maxEvents + |s.callers| - 1
  }

  lemma {:induction false} PendingBelow(callers: seq<CallerPc>, c: nat)
    requires c < |callers| && callers[c] == Idle
    ensures Sum(Weigh(callers, UnderWay)) < |callers|
  {
    var n := |callers| - 1;
    assert Weigh(callers, UnderWay)[..n] == Weigh(callers[..n], UnderWay);
    assert UnderWay(n, callers[n]) <= 1;
    if c < n {
      PendingBelow(callers[..n], c);
    } else {
      PendingAtMost(callers[..n]);
    }
  }

  lemma {:induction false} PendingAtMost(callers: seq<CallerPc>)
    ensures Sum(Weigh(callers, UnderWay)) <= |callers|
  {
    if callers != [] {
      var n := |callers| - 1;
      assert Weigh(callers, UnderWay)[..n] == Weigh(callers[..n], UnderWay);
      assert UnderWay(n, callers[n]) <= 1;
      PendingAtMost(callers[..n]);
    }
  }

  lemma NextCapacity(s: State, step: Step)
    requires CapacityInv(s) && Enabled(s, step)
    ensures CapacityInv(Next(s, step))
  {
    if step.Check? || step.TakeId? || step.Insert? {
      WeighUpdate(s.callers, UnderWay, step.caller, Next(s, step).callers[step.caller]);
      if step.Check? {
        PendingBelow(s.callers, step.caller);
      }
    }
  }

  lemma {:induction false} RunCapacity(s: State, steps: seq<Step>)
    requires CapacityInv(s) && CanRun(s, steps)
    ensures CapacityInv(Run(s, steps)) && |Run(s, steps).callers| == |s.callers| && Run(s, steps).maxEvents == s.maxEvents
    decreases |steps|
  {
    if steps != [] {
      NextCapacity(s, steps[0]);
      RunCapacity(Next(s, steps[0]), steps[1..]);
    }
  }

  lemma InitialCapacity(maxEvents: nat, callers: nat)
    ensures CapacityInv(Initial(maxEvents, callers))
  {
    var pcs := Initial(maxEvents, callers).callers;
    forall c | 0 <= c < |pcs| ensures Weigh(pcs, UnderWay)[c] == 0 {
      assert UnderWay(c, pcs[c]) == 0;
    }
    SumZero(Weigh(pcs, UnderWay));
  }

  /** The check is made without the lock, so k callers can overshoot `maxEvents` by k - 1, but by no
      more; a single caller never overshoots. */
  lemma Capacity(maxEvents: nat, callers: nat, steps: seq<Step>)
    requires callers > 0 && CanRun(Initial(maxEvents, callers), steps)
    ensures Run(Initial(maxEvents, callers), steps).numEvents <= maxEvents + callers - 1
  {
    InitialCapacity(maxEvents, callers);
    RunCapacity(Initial(maxEvents, callers), steps);
  }
}
