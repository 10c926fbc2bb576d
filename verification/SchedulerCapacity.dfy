/** The capacity bound of the scheduler is attained: k callers that all pass the unlocked check before
    any of them inserts leave maxEvents + k - 1 events in the queue. */
module SchedulerCapacity {
  import opened EventTime
  import opened EventHeap
  import opened SchedulerRuns

  const ZERO := Timespec(0, 0)

  /** n events, all due at the same time. */
  ghost predicate Uniform(s: State, n: nat) {
    s.numEvents == |s.queue| == n && forall i :: 0 <= i < n ==> s.queue[i].timeout == ZERO
  }

  /** Callers below c are at `low`, the others at `high`. */
  predicate Split(s: State, c: nat, low: CallerPc, high: CallerPc) {
    c <= |s.callers| && forall i :: 0 <= i < |s.callers| ==> s.callers[i] == if i < c then low else high
  }

  lemma {:induction false} RunConcat(s: State, xs: seq<Step>, ys: seq<Step>)
    requires CanRun(s, xs) && CanRun(Run(s, xs), ys)
    ensures CanRun(s, xs + ys) && Run(s, xs + ys) == Run(Run(s, xs), ys)
    decreases |xs|
  {
    if xs == [] {
      assert xs + ys == ys;
    } else {
      RunConcat(Next(s, xs[0]), xs[1..], ys);
      assert (xs + ys)[0] == xs[0] && (xs + ys)[1..] == xs[1..] + ys;
    }
  }

  ghost predicate Reaches(s: State, s': State) {
    exists steps :: CanRun(s, steps) && Run(s, steps) == s'
  }

  lemma ReachesSelf(s: State)
    ensures Reaches(s, s)
  {
    var none: seq<Step> := [];
    assert CanRun(s, none) && Run(s, none) == s;
  }

  lemma ReachesNext(s: State, step: Step)
    requires Enabled(s, step)
    ensures Reaches(s, Next(s, step))
  {
    var none: seq<Step> := [];
    assert [step][1..] == none && CanRun(Next(s, step), none);
    assert CanRun(s, [step]) && Run(s, [step]) == Next(s, step);
  }

  lemma ReachesOn(s: State, s': State, s'': State)
    requires Reaches(s, s') && Reaches(s', s'')
    ensures Reaches(s, s'')
  {
    var xs :| CanRun(s, xs) && Run(s, xs) == s';
    var ys :| CanRun(s', ys) && Run(s', ys) == s'';
    RunConcat(s, xs, ys);
  }

  const PASSED := Passed(0, 0)

  /** Any caller at the check passes it while there is room. */
  lemma PassOne(s: State, n: nat, c: nat)
    requires Uniform(s, n) && n < s.maxEvents && c < |s.callers| && s.callers[c] == Idle
    ensures var s' := Next(s, Check(c, 0, 0)); s' == s.(callers := s.callers[c := PASSED])
  {
  }

  function EventNow(id: int): Event {
    Event(id, 0, ZERO, ZERO, 0)
  }

  lemma DueNow()
    ensures Deadline(ZERO, 0) == ZERO && ClockReading(ZERO)
  {
    DeadlineExact(ZERO, 0);
  }

  lemma TakeOne(s: State, n: nat, c: nat)
    requires Uniform(s, n) && c < |s.callers| && s.callers[c] == PASSED
    ensures Enabled(s, TakeId(c, ZERO))
    ensures var s' := Next(s, TakeId(c, ZERO));
            && Uniform(s', n) && s'.maxEvents == s.maxEvents
            && s'.callers == s.callers[c := Holding(EventNow(s.nextId))]
  {
    DueNow();
  }

  lemma InsertOne(s: State, n: nat, c: nat, e: Event)
    requires Uniform(s, n) && c < |s.callers| && s.callers[c] == Holding(e) && e.timeout == ZERO
    ensures var step := Insert(c, s.queue + [e]);
            && Enabled(s, step) && Uniform(Next(s, step), n + 1)
            && Next(s, step).maxEvents == s.maxEvents && Next(s, step).callers == s.callers[c := Idle]
  {
    var q := s.queue + [e];
    assert IsHeap(q) by {
      forall i: nat {:trigger Parent(i)} | 0 < i < |q| ensures !EventLater(q[Parent(i)], q[i]) {
        assert q[i].timeout == ZERO && q[Parent(i)].timeout == ZERO;
      }
    }
  }

  /** A caller that has passed the check takes its id and inserts its event. */
  lemma FinishOne(s: State, n: nat, c: nat) returns (s2: State)
    requires Uniform(s, n) && c < |s.callers| && s.callers[c] == PASSED
    ensures Reaches(s, s2) && Uniform(s2, n + 1) && s2.maxEvents == s.maxEvents && s2.callers == s.callers[c := Idle]
  {
    var e := EventNow(s.nextId);
    var s1 := FinishTake(s, n, c);
    s2 := FinishInsert(s1, n, c, e);
    ReachesOn(s, s1, s2);
    assert s.callers[c := Holding(e)][c := Idle] == s.callers[c := Idle];
  }

  lemma FinishTake(s: State, n: nat, c: nat) returns (s': State)
    requires Uniform(s, n) && c < |s.callers| && s.callers[c] == PASSED
    ensures Reaches(s, s') && Uniform(s', n) && s'.maxEvents == s.maxEvents
    ensures s'.callers == s.callers[c := Holding(EventNow(s.nextId))]
  {
    TakeOne(s, n, c);
    ReachesNext(s, TakeId(c, ZERO));
    s' := Next(s, TakeId(c, ZERO));
  }

  lemma FinishInsert(s: State, n: nat, c: nat, e: Event) returns (s': State)
    requires Uniform(s, n) && c < |s.callers| && s.callers[c] == Holding(e) && e.timeout == ZERO
    ensures Reaches(s, s') && Uniform(s', n + 1) && s'.maxEvents == s.maxEvents && s'.callers == s.callers[c := Idle]
  {
    InsertOne(s, n, c, e);
    ReachesNext(s, Insert(c, s.queue + [e]));
    s' := Next(s, Insert(c, s.queue + [e]));
  }

  /** One caller after the other passes the check. */
  lemma {:induction false} PassAll(s: State, n: nat, c: nat) returns (s': State)
    requires Uniform(s, n) && n < s.maxEvents && Split(s, c, PASSED, Idle)
    ensures Reaches(s, s') && Uniform(s', n) && s'.maxEvents == s.maxEvents
    ensures |s'.callers| == |s.callers| && Split(s', |s.callers|, PASSED, Idle)
    decreases |s.callers| - c
  {
    if c == |s.callers| {
      ReachesSelf(s);
      s' := s;
    } else {
      PassOne(s, n, c);
      var s1 := Next(s, Check(c, 0, 0));
      ReachesNext(s, Check(c, 0, 0));
      s' := PassAll(s1, n, c + 1);
      ReachesOn(s, s1, s');
    }
  }

  /** One caller after the other inserts. */
  lemma {:induction false} FinishAll(s: State, n: nat, c: nat) returns (s': State)
    requires Uniform(s, n) && Split(s, c, Idle, PASSED)
    ensures Reaches(s, s') && s'.numEvents == n + |s.callers| - c
    decreases |s.callers| - c
  {
    if c == |s.callers| {
      ReachesSelf(s);
      s' := s;
    } else {
      var s1 := FinishOne(s, n, c);
      s' := FinishAll(s1, n + 1, c + 1);
      ReachesOn(s, s1, s');
    }
  }

  /** The first caller alone adds an event. */
  lemma ScheduleOne(s: State, n: nat) returns (s': State)
    requires Uniform(s, n) && n < s.maxEvents && s.callers != [] && s.callers[0] == Idle
    ensures Reaches(s, s') && Uniform(s', n + 1) && s'.maxEvents == s.maxEvents && s'.callers == s.callers
  {
    PassOne(s, n, 0);
    var s1 := Next(s, Check(0, 0, 0));
    ReachesNext(s, Check(0, 0, 0));
    s' := FinishOne(s1, n, 0);
    ReachesOn(s, s1, s');
  }

  /** It fills the queue up to one below the limit. */
  lemma {:induction false} FillUp(s: State, n: nat) returns (s': State)
    requires Uniform(s, n) && n < s.maxEvents && s.callers != [] && s.callers[0] == Idle
    ensures Reaches(s, s') && Uniform(s', s.maxEvents - 1) && s'.maxEvents == s.maxEvents && s'.callers == s.callers
    decreases s.maxEvents - n
  {
    if n == s.maxEvents - 1 {
      ReachesSelf(s);
      s' := s;
    } else {
      var s1 := ScheduleOne(s, n);
      s' := FillUp(s1, n + 1);
      ReachesOn(s, s1, s');
    }
  }

  /** For every positive limit and every number of callers there is a run that reaches the bound. */
  lemma BoundAttained(maxEvents: nat, callers: nat) returns (s: State)
    requires maxEvents > 0 && callers > 0
    ensures Reaches(Initial(maxEvents, callers), s) && s.numEvents == maxEvents + callers - 1
  {
    var s0 := Initial(maxEvents, callers);
    var s1 := FillUp(s0, 0);
    var s2 := PassAll(s1, maxEvents - 1, 0);
    s := FinishAll(s2, maxEvents - 1, 0);
    ReachesOn(s0, s1, s2);
    ReachesOn(s0, s2, s);
  }

  /** Nothing is queued and nobody is past the check, which nobody can pass. */
  ghost predicate NothingIn(s: State) {
    s.numEvents <= 0 && (s.maxEvents == 0 || s.callers == []) && forall c :: 0 <= c < |s.callers| ==> s.callers[c] == Idle
  }

  lemma {:induction false} NothingComesIn(s: State, steps: seq<Step>)
    requires Inv(s) && NothingIn(s) && CanRun(s, steps)
    ensures NothingIn(Run(s, steps))
    decreases |steps|
  {
    if steps != [] {
      NextInv(s, steps[0]);
      NothingComesIn(Next(s, steps[0]), steps[1..]);
    }
  }

  /** Exactly when `maxEvents` is a limit: for at most one caller, or when it is 0. */
  lemma LimitHoldsIff(maxEvents: nat, callers: nat)
    ensures (forall steps :: CanRun(Initial(maxEvents, callers), steps)
                             ==> Run(Initial(maxEvents, callers), steps).numEvents <= maxEvents)
            <==> maxEvents == 0 || callers <= 1
  {
    var s0 := Initial(maxEvents, callers);
    if maxEvents == 0 || callers == 0 {
      forall steps | CanRun(s0, steps) ensures Run(s0, steps).numEvents <= maxEvents {
        InitialInv(maxEvents, callers);
        NothingComesIn(s0, steps);
      }
    } else if callers == 1 {
      forall steps | CanRun(s0, steps) ensures Run(s0, steps).numEvents <= maxEvents {
        Capacity(maxEvents, callers, steps);
      }
    } else {
      var s := BoundAttained(maxEvents, callers);
      var steps :| CanRun(s0, steps) && Run(s0, steps) == s;
      assert Run(s0, steps).numEvents > maxEvents;
    }
  }
}
