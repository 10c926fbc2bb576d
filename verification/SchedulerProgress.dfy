/** What the dispatcher and the callers of the scheduler do get done: the dispatcher leaves its loop only
    when it may, fires exactly what is due, and as soon as the clock has passed every deadline it
    empties the queue. */
module SchedulerProgress {
  import opened EventTime
  import opened EventHeap
  import opened Scheduler
  import opened SchedulerRuns

  // ---------- Leaving the loop ----------

  ghost predicate Stays(s: State) {
    s.dispatcher == Finished ==> s.terminate
  }

  lemma {:induction false} RunStays(s: State, steps: seq<Step>)
    requires Stays(s) && CanRun(s, steps)
    ensures Stays(Run(s, steps))
    decreases |steps|
  {
    if steps != [] {
      RunStays(Next(s, steps[0]), steps[1..]);
    }
  }

  /** In every run: the dispatcher has left its loop only if the destructor has run. */
  lemma FinishedTerminated(maxEvents: nat, callers: nat, steps: seq<Step>)
    requires CanRun(Initial(maxEvents, callers), steps)
    ensures Run(Initial(maxEvents, callers), steps).dispatcher == Finished ==> Run(Initial(maxEvents, callers), steps).terminate
  {
    RunStays(Initial(maxEvents, callers), steps);
  }

  /** The scheduler is left alone: nobody is scheduling, and if the dispatcher has left, nothing is queued. */
  ghost predicate LeftAlone(s: State) {
    (s.dispatcher == Finished ==> s.queue == []) && forall c :: 0 <= c < |s.callers| ==> s.callers[c] == Idle
  }

  lemma {:induction false} RunLeftAlone(s: State, steps: seq<Step>)
    requires Inv(s) && LeftAlone(s) && CanRun(s, steps) && NoScheduling(steps)
    ensures LeftAlone(Run(s, steps)) && Inv(Run(s, steps))
    decreases |steps|
  {
    if steps != [] {
      NextInv(s, steps[0]);
      RunLeftAlone(Next(s, steps[0]), steps[1..]);
    }
  }

  /** In every run: if no caller is under way when the destructor sets `terminate`, and none comes later, the
      dispatcher leaves its loop only with nothing queued. */
  lemma FinishedEmpty(maxEvents: nat, callers: nat, before: seq<Step>, after: seq<Step>)
    requires CanRun(Initial(maxEvents, callers), before)
    requires var s := Run(Initial(maxEvents, callers), before);
             && !s.terminate && (forall c :: 0 <= c < |s.callers| ==> s.callers[c] == Idle)
             && CanRun(Next(s, Terminate), after) && NoScheduling(after)
    ensures var s' := Run(Next(Run(Initial(maxEvents, callers), before), Terminate), after);
            s'.terminate && (s'.dispatcher == Finished ==> s'.queue == [])
  {
    var s := Run(Initial(maxEvents, callers), before);
    ReachableInv(maxEvents, callers, before);
    FinishedTerminated(maxEvents, callers, before);
    NextInv(s, Terminate);
    RunLeftAlone(Next(s, Terminate), after);
    TerminateStays(Next(s, Terminate), after);
  }

  lemma {:induction false} TerminateStays(s: State, steps: seq<Step>)
    requires s.terminate && CanRun(s, steps)
    ensures Run(s, steps).terminate
    decreases |steps|
  {
    if steps != [] {
      TerminateStays(Next(s, steps[0]), steps[1..]);
    }
  }

  // ---------- What a round does ----------

  /** The dispatcher fires the front of the queue exactly when the clock has reached its deadline. */
  lemma FiresIffDue(s: State, now: Timespec, round: Round, q: seq<Event>)
    requires Enabled(s, Enter(now, round, q))
    ensures round.Fire? <==> s.queue != [] && Nanos(now) >= Nanos(s.queue[0].timeout)
    ensures round.Fire? ==> round.event == s.queue[0]
  {
    if s.queue != [] {
      DifferenceExact(now, s.queue[0].timeout);
    }
  }

  predicate DispatcherStep(step: Step) {
    step.Test? || step.Enter? || step.Wake? || step.HandOver?
  }

  /** A step of the dispatcher's in which the clock, if it is read, shows `late`. */
  predicate StepAt(step: Step, late: Timespec) {
    DispatcherStep(step) && (step.Enter? ==> step.now == late)
  }

  predicate StepsAt(steps: seq<Step>, late: Timespec) {
    forall i :: 0 <= i < |steps| ==> StepAt(steps[i], late)
  }

  /** The clock has passed every deadline. */
  ghost predicate AllDue(s: State, late: Timespec) {
    ClockReading(late) && forall e :: e in s.queue ==> Nanos(e.timeout) <= Nanos(late)
  }

  /** The dispatcher is never blocked but by having left its loop. */
  lemma DispatcherCanStep(s: State, late: Timespec) returns (step: Step)
    requires ClockReading(late) && s.dispatcher != Finished && IsHeap(s.queue)
    ensures Enabled(s, step) && StepAt(step, late)
  {
    match s.dispatcher
    case AtTest => step := Test;
    case Waiting => step := Wake;
    case Handing(_) => step := HandOver;
    case Entering =>
      if s.queue == [] {
        step := Enter(late, Wait, []);
      } else if DifferenceNsec(late, s.queue[0].timeout) < 0 {
        step := Enter(late, Wait, s.queue);
      } else {
        var rest := HeapOf(s.queue[1..]);
        assert s.queue == [s.queue[0]] + s.queue[1..];
        step := Enter(late, Fire(s.queue[0]), rest);
      }
  }

  /** The dispatcher's steps touch neither callers nor what was cancelled, and keep fired and queued events
      together. */
  lemma StepKeeps(s: State, step: Step)
    requires Enabled(s, step) && DispatcherStep(step)
    ensures var s' := Next(s, step);
            && multiset(FiredEvents(s')) + multiset(s'.queue) == multiset(FiredEvents(s)) + multiset(s.queue)
            && s'.callers == s.callers && s'.cancelled == s.cancelled && s'.terminate == s.terminate && s'.made == s.made
  {
    if step.Enter? {
      assert FiredEvents(Next(s, step)) == FiredEvents(s) + if step.round.Fire? then [step.round.event] else [];
    } else {
      assert FiredEvents(Next(s, step)) == FiredEvents(s);
    }
  }

  lemma StepAllDue(s: State, step: Step, late: Timespec)
    requires Enabled(s, step) && DispatcherStep(step) && AllDue(s, late)
    ensures AllDue(Next(s, step), late)
  {
    var s' := Next(s, step);
    forall e | e in s'.queue ensures Nanos(e.timeout) <= Nanos(late) {
      assert e in multiset(s'.queue);
      assert e in multiset(s.queue);
    }
  }

  // ---------- Emptying the queue ----------

  /** Nothing is left for the dispatcher: it has left its loop, or, before termination, waits. */
  predicate Settled(s: State) {
    s.queue == [] && s.dispatcher == if s.terminate then Finished else Waiting
  }

  /** A bound on the dispatcher's steps until then, if the clock has passed every deadline. */
  function Left(s: State): nat {
    if s.queue != [] then
      4 * |s.queue| + match s.dispatcher case Finished => 0 case Entering => 1 case AtTest => 2 case _ => 3
    else if s.terminate then
      match s.dispatcher case Finished => 0 case AtTest => 1 case Waiting => 2 case Handing(_) => 2 case Entering => 3
    else
      match s.dispatcher case Waiting => 0 case Finished => 0 case Entering => 1 case AtTest => 2 case Handing(_) => 3
  }

  lemma StepLowers(s: State, step: Step, late: Timespec)
    requires Inv(s) && AllDue(s, late) && Enabled(s, step) && StepAt(step, late) && !Settled(s)
    ensures Left(Next(s, step)) < Left(s)
  {
    NextHeap(s, step);
    if step.Enter? {
      FiresIffDue(s, step.now, step.round, step.queue);
      assert s.queue != [] ==> s.queue[0] in s.queue;
    }
  }

  /** After termination any run of the dispatcher's, once the clock has passed every deadline, ends within
      this bound, and as it is never blocked it ends with the loop left. */
  lemma {:induction false} DrainsInTime(s: State, steps: seq<Step>, late: Timespec)
    requires Inv(s) && s.terminate && AllDue(s, late) && CanRun(s, steps) && StepsAt(steps, late)
    ensures |steps| + Left(Run(s, steps)) <= Left(s)
    decreases |steps|
  {
    if steps != [] {
      var step := steps[0];
      StepLowers(s, step, late);
      StepKeeps(s, step);
      StepAllDue(s, step, late);
      NextInv(s, step);
      DrainsInTime(Next(s, step), steps[1..], late);
    }
  }

  /** What the dispatcher has done when it has settled. */
  ghost predicate Emptied(s: State, s': State) {
    && Settled(s')
    && multiset(s'.dispatched) == multiset(FiredEvents(s)) + multiset(s.queue)
    && s'.callers == s.callers && s'.cancelled == s.cancelled && s'.terminate == s.terminate && s'.made == s.made
  }

  /** From any state in which the dispatcher is still there, terminating or not, it can go on, on its own and
      with the clock past every deadline, until every queued event has been dispatched. */
  lemma {:induction false} Drains(s: State, late: Timespec) returns (steps: seq<Step>)
    requires Inv(s) && AllDue(s, late) && (s.dispatcher == Finished ==> s.terminate && s.queue == [])
    ensures CanRun(s, steps) && StepsAt(steps, late) && Emptied(s, Run(s, steps))
    decreases Left(s)
  {
    if Settled(s) {
      steps := [];
      assert FiredEvents(s) == s.dispatched;
    } else {
      var step := DispatcherCanStep(s, late);
      StepLowers(s, step, late);
      StepKeeps(s, step);
      StepAllDue(s, step, late);
      NextInv(s, step);
      var rest := Drains(Next(s, step), late);
      steps := [step] + rest;
      assert steps[1..] == rest;
    }
  }

  /** In every run: whatever is queued while the scheduler is up is dispatched by the dispatcher alone, once
      the clock has passed its deadline. */
  lemma NothingStuck(maxEvents: nat, callers: nat, before: seq<Step>, late: Timespec) returns (steps: seq<Step>)
    requires CanRun(Initial(maxEvents, callers), before)
    requires var s := Run(Initial(maxEvents, callers), before); !s.terminate && AllDue(s, late)
    ensures var s := Run(Initial(maxEvents, callers), before);
            CanRun(s, steps) && StepsAt(steps, late) && Emptied(s, Run(s, steps))
  {
    ReachableInv(maxEvents, callers, before);
    FinishedTerminated(maxEvents, callers, before);
    steps := Drains(Run(Initial(maxEvents, callers), before), late);
  }

  /** In every run: if no caller is under way when the destructor sets `terminate`, the dispatcher on its own
      can dispatch all that is queued and leave, so that the destructor's join returns. */
  lemma ShutsDown(maxEvents: nat, callers: nat, before: seq<Step>, late: Timespec) returns (steps: seq<Step>)
    requires CanRun(Initial(maxEvents, callers), before)
    requires var s := Run(Initial(maxEvents, callers), before);
             && !s.terminate && AllDue(s, late) && forall c :: 0 <= c < |s.callers| ==> s.callers[c] == Idle
    ensures var s := Run(Initial(maxEvents, callers), before);
            && CanRun(Next(s, Terminate), steps) && StepsAt(steps, late)
            && var s' := Run(Next(s, Terminate), steps);
               AllQuiet(s') && multiset(s'.dispatched) == multiset(FiredEvents(s)) + multiset(s.queue)
  {
    var s := Run(Initial(maxEvents, callers), before);
    ReachableInv(maxEvents, callers, before);
    FinishedTerminated(maxEvents, callers, before);
    NextInv(s, Terminate);
    assert FiredEvents(Next(s, Terminate)) == FiredEvents(s);
    steps := Drains(Next(s, Terminate), late);
  }

  // ---------- What a call of eventSchedule asks for ----------

  /** A step that is not caller c's. */
  predicate NotOf(step: Step, c: nat) {
    (step.Check? || step.TakeId? || step.Insert?) ==> step.caller != c
  }

  lemma {:induction false} OthersLeaveCaller(s: State, steps: seq<Step>, c: nat)
    requires CanRun(s, steps) && c < |s.callers| && forall i :: 0 <= i < |steps| ==> NotOf(steps[i], c)
    ensures |Run(s, steps).callers| == |s.callers| && Run(s, steps).callers[c] == s.callers[c]
    decreases |steps|
  {
    if steps != [] {
      OthersLeaveCaller(Next(s, steps[0]), steps[1..], c);
    }
  }

  /** A call that finds room puts into the queue, whatever others do between its steps, an event with the
      job it was given, a fresh id, and the deadline for its timeout; a call that finds none ends. */
  lemma CallSchedules(s: State, c: nat, job: nat, delay: int32, mid: seq<Step>, now: Timespec, mid': seq<Step>, q: seq<Event>)
    requires c < |s.callers| && s.callers[c] == Idle
    requires var s1 := Next(s, Check(c, job, delay));
             && CanRun(s1, mid) && (forall i :: 0 <= i < |mid| ==> NotOf(mid[i], c))
             && Enabled(Run(s1, mid), TakeId(c, now))
             && var s2 := Next(Run(s1, mid), TakeId(c, now));
                && CanRun(s2, mid') && (forall i :: 0 <= i < |mid'| ==> NotOf(mid'[i], c))
                && Enabled(Run(s2, mid'), Insert(c, q))
    ensures var t := Run(Next(s, Check(c, job, delay)), mid);
            var s3 := Run(Next(t, TakeId(c, now)), mid');
            var e := Event(t.nextId, job, Deadline(now, delay), now, delay);
            && s.numEvents < s.maxEvents
            && multiset(Next(s3, Insert(c, q)).queue) == multiset(s3.queue) + multiset{e}
            && Next(s3, Insert(c, q)).callers[c] == Idle
  {
    var s1 := Next(s, Check(c, job, delay));
    OthersLeaveCaller(s1, mid, c);
    OthersLeaveCaller(Next(Run(s1, mid), TakeId(c, now)), mid', c);
  }

  /** A call is refused, and changes nothing, exactly when numEvents has reached the limit. */
  lemma CallRefused(s: State, c: nat, job: nat, delay: int32)
    requires c < |s.callers| && s.callers[c] == Idle
    ensures Next(s, Check(c, job, delay)) == s <==> s.numEvents >= s.maxEvents
  {
    if s.numEvents < s.maxEvents {
      assert Next(s, Check(c, job, delay)).callers[c] == Passed(job, delay);
    } else {
      assert s.callers[c := Idle] == s.callers;
    }
  }
}
