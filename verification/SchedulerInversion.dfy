/** The bounds on deadline inversion are attained by runs of the scheduler. */
module SchedulerInversion {
  import opened EventTime
  import opened EventHeap
  import opened Scheduler
  import opened SchedulerRuns
  import opened SchedulerCapacity

  /** The event first scheduled, a nanosecond before a full second, with a timeout of 999 ms. */
  function Slow(sec: int): Event {
    Event(0, 0, Deadline(Timespec(sec, 999_999_999), 999), Timespec(sec, 999_999_999), 999)
  }

  /** The event scheduled a nanosecond later, due at once or overdue. */
  function Quick(sec: int, delay: int32): Event {
    Event(1, 0, Deadline(Timespec(sec + 1, 0), delay), Timespec(sec + 1, 0), delay)
  }

  lemma Deadlines(sec: int, delay: int32)
    requires -999 <= delay <= 0
    ensures Slow(sec).timeout == Timespec(sec, 1_998_999_999)
    ensures Quick(sec, delay).timeout == Timespec(sec + 1, delay * 1_000_000)
  {
  }

  /** The only caller schedules an event, its critical section leaving the heap q. */
  lemma ScheduleOne(s: State, delay: int32, now: Timespec, q: seq<Event>) returns (s': State)
    requires s.callers == [Idle] && s.numEvents < s.maxEvents && ClockReading(now)
    requires var e := Event(s.nextId, 0, Deadline(now, delay), now, delay);
             Inserted(s.queue, s.numEvents, q, s.numEvents + 1, e)
    ensures Reaches(s, s')
    ensures s'.queue == q && s'.numEvents == s.numEvents + 1 && s'.nextId == s.nextId + 1
    ensures s'.callers == [Idle] && s'.maxEvents == s.maxEvents && s'.dispatcher == s.dispatcher && s'.terminate == s.terminate
  {
    var s1 := Next(s, Check(0, 0, delay));
    ReachesNext(s, Check(0, 0, delay));
    var s2 := Next(s1, TakeId(0, now));
    ReachesNext(s1, TakeId(0, now));
    s' := Next(s2, Insert(0, q));
    ReachesNext(s2, Insert(0, q));
    ReachesOn(s, s1, s2);
    ReachesOn(s, s2, s');
  }

  lemma SmallHeaps(e: Event, x: Event)
    requires !EventLater(e, x)
    ensures IsHeap([e]) && IsHeap([x]) && IsHeap([e, x])
  {
    assert Parent(1) == 0;
  }

  /** For every second and every delay from 0 down to -999 ms a run fires the slow event while the quick
      one waits in the queue: 998,999,999 ns too late, and up to 1,997,999,999 ns. */
  lemma InversionRun(maxEvents: nat, sec: int, delay: int32) returns (steps: seq<Step>)
    requires maxEvents >= 2 && -999 <= delay <= 0
    ensures CanRun(Initial(maxEvents, 1), steps)
    ensures var e, x := Slow(sec), Quick(sec, delay);
            && Enabled(Run(Initial(maxEvents, 1), steps), Enter(Timespec(sec + 2, 0), Fire(e), [x]))
            && Nanos(e.timeout) - Nanos(x.timeout) == 998_999_999 - delay * 1_000_000
  {
    var s0, e, x := Initial(maxEvents, 1), Slow(sec), Quick(sec, delay);
    Deadlines(sec, delay);
    SmallHeaps(e, x);
    var s1 := ScheduleOne(s0, 999, Timespec(sec, 999_999_999), [e]);
    assert multiset([e, x]) == multiset([e]) + multiset{x};
    var s2 := ScheduleOne(s1, delay, Timespec(sec + 1, 0), [e, x]);
    var s3 := Next(s2, Test);
    ReachesNext(s2, Test);
    ReachesOn(s0, s1, s2);
    ReachesOn(s0, s2, s3);
    steps :| CanRun(s0, steps) && Run(s0, steps) == s3;
  }
}
