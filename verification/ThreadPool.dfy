/** The thread pool of newLibs/threadpool.cpp: its critical sections as a class, and all interleavings of
    workers, dispatchers and destructor as a transition system. */
module ThreadPools {
  import opened Sums

  // ---------- The interleavings ----------

  datatype Worker<J> =
    | Testing          // about to test `terminate`, without the lock
    | Entering         // has seen it false, about to take the lock
    | Waiting          // asleep on the condition variable
    | Woken            // notified, about to get the lock back and release it
    | Running(job: J)  // outside the lock
    | Returning        // the job has returned, about to take the lock to give itself back
    | Exited

  /** `dispatched`, `started` and `finished` are logs. */
  datatype State<J> = State(
    workers: seq<Worker<J>>, jobs: seq<J>, available: int, terminate: bool,
    dispatched: seq<J>, started: seq<J>, finished: seq<J>)

  /** notify_one wakes worker `wake` if anybody is waiting. */
  datatype Step<J> =
    | Dispatch(job: J, wake: nat)
    | Spurious(w: nat)
    | Test(w: nat)
    | Lock(w: nat)
    | Resume(w: nat)
    | Complete(w: nat)
    | GiveBack(w: nat)
    | Terminate

  predicate At<J(==)>(s: State<J>, w: nat, pc: Worker<J>) {
    w < |s.workers| && s.workers[w] == pc
  }

  predicate NobodyWaits<J>(workers: seq<Worker<J>>) {
    forall w :: 0 <= w < |workers| ==> !workers[w].Waiting?
  }

  predicate Enabled<J(==)>(s: State<J>, step: Step<J>) {
    match step
    case Dispatch(_, wake) => At(s, wake, Waiting) || NobodyWaits(s.workers)
    case Spurious(w) => At(s, w, Waiting)
    case Test(w) => At(s, w, Testing)
    case Lock(w) => At(s, w, Entering)
    case Resume(w) => At(s, w, Woken)
    case Complete(w) => w < |s.workers| && s.workers[w].Running?
    case GiveBack(w) => At(s, w, Returning)
    case Terminate => true
  }

  function AllWoken<J>(workers: seq<Worker<J>>): seq<Worker<J>> {
    seq(|workers|, w requires 0 <= w < |workers| => if workers[w].Waiting? then Woken else workers[w])
  }

  function Next<J(==)>(s: State<J>, step: Step<J>): State<J>
    requires Enabled(s, step)
  {
    match step
    case Dispatch(job, wake) =>
      s.(jobs := s.jobs + [job], dispatched := s.dispatched + [job],
         workers := if At(s, wake, Waiting) then s.workers[wake := Woken] else s.workers)
    case Spurious(w) => s.(workers := s.workers[w := Woken])
    case Test(w) => s.(workers := s.workers[w := if s.terminate then Exited else Entering])
    case Lock(w) =>
      if s.jobs == [] then s.(workers := s.workers[w := Waiting])
      else s.(workers := s.workers[w := Running(s.jobs[0])], jobs := s.jobs[1..],
              available := s.available - 1, started := s.started + [s.jobs[0]])
    case Resume(w) => s.(workers := s.workers[w := Testing])
    case Complete(w) => s.(workers := s.workers[w := Returning], finished := s.finished + [s.workers[w].job])
    case GiveBack(w) => s.(workers := s.workers[w := Testing], available := s.available + 1)
    case Terminate => s.(workers := AllWoken(s.workers), terminate := true)
  }

  function Initial<J>(threadCount: nat): State<J> {
    State(seq(threadCount, _ => Testing), [], threadCount, false, [], [], [])
  }

  predicate CanRun<J(==)>(s: State<J>, steps: seq<Step<J>>)
    decreases |steps|
  {
    steps == [] || (Enabled(s, steps[0]) && CanRun(Next(s, steps[0]), steps[1..]))
  }

  function Run<J(==)>(s: State<J>, steps: seq<Step<J>>): State<J>
    requires CanRun(s, steps)
    decreases |steps|
  {
    if steps == [] then s else Run(Next(s, steps[0]), steps[1..])
  }

  // ---------- The critical sections, on the pool's own fields ----------

  datatype Taken<J> = Nothing | Job(job: J)

  /** Each method is what one thread does while it holds cvLock; its contract says that this is the
      step of the same name below. */
  class ThreadPool<J(==)> {
    const threadCount: nat
    var jobs: seq<J>
    var availableThreads: int
    var terminate: bool

    ghost predicate Shows(s: State<J>)
      reads this
    {
      s.jobs == jobs && s.available == availableThreads && s.terminate == terminate
    }

    constructor (threadCount: nat)
      ensures this.threadCount == threadCount && Shows(Initial(threadCount))
    {
      this.threadCount, jobs, availableThreads, terminate := threadCount, [], threadCount, false;
    }

    /** Puts a job at the end of the list; notify_one then wakes worker `wake`, if anybody waits. */
    method DispatchThread(job: J, ghost s: State<J>, ghost wake: nat) returns (result: int)
      requires Shows(s) && Enabled(s, Dispatch(job, wake))
      modifies this`jobs
      ensures jobs == old(jobs) + [job] && result == 0 && Shows(Next(s, Dispatch(job, wake)))
    {
      jobs := jobs + [job];
      result := 0;
    }

    /** Whether some worker is not busy with a job. */
    method ThreadAvail(ghost s: State<J>) returns (result: bool)
      requires Shows(s) && CountRight(s)
      ensures result <==> exists w :: 0 <= w < |s.workers| && !s.workers[w].Running? && !s.workers[w].Returning?
    {
      FreeWorkers(s);
      result := availableThreads > 0;
    }

    /** A worker takes the oldest job, or finds that it has to wait. */
    method Take(ghost s: State<J>, ghost w: nat) returns (taken: Taken<J>)
      requires Shows(s) && At(s, w, Entering)
      modifies this`jobs, this`availableThreads
      ensures Shows(Next(s, Lock(w)))
      ensures Next(s, Lock(w)).workers[w] == (if taken.Job? then Running(taken.job) else Waiting)
    {
      if jobs == [] {
        return Nothing;
      }
      availableThreads := availableThreads - 1;
      taken := Job(jobs[0]);
      jobs := jobs[1..];
    }

    method Return(ghost s: State<J>, ghost w: nat)
      requires Shows(s) && At(s, w, Returning)
      modifies this`availableThreads
      ensures Shows(Next(s, GiveBack(w)))
    {
      availableThreads := availableThreads + 1;
    }

    /** The destructor's part; notify_all wakes everybody who waits. */
    method Shutdown(ghost s: State<J>)
      requires Shows(s)
      modifies this`terminate
      ensures Shows(Next(s, Terminate))
    {
      terminate := true;
    }
  }

  // ---------- Counting workers ----------

  function AwakeIdle<J>(w: nat, pc: Worker<J>): nat {
    if pc.Testing? || pc.Entering? || pc.Woken? then 1 else 0
  }

  function Busy<J>(w: nat, pc: Worker<J>): nat {
    if pc.Running? || pc.Returning? then 1 else 0
  }

  function Enters<J>(w: nat, pc: Worker<J>): nat {
    if pc.Entering? then 1 else 0
  }

  function Waits<J>(w: nat, pc: Worker<J>): nat {
    if pc.Waiting? then 1 else 0
  }

  function Count<J>(workers: seq<Worker<J>>, what: (nat, Worker<J>) -> nat): nat {
    Sum(Weigh(workers, what))
  }

  // ---------- Bookkeeping ----------

  /** How often a job is in the hands of a worker. */
  function InHand<J(==)>(workers: seq<Worker<J>>, job: J): nat {
    if workers == [] then 0
    else
      var n := |workers| - 1;
      InHand(workers[..n], job) + if workers[n] == Running(job) then 1 else 0
  }

  lemma {:induction false} InHandUpdate<J>(workers: seq<Worker<J>>, w: nat, pc: Worker<J>, job: J)
    requires w < |workers|
    ensures InHand(workers[w := pc], job)
            == InHand(workers, job) - (if workers[w] == Running(job) then 1 else 0) + if pc == Running(job) then 1 else 0
  {
    var n := |workers| - 1;
    if w < n {
      InHandUpdate(workers[..n], w, pc, job);
      assert workers[w := pc][..n] == workers[..n][w := pc];
    } else {
      assert workers[w := pc][..n] == workers[..n];
    }
  }

  lemma {:induction false} InHandSame<J>(xs: seq<Worker<J>>, ys: seq<Worker<J>>, job: J)
    requires |xs| == |ys| && forall i :: 0 <= i < |xs| ==> (xs[i] == Running(job) <==> ys[i] == Running(job))
    ensures InHand(xs, job) == InHand(ys, job)
  {
    if xs != [] {
      InHandSame(xs[..|xs| - 1], ys[..|xs| - 1], job);
    }
  }

  /** The jobs in the hands of workers. */
  function RunningJobs<J>(workers: seq<Worker<J>>): seq<J> {
    if workers == [] then []
    else
      var n := |workers| - 1;
      RunningJobs(workers[..n]) + if workers[n].Running? then [workers[n].job] else []
  }

  lemma {:induction false} RunningJobsCount<J>(workers: seq<Worker<J>>, job: J)
    ensures multiset(RunningJobs(workers))[job] == InHand(workers, job)
  {
    if workers != [] {
      RunningJobsCount(workers[..|workers| - 1], job);
    }
  }

  /** The counter of available threads is right. */
  ghost predicate CountRight<J>(s: State<J>) {
    s.available + Count(s.workers, Busy) == |s.workers|
  }

  lemma {:induction false} BusyCount<J>(workers: seq<Worker<J>>)
    ensures Count(workers, Busy) <= |workers|
    ensures Count(workers, Busy) == |workers| <==> forall w :: 0 <= w < |workers| ==> workers[w].Running? || workers[w].Returning?
  {
    if workers != [] {
      var n := |workers| - 1;
      BusyCount(workers[..n]);
      assert Weigh(workers, Busy)[..n] == Weigh(workers[..n], Busy);
      assert Count(workers, Busy) == Count(workers[..n], Busy) + Busy(n, workers[n]);
    }
  }

  /** A thread is counted as available exactly when some worker is not busy with a job. */
  lemma FreeWorkers<J>(s: State<J>)
    requires CountRight(s)
    ensures s.available > 0 <==> exists w :: 0 <= w < |s.workers| && !s.workers[w].Running? && !s.workers[w].Returning?
  {
    BusyCount(s.workers);
  }

  /** First in, first started; what is started is running or finished, each job once; and the counter
      of available threads is right whenever the lock is free. */
  ghost predicate Bookkeeping<J(!new)>(s: State<J>) {
    && s.started + s.jobs == s.dispatched
    && (forall job :: multiset(s.started)[job] == multiset(s.finished)[job] + InHand(s.workers, job))
    && CountRight(s)
  }

  /** Every dispatched job is finished, running or queued, as often as it was dispatched. */
  lemma NothingLost<J(!new)>(s: State<J>)
    requires Bookkeeping(s)
    ensures multiset(s.finished + RunningJobs(s.workers) + s.jobs) == multiset(s.dispatched)
  {
    forall job: J ensures multiset(s.finished + RunningJobs(s.workers))[job] == multiset(s.started)[job] {
      RunningJobsCount(s.workers, job);
    }
    assert multiset(s.finished + RunningJobs(s.workers)) == multiset(s.started);
    assert multiset(s.dispatched) == multiset(s.started) + multiset(s.jobs);
  }

  lemma CountUpdate<J>(workers: seq<Worker<J>>, what: (nat, Worker<J>) -> nat, w: nat, pc: Worker<J>)
    requires w < |workers|
    ensures Count(workers[w := pc], what) == Count(workers, what) - what(w, workers[w]) + what(w, pc)
  {
    WeighUpdate(workers, what, w, pc);
  }

  lemma {:induction false} CountSame<J>(xs: seq<Worker<J>>, ys: seq<Worker<J>>, what: (nat, Worker<J>) -> nat)
    requires |xs| == |ys| && forall i :: 0 <= i < |xs| ==> what(i, xs[i]) == what(i, ys[i])
    ensures Count(xs, what) == Count(ys, what)
  {
    assert Weigh(xs, what) == Weigh(ys, what);
  }

  lemma InitialBookkeeping<J(!new)>(threadCount: nat)
    ensures Bookkeeping(Initial<J>(threadCount))
  {
    var workers := Initial<J>(threadCount).workers;
    forall job: J ensures InHand(workers, job) == 0 {
      NobodyRuns(workers, job);
    }
    forall w | 0 <= w < threadCount ensures Weigh(workers, Busy)[w] == 0 {
      assert Busy(w, workers[w]) == 0;
    }
    SumZero(Weigh(workers, Busy));
  }

  lemma {:induction false} NobodyRuns<J>(workers: seq<Worker<J>>, job: J)
    requires forall w :: 0 <= w < |workers| ==> !workers[w].Running?
    ensures InHand(workers, job) == 0
  {
    if workers != [] {
      NobodyRuns(workers[..|workers| - 1], job);
    }
  }

  lemma NextInHand<J(!new)>(s: State<J>, step: Step<J>, job: J)
    requires Enabled(s, step)
    requires multiset(s.started)[job] == multiset(s.finished)[job] + InHand(s.workers, job)
    ensures var s' := Next(s, step); multiset(s'.started)[job] == multiset(s'.finished)[job] + InHand(s'.workers, job)
  {
    var s' := Next(s, step);
    if step.Terminate? {
      InHandSame(s'.workers, s.workers, job);
    } else if step.Dispatch? {
      if At(s, step.wake, Waiting) {
        InHandUpdate(s.workers, step.wake, Woken, job);
      }
    } else {
      InHandUpdate(s.workers, step.w, s'.workers[step.w], job);
    }
  }

  lemma NextAvailable<J(!new)>(s: State<J>, step: Step<J>)
    requires Enabled(s, step)
    ensures var s' := Next(s, step); s'.available + Count(s'.workers, Busy) == s.available + Count(s.workers, Busy)
  {
    var s' := Next(s, step);
    if step.Terminate? {
      forall w | 0 <= w < |s.workers| ensures Busy(w, s'.workers[w]) == Busy(w, s.workers[w]) {
      }
      CountSame(s'.workers, s.workers, Busy);
    } else if step.Dispatch? {
      if At(s, step.wake, Waiting) {
        CountUpdate(s.workers, Busy, step.wake, Woken);
      }
    } else {
      CountUpdate(s.workers, Busy, step.w, s'.workers[step.w]);
    }
  }

  lemma NextFifo<J(!new)>(s: State<J>, step: Step<J>)
    requires Enabled(s, step) && s.started + s.jobs == s.dispatched
    ensures var s' := Next(s, step); s'.started + s'.jobs == s'.dispatched && |s'.workers| == |s.workers|
  {
    if step.Dispatch? {
      assert s.started + (s.jobs + [step.job]) == s.started + s.jobs + [step.job];
    } else if step.Lock? && s.jobs != [] {
      assert s.started + [s.jobs[0]] + s.jobs[1..] == s.started + s.jobs;
    }
  }

  lemma NextBookkeeping<J(!new)>(s: State<J>, step: Step<J>)
    requires Bookkeeping(s) && Enabled(s, step)
    ensures Bookkeeping(Next(s, step))
  {
    var s' := Next(s, step);
    forall job: J ensures multiset(s'.started)[job] == multiset(s'.finished)[job] + InHand(s'.workers, job) {
      NextInHand(s, step, job);
    }
    NextFifo(s, step);
    NextAvailable(s, step);
  }

  // ---------- No wakeup is lost ----------

  /** While somebody sleeps there are at least as many workers awake and idle as jobs queued. */
  ghost predicate WorkConserving<J>(s: State<J>) {
    !s.terminate && !NobodyWaits(s.workers) ==> |s.jobs| <= Count(s.workers, AwakeIdle)
  }

  lemma NextWorkConserving<J(!new)>(s: State<J>, step: Step<J>)
    requires WorkConserving(s) && Enabled(s, step)
    ensures WorkConserving(Next(s, step))
  {
    var s' := Next(s, step);
    if step.Dispatch? {
      if At(s, step.wake, Waiting) {
        CountUpdate(s.workers, AwakeIdle, step.wake, Woken);
      }
    } else if !step.Terminate? {
      CountUpdate(s.workers, AwakeIdle, step.w, s'.workers[step.w]);
      if !s.terminate && !NobodyWaits(s'.workers) && s'.jobs != [] {
        var w :| 0 <= w < |s'.workers| && s'.workers[w].Waiting?;
        assert s.workers[w].Waiting?;
      }
    }
  }

  /** A dispatched job wakes exactly one of those who wait. */
  lemma DispatchWakesOne<J(!new)>(s: State<J>, job: J, wake: nat)
    requires Enabled(s, Dispatch(job, wake))
    ensures var s' := Next(s, Dispatch(job, wake));
            Count(s'.workers, Waits) == if NobodyWaits(s.workers) then 0 else Count(s.workers, Waits) - 1
  {
    WaitsZero(s.workers);
    if At(s, wake, Waiting) {
      CountUpdate(s.workers, Waits, wake, Woken);
      assert !NobodyWaits(s.workers);
    }
  }

  /** Before shutdown no worker leaves its loop. */
  ghost predicate AllHere<J>(s: State<J>) {
    !s.terminate ==> forall w :: 0 <= w < |s.workers| ==> !s.workers[w].Exited?
  }

  ghost predicate Inv<J(!new)>(s: State<J>) {
    Bookkeeping(s) && WorkConserving(s) && AllHere(s)
  }

  lemma NextInv<J(!new)>(s: State<J>, step: Step<J>)
    requires Inv(s) && Enabled(s, step)
    ensures Inv(Next(s, step))
  {
    NextBookkeeping(s, step);
    NextWorkConserving(s, step);
    NextAllHere(s, step);
  }

  lemma NextAllHere<J(!new)>(s: State<J>, step: Step<J>)
    requires AllHere(s) && Enabled(s, step)
    ensures AllHere(Next(s, step)) && |Next(s, step).workers| == |s.workers|
  {
  }

  lemma InitialInv<J(!new)>(threadCount: nat)
    ensures Inv(Initial<J>(threadCount))
  {
    InitialBookkeeping<J>(threadCount);
  }

  lemma {:induction false} RunInv<J(!new)>(s: State<J>, steps: seq<Step<J>>)
    requires Inv(s) && CanRun(s, steps)
    ensures Inv(Run(s, steps)) && |Run(s, steps).workers| == |s.workers|
    decreases |steps|
  {
    if steps != [] {
      NextInv(s, steps[0]);
      NextAllHere(s, steps[0]);
      RunInv(Next(s, steps[0]), steps[1..]);
    }
  }

  // ---------- Everything dispatched is run ----------

  /** A step of a worker's own. */
  predicate WorkerStep<J>(step: Step<J>) {
    !step.Dispatch? && !step.Spurious? && !step.Terminate?
  }

  ghost predicate Quiescent<J(!new)>(s: State<J>) {
    forall step :: Enabled(s, step) ==> !WorkerStep(step)
  }

  function Weight<J>(w: nat, pc: Worker<J>): nat {
    match pc
    case Running(_) => 6
    case Returning => 5
    case Woken => 4
    case Testing => 3
    case Entering => 2
    case _ => 0
  }

  function Measure<J>(s: State<J>): nat {
    10 * |s.jobs| + Count(s.workers, Weight)
  }

  /** Left alone, the workers come to rest after a bounded number of steps. */
  lemma {:induction false} WorkersRest<J(!new)>(s: State<J>, steps: seq<Step<J>>)
    requires CanRun(s, steps) && forall i :: 0 <= i < |steps| ==> WorkerStep(steps[i])
    ensures |steps| + Measure(Run(s, steps)) <= Measure(s)
    decreases |steps|
  {
    if steps != [] {
      var w, s' := steps[0].w, Next(s, steps[0]);
      CountUpdate(s.workers, Weight, w, s'.workers[w]);
      WorkersRest(s', steps[1..]);
    }
  }

  lemma QuiescentWorkers<J(!new)>(s: State<J>)
    requires Quiescent(s)
    ensures forall w :: 0 <= w < |s.workers| ==> s.workers[w].Waiting? || s.workers[w].Exited?
  {
    forall w | 0 <= w < |s.workers| ensures s.workers[w].Waiting? || s.workers[w].Exited? {
      match s.workers[w]
      case Testing => assert Enabled(s, Step<J>.Test(w));
      case Entering => assert Enabled(s, Step<J>.Lock(w));
      case Woken => assert Enabled(s, Step<J>.Resume(w));
      case Running(_) => assert Enabled(s, Step<J>.Complete(w));
      case Returning => assert Enabled(s, Step<J>.GiveBack(w));
      case _ =>
    }
  }

  /** When the workers of a pool that is not shutting down have come to rest, every dispatched job has
      been run to its end, exactly once. */
  lemma RestMeansDone<J(!new)>(s: State<J>)
    requires Inv(s) && Quiescent(s) && !s.terminate && s.workers != []
    ensures s.jobs == [] && s.started == s.dispatched && multiset(s.finished) == multiset(s.dispatched)
  {
    QuiescentWorkers(s);
    assert s.workers[0].Waiting?;
    forall w | 0 <= w < |s.workers| ensures Weigh(s.workers, AwakeIdle)[w] == 0 {
      assert AwakeIdle(w, s.workers[w]) == 0;
    }
    SumZero(Weigh(s.workers, AwakeIdle));
    assert s.started == s.dispatched;
    QuiescentFinished(s);
  }

  /** Workers at rest have finished whatever they started. */
  lemma QuiescentFinished<J(!new)>(s: State<J>)
    requires Bookkeeping(s) && Quiescent(s)
    ensures multiset(s.finished) == multiset(s.started)
  {
    QuiescentWorkers(s);
    forall job: J ensures multiset(s.finished)[job] == multiset(s.started)[job] {
      NobodyRuns(s.workers, job);
    }
  }

  // ---------- Shutdown ----------

  /** Workers that will or do sleep, against jobs that will keep one of them busy. */
  function Balance<J>(s: State<J>): int {
    Count(s.workers, Enters) + Count(s.workers, Waits) - |s.jobs|
  }

  /** Jobs that nobody will take. */
  function Excess<J>(s: State<J>): nat {
    if Balance(s) < 0 then -Balance(s) else 0
  }

  ghost predicate ShuttingDown<J>(s: State<J>) {
    s.terminate && (s.jobs != [] ==> NobodyWaits(s.workers))
  }

  lemma ShutdownStep<J(!new)>(s: State<J>, step: Step<J>)
    requires ShuttingDown(s) && Enabled(s, step) && WorkerStep(step)
    ensures ShuttingDown(Next(s, step)) && Balance(Next(s, step)) == Balance(s)
  {
    var w, s' := step.w, Next(s, step);
    CountUpdate(s.workers, Enters, w, s'.workers[w]);
    CountUpdate(s.workers, Waits, w, s'.workers[w]);
    if s'.jobs != [] {
      forall v | 0 <= v < |s'.workers| ensures !s'.workers[v].Waiting? {
      }
    }
  }

  /** A spurious wakeup comes too late for a job. */
  lemma ShutdownSpurious<J(!new)>(s: State<J>, w: nat)
    requires ShuttingDown(s) && Enabled(s, Spurious(w))
    ensures ShuttingDown(Next(s, Spurious(w))) && Excess(Next(s, Spurious(w))) == Excess(s)
  {
    CountUpdate(s.workers, Waits, w, Woken);
    CountUpdate(s.workers, Enters, w, Woken);
    assert s.jobs == [];
  }

  /** What termination itself does. */
  lemma ShutdownStart<J(!new)>(s: State<J>)
    ensures var s0 := Next(s, Terminate); ShuttingDown(s0) && Balance(s0) == Count(s.workers, Enters) - |s.jobs|
  {
    NobodyLeftAsleep(s.workers);
  }

  lemma {:induction false} ShutdownRun<J(!new)>(s: State<J>, steps: seq<Step<J>>)
    requires ShuttingDown(s) && CanRun(s, steps) && forall i :: 0 <= i < |steps| ==> WorkerStep(steps[i])
    ensures ShuttingDown(Run(s, steps)) && Balance(Run(s, steps)) == Balance(s)
    decreases |steps|
  {
    if steps != [] {
      ShutdownStep(s, steps[0]);
      ShutdownRun(Next(s, steps[0]), steps[1..]);
    }
  }

  lemma CountNone<J>(workers: seq<Worker<J>>, what: (nat, Worker<J>) -> nat)
    requires forall w :: 0 <= w < |workers| ==> what(w, workers[w]) == 0
    ensures Count(workers, what) == 0
  {
    SumZero(Weigh(workers, what));
  }

  /** The destructor's notify_all misses a worker that has tested `terminate` and not yet taken the lock.
      However the workers go on after it, without spurious wakeups, exactly this many of them
      end up asleep for good: those between test and lock that find no job left.  So the destructor's
      joins return exactly when no more workers than queued jobs were between test and lock; and
      jobs beyond that are dropped. */
  lemma ShutdownOutcome<J(!new)>(s: State<J>, steps: seq<Step<J>>)
    requires CanRun(Next(s, Terminate), steps) && forall i :: 0 <= i < |steps| ==> WorkerStep(steps[i])
    requires Quiescent(Run(Next(s, Terminate), steps))
    ensures var between, end := Count(s.workers, Enters), Run(Next(s, Terminate), steps);
            && Count(end.workers, Waits) == (if between > |s.jobs| then between - |s.jobs| else 0)
            && |end.jobs| == (if between > |s.jobs| then 0 else |s.jobs| - between)
            && (NobodyWaits(end.workers) <==> between <= |s.jobs|)
  {
    var s0 := Next(s, Terminate);
    ShutdownStart(s);
    ShutdownRun(s0, steps);
    ShutdownEnd(Run(s0, steps));
  }

  /** Workers that have come to rest during shutdown. */
  lemma ShutdownEnd<J(!new)>(end: State<J>)
    requires ShuttingDown(end) && Quiescent(end)
    ensures Count(end.workers, Waits) == (if Balance(end) > 0 then Balance(end) else 0)
    ensures |end.jobs| == Excess(end)
    ensures NobodyWaits(end.workers) <==> Balance(end) <= 0
  {
    QuiescentWorkers(end);
    forall w | 0 <= w < |end.workers| ensures Enters(w, end.workers[w]) == 0 {
    }
    CountNone(end.workers, Enters);
    WaitsZero(end.workers);
  }

  lemma NobodyLeftAsleep<J>(workers: seq<Worker<J>>)
    ensures Count(AllWoken(workers), Waits) == 0 && Count(AllWoken(workers), Enters) == Count(workers, Enters)
  {
    var woken := AllWoken(workers);
    forall w | 0 <= w < |woken| ensures Waits(w, woken[w]) == 0 && Enters(w, woken[w]) == Enters(w, workers[w]) {
    }
    CountNone(woken, Waits);
    CountSame(woken, workers, Enters);
  }

  lemma WaitsZero<J>(workers: seq<Worker<J>>)
    ensures NobodyWaits(workers) <==> Count(workers, Waits) == 0
  {
    if NobodyWaits(workers) {
      forall w | 0 <= w < |workers| ensures Waits(w, workers[w]) == 0 {
      }
      CountNone(workers, Waits);
    } else {
      var w :| 0 <= w < |workers| && workers[w].Waiting?;
      assert Waits(w, workers[w]) == 1;
      SumUpdate(Weigh(workers, Waits), w, 0);
    }
  }

  /** It can happen: one worker, no job, and it sleeps forever. */
  lemma ShutdownHangs<J(!new)>()
    ensures var steps := [Test(0), Terminate, Lock(0)];
            && CanRun(Initial<J>(1), steps)
            && Run(Initial<J>(1), steps).terminate && Run(Initial<J>(1), steps).workers == [Waiting]
  {
    var s0 := Initial<J>(1);
    var s1 := Next(s0, Step<J>.Test(0));
    var s2 := Next(s1, Step<J>.Terminate);
    var s3 := Next(s2, Step<J>.Lock(0));
    var end: seq<Step<J>> := [];
    assert CanRun(s3, end) && Run(s3, end) == s3;
    assert [Step<J>.Lock(0)][1..] == end;
    assert CanRun(s2, [Step<J>.Lock(0)]) && Run(s2, [Step<J>.Lock(0)]) == s3;
    assert [Step<J>.Terminate, Lock(0)][1..] == [Step<J>.Lock(0)];
    assert CanRun(s1, [Step<J>.Terminate, Lock(0)]) && Run(s1, [Step<J>.Terminate, Lock(0)]) == s3;
    assert [Step<J>.Test(0), Terminate, Lock(0)][1..] == [Step<J>.Terminate, Lock(0)];
  }
}
