/** The event scheduler together with the thread pool it owns: the dispatcher hands fired events to the
    pool, and the destructor joins the dispatcher before it deletes the pool. */
module SchedulerPool {
  import opened EventHeap
  import S = SchedulerRuns
  import P = ThreadPools

  datatype System = System(sched: S.State, pool: P.State<Event>)

  /** When the dispatcher hands an event over, the pool's notify_one may wake worker `wake`. */
  datatype Move = Sched(step: S.Step, wake: nat) | Pool(work: P.Step<Event>)

  /** The pool is shut down once, after the dispatcher has been joined, and only the dispatcher
      gives it jobs. */
  ghost predicate Enabled(s: System, move: Move) {
    match move
    case Sched(step, wake) =>
      S.Enabled(s.sched, step)
      && (step.HandOver? ==> P.Enabled(s.pool, P.Dispatch(s.sched.dispatcher.event, wake)))
    case Pool(work) =>
      P.Enabled(s.pool, work) && !work.Dispatch?
      && (work.Terminate? ==> s.sched.dispatcher == S.Finished && !s.pool.terminate)
  }

  ghost function Next(s: System, move: Move): System
    requires Enabled(s, move)
  {
    match move
    case Sched(step, wake) =>
      System(S.Next(s.sched, step),
             if step.HandOver? then P.Next(s.pool, P.Dispatch(s.sched.dispatcher.event, wake)) else s.pool)
    case Pool(work) => s.(pool := P.Next(s.pool, work))
  }

  function Initial(maxEvents: nat, callers: nat, threadCount: nat): System {
    System(S.Initial(maxEvents, callers), P.Initial(threadCount))
  }

  ghost predicate CanRun(s: System, moves: seq<Move>)
    decreases |moves|
  {
    moves == [] || (Enabled(s, moves[0]) && CanRun(Next(s, moves[0]), moves[1..]))
  }

  ghost function Run(s: System, moves: seq<Move>): System
    requires CanRun(s, moves)
    decreases |moves|
  {
    if moves == [] then s else Run(Next(s, moves[0]), moves[1..])
  }

  /** The jobs of the pool are the events dispatched by the scheduler, in that order. */
  ghost predicate Inv(s: System) {
    && S.Inv(s.sched) && P.Inv(s.pool)
    && s.pool.dispatched == s.sched.dispatched
    && (s.pool.terminate ==> s.sched.dispatcher == S.Finished)
  }

  lemma NextInv(s: System, move: Move)
    requires Inv(s) && Enabled(s, move)
    ensures Inv(Next(s, move)) && |Next(s, move).pool.workers| == |s.pool.workers|
  {
    match move
    case Sched(step, wake) =>
      S.NextInv(s.sched, step);
      if step.HandOver? {
        P.NextInv(s.pool, P.Dispatch(s.sched.dispatcher.event, wake));
      }
    case Pool(work) => P.NextInv(s.pool, work);
  }

  lemma {:induction false} RunInv(s: System, moves: seq<Move>)
    requires Inv(s) && CanRun(s, moves)
    ensures Inv(Run(s, moves)) && |Run(s, moves).pool.workers| == |s.pool.workers|
    decreases |moves|
  {
    if moves != [] {
      NextInv(s, moves[0]);
      RunInv(Next(s, moves[0]), moves[1..]);
    }
  }

  lemma ReachableInv(maxEvents: nat, callers: nat, threadCount: nat, moves: seq<Move>)
    requires CanRun(Initial(maxEvents, callers, threadCount), moves)
    ensures var s := Run(Initial(maxEvents, callers, threadCount), moves);
            Inv(s) && |s.pool.workers| == threadCount
  {
    S.InitialInv(maxEvents, callers);
    P.InitialInv<Event>(threadCount);
    RunInv(Initial(maxEvents, callers, threadCount), moves);
  }

  /** In every state of every run: the events whose jobs are finished, running or queued in the pool are
      exactly those the dispatcher has handed over, each once as often. */
  lemma FiredEventsKept(maxEvents: nat, callers: nat, threadCount: nat, moves: seq<Move>)
    requires CanRun(Initial(maxEvents, callers, threadCount), moves)
    ensures var s := Run(Initial(maxEvents, callers, threadCount), moves);
            multiset(s.pool.finished + P.RunningJobs(s.pool.workers) + s.pool.jobs) == multiset(s.sched.dispatched)
  {
    ReachableInv(maxEvents, callers, threadCount, moves);
    P.NothingLost(Run(Initial(maxEvents, callers, threadCount), moves).pool);
  }

  /** When dispatcher and callers are done and the workers have come to rest before the pool is shut down,
      every event that was ever accepted has been run to its end or cancelled, exactly once. */
  lemma AcceptedAreRun(maxEvents: nat, callers: nat, threadCount: nat, moves: seq<Move>)
    requires threadCount > 0 && CanRun(Initial(maxEvents, callers, threadCount), moves)
    requires var s := Run(Initial(maxEvents, callers, threadCount), moves);
             S.AllQuiet(s.sched) && P.Quiescent(s.pool) && !s.pool.terminate
    ensures var s := Run(Initial(maxEvents, callers, threadCount), moves);
            multiset(s.pool.finished) + multiset(s.sched.cancelled) == multiset(s.sched.made)
  {
    var s := Run(Initial(maxEvents, callers, threadCount), moves);
    ReachableInv(maxEvents, callers, threadCount, moves);
    P.RestMeansDone(s.pool);
    var none: seq<S.Step> := [];
    assert S.Run(s.sched, none) == s.sched;
    S.AllDone(s.sched, none);
  }

  // ---------- Shutdown of the pool ----------

  lemma ShutdownMove(s: System, move: Move)
    requires Inv(s) && P.ShuttingDown(s.pool) && Enabled(s, move)
    ensures var s' := Next(s, move);
            && P.ShuttingDown(s'.pool) && P.Excess(s'.pool) == P.Excess(s.pool)
            && s'.sched.dispatched == s.sched.dispatched
  {
    if move.Pool? {
      if move.work.Spurious? {
        P.ShutdownSpurious(s.pool, move.work.w);
      } else {
        P.ShutdownStep(s.pool, move.work);
      }
    }
  }

  lemma {:induction false} ShutdownMoves(s: System, moves: seq<Move>)
    requires Inv(s) && P.ShuttingDown(s.pool) && CanRun(s, moves)
    ensures var s' := Run(s, moves);
            && Inv(s') && P.ShuttingDown(s'.pool) && P.Excess(s'.pool) == P.Excess(s.pool)
            && s'.sched.dispatched == s.sched.dispatched
    decreases |moves|
  {
    if moves != [] {
      ShutdownMove(s, moves[0]);
      NextInv(s, moves[0]);
      ShutdownMoves(Next(s, moves[0]), moves[1..]);
    }
  }

  lemma SplitAt(all: seq<Event>, started: seq<Event>, jobs: seq<Event>)
    requires started + jobs == all
    ensures started == all[..|all| - |jobs|] && jobs == all[|all| - |jobs|..]
  {
  }

  /** The pool is shut down in state s, and the system goes on in whatever way until the workers rest.  Of
      the events handed over, exactly the last ones are dropped, as many as there were jobs queued beyond
      the workers between their test and the lock; all others have been run, exactly once. */
  lemma ShutdownDrops(s: System, moves: seq<Move>)
    requires Inv(s) && Enabled(s, Pool(P.Terminate)) && CanRun(Next(s, Pool(P.Terminate)), moves)
    requires P.Quiescent(Run(Next(s, Pool(P.Terminate)), moves).pool)
    ensures var between, queued := P.Count(s.pool.workers, P.Enters), |s.pool.jobs|;
            var fired, end := s.sched.dispatched, Run(Next(s, Pool(P.Terminate)), moves);
            var dropped := if queued > between then queued - between else 0;
            && end.sched.dispatched == fired && dropped <= |fired|
            && end.pool.jobs == fired[|fired| - dropped..]
            && multiset(end.pool.finished) == multiset(fired[..|fired| - dropped])
  {
    var s0 := Next(s, Pool(P.Terminate));
    var end := Run(s0, moves);
    NextInv(s, Pool(P.Terminate));
    P.ShutdownStart(s.pool);
    ShutdownMoves(s0, moves);
    P.ShutdownEnd(end.pool);
    P.QuiescentFinished(end.pool);
    SplitAt(s.sched.dispatched, end.pool.started, end.pool.jobs);
  }
}
