/** When the pipeline can get stuck, and when it cannot.

    Mutexes are only taken in increasing rank, so the threads alone never deadlock.  A full pipe can:
    a stage that has read a unit wants its own mutex, while a writer holds that mutex and waits for
    room in the stage's pipe.  This situation, here called clogged, is the only obstruction, it never
    goes away, and it needs two more units than a pipe can hold. */
module PipelineProgress {
  import opened Headers
  import opened Sums
  import opened Pipeline
  import opened PipelineInvariant

  ghost predicate CloggedBy(cap: nat, s: State, p: Stage, t: nat)
    requires Shape(s)
  {
    |s.pipes[p]| == cap && s.pcs[p].Fetched? && t < |s.pcs| && s.pcs[t].Holding? && s.pcs[t].to == p
  }

  ghost predicate Clogged(cap: nat, s: State, p: Stage)
    requires Shape(s)
  {
    exists t: nat :: CloggedBy(cap, s, p, t)
  }

  /** Nothing is left to do: no submission waits, nothing is in a pipe, on the wire or in hand. */
  ghost predicate Idle(s: State)
    requires Shape(s)
  {
    && (forall t :: 0 <= t < |s.pcs| ==> s.pcs[t] == Parked)
    && (forall p :: 0 <= p < STAGES ==> s.pipes[p] == [])
    && s.wire == []
    && (forall c :: 0 <= c < |s.todo| ==> s.todo[c] == [])
  }

  ghost predicate ThreadCanStep(cap: nat, s: State)
    requires Shape(s)
  {
    exists act: Action :: !act.Lose? && Enabled(cap, s, act)
  }

  // ---------- No deadlock without a clogged pipe ----------

  /** The rank of the mutex a thread waits for. */
  function WaitRank(t: nat, pc: Pc): nat {
    match pc case Fetched(_) => t case Ready(_, to) => to case _ => STAGES
  }

  /** If a thread is busy, somebody can move: the thread itself, or the holder of the mutex it waits
      for, or the holder of the mutex, of higher rank, that this one waits for, and so on. */
  lemma {:induction false} BusyCanStep(cap: nat, s: State, t: nat)
    requires Inv(cap, s) && cap > 0 && t < |s.pcs| && s.pcs[t] != Parked
    requires forall q: Stage :: !Clogged(cap, s, q)
    ensures ThreadCanStep(cap, s)
    decreases STAGES - WaitRank(t, s.pcs[t])
  {
    assert PcOk(t, s.pcs[t]);
    match s.pcs[t]
    case Fetched(_) =>
      if s.locks[t] == Free {
        assert Enabled(cap, s, LockOwn(t));
      } else {
        HolderWaitsHigher(cap, s, t);
        BusyCanStep(cap, s, s.locks[t].thread);
      }
    case Ready(_, to) =>
      if s.locks[to] == Free {
        assert Enabled(cap, s, LockNext(t));
      } else {
        HolderWaitsHigher(cap, s, to);
        BusyCanStep(cap, s, s.locks[to].thread);
      }
    case Locked(_) => assert Enabled(cap, s, Work(t, Junk(0, seq(InfoSize(LayerOf(t)), _ => 0))));
    case Holding(_, _) => WriterCanStep(cap, s, t);
    case Wrote(_) => assert Enabled(cap, s, UnlockNext(t));
    case Closing => assert Enabled(cap, s, UnlockOwn(t));
  }

  /** The lock order: whoever holds mutex `p` waits, if at all, for one of higher rank. */
  lemma HolderWaitsHigher(cap: nat, s: State, p: Stage)
    requires Inv(cap, s) && s.locks[p] != Free
    ensures var t := s.locks[p].thread;
            t < |s.pcs| && s.pcs[t] != Parked && WaitRank(t, s.pcs[t]) > p
  {
    var t := s.locks[p].thread;
    assert Holds(t, s.pcs[t], p) && PcOk(t, s.pcs[t]);
  }

  /** A writer has room, or the reader of the full pipe can take from it. */
  lemma WriterCanStep(cap: nat, s: State, t: nat)
    requires Inv(cap, s) && cap > 0 && t < |s.pcs| && s.pcs[t].Holding?
    requires !Clogged(cap, s, s.pcs[t].to)
    ensures ThreadCanStep(cap, s)
  {
    var to := s.pcs[t].to;
    assert PcOk(t, s.pcs[t]);
    assert Holds(t, s.pcs[t], to) && s.locks[to] == HeldBy(t) && t != to;
    if |s.pipes[to]| < cap {
      assert Enabled(cap, s, Write(t));
    } else {
      assert !CloggedBy(cap, s, to, t);
      if Holds(to, s.pcs[to], to) {
        MutualExclusion(s, to, t, to);
      }
      assert PcOk(to, s.pcs[to]);
      assert Enabled(cap, s, Fetch(to));
    }
  }

  /** Deadlock freedom: with work left and no clogged pipe, some thread can move. */
  lemma Progress(cap: nat, s: State)
    requires Inv(cap, s) && cap > 0 && !Idle(s)
    requires forall q: Stage :: !Clogged(cap, s, q)
    ensures ThreadCanStep(cap, s)
  {
    if t :| 0 <= t < |s.pcs| && s.pcs[t] != Parked {
      BusyCanStep(cap, s, t);
    } else if p :| 0 <= p < STAGES && s.pipes[p] != [] {
      assert Enabled(cap, s, Fetch(p));
    } else if s.wire != [] {
      assert Enabled(cap, s, Fetch(READER));
    } else {
      var c :| 0 <= c < |s.todo| && s.todo[c] != [];
      assert Enabled(cap, s, Fetch(CLIENT + c));
    }
  }

  /** Exactly when a state is final for good: stuck and not idle means clogged, idle means neither. */
  lemma StuckIffIdle(cap: nat, s: State)
    requires Inv(cap, s) && cap > 0 && Stuck(cap, s)
    ensures Idle(s) <==> forall q: Stage :: !Clogged(cap, s, q)
  {
    if forall q: Stage :: !Clogged(cap, s, q) {
      if !Idle(s) {
        Progress(cap, s);
      }
    } else {
      var q: Stage :| Clogged(cap, s, q);
      assert s.pcs[q] != Parked;
    }
  }

  /** Neither the stage of a clogged pipe nor the blocked writer can act, and nobody else can write there. */
  lemma CloggedIsBlocked(cap: nat, s: State, p: Stage, t: nat, act: Action)
    requires Shape(s) && LocksOk(s) && CloggedBy(cap, s, p, t) && Enabled(cap, s, act) && !act.Lose?
    ensures act.t != p && act.t != t && !(act.Write? && s.pcs[act.t].to == p)
  {
    assert Holds(t, s.pcs[t], p);
  }

  /** A clogged pipe stays clogged whatever happens elsewhere. */
  lemma CloggedForever(cap: nat, s: State, p: Stage, act: Action)
    requires Shape(s) && LocksOk(s) && Clogged(cap, s, p) && Enabled(cap, s, act)
    ensures Clogged(cap, Next(cap, s, act), p)
  {
    var t: nat :| CloggedBy(cap, s, p, t);
    if !act.Lose? {
      CloggedIsBlocked(cap, s, p, t, act);
    }
    OthersUntouched(cap, s, act, p);
    OthersUntouched(cap, s, act, t);
    assert CloggedBy(cap, Next(cap, s, act), p, t);
  }

  /** A step changes only the program counter of its own thread, and only the pipe that thread
      reads or writes. */
  lemma OthersUntouched(cap: nat, s: State, act: Action, t: nat)
    requires Shape(s) && Enabled(cap, s, act)
    ensures t < |s.pcs| && (act.Lose? || act.t != t) ==> Next(cap, s, act).pcs[t] == s.pcs[t]
    ensures t < STAGES && !(act.Fetch? && act.t == t) && !(act.Write? && s.pcs[act.t].to == t) ==>
              Next(cap, s, act).pipes[t] == s.pipes[t]
  {
  }

  lemma {:induction false} CloggedRun(cap: nat, s: State, p: Stage, acts: seq<Action>)
    requires Inv(cap, s) && Clogged(cap, s, p) && CanRun(cap, s, acts)
    ensures Clogged(cap, Run(cap, s, acts), p) && !Idle(Run(cap, s, acts))
    decreases |acts|
  {
    if acts == [] {
      assert s.pcs[p] != Parked;
    } else {
      CloggedForever(cap, s, p, acts[0]);
      NextInv(cap, s, acts[0]);
      CloggedRun(cap, Next(cap, s, acts[0]), p, acts[1..]);
    }
  }

  // ---------- Termination ----------

  /** How many times a unit at thread `t` is still to be passed on. */
  function Depth(t: nat): nat {
    if t >= CLIENT then 10 else if t < TCP_SEND then 9 else if t < IP_SEND then 8 else if t == IP_SEND then 7
    else if t == ETH_SEND then 6 else if t == READER then 5 else if t == ETH_RECV then 4 else if t == IP_RECV then 3
    else if t < APP_RECV then 2 else 1
  }

  function PcWeight(t: nat, pc: Pc): nat {
    match pc
    case Parked => 0
    case Fetched(_) => 10 * Depth(t) - 1
    case Locked(_) => 10 * Depth(t) - 2
    case Ready(_, _) => 10 * Depth(t) - 3
    case Holding(_, _) => 10 * Depth(t) - 4
    case Wrote(_) => 2
    case Closing => 1
  }

  function PipeWeight(p: nat, pipe: seq<Unit>): nat {
    10 * Depth(p) * |pipe|
  }

  function TodoWeight(c: nat, subs: seq<Submission>): nat {
    100 * |subs|
  }

  /** An upper bound on the number of steps still possible. */
  function Measure(s: State): nat {
    Sum(Weigh(s.pcs, PcWeight)) + Sum(Weigh(s.pipes, PipeWeight)) + Sum(Weigh(s.todo, TodoWeight)) + 50 * |s.wire|
  }

  lemma FetchDecreases(s: State, t: nat)
    requires Shape(s) && Enabled(0, s, Fetch(t))
    ensures Measure(AfterFetch(s, t)) < Measure(s)
  {
    WeighUpdate(s.pcs, PcWeight, t, AfterFetch(s, t).pcs[t]);
    if t < STAGES {
      WeighUpdate(s.pipes, PipeWeight, t, s.pipes[t][1..]);
    } else if t >= CLIENT {
      WeighUpdate(s.todo, TodoWeight, t - CLIENT, s.todo[t - CLIENT][1..]);
      assert AfterFetch(s, t).pcs == s.pcs[t := AfterFetch(s, t).pcs[t]];
    }
  }

  lemma OneLess(t: nat, pc: Pc)
    requires pc.Holding? && PcOk(t, pc)
    ensures Depth(pc.to) == Depth(t) - 1
  {
  }

  lemma WriteDecreases(s: State, t: nat)
    requires Shape(s) && t < |s.pcs| && s.pcs[t].Holding? && Depth(s.pcs[t].to) == Depth(t) - 1
    ensures Measure(AfterWrite(s, t)) < Measure(s)
  {
    var Holding(u, to) := s.pcs[t];
    WeighUpdate(s.pcs, PcWeight, t, Wrote(to));
    WeighUpdate(s.pipes, PipeWeight, to, s.pipes[to] + [u]);
  }

  lemma WorkDecreases(s: State, t: Stage, effect: Effect)
    requires Shape(s) && t < |s.pcs| && s.pcs[t].Locked? && EffectOk(t, s.pcs[t].unit, effect)
    ensures Measure(AfterWork(s, t, effect)) < Measure(s)
  {
    WeighUpdate(s.pcs, PcWeight, t, AfterWork(s, t, effect).pcs[t]);
  }

  lemma OtherDecreases(cap: nat, s: State, act: Action)
    requires Shape(s) && Enabled(cap, s, act) && !act.Fetch? && !act.Write? && !act.Work?
    ensures Measure(Next(cap, s, act)) < Measure(s)
  {
    if !act.Lose? {
      WeighUpdate(s.pcs, PcWeight, act.t, Next(cap, s, act).pcs[act.t]);
    }
  }

  /** Every step, also a loss, lowers the measure. */
  lemma NextDecreases(cap: nat, s: State, act: Action)
    requires Inv(cap, s) && Enabled(cap, s, act)
    ensures Measure(Next(cap, s, act)) < Measure(s)
  {
    match act
    case Fetch(t) => FetchDecreases(s, t);
    case Write(t) => OneLess(t, s.pcs[t]); WriteDecreases(s, t);
    case Work(t, junk) =>
      assert PcOk(t, s.pcs[t]);
      StageWorkOk(t, s.pcs[t].unit, junk);
      WorkDecreases(s, t, StageWork(t, s.pcs[t].unit, junk));
    case _ => OtherDecreases(cap, s, act);
  }

  /** Every run is finite: it has at most as many steps as the measure of its first state. */
  lemma {:induction false} RunsEnd(cap: nat, s: State, acts: seq<Action>)
    requires Inv(cap, s) && CanRun(cap, s, acts)
    ensures |acts| + Measure(Run(cap, s, acts)) <= Measure(s)
    decreases |acts|
  {
    if acts != [] {
      NextDecreases(cap, s, acts[0]);
      NextInv(cap, s, acts[0]);
      RunsEnd(cap, Next(cap, s, acts[0]), acts[1..]);
    }
  }
}
