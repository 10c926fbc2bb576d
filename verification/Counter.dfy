/** The delivery counter mCounter, which the receiving threads increment without a lock and a test
    driver resets and polls (SpeedTest.cc). */
module Counter {

  /** A thread in the middle of `mCounter++` has read a value and not yet written its successor. */
  datatype Thread = Out | Between(read: nat)

  /** `completed` counts the increments completed since the last reset. */
  datatype State = State(counter: nat, threads: seq<Thread>, completed: nat)

  datatype Step = Read(t: nat) | Write(t: nat)

  predicate Enabled(s: State, step: Step) {
    step.t < |s.threads| && (if step.Read? then s.threads[step.t].Out? else s.threads[step.t].Between?)
  }

  function Next(s: State, step: Step): State
    requires Enabled(s, step)
  {
    match step
    case Read(t) => s.(threads := s.threads[t := Between(s.counter)])
    case Write(t) =>
      s.(threads := s.threads[t := Out], counter := s.threads[t].read + 1, completed := s.completed + 1)
  }

  function Reset(s: State): State {
    s.(counter := 0, completed := 0)
  }

  predicate CanRun(s: State, steps: seq<Step>)
    decreases |steps|
  {
    steps == [] || (Enabled(s, steps[0]) && CanRun(Next(s, steps[0]), steps[1..]))
  }

  function Run(s: State, steps: seq<Step>): State
    requires CanRun(s, steps)
    decreases |steps|
  {
    if steps == [] then s else Run(Next(s, steps[0]), steps[1..])
  }

  predicate Sound(s: State) {
    s.counter <= s.completed && forall t :: 0 <= t < |s.threads| && s.threads[t].Between? ==> s.threads[t].read <= s.completed
  }

  lemma {:induction false} RunSound(s: State, steps: seq<Step>)
    requires Sound(s) && CanRun(s, steps)
    ensures Sound(Run(s, steps))
    decreases |steps|
  {
    if steps != [] {
      RunSound(Next(s, steps[0]), steps[1..]);
    }
  }

  /** No thread is in the middle of an increment with a value of before. */
  predicate CleanReset(s: State) {
    forall t :: 0 <= t < |s.threads| && s.threads[t].Between? ==> s.threads[t].read == 0
  }

  /** After a reset the counter is a lower bound on the increments completed since, in every run,
      exactly when no thread was then in the middle of an increment that had read more than 0. */
  lemma LowerBoundIff(s: State)
    ensures CleanReset(s) <==>
            forall steps :: CanRun(Reset(s), steps) ==> Run(Reset(s), steps).counter <= Run(Reset(s), steps).completed
  {
    if CleanReset(s) {
      forall steps | CanRun(Reset(s), steps) ensures Run(Reset(s), steps).counter <= Run(Reset(s), steps).completed {
        RunSound(Reset(s), steps);
      }
    } else {
      var t :| 0 <= t < |s.threads| && s.threads[t].Between? && s.threads[t].read != 0;
      var s1 := Next(Reset(s), Write(t));
      assert CanRun(s1, []) && Run(s1, []) == s1;
      assert [Write(t)][1..] == [];
      assert CanRun(Reset(s), [Write(t)]) && Run(Reset(s), [Write(t)]) == s1;
    }
  }

  /** So a wait for `threshold` after a clean reset ends only after that many deliveries. */
  lemma ThresholdReached(s: State, steps: seq<Step>, threshold: nat)
    requires CleanReset(s) && CanRun(Reset(s), steps) && Run(Reset(s), steps).counter >= threshold
    ensures Run(Reset(s), steps).completed >= threshold
  {
    RunSound(Reset(s), steps);
  }

  /** Rounds in which two threads read the same value: n rounds complete 2n increments and count n. */
  lemma {:induction false} UpdatesLost(s: State, n: nat) returns (steps: seq<Step>)
    requires |s.threads| >= 2 && forall t :: 0 <= t < |s.threads| ==> s.threads[t].Out?
    ensures CanRun(s, steps)
    ensures Run(s, steps) == s.(counter := s.counter + n, completed := s.completed + 2 * n)
    decreases n
  {
    if n == 0 {
      steps := [];
    } else {
      var s1 := Next(s, Read(0));
      var s2 := Next(s1, Read(1));
      var s3 := Next(s2, Write(0));
      var s4 := Next(s3, Write(1));
      assert s4 == s.(counter := s.counter + 1, completed := s.completed + 2) by {
        assert s4.threads == s.threads;
      }
      var rest := UpdatesLost(s4, n - 1);
      assert ([Write(1)] + rest)[1..] == rest;
      assert CanRun(s3, [Write(1)] + rest) && Run(s3, [Write(1)] + rest) == Run(s4, rest);
      var r2 := [Write(0)] + ([Write(1)] + rest);
      assert r2[1..] == [Write(1)] + rest;
      assert CanRun(s2, r2) && Run(s2, r2) == Run(s4, rest);
      var r1 := [Read(1)] + r2;
      assert r1[1..] == r2;
      assert CanRun(s1, r1) && Run(s1, r1) == Run(s4, rest);
      steps := [Read(0)] + r1;
      assert steps[1..] == r1;
    }
  }

  lemma {:induction false} RunConcat(s: State, xs: seq<Step>, ys: seq<Step>)
    requires CanRun(s, xs) && CanRun(Run(s, xs), ys)
    ensures CanRun(s, xs + ys) && Run(s, xs + ys) == Run(Run(s, xs), ys)
    decreases |xs|
  {
    if xs == [] {
      assert xs + ys == ys;
    } else {
      assert (xs + ys)[0] == xs[0] && (xs + ys)[1..] == xs[1..] + ys;
      RunConcat(Next(s, xs[0]), xs[1..], ys);
    }
  }

  /** Thread 1 increments n times. */
  lemma {:induction false} CountUp(s: State, n: nat) returns (steps: seq<Step>)
    requires |s.threads| >= 2 && s.threads[1].Out?
    ensures CanRun(s, steps)
    ensures Run(s, steps) == s.(counter := s.counter + n, completed := s.completed + n)
    decreases n
  {
    if n == 0 {
      steps := [];
    } else {
      var s1 := Next(s, Read(1));
      var s2 := Next(s1, Write(1));
      assert s2.threads == s.threads;
      var rest := CountUp(s2, n - 1);
      var once := [Read(1), Write(1)];
      assert once[1..] == [Write(1)] && once[1..][1..] == [];
      assert CanRun(s2, []) && CanRun(s1, [Write(1)]) && CanRun(s, once) && Run(s, once) == s2;
      RunConcat(s, once, rest);
      steps := once + rest;
    }
  }

  /** The counter can fall back as far as it has come: thread 0 reads it, thread 1 increments it n times,
      and thread 0 then writes the successor of what it has read. */
  lemma CounterFalls(s: State, n: nat) returns (steps: seq<Step>)
    requires |s.threads| >= 2 && s.threads[0].Out? && s.threads[1].Out?
    ensures CanRun(s, steps) && Run(s, steps).counter == s.counter + n
    ensures Enabled(Run(s, steps), Write(0)) && Next(Run(s, steps), Write(0)).counter == s.counter + 1
  {
    var s1 := Next(s, Read(0));
    var up := CountUp(s1, n);
    steps := [Read(0)] + up;
    assert steps[1..] == up;
  }
}
