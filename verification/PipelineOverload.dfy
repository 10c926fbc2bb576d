/** One message too many: whatever `cap + 2` messages the clients hand in, there is a run that clogs a
    pipe with them.  So a load is always delivered exactly when it is at most `cap + 1` messages. */
module PipelineOverload {
  import opened Sums
  import opened Pipeline
  import opened PipelineInvariant
  import opened PipelineProgress
  import opened PipelineSides
  import opened PipelineDelivery
  import opened PipelineCapacity

  // ---------- Reachability without losses ----------

  lemma {:induction false} RunConcat(cap: nat, s: State, xs: seq<Action>, ys: seq<Action>)
    requires Shape(s) && CanRun(cap, s, xs) && CanRun(cap, Run(cap, s, xs), ys)
    ensures CanRun(cap, s, xs + ys) && Run(cap, s, xs + ys) == Run(cap, Run(cap, s, xs), ys)
    decreases |xs|
  {
    if xs == [] {
      assert xs + ys == ys;
    } else {
      assert (xs + ys)[0] == xs[0] && (xs + ys)[1..] == xs[1..] + ys;
      var s1 := Next(cap, s, xs[0]);
      RunConcat(cap, s1, xs[1..], ys);
    }
  }

  ghost predicate Reaches(cap: nat, s: State, s': State)
    requires Shape(s)
  {
    exists acts :: CanRun(cap, s, acts) && Lossless(acts) && Run(cap, s, acts) == s'
  }

  lemma ReachesSelf(cap: nat, s: State)
    requires Shape(s)
    ensures Reaches(cap, s, s)
  {
    var none: seq<Action> := [];
    assert CanRun(cap, s, none) && Lossless(none) && Run(cap, s, none) == s;
  }

  lemma ReachesNext(cap: nat, s: State, act: Action)
    requires Shape(s) && Enabled(cap, s, act) && !act.Lose?
    ensures Reaches(cap, s, Next(cap, s, act))
  {
    var none: seq<Action> := [];
    assert [act][1..] == none && CanRun(cap, Next(cap, s, act), none);
    assert CanRun(cap, s, [act]) && Lossless([act]) && Run(cap, s, [act]) == Next(cap, s, act);
  }

  lemma ReachesOn(cap: nat, s: State, s': State, s'': State)
    requires Shape(s) && Shape(s') && Reaches(cap, s, s') && Reaches(cap, s', s'')
    ensures Reaches(cap, s, s'')
  {
    var xs :| CanRun(cap, s, xs) && Lossless(xs) && Run(cap, s, xs) == s';
    var ys :| CanRun(cap, s', ys) && Lossless(ys) && Run(cap, s', ys) == s'';
    RunConcat(cap, s, xs, ys);
    assert Lossless(xs + ys);
  }

  // ---------- Everything onto the wire ----------

  /** Nothing has been read from the wire yet. */
  ghost predicate Unread(s: State)
    requires Shape(s)
  {
    && (forall t :: ETH_RECV <= t <= READER ==> s.pcs[t] == Parked)
    && (forall p :: ETH_RECV <= p < STAGES ==> s.pipes[p] == [])
  }

  predicate Sends(act: Action) {
    !act.Lose? && (act.t <= ETH_SEND || act.t >= CLIENT)
  }

  /** All that is left is on the wire. */
  ghost predicate Drained(s: State)
    requires Shape(s)
  {
    Idle(s.(wire := []))
  }

  lemma SendEnabled(cap: nat, s: State, act: Action)
    requires Shape(s) && Unread(s) && !act.Lose? && Enabled(cap, s.(wire := []), act)
    ensures Enabled(cap, s, act) && Sends(act)
  {
  }

  lemma EmptyWire(cap: nat, s: State)
    requires Inv(cap, s)
    ensures Inv(cap, s.(wire := []))
    ensures forall q: Stage :: Clogged(cap, s.(wire := []), q) ==> Clogged(cap, s, q)
  {
    forall q: Stage | Clogged(cap, s.(wire := []), q) ensures Clogged(cap, s, q) {
      var t: nat :| CloggedBy(cap, s.(wire := []), q, t);
      assert CloggedBy(cap, s, q, t);
    }
  }

  /** While something is left before the wire and no pipe is clogged, the sending side can move: seen from
      there, the wire might as well be empty. */
  lemma SendProgress(cap: nat, s: State) returns (act: Action)
    requires Inv(cap, s) && cap > 0 && Unread(s) && !Drained(s) && forall q: Stage :: !Clogged(cap, s, q)
    ensures Enabled(cap, s, act) && Sends(act)
  {
    EmptyWire(cap, s);
    Progress(cap, s.(wire := []));
    act :| !act.Lose? && Enabled(cap, s.(wire := []), act);
    SendEnabled(cap, s, act);
  }

  lemma SendKeepsUnread(cap: nat, s: State, act: Action)
    requires Inv(cap, s) && Unread(s) && Enabled(cap, s, act) && Sends(act)
    ensures Unread(Next(cap, s, act))
  {
    assert PcOk(act.t, s.pcs[act.t]);
    if act.Work? {
      StageWorkOk(act.t, s.pcs[act.t].unit, act.junk);
    }
  }

  /** No message is lost on the way to the wire. */
  lemma SendPopulation(cap: nat, s: State, act: Action)
    requires Inv(cap, s) && Enabled(cap, s, act) && Sends(act)
    ensures Population(Next(cap, s, act)) == Population(s)
  {
    match act
    case Fetch(t) => FetchPopulation(s, t);
    case Write(t) => WritePopulation(s, t);
    case Work(t, junk) =>
      assert PcOk(t, s.pcs[t]);
      StageWorkOk(t, s.pcs[t].unit, junk);
      SentPopulation(s, t, StageWork(t, s.pcs[t].unit, junk));
    case _ => OtherPopulation(cap, s, act);
  }

  lemma SentPopulation(s: State, t: Stage, effect: Effect)
    requires Shape(s) && t < |s.pcs| && s.pcs[t].Locked? && (effect.Emit? || effect.OnWire?)
    ensures Population(AfterWork(s, t, effect)) == Population(s)
  {
    WeighUpdate(s.pcs, InHandCount, t, AfterWork(s, t, effect).pcs[t]);
  }

  lemma DrainedPopulation(s: State)
    requires Shape(s) && Drained(s)
    ensures Population(s) == |s.wire|
  {
    forall t | 0 <= t < |s.pcs| ensures Weigh(s.pcs, InHandCount)[t] == 0 {
      assert InHandCount(t, s.pcs[t]) == 0;
    }
    forall p | 0 <= p < |s.pipes| ensures Weigh(s.pipes, PipeCount)[p] == 0 {
      assert PipeCount(p, s.pipes[p]) == 0;
    }
    forall c | 0 <= c < |s.todo| ensures Weigh(s.todo, TodoCount)[c] == 0 {
      assert TodoCount(c, s.todo[c]) == 0;
    }
    SumZero(Weigh(s.pcs, InHandCount));
    SumZero(Weigh(s.pipes, PipeCount));
    SumZero(Weigh(s.todo, TodoCount));
  }

  ghost predicate SomeClogged(cap: nat, s: State)
    requires Shape(s)
  {
    exists q: Stage :: Clogged(cap, s, q)
  }

  /** Letting the sending side run brings every message onto the wire, unless a pipe clogs on the way. */
  lemma {:induction false} Drain(cap: nat, s: State) returns (s': State)
    requires Inv(cap, s) && cap > 0 && Unread(s)
    ensures Reaches(cap, s, s') && Inv(cap, s') && Unread(s')
    ensures SomeClogged(cap, s') || (Drained(s') && |s'.wire| == Population(s))
    decreases Measure(s)
  {
    if SomeClogged(cap, s) || Drained(s) {
      ReachesSelf(cap, s);
      s' := s;
      if Drained(s) {
        DrainedPopulation(s);
      }
    } else {
      var act := SendProgress(cap, s);
      var s1 := Next(cap, s, act);
      NextInv(cap, s, act);
      SendKeepsUnread(cap, s, act);
      SendPopulation(cap, s, act);
      NextDecreases(cap, s, act);
      ReachesNext(cap, s, act);
      s' := Drain(cap, s1);
      ReachesOn(cap, s, s1, s');
    }
  }

  // ---------- From the wire into the first receiving pipe ----------

  /** The socket reader is at `pc`, m datagrams are on the wire, and k units are in Ethernet's receive pipe. */
  predicate Filling(s: State, k: nat, m: nat, pc: Pc, lock: Mutex) {
    && Shape(s) && !s.crashed
    && s.pcs[READER] == pc && s.locks[ETH_RECV] == lock
    && |s.pipes[ETH_RECV]| == k && |s.wire| == m
  }

  /** The reader takes the next datagram and locks the mutex. */
  lemma TakeUp(cap: nat, s: State, k: nat, m: nat) returns (s': State, u: Unit)
    requires Filling(s, k, m, Parked, Free) && m > 0
    ensures Filling(s', k, m - 1, Holding(u, ETH_RECV), HeldBy(READER))
    ensures s'.pcs[ETH_RECV] == s.pcs[ETH_RECV] && Reaches(cap, s, s')
  {
    var s1 := Next(cap, s, Fetch(READER));
    u := s1.pcs[READER].unit;
    ReachesNext(cap, s, Fetch(READER));
    s' := Next(cap, s1, LockNext(READER));
    ReachesNext(cap, s1, LockNext(READER));
    ReachesOn(cap, s, s1, s');
  }

  /** It writes, which it can while there is room, and unlocks. */
  lemma HandIn(cap: nat, s: State, k: nat, m: nat, u: Unit) returns (s': State)
    requires Filling(s, k, m, Holding(u, ETH_RECV), HeldBy(READER)) && k < cap
    ensures Filling(s', k + 1, m, Parked, Free) && s'.pcs[ETH_RECV] == s.pcs[ETH_RECV] && Reaches(cap, s, s')
  {
    var s1 := Next(cap, s, Write(READER));
    ReachesNext(cap, s, Write(READER));
    s' := Next(cap, s1, UnlockNext(READER));
    ReachesNext(cap, s1, UnlockNext(READER));
    ReachesOn(cap, s, s1, s');
  }

  lemma {:induction false} FillPipe(cap: nat, s: State, k: nat, m: nat) returns (s': State)
    requires Filling(s, k, m, Parked, Free) && k <= cap <= k + m
    ensures Filling(s', cap, k + m - cap, Parked, Free) && s'.pcs[ETH_RECV] == s.pcs[ETH_RECV] && Reaches(cap, s, s')
    decreases cap - k
  {
    if k == cap {
      s' := s;
      ReachesSelf(cap, s);
    } else {
      var s1, u := TakeUp(cap, s, k, m);
      var s2 := HandIn(cap, s1, k, m - 1, u);
      s' := FillPipe(cap, s2, k + 1, m - 1);
      ReachesOn(cap, s, s1, s2);
      ReachesOn(cap, s, s2, s');
    }
  }

  /** With `cap + 2` datagrams on the wire: the stage reads the first, the next `cap` fill its pipe, and
      the last one blocks the reader. */
  lemma FillAndClog(cap: nat, s: State, m: nat) returns (s': State)
    requires cap > 0 && Filling(s, 0, m, Parked, Free) && m >= cap + 2 && s.pcs[ETH_RECV] == Parked
    ensures Reaches(cap, s, s') && Shape(s') && Clogged(cap, s', ETH_RECV)
  {
    var s1, u1 := TakeUp(cap, s, 0, m);
    var s2 := HandIn(cap, s1, 0, m - 1, u1);
    ReachesNext(cap, s2, Fetch(ETH_RECV));
    var s3 := Next(cap, s2, Fetch(ETH_RECV));
    var s4 := FillPipe(cap, s3, 0, m - 1);
    var u;
    s', u := TakeUp(cap, s4, cap, m - 1 - cap);
    ReachesOn(cap, s, s1, s2);
    ReachesOn(cap, s, s2, s3);
    ReachesOn(cap, s, s3, s4);
    ReachesOn(cap, s, s4, s');
    assert CloggedBy(cap, s', ETH_RECV, READER);
  }

  lemma AllFree(cap: nat, s: State)
    requires Inv(cap, s) && Drained(s)
    ensures s.locks[ETH_RECV] == Free
  {
  }

  // ---------- The exact load ----------

  /** Any load of `cap + 2` messages can clog a pipe, whoever hands them in, for whatever applications, and
      with nothing lost. */
  lemma CanClog(cap: nat, todo: seq<seq<Submission>>) returns (acts: seq<Action>)
    requires cap > 0 && AllSubmittable(todo) && Load(todo) >= cap + 2
    ensures CanRun(cap, Initial(todo), acts) && Lossless(acts) && SomeClogged(cap, Run(cap, Initial(todo), acts))
  {
    var s0 := Initial(todo);
    InitialInv(cap, todo);
    InitialPopulation(todo);
    var s := Drain(cap, s0);
    if !SomeClogged(cap, s) {
      AllFree(cap, s);
      var s' := FillAndClog(cap, s, |s.wire|);
      ReachesOn(cap, s0, s, s');
      s := s';
    }
    acts :| CanRun(cap, s0, acts) && Lossless(acts) && Run(cap, s0, acts) == s;
  }

  /** This run of a system with this program clogs a pipe. */
  ghost predicate ClogRun(cap: nat, todo: seq<seq<Submission>>, acts: seq<Action>) {
    CanRun(cap, Initial(todo), acts) && SomeClogged(cap, Run(cap, Initial(todo), acts))
  }

  /** Exactly when the clients' load can clog a pipe. */
  lemma ClogsIff(cap: nat, todo: seq<seq<Submission>>)
    requires cap > 0 && AllSubmittable(todo)
    ensures (exists acts :: ClogRun(cap, todo, acts)) <==> Load(todo) >= cap + 2
  {
    if Load(todo) >= cap + 2 {
      var acts := CanClog(cap, todo);
      assert ClogRun(cap, todo, acts);
    } else {
      forall acts | CanRun(cap, Initial(todo), acts) ensures !ClogRun(cap, todo, acts) {
        forall p: Stage ensures !Clogged(cap, Run(cap, Initial(todo), acts), p) {
          NeverClogged(cap, todo, acts, p);
        }
      }
    }
  }

  /** Every state has a lossless run to its end. */
  lemma {:induction false} RunOut(cap: nat, s: State) returns (acts: seq<Action>)
    requires Inv(cap, s)
    ensures CanRun(cap, s, acts) && Lossless(acts) && Stuck(cap, Run(cap, s, acts))
    decreases Measure(s)
  {
    if act :| Enabled(cap, s, act) && !act.Lose? {
      NextInv(cap, s, act);
      NextDecreases(cap, s, act);
      var rest := RunOut(cap, Next(cap, s, act));
      acts := [act] + rest;
      assert acts[1..] == rest;
    } else {
      acts := [];
    }
  }

  /** Every lossless run that has come to its end has delivered every client's program completely and in
      order. */
  ghost predicate AlwaysDelivers(cap: nat, todo: seq<seq<Submission>>) {
    forall acts, c, a ::
      CanRun(cap, Initial(todo), acts) && Lossless(acts) && Stuck(cap, Run(cap, Initial(todo), acts)) && 0 <= c < |todo|
      ==> ByClient(c, Run(cap, Initial(todo), acts).delivered[AppIndex(a)]) == Program(todo[c], a)
  }

  /** The load that is safe: everything is always delivered exactly when the clients hand in at most
      `cap + 1` messages. */
  lemma DeliversIff(cap: nat, todo: seq<seq<Submission>>, remote: set<nat>)
    requires cap > 0 && AllSubmittable(todo) && Separate(todo, remote)
    ensures AlwaysDelivers(cap, todo) <==> Load(todo) <= cap + 1
  {
    if Load(todo) <= cap + 1 {
      forall acts, c, a |
        CanRun(cap, Initial(todo), acts) && Lossless(acts) && Stuck(cap, Run(cap, Initial(todo), acts)) && 0 <= c < |todo|
        ensures ByClient(c, Run(cap, Initial(todo), acts).delivered[AppIndex(a)]) == Program(todo[c], a)
      {
        SmallLoadDelivered(cap, todo, acts, c, a, remote);
      }
    } else {
      var acts, p := ClogForGood(cap, todo);
      var c, a := CloggedLosesMessages(cap, todo, acts, p, remote);
      assert ByClient(c, Run(cap, Initial(todo), acts).delivered[AppIndex(a)]) != Program(todo[c], a);
    }
  }

  lemma ClogForGood(cap: nat, todo: seq<seq<Submission>>) returns (acts: seq<Action>, p: Stage)
    requires cap > 0 && AllSubmittable(todo) && Load(todo) >= cap + 2
    ensures CanRun(cap, Initial(todo), acts) && Lossless(acts) && Stuck(cap, Run(cap, Initial(todo), acts))
    ensures Clogged(cap, Run(cap, Initial(todo), acts), p)
  {
    var first := CanClog(cap, todo);
    var s := Run(cap, Initial(todo), first);
    p :| Clogged(cap, s, p);
    InitialInv(cap, todo);
    RunInv(cap, Initial(todo), first);
    var rest := RunOut(cap, s);
    CloggedRun(cap, s, p, rest);
    RunConcat(cap, Initial(todo), first, rest);
    acts := first + rest;
  }
}
