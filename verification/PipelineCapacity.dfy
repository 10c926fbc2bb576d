/** How many messages a pipe capacity is good for: with at most `cap + 1` messages under way no pipe is
    clogged. */
module PipelineCapacity {
  import opened Headers
  import opened Sums
  import opened Pipeline
  import opened PipelineInvariant
  import opened PipelineProgress
  import opened PipelineOrder
  import opened PipelineSides
  import opened PipelineDelivery

  function InHandCount(t: nat, pc: Pc): nat {
    |InHand(pc)|
  }

  function PipeCount(p: nat, pipe: seq<Unit>): nat {
    |pipe|
  }

  /** How many of these submissions are not refused. */
  function Accepted(subs: seq<Submission>): nat {
    if subs == [] then 0 else (if Refused(subs[0]) then 0 else 1) + Accepted(subs[1..])
  }

  function TodoCount(c: nat, subs: seq<Submission>): nat {
    Accepted(subs)
  }

  /** How many messages the clients hand in: all submissions but those msg_send refuses. */
  function Load(todo: seq<seq<Submission>>): nat {
    Sum(Weigh(todo, TodoCount))
  }

  /** The messages under way: in hand, in pipes and on the wire. */
  function Outstanding(s: State): nat {
    Sum(Weigh(s.pcs, InHandCount)) + Sum(Weigh(s.pipes, PipeCount)) + |s.wire|
  }

  /** All messages: those still to be submitted, and those under way. */
  function Population(s: State): nat {
    Load(s.todo) + Outstanding(s)
  }

  lemma FetchPopulation(s: State, t: nat)
    requires Shape(s) && Enabled(0, s, Fetch(t))
    ensures Population(AfterFetch(s, t)) == Population(s)
  {
    if t < STAGES {
      WeighUpdate(s.pcs, InHandCount, t, AfterFetch(s, t).pcs[t]);
      WeighUpdate(s.pipes, PipeCount, t, s.pipes[t][1..]);
    } else if t == READER {
      WeighUpdate(s.pcs, InHandCount, t, AfterFetch(s, t).pcs[t]);
    } else {
      TakePopulation(s, t - CLIENT);
    }
  }

  lemma TakePopulation(s: State, c: nat)
    requires Shape(s) && Enabled(0, s, Fetch(CLIENT + c))
    ensures Population(AfterFetch(s, CLIENT + c)) == Population(s)
  {
    var s' := AfterFetch(s, CLIENT + c);
    TargetRight(s.todo[c][0]);
    WeighUpdate(s.todo, TodoCount, c, s.todo[c][1..]);
    WeighUpdate(s.pcs, InHandCount, CLIENT + c, s'.pcs[CLIENT + c]);
    assert s'.pcs == s.pcs[CLIENT + c := s'.pcs[CLIENT + c]];
  }

  lemma WritePopulation(s: State, t: nat)
    requires Shape(s) && t < |s.pcs| && s.pcs[t].Holding?
    ensures Population(AfterWrite(s, t)) == Population(s)
  {
    var Holding(u, to) := s.pcs[t];
    WeighUpdate(s.pcs, InHandCount, t, Wrote(to));
    WeighUpdate(s.pipes, PipeCount, to, s.pipes[to] + [u]);
  }

  lemma WorkPopulation(s: State, t: Stage, effect: Effect)
    requires Shape(s) && t < |s.pcs| && s.pcs[t].Locked?
    ensures Population(AfterWork(s, t, effect)) <= Population(s)
  {
    WeighUpdate(s.pcs, InHandCount, t, AfterWork(s, t, effect).pcs[t]);
    assert s.pcs[t := s.pcs[t]] == s.pcs;
  }

  lemma OtherPopulation(cap: nat, s: State, act: Action)
    requires Shape(s) && Enabled(cap, s, act) && !act.Fetch? && !act.Write? && !act.Work?
    ensures Population(Next(cap, s, act)) == Population(s) - if act.Lose? then 1 else 0
  {
    if !act.Lose? {
      WeighUpdate(s.pcs, InHandCount, act.t, Next(cap, s, act).pcs[act.t]);
    }
  }

  /** No step makes messages. */
  lemma {:induction false} RunPopulation(cap: nat, s: State, acts: seq<Action>)
    requires Shape(s) && CanRun(cap, s, acts)
    ensures Population(Run(cap, s, acts)) <= Population(s)
    decreases |acts|
  {
    if acts != [] {
      match acts[0] {
        case Fetch(t) => FetchPopulation(s, t);
        case Write(t) => WritePopulation(s, t);
        case Work(t, junk) => WorkPopulation(s, t, StageWork(t, s.pcs[t].unit, junk));
        case _ => OtherPopulation(cap, s, acts[0]);
      }
      RunPopulation(cap, Next(cap, s, acts[0]), acts[1..]);
    }
  }

  /** A clogged pipe takes `cap` messages in the pipe and two in hand. */
  lemma CloggedOutstanding(cap: nat, s: State, p: Stage)
    requires Shape(s) && Clogged(cap, s, p)
    ensures Outstanding(s) >= cap + 2
  {
    var t: nat :| CloggedBy(cap, s, p, t);
    assert InHandCount(p, s.pcs[p]) == InHandCount(t, s.pcs[t]) == 1 && PipeCount(p, s.pipes[p]) == cap;
    SumTwo(Weigh(s.pcs, InHandCount), p, t);
    SumUpdate(Weigh(s.pipes, PipeCount), p, 0);
  }

  /** Deadlock freedom in terms of load: in every reachable state with at most `cap + 1` messages under
      way and work left, some thread can move. */
  lemma ProgressWithinCapacity(cap: nat, todo: seq<seq<Submission>>, acts: seq<Action>)
    requires cap > 0 && CanRun(cap, Initial(todo), acts)
    requires AllSubmittable(todo)
    requires Outstanding(Run(cap, Initial(todo), acts)) <= cap + 1 && !Idle(Run(cap, Initial(todo), acts))
    ensures ThreadCanStep(cap, Run(cap, Initial(todo), acts))
  {
    var s := Run(cap, Initial(todo), acts);
    InitialInv(cap, todo);
    RunInv(cap, Initial(todo), acts);
    forall q: Stage ensures !Clogged(cap, s, q) {
      if Clogged(cap, s, q) {
        CloggedOutstanding(cap, s, q);
      }
    }
    Progress(cap, s);
  }

  lemma InitialPopulation(todo: seq<seq<Submission>>)
    ensures Population(Initial(todo)) == Load(todo)
  {
    var s := Initial(todo);
    forall t | 0 <= t < |s.pcs| ensures Weigh(s.pcs, InHandCount)[t] == 0 {
      assert InHandCount(t, s.pcs[t]) == 0;
    }
    forall p | 0 <= p < |s.pipes| ensures Weigh(s.pipes, PipeCount)[p] == 0 {
      assert PipeCount(p, s.pipes[p]) == 0;
    }
    SumZero(Weigh(s.pcs, InHandCount));
    SumZero(Weigh(s.pipes, PipeCount));
  }

  /** With at most `cap + 1` messages handed in, no run ever clogs a pipe. */
  lemma NeverClogged(cap: nat, todo: seq<seq<Submission>>, acts: seq<Action>, p: Stage)
    requires CanRun(cap, Initial(todo), acts) && Load(todo) <= cap + 1
    ensures !Clogged(cap, Run(cap, Initial(todo), acts), p)
  {
    InitialPopulation(todo);
    RunPopulation(cap, Initial(todo), acts);
    if Clogged(cap, Run(cap, Initial(todo), acts), p) {
      CloggedOutstanding(cap, Run(cap, Initial(todo), acts), p);
    }
  }

  /** However much is submitted over time: a run that can no longer go on and has at most `cap + 1`
      messages left under way has none left, and has delivered everything. */
  lemma LightLoadDelivered(cap: nat, todo: seq<seq<Submission>>, acts: seq<Action>, c: nat, a: App, remote: set<nat>)
    requires cap > 0 && c < |todo| && Separate(todo, remote)
    requires AllSubmittable(todo)
    requires CanRun(cap, Initial(todo), acts) && Lossless(acts) && Stuck(cap, Run(cap, Initial(todo), acts))
    requires Outstanding(Run(cap, Initial(todo), acts)) <= cap + 1
    ensures ByClient(c, Run(cap, Initial(todo), acts).delivered[AppIndex(a)]) == Program(todo[c], a)
  {
    forall p: Stage ensures !Clogged(cap, Run(cap, Initial(todo), acts), p) {
      if Clogged(cap, Run(cap, Initial(todo), acts), p) {
        CloggedOutstanding(cap, Run(cap, Initial(todo), acts), p);
      }
    }
    EverythingDelivered(cap, todo, acts, c, a, remote);
  }

  /** So a load of at most `cap + 1` messages is always delivered completely, client by client in
      program order, however the threads are scheduled. */
  lemma SmallLoadDelivered(cap: nat, todo: seq<seq<Submission>>, acts: seq<Action>, c: nat, a: App, remote: set<nat>)
    requires cap > 0 && c < |todo| && Separate(todo, remote) && Load(todo) <= cap + 1
    requires AllSubmittable(todo)
    requires CanRun(cap, Initial(todo), acts) && Lossless(acts) && Stuck(cap, Run(cap, Initial(todo), acts))
    ensures ByClient(c, Run(cap, Initial(todo), acts).delivered[AppIndex(a)]) == Program(todo[c], a)
  {
    forall p: Stage ensures !Clogged(cap, Run(cap, Initial(todo), acts), p) {
      NeverClogged(cap, todo, acts, p);
    }
    EverythingDelivered(cap, todo, acts, c, a, remote);
  }
}
