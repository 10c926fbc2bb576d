/** The main results about the pipeline: over every interleaving, each application gets exactly what
    was submitted to it, in order; every run ends; and it ends with everything delivered exactly when
    no pipe is clogged. */
module PipelineDelivery {
  import opened Headers
  import opened Seqs
  import opened Pipeline
  import opened PipelineInvariant
  import opened PipelineProgress
  import opened PipelineOrder
  import opened PipelineSides

  predicate Lossless(acts: seq<Action>) {
    forall i :: 0 <= i < |acts| ==> !acts[i].Lose?
  }

  /** What a step adds to the log of a side. */
  lemma SubmittedSide(cap: nat, s: State, act: Action, a: App, remote: set<nat>, side: bool)
    requires Shape(s) && Enabled(cap, s, act)
    ensures OfSide(remote, side, Next(cap, s, act).submitted[AppIndex(a)])
            == OfSide(remote, side, s.submitted[AppIndex(a)]) + OfSide(remote, side, Submits(s, act, a))
    ensures |OfSide(remote, side, Submits(s, act, a))| <= 1
  {
    var m := Submits(s, act, a);
    NextSubmitted(cap, s, act, a);
    OfSideConcat(remote, side, s.submitted[AppIndex(a)], m);
    if m != [] {
      OfSideOne(remote, side, m[0]);
    }
  }

  /** Per application and side: delivered, followed by what is on its way, is what was submitted. */
  ghost predicate Complete(s: State, remote: set<nat>)
    requires Shape(s)
  {
    forall a: App, side: bool ::
      OfSide(remote, side, Journey(s, a)) == OfSide(remote, side, s.submitted[AppIndex(a)])
  }

  lemma StepComplete(cap: nat, s: State, act: Action, remote: set<nat>)
    requires Inv(cap, s) && Sources(s, remote) && Enabled(cap, s, act) && !act.Lose? && Complete(s, remote)
    ensures Complete(Next(cap, s, act), remote)
  {
    var s' := Next(cap, s, act);
    forall a: App, side: bool
      ensures OfSide(remote, side, Journey(s', a)) == OfSide(remote, side, s'.submitted[AppIndex(a)])
    {
      NextSide(cap, s, act, a, remote, side);
      SubmittedSide(cap, s, act, a, remote, side);
    }
  }

  /** FIFO and exactly once, per application and side, at every moment of every lossless run. */
  lemma {:induction false} LosslessOrder(cap: nat, s: State, acts: seq<Action>, remote: set<nat>)
    requires Inv(cap, s) && Sources(s, remote) && CanRun(cap, s, acts) && Lossless(acts) && Complete(s, remote)
    ensures Complete(Run(cap, s, acts), remote)
    decreases |acts|
  {
    if acts != [] {
      StepComplete(cap, s, acts[0], remote);
      NextInv(cap, s, acts[0]);
      NextSources(cap, s, acts[0], remote);
      LosslessOrder(cap, Next(cap, s, acts[0]), acts[1..], remote);
    }
  }

  /** A side's messages are a subsequence of those submitted there. */
  ghost predicate InOrder(s: State, a: App, remote: set<nat>, side: bool)
    requires Shape(s)
  {
    Sublist(OfSide(remote, side, Journey(s, a)), OfSide(remote, side, s.submitted[AppIndex(a)]))
  }

  lemma StepInOrder(cap: nat, s: State, act: Action, a: App, remote: set<nat>, side: bool)
    requires Inv(cap, s) && Sources(s, remote) && Enabled(cap, s, act) && !act.Lose? && InOrder(s, a, remote, side)
    ensures InOrder(Next(cap, s, act), a, remote, side)
  {
    NextSide(cap, s, act, a, remote, side);
    SubmittedSide(cap, s, act, a, remote, side);
    SublistSnoc(OfSide(remote, side, Journey(s, a)), OfSide(remote, side, s.submitted[AppIndex(a)]),
                OfSide(remote, side, Submits(s, act, a)));
  }

  lemma LoseInOrder(s: State, i: nat, a: App, remote: set<nat>, side: bool)
    requires Shape(s) && i < |s.wire| && !s.crashed && InOrder(s, a, remote, side)
    ensures InOrder(Next(0, s, Lose(i)), a, remote, side)
  {
    LoseSide(s, i, a, remote, side);
    ShortenedSublist(OfSide(remote, side, Journey(s, a)), OfSide(remote, side, Journey(Next(0, s, Lose(i)), a)),
                     OfSide(remote, side, s.submitted[AppIndex(a)]));
  }

  lemma ShortenedSublist(all: seq<Note>, cut: seq<Note>, log: seq<Note>)
    requires Shortened(all, cut) && Sublist(all, log)
    ensures Sublist(cut, log)
  {
    if cut != all {
      var j :| 0 <= j < |all| && cut == all[..j] + all[j + 1..];
      SublistWithout(all, j, log);
    }
  }

  ghost predicate AllInOrder(s: State, remote: set<nat>)
    requires Shape(s)
  {
    forall a: App, side: bool :: InOrder(s, a, remote, side)
  }

  lemma NextInOrder(cap: nat, s: State, act: Action, remote: set<nat>)
    requires Inv(cap, s) && Sources(s, remote) && Enabled(cap, s, act) && AllInOrder(s, remote)
    ensures AllInOrder(Next(cap, s, act), remote)
  {
    forall a: App, side: bool ensures InOrder(Next(cap, s, act), a, remote, side) {
      if act.Lose? {
        LoseInOrder(s, act.index, a, remote, side);
      } else {
        StepInOrder(cap, s, act, a, remote, side);
      }
    }
  }

  /** With losses, order is kept and nothing is duplicated or invented. */
  lemma {:induction false} LossyOrder(cap: nat, s: State, acts: seq<Action>, remote: set<nat>)
    requires Inv(cap, s) && Sources(s, remote) && CanRun(cap, s, acts) && AllInOrder(s, remote)
    ensures AllInOrder(Run(cap, s, acts), remote)
    decreases |acts|
  {
    if acts != [] {
      NextInOrder(cap, s, acts[0], remote);
      NextInv(cap, s, acts[0]);
      NextSources(cap, s, acts[0], remote);
      LossyOrder(cap, Next(cap, s, acts[0]), acts[1..], remote);
    }
  }

  ghost predicate AllSubmittable(todo: seq<seq<Submission>>) {
    forall c, i :: 0 <= c < |todo| && 0 <= i < |todo[c]| ==> Submittable(todo[c][i])
  }

  /** Whatever the network loses, an application gets from each side a subsequence of what was submitted
      to it there; if nothing is lost, a prefix.  Without senders of PerMessage.h there is one side only. */
  lemma DeliveredInOrder(cap: nat, todo: seq<seq<Submission>>, acts: seq<Action>, a: App, remote: set<nat>, side: bool)
    requires AllSubmittable(todo) && Separate(todo, remote) && CanRun(cap, Initial(todo), acts)
    ensures var s, i := Run(cap, Initial(todo), acts), AppIndex(a);
            var got, sent := OfSide(remote, side, s.delivered[i]), OfSide(remote, side, s.submitted[i]);
            && Sublist(got, sent) && (Lossless(acts) ==> got <= sent)
            && (remote == {} && !side ==> got == s.delivered[i] && sent == s.submitted[i])
  {
    var s, i := Run(cap, Initial(todo), acts), AppIndex(a);
    InitialInv(cap, todo);
    InitialSources(todo, remote);
    InitialComplete(todo, remote);
    OfSideConcat(remote, side, s.delivered[i], OnTheWay(Nodes(s), a));
    LossyOrder(cap, Initial(todo), acts, remote);
    assert InOrder(s, a, remote, side);
    SublistFront(OfSide(remote, side, s.delivered[i]), OfSide(remote, side, OnTheWay(Nodes(s), a)),
                 OfSide(remote, side, s.submitted[i]));
    if Lossless(acts) {
      LosslessOrder(cap, Initial(todo), acts, remote);
    }
    OfSideAll(s.delivered[i]);
    OfSideAll(s.submitted[i]);
  }

  lemma NothingOnTheWay(nodes: seq<seq<Origin>>, a: App)
    requires |nodes| == CLIENT && forall t :: 0 <= t < CLIENT ==> nodes[t] == []
    ensures OnTheWay(nodes, a) == []
  {
    forall k | 0 <= k < 9 ensures AlongPath(NotesAt(nodes, a), a)[k] == [] {
      PlacesUnique(a);
      assert nodes[ThreadAt(a, k)] == [];
    }
    FlattenEmpty(AlongPath(NotesAt(nodes, a), a));
  }

  lemma InitialJourney(todo: seq<seq<Submission>>, a: App)
    ensures Journey(Initial(todo), a) == [] == Initial(todo).submitted[AppIndex(a)]
  {
    NothingOnTheWay(Nodes(Initial(todo)), a);
  }

  lemma InitialComplete(todo: seq<seq<Submission>>, remote: set<nat>)
    ensures Complete(Initial(todo), remote) && AllInOrder(Initial(todo), remote)
  {
    forall a: App, side: bool
      ensures OfSide(remote, side, Journey(Initial(todo), a)) == [] == OfSide(remote, side, Initial(todo).submitted[AppIndex(a)])
    {
      InitialJourney(todo, a);
    }
  }

  // ---------- Order of one client ----------

  /** What client c's program sends to application `a`. */
  function Program(subs: seq<Submission>, a: App): seq<Bytes> {
    if subs == [] then []
    else (if IsFor(subs[0], a) then [subs[0].payload] else []) + Program(subs[1..], a)
  }

  function ByClient(c: nat, notes: seq<Note>): seq<Bytes> {
    if notes == [] then []
    else
      var n := |notes| - 1;
      ByClient(c, notes[..n]) + if notes[n].client == c then [notes[n].payload] else []
  }

  lemma {:induction false} ByClientConcat(c: nat, xs: seq<Note>, ys: seq<Note>)
    ensures ByClient(c, xs + ys) == ByClient(c, xs) + ByClient(c, ys)
  {
    if ys == [] {
      assert xs + ys == xs;
    } else {
      var n := |ys| - 1;
      ByClientConcat(c, xs, ys[..n]);
      assert (xs + ys)[..|xs + ys| - 1] == xs + ys[..n];
    }
  }

  /** What client c has still to write to application `a`. */
  function Pending(s: State, c: nat, a: App): seq<Bytes>
    requires Shape(s) && c < |s.todo|
  {
    HandFor(InHand(s.pcs[CLIENT + c]), a) + Program(s.todo[c], a)
  }

  function HandFor(hand: seq<Unit>, a: App): seq<Bytes> {
    if hand != [] && hand[0].origin.app == a then [hand[0].origin.payload] else []
  }

  /** Another thread's step. */
  lemma OtherPending(s: State, s': State, c: nat, a: App)
    requires Shape(s) && Shape(s') && c < |s.todo| == |s'.todo|
    requires s'.pcs[CLIENT + c] == s.pcs[CLIENT + c] && s'.todo[c] == s.todo[c]
    ensures [] + Pending(s', c, a) == Pending(s, c, a)
  {
  }

  lemma ByClientOne(c: nat, n: Note)
    ensures ByClient(c, [n]) == if n.client == c then [n.payload] else []
  {
    assert [n][..0] == [];
  }

  /** What a client has in hand after it has taken up a submission, and what it has then submitted. */
  function Taken(c: nat, sub: Submission): seq<Unit> {
    if TargetOf(sub).ToApp? then [UnitOf(c, TargetOf(sub).app, sub)] else []
  }

  function PutOnWire(c: nat, sub: Submission, a: App): seq<Note> {
    if TargetOf(sub) == ToWire(a) then [Note(c, sub.payload)] else []
  }

  lemma TakePending(c: nat, subs: seq<Submission>, a: App)
    requires subs != []
    ensures ByClient(c, PutOnWire(c, subs[0], a)) + (HandFor(Taken(c, subs[0]), a) + Program(subs[1..], a)) == Program(subs, a)
  {
    var rest := Program(subs[1..], a);
    TargetRight(subs[0]);
    if TargetOf(subs[0]) == ToWire(a) {
      ByClientOne(c, Note(c, subs[0].payload));
      assert [] + rest == rest;
    } else {
      var hand := HandFor(Taken(c, subs[0]), a);
      assert [] + (hand + rest) == hand + rest;
    }
  }

  lemma FetchPending(s: State, c: nat, a: App)
    requires Shape(s) && c < |s.todo| && Enabled(0, s, Fetch(CLIENT + c))
    ensures ByClient(c, Submits(s, Fetch(CLIENT + c), a)) + Pending(AfterFetch(s, CLIENT + c), c, a) == Pending(s, c, a)
  {
    var s', subs := AfterFetch(s, CLIENT + c), s.todo[c];
    assert Submits(s, Fetch(CLIENT + c), a) == PutOnWire(c, subs[0], a);
    assert InHand(s'.pcs[CLIENT + c]) == Taken(c, subs[0]) && s'.todo[c] == subs[1..];
    assert Pending(s, c, a) == [] + Program(subs, a) == Program(subs, a);
    TakePending(c, subs, a);
  }

  lemma GivePending(c: nat, u: Unit, rest: seq<Bytes>, a: App)
    requires u.origin.client == c
    ensures ByClient(c, NoteOf(a, u.origin)) + ([] + rest) == HandFor([u], a) + rest
  {
    assert [] + rest == rest;
    if u.origin.app == a {
      ByClientOne(c, Note(c, u.origin.payload));
    }
  }

  lemma WritePending(s: State, c: nat, a: App)
    requires Shape(s) && c < |s.todo| && s.pcs[CLIENT + c].Holding? && PcOk(CLIENT + c, s.pcs[CLIENT + c])
    ensures ByClient(c, Submits(s, Write(CLIENT + c), a)) + Pending(AfterWrite(s, CLIENT + c), c, a) == Pending(s, c, a)
  {
    var s', u := AfterWrite(s, CLIENT + c), s.pcs[CLIENT + c].unit;
    assert Submits(s, Write(CLIENT + c), a) == NoteOf(a, u.origin);
    assert InHand(s'.pcs[CLIENT + c]) == [] && s'.todo[c] == s.todo[c];
    GivePending(c, u, Program(s.todo[c], a), a);
  }

  /** What another thread submits is not this client's. */
  lemma OtherSubmits(s: State, act: Action, c: nat, a: App)
    requires Shape(s) && (act.Lose? || act.t != CLIENT + c)
    requires act.Write? && act.t < |s.pcs| ==> PcOk(act.t, s.pcs[act.t])
    ensures ByClient(c, Submits(s, act, a)) == []
  {
    var m := Submits(s, act, a);
    assert m != [] ==> m[..0] == [] && m[0].client != c;
  }

  lemma MutexPending(cap: nat, s: State, act: Action, c: nat, a: App)
    requires Shape(s) && Enabled(cap, s, act) && c < |s.todo|
    requires act.LockOwn? || act.LockNext? || act.UnlockNext? || act.UnlockOwn?
    ensures ByClient(c, Submits(s, act, a)) + Pending(Next(cap, s, act), c, a) == Pending(s, c, a)
  {
    MutexNodes(cap, s, act);
  }

  lemma OtherKeeps(cap: nat, s: State, act: Action, c: nat)
    requires Shape(s) && Enabled(cap, s, act) && c < |s.todo| && (act.Lose? || act.t != CLIENT + c)
    ensures var s' := Next(cap, s, act);
            |s'.todo| == |s.todo| && s'.todo[c] == s.todo[c] && s'.pcs[CLIENT + c] == s.pcs[CLIENT + c]
  {
  }

  lemma NextPending(cap: nat, s: State, act: Action, c: nat, a: App)
    requires Shape(s) && Enabled(cap, s, act) && c < |s.todo|
    requires act.Write? ==> PcOk(act.t, s.pcs[act.t])
    ensures ByClient(c, Submits(s, act, a)) + Pending(Next(cap, s, act), c, a) == Pending(s, c, a)
  {
    if act.Write? && act.t == CLIENT + c {
      WritePending(s, c, a);
    } else if act.Fetch? && act.t == CLIENT + c {
      FetchPending(s, c, a);
    } else if act.LockOwn? || act.LockNext? || act.UnlockNext? || act.UnlockOwn? {
      MutexPending(cap, s, act, c, a);
    } else {
      OtherSubmits(s, act, c, a);
      OtherKeeps(cap, s, act, c);
      OtherPending(s, Next(cap, s, act), c, a);
    }
  }

  lemma Regroup(c: nat, log: seq<Note>, m: seq<Note>, before: seq<Bytes>, after: seq<Bytes>)
    requires ByClient(c, m) + after == before
    ensures ByClient(c, log + m) + after == ByClient(c, log) + before
  {
    ByClientConcat(c, log, m);
  }

  /** A step keeps what is written by a client followed by what is pending. */
  lemma NextProgram(cap: nat, s: State, act: Action, c: nat, a: App)
    requires Shape(s) && Enabled(cap, s, act) && c < |s.todo|
    requires act.Write? ==> PcOk(act.t, s.pcs[act.t])
    ensures var s', i := Next(cap, s, act), AppIndex(a);
            c < |s'.todo|
            && ByClient(c, s'.submitted[i]) + Pending(s', c, a) == ByClient(c, s.submitted[i]) + Pending(s, c, a)
  {
    NextSubmitted(cap, s, act, a);
    NextPending(cap, s, act, c, a);
    Regroup(c, s.submitted[AppIndex(a)], Submits(s, act, a), Pending(s, c, a), Pending(Next(cap, s, act), c, a));
  }

  /** Of each client's program, what is written and what is pending make up the whole, in order. */
  lemma {:induction false} ProgramKept(cap: nat, s: State, acts: seq<Action>, c: nat, a: App)
    requires Inv(cap, s) && CanRun(cap, s, acts) && c < |s.todo|
    ensures var s', i := Run(cap, s, acts), AppIndex(a);
            c < |s'.todo|
            && ByClient(c, s'.submitted[i]) + Pending(s', c, a) == ByClient(c, s.submitted[i]) + Pending(s, c, a)
    decreases |acts|
  {
    if acts != [] {
      NextProgram(cap, s, acts[0], c, a);
      NextInv(cap, s, acts[0]);
      ProgramKept(cap, Next(cap, s, acts[0]), acts[1..], c, a);
    }
  }

  // ---------- The main theorem ----------

  lemma {:induction false} ByClientOfSide(c: nat, remote: set<nat>, notes: seq<Note>)
    ensures ByClient(c, OfSide(remote, c in remote, notes)) == ByClient(c, notes)
  {
    if notes != [] {
      var n := |notes| - 1;
      var side := c in remote;
      var last := if (notes[n].client in remote) == side then [notes[n]] else [];
      ByClientOfSide(c, remote, notes[..n]);
      ByClientConcat(c, OfSide(remote, side, notes[..n]), last);
      assert last != [] ==> last[..0] == [];
    }
  }

  /** At every moment of a lossless run, of each client's program: what is delivered, what is on its way
      and what is still to be submitted make up the whole, in program order. */
  lemma ProgramSplit(cap: nat, todo: seq<seq<Submission>>, acts: seq<Action>, c: nat, a: App, remote: set<nat>)
    requires c < |todo| && AllSubmittable(todo) && Separate(todo, remote)
    requires CanRun(cap, Initial(todo), acts) && Lossless(acts)
    ensures var s := Run(cap, Initial(todo), acts);
            && c < |s.todo|
            && ByClient(c, s.delivered[AppIndex(a)]) + ByClient(c, OnTheWay(Nodes(s), a)) + Pending(s, c, a)
               == Program(todo[c], a)
  {
    var s0, s, side := Initial(todo), Run(cap, Initial(todo), acts), c in remote;
    InitialInv(cap, todo);
    InitialSources(todo, remote);
    InitialComplete(todo, remote);
    LosslessOrder(cap, s0, acts, remote);
    ByClientOfSide(c, remote, Journey(s, a));
    ByClientOfSide(c, remote, s.submitted[AppIndex(a)]);
    ByClientConcat(c, s.delivered[AppIndex(a)], OnTheWay(Nodes(s), a));
    InitialPending(todo, c, a);
    ProgramKept(cap, s0, acts, c, a);
  }

  lemma InitialPending(todo: seq<seq<Submission>>, c: nat, a: App)
    requires c < |todo|
    ensures Pending(Initial(todo), c, a) == Program(todo[c], a)
  {
  }

  /** A run without losses that cannot go on, and where no pipe is clogged, has delivered to each
      application exactly what each client's program sends it, in program order. */
  lemma EverythingDelivered(cap: nat, todo: seq<seq<Submission>>, acts: seq<Action>, c: nat, a: App, remote: set<nat>)
    requires cap > 0 && c < |todo| && AllSubmittable(todo) && Separate(todo, remote)
    requires CanRun(cap, Initial(todo), acts) && Lossless(acts) && Stuck(cap, Run(cap, Initial(todo), acts))
    requires forall p: Stage :: !Clogged(cap, Run(cap, Initial(todo), acts), p)
    ensures ByClient(c, Run(cap, Initial(todo), acts).delivered[AppIndex(a)]) == Program(todo[c], a)
  {
    var s := Run(cap, Initial(todo), acts);
    InitialInv(cap, todo);
    RunInv(cap, Initial(todo), acts);
    StuckIffIdle(cap, s);
    ProgramSplit(cap, todo, acts, c, a, remote);
    IdleOnTheWay(s, c, a);
  }

  /** A single call of msg_send, in the numbers of the source: message p with protocol id 5 to 8 arrives at
      the application of that number less 5, counted FTP, Telnet, RDP, DNS, and nowhere else. */
  lemma MsgSendDelivered(cap: nat, todo: seq<seq<Submission>>, acts: seq<Action>, c: nat, id: int32, p: Bytes, remote: set<nat>)
    requires cap > 0 && c < |todo| && AllSubmittable(todo) && Separate(todo, remote)
    requires todo[c] == [MsgSend(id, p)] && 5 <= id <= 8
    requires CanRun(cap, Initial(todo), acts) && Lossless(acts) && Stuck(cap, Run(cap, Initial(todo), acts))
    requires forall q: Stage :: !Clogged(cap, Run(cap, Initial(todo), acts), q)
    ensures forall i :: 0 <= i < 4 ==>
              ByClient(c, Run(cap, Initial(todo), acts).delivered[i]) == if i == id - 5 then [p] else []
  {
    forall i | 0 <= i < 4
      ensures ByClient(c, Run(cap, Initial(todo), acts).delivered[i]) == if i == id - 5 then [p] else []
    {
      var a := AppAt(i);
      EverythingDelivered(cap, todo, acts, c, a, remote);
      TargetRight(todo[c][0]);
      assert todo[c][1..] == [];
    }
  }

  lemma IdleOnTheWay(s: State, c: nat, a: App)
    requires Shape(s) && Idle(s) && c < |s.todo|
    ensures OnTheWay(Nodes(s), a) == [] && Pending(s, c, a) == []
  {
    NothingOnTheWay(Nodes(s), a);
    assert s.pcs[CLIENT + c] == Parked;
  }

  lemma PathCovers(p: Stage, a: App)
    requires OnPath(p, a)
    ensures PlaceOf(p) < 9 && ThreadAt(a, PlaceOf(p)) == p
  {
  }

  /** What waits in a pipe is on its way. */
  lemma WaitingIsOnTheWay(s: State, p: Stage, o: Origin)
    requires Shape(s) && s.pipes[p] != [] && o == s.pipes[p][0].origin && OnPath(p, o.app)
    ensures ByClient(o.client, OnTheWay(Nodes(s), o.app)) != []
  {
    var a, hand, rest := o.app, Origins(InHand(s.pcs[p])), Origins(s.pipes[p][1..]);
    PathCovers(p, a);
    assert Origins(InHand(s.pcs[p]) + s.pipes[p]) == hand + ([o] + rest);
    assert Nodes(s)[p] == Node(s, p) == hand + ([o] + rest);
    NotesConcat(a, hand, [o] + rest);
    NotesFront(a, o, rest);
    ByClientMiddle(NotesOf(a, hand), Note(o.client, o.payload), NotesOf(a, rest));
    NodeIsOnTheWay(Nodes(s), p, a, o.client);
  }

  lemma ByClientMiddle(xs: seq<Note>, n: Note, ys: seq<Note>)
    ensures ByClient(n.client, xs + ([n] + ys)) != []
  {
    ByClientConcat(n.client, xs, [n] + ys);
    ByClientConcat(n.client, [n], ys);
    assert [n][..0] == [];
  }

  lemma NodeIsOnTheWay(nodes: seq<seq<Origin>>, p: Stage, a: App, c: nat)
    requires |nodes| == CLIENT && PlaceOf(p) < 9 && ThreadAt(a, PlaceOf(p)) == p
    requires ByClient(c, NotesOf(a, nodes[p])) != []
    ensures ByClient(c, OnTheWay(nodes, a)) != []
  {
    var path, k := AlongPath(NotesAt(nodes, a), a), PlaceOf(p);
    assert path[k] == NotesOf(a, nodes[p]);
    FlattenAt(path, k);
    ByClientConcat(c, Flatten(path[..k]) + path[k], Flatten(path[k + 1..]));
    ByClientConcat(c, Flatten(path[..k]), path[k]);
  }

  /** The other half: with a clogged pipe some client's program is never delivered completely. */
  lemma CloggedLosesMessages(cap: nat, todo: seq<seq<Submission>>, acts: seq<Action>, p: Stage, remote: set<nat>)
    returns (c: nat, a: App)
    requires cap > 0 && AllSubmittable(todo) && Separate(todo, remote)
    requires CanRun(cap, Initial(todo), acts) && Lossless(acts)
    requires Clogged(cap, Run(cap, Initial(todo), acts), p)
    ensures c < |todo|
    ensures |ByClient(c, Run(cap, Initial(todo), acts).delivered[AppIndex(a)])| < |Program(todo[c], a)|
  {
    var s := Run(cap, Initial(todo), acts);
    InitialInv(cap, todo);
    RunInv(cap, Initial(todo), acts);
    assert Belongs(p, s.pipes[p][0]);
    var o := s.pipes[p][0].origin;
    a, c := o.app, o.client;
    InitialSources(todo, remote);
    RunSources(cap, Initial(todo), acts, remote);
    assert Origins(InHand(s.pcs[p]) + s.pipes[p])[|InHand(s.pcs[p])|] == o;
    assert Nodes(s)[p][|InHand(s.pcs[p])|] == o;
    assert RightSide(|s.todo|, remote, p, o);
    WaitingIsOnTheWay(s, p, o);
    ProgramSplit(cap, todo, acts, c, a, remote);
  }

  lemma {:induction false} RunSources(cap: nat, s: State, acts: seq<Action>, remote: set<nat>)
    requires Inv(cap, s) && Sources(s, remote) && CanRun(cap, s, acts)
    ensures Sources(Run(cap, s, acts), remote) && |Run(cap, s, acts).todo| == |s.todo|
    decreases |acts|
  {
    if acts != [] {
      NextSources(cap, s, acts[0], remote);
      NextInv(cap, s, acts[0]);
      RunSources(cap, Next(cap, s, acts[0]), acts[1..], remote);
    }
  }
}
