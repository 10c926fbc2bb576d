/** The order of messages, one step at a time.

    Clients hand in their messages at two places: those of this stack at the top of the send path, those
    of PerMessage.h on the wire, in the middle of it.  So there are two sides, and each has an order
    of its own, which no step disturbs. */
module PipelineSides {
  import opened Headers
  import opened Seqs
  import opened Pipeline
  import opened PipelineInvariant
  import opened PipelineOrder

  /** Locking and unlocking leave every message where it is. */
  lemma MutexNodes(cap: nat, s: State, act: Action)
    requires Shape(s) && Enabled(cap, s, act)
    requires act.LockOwn? || act.LockNext? || act.UnlockNext? || act.UnlockOwn?
    ensures var s' := Next(cap, s, act);
            (forall t :: 0 <= t < |s.pcs| ==> InHand(s'.pcs[t]) == InHand(s.pcs[t])) && s'.todo == s.todo
    ensures Nodes(Next(cap, s, act)) == Nodes(s)
  {
  }

  lemma WorkSubmitted(s: State, t: Stage, effect: Effect)
    requires Shape(s) && t < |s.pcs| && s.pcs[t].Locked?
    ensures AfterWork(s, t, effect).submitted == s.submitted
  {
  }

  lemma NextSubmitted(cap: nat, s: State, act: Action, a: App)
    requires Shape(s) && Enabled(cap, s, act)
    ensures Next(cap, s, act).submitted[AppIndex(a)] == s.submitted[AppIndex(a)] + Submits(s, act, a)
  {
    if act.Work? {
      WorkSubmitted(s, act.t, StageWork(act.t, s.pcs[act.t].unit, act.junk));
    }
  }

  /** A step puts a frame on the wire. */
  predicate Injects(s: State, act: Action)
    requires Shape(s)
  {
    act.Fetch? && SubmittedBy(s, act) != []
  }

  lemma FetchJourney(s: State, t: nat, a: App)
    requires Shape(s) && Enabled(0, s, Fetch(t)) && !Injects(s, Fetch(t))
    ensures Journey(AfterFetch(s, t), a) == Journey(s, a)
  {
    FetchNodes(s, t);
  }

  lemma WorkKeepsJourney(s: State, t: Stage, junk: Junk, effect: Effect, a: App)
    requires Shape(s) && t < |s.pcs| && s.pcs[t].Locked? && PcOk(t, s.pcs[t]) && JunkFits(t, junk)
    requires effect == StageWork(t, s.pcs[t].unit, junk)
    ensures Journey(AfterWork(s, t, effect), a) == Journey(s, a)
  {
    StageWorkOk(t, s.pcs[t].unit, junk);
    WorkJourney(s, t, effect, a);
  }

  /** Every step but a loss or a new frame on the wire keeps the order: what is delivered and on its
      way only grows at the end, by what a client writes. */
  lemma NextJourney(cap: nat, s: State, act: Action, a: App)
    requires Inv(cap, s) && Enabled(cap, s, act) && !act.Lose? && !Injects(s, act)
    ensures Journey(Next(cap, s, act), a) == Journey(s, a) + Submits(s, act, a)
  {
    assert PcOk(act.t, s.pcs[act.t]);
    if act.Fetch? {
      FetchJourney(s, act.t, a);
    } else if act.Write? {
      WriteJourney(s, act.t, a);
    } else if act.Work? {
      WorkKeepsJourney(s, act.t, act.junk, StageWork(act.t, s.pcs[act.t].unit, act.junk), a);
    } else {
      MutexNodes(cap, s, act);
    }
  }

  // ---------- A message taken from the wire, or put there ----------

  /** The messages of application `a` on the send path, those furthest on first. */
  function OnSendPath(nodes: seq<seq<Origin>>, a: App): seq<Note>
    requires |nodes| == CLIENT
  {
    Flatten(AlongPath(NotesAt(nodes, a), a)[5..])
  }

  lemma AlongPathDrop(notes: seq<seq<Note>>, a: App, x: seq<Note>, m: seq<Note>, y: seq<Note>)
    returns (before: seq<Note>, after: seq<Note>)
    requires |notes| == CLIENT && notes[READER] == x + m + y
    ensures Flatten(AlongPath(notes, a)) == before + m + after
    ensures Flatten(AlongPath(notes[READER := x + y], a)) == before + after
    ensures after == y + Flatten(AlongPath(notes, a)[5..])
  {
    var path := AlongPath(notes, a);
    PathUpdate(notes, a, 4, x + y);
    FlattenAt(path, 4);
    FlattenAt(path[4 := x + y], 4);
    assert path[4 := x + y][..4] == path[..4] && path[4 := x + y][5..] == path[5..];
    before, after := Flatten(path[..4]) + x, y + Flatten(path[5..]);
    Associates(Flatten(path[..4]), x, y, Flatten(path[5..]));
    Associates(before, m, y, Flatten(path[5..]));
    assert Flatten(path[..4]) + (x + m + y) == before + m + y;
  }

  /** A message at the reader or on the wire has its place in the order, and the others theirs. */
  lemma DropInNode(nodes: seq<seq<Origin>>, os: seq<Origin>, o: Origin, ys: seq<Origin>, a: App)
    returns (before: seq<Note>, after: seq<Note>)
    requires |nodes| == CLIENT && nodes[READER] == os + ([o] + ys)
    ensures OnTheWay(nodes, a) == before + NoteOf(a, o) + after
    ensures OnTheWay(nodes[READER := os + ys], a) == before + after
    ensures after == NotesOf(a, ys) + OnSendPath(nodes, a)
  {
    var x, m, y := NotesOf(a, os), NoteOf(a, o), NotesOf(a, ys);
    NotesConcat(a, os, ys);
    NotesConcat(a, os, [o] + ys);
    NotesFront(a, o, ys);
    NotesUpdate(nodes, a, READER, os + ys);
    assert x + (m + y) == x + m + y;
    before, after := AlongPathDrop(NotesAt(nodes, a), a, x, m, y);
  }

  lemma Prefixed(d: seq<Note>, before: seq<Note>, m: seq<Note>, after: seq<Note>)
    ensures d + (before + m + after) == d + before + m + after
    ensures d + (before + after) == d + before + after
  {
  }

  /** The same with the messages delivered already, `d`, in front. */
  lemma DropAfter(d: seq<Note>, nodes: seq<seq<Origin>>, os: seq<Origin>, o: Origin, ys: seq<Origin>, a: App)
    returns (before: seq<Note>, after: seq<Note>)
    requires |nodes| == CLIENT && nodes[READER] == os + ([o] + ys)
    ensures d + OnTheWay(nodes, a) == before + NoteOf(a, o) + after
    ensures d + OnTheWay(nodes[READER := os + ys], a) == before + after
    ensures after == NotesOf(a, ys) + OnSendPath(nodes, a)
  {
    var b;
    b, after := DropInNode(nodes, os, o, ys, a);
    Prefixed(d, b, NoteOf(a, o), after);
    before := d + b;
  }

  lemma DropOrigins(hand: seq<Unit>, wire: seq<Unit>, i: nat) returns (os: seq<Origin>, ys: seq<Origin>)
    requires i < |wire|
    ensures |os| == |hand| + i
    ensures Origins(hand + wire) == os + ([wire[i].origin] + ys)
    ensures Origins(hand + (wire[..i] + wire[i + 1..])) == os + ys
  {
    os, ys := Origins(hand + wire[..i]), Origins(wire[i + 1..]);
  }

  /** The lost datagram is taken from the middle of the reader's node. */
  lemma LoseNodes(s: State, i: nat) returns (os: seq<Origin>, ys: seq<Origin>)
    requires Shape(s) && i < |s.wire| && !s.crashed
    ensures |os| == |InHand(s.pcs[READER])| + i
    ensures Nodes(s)[READER] == os + ([s.wire[i].origin] + ys)
    ensures Nodes(Next(0, s, Lose(i))) == Nodes(s)[READER := os + ys]
  {
    var s' := Next(0, s, Lose(i));
    os, ys := DropOrigins(InHand(s.pcs[READER]), s.wire, i);
    assert Node(s', READER) == os + ys;
    forall t | 0 <= t < READER ensures Node(s', t) == Node(s, t) {
    }
  }

  /** A loss takes at most one message out of the order. */
  lemma LoseJourney(s: State, i: nat, a: App) returns (before: seq<Note>, after: seq<Note>)
    requires Shape(s) && i < |s.wire| && !s.crashed
    ensures Journey(s, a) == before + NoteOf(a, s.wire[i].origin) + after
    ensures Journey(Next(0, s, Lose(i)), a) == before + after
  {
    var os, ys := LoseNodes(s, i);
    before, after := DropAfter(s.delivered[AppIndex(a)], Nodes(s), os, s.wire[i].origin, ys, a);
  }

  lemma SendPathSame(nodes: seq<seq<Origin>>, os: seq<Origin>, a: App)
    requires |nodes| == CLIENT
    ensures OnSendPath(nodes[READER := os], a) == OnSendPath(nodes, a)
  {
    NotesUpdate(nodes, a, READER, os);
    PathUpdate(NotesAt(nodes, a), a, 4, NotesOf(a, os));
    var path := AlongPath(NotesAt(nodes, a), a);
    assert path[4 := NotesOf(a, os)][5..] == path[5..];
  }

  lemma AddOnWire(d: seq<Note>, nodes: seq<seq<Origin>>, o: Origin, a: App) returns (before: seq<Note>)
    requires |nodes| == CLIENT
    ensures d + OnTheWay(nodes, a) == before + OnSendPath(nodes, a)
    ensures d + OnTheWay(nodes[READER := nodes[READER] + [o]], a) == before + NoteOf(a, o) + OnSendPath(nodes, a)
  {
    var nodes' := nodes[READER := nodes[READER] + [o]];
    assert nodes'[READER] == nodes[READER] + ([o] + []);
    var after;
    before, after := DropAfter(d, nodes', nodes[READER], o, [], a);
    assert nodes[READER] + [] == nodes[READER];
    assert nodes'[READER := nodes[READER]] == nodes;
    SendPathSame(nodes, nodes'[READER], a);
    assert [] + OnSendPath(nodes, a) == OnSendPath(nodes, a);
  }

  lemma InjectNodes(s: State, t: nat, o: Origin)
    requires Shape(s) && Enabled(0, s, Fetch(t)) && SubmittedBy(s, Fetch(t)) == [o]
    ensures Nodes(AfterFetch(s, t)) == Nodes(s)[READER := Nodes(s)[READER] + [o]]
    ensures AfterFetch(s, t).delivered == s.delivered
  {
    FetchNodes(s, t);
  }

  /** A frame put on the wire comes before the messages that are still on the send path, and after
      all others. */
  lemma InjectJourney(s: State, t: nat, o: Origin, a: App) returns (before: seq<Note>)
    requires Shape(s) && Enabled(0, s, Fetch(t)) && SubmittedBy(s, Fetch(t)) == [o]
    ensures Journey(s, a) == before + OnSendPath(Nodes(s), a)
    ensures Journey(AfterFetch(s, t), a) == before + NoteOf(a, o) + OnSendPath(Nodes(s), a)
  {
    InjectNodes(s, t, o);
    before := AddOnWire(s.delivered[AppIndex(a)], Nodes(s), o, a);
  }

  // ---------- The two sides ----------

  /** The messages of the clients in `remote`, or of the others. */
  function OfSide(remote: set<nat>, side: bool, notes: seq<Note>): seq<Note> {
    if notes == [] then []
    else
      var n := |notes| - 1;
      OfSide(remote, side, notes[..n]) + if (notes[n].client in remote) == side then [notes[n]] else []
  }

  lemma {:induction false} OfSideConcat(remote: set<nat>, side: bool, xs: seq<Note>, ys: seq<Note>)
    ensures OfSide(remote, side, xs + ys) == OfSide(remote, side, xs) + OfSide(remote, side, ys)
  {
    if ys == [] {
      assert xs + ys == xs;
    } else {
      var n := |ys| - 1;
      OfSideConcat(remote, side, xs, ys[..n]);
      assert (xs + ys)[..|xs + ys| - 1] == xs + ys[..n];
    }
  }

  lemma OfSideThree(remote: set<nat>, side: bool, xs: seq<Note>, m: seq<Note>, ys: seq<Note>)
    ensures OfSide(remote, side, xs + m + ys) == OfSide(remote, side, xs) + OfSide(remote, side, m) + OfSide(remote, side, ys)
  {
    OfSideConcat(remote, side, xs + m, ys);
    OfSideConcat(remote, side, xs, m);
  }

  lemma OfSideOne(remote: set<nat>, side: bool, n: Note)
    ensures OfSide(remote, side, [n]) == if (n.client in remote) == side then [n] else []
  {
    assert [n][..0] == [];
  }

  /** Without remote clients there is one side. */
  lemma {:induction false} OfSideAll(notes: seq<Note>)
    ensures OfSide({}, false, notes) == notes
  {
    if notes != [] {
      OfSideAll(notes[..|notes| - 1]);
    }
  }

  ghost predicate Local(remote: set<nat>, notes: seq<Note>) {
    forall i :: 0 <= i < |notes| ==> notes[i].client !in remote
  }

  lemma {:induction false} OfSideNone(remote: set<nat>, notes: seq<Note>)
    requires Local(remote, notes)
    ensures OfSide(remote, true, notes) == []
  {
    if notes != [] {
      OfSideNone(remote, notes[..|notes| - 1]);
    }
  }

  lemma {:induction false} FlattenLocal(remote: set<nat>, parts: seq<seq<Note>>)
    requires forall k :: 0 <= k < |parts| ==> Local(remote, parts[k])
    ensures Local(remote, Flatten(parts))
  {
    if parts != [] {
      FlattenLocal(remote, parts[1..]);
    }
  }

  lemma {:induction false} NotesLocal(remote: set<nat>, a: App, os: seq<Origin>)
    requires forall i :: 0 <= i < |os| ==> os[i].client !in remote
    ensures Local(remote, NotesOf(a, os))
  {
    if os != [] {
      NotesLocal(remote, a, os[..|os| - 1]);
    }
  }

  // ---------- Where each side's messages can be ----------

  /** The senders of PerMessage.h among the clients are those in `remote`. */
  ghost predicate Separate(todo: seq<seq<Submission>>, remote: set<nat>) {
    forall c, i :: 0 <= c < |todo| && 0 <= i < |todo[c]| ==> (todo[c][i].Frame? <==> c in remote)
  }

  /** Message `o` at thread t comes from one of the clients, and not from a remote one on the send path. */
  predicate RightSide(clients: nat, remote: set<nat>, t: nat, o: Origin) {
    o.client < clients && (t <= ETH_SEND ==> o.client !in remote)
  }

  ghost predicate NodesRight(clients: nat, remote: set<nat>, nodes: seq<seq<Origin>>) {
    forall t, i :: 0 <= t < |nodes| && 0 <= i < |nodes[t]| ==> RightSide(clients, remote, t, nodes[t][i])
  }

  ghost predicate Sources(s: State, remote: set<nat>)
    requires Shape(s)
  {
    && Separate(s.todo, remote)
    && (forall c :: 0 <= c < |s.todo| && InHand(s.pcs[CLIENT + c]) != [] ==> c !in remote)
    && NodesRight(|s.todo|, remote, Nodes(s))
  }

  lemma InitialSources(todo: seq<seq<Submission>>, remote: set<nat>)
    requires Separate(todo, remote)
    ensures Sources(Initial(todo), remote)
  {
  }

  lemma AddedRight(clients: nat, remote: set<nat>, nodes: seq<seq<Origin>>, t: nat, os: seq<Origin>)
    requires NodesRight(clients, remote, nodes) && t < |nodes|
    requires forall i :: 0 <= i < |os| ==> RightSide(clients, remote, t, os[i])
    ensures NodesRight(clients, remote, nodes[t := nodes[t] + os])
  {
  }

  lemma MovedRight(clients: nat, remote: set<nat>, nodes: seq<seq<Origin>>, nodes': seq<seq<Origin>>, t: nat, to: nat, o: Origin)
    requires NodesRight(clients, remote, nodes) && Moved(nodes, nodes', t, to, o)
    requires to <= ETH_SEND ==> t <= ETH_SEND
    ensures NodesRight(clients, remote, nodes')
  {
    assert nodes[t][0] == o;
    forall v, i | 0 <= v < |nodes'| && 0 <= i < |nodes'[v]| ensures RightSide(clients, remote, v, nodes'[v][i]) {
      if v == t {
        assert nodes'[v][i] == nodes[t][i + 1];
      } else if v == to && i == |nodes[to]| {
        assert nodes'[v][i] == o;
      } else {
        assert nodes'[v][i] == nodes[v][i];
      }
    }
  }

  lemma TakeSeparate(todo: seq<seq<Submission>>, c: nat, remote: set<nat>)
    requires Separate(todo, remote) && c < |todo| && todo[c] != []
    ensures Separate(todo[c := todo[c][1..]], remote)
  {
    var todo': seq<seq<Submission>> := todo[c := todo[c][1..]];
    forall d, i | 0 <= d < |todo'| && 0 <= i < |todo'[d]| ensures todo'[d][i].Frame? <==> d in remote {
      assert todo'[d][i] == todo[d][if d == c then i + 1 else i];
    }
  }

  lemma FetchSources(s: State, t: nat, remote: set<nat>)
    requires Shape(s) && Enabled(0, s, Fetch(t)) && Sources(s, remote)
    ensures Sources(AfterFetch(s, t), remote)
  {
    FetchNodes(s, t);
    if t >= CLIENT {
      TakeSeparate(s.todo, t - CLIENT, remote);
      AddedRight(|s.todo|, remote, Nodes(s), READER, SubmittedBy(s, Fetch(t)));
    }
  }

  lemma WriteSources(s: State, t: nat, remote: set<nat>)
    requires Shape(s) && t < |s.pcs| && s.pcs[t].Holding? && PcOk(t, s.pcs[t]) && Sources(s, remote)
    ensures Sources(AfterWrite(s, t), remote)
  {
    var Holding(u, to) := s.pcs[t];
    WriteNodes(s, t);
    if t < CLIENT {
      MovedRight(|s.todo|, remote, Nodes(s), Nodes(AfterWrite(s, t)), t, to, u.origin);
    } else {
      AddedRight(|s.todo|, remote, Nodes(s), to, [u.origin]);
    }
  }

  lemma WorkSources(s: State, t: Stage, effect: Effect, remote: set<nat>)
    requires Shape(s) && t < |s.pcs| && s.pcs[t].Locked? && EffectOk(t, s.pcs[t].unit, effect) && Sources(s, remote)
    ensures Sources(AfterWork(s, t, effect), remote)
  {
    var nodes, nodes' := Nodes(s), Nodes(AfterWork(s, t, effect));
    WorkNodes(s, t, effect);
    if effect.OnWire? {
      MovedRight(|s.todo|, remote, nodes, nodes', t, READER, s.pcs[t].unit.origin);
    } else if effect.Handed? {
      forall v, i | 0 <= v < |nodes'| && 0 <= i < |nodes'[v]| ensures RightSide(|s.todo|, remote, v, nodes'[v][i]) {
        assert nodes'[v][i] == nodes[v][if v == t then i + 1 else i];
      }
    }
  }

  lemma LoseSources(s: State, i: nat, remote: set<nat>)
    requires Shape(s) && i < |s.wire| && !s.crashed && Sources(s, remote)
    ensures Sources(Next(0, s, Lose(i)), remote)
  {
    var nodes, nodes' := Nodes(s), Nodes(Next(0, s, Lose(i)));
    var os, ys := LoseNodes(s, i);
    forall v, j | 0 <= v < |nodes'| && 0 <= j < |nodes'[v]| ensures RightSide(|s.todo|, remote, v, nodes'[v][j]) {
      assert nodes'[v][j] == nodes[v][if v == READER && j >= |os| then j + 1 else j];
    }
  }

  /** Every step keeps it so that only local messages are on the send path. */
  lemma NextSources(cap: nat, s: State, act: Action, remote: set<nat>)
    requires Inv(cap, s) && Enabled(cap, s, act) && Sources(s, remote)
    ensures Sources(Next(cap, s, act), remote)
  {
    match act
    case Fetch(t) => FetchSources(s, t, remote);
    case Write(t) =>
      assert PcOk(t, s.pcs[t]);
      WriteSources(s, t, remote);
    case Work(t, junk) =>
      assert PcOk(t, s.pcs[t]);
      StageWorkOk(t, s.pcs[t].unit, junk);
      WorkSources(s, t, StageWork(t, s.pcs[t].unit, junk), remote);
    case Lose(i) => LoseSources(s, i, remote);
    case _ => MutexNodes(cap, s, act);
  }

  lemma SendPathLocal(nodes: seq<seq<Origin>>, clients: nat, remote: set<nat>, a: App)
    requires |nodes| == CLIENT && NodesRight(clients, remote, nodes)
    ensures OfSide(remote, true, OnSendPath(nodes, a)) == []
  {
    var parts := AlongPath(NotesAt(nodes, a), a)[5..];
    forall k | 0 <= k < |parts| ensures Local(remote, parts[k]) {
      var t := ThreadAt(a, k + 5);
      assert parts[k] == NotesOf(a, nodes[t]);
      assert forall i :: 0 <= i < |nodes[t]| ==> RightSide(clients, remote, t, nodes[t][i]);
      NotesLocal(remote, a, nodes[t]);
    }
    FlattenLocal(remote, parts);
    OfSideNone(remote, Flatten(parts));
  }

  // ---------- The order of each side, one step ----------

  lemma SideInsert(remote: set<nat>, side: bool, before: seq<Note>, m: seq<Note>, after: seq<Note>)
    requires side ==> OfSide(remote, side, after) == []
    requires !side ==> OfSide(remote, side, m) == []
    ensures OfSide(remote, side, before + m + after) == OfSide(remote, side, before + after) + OfSide(remote, side, m)
  {
    OfSideConcat(remote, side, before, after);
    OfSideThree(remote, side, before, m, after);
  }

  lemma InjectedRemote(s: State, t: nat, a: App, remote: set<nat>)
    requires Shape(s) && Enabled(0, s, Fetch(t)) && Injects(s, Fetch(t)) && Separate(s.todo, remote)
    ensures OfSide(remote, false, Submits(s, Fetch(t), a)) == []
  {
    var m := Submits(s, Fetch(t), a);
    assert s.todo[t - CLIENT][0].Frame?;
    if m != [] {
      OfSideOne(remote, false, m[0]);
    }
  }

  /** A new frame on the wire is the last of its side, and changes nothing on the other. */
  lemma InjectSide(s: State, t: nat, a: App, remote: set<nat>, side: bool)
    requires Shape(s) && Enabled(0, s, Fetch(t)) && Injects(s, Fetch(t)) && Sources(s, remote)
    ensures OfSide(remote, side, Journey(AfterFetch(s, t), a))
            == OfSide(remote, side, Journey(s, a)) + OfSide(remote, side, Submits(s, Fetch(t), a))
  {
    var m, after := Submits(s, Fetch(t), a), OnSendPath(Nodes(s), a);
    var before := InjectJourney(s, t, SubmittedBy(s, Fetch(t))[0], a);
    SendPathLocal(Nodes(s), |s.todo|, remote, a);
    InjectedRemote(s, t, a, remote);
    SideInsert(remote, side, before, m, after);
  }

  /** Whatever step is taken, but for a loss: on each side, what is delivered and on its way only
      grows at the end, by what is submitted. */
  lemma NextSide(cap: nat, s: State, act: Action, a: App, remote: set<nat>, side: bool)
    requires Inv(cap, s) && Enabled(cap, s, act) && !act.Lose? && Sources(s, remote)
    ensures OfSide(remote, side, Journey(Next(cap, s, act), a))
            == OfSide(remote, side, Journey(s, a)) + OfSide(remote, side, Submits(s, act, a))
  {
    if Injects(s, act) {
      InjectSide(s, act.t, a, remote, side);
    } else {
      NextJourney(cap, s, act, a);
      OfSideConcat(remote, side, Journey(s, a), Submits(s, act, a));
    }
  }

  /** `cut` is `all`, or all but one of its elements. */
  ghost predicate Shortened<T>(all: seq<T>, cut: seq<T>) {
    cut == all || exists j :: 0 <= j < |all| && cut == all[..j] + all[j + 1..]
  }

  lemma DropMiddle<T>(all: seq<T>, cut: seq<T>, xs: seq<T>, m: seq<T>, ys: seq<T>)
    requires all == xs + m + ys && cut == xs + ys && |m| <= 1
    ensures Shortened(all, cut)
  {
    if m == [] {
      assert xs + m == xs;
    } else {
      assert cut == all[..|xs|] + all[|xs| + 1..];
    }
  }

  /** A loss leaves each side as it was but for at most one message. */
  lemma LoseSide(s: State, i: nat, a: App, remote: set<nat>, side: bool)
    requires Shape(s) && i < |s.wire| && !s.crashed
    ensures Shortened(OfSide(remote, side, Journey(s, a)), OfSide(remote, side, Journey(Next(0, s, Lose(i)), a)))
  {
    var m := NoteOf(a, s.wire[i].origin);
    var before, after := LoseJourney(s, i, a);
    OfSideThree(remote, side, before, m, after);
    OfSideConcat(remote, side, before, after);
    if m != [] {
      OfSideOne(remote, side, m[0]);
    }
    DropMiddle(OfSide(remote, side, Journey(s, a)), OfSide(remote, side, Journey(Next(0, s, Lose(i)), a)),
               OfSide(remote, side, before), OfSide(remote, side, m), OfSide(remote, side, after));
  }
}
