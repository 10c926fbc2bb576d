/** Order and completeness: what the applications receive is what the clients submitted, in order and
    exactly once, whatever the interleaving. */
module PipelineOrder {
  import opened Headers
  import opened Seqs
  import opened Pipeline
  import opened PipelineInvariant

  // ---------- The messages on their way ----------

  /** The unit in the hands of a thread, if it has one. */
  function InHand(pc: Pc): seq<Unit> {
    match pc
    case Fetched(u) => [u]
    case Locked(u) => [u]
    case Ready(u, _) => [u]
    case Holding(u, _) => [u]
    case _ => []
  }

  function Origins(us: seq<Unit>): seq<Origin> {
    seq(|us|, i requires 0 <= i < |us| => us[i].origin)
  }

  /** What is at a thread, oldest first: the unit it has in hand, then those it has still to read.
      The socket reader reads the wire. */
  function Node(s: State, t: nat): seq<Origin>
    requires Shape(s) && t <= READER
  {
    Origins(InHand(s.pcs[t]) + if t < STAGES then s.pipes[t] else s.wire)
  }

  function Nodes(s: State): seq<seq<Origin>>
    requires Shape(s)
  {
    seq(CLIENT, t requires 0 <= t < CLIENT => Node(s, t))
  }

  /** The messages of application `a` among them, as the logs record them. */
  function NotesOf(a: App, os: seq<Origin>): seq<Note> {
    if os == [] then []
    else NotesOf(a, os[..|os| - 1]) + NoteOf(a, os[|os| - 1])
  }

  function NoteOf(a: App, o: Origin): seq<Note> {
    if o.app == a then [Note(o.client, o.payload)] else []
  }

  /** The nine threads a message of application `a` passes, the last one first. */
  function ThreadAt(a: App, k: nat): nat
    requires k < 9
  {
    if k == 0 then APP_RECV + AppIndex(a) else if k == 1 then ReceiverOf(TransportOf(a))
    else if k == 2 then IP_RECV else if k == 3 then ETH_RECV else if k == 4 then READER
    else if k == 5 then ETH_SEND else if k == 6 then IP_SEND else if k == 7 then SendTo(AppIndex(a)) else AppIndex(a)
  }

  function NotesAt(nodes: seq<seq<Origin>>, a: App): seq<seq<Note>> {
    seq(|nodes|, t requires 0 <= t < |nodes| => NotesOf(a, nodes[t]))
  }

  /** The places of the path, in its order. */
  function AlongPath(notes: seq<seq<Note>>, a: App): seq<seq<Note>>
    requires |notes| == CLIENT
  {
    seq(9, k requires 0 <= k < 9 => notes[ThreadAt(a, k)])
  }

  /** The messages of application `a` on their way, oldest first. */
  function OnTheWay(nodes: seq<seq<Origin>>, a: App): seq<Note>
    requires |nodes| == CLIENT
  {
    Flatten(AlongPath(NotesAt(nodes, a), a))
  }

  /** All messages of application `a`, oldest first: delivered, then those on their way. */
  function Journey(s: State, a: App): seq<Note>
    requires Shape(s)
  {
    s.delivered[AppIndex(a)] + OnTheWay(Nodes(s), a)
  }

  lemma {:induction false} NotesConcat(a: App, us: seq<Origin>, vs: seq<Origin>)
    ensures NotesOf(a, us + vs) == NotesOf(a, us) + NotesOf(a, vs)
  {
    if vs == [] {
      assert us + vs == us;
    } else {
      var n := |vs| - 1;
      NotesConcat(a, us, vs[..n]);
      assert (us + vs)[..|us + vs| - 1] == us + vs[..n];
    }
  }

  lemma NotesFront(a: App, o: Origin, os: seq<Origin>)
    ensures NotesOf(a, [o] + os) == NoteOf(a, o) + NotesOf(a, os)
  {
    NotesConcat(a, [o], os);
    assert [o][..0] == [];
  }

  lemma NotesBack(a: App, os: seq<Origin>, o: Origin)
    ensures NotesOf(a, os + [o]) == NotesOf(a, os) + NoteOf(a, o)
  {
    assert (os + [o])[..|os|] == os;
  }

  lemma NotesUpdate(nodes: seq<seq<Origin>>, a: App, t: nat, os: seq<Origin>)
    requires t < |nodes|
    ensures NotesAt(nodes[t := os], a) == NotesAt(nodes, a)[t := NotesOf(a, os)]
  {
  }

  // ---------- How nodes change ----------

  /** A message goes from the front of node t to the back of node `to`. */
  predicate Moved(nodes: seq<seq<Origin>>, nodes': seq<seq<Origin>>, t: nat, to: nat, o: Origin) {
    && |nodes| == |nodes'| == CLIENT && t < CLIENT && to < CLIENT && t != to
    && nodes[t] == [o] + nodes'[t]
    && nodes' == nodes[t := nodes'[t]][to := nodes[to] + [o]]
  }

  /** The place of thread t on the path of every application that passes it. */
  function PlaceOf(t: nat): nat {
    if t >= CLIENT then 9 else if t < TCP_SEND then 8 else if t < IP_SEND then 7 else if t == IP_SEND then 6
    else if t == ETH_SEND then 5 else if t == READER then 4 else if t == ETH_RECV then 3 else if t == IP_RECV then 2
    else if t < APP_RECV then 1 else 0
  }

  lemma PlacesUnique(a: App)
    ensures forall k :: 0 <= k < 9 ==> PlaceOf(ThreadAt(a, k)) == k && ThreadAt(a, k) < CLIENT
  {
  }

  /** On the path of `a`, thread `to` comes next after thread `t`. */
  predicate HandsOver(a: App, t: nat, to: nat) {
    var k := PlaceOf(t); 1 <= k < 9 && ThreadAt(a, k) == t && ThreadAt(a, k - 1) == to
  }

  lemma PathUpdate(notes: seq<seq<Note>>, a: App, k: nat, x: seq<Note>)
    requires |notes| == CLIENT && k < 9
    ensures ThreadAt(a, k) < CLIENT && AlongPath(notes[ThreadAt(a, k) := x], a) == AlongPath(notes, a)[k := x]
  {
    PlacesUnique(a);
  }

  lemma AlongPathMove(notes: seq<seq<Note>>, a: App, t: nat, to: nat, m: seq<Note>, rest: seq<Note>)
    requires |notes| == CLIENT && HandsOver(a, t, to) && t != to && notes[t] == m + rest
    ensures var notes' := notes[t := rest][to := notes[to] + m];
            Flatten(AlongPath(notes', a)) == Flatten(AlongPath(notes, a))
  {
    var k, path := PlaceOf(t), AlongPath(notes, a);
    PathUpdate(notes, a, k, rest);
    PathUpdate(notes[t := rest], a, k - 1, notes[to] + m);
    FlattenMove(path, k - 1, m, rest);
    assert path[k := rest][k - 1 := path[k - 1] + m] == path[k - 1 := path[k - 1] + m][k := rest];
  }

  lemma AlongPathAdd(notes: seq<seq<Note>>, a: App, m: seq<Note>)
    requires |notes| == CLIENT
    ensures var i := AppIndex(a); Flatten(AlongPath(notes[i := notes[i] + m], a)) == Flatten(AlongPath(notes, a)) + m
  {
    PathUpdate(notes, a, 8, notes[AppIndex(a)] + m);
    FlattenGrow(AlongPath(notes, a), m);
  }

  lemma AlongPathTake(notes: seq<seq<Note>>, a: App, m: seq<Note>, rest: seq<Note>)
    requires |notes| == CLIENT && notes[APP_RECV + AppIndex(a)] == m + rest
    ensures Flatten(AlongPath(notes, a)) == m + Flatten(AlongPath(notes[APP_RECV + AppIndex(a) := rest], a))
  {
    var path := AlongPath(notes, a);
    PathUpdate(notes, a, 0, rest);
    assert path[0 := rest][1..] == path[1..];
    assert m + rest + Flatten(path[1..]) == m + (rest + Flatten(path[1..]));
  }

  lemma NotesMoved(nodes: seq<seq<Origin>>, nodes': seq<seq<Origin>>, t: nat, to: nat, o: Origin, a: App)
    requires Moved(nodes, nodes', t, to, o)
    ensures var notes, rest := NotesAt(nodes, a), NotesOf(a, nodes'[t]);
            && notes[t] == NoteOf(a, o) + rest
            && NotesAt(nodes', a) == notes[t := rest][to := notes[to] + NoteOf(a, o)]
  {
    NotesFront(a, o, nodes'[t]);
    NotesBack(a, nodes[to], o);
    NotesUpdate(nodes, a, t, nodes'[t]);
    NotesUpdate(nodes[t := nodes'[t]], a, to, nodes[to] + [o]);
  }

  /** A message that moves one place further stays in its place in the order. */
  lemma MoveKeepsOrder(nodes: seq<seq<Origin>>, nodes': seq<seq<Origin>>, t: nat, to: nat, o: Origin, a: App)
    requires Moved(nodes, nodes', t, to, o)
    requires o.app == a ==> HandsOver(a, t, to)
    ensures OnTheWay(nodes', a) == OnTheWay(nodes, a)
  {
    var notes := NotesAt(nodes, a);
    NotesMoved(nodes, nodes', t, to, o, a);
    if o.app == a {
      AlongPathMove(notes, a, t, to, NoteOf(a, o), NotesOf(a, nodes'[t]));
    } else {
      assert notes[t] == NotesOf(a, nodes'[t]) && notes[to] + [] == notes[to];
      assert NotesAt(nodes', a) == notes;
    }
  }

  /** Every thread writes to the thread one place further on the path of the message. */
  lemma WritesOnPath(t: nat, u: Unit, to: Stage)
    requires OnItsWay(t, u, to) && t < CLIENT
    ensures HandsOver(u.origin.app, t, to) && t != to
  {
  }

  /** A message a client hands in comes last. */
  lemma AddComesLast(nodes: seq<seq<Origin>>, to: nat, o: Origin, a: App)
    requires |nodes| == CLIENT && to == AppIndex(o.app)
    ensures OnTheWay(nodes[to := nodes[to] + [o]], a) == OnTheWay(nodes, a) + NoteOf(a, o)
  {
    var nodes', notes, m := nodes[to := nodes[to] + [o]], NotesAt(nodes, a), NoteOf(a, o);
    NotesBack(a, nodes[to], o);
    NotesUpdate(nodes, a, to, nodes[to] + [o]);
    if o.app == a {
      AlongPathAdd(notes, a, m);
    } else {
      assert notes[to] + m == notes[to];
      assert NotesAt(nodes', a) == notes;
    }
  }

  /** A message the application takes was the oldest one. */
  lemma TakeIsOldest(nodes: seq<seq<Origin>>, rest: seq<Origin>, o: Origin, a: App)
    requires |nodes| == CLIENT && nodes[APP_RECV + AppIndex(o.app)] == [o] + rest
    ensures OnTheWay(nodes, a) == NoteOf(a, o) + OnTheWay(nodes[APP_RECV + AppIndex(o.app) := rest], a)
  {
    var t := APP_RECV + AppIndex(o.app);
    var notes, left := NotesAt(nodes, a), NotesOf(a, rest);
    NotesFront(a, o, rest);
    NotesUpdate(nodes, a, t, rest);
    if o.app == a {
      AlongPathTake(notes, a, NoteOf(a, o), left);
    } else {
      assert notes[t] == left;
      assert NotesAt(nodes[t := rest], a) == notes;
    }
  }

  // ---------- One step ----------

  /** The message a step submits, if any: a client's write into a pipe, or the frame it puts on the wire. */
  function SubmittedBy(s: State, act: Action): seq<Origin>
    requires Shape(s)
  {
    if act.Write? && CLIENT <= act.t < |s.pcs| && s.pcs[act.t].Holding? then [s.pcs[act.t].unit.origin]
    else if act.Fetch? && CLIENT <= act.t < |s.pcs| && s.todo[act.t - CLIENT] != [] then
      var sub := s.todo[act.t - CLIENT][0];
      if TargetOf(sub).ToWire? then [Origin(act.t - CLIENT, sub.app, sub.payload)] else []
    else []
  }

  /** What a step adds to the log of submissions to `a`. */
  function Submits(s: State, act: Action, a: App): seq<Note>
    requires Shape(s)
  {
    var os := SubmittedBy(s, act);
    if os == [] then [] else NoteOf(a, os[0])
  }

  lemma FetchNodes(s: State, t: nat)
    requires Shape(s) && Enabled(0, s, Fetch(t))
    ensures var nodes, nodes' := Nodes(s), Nodes(AfterFetch(s, t));
            if SubmittedBy(s, Fetch(t)) == [] then nodes' == nodes
            else nodes' == nodes[READER := nodes[READER] + SubmittedBy(s, Fetch(t))]
  {
    var s' := AfterFetch(s, t);
    if t <= READER {
      assert Node(s', t) == Node(s, t);
      forall i | 0 <= i < CLIENT && i != t ensures Node(s', i) == Node(s, i) {
      }
    } else {
      assert Node(s', READER) == Node(s, READER) + SubmittedBy(s, Fetch(t));
    }
  }

  lemma WriteNodes(s: State, t: nat)
    requires Shape(s) && t < |s.pcs| && s.pcs[t].Holding? && t != s.pcs[t].to
    ensures var Holding(u, to) := s.pcs[t];
            var nodes, nodes' := Nodes(s), Nodes(AfterWrite(s, t));
            if t < CLIENT then Moved(nodes, nodes', t, to, u.origin)
            else nodes' == nodes[to := nodes[to] + [u.origin]]
  {
    var s' := AfterWrite(s, t);
    var Holding(u, to) := s.pcs[t];
    assert Node(s', to) == Node(s, to) + [u.origin];
    assert t < CLIENT ==> Node(s, t) == [u.origin] + Node(s', t);
  }

  lemma WorkNodes(s: State, t: Stage, effect: Effect)
    requires Shape(s) && t < |s.pcs| && s.pcs[t].Locked? && EffectOk(t, s.pcs[t].unit, effect)
    ensures var u, nodes, nodes' := s.pcs[t].unit, Nodes(s), Nodes(AfterWork(s, t, effect));
            && (effect.Emit? ==> nodes' == nodes)
            && (effect.OnWire? ==> Moved(nodes, nodes', t, READER, u.origin))
            && (effect.Handed? ==> nodes[t] == [u.origin] + nodes'[t] && nodes' == nodes[t := nodes'[t]])
  {
    var s', u := AfterWork(s, t, effect), s.pcs[t].unit;
    if effect.Emit? {
      assert Node(s', t) == Node(s, t);
    } else {
      assert Node(s, t) == [u.origin] + Node(s', t);
      assert effect.OnWire? ==> Node(s', READER) == Node(s, READER) + [u.origin];
    }
  }

  lemma WriteJourney(s: State, t: nat, a: App)
    requires Shape(s) && t < |s.pcs| && s.pcs[t].Holding? && PcOk(t, s.pcs[t])
    ensures Journey(AfterWrite(s, t), a) == Journey(s, a) + Submits(s, Write(t), a)
  {
    var Holding(u, to) := s.pcs[t];
    WriteNodes(s, t);
    if t < CLIENT {
      WritesOnPath(t, u, to);
      MoveKeepsOrder(Nodes(s), Nodes(AfterWrite(s, t)), t, to, u.origin, a);
    } else {
      AddComesLast(Nodes(s), to, u.origin, a);
      Reassociates(s.delivered[AppIndex(a)], OnTheWay(Nodes(s), a), NoteOf(a, u.origin));
    }
  }

  /** The socket reader is next after Ethernet's send stage. */
  lemma WireOnPath(a: App)
    ensures HandsOver(a, ETH_SEND, READER)
  {
  }

  lemma WorkJourney(s: State, t: Stage, effect: Effect, a: App)
    requires Shape(s) && t < |s.pcs| && s.pcs[t].Locked? && EffectOk(t, s.pcs[t].unit, effect)
    ensures Journey(AfterWork(s, t, effect), a) == Journey(s, a)
  {
    WorkNodes(s, t, effect);
    if effect.OnWire? {
      WireOnPath(a);
      MoveKeepsOrder(Nodes(s), Nodes(AfterWork(s, t, effect)), t, READER, s.pcs[t].unit.origin, a);
    } else if effect.Handed? {
      HandedJourney(s, t, effect, a);
    }
  }

  lemma HandedJourney(s: State, t: Stage, effect: Effect, a: App)
    requires Shape(s) && t < |s.pcs| && s.pcs[t].Locked? && EffectOk(t, s.pcs[t].unit, effect) && effect.Handed?
    ensures Journey(AfterWork(s, t, effect), a) == Journey(s, a)
  {
    var o, s' := s.pcs[t].unit.origin, AfterWork(s, t, effect);
    WorkNodes(s, t, effect);
    TakeIsOldest(Nodes(s), Nodes(s')[t], o, a);
    var d, f := s.delivered[AppIndex(a)], OnTheWay(Nodes(s'), a);
    assert s'.delivered[AppIndex(a)] == d + NoteOf(a, o);
    assert d + (NoteOf(a, o) + f) == d + NoteOf(a, o) + f;
  }
}
