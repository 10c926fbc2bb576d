/** The process-per-protocol pipeline of PerProtocol.h as a transition system.

    Every protocol is a thread with one input pipe and one mutex.  Its loop is: read the pipe while
    holding nothing, lock its own mutex, work on the message, lock the mutex of the next pipe, write
    there, unlock it, unlock its own mutex.  One direction of the conversation is modelled: the eight
    send stages of one host, the wire, the socket reader and the eight receive stages of the other
    host, and any number of client threads, some of which may be senders of PerMessage.h.  The opposite direction shares no pipe, mutex or message
    with it and is another copy.

    A stage and its pipe and mutex have the same number, which is also their rank: messages only
    travel towards higher numbers. */
module Pipeline {
  import opened Headers
  import opened Stack

  const STAGES := 16
  const TCP_SEND := 4
  const UDP_SEND := 5
  const IP_SEND := 6
  const ETH_SEND := 7
  const ETH_RECV := 8
  const IP_RECV := 9
  const TCP_RECV := 10
  const UDP_RECV := 11
  const APP_RECV := 12  // the four receiving applications are 12 to 15
  const READER := 16    // the thread that runs msg_recv
  const CLIENT := 17    // threads 17 and up are the callers of msg_send

  type Stage = p: nat | p < STAGES

  function AppIndex(a: App): nat {
    match a case Ftp => 0 case Telnet => 1 case Rdp => 2 case Dns => 3
  }

  function AppAt(i: nat): App
    requires i < 4
  {
    if i == 0 then Ftp else if i == 1 then Telnet else if i == 2 then Rdp else Dns
  }

  function LayerOf(p: Stage): Layer {
    if p < TCP_SEND then AppLayer(AppAt(p))
    else if p == TCP_SEND || p == TCP_RECV then Tcp
    else if p == UDP_SEND || p == UDP_RECV then Udp
    else if p == IP_SEND || p == IP_RECV then Ip
    else if p == ETH_SEND || p == ETH_RECV then Eth
    else AppLayer(AppAt(p - APP_RECV))
  }

  function ReceiverOf(l: Layer): Stage {
    match l
    case Eth => ETH_RECV
    case Ip => IP_RECV
    case Tcp => TCP_RECV
    case Udp => UDP_RECV
    case AppLayer(a) => APP_RECV + AppIndex(a)
  }

  /** History only: which client sent what to whom.  No step of the system looks at it. */
  datatype Origin = Origin(client: nat, app: App, payload: Bytes)

  /** A pipe_unit, with the bytes of its message. */
  datatype Unit = Unit(pid: int32, bytes: Bytes, origin: Origin)

  /** What malloc left in a header record: the fields the stage does not set. */
  datatype Junk = Junk(hlp: int32, otherInfo: Bytes)

  datatype Effect = Emit(to: Stage, unit: Unit) | OnWire(unit: Unit) | Handed(app: App, bytes: Bytes) | Dropped | Crash

  /** The protocol id a stage puts in the unit it writes. */
  function PidOf(p: Stage): int32 {
    if p < TCP_SEND then AppId(AppAt(p))
    else if p == TCP_SEND || p == TCP_RECV then TCP_ID
    else if p == UDP_SEND || p == UDP_RECV then UDP_ID
    else if p == IP_SEND || p == IP_RECV then IP_ID
    else 1
  }

  function SendTo(p: Stage): Stage {
    if p < 2 then TCP_SEND else if p < TCP_SEND then UDP_SEND else if p < IP_SEND then IP_SEND else ETH_SEND
  }

  predicate JunkFits(p: Stage, junk: Junk) {
    p <= ETH_SEND ==> |junk.otherInfo| == InfoSize(LayerOf(p))
  }

  /** The body of a stage's loop between locking its own mutex and its next write. */
  function StageWork(p: Stage, u: Unit, junk: Junk): Effect
    requires JunkFits(p, junk)
  {
    if p >= ETH_RECV then
      match ReceiveStage(LayerOf(p), u.bytes)
      case Up(to, rest) => Emit(ReceiverOf(to), Unit(PidOf(p), rest, u.origin))
      case End(Delivered(a, payload)) => Handed(a, payload)
      case End(Rejected(_, _)) => Dropped
      case End(Fault) => Crash
    else if |u.bytes| >= 0x8000_0000 then Crash  // far too long for the frame buffer below
    else
      var hlp := if p < TCP_SEND then junk.hlp else u.pid;
      var b := AddHeader(LayerOf(p), hlp, junk.otherInfo, u.bytes);
      if p < ETH_SEND then Emit(SendTo(p), Unit(PidOf(p), b, u.origin))
      else if |b| > FRAME_BUFFER then Crash
      else OnWire(Unit(0, b, u.origin))
  }

  /** A client calls msg_send, or writes to an application's pipe itself as SpeedTest.cc does, or uses
      a send function of PerMessage.h, which puts a whole frame on the wire. */
  datatype Submission =
    | MsgSend(protocolId: int32, payload: Bytes)
    | PipeWrite(app: App, pid: int32, payload: Bytes)
    | Frame(app: App, payload: Bytes, bytes: Bytes)

  datatype Target = NoPipe | ToApp(app: App) | ToWire(app: App)

  /** msg_send refuses every protocol id but 5 to 8. */
  function TargetOf(sub: Submission): Target {
    match sub
    case Frame(a, _, _) => ToWire(a)
    case PipeWrite(a, _, _) => ToApp(a)
    case MsgSend(id, _) =>
      if id == AppId(Ftp) then ToApp(Ftp) else if id == AppId(Telnet) then ToApp(Telnet)
      else if id == AppId(Rdp) then ToApp(Rdp) else if id == AppId(Dns) then ToApp(Dns) else NoPipe
  }

  /** What a submission says itself: the application it is for, by protocol id, pipe or frame. */
  predicate IsFor(sub: Submission, a: App) {
    match sub
    case MsgSend(id, _) => id == AppId(a)
    case PipeWrite(b, _, _) => a == b
    case Frame(b, _, _) => a == b
  }

  predicate Refused(sub: Submission) {
    sub.MsgSend? && !(5 <= sub.protocolId <= 8)
  }

  /** msg_send hands a message to the application with its protocol id, whose pipe has that number less
      5, and refuses all other ids. */
  lemma TargetRight(sub: Submission)
    ensures TargetOf(sub).NoPipe? <==> Refused(sub)
    ensures forall a :: IsFor(sub, a) <==> TargetOf(sub) == ToApp(a) || TargetOf(sub) == ToWire(a)
    ensures sub.MsgSend? && !Refused(sub) ==>
              TargetOf(sub).ToApp? && AppIndex(TargetOf(sub).app) == sub.protocolId - 5
    ensures sub.PipeWrite? ==> TargetOf(sub) == ToApp(sub.app)
    ensures sub.Frame? ==> TargetOf(sub) == ToWire(sub.app)
  {
  }

  function UnitOf(client: nat, a: App, sub: Submission): Unit {
    var origin := Origin(client, a, sub.payload);
    match sub
    case MsgSend(id, payload) => Unit(id, payload, origin)
    case PipeWrite(_, pid, payload) => Unit(pid, payload, origin)
    case Frame(_, _, bytes) => Unit(0, bytes, origin)
  }

  /** Where a thread is in its loop. */
  datatype Pc =
    | Parked                       // about to read, holding nothing
    | Fetched(unit: Unit)          // has read, wants its own mutex
    | Locked(unit: Unit)           // holds its own mutex
    | Ready(unit: Unit, to: Stage)   // wants the mutex of the next pipe
    | Holding(unit: Unit, to: Stage) // holds it, about to write
    | Wrote(to: Stage)             // has written, about to unlock it
    | Closing                      // about to unlock its own mutex

  datatype Mutex = Free | HeldBy(thread: nat)

  /** One payload as the client gave it or as the application got it. */
  datatype Note = Note(client: nat, payload: Bytes)

  /** Threads: stages 0 to 15, the socket reader, then the clients.  `submitted` and `delivered`
      are logs per application: writes into its send pipe and frames put on the wire for it, and
      deliveries by its receive stage. */
  datatype State = State(
    pcs: seq<Pc>, pipes: seq<seq<Unit>>, locks: seq<Mutex>, wire: seq<Unit>, todo: seq<seq<Submission>>,
    submitted: seq<seq<Note>>, delivered: seq<seq<Note>>, dropped: nat, crashed: bool)

  predicate Shape(s: State) {
    && |s.pcs| == CLIENT + |s.todo|
    && |s.pipes| == |s.locks| == STAGES
    && |s.submitted| == |s.delivered| == 4
  }

  datatype Action =
    | Fetch(t: nat)
    | LockOwn(t: nat)
    | Work(t: nat, junk: Junk)
    | LockNext(t: nat)
    | Write(t: nat)
    | UnlockNext(t: nat)
    | UnlockOwn(t: nat)
    | Lose(index: nat)  // the network drops a datagram

  /** `cap` is the number of units a pipe can hold before a write blocks. */
  predicate Enabled(cap: nat, s: State, act: Action)
    requires Shape(s)
  {
    && !s.crashed
    && match act
       case Fetch(t) =>
         && t < |s.pcs| && s.pcs[t] == Parked
         && if t < STAGES then s.pipes[t] != [] else if t == READER then s.wire != [] else s.todo[t - CLIENT] != []
       case LockOwn(t) => t < STAGES && s.pcs[t].Fetched? && s.locks[t] == Free
       case Work(t, junk) => t < STAGES && s.pcs[t].Locked? && JunkFits(t, junk)
       case LockNext(t) => t < |s.pcs| && s.pcs[t].Ready? && s.locks[s.pcs[t].to] == Free
       case Write(t) => t < |s.pcs| && s.pcs[t].Holding? && |s.pipes[s.pcs[t].to]| < cap
       case UnlockNext(t) => t < |s.pcs| && s.pcs[t].Wrote?
       case UnlockOwn(t) => t < STAGES && s.pcs[t] == Closing
       case Lose(i) => i < |s.wire|
  }

  /** A thread picks up its next piece of work: a unit, a datagram or a submission. */
  function AfterFetch(s: State, t: nat): State
    requires Shape(s) && Enabled(0, s, Fetch(t))
  {
    if t < STAGES then
      s.(pcs := s.pcs[t := Fetched(s.pipes[t][0])], pipes := s.pipes[t := s.pipes[t][1..]])
    else if t == READER then
      var u := s.wire[0];
      s.(pcs := s.pcs[t := Ready(Unit(0, Truncated(u.bytes), u.origin), ETH_RECV)], wire := s.wire[1..])
    else
      var c := t - CLIENT;
      var sub := s.todo[c][0];
      var rest := s.(todo := s.todo[c := s.todo[c][1..]]);
      match TargetOf(sub)
      case NoPipe => rest
      case ToApp(a) => rest.(pcs := s.pcs[t := Ready(UnitOf(c, a, sub), AppIndex(a))])
      case ToWire(a) =>
        var i := AppIndex(a);
        rest.(wire := s.wire + [UnitOf(c, a, sub)], submitted := s.submitted[i := s.submitted[i] + [Note(c, sub.payload)]])
  }

  /** A stage, holding its mutex, has finished working on its message. */
  function AfterWork(s: State, t: Stage, effect: Effect): State
    requires Shape(s) && t < |s.pcs| && s.pcs[t].Locked?
  {
    match effect
    case Emit(to, v) => s.(pcs := s.pcs[t := Ready(v, to)])
    case OnWire(v) => s.(pcs := s.pcs[t := Closing], wire := s.wire + [v])
    case Handed(a, b) =>
      var note := Note(s.pcs[t].unit.origin.client, b);
      s.(pcs := s.pcs[t := Closing], delivered := s.delivered[AppIndex(a) := s.delivered[AppIndex(a)] + [note]])
    case Dropped => s.(pcs := s.pcs[t := Closing], dropped := s.dropped + 1)
    case Crash => s.(crashed := true)
  }

  function AfterWrite(s: State, t: nat): State
    requires Shape(s) && t < |s.pcs| && s.pcs[t].Holding?
  {
    var Holding(u, to) := s.pcs[t];
    var s' := s.(pcs := s.pcs[t := Wrote(to)], pipes := s.pipes[to := s.pipes[to] + [u]]);
    if t < CLIENT then s'
    else
      var i := AppIndex(u.origin.app);
      s'.(submitted := s.submitted[i := s.submitted[i] + [Note(u.origin.client, u.origin.payload)]])
  }

  function Next(cap: nat, s: State, act: Action): (s': State)
    requires Shape(s) && Enabled(cap, s, act)
    ensures Shape(s')
  {
    match act
    case Fetch(t) => AfterFetch(s, t)
    case LockOwn(t) => s.(pcs := s.pcs[t := Locked(s.pcs[t].unit)], locks := s.locks[t := HeldBy(t)])
    case Work(t, junk) => AfterWork(s, t, StageWork(t, s.pcs[t].unit, junk))
    case LockNext(t) =>
      var Ready(u, to) := s.pcs[t];
      s.(pcs := s.pcs[t := Holding(u, to)], locks := s.locks[to := HeldBy(t)])
    case Write(t) => AfterWrite(s, t)
    case UnlockNext(t) =>
      s.(pcs := s.pcs[t := if t < STAGES then Closing else Parked], locks := s.locks[s.pcs[t].to := Free])
    case UnlockOwn(t) => s.(pcs := s.pcs[t := Parked], locks := s.locks[t := Free])
    case Lose(i) => s.(wire := s.wire[..i] + s.wire[i + 1..])
  }

  // ---------- Runs ----------

  predicate CanRun(cap: nat, s: State, acts: seq<Action>)
    requires Shape(s)
    decreases |acts|
  {
    acts == [] || (Enabled(cap, s, acts[0]) && CanRun(cap, Next(cap, s, acts[0]), acts[1..]))
  }

  function Run(cap: nat, s: State, acts: seq<Action>): (s': State)
    requires Shape(s) && CanRun(cap, s, acts)
    ensures Shape(s')
    decreases |acts|
  {
    if acts == [] then s else Run(cap, Next(cap, s, acts[0]), acts[1..])
  }

  /** No thread can move; only the network could still lose something. */
  ghost predicate Stuck(cap: nat, s: State)
    requires Shape(s)
  {
    forall act :: Enabled(cap, s, act) ==> act.Lose?
  }

  /** Every thread is parked at its first read and every mutex is free. */
  function Initial(todo: seq<seq<Submission>>): (s: State)
    ensures Shape(s)
  {
    State(seq(CLIENT + |todo|, _ => Parked), seq(STAGES, _ => []), seq(STAGES, _ => Free), [], todo,
          [[], [], [], []], [[], [], [], []], 0, false)
  }
}
