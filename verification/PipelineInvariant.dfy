/** What every reachable state of the pipeline satisfies: mutual exclusion, pipes within capacity,
    and every unit carrying exactly the headers of the place where it is. */
module PipelineInvariant {
  import opened Headers
  import opened Stack
  import opened Pipeline

  /** The stages a message of application `a` passes. */
  predicate OnPath(p: Stage, a: App) {
    var i := AppIndex(a);
    p == i || p == SendTo(i) || p == IP_SEND || p == ETH_SEND || p == ETH_RECV || p == IP_RECV
    || p == ReceiverOf(TransportOf(a)) || p == APP_RECV + i
  }

  /** Which pipe thread `t` writes a message of application `a` to. */
  function NextOf(t: nat, a: App): Stage
    requires HasNext(t)
  {
    if t >= CLIENT then AppIndex(a)
    else if t == READER then ETH_RECV
    else if t < ETH_SEND then SendTo(t)
    else if t == ETH_RECV then IP_RECV
    else if t == IP_RECV then ReceiverOf(TransportOf(a))
    else APP_RECV + AppIndex(a)
  }

  /** Ethernet's send stage writes to the wire and the applications to nobody. */
  predicate HasNext(t: nat) {
    t < ETH_SEND || ETH_RECV <= t < APP_RECV || t >= READER
  }

  /** How many headers a message in pipe `p` carries. */
  function LevelOf(p: Stage): nat {
    if p < TCP_SEND then 0 else if p < IP_SEND then 1 else if p == IP_SEND then 2 else if p == ETH_SEND then 3
    else if p == ETH_RECV then 4 else if p == IP_RECV then 3 else if p < APP_RECV then 2 else 1
  }

  /** The protocol id of the unit is that of the stage that wrote it, which on the send path is what the
      reading stage puts in its header. */
  predicate PidRight(p: Stage, u: Unit) {
    && (TCP_SEND <= p < IP_SEND ==> u.pid == AppId(u.origin.app))
    && (p == IP_SEND ==> u.pid == TransportId(u.origin.app))
    && (p == ETH_SEND ==> u.pid == IP_ID)
    && (p == ETH_RECV ==> u.pid == 0)
    && (p == IP_RECV ==> u.pid == 1)
    && (p == TCP_RECV || p == UDP_RECV ==> u.pid == IP_ID)
    && (p >= APP_RECV ==> u.pid == TransportId(u.origin.app))
  }

  ghost predicate Stacked(level: nat, u: Unit)
    requires level <= 4
  {
    && Carries(level, u.origin.app, u.origin.payload, u.bytes)
    && |u.origin.payload| <= MaxPayload(u.origin.app)
  }

  /** Unit `u` belongs in pipe `p`. */
  ghost predicate Belongs(p: Stage, u: Unit) {
    OnPath(p, u.origin.app) && PidRight(p, u) && Stacked(LevelOf(p), u)
  }

  ghost predicate PcOk(t: nat, pc: Pc) {
    match pc
    case Parked => true
    case Fetched(u) => t < STAGES && Belongs(t, u)
    case Locked(u) => t < STAGES && Belongs(t, u)
    case Ready(u, to) => OnItsWay(t, u, to)
    case Holding(u, to) => OnItsWay(t, u, to)
    case Wrote(to) => HasNext(t) && (t < STAGES ==> t < to)
    case Closing => t < STAGES
  }

  ghost predicate OnItsWay(t: nat, u: Unit, to: Stage) {
    && HasNext(t)
    && to == NextOf(t, u.origin.app)
    && Belongs(to, u)
    && (t < STAGES ==> OnPath(t, u.origin.app))
    && (t >= CLIENT ==> u.origin.client == t - CLIENT)
  }

  /** Thread `t`, being at `pc`, has locked mutex `p` and not yet unlocked it. */
  predicate Holds(t: nat, pc: Pc, p: Stage) {
    match pc
    case Parked => false
    case Fetched(_) => false
    case Locked(_) => t == p
    case Ready(_, _) => t == p
    case Holding(_, to) => t == p || to == p
    case Wrote(to) => t == p || to == p
    case Closing => t == p
  }

  ghost predicate LocksOk(s: State)
    requires Shape(s)
  {
    && (forall p, t :: 0 <= p < STAGES && 0 <= t < |s.pcs| && Holds(t, s.pcs[t], p) ==> s.locks[p] == HeldBy(t))
    && (forall p :: 0 <= p < STAGES && s.locks[p] != Free ==>
          s.locks[p].thread < |s.pcs| && Holds(s.locks[p].thread, s.pcs[s.locks[p].thread], p))
  }

  lemma MutualExclusion(s: State, p: Stage, t: nat, t': nat)
    requires Shape(s) && LocksOk(s) && t < |s.pcs| && t' < |s.pcs|
    requires Holds(t, s.pcs[t], p) && Holds(t', s.pcs[t'], p)
    ensures t == t'
  {
    assert s.locks[p] == HeldBy(t);
  }

  /** A submission the stack can frame: both stacks overrun their buffer on a longer one.  A frame is
      one that PerMessage.h has built. */
  ghost predicate Submittable(sub: Submission) {
    && (forall a: App :: IsFor(sub, a) ==> |sub.payload| <= MaxPayload(a))
    && (sub.Frame? ==> Carries(4, sub.app, sub.payload, sub.bytes))
  }

  ghost predicate PlacesOk(cap: nat, s: State)
    requires Shape(s)
  {
    && (forall t :: 0 <= t < |s.pcs| ==> PcOk(t, s.pcs[t]))
    && (forall p :: 0 <= p < STAGES ==> |s.pipes[p]| <= cap)
    && (forall p, i :: 0 <= p < STAGES && 0 <= i < |s.pipes[p]| ==> Belongs(p, s.pipes[p][i]))
    && (forall i :: 0 <= i < |s.wire| ==> Stacked(4, s.wire[i]))
    && (forall c, i :: 0 <= c < |s.todo| && 0 <= i < |s.todo[c]| ==> Submittable(s.todo[c][i]))
  }

  ghost predicate Inv(cap: nat, s: State) {
    Shape(s) && LocksOk(s) && PlacesOk(cap, s) && s.dropped == 0 && !s.crashed
  }

  lemma InitialInv(cap: nat, todo: seq<seq<Submission>>)
    requires forall c, i :: 0 <= c < |todo| && 0 <= i < |todo[c]| ==> Submittable(todo[c][i])
    ensures Inv(cap, Initial(todo))
  {
  }

  // ---------- The work of one stage ----------

  /** On the way down each stage is one header further in, on the path of the application. */
  lemma SendPath(p: Stage, a: App)
    requires p <= ETH_SEND && OnPath(p, a)
    ensures LayerOf(p) == LayerAt(LevelOf(p) + 1, a)
    ensures p < ETH_SEND ==> NextOf(p, a) == SendTo(p) && OnPath(SendTo(p), a) && LevelOf(SendTo(p)) == LevelOf(p) + 1
    ensures LevelOf(p) > 0 ==> forall u: Unit :: u.origin.app == a && PidRight(p, u) ==> u.pid == InnerId(LevelOf(p) + 1, a)
    ensures p < ETH_SEND ==> forall u: Unit :: u.origin.app == a && u.pid == PidOf(p) ==> PidRight(SendTo(p), u)
  {
  }

  /** The effect of a stage's work on a unit that belongs in its pipe. */
  ghost predicate EffectOk(p: Stage, u: Unit, effect: Effect) {
    match effect
    case Emit(to, v) => v.origin == u.origin && OnItsWay(p, v, to)
    case OnWire(v) => p == ETH_SEND && v.origin == u.origin && Stacked(4, v)
    case Handed(a, b) => a == u.origin.app && b == u.origin.payload && p == APP_RECV + AppIndex(a)
    case Dropped => false
    case Crash => false
  }

  lemma SendStageWork(p: Stage, u: Unit, junk: Junk)
    requires p <= ETH_SEND && Belongs(p, u) && JunkFits(p, junk)
    ensures EffectOk(p, u, StageWork(p, u, junk))
  {
    var a, n := u.origin.app, LevelOf(p);
    CarriesSize(n, a, u.origin.payload, u.bytes);
    HeadersTotals(a);
    assert HeadersTotal(0, a) == 0;
    SendPath(p, a);
    var hlp := if p < TCP_SEND then junk.hlp else u.pid;
    AddHeaderCarries(n, a, u.origin.payload, hlp, junk.otherInfo, u.bytes);
    if p == ETH_SEND {
      FrameFits(a, u.origin.payload, AddHeader(Eth, hlp, junk.otherInfo, u.bytes));
    }
  }

  lemma ReceiveStageWork(p: Stage, u: Unit, junk: Junk)
    requires p >= ETH_RECV && Belongs(p, u)
    ensures EffectOk(p, u, StageWork(p, u, junk))
  {
    var a, n := u.origin.app, LevelOf(p);
    assert LayerOf(p) == LayerAt(n, a);
    if n == 1 {
      assert Carries(0, a, u.origin.payload, u.bytes[HeaderSize(AppLayer(a))..]);
    } else {
      StageUp(n, a, u.origin.payload, u.bytes);
    }
  }

  /** On traffic that started at a client no stage crashes or takes its "invalid protocol" branch:
      each hands the message to the next stage of its application, with one header more or less. */
  lemma StageWorkOk(p: Stage, u: Unit, junk: Junk)
    requires Belongs(p, u) && JunkFits(p, junk)
    ensures EffectOk(p, u, StageWork(p, u, junk))
  {
    if p <= ETH_SEND {
      SendStageWork(p, u, junk);
    } else {
      ReceiveStageWork(p, u, junk);
    }
  }

  /** The Ethernet send stage overruns its buffer exactly on payloads beyond the limit. */
  lemma EthSendCrashes(u: Unit, junk: Junk)
    requires Carries(3, u.origin.app, u.origin.payload, u.bytes) && u.pid == IP_ID && |u.bytes| < 0x8000_0000
    requires JunkFits(ETH_SEND, junk)
    ensures StageWork(ETH_SEND, u, junk) == Crash <==> |u.origin.payload| > MaxPayload(u.origin.app)
  {
    AddHeaderCarries(3, u.origin.app, u.origin.payload, IP_ID, junk.otherInfo, u.bytes);
    FrameFits(u.origin.app, u.origin.payload, AddHeader(Eth, IP_ID, junk.otherInfo, u.bytes));
  }

  /** Interoperation from this side: every frame this stack puts on the wire is delivered as it should
      by the receiver of PerMessage.h as well. */
  lemma WireFramesInterop(cap: nat, s: State, i: nat)
    requires Inv(cap, s) && i < |s.wire|
    ensures var o := s.wire[i].origin;
            PerMessageReceive(s.wire[i].bytes) == PerProtocolReceive(s.wire[i].bytes) == Delivered(o.app, o.payload)
  {
    ReceiversDeliver(s.wire[i].origin.app, s.wire[i].origin.payload, s.wire[i].bytes);
  }

  /** Every frame on the wire names, in its transport header, the protocol id of the application its
      message was submitted for. */
  lemma WireNamesApplication(cap: nat, s: State, i: nat)
    requires Inv(cap, s) && i < |s.wire|
    ensures var u := s.wire[i];
            && |u.bytes| >= 48
            && HlpOf(TransportOf(u.origin.app), u.bytes[HeaderSize(Eth)..][HeaderSize(Ip)..]) == AppId(u.origin.app)
            && Addressee(u.bytes) == [u.origin.app]
  {
    var u := s.wire[i];
    StageUp(4, u.origin.app, u.origin.payload, u.bytes);
    StageUp(3, u.origin.app, u.origin.payload, u.bytes[HeaderSize(Eth)..]);
    StageUp(2, u.origin.app, u.origin.payload, u.bytes[HeaderSize(Eth)..][HeaderSize(Ip)..]);
  }

  // ---------- One step ----------

  /** A thread moves on without touching a mutex. */
  lemma LocksSame(s: State, s': State, t: nat)
    requires Shape(s) && LocksOk(s) && Shape(s') && t < |s.pcs| == |s'.pcs|
    requires s'.pcs == s.pcs[t := s'.pcs[t]] && s'.locks == s.locks
    requires forall p: Stage :: Holds(t, s'.pcs[t], p) == Holds(t, s.pcs[t], p)
    ensures LocksOk(s')
  {
  }

  /** A thread takes the free mutex `q` and nothing else. */
  lemma LocksTaken(s: State, s': State, t: nat, q: Stage)
    requires Shape(s) && LocksOk(s) && Shape(s') && t < |s.pcs| == |s'.pcs|
    requires s'.pcs == s.pcs[t := s'.pcs[t]]
    requires s.locks[q] == Free && s'.locks == s.locks[q := HeldBy(t)]
    requires forall p: Stage :: Holds(t, s'.pcs[t], p) == (p == q || Holds(t, s.pcs[t], p))
    ensures LocksOk(s')
  {
  }

  /** A thread releases the mutex `q`, which it holds, and nothing else. */
  lemma LocksReleased(s: State, s': State, t: nat, q: Stage)
    requires Shape(s) && LocksOk(s) && Shape(s') && t < |s.pcs| == |s'.pcs|
    requires s'.pcs == s.pcs[t := s'.pcs[t]]
    requires Holds(t, s.pcs[t], q) && s'.locks == s.locks[q := Free]
    requires forall p: Stage :: Holds(t, s'.pcs[t], p) == (p != q && Holds(t, s.pcs[t], p))
    ensures LocksOk(s')
  {
    forall p, v | 0 <= p < STAGES && 0 <= v < |s'.pcs| && Holds(v, s'.pcs[v], p) ensures s'.locks[p] == HeldBy(v) {
      assert Holds(v, s.pcs[v], p);
      if p == q {
        MutualExclusion(s, p, t, v);
      }
    }
    forall p | 0 <= p < STAGES && s'.locks[p] != Free
      ensures s'.locks[p].thread < |s'.pcs| && Holds(s'.locks[p].thread, s'.pcs[s'.locks[p].thread], p)
    {
      assert Holds(s.locks[p].thread, s.pcs[s.locks[p].thread], p);
    }
  }

  lemma LocksKept(cap: nat, s: State, act: Action)
    requires Shape(s) && LocksOk(s) && Enabled(cap, s, act) && !act.Work?
    requires !act.Lose? ==> PcOk(act.t, s.pcs[act.t])
    ensures LocksOk(Next(cap, s, act))
  {
    var s' := Next(cap, s, act);
    match act
    case Fetch(t) => LocksSame(s, s', t);
    case LockOwn(t) => LocksTaken(s, s', t, t);
    case LockNext(t) => LocksTaken(s, s', t, s.pcs[t].to);
    case Write(t) => LocksSame(s, s', t);
    case UnlockNext(t) => LocksReleased(s, s', t, s.pcs[t].to);
    case UnlockOwn(t) => LocksReleased(s, s', t, t);
    case Lose(i) =>
  }

  /** What a client takes up is in its place. */
  lemma SubmissionOk(cap: nat, s: State, c: nat)
    requires Inv(cap, s) && Enabled(cap, s, Fetch(CLIENT + c))
    ensures PlacesOk(cap, AfterFetch(s, CLIENT + c))
  {
    var s', sub := AfterFetch(s, CLIENT + c), s.todo[c][0];
    assert Submittable(sub);
    TargetRight(sub);
    if TargetOf(sub).ToApp? {
      var a := TargetOf(sub).app;
      assert OnItsWay(CLIENT + c, UnitOf(c, a, sub), AppIndex(a));
    } else if TargetOf(sub).ToWire? {
      assert Stacked(4, UnitOf(c, sub.app, sub));
    }
    forall d, i | 0 <= d < |s'.todo| && 0 <= i < |s'.todo[d]| ensures Submittable(s'.todo[d][i]) {
      assert Submittable(s.todo[d][if d == c then i + 1 else i]);
    }
  }

  /** What a stage reads from its pipe is in its place. */
  lemma ReadOk(cap: nat, s: State, t: Stage)
    requires Inv(cap, s) && Enabled(cap, s, Fetch(t))
    ensures PlacesOk(cap, AfterFetch(s, t))
  {
    var s' := AfterFetch(s, t);
    assert Belongs(t, s.pipes[t][0]);
    forall p, i | 0 <= p < STAGES && 0 <= i < |s'.pipes[p]| ensures Belongs(p, s'.pipes[p][i]) {
      assert Belongs(p, s.pipes[p][if p == t then i + 1 else i]);
    }
  }

  /** A datagram that fits is read whole. */
  lemma DatagramOk(u: Unit)
    requires Stacked(4, u)
    ensures OnItsWay(READER, Unit(0, Truncated(u.bytes), u.origin), ETH_RECV)
  {
    FrameFits(u.origin.app, u.origin.payload, u.bytes);
  }

  /** What the reader takes from the wire is in its place. */
  lemma ReceiveOk(cap: nat, s: State)
    requires Inv(cap, s) && Enabled(cap, s, Fetch(READER))
    ensures PlacesOk(cap, AfterFetch(s, READER))
  {
    var s' := AfterFetch(s, READER);
    DatagramOk(s.wire[0]);
    forall i | 0 <= i < |s'.wire| ensures Stacked(4, s'.wire[i]) {
      assert Stacked(4, s.wire[i + 1]);
    }
  }

  /** What Fetch gives a thread is in its place. */
  lemma FetchOk(cap: nat, s: State, t: nat)
    requires Inv(cap, s) && Enabled(cap, s, Fetch(t))
    ensures PlacesOk(cap, AfterFetch(s, t))
  {
    if t < STAGES {
      ReadOk(cap, s, t);
    } else if t == READER {
      ReceiveOk(cap, s);
    } else {
      SubmissionOk(cap, s, t - CLIENT);
    }
  }

  lemma WriteOk(cap: nat, s: State, t: nat)
    requires Inv(cap, s) && Enabled(cap, s, Write(t))
    ensures PlacesOk(cap, AfterWrite(s, t))
  {
    var s' := AfterWrite(s, t);
    var Holding(u, to) := s.pcs[t];
    assert OnItsWay(t, u, to);
    forall p, i | 0 <= p < STAGES && 0 <= i < |s'.pipes[p]| ensures Belongs(p, s'.pipes[p][i]) {
      assert (p == to && i == |s.pipes[to]|) || s'.pipes[p][i] == s.pipes[p][i];
    }
  }

  lemma WorkOk(cap: nat, s: State, t: Stage, effect: Effect)
    requires Inv(cap, s) && s.pcs[t].Locked? && EffectOk(t, s.pcs[t].unit, effect)
    ensures Inv(cap, AfterWork(s, t, effect))
  {
    assert PcOk(t, s.pcs[t]);
    LocksSame(s, AfterWork(s, t, effect), t);
  }

  lemma OtherOk(cap: nat, s: State, act: Action)
    requires Inv(cap, s) && Enabled(cap, s, act) && !act.Fetch? && !act.Work? && !act.Write?
    ensures PlacesOk(cap, Next(cap, s, act))
  {
    if !act.Lose? {
      assert PcOk(act.t, s.pcs[act.t]);
    }
  }

  /** Every step of every thread, and every loss on the wire, keeps the invariant. */
  lemma NextInv(cap: nat, s: State, act: Action)
    requires Inv(cap, s) && Enabled(cap, s, act)
    ensures Inv(cap, Next(cap, s, act))
  {
    if act.Work? {
      assert PcOk(act.t, s.pcs[act.t]);
      StageWorkOk(act.t, s.pcs[act.t].unit, act.junk);
      WorkOk(cap, s, act.t, StageWork(act.t, s.pcs[act.t].unit, act.junk));
    } else {
      if !act.Lose? {
        assert PcOk(act.t, s.pcs[act.t]);
      }
      LocksKept(cap, s, act);
      match act
      case Fetch(t) => FetchOk(cap, s, t);
      case Write(t) => WriteOk(cap, s, t);
      case _ => OtherOk(cap, s, act);
    }
  }

  /** Every run keeps the invariant. */
  lemma {:induction false} RunInv(cap: nat, s: State, acts: seq<Action>)
    requires Inv(cap, s) && CanRun(cap, s, acts)
    ensures Inv(cap, Run(cap, s, acts))
    decreases |acts|
  {
    if acts != [] {
      NextInv(cap, s, acts[0]);
      RunInv(cap, Next(cap, s, acts[0]), acts[1..]);
    }
  }
}
