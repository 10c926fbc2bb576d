/** The loop bodies of the sixteen stages of PerProtocol.h, on real messages: each does to its message
    what StageWork says in the transition system. */
module PerProtocolStages {
  import opened Headers
  import opened Stack
  import opened Messages
  import opened Pipeline

  /** From "msg = read_pipe->msg" to the next lock, or to the end of the round. */
  method StageBody(p: Stage, u: Unit, msg: Message, junk: Junk) returns (effect: Effect)
    requires msg.Valid() && msg.Text() == u.bytes && |u.bytes| < 0x7000_0000 && JunkFits(p, junk)
    modifies msg
    ensures effect == StageWork(p, u, junk)
    ensures msg.Valid() && (effect.Emit? ==> msg.Text() == effect.unit.bytes)
  {
    if p <= ETH_SEND {
      var b := PushBody(p, if p < TCP_SEND then junk.hlp else u.pid, msg, junk.otherInfo);
      if p < ETH_SEND {
        effect := Emit(SendTo(p), Unit(PidOf(p), b, u.origin));
      } else {
        effect := Transmit(u, msg);
      }
    } else if p >= APP_RECV {
      effect := Consume(AppAt(p - APP_RECV), msg);
    } else {
      effect := Demultiplex(p, u, msg);
    }
  }

  /** mallocs a header, sets hlp and length, and adds it. */
  method PushBody(p: Stage, hlp: int32, msg: Message, otherInfo: Bytes) returns (b: Bytes)
    requires msg.Valid() && |msg.Text()| < 0x7000_0000 && |otherInfo| == InfoSize(LayerOf(p))
    modifies msg
    ensures msg.Valid() && b == msg.Text() == AddHeader(LayerOf(p), hlp, otherInfo, old(msg.Text()))
  {
    var h := Encode(Header(hlp, otherInfo, msg.length));
    msg.MsgAddHdr(h, HeaderSize(LayerOf(p)));
    assert h[..HeaderSize(LayerOf(p))] == h;
    b := msg.Text();
  }

  /** eth_send flattens the message into a buffer on its stack and sends it. */
  method Transmit(u: Unit, msg: Message) returns (effect: Effect)
    requires msg.Valid()
    ensures effect == if |msg.Text()| > FRAME_BUFFER then Crash else OnWire(Unit(0, msg.Text(), u.origin))
  {
    if msg.length > FRAME_BUFFER {
      return Crash;
    }
    var msgBuf := new byte[FRAME_BUFFER];
    msg.MsgFlat(msgBuf);
    assert msgBuf[..][..msg.length] == msg.Text();
    return OnWire(Unit(0, msgBuf[..msg.length], u.origin));
  }

  /** eth_recv, IP_recv, TCP_recv and UDP_recv: strip the header and branch on its hlp. */
  method Demultiplex(p: Stage, u: Unit, msg: Message) returns (effect: Effect)
    requires ETH_RECV <= p < APP_RECV && msg.Valid() && msg.Text() == u.bytes
    modifies msg
    ensures forall junk :: effect == StageWork(p, u, junk)
    ensures msg.Valid() && (effect.Emit? ==> msg.Text() == effect.unit.bytes)
  {
    var stripped := msg.MsgStripHdr(HeaderSize(LayerOf(p)));
    if stripped == Null {
      return Crash;
    }
    var protocolId, rest := Decode(stripped.bytes).hlp, msg.Text();
    var to: Stage;
    if p == ETH_RECV && protocolId == 2 {
      to := IP_RECV;
    } else if p == IP_RECV && protocolId == 3 {
      to := TCP_RECV;
    } else if p == IP_RECV && protocolId == 4 {
      to := UDP_RECV;
    } else if p == TCP_RECV && 5 <= protocolId <= 6 {
      to := APP_RECV + protocolId - 5;
    } else if p == UDP_RECV && 7 <= protocolId <= 8 {
      to := APP_RECV + protocolId - 5;
    } else {
      return Dropped;
    }
    return Emit(to, Unit(PidOf(p), rest, u.origin));
  }

  /** The receiving applications strip their header, whatever comes of it, flatten the rest into a
      buffer and end it with a newline. */
  method Consume(a: App, msg: Message) returns (effect: Effect)
    requires msg.Valid()
    modifies msg
    ensures var b := AfterAppHeader(a, old(msg.Text()));
            effect == if |b| >= FRAME_BUFFER then Crash else Handed(a, b)
    ensures msg.Valid()
  {
    var ignored := msg.MsgStripHdr(HeaderSize(AppLayer(a)));
    if msg.length >= FRAME_BUFFER {
      return Crash;
    }
    var msgBuf := new byte[FRAME_BUFFER];
    msg.MsgFlat(msgBuf);
    assert msgBuf[..][..msg.length] == msg.Text();
    var text := msgBuf[..msg.length];
    msgBuf[msg.length] := '\n' as byte;
    return Handed(a, text);
  }
}
