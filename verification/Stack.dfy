/** What the four layers do to the bytes of a message: the frame shape both senders build, and the
    two receivers (PerMessage.h and PerProtocol.h) as functions from a received frame to what
    becomes of it. */
module Stack {
  import opened Headers

  /** The send, receive and delivery buffers of PerProtocol.h, and the delivery buffer of PerMessage.h. */
  const FRAME_BUFFER := 1024
  /** The receive buffer of PerMessage.h (udpUtils.h). */
  const BUFSIZE := 4096

  /** The n-th header from the inside: 1 application, 2 transport, 3 IP, 4 Ethernet. */
  function LayerAt(n: nat, a: App): Layer
    requires 1 <= n <= 4
  {
    if n == 1 then AppLayer(a) else if n == 2 then TransportOf(a) else if n == 3 then Ip else Eth
  }

  /** The protocol id the n-th header must hold for its receiver to find the layer inside it. */
  function InnerId(n: nat, a: App): int32
    requires 2 <= n <= 4
  {
    if n == 2 then AppId(a) else if n == 3 then TransportId(a) else IP_ID
  }

  function HeadersTotal(n: nat, a: App): nat
    requires n <= 4
  {
    if n == 0 then 0 else HeaderSize(LayerAt(n, a)) + HeadersTotal(n - 1, a)
  }

  /** The largest payload whose frame fits the 1024-byte buffers. */
  function MaxPayload(a: App): nat {
    if a.Rdp? then 956 else 960
  }

  /** `b` is `payload` inside exactly the n innermost headers of application `a`.  Every `length`
      counts the bytes after its header.  `otherInfo` is arbitrary, and so is `hlp` of the
      application header, which PerProtocol.h never sets. */
  ghost predicate Carries(n: nat, a: App, payload: Bytes, b: Bytes)
    requires n <= 4
  {
    if n == 0 then b == payload
    else
      var size := HeaderSize(LayerAt(n, a));
      && |b| >= size
      && Decode(b[..size]).length == |b| - size
      && (n > 1 ==> Decode(b[..size]).hlp == InnerId(n, a))
      && Carries(n - 1, a, payload, b[size..])
  }

  /** Allocating a header record of layer `l`, filling in `hlp` and `length`, and msgAddHdr. */
  function AddHeader(l: Layer, hlp: int32, otherInfo: Bytes, b: Bytes): (r: Bytes)
    requires |b| < 0x8000_0000 && |otherInfo| == InfoSize(l)
    ensures |r| == HeaderSize(l) + |b|
  {
    Encode(Header(hlp, otherInfo, |b|)) + b
  }

  lemma AddHeaderReads(l: Layer, hlp: int32, otherInfo: Bytes, b: Bytes)
    requires |b| < 0x8000_0000 && |otherInfo| == InfoSize(l)
    ensures var r := AddHeader(l, hlp, otherInfo, b);
            r[HeaderSize(l)..] == b && Decode(r[..HeaderSize(l)]) == Header(hlp, otherInfo, |b|)
  {
    var h := Header(hlp, otherInfo, |b|);
    DecodeEncode(h);
    assert AddHeader(l, hlp, otherInfo, b)[..HeaderSize(l)] == Encode(h);
  }

  lemma AddHeaderCarries(n: nat, a: App, payload: Bytes, hlp: int32, otherInfo: Bytes, b: Bytes)
    requires n < 4 && Carries(n, a, payload, b) && |b| < 0x8000_0000
    requires |otherInfo| == InfoSize(LayerAt(n + 1, a))
    requires n > 0 ==> hlp == InnerId(n + 1, a)
    ensures Carries(n + 1, a, payload, AddHeader(LayerAt(n + 1, a), hlp, otherInfo, b))
  {
    AddHeaderReads(LayerAt(n + 1, a), hlp, otherInfo, b);
  }

  lemma {:induction false} CarriesSize(n: nat, a: App, payload: Bytes, b: Bytes)
    requires n <= 4 && Carries(n, a, payload, b)
    ensures |b| == HeadersTotal(n, a) + |payload|
  {
    if n > 0 {
      CarriesSize(n - 1, a, payload, b[HeaderSize(LayerAt(n, a))..]);
    }
  }

  lemma HeadersTotals(a: App)
    ensures HeadersTotal(1, a) == 16 + (if a.Rdp? then 4 else 0)
    ensures HeadersTotal(2, a) == HeadersTotal(1, a) + 12
    ensures HeadersTotal(3, a) == HeadersTotal(1, a) + 32
    ensures HeadersTotal(4, a) == HeadersTotal(1, a) + 48 == FRAME_BUFFER - MaxPayload(a)
  {
    assert HeadersTotal(1, a) == HeaderSize(AppLayer(a)) + HeadersTotal(0, a);
    assert HeadersTotal(2, a) == HeaderSize(TransportOf(a)) + HeadersTotal(1, a);
    assert HeadersTotal(3, a) == HeaderSize(Ip) + HeadersTotal(2, a);
  }

  /** The frame fits the 1024-byte send buffer exactly when the payload is within the limit. */
  lemma FrameFits(a: App, payload: Bytes, frame: Bytes)
    requires Carries(4, a, payload, frame)
    ensures |frame| <= FRAME_BUFFER <==> |payload| <= MaxPayload(a)
  {
    CarriesSize(4, a, payload, frame);
    HeadersTotals(a);
  }

  // ---------- Receiving ----------

  /** What becomes of a received frame.  Fault: a NULL header is dereferenced, or a buffer overrun. */
  datatype Outcome =
    | Delivered(app: App, payload: Bytes)
    | Rejected(at: Layer, hlp: int32)
    | Fault

  /** What the application sees after msgStripHdr, whose result it does not look at: the rest, or
      the whole message when that is shorter than the header. */
  function AfterAppHeader(a: App, b: Bytes): Bytes {
    var size := HeaderSize(AppLayer(a));
    if |b| < size then b else b[size..]
  }

  function HlpOf(l: Layer, b: Bytes): int32
    requires |b| >= HeaderSize(l)
  {
    Decode(b[..HeaderSize(l)]).hlp
  }

  /** PerMessage.h: rdpRecv, dnsRecv, ftpRecv, telnetRecv. */
  function MessageAppRecv(a: App, b: Bytes): Outcome {
    var rest := AfterAppHeader(a, b);
    if |rest| > FRAME_BUFFER then Fault else Delivered(a, rest)
  }

  /** PerMessage.h: tcpRecv and udpRecv. */
  function MessageTransportRecv(l: Layer, b: Bytes): Outcome
    requires l.Tcp? || l.Udp?
  {
    if |b| < HeaderSize(l) then Fault
    else
      var hlp, rest := HlpOf(l, b), b[HeaderSize(l)..];
      if l.Tcp? && hlp == AppId(Ftp) then MessageAppRecv(Ftp, rest)
      else if l.Tcp? && hlp == AppId(Telnet) then MessageAppRecv(Telnet, rest)
      else if l.Udp? && hlp == AppId(Dns) then MessageAppRecv(Dns, rest)
      else if l.Udp? && hlp == AppId(Rdp) then MessageAppRecv(Rdp, rest)
      else Rejected(l, hlp)
  }

  function MessageIpRecv(b: Bytes): Outcome {
    if |b| < HeaderSize(Ip) then Fault
    else
      var hlp, rest := HlpOf(Ip, b), b[HeaderSize(Ip)..];
      if hlp == TCP_ID then MessageTransportRecv(Tcp, rest)
      else if hlp == UDP_ID then MessageTransportRecv(Udp, rest)
      else Rejected(Ip, hlp)
  }

  /** PerMessage.h: ethernetRecv complains about a foreign `hlp` but goes on to IP all the same. */
  function MessageEthernetRecv(b: Bytes): Outcome {
    if |b| < HeaderSize(Eth) then Fault else MessageIpRecv(b[HeaderSize(Eth)..])
  }

  /** A datagram read by PerMessage.h into its 4096-byte buffer. */
  function PerMessageReceive(frame: Bytes): Outcome {
    MessageEthernetRecv(if |frame| <= BUFSIZE then frame else frame[..BUFSIZE])
  }

  /** What one receive stage of PerProtocol.h does with a message: hand it up, or end its life. */
  datatype Hop = Up(to: Layer, rest: Bytes) | End(outcome: Outcome)

  function ReceiveStage(l: Layer, b: Bytes): Hop {
    match l
    case AppLayer(a) =>
      var rest := AfterAppHeader(a, b);
      // the newline is written at index msgLen()
      End(if |rest| >= FRAME_BUFFER then Fault else Delivered(a, rest))
    case _ =>
      if |b| < HeaderSize(l) then End(Fault)
      else
        var hlp, rest := HlpOf(l, b), b[HeaderSize(l)..];
        if l.Eth? && hlp == IP_ID then Up(Ip, rest)
        else if l.Ip? && hlp == TCP_ID then Up(Tcp, rest)
        else if l.Ip? && hlp == UDP_ID then Up(Udp, rest)
        else if l.Tcp? && hlp == AppId(Ftp) then Up(AppLayer(Ftp), rest)
        else if l.Tcp? && hlp == AppId(Telnet) then Up(AppLayer(Telnet), rest)
        else if l.Udp? && hlp == AppId(Rdp) then Up(AppLayer(Rdp), rest)
        else if l.Udp? && hlp == AppId(Dns) then Up(AppLayer(Dns), rest)
        else End(Rejected(l, hlp))
  }

  function Height(l: Layer): nat {
    match l case Eth => 3 case Ip => 2 case Tcp => 1 case Udp => 1 case AppLayer(_) => 0
  }

  function Climb(l: Layer, b: Bytes): Outcome
    decreases Height(l)
  {
    match ReceiveStage(l, b)
    case Up(to, rest) => Climb(to, rest)
    case End(o) => o
  }

  /** A datagram read by PerProtocol.h: recvfrom keeps the first 1024 bytes. */
  function Truncated(frame: Bytes): Bytes {
    if |frame| <= FRAME_BUFFER then frame else frame[..FRAME_BUFFER]
  }

  function PerProtocolReceive(frame: Bytes): Outcome {
    Climb(Eth, Truncated(frame))
  }

  /** A stage that meets its own header hands the rest to the stage of the layer inside. */
  lemma StageUp(n: nat, a: App, payload: Bytes, b: Bytes)
    requires 2 <= n <= 4 && Carries(n, a, payload, b)
    ensures var size := HeaderSize(LayerAt(n, a));
            && |b| >= size
            && ReceiveStage(LayerAt(n, a), b) == Up(LayerAt(n - 1, a), b[size..])
            && Carries(n - 1, a, payload, b[size..])
  {
    assert HlpOf(LayerAt(n, a), b) == InnerId(n, a);
  }

  lemma {:induction false} ClimbDelivers(n: nat, a: App, payload: Bytes, b: Bytes)
    requires 1 <= n <= 4 && Carries(n, a, payload, b) && |payload| < FRAME_BUFFER
    ensures Climb(LayerAt(n, a), b) == Delivered(a, payload)
  {
    if n == 1 {
      assert Carries(0, a, payload, b[HeaderSize(AppLayer(a))..]);
    } else {
      StageUp(n, a, payload, b);
      ClimbDelivers(n - 1, a, payload, b[HeaderSize(LayerAt(n, a))..]);
    }
  }

  /** Above Ethernet the two receivers decide alike, on every sequence of bytes. */
  lemma TransportAgrees(l: Layer, b: Bytes)
    requires l.Tcp? || l.Udp?
    requires |b| < FRAME_BUFFER
    ensures Climb(l, b) == MessageTransportRecv(l, b)
  {
  }

  lemma IpAgrees(b: Bytes)
    requires |b| < FRAME_BUFFER
    ensures Climb(Ip, b) == MessageIpRecv(b)
  {
    if |b| >= HeaderSize(Ip) {
      TransportAgrees(Tcp, b[HeaderSize(Ip)..]);
      TransportAgrees(Udp, b[HeaderSize(Ip)..]);
    }
  }

  /** Interoperation: whichever sender built the frame and whatever it left in the unset fields,
      both receivers hand exactly the payload to exactly the application. */
  lemma ReceiversDeliver(a: App, payload: Bytes, frame: Bytes)
    requires Carries(4, a, payload, frame) && |payload| <= MaxPayload(a)
    ensures PerMessageReceive(frame) == PerProtocolReceive(frame) == Delivered(a, payload)
  {
    FrameFits(a, payload, frame);
    ClimbDelivers(4, a, payload, frame);
    StageUp(4, a, payload, frame);
    IpAgrees(frame[HeaderSize(Eth)..]);
  }

  lemma StageShape(l: Layer, b: Bytes)
    ensures match ReceiveStage(l, b)
            case Up(to, rest) => |b| >= HeaderSize(l) && rest == b[HeaderSize(l)..] && Height(to) == Height(l) - 1
            case End(o) => o.Delivered? ==> l == AppLayer(o.app) && o.payload == AfterAppHeader(o.app, b)
  {
  }

  /** On any bytes at all, what is delivered is a tail of what was received, never anything else. */
  lemma {:induction false} DeliveredIsTail(l: Layer, b: Bytes)
    requires Climb(l, b).Delivered?
    ensures var payload := Climb(l, b).payload; |payload| <= |b| && payload == b[|b| - |payload|..]
    decreases Height(l)
  {
    StageShape(l, b);
    if ReceiveStage(l, b).Up? {
      DeliveredIsTail(ReceiveStage(l, b).to, ReceiveStage(l, b).rest);
    }
  }

  /** The application a transport header names, if any. */
  function AppsNamed(l: Layer, hlp: int32): seq<App> {
    if l.Tcp? && hlp == AppId(Ftp) then [Ftp] else if l.Tcp? && hlp == AppId(Telnet) then [Telnet]
    else if l.Udp? && hlp == AppId(Dns) then [Dns] else if l.Udp? && hlp == AppId(Rdp) then [Rdp] else []
  }

  lemma TransportDecides(l: Layer, b: Bytes)
    requires (l.Tcp? || l.Udp?) && |b| >= HeaderSize(l)
    ensures var apps := AppsNamed(l, HlpOf(l, b));
            MessageTransportRecv(l, b)
            == if apps == [] then Rejected(l, HlpOf(l, b)) else MessageAppRecv(apps[0], b[HeaderSize(l)..])
  {
  }

  /** The application the IP and transport headers of a frame name, if any. */
  function Addressee(frame: Bytes): seq<App> {
    if |frame| < HeaderSize(Eth) + HeaderSize(Ip) + HeaderSize(Tcp) then []
    else
      var ip := frame[HeaderSize(Eth)..];
      var hlp, rest := HlpOf(Ip, ip), ip[HeaderSize(Ip)..];
      if hlp == TCP_ID then AppsNamed(Tcp, HlpOf(Tcp, rest))
      else if hlp == UDP_ID then AppsNamed(Udp, HlpOf(Udp, rest))
      else []
  }

  /** What follows these headers. */
  function Inside(frame: Bytes): Bytes
    requires |frame| >= HeaderSize(Eth) + HeaderSize(Ip) + HeaderSize(Tcp)
  {
    frame[HeaderSize(Eth)..][HeaderSize(Ip)..][HeaderSize(Tcp)..]
  }

  /** The receiver of PerMessage.h hands a frame to the application it names, and delivers no other. */
  lemma AddresseeDecides(frame: Bytes)
    ensures Addressee(frame) != [] ==> MessageEthernetRecv(frame) == MessageAppRecv(Addressee(frame)[0], Inside(frame))
    ensures Addressee(frame) == [] ==> !MessageEthernetRecv(frame).Delivered?
    ensures Addressee(frame) == [] && |frame| >= 48 ==> MessageEthernetRecv(frame).Rejected?
  {
    if |frame| >= 36 {
      var ip := frame[HeaderSize(Eth)..];
      var hlp, rest := HlpOf(Ip, ip), ip[HeaderSize(Ip)..];
      if |rest| >= 12 && (hlp == TCP_ID || hlp == UDP_ID) {
        TransportDecides(if hlp == TCP_ID then Tcp else Udp, rest);
      }
    }
  }

  lemma SameHeader(l: Layer, b: Bytes, m: nat)
    requires HeaderSize(l) <= m <= |b|
    ensures HlpOf(l, b[..m]) == HlpOf(l, b)
    ensures b[..m][HeaderSize(l)..] == b[HeaderSize(l)..][..m - HeaderSize(l)]
  {
    var size := HeaderSize(l);
    assert b[..m][..size] == b[..size];
    assert b[..m][size..] == b[size..m] == b[size..][..m - size];
  }

  /** An application gets less of a message that is cut off somewhere after its header. */
  lemma CutApp(a: App, b: Bytes, m: nat)
    requires 20 <= m < |b| && m <= FRAME_BUFFER
    ensures MessageAppRecv(a, b[..m]).Delivered? && MessageAppRecv(a, b[..m]) != MessageAppRecv(a, b)
  {
    var size := HeaderSize(AppLayer(a));
    assert AfterAppHeader(a, b[..m]) == b[..m][size..] && |b[..m][size..]| == m - size;
    assert AfterAppHeader(a, b) == b[size..] && |b[size..]| == |b| - size;
  }

  /** A message cut off somewhere after its headers is rejected alike, and otherwise delivered shorter. */
  lemma CutTransport(l: Layer, b: Bytes, m: nat)
    requires (l.Tcp? || l.Udp?) && 32 <= m < |b| && m < FRAME_BUFFER
    ensures Climb(l, b[..m]).Rejected? <==> MessageTransportRecv(l, b) == Climb(l, b[..m])
  {
    SameHeader(l, b, m);
    TransportAgrees(l, b[..m]);
    TransportDecides(l, b);
    TransportDecides(l, b[..m]);
    var apps := AppsNamed(l, HlpOf(l, b));
    if apps != [] {
      CutApp(apps[0], b[HeaderSize(l)..], m - HeaderSize(l));
    }
  }

  lemma CutIp(b: Bytes, m: nat)
    requires 52 <= m < |b| && m < FRAME_BUFFER
    ensures Climb(Ip, b[..m]).Rejected? <==> MessageIpRecv(b) == Climb(Ip, b[..m])
  {
    SameHeader(Ip, b, m);
    var hlp, rest := HlpOf(Ip, b), b[HeaderSize(Ip)..];
    if hlp == TCP_ID || hlp == UDP_ID {
      var l := if hlp == TCP_ID then Tcp else Udp;
      CutTransport(l, rest, m - HeaderSize(Ip));
      assert MessageIpRecv(b) == MessageTransportRecv(l, rest);
      assert ReceiveStage(Ip, b[..m]) == Up(l, rest[..m - HeaderSize(Ip)]);
    }
  }

  /** Cutting off what follows the headers does not change the application they name. */
  lemma SameAddressee(frame: Bytes, m: nat)
    requires 48 <= m <= |frame|
    ensures Addressee(frame[..m]) == Addressee(frame)
  {
    SameHeader(Eth, frame, m);
    var ip := frame[HeaderSize(Eth)..];
    SameHeader(Ip, ip, m - 16);
    SameHeader(Tcp, ip[HeaderSize(Ip)..], m - 36);
    SameHeader(Udp, ip[HeaderSize(Ip)..], m - 36);
  }

  /** PerProtocol.h rejects a frame that reaches its IP stage in full length exactly if it names no application. */
  lemma RejectsUnnamed(frame: Bytes)
    requires |frame| >= FRAME_BUFFER && HlpOf(Eth, frame) == IP_ID
    ensures PerProtocolReceive(frame).Rejected? <==> Addressee(frame) == []
  {
    var t := Truncated(frame);
    assert t == frame[..FRAME_BUFFER];
    SameHeader(Eth, frame, FRAME_BUFFER);
    SameAddressee(frame, FRAME_BUFFER);
    IpAgrees(t[HeaderSize(Eth)..]);
    AddresseeDecides(t);
  }

  /** A frame beyond the buffer of PerProtocol.h is treated alike only when its headers name no application. */
  lemma LongFrames(frame: Bytes)
    requires |frame| > FRAME_BUFFER && HlpOf(Eth, frame) == IP_ID
    ensures PerMessageReceive(frame) == PerProtocolReceive(frame) <==> Addressee(frame) == []
  {
    var kept := if |frame| <= BUFSIZE then frame else frame[..BUFSIZE];
    assert kept[..FRAME_BUFFER] == Truncated(frame);
    SameHeader(Eth, frame, FRAME_BUFFER);
    SameHeader(Eth, kept, FRAME_BUFFER);
    CutIp(kept[HeaderSize(Eth)..], FRAME_BUFFER - HeaderSize(Eth));
    RejectsUnnamed(frame);
  }

  lemma ForeignFrames(frame: Bytes)
    requires |frame| >= HeaderSize(Eth) && HlpOf(Eth, frame) != IP_ID
    ensures PerProtocolReceive(frame) == Rejected(Eth, HlpOf(Eth, frame)) != PerMessageReceive(frame)
  {
    assert Truncated(frame)[..HeaderSize(Eth)] == frame[..HeaderSize(Eth)];
  }

  /** On every sequence of bytes: the receivers agree exactly when the frame is too short for an
      Ethernet header, or names IP there and either fits the 1024-byte buffer or names no application.  A frame naming a foreign protocol is dropped by PerProtocol.h and let through by
      PerMessage.h, and a longer one is delivered cut off by PerProtocol.h. */
  lemma ReceiversAgree(frame: Bytes)
    ensures PerMessageReceive(frame) == PerProtocolReceive(frame) <==>
            |frame| < HeaderSize(Eth)
            || (HlpOf(Eth, frame) == IP_ID && (|frame| <= FRAME_BUFFER || Addressee(frame) == []))
  {
    if |frame| >= HeaderSize(Eth) {
      if HlpOf(Eth, frame) != IP_ID {
        ForeignFrames(frame);
      } else if |frame| > FRAME_BUFFER {
        LongFrames(frame);
      } else {
        IpAgrees(frame[HeaderSize(Eth)..]);
      }
    }
  }
}
