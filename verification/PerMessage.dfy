/** The process-per-message stack of PerMessage.h: nested calls that add or strip one header each on
    the message they are given. */
module PerMessageStack {
  import opened Headers
  import opened Stack
  import opened Messages

  const F_FILLER: Bytes := ['f' as byte, 'f' as byte, 'f' as byte, 'f' as byte,
                            'f' as byte, 'f' as byte, 'f' as byte, 'f' as byte]

  /** The frame ethernetSend and ipSend make of what they are given. */
  function EthernetFrame(hlp: int32, b: Bytes): Bytes
    requires |b| < 0x8000_0000
  {
    AddHeader(Eth, hlp, F_FILLER, b)
  }

  function IpFrame(hlp: int32, info: Bytes, b: Bytes): Bytes
    requires |b| < 0x7000_0000 && |info| == InfoSize(Ip)
  {
    EthernetFrame(IP_ID, AddHeader(Ip, hlp, info, b))
  }

  function TransportFrame(l: Layer, hlp: int32, info: Bytes, ipInfo: Bytes, b: Bytes): Bytes
    requires (l.Tcp? || l.Udp?) && |b| < 0x6000_0000 && |info| == InfoSize(l) && |ipInfo| == InfoSize(Ip)
  {
    IpFrame(if l.Tcp? then TCP_ID else UDP_ID, ipInfo, AddHeader(l, hlp, info, b))
  }

  /** The frame an application's send function makes; `hlp` is the protocol its caller passed. */
  function AppFrame(a: App, hlp: int32, info: Bytes, transportInfo: Bytes, ipInfo: Bytes, b: Bytes): Bytes
    requires |b| < 0x5000_0000 && |info| == InfoSize(AppLayer(a))
    requires |transportInfo| == InfoSize(TransportOf(a)) && |ipInfo| == InfoSize(Ip)
  {
    TransportFrame(TransportOf(a), AppId(a), transportInfo, ipInfo, AddHeader(AppLayer(a), hlp, info, b))
  }

  /** Every frame carries the payload under exactly the four headers of its application. */
  lemma AppFrameCarries(a: App, hlp: int32, info: Bytes, transportInfo: Bytes, ipInfo: Bytes, b: Bytes)
    requires |b| < 0x5000_0000 && |info| == InfoSize(AppLayer(a))
    requires |transportInfo| == InfoSize(TransportOf(a)) && |ipInfo| == InfoSize(Ip)
    ensures Carries(4, a, b, AppFrame(a, hlp, info, transportInfo, ipInfo, b))
  {
    var b1 := AddHeader(AppLayer(a), hlp, info, b);
    AddHeaderCarries(0, a, b, hlp, info, b);
    var b2 := AddHeader(TransportOf(a), AppId(a), transportInfo, b1);
    AddHeaderCarries(1, a, b, AppId(a), transportInfo, b1);
    var b3 := AddHeader(Ip, TransportId(a), ipInfo, b2);
    AddHeaderCarries(2, a, b, TransportId(a), ipInfo, b2);
    AddHeaderCarries(3, a, b, IP_ID, F_FILLER, b3);
  }

  lemma FrontSlice(e: Bytes, b: Bytes, lo: nat, hi: nat)
    requires lo <= hi <= |e|
    ensures (e + b)[lo..hi] == e[lo..hi]
  {
  }

  /** One header in front of a message, byte by byte. */
  lemma HeaderLayout(l: Layer, hlp: int32, info: Bytes, b: Bytes)
    requires |b| < 0x8000_0000 && |info| == InfoSize(l)
    ensures var r, n := AddHeader(l, hlp, info, b), HeaderSize(l);
            && |r| == n + |b| && Shows(r[..4], hlp) && r[4..n - 4] == info && Shows(r[n - 4..n], |b|) && r[n..] == b
            && (0 <= hlp < 256 ==> r[..4] == [hlp, 0, 0, 0])
  {
    var h, r, n := Header(hlp, info, |b|), AddHeader(l, hlp, info, b), HeaderSize(l);
    Layout(h);
    var e := Encode(h);
    FrontSlice(e, b, 0, 4);
    FrontSlice(e, b, 4, n - 4);
    FrontSlice(e, b, n - 4, n);
    assert e[n - 4..n] == e[n - 4..] && e[0..4] == e[..4] == IntBytes(hlp);
    if 0 <= hlp < 256 {
      SmallBytes(hlp);
    }
  }

  lemma InnerSlice(r: Bytes, n: nat, b: Bytes, lo: nat, hi: nat)
    requires n <= |r| && r[n..] == b && lo <= hi <= |b|
    ensures r[n + lo..n + hi] == b[lo..hi]
  {
    var x, y := r[n + lo..n + hi], b[lo..hi];
    forall i | 0 <= i < |x| ensures x[i] == y[i] {
      assert x[i] == r[n + lo + i] == r[n..][lo + i];
    }
  }

  /** The frame PerMessage.h sends, byte by byte: the Ethernet record with id 2, its eight `f` and the
      length; the IP record with the transport's id; the transport record with the application's id;
      the application's record with the caller's protocol; the payload. */
  lemma FrameLayout(a: App, hlp: int32, info: Bytes, transportInfo: Bytes, ipInfo: Bytes, b: Bytes)
    requires |b| < 0x5000_0000 && |info| == InfoSize(AppLayer(a))
    requires |transportInfo| == InfoSize(TransportOf(a)) && |ipInfo| == InfoSize(Ip)
    ensures var f, n := AppFrame(a, hlp, info, transportInfo, ipInfo, b), if a.Rdp? then 20 else 16;
            && |f| == 48 + n + |b| && f[48 + n..] == b
            && f[..4] == [2, 0, 0, 0] && f[4..12] == F_FILLER && Shows(f[12..16], |f| - 16)
            && f[16..20] == [if a.Ftp? || a.Telnet? then 3 else 4, 0, 0, 0] && Shows(f[32..36], |f| - 36)
            && f[36..40] == [match a case Ftp => 5 case Telnet => 6 case Rdp => 7 case Dns => 8, 0, 0, 0]
            && Shows(f[44..48], |f| - 48)
            && Shows(f[48..52], hlp) && Shows(f[44 + n..48 + n], |b|)
  {
    var n := HeaderSize(AppLayer(a));
    var f1 := AddHeader(AppLayer(a), hlp, info, b);
    var f2 := AddHeader(TransportOf(a), AppId(a), transportInfo, f1);
    var f3 := AddHeader(Ip, TransportId(a), ipInfo, f2);
    var f := AppFrame(a, hlp, info, transportInfo, ipInfo, b);
    HeaderLayout(AppLayer(a), hlp, info, b);
    HeaderLayout(TransportOf(a), AppId(a), transportInfo, f1);
    HeaderLayout(Ip, TransportId(a), ipInfo, f2);
    HeaderLayout(Eth, IP_ID, F_FILLER, f3);
    assert f == AddHeader(Eth, IP_ID, F_FILLER, f3);
    IpLayout(f, f3);
    TransportLayout(f, f3, f2);
    AppLayout(f, f3, f2, f1, n);
  }

  /** The filler of an Ethernet record is eight times the letter f. */
  lemma FillerLayout(hlp: int32, b: Bytes)
    requires |b| < 0x8000_0000
    ensures forall i :: 4 <= i < 12 ==> EthernetFrame(hlp, b)[i] == 102
  {
    HeaderLayout(Eth, hlp, F_FILLER, b);
    var r := EthernetFrame(hlp, b);
    forall i | 4 <= i < 12 ensures r[i] == 102 {
      assert r[i] == r[4..12][i - 4] == F_FILLER[i - 4];
    }
  }

  lemma IpLayout(f: Bytes, f3: Bytes)
    requires |f3| >= 20 && |f| == 16 + |f3| && f[16..] == f3
    ensures f[16..20] == f3[..4] && f[32..36] == f3[16..20]
  {
    InnerSlice(f, 16, f3, 0, 4);
    InnerSlice(f, 16, f3, 16, 20);
  }

  lemma TransportLayout(f: Bytes, f3: Bytes, f2: Bytes)
    requires |f2| >= 12 && |f3| == 20 + |f2| && f3[20..] == f2 && |f| == 16 + |f3| && f[16..] == f3
    ensures f[36..40] == f2[..4] && f[44..48] == f2[8..12] && f[36..] == f2
  {
    assert f[36..] == f2;
    InnerSlice(f, 36, f2, 0, 4);
    InnerSlice(f, 36, f2, 8, 12);
  }

  lemma AppLayout(f: Bytes, f3: Bytes, f2: Bytes, f1: Bytes, n: nat)
    requires 8 <= n <= |f1| && |f2| == 12 + |f1| && f2[12..] == f1
    requires |f3| == 20 + |f2| && f3[20..] == f2 && |f| == 16 + |f3| && f[16..] == f3
    ensures f[48..52] == f1[..4] && f[44 + n..48 + n] == f1[n - 4..n] && f[48 + n..] == f1[n..]
  {
    TransportLayout(f, f3, f2);
    assert f[48..] == f1;
    InnerSlice(f, 48, f1, 0, 4);
    InnerSlice(f, 48, f1, n - 4, n);
    InnerSlice(f, 48, f1, n, |f1|);
  }

  class PerMessage {
    /** The datagrams handed to the socket, and the messages the applications have counted. */
    var sent: seq<Bytes>
    var rCounter: nat

    constructor ()
      ensures sent == [] && rCounter == 0
    {
      sent, rCounter := [], 0;
    }

    /** Declares a header on the stack, fills it in, and puts it in front of the message. */
    static method PushHeader(l: Layer, hlp: int32, info: Bytes, mesg: Message)
      requires mesg.Valid() && |info| == InfoSize(l) && |mesg.Text()| + HeaderSize(l) <= INT_MAX
      modifies mesg
      ensures mesg.Valid() && mesg.Text() == AddHeader(l, hlp, info, old(mesg.Text()))
    {
      var header := Encode(Header(hlp, info, mesg.length));
      mesg.MsgAddHdr(header, HeaderSize(l));
      assert header[..HeaderSize(l)] == header;
    }

    method EthernetSend(protocol: int32, mesg: Message)
      requires mesg.Valid() && |mesg.Text()| + HeaderSize(Eth) <= FRAME_BUFFER
      modifies this`sent, mesg
      ensures sent == old(sent) + [EthernetFrame(protocol, old(mesg.Text()))]
    {
      PushHeader(Eth, protocol, F_FILLER, mesg);
      var buffer := new byte[FRAME_BUFFER];
      mesg.MsgFlat(buffer);
      assert buffer[..][..mesg.length] == mesg.Text();
      sent := sent + [buffer[..mesg.length]];
    }

    method IpSend(protocol: int32, info: Bytes, mesg: Message)
      requires mesg.Valid() && |mesg.Text()| + 36 <= FRAME_BUFFER && |info| == InfoSize(Ip)
      modifies this`sent, mesg
      ensures sent == old(sent) + [IpFrame(protocol, info, old(mesg.Text()))]
    {
      PushHeader(Ip, protocol, info, mesg);
      EthernetSend(IP_ID, mesg);
    }

    /** tcpSend and udpSend. */
    method TransportSend(l: Layer, protocol: int32, info: Bytes, ipInfo: Bytes, mesg: Message)
      requires l.Tcp? || l.Udp?
      requires mesg.Valid() && |mesg.Text()| + 48 <= FRAME_BUFFER
      requires |info| == InfoSize(l) && |ipInfo| == InfoSize(Ip)
      modifies this`sent, mesg
      ensures sent == old(sent) + [TransportFrame(l, protocol, info, ipInfo, old(mesg.Text()))]
    {
      PushHeader(l, protocol, info, mesg);
      if l.Tcp? {
        IpSend(TCP_ID, ipInfo, mesg);
      } else {
        IpSend(UDP_ID, ipInfo, mesg);
      }
    }

    /** rdpSend, dnsSend, ftpSend and telnetSend.  A longer message would overrun the buffer of
        ethernetSend.  Both receivers deliver exactly the payload to exactly the application. */
    method AppSend(a: App, protocol: int32, info: Bytes, transportInfo: Bytes, ipInfo: Bytes, mesg: Message)
      requires mesg.Valid() && |mesg.Text()| <= MaxPayload(a) && |info| == InfoSize(AppLayer(a))
      requires |transportInfo| == InfoSize(TransportOf(a)) && |ipInfo| == InfoSize(Ip)
      modifies this`sent, mesg
      ensures sent == old(sent) + [AppFrame(a, protocol, info, transportInfo, ipInfo, old(mesg.Text()))]
      ensures var frame := sent[|old(sent)|];
              && Carries(4, a, old(mesg.Text()), frame) && |frame| <= FRAME_BUFFER
              && PerMessageReceive(frame) == PerProtocolReceive(frame) == Delivered(a, old(mesg.Text()))
    {
      ghost var b := mesg.Text();
      AppFrameCarries(a, protocol, info, transportInfo, ipInfo, b);
      ghost var frame := AppFrame(a, protocol, info, transportInfo, ipInfo, b);
      FrameFits(a, b, frame);
      ReceiversDeliver(a, b, frame);
      PushHeader(AppLayer(a), protocol, info, mesg);
      TransportSend(TransportOf(a), AppId(a), transportInfo, ipInfo, mesg);
    }

    /** Strips a header of which the caller reads only `hlp`; NULL when the message is too short. */
    static method PopHeader(l: Layer, mesg: Message) returns (there: bool, hlp: int32)
      requires mesg.Valid()
      modifies mesg
      ensures mesg.Valid()
      ensures there <==> |old(mesg.Text())| >= HeaderSize(l)
      ensures if there then hlp == HlpOf(l, old(mesg.Text())) && mesg.Text() == old(mesg.Text())[HeaderSize(l)..]
              else mesg.Text() == old(mesg.Text())
    {
      var header := mesg.MsgStripHdr(HeaderSize(l));
      there := header != Null;
      hlp := if there then Decode(header.bytes).hlp else 0;
    }

    /** rdpRecv, dnsRecv, ftpRecv and telnetRecv. */
    method AppRecv(a: App, mesg: Message) returns (o: Outcome)
      requires mesg.Valid()
      modifies this`rCounter, mesg
      ensures o == MessageAppRecv(a, old(mesg.Text()))
      ensures rCounter == old(rCounter) + if o.Delivered? then 1 else 0
    {
      var there, hlp := PopHeader(AppLayer(a), mesg);
      if mesg.length > FRAME_BUFFER {
        return Fault;
      }
      var buff := new byte[FRAME_BUFFER];
      mesg.MsgFlat(buff);
      assert buff[..][..mesg.length] == mesg.Text();
      rCounter := rCounter + 1;
      return Delivered(a, buff[..mesg.length]);
    }

    /** tcpRecv and udpRecv. */
    method TransportRecv(l: Layer, mesg: Message) returns (o: Outcome)
      requires (l.Tcp? || l.Udp?) && mesg.Valid()
      modifies this`rCounter, mesg
      ensures o == MessageTransportRecv(l, old(mesg.Text()))
      ensures rCounter == old(rCounter) + if o.Delivered? then 1 else 0
    {
      var there, hlp := PopHeader(l, mesg);
      if !there {
        return Fault;
      }
      if l.Tcp? && hlp == AppId(Ftp) {
        o := AppRecv(Ftp, mesg);
      } else if l.Tcp? && hlp == AppId(Telnet) {
        o := AppRecv(Telnet, mesg);
      } else if l.Udp? && hlp == AppId(Dns) {
        o := AppRecv(Dns, mesg);
      } else if l.Udp? && hlp == AppId(Rdp) {
        o := AppRecv(Rdp, mesg);
      } else {
        o := Rejected(l, hlp);
      }
    }

    method IpRecv(mesg: Message) returns (o: Outcome)
      requires mesg.Valid()
      modifies this`rCounter, mesg
      ensures o == MessageIpRecv(old(mesg.Text()))
      ensures rCounter == old(rCounter) + if o.Delivered? then 1 else 0
    {
      var there, hlp := PopHeader(Ip, mesg);
      if !there {
        return Fault;
      }
      if hlp == TCP_ID {
        o := TransportRecv(Tcp, mesg);
      } else if hlp == UDP_ID {
        o := TransportRecv(Udp, mesg);
      } else {
        o := Rejected(Ip, hlp);
      }
    }

    /** A foreign `hlp` is complained about, and the message still goes on to IP. */
    method EthernetRecv(mesg: Message) returns (o: Outcome)
      requires mesg.Valid()
      modifies this`rCounter, mesg
      ensures o == MessageEthernetRecv(old(mesg.Text()))
      ensures rCounter == old(rCounter) + if o.Delivered? then 1 else 0
    {
      var there, hlp := PopHeader(Eth, mesg);
      if !there {
        return Fault;
      }
      o := IpRecv(mesg);
    }

    /** One datagram, from listenOnSocket to the end of its pool job. */
    method Datagram(frame: Bytes) returns (o: Outcome)
      modifies this`rCounter
      ensures o == PerMessageReceive(frame)
      ensures rCounter == old(rCounter) + if o.Delivered? then 1 else 0
    {
      var n := if |frame| <= BUFSIZE then |frame| else BUFSIZE;
      var mesg := new Message(frame, n);
      assert |frame| <= BUFSIZE ==> frame[..n] == frame;
      o := EthernetRecv(mesg);
    }
  }
}
