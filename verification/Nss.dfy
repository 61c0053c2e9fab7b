/** The NSS shim (rmnet_nss.c) and the receive handler in front of it (mhi_netdev_quectel.c):
    packets are offered to the network accelerator with a dummy Ethernet header, and come back
    when it refuses them. */
module Nss {
  import opened Octets

  const ETH_HLEN: nat := 14

  datatype Protocol = NoProtocol | Ip | Ip6 | Ethernet | Other(code: nat)

  /** A fragment is `size` bytes of a page from `off` on. */
  datatype Frag = Frag(page: nat -> byte, off: nat, size: nat)
  {
    function Byte(k: nat): byte { page(off + k) }

    function Bytes(): (b: seq<byte>)
      ensures |b| == size
    {
      seq(size, k requires 0 <= k < size => Byte(k))
    }

    function Drop(n: nat): Frag
      requires n <= size
    {
      Frag(page, off + n, size - n)
    }
  }

  function FragBytes(frags: seq<Frag>): seq<byte> {
    if frags == [] then [] else FragBytes(frags[..|frags| - 1]) + frags[|frags| - 1].Bytes()
  }

  lemma OneFrag(f: Frag)
    ensures FragBytes([f]) == f.Bytes()
  {
    assert [f][..0] == [] && FragBytes([]) == [];
  }

  lemma FragSplit(f: Frag, n: nat)
    requires n <= f.size
    ensures f.Bytes()[..n] + f.Drop(n).Bytes() == f.Bytes()
  {
  }

  lemma FrontOf(front: seq<byte>, linear: seq<byte>, rest: seq<byte>)
    ensures front + linear + rest == front + (linear + rest)
    ensures (front + linear)[|front|..] == linear && (front + linear + rest)[|front|..] == linear + rest
  {
  }

  // ---------------------------------------------------------------------------
  // Headers

  datatype Headers = BadIp | MustLinearize | HeaderBytes(n: nat)

  /** How many bytes of headers a fragment starts with. Fields are read from the page even when
      the fragment is shorter. */
  function HeadersOf(f: Frag): Headers {
    var version := f.Byte(0) / 16;
    if version != 4 && version != 6 then BadIp
    else
      var ip := if version == 4 then (f.Byte(0) % 16) * 4 else 40;
      var transport := if version == 4 then f.Byte(9) else f.Byte(6);
      if transport == 6 then HeaderBytes(ip + (f.Byte(ip + 12) / 16) * 4)
      else if transport == 17 then HeaderBytes(ip + 8)
      else MustLinearize
  }

  /** An IP header: twenty bytes or more, as many as it says, or the forty of IPv6. */
  predicate IsIpHeader(ip: seq<byte>) {
    (|ip| >= 20 && ip[0] / 16 == 4 && |ip| == (ip[0] % 16) * 4) || (|ip| == 40 && ip[0] / 16 == 6)
  }

  /** The protocol behind it. */
  function Behind(ip: seq<byte>): byte
    requires IsIpHeader(ip)
  {
    if ip[0] / 16 == 4 then ip[9] else ip[6]
  }

  /** A TCP header has as many bytes as it says, at least twenty; a UDP header has eight. */
  predicate IsTransportHeader(protocol: byte, t: seq<byte>) {
    (protocol == 6 && |t| >= 20 && |t| == (t[12] / 16) * 4) || (protocol == 17 && |t| == 8)
  }

  /** The bytes that are brought forward are exactly the two headers. */
  lemma HeadersExact(f: Frag, ip: seq<byte>, transport: seq<byte>, payload: seq<byte>)
    requires f.Bytes() == ip + transport + payload && IsIpHeader(ip) && IsTransportHeader(Behind(ip), transport)
    ensures HeadersOf(f) == HeaderBytes(|ip| + |transport|) && f.Bytes()[..|ip| + |transport|] == ip + transport
  {
    var b := f.Bytes();
    assert |b| == f.size;
    assert f.Byte(0) == b[0] == ip[0] && f.Byte(9) == b[9] == ip[9] && f.Byte(6) == b[6] == ip[6];
    if Behind(ip) == 6 { assert f.Byte(|ip| + 12) == b[|ip| + 12] == transport[12]; }
  }

  /** Another transport protocol leaves the packet to be made linear as a whole. */
  lemma OthersLinearized(f: Frag, ip: seq<byte>, payload: seq<byte>)
    requires f.Bytes() == ip + payload && IsIpHeader(ip) && Behind(ip) !in {6, 17}
    ensures HeadersOf(f) == MustLinearize
  {
    var b := f.Bytes();
    assert |b| == f.size;
    assert f.Byte(0) == b[0] == ip[0] && f.Byte(9) == b[9] == ip[9] && f.Byte(6) == b[6] == ip[6];
  }

  /** When some bytes are already linear: they must hold the headers, or all must become linear. */
  datatype HeadCheck = HeadBad | HeadLinearize | HeadFine

  function CheckHead(head: seq<byte>): HeadCheck {
    if |head| < 20 then HeadBad
    else
      var version := head[0] / 16;
      if version != 4 && version != 6 then HeadBad
      else
        var transport := if version == 4 then head[9] else head[6];
        if transport != 6 && transport != 17 then HeadLinearize
        else if (transport == 6 && |head| < 40) || (transport == 17 && |head| < 28) then HeadBad
        else HeadFine
  }

  /** A head of twenty bytes or more of a packet with the headers `ip` and `transport` is accepted from
      40 bytes on with TCP and from 28 with UDP. In IPv4 without options that is exactly when both
      headers are linear; otherwise a head may pass that is shorter than the headers. */
  lemma HeadAcceptedIff(head: seq<byte>, ip: seq<byte>, transport: seq<byte>)
    requires IsIpHeader(ip) && IsTransportHeader(Behind(ip), transport) && 20 <= |head|
    requires if |head| <= |ip| then head <= ip else ip <= head
    ensures CheckHead(head) == HeadFine <==> |head| >= if Behind(ip) == 6 then 40 else 28
    ensures ip[0] / 16 == 4 && |ip| == 20 && (Behind(ip) == 6 ==> |transport| == 20) ==>
              (CheckHead(head) == HeadFine <==> |head| >= |ip| + |transport|)
  {
    assert head[0] == ip[0] && head[9] == ip[9] && head[6] == ip[6];
  }

  /** Forty bytes of an IPv6 packet with TCP pass although no byte of the TCP header is among them. */
  lemma ShortHeadAccepted()
    ensures var head := [0x60, 0, 0, 0, 0, 0, 6] + seq(33, _ => 0);
            IsIpHeader(head) && Behind(head) == 6 && CheckHead(head) == HeadFine
  {
  }

  /** When the headers of a fragmented packet can be brought into its linear part. */
  predicate Adjustable(linear: seq<byte>, frags: seq<Frag>, canLinearize: bool) {
    && |frags| == 1
    && if linear != [] then CheckHead(linear).HeadFine? || (CheckHead(linear).HeadLinearize? && canLinearize)
       else match HeadersOf(frags[0])
         case BadIp => false
         case MustLinearize => canLinearize
         case HeaderBytes(n) => n <= frags[0].size
  }

  /** The headroom that bringing the headers forward takes. */
  function MovedBytes(linear: seq<byte>, frags: seq<Frag>): nat {
    if linear != [] || |frags| != 1 then 0
    else match HeadersOf(frags[0])
      case HeaderBytes(n) => if n <= frags[0].size then n else 0
      case _ => 0
  }

  /** The headroom that offering a packet takes: what is moved, and the Ethernet header once the
      packet gets that far. */
  function OfferBytes(linear: seq<byte>, frags: seq<Frag>, dataLen: int, hasContext: bool, canLinearize: bool): nat {
    var moved := if dataLen != 0 then MovedBytes(linear, frags) else 0;
    if hasContext && (dataLen == 0 || Adjustable(linear, frags, canLinearize)) then moved + ETH_HLEN else moved
  }

  /** The linear part starts with the packet's first byte, unless there was nothing to move. */
  ghost predicate HeadKept(linear0: seq<byte>, frags0: seq<Frag>, linear: seq<byte>) {
    if linear0 != [] then linear != [] && linear[0] == linear0[0]
    else frags0 != [] && if HeadersOf(frags0[0]) == HeaderBytes(0) then linear == []
                         else linear != [] && linear[0] == frags0[0].Byte(0)
  }

  // ---------------------------------------------------------------------------
  // Socket buffers

  class Skb {
    const dev: nat
    var linear: seq<byte>
    var frags: seq<Frag>
    var len: int
    var dataLen: int
    var headroom: nat
    var protocol: Protocol
    var cb0: byte
    var loopback: bool

    /** The counters say how long the packet and its fragments are. */
    ghost predicate Valid()
      reads this
    {
      len == |Content()| && dataLen == |FragBytes(frags)|
    }

    function Content(): seq<byte>
      reads this
    {
      linear + FragBytes(frags)
    }

    constructor (dev: nat, linear: seq<byte>, frag: seq<Frag>, headroom: nat, protocol: Protocol, cb0: byte,
                 loopback: bool)
      requires |frag| <= 1
      ensures Valid() && this.dev == dev && this.linear == linear && frags == frag && this.headroom == headroom
      ensures this.protocol == protocol && this.cb0 == cb0 && this.loopback == loopback
    {
      this.dev, this.linear, this.frags, this.headroom := dev, linear, frag, headroom;
      this.protocol, this.cb0, this.loopback := protocol, cb0, loopback;
      var n := if frag == [] then 0 else frag[0].size;
      this.len, this.dataLen := |linear| + n, n;
      new;
      if frag != [] { OneFrag(frag[0]); assert frag == [frag[0]]; }
    }

    /** skb_push and the copy into the new space. */
    method Push(bytes: seq<byte>)
      requires headroom >= |bytes|
      modifies this`linear, this`len, this`headroom
      ensures linear == bytes + old(linear) && len == old(len) + |bytes| && headroom == old(headroom) - |bytes|
    {
      linear, len, headroom := bytes + linear, len + |bytes|, headroom - |bytes|;
    }

    /** skb_pull */
    method Pull(n: nat) returns (ok: bool)
      requires Valid() && (len >= n ==> |linear| >= n)
      modifies this`linear, this`len, this`headroom
      ensures Valid() && ok == (old(len) >= n)
      ensures if ok then linear == old(linear)[n..] && headroom == old(headroom) + n && Content() == old(Content())[n..]
              else linear == old(linear) && headroom == old(headroom)
    {
      ok := len >= n;
      if ok {
        assert linear[n..] + FragBytes(frags) == (linear + FragBytes(frags))[n..];
        linear, len, headroom := linear[n..], len - n, headroom + n;
      }
    }

    /** skb_linearize of a packet with one fragment. */
    method Linearize(room: bool) returns (ok: bool)
      requires Valid() && |frags| == 1
      modifies this`linear, this`frags, this`dataLen
      ensures Valid() && Content() == old(Content()) && ok == room && len == old(len)
      ensures ok ==> frags == [] && linear == old(linear) + old(frags)[0].Bytes()
      ensures !ok ==> linear == old(linear) && frags == old(frags)
    {
      ok := room;
      if ok {
        OneFrag(frags[0]);
        assert frags == [frags[0]];
        linear, frags, dataLen := linear + frags[0].Bytes(), [], 0;
        assert FragBytes([]) == [] && linear + [] == linear;
      }
    }

    /** rmnet_nss_adjust_header: whatever it does, the packet stays the same bytes of the same
        length; on success its headers are linear. */
    method AdjustHeader(canLinearize: bool) returns (ok: bool)
      requires Valid() && headroom >= MovedBytes(linear, frags)
      modifies this`linear, this`frags, this`len, this`dataLen, this`headroom
      ensures Valid() && Content() == old(Content()) && len == old(len)
      ensures ok <==> Adjustable(old(linear), old(frags), canLinearize)
      ensures ok ==> frags == [] || (old(linear) != [] && linear == old(linear))
                     || HeadersOf(old(frags)[0]) == HeaderBytes(|linear|)
      ensures ok && old(dataLen) != 0 ==> HeadKept(old(linear), old(frags), linear)
      ensures headroom == old(headroom) - old(MovedBytes(linear, frags))
    {
      if |frags| != 1 { return false; }
      OneFrag(frags[0]);
      assert frags == [frags[0]];
      if linear != [] {
        match CheckHead(linear)
        case HeadBad => return false;
        case HeadFine => return true;
        case HeadLinearize => ok := Linearize(canLinearize); return;
      }
      match HeadersOf(frags[0])
      case BadIp => return false;
      case MustLinearize => ok := Linearize(canLinearize); return;
      case HeaderBytes(bytes) =>
        if bytes > frags[0].size { return false; }
        ok := true;
        Relocate(bytes);
    }

    /** The headers are copied in front and the fragment starts after them. */
    method Relocate(bytes: nat)
      requires Valid() && linear == [] && |frags| == 1 && bytes <= frags[0].size && bytes <= headroom
      modifies this`linear, this`frags, this`len, this`dataLen, this`headroom
      ensures Valid() && Content() == old(Content()) && len == old(len) && linear == old(frags)[0].Bytes()[..bytes]
      ensures headroom == old(headroom) - bytes
    {
      hide FragBytes, Frag.Bytes;
      var frag := frags[0];
      assert frags == [frag];
      MoveFront(frag, bytes);
      Push(frag.Bytes()[..bytes]);
      len := len - bytes;
      frags := [frag.Drop(bytes)];
      dataLen := dataLen - bytes;
    }
  }

  /** Splitting a fragment keeps its bytes. */
  lemma MoveFront(f: Frag, n: nat)
    requires n <= f.size
    ensures |FragBytes([f])| == f.size && |FragBytes([f.Drop(n)])| == f.size - n
    ensures f.Bytes()[..n] + [] == f.Bytes()[..n]
    ensures f.Bytes()[..n] + FragBytes([f.Drop(n)]) == [] + FragBytes([f])
  {
    OneFrag(f);
    OneFrag(f.Drop(n));
    FragSplit(f, n);
  }

  // ---------------------------------------------------------------------------
  // The path of a packet

  /** How the accelerator answers, after saying `busy` times that its queue is full. */
  datatype Answer = Accepted | NotEnabled | Failed

  /** What the outside contributes: whether linearizing succeeds, what lies in memory at the data
      pointer of an empty linear part, and the accelerator. */
  datatype Env = Env(canLinearize: bool, garbage: byte, busy: nat, answer: Answer)

  datatype Fate = Up | Taken | Freed | Lost

  datatype Packet = Packet(dev: nat, protocol: Protocol, bytes: seq<byte>)

  datatype Verdict = Pass | Consumed

  function ProtocolOf(b: byte): (p: Protocol)
    ensures (p == Ip <==> b / 16 == 4) && (p == Ip6 <==> b / 16 == 6)
  {
    if 0x40 <= b < 0x50 then Ip else if 0x60 <= b < 0x70 then Ip6 else NoProtocol
  }

  function EthHeader(p: Protocol): (h: seq<byte>)
    ensures |h| == ETH_HLEN && h[12] as int * 256 + h[13] as int == (if p == Ip then 0x0800 else 0x86DD)
  {
    seq(12, _ => 0) + if p == Ip then [8, 0] else [0x86, 0xDD]
  }

  function FirstByte(linear: seq<byte>, env: Env): byte {
    if linear == [] then env.garbage else linear[0]
  }

  class Shim {
    /** Whether the accelerator's callbacks are installed, and the devices with a context. */
    var hasNss: bool
    var contexts: set<nat>
    /** Packets passed to the network stack and packets that the accelerator took. */
    var up: seq<Packet>
    var taken: seq<Packet>
    var freed: nat
    var lost: nat
    var busyLoops: nat
    var exceptions: nat
    var exBadHdr: nat
    var exBadIp: nat
    var exSuccess: nat

    /** Every exception is counted once more, by how it ended. */
    ghost predicate Counted()
      reads this
    {
      exceptions == exBadHdr + exBadIp + exSuccess
    }

    constructor (hasNss: bool, contexts: set<nat>)
      ensures Counted() && up == [] && taken == [] && freed == lost == 0
      ensures this.hasNss == hasNss && this.contexts == contexts
    {
      this.hasNss, this.contexts, up, taken, freed, lost := hasNss, contexts, [], [], 0, 0;
      busyLoops, exceptions, exBadHdr, exBadIp, exSuccess := 0, 0, 0, 0, 0;
    }

    /** The packet ended in exactly one place, with these bytes. */
    twostate predicate Went(fate: Fate, p: Packet)
      reads this
    {
      && up == old(up) + (if fate == Up then [p] else [])
      && taken == old(taken) + (if fate == Taken then [Framed(p)] else [])
      && freed == old(freed) + (if fate == Freed then 1 else 0)
      && lost == old(lost) + (if fate == Lost then 1 else 0)
      && hasNss == old(hasNss) && contexts == old(contexts)
    }

    /** netif_receive_skb on a device with the receive handler: what the handler passes goes up.
        The shim may come back here, with a packet that the handler then passes. */
    method NetifReceive(skb: Skb, env: Env) returns (fate: Fate, protocol: Protocol)
      requires Counted() && skb.Valid() && (Offered(skb) ==> HasRoom(skb, env))
      modifies this, skb
      ensures Counted() && Went(fate, Packet(skb.dev, protocol, old(skb.Content())))
      ensures !old(Offered(skb)) ==> fate == Up && protocol == old(skb.protocol)
      ensures old(Offered(skb)) ==> fate == old(TxFate(skb.linear, skb.frags, skb.dataLen, skb.dev in contexts, env))
      ensures old(Offered(skb)) && fate in {Up, Taken} ==>
                protocol == old(HeadVersion(skb.linear, skb.frags, skb.dataLen, env)) != NoProtocol
      decreases if skb.cb0 == 1 then 0 else 1, 3
    {
      var v;
      v, fate, protocol := RxHandler(skb, env);
      if v == Pass {
        fate, protocol := Up, skb.protocol;
        up := up + [Packet(skb.dev, skb.protocol, skb.Content())];
      }
    }

    /** The headroom that offering the packet needs. */
    predicate HasRoom(skb: Skb, env: Env)
      reads this, skb
    {
      skb.headroom >= OfferBytes(skb.linear, skb.frags, skb.dataLen, skb.dev in contexts, env.canLinearize)
    }

    /** Whether the receive handler gives the packet to the accelerator. */
    predicate Offered(skb: Skb)
      reads this, skb
    {
      !skb.loopback && skb.cb0 != 1 && hasNss
    }

    /** qca_nss_rx_handler. It ignores what the shim returns. */
    method RxHandler(skb: Skb, env: Env) returns (v: Verdict, fate: Fate, protocol: Protocol)
      requires Counted() && skb.Valid() && (Offered(skb) ==> HasRoom(skb, env))
      modifies this, skb
      ensures Counted() && (v == Consumed <==> old(Offered(skb)))
      ensures v == Pass ==> unchanged(this) && skb.Valid() && skb.Content() == old(skb.Content())
      ensures v == Pass ==> skb.protocol == old(skb.protocol) && (old(skb.cb0) == 1 && !skb.loopback ==> skb.cb0 == 0)
      ensures v == Consumed ==> Went(fate, Packet(skb.dev, protocol, old(skb.Content())))
      ensures v == Consumed ==> fate == old(TxFate(skb.linear, skb.frags, skb.dataLen, skb.dev in contexts, env))
      ensures v == Consumed && fate in {Up, Taken} ==>
                protocol == old(HeadVersion(skb.linear, skb.frags, skb.dataLen, env)) != NoProtocol
      decreases if skb.cb0 == 1 then 0 else 1, 2
    {
      fate, protocol := Up, skb.protocol;
      if skb.loopback { return Pass, fate, protocol; }
      if skb.cb0 == 1 {
        skb.cb0 := 0;
        return Pass, fate, protocol;
      }
      if !hasNss { return Pass, fate, protocol; }
      var rc;
      rc, fate, protocol := NssTx(skb, env);
      v := Consumed;
    }

    /** rmnet_nss_tx. */
    method NssTx(skb: Skb, env: Env) returns (rc: int, fate: Fate, protocol: Protocol)
      requires Counted() && skb.Valid() && HasRoom(skb, env)
      modifies this, skb
      ensures Counted() && Went(fate, Packet(skb.dev, protocol, old(skb.Content())))
      ensures fate == old(TxFate(skb.linear, skb.frags, skb.dataLen, skb.dev in contexts, env))
      ensures fate in {Up, Taken} ==>
                protocol == old(HeadVersion(skb.linear, skb.frags, skb.dataLen, env)) != NoProtocol
      ensures rc == match fate case Freed => 1 case Lost => -22 case _ => 0
      decreases 1, 1
    {
      protocol := NoProtocol;
      if skb.dataLen != 0 {
        var ok := skb.AdjustHeader(env.canLinearize);
        if !ok {
          freed := freed + 1;
          return 1, Freed, protocol;
        }
      }
      assert ProtocolOf(FirstByte(skb.linear, env)) == old(HeadVersion(skb.linear, skb.frags, skb.dataLen, env));
      if skb.dev !in contexts {
        lost := lost + 1;
        return -22, Lost, protocol;
      }
      rc, fate, protocol := Offer(skb, env);
    }

    /** The second half of rmnet_nss_tx, from the Ethernet header on. */
    method Offer(skb: Skb, env: Env) returns (rc: int, fate: Fate, protocol: Protocol)
      requires Counted() && skb.Valid() && skb.headroom >= ETH_HLEN
      modifies this, skb
      ensures Counted() && Went(fate, Packet(skb.dev, protocol, old(skb.Content())))
      ensures protocol == ProtocolOf(FirstByte(old(skb.linear), env))
      ensures fate == (if protocol == NoProtocol || env.answer == Failed then Freed
                       else if env.answer == Accepted then Taken else Up)
      ensures rc == if fate == Freed then 1 else 0
      decreases 1, 1, 0
    {
      protocol := ProtocolOf(FirstByte(skb.linear, env));
      skb.Push(EthHeader(protocol));
      FrontOf(EthHeader(protocol), old(skb.linear), FragBytes(skb.frags));
      if protocol == NoProtocol {
        freed := freed + 1;
        return 1, Freed, protocol;
      }
      skb.protocol := Ethernet;
      Spin(env.busy);
      match env.answer
      case Accepted =>
        taken := taken + [Packet(skb.dev, Ethernet, skb.Content())];
        return 0, Taken, protocol;
      case NotEnabled =>
        fate := NssReceive(skb, env);
        return 0, fate, protocol;
      case Failed =>
        freed := freed + 1;
        return 1, Freed, protocol;
    }

    /** The transmit loop while the queue is full. */
    method Spin(times: nat)
      modifies this`busyLoops
      ensures busyLoops == old(busyLoops) + times
    {
      for i := 0 to times
        invariant busyLoops == old(busyLoops) + i
      {
        busyLoops := busyLoops + 1;
      }
    }

    /** rmnet_nss_receive: the Ethernet header comes off, the protocol is set from the packet and
        the packet is marked so that the handler passes it. */
    method NssReceive(skb: Skb, env: Env) returns (fate: Fate)
      requires Counted() && skb.Valid() && (skb.len >= ETH_HLEN ==> |skb.linear| >= ETH_HLEN)
      modifies this, skb
      ensures Counted()
      ensures fate == (if old(skb.protocol) in {NoProtocol, Ethernet} && old(skb.len) >= ETH_HLEN
                          && ProtocolOf(FirstByte(old(skb.linear)[ETH_HLEN..], env)) != NoProtocol then Up else Freed)
      ensures fate == Freed ==> Went(Freed, Packet(0, NoProtocol, []))
      ensures fate == Up ==> Went(Up, Packet(skb.dev, ProtocolOf(FirstByte(old(skb.linear)[ETH_HLEN..], env)),
                                             old(skb.Content())[ETH_HLEN..]))
      decreases 1, 0
    {
      hide FragBytes, TxFate, HeadVersion, OfferBytes;
      exceptions := exceptions + 1;
      var ok := skb.protocol in {NoProtocol, Ethernet};
      if ok { ok := skb.Pull(ETH_HLEN); }
      if !ok {
        exBadHdr, freed := exBadHdr + 1, freed + 1;
        return Freed;
      }
      skb.loopback := false;
      skb.protocol := ProtocolOf(FirstByte(skb.linear, env));
      if skb.protocol == NoProtocol {
        exBadIp, freed := exBadIp + 1, freed + 1;
        return Freed;
      }
      exSuccess := exSuccess + 1;
      skb.cb0 := 1;
      var p;
      fate, p := NetifReceive(skb, env);
    }
  }

  function Framed(p: Packet): Packet { Packet(p.dev, Ethernet, EthHeader(p.protocol) + p.bytes) }

  /** Where a packet offered to the accelerator ends. */
  ghost function TxFate(linear: seq<byte>, frags: seq<Frag>, dataLen: int, hasContext: bool, env: Env): Fate {
    if dataLen != 0 && !Adjustable(linear, frags, env.canLinearize) then Freed
    else if !hasContext then Lost
    else if HeadVersion(linear, frags, dataLen, env) == NoProtocol then Freed
    else match env.answer
      case Accepted => Taken
      case NotEnabled => Up
      case Failed => Freed
  }

  /** Where each packet ends. The accelerator has it exactly if it took it; it is lost exactly if its
      device has no context; it goes to the network stack exactly if the accelerator is not enabled.
      In every case its headers could be brought forward, or there was nothing to bring. */
  lemma FateIff(linear: seq<byte>, frags: seq<Frag>, dataLen: int, hasContext: bool, env: Env)
    ensures var fate := TxFate(linear, frags, dataLen, hasContext, env);
            var ready := dataLen == 0 || Adjustable(linear, frags, env.canLinearize);
            var isIp := HeadVersion(linear, frags, dataLen, env) != NoProtocol;
            && (fate == Lost <==> ready && !hasContext)
            && (fate == Taken <==> ready && hasContext && isIp && env.answer == Accepted)
            && (fate == Up <==> ready && hasContext && isIp && env.answer == NotEnabled)
  {
  }

  /** The IP version that is looked at once the headers are linear. */
  ghost function HeadVersion(linear: seq<byte>, frags: seq<Frag>, dataLen: int, env: Env): Protocol {
    if linear != [] then ProtocolOf(linear[0])
    else if dataLen == 0 || frags == [] || HeadersOf(frags[0]) == HeaderBytes(0) then ProtocolOf(env.garbage)
    else ProtocolOf(frags[0].Byte(0))
  }
}
