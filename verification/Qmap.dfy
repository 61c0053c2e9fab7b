/** QMAP framing (qmi_wwan_q.c over USB, mhi_netdev_quectel.c over PCIe): length-prefixed,
    padded frames, each tagged with the multiplexed network device it belongs to. */
module Qmap {
  import opened Octets

  const MUX_BASE: nat := 0x81

  /** qmap_version 5 is QMAP v1, qmap_version 9 is QMAP v5 with its extra header. */
  datatype Version = V1 | V5

  function HdrLen(v: Version): nat { if v == V1 then 4 else 8 }

  // ---------------------------------------------------------------------------
  // Encoding

  /** add_qhdr, add_qhdr_v5: the header for `pktLen` bytes of which the last `pad` are padding. */
  function Header(v: Version, mux: byte, pktLen: nat, pad: nat): (h: seq<byte>)
    requires pad < 4
    ensures |h| == HdrLen(v)
  {
    var n := pktLen % 0x10000;
    if v == V1 then [pad, mux, n / 256, n % 256]
    else [0x40 + pad, mux, n / 256, n % 256, 4, 0, 0, 0]
  }

  function Frame(v: Version, mux: byte, packet: seq<byte>, padding: seq<byte>): (f: seq<byte>)
    requires |padding| < 4
    ensures |f| == HdrLen(v) + |packet| + |padding|
  {
    Header(v, mux, |packet| + |padding|, |padding|) + packet + padding
  }

  /** Bytes of padding: up to a multiple of four, none if the buffer has no room. The v1 form
      over USB rounds the length with the link-layer header, the others without. */
  function PadLen(len: nat, tailroom: nat): (p: nat)
    ensures p < 4
  {
    var p := if len % 4 == 0 then 0 else 4 - len % 4;
    if tailroom < p then 0 else p
  }

  /** The header fields as they are written into the header buffer. */
  method WriteHeader(v: Version, mux: byte, pktLen: nat, pad: nat) returns (hdr: seq<byte>)
    requires pad < 4
    ensures hdr == Header(v, mux, pktLen, pad)
  {
    var buf := new byte[8](_ => 0);
    var len := pktLen % 0x10000;
    buf[2], buf[3] := len / 256, len % 256;
    buf[1] := mux;
    if v == V1 {
      buf[0] := pad;
      hdr := buf[..4];
    } else {
      buf[0] := 0x40 + pad;
      buf[4], buf[5], buf[6], buf[7] := 4, 0, 0, 0;
      hdr := buf[..8];
    }
  }

  /** The padding bytes, whatever they happen to hold. */
  function PaddingOf(v: Version, len: nat, ipOffset: nat, tailroom: nat, junk: nat -> byte): (p: seq<byte>)
    requires ipOffset <= len
    ensures |p| < 4
  {
    seq(PadLen(if v == V1 then len else len - ipOffset, tailroom), i requires 0 <= i => junk(i))
  }

  /** add_qhdr and add_qhdr_v5 with a separate header buffer: the packet is the skb from
      `ipOffset` on, and `junk` is what the padding bytes happen to hold. */
  method AddHeader(v: Version, mux: byte, skb: seq<byte>, ipOffset: nat, tailroom: nat, junk: nat -> byte)
    returns (hdr: seq<byte>, skb': seq<byte>)
    requires ipOffset <= |skb|
    ensures skb' == skb + PaddingOf(v, |skb|, ipOffset, tailroom, junk)
    ensures hdr + skb'[ipOffset..] == Frame(v, mux, skb[ipOffset..], skb'[|skb|..])
  {
    var pad := Padding(if v == V1 then |skb| else |skb| - ipOffset, tailroom);
    var padding := seq(pad, i requires 0 <= i => junk(i));
    assert padding == PaddingOf(v, |skb|, ipOffset, tailroom, junk);
    skb' := skb + padding;
    PaddedTail(skb, padding, ipOffset);
    hdr := WriteHeader(v, mux, |skb'| - ipOffset, pad);
  }

  method Padding(len: nat, tailroom: nat) returns (pad: nat)
    ensures pad == PadLen(len, tailroom)
  {
    pad := len % 4;
    if pad != 0 {
      pad := 4 - pad;
      if tailroom < pad { pad := 0; }
    }
  }

  lemma PaddedTail(skb: seq<byte>, padding: seq<byte>, from: nat)
    requires from <= |skb|
    ensures (skb + padding)[from..] == skb[from..] + padding && (skb + padding)[|skb|..] == padding
  {
  }

  // ---------------------------------------------------------------------------
  // Decoding

  datatype Device = Unregistered | Registered(mtu: nat)

  /** What the decoder knows: qmap_mode, the registered network devices and the minimum
      padding of the downlink. MTUs are set through a signed parameter. */
  datatype Config = Config(mode: nat, devs: seq<Device>, minPad: nat)
  {
    predicate Ok() {
      && mode <= |devs| && mode < 0x8000_0000 && minPad < 0x4000_0000
      && forall i :: 0 <= i < |devs| && devs[i].Registered? ==> devs[i].mtu < 0x8000_0000
    }
  }

  /** A delivered datagram: which device, and where in the input. */
  datatype Slice = Slice(dev: nat, from: nat, len: nat)

  datatype Turn = Exit | ReadPastEnd | Next(pos: nat, out: seq<Slice>)

  /** How C compares a 32-bit int with an unsigned int. */
  function AsUnsigned(x: int): (u: nat)
    requires -0x8000_0000 <= x < 0x8000_0000
  {
    if x < 0 then x + 0x1_0000_0000 else x
  }

  function PktLen(s: seq<byte>, pos: nat): nat
    requires pos + 4 <= |s|
  {
    (s[pos + 2] as int) * 256 + s[pos + 3] as int
  }

  function HdrSize(s: seq<byte>, pos: nat): nat
    requires pos < |s|
  {
    if NextHdrBit(s[pos]) then 8 else 4
  }

  /** The device index as the unsigned comparison sees it: smaller mux ids wrap round. */
  function MuxIndex(s: seq<byte>, pos: nat): nat
    requires pos + 1 < |s|
  {
    AsUnsigned(s[pos + 1] - MUX_BASE)
  }

  /** The datagram length as the unsigned comparison sees it. */
  function DataLen(cfg: Config, s: seq<byte>, pos: nat): nat
    requires pos + 4 <= |s| && cfg.Ok()
  {
    AsUnsigned(PktLen(s, pos) - PadBits(s[pos]) - cfg.minPad)
  }

  /** skb_pull refuses to move past the end and leaves the buffer as it is. */
  function Pull(s: seq<byte>, pos: nat, n: nat): nat { if pos + n <= |s| then pos + n else pos }

  /** The first header byte: the command bit, the next-header bit and six bits of padding length. */
  predicate CdBit(b: byte) { b >= 128 }

  predicate NextHdrBit(b: byte) { 64 <= b < 128 || 192 <= b }

  function PadBits(b: byte): (p: nat)
    ensures p < 64
  {
    if b < 64 then b else if b < 128 then b - 64 else if b < 192 then b - 128 else b - 192
  }

  /** The upper half of the byte is 4 or 6. */
  predicate IsIp(b: byte) { 0x40 <= b < 0x50 || 0x60 <= b < 0x70 }

  /** One turn of the decode loop, in the order of its checks; `room` is how many more packet
      buffers can be allocated. */
  function Decode1(cfg: Config, s: seq<byte>, pos: nat, room: nat): (t: Turn)
    requires cfg.Ok() && pos + 4 < |s|
    ensures t.Next? ==> pos <= t.pos <= |s| && |t.out| <= room
    ensures t.Next? && t.out != [] ==> t.pos > pos && |t.out| == 1
  {
    var pkt, hdr, mux, len := PktLen(s, pos), HdrSize(s, pos), MuxIndex(s, pos), DataLen(cfg, s, pos);
    if mux >= cfg.mode then Exit
    else if cfg.devs[mux].Unregistered? then Next(Pull(s, pos, pkt + hdr), [])
    else if len > cfg.devs[mux].mtu then Exit
    else if |s| - pos < pkt + hdr then Exit
    else if CdBit(s[pos]) then Next(Pull(s, pos, pkt + hdr), [])
    else if |s| - pos == hdr then ReadPastEnd
    else if !IsIp(s[pos + hdr]) || room == 0 then Exit
    else Next(Pull(s, pos, pkt + hdr), [Slice(mux, pos + hdr, len)])
  }

  datatype End = Finished | Hangs | PastEnd
  datatype Outcome = Outcome(out: seq<Slice>, end: End)

  /** The whole loop. A turn that makes no progress repeats for ever. */
  function Decode(cfg: Config, s: seq<byte>, pos: nat, room: nat): (r: Outcome)
    requires cfg.Ok() && pos <= |s|
    decreases |s| - pos
  {
    if |s| - pos <= 4 then Outcome([], Finished)
    else match Decode1(cfg, s, pos, room)
      case Exit => Outcome([], Finished)
      case ReadPastEnd => Outcome([], PastEnd)
      case Next(p, out) =>
        if p == pos then Outcome([], Hangs)
        else var r := Decode(cfg, s, p, room - |out|); Outcome(out + r.out, r.end)
  }

  /** What the network devices get: (device, datagram) pairs, and how the loop ended. */
  datatype Got = Got(list: seq<(nat, seq<byte>)>, end: End)

  function Bytes(s: seq<byte>, x: Slice): seq<byte> {
    if x.from + x.len <= |s| then s[x.from..x.from + x.len] else []
  }

  function Datagrams(s: seq<byte>, out: seq<Slice>): (r: seq<(nat, seq<byte>)>)
    ensures |r| == |out|
  {
    seq(|out|, k requires 0 <= k < |out| => (out[k].dev, Bytes(s, out[k])))
  }

  function Receive(cfg: Config, s: seq<byte>, pos: nat, room: nat): (g: Got)
    requires cfg.Ok() && pos <= |s|
    decreases |s| - pos
  {
    if |s| - pos <= 4 then Got([], Finished)
    else match Decode1(cfg, s, pos, room)
      case Exit => Got([], Finished)
      case ReadPastEnd => Got([], PastEnd)
      case Next(p, out) =>
        if p == pos then Got([], Hangs)
        else var g := Receive(cfg, s, p, room - |out|); Got(Datagrams(s, out) + g.list, g.end)
  }

  /** The delivered bytes are the decoded slices of the input. */
  lemma {:induction false} ReceiveIsDecode(cfg: Config, s: seq<byte>, pos: nat, room: nat)
    requires cfg.Ok() && pos <= |s|
    ensures Receive(cfg, s, pos, room) == Named(s, Decode(cfg, s, pos, room))
    decreases |s| - pos
  {
    hide Decode1;
    assert Datagrams(s, []) == [];
    if |s| - pos > 4 {
      var t := Decode1(cfg, s, pos, room);
      if t.Next? && t.pos != pos {
        ReceiveIsDecode(cfg, s, t.pos, room - |t.out|);
        NamedTurn(cfg, s, pos, room, t.pos, t.out, Decode(cfg, s, t.pos, room - |t.out|));
      }
    }
  }

  lemma NamedTurn(cfg: Config, s: seq<byte>, pos: nat, room: nat, p: nat, out: seq<Slice>, r: Outcome)
    requires cfg.Ok() && pos + 4 < |s| && Decode1(cfg, s, pos, room) == Next(p, out) && p != pos
    requires Decode(cfg, s, p, room - |out|) == r && Receive(cfg, s, p, room - |out|) == Named(s, r)
    ensures Receive(cfg, s, pos, room) == Named(s, Decode(cfg, s, pos, room))
  {
    hide Decode1;
    DatagramsOfSum(s, out, r.out);
  }

  function Named(s: seq<byte>, r: Outcome): Got { Got(Datagrams(s, r.out), r.end) }

  lemma DatagramsOfSum(s: seq<byte>, a: seq<Slice>, b: seq<Slice>)
    ensures Datagrams(s, a + b) == Datagrams(s, a) + Datagrams(s, b)
  {
  }

  // ---------------------------------------------------------------------------
  // What the loop does on any input

  /** A delivered slice lies inside its frame: the unsigned test rejects negative lengths. */
  lemma SliceInFrame(cfg: Config, s: seq<byte>, pos: nat, room: nat)
    requires cfg.Ok() && pos + 4 < |s|
    ensures var t := Decode1(cfg, s, pos, room);
            t.Next? && t.out != [] ==>
              && t.out[0].from == pos + HdrSize(s, pos) && t.out[0].from + t.out[0].len <= t.pos <= |s|
              && t.out[0].dev < cfg.mode && cfg.devs[t.out[0].dev].Registered?
              && t.out[0].len <= cfg.devs[t.out[0].dev].mtu
  {
  }

  /** Disjoint, increasing slices within [lo, hi), each for a registered device and within its MTU. */
  predicate Ordered(cfg: Config, out: seq<Slice>, lo: nat, hi: nat)
    requires cfg.Ok()
  {
    && (forall k :: 0 <= k < |out| ==> lo <= out[k].from && out[k].from + out[k].len <= hi && Takes(cfg, out[k]))
    && (forall j, k :: 0 <= j < k < |out| ==> out[j].from + out[j].len <= out[k].from)
  }

  predicate Takes(cfg: Config, x: Slice)
    requires cfg.Ok()
  {
    x.dev < cfg.mode && cfg.devs[x.dev].Registered? && x.len <= cfg.devs[x.dev].mtu
  }

  lemma OrderedCons(cfg: Config, out: seq<Slice>, rest: seq<Slice>, lo: nat, mid: nat, hi: nat)
    requires cfg.Ok() && |out| <= 1 && lo <= mid <= hi && Ordered(cfg, out, lo, mid) && Ordered(cfg, rest, mid, hi)
    ensures Ordered(cfg, out + rest, lo, hi)
  {
    var all, n := out + rest, |out|;
    forall k | 0 <= k < |all| ensures lo <= all[k].from && all[k].from + all[k].len <= hi && Takes(cfg, all[k]) {
      assert all[k] == if k < n then out[k] else rest[k - n];
    }
    forall j, k | 0 <= j < k < |all| ensures all[j].from + all[j].len <= all[k].from {
      assert all[k] == rest[k - n];
      assert all[j] == if j < n then out[j] else rest[j - n];
    }
  }

  lemma OrderedTurn(cfg: Config, s: seq<byte>, pos: nat, room: nat, p: nat, out: seq<Slice>, rest: seq<Slice>)
    requires cfg.Ok() && pos + 4 < |s| && Decode1(cfg, s, pos, room) == Next(p, out) && Ordered(cfg, rest, p, |s|)
    ensures Ordered(cfg, out + rest, pos, |s|)
  {
    SliceInFrame(cfg, s, pos, room);
    OrderedCons(cfg, out, rest, pos, p, |s|);
  }

  /** On every input the delivered datagrams are disjoint, increasing slices of it, each for a
      registered device and within its MTU. */
  lemma {:induction false} SlicesOrdered(cfg: Config, s: seq<byte>, pos: nat, room: nat)
    requires cfg.Ok() && pos <= |s|
    ensures Ordered(cfg, Decode(cfg, s, pos, room).out, pos, |s|)
    decreases |s| - pos
  {
    hide Decode1;
    if |s| - pos > 4 {
      var t := Decode1(cfg, s, pos, room);
      if t.Next? && t.pos != pos {
        SlicesOrdered(cfg, s, t.pos, room - |t.out|);
        OrderedTurn(cfg, s, pos, room, t.pos, t.out, Decode(cfg, s, t.pos, room - |t.out|).out);
      }
    }
  }

  /** The loop repeats a turn exactly when the frame is for an unregistered device and longer
      than the rest of the input: that skip comes before the length check. */
  lemma StuckIff(cfg: Config, s: seq<byte>, pos: nat, room: nat)
    requires cfg.Ok() && pos + 4 < |s|
    ensures Decode1(cfg, s, pos, room) == Next(pos, []) <==>
              && MuxIndex(s, pos) < cfg.mode && cfg.devs[MuxIndex(s, pos)].Unregistered?
              && |s| - pos < PktLen(s, pos) + HdrSize(s, pos)
  {
  }

  /** With every device below qmap_mode registered the loop ends on every input. */
  lemma {:induction false} RegisteredNeverHangs(cfg: Config, s: seq<byte>, pos: nat, room: nat)
    requires cfg.Ok() && pos <= |s|
    requires forall i :: 0 <= i < cfg.mode ==> cfg.devs[i].Registered?
    ensures Decode(cfg, s, pos, room).end != Hangs
    decreases |s| - pos
  {
    if |s| - pos > 4 {
      var t := Decode1(cfg, s, pos, room);
      if t.Next? && t.pos != pos { RegisteredNeverHangs(cfg, s, t.pos, room - |t.out|); }
    }
  }

  /** Where the loop stands after `k` turns from `pos`; it stays put once it has left. */
  datatype Place = At(pos: nat, room: nat) | Left

  function After(cfg: Config, s: seq<byte>, pos: nat, room: nat, k: nat): (p: Place)
    requires cfg.Ok() && pos <= |s|
    decreases k
  {
    if k == 0 then At(pos, room)
    else if |s| - pos <= 4 then Left
    else match Decode1(cfg, s, pos, room)
      case Next(p, out) => After(cfg, s, p, room - |out|, k - 1)
      case _ => Left
  }

  lemma {:induction false} StuckForever(cfg: Config, s: seq<byte>, pos: nat, room: nat, k: nat)
    requires cfg.Ok() && pos + 4 < |s| && Decode1(cfg, s, pos, room) == Next(pos, [])
    ensures After(cfg, s, pos, room, k).At?
  {
    hide Decode1;
    if k > 0 { StuckForever(cfg, s, pos, room, k - 1); }
  }

  /** `Hangs` is what it says: after any number of turns the loop is still running. */
  lemma {:induction false} HangIsForever(cfg: Config, s: seq<byte>, pos: nat, room: nat, k: nat)
    requires cfg.Ok() && pos <= |s| && Decode(cfg, s, pos, room).end == Hangs
    ensures After(cfg, s, pos, room, k).At?
    decreases |s| - pos
  {
    hide Decode1;
    var t := Decode1(cfg, s, pos, room);
    if t.pos == pos { StuckForever(cfg, s, pos, room, k); }
    else if k > 0 { HangIsForever(cfg, s, t.pos, room - |t.out|, k - 1); }
  }

  /** A frame for an unregistered device that is longer than the rest of the input. */
  predicate Stuck(cfg: Config, s: seq<byte>, pos: nat) {
    && cfg.Ok() && pos + 4 < |s| && MuxIndex(s, pos) < cfg.mode && cfg.devs[MuxIndex(s, pos)].Unregistered?
    && |s| - pos < PktLen(s, pos) + HdrSize(s, pos)
  }

  lemma {:induction false} StuckHangs(cfg: Config, s: seq<byte>, pos: nat, room: nat, k: nat)
    requires cfg.Ok() && pos <= |s| && After(cfg, s, pos, room, k).At? && Stuck(cfg, s, After(cfg, s, pos, room, k).pos)
    ensures Decode(cfg, s, pos, room).end == Hangs
    decreases k
  {
    hide Decode1;
    if k == 0 {
      StuckIff(cfg, s, pos, room);
    } else {
      var t := Decode1(cfg, s, pos, room);
      if t.pos != pos { StuckHangs(cfg, s, t.pos, room - |t.out|, k - 1); }
    }
  }

  lemma {:induction false} HangsAtStuck(cfg: Config, s: seq<byte>, pos: nat, room: nat) returns (k: nat, at: Place)
    requires cfg.Ok() && pos <= |s| && Decode(cfg, s, pos, room).end == Hangs
    ensures After(cfg, s, pos, room, k) == at && at.At? && Stuck(cfg, s, at.pos)
    decreases |s| - pos
  {
    hide Decode1;
    var t := Decode1(cfg, s, pos, room);
    if t.pos == pos {
      StuckIff(cfg, s, pos, room);
      k, at := 0, At(pos, room);
    } else {
      k, at := HangsAtStuck(cfg, s, t.pos, room - |t.out|);
      k := k + 1;
    }
  }

  /** The loop hangs if and only if it comes to a frame for an unregistered device that is longer
      than the rest of the input. */
  lemma HangsIff(cfg: Config, s: seq<byte>, pos: nat, room: nat)
    requires cfg.Ok() && pos <= |s|
    ensures Decode(cfg, s, pos, room).end == Hangs <==>
              exists k: nat :: After(cfg, s, pos, room, k).At? && Stuck(cfg, s, After(cfg, s, pos, room, k).pos)
  {
    hide Decode1;
    if Decode(cfg, s, pos, room).end == Hangs {
      var k, at := HangsAtStuck(cfg, s, pos, room);
    }
    if k: nat :| After(cfg, s, pos, room, k).At? && Stuck(cfg, s, After(cfg, s, pos, room, k).pos) {
      StuckHangs(cfg, s, pos, room, k);
    }
  }

  /** Five bytes are enough. */
  lemma FiveBytesHang(room: nat)
    ensures Decode(Config(1, [Unregistered], 0), [0, 0x81, 0xFF, 0xFF, 0], 0, room).end == Hangs
  {
    assert Stuck(Config(1, [Unregistered], 0), [0, 0x81, 0xFF, 0xFF, 0], 0);
    StuckHangs(Config(1, [Unregistered], 0), [0, 0x81, 0xFF, 0xFF, 0], 0, room, 0);
  }

  /** ... and otherwise it leaves the loop after at most one turn per input byte. */
  lemma {:induction false} OtherwiseLeaves(cfg: Config, s: seq<byte>, pos: nat, room: nat)
    requires cfg.Ok() && pos <= |s| && Decode(cfg, s, pos, room).end != Hangs
    ensures exists k: nat :: k <= |s| - pos + 1 && After(cfg, s, pos, room, k) == Left
    decreases |s| - pos
  {
    hide Decode1;
    if |s| - pos <= 4 || !Decode1(cfg, s, pos, room).Next? {
      assert After(cfg, s, pos, room, 1) == Left;
    } else {
      var t := Decode1(cfg, s, pos, room);
      OtherwiseLeaves(cfg, s, t.pos, room - |t.out|);
      var k: nat :| k <= |s| - t.pos + 1 && After(cfg, s, t.pos, room - |t.out|, k) == Left;
      assert After(cfg, s, pos, room, k + 1) == Left;
    }
  }

  /** A data frame for a registered device that has no payload and ends the input. */
  predicate Bare(cfg: Config, s: seq<byte>, pos: nat) {
    && cfg.Ok() && pos + 4 < |s| && MuxIndex(s, pos) < cfg.mode && cfg.devs[MuxIndex(s, pos)].Registered?
    && DataLen(cfg, s, pos) <= cfg.devs[MuxIndex(s, pos)].mtu
    && !CdBit(s[pos]) && PktLen(s, pos) == 0 && |s| - pos == HdrSize(s, pos)
  }

  /** A turn reads one byte too far exactly at such a frame. */
  lemma PastEndIff(cfg: Config, s: seq<byte>, pos: nat, room: nat)
    requires cfg.Ok() && pos + 4 < |s|
    ensures Decode1(cfg, s, pos, room) == ReadPastEnd <==> Bare(cfg, s, pos)
  {
  }

  lemma {:induction false} BareReadsPast(cfg: Config, s: seq<byte>, pos: nat, room: nat, k: nat)
    requires cfg.Ok() && pos <= |s| && After(cfg, s, pos, room, k).At? && Bare(cfg, s, After(cfg, s, pos, room, k).pos)
    ensures Decode(cfg, s, pos, room).end == PastEnd
    decreases k
  {
    hide Decode1;
    if k == 0 {
      PastEndIff(cfg, s, pos, room);
    } else {
      var t := Decode1(cfg, s, pos, room);
      if t.pos == pos { BareNotStuck(cfg, s, pos, room, k); }
      else { BareReadsPast(cfg, s, t.pos, room - |t.out|, k - 1); }
    }
  }

  /** A loop that repeats a turn never comes to such a frame. */
  lemma {:induction false} BareNotStuck(cfg: Config, s: seq<byte>, pos: nat, room: nat, k: nat)
    requires cfg.Ok() && pos + 4 < |s| && Decode1(cfg, s, pos, room) == Next(pos, [])
    ensures After(cfg, s, pos, room, k).At? ==> !Bare(cfg, s, After(cfg, s, pos, room, k).pos)
  {
    hide Decode1;
    if k == 0 { PastEndIff(cfg, s, pos, room); } else { BareNotStuck(cfg, s, pos, room, k - 1); }
  }

  lemma {:induction false} PastEndAtBare(cfg: Config, s: seq<byte>, pos: nat, room: nat) returns (k: nat, at: Place)
    requires cfg.Ok() && pos <= |s| && Decode(cfg, s, pos, room).end == PastEnd
    ensures After(cfg, s, pos, room, k) == at && at.At? && Bare(cfg, s, at.pos)
    decreases |s| - pos
  {
    hide Decode1;
    var t := Decode1(cfg, s, pos, room);
    if t == ReadPastEnd {
      PastEndIff(cfg, s, pos, room);
      k, at := 0, At(pos, room);
    } else {
      k, at := PastEndAtBare(cfg, s, t.pos, room - |t.out|);
      k := k + 1;
    }
  }

  /** On a whole input: the decoder reads past the end if and only if it comes to a data frame for
      a registered device that has no payload and ends the input. */
  lemma ReadsPastIff(cfg: Config, s: seq<byte>, pos: nat, room: nat)
    requires cfg.Ok() && pos <= |s|
    ensures Decode(cfg, s, pos, room).end == PastEnd <==>
              exists k: nat :: After(cfg, s, pos, room, k).At? && Bare(cfg, s, After(cfg, s, pos, room, k).pos)
  {
    hide Decode1;
    if Decode(cfg, s, pos, room).end == PastEnd {
      var k, at := PastEndAtBare(cfg, s, pos, room);
    }
    if k: nat :| After(cfg, s, pos, room, k).At? && Bare(cfg, s, After(cfg, s, pos, room, k).pos) {
      BareReadsPast(cfg, s, pos, room, k);
    }
  }

  /** A lone v5 header does it. */
  lemma BareHeaderReadsPast(room: nat)
    ensures Decode(Config(1, [Registered(1500)], 0), [0x40, 0x81, 0, 0, 0, 0, 0, 0], 0, room).end == PastEnd
  {
    var cfg, s := Config(1, [Registered(1500)], 0), [0x40, 0x81, 0, 0, 0, 0, 0, 0];
    assert Bare(cfg, s, 0);
    BareReadsPast(cfg, s, 0, room, 0);
  }

  // ---------------------------------------------------------------------------
  // Decoding what was encoded

  /** A packet for device `dev` and the padding its frame happens to carry. */
  datatype RawPacket = Packet(dev: nat, data: seq<byte>, padding: seq<byte>)

  /** Padding is at most three bytes and the mux id is a byte. */
  type Packet = p: RawPacket | |p.padding| < 4 && MUX_BASE + p.dev < 256 witness Packet(0, [], [])

  /** Frames are at most 64 KiB, packets are IP and within the MTU of a registered device. */
  predicate Sendable(cfg: Config, p: Packet) {
    && p.dev < cfg.mode <= |cfg.devs| && cfg.devs[p.dev].Registered?
    && p.data != [] && IsIp(p.data[0]) && |p.data| <= cfg.devs[p.dev].mtu
  }

  predicate Fits(p: Packet) { |p.data| + |p.padding| < 0x10000 }

  function FrameOf(v: Version, p: Packet): (f: seq<byte>)
    ensures |f| == HdrLen(v) + |p.data| + |p.padding|
  {
    Frame(v, MUX_BASE + p.dev, p.data, p.padding)
  }

  ghost function Frames(v: Version, ps: seq<Packet>): seq<byte> {
    if ps == [] then [] else FrameOf(v, ps[0]) + Frames(v, ps[1..])
  }

  function Contents(ps: seq<Packet>): (r: seq<(nat, seq<byte>)>)
    ensures |r| == |ps|
  {
    seq(|ps|, k requires 0 <= k < |ps| => (ps[k].dev, ps[k].data))
  }

  lemma HeaderFields(v: Version, p: Packet, s: seq<byte>, pos: nat)
    requires pos + |FrameOf(v, p)| <= |s| && s[pos..pos + |FrameOf(v, p)|] == FrameOf(v, p)
    ensures PktLen(s, pos) == (|p.data| + |p.padding|) % 0x10000 && HdrSize(s, pos) == HdrLen(v)
    ensures MuxIndex(s, pos) == p.dev && PadBits(s[pos]) == |p.padding| && !CdBit(s[pos])
    ensures s[pos + HdrLen(v)..pos + HdrLen(v) + |p.data|] == p.data
  {
    var f := FrameOf(v, p);
    assert s[pos] == f[0] && s[pos + 1] == f[1] && s[pos + 2] == f[2] && s[pos + 3] == f[3];
    var d := s[pos + HdrLen(v)..pos + HdrLen(v) + |p.data|];
    forall k | 0 <= k < |p.data| ensures d[k] == p.data[k] {
      assert d[k] == s[pos..pos + |f|][HdrLen(v) + k] == f[HdrLen(v) + k];
    }
  }

  lemma FrameDecodes(cfg: Config, v: Version, p: Packet, s: seq<byte>, pos: nat, room: nat)
    requires cfg.Ok() && cfg.minPad == 0 && Sendable(cfg, p) && Fits(p) && room > 0
    requires pos + |FrameOf(v, p)| <= |s| && s[pos..pos + |FrameOf(v, p)|] == FrameOf(v, p)
    ensures Decode1(cfg, s, pos, room) == Next(pos + |FrameOf(v, p)|, [Slice(p.dev, pos + HdrLen(v), |p.data|)])
  {
    HeaderFields(v, p, s, pos);
    assert s[pos + HdrLen(v)] == s[pos + HdrLen(v)..pos + HdrLen(v) + |p.data|][0];
  }

  lemma ReceiveFrame(cfg: Config, v: Version, p: Packet, s: seq<byte>, pos: nat, room: nat, rest: seq<(nat, seq<byte>)>)
    requires cfg.Ok() && cfg.minPad == 0 && Sendable(cfg, p) && Fits(p) && room > 0
    requires pos + |FrameOf(v, p)| <= |s| && s[pos..pos + |FrameOf(v, p)|] == FrameOf(v, p)
    requires Receive(cfg, s, pos + |FrameOf(v, p)|, room - 1) == Got(rest, Finished)
    ensures Receive(cfg, s, pos, room) == Got([(p.dev, p.data)] + rest, Finished)
  {
    FrameDecodes(cfg, v, p, s, pos, room);
    HeaderFields(v, p, s, pos);
    assert Datagrams(s, [Slice(p.dev, pos + HdrLen(v), |p.data|)]) == [(p.dev, p.data)];
  }

  ghost predicate AllSendable(cfg: Config, ps: seq<Packet>) {
    forall k :: 0 <= k < |ps| ==> Sendable(cfg, ps[k]) && Fits(ps[k])
  }

  lemma FirstFrame(v: Version, ps: seq<Packet>, s: seq<byte>, pos: nat)
    requires ps != [] && pos <= |s| && s[pos..] == Frames(v, ps)
    ensures pos + |FrameOf(v, ps[0])| <= |s|
    ensures s[pos..pos + |FrameOf(v, ps[0])|] == FrameOf(v, ps[0])
    ensures s[pos + |FrameOf(v, ps[0])|..] == Frames(v, ps[1..])
  {
    var f := FrameOf(v, ps[0]);
    assert |s[pos..]| == |s| - pos && |Frames(v, ps)| == |f| + |Frames(v, ps[1..])|;
    assert s[pos..pos + |f|] == s[pos..][..|f|];
    assert s[pos + |f|..] == s[pos..][|f|..];
  }

  lemma ContentsCons(ps: seq<Packet>)
    requires ps != []
    ensures Contents(ps) == [(ps[0].dev, ps[0].data)] + Contents(ps[1..])
  {
  }

  lemma DecodeMore(cfg: Config, v: Version, ps: seq<Packet>, s: seq<byte>, pos: nat, room: nat)
    requires cfg.Ok() && cfg.minPad == 0 && room >= |ps| && ps != [] && Sendable(cfg, ps[0]) && Fits(ps[0])
    requires pos + |FrameOf(v, ps[0])| <= |s| && s[pos..pos + |FrameOf(v, ps[0])|] == FrameOf(v, ps[0])
    requires Receive(cfg, s, pos + |FrameOf(v, ps[0])|, room - 1) == Got(Contents(ps[1..]), Finished)
    ensures Receive(cfg, s, pos, room) == Got(Contents(ps), Finished)
  {
    hide Decode1;
    ContentsCons(ps);
    ReceiveFrame(cfg, v, ps[0], s, pos, room, Contents(ps[1..]));
  }

  lemma DecodeNone(cfg: Config, s: seq<byte>, room: nat)
    requires cfg.Ok()
    ensures Receive(cfg, s, |s|, room) == Got(Contents([]), Finished)
  {
    assert Contents([]) == [];
  }

  /** From `pos` on, `s` is the frames of `ps` one after the other. */
  ghost predicate Carries(v: Version, ps: seq<Packet>, s: seq<byte>, pos: nat)
    decreases |ps|
  {
    if ps == [] then pos == |s|
    else
      var next := pos + |FrameOf(v, ps[0])|;
      next <= |s| && s[pos..next] == FrameOf(v, ps[0]) && Carries(v, ps[1..], s, next)
  }

  lemma {:induction false} FramesCarry(v: Version, ps: seq<Packet>, s: seq<byte>, pos: nat)
    requires pos <= |s| && s[pos..] == Frames(v, ps)
    ensures Carries(v, ps, s, pos)
    decreases |ps|
  {
    if ps == [] {
      assert |s| == |s[pos..]| + pos;
    } else {
      FirstFrame(v, ps, s, pos);
      FramesCarry(v, ps[1..], s, pos + |FrameOf(v, ps[0])|);
    }
  }

  /** Decoding a concatenation of frames gives back exactly the packets, in order. */
  lemma {:induction false} DecodeFrames(cfg: Config, v: Version, ps: seq<Packet>, s: seq<byte>, pos: nat, room: nat)
    requires cfg.Ok() && cfg.minPad == 0 && room >= |ps| && AllSendable(cfg, ps)
    requires pos <= |s| && Carries(v, ps, s, pos)
    ensures Receive(cfg, s, pos, room) == Got(Contents(ps), Finished)
    decreases |ps|
  {
    hide Decode1;
    if ps == [] {
      DecodeNone(cfg, s, room);
    } else {
      DecodeFrames(cfg, v, ps[1..], s, pos + |FrameOf(v, ps[0])|, room - 1);
      DecodeMore(cfg, v, ps, s, pos, room);
    }
  }

  lemma TooLongFails(cfg: Config, v: Version, p: Packet)
    requires cfg.Ok() && cfg.minPad == 0 && Sendable(cfg, p) && !Fits(p)
    ensures Receive(cfg, FrameOf(v, p), 0, 1).list != [(p.dev, p.data)]
  {
    var s := FrameOf(v, p);
    assert s[0..0 + |s|] == s;
    HeaderFields(v, p, s, 0);
    SliceInFrame(cfg, s, 0, 1);
    var t := Decode1(cfg, s, 0, 1);
    if t.Next? && t.out != [] {
      assert Receive(cfg, s, 0, 1).list[0] == (t.out[0].dev, Bytes(s, t.out[0]));
    }
  }

  /** The 16-bit length field is the limit: a single packet survives the round trip exactly
      when the packet and its padding are shorter than 64 KiB. */
  lemma RoundTripIff(cfg: Config, v: Version, p: Packet)
    requires cfg.Ok() && cfg.minPad == 0 && Sendable(cfg, p)
    ensures Receive(cfg, FrameOf(v, p), 0, 1).list == [(p.dev, p.data)] <==> Fits(p)
  {
    if Fits(p) {
      var s := FrameOf(v, p);
      assert [p][1..] == [] && s[0..] == Frames(v, [p]);
      FramesCarry(v, [p], s, 0);
      DecodeFrames(cfg, v, [p], s, 0, 1);
      assert Contents([p]) == [(p.dev, p.data)];
    } else {
      TooLongFails(cfg, v, p);
    }
  }
}
