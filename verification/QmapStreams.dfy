/** QMAP streams as they come over the link (qmi_wwan_q.c, mhi_netdev_quectel.c): good frames mixed with
    frames that are skipped and frames that end the buffer, with the padding the device adds. */
module QmapStreams {
  import opened Octets
  import opened Qmap

  // ---------------------------------------------------------------------------
  // What is on the wire

  predicate Aligns(len: nat, pad: nat) { (len + pad) % 4 == 0 }

  /** Padding goes up to a multiple of four whenever some padding that fits the tailroom does, and
      is never more than that takes. */
  lemma PaddingExact(len: nat, tailroom: nat)
    ensures var p := PadLen(len, tailroom);
            && p <= tailroom && p < 4
            && (Aligns(len, p) || (p == 0 && forall q :: 0 <= q <= tailroom && q < 4 ==> !Aligns(len, q)))
            && forall q :: 0 <= q < p ==> !Aligns(len, q)
  {
    forall q | 0 <= q < 4 ensures Aligns(len, q) <==> q == PadLen(len, 3) { PaddingUnique(len, q); }
  }

  lemma PaddingUnique(len: nat, q: nat)
    requires q < 4
    ensures Aligns(len, q) <==> q == PadLen(len, 3)
  {
    var m, r := len / 4, len % 4;
    assert len + q == 4 * m + (r + q);
  }

  /** With room for three bytes the framed packet is a multiple of four long: over USB v1 together with
      its link-layer header, otherwise by itself. */
  lemma FramesAligned(v: Version, len: nat, ipOffset: nat, tailroom: nat, junk: nat -> byte)
    requires ipOffset <= len && tailroom >= 3
    ensures Aligns(if v == V1 then len else len - ipOffset, |PaddingOf(v, len, ipOffset, tailroom, junk)|)
  {
    var n := if v == V1 then len else len - ipOffset;
    PaddingUnique(n, PadLen(n, tailroom));
  }

  /** The fields of both headers: six bits of padding length, the next-header bit, no command bit, the
      mux id, a big-endian length, and in v5 a checksum header of type 2 with nothing else set. */
  lemma HeaderOnWire(v: Version, mux: byte, pktLen: nat, pad: nat)
    requires pad < 4 && pktLen < 0x10000
    ensures var h := Header(v, mux, pktLen, pad);
            && PadBits(h[0]) == pad && !CdBit(h[0]) && (NextHdrBit(h[0]) <==> v == V5)
            && h[1] == mux && h[2] as int * 256 + h[3] as int == pktLen
            && |h| == HdrLen(v) && (v == V5 ==> h[4] / 2 == 2 && h[4] % 2 == 0 && h[5] == h[6] == h[7] == 0)
  {
  }

  // ---------------------------------------------------------------------------
  // What each frame does

  /** The frame for a registered device is too long for it, or for the rest of the input. */
  predicate Oversized(cfg: Config, s: seq<byte>, pos: nat, dev: nat)
    requires cfg.Ok() && pos + 4 < |s| && dev < |cfg.devs| && cfg.devs[dev].Registered?
  {
    DataLen(cfg, s, pos) > cfg.devs[dev].mtu || PktLen(s, pos) + HdrSize(s, pos) > |s| - pos
  }

  /** The rest of the input is given up: the device number is out of range, or the frame is for a
      registered device and oversized, or it is not IP, or no buffer is left for it. */
  predicate GivesUp(cfg: Config, s: seq<byte>, pos: nat, room: nat)
    requires cfg.Ok() && pos + 4 < |s|
  {
    var dev := MuxIndex(s, pos);
    dev >= cfg.mode
    || (cfg.devs[dev].Registered?
        && (Oversized(cfg, s, pos, dev)
            || (!CdBit(s[pos]) && |s| - pos > HdrSize(s, pos) && (room == 0 || !IsIp(s[pos + HdrSize(s, pos)])))))
  }

  /** The frame is passed over: it is whole, and for an unregistered device or a command. */
  predicate PassedOver(cfg: Config, s: seq<byte>, pos: nat)
    requires cfg.Ok() && pos + 4 < |s|
  {
    var dev := MuxIndex(s, pos);
    && dev < cfg.mode && PktLen(s, pos) + HdrSize(s, pos) <= |s| - pos
    && (cfg.devs[dev].Registered? ==> !Oversized(cfg, s, pos, dev) && CdBit(s[pos]))
  }

  /** A turn leaves the loop exactly at a frame that gives up, and passes over a frame exactly when it
      is whole and for nobody; then the next turn is at the frame behind it. */
  lemma TurnIff(cfg: Config, s: seq<byte>, pos: nat, room: nat)
    requires cfg.Ok() && pos + 4 < |s|
    ensures Decode1(cfg, s, pos, room) == Exit <==> GivesUp(cfg, s, pos, room)
    ensures Decode1(cfg, s, pos, room) == Next(pos + PktLen(s, pos) + HdrSize(s, pos), []) <==> PassedOver(cfg, s, pos)
  {
  }

  /** A frame that is passed over hides nothing: what follows is decoded as if it were not there. */
  lemma PassedOverHidesNothing(cfg: Config, s: seq<byte>, pos: nat, room: nat)
    requires cfg.Ok() && pos + 4 < |s| && PassedOver(cfg, s, pos)
    ensures pos + PktLen(s, pos) + HdrSize(s, pos) <= |s|
    ensures Receive(cfg, s, pos, room) == Receive(cfg, s, pos + PktLen(s, pos) + HdrSize(s, pos), room)
  {
    hide Decode1;
    TurnIff(cfg, s, pos, room);
    assert Datagrams(s, []) == [];
  }

  predicate StartsIp(s: seq<byte>, x: Slice) { x.from < |s| && IsIp(s[x.from]) }

  predicate AllIp(s: seq<byte>, out: seq<Slice>) { forall k :: 0 <= k < |out| ==> StartsIp(s, out[k]) }

  /** Every delivered datagram starts with an IP version. */
  lemma {:induction false} DeliveredAreIp(cfg: Config, s: seq<byte>, pos: nat, room: nat)
    requires cfg.Ok() && pos <= |s|
    ensures AllIp(s, Decode(cfg, s, pos, room).out)
    decreases |s| - pos
  {
    hide Decode1;
    if |s| - pos > 4 {
      var t := Decode1(cfg, s, pos, room);
      TurnIsIp(cfg, s, pos, room);
      if t.Next? && t.pos != pos {
        DeliveredAreIp(cfg, s, t.pos, room - |t.out|);
        var rest, out := Decode(cfg, s, t.pos, room - |t.out|).out, Decode(cfg, s, pos, room).out;
        assert out == t.out + rest;
      }
    }
  }

  lemma TurnIsIp(cfg: Config, s: seq<byte>, pos: nat, room: nat)
    requires cfg.Ok() && pos + 4 < |s|
    ensures var t := Decode1(cfg, s, pos, room);
            t.Next? && t.out != [] ==> |t.out| == 1 && StartsIp(s, t.out[0])
  {
  }

  // ---------------------------------------------------------------------------
  // Good frames in front of anything

  /** From `pos` to `end` the input is the frames of `ps`, one after the other. */
  ghost predicate CarriesTo(v: Version, ps: seq<Packet>, s: seq<byte>, pos: nat, end: nat)
    decreases |ps|
  {
    if ps == [] then pos == end <= |s|
    else
      var next := pos + |FrameOf(v, ps[0])|;
      next <= |s| && s[pos..next] == FrameOf(v, ps[0]) && CarriesTo(v, ps[1..], s, next, end)
  }

  lemma OneGoodFrame(cfg: Config, v: Version, p: Packet, s: seq<byte>, pos: nat, room: nat)
    requires cfg.Ok() && cfg.minPad == 0 && Sendable(cfg, p) && Fits(p) && room > 0
    requires pos + |FrameOf(v, p)| <= |s| && s[pos..pos + |FrameOf(v, p)|] == FrameOf(v, p)
    ensures var rest := Receive(cfg, s, pos + |FrameOf(v, p)|, room - 1);
            Receive(cfg, s, pos, room) == Got([(p.dev, p.data)] + rest.list, rest.end)
  {
    hide Decode1;
    FrameDecodes(cfg, v, p, s, pos, room);
    HeaderFields(v, p, s, pos);
    assert Datagrams(s, [Slice(p.dev, pos + HdrLen(v), |p.data|)]) == [(p.dev, p.data)];
  }

  lemma ContentsThen(ps: seq<Packet>, rest: seq<(nat, seq<byte>)>)
    requires ps != []
    ensures [(ps[0].dev, ps[0].data)] + (Contents(ps[1..]) + rest) == Contents(ps) + rest
  {
    ContentsCons(ps);
  }

  lemma NoContents(ps: seq<Packet>, rest: seq<(nat, seq<byte>)>)
    requires ps == []
    ensures Contents(ps) + rest == rest
  {
  }

  /** Good frames are delivered in order whatever follows them, and what follows is decoded by itself. */
  lemma {:induction false} GoodPrefix(cfg: Config, v: Version, ps: seq<Packet>, s: seq<byte>, pos: nat, end: nat,
                                      room: nat)
    requires cfg.Ok() && cfg.minPad == 0 && room >= |ps| && AllSendable(cfg, ps) && CarriesTo(v, ps, s, pos, end)
    ensures pos <= end <= |s|
    ensures var rest := Receive(cfg, s, end, room - |ps|);
            Receive(cfg, s, pos, room) == Got(Contents(ps) + rest.list, rest.end)
    decreases |ps|
  {
    hide Receive, FrameOf, Contents, Sendable, Fits;
    if ps == [] {
      NoContents(ps, Receive(cfg, s, end, room).list);
    } else {
      var next := pos + |FrameOf(v, ps[0])|;
      GoodPrefix(cfg, v, ps[1..], s, next, end, room - 1);
      OneGoodFrame(cfg, v, ps[0], s, pos, room);
      ContentsThen(ps, Receive(cfg, s, end, room - |ps|).list);
    }
  }

  /** A bad frame costs everything behind it and nothing before it. */
  lemma BadFrameEnds(cfg: Config, v: Version, ps: seq<Packet>, s: seq<byte>, end: nat, room: nat)
    requires cfg.Ok() && cfg.minPad == 0 && room >= |ps| && AllSendable(cfg, ps) && CarriesTo(v, ps, s, 0, end)
    requires |s| - end > 4 ==> GivesUp(cfg, s, end, room - |ps|)
    ensures Receive(cfg, s, 0, room) == Got(Contents(ps), Finished)
  {
    hide Decode1, GivesUp;
    GoodPrefix(cfg, v, ps, s, 0, end, room);
    if |s| - end > 4 { TurnIff(cfg, s, end, room - |ps|); }
    assert Contents(ps) + [] == Contents(ps);
  }

  // ---------------------------------------------------------------------------
  // Frames of a device that pads more than it says

  /** At `pos` lies a frame with `data` for `dev` that is followed by `pad` bytes of declared and
      `minPad` bytes of agreed padding. */
  ghost predicate DownFrame(v: Version, s: seq<byte>, pos: nat, dev: nat, data: seq<byte>, pad: nat, minPad: nat) {
    && pos + HdrLen(v) + |data| + pad + minPad <= |s| && pad < 64 && MUX_BASE + dev < 256
    && s[pos] == (if v == V5 then 0x40 + pad else pad) && s[pos + 1] == MUX_BASE + dev
    && s[pos + 2] as int * 256 + s[pos + 3] as int == |data| + pad + minPad
    && s[pos + HdrLen(v)..pos + HdrLen(v) + |data|] == data
  }

  /** The agreed minimum padding (dl_minimum_padding) comes off like the declared one: the device gets
      exactly the datagram, and the next frame starts behind all of the padding. */
  lemma DownlinkDecodes(cfg: Config, v: Version, s: seq<byte>, pos: nat, dev: nat, data: seq<byte>, pad: nat, room: nat)
    requires cfg.Ok() && dev < cfg.mode && cfg.devs[dev].Registered? && |data| <= cfg.devs[dev].mtu && room > 0
    requires data != [] && IsIp(data[0]) && DownFrame(v, s, pos, dev, data, pad, cfg.minPad)
    ensures var next := pos + HdrLen(v) + |data| + pad + cfg.minPad;
            Receive(cfg, s, pos, room) ==
              Got([(dev, data)] + Receive(cfg, s, next, room - 1).list, Receive(cfg, s, next, room - 1).end)
  {
    hide Decode1;
    TurnDown(cfg, v, s, pos, dev, data, pad, room);
    assert Datagrams(s, [Slice(dev, pos + HdrLen(v), |data|)]) == [(dev, data)];
  }

  lemma TurnDown(cfg: Config, v: Version, s: seq<byte>, pos: nat, dev: nat, data: seq<byte>, pad: nat, room: nat)
    requires cfg.Ok() && dev < cfg.mode && cfg.devs[dev].Registered? && |data| <= cfg.devs[dev].mtu && room > 0
    requires data != [] && IsIp(data[0]) && DownFrame(v, s, pos, dev, data, pad, cfg.minPad)
    ensures Decode1(cfg, s, pos, room) ==
              Next(pos + HdrLen(v) + |data| + pad + cfg.minPad, [Slice(dev, pos + HdrLen(v), |data|)])
  {
    assert s[pos + HdrLen(v)] == s[pos + HdrLen(v)..pos + HdrLen(v) + |data|][0];
  }
}
