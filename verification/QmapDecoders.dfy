/** The two QMAP receive loops: qmap_packet_decode over USB and rmnet_qmi_rx_handler over PCIe.
    Both consume the buffer from the front and are proved to deliver the same list. */
module QmapDecoders {
  import opened Octets
  import opened Qmap

  function Abs(x: int): nat { if x < 0 then -x else x }

  /** skb_pull */
  function Pulled(skb: seq<byte>, n: nat): seq<byte> { if n <= |skb| then skb[n..] else skb }

  // ---------------------------------------------------------------------------
  // A turn depends only on what is left of the buffer

  function Shifted(out: seq<Slice>, shift: nat): (r: seq<Slice>)
    ensures |r| == |out|
  {
    seq(|out|, k requires 0 <= k < |out| => out[k].(from := out[k].from + shift))
  }

  lemma TurnShift(cfg: Config, s: seq<byte>, pos: nat, room: nat)
    requires cfg.Ok() && pos + 4 < |s|
    ensures match Decode1(cfg, s[pos..], 0, room)
            case Next(p, out) => Decode1(cfg, s, pos, room) == Next(pos + p, Shifted(out, pos))
            case t => Decode1(cfg, s, pos, room) == t
  {
    var u := s[pos..];
    assert u[0] == s[pos] && u[1] == s[pos + 1] && u[2] == s[pos + 2] && u[3] == s[pos + 3];
    var hdr := HdrSize(s, pos);
    assert pos + hdr < |s| ==> u[hdr] == s[pos + hdr];
    match Decode1(cfg, u, 0, room)
    case Next(p, out) =>
      if out != [] { assert Shifted(out, pos) == [out[0].(from := out[0].from + pos)]; }
      else { assert Shifted(out, pos) == []; }
    case _ =>
  }

  lemma DatagramsShift(s: seq<byte>, pos: nat, out: seq<Slice>)
    requires pos <= |s| && forall k :: 0 <= k < |out| ==> out[k].from + out[k].len <= |s| - pos
    ensures Datagrams(s, Shifted(out, pos)) == Datagrams(s[pos..], out)
  {
    forall k | 0 <= k < |out| ensures Bytes(s, Shifted(out, pos)[k]) == Bytes(s[pos..], out[k]) {
      assert s[pos..][out[k].from..out[k].from + out[k].len] == s[pos + out[k].from..pos + out[k].from + out[k].len];
    }
  }

  /** The frame at `pos` is a command that the loop passes. */
  predicate IsCommand(cfg: Config, s: seq<byte>, pos: nat)
    requires cfg.Ok() && pos + 4 < |s|
  {
    var mux := MuxIndex(s, pos);
    && mux < cfg.mode && cfg.devs[mux].Registered? && DataLen(cfg, s, pos) <= cfg.devs[mux].mtu
    && PktLen(s, pos) + HdrSize(s, pos) <= |s| - pos && CdBit(s[pos])
  }

  lemma CommandShift(cfg: Config, s: seq<byte>, pos: nat)
    requires cfg.Ok() && pos + 4 < |s|
    ensures IsCommand(cfg, s[pos..], 0) == IsCommand(cfg, s, pos)
  {
    var u := s[pos..];
    assert u[0] == s[pos] && u[1] == s[pos + 1] && u[2] == s[pos + 2] && u[3] == s[pos + 3];
  }

  /** The command frames that the loop passes from `pos` on. */
  function CommandsFrom(cfg: Config, s: seq<byte>, pos: nat, room: nat): nat
    requires cfg.Ok() && pos <= |s|
    decreases |s| - pos
  {
    if |s| - pos <= 4 then 0
    else match Decode1(cfg, s, pos, room)
      case Next(p, out) =>
        if p == pos then 0
        else (if IsCommand(cfg, s, pos) then 1 else 0) + CommandsFrom(cfg, s, p, room - |out|)
      case _ => 0
  }

  lemma NoneLeft(cfg: Config, s: seq<byte>, pos: nat, room: nat)
    requires cfg.Ok() && pos <= |s| <= pos + 4
    ensures CommandsFrom(cfg, s, pos, room) == 0
  {
  }

  /** One turn of the count, on the buffer that is left. */
  lemma CountTurn(cfg: Config, s: seq<byte>, pos: nat, room: nat)
    requires cfg.Ok() && pos + 4 < |s|
    ensures var t, here := Decode1(cfg, s[pos..], 0, room), if IsCommand(cfg, s[pos..], 0) then 1 else 0;
            if t.Next? && t.pos != 0
            then CommandsFrom(cfg, s, pos, room) == here + CommandsFrom(cfg, s, pos + t.pos, room - |t.out|)
            else CommandsFrom(cfg, s, pos, room) == here == 0
  {
    hide Decode1, IsCommand;
    CommandShift(cfg, s, pos);
    TurnShift(cfg, s, pos, room);
    if IsCommand(cfg, s[pos..], 0) { CommandGoes(cfg, s[pos..], room); }
  }

  /** A command frame is left behind. */
  lemma CommandGoes(cfg: Config, s: seq<byte>, room: nat)
    requires cfg.Ok() && 4 < |s| && IsCommand(cfg, s, 0)
    ensures Decode1(cfg, s, 0, room).Next? && Decode1(cfg, s, 0, room).pos > 0
  {
  }

  /** What the loop will have delivered, when it stands at `pos` with `chain`. */
  ghost function Whole(cfg: Config, s: seq<byte>, pos: nat, left: nat, chain: seq<(nat, seq<byte>)>): Got
    requires cfg.Ok() && pos <= |s|
  {
    var rest := Receive(cfg, s, pos, left);
    Got(chain + rest.list, rest.end)
  }

  lemma WholeStart(cfg: Config, s: seq<byte>, room: nat)
    requires cfg.Ok()
    ensures Whole(cfg, s, 0, room, []) == Receive(cfg, s, 0, room)
  {
  }

  lemma WholeNext(cfg: Config, s: seq<byte>, pos: nat, left: nat, p: nat, out: seq<Slice>,
                 chain: seq<(nat, seq<byte>)>, total: Got)
    requires cfg.Ok() && pos + 4 < |s| && Decode1(cfg, s, pos, left) == Next(p, out) && p != pos
    requires Whole(cfg, s, pos, left, chain) == total
    ensures Whole(cfg, s, p, left - |out|, chain + Datagrams(s, out)) == total
  {
    hide Decode1;
    var rest := Receive(cfg, s, p, left - |out|);
    assert chain + (Datagrams(s, out) + rest.list) == chain + Datagrams(s, out) + rest.list;
  }

  /** The same with the decoded part pulled off the front. */
  lemma ChainGrows(cfg: Config, s: seq<byte>, pos: nat, left: nat, skb: seq<byte>, n: nat, out: seq<Slice>,
                   chain: seq<(nat, seq<byte>)>, more: seq<(nat, seq<byte>)>, total: Got)
    requires cfg.Ok() && pos + 4 < |s| && skb == s[pos..] && Decode1(cfg, skb, 0, left) == Next(n, out) && n != 0
    requires Whole(cfg, s, pos, left, chain) == total && more == chain + Datagrams(skb, out)
    ensures pos + n <= |s| && Whole(cfg, s, pos + n, left - |out|, more) == total && Pulled(skb, n) == s[pos + n..]
  {
    hide Decode1, Receive, Whole;
    TurnShift(cfg, s, pos, left);
    WholeNext(cfg, s, pos, left, pos + n, Shifted(out, pos), chain, total);
    SliceInFrame(cfg, skb, 0, left);
    DatagramsShift(s, pos, out);
  }

  lemma ChainEnds(cfg: Config, s: seq<byte>, pos: nat, left: nat, chain: seq<(nat, seq<byte>)>, total: Got, end: End)
    requires cfg.Ok() && pos <= |s| && Whole(cfg, s, pos, left, chain) == total
    requires |s| - pos > 4 ==> match Decode1(cfg, s[pos..], 0, left)
                               case Exit => end == Finished
                               case ReadPastEnd => end == PastEnd
                               case Next(n, _) => n == 0 && end == Hangs
    requires |s| - pos <= 4 ==> end == Finished
    ensures Got(chain, end) == total
  {
    if |s| - pos > 4 { TurnShift(cfg, s, pos, left); }
  }

  // ---------------------------------------------------------------------------
  // The two loops

  datatype Option = None | Some(value: End)

  /** One turn of qmap_packet_decode on the buffer that is left, in its signed arithmetic. */
  method UsbTurn(cfg: Config, skb: seq<byte>, room: nat) returns (t: Turn)
    requires cfg.Ok() && |skb| > 4
    ensures t == Decode1(cfg, skb, 0, room)
  {
    var hdrSize := 4;
    var pktLen: int := skb[2] as int * 256 + skb[3] as int;
    if (skb[0] / 64) % 2 == 1 { hdrSize := hdrSize + 4; }
    var skbLen: int := pktLen - skb[0] % 64;
    skbLen := skbLen - cfg.minPad;
    var muxId: int := skb[1] - MUX_BASE;
    if AsUnsigned(muxId) >= cfg.mode { return Exit; }
    if cfg.devs[muxId].Registered? {
      if AsUnsigned(skbLen) > cfg.devs[muxId].mtu { return Exit; }
      if |skb| < pktLen + hdrSize { return Exit; }
      if skb[0] / 128 != 1 {
        if |skb| == hdrSize { return ReadPastEnd; }
        var nibble := skb[hdrSize] / 16;
        if nibble != 4 && nibble != 6 { return Exit; }
        if room == 0 { return Exit; }
        return Next(pktLen + hdrSize, [Slice(muxId, hdrSize, skbLen)]);
      }
    }
    t := Next(|skb| - |Pulled(skb, pktLen + hdrSize)|, []);
  }

  /** One turn of rmnet_qmi_rx_handler, which takes the absolute value of the mux index after
      the unsigned test; flow-control commands are noted and skipped. */
  method PcieTurn(cfg: Config, skb: seq<byte>, room: nat) returns (t: Turn, command: bool)
    requires cfg.Ok() && |skb| > 4
    ensures t == Decode1(cfg, skb, 0, room)
    ensures command == IsCommand(cfg, skb, 0)
  {
    var hdrSize := 4;
    command := false;
    var pktLen: int := skb[2] as int * 256 + skb[3] as int;
    if (skb[0] / 64) % 2 == 1 { hdrSize := hdrSize + 4; }
    var skbLen: int := pktLen - skb[0] % 64;
    skbLen := skbLen - cfg.minPad;
    var muxId: int := skb[1] - MUX_BASE;
    if AsUnsigned(muxId) >= cfg.mode { return Exit, false; }
    var mux := Abs(muxId);
    if cfg.devs[mux] == Unregistered {
      return Next(|skb| - |Pulled(skb, pktLen + hdrSize)|, []), false;
    }
    if AsUnsigned(skbLen) > cfg.devs[mux].mtu { return Exit, false; }
    if |skb| < pktLen + hdrSize { return Exit, false; }
    if skb[0] / 128 == 1 {
      return Next(|skb| - |Pulled(skb, pktLen + hdrSize)|, []), true;
    }
    if |skb| == hdrSize { return ReadPastEnd, false; }
    var nibble := skb[hdrSize] / 16;
    if nibble != 4 && nibble != 6 { return Exit, false; }
    if room == 0 { return Exit, false; }
    return Next(pktLen + hdrSize, [Slice(mux, hdrSize, skbLen)]), false;
  }

  /** The datagram of a turn, as it is copied out of the buffer. */
  method CopyOut(cfg: Config, skb: seq<byte>, room: nat, n: nat, out: seq<Slice>) returns (d: seq<(nat, seq<byte>)>)
    requires cfg.Ok() && 4 < |skb| && Decode1(cfg, skb, 0, room) == Next(n, out)
    ensures d == Datagrams(skb, out)
  {
    if out == [] { return []; }
    SliceInFrame(cfg, skb, 0, room);
    d := [(out[0].dev, skb[out[0].from..out[0].from + out[0].len])];
  }

  /** The body of qmap_packet_decode's loop: the packet joins the chain and the frame is pulled.
      A turn that leaves the buffer as it was would repeat for ever; the model stops and says so. */
  method UsbStep(cfg: Config, ghost input: seq<byte>, ghost pos: nat, skb: seq<byte>, left: nat,
                 chain: seq<(nat, seq<byte>)>, ghost total: Got)
    returns (end: Option, chain': seq<(nat, seq<byte>)>, skb': seq<byte>, left': nat, ghost pos': nat)
    requires cfg.Ok() && pos + 4 < |input| && skb == input[pos..] && Whole(cfg, input, pos, left, chain) == total
    ensures end.Some? ==> Got(chain', end.value) == total
    ensures end.None? ==> pos < pos' <= |input| && skb' == input[pos'..]
    ensures end.None? ==> Whole(cfg, input, pos', left', chain') == total
  {
    hide Decode1, Receive, Whole;
    chain', skb', left', pos' := chain, skb, left, pos;
    var t := UsbTurn(cfg, skb, left);
    match t {
      case Exit => end := Some(Finished);
      case ReadPastEnd => end := Some(PastEnd);
      case Next(p, out) =>
        if p == 0 { end := Some(Hangs); }
        else {
          var d := CopyOut(cfg, skb, left, p, out);
          chain', skb', left', pos', end := chain + d, Pulled(skb, p), left - |out|, pos + p, None;
          ChainGrows(cfg, input, pos, left, skb, p, out, chain, chain', total);
        }
    }
    if end.Some? { ChainEnds(cfg, input, pos, left, chain, total, end.value); }
  }

  /** qmap_packet_decode. */
  method UsbDecode(cfg: Config, input: seq<byte>, room: nat)
    returns (chain: seq<(nat, seq<byte>)>, end: End)
    requires cfg.Ok()
    ensures Got(chain, end) == Receive(cfg, input, 0, room)
  {
    hide *;
    var skb, left: nat := input, room;
    ghost var pos: nat := 0;
    ghost var total := Receive(cfg, input, 0, room);
    WholeStart(cfg, input, room);
    chain := [];
    while |skb| > 4
      invariant pos <= |input| && skb == input[pos..] && Whole(cfg, input, pos, left, chain) == total
      decreases |input| - pos
    {
      var e;
      e, chain, skb, left, pos := UsbStep(cfg, input, pos, skb, left, chain, total);
      if e.Some? { return chain, e.value; }
    }
    end := Finished;
    ChainEnds(cfg, input, pos, left, chain, total, end);
  }

  /** The body of rmnet_qmi_rx_handler's loop. */
  method PcieStep(cfg: Config, ghost input: seq<byte>, ghost pos: nat, skb: seq<byte>, left: nat,
                  chain: seq<(nat, seq<byte>)>, ghost total: Got)
    returns (end: Option, chain': seq<(nat, seq<byte>)>, skb': seq<byte>, left': nat, ghost pos': nat, command: bool)
    requires cfg.Ok() && pos + 4 < |input| && skb == input[pos..] && Whole(cfg, input, pos, left, chain) == total
    ensures end.Some? ==> Got(chain', end.value) == total
    ensures end.None? ==> pos < pos' <= |input| && skb' == input[pos'..]
    ensures end.None? ==> Whole(cfg, input, pos', left', chain') == total
    ensures CommandsFrom(cfg, input, pos, left) ==
              (if command then 1 else 0) + (if end.None? then CommandsFrom(cfg, input, pos', left') else 0)
  {
    hide Decode1, Receive, Whole, IsCommand, CommandsFrom;
    CountTurn(cfg, input, pos, left);
    chain', skb', left', pos' := chain, skb, left, pos;
    var t;
    t, command := PcieTurn(cfg, skb, left);
    match t {
      case Exit => end := Some(Finished);
      case ReadPastEnd => end := Some(PastEnd);
      case Next(p, out) =>
        if p == 0 { end := Some(Hangs); }
        else {
          var d := CopyOut(cfg, skb, left, p, out);
          chain', skb', left', pos', end := chain + d, Pulled(skb, p), left - |out|, pos + p, None;
          ChainGrows(cfg, input, pos, left, skb, p, out, chain, chain', total);
        }
    }
    if end.Some? { ChainEnds(cfg, input, pos, left, chain, total, end.value); }
  }

  /** rmnet_qmi_rx_handler: the same list as over USB, whatever commands are mixed in; each of
      those is noted once. */
  method PcieDecode(cfg: Config, input: seq<byte>, room: nat)
    returns (chain: seq<(nat, seq<byte>)>, end: End, commands: nat)
    requires cfg.Ok()
    ensures Got(chain, end) == Receive(cfg, input, 0, room) && commands == CommandsFrom(cfg, input, 0, room)
  {
    hide *;
    var skb, left: nat := input, room;
    ghost var pos: nat := 0;
    ghost var total := Receive(cfg, input, 0, room);
    WholeStart(cfg, input, room);
    chain, commands := [], 0;
    while |skb| > 4
      invariant pos <= |input| && skb == input[pos..] && Whole(cfg, input, pos, left, chain) == total
      invariant commands + CommandsFrom(cfg, input, pos, left) == CommandsFrom(cfg, input, 0, room)
      decreases |input| - pos
    {
      var e, command;
      e, chain, skb, left, pos, command := PcieStep(cfg, input, pos, skb, left, chain, total);
      if command { commands := commands + 1; }
      if e.Some? { return chain, e.value, commands; }
    }
    end := Finished;
    NoneLeft(cfg, input, pos, left);
    ChainEnds(cfg, input, pos, left, chain, total, end);
  }
}
