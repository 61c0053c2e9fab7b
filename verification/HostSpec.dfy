/** The MHI host as a machine over values (mhi_main.c, mhi_pm.c, mhi_init.c).

    A channel is the bounded queue of its outstanding transfers plus the doorbell state. The
    classes of module Host refine these functions with byte pointers and in-place rings; the
    runs of module HostRuns are built from them. */
module HostSpec {
  import opened Rings
  import opened PowerStates

  const TRE_SIZE: nat := 16

  /** A transfer ring element as the device reads it. */
  datatype Tre = Tre(ptr: nat, dword0: nat, dword1: nat)

  /** The shadow record of a queued buffer (struct mhi_buf_info). */
  datatype BufInfo = BufInfo(cbBuf: nat, pAddr: nat, len: nat, preMapped: bool)

  datatype Item = Item(tre: Tre, info: BufInfo)

  /** enum MHI_FLAGS: the three values are 0, 1 and 2, so testing `flags & MHI_EOB` is never true. */
  datatype Flags = Eob | Eot | Chain

  /** The outcome of map_single, chosen by the DMA layer. */
  datatype Mapping = Mapped(addr: nat) | MapFailed(error: int)

  datatype Kind = SkbQueue | BufQueue | DmaQueue

  datatype Request = Request(kind: Kind, buf: nat, len: nat, flags: Flags, mapping: Mapping)

  /** -ENOMEM, -EIO or the error of the mapping. */
  datatype QueueResult = Queued | NoMem | Io | MapError(error: int)

  datatype Status = Success | Overflow | NotConn

  /** struct mhi_result as the client sees it. */
  datatype Result = Result(buf: nat, status: Status, bytes: nat)

  datatype Config = Config(elements: nat, iommu: nat, uplink: bool, burst: bool, resetReq: bool, intmod: bool)

  /** A start or reset command in flight. Its sender holds the channel's mutex, and a runtime-PM
      vote: a reset is not sent, and no vote taken, in an error state. */
  datatype Command = NoCommand | Starting | Stopping(voted: bool)

  /** How a command ends: it cannot be sent, is not answered in time, is refused, or succeeds. */
  datatype Answer = SendFailed | TimedOut | Refused | Confirmed

  /** One channel. `rp` is the slot of the oldest outstanding transfer. `accepted` and
      `returned` log every buffer taken by a queue call and every buffer handed back, over
      the whole life of the channel; `origin` is the length of the log at the last start.
      `doorbells` logs every value written to its doorbell register.
      `enabled` is ch_state; a channel that is being stopped is no longer enabled but still started. */
  datatype Chan = Chan(cfg: Config, started: bool, enabled: bool, cmd: Command, rp: nat, out: seq<Item>,
                       ctxtWp: nat, dbMode: bool, dbVal: nat, doorbells: seq<nat>,
                       accepted: seq<nat>, returned: seq<Result>, origin: nat)

  datatype Host = Host(pm: Pm, chans: seq<Chan>, pending: int, votes: int)

  /** A queue call made by client code from inside a completion callback. */
  datatype Call = Call(chan: nat, req: Request)

  /** What clients do when channel `c` hands back its k-th buffer: any list of queue calls. */
  type Client = (nat, nat) -> seq<Call>

  // ---------------------------------------------------------------------------
  // Transfer ring elements

  function Flag(b: bool, weight: nat): nat { if b then weight else 0 }

  /** MHI_TRE_DATA_DWORD1 */
  function DataDword1(bei: bool, eot: bool, eob: bool, chain: bool): nat {
    0x20000 + Flag(bei, 0x400) + Flag(eot, 0x200) + Flag(eob, 0x100) + Flag(chain, 1)
  }

  /** The interrupt-on-end-of-transfer bit. */
  predicate HasEot(t: Tre) { (t.dword1 / 0x200) % 2 == 1 }

  function MakeItem(cfg: Config, r: Request): Item {
    var addr := if r.mapping.Mapped? then r.mapping.addr else 0;
    var dword1 := if r.kind == BufQueue
                  then DataDword1(cfg.intmod, r.flags == Eot, false, r.flags == Chain)
                  else DataDword1(true, true, false, false);
    Item(Tre(addr, r.len % 0x10000, dword1), BufInfo(r.buf, addr, r.len, r.kind == DmaQueue))
  }

  lemma EotBit(cfg: Config, r: Request)
    ensures HasEot(MakeItem(cfg, r).tre) <==> (r.kind == BufQueue ==> r.flags == Eot)
  {
  }

  /** What the device reads back from a generated element: where the buffer is, how long, and
      which of the three flags it carries. */
  lemma DeviceReads(cfg: Config, r: Request)
    requires r.mapping.Mapped?
    ensures var t := MakeItem(cfg, r).tre;
            && t.ptr == r.mapping.addr && t.dword0 == r.len % 0x10000 && (t.dword1 / 0x10000) % 0x100 == 2
            && (t.dword1 % 2 == 1 <==> r.kind == BufQueue && r.flags == Chain)
            && (t.dword1 / 0x100) % 2 == 0
            && ((t.dword1 / 0x400) % 2 == 1 <==> (r.kind == BufQueue ==> cfg.intmod))
  {
  }

  // ---------------------------------------------------------------------------
  // Channels

  predicate ChanOk(c: Chan) {
    c.rp < c.cfg.elements && |c.out| < c.cfg.elements
  }

  /** Physical address of a slot. */
  function Phys(cfg: Config, slot: nat): nat { cfg.iommu + slot * TRE_SIZE }

  /** Slot under the write pointer. */
  function WpSlot(c: Chan): (s: nat)
    requires ChanOk(c)
    ensures s < c.cfg.elements
  {
    Wrap(c.rp + |c.out|, c.cfg.elements)
  }

  /** mhi_ring_chan_db with mhi_db_brstmode or mhi_db_brstmode_disable. */
  function RingDb(c: Chan): Chan
    requires ChanOk(c)
  {
    var db := Phys(c.cfg, WpSlot(c));
    var c1 := c.(ctxtWp := db);
    if !c.cfg.burst then c1.(dbVal := db, doorbells := c.doorbells + [db])
    else if c.dbMode then c1.(dbVal := db, doorbells := c.doorbells + [db], dbMode := false)
    else c1
  }

  function Push(c: Chan, r: Request): Chan
    requires ChanOk(c)
  {
    c.(out := c.out + [MakeItem(c.cfg, r)], accepted := c.accepted + [r.buf])
  }

  function Pop(c: Chan, status: Status, bytes: nat): Chan
    requires ChanOk(c) && c.out != []
  {
    c.(rp := Wrap(c.rp + 1, c.cfg.elements), out := c.out[1..],
       returned := c.returned + [Result(c.out[0].info.cbBuf, status, bytes)])
  }

  predicate HostOk(h: Host) { forall i :: 0 <= i < |h.chans| ==> ChanOk(h.chans[i]) }

  function Set(h: Host, i: nat, c: Chan): Host
    requires i < |h.chans|
  {
    h.(chans := h.chans[i := c])
  }

  /** pending_pkts and the runtime-PM vote when an uplink transfer is added. */
  function PendInc(h: Host, uplink: bool): Host {
    if !uplink then h
    else h.(pending := h.pending + 1, votes := h.votes + if h.pending + 1 == 1 then 1 else 0)
  }

  /** ... and when one is taken off. */
  function PendDec(h: Host, uplink: bool): Host {
    if !uplink then h
    else h.(pending := h.pending - 1, votes := h.votes - if h.pending - 1 == 0 then 1 else 0)
  }

  // ---------------------------------------------------------------------------
  // Queueing: mhi_queue_skb, mhi_queue_dma, mhi_queue_buf

  /** The checks of a queue call. They come in a different order in mhi_queue_buf. */
  function Admission(pm: Pm, c: Chan, r: Request): QueueResult {
    var full := |c.out| + 1 >= c.cfg.elements;
    if r.kind == BufQueue && InError(pm) then Io
    else if full then NoMem
    else if InError(pm) then Io
    else if r.kind != DmaQueue && r.mapping.MapFailed? then MapError(r.mapping.error)
    else Queued
  }

  /** The channel after an admitted call: the doorbell is rung when that is legal. */
  function Enqueued(pm: Pm, c: Chan, r: Request): Chan
    requires ChanOk(c) && |c.out| + 1 < c.cfg.elements
  {
    if DbValid(pm) then RingDb(Push(c, r)) else Push(c, r)
  }

  function QueueReturn(h: Host, i: nat, r: Request): QueueResult
    requires i < |h.chans|
  {
    Admission(h.pm, h.chans[i], r)
  }

  function Queue(h: Host, i: nat, r: Request): (h': Host)
    requires HostOk(h) && i < |h.chans|
    ensures Grew(h, h')
  {
    var c := h.chans[i];
    if QueueReturn(h, i, r) != Queued then h
    else PendInc(Set(h, i, Enqueued(h.pm, c, r)), c.cfg.uplink)
  }

  /** Queue calls only add at the tail: nothing is handed back and nothing moves. */
  ghost predicate Grew(h: Host, h': Host) {
    && h'.pm == h.pm && |h'.chans| == |h.chans| && HostOk(h')
    && forall i :: 0 <= i < |h.chans| ==> ChanGrew(h.chans[i], h'.chans[i])
  }

  ghost predicate ChanGrew(c: Chan, c': Chan) {
    && c'.cfg == c.cfg && c'.started == c.started && c'.enabled == c.enabled && c'.cmd == c.cmd && c'.rp == c.rp
    && c'.returned == c.returned && c'.origin == c.origin && c.out <= c'.out && c.accepted <= c'.accepted
  }

  /** The queue calls a callback makes, in order. */
  function QueueAll(h: Host, calls: seq<Call>): (h': Host)
    requires HostOk(h) && forall k :: 0 <= k < |calls| ==> calls[k].chan < |h.chans|
    ensures Grew(h, h')
    decreases |calls|
  {
    if calls == [] then h
    else QueueAll(Queue(h, calls[0].chan, calls[0].req), calls[1..])
  }

  // ---------------------------------------------------------------------------
  // Completions: parse_xfer_event

  /** Clients queue only on channels that are started. */
  ghost predicate ClientOk(h: Host, client: Client) {
    forall i: nat, k: nat, m :: 0 <= m < |client(i, k)| ==>
      client(i, k)[m].chan < |h.chans| && h.chans[client(i, k)[m].chan].started
  }

  /** Hand back the `count` oldest transfers of channel `i`. The callback of each runs before
      the pending count is lowered and may queue again on any started channel. */
  ghost function Complete(h: Host, i: nat, count: nat, status: Status, bytes: nat, client: Client): (h': Host)
    requires HostOk(h) && i < |h.chans| && count <= |h.chans[i].out| && ClientOk(h, client)
    ensures HostOk(h') && |h'.chans| == |h.chans| && h'.pm == h.pm
    decreases count
  {
    if count == 0 then h else
    Complete(CompleteOne(h, i, status, bytes, client), i, count - 1, status, bytes, client)
  }

  ghost function CompleteOne(h: Host, i: nat, status: Status, bytes: nat, client: Client): (h': Host)
    requires HostOk(h) && i < |h.chans| && h.chans[i].out != [] && ClientOk(h, client)
    ensures HostOk(h') && |h'.chans| == |h.chans| && h'.pm == h.pm && ClientOk(h', client)
    ensures forall j :: 0 <= j < |h.chans| ==>
      h'.chans[j].started == h.chans[j].started && h'.chans[j].cfg == h.chans[j].cfg
    ensures Pop(h.chans[i], status, bytes).out <= h'.chans[i].out
    ensures h'.chans[i].rp == Wrap(h.chans[i].rp + 1, h.chans[i].cfg.elements)
  {
    var h1 := Set(h, i, Pop(h.chans[i], status, bytes));
    var h2 := QueueAll(h1, client(i, |h1.chans[i].returned|));
    PendDec(h2, h.chans[i].cfg.uplink)
  }

  datatype Code = EotCode | EobCode | OverflowCode | OobCode | DbModeCode | OtherCode

  /** How many transfers an event that points at `ptr` completes: up to and including that
      slot, counted from the read pointer round the ring. */
  function CompletionCount(c: Chan, ptr: nat): (n: nat)
    requires ChanOk(c) && NamesSlot(c, ptr)
  {
    var slot := (ptr - c.cfg.iommu) / TRE_SIZE;
    Distance(c.rp, Wrap(slot + 1, c.cfg.elements), c.cfg.elements)
  }

  predicate NamesSlot(c: Chan, ptr: nat) {
    && c.cfg.iommu <= ptr
    && (ptr - c.cfg.iommu) % TRE_SIZE == 0
    && (ptr - c.cfg.iommu) / TRE_SIZE < c.cfg.elements
  }

  /** The device's side of the contract: a completion points at an outstanding element. */
  predicate NamesOutstanding(c: Chan, ptr: nat)
    requires ChanOk(c)
  {
    NamesSlot(c, ptr) && 1 <= CompletionCount(c, ptr) <= |c.out|
  }

  predicate IsCompletion(code: Code) { code == EotCode || code == EobCode || code == OverflowCode }

  function StatusOf(code: Code): Status { if code == OverflowCode then Overflow else Success }

  ghost function Xfer(h: Host, i: nat, code: Code, ptr: nat, bytes: nat, client: Client): (h': Host)
    requires HostOk(h) && i < |h.chans| && ClientOk(h, client)
    requires h.chans[i].enabled && IsCompletion(code) ==> NamesOutstanding(h.chans[i], ptr)
    ensures HostOk(h') && |h'.chans| == |h.chans| && h'.pm == h.pm
  {
    var c := h.chans[i];
    if !c.enabled then h
    else if IsCompletion(code) then
      Complete(h, i, CompletionCount(c, ptr), StatusOf(code), bytes % 0x10000, client)
    else if code == OobCode || code == DbModeCode then
      var c1 := c.(dbMode := true);
      Set(h, i, if c.out != [] && DbValid(h.pm) then RingDb(c1) else c1)
    else h
  }

  // ---------------------------------------------------------------------------
  // Start, reset and the M0 transition

  /** mhi_reset_data_chan: hand everything back with -ENOTCONN. */
  function Drain(h: Host, i: nat): (h': Host)
    requires HostOk(h) && i < |h.chans|
    ensures HostOk(h') && |h'.chans| == |h.chans| && h'.chans[i].out == [] && h'.pm == h.pm
    decreases |h.chans[i].out|
  {
    var c := h.chans[i];
    if c.out == [] then h
    else Drain(Set(PendDec(h, c.cfg.uplink), i, Pop(c, NotConn, 0)), i)
  }

  function Vote(h: Host, n: int): Host { h.(votes := h.votes + n) }

  /** The first half of __mhi_unprepare_channel: the channel is disabled, the locks are dropped
      and the reset command is sent unless the host is in an error state. */
  function BeginStop(h: Host, i: nat): (h': Host)
    requires HostOk(h) && i < |h.chans|
    ensures HostOk(h') && |h'.chans| == |h.chans| && h'.pm == h.pm
  {
    var c, voted := h.chans[i], !InError(h.pm);
    if !c.enabled then h
    else Vote(Set(h, i, c.(enabled := false, cmd := Stopping(voted))), if voted then 1 else 0)
  }

  /** The second half: the vote is given back and everything outstanding is handed back, even
      when the device did not answer. */
  function EndStop(h: Host, i: nat): (h': Host)
    requires HostOk(h) && i < |h.chans|
    ensures HostOk(h') && |h'.chans| == |h.chans| && h'.pm == h.pm
  {
    var cmd := h.chans[i].cmd;
    if !cmd.Stopping? then h else
    var h1 := Drain(Vote(h, if cmd.voted then -1 else 0), i);
    Set(h1, i, h1.chans[i].(started := false, cmd := NoCommand))
  }

  /** mhi_init_chan_ctxt */
  function InitRings(c: Chan): Chan {
    c.(rp := 0, out := [], ctxtWp := c.cfg.iommu, dbMode := true, origin := |c.returned|)
  }

  /** The first half of __mhi_prepare_channel. `ee` is whether the execution environment allows
      the channel and `room` whether the rings could be allocated. */
  function BeginStart(h: Host, i: nat, ee: bool, room: bool): (h': Host)
    requires HostOk(h) && i < |h.chans|
    ensures HostOk(h') && |h'.chans| == |h.chans| && h'.pm == h.pm
  {
    var c := h.chans[i];
    if !ee || c.enabled || !room then h
    else if InError(h.pm) then Set(h, i, InitRings(c))
    else Vote(Set(h, i, InitRings(c).(cmd := Starting)), 1)
  }

  /** The second half, when the start command has ended. */
  function EndStart(h: Host, i: nat, answer: Answer): (h': Host)
    requires HostOk(h) && i < |h.chans|
    ensures HostOk(h') && |h'.chans| == |h.chans| && h'.pm == h.pm
  {
    var c, ok := h.chans[i], answer == Confirmed;
    if !c.cmd.Starting? then h
    else Vote(Set(h, i, c.(started := ok, enabled := ok, cmd := NoCommand)), -1)
  }

  function M0Chan(c: Chan): (c': Chan)
    requires ChanOk(c)
    ensures ChanOk(c')
  {
    var c1 := if c.cfg.resetReq then c.(dbMode := true) else c;
    if c.started && c.out != [] then RingDb(c1) else c1
  }

  /** mhi_pm_m0_transition as one step. */
  function ToM0(h: Host): (h': Host)
    requires HostOk(h)
    ensures HostOk(h') && |h'.chans| == |h.chans|
  {
    var pm := Try(h.pm, M0);
    if pm != M0 then h.(pm := pm)
    else h.(pm := pm, chans := seq(|h.chans|, i requires 0 <= i < |h.chans| => M0Chan(h.chans[i])))
  }
}
