/** The host controller and its channels as the driver runs them: rings updated in place
    through byte pointers. Every method is proved equal to the matching function of module
    HostSpec on the abstract state `Abs()`. */
module HostImpl {
  import opened Rings
  import opened PowerStates
  import Spec = HostSpec
  import opened HostSpec

  /** sizeof(struct mhi_buf_info) on a 64-bit host. */
  const BUF_SIZE: nat := 56

  /** How the first half of a start ends. */
  datatype StartResult = StartSent | StartNotConn | StartIo | StartNoMem

  ghost function Zip(tres: seq<Tre>, infos: seq<BufInfo>): (s: seq<Item>)
    requires |tres| == |infos|
    ensures |s| == |tres|
    ensures forall k :: 0 <= k < |s| ==> s[k] == Item(tres[k], infos[k])
  {
    seq(|tres|, k requires 0 <= k < |tres| => Item(tres[k], infos[k]))
  }

  lemma ZipSnoc(tres: seq<Tre>, infos: seq<BufInfo>, t: Tre, i: BufInfo)
    requires |tres| == |infos|
    ensures Zip(tres + [t], infos + [i]) == Zip(tres, infos) + [Item(t, i)]
  {
  }

  /** struct mhi_chan. The two rings move in lockstep: `buf` never holds more than `tre`, so
      space in `tre` is space in `buf`. */
  class Channel {
    const cfg: Config
    const tre: Ring<Tre>
    const buf: Ring<BufInfo>
    var started: bool
    var enabled: bool
    var cmd: Command
    var ctxtWp: nat
    var dbMode: bool
    var dbVal: nat
    var doorbells: seq<nat>
    var accepted: seq<nat>
    var returned: seq<Result>
    var origin: nat

    ghost function Repr(): set<object> { {this, tre, tre.mem, buf, buf.mem} }

    ghost predicate Valid()
      reads Repr()
    {
      && tre as object != buf && tre.mem as object != buf.mem
      && tre.Valid() && buf.Valid()
      && tre.elements == buf.elements == cfg.elements
      && tre.elSize == TRE_SIZE && tre.iommuBase == cfg.iommu
      && tre.ri == buf.ri && tre.wi == buf.wi
    }

    ghost function Abs(): (c: Chan)
      requires Valid()
      reads Repr()
      ensures ChanOk(c) && |c.out| == tre.Count()
    {
      Chan(cfg, started, enabled, cmd, tre.ri, Zip(tre.Contents(), buf.Contents()),
           ctxtWp, dbMode, dbVal, doorbells, accepted, returned, origin)
    }

    /** of_parse_ch_cfg gives both rings the same number of elements. */
    constructor (config: Config, tres: array<Tre>, infos: array<BufInfo>)
      requires config.elements > 0 && tres.Length == infos.Length == config.elements
      requires tres as object != infos
      ensures Valid() && fresh(Repr() - {tres, infos})
      ensures Abs() == Chan(config, false, false, NoCommand, 0, [], 0, false, 0, [], [], [], 0)
    {
      cfg := config;
      tre := new Ring<Tre>(config.elements, TRE_SIZE, 0, config.iommu, tres);
      buf := new Ring<BufInfo>(config.elements, BUF_SIZE, 0, 0, infos);
      started, enabled, cmd, ctxtWp, dbMode, dbVal := false, false, NoCommand, 0, false, 0;
      doorbells, accepted, returned, origin := [], [], [], 0;
    }

    /** mhi_write_db */
    method WriteDb(db: nat)
      modifies this`doorbells
      ensures doorbells == old(doorbells) + [db]
    {
      doorbells := doorbells + [db];
    }

    /** mhi_ring_chan_db and the doorbell function chosen by the burst mode. */
    method RingChanDb()
      requires Valid()
      modifies this
      ensures Valid() && Abs() == RingDb(old(Abs()))
    {
      var db := cfg.iommu + (tre.wp - tre.base);
      ctxtWp := db;
      if cfg.burst {
        if dbMode {
          dbVal := db;
          WriteDb(db);
          dbMode := false;
        }
      } else {
        dbVal := db;
        WriteDb(db);
      }
    }

    /** Fill both slots and move both write pointers. */
    method Fill(r: Request)
      requires Valid() && tre.Count() + 1 < cfg.elements
      modifies Repr()
      ensures Valid() && Abs() == Push(old(Abs()), r)
    {
      hide MakeItem, Phys;
      var item := MakeItem(cfg, r);
      ZipSnoc(tre.Contents(), buf.Contents(), item.tre, item.info);
      buf.Put(item.info);
      tre.Put(item.tre);
      tre.Add();
      assert buf.Count() < tre.Count();
      buf.Add();
      accepted := accepted + [r.buf];
    }

    /** mhi_init_chan_ctxt: empty rings, and a doorbell due. */
    method InitContext()
      requires Valid()
      modifies this, tre, buf
      ensures Valid() && Abs() == InitRings(old(Abs())) && started == old(started) && enabled == old(enabled)
    {
      tre.Rewind();
      buf.Rewind();
      ctxtWp, dbMode, origin := cfg.iommu, true, |returned|;
      assert Abs().out == [];
    }

    /** Move both read pointers past the oldest transfer and record the result. */
    method Take(status: Status, bytes: nat)
      requires Valid() && tre.Count() > 0
      modifies Repr()
      ensures Valid() && Abs() == Pop(old(Abs()), status, bytes)
    {
      var info := buf.Peek();
      buf.Del();
      assert buf.Count() < tre.Count();
      tre.Del();
      returned := returned + [Result(info.cbBuf, status, bytes)];
      assert Abs().out == old(Abs().out)[1..];
    }
  }

  /** struct mhi_controller: what the data path reads and writes of it. */
  class Controller {
    const chans: seq<Channel>
    /** All objects that make up the channels. */
    ghost const foot: set<object>
    var pm: Pm
    var pending: int
    var votes: int

    /** mhi_async_power_up leaves the host in POR with nothing queued. */
    constructor (channels: seq<Channel>, ghost objects: set<object>)
      requires forall i :: 0 <= i < |channels| ==> channels[i].Repr() <= objects && channels[i].Valid()
      requires forall i, j :: 0 <= i < j < |channels| ==> channels[i].Repr() !! channels[j].Repr()
      ensures Valid() && chans == channels && foot == objects
      ensures Abs() == Host(Por, ChansAbs(), 0, 0)
    {
      chans, foot := channels, objects;
      pm, pending, votes := Por, 0, 0;
    }

    ghost predicate Separate() {
      && (forall i, j :: 0 <= i < j < |chans| ==> chans[i].Repr() !! chans[j].Repr())
      && (forall i :: 0 <= i < |chans| ==> chans[i].Repr() <= foot)
      && this !in foot
    }

    ghost predicate Valid()
      reads foot
    {
      Separate() && forall i :: 0 <= i < |chans| ==> chans[i].Valid()
    }

    ghost function ChansAbs(): (cs: seq<Chan>)
      requires Valid()
      reads foot
      ensures |cs| == |chans|
      ensures forall i :: 0 <= i < |chans| ==> cs[i] == chans[i].Abs()
    {
      seq(|chans|, i requires 0 <= i < |chans| && Valid() reads foot => chans[i].Abs())
    }

    ghost function Abs(): (h: Host)
      requires Valid()
      reads this, foot
      ensures HostOk(h)
    {
      Host(pm, ChansAbs(), pending, votes)
    }

    /** A change confined to channel `i` is an update of its entry. */
    twostate lemma OneChanged(i: nat)
      requires old(Valid()) && i < |chans| && chans[i].Valid()
      requires unchanged(foot - chans[i].Repr())
      ensures Valid() && ChansAbs() == old(ChansAbs())[i := chans[i].Abs()]
    {
      forall j | 0 <= j < |chans| && j != i
        ensures chans[j].Valid() && chans[j].Abs() == old(chans[j].Abs())
      {
        assert chans[j].Repr() !! chans[i].Repr();
      }
    }

    /** runtime_get once when the first uplink transfer appears. */
    method PendingUp(uplink: bool)
      requires Valid()
      modifies this
      ensures Valid() && Abs() == PendInc(old(Abs()), uplink)
    {
      if uplink {
        pending := pending + 1;
        if pending == 1 { votes := votes + 1; }
      }
    }

    /** runtime_put once when the last one is gone. */
    method PendingDown(uplink: bool)
      requires Valid()
      modifies this
      ensures Valid() && Abs() == PendDec(old(Abs()), uplink)
    {
      if uplink {
        pending := pending - 1;
        if pending == 0 { votes := votes - 1; }
      }
    }

    /** The common tail of the queue calls: both rings, then the doorbell if it is legal. */
    method Enqueue(i: nat, r: Request)
      requires Valid() && i < |chans| && |ChansAbs()[i].out| + 1 < ChansAbs()[i].cfg.elements
      modifies chans[i].Repr()
      ensures Valid() && Abs() == old(Set(Abs(), i, Enqueued(pm, ChansAbs()[i], r)))
    {
      var c := chans[i];
      c.Fill(r);
      if DbValid(pm) { c.RingChanDb(); }
      OneChanged(i);
    }

    /** A record filled before its mapping failed is not part of the queue. */
    method Abandon(i: nat, r: Request)
      requires Valid() && i < |chans|
      modifies chans[i].buf.mem
      ensures Valid() && Abs() == old(Abs())
    {
      chans[i].buf.Put(BufInfo(r.buf, 0, r.len, false));
      OneChanged(i);
    }

    /** runtime_get and runtime_put back to back ask for a resume and leave no vote. */
    method RequestResume()
      requires Valid()
      modifies this
      ensures Valid() && Abs() == old(Abs())
    {
      if InSuspend(pm) {
        votes := votes + 1;
        votes := votes - 1;
      }
    }

    /** The checks of the three queue calls, in their order. */
    method Admit(i: nat, r: Request) returns (ret: QueueResult)
      requires Valid() && i < |chans|
      ensures ret == QueueReturn(Abs(), i, r)
    {
      if r.kind == BufQueue && InError(pm) { return Io; }
      var full := chans[i].tre.IsFull();
      if full { return NoMem; }
      if InError(pm) { return Io; }
      if r.kind != DmaQueue && r.mapping.MapFailed? { return MapError(r.mapping.error); }
      return Queued;
    }

    /** mhi_queue_skb, mhi_queue_dma and mhi_queue_buf with mhi_gen_tre. */
    method Queue(i: nat, r: Request) returns (ret: QueueResult)
      requires Valid() && i < |chans|
      modifies this, foot
      ensures Valid()
      ensures ret == QueueReturn(old(Abs()), i, r)
      ensures Abs() == Spec.Queue(old(Abs()), i, r)
    {
      ret := Admit(i, r);
      if ret == NoMem || ret == Io { return; }
      RequestResume();
      if ret.MapError? {
        Abandon(i, r);
        return;
      }
      Enqueue(i, r);
      PendingUp(chans[i].cfg.uplink);
    }

    /** The queue calls a client makes from its completion callback. */
    method RunCallback(calls: seq<Call>)
      requires Valid() && forall k :: 0 <= k < |calls| ==> calls[k].chan < |chans|
      modifies this, foot
      ensures Valid() && Abs() == QueueAll(old(Abs()), calls)
    {
      for j := 0 to |calls|
        invariant Valid() && QueueAll(Abs(), calls[j..]) == QueueAll(old(Abs()), calls)
      {
        assert calls[j..][0] == calls[j] && calls[j..][1..] == calls[j + 1..];
        var _ := Queue(calls[j].chan, calls[j].req);
      }
    }

    /** One turn of the completion loop: take the transfer off both rings, call the client,
        then lower the pending count. */
    method FinishOne(i: nat, status: Status, bytes: nat, client: Client)
      requires Valid() && i < |chans| && ChansAbs()[i].out != [] && ClientOk(Abs(), client)
      modifies this, foot
      ensures Valid() && Abs() == CompleteOne(old(Abs()), i, status, bytes, client)
    {
      chans[i].Take(status, bytes);
      OneChanged(i);
      assert Abs() == Set(old(Abs()), i, Pop(old(Abs()).chans[i], status, bytes));
      RunCallback(client(i, |chans[i].returned|));
      PendingDown(chans[i].cfg.uplink);
    }

    /** Whether the read pointer of channel `i` stands at `addr`. */
    method Reached(i: nat, addr: nat, ghost slot: nat) returns (b: bool)
      requires Valid() && i < |chans| && addr == chans[i].tre.base + slot * TRE_SIZE
      ensures b <==> Abs().chans[i].rp == slot
    {
      chans[i].tre.SameSlot(chans[i].tre.ri, slot);
      b := chans[i].tre.rp == addr;
    }

    /** dev_rp: the address after the element an event points at. */
    method DevRp(i: nat, ptr: nat, ghost slot: nat) returns (addr: nat)
      requires Valid() && i < |chans| && slot < chans[i].cfg.elements && ptr == Phys(chans[i].cfg, slot)
      ensures addr == chans[i].tre.base + Wrap(slot + 1, chans[i].cfg.elements) * TRE_SIZE
    {
      addr := chans[i].tre.Next(chans[i].tre.ToVirtual(ptr), slot);
    }

    method FinishAndCheck(i: nat, addr: nat, ghost slot: nat, status: Status, bytes: nat, client: Client)
      returns (b: bool)
      requires Valid() && i < |chans| && addr == chans[i].tre.base + slot * TRE_SIZE
      requires Abs().chans[i].out != [] && ClientOk(Abs(), client)
      modifies this, foot
      ensures Valid() && Abs() == CompleteOne(old(Abs()), i, status, bytes, client)
      ensures b <==> Abs().chans[i].rp == slot
    {
      FinishOne(i, status, bytes, client);
      b := Reached(i, addr, slot);
    }

    /** The completion loop of parse_xfer_event. It compares byte pointers and ends however
        much the callbacks queue, because the distance to `devRp` only shrinks. */
    method FinishUntil(i: nat, devRp: nat, ghost stop: nat, ghost count: nat,
                       status: Status, bytes: nat, client: Client)
      requires Valid() && i < |chans| && devRp == chans[i].tre.base + stop * TRE_SIZE
      requires Remaining(Abs(), i, stop, count) && ClientOk(Abs(), client)
      modifies this, foot
      ensures Valid() && Abs() == Complete(old(Abs()), i, count, status, bytes, client)
    {
      hide Complete, CompleteOne, ClientOk, Distance;
      ghost var h, left := Abs(), count;
      ghost var turns := [h];
      var done := Reached(i, devRp, stop);
      while !done
        invariant Valid() && h == Abs()
        invariant done <==> h.chans[i].rp == stop
        invariant Remaining(h, i, stop, left) && ClientOk(h, client)
        invariant Turns(turns, i, status, bytes, client)
        invariant |turns| == count - left + 1 && turns[0] == old(Abs()) && turns[|turns| - 1] == h
        decreases left
      {
        RemainingStep(h, i, stop, left, status, bytes, client);
        TurnsSnoc(turns, CompleteOne(h, i, status, bytes, client), i, status, bytes, client);
        h, left := CompleteOne(h, i, status, bytes, client), left - 1;
        turns := turns + [h];
        done := FinishAndCheck(i, devRp, stop, status, bytes, client);
      }
      assert left == 0;
      AllTurns(turns, old(Abs()), h, i, count, status, bytes, client);
    }

    /** parse_xfer_event for EOT, EOB and OVERFLOW. */
    method ParseCompletion(i: nat, ptr: nat, status: Status, bytes: nat, client: Client)
      requires Valid() && i < |chans| && NamesOutstanding(ChansAbs()[i], ptr) && ClientOk(Abs(), client)
      modifies this, foot
      ensures Valid()
      ensures Abs() == Complete(old(Abs()), i, CompletionCount(old(ChansAbs()[i]), ptr), status, bytes, client)
    {
      ghost var slot := (ptr - chans[i].cfg.iommu) / TRE_SIZE;
      var devRp := DevRp(i, ptr, slot);
      FinishUntil(i, devRp, Wrap(slot + 1, chans[i].cfg.elements), CompletionCount(ChansAbs()[i], ptr),
                  status, bytes, client);
    }

    /** parse_xfer_event for OOB and DB_MODE. */
    method ParseDbEvent(i: nat)
      requires Valid() && i < |chans|
      modifies chans[i]
      ensures Valid() && Abs() == old(var c := ChansAbs()[i].(dbMode := true);
                                      Set(Abs(), i, if c.out != [] && DbValid(pm) then RingDb(c) else c))
    {
      var c := chans[i];
      c.dbMode := true;
      c.tre.SameSlot(c.tre.wi, c.tre.ri);
      if c.tre.wp != c.tre.rp && DbValid(pm) {
        c.RingChanDb();
      }
      OneChanged(i);
    }

    /** parse_xfer_event */
    method ParseXfer(i: nat, code: Code, ptr: nat, len: nat, client: Client)
      requires Valid() && i < |chans| && ClientOk(Abs(), client)
      requires Abs().chans[i].enabled && IsCompletion(code) ==> NamesOutstanding(Abs().chans[i], ptr)
      modifies this, foot
      ensures Valid() && Abs() == Xfer(old(Abs()), i, code, ptr, len, client)
    {
      if !chans[i].enabled { return; }
      if IsCompletion(code) {
        ParseCompletion(i, ptr, StatusOf(code), len % 0x10000, client);
      } else if code == OobCode || code == DbModeCode {
        ParseDbEvent(i);
      }
    }

    /** One turn of mhi_reset_data_chan. */
    method DropOne(i: nat)
      requires Valid() && i < |chans| && ChansAbs()[i].out != []
      modifies this, foot
      ensures Valid() && Abs() == old(var c := ChansAbs()[i];
                                      Set(PendDec(Abs(), c.cfg.uplink), i, Pop(c, NotConn, 0)))
    {
      PendingDown(chans[i].cfg.uplink);
      label counted:
      chans[i].Take(NotConn, 0);
      OneChanged@counted(i);
    }

    /** ... and whether it was the last one. */
    method DropAndCheck(i: nat) returns (done: bool)
      requires Valid() && i < |chans| && ChansAbs()[i].out != []
      modifies this, foot
      ensures Valid() && Drain(Abs(), i) == Drain(old(Abs()), i)
      ensures |ChansAbs()[i].out| < |old(ChansAbs()[i].out)| && (done <==> ChansAbs()[i].out == [])
    {
      DropOne(i);
      done := Emptied(i);
    }

    method Emptied(i: nat) returns (done: bool)
      requires Valid() && i < |chans|
      ensures done <==> ChansAbs()[i].out == []
    {
      chans[i].tre.SameSlot(chans[i].tre.ri, chans[i].tre.wi);
      done := chans[i].tre.rp == chans[i].tre.wp;
    }

    /** mhi_reset_data_chan: the clients free the buffers and queue nothing. */
    method ResetData(i: nat)
      requires Valid() && i < |chans|
      modifies this, foot
      ensures Valid() && Abs() == Drain(old(Abs()), i)
    {
      var done := Emptied(i);
      while !done
        invariant Valid() && Drain(Abs(), i) == Drain(old(Abs()), i)
        invariant done <==> ChansAbs()[i].out == []
        decreases |ChansAbs()[i].out|
      {
        done := DropAndCheck(i);
      }
    }

    /** __mhi_unprepare_channel up to the wait for the device: the channel is disabled first, then
        the reset command goes out with a vote held for it, unless the host is in an error state.
        The locks are free from here to `EndStopping`. */
    method BeginStopping(i: nat)
      requires Valid() && i < |chans|
      modifies this`votes, chans[i]
      ensures Valid() && Abs() == BeginStop(old(Abs()), i)
    {
      var c := chans[i];
      if !c.enabled { return; }
      c.enabled := false;
      if InError(pm) {
        c.cmd := Stopping(false);
        OneChanged(i);
        return;
      }
      votes := votes + 1;
      c.cmd := Stopping(true);
      OneChanged(i);
    }

    /** The end of a reset command. It is given up when it cannot be sent, and otherwise waited
        for; both ways lead to the same runtime_put, and an error state to none. */
    method ResetAnswered(i: nat, answer: Answer) returns (confirmed: bool)
      requires Valid() && i < |chans| && chans[i].cmd.Stopping?
      modifies this`votes
      ensures Valid() && Abs() == Vote(old(Abs()), if chans[i].cmd.voted then -1 else 0)
      ensures confirmed <==> chans[i].cmd.voted && answer == Confirmed
    {
      confirmed := false;
      if !chans[i].cmd.voted { return; }
      if answer != SendFailed {
        confirmed := answer == Confirmed;
      }
      votes := votes - 1;
    }

    /** The rest of __mhi_unprepare_channel: everything outstanding goes back to the client,
        whether or not the device confirmed the reset. */
    method EndStopping(i: nat, answer: Answer)
      requires Valid() && i < |chans| && chans[i].cmd.Stopping?
      modifies this, foot
      ensures Valid() && Abs() == EndStop(old(Abs()), i)
    {
      var _ := ResetAnswered(i, answer);
      ResetData(i);
      label drained:
      chans[i].started, chans[i].cmd := false, NoCommand;
      OneChanged@drained(i);
    }

    /** __mhi_prepare_channel up to the wait for the device, with mhi_init_chan_ctxt. */
    method BeginStarting(i: nat, ee: bool, room: bool) returns (ret: StartResult)
      requires Valid() && i < |chans|
      modifies this`votes, chans[i].Repr()
      ensures Valid() && Abs() == BeginStart(old(Abs()), i, ee, room)
      ensures ret == if !ee then StartNotConn else if old(chans[i].enabled) then StartIo else if !room then StartNoMem
                     else if InError(pm) then StartIo else StartSent
    {
      var c := chans[i];
      if !ee { return StartNotConn; }
      if c.enabled { return StartIo; }
      if !room { return StartNoMem; }
      c.InitContext();
      if InError(pm) {
        OneChanged(i);
        return StartIo;
      }
      votes := votes + 1;
      c.cmd := Starting;
      OneChanged(i);
      ret := StartSent;
    }

    /** The rest of __mhi_prepare_channel: a failed send and a missing or bad answer leave by the
        error path with its own runtime_put; only a confirmed start reaches the other one. */
    method EndStarting(i: nat, answer: Answer) returns (ok: bool)
      requires Valid() && i < |chans| && chans[i].cmd.Starting?
      modifies this`votes, chans[i]
      ensures Valid() && Abs() == EndStart(old(Abs()), i, answer) && ok == (answer == Confirmed)
    {
      if answer == SendFailed {
        StartFailed(i);
        return false;
      }
      if answer == TimedOut || answer == Refused {
        StartFailed(i);
        return false;
      }
      votes := votes - 1;
      var c := chans[i];
      c.started, c.enabled, c.cmd := true, true, NoCommand;
      OneChanged(i);
      ok := true;
    }

    /** error_send_cmd */
    method StartFailed(i: nat)
      requires Valid() && i < |chans| && chans[i].cmd.Starting?
      modifies this`votes, chans[i]
      ensures Valid()
      ensures Abs() == old(var c := ChansAbs()[i].(started := false, enabled := false, cmd := NoCommand);
                           Vote(Set(Abs(), i, c), -1))
    {
      votes := votes - 1;
      var c := chans[i];
      c.started, c.enabled, c.cmd := false, false, NoCommand;
      OneChanged(i);
    }

    /** mhi_tryset_pm_state on the state word. */
    method TrySetPm(want: Pm)
      requires Valid()
      modifies this`pm
      ensures Valid() && pm == Try(old(pm), want) && Abs() == old(Abs()).(pm := pm)
    {
      var word := TrySet(Word(pm), want);
      pm := StateOf(word, Try(pm, want));
    }

    /** One channel of the M0 handler. */
    method WakeChannel(i: nat)
      requires Valid() && i < |chans|
      modifies chans[i]
      ensures Valid() && Abs() == old(Set(Abs(), i, M0Chan(ChansAbs()[i])))
    {
      var c := chans[i];
      if c.cfg.resetReq { c.dbMode := true; }
      c.tre.SameSlot(c.tre.wi, c.tre.ri);
      if c.started && c.tre.wp != c.tre.rp { c.RingChanDb(); }
      OneChanged(i);
    }

    /** mhi_pm_m0_transition: move the power state, then ring every channel with work. */
    method M0Transition() returns (ok: bool)
      requires Valid()
      modifies this, foot
      ensures Valid() && Abs() == ToM0(old(Abs()))
      ensures ok <==> pm == M0
    {
      TrySetPm(M0);
      ok := pm == M0;
      if !ok { return; }
      for i := 0 to |chans|
        invariant Valid() && pm == M0 && pending == old(pending) && votes == old(votes)
        invariant forall j :: 0 <= j < i ==> ChansAbs()[j] == M0Chan(old(ChansAbs())[j])
        invariant forall j :: i <= j < |chans| ==> ChansAbs()[j] == old(ChansAbs())[j]
      {
        WakeChannel(i);
      }
    }
  }

  /** `left` outstanding transfers of channel `i` lie before slot `stop`. */
  ghost predicate Remaining(h: Host, i: nat, stop: nat, left: nat) {
    && HostOk(h) && i < |h.chans| && stop < h.chans[i].cfg.elements
    && left == Distance(h.chans[i].rp, stop, h.chans[i].cfg.elements)
    && left <= |h.chans[i].out|
  }

  /** The states between the turns of the completion loop. */
  ghost predicate Turns(hs: seq<Host>, i: nat, status: Status, bytes: nat, client: Client) {
    && hs != []
    && forall k :: 0 < k < |hs| ==> IsTurn(hs[k - 1], hs[k], i, status, bytes, client)
  }

  ghost predicate IsTurn(h: Host, h': Host, i: nat, status: Status, bytes: nat, client: Client) {
    && HostOk(h) && i < |h.chans| && h.chans[i].out != [] && ClientOk(h, client)
    && h' == CompleteOne(h, i, status, bytes, client)
  }

  lemma RemainingStep(h: Host, i: nat, stop: nat, left: nat, status: Status, bytes: nat, client: Client)
    requires Remaining(h, i, stop, left) && ClientOk(h, client) && h.chans[i].rp != stop
    ensures left > 0 && h.chans[i].out != []
    ensures Remaining(CompleteOne(h, i, status, bytes, client), i, stop, left - 1)
  {
    DistanceStep(h.chans[i].rp, stop, h.chans[i].cfg.elements);
  }

  lemma TurnsSnoc(hs: seq<Host>, h: Host, i: nat, status: Status, bytes: nat, client: Client)
    requires Turns(hs, i, status, bytes, client) && IsTurn(hs[|hs| - 1], h, i, status, bytes, client)
    ensures Turns(hs + [h], i, status, bytes, client)
  {
  }

  lemma AllTurns(hs: seq<Host>, h0: Host, h: Host, i: nat, count: nat, status: Status, bytes: nat, client: Client)
    requires Turns(hs, i, status, bytes, client) && |hs| == count + 1 && hs[0] == h0 && hs[count] == h
    requires HostOk(h0) && i < |h0.chans| && count <= |h0.chans[i].out| && ClientOk(h0, client)
    ensures h == Complete(h0, i, count, status, bytes, client)
  {
    TurnsComplete(hs, i, status, bytes, client);
  }

  lemma {:induction false} TurnsComplete(hs: seq<Host>, i: nat, status: Status, bytes: nat, client: Client)
    requires Turns(hs, i, status, bytes, client)
    requires HostOk(hs[0]) && i < |hs[0].chans| && |hs| - 1 <= |hs[0].chans[i].out| && ClientOk(hs[0], client)
    ensures Complete(hs[0], i, |hs| - 1, status, bytes, client) == hs[|hs| - 1]
    decreases |hs|
  {
    if |hs| > 1 {
      assert IsTurn(hs[0], hs[1], i, status, bytes, client);
      TurnsComplete(hs[1..], i, status, bytes, client);
    }
  }
}
