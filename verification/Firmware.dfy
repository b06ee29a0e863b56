/**
 The firmware as an object: the handlers of wlantx.c, hostif.c, wlanrx.c and usb/main.c
 on descriptor memory. `st` is the abstract state; every handler changes it as the
 functions of TxSpec and TxPass say.
 */
module Firmware {
  import opened Dma
  import opened Pools
  import opened PoolView
  import opened SplitPool
  import opened DmaHeap
  import opened TxSpec
  import opened TxRuns
  import opened BlockCount
  import opened TxSafety
  import opened TxPass
  import opened HostPass
  import opened TxOutcome
  import opened HostLaws
  import opened FirmwareView
  import opened StatusRing

  function Wire(r: Report): Status { Status(r.cookie, r.queue, r.rix, r.tries, r.success) }

  function Wires(rs: seq<Report>): (w: seq<Status>)
    ensures |w| == |rs|
  {
    seq(|rs|, i requires 0 <= i < |rs| => Wire(rs[i]))
  }

  ghost function StartState(vifs: nat, blocks: nat): Fw
  {
    Fw(map[Up := [], Down := FreeBlocks(0, TxBlocks(blocks)), Rx := FreeBlocks(TxBlocks(blocks), blocks)],
       map q | q in QueueSet(vifs) && (q.Retry? || q.Tx? || q.Cab?) :: [],
       seq(vifs, _ => 0), 0, true, NULL, true, [], [], blocks)
  }

  lemma StartInitial(vifs: nat, blocks: nat)
    ensures TxSafety.Initial(StartState(vifs, blocks)) && StartState(vifs, blocks).intAvail
    ensures StartState(vifs, blocks).cabLen == seq(vifs, _ => 0)
  {
    hide FreeBlocks, TxBlocks;
  }

  lemma StartRepresents(vifs: nat, blocks: nat, frames: map<nat, Super>)
    ensures var shown := Empty(vifs)[Down := FreeBlocks(0, TxBlocks(blocks))][Rx := FreeBlocks(TxBlocks(blocks), blocks)];
            Represents(shown, frames, StartState(vifs, blocks).io, StartState(vifs, blocks).air)
  {
    hide FreeBlocks, TxBlocks;
  }

  lemma StartAside(s: Pool, vifs: nat, blocks: nat, contents: map<nat, Super>)
    requires SetUp(s, vifs, blocks, blocks)
    requires forall b :: FIRST_DATA_BLOCK <= b < FIRST_DATA_BLOCK + blocks ==> b in contents
    requires forall b :: b in contents ==> WellTyped(contents[b])
    ensures AsideOk(s, true, FW_TERM, NULL, true, INT_TERM) && DataOk(s.home, contents)
  {
    hide WellTyped;
    assert forall d {:trigger s.place[d]} :: 0 <= d < |s.m| ==> (IsAside(s.place[d]) <==> d == INT_TERM || d == FW_TERM);
  }

  ghost predicate RetryEmpty(st: Fw) { Retry in st.air && st.air[Retry] == [] }

  class Firmware {
    const dma: Heap
    const ring: Ring

    /** The contents of the data blocks and of the reserved buffers, as superframes. */
    var frames: map<nat, Super>
    var cabLen: seq<int>
    var queuedBar: int
    var fwDesc: int
    var fwAvail: bool
    var fwData: int
    var intDesc: int
    var intAvail: bool

    /** History: the number of frames taken from the host. */
    var serials: nat

    ghost var st: Fw

    ghost predicate Counters()
      reads this
    {
      && cabLen == st.cabLen && queuedBar == st.queuedBar
      && fwAvail == st.fwAvail && fwData == st.fwData && intAvail == st.intAvail && serials == |st.accepted|
    }

    /** The objects agree with `st`; a packet may be in hand. */
    ghost predicate Working()
      reads this, dma, dma.mem, ring, ring.cache
    {
      && dma.Valid() && Represents(dma.shown, frames, st.io, st.air) && Counters()
      && AsideOk(dma.ThePool(), fwAvail, fwDesc, fwData, intAvail, intDesc) && DataOk(dma.home, frames)
      && ring.Valid() && ring.log == Wires(st.reports)
    }

    /** No packet is in hand, and the invariant of the tx path holds. */
    ghost predicate Ready()
      reads this, dma, dma.mem, ring, ring.cache
    {
      Working() && dma.held == [] && Inv(st)
    }

    /** Between handlers the retry queue is empty, too. */
    ghost predicate Valid()
      reads this, dma, dma.mem, ring, ring.cache
    {
      Ready() && RetryEmpty(st)
    }

    /** The state after dma_init_descriptors; `contents` is what the data blocks hold. */
    constructor (vifs: nat, blocks: nat, contents: map<nat, Super>)
      requires forall b :: FIRST_DATA_BLOCK <= b < FIRST_DATA_BLOCK + blocks ==> b in contents
      requires forall b :: b in contents ==> WellTyped(contents[b])
      ensures Valid() && TxSafety.Initial(st) && st.intAvail && |st.cabLen| == vifs && st.blocks == blocks
      ensures st.io == map[Up := [], Down := FreeBlocks(0, TxBlocks(blocks)), Rx := FreeBlocks(TxBlocks(blocks), blocks)]
      ensures fresh(dma) && fresh(dma.mem) && fresh(ring) && fresh(ring.cache)
    {
      hide HeapOk, DownAlone, Represents, AsideOk, DataOk, SetUp, Inv, Empty, FreeBlocks, TxBlocks, WellTyped, AirKeys, IoOk;
      dma := new Heap(vifs, blocks);
      ring := new Ring();
      frames := contents;
      cabLen, queuedBar := seq(vifs, _ => 0), 0;
      fwDesc, fwAvail, fwData := FW_TERM, true, NULL;
      intDesc, intAvail, serials := INT_TERM, true, 0;
      st := StartState(vifs, blocks);
      new;
      StartInitial(vifs, blocks);
      StartRepresents(vifs, blocks, frames);
      InitialInv(st);
      StartAside(dma.ThePool(), vifs, blocks, frames);
      assert Wires(st.reports) == [];
    }

    /** Between the steps of the handlers, each data block is held by exactly one descriptor, which is in a queue. */
    lemma BlocksAtHome(id: nat)
      requires Ready() && FIRST_DATA_BLOCK <= id < FIRST_DATA_BLOCK + st.blocks
      ensures id in dma.home && 0 <= dma.home[id] < dma.mem.Length == |dma.place| && dma.place[dma.home[id]].In?
      ensures forall d :: 0 <= d < dma.mem.Length ==>
                (dma.mem[d].buf.data.Block? && dma.mem[d].buf.data.id == id <==> d == dma.home[id])
    {
      hide HeapOk, DownAlone, Represents, AsideOk, DataOk, Ring.InOrder, PathInv, HasQueues, Count;
      BlockAt(st, id);
      CountedHome(dma.ThePool(), dma.shown, dma.held, frames, st, id);
    }

    // ----- packets -----

    /** for_each_desc_not_bits: the first packet of an io queue, if the hardware has finished it. */
    method TakeIo(q: QueueId) returns (desc: int)
      requires Working() && dma.held == [] && q in st.io
      modifies `st, dma, dma.mem
      ensures Working() && old(st.io[q] != [] ==> st.io[q][0] != [])
      ensures old(st.io[q] == [] || st.io[q][0][0].own == Hw) ==> desc == NULL && dma.held == [] && st == old(st)
      ensures old(st.io[q] != [] && st.io[q][0][0].own != Hw) ==>
                desc >= 0 && dma.hand != [] && desc == dma.hand[0] && dma.held == old(st.io[q][0]) && st == DropIo(old(st), q)
    {
      hide HeapOk, DownAlone, AsideKept, Represents, AsideOk, DataOk, Ring.InOrder;
      ghost var s := dma.ThePool();
      IoShown(dma.shown, frames, st.io, st.air, q);
      desc := dma.DequeueNot(q, Hw);
      AsideStays(s, dma.ThePool(), frames, fwAvail, fwDesc, fwData, intAvail, intDesc);
      if desc != NULL {
        SetIo(old(dma.shown), frames, st.io, st.air, q, st.io[q][1..]);
        st := DropIo(st, q);
      }
    }

    /** for_each_desc: the first frame of an air queue. */
    method TakeAir(q: QueueId) returns (desc: int)
      requires Working() && dma.held == [] && q in st.air
      modifies `st, dma, dma.mem
      ensures Working()
      ensures old(st.air[q]) == [] ==> desc == NULL && dma.held == [] && st == old(st)
      ensures old(st.air[q]) != [] ==> desc >= 0 && dma.hand != [] && desc == dma.hand[0] && st == DropHead(old(st), q)
      ensures old(st.air[q]) != [] ==> dma.held == old(st.air[q][0]).bufs && SuperIn(frames, old(st.air[q][0]))
    {
      hide HeapOk, DownAlone, AsideKept, Represents, AsideOk, DataOk, Ring.InOrder, SuperIn, ValidQueue;
      ghost var s := dma.ThePool();
      AirShown(dma.shown, frames, st.io, st.air, q);
      dma.QueueFacts(q);
      desc := dma.Unlink(q);
      AsideStays(s, dma.ThePool(), frames, fwAvail, fwDesc, fwData, intAvail, intDesc);
      if desc != NULL {
        SetAir(old(dma.shown), frames, st.io, st.air, q, st.air[q][1..]);
        assert BufsOf(st.air[q][1..]) == BufsOf(st.air[q])[1..];
        st := DropHead(st, q);
      }
    }

    /** dma_put into an air queue. */
    method PutAir(q: QueueId, desc: int, ghost f: Frame)
      requires Working() && q in st.air && q != Down && dma.held != [] && dma.hand != [] && desc == dma.hand[0]
      requires dma.held == f.bufs && SuperIn(frames, f)
      modifies `st, dma, dma.mem
      ensures Working() && dma.held == [] && st == Append(old(st), q, PutFrame(f))
    {
      hide HeapOk, DownAlone, AsideKept, Represents, AsideOk, DataOk, Ring.InOrder, PutPacket;
      ghost var s := dma.ThePool();
      AirShown(dma.shown, frames, st.io, st.air, q);
      dma.Put(q, desc);
      AsideStays(s, dma.ThePool(), frames, fwAvail, fwDesc, fwData, intAvail, intDesc);
      ghost var g := PutFrame(f);
      PutPacketData(f.bufs);
      SetAir(old(dma.shown), frames, st.io, st.air, q, st.air[q] + [g]);
      assert BufsOf(st.air[q] + [g]) == BufsOf(st.air[q]) + [g.bufs];
      st := Append(st, q, g);
    }

    /** dma_put into an io queue. */
    method PutIo(q: QueueId, desc: int)
      requires Working() && q in st.io && q != Down && dma.held != [] && dma.hand != [] && desc == dma.hand[0]
      modifies `st, dma, dma.mem
      ensures Working() && dma.held == [] && st == AppendIo(old(st), q, PutPacket(old(dma.held)))
    {
      hide HeapOk, DownAlone, AsideKept, Represents, AsideOk, DataOk, Ring.InOrder, PutPacket;
      ghost var s := dma.ThePool();
      IoShown(dma.shown, frames, st.io, st.air, q);
      dma.Put(q, desc);
      AsideStays(s, dma.ThePool(), frames, fwAvail, fwDesc, fwData, intAvail, intDesc);
      SetIo(old(dma.shown), frames, st.io, st.air, q, st.io[q] + [PutPacket(old(dma.held))]);
      st := AppendIo(st, q, PutPacket(old(dma.held)));
    }

    /** dma_reclaim */
    method RecycleIo(q: QueueId, desc: int)
      requires Working() && q in st.io && dma.held != [] && dma.hand != [] && desc == dma.hand[0]
      modifies `st, dma, dma.mem
      ensures Working() && dma.held == [] && st == Recycle(old(st), q, old(dma.held))
    {
      hide HeapOk, DownAlone, AsideKept, Represents, AsideOk, DataOk, Ring.InOrder, FreePackets;
      ghost var s := dma.ThePool();
      IoShown(dma.shown, frames, st.io, st.air, q);
      dma.Reclaim(q, desc);
      AsideStays(s, dma.ThePool(), frames, fwAvail, fwDesc, fwData, intAvail, intDesc);
      SetIo(old(dma.shown), frames, st.io, st.air, q, st.io[q] + FreePackets(old(dma.held)));
      st := Recycle(st, q, old(dma.held));
    }

    /** Writes to the superframe of the packet in hand. */
    method SetSuper(desc: int, s: Super)
      requires Working() && dma.held != [] && dma.hand != [] && desc == dma.hand[0] && dma.held[0].data.Block? && WellTyped(s)
      modifies `frames
      ensures Working() && frames == old(frames)[dma.held[0].data.id := s]
    {
      hide HeapOk, DownAlone, Represents, AsideOk, WellTyped;
      dma.Facts();
      SetHeldSuper(dma.ThePool(), dma.shown, dma.held, frames, st.io, st.air, s);
      frames := frames[dma.mem[desc].buf.data.id := s];
    }

    /** Writes to the first descriptor of the packet in hand. */
    method WriteHeld(desc: int, b: Buf)
      requires Working() && dma.held != [] && dma.hand != [] && desc == dma.hand[0] && SameData(dma.held[0].data, b.data)
      modifies dma, dma.mem
      ensures Working() && dma.held == old(dma.held)[0 := b] && dma.hand == old(dma.hand)
    {
      hide HeapOk, DownAlone, AsideKept, Represents, AsideOk, DataOk, Ring.InOrder, SameData;
      ghost var s := dma.ThePool();
      dma.Write(desc, b);
      AsideStays(s, dma.ThePool(), frames, fwAvail, fwDesc, fwData, intAvail, intDesc);
    }

    /** Writes to the first descriptor of an air queue and to its superframe. */
    method UpdateHead(q: QueueId, b: Buf, s: Super)
      requires Working() && q in st.air && st.air[q] != [] && WellTyped(s)
      requires st.air[q][0].bufs != [] && st.air[q][0].bufs[0].data.Block? && b.data.Block? && SameData(st.air[q][0].bufs[0].data, b.data)
      modifies `st, `frames, dma, dma.mem
      ensures Working() && dma.held == old(dma.held) && dma.hand == old(dma.hand)
      ensures st == SetHead(old(st), q, Frame(old(st.air[q][0]).bufs[0 := b], s)) && frames == old(frames)[b.data.id := s]
    {
      hide HeapOk, DownAlone, AsideKept, Represents, AsideOk, DataOk, Ring.InOrder, WellTyped, SuperIn, BufsOf, SameData;
      ghost var p := dma.ThePool();
      ghost var f := Frame(st.air[q][0].bufs[0 := b], s);
      SetHeadFrame(p, dma.shown, dma.held, frames, st.io, st.air, q, b, s);
      dma.WriteHead(q, b);
      AsideStays(p, dma.ThePool(), frames, fwAvail, fwDesc, fwData, intAvail, intDesc);
      SetData(dma.home, frames, b.data.id, s);
      frames := frames[b.data.id := s];
      st := SetHead(st, q, f);
    }

    // ----- wlantx.c -----

    /** wlan_tx_complete, for the packet in hand with the superframe `s`. */
    method WlanTxComplete(desc: int, s: Super, serial: int, success: bool)
      requires Working() && dma.held != [] && dma.hand != [] && desc == dma.hand[0] && dma.held[0].data.Block? && WellTyped(s)
      modifies `st, `frames, ring, ring.cache
      ensures Working() && st == WithReport(old(st), StatusOf(s, serial, success))
      ensures frames == old(frames)[dma.held[0].data.id := s.(cookie := 0)]
    {
      hide HeapOk, DownAlone, Represents, AsideOk, DataOk, WellTyped, StatusOf;
      ghost var r := StatusOf(s, serial, success);
      ring.Add(Status(s.cookie, s.queue % 4, s.rix % 4, s.cnt % 8, success));
      StatusWire(s, serial, success);
      assert Wires(st.reports + [r]) == Wires(st.reports) + [Wire(r)];
      st := st.(reports := st.reports + [r]);
      TypedCookie(s);
      SetSuper(desc, s.(cookie := 0));
    }

    /** The part of wlan_tx that sets up rate control and hides the superdescriptor. */
    method PrepareFrame(desc: int, serial: int) returns (super: Super)
      requires Working() && dma.held != [] && dma.hand != [] && desc == dma.hand[0]
      requires dma.held[0].data.Block? && !dma.held[0].data.hidden && dma.held[0].data.id in frames
      modifies `frames, dma, dma.mem
      ensures Working() && dma.hand == old(dma.hand)
      ensures var f := Frame(old(dma.held), old(frames)[old(dma.held)[0].data.id]);
              && super == Started(f, serial).super && dma.held == Started(f, serial).bufs
              && SuperIn(frames, Started(f, serial)) && frames == old(frames)[old(dma.held)[0].data.id := super]
    {
      hide HeapOk, DownAlone, Represents, AsideOk, DataOk, WellTyped, HideBuf;
      dma.Facts();
      var id := dma.mem[desc].buf.data.id;
      super := frames[id];
      super := super.(rix := 0);
      super := super.(cnt := 1);
      super := super.(serial := serial, attempts := 1);
      FrameTyped(dma.home, frames, id);
      StartTyped(frames[id], serial);
      SetSuper(desc, super);
      HideKeeps(dma.mem[desc].buf);
      WriteHeld(desc, HideBuf(dma.mem[desc].buf));
    }

    /** The part of wlan_tx that counts a BlockAck request. */
    method CountBar(isBar: bool)
      requires Working()
      modifies `st, `queuedBar
      ensures Working() && st == CountedBar(old(st), isBar)
    {
      hide HeapOk, DownAlone, Represents, AsideOk, DataOk, Ring.InOrder;
      if isBar {
        queuedBar := queuedBar + 1;
        st := st.(queuedBar := queuedBar);
      }
    }

    /** The part of wlan_tx that queues a frame. */
    method QueueFrame(desc: int, super: Super, ghost f: Frame)
      requires Working() && dma.held != [] && dma.hand != [] && desc == dma.hand[0]
      requires dma.held == f.bufs && SuperIn(frames, f) && f.super == super
      requires EntryQueue(super) in st.air && (super.cab ==> super.vif < |cabLen|)
      modifies `st, `cabLen, dma, dma.mem
      ensures Working() && dma.held == [] && st == Append(CountedCab(old(st), super), EntryQueue(super), PutFrame(f))
    {
      hide HeapOk, DownAlone, Represents, AsideOk, DataOk, WellTyped, PutFrame, SuperIn, Ring.InOrder;
      if super.cab {
        cabLen := cabLen[super.vif := cabLen[super.vif] + 1];
        st := st.(cabLen := cabLen);
        PutAir(Cab(super.vif), desc, f);
      } else {
        PutAir(Tx(super.queue), desc, f);
      }
    }

    /** wlan_tx, for the packet in hand; `serial` is its number. */
    method WlanTx(desc: int, serial: int)
      requires Working() && dma.held != [] && dma.hand != [] && desc == dma.hand[0]
      requires dma.held[0].data.Block? && !dma.held[0].data.hidden && dma.held[0].data.id in frames
      requires var s := frames[dma.held[0].data.id]; EntryQueue(s) in st.air && (s.cab ==> s.vif < |cabLen|)
      modifies `st, `frames, `cabLen, `queuedBar, dma, dma.mem
      ensures Working() && dma.held == []
      ensures var id := old(dma.held)[0].data.id;
              && st == Start(old(st), Frame(old(dma.held), old(frames)[id]), serial)
              && frames == old(frames)[id := Started(Frame(old(dma.held), old(frames)[id]), serial).super]
    {
      hide HeapOk, DownAlone, Represents, AsideOk, DataOk, WellTyped, PutFrame, SuperIn, HideBuf, Ring.InOrder, Append;
      ghost var f := Frame(dma.held, frames[dma.held[0].data.id]);
      dma.Facts();
      CountBar(frames[dma.mem[desc].buf.data.id].isBar);
      var super := PrepareFrame(desc, serial);
      QueueFrame(desc, super, Started(f, serial));
    }

    /** The first descriptor of an air queue, with its superframe. */
    method HeadFrame(q: QueueId) returns (b: Buf, super: Super)
      requires Working() && q in st.air && st.air[q] != [] && st.air[q][0].bufs != [] && st.air[q][0].bufs[0].data.Block?
      ensures b == st.air[q][0].bufs[0] && super == st.air[q][0].super && WellTyped(super)
    {
      hide HeapOk, DownAlone, Represents, AsideOk, DataOk, WellTyped, Ring.InOrder, ValidQueue;
      AirShown(dma.shown, frames, st.io, st.air, q);
      dma.QueueFacts(q);
      assert SuperIn(frames, st.air[q][0]);
      b := dma.mem[dma.queues[q].head].buf;
      FrameTyped(dma.home, frames, b.data.id);
      super := frames[b.data.id];
    }

    /** wlan_tx_consume_retry */
    static method WlanTxConsumeRetry(super: Super) returns (again: bool, s: Super)
      requires WellTyped(super) && super.rix < MAX_RATES
      ensures again == ConsumeRetry(super).Again?
      ensures s == if again then ConsumeRetry(super).super else super
    {
      s := super;
      if s.cnt >= s.ri[s.rix].tries {
        if s.rix == MAX_RETRY_RATES {
          return false, s;
        }
        if s.rr[s.rix] == 0 {
          return false, s;
        }
        s := s.(phy := s.rr[s.rix]);
        s := s.(rix := s.rix + 1);
        s := s.(ampdu := s.ri[s.rix].ampdu);
        s := s.(cnt := 1);
      } else {
        s := s.(cnt := s.cnt + 1);
      }
      s := s.(attempts := s.attempts + 1);
      again := true;
    }

    /** The firmware's own descriptor is free again. */
    method KeepFw(desc: int)
      requires Working() && |dma.hand| == 1 && desc == dma.hand[0] && dma.held == [dma.held[0]]
      requires !fwAvail && fwData >= 0 && dma.held[0].data == Block(fwData, false)
      modifies `st, `fwDesc, `fwAvail, dma
      ensures Working() && dma.held == [] && st == old(st).(fwAvail := true)
    {
      hide HeapOk, DownAlone, Represents, AsideOk, DataOk, Ring.InOrder, OthersAside;
      ghost var s := dma.ThePool();
      dma.Keep(FreeFw);
      AsideFwBack(s, dma.ThePool(), fwDesc, fwData, intAvail, intDesc, desc);
      fwDesc := desc;
      fwAvail := true;
      st := st.(fwAvail := true);
    }

    /** The response descriptor is free again. */
    method KeepInt(desc: int)
      requires Working() && |dma.hand| == 1 && desc == dma.hand[0] && dma.held == [dma.held[0]]
      requires !intAvail && dma.held[0].data == Block(RSP_BLOCK, false)
      modifies `st, `intDesc, `intAvail, dma
      ensures Working() && dma.held == [] && st == old(st).(intAvail := true)
    {
      hide HeapOk, DownAlone, Represents, AsideOk, DataOk, Ring.InOrder, OthersAside;
      ghost var s := dma.ThePool();
      dma.Keep(FreeInt);
      AsideIntBack(s, dma.ThePool(), fwAvail, fwDesc, fwData, intDesc, desc);
      intDesc := desc;
      intAvail := true;
      st := st.(intAvail := true);
    }

    /** The end of wlan_tx_status: the frame in hand leaves the tx path. */
    method FinishFrame(desc: int, super: Super, success: bool, ghost f: Frame)
      requires Working() && dma.held != [] && dma.hand != [] && desc == dma.hand[0]
      requires dma.held == f.bufs && SuperIn(frames, f) && super == f.super && WellTyped(super) && Down in st.io
      requires super.cab ==> super.vif < |cabLen|
      requires IsFwFrame(st, f) ==> |f.bufs| == 1 && !fwAvail
      modifies `st, `frames, `cabLen, `queuedBar, `fwDesc, `fwAvail, dma, dma.mem, ring, ring.cache
      ensures Working() && dma.held == [] && st == Finished(old(st), f, success)
    {
      hide HeapOk, DownAlone, Represents, AsideOk, DataOk, WellTyped, UnhideBuf, FreePackets, StatusOf, Ring.InOrder;
      dma.Facts();
      HideKeeps(dma.mem[desc].buf);
      WriteHeld(desc, UnhideBuf(dma.mem[desc].buf));
      dma.Facts();
      if dma.mem[desc].buf.data.id == fwData {
        KeepFw(desc);
        return;
      }
      ReleaseFrame(desc, super, success);
    }

    method UncountCab(super: Super)
      requires Working() && (super.cab ==> super.vif < |cabLen|)
      modifies `st, `cabLen
      ensures Working() && st == UncountedCab(old(st), super)
    {
      hide HeapOk, DownAlone, Represents, AsideOk, DataOk, Ring.InOrder;
      if super.cab {
        cabLen := cabLen[super.vif := cabLen[super.vif] - 1];
        st := st.(cabLen := cabLen);
      }
    }

    method UncountBar(isBar: bool)
      requires Working()
      modifies `st, `queuedBar
      ensures Working() && st == UncountedBar(old(st), isBar)
    {
      hide HeapOk, DownAlone, Represents, AsideOk, DataOk, Ring.InOrder;
      if isBar {
        queuedBar := queuedBar - 1;
        st := st.(queuedBar := queuedBar);
      }
    }

    /** A frame of the host is reported and its buffers are recycled. */
    method ReleaseFrame(desc: int, super: Super, success: bool)
      requires Working() && dma.held != [] && dma.hand != [] && desc == dma.hand[0] && dma.held[0].data.Block?
      requires WellTyped(super) && Down in st.io && (super.cab ==> super.vif < |cabLen|)
      modifies `st, `frames, `cabLen, `queuedBar, dma, dma.mem, ring, ring.cache
      ensures Working() && dma.held == [] && st == Released(old(st), super, success, old(dma.held))
    {
      hide HeapOk, DownAlone, Represents, AsideOk, DataOk, WellTyped, FreePackets, StatusOf, Ring.InOrder, Recycle;
      UncountCab(super);
      WlanTxComplete(desc, super, super.serial, success);
      UncountBar(super.isBar);
      RecycleIo(Down, desc);
    }

    /** A frame whose BlockAck is missing goes to the retry queue. */
    method RequeueHead(q: QueueId, b: Buf, s: Super)
      requires Working() && dma.held == [] && q in st.air && st.air[q] != [] && WellTyped(s) && Retry in st.air && q != Retry
      requires st.air[q][0].bufs != [] && st.air[q][0].bufs[0].data.Block? && b.data.Block? && SameData(st.air[q][0].bufs[0].data, b.data)
      modifies `st, `frames, dma, dma.mem
      ensures Working() && dma.held == []
      ensures st == Append(DropHead(old(st), q), Retry, PutFrame(Frame(old(st.air[q][0]).bufs[0 := b], s)))
    {
      hide HeapOk, DownAlone, Represents, AsideOk, DataOk, WellTyped, Ring.InOrder, SuperIn, PutFrame, SameData;
      ghost var f := Frame(st.air[q][0].bufs[0 := b], s);
      SetDrop(st, q, f);
      UpdateHead(q, b, s);
      var desc := TakeAir(q);
      PutAir(Retry, desc, f);
    }

    /** A frame leaves the tx path. */
    method FinishHead(q: QueueId, b: Buf, s: Super, success: bool)
      requires Working() && dma.held == [] && q in st.air && st.air[q] != [] && WellTyped(s) && Down in st.io
      requires st.air[q][0].bufs != [] && st.air[q][0].bufs[0].data.Block? && b.data == st.air[q][0].bufs[0].data
      requires s.cab ==> s.vif < |cabLen|
      requires IsFwFrame(st, st.air[q][0]) ==> |st.air[q][0].bufs| == 1 && !fwAvail
      modifies `st, `frames, `cabLen, `queuedBar, `fwDesc, `fwAvail, dma, dma.mem, ring, ring.cache
      ensures Working() && dma.held == []
      ensures st == Finished(DropHead(old(st), q), Frame(old(st.air[q][0]).bufs[0 := b], s), success)
    {
      hide HeapOk, DownAlone, Represents, AsideOk, DataOk, WellTyped, Ring.InOrder, SuperIn, Finished;
      ghost var f := Frame(st.air[q][0].bufs[0 := b], s);
      SetDrop(st, q, f);
      UpdateHead(q, b, s);
      var desc := TakeAir(q);
      FinishFrame(desc, s, success, f);
    }

    /** wlan_tx_status, for the first frame of tx queue `i`; tells whether the loop goes on. */
    method WlanTxStatus(i: nat) returns (more: bool)
      requires Ready() && i < TX_QUEUES && Completed(st, i)
      modifies `st, `frames, `cabLen, `queuedBar, `fwDesc, `fwAvail, dma, dma.mem, ring, ring.cache
      ensures Ready() && (st, more) == TxStatus(old(st), i)
      ensures HasHead(old(st), i) && StatusDid(old(st), i, st, more)
    {
      hide HeapOk, DownAlone, Represents, AsideOk, DataOk, WellTyped, Ring.InOrder, Inv, Completed, Finished, Append, DropHead, SetHead, PutFrame, StatusDid;
      StatusLaw(st, i);
      StatusKnown(st, i);
      FrameFacts(st, Tx(i), 0);
      StatusInv(st, i);
      var txFail, success := false, true;
      var b, super := HeadFrame(Tx(i));
      if FailBits(b) {
        txFail := b.ctrl.txFail;
        b := b.(ctrl := b.ctrl.(txFail := false, baFail := false));
        var again, s := WlanTxConsumeRetry(super);
        if again {
          ConsumeTyped(super);
          if !s.ampdu {
            s := s.(retry := true);
          }
          if txFail {
            UpdateHead(Tx(i), b.(own := Hw), s);
          } else {
            RequeueHead(Tx(i), b, s);
          }
          return !txFail;
        }
        success := false;
      }
      FinishHead(Tx(i), b, super, success);
      return !txFail;
    }

    /** The loop over the completed frames of a tx queue. */
    method ServeQueue(i: nat)
      requires Ready() && i < TX_QUEUES
      modifies `st, `frames, `cabLen, `queuedBar, `fwDesc, `fwAvail, dma, dma.mem, ring, ring.cache
      ensures Ready() && st == StatusLoop(old(st), i)
    {
      hide HeapOk, DownAlone, Represents, AsideOk, DataOk, WellTyped, Ring.InOrder, Inv, Completed, TxStatus;
      ghost var goal := StatusLoop(st, i);
      var more := true;
      while more
        invariant Ready() && (if more then StatusLoop(st, i) == goal else st == goal)
        decreases more, if Tx(i) in st.air then |st.air[Tx(i)]| else 0
      {
        CompletedIff(st, i);
        AirShown(dma.shown, frames, st.io, st.air, Tx(i));
        more := dma.HeadIs(Tx(i), Sw);
        if more {
          StatusShrinks(st, i);
          more := WlanTxStatus(i);
        }
      }
    }

    /** The loop that moves the retry queue back: __wlan_tx for every frame. */
    method RetryFrames()
      requires Ready() && Retry in st.air
      modifies `st, dma, dma.mem
      ensures Ready() && st == FlushRetry(old(st))
    {
      hide HeapOk, DownAlone, Represents, AsideOk, DataOk, WellTyped, Ring.InOrder, Inv, PutFrame, SuperIn;
      ghost var goal := FlushRetry(st);
      while true
        invariant Ready() && Retry in st.air && FlushRetry(st) == goal
        decreases |st.air[Retry]|
      {
        ghost var st0 := st;
        if st.air[Retry] != [] {
          FrameFacts(st, Retry, 0);
          StepInv(st, RetryOne);
        }
        var desc := TakeAir(Retry);
        if desc == NULL {
          break;
        }
        dma.Facts();
        SuperAt(frames, st0.air[Retry][0]);
        var super := frames[dma.mem[desc].buf.data.id];
        PutAir(Tx(super.queue), desc, st0.air[Retry][0]);
      }
    }

    /** handle_wlan_tx_completion */
    method HandleWlanTxCompletion()
      requires Valid()
      modifies `st, `frames, `cabLen, `queuedBar, `fwDesc, `fwAvail, dma, dma.mem, ring, ring.cache
      ensures Valid() && st == CompletionPass(old(st), TX_QUEUES)
    {
      hide HeapOk, DownAlone, Represents, AsideOk, DataOk, WellTyped, Ring.InOrder, Inv, CompletionPass, StatusLoop, FlushRetry;
      ghost var goal := CompletionPass(st, TX_QUEUES);
      var i := TX_QUEUES;
      while i > 0
        invariant 0 <= i <= TX_QUEUES && Valid() && CompletionPass(st, i) == goal
      {
        CompletionUnfold(st, i);
        i := i - 1;
        StatusLoopEffect(st, i);
        QueuePassEffect(st, i);
        ServeQueue(i);
        RetryFrames();
      }
      CompletionUnfold(st, 0);
    }

    /** wlan_tx_fw: `id` is the reserved buffer that holds the superframe `super`. */
    method WlanTxFw(id: nat, super: Super)
      requires Valid() && id <= CMD_BLOCK && WellTyped(super) && !super.cab && !super.isBar
      modifies `st, `frames, `cabLen, `queuedBar, `fwAvail, `fwData, dma, dma.mem
      ensures EntryQueue(super) in old(st).air && Valid() && st == SendFw(old(st), id, super)
    {
      hide HeapOk, DownAlone, Represents, AsideOk, DataOk, WellTyped, Ring.InOrder, Inv, Start;
      EntryInAir(st, super);
      StepInv(st, SendOwn(id, super));
      if !fwAvail {
        return;
      }
      StartKeepsRetry(st, id, super);
      var b := Buf(Sw, 0, Ctrl(false, false, true, true), super.len, super.len, Block(id, false));
      TakeFw(b, id, super);
      WlanTx(fwDesc, -1);
    }

    /** The reserved descriptor is set up for the buffer `id`. */
    method TakeFw(b: Buf, id: nat, super: Super)
      requires Working() && dma.held == [] && fwAvail && id <= CMD_BLOCK && WellTyped(super) && b.data == Block(id, false)
      modifies `st, `frames, `fwAvail, `fwData, dma, dma.mem
      ensures Working() && dma.held == [b] && dma.hand == [fwDesc] && st == old(st).(fwAvail := false, fwData := id)
      ensures frames == old(frames)[id := super]
    {
      hide HeapOk, DownAlone, Represents, AsideOk, DataOk, WellTyped, Ring.InOrder, OthersAside;
      ghost var s := dma.ThePool();
      CanTakeFw(s, dma.shown, dma.held, fwDesc, fwData, intAvail, intDesc);
      SetReserved(s, dma.shown, dma.held, frames, st.io, st.air, fwDesc, id, super);
      dma.Take(fwDesc, Desc(b, fwDesc, fwDesc));
      AsideFwGone(s, dma.ThePool(), fwDesc, fwData, id, intAvail, intDesc);
      TakenData(s.home, dma.home, frames, id);
      SetData(dma.home, frames, id, super);
      frames := frames[id := super];
      fwAvail, fwData := false, id;
      st := st.(fwAvail := false, fwData := id);
    }

    /** wlan_cab_flush_queue */
    method WlanCabFlushQueue(vif: nat)
      requires Valid() && vif < |cabLen|
      modifies `st, `frames, dma, dma.mem
      ensures Valid() && st == CabFlush(old(st), vif)
    {
      hide HeapOk, DownAlone, Represents, AsideOk, DataOk, WellTyped, Ring.InOrder, Inv, PutFrame, SuperIn;
      ghost var goal := CabFlush(st, vif);
      CabQueue(st, vif);
      while true
        invariant Valid() && Cab(vif) in st.air && CabFlush(st, vif) == goal
        decreases |st.air[Cab(vif)]|
      {
        ghost var st0 := st;
        if st.air[Cab(vif)] != [] {
          FrameFacts(st, Cab(vif), 0);
          CabNext(st, vif);
        } else {
          CabEmpty(st, vif);
        }
        var desc := TakeAir(Cab(vif));
        if desc == NULL {
          break;
        }
        CabFrame(desc, vif, st0.air[Cab(vif)][0]);
      }
    }

    /** The body of wlan_cab_flush_queue, for the frame `f` in hand. */
    method CabFrame(desc: int, vif: nat, ghost f: Frame)
      requires Working() && dma.held != [] && dma.hand != [] && desc == dma.hand[0]
      requires dma.held == f.bufs && SuperIn(frames, f) && Cab(vif) in st.air && Tx(f.super.queue) in st.air
      modifies `st, `frames, dma, dma.mem
      ensures Working() && dma.held == []
      ensures st == Append(old(st), Tx(f.super.queue), PutFrame(f.(super := f.super.(moreData := old(st.air[Cab(vif)]) != []))))
    {
      hide HeapOk, DownAlone, Represents, AsideOk, DataOk, WellTyped, Ring.InOrder, PutFrame;
      dma.Facts();
      SuperAt(frames, f);
      var super := frames[dma.mem[desc].buf.data.id];
      FrameTyped(dma.home, frames, dma.mem[desc].buf.data.id);
      AirShown(dma.shown, frames, st.io, st.air, Cab(vif));
      var empty := dma.IsEmpty(Cab(vif));
      MoreTyped(super, !empty);
      super := super.(moreData := !empty);
      SetSuper(desc, super);
      PutAir(Tx(super.queue), desc, f.(super := super));
    }

    // ----- hostif.c -----

    /** The body of handle_download, for the packet in hand. */
    method HandlePacket(desc: int)
      requires Working() && dma.held != [] && dma.hand != [] && desc == dma.hand[0] && Down in st.io
      requires dma.held[0].data.Block? && !dma.held[0].data.hidden && dma.held[0].data.id in frames
      requires var s := frames[dma.held[0].data.id]; EntryQueue(s) in st.air && (s.cab ==> s.vif < |cabLen|)
      modifies `st, `frames, `cabLen, `queuedBar, `serials, dma, dma.mem, ring, ring.cache
      ensures Working() && dma.held == []
      ensures var id := old(dma.held)[0].data.id;
              && st == Process(old(st), old(dma.held), old(frames)[id])
              && id in frames && frames == old(frames)[id := frames[id]]
    {
      hide HeapOk, DownAlone, Represents, AsideOk, DataOk, WellTyped, Ring.InOrder, Start, Started, FreePackets, StatusOf;
      dma.Facts();
      var super := frames[dma.mem[desc].buf.data.id];
      FrameTyped(dma.home, frames, dma.mem[desc].buf.data.id);
      var lengthOk := dma.mem[desc].buf.totalLen >= SUPERDESC_LEN && super.len <= dma.mem[desc].buf.totalLen;
      if !lengthOk {
        WlanTxComplete(desc, super, -1, false);
        RecycleIo(Down, desc);
      } else {
        Accept(super);
        WlanTx(desc, serials - 1);
      }
    }

    /** History: the host's superframe gets a number. */
    method Accept(super: Super)
      requires Working()
      modifies `st, `serials
      ensures Working() && st == old(st).(accepted := old(st).accepted + [super]) && serials == |old(st).accepted| + 1
    {
      hide HeapOk, DownAlone, Represents, AsideOk, DataOk, Ring.InOrder;
      serials := serials + 1;
      st := st.(accepted := st.accepted + [super]);
    }

    /** handle_download */
    method HandleDownload()
      requires Valid() && HostOk(frames, DownPackets(st), |cabLen|)
      modifies `st, `frames, `cabLen, `queuedBar, `serials, dma, dma.mem, ring, ring.cache
      ensures Valid() && st == DownloadAll(old(st), old(frames))
      ensures Down in old(st).io && DownloadDid(old(st), old(frames), st)
    {
      hide HeapOk, DownAlone, Represents, AsideOk, DataOk, WellTyped, Ring.InOrder, Inv, DownloadAll, Process, FreePackets, DownloadDid;
      DownloadLaw(st, frames);
      ghost var host, goal := frames, DownloadAll(st, frames);
      while true
        invariant Valid() && Down in st.io && DownloadAll(st, host) == goal
        invariant HostSame(frames, host, st.io[Down]) && HostOk(host, st.io[Down], |cabLen|)
        decreases FinishedCount(st.io[Down])
      {
        ghost var st0, frames0 := st, frames;
        var desc := TakeIo(Down);
        if desc == NULL {
          DownloadStop(st, host);
          break;
        }
        ghost var p, st1 := dma.held, st;
        DownloadReady(st0, host);
        DownloadNext(st0, host);
        HostSameTail(frames, host, st0.io[Down]);
        HeldIdFree(dma.ThePool(), dma.shown, dma.held, frames, st.io, st.air, Down);
        ProcessDown(st, p, frames[p[0].data.id]);
        HandlePacket(desc);
        HostSameAfter(frames0, host, st1.io[Down], p[0].data.id, frames[p[0].data.id], st.io[Down], p);
      }
    }

    /** handle_upload */
    method HandleUpload()
      requires Valid()
      modifies `st, `intDesc, `intAvail, dma, dma.mem
      ensures Valid() && st == UploadAll(old(st))
      ensures Rx in old(st).io && Up in old(st).io && Uploaded(old(st), st)
    {
      hide HeapOk, DownAlone, Represents, AsideOk, DataOk, WellTyped, Ring.InOrder, Inv, UploadAll, FreePackets, Uploaded;
      UploadLaw(st);
      ghost var goal := UploadAll(st);
      while true
        invariant Valid() && Up in st.io && UploadAll(st) == goal
        decreases |st.io[Up]|
      {
        ghost var st0 := st;
        IoFacts(st, Up);
        var desc := TakeIo(Up);
        if desc == NULL {
          UploadStop(st);
          break;
        }
        dma.Facts();
        UploadNext(st0);
        if dma.mem[desc].buf.data == Block(RSP_BLOCK, false) {
          HeldResponse(dma.ThePool(), dma.shown, dma.held, fwAvail, fwDesc, fwData, intAvail, intDesc);
          KeepInt(desc);
        } else {
          RecycleIo(Rx, desc);
        }
      }
    }

    /** The first loop of handle_download_exception; `target` is the hardware's current descriptor. */
    method RotateDown(target: int) returns (n: nat)
      requires Valid() && dma.RotationEnds(target)
      modifies `st, dma, dma.mem
      ensures Valid() && Down in old(st).io && n <= |old(st).io[Down]|
      ensures forall k {:trigger old(st).io[Down][k]} :: 0 <= k < n ==> |old(st).io[Down][k]| == 1 && old(st).io[Down][k][0].own == Hw
      ensures st == old(st).(io := old(st).io[Down := RotatedBy(old(st).io[Down], n)])
      ensures Down in dma.queues && (st.io[Down] != [] && st.io[Down][0] != [] && st.io[Down][0][0].own == Hw ==> dma.queues[Down].head == target)
    {
      hide HeapOk, DownAlone, Represents, AsideOk, DataOk, WellTyped, Ring.InOrder, Inv, AsideKept, Ends, Freed, RotatedBy, Heap.RotationEnds, Heap.FreeAreSingle;
      DownIsSingle();
      ghost var s, ps := dma.ThePool(), st.io[Down];
      n := dma.RotateTo(target);
      AsideStays(s, dma.ThePool(), frames, fwAvail, fwDesc, fwData, intAvail, intDesc);
      RotationsInv(st, n);
      RotatedSame(ps, n);
      SetIo(old(dma.shown), frames, st.io, st.air, Down, RotatedBy(ps, n));
      st := st.(io := st.io[Down := RotatedBy(ps, n)]);
    }

    /** The second loop of handle_download_exception. */
    method FixDownqueue()
      requires Valid()
      modifies `st, dma, dma.mem
      ensures Down in old(st).io && Valid() && st == FixAll(old(st))
    {
      hide HeapOk, DownAlone, Represents, AsideOk, DataOk, WellTyped, Ring.InOrder, Inv, AsideKept, FixedDown;
      DownIsSingle();
      ghost var s, ps := dma.ThePool(), st.io[Down];
      dma.FixDown();
      AsideStays(s, dma.ThePool(), frames, fwAvail, fwDesc, fwData, intAvail, intDesc);
      FixAllInv(st);
      SetIo(old(dma.shown), frames, st.io, st.air, Down, FixedDown(ps));
      st := st.(io := st.io[Down := FixedDown(ps)]);
    }

    /** handle_download_exception; `target` is the hardware's current descriptor. */
    method HandleDownloadException(target: int) returns (ghost n: nat)
      requires Valid() && dma.RotationEnds(target)
      modifies `st, dma, dma.mem
      ensures Valid() && Down in old(st).io && n <= |old(st).io[Down]|
      ensures forall k {:trigger old(st).io[Down][k]} :: 0 <= k < n ==> |old(st).io[Down][k]| == 1 && old(st).io[Down][k][0].own == Hw
      ensures st == FixAll(old(st).(io := old(st).io[Down := RotatedBy(old(st).io[Down], n)]))
    {
      hide HeapOk, DownAlone, Represents, AsideOk, DataOk, WellTyped, Ring.InOrder, Inv, RotatedBy, FixAll, Heap.RotationEnds;
      n := RotateDown(target);
      FixDownqueue();
    }

    lemma DownIsSingle()
      requires Valid()
      ensures Down in st.io && Down in dma.shown && dma.shown[Down] == st.io[Down] && dma.FreeAreSingle()
      ensures forall k {:trigger st.io[Down][k]} :: 0 <= k < |st.io[Down]| ==>
                st.io[Down][k] != [] && (st.io[Down][k][0].own == Hw ==> |st.io[Down][k]| == 1)
    {
      hide HeapOk, DownAlone, Represents, AsideOk, DataOk, WellTyped, Ring.InOrder, Inv;
      HasIo(st);
      IoShown(dma.shown, frames, st.io, st.air, Down);
      IoFacts(st, Down);
    }

    // ----- wlanrx.c -----

    /** handle_wlan_rx; `filter` is the verdict on the packet that starts with a buffer. */
    method HandleWlanRx(filter: Buf -> bool)
      requires Valid()
      modifies `st, dma, dma.mem
      ensures Valid() && st == ReceiveAll(old(st), filter)
      ensures Rx in old(st).io && Up in old(st).io && Received(old(st), filter, st)
    {
      hide HeapOk, DownAlone, Represents, AsideOk, DataOk, WellTyped, Ring.InOrder, Inv, ReceiveAll, FreePackets, PutPacket, Received;
      ReceiveLaw(st, filter);
      ghost var goal := ReceiveAll(st, filter);
      while true
        invariant Valid() && Rx in st.io && ReceiveAll(st, filter) == goal
        decreases FinishedCount(st.io[Rx])
      {
        ghost var st0 := st;
        IoFacts(st, Rx);
        var desc := TakeIo(Rx);
        if desc == NULL {
          ReceiveStop(st, filter);
          break;
        }
        dma.Facts();
        ReceiveNext(st0, filter);
        if filter(dma.mem[desc].buf) {
          RecycleIo(Rx, desc);
        } else {
          PutIo(Up, desc);
        }
      }
    }

    // ----- usb/main.c -----

    /** usb_status_in, when there are `len` bytes for the host. */
    method UsbStatusIn(len: u16)
      requires Valid()
      modifies `st, `intAvail, dma, dma.mem
      ensures old(Up in st.io) && Valid() && st == Respond(old(st), len)
    {
      hide HeapOk, DownAlone, Represents, AsideOk, DataOk, WellTyped, Ring.InOrder, Inv, PutPacket, OthersAside;
      HasIo(st);
      StepInv(st, RespondOne(len));
      if !intAvail {
        return;
      }
      ghost var s := dma.ThePool();
      CanTakeInt(s, dma.shown, dma.held, fwAvail, fwDesc, fwData, intDesc);
      IntBuf(s, fwAvail, fwDesc, fwData, intDesc, len);
      intAvail := false;
      st := st.(intAvail := false);
      var x := dma.mem[intDesc];
      x := x.(buf := x.buf.(ctrl := Ctrl(false, false, true, true), totalLen := len, dataSize := len));
      dma.Take(intDesc, x);
      AsideIntGone(s, dma.ThePool(), fwAvail, fwDesc, fwData, intDesc);
      TakenData(s.home, dma.home, frames, RSP_BLOCK);
      PutIo(Up, intDesc);
    }

    // ----- the hardware and the host -----

    /** The hardware sends frame `k` of a tx queue, or fails to; `ids` are the descriptors of the frame. */
    method HardwareSends(i: nat, k: nat, ids: seq<int>, p: Packet)
      requires Ready() && Enabled(st, AirDone(i, k, p))
      requires Tx(i) in dma.layout && k < |dma.layout[Tx(i)]| && ids == dma.layout[Tx(i)][k]
      modifies `st, dma, dma.mem
      ensures Ready() && st == Next(old(st), AirDone(i, k, p))
    {
      hide HeapOk, DownAlone, Represents, AsideOk, DataOk, Ring.InOrder, Inv, AsideKept, SameData;
      StepInv(st, AirDone(i, k, p));
      AirShown(dma.shown, frames, st.io, st.air, Tx(i));
      ghost var s, f := dma.ThePool(), st.air[Tx(i)][k].(bufs := p);
      SentSame(st.air[Tx(i)][k].bufs, p);
      dma.HardwareWrite(Tx(i), k, ids, p);
      AsideStays(s, dma.ThePool(), frames, fwAvail, fwDesc, fwData, intAvail, intDesc);
      SentRepresents(old(dma.shown), frames, st.io, st.air, Tx(i), k, p);
      st := st.(air := st.air[Tx(i) := st.air[Tx(i)][k := f]]);
    }

    /** The hardware finishes entries of an io queue; `ids` are their descriptors. */
    method HardwareFinishes(q: QueueId, k: nat, n: nat, ids: seq<int>, p: Packet)
      requires Ready() && Enabled(st, IoDone(q, k, n, p)) && dma.IdsOf(q, k, n, ids)
      modifies `st, dma, dma.mem
      ensures Ready() && st == Next(old(st), IoDone(q, k, n, p))
    {
      hide HeapOk, DownAlone, Represents, AsideOk, DataOk, Ring.InOrder, Inv, AsideKept, SameData, Singly, GroupedIds, Grouped;
      StepInv(st, IoDone(q, k, n, p));
      IoShown(dma.shown, frames, st.io, st.air, q);
      ghost var s, ps := dma.ThePool(), st.io[q];
      GroupSame(ps, k, n, p, dma.layout[q], ids);
      if n > 1 {
        dma.HardwareGroup(q, k, n, ids);
      } else {
        SameAside(s);
      }
      ghost var s1 := dma.ThePool();
      dma.HardwareWrite(q, k, ids, p);
      AsideTrans(s, s1, dma.ThePool());
      AsideStays(s, dma.ThePool(), frames, fwAvail, fwDesc, fwData, intAvail, intDesc);
      assert dma.shown == old(dma.shown)[q := ps[..k] + [p] + ps[k + n..]];
      SetIo(old(dma.shown), frames, st.io, st.air, q, ps[..k] + [p] + ps[k + n..]);
      st := st.(io := st.io[q := ps[..k] + [p] + ps[k + n..]]);
    }

    /** The host writes a superframe into the block of a free entry of the down queue. */
    method HostWrites(id: nat, s: Super)
      requires Ready() && WellTyped(s)
      requires exists k :: 0 <= k < |DownPackets(st)| && DownPackets(st)[k] != [] && DownPackets(st)[k][0].data == Block(id, false)
      modifies `frames
      ensures Ready() && frames == old(frames)[id := s]
    {
      hide HeapOk, DownAlone, AsideOk, DataOk, WellTyped, Ring.InOrder, Inv;
      ghost var k :| 0 <= k < |DownPackets(st)| && DownPackets(st)[k] != [] && DownPackets(st)[k][0].data == Block(id, false);
      SetQueueFrame(dma.ThePool(), dma.shown, dma.held, frames, st.io, st.air, Down, k, s);
      SetData(dma.home, frames, id, s);
      frames := frames[id := s];
    }
  }

  lemma SetDrop(st: Fw, q: QueueId, f: Frame)
    requires q in st.air && st.air[q] != []
    ensures DropHead(SetHead(st, q, f), q) == DropHead(st, q) && SetHead(st, q, f).air[q][0] == f
    ensures SetHead(st, q, f).air[q] != []
  {
  }

  lemma ConsumeTyped(s: Super)
    requires WellTyped(s) && s.rix < MAX_RATES && ConsumeRetry(s).Again?
    ensures WellTyped(ConsumeRetry(s).super) && WellTyped(ConsumeRetry(s).super.(retry := true))
  {
  }

  lemma SuperAt(frames: map<nat, Super>, f: Frame)
    requires SuperIn(frames, f)
    ensures f.bufs != [] && f.bufs[0].data.Block? && f.bufs[0].data.id in frames && frames[f.bufs[0].data.id] == f.super
  {
  }

  lemma IntBuf(s: Pool, fwAvail: bool, fwDesc: int, fwData: int, intDesc: int, len: u16)
    requires AsideOk(s, fwAvail, fwDesc, fwData, true, intDesc)
    ensures 0 <= intDesc < |s.m| && s.m[intDesc].last == intDesc && s.m[intDesc].buf.data == Block(RSP_BLOCK, false)
    ensures var b := s.m[intDesc].buf.(ctrl := Ctrl(false, false, true, true), totalLen := len, dataSize := len);
            PutPacket([b]) == PutPacket([Buf(Sw, 0, Ctrl(false, false, true, true), len, len, Block(RSP_BLOCK, false))])
  {
  }

  lemma TakenData(home: map<nat, int>, home': map<nat, int>, frames: map<nat, Super>, id: nat)
    requires DataOk(home, frames) && Reserved(id) && forall b :: b in home' ==> b in home || b == id
    ensures DataOk(home', frames)
  {
    hide WellTyped;
  }

  lemma SetData(home: map<nat, int>, frames: map<nat, Super>, id: nat, s: Super)
    requires DataOk(home, frames) && WellTyped(s)
    ensures DataOk(home, frames[id := s])
  {
    hide WellTyped;
  }

  lemma StartKeepsRetry(st: Fw, id: nat, s: Super)
    requires RetryEmpty(st) && EntryQueue(s) in st.air && (s.cab ==> s.vif < |st.cabLen|)
    ensures RetryEmpty(SendFw(st, id, s))
  {
  }

  lemma CabQueue(st: Fw, vif: nat)
    requires Inv(st) && vif < |st.cabLen|
    ensures Cab(vif) in st.air
  {
    hide AirOk, IoOk, ReportsOk, Total;
  }

  lemma CabNext(st: Fw, vif: nat)
    requires Inv(st) && RetryEmpty(st) && Cab(vif) in st.air && st.air[Cab(vif)] != []
    ensures Enabled(st, CabOne(vif)) && Inv(CabForward(st, vif)) && RetryEmpty(CabForward(st, vif))
    ensures CabFlush(st, vif) == CabFlush(CabForward(st, vif), vif)
    ensures Cab(vif) in CabForward(st, vif).air && |CabForward(st, vif).air[Cab(vif)]| < |st.air[Cab(vif)]|
  {
    hide Inv, PutFrame;
    FrameFacts(st, Cab(vif), 0);
    StepInv(st, CabOne(vif));
  }

  lemma MoreTyped(s: Super, more: bool)
    requires WellTyped(s)
    ensures WellTyped(s.(moreData := more))
  {
  }

  lemma RotatedSame(ps: seq<Packet>, n: nat)
    requires n <= |ps| && forall k {:trigger ps[k]} :: 0 <= k < |ps| ==> ps[k] != []
    ensures ps[n..] + Freed(ps[..n]) == RotatedBy(ps, n)
  {
  }

  lemma SentSame(p: Packet, p': Packet)
    requires SentAs(p, p')
    ensures |p'| == |p| && forall j :: 0 <= j < |p| ==> SameData(p[j].data, p'[j].data)
    ensures p != [] ==> p'[0].data == p[0].data
  {
  }

  lemma SentRepresents(shown: Shown, frames: map<nat, Super>, io: map<QueueId, seq<Packet>>, air: map<QueueId, seq<Frame>>,
                       q: QueueId, k: nat, p: Packet)
    requires Represents(shown, frames, io, air) && q in air && k < |air[q]|
    requires p != [] && air[q][k].bufs != [] && p[0].data == air[q][k].bufs[0].data
    ensures Represents(shown[q := shown[q][k := p]], frames, io, air[q := air[q][k := air[q][k].(bufs := p)]])
  {
    var fs := air[q][k := air[q][k].(bufs := p)];
    assert BufsOf(fs) == shown[q][k := p];
    SetAir(shown, frames, io, air, q, fs);
  }

  /** What HardwareGroup and HardwareWrite need for entries that the hardware finishes. */
  lemma GroupSame(ps: seq<Packet>, k: nat, n: nat, p: Packet, l: seq<seq<int>>, ids: seq<int>)
    requires 0 < n && k + n <= |ps| == |l| && GroupedAs(ps[k..k + n], p)
    requires n == 1 ==> ids == l[k]
    requires n > 1 ==> Singly(ps, l, k, n, ids)
    ensures n == 1 ==>
              && |p| == |ps[k]| && ps[k := p] == ps[..k] + [p] + ps[k + 1..]
              && forall j :: 0 <= j < |p| ==> SameData(ps[k][j].data, p[j].data)
    ensures n > 1 ==>
              && k < |Grouped(ps, k, n)| && k < |GroupedIds(l, ids, k, n)| && GroupedIds(l, ids, k, n)[k] == ids
              && Grouped(ps, k, n)[k := p] == ps[..k] + [p] + ps[k + n..] && |p| == |Grouped(ps, k, n)[k]|
              && forall j :: 0 <= j < |p| ==> SameData(Grouped(ps, k, n)[k][j].data, p[j].data)
  {
    if n == 1 {
      assert ps[k..k + n] == [ps[k]];
    } else {
      assert ids[..n] == ids;
      forall j | 0 <= j < |p| ensures SameData(Grouped(ps, k, n)[k][j].data, p[j].data) {
        assert ps[k..k + n][j] == ps[k + j];
      }
    }
  }

  lemma FrameTyped(home: map<nat, int>, frames: map<nat, Super>, id: nat)
    requires DataOk(home, frames) && id in frames
    ensures WellTyped(frames[id])
  {
  }

  lemma StatusWire(s: Super, serial: int, success: bool)
    ensures Wire(StatusOf(s, serial, success)) == Status(s.cookie, s.queue % 4, s.rix % 4, s.cnt % 8, success)
  {
  }

  lemma TypedCookie(s: Super)
    requires WellTyped(s)
    ensures WellTyped(s.(cookie := 0))
  {
  }

  lemma StartTyped(s: Super, serial: int)
    requires WellTyped(s)
    ensures WellTyped(s.(rix := 0, cnt := 1, serial := serial, attempts := 1))
  {
  }

  lemma HideKeeps(b: Buf)
    ensures SameData(b.data, HideBuf(b).data) && (b.data.Block? ==> HideBuf(b).data == Block(b.data.id, true))
    ensures SameData(b.data, UnhideBuf(b).data) && (b.data.Block? ==> UnhideBuf(b).data == Block(b.data.id, false))
  {
  }
}
