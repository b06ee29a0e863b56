/**
 Where the data blocks are: how many buffers in the queues refer to a block, and that no
 step changes this number. No block is lost, and none is in two places.
 */
module BlockCount {
  import opened Dma
  import opened Pools
  import opened TxSpec
  import opened TxRuns

  function Refers(b: Buf, id: nat): nat { if b.data.Block? && b.data.id == id then 1 else 0 }

  /** The number of buffers in a packet, in packets and in frames that refer to a block. */
  function InPacket(p: Packet, id: nat): nat
  {
    if p == [] then 0 else Refers(p[0], id) + InPacket(p[1..], id)
  }

  function InPackets(ps: seq<Packet>, id: nat): nat
  {
    if ps == [] then 0 else InPacket(ps[0], id) + InPackets(ps[1..], id)
  }

  function InFrames(fs: seq<Frame>, id: nat): nat
  {
    if fs == [] then 0 else InPacket(fs[0].bufs, id) + InFrames(fs[1..], id)
  }

  ghost function InAir(air: map<QueueId, seq<Frame>>, n: nat, id: nat): nat
    requires forall k :: 0 <= k < n ==> AirQueue(k) in air
  {
    if n == 0 then 0 else InAir(air, n - 1, id) + InFrames(air[AirQueue(n - 1)], id)
  }

  ghost predicate HasQueues(st: Fw)
  {
    AirKeys(st) && Up in st.io && Down in st.io && Rx in st.io
  }

  /** The number of buffers in all queues that refer to a block. */
  ghost function Count(st: Fw, id: nat): nat
    requires HasQueues(st)
  {
    InPackets(st.io[Up], id) + InPackets(st.io[Down], id) + InPackets(st.io[Rx], id)
    + InAir(st.air, TX_QUEUES + 1 + |st.cabLen|, id)
  }

  /** One buffer for every data block, and for the reserved blocks that are in use. */
  function Expected(st: Fw, id: nat): nat
  {
    if FIRST_DATA_BLOCK <= id < FIRST_DATA_BLOCK + st.blocks then 1
    else if id == RSP_BLOCK then if st.intAvail then 0 else 1
    else if id == st.fwData && !st.fwAvail then 1 else 0
  }

  ghost predicate BlocksOk(st: Fw)
  {
    HasQueues(st) && st.fwData <= CMD_BLOCK && forall id: nat :: Count(st, id) == Expected(st, id)
  }

  // ----- counting -----

  ghost predicate SameIds(p: Packet, p': Packet)
  {
    |p'| == |p| && forall j :: 0 <= j < |p| ==> p'[j].data.Block? == p[j].data.Block? && (p[j].data.Block? ==> p'[j].data.id == p[j].data.id)
  }

  lemma {:induction false} SamePacket(p: Packet, p': Packet, id: nat)
    requires SameIds(p, p')
    ensures InPacket(p', id) == InPacket(p, id)
  {
    if p != [] {
      SamePacket(p[1..], p'[1..], id);
    }
  }

  lemma {:induction false} PacketsAppend(ps: seq<Packet>, qs: seq<Packet>, id: nat)
    ensures InPackets(ps + qs, id) == InPackets(ps, id) + InPackets(qs, id)
  {
    if ps == [] {
      assert ps + qs == qs;
    } else {
      PacketsAppend(ps[1..], qs, id);
      assert (ps + qs)[1..] == ps[1..] + qs;
    }
  }

  lemma OnePacket(p: Packet, id: nat)
    ensures InPackets([p], id) == InPacket(p, id)
  {
    assert [p][1..] == [];
  }

  lemma OneBuffer(b: Buf, id: nat)
    ensures InPacket([b], id) == Refers(b, id)
  {
    assert [b][1..] == [];
  }

  /** Single entries hold as many references as the packet that they make up. */
  lemma {:induction false} SinglesCount(ps: seq<Packet>, p: Packet, id: nat)
    requires |ps| == |p| && forall j :: 0 <= j < |p| ==> |ps[j]| == 1 && SameIds(ps[j], [p[j]])
    ensures InPackets(ps, id) == InPacket(p, id)
  {
    if p != [] {
      SamePacket(ps[0], [p[0]], id);
      OneBuffer(p[0], id);
      SinglesCount(ps[1..], p[1..], id);
    }
  }

  lemma FreedCount(p: Packet, id: nat)
    ensures InPackets(FreePackets(p), id) == InPacket(p, id)
  {
    SinglesCount(FreePackets(p), p, id);
  }

  lemma {:induction false} FramesAppend(fs: seq<Frame>, f: Frame, id: nat)
    ensures InFrames(fs + [f], id) == InFrames(fs, id) + InPacket(f.bufs, id)
  {
    if fs == [] {
      assert [f][1..] == [] && fs + [f] == [f];
    } else {
      FramesAppend(fs[1..], f, id);
      assert (fs + [f])[1..] == fs[1..] + [f];
    }
  }

  lemma {:induction false} FramesSet(fs: seq<Frame>, k: nat, f: Frame, id: nat)
    requires k < |fs| && SameIds(fs[k].bufs, f.bufs)
    ensures InFrames(fs[k := f], id) == InFrames(fs, id)
  {
    if k == 0 {
      assert fs[k := f][1..] == fs[1..];
      SamePacket(fs[0].bufs, f.bufs, id);
    } else {
      FramesSet(fs[1..], k - 1, f, id);
      assert fs[k := f][1..] == fs[1..][k - 1 := f];
    }
  }

  lemma {:induction false} AirSet(air: map<QueueId, seq<Frame>>, n: nat, q: QueueId, fs: seq<Frame>, id: nat)
    requires forall k :: 0 <= k < n ==> AirQueue(k) in air
    requires q in air && (q.Retry? || (q.Tx? && q.i < TX_QUEUES) || q.Cab?)
    ensures InAir(air[q := fs], n, id) == InAir(air, n, id) + if AirIndex(q) < n then InFrames(fs, id) - InFrames(air[q], id) else 0
  {
    if n > 0 {
      AirSet(air, n - 1, q, fs, id);
      assert AirQueue(n - 1) == q <==> AirIndex(q) == n - 1;
    }
  }

  /** One air queue changes. */
  lemma AirChange(st: Fw, st': Fw, q: QueueId, id: nat)
    requires HasQueues(st) && q in st.air && q in st'.air && st'.air == st.air[q := st'.air[q]]
    requires |st'.cabLen| == |st.cabLen| && st'.io == st.io
    ensures HasQueues(st') && Count(st', id) == Count(st, id) + InFrames(st'.air[q], id) - InFrames(st.air[q], id)
  {
    AirSet(st.air, TX_QUEUES + 1 + |st.cabLen|, q, st'.air[q], id);
  }

  /** One io queue changes. */
  lemma IoChange(st: Fw, st': Fw, q: QueueId, id: nat)
    requires HasQueues(st) && (q == Up || q == Down || q == Rx) && q in st'.io && st'.io == st.io[q := st'.io[q]]
    requires |st'.cabLen| == |st.cabLen| && st'.air == st.air
    ensures HasQueues(st') && Count(st', id) == Count(st, id) + InPackets(st'.io[q], id) - InPackets(st.io[q], id)
  {
    hide InAir;
  }

  lemma NothingChanged(st: Fw, st': Fw, id: nat)
    requires HasQueues(st) && |st'.cabLen| == |st.cabLen| && st'.air == st.air && st'.io == st.io
    ensures HasQueues(st') && Count(st', id) == Count(st, id)
  {
  }

  // ----- the operations on queues -----

  lemma AppendCount(st: Fw, st': Fw, q: QueueId, f: Frame, id: nat)
    requires HasQueues(st) && q in st.air && st'.air == Append(st, q, f).air && |st'.cabLen| == |st.cabLen| && st'.io == st.io
    ensures HasQueues(st') && Count(st', id) == Count(st, id) + InPacket(f.bufs, id)
  {
    hide Count, AirKeys;
    AirChange(st, st', q, id);
    FramesAppend(st.air[q], f, id);
  }

  lemma DropCount(st: Fw, q: QueueId, id: nat)
    requires HasQueues(st) && q in st.air && st.air[q] != []
    ensures HasQueues(DropHead(st, q)) && Count(DropHead(st, q), id) == Count(st, id) - InPacket(st.air[q][0].bufs, id)
  {
    hide Count, AirKeys;
    AirChange(st, DropHead(st, q), q, id);
  }

  lemma SetCount(st: Fw, st': Fw, q: QueueId, k: nat, f: Frame, id: nat)
    requires HasQueues(st) && q in st.air && k < |st.air[q]| && SameIds(st.air[q][k].bufs, f.bufs)
    requires st'.air == st.air[q := st.air[q][k := f]] && |st'.cabLen| == |st.cabLen| && st'.io == st.io
    ensures HasQueues(st') && Count(st', id) == Count(st, id)
  {
    hide Count, AirKeys;
    AirChange(st, st', q, id);
    FramesSet(st.air[q], k, f, id);
  }

  lemma DropIoCount(st: Fw, q: QueueId, id: nat)
    requires HasQueues(st) && (q == Up || q == Down || q == Rx) && st.io[q] != []
    ensures HasQueues(DropIo(st, q)) && Count(DropIo(st, q), id) == Count(st, id) - InPacket(st.io[q][0], id)
  {
    hide Count, AirKeys;
    IoChange(st, DropIo(st, q), q, id);
  }

  lemma AppendIoCount(st: Fw, q: QueueId, p: Packet, id: nat)
    requires HasQueues(st) && (q == Up || q == Down || q == Rx)
    ensures HasQueues(AppendIo(st, q, p)) && Count(AppendIo(st, q, p), id) == Count(st, id) + InPacket(p, id)
  {
    hide Count, AirKeys;
    IoChange(st, AppendIo(st, q, p), q, id);
    PacketsAppend(st.io[q], [p], id);
    OnePacket(p, id);
  }

  lemma RecycleCount(st: Fw, q: QueueId, p: Packet, id: nat)
    requires HasQueues(st) && (q == Up || q == Down || q == Rx)
    ensures HasQueues(Recycle(st, q, p)) && Count(Recycle(st, q, p), id) == Count(st, id) + InPacket(p, id)
  {
    hide Count, AirKeys, FreePackets;
    IoChange(st, Recycle(st, q, p), q, id);
    PacketsAppend(st.io[q], FreePackets(p), id);
    FreedCount(p, id);
  }

  /** The hardware makes one packet of some entries. */
  lemma GroupCount(st: Fw, q: QueueId, k: nat, n: nat, p: Packet, id: nat)
    requires HasQueues(st) && (q == Up || q == Down || q == Rx) && k + n <= |st.io[q]|
    requires InPackets(st.io[q][k..k + n], id) == InPacket(p, id)
    ensures var st' := st.(io := st.io[q := st.io[q][..k] + [p] + st.io[q][k + n..]]);
            HasQueues(st') && Count(st', id) == Count(st, id)
  {
    hide Count, AirKeys;
    var ps := st.io[q];
    var st' := st.(io := st.io[q := ps[..k] + [p] + ps[k + n..]]);
    IoChange(st, st', q, id);
    PacketsAppend(ps[..k] + [p], ps[k + n..], id);
    PacketsAppend(ps[..k], [p], id);
    OnePacket(p, id);
    assert ps == ps[..k] + ps[k..k + n] + ps[k + n..];
    PacketsAppend(ps[..k] + ps[k..k + n], ps[k + n..], id);
    PacketsAppend(ps[..k], ps[k..k + n], id);
  }

  /** The buffers of an entry become entries of their own. */
  lemma FixCount(st: Fw, k: nat, id: nat)
    requires HasQueues(st) && k < |st.io[Down]| && st.io[Down][k] != []
    ensures HasQueues(FixEntry(st, k)) && Count(FixEntry(st, k), id) == Count(st, id)
  {
    hide Count, AirKeys, FixBuf, Entries;
    var ps := st.io[Down];
    var p := ps[k];
    var qs: seq<Packet> := [[FixBuf(p[0])]] + Entries(p[1..]);
    IoChange(st, FixEntry(st, k), Down, id);
    FixedSame(p);
    SinglesCount(qs, p, id);
    assert ps[..k] + [[FixBuf(p[0])]] + Entries(p[1..]) + ps[k + 1..] == ps[..k] + qs + ps[k + 1..];
    PacketsAppend(ps[..k] + qs, ps[k + 1..], id);
    PacketsAppend(ps[..k], qs, id);
    assert ps == ps[..k] + [p] + ps[k + 1..];
    PacketsAppend(ps[..k] + [p], ps[k + 1..], id);
    PacketsAppend(ps[..k], [p], id);
    OnePacket(p, id);
  }

  lemma FixedSame(p: Packet)
    requires p != []
    ensures var qs: seq<Packet> := [[FixBuf(p[0])]] + Entries(p[1..]);
            |qs| == |p| && forall j :: 0 <= j < |p| ==> |qs[j]| == 1 && SameIds(qs[j], [p[j]])
  {
  }

  lemma PutSame(p: Packet)
    requires p != []
    ensures SameIds(p, PutPacket(p))
  {
  }

  /** wlan_tx */
  lemma StartCount(st: Fw, f: Frame, serial: int, id: nat)
    requires HasQueues(st) && f.bufs != [] && EntryQueue(f.super) in st.air && (f.super.cab ==> f.super.vif < |st.cabLen|)
    ensures HasQueues(Start(st, f, serial)) && Count(Start(st, f, serial), id) == Count(st, id) + InPacket(f.bufs, id)
  {
    hide Count, AirKeys, PutPacket;
    var g := PutFrame(Started(f, serial));
    AppendCount(st, Start(st, f, serial), EntryQueue(f.super), g, id);
    PutSame(Started(f, serial).bufs);
    assert SameIds(f.bufs, Started(f, serial).bufs);
    SamePacket(f.bufs, g.bufs, id);
  }

  /** A frame that leaves the tx path leaves its blocks in the down queue, unless it is the firmware's own. */
  lemma FinishedBlocks(st: Fw, f: Frame, success: bool, id: nat)
    requires HasQueues(st) && f.bufs != [] && (f.super.cab ==> f.super.vif < |st.cabLen|)
    ensures HasQueues(Finished(st, f, success))
    ensures Count(Finished(st, f, success), id) == Count(st, id) + if IsFwFrame(st, f) then 0 else InPacket(f.bufs, id)
  {
    hide Count, AirKeys, Recycle, StatusOf;
    if IsFwFrame(st, f) {
      NothingChanged(st, Finished(st, f, success), id);
    } else {
      var p := f.bufs[0 := UnhideBuf(f.bufs[0])];
      var st1 := UncountedBar(WithReport(UncountedCab(st, f.super), StatusOf(f.super, f.super.serial, success)), f.super.isBar);
      NothingChanged(st, st1, id);
      RecycleCount(st1, Down, p, id);
      assert SameIds(f.bufs, p);
      SamePacket(f.bufs, p, id);
    }
  }

  /** wlan_tx_status */
  lemma StatusCount(st: Fw, i: nat, id: nat)
    requires HasQueues(st) && Completed(st, i)
    ensures var f := st.air[Tx(i)][0];
            && HasQueues(TxStatus(st, i).0)
            && Count(TxStatus(st, i).0, id) ==
               Count(st, id) - if StatusOutcome(f).Finish? && IsFwFrame(st, f) then InPacket(f.bufs, id) else 0
  {
    hide Count, AirKeys, PutPacket, Finished, ConsumeRetry, WellTyped;
    var q := Tx(i);
    var f := st.air[q][0];
    var st1 := DropHead(st, q);
    match StatusOutcome(f)
    case Resend(g) =>
      assert [g] + st.air[q][1..] == st.air[q][0 := g];
      SetCount(st, SetHead(st, q, g), q, 0, g, id);
    case Requeue(g) =>
      DropCount(st, q, id);
      AppendCount(st1, Append(st1, Retry, PutFrame(g)), Retry, PutFrame(g), id);
      PutSame(g.bufs);
      assert SameIds(f.bufs, g.bufs);
      SamePacket(f.bufs, PutFrame(g).bufs, id);
    case Finish(success, txFail) =>
      var b := f.bufs[0];
      var g := f.(bufs := f.bufs[0 := b.(ctrl := b.ctrl.(txFail := false, baFail := false))]);
      DropCount(st, q, id);
      FinishedBlocks(st1, g, success, id);
      assert SameIds(f.bufs, g.bufs);
      SamePacket(f.bufs, g.bufs, id);
  }

  /** A frame moves from the retry queue or a cab queue to a tx queue. */
  lemma ForwardCount(st: Fw, q: QueueId, r: QueueId, s: Super, id: nat)
    requires HasQueues(st) && q in st.air && r in st.air && st.air[q] != [] && st.air[q][0].bufs != []
    ensures var st' := Append(DropHead(st, q), r, PutFrame(st.air[q][0].(super := s)));
            HasQueues(st') && Count(st', id) == Count(st, id)
  {
    hide Count, AirKeys, PutPacket;
    var f := st.air[q][0];
    var g := PutFrame(f.(super := s));
    DropCount(st, q, id);
    AppendCount(DropHead(st, q), Append(DropHead(st, q), r, g), r, g, id);
    PutSame(f.bufs);
    SamePacket(f.bufs, g.bufs, id);
  }

  // ----- a block that is counted is somewhere -----

  lemma {:induction false} FindBuffer(p: Packet, id: nat) returns (j: nat)
    requires InPacket(p, id) > 0
    ensures j < |p| && p[j].data.Block? && p[j].data.id == id
  {
    if Refers(p[0], id) > 0 {
      j := 0;
    } else {
      j := FindBuffer(p[1..], id);
      j := j + 1;
    }
  }

  lemma {:induction false} FindPacket(ps: seq<Packet>, id: nat) returns (k: nat, j: nat)
    requires InPackets(ps, id) > 0
    ensures k < |ps| && j < |ps[k]| && ps[k][j].data.Block? && ps[k][j].data.id == id
  {
    if InPacket(ps[0], id) > 0 {
      k := 0;
      j := FindBuffer(ps[0], id);
    } else {
      k, j := FindPacket(ps[1..], id);
      k := k + 1;
    }
  }

  lemma {:induction false} FindFrame(fs: seq<Frame>, id: nat) returns (k: nat, j: nat)
    requires InFrames(fs, id) > 0
    ensures k < |fs| && j < |fs[k].bufs| && fs[k].bufs[j].data.Block? && fs[k].bufs[j].data.id == id
  {
    if InPacket(fs[0].bufs, id) > 0 {
      k := 0;
      j := FindBuffer(fs[0].bufs, id);
    } else {
      k, j := FindFrame(fs[1..], id);
      k := k + 1;
    }
  }

  lemma {:induction false} FindAir(air: map<QueueId, seq<Frame>>, n: nat, id: nat) returns (q: QueueId, k: nat, j: nat)
    requires forall k :: 0 <= k < n ==> AirQueue(k) in air
    requires InAir(air, n, id) > 0
    ensures q in air && k < |air[q]| && j < |air[q][k].bufs|
    ensures air[q][k].bufs[j].data.Block? && air[q][k].bufs[j].data.id == id
  {
    q := AirQueue(n - 1);
    if InFrames(air[q], id) > 0 {
      k, j := FindFrame(air[q], id);
    } else {
      q, k, j := FindAir(air, n - 1, id);
    }
  }
}
