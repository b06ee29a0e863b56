/**
 How the objects of the firmware represent the abstract state of the tx path.
 */
module FirmwareView {
  import opened Dma
  import opened Pools
  import opened PoolView
  import opened TxSpec
  import opened BlockCount
  import opened HostPass

  function BufsOf(fs: seq<Frame>): (r: seq<Packet>)
    ensures |r| == |fs|
  {
    seq(|fs|, k requires 0 <= k < |fs| => fs[k].bufs)
  }

  /** The superframe of `f` is in the block that its first buffer refers to. */
  ghost predicate SuperIn(frames: map<nat, Super>, f: Frame)
  {
    && f.bufs != [] && f.bufs[0].data.Block? && f.bufs[0].data.id in frames
    && frames[f.bufs[0].data.id] == f.super
  }

  /** The queues contain what `io` and `air` say. */
  ghost predicate Represents(shown: Shown, frames: map<nat, Super>, io: map<QueueId, seq<Packet>>, air: map<QueueId, seq<Frame>>)
  {
    && shown.Keys == io.Keys + air.Keys && io.Keys !! air.Keys
    && (forall q {:trigger io[q]} :: q in io ==> shown[q] == io[q])
    && (forall q {:trigger air[q]} :: q in air ==> shown[q] == BufsOf(air[q]))
    && (forall q, k {:trigger air[q][k]} :: q in air && 0 <= k < |air[q]| ==> SuperIn(frames, air[q][k]))
  }

  lemma SetIo(shown: Shown, frames: map<nat, Super>, io: map<QueueId, seq<Packet>>, air: map<QueueId, seq<Frame>>,
              q: QueueId, ps: seq<Packet>)
    requires Represents(shown, frames, io, air) && q in io
    ensures Represents(shown[q := ps], frames, io[q := ps], air)
  {
  }

  lemma SetAir(shown: Shown, frames: map<nat, Super>, io: map<QueueId, seq<Packet>>, air: map<QueueId, seq<Frame>>,
               q: QueueId, fs: seq<Frame>)
    requires Represents(shown, frames, io, air) && q in air
    requires forall k {:trigger fs[k]} :: 0 <= k < |fs| ==> SuperIn(frames, fs[k])
    ensures Represents(shown[q := BufsOf(fs)], frames, io, air[q := fs])
  {
  }

  /** A superframe that no frame in a queue refers to may change. */
  lemma SetFrames(shown: Shown, frames: map<nat, Super>, io: map<QueueId, seq<Packet>>, air: map<QueueId, seq<Frame>>,
                  id: nat, s: Super)
    requires Represents(shown, frames, io, air)
    requires forall q, k {:trigger air[q][k]} :: q in air && 0 <= k < |air[q]| && air[q][k].bufs != [] ==>
               air[q][k].bufs[0].data != Block(id, true) && air[q][k].bufs[0].data != Block(id, false)
    ensures Represents(shown, frames[id := s], io, air)
  {
  }

  /** The descriptors and blocks that are set aside. */
  ghost predicate AsideOk(s: Pool, fwAvail: bool, fwDesc: int, fwData: int, intAvail: bool, intDesc: int)
  {
    && |s.place| == |s.m|
    && (forall d {:trigger s.place[d]} :: 0 <= d < |s.place| ==>
          && (s.place[d] == FreeFw <==> fwAvail && d == fwDesc)
          && (s.place[d] == FreeInt <==> intAvail && d == intDesc)
          && s.place[d] != Unused)
    && (fwAvail ==> 0 <= fwDesc < |s.m| && s.m[fwDesc].buf.data == if fwData < 0 then NoData else Block(fwData, false))
    && (intAvail ==> 0 <= intDesc < |s.m| && s.m[intDesc].last == intDesc && s.m[intDesc].buf.data == Block(RSP_BLOCK, false))
    && (forall b :: b in s.home && b <= CMD_BLOCK ==> b == fwData)
  }

  /** Every data block in use holds a superframe, whose fields are within their width. */
  ghost predicate DataOk(home: map<nat, int>, frames: map<nat, Super>)
  {
    && (forall b :: b in home && !Reserved(b) ==> b in frames)
    && (forall b :: b in frames ==> WellTyped(frames[b]))
  }

  lemma AsideStays(s: Pool, s': Pool, frames: map<nat, Super>, fwAvail: bool, fwDesc: int, fwData: int, intAvail: bool, intDesc: int)
    requires AsideOk(s, fwAvail, fwDesc, fwData, intAvail, intDesc) && DataOk(s.home, frames) && AsideKept(s, s')
    ensures AsideOk(s', fwAvail, fwDesc, fwData, intAvail, intDesc) && DataOk(s'.home, frames)
  {
    hide WellTyped;
    forall d | 0 <= d < |s'.place|
      ensures s'.place[d] == FreeFw <==> fwAvail && d == fwDesc
      ensures s'.place[d] == FreeInt <==> intAvail && d == intDesc
      ensures s'.place[d] != Unused
    {
      assert KeptAside(s, s', d);
    }
    if fwAvail {
      assert s.place[fwDesc] == FreeFw && KeptAside(s, s', fwDesc);
    }
    if intAvail {
      assert s.place[intDesc] == FreeInt && KeptAside(s, s', intDesc);
    }
    assert forall b :: b in s'.home ==> b in s'.home.Keys && b in s.home.Keys;
  }

  lemma IoShown(shown: Shown, frames: map<nat, Super>, io: map<QueueId, seq<Packet>>, air: map<QueueId, seq<Frame>>, q: QueueId)
    requires Represents(shown, frames, io, air) && q in io
    ensures q in shown && shown[q] == io[q]
  {
  }

  lemma AirShown(shown: Shown, frames: map<nat, Super>, io: map<QueueId, seq<Packet>>, air: map<QueueId, seq<Frame>>, q: QueueId)
    requires Represents(shown, frames, io, air) && q in air
    ensures q in shown && shown[q] == BufsOf(air[q])
    ensures forall k {:trigger air[q][k]} :: 0 <= k < |air[q]| ==> SuperIn(frames, air[q][k])
  {
  }

  /** The superframe of the packet in hand may change: no frame in a queue shares its block. */
  lemma SetHeldSuper(p: Pool, shown: Shown, held: Packet, frames: map<nat, Super>,
                     io: map<QueueId, seq<Packet>>, air: map<QueueId, seq<Frame>>, s: Super)
    requires HeapOk(p, shown, held) && held != [] && held[0].data.Block? && Represents(shown, frames, io, air)
    ensures Represents(shown, frames[held[0].data.id := s], io, air)
  {
    forall q, k | q in air && 0 <= k < |air[q]| && air[q][k].bufs != [] && air[q][k].bufs[0].data.Block?
      ensures air[q][k].bufs[0].data.id != held[0].data.id
    {
      assert shown[q][k] == air[q][k].bufs;
      HandApart(p, shown, held, 0, q, k, 0);
    }
    SetFrames(shown, frames, io, air, held[0].data.id, s);
  }

  /** A superframe in the block of the first frame of an air queue belongs to no other frame. */
  lemma OtherFrames(p: Pool, shown: Shown, held: Packet, frames: map<nat, Super>,
                    io: map<QueueId, seq<Packet>>, air: map<QueueId, seq<Frame>>, q: QueueId, s: Super)
    requires HeapOk(p, shown, held) && Represents(shown, frames, io, air) && q in air && air[q] != []
    requires air[q][0].bufs != [] && air[q][0].bufs[0].data.Block?
    ensures forall r, k {:trigger air[r][k]} :: r in air && 0 <= k < |air[r]| && (r != q || k > 0) ==>
              SuperIn(frames[air[q][0].bufs[0].data.id := s], air[r][k])
  {
    hide PoolOk, Shows, Holds, Placed, Represents;
    AirShown(shown, frames, io, air, q);
    forall r, k | r in air && 0 <= k < |air[r]| && (r != q || k > 0)
      ensures SuperIn(frames[air[q][0].bufs[0].data.id := s], air[r][k])
    {
      AirShown(shown, frames, io, air, r);
      BlocksApart(p, shown, q, 0, 0, r, k, 0);
    }
  }

  /** The first frame of an air queue gets another first buffer over its block, and another superframe. */
  lemma SetHeadFrame(p: Pool, shown: Shown, held: Packet, frames: map<nat, Super>,
                     io: map<QueueId, seq<Packet>>, air: map<QueueId, seq<Frame>>, q: QueueId, b: Buf, s: Super)
    requires HeapOk(p, shown, held) && Represents(shown, frames, io, air) && q in air && air[q] != []
    requires air[q][0].bufs != [] && air[q][0].bufs[0].data.Block? && SameData(air[q][0].bufs[0].data, b.data)
    ensures q in shown && |shown[q]| == |air[q]| && shown[q][0] == air[q][0].bufs
    ensures var f := Frame(air[q][0].bufs[0 := b], s);
            Represents(shown[q := shown[q][0 := shown[q][0][0 := b]]], frames[b.data.id := s], io, air[q := [f] + air[q][1..]])
  {
    hide HeapOk;
    AirShown(shown, frames, io, air, q);
    OtherFrames(p, shown, held, frames, io, air, q, s);
    var f := Frame(air[q][0].bufs[0 := b], s);
    var fs := [f] + air[q][1..];
    assert BufsOf(fs) == shown[q][0 := shown[q][0][0 := b]];
    forall k | 0 <= k < |fs| ensures SuperIn(frames[b.data.id := s], fs[k]) {
      assert k > 0 ==> fs[k] == air[q][k];
    }
  }

  /** The firmware's own descriptor comes back. */
  lemma AsideFwBack(s: Pool, s': Pool, fwDesc: int, fwData: int, intAvail: bool, intDesc: int, d: int)
    requires AsideOk(s, false, fwDesc, fwData, intAvail, intDesc) && OthersAside(s, s', d) && s'.home == s.home
    requires fwData >= 0 && 0 <= d < |s'.m| && s'.place[d] == FreeFw && s'.m[d].buf.data == Block(fwData, false)
    requires d < |s.place| && !IsAside(s.place[d])
    ensures AsideOk(s', true, d, fwData, intAvail, intDesc)
  {
    forall e | 0 <= e < |s'.place|
      ensures s'.place[e] == FreeFw <==> e == d
      ensures s'.place[e] == FreeInt <==> intAvail && e == intDesc
      ensures s'.place[e] != Unused
    {
      assert e != d ==> KeptAside(s, s', e);
    }
    if intAvail {
      assert s.place[intDesc] == FreeInt && KeptAside(s, s', intDesc);
    }
  }

  /** The response descriptor comes back. */
  lemma AsideIntBack(s: Pool, s': Pool, fwAvail: bool, fwDesc: int, fwData: int, intDesc: int, d: int)
    requires AsideOk(s, fwAvail, fwDesc, fwData, false, intDesc) && OthersAside(s, s', d) && s'.home == s.home
    requires 0 <= d < |s'.m| && s'.place[d] == FreeInt && s'.m[d].buf.data == Block(RSP_BLOCK, false) && s'.m[d].last == d
    requires d < |s.place| && !IsAside(s.place[d])
    ensures AsideOk(s', fwAvail, fwDesc, fwData, true, d)
  {
    forall e | 0 <= e < |s'.place|
      ensures s'.place[e] == FreeFw <==> fwAvail && e == fwDesc
      ensures s'.place[e] == FreeInt <==> e == d
      ensures s'.place[e] != Unused
    {
      assert e != d ==> KeptAside(s, s', e);
    }
    if fwAvail {
      assert s.place[fwDesc] == FreeFw && KeptAside(s, s', fwDesc);
    }
  }

  /** No packet of an io queue starts in the block of the packet in hand. */
  lemma HeldIdFree(p: Pool, shown: Shown, held: Packet, frames: map<nat, Super>,
                   io: map<QueueId, seq<Packet>>, air: map<QueueId, seq<Frame>>, q: QueueId)
    requires HeapOk(p, shown, held) && held != [] && held[0].data.Block? && Represents(shown, frames, io, air) && q in io
    ensures IdFree(io[q], held[0].data.id)
  {
    forall k | 0 <= k < |io[q]| && io[q][k] != [] && io[q][k][0].data.Block?
      ensures io[q][k][0].data.id != held[0].data.id
    {
      assert shown[q] == io[q];
      HandApart(p, shown, held, 0, q, k, 0);
    }
  }

  /** While the response buffer is in use, its descriptor is not available. */
  lemma HeldResponse(p: Pool, shown: Shown, held: Packet, fwAvail: bool, fwDesc: int, fwData: int, intAvail: bool, intDesc: int)
    requires HeapOk(p, shown, held) && held != [] && held[0].data.Block? && held[0].data.id == RSP_BLOCK
    requires AsideOk(p, fwAvail, fwDesc, fwData, intAvail, intDesc)
    ensures !intAvail
  {
    hide QueueOk, Shows;
    assert p.hand[0] in p.hand && p.m[p.hand[0]].buf == held[0];
    assert p.place[p.hand[0]] == Hand;
  }

  /** The response descriptor can be taken. */
  lemma CanTakeInt(p: Pool, shown: Shown, held: Packet, fwAvail: bool, fwDesc: int, fwData: int, intDesc: int)
    requires HeapOk(p, shown, held) && AsideOk(p, fwAvail, fwDesc, fwData, true, intDesc)
    ensures 0 <= intDesc < |p.m| == |p.place| && IsAside(p.place[intDesc])
    ensures RSP_BLOCK in p.home ==> p.home[RSP_BLOCK] == intDesc
  {
    hide QueueOk, Shows;
    assert p.place[intDesc] == FreeInt;
  }

  /** The firmware's own descriptor can be taken, for either of the buffers that it is used with. */
  lemma CanTakeFw(p: Pool, shown: Shown, held: Packet, fwDesc: int, fwData: int, intAvail: bool, intDesc: int)
    requires HeapOk(p, shown, held) && AsideOk(p, true, fwDesc, fwData, intAvail, intDesc)
    ensures 0 <= fwDesc < |p.m| == |p.place| && IsAside(p.place[fwDesc])
    ensures forall b :: b in p.home && b <= CMD_BLOCK ==> p.home[b] == fwDesc
  {
    hide QueueOk, Shows;
    assert p.place[fwDesc] == FreeFw;
  }

  lemma AsideIntGone(s: Pool, s': Pool, fwAvail: bool, fwDesc: int, fwData: int, intDesc: int)
    requires AsideOk(s, fwAvail, fwDesc, fwData, true, intDesc) && OthersAside(s, s', intDesc) && !IsAside(s'.place[intDesc])
    requires forall b :: b in s'.home ==> (b in s.home && s.home[b] != intDesc) || b == RSP_BLOCK
    ensures AsideOk(s', fwAvail, fwDesc, fwData, false, intDesc)
  {
    forall e | 0 <= e < |s'.place|
      ensures s'.place[e] == FreeFw <==> fwAvail && e == fwDesc
      ensures s'.place[e] != FreeInt && s'.place[e] != Unused
    {
      assert e != intDesc ==> KeptAside(s, s', e);
      assert s.place[intDesc] == FreeInt;
    }
    if fwAvail {
      assert s.place[fwDesc] == FreeFw && KeptAside(s, s', fwDesc);
    }
  }

  lemma AsideFwGone(s: Pool, s': Pool, fwDesc: int, fwData: int, id: nat, intAvail: bool, intDesc: int)
    requires AsideOk(s, true, fwDesc, fwData, intAvail, intDesc) && OthersAside(s, s', fwDesc) && !IsAside(s'.place[fwDesc])
    requires forall b :: b in s.home && b <= CMD_BLOCK ==> s.home[b] == fwDesc
    requires forall b :: b in s'.home ==> (b in s.home && s.home[b] != fwDesc) || b == id
    ensures AsideOk(s', false, fwDesc, id, intAvail, intDesc)
  {
    forall e | 0 <= e < |s'.place|
      ensures s'.place[e] != FreeFw && s'.place[e] != Unused
      ensures s'.place[e] == FreeInt <==> intAvail && e == intDesc
    {
      assert e != fwDesc ==> KeptAside(s, s', e);
      assert s.place[fwDesc] == FreeFw;
    }
    if intAvail {
      assert s.place[intDesc] == FreeInt && KeptAside(s, s', intDesc);
    }
  }

  /** A reserved buffer that no descriptor in a queue refers to may be written. */
  lemma SetReserved(p: Pool, shown: Shown, held: Packet, frames: map<nat, Super>,
                    io: map<QueueId, seq<Packet>>, air: map<QueueId, seq<Frame>>, fwDesc: int, id: nat, s: Super)
    requires HeapOk(p, shown, held) && Represents(shown, frames, io, air)
    requires id in p.home ==> p.home[id] == fwDesc && 0 <= fwDesc < |p.place| && IsAside(p.place[fwDesc])
    ensures Represents(shown, frames[id := s], io, air)
  {
    hide QueueOk;
    forall q, k | q in air && 0 <= k < |air[q]| && air[q][k].bufs != [] && air[q][k].bufs[0].data.Block?
      ensures air[q][k].bufs[0].data.id != id
    {
      assert shown[q][k] == air[q][k].bufs;
      assert QueueOk(p, q);
      ShownAt(p, shown, q, k, 0);
      InSpine(p, q, k, p.layout[q][k][0]);
    }
    SetFrames(shown, frames, io, air, id, s);
  }

  /** The superframe in the first block of a packet of an io queue may be written. */
  lemma SetQueueFrame(p: Pool, shown: Shown, held: Packet, frames: map<nat, Super>,
                      io: map<QueueId, seq<Packet>>, air: map<QueueId, seq<Frame>>, q: QueueId, k: nat, s: Super)
    requires HeapOk(p, shown, held) && Represents(shown, frames, io, air) && q in io
    requires k < |io[q]| && io[q][k] != [] && io[q][k][0].data.Block?
    ensures Represents(shown, frames[io[q][k][0].data.id := s], io, air)
  {
    assert shown[q] == io[q];
    forall r, l | r in air && 0 <= l < |air[r]| && air[r][l].bufs != [] && air[r][l].bufs[0].data.Block?
      ensures air[r][l].bufs[0].data.id != io[q][k][0].data.id
    {
      assert shown[r][l] == air[r][l].bufs;
      BlocksApart(p, shown, q, k, 0, r, l, 0);
    }
    SetFrames(shown, frames, io, air, io[q][k][0].data.id, s);
  }

  /** A block that is counted is shown. */
  lemma CountedShown(shown: Shown, frames: map<nat, Super>, st: Fw, id: nat) returns (q: QueueId, k: nat, j: nat)
    requires Represents(shown, frames, st.io, st.air) && HasQueues(st) && Count(st, id) > 0
    ensures q in shown && k < |shown[q]| && j < |shown[q][k]| && shown[q][k][j].data.Block? && shown[q][k][j].data.id == id
  {
    hide InPackets, InAir;
    if InAir(st.air, TX_QUEUES + 1 + |st.cabLen|, id) > 0 {
      q, k, j := FindAir(st.air, TX_QUEUES + 1 + |st.cabLen|, id);
      AirShown(shown, frames, st.io, st.air, q);
      assert shown[q][k] == st.air[q][k].bufs;
    } else {
      q := if InPackets(st.io[Up], id) > 0 then Up else if InPackets(st.io[Down], id) > 0 then Down else Rx;
      k, j := FindPacket(st.io[q], id);
    }
  }

  /** A block that is counted belongs to a descriptor of a queue, and to no other descriptor. */
  lemma CountedHome(p: Pool, shown: Shown, held: Packet, frames: map<nat, Super>, st: Fw, id: nat)
    requires HeapOk(p, shown, held) && Represents(shown, frames, st.io, st.air) && HasQueues(st) && Count(st, id) > 0
    ensures id in p.home && 0 <= p.home[id] < |p.m| == |p.place| && p.place[p.home[id]].In?
    ensures forall d :: 0 <= d < |p.m| ==> (p.m[d].buf.data.Block? && p.m[d].buf.data.id == id <==> d == p.home[id])
  {
    hide QueueOk, Represents, HasQueues, Count;
    var q, k, j := CountedShown(shown, frames, st, id);
    ShowsKeys(p, shown, q);
    assert QueueOk(p, q);
    ShownAt(p, shown, q, k, j);
    InSpine(p, q, k, p.layout[q][k][j]);
  }
}
