/**
 The loops of handle_download, handle_wlan_rx and handle_upload on the abstract state.
 */
module HostPass {
  import opened Dma
  import opened Pools
  import opened TxSpec
  import opened TxRuns
  import opened TxSafety

  /** How many packets the hardware has finished. */
  function FinishedCount(ps: seq<Packet>): nat
  {
    if ps == [] then 0 else (if ps[0] != [] && ps[0][0].own != Hw then 1 else 0) + FinishedCount(ps[1..])
  }

  lemma {:induction false} FinishedAppend(ps: seq<Packet>, qs: seq<Packet>)
    requires forall k :: 0 <= k < |qs| ==> qs[k] != [] && qs[k][0].own == Hw
    ensures FinishedCount(ps + qs) == FinishedCount(ps)
  {
    if ps != [] {
      FinishedAppend(ps[1..], qs);
      assert (ps + qs)[1..] == ps[1..] + qs;
    } else if qs != [] {
      FinishedAppend([], qs[1..]);
      assert [] + qs == qs && [] + qs[1..] == qs[1..];
    }
  }

  /** One round takes a finished packet from the head; what it puts at the end is for the hardware. */
  lemma RoundCount(ps: seq<Packet>, p: Packet)
    requires ps != [] && ps[0] != [] && ps[0][0].own != Hw
    ensures FinishedCount(ps[1..] + FreePackets(p)) < FinishedCount(ps)
    ensures FinishedCount(ps[1..]) < FinishedCount(ps)
  {
    FinishedAppend(ps[1..], FreePackets(p));
  }

  /** The superframe of the first packet of the down queue, as the host left it. */
  ghost predicate CanDownload(st: Fw, host: map<nat, Super>)
  {
    && Down in st.io && st.io[Down] != [] && st.io[Down][0] != [] && st.io[Down][0][0].own != Hw
    && st.io[Down][0][0].data.Block? && st.io[Down][0][0].data.id in host
    && Enabled(st, DownloadOne(host[st.io[Down][0][0].data.id]))
  }

  /** handle_download; `host` is what the host wrote into the data blocks. */
  ghost function DownloadAll(st: Fw, host: map<nat, Super>): Fw
    decreases if Down in st.io then FinishedCount(st.io[Down]) else 0
  {
    if !CanDownload(st, host) then st
    else
      var s := host[st.io[Down][0][0].data.id];
      RoundCount(st.io[Down], st.io[Down][0]);
      DownloadAll(Download(st, s), host)
  }

  /** handle_wlan_rx; `filter` tells which packets are filtered out, by their first buffer. */
  ghost function ReceiveAll(st: Fw, filter: Buf -> bool): Fw
    decreases if Rx in st.io then FinishedCount(st.io[Rx]) else 0
  {
    if !Enabled(st, ReceiveOne(true)) then st
    else
      RoundCount(st.io[Rx], st.io[Rx][0]);
      ReceiveAll(Receive(st, filter(st.io[Rx][0][0])), filter)
  }

  /** handle_upload */
  ghost function UploadAll(st: Fw): Fw
    decreases if Up in st.io then |st.io[Up]| else 0
  {
    if !Enabled(st, UploadOne) then st else UploadAll(Upload(st))
  }

  /** The superframes of finished packets of the down queue are as the host left them. */
  ghost predicate HostSame(frames: map<nat, Super>, host: map<nat, Super>, ps: seq<Packet>)
  {
    forall k {:trigger ps[k]} :: 0 <= k < |ps| && ps[k] != [] && ps[k][0].own != Hw && ps[k][0].data.Block? ==>
      ps[k][0].data.id in frames && ps[k][0].data.id in host && frames[ps[k][0].data.id] == host[ps[k][0].data.id]
  }

  ghost function DownPackets(st: Fw): seq<Packet> { if Down in st.io then st.io[Down] else [] }

  lemma HasIo(st: Fw)
    requires Inv(st)
    ensures Up in st.io && Down in st.io && Rx in st.io
  {
    hide BooksOk, AirOk, ReportsOk;
  }

  lemma EntryInAir(st: Fw, s: Super)
    requires Inv(st) && WellTyped(s) && (s.cab ==> s.vif < |st.cabLen|)
    ensures EntryQueue(s) in st.air
  {
    hide AirOk, IoOk, ReportsOk, Total;
  }

  /**
   The field `vif_id` is wider than the number of interfaces: a frame for a cab queue has one
   exactly when its interface exists.
   */
  lemma EntryQueueIff(st: Fw, s: Super)
    requires Inv(st) && WellTyped(s)
    ensures EntryQueue(s) in st.air <==> s.cab ==> s.vif < |st.cabLen|
  {
    hide AirOk, IoOk, ReportsOk, Total;
  }

  const STRAY_SUPER := Super(24, 0, 0, 7, true, false, 0, 0, seq(MAX_RATES, _ => RateInfo(1, false)),
                             seq(MAX_RETRY_RATES, _ => 0), 0, false, false, false, 0, 0)

  /** A superframe that the host can send and that has no queue when there are fewer than eight interfaces. */
  lemma StrayFrame(st: Fw)
    requires Inv(st) && |st.cabLen| < 8
    ensures WellTyped(STRAY_SUPER) && EntryQueue(STRAY_SUPER) !in st.air
  {
    EntryQueueIff(st, STRAY_SUPER);
  }

  /** The host only names interfaces that exist. */
  ghost predicate HostOk(host: map<nat, Super>, ps: seq<Packet>, vifs: nat)
  {
    forall k {:trigger ps[k]} :: 0 <= k < |ps| && ps[k] != [] && ps[k][0].own != Hw && ps[k][0].data.Block? ==>
      && ps[k][0].data.id in host && WellTyped(host[ps[k][0].data.id])
      && (host[ps[k][0].data.id].cab ==> host[ps[k][0].data.id].vif < vifs)
  }

  lemma DownloadReady(st: Fw, host: map<nat, Super>)
    requires Inv(st) && Down in st.io && st.io[Down] != [] && st.io[Down][0] != [] && st.io[Down][0][0].own != Hw
    requires HostOk(host, st.io[Down], |st.cabLen|)
    ensures CanDownload(st, host) && Plain(st.io[Down][0]) && !Reserved(st.io[Down][0][0].data.id)
    ensures PathInv(DropIo(st, Down))
  {
    hide AirOk, ReportsOk, Total, AcceptedOk;
    assert PacketOk(Down, st.io[Down][0]);
    var s := host[st.io[Down][0][0].data.id];
    assert EntryQueue(s) in st.air;
    DropIoOk(st, Down);
    hide IoOk, BooksOk;
    SameFramesPath(st, DropIo(st, Down));
  }

  lemma DownloadStop(st: Fw, host: map<nat, Super>)
    requires Down in st.io && (st.io[Down] == [] || (st.io[Down][0] != [] && st.io[Down][0][0].own == Hw))
    ensures DownloadAll(st, host) == st
  {
  }

  /** What the handling of a packet does to the down queue and leaves alone elsewhere. */
  lemma ProcessDown(st: Fw, p: Packet, s: Super)
    requires Down in st.io && p != [] && EntryQueue(s) in st.air && (s.cab ==> s.vif < |st.cabLen|)
    ensures var st' := Process(st, p, s);
            && Down in st'.io && (st'.io[Down] == st.io[Down] || st'.io[Down] == st.io[Down] + FreePackets(p))
            && |st'.cabLen| == |st.cabLen| && (Retry in st.air ==> Retry in st'.air && st'.air[Retry] == st.air[Retry])
  {
    hide FreePackets, StatusOf, PutFrame, Started, LengthOk;
  }

  lemma DownloadNext(st: Fw, host: map<nat, Super>)
    requires Inv(st) && CanDownload(st, host) && HostOk(host, st.io[Down], |st.cabLen|)
    ensures var st' := Download(st, host[st.io[Down][0][0].data.id]);
            && Inv(st') && DownloadAll(st, host) == DownloadAll(st', host)
            && Down in st'.io && FinishedCount(st'.io[Down]) < FinishedCount(st.io[Down])
            && HostOk(host, st'.io[Down], |st'.cabLen|) && |st'.cabLen| == |st.cabLen|
            && (Retry in st.air ==> Retry in st'.air && st'.air[Retry] == st.air[Retry])
  {
    hide Inv, Process, WellTyped, FreePackets;
    var p, s := st.io[Down][0], host[st.io[Down][0][0].data.id];
    StepInv(st, DownloadOne(s));
    ProcessDown(DropIo(st, Down), p, s);
    RoundCount(st.io[Down], p);
    FreedHostOk(host, st.io[Down], p, |st.cabLen|);
  }

  lemma FreedHostOk(host: map<nat, Super>, ps: seq<Packet>, p: Packet, vifs: nat)
    requires HostOk(host, ps, vifs) && ps != []
    ensures HostOk(host, ps[1..], vifs) && HostOk(host, ps[1..] + FreePackets(p), vifs)
  {
    hide WellTyped;
    var qs: seq<Packet> := ps[1..] + FreePackets(p);
    forall k | 0 <= k < |qs| && qs[k] != [] && qs[k][0].own != Hw && qs[k][0].data.Block?
      ensures qs[k][0].data.id in host && WellTyped(host[qs[k][0].data.id])
      ensures host[qs[k][0].data.id].cab ==> host[qs[k][0].data.id].vif < vifs
    {
      assert k < |ps| - 1 && qs[k] == ps[k + 1];
    }
  }

  /** No finished packet starts in the block `id`. */
  ghost predicate IdFree(ps: seq<Packet>, id: nat)
  {
    forall k {:trigger ps[k]} :: 0 <= k < |ps| && ps[k] != [] && ps[k][0].own != Hw && ps[k][0].data.Block? ==> ps[k][0].data.id != id
  }

  /** Writes to the superframe of the packet in hand, and entries that were added for the hardware. */
  lemma HostSameAfter(frames: map<nat, Super>, host: map<nat, Super>, ps: seq<Packet>, id: nat, x: Super, qs: seq<Packet>, p: Packet)
    requires HostSame(frames, host, ps) && IdFree(ps, id) && (qs == ps || qs == ps + FreePackets(p))
    ensures HostSame(frames[id := x], host, qs)
  {
    forall k | 0 <= k < |qs| && qs[k] != [] && qs[k][0].own != Hw && qs[k][0].data.Block?
      ensures qs[k][0].data.id in frames[id := x] && qs[k][0].data.id in host
      ensures frames[id := x][qs[k][0].data.id] == host[qs[k][0].data.id]
    {
      assert k < |ps| && qs[k] == ps[k];
    }
  }

  lemma HostSameTail(frames: map<nat, Super>, host: map<nat, Super>, ps: seq<Packet>)
    requires HostSame(frames, host, ps) && ps != []
    ensures HostSame(frames, host, ps[1..])
  {
  }

  lemma IoFacts(st: Fw, q: QueueId)
    requires Inv(st) && q in st.io
    ensures Rx in st.io && Up in st.io && Down in st.io
    ensures forall k {:trigger st.io[q][k]} :: 0 <= k < |st.io[q]| ==>
              && Plain(st.io[q][k]) && (st.io[q][k][0].data.id == RSP_BLOCK ==> |st.io[q][k]| == 1)
              && (q == Down && st.io[q][k][0].own == Hw ==> |st.io[q][k]| == 1)
  {
    hide BooksOk, AirOk, ReportsOk;
    forall k | 0 <= k < |st.io[q]|
      ensures Plain(st.io[q][k]) && (st.io[q][k][0].data.id == RSP_BLOCK ==> |st.io[q][k]| == 1)
      ensures q == Down && st.io[q][k][0].own == Hw ==> |st.io[q][k]| == 1
    {
      assert PacketOk(q, st.io[q][k]);
    }
  }

  lemma UploadStop(st: Fw)
    requires Up in st.io && (st.io[Up] == [] || (st.io[Up][0] != [] && st.io[Up][0][0].own == Hw))
    ensures UploadAll(st) == st
  {
  }

  lemma UploadNext(st: Fw)
    requires Inv(st) && Up in st.io && Rx in st.io && st.io[Up] != [] && st.io[Up][0] != [] && st.io[Up][0][0].own != Hw
    ensures Inv(Upload(st)) && UploadAll(st) == UploadAll(Upload(st)) && Upload(st).air == st.air
    ensures Up in Upload(st).io && |Upload(st).io[Up]| < |st.io[Up]|
  {
    hide Inv, FreePackets;
    StepInv(st, UploadOne);
  }

  lemma ReceiveStop(st: Fw, filter: Buf -> bool)
    requires Rx in st.io && (st.io[Rx] == [] || (st.io[Rx][0] != [] && st.io[Rx][0][0].own == Hw))
    ensures ReceiveAll(st, filter) == st
  {
  }

  lemma ReceiveNext(st: Fw, filter: Buf -> bool)
    requires Inv(st) && Rx in st.io && Up in st.io && st.io[Rx] != [] && st.io[Rx][0] != [] && st.io[Rx][0][0].own != Hw
    ensures var st' := Receive(st, filter(st.io[Rx][0][0]));
            && Inv(st') && ReceiveAll(st, filter) == ReceiveAll(st', filter) && st'.air == st.air
            && Rx in st'.io && FinishedCount(st'.io[Rx]) < FinishedCount(st.io[Rx])
  {
    hide Inv, FreePackets, PutPacket;
    StepInv(st, ReceiveOne(filter(st.io[Rx][0][0])));
    RoundCount(st.io[Rx], st.io[Rx][0]);
  }

  /** The down queue after `n` rounds of handle_download_exception. */
  function RotatedBy(ps: seq<Packet>, n: nat): seq<Packet>
    requires n <= |ps| && forall k {:trigger ps[k]} :: 0 <= k < n ==> ps[k] != []
  {
    ps[n..] + Freed(ps[..n])
  }

  lemma RotatedNext(ps: seq<Packet>, n: nat)
    requires n <= |ps| && forall k {:trigger ps[k]} :: 0 <= k < n ==> |ps[k]| == 1
    ensures RotatedBy(ps, 0) == ps
    ensures n > 0 ==> var before := RotatedBy(ps, n - 1);
              before != [] && before[0] == ps[n - 1] && before[1..] + FreePackets(ps[n - 1]) == RotatedBy(ps, n)
  {
    if n > 0 {
      assert |ps[n - 1]| == 1;
    }
  }

  /** Each round is a step of the tx path. */
  lemma {:induction false} RotationsInv(st: Fw, n: nat)
    requires Inv(st) && Down in st.io && n <= |st.io[Down]|
    requires forall k {:trigger st.io[Down][k]} :: 0 <= k < n ==> |st.io[Down][k]| == 1 && st.io[Down][k][0].own == Hw
    ensures Inv(st.(io := st.io[Down := RotatedBy(st.io[Down], n)]))
    decreases n
  {
    hide Inv, RotatedBy;
    var ps := st.io[Down];
    RotatedNext(ps, n);
    if n == 0 {
      assert st.io[Down := ps] == st.io;
    } else {
      RotationsInv(st, n - 1);
      var st1 := st.(io := st.io[Down := RotatedBy(ps, n - 1)]);
      StepInv(st1, RotateOne);
      assert Rotate(st1) == st.(io := st.io[Down := RotatedBy(ps, n)]);
    }
  }

  /** The state after the second loop of handle_download_exception. */
  function FixAll(st: Fw): Fw
    requires Down in st.io
  {
    st.(io := st.io[Down := FixedDown(st.io[Down])])
  }

  /** Each round of it is a step of the tx path, from entry `k` on. */
  lemma {:induction false} FixFrom(st: Fw, k: nat)
    requires Inv(st) && Down in st.io && k <= |st.io[Down]|
    ensures Inv(st.(io := st.io[Down := st.io[Down][..k] + FixedDown(st.io[Down][k..])]))
    decreases Buffers(st.io[Down][k..]), |st.io[Down]| - k
  {
    hide Inv, FixedDown, FixedAt;
    var ps := st.io[Down];
    if k == |ps| {
      FixedRest(ps);
      assert st.io[Down := ps] == st.io;
    } else {
      IoFacts(st, Down);
      FixedNext(ps, k);
      if ps[k][0].own == Sw {
        var st1 := FixEntry(st, k);
        StepInv(st, FixOne(k));
        FixFrom(st1, k + 1);
        var goal := ps[..k] + FixedDown(ps[k..]);
        assert st1.io[Down := goal] == st.io[Down := goal];
      } else {
        FixFrom(st, k + 1);
      }
    }
  }

  lemma FixedRest(ps: seq<Packet>)
    ensures ps[..|ps|] + FixedDown(ps[|ps|..]) == ps
  {
  }

  lemma FixAllInv(st: Fw)
    requires Inv(st) && Down in st.io
    ensures Inv(FixAll(st))
  {
    hide Inv, FixedDown;
    FixFrom(st, 0);
    assert st.io[Down][..0] + FixedDown(st.io[Down][0..]) == FixedDown(st.io[Down]) by {
      assert st.io[Down][0..] == st.io[Down];
    }
  }

  /** A buffer that only software owns is freed. */
  function Fixed(b: Buf): Buf { if b.own == Sw then FixBuf(b) else b }

  function FixedEntries(p: Packet): (r: seq<Packet>)
    ensures |r| == |p|
  {
    seq(|p|, i requires 0 <= i < |p| => [Fixed(p[i])])
  }

  /** A packet that only software owns is taken apart, and each of its buffers is freed; all others stay. */
  function FixedPackets(c: seq<Packet>): seq<Packet>
  {
    if c == [] then []
    else (if c[0] != [] && c[0][0].own == Sw then FixedEntries(c[0]) else [c[0]]) + FixedPackets(c[1..])
  }

  lemma {:induction false} FixedSingles(p: Packet, d: seq<Packet>)
    ensures FixedPackets(Entries(p) + d) == FixedEntries(p) + FixedPackets(d)
  {
    hide Fixed, FixBuf;
    if p == [] {
      assert Entries(p) + d == d && FixedEntries(p) + FixedPackets(d) == FixedPackets(d);
    } else {
      FixedSingles(p[1..], d);
      FixedFirst(p, d);
    }
  }

  lemma FixedFirst(p: Packet, d: seq<Packet>)
    requires p != [] && FixedPackets(Entries(p[1..]) + d) == FixedEntries(p[1..]) + FixedPackets(d)
    ensures FixedPackets(Entries(p) + d) == FixedEntries(p) + FixedPackets(d)
  {
    var c: seq<Packet> := Entries(p) + d;
    assert c[0] == [p[0]] && c[1..] == Entries(p[1..]) + d;
    hide Entries, FixBuf;
    assert FixedEntries([p[0]]) == [[Fixed(p[0])]];
    assert FixedEntries(p) == [[Fixed(p[0])]] + FixedEntries(p[1..]);
    Regroup([[Fixed(p[0])]], FixedEntries(p[1..]), FixedPackets(d));
  }

  lemma Regroup(a: seq<Packet>, b: seq<Packet>, c: seq<Packet>)
    ensures a + (b + c) == (a + b) + c
  {
  }

  /** The loop, which goes through the entries that it makes itself, does just this to every packet. */
  lemma {:induction false} FixedDownIs(c: seq<Packet>)
    ensures FixedDown(c) == FixedPackets(c)
    decreases Buffers(c), |c|
  {
    hide FixBuf;
    if c != [] {
      if c[0] != [] && c[0][0].own == Sw {
        BuffersEntries(c[0][1..]);
        BuffersAppend(Entries(c[0][1..]), c[1..]);
        FixedDownIs(Entries(c[0][1..]) + c[1..]);
        FixedSingles(c[0][1..], c[1..]);
        assert FixedEntries(c[0]) == [[Fixed(c[0][0])]] + FixedEntries(c[0][1..]);
        Regroup([[Fixed(c[0][0])]], FixedEntries(c[0][1..]), FixedPackets(c[1..]));
      } else {
        FixedDownIs(c[1..]);
      }
    }
  }

  /** No entry that only software owns is left. */
  lemma {:induction false} NoneLeft(c: seq<Packet>)
    ensures forall k {:trigger FixedPackets(c)[k]} :: 0 <= k < |FixedPackets(c)| && FixedPackets(c)[k] != [] ==> FixedPackets(c)[k][0].own != Sw
  {
    if c != [] {
      NoneLeft(c[1..]);
    }
  }
}
