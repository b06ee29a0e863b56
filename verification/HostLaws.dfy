/**
 What the loops to and from the host do to the queues, told by the packets that the hardware
 had finished when the loop began.
 */
module HostLaws {
  import opened Dma
  import opened Pools
  import opened TxSpec
  import opened TxRuns
  import opened TxSafety
  import opened HostPass
  import opened TxOutcome

  // ----- packets before and after -----

  /** The hardware finished the first `n` packets, and not the one behind them. */
  predicate FinishedPrefix(ps: seq<Packet>, n: nat)
  {
    && n <= |ps| && (forall k {:trigger ps[k]} :: 0 <= k < n ==> ps[k] != [] && ps[k][0].own != Hw)
    && (n < |ps| ==> ps[n] != [] && ps[n][0].own == Hw)
  }

  /** One entry for each buffer, in order: the hardware's, empty, and with the same data block. */
  predicate FreeEntries(bufs: seq<Buf>, es: seq<Packet>)
  {
    && |es| == |bufs|
    && forall j :: 0 <= j < |bufs| ==> es[j] == [Buf(Hw, 0, Ctrl(false, false, false, false), 320, 0, bufs[j].data)]
  }

  /** The packet in the hands of the hardware; every buffer knows the length of the whole. */
  predicate HandedOn(p: Packet, p': Packet)
  {
    p != [] && |p'| == |p| && forall j :: 0 <= j < |p| ==> p'[j] == p[j].(own := Hw, flags := 0, totalLen := p[0].totalLen)
  }

  predicate AllHandedOn(ps: seq<Packet>, ps': seq<Packet>)
  {
    |ps'| == |ps| && forall k :: 0 <= k < |ps| ==> HandedOn(ps[k], ps'[k])
  }

  function BuffersOf(ps: seq<Packet>): seq<Buf> { if ps == [] then [] else ps[0] + BuffersOf(ps[1..]) }

  /** The packets whose first buffer passes the test, or does not, in order. */
  function Those(ps: seq<Packet>, test: Buf -> bool, want: bool): (r: seq<Packet>)
    ensures forall k {:trigger r[k]} :: 0 <= k < |r| ==> r[k] in ps && r[k] != [] && test(r[k][0]) == want
  {
    if ps == [] then [] else (if ps[0] != [] && test(ps[0][0]) == want then [ps[0]] else []) + Those(ps[1..], test, want)
  }

  lemma {:induction false} PrefixExists(ps: seq<Packet>) returns (n: nat)
    requires forall k {:trigger ps[k]} :: 0 <= k < |ps| ==> ps[k] != []
    ensures FinishedPrefix(ps, n)
  {
    if ps == [] || ps[0][0].own == Hw {
      n := 0;
    } else {
      var m := PrefixExists(ps[1..]);
      n := m + 1;
      forall k | 0 <= k < n ensures ps[k] != [] && ps[k][0].own != Hw {
        assert k > 0 ==> ps[k] == ps[1..][k - 1];
      }
    }
  }

  /** Packets that were put, and entries that were freed, one packet after the other. */
  function PutAll(ps: seq<Packet>): seq<Packet>
    requires forall k {:trigger ps[k]} :: 0 <= k < |ps| ==> ps[k] != []
  {
    if ps == [] then [] else [PutPacket(ps[0])] + PutAll(ps[1..])
  }

  function FreeAll(ps: seq<Packet>): seq<Packet> { if ps == [] then [] else FreePackets(ps[0]) + FreeAll(ps[1..]) }

  lemma {:induction false} PutAllIs(ps: seq<Packet>)
    requires forall k {:trigger ps[k]} :: 0 <= k < |ps| ==> ps[k] != []
    ensures AllHandedOn(ps, PutAll(ps))
  {
    if ps != [] {
      PutAllIs(ps[1..]);
      assert HandedOn(ps[0], PutPacket(ps[0]));
      forall k | 0 <= k < |ps| ensures |PutAll(ps)| == |ps| && HandedOn(ps[k], PutAll(ps)[k]) {
        assert k > 0 ==> ps[k] == ps[1..][k - 1] && PutAll(ps)[k] == PutAll(ps[1..])[k - 1];
      }
    }
  }

  lemma {:induction false} FreeAllIs(ps: seq<Packet>)
    ensures FreeEntries(BuffersOf(ps), FreeAll(ps))
  {
    if ps != [] {
      FreeAllIs(ps[1..]);
      assert FreeEntries(ps[0], FreePackets(ps[0]));
    }
  }

  /** The rest of a queue after its first packet, with entries of the hardware behind it. */
  lemma PrefixNext(ps: seq<Packet>, n: nat, es: seq<Packet>)
    requires 0 < n && FinishedPrefix(ps, n) && forall k :: 0 <= k < |es| ==> es[k] != [] && es[k][0].own == Hw
    ensures FinishedPrefix(ps[1..] + es, n - 1) && (ps[1..] + es)[..n - 1] == ps[..n][1..] && (ps[1..] + es)[n - 1..] == ps[n..] + es
  {
  }

  lemma ThoseNext(ps: seq<Packet>, n: nat, test: Buf -> bool, want: bool)
    requires 0 < n <= |ps| && ps[0] != []
    ensures var p, r := ps[0], Those(ps[..n][1..], test, want);
            Those(ps[..n], test, want) == if test(p[0]) == want then [p] + r else r
  {
  }

  lemma FreeNext(p: Packet, ps: seq<Packet>, before: seq<Packet>)
    ensures before + FreeAll([p] + ps) == before + FreePackets(p) + FreeAll(ps)
  {
    assert ([p] + ps)[1..] == ps;
    Regroup(before, FreePackets(p), FreeAll(ps));
  }

  lemma PutNext(p: Packet, ps: seq<Packet>, before: seq<Packet>)
    requires p != [] && forall k {:trigger ps[k]} :: 0 <= k < |ps| ==> ps[k] != []
    ensures before + PutAll([p] + ps) == before + [PutPacket(p)] + PutAll(ps)
  {
    assert ([p] + ps)[1..] == ps;
    Regroup(before, [PutPacket(p)], PutAll(ps));
  }

  lemma FreeIsHw(p: Packet)
    ensures forall k :: 0 <= k < |p| ==> FreePackets(p)[k] != [] && FreePackets(p)[k][0].own == Hw
  {
  }

  // ----- handle_wlan_rx -----

  /** The rx queue after its first `n` packets were handled, and what the up queue gained. */
  function RxAfter(ps: seq<Packet>, n: nat, filter: Buf -> bool): seq<Packet>
    requires n <= |ps|
  {
    ps[n..] + FreeAll(Those(ps[..n], filter, true))
  }

  function UpAfter(us: seq<Packet>, ps: seq<Packet>, n: nat, filter: Buf -> bool): seq<Packet>
    requires n <= |ps|
  {
    us + PutAll(Those(ps[..n], filter, false))
  }

  lemma RxRound(us: seq<Packet>, ps: seq<Packet>, n: nat, filter: Buf -> bool)
    requires 0 < n && FinishedPrefix(ps, n)
    ensures var p := ps[0];
            var ps1 := if filter(p[0]) then ps[1..] + FreePackets(p) else ps[1..];
            var us1 := if filter(p[0]) then us else us + [PutPacket(p)];
            && FinishedPrefix(ps1, n - 1)
            && RxAfter(ps1, n - 1, filter) == RxAfter(ps, n, filter) && UpAfter(us1, ps1, n - 1, filter) == UpAfter(us, ps, n, filter)
  {
    hide PutPacket, FreePackets, FreeAll, PutAll, Those;
    var p := ps[0];
    ThoseNext(ps, n, filter, true);
    ThoseNext(ps, n, filter, false);
    if filter(p[0]) {
      FreeIsHw(p);
      PrefixNext(ps, n, FreePackets(p));
      FreeNext(p, Those(ps[..n][1..], filter, true), ps[n..]);
    } else {
      PrefixNext(ps, n, []);
      assert ps[1..] + [] == ps[1..] && ps[n..] + [] == ps[n..];
      PutNext(p, Those(ps[..n][1..], filter, false), us);
    }
  }

  /** The state with other queues to and from the hardware. */
  function WithQueues(st: Fw, rs: seq<Packet>, us: seq<Packet>): (st': Fw)
    ensures Rx in st'.io && Up in st'.io && st'.io[Rx] == rs && st'.io[Up] == us
  {
    st.(io := st.io[Rx := rs][Up := us])
  }

  lemma WithQueuesTwice(st: Fw, rs: seq<Packet>, us: seq<Packet>, rs': seq<Packet>, us': seq<Packet>)
    ensures WithQueues(WithQueues(st, rs, us), rs', us') == WithQueues(st, rs', us')
  {
    assert st.io[Rx := rs][Up := us][Rx := rs'][Up := us'] == st.io[Rx := rs'][Up := us'];
  }

  lemma WithSameQueues(st: Fw)
    requires Rx in st.io && Up in st.io
    ensures WithQueues(st, st.io[Rx], st.io[Up]) == st
  {
    assert st.io[Rx := st.io[Rx]][Up := st.io[Up]] == st.io;
  }

  lemma {:induction false} ReceivedAll(st: Fw, n: nat, filter: Buf -> bool)
    requires Rx in st.io && Up in st.io && FinishedPrefix(st.io[Rx], n)
    ensures ReceiveAll(st, filter) == WithQueues(st, RxAfter(st.io[Rx], n, filter), UpAfter(st.io[Up], st.io[Rx], n, filter))
    decreases n
  {
    hide PutPacket, FreePackets, RxAfter, UpAfter, WithQueues, Receive, ReceiveAll;
    var rs, us := st.io[Rx], st.io[Up];
    if n == 0 {
      NothingReceived(us, rs, filter);
      ReceiveStop(st, filter);
      WithSameQueues(st);
    } else {
      var p := rs[0];
      var rs1 := if filter(p[0]) then rs[1..] + FreePackets(p) else rs[1..];
      var us1 := if filter(p[0]) then us else us + [PutPacket(p)];
      RxRound(us, rs, n, filter);
      ReceiveRound(st, filter);
      hide FinishedPrefix;
      ReceivedAll(WithQueues(st, rs1, us1), n - 1, filter);
      WithQueuesTwice(st, rs1, us1, RxAfter(rs, n, filter), UpAfter(us, rs, n, filter));
    }
  }

  lemma ReceiveRound(st: Fw, filter: Buf -> bool)
    requires Rx in st.io && Up in st.io && st.io[Rx] != [] && st.io[Rx][0] != [] && st.io[Rx][0][0].own != Hw
    ensures var p := st.io[Rx][0];
            var rs1 := if filter(p[0]) then st.io[Rx][1..] + FreePackets(p) else st.io[Rx][1..];
            var us1 := if filter(p[0]) then st.io[Up] else st.io[Up] + [PutPacket(p)];
            ReceiveAll(st, filter) == ReceiveAll(WithQueues(st, rs1, us1), filter)
  {
    hide PutPacket, FreePackets;
    var p := st.io[Rx][0];
    var st1 := Receive(st, filter(p[0]));
    if filter(p[0]) {
      assert st1.io == st.io[Rx := st.io[Rx][1..] + FreePackets(p)][Up := st.io[Up]];
    } else {
      assert st1.io == st.io[Rx := st.io[Rx][1..]][Up := st.io[Up] + [PutPacket(p)]];
    }
  }

  lemma NothingReceived(us: seq<Packet>, ps: seq<Packet>, filter: Buf -> bool)
    ensures RxAfter(ps, 0, filter) == ps && UpAfter(us, ps, 0, filter) == us
  {
    assert ps[..0] == [];
  }

  /** What handle_wlan_rx does to the queues. */
  ghost predicate Received(st: Fw, filter: Buf -> bool, st': Fw)
    requires Rx in st.io && Up in st.io
  {
    exists n: nat, up: seq<Packet>, free: seq<Packet> :: ReceivedThese(st, filter, st', n, up, free)
  }

  ghost predicate ReceivedThese(st: Fw, filter: Buf -> bool, st': Fw, n: nat, up: seq<Packet>, free: seq<Packet>)
    requires Rx in st.io && Up in st.io
  {
    && FinishedPrefix(st.io[Rx], n)
    && AllHandedOn(Those(st.io[Rx][..n], filter, false), up)
    && FreeEntries(BuffersOf(Those(st.io[Rx][..n], filter, true)), free)
    && st' == WithQueues(st, st.io[Rx][n..] + free, st.io[Up] + up)
  }

  /**
   The up queue gains exactly the packets of the finished prefix that are not filtered, in order
   and with their buffers; behind the rest of the rx queue comes a free entry for each buffer of
   the filtered ones.
   */
  lemma ReceiveLaw(st: Fw, filter: Buf -> bool)
    requires Inv(st)
    ensures Rx in st.io && Up in st.io && Received(st, filter, ReceiveAll(st, filter))
  {
    hide Inv, PutPacket, FreePackets, ReceiveAll, FreeEntries, AllHandedOn, PutAll, FreeAll;
    HasIo(st);
    IoFacts(st, Rx);
    var n := PrefixExists(st.io[Rx]);
    ReceivedAll(st, n, filter);
    var ps := st.io[Rx][..n];
    var up, back := Those(ps, filter, false), Those(ps, filter, true);
    PutAllIs(up);
    FreeAllIs(back);
    assert ReceivedThese(st, filter, ReceiveAll(st, filter), n, PutAll(up), FreeAll(back));
  }

  // ----- handle_upload -----

  /** Is it the buffer for responses to the host? */
  predicate IsResponse(b: Buf) { b.data == Block(RSP_BLOCK, false) }

  function HostRxAfter(rs: seq<Packet>, ps: seq<Packet>, n: nat): seq<Packet>
    requires n <= |ps|
  {
    rs + FreeAll(Those(ps[..n], IsResponse, false))
  }

  predicate HasResponse(ps: seq<Packet>, n: nat)
    requires n <= |ps|
  {
    exists k :: 0 <= k < n && ps[k] != [] && IsResponse(ps[k][0])
  }

  lemma UpRound(rs: seq<Packet>, ps: seq<Packet>, n: nat)
    requires 0 < n && FinishedPrefix(ps, n)
    ensures var p := ps[0];
            var rs1 := if IsResponse(p[0]) then rs else rs + FreePackets(p);
            && FinishedPrefix(ps[1..], n - 1) && ps[1..][n - 1..] == ps[n..]
            && HostRxAfter(rs1, ps[1..], n - 1) == HostRxAfter(rs, ps, n)
            && (HasResponse(ps, n) <==> IsResponse(p[0]) || HasResponse(ps[1..], n - 1))
  {
    hide FreePackets, FreeAll, Those, IsResponse;
    var p := ps[0];
    ThoseNext(ps, n, IsResponse, false);
    PrefixNext(ps, n, []);
    assert ps[1..] + [] == ps[1..] && ps[n..] + [] == ps[n..];
    if !IsResponse(p[0]) {
      FreeNext(p, Those(ps[..n][1..], IsResponse, false), rs);
    }
    if k :| 0 <= k < n && ps[k] != [] && IsResponse(ps[k][0]) {
      assert k > 0 ==> ps[1..][k - 1] == ps[k];
    }
  }

  lemma {:induction false} UploadedAll(st: Fw, n: nat)
    requires Rx in st.io && Up in st.io && FinishedPrefix(st.io[Up], n)
    ensures UploadAll(st) ==
            WithQueues(st.(intAvail := st.intAvail || HasResponse(st.io[Up], n)), HostRxAfter(st.io[Rx], st.io[Up], n), st.io[Up][n..])
    decreases n
  {
    hide FreePackets, HostRxAfter, HasResponse, WithQueues, Upload, UploadAll;
    var rs, us := st.io[Rx], st.io[Up];
    if n == 0 {
      NothingUploaded(rs, us);
      UploadStop(st);
      WithSameQueues(st);
    } else {
      var p := us[0];
      var rs1 := if IsResponse(p[0]) then rs else rs + FreePackets(p);
      UpRound(rs, us, n);
      UploadRound(st);
      hide FinishedPrefix;
      var st1 := st.(intAvail := st.intAvail || IsResponse(p[0]));
      UploadedAll(WithQueues(st1, rs1, us[1..]), n - 1);
      WithQueuesAvail(st1, rs1, us[1..], st.intAvail || HasResponse(us, n));
      WithQueuesTwice(st.(intAvail := st.intAvail || HasResponse(us, n)), rs1, us[1..], HostRxAfter(rs, us, n), us[n..]);
    }
  }

  lemma WithQueuesAvail(st: Fw, rs: seq<Packet>, us: seq<Packet>, avail: bool)
    ensures WithQueues(st, rs, us).(intAvail := avail) == WithQueues(st.(intAvail := avail), rs, us)
    ensures WithQueues(st, rs, us).intAvail == st.intAvail
  {
  }

  lemma UploadRound(st: Fw)
    requires Rx in st.io && Up in st.io && st.io[Up] != [] && st.io[Up][0] != [] && st.io[Up][0][0].own != Hw
    ensures var p := st.io[Up][0];
            var rs1 := if IsResponse(p[0]) then st.io[Rx] else st.io[Rx] + FreePackets(p);
            UploadAll(st) == UploadAll(WithQueues(st.(intAvail := st.intAvail || IsResponse(p[0])), rs1, st.io[Up][1..]))
  {
    hide FreePackets;
    var p := st.io[Up][0];
    var st1 := Upload(st);
    if IsResponse(p[0]) {
      assert st1.io == st.io[Rx := st.io[Rx]][Up := st.io[Up][1..]];
    } else {
      assert st1.io == st.io[Rx := st.io[Rx] + FreePackets(p)][Up := st.io[Up][1..]];
    }
  }

  lemma NothingUploaded(rs: seq<Packet>, ps: seq<Packet>)
    ensures HostRxAfter(rs, ps, 0) == rs && ps[0..] == ps && !HasResponse(ps, 0)
  {
    assert ps[..0] == [];
  }

  /** What handle_upload does to the queues. */
  ghost predicate Uploaded(st: Fw, st': Fw)
    requires Rx in st.io && Up in st.io
  {
    exists n: nat, free: seq<Packet> :: UploadedThese(st, st', n, free)
  }

  ghost predicate UploadedThese(st: Fw, st': Fw, n: nat, free: seq<Packet>)
    requires Rx in st.io && Up in st.io
  {
    && FinishedPrefix(st.io[Up], n)
    && FreeEntries(BuffersOf(Those(st.io[Up][..n], IsResponse, false)), free)
    && st' == WithQueues(st.(intAvail := st.intAvail || HasResponse(st.io[Up], n)), st.io[Rx] + free, st.io[Up][n..])
  }

  /**
   The finished packets leave the up queue. The response buffer is available again; all other
   buffers become free entries at the end of the rx queue, in order.
   */
  lemma UploadLaw(st: Fw)
    requires Inv(st)
    ensures Rx in st.io && Up in st.io && Uploaded(st, UploadAll(st))
  {
    hide Inv, FreePackets, UploadAll, FreeEntries, FreeAll, HasResponse;
    HasIo(st);
    IoFacts(st, Up);
    var n := PrefixExists(st.io[Up]);
    UploadedAll(st, n);
    var back := Those(st.io[Up][..n], IsResponse, false);
    FreeAllIs(back);
    assert UploadedThese(st, UploadAll(st), n, FreeAll(back));
  }

  // ----- handle_download -----

  /** The host wrote a superframe for each packet. */
  predicate Known(ps: seq<Packet>, host: map<nat, Super>)
  {
    forall k {:trigger ps[k]} :: 0 <= k < |ps| ==> ps[k] != [] && ps[k][0].data.Block? && ps[k][0].data.id in host
  }

  /** The transfer holds a superdescriptor, and the frame is not longer than it. */
  predicate Fits(p: Packet, s: Super)
    requires p != []
  {
    24 <= p[0].totalLen && s.len <= p[0].totalLen
  }

  function Destination(s: Super): QueueId { if s.cab then Cab(s.vif) else Tx(s.queue) }

  /** The superframes that fit, in order. */
  function Taken(ps: seq<Packet>, host: map<nat, Super>): seq<Super>
    requires Known(ps, host)
  {
    if ps == [] then []
    else
      var s := host[ps[0][0].data.id];
      (if Fits(ps[0], s) then [s] else []) + Taken(ps[1..], host)
  }

  /** The packets whose superframe does not fit, in order. */
  function Refused(ps: seq<Packet>, host: map<nat, Super>): seq<Packet>
    requires Known(ps, host)
  {
    if ps == [] then [] else (if Fits(ps[0], host[ps[0][0].data.id]) then [] else [ps[0]]) + Refused(ps[1..], host)
  }

  /** A report of a failure that is about no accepted frame. */
  function Refusal(s: Super): Report { Report(-1, 0, s.cookie, s.queue % 4, s.rix % 4, s.cnt % 8, false) }

  /** Their reports. */
  function Refusals(ps: seq<Packet>, host: map<nat, Super>): seq<Report>
    requires Known(ps, host)
  {
    if ps == [] then []
    else
      var s := host[ps[0][0].data.id];
      (if Fits(ps[0], s) then [] else [Refusal(s)]) + Refusals(ps[1..], host)
  }

  /**
   The frame is the packet `p` with the superframe `s`, numbered, before its first attempt: its
   first buffer is hidden, and all belong to the hardware.
   */
  predicate FirstAttempt(p: Packet, s: Super, serial: int, g: Frame)
    requires p != []
  {
    && g.super == s.(rix := 0, cnt := 1, serial := serial, attempts := 1) && |g.bufs| == |p|
    && g.bufs[0].data == (if p[0].data.Block? then Block(p[0].data.id, true) else p[0].data)
    && g.bufs[0].dataSize == (p[0].dataSize - 24) % 0x1_0000
    && (forall j :: 0 < j < |p| ==> g.bufs[j].data == p[j].data && g.bufs[j].dataSize == p[j].dataSize)
    && forall j :: 0 <= j < |p| ==>
         g.bufs[j].own == Hw && g.bufs[j].flags == 0 && g.bufs[j].ctrl == p[j].ctrl && g.bufs[j].totalLen == (p[0].totalLen - 24) % 0x1_0000
  }

  /** `gs` are the frames that go into queue `q`, in order; the first one accepted gets the number `first`. */
  ghost predicate Entered(q: QueueId, ps: seq<Packet>, host: map<nat, Super>, first: nat, gs: seq<Frame>)
    requires Known(ps, host)
    decreases |ps|
  {
    if ps == [] then gs == []
    else
      var s := host[ps[0][0].data.id];
      if !Fits(ps[0], s) then Entered(q, ps[1..], host, first, gs)
      else if Destination(s) != q then Entered(q, ps[1..], host, first + 1, gs)
      else gs != [] && FirstAttempt(ps[0], s, first, gs[0]) && Entered(q, ps[1..], host, first + 1, gs[1..])
  }

  function Bars(ss: seq<Super>): nat { if ss == [] then 0 else (if ss[0].isBar then 1 else 0) + Bars(ss[1..]) }

  function Cabs(ss: seq<Super>, v: nat): nat
  {
    if ss == [] then 0 else (if ss[0].cab && ss[0].vif == v then 1 else 0) + Cabs(ss[1..], v)
  }

  /** The first `n` packets of the down queue leave it; the buffers of those that do not fit come back free. */
  ghost predicate DownIs(st: Fw, host: map<nat, Super>, n: nat, st': Fw)
    requires Down in st.io && n <= |st.io[Down]| && Known(st.io[Down][..n], host)
  {
    && Down in st'.io && st'.io == st.io[Down := st'.io[Down]]
    && var rest := |st.io[Down]| - n;
    && rest <= |st'.io[Down]| && st'.io[Down][..rest] == st.io[Down][n..]
    && FreeEntries(BuffersOf(Refused(st.io[Down][..n], host)), st'.io[Down][rest..])
  }

  /** Those that fit are accepted and go into their queues; the others are reported as failed. */
  ghost predicate FramesAre(st: Fw, host: map<nat, Super>, ps: seq<Packet>, st': Fw)
    requires Known(ps, host)
  {
    && st'.accepted == st.accepted + Taken(ps, host) && st'.reports == st.reports + Refusals(ps, host)
    && st'.air.Keys == st.air.Keys
    && forall q :: q in st.air ==>
         && |st.air[q]| <= |st'.air[q]| && st'.air[q][..|st.air[q]|] == st.air[q]
         && Entered(q, ps, host, |st.accepted|, st'.air[q][|st.air[q]|..])
  }

  ghost predicate CountersAre(st: Fw, ss: seq<Super>, st': Fw)
  {
    && st'.queuedBar == st.queuedBar + Bars(ss) && |st'.cabLen| == |st.cabLen|
    && (forall v: nat :: v < |st.cabLen| ==> st'.cabLen[v] == st.cabLen[v] + Cabs(ss, v))
    && st'.fwAvail == st.fwAvail && st'.fwData == st.fwData && st'.intAvail == st.intAvail && st'.blocks == st.blocks
  }

  /** What handle_download does. */
  ghost predicate Downloaded(st: Fw, host: map<nat, Super>, n: nat, st': Fw)
    requires Down in st.io && n <= |st.io[Down]| && Known(st.io[Down][..n], host)
  {
    && DownIs(st, host, n, st') && FramesAre(st, host, st.io[Down][..n], st')
    && CountersAre(st, Taken(st.io[Down][..n], host), st')
  }

  /** One packet. */
  ghost predicate DownloadedOne(st: Fw, p: Packet, s: Super, st': Fw)
    requires Down in st.io && st.io[Down] != [] && p != []
  {
    && Down in st'.io && st'.io == st.io[Down := st'.io[Down]]
    && st'.io[Down] == st.io[Down][1..] + (if Fits(p, s) then [] else FreePackets(p))
    && st'.accepted == st.accepted + (if Fits(p, s) then [s] else [])
    && st'.reports == st.reports + (if Fits(p, s) then [] else [Refusal(s)])
    && st'.air.Keys == st.air.Keys
    && (forall q :: q in st.air && !(Fits(p, s) && q == Destination(s)) ==> st'.air[q] == st.air[q])
    && (Fits(p, s) ==> var q := Destination(s);
          q in st.air && |st'.air[q]| == |st.air[q]| + 1 && st'.air[q][..|st.air[q]|] == st.air[q]
          && FirstAttempt(p, s, |st.accepted|, st'.air[q][|st.air[q]|]))
    && CountersAre(st, if Fits(p, s) then [s] else [], st')
  }

  lemma OneDownloaded(st: Fw, s: Super)
    requires Enabled(st, DownloadOne(s))
    ensures DownloadedOne(st, st.io[Down][0], s, Download(st, s))
  {
    hide FirstAttempt, FreePackets, PutFrame, Started, StatusOf, CountersAre;
    var p := st.io[Down][0];
    FirstAttemptIs(p, s, |st.accepted|);
    OneCounters(st, s);
    RefusalIs(s);
    assert st.accepted + [] == st.accepted && st.reports + [] == st.reports && st.io[Down][1..] + [] == st.io[Down][1..];
  }

  lemma RefusalIs(s: Super)
    ensures StatusOf(s, -1, false) == Refusal(s)
  {
  }

  lemma OneCounters(st: Fw, s: Super)
    requires Enabled(st, DownloadOne(s))
    ensures CountersAre(st, if Fits(st.io[Down][0], s) then [s] else [], Download(st, s))
  {
    hide FreePackets, PutFrame, Started, StatusOf, Bars, Cabs;
    CountsOfOne(s);
    var p, st1 := st.io[Down][0], Download(st, s);
    if Fits(p, s) {
      forall v: nat | v < |st.cabLen| ensures st1.cabLen[v] == st.cabLen[v] + Cabs([s], v) {
      }
      assert CountersAre(st, [s], st1);
    } else {
      assert CountersAre(st, [], st1);
    }
  }

  lemma CountsOfOne(s: Super)
    ensures Bars([]) == 0 && Bars([s]) == if s.isBar then 1 else 0
    ensures forall v: nat :: Cabs([], v) == 0 && Cabs([s], v) == if s.cab && s.vif == v then 1 else 0
  {
    assert [s][1..] == [];
  }

  lemma FirstAttemptIs(p: Packet, s: Super, serial: int)
    requires p != []
    ensures FirstAttempt(p, s, serial, PutFrame(Started(Frame(p, s), serial)))
  {
  }

  /** One packet, and then the rest. */
  lemma DownloadedNext(st: Fw, host: map<nat, Super>, n: nat, st1: Fw, st': Fw)
    requires Down in st.io && FinishedPrefix(st.io[Down], n) && 0 < n && Known(st.io[Down][..n], host)
    requires DownloadedOne(st, st.io[Down][0], host[st.io[Down][0][0].data.id], st1)
    requires n - 1 <= |st1.io[Down]| && st1.io[Down][..n - 1] == st.io[Down][..n][1..]
    requires Known(st.io[Down][..n][1..], host) && Downloaded(st1, host, n - 1, st')
    ensures Downloaded(st, host, n, st')
  {
    hide FirstAttempt, FreePackets, Fits, DownIs, FramesAre, CountersAre, Entered;
    var p, s := st.io[Down][0], host[st.io[Down][0][0].data.id];
    assert st.io[Down][..n][0] == p;
    DownNext(st, host, n, st1, st');
    FramesNext(st, host, st.io[Down][..n], st1, st');
    CountersNext(st, if Fits(p, s) then [s] else [], Taken(st.io[Down][..n][1..], host), st1, st');
  }

  lemma DownNext(st: Fw, host: map<nat, Super>, n: nat, st1: Fw, st': Fw)
    requires Down in st.io && 0 < n <= |st.io[Down]| && Known(st.io[Down][..n], host)
    requires DownloadedOne(st, st.io[Down][0], host[st.io[Down][0][0].data.id], st1)
    requires n - 1 <= |st1.io[Down]| && st1.io[Down][..n - 1] == st.io[Down][..n][1..]
    requires Known(st.io[Down][..n][1..], host) && DownIs(st1, host, n - 1, st')
    ensures DownIs(st, host, n, st')
  {
    hide FirstAttempt, FreePackets, Fits, CountersAre, FreeEntries, Refused, BuffersOf;
    var p, s := st.io[Down][0], host[st.io[Down][0][0].data.id];
    var x := if Fits(p, s) then [] else FreePackets(p);
    var ps := st.io[Down][..n];
    var rest, rest1 := |st.io[Down]| - n, |st1.io[Down]| - (n - 1);
    RefusedNext(ps, host);
    assert st1.io[Down][n - 1..] == st.io[Down][n..] + x;
    assert st'.io[Down][rest..rest1] == x by {
      assert st'.io[Down][rest..rest1] == st'.io[Down][..rest1][rest..];
    }
    FreeEntriesAppend(if Fits(p, s) then [] else p, x, BuffersOf(Refused(ps[1..], host)), st'.io[Down][rest1..]);
    assert st'.io[Down][rest..] == x + st'.io[Down][rest1..];
    assert st'.io[Down][..rest] == st'.io[Down][..rest1][..rest];
  }

  lemma RefusedNext(ps: seq<Packet>, host: map<nat, Super>)
    requires ps != [] && Known(ps, host)
    ensures Known(ps[1..], host)
    ensures BuffersOf(Refused(ps, host)) ==
            (if Fits(ps[0], host[ps[0][0].data.id]) then [] else ps[0]) + BuffersOf(Refused(ps[1..], host))
  {
    hide Fits;
    var r := Refused(ps[1..], host);
    assert ([ps[0]] + r)[1..] == r && [] + r == r;
  }

  /** Entries for one packet that is free, or for none, in front of others. */
  lemma FreeEntriesAppend(p: Packet, x: seq<Packet>, bufs: seq<Buf>, es: seq<Packet>)
    requires (p == [] && x == []) || x == FreePackets(p)
    requires FreeEntries(bufs, es)
    ensures FreeEntries(p + bufs, x + es)
  {
  }

  lemma FramesNext(st: Fw, host: map<nat, Super>, ps: seq<Packet>, st1: Fw, st': Fw)
    requires Down in st.io && st.io[Down] != [] && ps != [] && Known(ps, host) && Known(ps[1..], host)
    requires DownloadedOne(st, ps[0], host[ps[0][0].data.id], st1) && FramesAre(st1, host, ps[1..], st')
    ensures FramesAre(st, host, ps, st')
  {
    hide FirstAttempt, FreePackets, Fits, CountersAre, Entered, Taken, Refusals;
    HistoryNext(ps, host, st.accepted, st.reports);
    forall q | q in st.air
      ensures |st.air[q]| <= |st'.air[q]| && st'.air[q][..|st.air[q]|] == st.air[q]
      ensures Entered(q, ps, host, |st.accepted|, st'.air[q][|st.air[q]|..])
    {
      EnteredNext(q, ps, host, |st.accepted|, st.air[q], st1.air[q], st'.air[q]);
    }
  }

  lemma HistoryNext(ps: seq<Packet>, host: map<nat, Super>, before: seq<Super>, reports: seq<Report>)
    requires ps != [] && Known(ps, host) && Known(ps[1..], host)
    ensures var s := host[ps[0][0].data.id];
            && before + (if Fits(ps[0], s) then [s] else []) + Taken(ps[1..], host) == before + Taken(ps, host)
            && reports + (if Fits(ps[0], s) then [] else [Refusal(s)]) + Refusals(ps[1..], host) == reports + Refusals(ps, host)
  {
    hide Fits, Refusal;
    var s := host[ps[0][0].data.id];
    var a, b := if Fits(ps[0], s) then [s] else [], if Fits(ps[0], s) then [] else [Refusal(s)];
    var t, u := Taken(ps[1..], host), Refusals(ps[1..], host);
    assert Taken(ps, host) == a + t && Refusals(ps, host) == b + u;
    hide Taken, Refusals, Known;
    Reassociated(before, a, t);
    Reassociated(reports, b, u);
  }

  lemma Reassociated<T>(a: seq<T>, b: seq<T>, c: seq<T>)
    ensures a + b + c == a + (b + c)
  {
  }

  lemma EnteredNext(q: QueueId, ps: seq<Packet>, host: map<nat, Super>, first: nat, a: seq<Frame>, b: seq<Frame>, c: seq<Frame>)
    requires ps != [] && Known(ps, host) && Known(ps[1..], host)
    requires var s := host[ps[0][0].data.id];
             if Fits(ps[0], s) && q == Destination(s) then |b| == |a| + 1 && b[..|a|] == a && FirstAttempt(ps[0], s, first, b[|a|])
             else b == a
    requires |b| <= |c| && c[..|b|] == b
    requires Entered(q, ps[1..], host, if Fits(ps[0], host[ps[0][0].data.id]) then first + 1 else first, c[|b|..])
    ensures |a| <= |c| && c[..|a|] == a && Entered(q, ps, host, first, c[|a|..])
  {
    hide FirstAttempt, Fits;
    if |b| == |a| + 1 {
      assert c[|a|] == c[..|b|][|a|] && c[|a|..][1..] == c[|b|..];
      assert c[..|a|] == c[..|b|][..|a|];
    }
  }

  lemma {:induction false} CountsAppend(s: seq<Super>, t: seq<Super>, v: nat)
    ensures Bars(s + t) == Bars(s) + Bars(t) && Cabs(s + t, v) == Cabs(s, v) + Cabs(t, v)
  {
    if s == [] {
      assert s + t == t;
    } else {
      CountsAppend(s[1..], t, v);
      assert (s + t)[1..] == s[1..] + t;
    }
  }

  lemma CountersNext(st: Fw, a: seq<Super>, b: seq<Super>, st1: Fw, st': Fw)
    requires CountersAre(st, a, st1) && CountersAre(st1, b, st')
    ensures CountersAre(st, a + b, st')
  {
    forall v: nat | v < |st.cabLen| ensures st'.cabLen[v] == st.cabLen[v] + Cabs(a + b, v) {
      CountsAppend(a, b, v);
    }
    CountsAppend(a, b, 0);
  }

  lemma {:induction false} DownloadedAll(st: Fw, host: map<nat, Super>, n: nat)
    requires Inv(st) && Down in st.io && HostOk(host, st.io[Down], |st.cabLen|) && FinishedPrefix(st.io[Down], n)
    ensures Known(st.io[Down][..n], host) && Downloaded(st, host, n, DownloadAll(st, host))
    decreases n
  {
    hide Inv, WellTyped, FreePackets, DownloadAll, Download, DownloadedOne, DownIs, FramesAre, CountersAre;
    AllKnown(st, host, n);
    if n == 0 {
      DownloadStop(st, host);
      NothingDownloaded(st, host);
    } else {
      var s := host[st.io[Down][0][0].data.id];
      DownloadReady(st, host);
      OneDownloaded(st, s);
      DownloadNext(st, host);
      var st1 := Download(st, s);
      OneDown(st, s, n, st1);
      DownloadedAll(st1, host, n - 1);
      DownloadedNext(st, host, n, st1, DownloadAll(st, host));
    }
  }

  lemma OneDown(st: Fw, s: Super, n: nat, st1: Fw)
    requires Down in st.io && 0 < n && FinishedPrefix(st.io[Down], n) && DownloadedOne(st, st.io[Down][0], s, st1)
    ensures Down in st1.io && FinishedPrefix(st1.io[Down], n - 1) && st1.io[Down][..n - 1] == st.io[Down][..n][1..]
  {
    hide FirstAttempt, FreePackets, Fits, CountersAre;
    FreeIsHw(st.io[Down][0]);
    PrefixNext(st.io[Down], n, if Fits(st.io[Down][0], s) then [] else FreePackets(st.io[Down][0]));
  }

  lemma AllKnown(st: Fw, host: map<nat, Super>, n: nat)
    requires Inv(st) && Down in st.io && HostOk(host, st.io[Down], |st.cabLen|) && FinishedPrefix(st.io[Down], n)
    ensures Known(st.io[Down][..n], host) && (n > 0 ==> Known(st.io[Down][..n][1..], host))
  {
    hide Inv, WellTyped;
    IoFacts(st, Down);
  }

  lemma NothingDownloaded(st: Fw, host: map<nat, Super>)
    requires Down in st.io && Known(st.io[Down][..0], host)
    ensures Downloaded(st, host, 0, st)
  {
    assert st.io[Down][..0] == [] && st.io == st.io[Down := st.io[Down]];
    assert st.accepted + [] == st.accepted && st.reports + [] == st.reports;
  }

  /** What handle_download does, for the packets that the hardware had finished. */
  ghost predicate DownloadDid(st: Fw, host: map<nat, Super>, st': Fw)
    requires Down in st.io
  {
    exists n: nat :: FinishedPrefix(st.io[Down], n) && Known(st.io[Down][..n], host) && Downloaded(st, host, n, st')
  }

  /**
   handle_download accepts exactly the finished packets whose transfer holds their frame: these
   are numbered and go into their queues in order; each of the others is reported as failed, and
   its buffers are free entries at the end of the down queue.
   */
  lemma DownloadLaw(st: Fw, host: map<nat, Super>)
    requires Inv(st) && HostOk(host, DownPackets(st), |st.cabLen|)
    ensures Down in st.io && DownloadDid(st, host, DownloadAll(st, host))
  {
    hide Inv, DownloadAll, Downloaded, WellTyped;
    HasIo(st);
    IoFacts(st, Down);
    var n := PrefixExists(st.io[Down]);
    DownloadedAll(st, host, n);
  }

  // ----- frames that leave the tx path -----

  /** The buffers of a frame, the first one with its superdescriptor again. */
  function Shown(f: Frame): Packet
    requires f.bufs != [] && f.bufs[0].data.Block?
  {
    f.bufs[0 := f.bufs[0].(data := Block(f.bufs[0].data.id, false))]
  }

  /** The frame `f` of the host is gone: its buffers are free entries at the end of the down queue, and it counts no more. */
  ghost predicate HostFrameGone(st: Fw, f: Frame, st': Fw)
    requires Down in st.io && f.bufs != [] && f.bufs[0].data.Block?
  {
    && Down in st'.io && st'.io == st.io[Down := st'.io[Down]] && st'.fwAvail == st.fwAvail
    && |st.io[Down]| <= |st'.io[Down]| && st'.io[Down][..|st.io[Down]|] == st.io[Down]
    && FreeEntries(Shown(f), st'.io[Down][|st.io[Down]|..])
    && st'.queuedBar == st.queuedBar - (if f.super.isBar then 1 else 0) && |st'.cabLen| == |st.cabLen|
    && forall v: nat :: v < |st.cabLen| ==> st'.cabLen[v] == st.cabLen[v] - if f.super.cab && f.super.vif == v then 1 else 0
  }

  /** Of the firmware's own frame only the buffer is available again. */
  ghost predicate OwnFrameGone(st: Fw, st': Fw)
  {
    st'.io == st.io && st'.fwAvail && st'.queuedBar == st.queuedBar && st'.cabLen == st.cabLen
  }

  /** What wlan_tx_status does to the buffers and the counters. */
  lemma ReleaseLaw(st: Fw, i: nat)
    requires Inv(st) && Completed(st, i)
    ensures Tx(i) in st.air && st.air[Tx(i)] != [] && Down in st.io
    ensures var f, st' := st.air[Tx(i)][0], TxStatus(st, i).0;
            && f.bufs != [] && f.bufs[0].data.Block? && WellTyped(f.super) && f.super.rix < MAX_RATES
            && (Failed(f) && AttemptsLeft(f.super) ==>
                  st'.io == st.io && st'.fwAvail == st.fwAvail && st'.queuedBar == st.queuedBar && st'.cabLen == st.cabLen)
            && ((!Failed(f) || !AttemptsLeft(f.super)) && f.super.serial >= 0 ==> HostFrameGone(st, f, st'))
            && ((!Failed(f) || !AttemptsLeft(f.super)) && f.super.serial < 0 ==> OwnFrameGone(st, st'))
  {
    hide WellTyped, StatusOutcome, AttemptsLeft, Failed, Finished, HostFrameGone, Resent, Requeued, PutFrame;
    StatusKnown(st, i);
    FrameFacts(st, Tx(i), 0);
    var f := st.air[Tx(i)][0];
    var b := f.bufs[0];
    var g := f.(bufs := f.bufs[0 := b.(ctrl := b.ctrl.(txFail := false, baFail := false))]);
    OutcomeIs(f);
    OwnBySerial(st, Tx(i), f);
    GoneIs(DropHead(st, Tx(i)), f, g, !Failed(f));
    GoneSame(st, DropHead(st, Tx(i)), f, TxStatus(st, i).0);
  }

  lemma OwnBySerial(st: Fw, q: QueueId, f: Frame)
    requires Inv(st) && q in st.air && f in st.air[q]
    ensures IsFwFrame(st, f) <==> f.super.serial < 0
  {
    hide BooksOk, IoOk, ReportsOk, AcceptedOk, FrameOk;
    OwnFrameIff(st, q, f);
  }

  lemma GoneSame(st: Fw, st1: Fw, f: Frame, st': Fw)
    requires Down in st.io && f.bufs != [] && f.bufs[0].data.Block?
    requires st1.io == st.io && st1.fwAvail == st.fwAvail && st1.queuedBar == st.queuedBar && st1.cabLen == st.cabLen
    ensures HostFrameGone(st1, f, st') ==> HostFrameGone(st, f, st')
  {
  }

  lemma GoneIs(st: Fw, f: Frame, g: Frame, success: bool)
    requires Down in st.io && f.bufs != [] && f.bufs[0].data.Block? && (f.super.cab ==> f.super.vif < |st.cabLen|)
    requires g.super == f.super && |g.bufs| == |f.bufs| && g.bufs[0].data == f.bufs[0].data && g.bufs[1..] == f.bufs[1..]
    ensures IsFwFrame(st, f) ==> OwnFrameGone(st, Finished(st, g, success))
    ensures !IsFwFrame(st, f) ==> HostFrameGone(st, f, Finished(st, g, success))
  {
    hide FreePackets, StatusOf, UnhideBuf, FreeEntries;
    if !IsFwFrame(st, f) {
      FreedShown(f, g);
      assert st.io[Down] + FreePackets(g.bufs[0 := UnhideBuf(g.bufs[0])]) == Finished(st, g, success).io[Down];
    }
  }

  lemma FreedShown(f: Frame, g: Frame)
    requires f.bufs != [] && f.bufs[0].data.Block?
    requires |g.bufs| == |f.bufs| && g.bufs[0].data == f.bufs[0].data && g.bufs[1..] == f.bufs[1..]
    ensures FreeEntries(Shown(f), FreePackets(g.bufs[0 := UnhideBuf(g.bufs[0])]))
  {
    forall j | 0 < j < |f.bufs| ensures g.bufs[j] == f.bufs[j] {
      assert g.bufs[j] == g.bufs[1..][j - 1];
    }
  }

  // ----- frames and responses of the firmware -----

  /** The packet that the firmware makes of `len` bytes in one of its own buffers. */
  function OwnPacket(id: nat, len: u16): Packet
  {
    [Buf(Sw, 0, Ctrl(false, false, true, true), len, len, Block(id, false))]
  }

  /** wlan_tx_fw: while its buffer is in use nothing is sent; otherwise the frame goes into its queue, unnumbered. */
  lemma SendFwLaw(st: Fw, id: nat, s: Super)
    requires EntryQueue(s) in st.air && (s.cab ==> s.vif < |st.cabLen|)
    ensures !st.fwAvail ==> SendFw(st, id, s) == st
    ensures st.fwAvail ==>
              var st', q := SendFw(st, id, s), Destination(s);
              && q in st.air && q in st'.air && st'.air == st.air[q := st'.air[q]]
              && |st'.air[q]| == |st.air[q]| + 1 && st'.air[q][..|st.air[q]|] == st.air[q]
              && FirstAttempt(OwnPacket(id, s.len), s, -1, st'.air[q][|st.air[q]|])
              && !st'.fwAvail && st'.fwData == id && st'.io == st.io && st'.accepted == st.accepted && st'.reports == st.reports
  {
    hide PutFrame, Started, FirstAttempt;
    FirstAttemptIs(OwnPacket(id, s.len), s, -1);
  }

  /** usb_status_in: the response goes to the host while its buffer is not in use. */
  lemma RespondLaw(st: Fw, len: u16)
    requires Up in st.io
    ensures !st.intAvail ==> Respond(st, len) == st
    ensures st.intAvail ==>
              var st' := Respond(st, len);
              && Up in st'.io && |st'.io[Up]| == |st.io[Up]| + 1
              && HandedOn(OwnPacket(RSP_BLOCK, len), st'.io[Up][|st.io[Up]|])
              && st' == st.(io := st.io[Up := st.io[Up] + [st'.io[Up][|st.io[Up]|]]], intAvail := false)
  {
  }
}
