/**
 The transmit path as a state machine: rounds of the firmware's handlers and steps of
 the hardware, in any order. Every run keeps `Inv`.
 */
module TxSafety {
  import opened Dma
  import opened Pools
  import opened TxSpec
  import opened TxRuns
  import opened BlockCount

  // ----- frames, packets and reports -----

  /** The data pointer of the first buffer is past the superdescriptor. */
  ghost predicate Shifted(p: Packet)
  {
    p != [] && p[0].data.Block? && p[0].data.hidden && forall j :: 1 <= j < |p| ==> p[j].data.Block? && !p[j].data.hidden
  }

  ghost predicate Plain(p: Packet)
  {
    p != [] && forall j :: 0 <= j < |p| ==> p[j].data.Block? && !p[j].data.hidden
  }

  ghost predicate HostBlocks(p: Packet)
  {
    forall j :: 0 <= j < |p| && p[j].data.Block? ==> !Reserved(p[j].data.id)
  }

  ghost predicate InRightQueue(q: QueueId, s: Super)
  {
    match q
    case Tx(i) => s.queue == i
    case Cab(v) => s.cab && s.vif == v
    case _ => true
  }

  ghost predicate FrameOk(acc: seq<Super>, fwData: int, q: QueueId, f: Frame)
  {
    && Shifted(f.bufs) && RetryOk(f.super) && InRightQueue(q, f.super)
    && (if f.super.serial < 0 then
          !f.super.isBar && !f.super.cab && |f.bufs| == 1 && f.bufs[0].data.id == fwData && Reserved(fwData)
        else
          && f.super.serial < |acc| && TagOf(f.super) == TagOf(acc[f.super.serial].(serial := f.super.serial))
          && HostBlocks(f.bufs))
  }

  /**
   Response packets are the firmware's own; all others carry data blocks. Entries that
   the hardware has yet to fill are single ones.
   */
  ghost predicate PacketOk(q: QueueId, p: Packet)
  {
    && Plain(p) && (if q == Up && p[0].data.id == RSP_BLOCK then |p| == 1 else HostBlocks(p))
    && (q != Up && p[0].own == Hw ==> |p| == 1)
  }

  /**
   A report of an accepted frame names it, tells how often it was sent, and a failure
   means that every attempt its rates allow was made.
   */
  ghost predicate ReportOk(acc: seq<Super>, r: Report)
  {
    r.serial >= 0 ==>
      && r.serial < |acc| && var s := acc[r.serial];
      && |s.ri| == MAX_RATES && |s.rr| == MAX_RETRY_RATES
      && r.cookie == s.cookie && r.queue == s.queue && r.rix < MAX_RATES && r.tries <= 7
      && r.attempts == BudgetUpTo(s.ri, r.rix) + r.tries && 1 <= r.tries <= Budget(s.ri[r.rix])
      && (!r.success ==> r.tries == Budget(s.ri[r.rix]) && (r.rix < MAX_RETRY_RATES ==> s.rr[r.rix] == 0))
  }

  ghost predicate AirOk(acc: seq<Super>, fwData: int, air: map<QueueId, seq<Frame>>)
  {
    forall q, k {:trigger air[q][k]} :: q in air && 0 <= k < |air[q]| ==> FrameOk(acc, fwData, q, air[q][k])
  }

  ghost predicate IoOk(io: map<QueueId, seq<Packet>>)
  {
    && (forall q :: q in io <==> q == Up || q == Down || q == Rx)
    && forall q, k {:trigger io[q][k]} :: q in io && 0 <= k < |io[q]| ==> PacketOk(q, io[q][k])
  }

  ghost predicate ReportsOk(acc: seq<Super>, reports: seq<Report>)
  {
    forall k :: 0 <= k < |reports| ==> ReportOk(acc, reports[k])
  }

  /** The host only names interfaces that exist. */
  ghost predicate AcceptedOk(acc: seq<Super>, vifs: nat)
  {
    forall n :: 0 <= n < |acc| && acc[n].cab ==> acc[n].vif < vifs
  }

  /** Frames, books and packets are good. */
  ghost predicate PathInv(st: Fw)
  {
    && BooksOk(st) && AirOk(st.accepted, st.fwData, st.air) && IoOk(st.io)
    && ReportsOk(st.accepted, st.reports) && AcceptedOk(st.accepted, |st.cabLen|) && Reserved(st.fwData)
  }

  /** The invariant: frames, books and packets are good, and every data block is in exactly one place. */
  ghost predicate Inv(st: Fw)
  {
    PathInv(st) && BlocksOk(st)
  }

  // ----- the state machine -----

  datatype Step =
    | DownloadOne(s: Super)            // handle_download takes the first packet; the host sent `s`
    | StatusOne(i: nat)                // wlan_tx_status for the first frame of a tx queue
    | RetryOne                         // handle_wlan_tx_completion moves one frame back
    | CabOne(v: nat)                   // wlan_cab_flush_queue moves one frame
    | SendOwn(id: nat, own: Super)     // wlan_tx_fw
    | ReceiveOne(filtered: bool)       // handle_wlan_rx
    | UploadOne                        // handle_upload
    | RespondOne(len: u16)             // usb_status_in
    | RotateOne                        // handle_download_exception, first loop
    | FixOne(k: nat)                   // handle_download_exception, second loop
    | AirDone(i: nat, k: nat, p: Packet)               // hardware: entry `k` of a tx queue
    | IoDone(q: QueueId, k: nat, n: nat, group: Packet) // hardware: `n` entries become one packet

  /** What the hardware may change in a packet that it sends: ownership, other status bits and the fail bits. */
  ghost predicate SentAs(p: Packet, p': Packet)
  {
    && |p'| == |p|
    && forall j :: 0 <= j < |p| ==>
         p'[j] == p[j].(own := p'[j].own, flags := p'[j].flags,
                        ctrl := p[j].ctrl.(txFail := p'[j].ctrl.txFail, baFail := p'[j].ctrl.baFail))
  }

  /** The hardware fills free entries, which keep their data blocks, or empties one packet. */
  ghost predicate GroupedAs(ps: seq<Packet>, p: Packet)
  {
    if |ps| == 1 then |p| == |ps[0]| && forall j :: 0 <= j < |p| ==> p[j].data == ps[0][j].data
    else |p| == |ps| && forall j :: 0 <= j < |p| ==> |ps[j]| == 1 && p[j].data == ps[j][0].data
  }

  ghost predicate Enabled(st: Fw, step: Step)
  {
    match step
    case DownloadOne(s) =>
      && WellTyped(s) && (s.cab ==> s.vif < |st.cabLen|)
      && Down in st.io && st.io[Down] != [] && st.io[Down][0] != [] && st.io[Down][0][0].own != Hw
      && EntryQueue(s) in st.air
    case StatusOne(i) => Completed(st, i)
    case RetryOne => Retry in st.air && st.air[Retry] != [] && st.air[Retry][0].bufs != [] && Tx(st.air[Retry][0].super.queue) in st.air
    case CabOne(v) => Cab(v) in st.air && st.air[Cab(v)] != [] && st.air[Cab(v)][0].bufs != [] && Tx(st.air[Cab(v)][0].super.queue) in st.air
    case SendOwn(id, s) =>
      WellTyped(s) && !s.cab && !s.isBar && id <= CMD_BLOCK && EntryQueue(s) in st.air
    case ReceiveOne(_) =>
      Rx in st.io && Up in st.io && st.io[Rx] != [] && st.io[Rx][0] != [] && st.io[Rx][0][0].own != Hw
    case UploadOne =>
      Rx in st.io && Up in st.io && st.io[Up] != [] && st.io[Up][0] != [] && st.io[Up][0][0].own != Hw
    case RespondOne(_) => Up in st.io
    case RotateOne => Down in st.io && st.io[Down] != [] && st.io[Down][0] != [] && st.io[Down][0][0].own == Hw
    case FixOne(k) => Down in st.io && k < |st.io[Down]| && st.io[Down][k] != [] && st.io[Down][k][0].own == Sw
    case AirDone(i, k, p) =>
      && Tx(i) in st.air && k < |st.air[Tx(i)]|
      && var b := st.air[Tx(i)][k].bufs; b != [] && b[0].own == Hw && SentAs(b, p)
    case IoDone(q, k, n, p) =>
      && q in st.io && 0 < n && k + n <= |st.io[q]| && (q == Up ==> n == 1)
      && (forall j {:trigger st.io[q][j]} :: k <= j < k + n ==> st.io[q][j] != [] && st.io[q][j][0].own == Hw)
      && GroupedAs(st.io[q][k..k + n], p) && p != [] && p[0].own != Hw
  }

  function Next(st: Fw, step: Step): Fw
    requires Enabled(st, step)
  {
    match step
    case DownloadOne(s) => Download(st, s)
    case StatusOne(i) => TxStatus(st, i).0
    case RetryOne => Forward(st, Retry)
    case CabOne(v) => CabForward(st, v)
    case SendOwn(id, s) => SendFw(st, id, s)
    case ReceiveOne(filtered) => Receive(st, filtered)
    case UploadOne => Upload(st)
    case RespondOne(len) => Respond(st, len)
    case RotateOne => Rotate(st)
    case FixOne(k) => FixEntry(st, k)
    case AirDone(i, k, p) =>
      st.(air := st.air[Tx(i) := st.air[Tx(i)][k := st.air[Tx(i)][k].(bufs := p)]])
    case IoDone(q, k, n, p) => st.(io := st.io[q := st.io[q][..k] + [p] + st.io[q][k + n..]])
  }

  ghost predicate IsRun(st: Fw, steps: seq<Step>)
    decreases |steps|
  {
    steps != [] ==> Enabled(st, steps[0]) && IsRun(Next(st, steps[0]), steps[1..])
  }

  function After(st: Fw, steps: seq<Step>): Fw
    requires IsRun(st, steps)
    decreases |steps|
  {
    if steps == [] then st else After(Next(st, steps[0]), steps[1..])
  }

  /** The state that dma_init_descriptors leaves behind. */
  ghost predicate Initial(st: Fw)
  {
    && AirKeys(st) && (forall q :: q in st.air ==> st.air[q] == [])
    && st.io == map[Up := [], Down := FreeBlocks(0, TxBlocks(st.blocks)), Rx := FreeBlocks(TxBlocks(st.blocks), st.blocks)]
    && st.intAvail && st.queuedBar == 0 && (forall v :: 0 <= v < |st.cabLen| ==> st.cabLen[v] == 0)
    && st.fwAvail && st.fwData == NULL && st.accepted == [] && st.reports == []
  }

  lemma {:induction false} SumToEmpty(air: map<QueueId, seq<Frame>>, n: nat, w: Weight)
    requires forall k :: 0 <= k < n ==> AirQueue(k) in air
    requires forall q :: q in air ==> air[q] == []
    ensures SumTo(air, n, w) == 0
  {
    if n > 0 {
      SumToEmpty(air, n - 1, w);
    }
  }

  lemma FreeBlocksOk(q: QueueId, a: nat, b: nat)
    requires a <= b && (q == Down || q == Rx)
    ensures forall k {:trigger FreeBlocks(a, b)[k]} :: 0 <= k < b - a ==> PacketOk(q, FreeBlocks(a, b)[k])
  {
    forall k | 0 <= k < b - a ensures PacketOk(q, FreeBlocks(a, b)[k]) {
      assert FreeBlocks(a, b)[k] == [FreeBlock(FIRST_DATA_BLOCK + a + k)];
    }
  }

  lemma InitialIo(st: Fw)
    requires Initial(st)
    ensures IoOk(st.io)
  {
    FreeBlocksOk(Down, 0, TxBlocks(st.blocks));
    FreeBlocksOk(Rx, TxBlocks(st.blocks), st.blocks);
    hide FreeBlocks, TxBlocks, PacketOk;
  }

  lemma InitialPath(st: Fw)
    requires Initial(st)
    ensures PathInv(st)
  {
    InitialIo(st);
    hide FreeBlocks, TxBlocks, IoOk;
    forall w: Weight ensures Total(st, w) == 0 {
      SumToEmpty(st.air, TX_QUEUES + 1 + |st.cabLen|, w);
    }
    hide Total;
    forall n: nat ensures Accounted(st, n) {
      assert Total(st, SerialWeight(n)) == 0;
    }
  }

  // ----- every step keeps the invariant -----

  lemma PutPacketData(p: Packet)
    requires p != []
    ensures forall j :: 0 <= j < |p| ==> PutPacket(p)[j].data == p[j].data
  {
  }

  lemma FrameData(acc: seq<Super>, fwData: int, q: QueueId, f: Frame, p: Packet)
    requires FrameOk(acc, fwData, q, f) && |p| == |f.bufs| && forall j :: 0 <= j < |p| ==> p[j].data == f.bufs[j].data
    ensures FrameOk(acc, fwData, q, f.(bufs := p))
  {
    hide RetryOk;
  }

  /** Another superframe for the same frame, in a queue that suits it. */
  lemma FrameSuper(acc: seq<Super>, fwData: int, q: QueueId, r: QueueId, f: Frame, s: Super)
    requires FrameOk(acc, fwData, q, f) && RetryOk(s) && TagOf(s) == TagOf(f.super) && InRightQueue(r, s)
    ensures FrameOk(acc, fwData, r, f.(super := s))
  {
    hide RetryOk;
  }

  lemma AppendOk(st: Fw, q: QueueId, f: Frame)
    requires AirOk(st.accepted, st.fwData, st.air) && q in st.air && FrameOk(st.accepted, st.fwData, q, f)
    ensures AirOk(st.accepted, st.fwData, Append(st, q, f).air)
  {
    hide FrameOk;
  }

  lemma DropHeadOk(st: Fw, q: QueueId)
    requires AirOk(st.accepted, st.fwData, st.air) && q in st.air && st.air[q] != []
    ensures AirOk(st.accepted, st.fwData, DropHead(st, q).air)
    ensures FrameOk(st.accepted, st.fwData, q, st.air[q][0])
  {
    hide FrameOk;
    var air' := DropHead(st, q).air;
    forall r, k | r in air' && 0 <= k < |air'[r]| ensures FrameOk(st.accepted, st.fwData, r, air'[r][k]) {
      assert air'[r][k] == if r == q then st.air[r][k + 1] else st.air[r][k];
    }
  }

  lemma SetFrameOk(st: Fw, q: QueueId, k: nat, f: Frame)
    requires AirOk(st.accepted, st.fwData, st.air) && q in st.air && k < |st.air[q]|
    requires FrameOk(st.accepted, st.fwData, q, f)
    ensures AirOk(st.accepted, st.fwData, st.air[q := st.air[q][k := f]])
  {
    hide FrameOk;
  }

  // Frames that start.

  lemma StartedOk(acc: seq<Super>, fwData: int, q: QueueId, f: Frame, serial: int) returns (g: Frame)
    requires Plain(f.bufs) && WellTyped(f.super) && InRightQueue(q, f.super)
    requires if serial < 0 then
               !f.super.isBar && !f.super.cab && |f.bufs| == 1 && f.bufs[0].data.id == fwData && Reserved(fwData)
             else
               serial < |acc| && f.super == acc[serial] && HostBlocks(f.bufs)
    ensures g == PutFrame(Started(f, serial)) && FrameOk(acc, fwData, q, g)
    ensures TagOf(g.super) == TagOf(f.super.(serial := serial))
  {
    var h := Started(f, serial);
    g := PutFrame(h);
    assert BudgetUpTo(h.super.ri, 0) == 0;
    assert RetryOk(h.super);
    PutPacketData(h.bufs);
    hide RetryOk, PutPacket;
  }

  lemma EntryIsRight(s: Super)
    ensures InRightQueue(EntryQueue(s), s)
  {
  }

  /** Frames and reports stay good when the history grows. */
  lemma AcceptOk(acc: seq<Super>, fwData: int, air: map<QueueId, seq<Frame>>, s: Super)
    requires AirOk(acc, fwData, air)
    ensures AirOk(acc + [s], fwData, air)
  {
    hide RetryOk, Shifted, HostBlocks;
    forall q, k | q in air && 0 <= k < |air[q]| ensures FrameOk(acc + [s], fwData, q, air[q][k]) {
      assert FrameOk(acc, fwData, q, air[q][k]);
    }
  }

  lemma AcceptReports(acc: seq<Super>, reports: seq<Report>, s: Super)
    requires ReportsOk(acc, reports)
    ensures ReportsOk(acc + [s], reports)
  {
    hide BudgetUpTo;
    forall k | 0 <= k < |reports| ensures ReportOk(acc + [s], reports[k]) {
      assert ReportOk(acc, reports[k]);
    }
  }

  lemma ReportAppended(acc: seq<Super>, reports: seq<Report>, r: Report)
    requires ReportsOk(acc, reports) && ReportOk(acc, r)
    ensures ReportsOk(acc, reports + [r])
  {
    hide ReportOk;
  }

  /** With the reserved frame at hand, no frame in flight uses its buffer. */
  lemma NoOwnInFlight(st: Fw, id: nat)
    requires BooksOk(st) && AirOk(st.accepted, st.fwData, st.air) && st.fwAvail
    ensures AirOk(st.accepted, id, st.air)
  {
    hide RetryOk, Shifted, HostBlocks, Total;
    forall q, k | q in st.air && 0 <= k < |st.air[q]| ensures FrameOk(st.accepted, id, q, st.air[q][k]) {
      assert FrameOk(st.accepted, st.fwData, q, st.air[q][k]);
      OneOfTotal(st, q, k, OwnWeight());
    }
  }

  // The queues to and from the host.

  lemma RecycleOk(st: Fw, q: QueueId, p: Packet)
    requires IoOk(st.io) && (q == Down || q == Rx) && HostBlocks(p)
    requires forall j :: 0 <= j < |p| ==> p[j].data.Block? && !p[j].data.hidden
    ensures q in st.io && IoOk(Recycle(st, q, p).io)
  {
    var st' := Recycle(st, q, p);
    forall r, k | r in st'.io && 0 <= k < |st'.io[r]| ensures PacketOk(r, st'.io[r][k]) {
      if r == q && k >= |st.io[q]| {
        assert st'.io[r][k] == FreePackets(p)[k - |st.io[q]|];
      } else {
        assert st'.io[r][k] == st.io[r][k];
      }
    }
  }

  lemma AppendIoOk(st: Fw, q: QueueId, p: Packet)
    requires IoOk(st.io) && q in st.io && PacketOk(q, p)
    ensures IoOk(AppendIo(st, q, p).io)
  {
    hide PacketOk;
  }

  lemma DropIoOk(st: Fw, q: QueueId)
    requires IoOk(st.io) && q in st.io && st.io[q] != []
    ensures IoOk(DropIo(st, q).io) && PacketOk(q, st.io[q][0])
  {
    hide PacketOk;
    var st' := DropIo(st, q);
    forall r, k | r in st'.io && 0 <= k < |st'.io[r]| ensures PacketOk(r, st'.io[r][k]) {
      assert st'.io[r][k] == if r == q then st.io[r][k + 1] else st.io[r][k];
    }
  }

  /** Steps that leave the frames and the books alone. */
  lemma SameFramesPath(st: Fw, st': Fw)
    requires PathInv(st) && IoOk(st'.io) && st'.air == st.air && SameBooks(st, st') && st'.fwData == st.fwData
    ensures PathInv(st')
  {
    hide IoOk, AirOk, ReportsOk, AcceptedOk;
    forall w: Weight ensures Total(st', w) == Total(st, w) {
    }
    LevelBooks(st, st');
  }

  lemma HasAirKeys(st: Fw)
    requires BooksOk(st)
    ensures AirKeys(st)
  {
  }

  // The handlers.

  lemma DownloadPath(st: Fw, s: Super)
    requires PathInv(st) && Enabled(st, DownloadOne(s))
    ensures PathInv(Next(st, DownloadOne(s)))
  {
    hide BooksOk, AirOk, IoOk, ReportsOk, AcceptedOk, WellTyped;
    var p := st.io[Down][0];
    var st1 := DropIo(st, Down);
    DropIoOk(st, Down);
    SameFramesPath(st, st1);
    if LengthOk(p, s) {
      HostStart(st1, Frame(p, s));
    } else {
      var r := StatusOf(s, -1, false);
      RejectPath(st1, r);
      RecycleOk(st1, Down, p);
      SameFramesPath(st1.(reports := st.reports + [r]), Next(st, DownloadOne(s)));
    }
  }

  lemma RejectPath(st: Fw, r: Report)
    requires PathInv(st) && r.serial < 0
    ensures PathInv(st.(reports := st.reports + [r]))
  {
    hide IoOk, AirOk, ReportsOk, AcceptedOk;
    var st' := st.(reports := st.reports + [r]);
    forall w: Weight ensures Total(st', w) == Total(st, w) {
    }
    RejectBooks(st, st', r);
    ReportAppended(st.accepted, st.reports, r);
  }

  lemma HostStart(st: Fw, f: Frame)
    requires PathInv(st) && Plain(f.bufs) && HostBlocks(f.bufs) && WellTyped(f.super)
    requires EntryQueue(f.super) in st.air && (f.super.cab ==> f.super.vif < |st.cabLen|)
    ensures PathInv(Start(st.(accepted := st.accepted + [f.super]), f, |st.accepted|))
  {
    hide BooksOk, AirOk, IoOk, ReportsOk, FrameOk, PutFrame, Started, WellTyped, Total;
    var n, q := |st.accepted|, EntryQueue(f.super);
    var st1 := st.(accepted := st.accepted + [f.super]);
    var st' := Start(st1, f, n);
    EntryIsRight(f.super);
    HasAirKeys(st);
    var g := StartedOk(st1.accepted, st.fwData, q, f, n);
    AcceptOk(st.accepted, st.fwData, st.air, f.super);
    AcceptReports(st.accepted, st.reports, f.super);
    AppendOk(st1, q, g);
    AppendGrows(st, st', q, g);
    HostStartBooks(st, st', f.super, TagOf(g.super));
  }

  lemma SendOwnPath(st: Fw, id: nat, s: Super)
    requires PathInv(st) && Enabled(st, SendOwn(id, s))
    ensures PathInv(Next(st, SendOwn(id, s)))
  {
    hide BooksOk, AirOk, IoOk, ReportsOk, FrameOk, PutFrame, Started, WellTyped, Total;
    if st.fwAvail {
      var q := EntryQueue(s);
      var f := Frame([Buf(Sw, 0, Ctrl(false, false, true, true), s.len, s.len, Block(id, false))], s);
      var st' := Next(st, SendOwn(id, s));
      EntryIsRight(s);
      HasAirKeys(st);
      var g := StartedOk(st.accepted, id, q, f, -1);
      NoOwnInFlight(st, id);
      AppendOk(st.(fwData := id), q, g);
      AppendGrows(st, st', q, g);
      OwnStartBooks(st, st', TagOf(g.super));
    }
  }

  lemma CabInRange(st: Fw, q: QueueId, f: Frame)
    requires AcceptedOk(st.accepted, |st.cabLen|) && FrameOk(st.accepted, st.fwData, q, f)
    ensures f.super.cab ==> f.super.vif < |st.cabLen|
  {
    hide RetryOk, Shifted, HostBlocks;
  }

  /** A frame in flight knows its queue, and the status loop can always look at the head. */
  lemma CompletedIff(st: Fw, i: nat)
    requires Inv(st) && i < TX_QUEUES
    ensures Tx(i) in st.air && (st.air[Tx(i)] != [] ==> st.air[Tx(i)][0].bufs != [])
    ensures Completed(st, i) <==> st.air[Tx(i)] != [] && st.air[Tx(i)][0].bufs[0].own == Sw
  {
    hide BudgetUpTo;
    if st.air[Tx(i)] != [] {
      assert FrameOk(st.accepted, st.fwData, Tx(i), st.air[Tx(i)][0]);
      CabInRange(st, Tx(i), st.air[Tx(i)][0]);
    }
  }

  /** The superframe of the next attempt. */
  lemma NextTryOk(s: Super)
    requires RetryOk(s) && ConsumeRetry(s).Again?
    ensures RetryOk(ConsumeRetry(s).super.(retry := true)) && RetryOk(ConsumeRetry(s).super)
    ensures TagOf(ConsumeRetry(s).super) == TagOf(s)
  {
    ConsumeKeepsRetryOk(s);
  }

  /** What the status loop makes of a good frame is a good frame again, or a good report. */
  lemma OutcomeOk(acc: seq<Super>, fwData: int, i: nat, f: Frame)
    requires FrameOk(acc, fwData, Tx(i), f)
    ensures var o := StatusOutcome(f);
            && (o.Resend? || o.Requeue? ==> TagOf(o.f.super) == TagOf(f.super) && FrameOk(acc, fwData, Tx(i), o.f))
            && (o.Finish? && f.super.serial >= 0 ==> ReportOk(acc, StatusOf(f.super, f.super.serial, o.success)))
  {
    hide BudgetUpTo;
    var o := StatusOutcome(f);
    if o.Finish? {
      if f.super.serial >= 0 {
        AttemptsBounded(f.super);
        if !o.success {
          GivenUpWhenUsed(f.super);
        }
      }
    } else {
      NextTryOk(f.super);
      hide RetryOk, ConsumeRetry;
      FrameSuper(acc, fwData, Tx(i), Tx(i), f, o.f.super);
      FrameData(acc, fwData, Tx(i), f.(super := o.f.super), o.f.bufs);
    }
  }

  /** The buffer address tells whether a frame is the firmware's own. */
  lemma OwnFrameIff(st: Fw, q: QueueId, f: Frame)
    requires FrameOk(st.accepted, st.fwData, q, f) && Reserved(st.fwData)
    ensures IsFwFrame(st, f) <==> f.super.serial < 0
  {
    hide RetryOk;
  }

  /** What the handlers can rely on for a frame in flight. */
  lemma FrameFacts(st: Fw, q: QueueId, k: nat)
    requires Inv(st) && q in st.air && k < |st.air[q]|
    ensures Retry in st.air && Down in st.io && Up in st.io && Rx in st.io
    ensures var f := st.air[q][k];
            && f.bufs != [] && f.bufs[0].data.Block? && f.bufs[0].data.hidden
            && WellTyped(f.super) && f.super.rix < MAX_RATES && (f.super.cab ==> f.super.vif < |st.cabLen|)
            && Tx(f.super.queue) in st.air
            && (IsFwFrame(st, f) ==> |f.bufs| == 1 && !st.fwAvail)
  {
    hide BudgetUpTo, HostBlocks, ReportsOk, Total, WellTyped;
    var f := st.air[q][k];
    assert FrameOk(st.accepted, st.fwData, q, f);
    CabInRange(st, q, f);
    OwnFrameIff(st, q, f);
    OneOfTotal(st, q, k, OwnWeight());
    OwnCount(st);
    QueueRange(f.super);
  }

  lemma QueueRange(s: Super)
    requires WellTyped(s)
    ensures s.queue < 4
  {
  }

  lemma StatusPath(st: Fw, i: nat)
    requires PathInv(st) && Completed(st, i)
    ensures PathInv(TxStatus(st, i).0)
  {
    hide BooksOk, AirOk, IoOk, ReportsOk, AcceptedOk, FrameOk, RetryOk, ConsumeRetry, Total, PutPacket, Completed;
    StatusKnown(st, i);
    var q := Tx(i);
    var f := st.air[q][0];
    HasAirKeys(st);
    DropHeadOk(st, q);
    OutcomeOk(st.accepted, st.fwData, i, f);
    var o := StatusOutcome(f);
    if o.Resend? {
      assert [o.f] + st.air[q][1..] == st.air[q][0 := o.f];
      SetFrameOk(st, q, 0, o.f);
      SetHeadLevel(st, q, o.f);
      LevelBooks(st, TxStatus(st, i).0);
    } else if o.Requeue? {
      SameRetry(st, q, o.f, o.f.super);
      var g := PutOk(st, q, Retry, o.f, o.f.super);
      AppendOk(DropHead(st, q), Retry, g);
      MoveLevel(st, TxStatus(st, i).0, q, Retry, g);
      LevelBooks(st, TxStatus(st, i).0);
    } else {
      FinishPath(st, i, f, o.success);
    }
  }

  lemma StatusKnown(st: Fw, i: nat)
    requires Completed(st, i)
    ensures Tx(i) in st.air && st.air[Tx(i)] != [] && Retry in st.air && Down in st.io
    ensures var f := st.air[Tx(i)][0];
            && f.bufs != [] && WellTyped(f.super) && f.super.rix < MAX_RATES
            && (f.super.cab ==> f.super.vif < |st.cabLen|)
  {
  }

  /** dma_put of a good frame, with a superframe that differs only in what may change. */
  lemma PutOk(st: Fw, q: QueueId, r: QueueId, f: Frame, s: Super) returns (g: Frame)
    requires FrameOk(st.accepted, st.fwData, q, f)
    requires RetryOk(s) && TagOf(s) == TagOf(f.super) && InRightQueue(r, s)
    ensures f.bufs != [] && g == PutFrame(f.(super := s)) && TagOf(g.super) == TagOf(f.super)
    ensures FrameOk(st.accepted, st.fwData, r, g)
  {
    hide RetryOk;
    var h := f.(super := s);
    g := PutFrame(h);
    FrameSuper(st.accepted, st.fwData, q, r, f, s);
    PutPacketData(h.bufs);
    FrameData(st.accepted, st.fwData, r, h, g.bufs);
  }

  /** A frame without its fail bits, and with its superdescriptor back. */
  lemma FinishPath(st: Fw, i: nat, f: Frame, success: bool)
    requires PathInv(st) && Tx(i) in st.air && st.air[Tx(i)] != [] && st.air[Tx(i)][0] == f && Down in st.io
    requires f.bufs != [] && (f.super.cab ==> f.super.vif < |st.cabLen|)
    requires FrameOk(st.accepted, st.fwData, Tx(i), f)
    requires f.super.serial >= 0 ==> ReportOk(st.accepted, StatusOf(f.super, f.super.serial, success))
    ensures var b := f.bufs[0];
            var g := f.(bufs := f.bufs[0 := b.(ctrl := b.ctrl.(txFail := false, baFail := false))]);
            PathInv(Finished(DropHead(st, Tx(i)), g, success))
  {
    hide BooksOk, AirOk, IoOk, ReportsOk, AcceptedOk, FrameOk, ReportOk, RetryOk, Total, PutPacket;
    var q := Tx(i);
    var b := f.bufs[0];
    var g := f.(bufs := f.bufs[0 := b.(ctrl := b.ctrl.(txFail := false, baFail := false))]);
    var st1 := DropHead(st, q);
    var st' := Finished(st1, g, success);
    FrameData(st.accepted, st.fwData, q, f, g.bufs);
    OwnFrameIff(st1, q, g);
    OwnIsPlain(st, q, g);
    HasAirKeys(st);
    DropHeadOk(st, q);
    DropShrinks(st, st', q);
    OneOfTotal(st, q, 0, OwnWeight());
    OwnCount(st);
    if f.super.serial < 0 {
      OwnEndBooks(st, st', TagOf(f.super));
    } else {
      var r := StatusOf(f.super, f.super.serial, success);
      HostEndBooks(st, st', TagOf(f.super), r);
      ReportAppended(st.accepted, st.reports, r);
      UnhiddenOk(st, q, g);
      RecycleOk(st, Down, g.bufs[0 := UnhideBuf(g.bufs[0])]);
    }
  }

  lemma OwnIsPlain(st: Fw, q: QueueId, f: Frame)
    requires FrameOk(st.accepted, st.fwData, q, f)
    ensures f.super.serial < 0 ==> !f.super.isBar && !f.super.cab
  {
    hide RetryOk;
  }

  lemma OwnCount(st: Fw)
    requires BooksOk(st)
    ensures AirKeys(st) && Total(st, OwnWeight()) == if st.fwAvail then 0 else 1
  {
  }

  lemma UnhiddenOk(st: Fw, q: QueueId, f: Frame)
    requires FrameOk(st.accepted, st.fwData, q, f) && f.super.serial >= 0
    ensures f.bufs != [] && var p := f.bufs[0 := UnhideBuf(f.bufs[0])];
            Plain(p) && HostBlocks(p)
  {
    hide RetryOk;
  }

  lemma RetryPath(st: Fw)
    requires PathInv(st) && Enabled(st, RetryOne)
    ensures PathInv(Next(st, RetryOne))
  {
    hide BooksOk, AirOk, IoOk, ReportsOk, AcceptedOk, FrameOk, Total, PutPacket;
    ForwardPath(st, Retry, st.air[Retry][0].super);
  }

  lemma CabPath(st: Fw, v: nat)
    requires PathInv(st) && Enabled(st, CabOne(v))
    ensures PathInv(Next(st, CabOne(v)))
  {
    hide BooksOk, AirOk, IoOk, ReportsOk, AcceptedOk, FrameOk, Total, PutPacket;
    ForwardPath(st, Cab(v), st.air[Cab(v)][0].super.(moreData := |st.air[Cab(v)]| > 1));
  }

  /** A frame goes from the retry queue or a cab queue into the tx queue that it names. */
  lemma ForwardPath(st: Fw, q: QueueId, s: Super)
    requires PathInv(st) && q in st.air && st.air[q] != [] && st.air[q][0].bufs != [] && Tx(s.queue) in st.air
    requires s == st.air[q][0].super.(moreData := s.moreData)
    ensures PathInv(Append(DropHead(st, q), Tx(s.queue), PutFrame(st.air[q][0].(super := s))))
  {
    hide BooksOk, AirOk, IoOk, ReportsOk, AcceptedOk, FrameOk, Total, PutPacket;
    var f := st.air[q][0];
    HasAirKeys(st);
    DropHeadOk(st, q);
    SameRetry(st, q, f, s);
    var g := PutOk(st, q, Tx(s.queue), f, s);
    var st' := Append(DropHead(st, q), Tx(s.queue), g);
    AppendOk(DropHead(st, q), Tx(s.queue), g);
    MoveLevel(st, st', q, Tx(s.queue), g);
    LevelBooks(st, st');
  }

  lemma SameRetry(st: Fw, q: QueueId, f: Frame, s: Super)
    requires FrameOk(st.accepted, st.fwData, q, f) && s == f.super.(moreData := s.moreData)
    ensures RetryOk(s)
  {
    hide BudgetUpTo;
  }

  lemma IoStepsPath(st: Fw, step: Step)
    requires PathInv(st) && Enabled(st, step)
    requires step.ReceiveOne? || step.UploadOne? || step.RespondOne? || step.RotateOne?
    ensures PathInv(Next(st, step))
  {
    hide BooksOk, AirOk, IoOk, ReportsOk, AcceptedOk, PutPacket, FreePackets;
    match step
    case ReceiveOne(filtered) =>
      DropIoOk(st, Rx);
      if filtered {
        RecycleOk(DropIo(st, Rx), Rx, st.io[Rx][0]);
      } else {
        PutPacketData(st.io[Rx][0]);
        AppendIoOk(DropIo(st, Rx), Up, PutPacket(st.io[Rx][0]));
      }
      SameFramesPath(st, Next(st, step));
    case UploadOne =>
      DropIoOk(st, Up);
      if st.io[Up][0][0].data != Block(RSP_BLOCK, false) {
        RecycleOk(DropIo(st, Up), Rx, st.io[Up][0]);
      }
      SameFramesPath(st, Next(st, step));
    case RespondOne(len) =>
      if st.intAvail {
        var p := [Buf(Sw, 0, Ctrl(false, false, true, true), len, len, Block(RSP_BLOCK, false))];
        PutPacketData(p);
        AppendIoOk(st, Up, PutPacket(p));
      }
      SameFramesPath(st, Next(st, step));
    case RotateOne =>
      DropIoOk(st, Down);
      RecycleOk(DropIo(st, Down), Down, st.io[Down][0]);
      SameFramesPath(st, Next(st, step));
  }

  lemma FixPath(st: Fw, k: nat)
    requires PathInv(st) && Enabled(st, FixOne(k))
    ensures PathInv(FixEntry(st, k))
  {
    hide BooksOk, AirOk, ReportsOk, AcceptedOk;
    var st' := FixEntry(st, k);
    var p := st.io[Down][k];
    assert PacketOk(Down, p);
    EntriesOk(p);
    hide PacketOk;
    forall r, j | r in st'.io && 0 <= j < |st'.io[r]| ensures PacketOk(r, st'.io[r][j]) {
      if r == Down && k <= j {
        assert st'.io[r][j] == if j == k then [FixBuf(p[0])] else if j < k + |p| then Entries(p[1..])[j - k - 1] else st.io[r][j + 1 - |p|];
      } else {
        assert st'.io[r][j] == st.io[r][j];
      }
    }
    hide IoOk;
    SameFramesPath(st, st');
  }

  lemma EntriesOk(p: Packet)
    requires PacketOk(Down, p)
    ensures p != [] && PacketOk(Down, [FixBuf(p[0])])
    ensures forall j :: 0 <= j < |p| - 1 ==> PacketOk(Down, Entries(p[1..])[j])
  {
  }

  lemma AirDonePath(st: Fw, i: nat, k: nat, p: Packet)
    requires PathInv(st) && Enabled(st, AirDone(i, k, p))
    ensures PathInv(Next(st, AirDone(i, k, p)))
  {
    hide BooksOk, IoOk, ReportsOk, AcceptedOk, FrameOk, Total;
    var q := Tx(i);
    var st' := Next(st, AirDone(i, k, p));
    var f := st.air[q][k];
    assert FrameOk(st.accepted, st.fwData, q, f);
    FrameData(st.accepted, st.fwData, q, f, p);
    SetFrameOk(st, q, k, f.(bufs := p));
    hide AirOk;
    HasAirKeys(st);
    SetLevel(st, st', q, k, f.(bufs := p));
    LevelBooks(st, st');
  }

  lemma {:induction false} SumSet(fs: seq<Frame>, k: nat, f: Frame, w: Weight)
    requires k < |fs| && TagOf(f.super) == TagOf(fs[k].super)
    ensures Sum(fs[k := f], w) == Sum(fs, w)
  {
    if k > 0 {
      assert fs[k := f][1..] == fs[1..][k - 1 := f];
      SumSet(fs[1..], k - 1, f, w);
    } else {
      assert fs[k := f][1..] == fs[1..];
    }
  }

  lemma SetLevel(st: Fw, st': Fw, q: QueueId, k: nat, f: Frame)
    requires AirKeys(st) && q in st.air && k < |st.air[q]| && TagOf(f.super) == TagOf(st.air[q][k].super)
    requires st' == st.(air := st.air[q := st.air[q][k := f]])
    ensures AirKeys(st') && Level(st, st')
  {
    hide Total;
    forall w: Weight ensures Total(st', w) == Total(st, w) {
      TotalSet(st, st', q, w);
      SumSet(st.air[q], k, f, w);
    }
  }

  lemma GroupOk(st: Fw, q: QueueId, k: nat, n: nat, p: Packet)
    requires IoOk(st.io) && Enabled(st, IoDone(q, k, n, p))
    ensures PacketOk(q, p)
  {
    var ps := st.io[q][k..k + n];
    forall j | 0 <= j < |ps| ensures PacketOk(q, ps[j]) {
      assert ps[j] == st.io[q][k + j];
    }
  }

  lemma IoDonePath(st: Fw, q: QueueId, k: nat, n: nat, p: Packet)
    requires PathInv(st) && Enabled(st, IoDone(q, k, n, p))
    ensures PathInv(Next(st, IoDone(q, k, n, p)))
  {
    hide BooksOk, AirOk, ReportsOk, AcceptedOk;
    var st' := Next(st, IoDone(q, k, n, p));
    GroupOk(st, q, k, n, p);
    hide PacketOk;
    forall r, j | r in st'.io && 0 <= j < |st'.io[r]| ensures PacketOk(r, st'.io[r][j]) {
      if r == q {
        assert st'.io[r][j] == if j < k then st.io[r][j] else if j == k then p else st.io[r][j - 1 + n];
      } else {
        assert st'.io[r][j] == st.io[r][j];
      }
    }
    hide IoOk;
    SameFramesPath(st, st');
  }

  lemma StepPath(st: Fw, step: Step)
    requires PathInv(st) && Enabled(st, step)
    ensures PathInv(Next(st, step))
  {
    match step
    case DownloadOne(s) => DownloadPath(st, s);
    case StatusOne(i) => StatusPath(st, i);
    case RetryOne => RetryPath(st);
    case CabOne(v) => CabPath(st, v);
    case SendOwn(id, s) => SendOwnPath(st, id, s);
    case ReceiveOne(_) => IoStepsPath(st, step);
    case UploadOne => IoStepsPath(st, step);
    case RespondOne(_) => IoStepsPath(st, step);
    case RotateOne => IoStepsPath(st, step);
    case FixOne(k) => FixPath(st, k);
    case AirDone(i, k, p) => AirDonePath(st, i, k, p);
    case IoDone(q, k, n, p) => IoDonePath(st, q, k, n, p);
  }

  // ----- no block is lost -----

  lemma HasAllQueues(st: Fw)
    requires PathInv(st)
    ensures HasQueues(st)
  {
    hide AirOk, ReportsOk, AcceptedOk, Total;
  }

  lemma QueuesAfter(st: Fw, step: Step)
    requires Inv(st) && Enabled(st, step)
    ensures HasQueues(Next(st, step))
  {
    hide PathInv, Enabled, Next;
    StepPath(st, step);
    HasAllQueues(Next(st, step));
  }

  /** Steps that take as many references out of the queues as they put in. */
  lemma SameBlocks(st: Fw, st': Fw)
    requires BlocksOk(st) && HasQueues(st') && forall id: nat :: Count(st', id) == Count(st, id)
    requires st'.fwAvail == st.fwAvail && st'.fwData == st.fwData && st'.intAvail == st.intAvail && st'.blocks == st.blocks
    ensures BlocksOk(st')
  {
    hide Count, HasQueues;
    forall id: nat ensures Count(st', id) == Expected(st', id) {
      assert Count(st, id) == Expected(st, id);
    }
  }

  lemma DownloadBlocks(st: Fw, s: Super)
    requires Inv(st) && Enabled(st, DownloadOne(s))
    ensures BlocksOk(Next(st, DownloadOne(s)))
  {
    hide Inv, Count, HasQueues, WellTyped, PutFrame, Started, Recycle, StatusOf, BlocksOk;
    BlocksKnown(st);
    var p := st.io[Down][0];
    var st1 := DropIo(st, Down);
    var st' := Next(st, DownloadOne(s));
    QueuesAfter(st, DownloadOne(s));
    forall id: nat ensures Count(st', id) == Count(st, id) {
      DropIoCount(st, Down, id);
      if LengthOk(p, s) {
        var st2 := st1.(accepted := st1.accepted + [s]);
        NothingChanged(st1, st2, id);
        StartCount(st2, Frame(p, s), |st1.accepted|, id);
      } else {
        var st2 := WithReport(st1, StatusOf(s, -1, false));
        NothingChanged(st1, st2, id);
        RecycleCount(st2, Down, p, id);
      }
    }
    DownloadKeeps(st, s);
    SameBlocks(st, st');
  }

  lemma DownloadKeeps(st: Fw, s: Super)
    requires Enabled(st, DownloadOne(s))
    ensures var st' := Next(st, DownloadOne(s));
            st'.fwAvail == st.fwAvail && st'.fwData == st.fwData && st'.intAvail == st.intAvail && st'.blocks == st.blocks
  {
    hide WellTyped, PutFrame, Started, FreePackets, StatusOf;
  }

  /** The firmware's own frame is one buffer. */
  lemma OwnFrameBlocks(st: Fw, q: QueueId, k: nat, id: nat)
    requires Inv(st) && q in st.air && k < |st.air[q]| && IsFwFrame(st, st.air[q][k])
    ensures !st.fwAvail && InPacket(st.air[q][k].bufs, id) == if id == st.fwData then 1 else 0
  {
    FrameFacts(st, q, k);
    OneBuffer(st.air[q][k].bufs[0], id);
  }

  lemma StatusBlocks(st: Fw, i: nat)
    requires Inv(st) && Completed(st, i)
    ensures BlocksOk(TxStatus(st, i).0)
  {
    hide Inv, Count, HasQueues, StatusOutcome, TxStatus, Completed, BlocksOk, IsFwFrame;
    StatusKnown(st, i);
    BlocksKnown(st);
    var f := st.air[Tx(i)][0];
    var st' := TxStatus(st, i).0;
    StatusKeeps(st, i);
    QueuesAfter(st, StatusOne(i));
    forall id: nat ensures Count(st', id) == Expected(st', id) {
      StatusCount(st, i, id);
      BlockAt(st, id);
      if IsFwFrame(st, f) {
        OwnFrameBlocks(st, Tx(i), 0, id);
      }
    }
    BlocksMade(st');
  }

  lemma BlocksKnown(st: Fw)
    requires Inv(st)
    ensures HasQueues(st) && st.fwData <= CMD_BLOCK && BlocksOk(st)
  {
  }

  lemma BlockAt(st: Fw, id: nat)
    requires Inv(st)
    ensures HasQueues(st) && st.fwData <= CMD_BLOCK && Count(st, id) == Expected(st, id)
  {
  }

  lemma BlocksMade(st: Fw)
    requires HasQueues(st) && st.fwData <= CMD_BLOCK && forall id: nat :: Count(st, id) == Expected(st, id)
    ensures BlocksOk(st)
  {
  }

  lemma StatusKeeps(st: Fw, i: nat)
    requires Completed(st, i)
    ensures var (st', f) := (TxStatus(st, i).0, st.air[Tx(i)][0]);
            && st'.fwData == st.fwData && st'.intAvail == st.intAvail && st'.blocks == st.blocks
            && st'.fwAvail == (st.fwAvail || (StatusOutcome(f).Finish? && IsFwFrame(st, f)))
  {
    hide FreePackets, PutPacket, ConsumeRetry, WellTyped, StatusOf, UnhideBuf;
  }

  lemma MoveBlocks(st: Fw, q: QueueId, r: QueueId, s: Super)
    requires BlocksOk(st) && q in st.air && r in st.air && st.air[q] != [] && st.air[q][0].bufs != []
    ensures BlocksOk(Append(DropHead(st, q), r, PutFrame(st.air[q][0].(super := s))))
  {
    hide Count, AirKeys, PutFrame;
    var st' := Append(DropHead(st, q), r, PutFrame(st.air[q][0].(super := s)));
    ForwardCount(st, q, r, s, 0);
    forall id: nat ensures Count(st', id) == Count(st, id) {
      ForwardCount(st, q, r, s, id);
    }
    SameBlocks(st, st');
  }

  lemma SendOwnBlocks(st: Fw, id: nat, s: Super)
    requires Inv(st) && Enabled(st, SendOwn(id, s))
    ensures BlocksOk(SendFw(st, id, s))
  {
    hide Inv, Count, HasQueues, BlocksOk, Start;
    BlocksKnown(st);
    if st.fwAvail {
      var b := Buf(Sw, 0, Ctrl(false, false, true, true), s.len, s.len, Block(id, false));
      var st1 := st.(fwAvail := false, fwData := id);
      var st' := SendFw(st, id, s);
      StartKeeps(st1, Frame([b], s));
      QueuesAfter(st, SendOwn(id, s));
      forall x: nat ensures Count(st', x) == Expected(st', x) {
        BlockAt(st, x);
        NothingChanged(st, st1, x);
        StartCount(st1, Frame([b], s), -1, x);
        OneBuffer(b, x);
      }
      BlocksMade(st');
    }
  }

  lemma StartKeeps(st: Fw, f: Frame)
    requires f.bufs != [] && EntryQueue(f.super) in st.air && (f.super.cab ==> f.super.vif < |st.cabLen|)
    ensures var st' := Start(st, f, -1);
            && st'.fwAvail == st.fwAvail && st'.fwData == st.fwData && st'.intAvail == st.intAvail && st'.blocks == st.blocks
  {
    hide PutPacket, HideBuf;
  }

  lemma ReceiveBlocks(st: Fw, filtered: bool)
    requires Inv(st) && Enabled(st, ReceiveOne(filtered))
    ensures BlocksOk(Receive(st, filtered))
  {
    hide Inv, Count, AirKeys, PutPacket, FreePackets;
    BlocksKnown(st);
    var p := st.io[Rx][0];
    var st' := Receive(st, filtered);
    QueuesAfter(st, ReceiveOne(filtered));
    forall id: nat ensures Count(st', id) == Count(st, id) {
      DropIoCount(st, Rx, id);
      if filtered {
        RecycleCount(DropIo(st, Rx), Rx, p, id);
      } else {
        AppendIoCount(DropIo(st, Rx), Up, PutPacket(p), id);
        PutSame(p);
        SamePacket(p, PutPacket(p), id);
      }
    }
    SameBlocks(st, st');
  }

  lemma UploadBlocks(st: Fw)
    requires Inv(st) && Enabled(st, UploadOne)
    ensures BlocksOk(Upload(st))
  {
    hide Inv, Count, HasQueues, FreePackets, BlocksOk;
    BlocksKnown(st);
    var p := st.io[Up][0];
    var st' := Upload(st);
    UpPacket(st);
    QueuesAfter(st, UploadOne);
    forall id: nat ensures Count(st', id) == Expected(st', id) {
      BlockAt(st, id);
      BlockAt(st, RSP_BLOCK);
      DropIoCount(st, Up, id);
      DropIoCount(st, Up, RSP_BLOCK);
      if p[0].data == Block(RSP_BLOCK, false) {
        OneBuffer(p[0], id);
        OneBuffer(p[0], RSP_BLOCK);
        NothingChanged(DropIo(st, Up), st', id);
        NothingChanged(DropIo(st, Up), st', RSP_BLOCK);
      } else {
        RecycleCount(DropIo(st, Up), Rx, p, id);
      }
    }
    BlocksMade(st');
  }

  lemma UpPacket(st: Fw)
    requires Inv(st) && Up in st.io && st.io[Up] != []
    ensures var p := st.io[Up][0]; Plain(p) && (p[0].data == Block(RSP_BLOCK, false) ==> |p| == 1)
  {
    hide BooksOk, AirOk, ReportsOk, BlocksOk;
    assert PacketOk(Up, st.io[Up][0]);
  }

  lemma RespondBlocks(st: Fw, len: u16)
    requires Inv(st) && Enabled(st, RespondOne(len))
    ensures BlocksOk(Respond(st, len))
  {
    hide Inv, Count, HasQueues, PutPacket, BlocksOk;
    BlocksKnown(st);
    if st.intAvail {
      var b := Buf(Sw, 0, Ctrl(false, false, true, true), len, len, Block(RSP_BLOCK, false));
      var st1 := st.(intAvail := false);
      var st' := Respond(st, len);
      PutSame([b]);
      QueuesAfter(st, RespondOne(len));
      forall id: nat ensures Count(st', id) == Expected(st', id) {
        BlockAt(st, id);
        NothingChanged(st, st1, id);
        AppendIoCount(st1, Up, PutPacket([b]), id);
        SamePacket([b], PutPacket([b]), id);
        OneBuffer(b, id);
      }
      BlocksMade(st');
    }
  }

  lemma RotateBlocks(st: Fw)
    requires Inv(st) && Enabled(st, RotateOne)
    ensures BlocksOk(Rotate(st))
  {
    hide Inv, Count, AirKeys, FreePackets;
    BlocksKnown(st);
    QueuesAfter(st, RotateOne);
    forall id: nat ensures Count(Rotate(st), id) == Count(st, id) {
      DropIoCount(st, Down, id);
      RecycleCount(DropIo(st, Down), Down, st.io[Down][0], id);
    }
    SameBlocks(st, Rotate(st));
  }

  lemma FixBlocks(st: Fw, k: nat)
    requires Inv(st) && Enabled(st, FixOne(k))
    ensures BlocksOk(FixEntry(st, k))
  {
    hide Inv, Count, AirKeys, FixBuf, Entries;
    BlocksKnown(st);
    QueuesAfter(st, FixOne(k));
    forall id: nat ensures Count(FixEntry(st, k), id) == Count(st, id) {
      FixCount(st, k, id);
    }
    SameBlocks(st, FixEntry(st, k));
  }

  lemma AirDoneBlocks(st: Fw, i: nat, k: nat, p: Packet)
    requires Inv(st) && Enabled(st, AirDone(i, k, p))
    ensures BlocksOk(Next(st, AirDone(i, k, p)))
  {
    hide Inv, Count, AirKeys;
    BlocksKnown(st);
    var st' := Next(st, AirDone(i, k, p));
    assert SameIds(st.air[Tx(i)][k].bufs, p);
    QueuesAfter(st, AirDone(i, k, p));
    forall id: nat ensures Count(st', id) == Count(st, id) {
      SetCount(st, st', Tx(i), k, st.air[Tx(i)][k].(bufs := p), id);
    }
    SameBlocks(st, st');
  }

  lemma GroupedCount(ps: seq<Packet>, p: Packet, id: nat)
    requires ps != [] && GroupedAs(ps, p)
    ensures InPackets(ps, id) == InPacket(p, id)
  {
    if |ps| == 1 {
      assert ps == [ps[0]];
      OnePacket(ps[0], id);
      SamePacket(ps[0], p, id);
    } else {
      SinglesCount(ps, p, id);
    }
  }

  lemma IoDoneBlocks(st: Fw, q: QueueId, k: nat, n: nat, p: Packet)
    requires Inv(st) && Enabled(st, IoDone(q, k, n, p))
    ensures BlocksOk(Next(st, IoDone(q, k, n, p)))
  {
    hide Count, AirOk, ReportsOk, BooksOk, AcceptedOk, AirKeys;
    var st' := Next(st, IoDone(q, k, n, p));
    QueuesAfter(st, IoDone(q, k, n, p));
    forall id: nat ensures Count(st', id) == Count(st, id) {
      GroupedCount(st.io[q][k..k + n], p, id);
      GroupCount(st, q, k, n, p, id);
    }
    SameBlocks(st, st');
  }

  /** Every step keeps every block in exactly one place. */
  lemma StepBlocks(st: Fw, step: Step)
    requires Inv(st) && Enabled(st, step)
    ensures BlocksOk(Next(st, step))
  {
    hide PathInv, BlocksOk, Download, TxStatus, SendFw, Receive, Upload, Respond, Rotate, PutFrame, SentAs, GroupedAs, WellTyped, Completed;
    match step
    case DownloadOne(s) => DownloadBlocks(st, s);
    case StatusOne(i) => StatusBlocks(st, i);
    case RetryOne => MoveBlocks(st, Retry, Tx(st.air[Retry][0].super.queue), st.air[Retry][0].super);
    case CabOne(v) =>
      var f := st.air[Cab(v)][0];
      MoveBlocks(st, Cab(v), Tx(f.super.queue), f.super.(moreData := |st.air[Cab(v)]| > 1));
    case SendOwn(id, s) => SendOwnBlocks(st, id, s);
    case ReceiveOne(filtered) => ReceiveBlocks(st, filtered);
    case UploadOne => UploadBlocks(st);
    case RespondOne(len) => RespondBlocks(st, len);
    case RotateOne => RotateBlocks(st);
    case FixOne(k) => FixBlocks(st, k);
    case AirDone(i, k, p) => AirDoneBlocks(st, i, k, p);
    case IoDone(q, k, n, p) => IoDoneBlocks(st, q, k, n, p);
  }

  lemma StatusInv(st: Fw, i: nat)
    requires Inv(st) && Completed(st, i)
    ensures Inv(TxStatus(st, i).0)
  {
    hide PathInv, BlocksOk, TxStatus, Completed;
    StatusPath(st, i);
    StatusBlocks(st, i);
  }

  lemma StepInv(st: Fw, step: Step)
    requires Inv(st) && Enabled(st, step)
    ensures Inv(Next(st, step))
  {
    hide PathInv, BlocksOk, Enabled, Next;
    StepPath(st, step);
    StepBlocks(st, step);
  }

  lemma {:induction false} FreeBlocksCount(a: nat, b: nat, id: nat)
    requires a <= b
    ensures InPackets(FreeBlocks(a, b), id) == if FIRST_DATA_BLOCK + a <= id < FIRST_DATA_BLOCK + b then 1 else 0
    decreases b - a
  {
    if a < b {
      assert FreeBlocks(a, b) == [[FreeBlock(FIRST_DATA_BLOCK + a)]] + FreeBlocks(a + 1, b);
      PacketsAppend([[FreeBlock(FIRST_DATA_BLOCK + a)]], FreeBlocks(a + 1, b), id);
      OnePacket([FreeBlock(FIRST_DATA_BLOCK + a)], id);
      OneBuffer(FreeBlock(FIRST_DATA_BLOCK + a), id);
      FreeBlocksCount(a + 1, b, id);
    }
  }

  lemma {:induction false} EmptyAir(air: map<QueueId, seq<Frame>>, n: nat, id: nat)
    requires forall k :: 0 <= k < n ==> AirQueue(k) in air
    requires forall q :: q in air ==> air[q] == []
    ensures InAir(air, n, id) == 0
  {
    if n > 0 {
      EmptyAir(air, n - 1, id);
    }
  }

  lemma InitialInv(st: Fw)
    requires Initial(st)
    ensures Inv(st)
  {
    InitialPath(st);
    hide PathInv, FreeBlocks, TxBlocks, IoOk;
    HasAllQueues(st);
    var t := TxBlocks(st.blocks);
    forall id: nat ensures Count(st, id) == Expected(st, id) {
      EmptyAir(st.air, TX_QUEUES + 1 + |st.cabLen|, id);
      FreeBlocksCount(0, t, id);
      FreeBlocksCount(t, st.blocks, id);
    }
  }

  /** Whatever the order of firmware and hardware steps, the invariant holds. */
  lemma {:induction false} RunInv(st: Fw, steps: seq<Step>)
    requires Inv(st) && IsRun(st, steps)
    ensures Inv(After(st, steps))
    decreases |steps|
  {
    hide Inv, Enabled, Next;
    if steps != [] {
      StepInv(st, steps[0]);
      RunInv(Next(st, steps[0]), steps[1..]);
    }
  }

  lemma StepKeepsBlocks(st: Fw, step: Step)
    requires Enabled(st, step)
    ensures Next(st, step).blocks == st.blocks
  {
    hide PutPacket, FreePackets, StatusOutcome, SentAs, GroupedAs, WellTyped, HideBuf, UnhideBuf, Completed, TxStatus;
    if step.StatusOne? {
      StatusKeeps(st, step.i);
    }
  }

  lemma {:induction false} RunKeepsBlocks(st: Fw, steps: seq<Step>)
    requires IsRun(st, steps)
    ensures After(st, steps).blocks == st.blocks
    decreases |steps|
  {
    hide Enabled, Next;
    if steps != [] {
      StepKeepsBlocks(st, steps[0]);
      RunKeepsBlocks(Next(st, steps[0]), steps[1..]);
    }
  }

  /**
   In every state that can be reached, each of the data blocks that dma_init_descriptors
   handed out is referred to by exactly one buffer in the queues.
   */
  lemma EveryBlockOnce(st: Fw, steps: seq<Step>, id: nat)
    requires Initial(st) && IsRun(st, steps) && FIRST_DATA_BLOCK <= id < FIRST_DATA_BLOCK + st.blocks
    ensures HasQueues(After(st, steps)) && Count(After(st, steps), id) == 1
  {
    hide PathInv, Initial, Count, HasQueues;
    InitialInv(st);
    RunInv(st, steps);
    RunKeepsBlocks(st, steps);
    BlockAt(After(st, steps), id);
  }

  // ----- what the invariant says -----

  ghost predicate InFlight(st: Fw, n: nat)
  {
    exists q, k :: q in st.air && 0 <= k < |st.air[q]| && st.air[q][k].super.serial == n
  }

  lemma {:induction false} SumZero(fs: seq<Frame>, w: Weight)
    requires forall k :: 0 <= k < |fs| ==> w(TagOf(fs[k].super)) == 0
    ensures Sum(fs, w) == 0
  {
    if fs != [] {
      SumZero(fs[1..], w);
    }
  }

  lemma {:induction false} SumToZero(air: map<QueueId, seq<Frame>>, n: nat, w: Weight)
    requires forall k :: 0 <= k < n ==> AirQueue(k) in air
    requires forall q, k {:trigger air[q][k]} :: q in air && 0 <= k < |air[q]| ==> w(TagOf(air[q][k].super)) == 0
    ensures SumTo(air, n, w) == 0
  {
    if n > 0 {
      SumToZero(air, n - 1, w);
      SumZero(air[AirQueue(n - 1)], w);
    }
  }

  /**
   Every accepted frame is reported exactly once, and that is when it leaves the tx
   path; a frame that was not accepted is neither in flight nor reported.
   */
  lemma ReportedExactlyOnce(st: Fw, n: nat)
    requires Inv(st)
    ensures n >= |st.accepted| ==> !InFlight(st, n) && Reported(st.reports, n) == 0
    ensures n < |st.accepted| ==> Reported(st.reports, n) == if InFlight(st, n) then 0 else 1
  {
    hide AirOk, IoOk, ReportsOk, Total;
    var w := SerialWeight(n);
    assert Accounted(st, n);
    if InFlight(st, n) {
      var q, k :| q in st.air && 0 <= k < |st.air[q]| && st.air[q][k].super.serial == n;
      OneOfTotal(st, q, k, w);
    } else {
      NotInFlight(st, n);
    }
  }

  lemma NotInFlight(st: Fw, n: nat)
    requires AirKeys(st) && !InFlight(st, n)
    ensures Total(st, SerialWeight(n)) == 0
  {
    forall q, k | q in st.air && 0 <= k < |st.air[q]| ensures st.air[q][k].super.serial != n {
    }
    SumToZero(st.air, TX_QUEUES + 1 + |st.cabLen|, SerialWeight(n));
  }

  /** The host learns from the status bits how often its frame was sent: never more often than its rates allow. */
  lemma ReportTellsAttempts(st: Fw, k: nat)
    requires Inv(st) && k < |st.reports| && st.reports[k].serial >= 0
    ensures var r := st.reports[k];
            && r.serial < |st.accepted| && var s := st.accepted[r.serial];
            && |s.ri| == MAX_RATES && r.rix <= 3 && r.tries <= 7
            && r.attempts == BudgetUpTo(s.ri, r.rix) + r.tries <= BudgetUpTo(s.ri, MAX_RATES)
  {
    hide BooksOk, AirOk, IoOk, Total;
    var r := st.reports[k];
    assert ReportOk(st.accepted, r);
    var s := st.accepted[r.serial];
    NextBudget(s.ri, r.rix);
    BudgetMonotone(s.ri, r.rix + 1, MAX_RATES);
  }

  ghost predicate Grows(st: Fw, st': Fw)
  {
    st.reports <= st'.reports && st.accepted <= st'.accepted
  }

  lemma FinishedGrows(st: Fw, f: Frame, success: bool)
    requires f.bufs != [] && Down in st.io && (f.super.cab ==> f.super.vif < |st.cabLen|)
    ensures Grows(st, Finished(st, f, success))
  {
    hide FreePackets, UnhideBuf;
  }

  lemma StatusGrows(st: Fw, i: nat)
    requires Completed(st, i)
    ensures Grows(st, TxStatus(st, i).0)
  {
    hide Completed, StatusOutcome, PutPacket, Finished;
    StatusKnown(st, i);
    var f := st.air[Tx(i)][0];
    var o := StatusOutcome(f);
    if o.Finish? {
      var b := f.bufs[0];
      var g := f.(bufs := f.bufs[0 := b.(ctrl := b.ctrl.(txFail := false, baFail := false))]);
      FinishedGrows(DropHead(st, Tx(i)), g, o.success);
    }
  }

  lemma StepGrows(st: Fw, step: Step)
    requires Enabled(st, step)
    ensures Grows(st, Next(st, step))
  {
    hide PutPacket, FreePackets, StatusOutcome, SentAs, GroupedAs, WellTyped, HideBuf, UnhideBuf, Completed, TxStatus;
    if step.StatusOne? {
      StatusGrows(st, step.i);
    }
  }

  /** A report is never changed or taken back. */
  lemma {:induction false} ReportsStay(st: Fw, steps: seq<Step>)
    requires IsRun(st, steps)
    ensures st.reports <= After(st, steps).reports && st.accepted <= After(st, steps).accepted
    decreases |steps|
  {
    if steps != [] {
      hide Enabled, Next;
      StepGrows(st, steps[0]);
      ReportsStay(Next(st, steps[0]), steps[1..]);
    }
  }
}
