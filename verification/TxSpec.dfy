/**
 The transmit path on abstract queues: what the handlers of wlantx.c and the download
 handler do to frames, counters and reports, as functions on a state.
 */
module TxSpec {
  import opened Dma
  import opened Pools

  const MAX_RATES: nat := 4
  const MAX_RETRY_RATES: nat := MAX_RATES - 1
  const SUPERDESC_LEN: nat := 24

  /** `struct ar9170_tx_rate_info`; `tries` has three bits. */
  datatype RateInfo = RateInfo(tries: nat, ampdu: bool)

  /**
   The fields of a superframe that the firmware works on. `serial` and `attempts` are
   history: the number wlan_tx gave the frame, and how often it was sent.
   */
  datatype Super = Super(
    len: u16, cookie: nat, queue: nat, vif: nat, cab: bool, isBar: bool,
    rix: nat, cnt: nat, ri: seq<RateInfo>, rr: seq<nat>,
    phy: nat, ampdu: bool, retry: bool, moreData: bool,
    serial: int, attempts: nat)

  /** What a bit field of the superdescriptor can hold. */
  ghost predicate WellTyped(s: Super)
  {
    && s.queue < 4 && s.vif < 8 && |s.ri| == MAX_RATES && |s.rr| == MAX_RETRY_RATES
    && forall i :: 0 <= i < MAX_RATES ==> s.ri[i].tries < 8
  }

  /** A packet whose first buffer holds a superframe. */
  datatype Frame = Frame(bufs: Packet, super: Super)

  /**
   `struct carl9170_tx_status`. History: the frame it is about (-1 for a rejected
   download), and how often that frame was sent.
   */
  datatype Report = Report(serial: int, attempts: nat, cookie: nat, queue: nat, rix: nat, tries: nat, success: bool)

  /**
   `io` holds the down, up and rx queues, `air` the tx, retry and cab queues. `fwData`
   is the buffer of the frame that the firmware itself sends, `accepted` the history of
   the superframes taken from the host. `blocks` is the number of data blocks.
   */
  datatype Fw = Fw(
    io: map<QueueId, seq<Packet>>, air: map<QueueId, seq<Frame>>,
    cabLen: seq<int>, queuedBar: int, fwAvail: bool, fwData: int, intAvail: bool,
    accepted: seq<Super>, reports: seq<Report>, blocks: nat)

  // ----- single frames -----

  /** hide_super: the hardware sees the frame without its superdescriptor. */
  function HideBuf(b: Buf): Buf
  {
    b.(data := if b.data.Block? then b.data.(hidden := true) else b.data,
       dataSize := (b.dataSize - SUPERDESC_LEN) % 0x1_0000, totalLen := (b.totalLen - SUPERDESC_LEN) % 0x1_0000)
  }

  /** unhide_super */
  function UnhideBuf(b: Buf): Buf
  {
    b.(data := if b.data.Block? then b.data.(hidden := false) else b.data,
       dataSize := (b.dataSize + SUPERDESC_LEN) % 0x1_0000, totalLen := (b.totalLen + SUPERDESC_LEN) % 0x1_0000)
  }

  lemma UnhideHide(b: Buf)
    requires b.data.Block? && !b.data.hidden
    ensures UnhideBuf(HideBuf(b)) == b
  {
    assert ((b.dataSize - SUPERDESC_LEN) % 0x1_0000 + SUPERDESC_LEN) % 0x1_0000 == b.dataSize;
    assert ((b.totalLen - SUPERDESC_LEN) % 0x1_0000 + SUPERDESC_LEN) % 0x1_0000 == b.totalLen;
  }

  function PutFrame(f: Frame): Frame
    requires f.bufs != []
  {
    f.(bufs := PutPacket(f.bufs))
  }

  datatype NextTry = NoRetry | Again(super: Super)

  /** wlan_tx_consume_retry: the superframe for the next attempt, if there is one. */
  function ConsumeRetry(s: Super): NextTry
    requires WellTyped(s) && s.rix < MAX_RATES
  {
    if s.cnt >= s.ri[s.rix].tries then
      if s.rix == MAX_RETRY_RATES then NoRetry
      else if s.rr[s.rix] == 0 then NoRetry
      else Again(s.(phy := s.rr[s.rix], rix := s.rix + 1, ampdu := s.ri[s.rix + 1].ampdu, cnt := 1,
                    attempts := s.attempts + 1))
    else Again(s.(cnt := s.cnt + 1, attempts := s.attempts + 1))
  }

  /** The attempts a rate is good for: at least one, even with no tries. */
  function Budget(r: RateInfo): nat { if r.tries < 1 then 1 else r.tries }

  function BudgetUpTo(ri: seq<RateInfo>, n: nat): nat
    requires n <= |ri|
  {
    if n == 0 then 0 else BudgetUpTo(ri, n - 1) + Budget(ri[n - 1])
  }

  /** Attempts so far: the rates used up, and the tries of the current one. */
  ghost predicate RetryOk(s: Super)
  {
    && WellTyped(s) && s.rix < MAX_RATES && 1 <= s.cnt <= Budget(s.ri[s.rix])
    && s.attempts == BudgetUpTo(s.ri, s.rix) + s.cnt
  }

  lemma ConsumeKeepsRetryOk(s: Super)
    requires RetryOk(s) && ConsumeRetry(s).Again?
    ensures RetryOk(ConsumeRetry(s).super)
  {
    var s' := ConsumeRetry(s).super;
    assert s'.ri == s.ri && WellTyped(s');
    NextBudget(s.ri, s.rix);
    hide WellTyped, BudgetUpTo;
    if s.cnt >= s.ri[s.rix].tries {
      assert s.cnt == Budget(s.ri[s.rix]) && s'.rix == s.rix + 1;
    }
  }

  lemma NextBudget(ri: seq<RateInfo>, n: nat)
    requires n < |ri|
    ensures BudgetUpTo(ri, n + 1) == BudgetUpTo(ri, n) + Budget(ri[n])
  {
  }

  lemma {:induction false} BudgetMonotone(ri: seq<RateInfo>, a: nat, b: nat)
    requires a <= b <= |ri|
    ensures BudgetUpTo(ri, a) <= BudgetUpTo(ri, b)
  {
    if a < b {
      BudgetMonotone(ri, a, b - 1);
    }
  }

  /** A frame is never sent more often than its rates allow, and its counters fit the status bits. */
  lemma AttemptsBounded(s: Super)
    requires RetryOk(s)
    ensures s.attempts <= BudgetUpTo(s.ri, MAX_RATES) && s.rix <= 3 && s.cnt <= 7
  {
    assert BudgetUpTo(s.ri, s.rix + 1) == BudgetUpTo(s.ri, s.rix) + Budget(s.ri[s.rix]);
    BudgetMonotone(s.ri, s.rix + 1, MAX_RATES);
  }

  /** A frame is given up only when all its attempts are used or no further rate is set. */
  lemma GivenUpWhenUsed(s: Super)
    requires RetryOk(s) && ConsumeRetry(s).NoRetry?
    ensures s.attempts == BudgetUpTo(s.ri, s.rix + 1) && (s.rix < MAX_RETRY_RATES ==> s.rr[s.rix] == 0)
  {
  }

  /** wlan_tx_complete: fields are cut to the width of the status bits. */
  function StatusOf(s: Super, serial: int, success: bool): Report
  {
    Report(serial, if serial < 0 then 0 else s.attempts, s.cookie, s.queue % 4, s.rix % 4, s.cnt % 8, success)
  }

  // ----- handlers -----

  function Append(st: Fw, q: QueueId, f: Frame): Fw
    requires q in st.air
  {
    st.(air := st.air[q := st.air[q] + [f]])
  }

  function DropHead(st: Fw, q: QueueId): Fw
    requires q in st.air && st.air[q] != []
  {
    st.(air := st.air[q := st.air[q][1..]])
  }

  function SetHead(st: Fw, q: QueueId, f: Frame): Fw
    requires q in st.air && st.air[q] != []
  {
    st.(air := st.air[q := [f] + st.air[q][1..]])
  }

  /** dma_reclaim into one of the io queues. */
  function Recycle(st: Fw, q: QueueId, p: Packet): Fw
    requires q in st.io
  {
    st.(io := st.io[q := st.io[q] + FreePackets(p)])
  }

  function DropIo(st: Fw, q: QueueId): Fw
    requires q in st.io && st.io[q] != []
  {
    st.(io := st.io[q := st.io[q][1..]])
  }

  /** Is the superframe at `id` the one the firmware is sending? */
  predicate IsFwFrame(st: Fw, f: Frame)
  {
    f.bufs != [] && f.bufs[0].data.Block? && f.bufs[0].data.id == st.fwData
  }

  /** The frame as wlan_tx hands it on: first attempt, superdescriptor hidden, numbered. */
  function Started(f: Frame, serial: int): Frame
    requires f.bufs != []
  {
    Frame(f.bufs[0 := HideBuf(f.bufs[0])], f.super.(rix := 0, cnt := 1, serial := serial, attempts := 1))
  }

  /** The queue that wlan_tx puts a frame into. */
  function EntryQueue(s: Super): QueueId { if s.cab then Cab(s.vif) else Tx(s.queue) }

  function CountedBar(st: Fw, isBar: bool): Fw
  {
    if isBar then st.(queuedBar := st.queuedBar + 1) else st
  }

  function CountedCab(st: Fw, s: Super): Fw
    requires s.cab ==> s.vif < |st.cabLen|
  {
    if s.cab then st.(cabLen := st.cabLen[s.vif := st.cabLen[s.vif] + 1]) else st
  }

  /** wlan_tx for a frame that gets the number `serial`. */
  function Start(st: Fw, f: Frame, serial: int): Fw
    requires f.bufs != [] && EntryQueue(f.super) in st.air && (f.super.cab ==> f.super.vif < |st.cabLen|)
  {
    Append(CountedCab(CountedBar(st, f.super.isBar), f.super), EntryQueue(f.super), PutFrame(Started(f, serial)))
  }

  /** length_check */
  predicate LengthOk(p: Packet, s: Super)
    requires p != []
  {
    p[0].totalLen >= SUPERDESC_LEN && s.len <= p[0].totalLen
  }

  function WithReport(st: Fw, r: Report): Fw { st.(reports := st.reports + [r]) }

  /** The body of handle_download, for the packet `p` with the superframe `s`. */
  function Process(st: Fw, p: Packet, s: Super): Fw
    requires Down in st.io && p != [] && EntryQueue(s) in st.air && (s.cab ==> s.vif < |st.cabLen|)
  {
    if !LengthOk(p, s) then Recycle(WithReport(st, StatusOf(s, -1, false)), Down, p)
    else Start(st.(accepted := st.accepted + [s]), Frame(p, s), |st.accepted|)
  }

  /** A report tells rix and cnt exactly when they fit into its bits. */
  lemma StatusCut(s: Super, serial: int, success: bool)
    ensures StatusOf(s, serial, success).rix == s.rix <==> s.rix < 4
    ensures StatusOf(s, serial, success).tries == s.cnt <==> s.cnt < 8
  {
  }

  /** A superframe whose rix and cnt do not fit; both fields have eight bits. */
  const WIDE_SUPER := Super(SUPERDESC_LEN, 0, 0, 0, false, false, 4, 8, seq(MAX_RATES, _ => RateInfo(1, false)),
                            seq(MAX_RETRY_RATES, _ => 0), 0, false, false, false, 0, 0)

  /** A download that is too short is reported with the fields as the host sent them, cut to the bits of the report. */
  lemma ShortReport(st: Fw, p: Packet)
    requires Down in st.io && Tx(0) in st.air && p != [] && p[0].totalLen < SUPERDESC_LEN
    ensures WellTyped(WIDE_SUPER) && !LengthOk(p, WIDE_SUPER)
    ensures var rs := Process(st, p, WIDE_SUPER).reports;
            |rs| == |st.reports| + 1 && rs[|st.reports|].rix == 0 != WIDE_SUPER.rix && rs[|st.reports|].tries == 0 != WIDE_SUPER.cnt
  {
    hide FreePackets;
    StatusCut(WIDE_SUPER, -1, false);
  }

  /** One round of handle_download; `s` is the superframe the host sent. */
  function Download(st: Fw, s: Super): Fw
    requires Down in st.io && st.io[Down] != [] && st.io[Down][0] != []
    requires EntryQueue(s) in st.air && (s.cab ==> s.vif < |st.cabLen|)
  {
    Process(DropIo(st, Down), st.io[Down][0], s)
  }

  /** wlan_tx_fw: the firmware sends a frame of its own from the reserved buffer `id`. */
  function SendFw(st: Fw, id: nat, s: Super): Fw
    requires EntryQueue(s) in st.air && (s.cab ==> s.vif < |st.cabLen|)
  {
    if !st.fwAvail then st
    else
      var b := Buf(Sw, 0, Ctrl(false, false, true, true), s.len, s.len, Block(id, false));
      Start(st.(fwAvail := false, fwData := id), Frame([b], s), -1)
  }

  function FailBits(b: Buf): bool { b.ctrl.txFail || b.ctrl.baFail }

  /** What becomes of a completed frame. */
  datatype Outcome =
    | Resend(f: Frame)                    // stays at the head, for the hardware
    | Requeue(f: Frame)                   // to the retry queue
    | Finish(success: bool, txFail: bool) // leaves the tx path

  /** The decision in wlan_tx_status. */
  function StatusOutcome(f: Frame): Outcome
    requires f.bufs != [] && WellTyped(f.super) && f.super.rix < MAX_RATES
  {
    var b := f.bufs[0];
    if !FailBits(b) then Finish(true, false)
    else
      match ConsumeRetry(f.super)
      case NoRetry => Finish(false, b.ctrl.txFail)
      case Again(s) =>
        var s' := if s.ampdu then s else s.(retry := true);
        var b' := b.(ctrl := b.ctrl.(txFail := false, baFail := false));
        if b.ctrl.txFail then Resend(Frame(f.bufs[0 := b'.(own := Hw)], s'))
        else Requeue(Frame(f.bufs[0 := b'], s'))
  }

  function UncountedCab(st: Fw, s: Super): Fw
    requires s.cab ==> s.vif < |st.cabLen|
  {
    if s.cab then st.(cabLen := st.cabLen[s.vif := st.cabLen[s.vif] - 1]) else st
  }

  function UncountedBar(st: Fw, isBar: bool): Fw
  {
    if isBar then st.(queuedBar := st.queuedBar - 1) else st
  }

  /** A frame of the host leaves the tx path: it is reported, and the buffers `p` are recycled. */
  function Released(st: Fw, s: Super, success: bool, p: Packet): Fw
    requires Down in st.io && (s.cab ==> s.vif < |st.cabLen|)
  {
    Recycle(UncountedBar(WithReport(UncountedCab(st, s), StatusOf(s, s.serial, success)), s.isBar), Down, p)
  }

  /** A frame leaves the tx path. The firmware's own frame only becomes available again. */
  function Finished(st: Fw, f: Frame, success: bool): Fw
    requires f.bufs != [] && Down in st.io && (f.super.cab ==> f.super.vif < |st.cabLen|)
  {
    if IsFwFrame(st, f) then st.(fwAvail := true)
    else Released(st, f.super, success, f.bufs[0 := UnhideBuf(f.bufs[0])])
  }

  /** Can wlan_tx_status be called for queue `i`? */
  ghost predicate Completed(st: Fw, i: nat)
  {
    && Tx(i) in st.air && st.air[Tx(i)] != [] && Retry in st.air && Down in st.io
    && var f := st.air[Tx(i)][0];
    && f.bufs != [] && f.bufs[0].own == Sw && WellTyped(f.super) && f.super.rix < MAX_RATES
    && (f.super.cab ==> f.super.vif < |st.cabLen|)
  }

  /** wlan_tx_status for the head of queue `i`, and whether the loop goes on. */
  function TxStatus(st: Fw, i: nat): (Fw, bool)
    requires Completed(st, i)
  {
    var f := st.air[Tx(i)][0];
    match StatusOutcome(f)
    case Resend(f') => (SetHead(st, Tx(i), f'), false)
    case Requeue(f') => (Append(DropHead(st, Tx(i)), Retry, PutFrame(f')), true)
    case Finish(success, txFail) =>
      var b := f.bufs[0];
      var g := f.(bufs := f.bufs[0 := b.(ctrl := b.ctrl.(txFail := false, baFail := false))]);
      (Finished(DropHead(st, Tx(i)), g, success), !txFail)
  }

  /** One round of the loop that moves the retry queue back, or of wlan_cab_flush_queue. */
  function Forward(st: Fw, q: QueueId): Fw
    requires q in st.air && st.air[q] != [] && st.air[q][0].bufs != [] && Tx(st.air[q][0].super.queue) in st.air
  {
    var f := st.air[q][0];
    Append(DropHead(st, q), Tx(f.super.queue), PutFrame(f))
  }

  /** One round of wlan_cab_flush_queue: all but the last frame announce more data. */
  function CabForward(st: Fw, v: nat): Fw
    requires Cab(v) in st.air && st.air[Cab(v)] != [] && st.air[Cab(v)][0].bufs != []
    requires Tx(st.air[Cab(v)][0].super.queue) in st.air
  {
    var f := st.air[Cab(v)][0];
    var g := f.(super := f.super.(moreData := |st.air[Cab(v)]| > 1));
    Append(DropHead(st, Cab(v)), Tx(f.super.queue), PutFrame(g))
  }

  // ----- the queues to and from the host -----

  function AppendIo(st: Fw, q: QueueId, p: Packet): Fw
    requires q in st.io
  {
    st.(io := st.io[q := st.io[q] + [p]])
  }

  /** One round of handle_wlan_rx: a filtered packet goes back to the hardware, others to the host. */
  function Receive(st: Fw, filtered: bool): Fw
    requires Rx in st.io && Up in st.io && st.io[Rx] != [] && st.io[Rx][0] != []
  {
    var p := st.io[Rx][0];
    if filtered then Recycle(DropIo(st, Rx), Rx, p) else AppendIo(DropIo(st, Rx), Up, PutPacket(p))
  }

  /** One round of handle_upload: the response buffer is set aside, others go back to the rx queue. */
  function Upload(st: Fw): Fw
    requires Rx in st.io && Up in st.io && st.io[Up] != [] && st.io[Up][0] != []
  {
    var p := st.io[Up][0];
    if p[0].data == Block(RSP_BLOCK, false) then DropIo(st, Up).(intAvail := true)
    else Recycle(DropIo(st, Up), Rx, p)
  }

  /** usb_status_in, when it has `len` bytes for the host. */
  function Respond(st: Fw, len: u16): Fw
    requires Up in st.io
  {
    if !st.intAvail then st
    else
      var b := Buf(Sw, 0, Ctrl(false, false, true, true), len, len, Block(RSP_BLOCK, false));
      AppendIo(st.(intAvail := false), Up, PutPacket([b]))
  }

  /** One round of handle_download_exception. */
  function Rotate(st: Fw): Fw
    requires Down in st.io && st.io[Down] != []
  {
    Recycle(DropIo(st, Down), Down, st.io[Down][0])
  }

  /** dma_fix_downqueue, for entry `k` of the down queue: its buffers become entries of their own, the first of them free. */
  function FixEntry(st: Fw, k: nat): Fw
    requires Down in st.io && k < |st.io[Down]| && st.io[Down][k] != []
  {
    st.(io := st.io[Down := FixedAt(st.io[Down], k)])
  }
}
