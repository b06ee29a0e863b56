/**
 handle_wlan_tx_completion: the loops over a tx queue and the retry queue, and what they
 do to the order of the frames.
 */
module TxPass {
  import opened Dma
  import opened Pools
  import opened TxSpec
  import opened TxRuns
  import opened TxSafety

  // ----- the loops -----

  /** A round that goes on has taken a frame out of the queue. */
  lemma StatusShrinks(st: Fw, i: nat)
    requires Completed(st, i)
    ensures TxStatus(st, i).1 ==> Tx(i) in TxStatus(st, i).0.air && |TxStatus(st, i).0.air[Tx(i)]| < |st.air[Tx(i)]|
  {
    hide Completed, StatusOutcome, FreePackets, UnhideBuf, PutFrame, WellTyped;
    StatusKnown(st, i);
  }

  /** The loop over the completed frames of queue `i`. */
  ghost function StatusLoop(st: Fw, i: nat): Fw
    decreases if Tx(i) in st.air then |st.air[Tx(i)]| else 0
  {
    if !Completed(st, i) then st
    else
      StatusShrinks(st, i);
      var (st', more) := TxStatus(st, i);
      if more then StatusLoop(st', i) else st'
  }

  /** The loop that moves the retry queue back. */
  ghost function FlushRetry(st: Fw): Fw
    decreases if Retry in st.air then |st.air[Retry]| else 0
  {
    if !Enabled(st, RetryOne) then st else FlushRetry(Forward(st, Retry))
  }

  ghost function QueuePass(st: Fw, i: nat): Fw { FlushRetry(StatusLoop(st, i)) }

  /** handle_wlan_tx_completion, for the queues below `n`, from the last one to the first. */
  ghost function CompletionPass(st: Fw, n: nat): Fw
    decreases n
  {
    if n == 0 then st else CompletionPass(QueuePass(st, n - 1), n - 1)
  }

  // ----- the effect on one queue -----

  ghost predicate Good(f: Frame)
  {
    f.bufs != [] && WellTyped(f.super) && f.super.rix < MAX_RATES
  }

  ghost predicate AllGood(fs: seq<Frame>)
  {
    forall k {:trigger fs[k]} :: 0 <= k < |fs| ==> Good(fs[k])
  }

  /** A frame that left the tx path, and whether it was delivered. */
  datatype Done = Done(f: Frame, success: bool)

  /** Frames that stay in the queue, frames that failed for want of a BlockAck, and frames that are done. */
  datatype Pass = Pass(kept: seq<Frame>, again: seq<Frame>, done: seq<Done>)

  ghost function PassOf(fs: seq<Frame>): Pass
    requires AllGood(fs)
  {
    if fs == [] || fs[0].bufs[0].own != Sw then Pass(fs, [], [])
    else
      match StatusOutcome(fs[0])
      case Resend(f) => Pass([f] + fs[1..], [], [])
      case Requeue(f) => var r := PassOf(fs[1..]); r.(again := [PutFrame(f)] + r.again)
      case Finish(success, txFail) =>
        if txFail then Pass(fs[1..], [], [Done(fs[0], success)])
        else var r := PassOf(fs[1..]); r.(done := [Done(fs[0], success)] + r.done)
  }

  /** Which of the frames failed for want of a BlockAck and have attempts left, in order. */
  ghost function BlockAckFailed(fs: seq<Frame>): seq<Frame>
    requires AllGood(fs)
  {
    if fs == [] then []
    else (if StatusOutcome(fs[0]).Requeue? then [PutFrame(StatusOutcome(fs[0]).f)] else []) + BlockAckFailed(fs[1..])
  }

  /** A frame without attempts left whose transmission failed stops the loop. */
  ghost predicate Stops(f: Frame)
    requires Good(f)
  {
    StatusOutcome(f).Finish? && StatusOutcome(f).txFail
  }

  /** Does the loop take exactly the first `n` frames out of the queue? */
  ghost predicate TakesOut(fs: seq<Frame>, n: nat)
    requires AllGood(fs) && n <= |fs|
  {
    && (forall k {:trigger fs[k]} :: 0 <= k < n ==> fs[k].bufs[0].own == Sw && !StatusOutcome(fs[k]).Resend?)
    && (forall k {:trigger fs[k]} :: 0 <= k < n - 1 ==> !Stops(fs[k]))
    && (n == |fs| || fs[n].bufs[0].own != Sw || StatusOutcome(fs[n]).Resend? || (n > 0 && Stops(fs[n - 1])))
  }

  /** The frames from number `n` on, the first of them rearmed if the loop came to it and its transmission failed. */
  ghost function Rest(fs: seq<Frame>, n: nat): seq<Frame>
    requires AllGood(fs) && n <= |fs|
  {
    if n < |fs| && fs[n].bufs[0].own == Sw && StatusOutcome(fs[n]).Resend? && !(n > 0 && Stops(fs[n - 1])) then
      [StatusOutcome(fs[n]).f] + fs[n + 1..]
    else fs[n..]
  }

  ghost predicate Shaped(fs: seq<Frame>, r: Pass, n: nat)
    requires AllGood(fs) && n <= |fs|
  {
    r.again == BlockAckFailed(fs[..n]) && |r.again| + |r.done| == n && r.kept == Rest(fs, n)
  }

  /**
   The loop takes out a prefix of the queue. The rest stays, and the frames to be sent
   again are those of the prefix that failed for want of a BlockAck, in their order.
   */
  lemma {:induction false} PassShape(fs: seq<Frame>) returns (n: nat)
    requires AllGood(fs)
    ensures n <= |fs| && TakesOut(fs, n) && Shaped(fs, PassOf(fs), n)
  {
    hide StatusOutcome, WellTyped, PutFrame;
    if fs == [] || fs[0].bufs[0].own != Sw || StatusOutcome(fs[0]).Resend? {
      n := 0;
      assert fs[..0] == [] && fs[0..] == fs;
      assert Shaped(fs, PassOf(fs), n);
    } else if Stops(fs[0]) {
      n := 1;
      assert fs[..1][1..] == [] && BlockAckFailed(fs[..1]) == BlockAckFailed([]);
      assert Shaped(fs, PassOf(fs), n);
    } else {
      var m := PassShape(fs[1..]);
      n := m + 1;
      ShapeCons(fs, m);
      TakesCons(fs, m);
    }
  }

  lemma TakesCons(fs: seq<Frame>, m: nat)
    requires AllGood(fs) && fs != [] && m < |fs| && TakesOut(fs[1..], m)
    requires fs[0].bufs[0].own == Sw && !StatusOutcome(fs[0]).Resend? && !Stops(fs[0])
    ensures TakesOut(fs, m + 1)
  {
    hide StatusOutcome, WellTyped, Stops;
    var tail := fs[1..];
    forall k | 0 <= k < m + 1
      ensures fs[k].bufs[0].own == Sw && !StatusOutcome(fs[k]).Resend? && (k < m ==> !Stops(fs[k]))
    {
      if k > 0 {
        assert fs[k] == tail[k - 1];
      }
    }
    assert m < |tail| ==> tail[m] == fs[m + 1];
    assert m > 0 ==> tail[m - 1] == fs[m];
  }

  lemma ShapeCons(fs: seq<Frame>, m: nat)
    requires AllGood(fs) && fs != [] && m < |fs| && Shaped(fs[1..], PassOf(fs[1..]), m)
    requires fs[0].bufs[0].own == Sw && !StatusOutcome(fs[0]).Resend? && !Stops(fs[0])
    ensures Shaped(fs, PassOf(fs), m + 1)
  {
    hide StatusOutcome, WellTyped, PutFrame;
    var tail := fs[1..];
    assert fs[..m + 1][1..] == tail[..m] && fs[m + 1..] == tail[m..];
    assert m > 0 ==> tail[m - 1] == fs[m];
    if m + 1 < |fs| {
      assert tail[m] == fs[m + 1] && tail[m + 1..] == fs[m + 2..];
    }
  }

  // ----- the loops have that effect -----

  /** The reports and the recycled entries of frames that are done; the firmware's own frame has neither. */
  function ReportsOf(done: seq<Done>): seq<Report>
  {
    if done == [] then [] else ReportOf(done[0]) + ReportsOf(done[1..])
  }

  function ReportOf(d: Done): seq<Report>
  {
    var s := d.f.super;
    if s.serial < 0 then [] else [StatusOf(s, s.serial, d.success)]
  }

  lemma {:induction false} GoodFrames(st: Fw, q: QueueId)
    requires Inv(st) && q in st.air
    ensures AllGood(st.air[q])
  {
    hide WellTyped, BudgetUpTo, Total, IoOk, ReportsOk;
    forall k | 0 <= k < |st.air[q]| ensures Good(st.air[q][k]) {
      assert FrameOk(st.accepted, st.fwData, q, st.air[q][k]);
    }
  }

  /** What becomes of the frames and the reports in one round for the frame `f`. */
  ghost predicate RoundOf(st: Fw, i: nat, st': Fw, more: bool, f: Frame, o: Outcome)
    requires Tx(i) in st.air && st.air[Tx(i)] != [] && Retry in st.air
  {
    var rest := st.air[Tx(i)][1..];
    match o
    case Resend(g) =>
      !more && st'.air == st.air[Tx(i) := [g] + rest] && st'.reports == st.reports
    case Requeue(g) => (
      && more && g.bufs != [] && g.super.queue == i && st'.reports == st.reports
      && st'.air == st.air[Tx(i) := rest][Retry := st.air[Retry] + [PutFrame(g)]])
    case Finish(success, txFail) => (
      && more == !txFail && st'.air == st.air[Tx(i) := rest]
      && st'.reports == st.reports + ReportsOf([Done(f, success)]))
  }

  lemma FinishedEffect(st: Fw, q: QueueId, f: Frame, g: Frame, success: bool)
    requires FrameOk(st.accepted, st.fwData, q, g) && g.super == f.super && Reserved(st.fwData)
    requires g.bufs != [] && Down in st.io && (g.super.cab ==> g.super.vif < |st.cabLen|)
    ensures Finished(st, g, success).air == st.air
    ensures Finished(st, g, success).reports == st.reports + ReportsOf([Done(f, success)])
  {
    OwnFrameIff(st, q, g);
    hide FrameOk, FreePackets, UnhideBuf;
    assert ReportsOf([Done(f, success)][1..]) == [];
  }

  /** One round of the status loop, seen from the queue. */
  lemma StatusRound(st: Fw, i: nat)
    requires Inv(st) && Completed(st, i)
    ensures Inv(TxStatus(st, i).0) && AllGood(st.air[Tx(i)])
    ensures var f := st.air[Tx(i)][0];
            Good(f) && RoundOf(st, i, TxStatus(st, i).0, TxStatus(st, i).1, f, StatusOutcome(f))
    ensures TxStatus(st, i).1 ==> Tx(i) in TxStatus(st, i).0.air && TxStatus(st, i).0.air[Tx(i)] == st.air[Tx(i)][1..]
  {
    StatusInv(st, i);
    GoodFrames(st, Tx(i));
    StatusKnown(st, i);
    hide Completed, BooksOk, IoOk, ReportsOk, PutFrame, AllGood, AcceptedOk, FrameOk, WellTyped, StatusOutcome, Finished;
    var f := st.air[Tx(i)][0];
    var b := f.bufs[0];
    var g := f.(bufs := f.bufs[0 := b.(ctrl := b.ctrl.(txFail := false, baFail := false))]);
    DropHeadOk(st, Tx(i));
    OutcomeOk(st.accepted, st.fwData, i, f);
    var o := StatusOutcome(f);
    hide AirOk;
    if o.Finish? {
      FrameData(st.accepted, st.fwData, Tx(i), f, g.bufs);
      FinishedEffect(DropHead(st, Tx(i)), Tx(i), f, g, o.success);
    } else {
      FrameQueue(st.accepted, st.fwData, i, o.f);
    }
  }

  lemma FrameQueue(acc: seq<Super>, fwData: int, i: nat, f: Frame)
    requires FrameOk(acc, fwData, Tx(i), f)
    ensures f.super.queue == i && f.bufs != []
  {
    hide RetryOk;
  }

  lemma {:induction false} ReportsAppend(a: seq<Done>, b: seq<Done>)
    ensures ReportsOf(a + b) == ReportsOf(a) + ReportsOf(b)
  {
    hide ReportOf;
    if a == [] {
      assert a + b == b;
    } else {
      ReportsAppend(a[1..], b);
      assert (a + b)[1..] == a[1..] + b && (a + b)[0] == a[0];
      assert ReportOf(a[0]) + (ReportsOf(a[1..]) + ReportsOf(b)) == ReportsOf(a) + ReportsOf(b);
    }
  }

  /** The effect of the status loop: frames `r.again` are in the retry queue, and `r.done` are reported in order. */
  ghost predicate LoopDid(st: Fw, i: nat, st': Fw, r: Pass)
    requires Tx(i) in st.air && Retry in st.air
  {
    && st'.air == st.air[Tx(i) := r.kept][Retry := st.air[Retry] + r.again]
    && st'.reports == st.reports + ReportsOf(r.done)
  }

  ghost predicate AllOfQueue(fs: seq<Frame>, i: nat)
  {
    forall k {:trigger fs[k]} :: 0 <= k < |fs| ==> fs[k].super.queue == i && fs[k].bufs != []
  }

  lemma AirQueues(st: Fw, i: nat)
    requires Inv(st) && i < TX_QUEUES
    ensures Tx(i) in st.air && Retry in st.air && AllGood(st.air[Tx(i)])
  {
    hide AirOk, IoOk, ReportsOk, Total;
    GoodFrames(st, Tx(i));
  }

  lemma PutFrameKeeps(f: Frame)
    requires f.bufs != []
    ensures PutFrame(f).super == f.super && PutFrame(f).bufs != []
  {
  }

  lemma SetTwice(air: map<QueueId, seq<Frame>>, q: QueueId, r: QueueId, a: seq<Frame>, b: seq<Frame>, c: seq<Frame>, d: seq<Frame>)
    requires q != r
    ensures air[q := a][r := b][q := c][r := d] == air[q := c][r := d]
    ensures air[q := a][q := c][r := d] == air[q := c][r := d]
  {
  }

  /** A round that goes on, and then the rest of the loop. */
  lemma LoopCons(st: Fw, i: nat, st1: Fw, st2: Fw)
    requires Tx(i) in st.air && Retry in st.air && st.air[Tx(i)] != [] && AllGood(st.air[Tx(i)])
    requires st.air[Tx(i)][0].bufs[0].own == Sw
    requires RoundOf(st, i, st1, true, st.air[Tx(i)][0], StatusOutcome(st.air[Tx(i)][0]))
    requires var r' := PassOf(st.air[Tx(i)][1..]); LoopDid(st1, i, st2, r') && AllOfQueue(r'.again, i)
    ensures var r := PassOf(st.air[Tx(i)]); LoopDid(st, i, st2, r) && AllOfQueue(r.again, i)
  {
    hide StatusOutcome, PutFrame, WellTyped;
    var fs := st.air[Tx(i)];
    var r, r' := PassOf(fs), PassOf(fs[1..]);
    var o := StatusOutcome(fs[0]);
    hide PassOf, AllGood;
    SetTwice(st.air, Tx(i), Retry, fs[1..], st1.air[Retry], r'.kept, st2.air[Retry]);
    if o.Requeue? {
      PutFrameKeeps(o.f);
      assert st.air[Retry] + [PutFrame(o.f)] + r'.again == st.air[Retry] + r.again;
    } else {
      ReportsAppend([Done(fs[0], o.success)], r'.done);
      assert st.reports + ReportsOf([Done(fs[0], o.success)]) + ReportsOf(r'.done) == st.reports + ReportsOf(r.done);
    }
  }

  lemma LoopStop(st: Fw, i: nat, st': Fw)
    requires Tx(i) in st.air && Retry in st.air && AllGood(st.air[Tx(i)])
    requires if st.air[Tx(i)] == [] || st.air[Tx(i)][0].bufs[0].own != Sw then st' == st
             else RoundOf(st, i, st', false, st.air[Tx(i)][0], StatusOutcome(st.air[Tx(i)][0]))
    ensures var r := PassOf(st.air[Tx(i)]); LoopDid(st, i, st', r) && r.again == []
  {
    hide StatusOutcome, PutFrame, WellTyped;
    assert st.air[Retry] + [] == st.air[Retry];
    assert st.air == st.air[Tx(i) := st.air[Tx(i)]][Retry := st.air[Retry]];
  }

  lemma {:induction false} StatusLoopEffect(st: Fw, i: nat)
    requires Inv(st) && i < TX_QUEUES
    ensures Tx(i) in st.air && Retry in st.air && AllGood(st.air[Tx(i)])
    ensures Inv(StatusLoop(st, i)) && LoopDid(st, i, StatusLoop(st, i), PassOf(st.air[Tx(i)]))
    ensures AllOfQueue(PassOf(st.air[Tx(i)]).again, i)
    decreases if Tx(i) in st.air then |st.air[Tx(i)]| else 0
  {
    hide Inv, Completed, StatusOutcome, TxStatus, PutFrame, PassOf, LoopDid, AllGood, Good;
    AirQueues(st, i);
    CompletedIff(st, i);
    if !Completed(st, i) {
      LoopStop(st, i, st);
    } else {
      StatusRound(st, i);
      var (st', more) := TxStatus(st, i);
      if more {
        StatusShrinks(st, i);
        StatusLoopEffect(st', i);
        LoopCons(st, i, st', StatusLoop(st', i));
      } else {
        LoopStop(st, i, st');
      }
    }
  }

  // ----- the retry queue -----

  function PutAll(fs: seq<Frame>): (r: seq<Frame>)
    requires forall k {:trigger fs[k]} :: 0 <= k < |fs| ==> fs[k].bufs != []
    ensures |r| == |fs|
  {
    seq(|fs|, k requires 0 <= k < |fs| => PutFrame(fs[k]))
  }

  /** Frames of queue `i` in the retry queue all go back to its end, in order. */
  lemma {:induction false} FlushRetryEffect(st: Fw, i: nat)
    requires Inv(st) && i < TX_QUEUES && Tx(i) in st.air && Retry in st.air && AllOfQueue(st.air[Retry], i)
    ensures Inv(FlushRetry(st)) && FlushRetry(st).reports == st.reports
    ensures FlushRetry(st).air == st.air[Tx(i) := st.air[Tx(i)] + PutAll(st.air[Retry])][Retry := []]
    decreases if Retry in st.air then |st.air[Retry]| else 0
  {
    hide Inv, PutFrame, Forward, Enabled;
    var fs := st.air[Retry];
    if fs == [] {
      NothingToFlush(st, i);
    } else {
      var st' := FlushStep(st, i);
      FlushRetryEffect(st', i);
      SetTwice(st.air, Tx(i), Retry, st'.air[Tx(i)], fs[1..], st'.air[Tx(i)] + PutAll(fs[1..]), []);
      assert st.air[Tx(i)] + [PutFrame(fs[0])] + PutAll(fs[1..]) == st.air[Tx(i)] + PutAll(fs);
    }
  }

  lemma NothingToFlush(st: Fw, i: nat)
    requires Tx(i) in st.air && Retry in st.air && st.air[Retry] == []
    ensures FlushRetry(st) == st
    ensures st.air == st.air[Tx(i) := st.air[Tx(i)] + PutAll([])][Retry := []]
  {
    assert st.air[Tx(i)] + PutAll([]) == st.air[Tx(i)];
  }

  lemma FlushStep(st: Fw, i: nat) returns (st': Fw)
    requires Inv(st) && Tx(i) in st.air && Retry in st.air && st.air[Retry] != [] && AllOfQueue(st.air[Retry], i)
    ensures Enabled(st, RetryOne) && st' == Forward(st, Retry) && Inv(st') && st'.reports == st.reports
    ensures st.air[Retry][0].bufs != []
    ensures st'.air == st.air[Tx(i) := st.air[Tx(i)] + [PutFrame(st.air[Retry][0])]][Retry := st.air[Retry][1..]]
    ensures AllOfQueue(st'.air[Retry], i)
  {
    hide Inv, PutFrame;
    st' := Forward(st, Retry);
    assert st' == Next(st, RetryOne);
    StepInv(st, RetryOne);
  }

  // ----- the whole handler -----

  lemma PutTwice(f: Frame)
    requires f.bufs != []
    ensures PutFrame(PutFrame(f)) == PutFrame(f)
  {
    assert PutPacket(PutPacket(f.bufs)) == PutPacket(f.bufs);
  }

  /** Frames that were put before are not changed by another dma_put. */
  lemma {:induction false} AgainWasPut(fs: seq<Frame>, i: nat)
    requires AllGood(fs) && AllOfQueue(PassOf(fs).again, i)
    ensures PutAll(PassOf(fs).again) == PassOf(fs).again
  {
    hide StatusOutcome, PutFrame, WellTyped;
    if fs != [] && fs[0].bufs[0].own == Sw && PassOf(fs).again != [] {
      var r, r' := PassOf(fs), PassOf(fs[1..]);
      var o := StatusOutcome(fs[0]);
      if o.Requeue? {
        assert r.again[1..] == r'.again;
        OutcomeBufs(fs[0]);
        assert r.again[0] == PutFrame(o.f);
        PutTwice(o.f);
      }
      assert AllOfQueue(r'.again, i);
      AgainWasPut(fs[1..], i);
    }
  }

  lemma OutcomeBufs(f: Frame)
    requires Good(f) && StatusOutcome(f).Requeue?
    ensures StatusOutcome(f).f.bufs != []
  {
  }

  /** A queue after the handler: the frames that stay, then those to be sent again. */
  ghost function Passed(fs: seq<Frame>): seq<Frame>
    requires AllGood(fs)
  {
    PassOf(fs).kept + PassOf(fs).again
  }

  /**
   One pass over a queue, with the retry queue empty before and after it: no other
   queue of the air side changes, and the frames that are done are reported in order.
   */
  lemma QueuePassEffect(st: Fw, i: nat)
    requires Inv(st) && i < TX_QUEUES && Retry in st.air && st.air[Retry] == []
    ensures Inv(QueuePass(st, i)) && Tx(i) in st.air && AllGood(st.air[Tx(i)])
    ensures QueuePass(st, i).air == st.air[Tx(i) := Passed(st.air[Tx(i)])]
    ensures QueuePass(st, i).reports == st.reports + ReportsOf(PassOf(st.air[Tx(i)]).done)
  {
    hide Inv, PassOf, AllGood;
    StatusLoopEffect(st, i);
    var r := PassOf(st.air[Tx(i)]);
    var st1 := StatusLoop(st, i);
    assert st1.air[Retry] == r.again;
    FlushRetryEffect(st1, i);
    AgainWasPut(st.air[Tx(i)], i);
    assert st.air[Retry := []] == st.air;
  }

  lemma CompletionUnfold(st: Fw, n: nat)
    ensures CompletionPass(st, 0) == st
    ensures n > 0 ==> CompletionPass(st, n) == CompletionPass(QueuePass(st, n - 1), n - 1)
  {
  }

  /** handle_wlan_tx_completion serves every tx queue once and touches no other queue of the air side. */
  lemma {:induction false} CompletionPassEffect(st: Fw, n: nat)
    requires Inv(st) && n <= TX_QUEUES && Retry in st.air && st.air[Retry] == []
    ensures Inv(CompletionPass(st, n)) && CompletionPass(st, n).air.Keys == st.air.Keys
    ensures forall q :: q in st.air && !(q.Tx? && q.i < n) ==> CompletionPass(st, n).air[q] == st.air[q]
    ensures forall i :: 0 <= i < n ==> Tx(i) in st.air && AllGood(st.air[Tx(i)]) && CompletionPass(st, n).air[Tx(i)] == Passed(st.air[Tx(i)])
    decreases n
  {
    hide Inv, Passed, AllGood, QueuePass;
    if n > 0 {
      QueuePassEffect(st, n - 1);
      CompletionPassEffect(QueuePass(st, n - 1), n - 1);
    }
  }

  /**
   The handler takes a prefix out of every queue, and leaves the rest, the first frame of
   which is possibly rearmed; behind it come the frames of the prefix that failed for
   want of a BlockAck, in the order in which they were queued.
   */
  lemma CompletionOrder(st: Fw, queues: nat, i: nat) returns (n: nat)
    requires Inv(st) && i < queues <= TX_QUEUES && Retry in st.air && st.air[Retry] == []
    ensures Tx(i) in st.air && AllGood(st.air[Tx(i)]) && n <= |st.air[Tx(i)]| && TakesOut(st.air[Tx(i)], n)
    ensures var fs := st.air[Tx(i)];
            var st' := CompletionPass(st, queues);
            && Tx(i) in st'.air && Retry in st'.air && st'.air[Retry] == []
            && st'.air[Tx(i)] == Rest(fs, n) + BlockAckFailed(fs[..n])
  {
    hide Inv, AllGood, StatusOutcome, CompletionPass, WellTyped, PassOf, BlockAckFailed, TakesOut, Rest;
    CompletionPassEffect(st, queues);
    n := PassShape(st.air[Tx(i)]);
  }

  // ----- frames buffered until the next beacon -----

  /** wlan_cab_flush_queue */
  ghost function CabFlush(st: Fw, v: nat): Fw
    decreases if Cab(v) in st.air then |st.air[Cab(v)]| else 0
  {
    if !Enabled(st, CabOne(v)) then st else CabFlush(CabForward(st, v), v)
  }

  ghost predicate HasBufs(fs: seq<Frame>)
  {
    forall k {:trigger fs[k]} :: 0 <= k < |fs| ==> fs[k].bufs != []
  }

  /** All frames but the last one announce that there is more. */
  function Announced(fs: seq<Frame>): (r: seq<Frame>)
    requires HasBufs(fs)
    ensures |r| == |fs|
  {
    seq(|fs|, k requires 0 <= k < |fs| => PutFrame(fs[k].(super := fs[k].super.(moreData := k < |fs| - 1))))
  }

  function OfQueue(fs: seq<Frame>, i: nat): seq<Frame>
  {
    if fs == [] then [] else (if fs[0].super.queue == i then [fs[0]] else []) + OfQueue(fs[1..], i)
  }

  lemma CabFrames(st: Fw, v: nat)
    requires Inv(st) && Cab(v) in st.air
    ensures HasBufs(st.air[Cab(v)]) && (st.air[Cab(v)] != [] ==> Enabled(st, CabOne(v)))
    ensures forall k {:trigger st.air[Cab(v)][k]} :: 0 <= k < |st.air[Cab(v)]| ==> st.air[Cab(v)][k].super.queue < TX_QUEUES
  {
    hide BudgetUpTo, Total, IoOk, ReportsOk;
    forall k | 0 <= k < |st.air[Cab(v)]| ensures st.air[Cab(v)][k].bufs != [] && st.air[Cab(v)][k].super.queue < TX_QUEUES {
      assert FrameOk(st.accepted, st.fwData, Cab(v), st.air[Cab(v)][k]);
    }
  }

  /**
   The cab queue is emptied: its frames go to the ends of the tx queues that they name,
   in their order, and all but the last one announce that there is more.
   */
  lemma {:induction false} CabFlushEffect(st: Fw, v: nat)
    requires Inv(st) && Cab(v) in st.air
    ensures var st' := CabFlush(st, v);
            && Inv(st') && HasBufs(st.air[Cab(v)]) && st'.air.Keys == st.air.Keys && st'.air[Cab(v)] == []
            && (forall q :: q in st.air && !q.Tx? && q != Cab(v) ==> st'.air[q] == st.air[q])
            && (forall i :: Tx(i) in st.air ==> st'.air[Tx(i)] == st.air[Tx(i)] + OfQueue(Announced(st.air[Cab(v)]), i))
    decreases if Cab(v) in st.air then |st.air[Cab(v)]| else 0
  {
    hide Inv, PutFrame, Enabled, CabForward;
    var fs := st.air[Cab(v)];
    CabFrames(st, v);
    if fs == [] {
      assert !Enabled(st, CabOne(v)) by { CabEmpty(st, v); }
    } else {
      var st' := CabStep(st, v);
      CabFlushEffect(st', v);
      var all := Announced(fs);
      assert all[1..] == Announced(fs[1..]);
      hide Announced, OfQueue, HasBufs;
      forall i | Tx(i) in st.air
        ensures CabFlush(st, v).air[Tx(i)] == st.air[Tx(i)] + OfQueue(Announced(fs), i)
      {
        CabAppend(all, i, st.air[Tx(i)], st'.air[Tx(i)], CabFlush(st', v).air[Tx(i)]);
      }
    }
  }

  lemma CabAppend(all: seq<Frame>, i: nat, before: seq<Frame>, between: seq<Frame>, after: seq<Frame>)
    requires all != []
    requires between == before + OfQueue([all[0]], i) && after == between + OfQueue(all[1..], i)
    ensures after == before + OfQueue(all, i)
  {
    assert [all[0]][1..] == [];
    assert OfQueue(all, i) == OfQueue([all[0]], i) + OfQueue(all[1..], i);
  }

  lemma CabEmpty(st: Fw, v: nat)
    requires Cab(v) in st.air && st.air[Cab(v)] == []
    ensures !Enabled(st, CabOne(v))
  {
  }

  lemma CabStep(st: Fw, v: nat) returns (st': Fw)
    requires Inv(st) && Enabled(st, CabOne(v)) && HasBufs(st.air[Cab(v)])
    ensures st' == CabForward(st, v) && Inv(st') && st'.air.Keys == st.air.Keys
    ensures st'.air[Cab(v)] == st.air[Cab(v)][1..]
    ensures forall q :: q in st.air && !q.Tx? && q != Cab(v) ==> st'.air[q] == st.air[q]
    ensures forall i :: Tx(i) in st.air ==>
              st'.air[Tx(i)] == st.air[Tx(i)] + OfQueue([Announced(st.air[Cab(v)])[0]], i)
  {
    hide Inv, PutPacket;
    st' := CabForward(st, v);
    assert st' == Next(st, CabOne(v));
    StepInv(st, CabOne(v));
    assert forall i :: OfQueue([], i) == [];
  }
}
