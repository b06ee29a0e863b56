/**
 What becomes of a frame that the hardware gave back, told by its fail bits, its counters and
 its rates alone.
 */
module TxOutcome {
  import opened Dma
  import opened Pools
  import opened TxSpec
  import opened TxRuns
  import opened TxSafety
  import opened TxPass

  /** The hardware set a fail bit: it could not send the frame, or the BlockAck did not come. */
  predicate TxFailed(f: Frame)
    requires f.bufs != []
  {
    f.bufs[0].ctrl.txFail
  }

  predicate Failed(f: Frame)
    requires f.bufs != []
  {
    f.bufs[0].ctrl.txFail || f.bufs[0].ctrl.baFail
  }

  /** The current rate has tries left, or there is a next rate. */
  predicate AttemptsLeft(s: Super)
    requires |s.ri| == MAX_RATES && |s.rr| == MAX_RETRY_RATES && s.rix < MAX_RATES
  {
    s.cnt < s.ri[s.rix].tries || (s.rix < MAX_RETRY_RATES && s.rr[s.rix] != 0)
  }

  /** `s'` is `s` for the next attempt: one more try of its rate, or the first one of the next rate. */
  predicate NextAttempt(s: Super, s': Super)
    requires |s.ri| == MAX_RATES && |s.rr| == MAX_RETRY_RATES && s.rix < MAX_RATES
  {
    && TagOf(s') == TagOf(s) && s'.len == s.len && s'.moreData == s.moreData && s'.attempts == s.attempts + 1
    && (if s.cnt < s.ri[s.rix].tries then
          s'.rix == s.rix && s'.cnt == s.cnt + 1 && s'.phy == s.phy && s'.ampdu == s.ampdu
        else
          && s.rix < MAX_RETRY_RATES && s'.rix == s.rix + 1 && s'.cnt == 1
          && s'.phy == s.rr[s.rix] && s'.ampdu == s.ri[s.rix + 1].ampdu)
    && s'.retry == (s.retry || !s'.ampdu)
  }

  /** The first buffer of a frame that is sent again has no fail bits and keeps all but its ownership. */
  predicate Rearmed(b: Buf, b': Buf)
  {
    && b'.own == Hw && !b'.ctrl.txFail && !b'.ctrl.baFail && b'.data == b.data && b'.dataSize == b.dataSize
    && b'.totalLen == b.totalLen && b'.ctrl.firstSegment == b.ctrl.firstSegment && b'.ctrl.lastSegment == b.ctrl.lastSegment
  }

  /** `g` is the frame `f`, which the hardware is to send again from where it is. */
  ghost predicate Resent(f: Frame, g: Frame)
    requires f.bufs != [] && WellTyped(f.super) && f.super.rix < MAX_RATES
  {
    && |g.bufs| == |f.bufs| && Rearmed(f.bufs[0], g.bufs[0]) && g.bufs[0].flags == f.bufs[0].flags
    && g.bufs[1..] == f.bufs[1..] && NextAttempt(f.super, g.super)
  }

  /** `g` is the frame `f`, put into a queue to be sent again. */
  ghost predicate Requeued(f: Frame, g: Frame)
    requires f.bufs != [] && WellTyped(f.super) && f.super.rix < MAX_RATES
  {
    && |g.bufs| == |f.bufs| && Rearmed(f.bufs[0], g.bufs[0]) && NextAttempt(f.super, g.super)
    && forall j :: 0 <= j < |f.bufs| ==> g.bufs[j].own == Hw && g.bufs[j].data == f.bufs[j].data && g.bufs[j].dataSize == f.bufs[j].dataSize
  }

  /** The report of a frame of the host; the firmware's own frame has none. */
  ghost function ReportOn(f: Frame): seq<Report>
    requires f.bufs != []
  {
    var s := f.super;
    if s.serial < 0 then []
    else [Report(s.serial, s.attempts, s.cookie, s.queue % 4, s.rix % 4, s.cnt % 8, !Failed(f))]
  }

  ghost predicate HasHead(st: Fw, i: nat)
  {
    Tx(i) in st.air && st.air[Tx(i)] != [] && Retry in st.air && Good(st.air[Tx(i)][0])
  }

  /** What wlan_tx_status does to the queues and the reports, for the frame at the head of tx queue `i`. */
  ghost predicate StatusDid(st: Fw, i: nat, st': Fw, more: bool)
    requires HasHead(st, i)
  {
    var f, rest := st.air[Tx(i)][0], st.air[Tx(i)][1..];
    && more == !TxFailed(f)
    && (if !Failed(f) || !AttemptsLeft(f.super) then
          st'.air == st.air[Tx(i) := rest] && st'.reports == st.reports + ReportOn(f)
        else
          && st'.reports == st.reports && Tx(i) in st'.air && Retry in st'.air
          && (if TxFailed(f) then
                && st'.air == st.air[Tx(i) := st'.air[Tx(i)]]
                && st'.air[Tx(i)] != [] && Resent(f, st'.air[Tx(i)][0]) && st'.air[Tx(i)][1..] == rest
              else
                && st'.air == st.air[Tx(i) := rest][Retry := st'.air[Retry]]
                && |st'.air[Retry]| == |st.air[Retry]| + 1 && st'.air[Retry][..|st.air[Retry]|] == st.air[Retry]
                && Requeued(f, st'.air[Retry][|st.air[Retry]|])))
  }

  /** The decision, told by bits and counters. */
  lemma OutcomeIs(f: Frame)
    requires Good(f)
    ensures var o := StatusOutcome(f);
            && (o.Finish? <==> !Failed(f) || !AttemptsLeft(f.super))
            && (o.Finish? ==> o.success == !Failed(f) && o.txFail == TxFailed(f))
            && (o.Resend? <==> Failed(f) && AttemptsLeft(f.super) && TxFailed(f))
            && (o.Resend? ==> Resent(f, o.f))
            && (o.Requeue? ==> o.f.bufs != [] && Requeued(f, PutFrame(o.f)))
  {
    hide NextAttempt, AttemptsLeft, ConsumeRetry, Rearmed, WellTyped;
    NextTryIs(f.super);
    var o := StatusOutcome(f);
    if o.Resend? {
      RearmedIs(f.bufs[0]);
      assert o.f.bufs[1..] == f.bufs[1..];
    } else if o.Requeue? {
      RearmedIs(f.bufs[0]);
      hide PutPacket;
      PutIs(f.bufs[0], o.f.bufs);
    }
  }

  lemma NextTryIs(s: Super)
    requires WellTyped(s) && s.rix < MAX_RATES
    ensures ConsumeRetry(s).Again? <==> AttemptsLeft(s)
    ensures ConsumeRetry(s).Again? ==>
              var s' := ConsumeRetry(s).super;
              NextAttempt(s, if s'.ampdu then s' else s'.(retry := true))
  {
  }

  lemma RearmedIs(b: Buf)
    ensures Rearmed(b, b.(ctrl := b.ctrl.(txFail := false, baFail := false)).(own := Hw))
  {
  }

  lemma PutIs(b: Buf, p: Packet)
    requires p != [] && Rearmed(b, p[0].(own := Hw))
    ensures Rearmed(b, PutPacket(p)[0])
    ensures forall j :: 0 <= j < |p| ==> PutPacket(p)[j].own == Hw && PutPacket(p)[j].data == p[j].data && PutPacket(p)[j].dataSize == p[j].dataSize
  {
  }

  /** wlan_tx_status reports a frame as delivered exactly when no fail bit is set, and does not report it while attempts are left. */
  lemma StatusLaw(st: Fw, i: nat)
    requires Inv(st) && Completed(st, i)
    ensures HasHead(st, i) && StatusDid(st, i, TxStatus(st, i).0, TxStatus(st, i).1)
  {
    hide Inv, Completed, WellTyped, TxStatus, PutFrame, AllGood, NextAttempt, Rearmed, AttemptsLeft, StatusOutcome;
    StatusRound(st, i);
    StatusKnown(st, i);
    var f := st.air[Tx(i)][0];
    OutcomeIs(f);
    OneReport(f, !Failed(f));
  }

  lemma OneReport(f: Frame, success: bool)
    requires f.bufs != [] && success == !Failed(f)
    ensures ReportsOf([Done(f, success)]) == ReportOn(f)
  {
    assert [Done(f, success)][1..] == [];
  }

  // ----- the whole handler -----

  /** The loop stops behind a frame whose transmission failed for the last time. */
  ghost predicate LastFailure(f: Frame)
    requires Good(f)
  {
    TxFailed(f) && !AttemptsLeft(f.super)
  }

  ghost predicate Again(f: Frame)
    requires Good(f)
  {
    Failed(f) && AttemptsLeft(f.super)
  }

  /** Is it the first `n` frames that the loop takes out of a queue? */
  ghost predicate Handled(fs: seq<Frame>, n: nat)
    requires AllGood(fs) && n <= |fs|
  {
    && (forall k {:trigger fs[k]} :: 0 <= k < n ==> fs[k].bufs[0].own == Sw && !(TxFailed(fs[k]) && Again(fs[k])))
    && (forall k {:trigger fs[k]} :: 0 <= k < n - 1 ==> !LastFailure(fs[k]))
    && (n == |fs| || fs[n].bufs[0].own != Sw || (TxFailed(fs[n]) && Again(fs[n])) || (n > 0 && LastFailure(fs[n - 1])))
  }

  /** The frames that stay: the first one is rearmed if the loop came to it. */
  ghost predicate Stays(fs: seq<Frame>, n: nat, rest: seq<Frame>)
    requires AllGood(fs) && n <= |fs|
  {
    if n < |fs| && fs[n].bufs[0].own == Sw && TxFailed(fs[n]) && Again(fs[n]) && !(n > 0 && LastFailure(fs[n - 1])) then
      rest != [] && Resent(fs[n], rest[0]) && rest[1..] == fs[n + 1..]
    else rest == fs[n..]
  }

  /** `gs` are the frames of `fs` that failed with attempts left, in their order. */
  ghost predicate SentAgain(fs: seq<Frame>, gs: seq<Frame>)
    requires AllGood(fs)
    decreases |fs|
  {
    if fs == [] then gs == []
    else if Again(fs[0]) then gs != [] && Requeued(fs[0], gs[0]) && SentAgain(fs[1..], gs[1..])
    else SentAgain(fs[1..], gs)
  }

  /** The reports of the frames of `fs` that are not sent again, in their order. */
  ghost function FinalReports(fs: seq<Frame>): seq<Report>
    requires AllGood(fs)
  {
    if fs == [] then [] else (if Again(fs[0]) then [] else ReportOn(fs[0])) + FinalReports(fs[1..])
  }

  lemma HandledIs(fs: seq<Frame>, n: nat)
    requires AllGood(fs) && n <= |fs| && TakesOut(fs, n)
    ensures Handled(fs, n) && Stays(fs, n, Rest(fs, n))
  {
    hide StatusOutcome, WellTyped, Resent, Requeued;
    forall k | 0 <= k < |fs|
      ensures (StatusOutcome(fs[k]).Resend? <==> TxFailed(fs[k]) && Again(fs[k])) && (Stops(fs[k]) <==> LastFailure(fs[k]))
      ensures StatusOutcome(fs[k]).Resend? ==> Resent(fs[k], StatusOutcome(fs[k]).f)
    {
      OutcomeIs(fs[k]);
    }
  }

  lemma {:induction false} SentAgainIs(fs: seq<Frame>)
    requires AllGood(fs) && forall k {:trigger fs[k]} :: 0 <= k < |fs| ==> !(TxFailed(fs[k]) && Again(fs[k]))
    ensures SentAgain(fs, BlockAckFailed(fs))
  {
    hide StatusOutcome, WellTyped, Requeued, PutFrame;
    if fs != [] {
      OutcomeIs(fs[0]);
      SentAgainIs(fs[1..]);
      var gs := BlockAckFailed(fs);
      if Again(fs[0]) {
        assert gs[1..] == BlockAckFailed(fs[1..]);
      } else {
        assert gs == BlockAckFailed(fs[1..]);
      }
    }
  }

  /** The frames that are done are those of the prefix that are not sent again. */
  lemma {:induction false} DoneReports(fs: seq<Frame>, n: nat)
    requires AllGood(fs) && n <= |fs| && TakesOut(fs, n)
    ensures AllGood(fs[..n]) && ReportsOf(PassOf(fs).done) == FinalReports(fs[..n])
    decreases |fs|
  {
    hide StatusOutcome, WellTyped, PutFrame, ReportOn, ReportOf;
    if fs != [] {
      OutcomeIs(fs[0]);
    }
    if n == 0 {
      assert fs[..0] == [];
    } else {
      var f := fs[0];
      assert fs[..n][0] == f && fs[..n][1..] == fs[1..][..n - 1];
      if Stops(f) {
        assert n == 1;
        assert fs[..1][1..] == [];
        DoneOne(f, !Failed(f));
      } else {
        TakesTail(fs, n);
        DoneReports(fs[1..], n - 1);
        if StatusOutcome(f).Finish? {
          var r, r' := PassOf(fs), PassOf(fs[1..]);
          assert r.done == [Done(f, !Failed(f))] + r'.done && r.done[1..] == r'.done;
          DoneOne(f, !Failed(f));
        }
      }
    }
  }

  lemma DoneOne(f: Frame, success: bool)
    requires f.bufs != [] && success == !Failed(f)
    ensures ReportOf(Done(f, success)) == ReportOn(f) && ReportsOf([Done(f, success)]) == ReportOn(f)
  {
    OneReport(f, success);
  }

  lemma TakesTail(fs: seq<Frame>, n: nat)
    requires AllGood(fs) && 0 < n <= |fs| && TakesOut(fs, n) && !Stops(fs[0])
    ensures AllGood(fs[1..]) && TakesOut(fs[1..], n - 1)
  {
    hide StatusOutcome, WellTyped, Stops;
    var tail := fs[1..];
    forall k | 0 <= k < n - 1
      ensures tail[k].bufs[0].own == Sw && !StatusOutcome(tail[k]).Resend? && (k < n - 2 ==> !Stops(tail[k]))
    {
      assert tail[k] == fs[k + 1];
    }
    assert n < |fs| ==> tail[n - 1] == fs[n];
    assert n > 1 ==> tail[n - 2] == fs[n - 1];
  }

  /** One queue in handle_wlan_tx_completion, told by bits and counters. */
  lemma QueueLaw(st: Fw, i: nat) returns (n: nat, rest: seq<Frame>, again: seq<Frame>)
    requires Inv(st) && i < TX_QUEUES && Retry in st.air && st.air[Retry] == []
    ensures Inv(QueuePass(st, i)) && Tx(i) in st.air && AllGood(st.air[Tx(i)])
    ensures n <= |st.air[Tx(i)]| && Handled(st.air[Tx(i)], n)
    ensures Stays(st.air[Tx(i)], n, rest) && SentAgain(st.air[Tx(i)][..n], again)
    ensures QueuePass(st, i).air == st.air[Tx(i) := rest + again]
    ensures QueuePass(st, i).reports == st.reports + FinalReports(st.air[Tx(i)][..n])
  {
    hide Inv, AllGood, StatusOutcome, WellTyped, PassOf, BlockAckFailed, TakesOut, Rest, QueuePass, Stays, SentAgain, FinalReports;
    QueuePassEffect(st, i);
    var fs := st.air[Tx(i)];
    n := PassShape(fs);
    HandledIs(fs, n);
    DoneReports(fs, n);
    rest, again := Rest(fs, n), BlockAckFailed(fs[..n]);
    PrefixAgain(fs, n);
  }

  lemma PrefixAgain(fs: seq<Frame>, n: nat)
    requires AllGood(fs) && n <= |fs| && Handled(fs, n)
    ensures AllGood(fs[..n]) && SentAgain(fs[..n], BlockAckFailed(fs[..n]))
  {
    hide WellTyped;
    SentAgainIs(fs[..n]);
  }

  /** The reports of all queues below `n`, of each for its handled prefix `ns[i]`, from the last queue to the first. */
  ghost function AllReports(air: map<QueueId, seq<Frame>>, ns: seq<nat>, n: nat): seq<Report>
    requires n <= |ns|
    requires forall i :: 0 <= i < n ==> Tx(i) in air && AllGood(air[Tx(i)]) && ns[i] <= |air[Tx(i)]|
    decreases n
  {
    if n == 0 then []
    else
      PrefixGood(air[Tx(n - 1)], ns[n - 1]);
      FinalReports(air[Tx(n - 1)][..ns[n - 1]]) + AllReports(air, ns, n - 1)
  }

  lemma PrefixGood(fs: seq<Frame>, n: nat)
    requires AllGood(fs) && n <= |fs|
    ensures AllGood(fs[..n])
  {
  }

  ghost predicate AllHandled(air: map<QueueId, seq<Frame>>, ns: seq<nat>, n: nat)
    requires n <= |ns|
  {
    forall i :: 0 <= i < n ==> Tx(i) in air && AllGood(air[Tx(i)]) && ns[i] <= |air[Tx(i)]| && Handled(air[Tx(i)], ns[i])
  }

  lemma {:induction false} AllReportsFrame(air: map<QueueId, seq<Frame>>, air': map<QueueId, seq<Frame>>, ns: seq<nat>, ns': seq<nat>, n: nat)
    requires n <= |ns| && n <= |ns'| && AllHandled(air, ns, n)
    requires forall i :: 0 <= i < n ==> Tx(i) in air' && air'[Tx(i)] == air[Tx(i)] && ns'[i] == ns[i]
    ensures AllHandled(air', ns', n) && AllReports(air', ns', n) == AllReports(air, ns, n)
    decreases n
  {
    hide AllGood, Handled, FinalReports;
    if n > 0 {
      AllReportsFrame(air, air', ns, ns', n - 1);
    }
  }

  /**
   handle_wlan_tx_completion reports, for every queue, the frames that it handled and does not
   send again, in order, each as delivered exactly when no fail bit was set.
   */
  lemma {:induction false} CompletionReports(st: Fw, n: nat) returns (ns: seq<nat>)
    requires Inv(st) && n <= TX_QUEUES && Retry in st.air && st.air[Retry] == []
    ensures |ns| == n && AllHandled(st.air, ns, n)
    ensures CompletionPass(st, n).reports == st.reports + AllReports(st.air, ns, n)
    decreases n
  {
    hide Inv, AllGood, QueuePass, Handled, FinalReports, Stays, SentAgain;
    if n == 0 {
      ns := [];
      assert st.reports + [] == st.reports;
    } else {
      var k, rest, again := QueueLaw(st, n - 1);
      var st' := QueuePass(st, n - 1);
      var ms := CompletionReports(st', n - 1);
      ns := ms + [k];
      PrefixGood(st.air[Tx(n - 1)], k);
      MoreReports(st.air, st'.air, st.reports, ms, k, n - 1);
    }
  }

  lemma MoreReports(air: map<QueueId, seq<Frame>>, air': map<QueueId, seq<Frame>>, before: seq<Report>, ms: seq<nat>, k: nat, n: nat)
    requires |ms| == n && AllHandled(air', ms, n) && Tx(n) in air && AllGood(air[Tx(n)]) && k <= |air[Tx(n)]| && Handled(air[Tx(n)], k)
    requires forall i :: 0 <= i < n ==> Tx(i) in air && air[Tx(i)] == air'[Tx(i)]
    requires AllGood(air[Tx(n)][..k])
    ensures AllHandled(air, ms + [k], n + 1)
    ensures before + FinalReports(air[Tx(n)][..k]) + AllReports(air', ms, n) == before + AllReports(air, ms + [k], n + 1)
  {
    hide AllGood, Handled, FinalReports;
    AllReportsFrame(air', air, ms, ms + [k], n);
    var x, y := FinalReports(air[Tx(n)][..k]), AllReports(air', ms, n);
    assert before + x + y == before + (x + y);
  }
}
