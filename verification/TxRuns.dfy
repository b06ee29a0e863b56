/**
 What every run of the transmit path keeps, whatever the hardware and the host do in
 between: frames are reported exactly once, the counters count the frames in flight,
 and a superdescriptor is hidden exactly while its frame is in the tx path.
 */
module TxRuns {
  import opened Pools
  import opened TxSpec

  // ----- counting frames in flight -----

  /** What a superframe keeps while it is in flight. */
  datatype Tag = Tag(serial: int, cookie: nat, queue: nat, vif: nat, cab: bool, isBar: bool, ri: seq<RateInfo>, rr: seq<nat>)

  function TagOf(s: Super): Tag { Tag(s.serial, s.cookie, s.queue, s.vif, s.cab, s.isBar, s.ri, s.rr) }

  type Weight = Tag -> int

  /** The queues of the air side: retry, tx and cab. */
  function AirQueue(k: nat): QueueId
  {
    if k == 0 then Retry else if k <= TX_QUEUES then Tx(k - 1) else Cab(k - TX_QUEUES - 1)
  }

  predicate IsAirQueue(q: QueueId, vifs: nat)
  {
    q.Retry? || (q.Tx? && q.i < TX_QUEUES) || (q.Cab? && q.vif < vifs)
  }

  function AirIndex(q: QueueId): (k: nat)
    requires q.Retry? || q.Tx? || q.Cab?
  {
    if q.Retry? then 0 else if q.Tx? then q.i + 1 else q.vif + TX_QUEUES + 1
  }

  ghost function Sum(fs: seq<Frame>, w: Weight): int
  {
    if fs == [] then 0 else w(TagOf(fs[0].super)) + Sum(fs[1..], w)
  }

  /** The weight of the first `n` air queues. */
  ghost function SumTo(air: map<QueueId, seq<Frame>>, n: nat, w: Weight): int
    requires forall k :: 0 <= k < n ==> AirQueue(k) in air
  {
    if n == 0 then 0 else SumTo(air, n - 1, w) + Sum(air[AirQueue(n - 1)], w)
  }

  ghost predicate AirKeys(st: Fw)
  {
    forall q :: q in st.air <==> IsAirQueue(q, |st.cabLen|)
  }

  ghost function Total(st: Fw, w: Weight): int
    requires AirKeys(st)
  {
    SumTo(st.air, TX_QUEUES + 1 + |st.cabLen|, w)
  }

  lemma {:induction false} SumAppend(fs: seq<Frame>, f: Frame, w: Weight)
    ensures Sum(fs + [f], w) == Sum(fs, w) + w(TagOf(f.super))
  {
    if fs != [] {
      SumAppend(fs[1..], f, w);
      assert (fs + [f])[1..] == fs[1..] + [f];
    }
  }

  lemma {:induction false} SumToSet(air: map<QueueId, seq<Frame>>, n: nat, q: QueueId, fs: seq<Frame>, w: Weight)
    requires forall k :: 0 <= k < n ==> AirQueue(k) in air
    requires q in air && (q.Retry? || (q.Tx? && q.i < TX_QUEUES) || q.Cab?)
    ensures SumTo(air[q := fs], n, w) == SumTo(air, n, w) + if AirIndex(q) < n then Sum(fs, w) - Sum(air[q], w) else 0
  {
    if n > 0 {
      SumToSet(air, n - 1, q, fs, w);
      assert AirQueue(n - 1) == q <==> AirIndex(q) == n - 1;
    }
  }

  lemma TotalSet(st: Fw, st': Fw, q: QueueId, w: Weight)
    requires AirKeys(st) && q in st.air && q in st'.air && st'.air == st.air[q := st'.air[q]]
    requires |st'.cabLen| == |st.cabLen|
    ensures AirKeys(st') && Total(st', w) == Total(st, w) + Sum(st'.air[q], w) - Sum(st.air[q], w)
  {
    SumToSet(st.air, TX_QUEUES + 1 + |st.cabLen|, q, st'.air[q], w);
  }

  lemma {:induction false} SumNonNegative(fs: seq<Frame>, w: Weight)
    requires forall t :: 0 <= w(t)
    ensures 0 <= Sum(fs, w)
    ensures forall k :: 0 <= k < |fs| ==> w(TagOf(fs[k].super)) <= Sum(fs, w)
  {
    if fs != [] {
      SumNonNegative(fs[1..], w);
      forall k | 0 <= k < |fs| ensures w(TagOf(fs[k].super)) <= Sum(fs, w) {
        if k > 0 {
          assert fs[k] == fs[1..][k - 1];
        }
      }
    }
  }

  lemma {:induction false} SumToNonNegative(air: map<QueueId, seq<Frame>>, n: nat, w: Weight)
    requires forall k :: 0 <= k < n ==> AirQueue(k) in air
    requires forall t :: 0 <= w(t)
    ensures 0 <= SumTo(air, n, w)
    ensures forall k :: 0 <= k < n ==> Sum(air[AirQueue(k)], w) <= SumTo(air, n, w)
  {
    if n > 0 {
      SumToNonNegative(air, n - 1, w);
      SumNonNegative(air[AirQueue(n - 1)], w);
    }
  }

  /** No frame weighs more than all of them. */
  lemma OneOfTotal(st: Fw, q: QueueId, k: nat, w: Weight)
    requires AirKeys(st) && q in st.air && k < |st.air[q]| && forall t :: 0 <= w(t)
    ensures w(TagOf(st.air[q][k].super)) <= Total(st, w)
  {
    SumNonNegative(st.air[q], w);
    SumToNonNegative(st.air, TX_QUEUES + 1 + |st.cabLen|, w);
    assert AirQueue(AirIndex(q)) == q;
  }

  /** The frames in flight of `st'` are those of `st` and one more, one less, or the same. */
  ghost predicate Grew(st: Fw, st': Fw, t: Tag)
    requires AirKeys(st) && AirKeys(st')
  {
    forall w: Weight :: Total(st', w) == Total(st, w) + w(t)
  }

  ghost predicate Shrunk(st: Fw, st': Fw, t: Tag)
    requires AirKeys(st) && AirKeys(st')
  {
    forall w: Weight :: Total(st', w) == Total(st, w) - w(t)
  }

  ghost predicate Level(st: Fw, st': Fw)
    requires AirKeys(st) && AirKeys(st')
  {
    forall w: Weight :: Total(st', w) == Total(st, w)
  }

  lemma AppendGrows(st: Fw, st': Fw, q: QueueId, f: Frame)
    requires AirKeys(st) && q in st.air && st'.air == Append(st, q, f).air && |st'.cabLen| == |st.cabLen|
    ensures AirKeys(st') && Grew(st, st', TagOf(f.super))
  {
    hide Total;
    forall w: Weight ensures Total(st', w) == Total(st, w) + w(TagOf(f.super)) {
      TotalSet(st, st', q, w);
      SumAppend(st.air[q], f, w);
    }
  }

  lemma DropShrinks(st: Fw, st': Fw, q: QueueId)
    requires AirKeys(st) && q in st.air && st.air[q] != []
    requires st'.air == DropHead(st, q).air && |st'.cabLen| == |st.cabLen|
    ensures AirKeys(st') && Shrunk(st, st', TagOf(st.air[q][0].super))
  {
    hide Total;
    forall w: Weight ensures Total(st', w) == Total(st, w) - w(TagOf(st.air[q][0].super)) {
      TotalSet(st, st', q, w);
    }
  }

  /** A frame that moves, or stays where it is, with the same tag. */
  lemma MoveLevel(st: Fw, st': Fw, q: QueueId, r: QueueId, f: Frame)
    requires AirKeys(st) && q in st.air && r in st.air && st.air[q] != []
    requires TagOf(f.super) == TagOf(st.air[q][0].super)
    requires st' == Append(DropHead(st, q), r, f)
    ensures AirKeys(st') && Level(st, st')
  {
    hide Total;
    DropShrinks(st, DropHead(st, q), q);
    AppendGrows(DropHead(st, q), st', r, f);
  }

  lemma SetHeadLevel(st: Fw, q: QueueId, f: Frame)
    requires AirKeys(st) && q in st.air && st.air[q] != []
    requires TagOf(f.super) == TagOf(st.air[q][0].super)
    ensures AirKeys(SetHead(st, q, f)) && Level(st, SetHead(st, q, f))
  {
    hide Total;
    var st' := SetHead(st, q, f);
    forall w: Weight ensures Total(st', w) == Total(st, w) {
      TotalSet(st, st', q, w);
      assert st'.air[q][1..] == st.air[q][1..];
    }
  }

  // ----- the books: counters and reports -----

  function BarWeight(): Weight { (t: Tag) => if t.isBar then 1 else 0 }

  function CabWeight(v: nat): Weight { (t: Tag) => if t.cab && t.vif == v then 1 else 0 }

  function OwnWeight(): Weight { (t: Tag) => if t.serial < 0 then 1 else 0 }

  function SerialWeight(n: nat): Weight { (t: Tag) => if t.serial == n then 1 else 0 }

  /** How often frame `n` was reported. */
  ghost function Reported(rs: seq<Report>, n: nat): nat
  {
    if rs == [] then 0 else Reported(rs[..|rs| - 1], n) + if rs[|rs| - 1].serial == n then 1 else 0
  }

  lemma ReportedOnce(rs: seq<Report>, r: Report, n: nat)
    ensures Reported(rs + [r], n) == Reported(rs, n) + if r.serial == n then 1 else 0
  {
    assert (rs + [r])[..|rs|] == rs;
  }

  /** Is frame `n` accounted for: in flight or reported, exactly once? */
  ghost predicate Accounted(st: Fw, n: nat)
    requires AirKeys(st)
  {
    Total(st, SerialWeight(n)) + Reported(st.reports, n) == if n < |st.accepted| then 1 else 0
  }

  ghost predicate BooksOk(st: Fw)
  {
    && AirKeys(st)
    && Total(st, BarWeight()) == st.queuedBar
    && (forall v :: 0 <= v < |st.cabLen| ==> Total(st, CabWeight(v)) == st.cabLen[v])
    && Total(st, OwnWeight()) == (if st.fwAvail then 0 else 1)
    && forall n: nat :: Accounted(st, n)
  }

  /** Nothing about the frames in flight was changed. */
  ghost predicate SameBooks(st: Fw, st': Fw)
  {
    && st'.queuedBar == st.queuedBar && st'.cabLen == st.cabLen && st'.fwAvail == st.fwAvail
    && st'.accepted == st.accepted && st'.reports == st.reports
  }

  lemma LevelBooks(st: Fw, st': Fw)
    requires BooksOk(st) && AirKeys(st') && Level(st, st') && SameBooks(st, st')
    ensures BooksOk(st')
  {
    hide Total, AirKeys;
    forall n: nat ensures Accounted(st', n) {
      assert Accounted(st, n);
      assert Total(st', SerialWeight(n)) == Total(st, SerialWeight(n));
    }
  }

  /** A host frame starts: it is the next one, and counts as a BAR and as a CAB frame if it is one. */
  lemma HostStartBooks(st: Fw, st': Fw, s: Super, t: Tag)
    requires BooksOk(st) && AirKeys(st') && Grew(st, st', t)
    requires t == TagOf(s.(serial := |st.accepted|)) && (s.cab ==> s.vif < |st.cabLen|)
    requires st'.accepted == st.accepted + [s] && st'.reports == st.reports && st'.fwAvail == st.fwAvail
    requires st'.queuedBar == st.queuedBar + if s.isBar then 1 else 0
    requires st'.cabLen == if s.cab then st.cabLen[s.vif := st.cabLen[s.vif] + 1] else st.cabLen
    ensures BooksOk(st')
  {
    hide Total, AirKeys;
    forall n: nat ensures Accounted(st', n) {
      assert Accounted(st, n);
      assert Total(st', SerialWeight(n)) == Total(st, SerialWeight(n)) + SerialWeight(n)(t);
    }
  }

  /** The firmware's own frame starts. */
  lemma OwnStartBooks(st: Fw, st': Fw, t: Tag)
    requires BooksOk(st) && AirKeys(st') && Grew(st, st', t) && st.fwAvail
    requires t.serial < 0 && !t.isBar && !t.cab
    requires SameBooks(st, st'.(fwAvail := true)) && !st'.fwAvail
    ensures BooksOk(st')
  {
    hide Total, AirKeys;
    forall n: nat ensures Accounted(st', n) {
      assert Accounted(st, n);
      assert Total(st', SerialWeight(n)) == Total(st, SerialWeight(n)) + SerialWeight(n)(t);
    }
  }

  lemma HostEndBooks(st: Fw, st': Fw, t: Tag, r: Report)
    requires BooksOk(st) && AirKeys(st') && Shrunk(st, st', t) && t.serial >= 0
    requires t.cab ==> t.vif < |st.cabLen|
    requires st'.accepted == st.accepted && st'.reports == st.reports + [r] && r.serial == t.serial
    requires st'.fwAvail == st.fwAvail && st'.queuedBar == st.queuedBar - if t.isBar then 1 else 0
    requires st'.cabLen == if t.cab then st.cabLen[t.vif := st.cabLen[t.vif] - 1] else st.cabLen
    ensures BooksOk(st')
  {
    hide Total, AirKeys;
    forall n: nat ensures Accounted(st', n) {
      assert Accounted(st, n);
      ReportedOnce(st.reports, r, n);
      assert Total(st', SerialWeight(n)) == Total(st, SerialWeight(n)) - SerialWeight(n)(t);
    }
  }

  lemma OwnEndBooks(st: Fw, st': Fw, t: Tag)
    requires BooksOk(st) && AirKeys(st') && Shrunk(st, st', t) && !st.fwAvail
    requires t.serial < 0 && !t.isBar && !t.cab
    requires SameBooks(st, st'.(fwAvail := false)) && st'.fwAvail
    ensures BooksOk(st')
  {
    hide Total, AirKeys;
    forall n: nat ensures Accounted(st', n) {
      assert Accounted(st, n);
      assert Total(st', SerialWeight(n)) == Total(st, SerialWeight(n)) - SerialWeight(n)(t);
    }
  }

  lemma RejectBooks(st: Fw, st': Fw, r: Report)
    requires BooksOk(st) && AirKeys(st') && Level(st, st') && r.serial < 0
    requires SameBooks(st, st'.(reports := st.reports)) && st'.reports == st.reports + [r]
    ensures BooksOk(st')
  {
    hide Total, AirKeys;
    forall n: nat ensures Accounted(st', n) {
      assert Accounted(st, n);
      ReportedOnce(st.reports, r, n);
      assert Total(st', SerialWeight(n)) == Total(st, SerialWeight(n));
    }
  }
}
