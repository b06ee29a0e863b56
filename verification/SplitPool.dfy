/**
 Packets that are taken apart where they are: dma_fix_downqueue makes the first descriptor
 of a packet stand alone, and the others, which the hardware left alone, become entries of
 their own.
 */
module SplitPool {
  import opened Dma
  import opened Pools
  import opened PoolView

  /** The descriptors behind the first one of a packet each name themselves as the last one. */
  ghost predicate Alone(m: Memory, p: seq<int>)
  {
    forall j {:trigger p[j]} :: 1 <= j < |p| ==> 0 <= p[j] < |m| ==> m[p[j]].last == p[j]
  }

  ghost predicate AllAlone(m: Memory, ps: seq<seq<int>>)
  {
    forall k {:trigger ps[k]} :: 0 <= k < |ps| ==> Alone(m, ps[k])
  }

  /** The down queue is made of such packets. */
  ghost predicate DownAlone(s: Pool)
  {
    Down in s.layout ==> AllAlone(s.m, s.layout[Down])
  }

  function SplitAt(ps: seq<seq<int>>, a: nat): seq<seq<int>>
    requires a < |ps|
  {
    ps[..a] + Singles(ps[a]) + ps[a + 1..]
  }

  function SplitMemory(m: Memory, ps: seq<seq<int>>, a: nat): Memory
    requires a < |ps| && ps[a] != [] && 0 <= ps[a][0] < |m|
  {
    m[ps[a][0] := m[ps[a][0]].(last := ps[a][0])]
  }

  // ----- the queue -----

  lemma SplitChain(m: Memory, m': Memory, q: Queue, ps: seq<seq<int>>, p: seq<int>, term: int)
    requires IsPacket(m, p) && Alone(m, p) && m[p[|p| - 1]].next == term && p[0] == q.terminator
    requires m' == m[p[0] := m[p[0]].(last := p[0])]
    requires QueueIds(ps) !! Ids(p) && 0 <= term < |m| && term !in p && term !in QueueIds(ps)
    ensures IsSingleChain(m', q, ps, p, term)
  {
    hide QueueIds;
    forall k ensures SingleAt(m', p, k, term) {
      if 0 <= k < |p| {
        assert Linked(m, p, k);
      }
    }
    forall k | 0 <= k < |p| ensures p[k] !in QueueIds(ps) {
      assert p[k] in Ids(p);
    }
  }

  /** The last packet of a queue is taken apart. */
  lemma SplitLast(m: Memory, head: int, term: int, ps: seq<seq<int>>, p: seq<int>)
    requires IsQueue(m, head, term, ps + [p]) && Disjoint(ps + [p]) && Alone(m, p) && IsPacket(m, p)
    requires 0 <= term < |m| && term !in QueueIds(ps + [p])
    ensures var m' := m[p[0] := m[p[0]].(last := p[0])];
            && IsQueue(m', head, term, ps + Singles(p)) && Disjoint(ps + Singles(p))
            && QueueIds(ps + Singles(p)) == QueueIds(ps + [p])
  {
    hide IsQueue, Disjoint, QueueIds, Alone;
    var m' := m[p[0] := m[p[0]].(last := p[0])];
    QueueSnoc(m, head, term, ps, p);
    assert p[0] in Ids(p);
    QueueFrame(m, m', head, p[0], ps);
    SplitChain(m, m', Queue(head, p[0]), ps, p, term);
    var all := SinglesAppend(m', Queue(head, p[0]), ps, p, term);
  }

  lemma {:induction false} SplitQueue(m: Memory, head: int, term: int, ps: seq<seq<int>>, a: nat)
    requires IsQueue(m, head, term, ps) && Disjoint(ps) && a < |ps| && Alone(m, ps[a])
    requires 0 <= term < |m| && term !in QueueIds(ps)
    ensures IsPacket(m, ps[a])
    ensures IsQueue(SplitMemory(m, ps, a), head, term, SplitAt(ps, a))
    ensures Disjoint(SplitAt(ps, a)) && QueueIds(SplitAt(ps, a)) == QueueIds(ps)
    decreases |ps|
  {
    hide IsQueue, Disjoint, QueueIds, Alone, Singles;
    QueueInMemory(m, head, term, ps);
    var r, before := ps[|ps| - 1], ps[..|ps| - 1];
    assert ps == before + [r];
    assert IsPacket(m, ps[a]) && IsPacket(m, r);
    if a + 1 == |ps| {
      assert SplitAt(ps, a) == before + Singles(r);
      SplitLast(m, head, term, before, r);
    } else {
      var m' := SplitMemory(m, ps, a);
      QueueSnoc(m, head, term, before, r);
      assert r[0] in Ids(r) && r[|r| - 1] in Ids(r);
      SplitQueue(m, head, r[0], before, a);
      assert SplitAt(ps, a) == SplitAt(before, a) + [r];
      QueueSnoc(m', head, term, SplitAt(before, a), r);
      assert ps[a][0] in Ids(before[a]);
      PacketInQueueIds(before, a);
      PacketFrame(m, m', r);
    }
  }

  lemma SplitFirst(ps: seq<seq<int>>, a: nat)
    requires a < |ps| && ps[a] != []
    ensures a < |SplitAt(ps, a)| && SplitAt(ps, a)[a] == [ps[a][0]]
  {
    hide Singles;
    SinglesAre(ps[a]);
  }

  // ----- the pool -----

  function SplitOf(s: Pool, q: QueueId, a: nat): Pool
    requires q in s.layout && a < |s.layout[q]| && s.layout[q][a] != [] && 0 <= s.layout[q][a][0] < |s.m|
  {
    s.(m := SplitMemory(s.m, s.layout[q], a), layout := s.layout[q := SplitAt(s.layout[q], a)])
  }

  lemma SplitLocal(s: Pool, q: QueueId, a: nat)
    requires QueuesOk(s) && q in s.queues && QueueOk(s, q) && a < |s.layout[q]|
    requires s.layout[q][a] != [] && 0 <= s.layout[q][a][0] < |s.m| && s.place[s.layout[q][a][0]] == In(q)
    ensures Local(s, SplitOf(s, q, a), q)
  {
    hide SplitAt, IsQueue, Disjoint, ValidQueue;
  }

  lemma SplitOk(s: Pool, q: QueueId, a: nat)
    requires PoolOk(s) && s.hand == [] && q in s.queues && QueueOk(s, q) && a < |s.layout[q]| && Alone(s.m, s.layout[q][a])
    ensures s.layout[q][a] != [] && 0 <= s.layout[q][a][0] < |s.m|
    ensures PoolOk(SplitOf(s, q, a)) && OthersSame(s, SplitOf(s, q, a), q) && QueueOk(SplitOf(s, q, a), q)
  {
    hide IsQueue, Disjoint, QueueIds, HomeOk, OthersSame, QueuesOk, SplitAt, Alone;
    SplitQueue(s.m, s.queues[q].head, s.queues[q].terminator, s.layout[q], a);
    var s' := SplitOf(s, q, a);
    InSpine(s, q, a, s.layout[q][a][0]);
    assert Spine(s', q) == Spine(s, q);
    BlocksHome(s, s'.m);
    HomeLayout(s.(m := s'.m), s');
    SplitLocal(s, q, a);
    hide QueueOk, IsPacket, Local;
    OthersKept(s, s', q);
  }

  function SplitPackets(c: seq<Packet>, a: nat): seq<Packet>
    requires a < |c|
  {
    c[..a] + Entries(c[a]) + c[a + 1..]
  }

  lemma SplitView(m: Memory, m': Memory, ps: seq<seq<int>>, a: nat)
    requires a < |ps| && |m'| == |m| && forall d :: 0 <= d < |m| ==> m'[d].buf == m[d].buf
    requires forall k :: 0 <= k < |ps| ==> InMemory(m, ps[k])
    requires forall k :: 0 <= k < |SplitAt(ps, a)| ==> InMemory(m', SplitAt(ps, a)[k])
    ensures QueueView(m', SplitAt(ps, a)) == SplitPackets(QueueView(m, ps), a)
  {
    hide Singles;
    var js, c := SplitAt(ps, a), QueueView(m, ps);
    var n := |ps[a]|;
    SinglesAre(ps[a]);
    assert c[a] == View(m, ps[a]) && InMemory(m, ps[a]);
    forall k | 0 <= k < |js| ensures View(m', js[k]) == SplitPackets(c, a)[k] {
      if k < a {
        assert js[k] == ps[k] && c[k] == View(m, ps[k]);
      } else if k < a + n {
        assert js[k] == [ps[a][k - a]];
      } else {
        assert js[k] == ps[k - n + 1] && c[k - n + 1] == View(m, ps[k - n + 1]);
      }
    }
  }

  lemma SplitShows(s: Pool, q: QueueId, a: nat, c: Shown)
    requires PoolOk(s) && s.hand == [] && Shows(s, c) && q in c && a < |c[q]|
    requires q in s.layout && |s.layout[q]| == |c[q]| && Alone(s.m, s.layout[q][a])
    ensures s.layout[q][a] != [] && 0 <= s.layout[q][a][0] < |s.m|
    ensures PoolOk(SplitOf(s, q, a)) && Shows(SplitOf(s, q, a), c[q := SplitPackets(c[q], a)])
  {
    hide IsPacket, ValidQueue, HomeOk, HandOk, Spine, Alone;
    ShowsKeys(s, c, q);
    assert QueueOk(s, q);
    ShownQueue(s, c, q);
    SplitOk(s, q, a);
    var s' := SplitOf(s, q, a);
    QueueInPool(s', q);
    hide QueueOk, OthersSame, QueuesOk, Shows, SplitAt, SplitPackets;
    SplitView(s.m, s'.m, s.layout[q], a);
    OthersShown(s, s', c, q, SplitPackets(c[q], a));
  }

  lemma SplitHeap(s: Pool, q: QueueId, a: nat, c: Shown)
    requires HeapOk(s, c, []) && q in c && a < |c[q]|
    requires q in s.layout && |s.layout[q]| == |c[q]| && Alone(s.m, s.layout[q][a])
    ensures s.layout[q][a] != [] && 0 <= s.layout[q][a][0] < |s.m|
    ensures HeapOk(SplitOf(s, q, a), c[q := SplitPackets(c[q], a)], []) && AsideKept(s, SplitOf(s, q, a))
  {
    hide HomeOk, Shows, IsQueue, Disjoint, QueueIds, Spine, SplitAt, SplitPackets, IsPacket, Alone;
    ShowsKeys(s, c, q);
    assert QueueOk(s, q);
    SplitShows(s, q, a, c);
    var s' := SplitOf(s, q, a);
    forall d ensures KeptAside(s, s', d) {
      InSpine(s, q, a, s.layout[q][a][0]);
    }
  }

  // ----- what every operation keeps -----

  lemma AloneFrame(m: Memory, m': Memory, ps: seq<seq<int>>)
    requires AllAlone(m, ps) && |m'| == |m|
    requires forall k, j {:trigger ps[k][j]} :: 0 <= k < |ps| && 0 <= j < |ps[k]| && 0 <= ps[k][j] < |m| ==> m'[ps[k][j]].last == m[ps[k][j]].last
    ensures AllAlone(m', ps)
  {
    forall k | 0 <= k < |ps| ensures Alone(m', ps[k]) {
      assert Alone(m, ps[k]);
      forall j | 1 <= j < |ps[k]| && 0 <= ps[k][j] < |m'| ensures m'[ps[k][j]].last == ps[k][j] {
        assert ps[k][j] == ps[k][j];
      }
    }
  }

  lemma SplitAlone(m: Memory, ps: seq<seq<int>>, a: nat)
    requires AllAlone(m, ps) && a < |ps| && ps[a] != [] && 0 <= ps[a][0] < |m|
    ensures AllAlone(SplitMemory(m, ps, a), SplitAt(ps, a))
  {
    hide Singles;
    var m', js := SplitMemory(m, ps, a), SplitAt(ps, a);
    SinglesAre(ps[a]);
    forall k | 0 <= k < |js| ensures Alone(m', js[k]) {
      if a <= k < a + |ps[a]| {
        assert js[k] == [ps[a][k - a]];
      } else {
        var i := if k < a then k else k - |ps[a]| + 1;
        assert js[k] == ps[i] && Alone(m, ps[i]);
      }
    }
  }

  /** Writes that leave the links of the descriptors in the down queue as they are. */
  lemma AlonePlaces(s: Pool, s': Pool)
    requires QueuesOk(s) && DownAlone(s) && |s'.m| == |s.m|
    requires Down in s'.layout ==> Down in s.queues && Down in s.layout && s'.layout[Down] == s.layout[Down]
    requires |s.place| == |s.m| && forall d :: 0 <= d < |s.m| && s.place[d] == In(Down) ==> s'.m[d].last == s.m[d].last
    ensures DownAlone(s')
  {
    hide QueueOk, AllAlone;
    if Down in s'.layout {
      assert QueueOk(s, Down);
      var ps := s.layout[Down];
      forall k, j | 0 <= k < |ps| && 0 <= j < |ps[k]| && 0 <= ps[k][j] < |s.m| ensures s'.m[ps[k][j]].last == s.m[ps[k][j]].last {
        InSpine(s, Down, k, ps[k][j]);
      }
      AloneFrame(s.m, s'.m, ps);
    }
  }

  lemma LinksAlone(s: Pool, m': Memory)
    requires DownAlone(s) && SameLinks(s.m, m')
    ensures DownAlone(s.(m := m'))
  {
    if Down in s.layout {
      var ps := s.layout[Down];
      forall k, j | 0 <= k < |ps| && 0 <= j < |ps[k]| && 0 <= ps[k][j] < |s.m| ensures m'[ps[k][j]].last == s.m[ps[k][j]].last {
        assert SameLink(s.m, m', ps[k][j]);
      }
      AloneFrame(s.m, m', ps);
    }
  }

  lemma UnlinkAlone(s: Pool, m': Memory, q: QueueId, q': Queue, c: Shown, held: Packet)
    requires HeapOk(s, c, held) && DownAlone(s) && q in s.layout && q in s.queues && WasUnlinked(s.m, m', s.queues[q], q', s.layout[q])
    ensures DownAlone(AfterUnlink(s, m', q, q'))
  {
    hide IsQueue, Disjoint, QueueIds, HomeOk, AllAlone, IsPacket, ValidQueue;
    assert QueueOk(s, q);
    var ps := s.layout[q];
    if q == Down {
      forall k, j | 0 <= k < |ps[1..]| && 0 <= j < |ps[1..][k]| && 0 <= ps[1..][k][j] < |s.m|
        ensures m'[ps[1..][k][j]].last == s.m[ps[1..][k][j]].last
      {
        PacketInQueueIds(ps[1..], k);
        assert ps[1..][k][j] in Ids(ps[1..][k]);
      }
      AloneTail(s.m, ps);
      AloneFrame(s.m, m', ps[1..]);
    } else {
      hide QueueOk;
      forall d | 0 <= d < |s.m| && s.place[d] == In(Down) ensures m'[d] == s.m[d] {
        if d in s.layout[q][0] {
          InSpine(s, q, 0, d);
        }
      }
      AlonePlaces(s, AfterUnlink(s, m', q, q'));
    }
  }

  lemma AloneTail(m: Memory, ps: seq<seq<int>>)
    requires AllAlone(m, ps) && ps != []
    ensures AllAlone(m, ps[1..])
  {
    hide Alone;
    forall k | 0 <= k < |ps[1..]| ensures Alone(m, ps[1..][k]) {
      assert ps[1..][k] == ps[k + 1];
    }
  }

  /** Only the packet in hand and the terminator of another queue are written. */
  lemma OtherAlone(s: Pool, s': Pool, q: QueueId, c: Shown, held: Packet)
    requires HeapOk(s, c, held) && DownAlone(s) && q in s.layout && q in s.queues && q != Down
    requires q in s'.layout && s'.layout == s.layout[q := s'.layout[q]]
    requires SameOn(s.m, s'.m, set d | 0 <= d < |s.m| && d !in Ids(s.hand) && d != s.queues[q].terminator)
    ensures DownAlone(s')
  {
    hide IsQueue, Disjoint, QueueIds, HomeOk, AllAlone, IsPacket, ValidQueue;
    assert QueueOk(s, q);
    assert s.queues[q].terminator in Spine(s, q);
    hide QueueOk;
    AlonePlaces(s, s');
  }

  lemma PutAlone(s: Pool, m': Memory, q: QueueId, c: Shown, held: Packet)
    requires HeapOk(s, c, held) && DownAlone(s) && s.hand != [] && InMemory(s.m, s.hand) && q != Down
    requires q in s.layout && q in s.queues && WasPut(s.m, m', s.queues[q], s.layout[q], s.hand)
    ensures DownAlone(AfterPut(s, m', q))
  {
    hide HeapOk, DownAlone, ValidQueue, PutPacket;
    OtherAlone(s, AfterPut(s, m', q), q, c, held);
  }

  lemma ReclaimAlone(s: Pool, m': Memory, q: QueueId, c: Shown, held: Packet)
    requires HeapOk(s, c, held) && DownAlone(s) && s.hand != [] && InMemory(s.m, s.hand)
    requires q in s.layout && q in s.queues && Reclaimed(s.m, m', s.queues[q], s.layout[q], s.hand)
    ensures DownAlone(AfterReclaim(s, m', q))
  {
    hide IsQueue, Disjoint, HomeOk, AllAlone, IsPacket, Singles, QueueIds;
    assert QueueOk(s, q);
    if q == Down {
      var ps := s.layout[q];
      forall k, j | 0 <= k < |ps| && 0 <= j < |ps[k]| && 0 <= ps[k][j] < |s.m| ensures m'[ps[k][j]].last == s.m[ps[k][j]].last {
        PacketInQueueIds(ps, k);
        assert ps[k][j] in Ids(ps[k]);
        InSpine(s, q, k, ps[k][j]);
      }
      AloneFrame(s.m, m', ps);
      AloneSingles(m', ps, [s.queues[q].terminator] + s.hand[1..]);
    } else {
      hide HeapOk, DownAlone, ValidQueue, QueueOk;
      OtherAlone(s, AfterReclaim(s, m', q), q, c, held);
    }
  }

  lemma AloneSingles(m: Memory, ps: seq<seq<int>>, ids: seq<int>)
    requires AllAlone(m, ps)
    ensures AllAlone(m, ps + Singles(ids))
  {
    hide Singles;
    SinglesAre(ids);
    var js := ps + Singles(ids);
    forall k | 0 <= k < |js| ensures Alone(m, js[k]) {
      if k < |ps| {
        assert js[k] == ps[k];
      } else {
        assert js[k] == [ids[k - |ps|]];
      }
    }
  }

  lemma TakeAlone(s: Pool, d: int, x: Desc, c: Shown)
    requires HeapOk(s, c, []) && DownAlone(s) && 0 <= d < |s.m| && d < |s.place| && IsAside(s.place[d])
    ensures |s.place| == |s.m| && DownAlone(Take(s, d, x))
  {
    hide QueueOk, HomeOk, Shows, AllAlone, HomeWith;
    AlonePlaces(s, Take(s, d, x));
  }

  /** A packet and a single entry behind it. */
  lemma JoinAlone(s: Pool, q: QueueId, a: nat, c: Shown, held: Packet)
    requires HeapOk(s, c, held) && DownAlone(s) && q in s.layout && a + 1 < |s.layout[q]|
    requires s.layout[q][a] != [] && 0 <= s.layout[q][a][0] < |s.m| && |s.layout[q][a + 1]| == 1
    ensures DownAlone(JoinPool(s, q, a))
  {
    hide IsQueue, Disjoint, QueueIds, HomeOk, AllAlone;
    assert q in s.layout.Keys && QueueOk(s, q);
    var ps, s' := s.layout[q], JoinPool(s, q, a);
    var d := ps[a][0];
    InSpine(s, q, a, d);
    if q == Down {
      var js := Joined(ps, a);
      QueueInMemory(s.m, s.queues[q].head, s.queues[q].terminator, ps);
      assert IsPacket(s.m, ps[a + 1]) && IsPacket(s.m, ps[a]);
      forall k | 0 <= k < |js| ensures Alone(s'.m, js[k]) {
        if k == a {
          JoinedAlone(s, a, c, held);
        } else {
          var i := if k < a then k else k + 1;
          assert js[k] == ps[i];
          AloneOf(s.m, ps, i);
          if d in ps[i] {
            PacketsApart(s, q, i, q, a, d);
          }
          OtherPacket(s, i, a);
        }
      }
      AllOf(s'.m, js);
    } else {
      hide QueueOk;
      AlonePlaces(s, s');
    }
  }

  lemma AllOf(m: Memory, ps: seq<seq<int>>)
    requires forall k {:trigger ps[k]} :: 0 <= k < |ps| ==> Alone(m, ps[k])
    ensures AllAlone(m, ps)
  {
  }

  lemma AloneOf(m: Memory, ps: seq<seq<int>>, i: nat)
    requires AllAlone(m, ps) && i < |ps|
    ensures Alone(m, ps[i])
  {
  }

  lemma JoinedAlone(s: Pool, a: nat, c: Shown, held: Packet)
    requires DownAlone(s) && Down in s.layout && a + 1 < |s.layout[Down]|
    requires IsPacket(s.m, s.layout[Down][a]) && IsPacket(s.m, s.layout[Down][a + 1]) && |s.layout[Down][a + 1]| == 1
    ensures Alone(JoinMemory(s.m, s.layout[Down], a), s.layout[Down][a] + s.layout[Down][a + 1])
  {
    var ps := s.layout[Down];
    var p, m' := ps[a] + ps[a + 1], JoinMemory(s.m, ps, a);
    AloneOf(s.m, ps, a);
    forall j | 1 <= j < |p| && 0 <= p[j] < |m'| ensures m'[p[j]].last == p[j] {
      if j < |ps[a]| {
        assert p[j] == ps[a][j];
      } else {
        assert p[j] == ps[a + 1][0];
      }
    }
  }

  lemma OtherPacket(s: Pool, i: nat, a: nat)
    requires Down in s.layout && i < |s.layout[Down]| && a < |s.layout[Down]| && i != a && s.layout[Down][a] != []
    requires s.layout[Down][a][0] !in s.layout[Down][i]
    requires 0 <= s.layout[Down][a][0] < |s.m| && Alone(s.m, s.layout[Down][i]) && a + 1 < |s.layout[Down]| && s.layout[Down][a + 1] != []
    ensures Alone(JoinMemory(s.m, s.layout[Down], a), s.layout[Down][i])
  {
  }
}
