/**
 The pool of descriptors seen as a map from queues to packets, and the packet in hand.
 */
module PoolView {
  import opened Dma
  import opened Pools

  type Shown = map<QueueId, seq<Packet>>

  /** The queues of the pool hold the packets `c`. */
  ghost predicate Shows(s: Pool, c: Shown)
  {
    c.Keys == s.queues.Keys && forall q {:trigger c[q]} :: q in c ==> HasContents(s, q, c[q])
  }

  ghost predicate Holds(s: Pool, held: Packet)
  {
    InMemory(s.m, s.hand) && HandView(s) == held
  }

  lemma ShownQueue(s: Pool, c: Shown, q: QueueId)
    requires QueueOk(s, q) && Shows(s, c) && q in c
    ensures q in s.queues && q in s.layout && forall k :: 0 <= k < |s.layout[q]| ==> InMemory(s.m, s.layout[q][k])
    ensures Contents(s, q) == c[q] && |c[q]| == |s.layout[q]|
  {
    QueueInPool(s, q);
  }

  /** Contents after an operation that leaves the other queues alone. */
  lemma OthersShown(s: Pool, s': Pool, c: Shown, q: QueueId, x: seq<Packet>)
    requires Shows(s, c) && q in c && OthersSame(s, s', q) && HasContents(s', q, x)
    ensures Shows(s', c[q := x])
  {
    hide QueueOk;
    var c' := c[q := x];
    forall r | r in c' ensures HasContents(s', r, c'[r]) {
      if r != q {
        assert HasContents(s, r, c[r]);
        assert QueueOk(s, r) && QueueOk(s', r);
      }
    }
  }

  lemma UnlinkShows(s: Pool, m': Memory, q: QueueId, q': Queue, c: Shown)
    requires PoolOk(s) && s.hand == [] && Shows(s, c) && q in c && c[q] != []
    requires QueueOk(s, q) && WasUnlinked(s.m, m', s.queues[q], q', s.layout[q])
    ensures var s' := AfterUnlink(s, m', q, q');
            && PoolOk(s') && Shows(s', c[q := c[q][1..]]) && Holds(s', c[q][0])
            && IsClosed(m', s'.hand)
  {
    hide IsQueue, Disjoint, QueueIds, ValidQueue, QueueOk, HomeOk, OthersSame, HasContents, HandOk, QueuesOk, Contents;
    ShownQueue(s, c, q);
    UnlinkPool(s, m', q, q');
    UnlinkContents(s, m', q, q');
    OthersShown(s, AfterUnlink(s, m', q, q'), c, q, c[q][1..]);
  }

  lemma PutShows(s: Pool, m': Memory, q: QueueId, c: Shown, held: Packet)
    requires PoolOk(s) && s.hand != [] && Holds(s, held) && Shows(s, c) && q in c
    requires QueueOk(s, q) && WasPut(s.m, m', s.queues[q], s.layout[q], s.hand)
    ensures var s' := AfterPut(s, m', q);
            PoolOk(s') && Shows(s', c[q := c[q] + [PutPacket(held)]])
  {
    hide IsQueue, Disjoint, QueueIds, ValidQueue, QueueOk, HomeOk, OthersSame, HasContents, Contents, PutPacket;
    ShownQueue(s, c, q);
    PutPool(s, m', q);
    PutContents(s, m', q);
    OthersShown(s, AfterPut(s, m', q), c, q, c[q] + [PutPacket(held)]);
  }

  lemma ReclaimShows(s: Pool, m': Memory, q: QueueId, c: Shown, held: Packet)
    requires PoolOk(s) && s.hand != [] && Holds(s, held) && Shows(s, c) && q in c
    requires QueueOk(s, q) && Reclaimed(s.m, m', s.queues[q], s.layout[q], s.hand)
    ensures var s' := AfterReclaim(s, m', q);
            PoolOk(s') && Shows(s', c[q := c[q] + FreePackets(held)])
  {
    hide IsQueue, Disjoint, QueueIds, ValidQueue, QueueOk, HomeOk, OthersSame, HasContents, Contents, FreePackets, Singles;
    ShownQueue(s, c, q);
    ReclaimPool(s, m', q);
    ReclaimContents(s, m', q);
    OthersShown(s, AfterReclaim(s, m', q), c, q, c[q] + FreePackets(held));
  }

  // ----- writes to buffers -----

  predicate SameLink(m: Memory, m': Memory, d: int)
  {
    0 <= d < |m| && d < |m'| ==> m'[d].last == m[d].last && m'[d].next == m[d].next
  }

  /** Only buffers are written. */
  ghost predicate SameLinks(m: Memory, m': Memory)
  {
    |m'| == |m| && forall d {:trigger SameLink(m, m', d)} :: SameLink(m, m', d)
  }

  lemma LinksPacket(m: Memory, m': Memory, p: seq<int>)
    requires SameLinks(m, m') && IsPacket(m, p)
    ensures IsPacket(m', p)
  {
    forall i ensures Linked(m', p, i) {
      assert Linked(m, p, i);
      if 0 <= i < |p| - 1 {
        assert SameLink(m, m', p[i]);
      }
    }
    assert SameLink(m, m', p[0]);
  }

  lemma {:induction false} LinksQueue(m: Memory, m': Memory, head: int, term: int, ps: seq<seq<int>>)
    requires SameLinks(m, m') && IsQueue(m, head, term, ps)
    ensures IsQueue(m', head, term, ps)
    decreases |ps|
  {
    if ps != [] {
      var p := ps[|ps| - 1];
      LinksPacket(m, m', p);
      LinksQueue(m, m', head, p[0], ps[..|ps| - 1]);
      assert SameLink(m, m', p[|p| - 1]);
    }
  }

  predicate SameData(a: Data, b: Data)
  {
    (a == NoData <==> b == NoData) && (a.Block? && b.Block? ==> a.id == b.id)
  }

  predicate SameBlock(m: Memory, m': Memory, d: int)
  {
    0 <= d < |m| && d < |m'| ==> SameData(m[d].buf.data, m'[d].buf.data)
  }

  /** Every descriptor refers to the same block as before, at its start or past the superdescriptor. */
  ghost predicate SameBlocks(m: Memory, m': Memory)
  {
    |m'| == |m| && forall d {:trigger SameBlock(m, m', d)} :: SameBlock(m, m', d)
  }

  lemma LinksQueueOk(s: Pool, m': Memory, q: QueueId)
    requires QueueOk(s, q) && SameLinks(s.m, m') && SameBlocks(s.m, m')
    ensures QueueOk(s.(m := m'), q)
  {
    hide IsQueue, Disjoint, QueueIds, Spine;
    LinksQueue(s.m, m', s.queues[q].head, s.queues[q].terminator, s.layout[q]);
    assert SameBlock(s.m, m', s.queues[q].terminator);
    assert Spine(s.(m := m'), q) == Spine(s, q) by { SpineSame(s, m', q); }
  }

  lemma SpineSame(s: Pool, m': Memory, q: QueueId)
    requires q in s.queues && q in s.layout
    ensures Spine(s.(m := m'), q) == Spine(s, q)
  {
  }

  lemma BlocksHome(s: Pool, m': Memory)
    requires HomeOk(s) && SameBlocks(s.m, m')
    ensures HomeOk(s.(m := m'))
  {
    var s' := s.(m := m');
    forall b | b in s'.home ensures 0 <= s'.home[b] < |m'| && m'[s'.home[b]].buf.data.Block? && m'[s'.home[b]].buf.data.id == b {
      assert SameBlock(s.m, m', s.home[b]);
    }
    forall d | 0 <= d < |m'| && m'[d].buf.data.Block?
      ensures m'[d].buf.data.id in s'.home && s'.home[m'[d].buf.data.id] == d
    {
      assert SameBlock(s.m, m', d);
    }
  }

  /** A write to buffers keeps the pool in order. */
  lemma WritePool(s: Pool, m': Memory)
    requires PoolOk(s) && SameLinks(s.m, m') && SameBlocks(s.m, m')
    ensures PoolOk(s.(m := m'))
  {
    hide IsQueue, Disjoint, QueueIds, QueueOk, HomeOk, Spine;
    BlocksHome(s, m');
    if s.hand != [] {
      LinksPacket(s.m, m', s.hand);
    }
    forall q | q in s.queues ensures QueueOk(s.(m := m'), q) {
      LinksQueueOk(s, m', q);
    }
  }

  // ----- no descriptor and no block is in two packets -----

  lemma {:induction false} DisjointPackets(ps: seq<seq<int>>, k: nat, l: nat)
    requires Disjoint(ps) && k < l < |ps|
    ensures Ids(ps[k]) !! Ids(ps[l])
    decreases |ps|
  {
    var before := ps[..|ps| - 1];
    if l == |ps| - 1 {
      PacketInQueueIds(before, k);
    } else {
      DisjointPackets(before, k, l);
      assert before[k] == ps[k] && before[l] == ps[l];
    }
  }

  lemma InSpine(s: Pool, q: QueueId, k: nat, d: int)
    requires QueueOk(s, q) && k < |s.layout[q]| && d in s.layout[q][k]
    ensures 0 <= d < |s.m| && s.place[d] == In(q)
  {
    hide IsQueue, Disjoint, QueueIds;
    PacketInQueueIds(s.layout[q], k);
    assert d in Ids(s.layout[q][k]);
    assert d in Spine(s, q);
  }

  lemma PacketsApart(s: Pool, q: QueueId, k: nat, r: QueueId, l: nat, d: int)
    requires QueueOk(s, q) && QueueOk(s, r) && k < |s.layout[q]| && l < |s.layout[r]|
    requires (q, k) != (r, l) && d in s.layout[q][k]
    ensures d !in s.layout[r][l]
  {
    hide IsQueue, Disjoint, QueueIds;
    InSpine(s, q, k, d);
    if d in s.layout[r][l] {
      InSpine(s, r, l, d);
      assert d in Ids(s.layout[q][k]) && d in Ids(s.layout[r][l]);
      DisjointPackets(s.layout[q], if k < l then k else l, if k < l then l else k);
    }
  }

  /** The descriptor that holds buffer `j` of packet `k`. */
  lemma ShownAt(s: Pool, c: Shown, q: QueueId, k: nat, j: nat)
    requires QueueOk(s, q) && Shows(s, c) && q in c && k < |c[q]| && j < |c[q][k]|
    ensures q in s.layout && k < |s.layout[q]| && j < |s.layout[q][k]| == |c[q][k]|
    ensures 0 <= s.layout[q][k][j] < |s.m| && s.m[s.layout[q][k][j]].buf == c[q][k][j]
  {
    hide QueueOk;
    ShownQueue(s, c, q);
    assert InMemory(s.m, s.layout[q][k]);
    assert c[q][k] == View(s.m, s.layout[q][k]);
  }

  /** Two packets in queues do not share a block. */
  lemma BlocksApart(s: Pool, c: Shown, q: QueueId, k: nat, i: nat, r: QueueId, l: nat, j: nat)
    requires PoolOk(s) && Shows(s, c) && q in c && k < |c[q]| && i < |c[q][k]| && r in c && l < |c[r]| && j < |c[r][l]|
    requires (q, k) != (r, l) && c[q][k][i].data.Block? && c[r][l][j].data.Block?
    ensures c[q][k][i].data.id != c[r][l][j].data.id
  {
    hide QueueOk, Shows;
    ShowsKeys(s, c, q);
    ShowsKeys(s, c, r);
    assert QueueOk(s, q) && QueueOk(s, r);
    ShownAt(s, c, q, k, i);
    ShownAt(s, c, r, l, j);
    PacketsApart(s, q, k, r, l, s.layout[q][k][i]);
  }

  lemma ShowsKeys(s: Pool, c: Shown, q: QueueId)
    requires Shows(s, c) && q in c
    ensures q in s.queues
  {
  }

  /** The packet in hand does not share a block with one in a queue. */
  lemma HandApart(s: Pool, c: Shown, held: Packet, i: nat, r: QueueId, l: nat, j: nat)
    requires PoolOk(s) && Shows(s, c) && Holds(s, held) && i < |held| && r in c && l < |c[r]| && j < |c[r][l]|
    requires held[i].data.Block? && c[r][l][j].data.Block?
    ensures held[i].data.id != c[r][l][j].data.id
  {
    hide QueueOk, Shows;
    ShowsKeys(s, c, r);
    assert QueueOk(s, r);
    ShownAt(s, c, r, l, j);
    var d := s.hand[i];
    assert d in s.hand && s.m[d].buf == held[i];
    InSpine(s, r, l, s.layout[r][l][j]);
  }

  /** A write to the buffers of packet `k` of a queue. */
  lemma WriteQueueShows(s: Pool, m': Memory, c: Shown, q: QueueId, k: nat, p: Packet)
    requires QueuesOk(s) && Shows(s, c) && q in c && k < |c[q]| && |m'| == |s.m|
    requires q in s.layout && k < |s.layout[q]| && InMemory(m', s.layout[q][k]) && View(m', s.layout[q][k]) == p
    requires forall d :: 0 <= d < |s.m| && d !in s.layout[q][k] ==> m'[d].buf == s.m[d].buf
    ensures Shows(s.(m := m'), c[q := c[q][k := p]])
  {
    hide QueueOk;
    var s' := s.(m := m');
    var c' := c[q := c[q][k := p]];
    forall r | r in c' ensures HasContents(s', r, c'[r]) {
      assert QueueOk(s, r) && QueueOk(s, q);
      ShownQueue(s, c, r);
      forall l | 0 <= l < |c[r]| ensures InMemory(m', s.layout[r][l]) && View(m', s.layout[r][l]) == c'[r][l] {
        assert InMemory(s.m, s.layout[r][l]) && c[r][l] == View(s.m, s.layout[r][l]);
        if (q, k) != (r, l) {
          forall j | 0 <= j < |s.layout[r][l]| ensures m'[s.layout[r][l][j]].buf == s.m[s.layout[r][l][j]].buf {
            PacketsApart(s, r, l, q, k, s.layout[r][l][j]);
          }
        }
      }
    }
  }

  /** Writes to descriptors that are in no queue do not show. */
  lemma WriteFreeShows(s: Pool, s': Pool, c: Shown)
    requires QueuesOk(s) && Shows(s, c) && |s'.m| == |s.m| && s'.queues == s.queues && s'.layout == s.layout
    requires |s.place| == |s.m| && forall d :: 0 <= d < |s.m| && s.place[d].In? ==> s'.m[d].buf == s.m[d].buf
    ensures Shows(s', c)
  {
    hide QueueOk;
    forall r | r in c ensures HasContents(s', r, c[r]) {
      assert QueueOk(s, r);
      ShownQueue(s, c, r);
      forall l | 0 <= l < |c[r]| ensures InMemory(s'.m, s.layout[r][l]) && View(s'.m, s.layout[r][l]) == c[r][l] {
        assert InMemory(s.m, s.layout[r][l]) && c[r][l] == View(s.m, s.layout[r][l]);
        forall j | 0 <= j < |s.layout[r][l]| ensures s'.m[s.layout[r][l][j]].buf == s.m[s.layout[r][l][j]].buf {
          InSpine(s, r, l, s.layout[r][l][j]);
        }
      }
    }
  }

  // ----- descriptors that are set aside -----

  /** A change of places that concerns no queue. */
  lemma PlacesOk(s: Pool, s': Pool)
    requires QueuesOk(s) && s'.queues == s.queues && s'.layout == s.layout && |s'.m| == |s.m| && |s'.place| == |s.place| == |s.m|
    requires forall d :: 0 <= d < |s.m| && s.place[d].In? ==> s'.m[d] == s.m[d] && s'.place[d] == s.place[d]
    requires forall d :: 0 <= d < |s.m| && !s.place[d].In? ==> !s'.place[d].In?
    ensures QueuesOk(s')
  {
    hide QueueOk;
    forall r | r in s'.queues ensures QueueOk(s', r) {
      assert QueueOk(s, r);
      OtherQueue(s, s', if r == Up then Down else Up, r);
    }
  }

  function SetAside(s: Pool, p: Place): Pool
  {
    s.(place := Moved(s.place, s.hand, p), hand := [])
  }

  lemma SetAsideOk(s: Pool, p: Place, c: Shown)
    requires PoolOk(s) && Shows(s, c) && !p.In? && p != Hand
    ensures PoolOk(SetAside(s, p)) && Shows(SetAside(s, p), c)
  {
    hide QueueOk, Shows;
    PlacesOk(s, SetAside(s, p));
    WriteFreeShows(s, SetAside(s, p), c);
  }

  /** The homes of the blocks when descriptor `d` refers to `data` and to nothing else. */
  function HomeWith(home: map<nat, int>, d: int, data: Data): map<nat, int>
  {
    var rest := map b | b in home && home[b] != d :: home[b];
    if data.Block? then rest[data.id := d] else rest
  }

  /** A descriptor that was set aside is written and taken in hand. */
  function Take(s: Pool, d: int, x: Desc): Pool
    requires 0 <= d < |s.place| == |s.m|
  {
    s.(m := s.m[d := x], place := s.place[d := Hand], hand := [d], home := HomeWith(s.home, d, x.buf.data))
  }

  lemma TakeOk(s: Pool, d: int, x: Desc, c: Shown)
    requires PoolOk(s) && Shows(s, c) && s.hand == [] && 0 <= d < |s.m| && !s.place[d].In? && x.last == d
    requires x.buf.data.Block? && x.buf.data.id in s.home ==> s.home[x.buf.data.id] == d
    ensures PoolOk(Take(s, d, x)) && Shows(Take(s, d, x), c) && Holds(Take(s, d, x), [x.buf])
  {
    hide QueueOk, Shows;
    hide HomeWith;
    TakeHome(s, d, x);
    hide HomeOk;
    PlacesOk(s, Take(s, d, x));
    WriteFreeShows(s, Take(s, d, x), c);
    assert IsPacket(Take(s, d, x).m, [d]);
  }

  lemma TakeHome(s: Pool, d: int, x: Desc)
    requires HomeOk(s) && 0 <= d < |s.m| == |s.place|
    requires x.buf.data.Block? && x.buf.data.id in s.home ==> s.home[x.buf.data.id] == d
    ensures HomeOk(Take(s, d, x))
  {
  }

  // ----- the hardware joins packets -----

  function Joined(ps: seq<seq<int>>, a: nat): seq<seq<int>>
    requires a + 1 < |ps|
  {
    ps[..a] + [ps[a] + ps[a + 1]] + ps[a + 2..]
  }

  function JoinMemory(m: Memory, ps: seq<seq<int>>, a: nat): Memory
    requires a + 1 < |ps| && ps[a] != [] && ps[a + 1] != [] && 0 <= ps[a][0] < |m|
  {
    var d := ps[a][0];
    m[d := m[d].(last := ps[a + 1][|ps[a + 1]| - 1])]
  }

  lemma JoinedPacket(m: Memory, m': Memory, p: seq<int>, q: seq<int>)
    requires IsPacket(m, p) && IsPacket(m, q) && Ids(p) !! Ids(q) && m[p[|p| - 1]].next == q[0]
    requires m' == m[p[0] := m[p[0]].(last := q[|q| - 1])]
    ensures IsPacket(m', p + q)
  {
    forall i ensures Linked(m', p + q, i) {
      assert Linked(m, p, i) && Linked(m, q, i - |p|);
    }
    forall i, j | 0 <= i < j < |p + q| ensures (p + q)[i] != (p + q)[j] {
      if i < |p| <= j {
        assert (p + q)[i] in Ids(p) && (p + q)[j] in Ids(q);
      }
    }
  }

  /** A queue, its last packet and what comes before. */
  lemma QueueSnoc(m: Memory, head: int, term: int, ps: seq<seq<int>>, r: seq<int>)
    requires r != []
    ensures IsQueue(m, head, term, ps + [r]) <==>
            IsPacket(m, r) && m[r[|r| - 1]].next == term && IsQueue(m, head, r[0], ps)
    ensures Disjoint(ps + [r]) <==> Disjoint(ps) && QueueIds(ps) !! Ids(r)
    ensures QueueIds(ps + [r]) == QueueIds(ps) + Ids(r)
  {
    assert (ps + [r])[..|ps|] == ps;
  }

  /** The last two packets of a queue are joined. */
  lemma JoinLast(m: Memory, head: int, term: int, ps: seq<seq<int>>, p: seq<int>, r: seq<int>)
    requires IsPacket(m, p) && IsPacket(m, r)
    requires IsQueue(m, head, term, ps + [p] + [r]) && Disjoint(ps + [p] + [r])
    ensures var m' := m[p[0] := m[p[0]].(last := r[|r| - 1])];
            && IsQueue(m', head, term, ps + [p + r]) && Disjoint(ps + [p + r])
            && QueueIds(ps + [p + r]) == QueueIds(ps + [p] + [r])
  {
    hide IsQueue, Disjoint, QueueIds;
    var m' := m[p[0] := m[p[0]].(last := r[|r| - 1])];
    QueueSnoc(m, head, term, ps + [p], r);
    QueueSnoc(m, head, r[0], ps, p);
    QueueSnoc(m', head, term, ps, p + r);
    assert Ids(p + r) == Ids(p) + Ids(r) && p[0] in Ids(p) && r[|r| - 1] in Ids(r);
    JoinedPacket(m, m', p, r);
    QueueFrame(m, m', head, p[0], ps);
  }

  lemma PacketFrame(m: Memory, m': Memory, p: seq<int>)
    requires IsPacket(m, p) && SameOn(m, m', Ids(p))
    ensures IsPacket(m', p)
  {
    assert forall i :: Linked(m, p, i) ==> Linked(m', p, i);
  }

  lemma {:induction false} JoinQueue(m: Memory, head: int, term: int, ps: seq<seq<int>>, a: nat)
    requires IsQueue(m, head, term, ps) && Disjoint(ps) && a + 1 < |ps|
    ensures IsPacket(m, ps[a]) && IsPacket(m, ps[a + 1])
    ensures IsQueue(JoinMemory(m, ps, a), head, term, Joined(ps, a))
    ensures Disjoint(Joined(ps, a)) && QueueIds(Joined(ps, a)) == QueueIds(ps)
    decreases |ps|
  {
    hide IsQueue, Disjoint, QueueIds;
    QueueInMemory(m, head, term, ps);
    var r, before := ps[|ps| - 1], ps[..|ps| - 1];
    assert ps == before + [r];
    assert IsPacket(m, ps[a]) && IsPacket(m, ps[a + 1]) && IsPacket(m, r);
    if a + 2 == |ps| {
      assert ps == ps[..a] + [ps[a]] + [r] && Joined(ps, a) == ps[..a] + [ps[a] + r];
      JoinLast(m, head, term, ps[..a], ps[a], r);
    } else {
      var m' := JoinMemory(m, ps, a);
      QueueSnoc(m, head, term, before, r);
      JoinQueue(m, head, r[0], before, a);
      assert Joined(ps, a) == Joined(before, a) + [r];
      QueueSnoc(m', head, term, Joined(before, a), r);
      assert ps[a][0] in Ids(before[a]);
      PacketInQueueIds(before, a);
      assert r[|r| - 1] in Ids(r);
      PacketFrame(m, m', r);
    }
  }

  function JoinPool(s: Pool, q: QueueId, a: nat): Pool
    requires q in s.layout && a + 1 < |s.layout[q]| && s.layout[q][a] != [] && s.layout[q][a + 1] != []
    requires 0 <= s.layout[q][a][0] < |s.m|
  {
    s.(m := JoinMemory(s.m, s.layout[q], a), layout := s.layout[q := Joined(s.layout[q], a)])
  }

  lemma JoinPoolOk(s: Pool, q: QueueId, a: nat)
    requires PoolOk(s) && s.hand == [] && q in s.queues && QueueOk(s, q) && a + 1 < |s.layout[q]|
    ensures s.layout[q][a] != [] && s.layout[q][a + 1] != [] && 0 <= s.layout[q][a][0] < |s.m|
    ensures PoolOk(JoinPool(s, q, a)) && OthersSame(s, JoinPool(s, q, a), q) && QueueOk(JoinPool(s, q, a), q)
  {
    hide IsQueue, Disjoint, QueueIds, HomeOk, OthersSame, QueuesOk, Joined;
    JoinQueue(s.m, s.queues[q].head, s.queues[q].terminator, s.layout[q], a);
    var s' := JoinPool(s, q, a);
    InSpine(s, q, a, s.layout[q][a][0]);
    assert Spine(s', q) == Spine(s, q);
    BlocksHome(s, s'.m);
    HomeLayout(s.(m := s'.m), s');
    JoinLocal(s, q, a);
    hide QueueOk, IsPacket, Local;
    OthersKept(s, s', q);
  }

  lemma HomeLayout(s: Pool, s': Pool)
    requires HomeOk(s) && s'.m == s.m && s'.home == s.home
    ensures HomeOk(s')
  {
  }

  lemma JoinLocal(s: Pool, q: QueueId, a: nat)
    requires QueuesOk(s) && q in s.queues && QueueOk(s, q) && a + 1 < |s.layout[q]|
    requires s.layout[q][a] != [] && s.layout[q][a + 1] != [] && 0 <= s.layout[q][a][0] < |s.m|
    requires s.place[s.layout[q][a][0]] == In(q)
    ensures Local(s, JoinPool(s, q, a), q)
  {
    hide Joined, IsQueue, Disjoint, ValidQueue;
  }

  function JoinedPackets(c: seq<Packet>, a: nat): seq<Packet>
    requires a + 1 < |c|
  {
    c[..a] + [c[a] + c[a + 1]] + c[a + 2..]
  }

  lemma JoinView(m: Memory, m': Memory, ps: seq<seq<int>>, a: nat)
    requires a + 1 < |ps| && |m'| == |m| && forall d :: 0 <= d < |m| ==> m'[d].buf == m[d].buf
    requires forall k :: 0 <= k < |ps| ==> InMemory(m, ps[k])
    requires forall k :: 0 <= k < |Joined(ps, a)| ==> InMemory(m', Joined(ps, a)[k])
    ensures QueueView(m', Joined(ps, a)) == JoinedPackets(QueueView(m, ps), a)
  {
    var js, c := Joined(ps, a), QueueView(m, ps);
    forall k | 0 <= k < |js| ensures View(m', js[k]) == JoinedPackets(c, a)[k] {
      if k < a {
        assert js[k] == ps[k] && c[k] == View(m, ps[k]);
      } else if k == a {
        assert c[a] == View(m, ps[a]) && c[a + 1] == View(m, ps[a + 1]);
      } else {
        assert js[k] == ps[k + 1] && c[k + 1] == View(m, ps[k + 1]);
      }
    }
  }

  lemma JoinShows(s: Pool, q: QueueId, a: nat, c: Shown)
    requires PoolOk(s) && s.hand == [] && Shows(s, c) && q in c && a + 1 < |c[q]|
    ensures q in s.layout && |s.layout[q]| == |c[q]|
    ensures s.layout[q][a] != [] && s.layout[q][a + 1] != [] && 0 <= s.layout[q][a][0] < |s.m|
    ensures PoolOk(JoinPool(s, q, a)) && Shows(JoinPool(s, q, a), c[q := JoinedPackets(c[q], a)])
  {
    hide IsPacket, ValidQueue, HomeOk, HandOk, Spine;
    ShowsKeys(s, c, q);
    assert QueueOk(s, q);
    ShownQueue(s, c, q);
    JoinPoolOk(s, q, a);
    var s' := JoinPool(s, q, a);
    QueueInPool(s', q);
    hide QueueOk, OthersSame, QueuesOk, Shows, Joined, JoinedPackets;
    JoinView(s.m, s'.m, s.layout[q], a);
    OthersShown(s, s', c, q, JoinedPackets(c[q], a));
  }

  // ----- the pool, what it shows and what is in hand -----

  predicate IsAside(p: Place) { p == FreeFw || p == FreeInt || p == Unused }

  predicate KeptAside(s: Pool, s': Pool, d: int)
  {
    0 <= d < |s.place| && d < |s'.place| && d < |s.m| && d < |s'.m| && (IsAside(s.place[d]) || IsAside(s'.place[d])) ==>
      s'.place[d] == s.place[d] && s'.m[d] == s.m[d]
  }

  /** Descriptors that are set aside are not touched, and blocks stay in use. */
  ghost predicate AsideKept(s: Pool, s': Pool)
  {
    && |s'.m| == |s.m| && |s'.place| == |s.place| && s'.home.Keys == s.home.Keys
    && forall d {:trigger KeptAside(s, s', d)} :: KeptAside(s, s', d)
  }

  ghost predicate Placed(s: Pool)
  {
    forall d {:trigger s.place[d]} :: 0 <= d < |s.place| && s.place[d].In? ==> s.place[d].q in s.queues
  }

  ghost predicate HeapOk(s: Pool, c: Shown, held: Packet)
  {
    PoolOk(s) && Shows(s, c) && Holds(s, held) && Placed(s)
  }

  lemma UnlinkHeap(s: Pool, m': Memory, q: QueueId, q': Queue, c: Shown)
    requires HeapOk(s, c, []) && q in c && c[q] != []
    requires WasUnlinked(s.m, m', s.queues[q], q', s.layout[q])
    ensures s.hand == [] && q in s.layout && s.layout[q] != []
    ensures var s' := AfterUnlink(s, m', q, q');
            HeapOk(s', c[q := c[q][1..]], c[q][0]) && AsideKept(s, s') && s'.hand != [] && s'.hand[0] == s.queues[q].head
  {
    hide IsQueue, Disjoint, QueueIds, ValidQueue, HomeOk, HasContents, Shows;
    ShowsKeys(s, c, q);
    assert QueueOk(s, q);
    ShownQueue(s, c, q);
    UnlinkShows(s, m', q, q', c);
    var s' := AfterUnlink(s, m', q, q');
    forall d ensures KeptAside(s, s', d) {
      if d in s.layout[q][0] {
        InSpine(s, q, 0, d);
      }
    }
  }

  /** What the methods need to know about a queue and the packet in hand to call dma_put or dma_reclaim. */
  lemma ReadyToQueue(s: Pool, q: QueueId, c: Shown, held: Packet)
    requires HeapOk(s, c, held) && q in c
    ensures q in s.layout && q in s.queues && QueueOk(s, q) && |s.hand| == |held|
    ensures ValidQueue(s.m, s.queues[q], s.layout[q])
    ensures s.hand != [] ==> IsPacket(s.m, s.hand)
    ensures Ids(s.hand) !! QueueIds(s.layout[q]) && s.queues[q].terminator !in Ids(s.hand)
  {
    hide IsQueue, Disjoint, QueueIds, HomeOk, IsPacket;
    assert QueueOk(s, q);
    forall d | d in s.hand ensures d !in Spine(s, q) {
    }
  }

  lemma PutHeap(s: Pool, m': Memory, q: QueueId, c: Shown, held: Packet)
    requires HeapOk(s, c, held) && q in c && held != [] && s.hand != [] && InMemory(s.m, s.hand)
    requires q in s.layout && q in s.queues && WasPut(s.m, m', s.queues[q], s.layout[q], s.hand)
    ensures HeapOk(AfterPut(s, m', q), c[q := c[q] + [PutPacket(held)]], []) && AsideKept(s, AfterPut(s, m', q))
  {
    hide IsQueue, Disjoint, QueueIds, ValidQueue, HasContents, Shows, PutPacket, IsPacket;
    ShowsKeys(s, c, q);
    assert QueueOk(s, q);
    PutShows(s, m', q, c, held);
    var s' := AfterPut(s, m', q);
    var t := s.queues[q].terminator;
    assert t in Spine(s, q);
    forall d ensures KeptAside(s, s', d) {
    }
    assert s.home.Keys == s'.home.Keys;
  }

  lemma ReclaimHeap(s: Pool, m': Memory, q: QueueId, c: Shown, held: Packet)
    requires HeapOk(s, c, held) && q in c && held != [] && s.hand != [] && InMemory(s.m, s.hand)
    requires q in s.layout && q in s.queues && Reclaimed(s.m, m', s.queues[q], s.layout[q], s.hand)
    ensures HeapOk(AfterReclaim(s, m', q), c[q := c[q] + FreePackets(held)], []) && AsideKept(s, AfterReclaim(s, m', q))
  {
    hide IsQueue, Disjoint, QueueIds, ValidQueue, HasContents, Shows, Singles, FreePackets, IsPacket;
    ShowsKeys(s, c, q);
    assert QueueOk(s, q);
    ReclaimShows(s, m', q, c, held);
    var s' := AfterReclaim(s, m', q);
    var t := s.queues[q].terminator;
    assert t in Spine(s, q);
    forall d ensures KeptAside(s, s', d) {
    }
    assert s.home.Keys == s'.home.Keys;
  }

  /** A write to the first buffer of the packet in hand. */
  lemma WriteHandHeap(s: Pool, b: Buf, c: Shown, held: Packet)
    requires HeapOk(s, c, held) && held != [] && s.hand != [] && 0 <= s.hand[0] < |s.m| && SameData(held[0].data, b.data)
    ensures var s' := s.(m := s.m[s.hand[0] := s.m[s.hand[0]].(buf := b)]);
            HeapOk(s', c, held[0 := b]) && AsideKept(s, s')
  {
    hide QueueOk, HomeOk, Shows;
    var d := s.hand[0];
    var s' := s.(m := s.m[d := s.m[d].(buf := b)]);
    assert d in s.hand && s.m[d].buf == held[0];
    assert SameLinks(s.m, s'.m) && SameBlocks(s.m, s'.m);
    WritePool(s, s'.m);
    WriteFreeShows(s, s', c);
    forall e ensures KeptAside(s, s', e) {
    }
    assert View(s'.m, s.hand) == held[0 := b];
  }

  /** A write to the buffers of a packet in a queue, which keep their blocks. */
  lemma WriteQueueHeap(s: Pool, m': Memory, c: Shown, held: Packet, q: QueueId, k: nat, p: Packet)
    requires HeapOk(s, c, held) && q in c && k < |c[q]| && SameLinks(s.m, m')
    requires q in s.layout && k < |s.layout[q]| && InMemory(m', s.layout[q][k]) && View(m', s.layout[q][k]) == p
    requires forall d :: 0 <= d < |s.m| && d !in s.layout[q][k] ==> m'[d].buf == s.m[d].buf
    requires |p| == |c[q][k]| && forall j :: 0 <= j < |p| ==> SameData(c[q][k][j].data, p[j].data)
    ensures HeapOk(s.(m := m'), c[q := c[q][k := p]], held) && AsideKept(s, s.(m := m'))
  {
    hide HomeOk, Shows, IsQueue, Disjoint, QueueIds, Spine;
    ShowsKeys(s, c, q);
    assert QueueOk(s, q);
    var s' := s.(m := m');
    forall d ensures SameBlock(s.m, m', d) {
      if 0 <= d < |s.m| && d in s.layout[q][k] {
        var j :| 0 <= j < |s.layout[q][k]| && s.layout[q][k][j] == d;
        ShownAt(s, c, q, k, j);
        assert View(m', s.layout[q][k])[j] == p[j];
      }
    }
    WritePool(s, m');
    WriteQueueShows(s, m', c, q, k, p);
    forall d ensures KeptAside(s, s', d) {
      if 0 <= d < |s.m| {
        if d in s.layout[q][k] {
          InSpine(s, q, k, d);
        }
        assert SameLink(s.m, m', d);
      }
    }
    HandSame(s, m', q, k);
  }

  lemma HandSame(s: Pool, m': Memory, q: QueueId, k: nat)
    requires HandOk(s) && QueueOk(s, q) && q in s.layout && k < |s.layout[q]| && InMemory(s.m, s.hand) && |m'| == |s.m|
    requires forall d :: 0 <= d < |s.m| && d !in s.layout[q][k] ==> m'[d].buf == s.m[d].buf
    ensures View(m', s.hand) == View(s.m, s.hand)
  {
    hide QueueOk;
    forall j | 0 <= j < |s.hand| ensures m'[s.hand[j]].buf == s.m[s.hand[j]].buf {
      assert s.hand[j] in s.hand;
      if s.hand[j] in s.layout[q][k] {
        InSpine(s, q, k, s.hand[j]);
      }
    }
  }

  lemma JoinHeap(s: Pool, q: QueueId, a: nat, c: Shown)
    requires HeapOk(s, c, []) && q in c && a + 1 < |c[q]|
    ensures q in s.layout && |s.layout[q]| == |c[q]|
    ensures s.layout[q][a] != [] && s.layout[q][a + 1] != [] && 0 <= s.layout[q][a][0] < |s.m|
    ensures HeapOk(JoinPool(s, q, a), c[q := JoinedPackets(c[q], a)], []) && AsideKept(s, JoinPool(s, q, a))
  {
    hide HomeOk, Shows, IsQueue, Disjoint, QueueIds, Spine, Joined, JoinedPackets, IsPacket;
    ShowsKeys(s, c, q);
    assert QueueOk(s, q);
    JoinShows(s, q, a, c);
    var s' := JoinPool(s, q, a);
    forall d ensures KeptAside(s, s', d) {
      InSpine(s, q, a, s.layout[q][a][0]);
    }
  }

  // Descriptors that are put aside and taken back keep everything else; `d` is the one that moves.

  ghost predicate OthersAside(s: Pool, s': Pool, d: int)
  {
    && |s'.m| == |s.m| && |s'.place| == |s.place|
    && forall e {:trigger KeptAside(s, s', e)} :: e != d ==> KeptAside(s, s', e)
  }

  lemma SetAsideHeap(s: Pool, p: Place, c: Shown, held: Packet)
    requires HeapOk(s, c, held) && IsAside(p) && |s.hand| == 1
    ensures HeapOk(SetAside(s, p), c, []) && OthersAside(s, SetAside(s, p), s.hand[0])
  {
    hide QueueOk, HomeOk, Shows;
    SetAsideOk(s, p, c);
    forall e ensures e != s.hand[0] ==> KeptAside(s, SetAside(s, p), e) {
    }
  }

  lemma TakeHeap(s: Pool, d: int, x: Desc, c: Shown)
    requires HeapOk(s, c, []) && 0 <= d < |s.m| && d < |s.place| && IsAside(s.place[d]) && x.last == d
    requires x.buf.data.Block? && x.buf.data.id in s.home ==> s.home[x.buf.data.id] == d
    ensures |s.place| == |s.m| && HeapOk(Take(s, d, x), c, [x.buf]) && OthersAside(s, Take(s, d, x), d)
    ensures forall b :: b in Take(s, d, x).home ==>
              (b in s.home && s.home[b] != d) || (x.buf.data.Block? && b == x.buf.data.id)
  {
    hide QueueOk, HomeOk, Shows;
    TakeOk(s, d, x, c);
    forall e ensures e != d ==> KeptAside(s, Take(s, d, x), e) {
    }
  }
}
