/**
 All descriptors and queues of the firmware together: every descriptor is in
 exactly one place, and every data block is referenced by exactly one descriptor.
 */
module Pools {
  import opened Dma

  datatype QueueId = Up | Down | Tx(i: nat) | Retry | Rx | Cab(vif: nat)

  const TX_QUEUES: nat := 5

  /** Blocks outside the data blocks: `dma_mem.reserved.ba` is 0, `.cmd` 1 and `.rsp` 2. */
  const CMD_BLOCK: nat := 1
  const RSP_BLOCK: nat := 2

  const FIRST_DATA_BLOCK: nat := 3

  /** AR9170_TX_BLOCK_NUMBER: two of three blocks are for frames from the host. */
  function TxBlocks(blocks: nat): nat { blocks * 2 / 3 }

  function FreeBlock(id: nat): Buf { Buf(Hw, 0, NO_CTRL, BLOCK_SIZE, 0, Block(id, false)) }

  function FreeBlocks(a: nat, b: nat): seq<Packet>
    requires a <= b
  {
    seq(b - a, i requires 0 <= i < b - a => [FreeBlock(FIRST_DATA_BLOCK + a + i)])
  }

  predicate Reserved(id: int) { id <= RSP_BLOCK }

  /** Where a descriptor is: in a queue (or its terminator), being handled, set aside, or not set up yet. */
  datatype Place = In(q: QueueId) | Hand | FreeFw | FreeInt | Unused

  /**
   `layout` lists the packets of every queue and `hand` the packet that is being
   handled, both as descriptors; `home` says which descriptor holds a data block.
   */
  datatype Pool = Pool(
    m: Memory, queues: map<QueueId, Queue>,
    layout: map<QueueId, seq<seq<int>>>, place: seq<Place>, hand: seq<int>, home: map<nat, int>)

  function Spine(s: Pool, q: QueueId): set<int>
    requires q in s.queues && q in s.layout
  {
    QueueIds(s.layout[q]) + {s.queues[q].terminator}
  }

  ghost predicate QueueOk(s: Pool, q: QueueId)
  {
    && q in s.queues && q in s.layout && |s.place| == |s.m|
    && ValidQueue(s.m, s.queues[q], s.layout[q])
    && s.m[s.queues[q].terminator].buf.data == NoData
    && forall d :: d in Spine(s, q) <==> 0 <= d < |s.m| && s.place[d] == In(q)
  }

  ghost predicate HandOk(s: Pool)
  {
    && |s.place| == |s.m|
    && (s.hand != [] ==> IsPacket(s.m, s.hand))
    && forall d :: d in s.hand <==> 0 <= d < |s.m| && s.place[d] == Hand
  }

  /** A data block and the one descriptor that refers to it. */
  ghost predicate HomeOk(s: Pool)
  {
    && (forall b :: b in s.home ==> 0 <= s.home[b] < |s.m|)
    && (forall b :: b in s.home ==> s.m[s.home[b]].buf.data.Block? && s.m[s.home[b]].buf.data.id == b)
    && (forall d :: 0 <= d < |s.m| && s.m[d].buf.data.Block? ==>
          s.m[d].buf.data.id in s.home && s.home[s.m[d].buf.data.id] == d)
  }

  ghost predicate QueuesOk(s: Pool)
  {
    && s.layout.Keys == s.queues.Keys
    && forall q {:trigger QueueOk(s, q)} :: q in s.queues ==> QueueOk(s, q)
  }

  ghost predicate PoolOk(s: Pool)
  {
    QueuesOk(s) && HandOk(s) && HomeOk(s)
  }

  /** The contents of a queue, as packets of buffers. */
  function Contents(s: Pool, q: QueueId): seq<Packet>
    requires q in s.layout && forall k :: 0 <= k < |s.layout[q]| ==> InMemory(s.m, s.layout[q][k])
  {
    QueueView(s.m, s.layout[q])
  }

  function HandView(s: Pool): Packet
    requires InMemory(s.m, s.hand)
  {
    View(s.m, s.hand)
  }

  /** The descriptors `ids` moved to `p`. */
  function Moved(place: seq<Place>, ids: seq<int>, p: Place): seq<Place>
  {
    seq(|place|, d requires 0 <= d < |place| => if d in ids then p else place[d])
  }

  /** The data block of the first descriptor of a packet now belongs to the descriptor `d`. */
  function Rehomed(s: Pool, d: int): map<nat, int>
    requires s.hand != [] && InMemory(s.m, s.hand)
  {
    var data := s.m[s.hand[0]].buf.data;
    if data.Block? then s.home[data.id := d] else s.home
  }

  // ----- the three operations on the pool -----

  function AfterUnlink(s: Pool, m': Memory, q: QueueId, q': Queue): Pool
    requires q in s.layout && s.layout[q] != []
  {
    s.(m := m', queues := s.queues[q := q'], layout := s.layout[q := s.layout[q][1..]],
       place := Moved(s.place, s.layout[q][0], Hand), hand := s.layout[q][0])
  }

  function AfterPut(s: Pool, m': Memory, q: QueueId): Pool
    requires q in s.layout && q in s.queues && s.hand != [] && InMemory(s.m, s.hand)
  {
    var t := s.queues[q].terminator;
    s.(m := m', queues := s.queues[q := s.queues[q].(terminator := s.hand[0])],
       layout := s.layout[q := s.layout[q] + [[t] + s.hand[1..]]],
       place := Moved(s.place, s.hand, In(q)), hand := [], home := Rehomed(s, t))
  }

  function AfterReclaim(s: Pool, m': Memory, q: QueueId): Pool
    requires q in s.layout && q in s.queues && s.hand != [] && InMemory(s.m, s.hand)
  {
    var t := s.queues[q].terminator;
    s.(m := m', queues := s.queues[q := s.queues[q].(terminator := s.hand[0])],
       layout := s.layout[q := s.layout[q] + Singles([t] + s.hand[1..])],
       place := Moved(s.place, s.hand, In(q)), hand := [], home := Rehomed(s, t))
  }

  /** Queues that none of the changed descriptors belong to stay as they are. */
  lemma OtherQueue(s: Pool, s': Pool, q: QueueId, r: QueueId)
    requires QueueOk(s, r) && q != r
    requires r in s'.queues && r in s'.layout && s'.queues[r] == s.queues[r] && s'.layout[r] == s.layout[r]
    requires |s'.m| == |s.m| && |s'.place| == |s.place|
    requires forall d :: 0 <= d < |s.m| && s.place[d] == In(r) ==> s'.m[d] == s.m[d]
    requires forall d :: 0 <= d < |s.m| ==> (s'.place[d] == In(r) <==> s.place[d] == In(r))
    ensures QueueOk(s', r)
    ensures forall k :: 0 <= k < |s.layout[r]| ==> InMemory(s.m, s.layout[r][k]) && InMemory(s'.m, s.layout[r][k])
    ensures Contents(s', r) == Contents(s, r)
  {
    hide IsQueue, Disjoint;
    ValidQueueFrame(s.m, s'.m, s.queues[r], s.layout[r]);
    QueueViewFrame(s.m, s'.m, s.queues[r].head, s.queues[r].terminator, s.layout[r]);
  }

  /** What an operation on queue `q` leaves alone. */
  ghost predicate OthersSame(s: Pool, s': Pool, q: QueueId)
  {
    && s'.queues.Keys == s.queues.Keys == s.layout.Keys == s'.layout.Keys
    && forall r {:trigger QueueOk(s, r)} {:trigger QueueOk(s', r)} :: r in s.queues && r != q ==>
         && QueueOk(s, r) && QueueOk(s', r) && s'.layout[r] == s.layout[r]
         && (forall k :: 0 <= k < |s.layout[r]| ==> InMemory(s.m, s.layout[r][k]) && InMemory(s'.m, s.layout[r][k]))
         && Contents(s', r) == Contents(s, r)
  }

  lemma QueueInPool(s: Pool, q: QueueId)
    requires QueueOk(s, q)
    ensures forall k :: 0 <= k < |s.layout[q]| ==> InMemory(s.m, s.layout[q][k])
  {
    QueueInMemory(s.m, s.queues[q].head, s.queues[q].terminator, s.layout[q]);
    forall k | 0 <= k < |s.layout[q]| ensures InMemory(s.m, s.layout[q][k]) {
      assert IsPacket(s.m, s.layout[q][k]);
    }
  }

  predicate Near(p: Place, q: QueueId) { p == Hand || p == In(q) }

  /** Only descriptors of `q` and of the hand are written and moved. */
  ghost predicate Local(s: Pool, s': Pool, q: QueueId)
  {
    && q in s.queues && s.layout.Keys == s.queues.Keys && q in s'.queues && q in s'.layout
    && s'.queues == s.queues[q := s'.queues[q]] && s'.layout == s.layout[q := s'.layout[q]]
    && |s'.m| == |s.m| == |s.place| == |s'.place|
    && (forall d :: 0 <= d < |s.m| && !Near(s.place[d], q) ==> s'.m[d] == s.m[d] && s'.place[d] == s.place[d])
    && (forall d :: 0 <= d < |s.m| && Near(s.place[d], q) ==> Near(s'.place[d], q))
  }

  lemma OthersKept(s: Pool, s': Pool, q: QueueId)
    requires QueuesOk(s) && q in s'.queues && q in s'.layout && Local(s, s', q) && QueueOk(s', q)
    ensures OthersSame(s, s', q) && QueuesOk(s')
  {
    hide IsQueue, Disjoint, QueueIds, ValidQueue, QueueOk;
    forall r | r in s.queues && r != q
      ensures QueueOk(s, r) && QueueOk(s', r)
      ensures forall k :: 0 <= k < |s.layout[r]| ==> InMemory(s.m, s.layout[r][k]) && InMemory(s'.m, s.layout[r][k])
      ensures Contents(s', r) == Contents(s, r)
    {
      assert QueueOk(s, r);
      OtherQueue(s, s', q, r);
    }
  }

  /** dma_unlink_head on the pool: the first packet goes from the queue into the hand. */
  lemma UnlinkPool(s: Pool, m': Memory, q: QueueId, q': Queue)
    requires PoolOk(s) && s.hand == [] && q in s.queues
    requires QueueOk(s, q) && WasUnlinked(s.m, m', s.queues[q], q', s.layout[q])
    ensures var s' := AfterUnlink(s, m', q, q');
            && PoolOk(s') && OthersSame(s, s', q) && QueueOk(s', q)
            && InMemory(s'.m, s'.hand) && HandView(s') == View(s.m, s.layout[q][0])
  {
    hide IsQueue, Disjoint, QueueIds, ValidQueue, QueueOk, HomeOk, OthersSame;
    var s' := AfterUnlink(s, m', q, q');
    UnlinkHome(s, m', q, q');
    UnlinkQueue(s, m', q, q');
    OthersKept(s, s', q);
  }

  lemma UnlinkQueue(s: Pool, m': Memory, q: QueueId, q': Queue)
    requires QueueOk(s, q) && HandOk(s) && s.hand == [] && s.layout.Keys == s.queues.Keys
    requires WasUnlinked(s.m, m', s.queues[q], q', s.layout[q])
    requires forall d :: 0 <= d < |m'| && 0 <= d < |s.m| ==> m'[d].buf == s.m[d].buf
    ensures var s' := AfterUnlink(s, m', q, q'); QueueOk(s', q) && HandOk(s') && Local(s, s', q)
  {
    hide IsQueue, Disjoint, QueueIds;
    var p := s.layout[q][0];
    var s' := AfterUnlink(s, m', q, q');
    assert forall d :: d in p ==> d in Spine(s, q);
  }

  lemma UnlinkHome(s: Pool, m': Memory, q: QueueId, q': Queue)
    requires HomeOk(s) && QueueOk(s, q) && WasUnlinked(s.m, m', s.queues[q], q', s.layout[q])
    ensures |m'| == |s.m| && forall d :: 0 <= d < |m'| ==> m'[d].buf == s.m[d].buf
    ensures HomeOk(AfterUnlink(s, m', q, q'))
  {
    var p := s.layout[q][0];
    forall d | 0 <= d < |m'| ensures m'[d].buf == s.m[d].buf {
      if d in p {
        var i :| 0 <= i < |p| && p[i] == d;
        assert View(m', p)[i] == View(s.m, p)[i];
      }
    }
  }

  /** dma_put on the pool: the packet in the hand becomes the last one of the queue. */
  lemma PutPool(s: Pool, m': Memory, q: QueueId)
    requires PoolOk(s) && s.hand != [] && q in s.queues && InMemory(s.m, s.hand)
    requires QueueOk(s, q) && WasPut(s.m, m', s.queues[q], s.layout[q], s.hand)
    ensures var s' := AfterPut(s, m', q);
            PoolOk(s') && OthersSame(s, s', q) && QueueOk(s', q)
  {
    hide IsQueue, Disjoint, QueueIds, ValidQueue, QueueOk, HomeOk, OthersSame;
    var s' := AfterPut(s, m', q);
    PutQueue(s, m', q);
    PutHome(s, m', q);
    OthersKept(s, s', q);
  }

  lemma PutQueue(s: Pool, m': Memory, q: QueueId)
    requires QueueOk(s, q) && HandOk(s) && s.hand != [] && s.layout.Keys == s.queues.Keys && InMemory(s.m, s.hand)
    requires WasPut(s.m, m', s.queues[q], s.layout[q], s.hand)
    ensures var s' := AfterPut(s, m', q); QueueOk(s', q) && HandOk(s') && Local(s, s', q)
  {
    hide IsQueue, Disjoint, QueueIds;
    var s' := AfterPut(s, m', q);
    var t := s.queues[q].terminator;
    assert s.place[s.hand[0]] == Hand && t in Spine(s, q);
    assert Spine(s', q) == Spine(s, q) + Ids(s.hand);
  }

  lemma PutHome(s: Pool, m': Memory, q: QueueId)
    requires HomeOk(s) && QueueOk(s, q) && HandOk(s) && s.hand != [] && InMemory(s.m, s.hand)
    requires WasPut(s.m, m', s.queues[q], s.layout[q], s.hand)
    ensures HomeOk(AfterPut(s, m', q))
  {
    hide IsQueue, Disjoint, QueueIds, ValidQueue;
    var t := s.queues[q].terminator;
    var ids := [t] + s.hand[1..];
    forall d | 0 <= d < |s.m|
      ensures m'[d].buf.data == DataAfter(s.m, t, s.hand, d)
    {
      if d == t {
        assert View(m', ids)[0] == PutBuf(View(s.m, s.hand)[0], View(s.m, s.hand)[0]);
      } else if d in s.hand && d != s.hand[0] {
        var i :| 0 <= i < |s.hand| && s.hand[i] == d;
        assert ids[i] == d && View(m', ids)[i] == PutBuf(View(s.m, s.hand)[0], View(s.m, s.hand)[i]);
      }
    }
    MovedHome(s, AfterPut(s, m', q), t);
  }

  /** The data of a descriptor after the first one of `p` gave its data to `t`. */
  function DataAfter(m: Memory, t: int, p: seq<int>, d: int): Data
    requires 0 <= d < |m| && p != [] && InMemory(m, p)
  {
    if d == t then m[p[0]].buf.data else if d == p[0] then NoData else m[d].buf.data
  }

  lemma MovedHome(s: Pool, s': Pool, t: int)
    requires HomeOk(s) && s.hand != [] && InMemory(s.m, s.hand) && |s'.m| == |s.m|
    requires 0 <= t < |s.m| && t != s.hand[0] && s.m[t].buf.data == NoData
    requires forall d :: 0 <= d < |s.m| ==> s'.m[d].buf.data == DataAfter(s.m, t, s.hand, d)
    requires s'.home == Rehomed(s, t)
    ensures HomeOk(s')
  {
  }

  /** dma_reclaim on the pool: the buffers in the hand become free entries of the queue. */
  lemma ReclaimPool(s: Pool, m': Memory, q: QueueId)
    requires PoolOk(s) && s.hand != [] && q in s.queues && InMemory(s.m, s.hand)
    requires QueueOk(s, q) && Reclaimed(s.m, m', s.queues[q], s.layout[q], s.hand)
    ensures var s' := AfterReclaim(s, m', q);
            PoolOk(s') && OthersSame(s, s', q) && QueueOk(s', q)
  {
    hide IsQueue, Disjoint, QueueIds, ValidQueue, QueueOk, HomeOk, OthersSame, Singles;
    var s' := AfterReclaim(s, m', q);
    ReclaimQueue(s, m', q);
    ReclaimHome(s, m', q);
    OthersKept(s, s', q);
  }

  lemma ReclaimQueue(s: Pool, m': Memory, q: QueueId)
    requires QueueOk(s, q) && HandOk(s) && s.hand != [] && s.layout.Keys == s.queues.Keys && InMemory(s.m, s.hand)
    requires Reclaimed(s.m, m', s.queues[q], s.layout[q], s.hand)
    ensures var s' := AfterReclaim(s, m', q); QueueOk(s', q) && HandOk(s') && Local(s, s', q)
  {
    hide IsQueue, Disjoint, QueueIds, Singles, IsPacket;
    var s' := AfterReclaim(s, m', q);
    var t := s.queues[q].terminator;
    assert s.place[s.hand[0]] == Hand && t in Spine(s, q);
    assert Spine(s', q) == Spine(s, q) + Ids(s.hand);
    ReclaimLocal(s, m', q);
  }

  lemma ReclaimLocal(s: Pool, m': Memory, q: QueueId)
    requires QueueOk(s, q) && HandOk(s) && s.hand != [] && s.layout.Keys == s.queues.Keys && InMemory(s.m, s.hand)
    requires Reclaimed(s.m, m', s.queues[q], s.layout[q], s.hand)
    ensures Local(s, AfterReclaim(s, m', q), q)
  {
    hide IsQueue, Disjoint, QueueIds, Singles, ValidQueue, IsPacket;
    assert s.queues[q].terminator in Spine(s, q);
  }

  lemma ReclaimHome(s: Pool, m': Memory, q: QueueId)
    requires HomeOk(s) && QueueOk(s, q) && HandOk(s) && s.hand != [] && InMemory(s.m, s.hand)
    requires Reclaimed(s.m, m', s.queues[q], s.layout[q], s.hand)
    ensures HomeOk(AfterReclaim(s, m', q))
  {
    hide IsQueue, Disjoint, QueueIds, ValidQueue, Singles;
    var t := s.queues[q].terminator;
    var ids := [t] + s.hand[1..];
    forall d | 0 <= d < |s.m|
      ensures m'[d].buf.data == DataAfter(s.m, t, s.hand, d)
    {
      if d == t {
        assert m'[ids[0]].buf == FreeBuf(s.m[s.hand[0]].buf);
      } else if d in s.hand && d != s.hand[0] {
        var i :| 0 <= i < |s.hand| && s.hand[i] == d;
        assert ids[i] == d && m'[ids[i]].buf == FreeBuf(s.m[s.hand[i]].buf);
      }
    }
    MovedHome(s, AfterReclaim(s, m', q), t);
  }

  // ----- the effect on the contents: a queue of packets -----

  ghost predicate HasContents(s: Pool, q: QueueId, c: seq<Packet>)
  {
    && q in s.layout && (forall k :: 0 <= k < |s.layout[q]| ==> InMemory(s.m, s.layout[q][k]))
    && Contents(s, q) == c
  }

  lemma UnlinkContents(s: Pool, m': Memory, q: QueueId, q': Queue)
    requires QueueOk(s, q) && WasUnlinked(s.m, m', s.queues[q], q', s.layout[q])
    requires QueueOk(AfterUnlink(s, m', q, q'), q)
    ensures forall k :: 0 <= k < |s.layout[q]| ==> InMemory(s.m, s.layout[q][k])
    ensures HasContents(AfterUnlink(s, m', q, q'), q, Contents(s, q)[1..])
    ensures View(s.m, s.layout[q][0]) == Contents(s, q)[0]
  {
    hide IsQueue, Disjoint, QueueIds, IsPacket, Spine;
    var ps := s.layout[q];
    var s' := AfterUnlink(s, m', q, q');
    QueueInPool(s, q);
    QueueInPool(s', q);
    QueueHead(s.m, s.queues[q].head, s.queues[q].terminator, ps);
    QueueViewFrame(s.m, m', s.m[ps[0][|ps[0]| - 1]].next, s.queues[q].terminator, ps[1..]);
    assert QueueView(s.m, ps[1..]) == QueueView(s.m, ps)[1..];
  }

  lemma PutContents(s: Pool, m': Memory, q: QueueId)
    requires QueueOk(s, q) && HandOk(s) && s.hand != [] && InMemory(s.m, s.hand)
    requires WasPut(s.m, m', s.queues[q], s.layout[q], s.hand)
    ensures forall k :: 0 <= k < |s.layout[q]| ==> InMemory(s.m, s.layout[q][k])
    ensures HasContents(AfterPut(s, m', q), q, Contents(s, q) + [PutPacket(HandView(s))])
  {
    var ps := s.layout[q];
    var ids := [s.queues[q].terminator] + s.hand[1..];
    QueueInPool(s, q);
    assert forall d :: d in QueueIds(ps) ==> d in Spine(s, q);
    QueueViewFrame(s.m, m', s.queues[q].head, s.queues[q].terminator, ps);
    QueueViewAppend(m', ps, [ids]);
    assert QueueView(m', [ids]) == [View(m', ids)];
  }

  lemma ReclaimContents(s: Pool, m': Memory, q: QueueId)
    requires QueueOk(s, q) && HandOk(s) && s.hand != [] && InMemory(s.m, s.hand)
    requires Reclaimed(s.m, m', s.queues[q], s.layout[q], s.hand)
    ensures forall k :: 0 <= k < |s.layout[q]| ==> InMemory(s.m, s.layout[q][k])
    ensures HasContents(AfterReclaim(s, m', q), q, Contents(s, q) + FreePackets(HandView(s)))
  {
    hide IsQueue, Disjoint, QueueIds, Singles, IsPacket;
    var ps := s.layout[q];
    var ids := [s.queues[q].terminator] + s.hand[1..];
    QueueInPool(s, q);
    assert forall d :: d in QueueIds(ps) ==> d in Spine(s, q);
    QueueViewFrame(s.m, m', s.queues[q].head, s.queues[q].terminator, ps);
    FreedView(s.m, m', ids, s.hand);
    QueueViewAppend(m', ps, Singles(ids));
  }

  lemma FreedView(m: Memory, m': Memory, ids: seq<int>, p: seq<int>)
    requires InMemory(m', ids) && InMemory(m, p) && |ids| == |p|
    requires forall k :: 0 <= k < |ids| ==> m'[ids[k]].buf == FreeBuf(m[p[k]].buf)
    ensures forall k :: 0 <= k < |ids| ==> InMemory(m', Singles(ids)[k])
    ensures QueueView(m', Singles(ids)) == FreePackets(View(m, p))
  {
    hide Singles;
    SinglesAre(ids);
    forall k | 0 <= k < |ids| ensures InMemory(m', Singles(ids)[k]) {
      assert Singles(ids)[k] == [ids[k]];
    }
    forall k | 0 <= k < |ids| ensures QueueView(m', Singles(ids))[k] == FreePackets(View(m, p))[k] {
      assert Singles(ids)[k] == [ids[k]];
    }
  }
}
