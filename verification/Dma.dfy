/**
 The AR9170 descriptor queues. A queue is a chain of descriptors that ends in an
 empty one, the terminator; descriptors are named by their index in `dma_mem`.
 */
module Dma {

  type u16 = n: int | 0 <= n < 0x1_0000

  const BLOCK_SIZE: u16 := 320

  /** The OWN bits of `status`. */
  datatype Own = Sw | Hw | Se | Invalid

  datatype Ctrl = Ctrl(txFail: bool, baFail: bool, firstSegment: bool, lastSegment: bool)

  const NO_CTRL := Ctrl(false, false, false, false)

  /** `dataAddr`: a data block, or the place just past the superdescriptor in it. */
  datatype Data = NoData | Block(id: nat, hidden: bool)

  /** The fields of a descriptor that are about its data; `flags` are the bits of `status` besides OWN. */
  datatype Buf = Buf(own: Own, flags: nat, ctrl: Ctrl, dataSize: u16, totalLen: u16, data: Data)

  /** `struct dma_desc` */
  datatype Desc = Desc(buf: Buf, last: int, next: int)

  const NULL: int := -1

  type Memory = seq<Desc>

  type Packet = seq<Buf>

  const EMPTY_BUF := Buf(Sw, 0, NO_CTRL, 0, 0, NoData)

  /** clear_descriptor */
  function Cleared(d: int): Desc { Desc(EMPTY_BUF, d, d) }

  /** What dma_put makes of a buffer of a packet whose first buffer is `first`. */
  function PutBuf(first: Buf, b: Buf): Buf { b.(own := Hw, flags := 0, totalLen := first.totalLen) }

  /** What dma_reclaim makes of a buffer: free, and owned by the hardware. */
  function FreeBuf(b: Buf): Buf { Buf(Hw, 0, NO_CTRL, BLOCK_SIZE, 0, b.data) }

  function PutPacket(p: Packet): (r: Packet)
    requires p != []
    ensures |r| == |p|
  {
    seq(|p|, i requires 0 <= i < |p| => PutBuf(p[0], p[i]))
  }

  function FreePackets(p: Packet): (r: seq<Packet>)
    ensures |r| == |p|
  {
    seq(|p|, i requires 0 <= i < |p| => [FreeBuf(p[i])])
  }

  /** The entries that dma_reclaim makes of single packets, one after the other. */
  function Freed(c: seq<Packet>): (r: seq<Packet>)
    requires forall k {:trigger c[k]} :: 0 <= k < |c| ==> c[k] != []
    ensures |r| == |c|
  {
    FreePackets(seq(|c|, k requires 0 <= k < |c| => c[k][0]))
  }

  /** dma_fix_downqueue: the buffer is the hardware's again, with the sizes the other way round than in FreeBuf. */
  function FixBuf(b: Buf): Buf { Buf(Hw, 0, NO_CTRL, 0, BLOCK_SIZE, b.data) }

  /** The buffers of a packet as entries of their own. */
  function Entries(p: Packet): (r: seq<Packet>)
    ensures |r| == |p|
  {
    seq(|p|, i requires 0 <= i < |p| => [p[i]])
  }

  function Buffers(c: seq<Packet>): nat
  {
    if c == [] then 0 else |c[0]| + Buffers(c[1..])
  }

  lemma {:induction false} BuffersAppend(c: seq<Packet>, d: seq<Packet>)
    ensures Buffers(c + d) == Buffers(c) + Buffers(d)
  {
    if c == [] {
      assert c + d == d;
    } else {
      BuffersAppend(c[1..], d);
      assert (c + d)[1..] == c[1..] + d;
    }
  }

  lemma {:induction false} BuffersEntries(p: Packet)
    ensures Buffers(Entries(p)) == |p|
  {
    if p != [] {
      BuffersEntries(p[1..]);
      assert Entries(p)[1..] == Entries(p[1..]);
    }
  }

  /**
   What the second loop of handle_download_exception makes of the down queue: the first
   buffer of a packet that the hardware does not own is freed, and the loop goes on with
   the buffers behind it, which have become entries of their own.
   */
  function FixedDown(c: seq<Packet>): seq<Packet>
    decreases Buffers(c), |c|
  {
    if c == [] then []
    else if c[0] != [] && c[0][0].own == Sw then
      BuffersEntries(c[0][1..]);
      BuffersAppend(Entries(c[0][1..]), c[1..]);
      [[FixBuf(c[0][0])]] + FixedDown(Entries(c[0][1..]) + c[1..])
    else [c[0]] + FixedDown(c[1..])
  }

  /** Packet `k` with its first buffer freed, and its other buffers as entries of their own. */
  function FixedAt(c: seq<Packet>, k: nat): seq<Packet>
    requires k < |c| && c[k] != []
  {
    c[..k] + [[FixBuf(c[k][0])]] + Entries(c[k][1..]) + c[k + 1..]
  }

  /** One round of the loop. */
  lemma FixedNext(c: seq<Packet>, k: nat)
    requires k < |c| && c[k] != []
    ensures var c' := if c[k][0].own == Sw then FixedAt(c, k) else c;
            && k < |c'| && c[..k] + FixedDown(c[k..]) == c'[..k + 1] + FixedDown(c'[k + 1..])
            && (Buffers(c'[k + 1..]) < Buffers(c[k..]))
  {
    assert c[k..][0] == c[k] && c[k..][1..] == c[k + 1..];
    if c[k][0].own == Sw {
      var c' := FixedAt(c, k);
      assert c'[..k + 1] == c[..k] + [[FixBuf(c[k][0])]];
      assert c'[k + 1..] == Entries(c[k][1..]) + c[k + 1..];
      BuffersEntries(c[k][1..]);
      BuffersAppend(Entries(c[k][1..]), c[k + 1..]);
    } else {
      assert c[..k + 1] == c[..k] + [c[k]];
    }
  }

  // ----- packets and queues in memory -----

  predicate InMemory(m: Memory, ids: seq<int>)
  {
    forall i :: 0 <= i < |ids| ==> 0 <= ids[i] < |m|
  }

  predicate NoDups(ids: seq<int>)
  {
    forall i, j :: 0 <= i < j < |ids| ==> ids[i] != ids[j]
  }

  /** Descriptor `i` of the packet points to the one after it. */
  predicate Linked(m: Memory, p: seq<int>, i: int)
  {
    0 <= i < |p| - 1 && 0 <= p[i] < |m| ==> m[p[i]].next == p[i + 1]
  }

  /** The descriptors `p` are chained, and the first one names the last. */
  ghost predicate IsPacket(m: Memory, p: seq<int>)
  {
    && p != [] && InMemory(m, p) && NoDups(p)
    && (forall i {:trigger Linked(m, p, i)} :: Linked(m, p, i))
    && m[p[0]].last == p[|p| - 1]
  }

  /** The queue from `head` to the terminator `term` consists of the packets `ps`. */
  ghost predicate IsQueue(m: Memory, head: int, term: int, ps: seq<seq<int>>)
    decreases |ps|
  {
    if ps == [] then head == term
    else
      var p := ps[|ps| - 1];
      && IsPacket(m, p) && m[p[|p| - 1]].next == term
      && IsQueue(m, head, p[0], ps[..|ps| - 1])
  }

  /** The descriptors of a packet and of a queue, without the terminator. */
  function Ids(p: seq<int>): set<int> { set d | d in p }

  function QueueIds(ps: seq<seq<int>>): set<int>
  {
    if ps == [] then {} else QueueIds(ps[..|ps| - 1]) + Ids(ps[|ps| - 1])
  }

  /** No descriptor is in two packets. */
  predicate Disjoint(ps: seq<seq<int>>)
  {
    ps != [] ==> Disjoint(ps[..|ps| - 1]) && QueueIds(ps[..|ps| - 1]) !! Ids(ps[|ps| - 1])
  }

  function View(m: Memory, p: seq<int>): (r: Packet)
    requires InMemory(m, p)
    ensures |r| == |p|
  {
    seq(|p|, i requires 0 <= i < |p| => m[p[i]].buf)
  }

  function QueueView(m: Memory, ps: seq<seq<int>>): (r: seq<Packet>)
    requires forall k :: 0 <= k < |ps| ==> InMemory(m, ps[k])
    ensures |r| == |ps|
  {
    seq(|ps|, k requires 0 <= k < |ps| => View(m, ps[k]))
  }

  predicate SameOn(m: Memory, m': Memory, ids: set<int>)
  {
    |m'| == |m| && forall d :: d in ids && 0 <= d < |m| ==> m'[d] == m[d]
  }

  lemma {:induction false} QueueInMemory(m: Memory, head: int, term: int, ps: seq<seq<int>>)
    requires IsQueue(m, head, term, ps)
    ensures forall k :: 0 <= k < |ps| ==> IsPacket(m, ps[k])
    ensures forall d :: d in QueueIds(ps) ==> 0 <= d < |m|
    decreases |ps|
  {
    if ps != [] {
      QueueInMemory(m, head, ps[|ps| - 1][0], ps[..|ps| - 1]);
      forall k | 0 <= k < |ps| ensures IsPacket(m, ps[k]) {
        if k < |ps| - 1 {
          assert IsPacket(m, ps[..|ps| - 1][k]);
        }
      }
    }
  }

  lemma {:induction false} PacketInQueueIds(ps: seq<seq<int>>, k: nat)
    requires k < |ps|
    ensures Ids(ps[k]) <= QueueIds(ps)
    decreases |ps|
  {
    if k < |ps| - 1 {
      PacketInQueueIds(ps[..|ps| - 1], k);
    }
  }

  /** A queue is not affected by writes to other descriptors. */
  lemma {:induction false} QueueFrame(m: Memory, m': Memory, head: int, term: int, ps: seq<seq<int>>)
    requires IsQueue(m, head, term, ps) && SameOn(m, m', QueueIds(ps))
    ensures IsQueue(m', head, term, ps)
    decreases |ps|
  {
    if ps != [] {
      var p := ps[|ps| - 1];
      QueueFrame(m, m', head, p[0], ps[..|ps| - 1]);
      assert forall i :: Linked(m, p, i) ==> Linked(m', p, i);
    }
  }

  lemma QueueViewFrame(m: Memory, m': Memory, head: int, term: int, ps: seq<seq<int>>)
    requires IsQueue(m, head, term, ps) && SameOn(m, m', QueueIds(ps))
    ensures forall k :: 0 <= k < |ps| ==> InMemory(m, ps[k]) && InMemory(m', ps[k])
    ensures QueueView(m', ps) == QueueView(m, ps)
  {
    QueueInMemory(m, head, term, ps);
    forall k | 0 <= k < |ps| ensures InMemory(m', ps[k]) && View(m', ps[k]) == View(m, ps[k]) {
      PacketInQueueIds(ps, k);
      assert IsPacket(m, ps[k]);
    }
  }

  lemma QueueViewAppend(m: Memory, ps: seq<seq<int>>, qs: seq<seq<int>>)
    requires forall k :: 0 <= k < |ps| ==> InMemory(m, ps[k])
    requires forall k :: 0 <= k < |qs| ==> InMemory(m, qs[k])
    ensures forall k :: 0 <= k < |ps + qs| ==> InMemory(m, (ps + qs)[k])
    ensures QueueView(m, ps + qs) == QueueView(m, ps) + QueueView(m, qs)
  {
  }

  /** The first packet starts at the head, and the rest is a queue as well. */
  lemma {:induction false} QueueHead(m: Memory, head: int, term: int, ps: seq<seq<int>>)
    requires IsQueue(m, head, term, ps) && ps != []
    ensures IsPacket(m, ps[0]) && ps[0][0] == head
    ensures IsQueue(m, m[ps[0][|ps[0]| - 1]].next, term, ps[1..])
    decreases |ps|
  {
    var before := ps[..|ps| - 1];
    if before != [] {
      var p := ps[|ps| - 1];
      QueueHead(m, head, p[0], before);
      assert ps[1..][..|ps| - 2] == before[1..] && before[0] == ps[0];
    }
  }

  lemma {:induction false} DisjointHead(ps: seq<seq<int>>)
    requires Disjoint(ps) && ps != []
    ensures Disjoint(ps[1..]) && Ids(ps[0]) !! QueueIds(ps[1..])
    ensures QueueIds(ps) == Ids(ps[0]) + QueueIds(ps[1..])
    decreases |ps|
  {
    var before := ps[..|ps| - 1];
    if before != [] {
      DisjointHead(before);
      assert ps[1..][..|ps| - 2] == before[1..] && before[0] == ps[0];
    } else {
      assert QueueIds(ps) == QueueIds(before) + Ids(ps[0]);
    }
  }

  // ----- the operations -----

  datatype Queue = Queue(head: int, terminator: int)

  /** queue_empty */
  predicate QueueEmpty(q: Queue) { q.head == q.terminator }

  /** The queue `q` holds the packets `ps`, which are apart from each other and from the terminator. */
  ghost predicate ValidQueue(m: Memory, q: Queue, ps: seq<seq<int>>)
  {
    && IsQueue(m, q.head, q.terminator, ps) && Disjoint(ps)
    && 0 <= q.terminator < |m| && q.terminator !in QueueIds(ps)
  }

  lemma EmptyIsEmpty(m: Memory, q: Queue, ps: seq<seq<int>>)
    requires ValidQueue(m, q, ps)
    ensures QueueEmpty(q) <==> ps == []
  {
    if ps != [] {
      QueueHead(m, q.head, q.terminator, ps);
      assert ps[0][0] in Ids(ps[0]);
      PacketInQueueIds(ps, 0);
    }
  }

  /** A packet that was taken out of a queue is closed: its last descriptor points to itself. */
  ghost predicate IsClosed(m: Memory, p: seq<int>)
  {
    IsPacket(m, p) && m[p[|p| - 1]].next == p[|p| - 1] && m[p[|p| - 1]].last == p[|p| - 1]
  }

  /** The effect of dma_unlink_head on the memory of a queue that is not empty. */
  ghost predicate WasUnlinked(m: Memory, m': Memory, q: Queue, q': Queue, ps: seq<seq<int>>)
  {
    && ps != [] && InMemory(m, ps[0]) && IsClosed(m', ps[0]) && ps[0][0] == q.head
    && View(m', ps[0]) == View(m, ps[0])
    && SameOn(m, m', set d | 0 <= d < |m| && d !in Ids(ps[0]))
    && q'.terminator == q.terminator && ValidQueue(m', q', ps[1..])
    && Ids(ps[0]) !! QueueIds(ps[1..]) && QueueIds(ps) == Ids(ps[0]) + QueueIds(ps[1..])
  }

  /**
   dma_unlink_head: takes out exactly the first packet, whose buffers stay as they
   are, and leaves all other descriptors alone.
   */
  method DmaUnlinkHead(mem: array<Desc>, q: Queue, ghost ps: seq<seq<int>>) returns (desc: int, q': Queue)
    requires ValidQueue(mem[..], q, ps)
    modifies mem
    ensures ps == [] ==> desc == NULL && q' == q && mem[..] == old(mem[..])
    ensures ps != [] ==> desc == q.head && WasUnlinked(old(mem[..]), mem[..], q, q', ps)
  {
    EmptyIsEmpty(mem[..], q, ps);
    if QueueEmpty(q) {
      return NULL, q;
    }
    ghost var m := mem[..];
    ghost var p := ps[0];
    QueueHead(m, q.head, q.terminator, ps);
    DisjointHead(ps);
    desc := q.head;
    var last := mem[desc].last;
    assert last == p[|p| - 1] && last in Ids(p);
    q' := q.(head := mem[last].next);
    mem[last] := mem[last].(next := last);
    mem[last] := mem[last].(last := last);
    assert forall i :: 0 <= i < |p| - 1 ==> p[i] != last;
    assert forall i :: Linked(m, p, i) ==> Linked(mem[..], p, i);
    assert View(mem[..], p) == View(m, p);
    QueueFrame(m, mem[..], q'.head, q.terminator, ps[1..]);
  }

  /** Memory after a write to single descriptors, seen from a queue that has none of them. */
  lemma ValidQueueFrame(m: Memory, m': Memory, q: Queue, ps: seq<seq<int>>)
    requires ValidQueue(m, q, ps) && SameOn(m, m', QueueIds(ps))
    ensures ValidQueue(m', q, ps)
  {
    QueueFrame(m, m', q.head, q.terminator, ps);
  }

  /** A further packet that starts at the old terminator. */
  lemma QueueAppend(m: Memory, m': Memory, q: Queue, ps: seq<seq<int>>, p: seq<int>, term: int)
    requires ValidQueue(m, q, ps) && SameOn(m, m', QueueIds(ps))
    requires IsPacket(m', p) && p[0] == q.terminator && m'[p[|p| - 1]].next == term
    requires Ids(p) !! QueueIds(ps)
    requires 0 <= term < |m| && term !in Ids(p) && term !in QueueIds(ps)
    ensures ValidQueue(m', q.(terminator := term), ps + [p])
    ensures QueueIds(ps + [p]) == QueueIds(ps) + Ids(p)
  {
    QueueFrame(m, m', q.head, q.terminator, ps);
    assert (ps + [p])[..|ps|] == ps;
  }

  /** The loop of dma_put: every descriptor of the packet goes to the hardware. */
  method ClaimPacket(mem: array<Desc>, desc: int, ghost p: seq<int>)
    requires IsPacket(mem[..], p) && p[0] == desc
    modifies mem
    ensures forall k :: 0 <= k < |p| ==>
              mem[p[k]] == Desc(PutBuf(old(mem[desc].buf), old(mem[p[k]].buf)), p[|p| - 1], old(mem[p[k]].next))
    ensures SameOn(old(mem[..]), mem[..], set d | 0 <= d < mem.Length && d !in Ids(p))
  {
    ghost var m := mem[..];
    ghost var i := 0;
    var tmpDesc := desc;
    while true
      invariant 0 <= i < |p| && tmpDesc == p[i]
      invariant mem[desc].last == p[|p| - 1] && mem[desc].buf.totalLen == m[desc].buf.totalLen
      invariant forall k :: 0 <= k < i ==>
                  mem[p[k]] == Desc(PutBuf(m[desc].buf, m[p[k]].buf), p[|p| - 1], m[p[k]].next)
      invariant forall k :: i <= k < |p| ==> mem[p[k]] == m[p[k]]
      invariant forall d :: 0 <= d < mem.Length && d !in p ==> mem[d] == m[d]
      decreases |p| - i
    {
      mem[tmpDesc] := mem[tmpDesc].(buf := mem[tmpDesc].buf.(totalLen := mem[desc].buf.totalLen));
      mem[tmpDesc] := mem[tmpDesc].(buf := mem[tmpDesc].buf.(own := Hw, flags := 0));
      mem[tmpDesc] := mem[tmpDesc].(last := mem[desc].last);
      if mem[desc].last == tmpDesc {
        break;
      }
      assert Linked(m, p, i);
      tmpDesc := mem[tmpDesc].next;
      i := i + 1;
    }
    assert i == |p| - 1;
  }

  /** The memory after the swap of the first descriptor and the terminator. */
  lemma SwappedIn(m: Memory, m': Memory, q: Queue, desc: int, ps: seq<seq<int>>, p: seq<int>)
    requires ValidQueue(m, q, ps) && IsPacket(m, p) && p[0] == desc && |m'| == |m|
    requires Ids(p) !! QueueIds(ps) && q.terminator !in Ids(p)
    requires forall k :: 1 <= k < |p| - 1 ==> m'[p[k]].next == m[p[k]].next
    requires |p| > 1 ==> m'[p[|p| - 1]].next == desc
    requires m'[q.terminator].next == if |p| > 1 then m[desc].next else desc
    requires m'[q.terminator].last == if |p| > 1 then p[|p| - 1] else q.terminator
    requires forall d :: 0 <= d < |m| && d !in p && d != q.terminator ==> m'[d] == m[d]
    ensures ValidQueue(m', q.(terminator := desc), ps + [[q.terminator] + p[1..]])
    ensures QueueIds(ps + [[q.terminator] + p[1..]]) == QueueIds(ps) + Ids([q.terminator] + p[1..])
  {
    var p' := [q.terminator] + p[1..];
    forall i ensures Linked(m', p', i) {
      assert Linked(m, p, i);
    }
    QueueAppend(m, m', q, ps, p', desc);
  }

  /** The effect of dma_put on memory. */
  ghost predicate WasPut(m: Memory, m': Memory, q: Queue, ps: seq<seq<int>>, p: seq<int>)
  {
    p != [] && InMemory(m, p) &&
    var ids := [q.terminator] + p[1..];
    && ValidQueue(m', q.(terminator := p[0]), ps + [ids])
    && QueueIds(ps + [ids]) == QueueIds(ps) + Ids(ids)
    && InMemory(m', ids) && View(m', ids) == PutPacket(View(m, p))
    && m'[p[0]] == Cleared(p[0])
    && SameOn(m, m', set d | 0 <= d < |m| && d !in Ids(p) && d != q.terminator)
  }

  /**
   dma_put: appends exactly one packet, with the buffers of `desc` in the same order,
   all owned by the hardware. The contents of the first descriptor move into the old
   terminator, and the first descriptor becomes the new one.
   */
  method DmaPut(mem: array<Desc>, q: Queue, desc: int, ghost ps: seq<seq<int>>, ghost p: seq<int>) returns (q': Queue)
    requires ValidQueue(mem[..], q, ps) && IsPacket(mem[..], p) && p[0] == desc
    requires Ids(p) !! QueueIds(ps) && q.terminator !in Ids(p)
    modifies mem
    ensures q' == q.(terminator := desc) && WasPut(old(mem[..]), mem[..], q, ps, p)
  {
    hide IsQueue, Disjoint, QueueIds;
    ghost var m := mem[..];
    ClaimPacket(mem, desc, p);
    var last := mem[desc].last;
    mem[last] := mem[last].(next := desc);
    if mem[desc].last == desc {
      mem[desc] := mem[desc].(last := q.terminator);
    }
    var tdesc := mem[desc];
    mem[desc] := Cleared(desc);
    tdesc := tdesc.(buf := tdesc.buf.(own := Sw));
    mem[q.terminator] := tdesc;
    mem[q.terminator] := mem[q.terminator].(buf := mem[q.terminator].buf.(own := Hw));
    q' := q.(terminator := desc);

    SwappedIn(m, mem[..], q, desc, ps, p);
    assert View(mem[..], [q.terminator] + p[1..]) == PutPacket(View(m, p));
  }

  /** Every descriptor on its own. */
  function Singles(ids: seq<int>): (r: seq<seq<int>>)
    ensures |r| == |ids|
  {
    if ids == [] then [] else Singles(ids[..|ids| - 1]) + [[ids[|ids| - 1]]]
  }

  lemma {:induction false} SinglesAre(ids: seq<int>)
    ensures forall k :: 0 <= k < |ids| ==> Singles(ids)[k] == [ids[k]]
    decreases |ids|
  {
    if ids != [] {
      SinglesAre(ids[..|ids| - 1]);
    }
  }

  /** The descriptor after number `k` of the chain, or `end`. */
  function NextId(p: seq<int>, k: int, end: int): int { if 0 <= k < |p| - 1 then p[k + 1] else end }

  lemma NextIdTail(p: seq<int>, t: int, k: int, end: int)
    requires p != []
    ensures NextId([t] + p[1..], k, end) == NextId(p, k, end)
  {
  }

  lemma NextIdInside(p: seq<int>, k: int, end: int)
    requires 0 <= k < |p|
    ensures NextId(p, k, end) == if k < |p| - 1 then p[k + 1] else end
  {
  }

  /** Descriptor `k` of the chain stands alone and points on; the last one points to `end`. */
  predicate SingleAt(m: Memory, ids: seq<int>, k: int, end: int)
  {
    0 <= k < |ids| && 0 <= ids[k] < |m| ==> m[ids[k]].last == ids[k] && m[ids[k]].next == NextId(ids, k, end)
  }

  /** The descriptors `ids`, each on its own, continue the queue and lead to `term`. */
  ghost predicate IsSingleChain(m: Memory, q: Queue, ps: seq<seq<int>>, ids: seq<int>, term: int)
  {
    && ids != [] && ids[0] == q.terminator && InMemory(m, ids) && NoDups(ids)
    && (forall k :: 0 <= k < |ids| ==> ids[k] !in QueueIds(ps))
    && (forall k {:trigger SingleAt(m, ids, k, term)} :: SingleAt(m, ids, k, term))
    && 0 <= term < |m| && term !in ids && term !in QueueIds(ps)
  }

  lemma SingleChainPrefix(m: Memory, q: Queue, ps: seq<seq<int>>, ids: seq<int>, term: int)
    requires IsSingleChain(m, q, ps, ids, term) && |ids| > 1
    ensures IsSingleChain(m, q, ps, ids[..|ids| - 1], ids[|ids| - 1])
  {
    var before, x := ids[..|ids| - 1], ids[|ids| - 1];
    forall k ensures SingleAt(m, before, k, x) {
      assert SingleAt(m, ids, k, term);
    }
  }

  /** A chain of single descriptors that starts at the old terminator. */
  lemma {:induction false} SinglesAppend(m: Memory, q: Queue, ps: seq<seq<int>>, ids: seq<int>, term: int)
      returns (all: seq<seq<int>>)
    requires ValidQueue(m, q, ps) && IsSingleChain(m, q, ps, ids, term)
    ensures all == ps + Singles(ids)
    ensures ValidQueue(m, q.(terminator := term), all) && QueueIds(all) == QueueIds(ps) + Ids(ids)
    decreases |ids|
  {
    hide IsQueue, Disjoint, QueueIds, ValidQueue, NextId;
    var before, x := ids[..|ids| - 1], ids[|ids| - 1];
    assert before + [x] == ids;
    all := ps;
    if |ids| > 1 {
      SingleChainPrefix(m, q, ps, ids, term);
      all := SinglesAppend(m, q, ps, before, x);
    } else {
      assert ps == ps + Singles(before);
    }
    assert SingleAt(m, ids, |ids| - 1, term);
    NextIdInside(ids, |ids| - 1, term);
    SinglesStep(m, q.(terminator := x), ps, all, before, x, term);
    all := all + [[x]];
  }

  lemma SinglesStep(m: Memory, q: Queue, ps: seq<seq<int>>, ps': seq<seq<int>>, before: seq<int>, x: int, term: int)
    requires ValidQueue(m, q, ps') && QueueIds(ps') == QueueIds(ps) + Ids(before) && q.terminator == x
    requires m[x].last == x && m[x].next == term
    requires 0 <= term < |m| && term != x && term !in before && term !in QueueIds(ps)
    ensures ValidQueue(m, q.(terminator := term), ps' + [[x]])
    ensures QueueIds(ps' + [[x]]) == QueueIds(ps) + Ids(before + [x])
  {
    assert IsPacket(m, [x]);
    QueueAppend(m, m, q, ps', [x], term);
    assert Ids(before + [x]) == Ids(before) + Ids([x]);
  }

  /** The loop of dma_reclaim: every descriptor of the packet becomes free and stands alone. */
  method FreePacket(mem: array<Desc>, desc: int, ghost p: seq<int>)
    requires IsPacket(mem[..], p) && p[0] == desc
    modifies mem
    ensures forall k :: 0 <= k < |p| ==>
              mem[p[k]] == Desc(FreeBuf(old(mem[p[k]].buf)), p[k], NextId(p, k, desc))
    ensures SameOn(old(mem[..]), mem[..], set d | 0 <= d < mem.Length && d !in Ids(p))
  {
    hide NextId;
    ghost var m := mem[..];
    ghost var i := 0;
    var tmpDesc := desc;
    var last := mem[desc].last;
    while true
      invariant 0 <= i < |p| && tmpDesc == p[i]
      invariant forall k :: 0 <= k < i ==> mem[p[k]] == Desc(FreeBuf(m[p[k]].buf), p[k], NextId(p, k, desc))
      invariant forall k :: i <= k < |p| ==> mem[p[k]] == m[p[k]]
      invariant forall d :: 0 <= d < mem.Length && d !in p ==> mem[d] == m[d]
      decreases |p| - i
    {
      var b := mem[tmpDesc].buf;
      mem[tmpDesc] := mem[tmpDesc].(buf := b.(own := Hw, flags := 0, ctrl := NO_CTRL, totalLen := 0, dataSize := BLOCK_SIZE));
      mem[tmpDesc] := mem[tmpDesc].(last := tmpDesc);
      if tmpDesc == last {
        break;
      }
      NextIdInside(p, i, desc);
      assert Linked(m, p, i);
      tmpDesc := mem[tmpDesc].next;
      i := i + 1;
    }
    assert i == |p| - 1;
    NextIdInside(p, i, desc);
    mem[tmpDesc] := mem[tmpDesc].(next := desc);
  }

  /**
   dma_reclaim: appends the buffers of the packet one by one, in order, each as a free
   entry that belongs to the hardware.
   */
  method DmaReclaim(mem: array<Desc>, q: Queue, desc: int, ghost ps: seq<seq<int>>, ghost p: seq<int>) returns (q': Queue)
    requires ValidQueue(mem[..], q, ps) && IsPacket(mem[..], p) && p[0] == desc
    requires Ids(p) !! QueueIds(ps) && q.terminator !in Ids(p)
    modifies mem
    ensures q' == q.(terminator := desc)
    ensures Reclaimed(old(mem[..]), mem[..], q, ps, p)
  {
    hide NextId, Reclaimed;
    ghost var m := mem[..];
    FreePacket(mem, desc, p);
    ghost var m1 := mem[..];
    mem[desc] := mem[desc].(last := q.terminator);
    var tdesc := mem[desc];
    mem[desc] := Cleared(desc);
    tdesc := tdesc.(buf := tdesc.buf.(own := Sw, flags := 0));
    mem[q.terminator] := tdesc;
    mem[q.terminator] := mem[q.terminator].(buf := mem[q.terminator].buf.(own := Hw));
    q' := q.(terminator := desc);
    assert mem[..] == m1[desc := Cleared(desc)]
                        [q.terminator := Desc(FreeBuf(m[desc].buf), q.terminator, NextId(p, 0, desc))];
    ReclaimedIn(m, m1, mem[..], q, ps, p);
  }

  /** The effect of dma_reclaim on memory. */
  ghost predicate Reclaimed(m: Memory, m': Memory, q: Queue, ps: seq<seq<int>>, p: seq<int>)
  {
    p != [] && InMemory(m, p) &&
    var ids := [q.terminator] + p[1..];
    && ValidQueue(m', q.(terminator := p[0]), ps + Singles(ids))
    && QueueIds(ps + Singles(ids)) == QueueIds(ps) + Ids(ids)
    && InMemory(m', ids)
    && (forall k :: 0 <= k < |ids| ==> m'[ids[k]].buf == FreeBuf(m[p[k]].buf))
    && m'[p[0]] == Cleared(p[0])
    && SameOn(m, m', set d | 0 <= d < |m| && d !in Ids(p) && d != q.terminator)
  }

  lemma ReclaimedIn(m: Memory, m1: Memory, m': Memory, q: Queue, ps: seq<seq<int>>, p: seq<int>)
    requires ValidQueue(m, q, ps) && IsPacket(m, p) && |m1| == |m|
    requires Ids(p) !! QueueIds(ps) && q.terminator !in Ids(p)
    requires forall k :: 0 <= k < |p| ==> m1[p[k]] == Desc(FreeBuf(m[p[k]].buf), p[k], NextId(p, k, p[0]))
    requires SameOn(m, m1, set d | 0 <= d < |m| && d !in Ids(p))
    requires m' == m1[p[0] := Cleared(p[0])]
                     [q.terminator := Desc(FreeBuf(m[p[0]].buf), q.terminator, NextId(p, 0, p[0]))]
    ensures Reclaimed(m, m', q, ps, p)
  {
    hide IsQueue, Disjoint, QueueIds, Singles, NextId;
    SinglesIn(m, m1, m', q, ps, p);
    SinglesView(m, m1, m', q.terminator, p);
  }

  lemma SinglesView(m: Memory, m1: Memory, m': Memory, t: int, p: seq<int>)
    requires p != [] && InMemory(m, p) && NoDups(p) && |m1| == |m| && 0 <= t < |m| && t !in p
    requires forall k :: 0 <= k < |p| ==> m1[p[k]] == Desc(FreeBuf(m[p[k]].buf), p[k], NextId(p, k, p[0]))
    requires m' == m1[p[0] := Cleared(p[0])][t := Desc(FreeBuf(m[p[0]].buf), t, NextId(p, 0, p[0]))]
    ensures InMemory(m', [t] + p[1..])
    ensures forall k :: 0 <= k < |p| ==> m'[([t] + p[1..])[k]].buf == FreeBuf(m[p[k]].buf)
  {
    forall k | 0 <= k < |p| ensures m'[([t] + p[1..])[k]].buf == FreeBuf(m[p[k]].buf) {
      if k > 0 {
        assert ([t] + p[1..])[k] == p[k] && p[k] in p;
      }
    }
  }

  lemma SinglesIn(m: Memory, m1: Memory, m': Memory, q: Queue, ps: seq<seq<int>>, p: seq<int>)
    requires ValidQueue(m, q, ps) && IsPacket(m, p) && |m1| == |m|
    requires Ids(p) !! QueueIds(ps) && q.terminator !in Ids(p)
    requires forall k :: 0 <= k < |p| ==> m1[p[k]] == Desc(FreeBuf(m[p[k]].buf), p[k], NextId(p, k, p[0]))
    requires SameOn(m, m1, set d | 0 <= d < |m| && d !in Ids(p))
    requires m' == m1[p[0] := Cleared(p[0])]
                     [q.terminator := Desc(FreeBuf(m[p[0]].buf), q.terminator, NextId(p, 0, p[0]))]
    ensures var ids := [q.terminator] + p[1..];
            && ValidQueue(m', q.(terminator := p[0]), ps + Singles(ids))
            && QueueIds(ps + Singles(ids)) == QueueIds(ps) + Ids(ids)
  {
    hide IsQueue, Disjoint, QueueIds, NextId, Singles;
    var ids := [q.terminator] + p[1..];
    ValidQueueFrame(m, m', q, ps);
    forall k ensures SingleAt(m', ids, k, p[0]) {
      NextIdTail(p, q.terminator, k, p[0]);
    }
    var all := SinglesAppend(m', q, ps, ids, p[0]);
  }

  // ----- walking along a queue -----

  /** The packet behind packet `k` starts where the last descriptor of that packet points to. */
  lemma {:induction false} QueueNext(m: Memory, head: int, term: int, ps: seq<seq<int>>, k: nat)
    requires IsQueue(m, head, term, ps) && k < |ps|
    ensures IsPacket(m, ps[k]) && 0 <= ps[k][0] < |m| && 0 <= m[ps[k][0]].last < |m|
    ensures k + 1 < |ps| ==> ps[k + 1] != []
    ensures m[m[ps[k][0]].last].next == if k + 1 < |ps| then ps[k + 1][0] else term
    decreases k
  {
    QueueHead(m, head, term, ps);
    var next := m[ps[0][|ps[0]| - 1]].next;
    if k == 0 {
      if |ps| > 1 {
        QueueHead(m, next, term, ps[1..]);
      }
    } else {
      QueueNext(m, next, term, ps[1..], k - 1);
    }
  }
}
