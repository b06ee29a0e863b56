/**
 The descriptor memory with all its queues, as an object. Its methods are the operations
 of dma.c and the accesses to single descriptors; `shown` is what the queues contain and
 `held` the packet that the caller has taken out.
 */
module DmaHeap {
  import opened Dma
  import opened Pools
  import opened PoolView
  import opened SplitPool

  // ----- dma_init_descriptors -----

  /** The terminators: up, down, tx, retry, rx, the response and the firmware's own descriptor, cab. */
  const INT_TERM: nat := 9
  const FW_TERM: nat := 10

  function TermCount(vifs: nat): nat { 11 + vifs }

  function TermAt(q: QueueId): nat
  {
    match q
    case Up => 0
    case Down => 1
    case Tx(i) => 2 + i
    case Retry => 7
    case Rx => 8
    case Cab(v) => 11 + v
  }

  function QueueSet(vifs: nat): set<QueueId>
  {
    {Up, Down, Retry, Rx} + (set i | 0 <= i < TX_QUEUES :: Tx(i)) + (set v | 0 <= v < vifs :: Cab(v))
  }

  function InitPlace(vifs: nat, d: nat): Place
  {
    if d == INT_TERM then FreeInt else if d == FW_TERM then FreeFw
    else if d == 0 then In(Up) else if d == 1 then In(Down) else if d < 7 then In(Tx(d - 2))
    else if d == 7 then In(Retry) else if d == 8 then In(Rx)
    else if d < TermCount(vifs) then In(Cab(d - 11)) else Unused
  }

  const INT_DESC := Desc(Buf(Sw, 0, NO_CTRL, BLOCK_SIZE, 0, Block(RSP_BLOCK, false)), INT_TERM, INT_TERM)

  /** Memory before its descriptor is set up. */
  const UNUSED_DESC := Desc(EMPTY_BUF, NULL, NULL)

  ghost function Empty(vifs: nat): Shown { map q | q in QueueSet(vifs) :: [] }

  /** What the queues show when the first `i` blocks were added. */
  ghost function Filled(vifs: nat, blocks: nat, i: nat): Shown
    requires i <= blocks
  {
    var t := TxBlocks(blocks);
    if i <= t then Empty(vifs)[Down := FreeBlocks(0, i)][Rx := []]
    else Empty(vifs)[Down := FreeBlocks(0, t)][Rx := FreeBlocks(t, i)]
  }

  lemma FilledNext(vifs: nat, blocks: nat, i: nat)
    requires i < blocks
    ensures Down in Filled(vifs, blocks, i) && Rx in Filled(vifs, blocks, i)
    ensures var q := if i < TxBlocks(blocks) then Down else Rx;
            Filled(vifs, blocks, i + 1) == Filled(vifs, blocks, i)[q := Filled(vifs, blocks, i)[q] + [[FreeBlock(FIRST_DATA_BLOCK + i)]]]
  {
    var t := TxBlocks(blocks);
    if i < t {
      assert FreeBlocks(0, i + 1) == FreeBlocks(0, i) + [[FreeBlock(FIRST_DATA_BLOCK + i)]];
    } else {
      assert FreeBlocks(t, i + 1) == FreeBlocks(t, i) + [[FreeBlock(FIRST_DATA_BLOCK + i)]];
    }
  }

  lemma FilledEnds(vifs: nat, blocks: nat)
    ensures Filled(vifs, blocks, 0) == Empty(vifs) && TxBlocks(blocks) <= blocks
    ensures Filled(vifs, blocks, blocks) ==
            Empty(vifs)[Down := FreeBlocks(0, TxBlocks(blocks))][Rx := FreeBlocks(TxBlocks(blocks), blocks)]
  {
    assert FreeBlocks(0, 0) == [];
    assert Down in QueueSet(vifs) && Rx in QueueSet(vifs);
  }

  /** Descriptors that start as terminators, and the two that are kept aside. */
  ghost predicate Initial(s: Pool, vifs: nat, blocks: nat)
  {
    && |s.m| == |s.place| == TermCount(vifs) + blocks && s.hand == []
    && (forall d {:trigger s.m[d]} :: 0 <= d < |s.m| ==>
          s.m[d] == if d == INT_TERM then INT_DESC else if d < TermCount(vifs) then Cleared(d) else UNUSED_DESC)
    && (forall d {:trigger s.place[d]} :: 0 <= d < |s.m| ==> s.place[d] == InitPlace(vifs, d))
    && s.queues.Keys == s.layout.Keys == QueueSet(vifs) && s.home == map[RSP_BLOCK := INT_TERM]
    && forall q {:trigger s.queues[q]} {:trigger s.layout[q]} :: q in s.queues ==>
         s.queues[q] == Queue(TermAt(q), TermAt(q)) && s.layout[q] == []
  }

  /** The first `i` data blocks are in use, and two descriptors are kept aside. */
  ghost predicate SetUp(s: Pool, vifs: nat, blocks: nat, i: nat)
  {
    && |s.m| == TermCount(vifs) + blocks == |s.place|
    && s.place[INT_TERM] == FreeInt && s.place[FW_TERM] == FreeFw
    && s.m[INT_TERM] == INT_DESC && s.m[FW_TERM] == Cleared(FW_TERM)
    && (forall d {:trigger s.place[d]} :: 0 <= d < |s.m| ==>
          (IsAside(s.place[d]) <==> d == INT_TERM || d == FW_TERM || d >= TermCount(vifs) + i))
    && forall b :: b in s.home ==> b == RSP_BLOCK || FIRST_DATA_BLOCK <= b < FIRST_DATA_BLOCK + i
  }

  lemma InitPlaceIs(vifs: nat, q: QueueId, d: nat)
    requires q in QueueSet(vifs)
    ensures InitPlace(vifs, d) == In(q) <==> d == TermAt(q)
    ensures TermAt(q) < TermCount(vifs) && TermAt(q) != INT_TERM
  {
  }

  lemma InitialQueue(s: Pool, vifs: nat, blocks: nat, q: QueueId)
    requires Initial(s, vifs, blocks) && q in s.queues
    ensures QueueOk(s, q) && HasContents(s, q, [])
  {
    hide QueueSet, InitPlace, TermAt;
    forall d: nat ensures InitPlace(vifs, d) == In(q) <==> d == TermAt(q) {
      InitPlaceIs(vifs, q, d);
    }
    InitPlaceIs(vifs, q, 0);
    assert s.m[TermAt(q)] == Cleared(TermAt(q));
    assert QueueIds([]) == {};
    assert Contents(s, q) == [];
  }

  lemma InitialRest(s: Pool, vifs: nat, blocks: nat)
    requires Initial(s, vifs, blocks)
    ensures HandOk(s) && HomeOk(s) && Holds(s, []) && Placed(s)
  {
    assert s.m[INT_TERM] == INT_DESC;
  }

  /** Empty queues, each with its own terminator. */
  lemma InitialHeap(s: Pool, vifs: nat, blocks: nat)
    requires Initial(s, vifs, blocks)
    ensures HeapOk(s, Empty(vifs), [])
  {
    hide QueueOk, HandOk, HomeOk, HasContents, Placed, InitPlace, TermAt, Initial, QueueSet, Holds;
    InitialRest(s, vifs, blocks);
    assert s.queues.Keys == s.layout.Keys == QueueSet(vifs) by { InitialKeys(s, vifs, blocks); }
    forall q | q in s.queues ensures QueueOk(s, q) && HasContents(s, q, []) {
      InitialQueue(s, vifs, blocks, q);
    }
  }

  lemma InitialAlone(s: Pool, vifs: nat, blocks: nat)
    requires Initial(s, vifs, blocks)
    ensures DownAlone(s)
  {
    hide InitPlace;
    assert Down in s.layout ==> Down in s.queues && s.layout[Down] == [];
  }

  lemma InitialSetUp(s: Pool, vifs: nat, blocks: nat)
    requires Initial(s, vifs, blocks)
    ensures s.place[INT_TERM] == FreeInt && s.place[FW_TERM] == FreeFw
    ensures s.m[INT_TERM] == INT_DESC && s.m[FW_TERM] == Cleared(FW_TERM)
    ensures forall d {:trigger s.place[d]} :: 0 <= d < |s.m| ==> (IsAside(s.place[d]) <==> d == INT_TERM || d == FW_TERM || d >= TermCount(vifs))
  {
  }

  lemma InitialKeys(s: Pool, vifs: nat, blocks: nat)
    requires Initial(s, vifs, blocks)
    ensures s.queues.Keys == s.layout.Keys == QueueSet(vifs)
  {
  }

  class Heap {
    const mem: array<Desc>
    var queues: map<QueueId, Queue>

    ghost var layout: map<QueueId, seq<seq<int>>>
    ghost var place: seq<Place>
    ghost var hand: seq<int>
    ghost var home: map<nat, int>
    ghost var shown: Shown
    ghost var held: Packet

    /** dma_init_descriptors, for `vifs` interfaces and `blocks` data blocks. */
    constructor (vifs: nat, blocks: nat)
      ensures Valid() && fresh(mem) && mem.Length == TermCount(vifs) + blocks && held == []
      ensures shown == Empty(vifs)[Down := FreeBlocks(0, TxBlocks(blocks))][Rx := FreeBlocks(TxBlocks(blocks), blocks)]
      ensures SetUp(ThePool(), vifs, blocks, blocks)
    {
      hide HeapOk, DownAlone, Filled, QueueSet, TermAt, InitPlace, FreeBlocks, TxBlocks;
      var n := TermCount(vifs);
      mem := new Desc[n + blocks](d => if d == INT_TERM then INT_DESC else if 0 <= d < n then Cleared(d) else UNUSED_DESC);
      queues := map q | q in QueueSet(vifs) :: Queue(TermAt(q), TermAt(q));
      layout := map q | q in QueueSet(vifs) :: [];
      shown := Empty(vifs);
      place := seq(n + blocks, d requires 0 <= d < n + blocks => InitPlace(vifs, d));
      hand, held := [], [];
      home := map[RSP_BLOCK := INT_TERM];
      new;
      assert Initial(ThePool(), vifs, blocks);
      InitialHeap(ThePool(), vifs, blocks);
      InitialAlone(ThePool(), vifs, blocks);
      FilledEnds(vifs, blocks);
      InitialSetUp(ThePool(), vifs, blocks);
      var i := 0;
      hide SetUp, Initial, Empty;
      while i < blocks
        invariant 0 <= i <= blocks && fresh(mem) && Valid() && held == [] && shown == Filled(vifs, blocks, i)
        invariant SetUp(ThePool(), vifs, blocks, i)
      {
        AddNext(vifs, blocks, i);
        i := i + 1;
      }
    }

    /** One round of the loop over the data blocks. */
    method AddNext(vifs: nat, blocks: nat, i: nat)
      requires Valid() && held == [] && i < blocks && shown == Filled(vifs, blocks, i) && SetUp(ThePool(), vifs, blocks, i)
      modifies this, mem
      ensures Valid() && held == [] && shown == Filled(vifs, blocks, i + 1) && SetUp(ThePool(), vifs, blocks, i + 1)
    {
      hide HeapOk, DownAlone, Filled;
      FilledNext(vifs, blocks, i);
      AddBlock(if i < TxBlocks(blocks) then Down else Rx, TermCount(vifs) + i, FIRST_DATA_BLOCK + i);
    }

    /** fill_descriptor and dma_reclaim for one data block. */
    method AddBlock(q: QueueId, d: int, id: nat)
      requires Valid() && held == [] && q in shown && 0 <= d < mem.Length && d < |place| && IsAside(place[d]) && id !in home
      modifies this, mem
      ensures Valid() && held == [] && shown == old(shown)[q := old(shown[q]) + [[FreeBlock(id)]]]
      ensures home.Keys <= old(home).Keys + {id}
      ensures |place| == mem.Length && !IsAside(place[d])
      ensures forall e :: 0 <= e < mem.Length && e != d ==> (IsAside(place[e]) <==> IsAside(old(place)[e]))
      ensures forall e :: 0 <= e < mem.Length && e != d && IsAside(place[e]) ==> place[e] == old(place)[e] && mem[e] == old(mem[e])
    {
      hide HeapOk, DownAlone;
      ghost var s := ThePool();
      Facts();
      Take(d, Desc(FreeBlock(id).(own := Sw), d, NULL));
      ghost var s1 := ThePool();
      Reclaim(q, d);
      Facts();
      forall e | 0 <= e < mem.Length && e != d
        ensures (IsAside(place[e]) <==> IsAside(s.place[e]))
        ensures IsAside(place[e]) ==> place[e] == s.place[e] && mem[e] == s.m[e]
      {
        assert KeptAside(s, s1, e) && KeptAside(s1, ThePool(), e);
      }
      assert KeptAside(s1, ThePool(), d);
      assert FreePackets([FreeBlock(id).(own := Sw)]) == [[FreeBlock(id)]];
    }

    ghost function ThePool(): Pool
      reads this, mem
    {
      Pool(mem[..], queues, layout, place, hand, home)
    }

    ghost predicate Valid()
      reads this, mem
    {
      HeapOk(ThePool(), shown, held) && DownAlone(ThePool())
    }

    lemma Facts()
      requires Valid()
      ensures |hand| == |held| && |place| == mem.Length && shown.Keys == queues.Keys
      ensures hand != [] ==> 0 <= hand[0] < mem.Length && mem[hand[0]].buf == held[0]
    {
      hide QueueOk, HomeOk;
    }

    lemma QueueFacts(q: QueueId)
      requires Valid() && q in shown
      ensures q in queues && q in layout && ValidQueue(mem[..], queues[q], layout[q]) && |layout[q]| == |shown[q]|
      ensures 0 <= queues[q].head < mem.Length && 0 <= queues[q].terminator < mem.Length
      ensures QueueEmpty(queues[q]) <==> shown[q] == []
      ensures shown[q] != [] ==> shown[q][0] != [] && mem[queues[q].head].buf == shown[q][0][0]
      ensures shown[q] != [] ==> layout[q][0] != [] && layout[q][0][0] == queues[q].head && mem[queues[q].head].last == layout[q][0][|layout[q][0]| - 1]
    {
      hide IsQueue, Disjoint, QueueIds, HomeOk, Shows;
      ShowsKeys(ThePool(), shown, q);
      assert QueueOk(ThePool(), q);
      ShownQueue(ThePool(), shown, q);
      EmptyIsEmpty(mem[..], queues[q], layout[q]);
      if shown[q] != [] {
        QueueHead(mem[..], queues[q].head, queues[q].terminator, layout[q]);
        assert shown[q][0] == View(mem[..], layout[q][0]);
      } else {
        assert QueueEmpty(queues[q]);
      }
    }

    /** dma_unlink_head */
    method Unlink(q: QueueId) returns (desc: int)
      requires Valid() && held == [] && q in shown
      modifies this, mem
      ensures Valid() && AsideKept(old(ThePool()), ThePool())
      ensures old(shown[q]) == [] ==> desc == NULL && held == [] && shown == old(shown)
      ensures old(shown[q]) != [] ==> held == old(shown[q][0]) && shown == old(shown)[q := old(shown[q])[1..]]
      ensures old(shown[q]) != [] ==> hand != [] && desc == hand[0] == old(queues[q].head)
      ensures old(shown[q]) != [] ==> old(q in queues && q in layout && layout[q] != []) && q in queues
      ensures old(shown[q]) != [] ==> layout == old(layout)[q := old(layout[q])[1..]] && hand == old(layout[q])[0]
      ensures old(shown[q]) != [] ==> queues[q].terminator == old(queues[q].terminator)
    {
      hide HeapOk, DownAlone, ValidQueue, AsideKept;
      ghost var s := ThePool();
      QueueFacts(q);
      var q';
      desc, q' := DmaUnlinkHead(mem, queues[q], layout[q]);
      if desc == NULL {
        SameAside(s);
        return;
      }
      UnlinkHeap(s, mem[..], q, q', shown);
      UnlinkAlone(s, mem[..], q, q', shown, held);
      queues := queues[q := q'];
      shown, held := shown[q := shown[q][1..]], shown[q][0];
      place, hand := Moved(place, layout[q][0], Hand), layout[q][0];
      layout := layout[q := layout[q][1..]];
      assert ThePool() == AfterUnlink(s, mem[..], q, q');
    }

    /** dma_put */
    method Put(q: QueueId, desc: int)
      requires Valid() && held != [] && hand != [] && desc == hand[0] && q in shown && q != Down
      modifies this, mem
      ensures Valid() && AsideKept(old(ThePool()), ThePool())
      ensures held == [] && shown == old(shown)[q := old(shown[q]) + [PutPacket(old(held))]]
    {
      hide HeapOk, DownAlone, ValidQueue, AsideKept, WasPut, IsPacket;
      ghost var s := ThePool();
      ReadyToQueue(s, q, shown, held);
      PacketFacts(s.m, hand);
      var q' := DmaPut(mem, queues[q], desc, layout[q], hand);
      PutHeap(s, mem[..], q, shown, held);
      PutAlone(s, mem[..], q, shown, held);
      ghost var t := queues[q].terminator;
      queues := queues[q := q'];
      shown, held := shown[q := shown[q] + [PutPacket(held)]], [];
      home := Rehomed(s, t);
      layout := layout[q := layout[q] + [[t] + hand[1..]]];
      place, hand := Moved(place, hand, In(q)), [];
      assert ThePool() == AfterPut(s, mem[..], q);
    }

    /** dma_reclaim */
    method Reclaim(q: QueueId, desc: int)
      requires Valid() && held != [] && hand != [] && desc == hand[0] && q in shown
      modifies this, mem
      ensures Valid() && AsideKept(old(ThePool()), ThePool())
      ensures held == [] && shown == old(shown)[q := old(shown[q]) + FreePackets(old(held))]
      ensures old(q in queues && q in layout) && q in queues && queues[q].terminator == desc
      ensures layout == old(layout)[q := old(layout[q]) + Singles([old(queues[q].terminator)] + old(hand)[1..])]
      ensures place == Moved(old(place), old(hand), In(q))
    {
      hide HeapOk, DownAlone, ValidQueue, AsideKept, Reclaimed, IsPacket, Singles;
      ghost var s := ThePool();
      ReadyToQueue(s, q, shown, held);
      PacketFacts(s.m, hand);
      var q' := DmaReclaim(mem, queues[q], desc, layout[q], hand);
      ReclaimHeap(s, mem[..], q, shown, held);
      ReclaimAlone(s, mem[..], q, shown, held);
      ghost var t := queues[q].terminator;
      queues := queues[q := q'];
      shown, held := shown[q := shown[q] + FreePackets(held)], [];
      home := Rehomed(s, t);
      layout := layout[q := layout[q] + Singles([t] + hand[1..])];
      place, hand := Moved(place, hand, In(q)), [];
      assert ThePool() == AfterReclaim(s, mem[..], q);
    }

    /** Writes the first buffer of the packet in hand. */
    method Write(desc: int, b: Buf)
      requires Valid() && held != [] && hand != [] && desc == hand[0] && SameData(held[0].data, b.data)
      modifies this, mem
      ensures Valid() && AsideKept(old(ThePool()), ThePool())
      ensures held == old(held)[0 := b] && shown == old(shown) && hand == old(hand)
    {
      Facts();
      hide HeapOk, DownAlone, AsideKept, SameData;
      ghost var s := ThePool();
      WriteHandHeap(s, b, shown, held);
      BufferAlone(s, desc, b);
      mem[desc] := mem[desc].(buf := b);
      held := held[0 := b];
      assert ThePool() == s.(m := s.m[desc := s.m[desc].(buf := b)]);
    }

    /** Writes the first buffer of the first packet of a queue. */
    method WriteHead(q: QueueId, b: Buf)
      requires Valid() && q in shown && shown[q] != []
      requires shown[q][0] != [] && SameData(shown[q][0][0].data, b.data)
      modifies this, mem
      ensures Valid() && AsideKept(old(ThePool()), ThePool()) && held == old(held) && hand == old(hand)
      ensures old(shown[q]) != [] && old(shown[q][0]) != []
      ensures shown == old(shown)[q := old(shown[q])[0 := old(shown[q][0])[0 := b]]]
    {
      hide HeapOk, DownAlone, AsideKept, SameData;
      QueueFacts(q);
      HeadDescs(ThePool(), shown, held, q);
      ghost var s := ThePool();
      var d := queues[q].head;
      mem[d] := mem[d].(buf := b);
      ghost var p := shown[q][0][0 := b];
      assert mem[..] == s.m[d := s.m[d].(buf := b)];
      WroteHead(s, mem[..], shown, held, q, b);
      BufferAlone(s, d, b);
      shown := shown[q := shown[q][0 := p]];
      assert ThePool() == s.(m := mem[..]);
    }

    /** Does the queue have a completed packet at its head? */
    method HeadIs(q: QueueId, own: Own) returns (r: bool)
      requires Valid() && q in shown
      ensures shown[q] != [] ==> shown[q][0] != []
      ensures r <==> shown[q] != [] && shown[q][0][0].own == own
    {
      hide HeapOk, DownAlone, ValidQueue;
      QueueFacts(q);
      r := !QueueEmpty(queues[q]) && mem[queues[q].head].buf.own == own;
    }

    /** queue_empty */
    method IsEmpty(q: QueueId) returns (r: bool)
      requires Valid() && q in shown
      ensures r <==> shown[q] == []
    {
      hide HeapOk, DownAlone, ValidQueue;
      QueueFacts(q);
      r := QueueEmpty(queues[q]);
    }

    /** dma_dequeue_not_bits */
    method DequeueNot(q: QueueId, own: Own) returns (desc: int)
      requires Valid() && held == [] && q in shown
      modifies this, mem
      ensures old(shown[q] != [] ==> shown[q][0] != [])
      ensures Valid() && AsideKept(old(ThePool()), ThePool())
      ensures old(shown[q] == [] || shown[q][0][0].own == own) ==> desc == NULL && held == [] && shown == old(shown)
      ensures old(shown[q] != [] && shown[q][0][0].own != own) ==>
                held == old(shown[q][0]) && shown == old(shown)[q := old(shown[q])[1..]] && hand != [] && desc == hand[0] >= 0
    {
      hide HeapOk, DownAlone, ValidQueue, AsideKept;
      QueueFacts(q);
      if mem[queues[q].head].buf.own != own {
        desc := Unlink(q);
      } else {
        SameAside(ThePool());
        desc := NULL;
      }
    }

    /** The single descriptor in hand is kept aside. */
    ghost method Keep(p: Place)
      requires Valid() && |hand| == 1 && IsAside(p)
      modifies this
      ensures Valid() && held == [] && shown == old(shown) && home == old(home)
      ensures OthersAside(old(ThePool()), ThePool(), old(hand[0]))
      ensures 0 <= old(hand[0]) < mem.Length && |place| == mem.Length && place[old(hand[0])] == p && mem[old(hand[0])].last == old(hand[0])
      ensures |old(place)| == mem.Length && !IsAside(old(place)[old(hand[0])]) && old(held) == [mem[old(hand[0])].buf]
    {
      Facts();
      KeepFacts(ThePool(), shown, held);
      hide HeapOk, DownAlone, OthersAside;
      ghost var s := ThePool();
      SetAsideHeap(s, p, shown, held);
      SetAsideAlone(s, p);
      place, hand, held := Moved(place, hand, p), [], [];
      assert ThePool() == SetAside(s, p);
    }

    /** A descriptor that was kept aside is written and becomes the packet in hand. */
    method Take(d: int, x: Desc)
      requires Valid() && held == [] && 0 <= d < mem.Length && d < |place| && IsAside(place[d]) && x.last == d
      requires x.buf.data.Block? && x.buf.data.id in home ==> home[x.buf.data.id] == d
      modifies this, mem
      ensures Valid() && held == [x.buf] && hand == [d] && shown == old(shown)
      ensures OthersAside(old(ThePool()), ThePool(), d) && !IsAside(place[d])
      ensures forall b :: b in home ==> (b in old(home) && old(home)[b] != d) || (x.buf.data.Block? && b == x.buf.data.id)
    {
      Facts();
      hide HeapOk, DownAlone, OthersAside, HomeWith;
      ghost var s := ThePool();
      TakeHeap(s, d, x, shown);
      TakeAlone(s, d, x, shown);
      mem[d] := x;
      place, hand, held, home := place[d := Hand], [d], [x.buf], HomeWith(home, d, x.buf.data);
      assert ThePool() == PoolView.Take(s, d, x);
    }

    /** One round of the loop in handle_download_exception. */
    method RotateOnce()
      requires Valid() && held == [] && Down in shown && shown[Down] != []
      requires |shown[Down][0]| == 1
      modifies this, mem
      ensures Valid() && AsideKept(old(ThePool()), ThePool()) && held == []
      ensures old(|shown[Down]| > 0 && |shown[Down][0]| == 1)
      ensures shown == old(shown)[Down := old(shown[Down])[1..] + [[FreeBuf(old(shown[Down])[0][0])]]]
      ensures old(Down in queues && Down in layout && layout[Down] != [] && |layout[Down][0]| == 1)
      ensures Down in queues && queues[Down].terminator == old(layout[Down])[0][0]
      ensures layout == old(layout)[Down := old(layout[Down])[1..] + [[old(queues[Down].terminator)]]]
    {
      hide HeapOk, DownAlone, AsideKept, ValidQueue;
      ghost var s, p := ThePool(), shown[Down][0];
      var desc := Unlink(Down);
      ghost var s1 := ThePool();
      Facts();
      SinglesAre([queues[Down].terminator]);
      assert [queues[Down].terminator] + hand[1..] == [queues[Down].terminator];
      assert Singles([queues[Down].terminator]) == [[queues[Down].terminator]];
      Reclaim(Down, desc);
      AsideTrans(s, s1, ThePool());
      assert FreePackets(p) == [[FreeBuf(p[0])]];
    }

    /** Does the first loop of handle_download_exception end for the current descriptor `target`? */
    ghost predicate RotationEnds(target: int)
      reads this
    {
      && Down in shown && Down in layout && Down in queues
      && Ends(Line(shown[Down], layout[Down], queues[Down].terminator), target)
    }

    /** Are the free entries of the down queue single descriptors? */
    ghost predicate FreeAreSingle()
      reads this
    {
      Down in shown && forall k :: 0 <= k < |shown[Down]| ==> shown[Down][k] != [] && (shown[Down][k][0].own == Hw ==> |shown[Down][k]| == 1)
    }

    lemma StartRotation(target: int)
      requires Valid() && FreeAreSingle() && RotationEnds(target)
      ensures Rotated(shown[Down], layout[Down], queues[Down].terminator, 0, target, shown[Down], layout[Down], queues[Down].terminator)
    {
      hide HeapOk, DownAlone, Rotated, Ends;
      LayoutSizes(ThePool(), shown[Down], Down, shown, held);
      RotatedStart(shown[Down], layout[Down], queues[Down].terminator, target);
    }

    /**
     The first loop of handle_download_exception, which moves entries from the head of the
     down queue to its end until the hardware's current descriptor `target` is the head. If
     it ends at all, it ends after as many rounds as the queue has entries at most, and the
     buffers are rotated.
     */
    method RotateTo(target: int) returns (n: nat)
      requires Valid() && held == [] && FreeAreSingle() && RotationEnds(target)
      modifies this, mem
      ensures Valid() && AsideKept(old(ThePool()), ThePool()) && held == []
      ensures old(FreeAreSingle()) && n <= old(|shown[Down]|) && Down in shown && Down in queues
      ensures forall k :: 0 <= k < n ==> old(shown[Down])[k][0].own == Hw
      ensures shown == old(shown)[Down := old(shown[Down])[n..] + Freed(old(shown[Down])[..n])]
      ensures shown[Down] != [] && shown[Down][0][0].own == Hw ==> queues[Down].head == target
    {
      hide HeapOk, DownAlone, AsideKept, ValidQueue, Rotated, Ends, InQueue, Freed, FreeAreSingle;
      n := 0;
      ghost var s := ThePool();
      ghost var c, l, t := shown[Down], layout[Down], queues[Down].terminator;
      SameAside(s);
      StartRotation(target);
      while true
        invariant Valid() && held == [] && AsideKept(s, ThePool())
        invariant Down in shown && Down in queues && Down in layout && shown == old(shown)[Down := shown[Down]]
        invariant Rotated(c, l, t, n, target, shown[Down], layout[Down], queues[Down].terminator)
        invariant n <= |c|
        decreases |c| - n
      {
        var hw := HeadIs(Down, Hw);
        if !hw {
          break;
        }
        QueueFacts(Down);
        if queues[Down].head == target {
          break;
        }
        RotatedStep(c, l, t, n, target, shown[Down], layout[Down], queues[Down].terminator);
        ghost var s1 := ThePool();
        RotateOnce();
        AsideTrans(s, s1, ThePool());
        n := n + 1;
      }
      RotatedStop(c, l, t, n, target, shown[Down], layout[Down], queues[Down].terminator);
    }

    /** dma_fix_downqueue, for packet `k` of the down queue, which starts at the descriptor `d`. */
    method FixEntry(d: int, ghost k: nat)
      requires Valid() && held == [] && Down in shown && k < |shown[Down]| && shown[Down][k] != []
      requires Down in layout && k < |layout[Down]| && layout[Down][k] != [] && d == layout[Down][k][0]
      modifies this, mem
      ensures Valid() && AsideKept(old(ThePool()), ThePool()) && held == [] && queues == old(queues)
      ensures old(k < |shown[Down]| && shown[Down][k] != []) && shown == old(shown)[Down := FixedAt(old(shown[Down]), k)]
      ensures Down in layout && k < |layout[Down]| && layout[Down][k] == [d]
    {
      hide HeapOk, DownAlone, AsideKept, SplitAt;
      PacketDescs(ThePool(), shown, held, Down, k);
      ghost var s, c := ThePool(), shown[Down];
      ghost var p := c[k][0 := FixBuf(c[k][0])];
      mem[d] := mem[d].(buf := FixBuf(mem[d].buf));
      FixedBuffer(s, shown, k, d);
      shown := shown[Down := c[k := p]];
      ghost var s1 := ThePool();
      assert s1 == s.(m := mem[..]);
      mem[d] := mem[d].(last := d);
      FixedSplit(s1, shown, k, d);
      shown := shown[Down := SplitPackets(shown[Down], k)];
      layout := layout[Down := SplitAt(layout[Down], k)];
      assert ThePool() == SplitOf(s1, Down, k);
      AsideTrans(s, s1, ThePool());
      FixedIs(c, k);
      SplitFirst(s1.layout[Down], k);
    }

    /** One round of the second loop of handle_download_exception, for packet `k`. */
    method FixRound(desc: int, ghost k: nat) returns (next: int)
      requires Valid() && held == [] && Down in shown && k < |shown[Down]|
      requires Down in queues && Down in layout && desc == StartOf(queues[Down], layout[Down], k)
      modifies this, mem
      ensures Valid() && AsideKept(old(ThePool()), ThePool()) && held == [] && queues == old(queues)
      ensures Down in shown && Down in layout && shown == old(shown)[Down := shown[Down]] && |layout[Down]| == |shown[Down]|
      ensures var c: seq<Packet> := old(shown[Down]);
              && c[k] != [] && shown[Down] == (if c[k][0].own == Sw then FixedAt(c, k) else c)
              && next == StartOf(queues[Down], layout[Down], k + 1)
    {
      hide HeapOk, DownAlone, AsideKept, ValidQueue, FixedAt;
      StartsAt(k);
      if mem[desc].buf.own == Sw {
        FixedSize(shown[Down], k);
        FixEntry(desc, k);
      } else {
        SameAside(ThePool());
      }
      StartsAt(k);
      next := mem[mem[desc].last].next;
    }

    /** The second loop of handle_download_exception. */
    method FixDown()
      requires Valid() && held == [] && Down in shown
      modifies this, mem
      ensures Valid() && AsideKept(old(ThePool()), ThePool()) && held == []
      ensures old(Down in shown) && shown == old(shown)[Down := FixedDown(old(shown[Down]))]
    {
      hide HeapOk, DownAlone, AsideKept, ValidQueue, FixedDown, FixedAt, StartOf;
      ghost var s, k: nat := ThePool(), 0;
      ghost var goal := FixedDown(shown[Down]);
      SameAside(s);
      StartsAt(0);
      assert shown[Down][0..] == shown[Down];
      var desc := queues[Down].head;
      while desc != queues[Down].terminator
        invariant Valid() && held == [] && AsideKept(s, ThePool()) && Down in shown && Down in queues && Down in layout
        invariant shown == old(shown)[Down := shown[Down]] && k <= |shown[Down]|
        invariant desc == StartOf(queues[Down], layout[Down], k)
        invariant goal == shown[Down][..k] + FixedDown(shown[Down][k..])
        decreases Buffers(shown[Down][k..])
      {
        StartsAt(k);
        ghost var s1 := ThePool();
        FixedNext(shown[Down], k);
        desc := FixRound(desc, k);
        AsideTrans(s, s1, ThePool());
        k := k + 1;
      }
      StartsAt(k);
      FixedNothing();
      assert shown[Down][k..] == [] && shown[Down][..k] == shown[Down];
      assert goal == shown[Down];
    }

    lemma StartsAt(k: nat)
      requires Valid() && Down in shown
      ensures Down in queues && Down in layout && |layout[Down]| == |shown[Down]|
      ensures k < |shown[Down]| ==>
                && layout[Down][k] != [] && shown[Down][k] != [] && 0 <= layout[Down][k][0] < mem.Length
                && StartOf(queues[Down], layout[Down], k) != queues[Down].terminator
                && mem[layout[Down][k][0]].buf == shown[Down][k][0] && 0 <= mem[layout[Down][k][0]].last < mem.Length
                && mem[mem[layout[Down][k][0]].last].next == StartOf(queues[Down], layout[Down], k + 1)
      ensures StartOf(queues[Down], layout[Down], 0) == queues[Down].head
      ensures k >= |shown[Down]| ==> StartOf(queues[Down], layout[Down], k) == queues[Down].terminator
    {
      hide IsQueue, Disjoint, QueueIds, HomeOk, Shows, DownAlone;
      ShowsKeys(ThePool(), shown, Down);
      assert QueueOk(ThePool(), Down);
      ShownQueue(ThePool(), shown, Down);
      var q, ps := queues[Down], layout[Down];
      if k < |ps| {
        QueueNext(mem[..], q.head, q.terminator, ps, k);
        PacketInQueueIds(ps, k);
        assert ps[k][0] in Ids(ps[k]);
        assert shown[Down][k] == View(mem[..], ps[k]);
      }
      if ps != [] {
        QueueHead(mem[..], q.head, q.terminator, ps);
      } else {
        EmptyIsEmpty(mem[..], q, ps);
      }
    }

    // ----- what the hardware does -----

    /** Packet `k` of a queue gets other buffers over the same blocks. */
    method HardwareWrite(q: QueueId, k: nat, ids: seq<int>, p: Packet)
      requires Valid() && q in shown && k < |shown[q]| && q in layout && k < |layout[q]| && ids == layout[q][k]
      requires |p| == |shown[q][k]| && forall j :: 0 <= j < |p| ==> SameData(shown[q][k][j].data, p[j].data)
      modifies this, mem
      ensures Valid() && AsideKept(old(ThePool()), ThePool()) && held == old(held) && hand == old(hand)
      ensures old(k < |shown[q]|) && shown == old(shown)[q := old(shown[q])[k := p]] && layout == old(layout)
    {
      PacketDescs(ThePool(), shown, held, q, k);
      hide HeapOk, DownAlone, AsideKept, SameData;
      ghost var s := ThePool();
      forall j | 0 <= j < |ids| {
        mem[ids[j]] := mem[ids[j]].(buf := p[j]);
      }
      assert forall d {:trigger SameLink(s.m, mem[..], d)} :: SameLink(s.m, mem[..], d);
      assert View(mem[..], ids) == p;
      WriteQueueHeap(s, mem[..], shown, held, q, k, p);
      LinksAlone(s, mem[..]);
      shown := shown[q := shown[q][k := p]];
      assert ThePool() == s.(m := mem[..]);
    }

    /** Packet `k` of a queue and the next one become one: `d` is its first and `e` its last descriptor. */
    method HardwareJoin(q: QueueId, k: nat, d: int, e: int)
      requires Valid() && held == [] && q in shown && k + 1 < |shown[q]| && q in layout && k + 1 < |layout[q]|
      requires layout[q][k] != [] && |layout[q][k + 1]| == 1
      requires d == layout[q][k][0] && e == layout[q][k + 1][|layout[q][k + 1]| - 1]
      modifies this, mem
      ensures Valid() && AsideKept(old(ThePool()), ThePool()) && held == []
      ensures old(k + 1 < |shown[q]|) && shown == old(shown)[q := JoinedPackets(old(shown[q]), k)]
      ensures old(k + 1 < |layout[q]|) && layout == old(layout)[q := Joined(old(layout[q]), k)]
    {
      hide HeapOk, DownAlone, AsideKept, JoinedPackets;
      ghost var s := ThePool();
      JoinHeap(s, q, k, shown);
      JoinAlone(s, q, k, shown, held);
      mem[d] := mem[d].(last := e);
      shown := shown[q := JoinedPackets(shown[q], k)];
      layout := layout[q := Joined(layout[q], k)];
      assert ThePool() == JoinPool(s, q, k);
    }

    /** Are `ids` the descriptors of packet `k` of a queue, or of `n` single entries from number `k` on? */
    ghost predicate IdsOf(q: QueueId, k: nat, n: nat, ids: seq<int>)
      reads this
    {
      && q in shown && q in layout && 0 < n && k + n <= |layout[q]| == |shown[q]|
      && (if n == 1 then ids == layout[q][k] else Singly(shown[q], layout[q], k, n, ids))
    }

    /** `n` free single entries of a queue, from number `k` on, become one packet. */
    method HardwareGroup(q: QueueId, k: nat, n: nat, ids: seq<int>)
      requires Valid() && held == [] && q in shown && q in layout && 0 < n && Singly(shown[q], layout[q], k, n, ids)
      modifies this, mem
      ensures Valid() && AsideKept(old(ThePool()), ThePool()) && held == []
      ensures old(Singly(shown[q], layout[q], k, n, ids)) && shown == old(shown)[q := Grouped(old(shown[q]), k, n)]
      ensures layout == old(layout)[q := GroupedIds(old(layout[q]), ids, k, n)]
    {
      hide HeapOk, DownAlone, AsideKept, ValidQueue, Joined, JoinedPackets;
      ghost var c, l := shown[q], layout[q];
      ghost var s := ThePool();
      SameAside(s);
      var i := 1;
      GroupStart(c, l, k, n, ids);
      assert shown == shown[q := c] && layout == layout[q := l];
      while i < n
        invariant 1 <= i <= n && q in shown && q in layout && Valid() && held == [] && AsideKept(s, ThePool())
        invariant shown == old(shown)[q := Grouped(c, k, i)] && layout == old(layout)[q := GroupedIds(l, ids, k, i)]
      {
        GroupNext(c, l, k, n, ids, i);
        ghost var s1 := ThePool();
        HardwareJoin(q, k, ids[0], ids[i]);
        AsideTrans(s, s1, ThePool());
        i := i + 1;
      }
    }
  }

  lemma BufferAlone(s: Pool, d: int, b: Buf)
    requires DownAlone(s) && 0 <= d < |s.m|
    ensures DownAlone(s.(m := s.m[d := s.m[d].(buf := b)]))
  {
    hide DownAlone;
    LinksAlone(s, s.m[d := s.m[d].(buf := b)]);
  }

  lemma SetAsideAlone(s: Pool, p: Place)
    requires DownAlone(s)
    ensures DownAlone(SetAside(s, p))
  {
  }

  lemma SameAside(s: Pool)
    ensures AsideKept(s, s)
  {
  }

  lemma PacketFacts(m: Memory, p: seq<int>)
    requires IsPacket(m, p)
    ensures p != [] && InMemory(m, p)
  {
  }

  lemma KeepFacts(s: Pool, c: Shown, held: Packet)
    requires HeapOk(s, c, held) && |s.hand| == 1
    ensures 0 <= s.hand[0] < |s.m| && s.m[s.hand[0]].last == s.hand[0] && s.hand[0] in s.hand
    ensures |s.place| == |s.m| && s.place[s.hand[0]] == Hand && held == [s.m[s.hand[0]].buf]
  {
    hide QueueOk, HomeOk, Shows;
  }

  lemma HeadDescs(s: Pool, c: Shown, held: Packet, q: QueueId)
    requires HeapOk(s, c, held) && q in c && c[q] != []
    ensures q in s.layout && s.layout[q] != [] && InMemory(s.m, s.layout[q][0]) && View(s.m, s.layout[q][0]) == c[q][0]
    ensures s.layout[q][0] != [] && q in s.queues && s.layout[q][0][0] == s.queues[q].head && NoDups(s.layout[q][0])
  {
    hide IsQueue, Disjoint, QueueIds, HomeOk, Shows;
    ShowsKeys(s, c, q);
    assert QueueOk(s, q);
    ShownQueue(s, c, q);
    QueueHead(s.m, s.queues[q].head, s.queues[q].terminator, s.layout[q]);
  }

  lemma WroteHead(s: Pool, m': Memory, c: Shown, held: Packet, q: QueueId, b: Buf)
    requires HeapOk(s, c, held) && q in c && c[q] != [] && c[q][0] != [] && SameData(c[q][0][0].data, b.data)
    requires q in s.queues && 0 <= s.queues[q].head < |s.m| && m' == s.m[s.queues[q].head := s.m[s.queues[q].head].(buf := b)]
    ensures HeapOk(s.(m := m'), c[q := c[q][0 := c[q][0][0 := b]]], held) && AsideKept(s, s.(m := m'))
  {
    hide HeapOk, DownAlone, AsideKept;
    HeadDescs(s, c, held, q);
    assert View(m', s.layout[q][0]) == c[q][0][0 := b];
    WriteQueueHeap(s, m', c, held, q, 0, c[q][0][0 := b]);
  }

  lemma PacketDescs(s: Pool, c: Shown, held: Packet, q: QueueId, k: nat)
    requires HeapOk(s, c, held) && q in c && k < |c[q]|
    ensures q in s.layout && k < |s.layout[q]| && InMemory(s.m, s.layout[q][k]) && View(s.m, s.layout[q][k]) == c[q][k]
    ensures NoDups(s.layout[q][k]) && s.layout[q][k] != []
  {
    hide IsQueue, Disjoint, QueueIds, HomeOk, Shows;
    ShowsKeys(s, c, q);
    assert QueueOk(s, q);
    ShownQueue(s, c, q);
    QueueInMemory(s.m, s.queues[q].head, s.queues[q].terminator, s.layout[q]);
    assert IsPacket(s.m, s.layout[q][k]);
  }

  lemma AsideTrans(s: Pool, s1: Pool, s2: Pool)
    requires AsideKept(s, s1) && AsideKept(s1, s2)
    ensures AsideKept(s, s2)
  {
    forall d ensures KeptAside(s, s2, d) {
      assert KeptAside(s, s1, d) && KeptAside(s1, s2, d);
    }
  }

  /** The `n` packets from number `k` on have one buffer each, in the descriptors `ids`. */
  ghost predicate Singly(c: seq<Packet>, l: seq<seq<int>>, k: nat, n: nat, ids: seq<int>)
  {
    k + n <= |c| == |l| && |ids| == n && forall j {:trigger c[j]} {:trigger l[j]} :: k <= j < k + n ==> |c[j]| == 1 && l[j] == [ids[j - k]]
  }

  /** The queue after the first `i` of these packets became one. */
  function Grouped(c: seq<Packet>, k: nat, i: nat): seq<Packet>
    requires k + i <= |c| && forall j {:trigger c[j]} :: k <= j < k + i ==> |c[j]| == 1
  {
    c[..k] + [seq(i, j requires 0 <= j < i => c[k + j][0])] + c[k + i..]
  }

  function GroupedIds(l: seq<seq<int>>, ids: seq<int>, k: nat, i: nat): seq<seq<int>>
    requires k + i <= |l| && i <= |ids|
  {
    l[..k] + [ids[..i]] + l[k + i..]
  }

  lemma GroupStart(c: seq<Packet>, l: seq<seq<int>>, k: nat, n: nat, ids: seq<int>)
    requires 0 < n && Singly(c, l, k, n, ids)
    ensures Grouped(c, k, 1) == c && GroupedIds(l, ids, k, 1) == l
  {
    assert |c[k]| == 1 && l[k] == [ids[0]] == ids[..1];
    assert seq(1, j requires 0 <= j < 1 => c[k + j][0]) == c[k];
  }

  lemma GroupNext(c: seq<Packet>, l: seq<seq<int>>, k: nat, n: nat, ids: seq<int>, i: nat)
    requires 0 < i < n && Singly(c, l, k, n, ids)
    ensures k + 1 < |Grouped(c, k, i)| && JoinedPackets(Grouped(c, k, i), k) == Grouped(c, k, i + 1)
    ensures k + 1 < |GroupedIds(l, ids, k, i)| && Joined(GroupedIds(l, ids, k, i), k) == GroupedIds(l, ids, k, i + 1)
    ensures GroupedIds(l, ids, k, i)[k] == ids[..i] && GroupedIds(l, ids, k, i)[k + 1] == [ids[i]]
  {
    var g := Grouped(c, k, i);
    assert g[k + 1] == c[k + i] && |c[k + i]| == 1;
    assert g[k] + g[k + 1] == Grouped(c, k, i + 1)[k];
    assert ids[..i] + [ids[i]] == ids[..i + 1];
  }

  /** Is `d` a descriptor of the packets `l` or the terminator `t`? */
  ghost predicate InQueue(d: int, l: seq<seq<int>>, t: int)
  {
    d == t || exists k :: 0 <= k < |l| && d in l[k]
  }

  /** Where the entries are after `n` rounds: in the old terminator `t` and the first `n - 1` descriptors. */
  function Behind(l: seq<seq<int>>, t: int, n: nat): (r: seq<seq<int>>)
    requires n <= |l| && forall k {:trigger l[k]} :: 0 <= k < n ==> l[k] != []
    ensures |r| == n
  {
    seq(n, k requires 0 <= k < n => if k == 0 then [t] else [l[k - 1][0]])
  }

  lemma LayoutSizes(s: Pool, c: seq<Packet>, q: QueueId, all: Shown, held: Packet)
    requires HeapOk(s, all, held) && q in all && all[q] == c
    ensures q in s.layout && |s.layout[q]| == |c|
    ensures forall k {:trigger s.layout[q][k]} {:trigger c[k]} :: 0 <= k < |c| ==> |s.layout[q][k]| == |c[k]| > 0
  {
    hide HomeOk, Shows, ValidQueue;
    ShowsKeys(s, all, q);
    assert QueueOk(s, q);
    ShownQueue(s, all, q);
    hide HeapOk, DownAlone;
    forall k | 0 <= k < |c| ensures |s.layout[q][k]| == |c[k]| > 0 {
      PacketDescs(s, all, held, q, k);
    }
  }

  /** The down queue after `n` rounds, none of which came to `target`. */
  ghost predicate Rotated(c: seq<Packet>, l: seq<seq<int>>, t: int, n: nat, target: int, c': seq<Packet>, l': seq<seq<int>>, t': int)
  {
    && n <= |c| == |l|
    && (forall k {:trigger c[k]} {:trigger l[k]} :: 0 <= k < |c| ==> |l[k]| == |c[k]| > 0 && (c[k][0].own == Hw ==> |c[k]| == 1))
    && (forall k {:trigger c[k]} {:trigger l[k]} :: 0 <= k < n ==> c[k][0].own == Hw && target !in l[k])
    && c' == c[n..] + Freed(c[..n]) && l' == l[n..] + Behind(l, t, n)
    && t' == (if n == 0 then t else l[n - 1][0])
  }

  lemma RotatedStart(c: seq<Packet>, l: seq<seq<int>>, t: int, target: int)
    requires |c| == |l|
    requires forall k {:trigger c[k]} {:trigger l[k]} :: 0 <= k < |c| ==> |l[k]| == |c[k]| > 0 && (c[k][0].own == Hw ==> |c[k]| == 1)
    ensures Rotated(c, l, t, 0, target, c, l, t)
  {
    assert c[..0] == [] && c[0..] + Freed([]) == c;
    assert l[0..] + Behind(l, t, 0) == l;
  }

  lemma RotatedStep(c: seq<Packet>, l: seq<seq<int>>, t: int, n: nat, target: int, c': seq<Packet>, l': seq<seq<int>>, t': int)
    requires Rotated(c, l, t, n, target, c', l', t') && Ends(Line(c, l, t), target)
    requires c' != [] && l' != [] && c'[0] != [] && c'[0][0].own == Hw && l'[0] != [] && l'[0][0] != target
    ensures n < |c| && |c'[0]| == 1 && |l'[0]| == 1
    ensures Rotated(c, l, t, n + 1, target, c'[1..] + [[FreeBuf(c'[0][0])]], l'[1..] + [[t']], l'[0][0])
  {
    assert l'[0] == if n < |l| then l[n] else [t];
    assert n < |c|;
    assert c'[0] == c[n] && |l[n]| == 1 && l[n] == [l[n][0]];
    assert Freed(c[..n]) + [[FreeBuf(c[n][0])]] == Freed(c[..n + 1]);
    assert Behind(l, t, n) + [[t']] == Behind(l, t, n + 1);
    assert c'[1..] == c[n + 1..] + Freed(c[..n]) && l'[1..] == l[n + 1..] + Behind(l, t, n);
  }

  lemma RotatedStop(c: seq<Packet>, l: seq<seq<int>>, t: int, n: nat, target: int, c': seq<Packet>, l': seq<seq<int>>, t': int)
    requires Rotated(c, l, t, n, target, c', l', t')
    ensures n <= |c| && (forall k {:trigger c[k]} :: 0 <= k < |c| ==> c[k] != [])
    ensures forall k :: 0 <= k < n ==> c[k][0].own == Hw
    ensures c' == c[n..] + Freed(c[..n])
  {
  }

  /** A round moves the descriptors of a queue around and keeps them. */
  lemma RoundKeepsDescriptors(l: seq<seq<int>>, t: int, target: int)
    requires l != [] && |l[0]| == 1
    ensures InQueue(target, l[1..] + [[t]], l[0][0]) <==> InQueue(target, l, t)
  {
    var l' := l[1..] + [[t]];
    forall k | 0 <= k < |l| ensures target in l[k] ==> InQueue(target, l', l[0][0]) {
      assert k > 0 ==> l'[k - 1] == l[k];
    }
    forall k | 0 <= k < |l'| ensures target in l'[k] ==> InQueue(target, l, t) {
      assert l'[k] == if k < |l| - 1 then l[k + 1] else [t];
    }
    assert target == t ==> target in l'[|l'| - 1];
    assert target == l[0][0] ==> target in l[0];
  }

  // ----- the second loop of handle_download_exception -----

  /** Where packet `k` of a queue starts, or the terminator behind the last one. */
  function StartOf(q: Queue, ps: seq<seq<int>>, k: nat): int
  {
    if k < |ps| && ps[k] != [] then ps[k][0] else q.terminator
  }

  lemma FixedIs(c: seq<Packet>, k: nat)
    requires k < |c| && c[k] != []
    ensures SplitPackets(c[k := c[k][0 := FixBuf(c[k][0])]], k) == FixedAt(c, k)
  {
    var p := c[k][0 := FixBuf(c[k][0])];
    assert Entries(p) == [[FixBuf(c[k][0])]] + Entries(c[k][1..]);
    assert c[k := p][..k] == c[..k] && c[k := p][k + 1..] == c[k + 1..];
  }

  lemma FixedSize(c: seq<Packet>, k: nat)
    requires k < |c| && c[k] != []
    ensures k < |FixedAt(c, k)|
  {
  }

  lemma FixedNothing()
    ensures FixedDown([]) == []
  {
  }

  lemma FixedBuffer(s: Pool, c: Shown, k: nat, d: int)
    requires HeapOk(s, c, []) && DownAlone(s) && Down in c && k < |c[Down]| && c[Down][k] != []
    requires Down in s.layout && k < |s.layout[Down]| && s.layout[Down][k] != [] && d == s.layout[Down][k][0]
    ensures 0 <= d < |s.m|
    ensures var s' := s.(m := s.m[d := s.m[d].(buf := FixBuf(s.m[d].buf))]);
            var p := c[Down][k][0 := FixBuf(c[Down][k][0])];
            HeapOk(s', c[Down := c[Down][k := p]], []) && DownAlone(s') && AsideKept(s, s')
  {
    hide HeapOk, DownAlone, AsideKept;
    PacketDescs(s, c, [], Down, k);
    var ids, p := s.layout[Down][k], c[Down][k][0 := FixBuf(c[Down][k][0])];
    var m' := s.m[d := s.m[d].(buf := FixBuf(s.m[d].buf))];
    assert View(s.m, ids)[0] == s.m[d].buf;
    assert View(m', ids) == p;
    WriteQueueHeap(s, m', c, [], Down, k, p);
    BufferAlone(s, d, FixBuf(s.m[d].buf));
  }

  lemma FixedSplit(s: Pool, c: Shown, k: nat, d: int)
    requires HeapOk(s, c, []) && DownAlone(s) && Down in c && k < |c[Down]|
    requires Down in s.layout && k < |s.layout[Down]| && s.layout[Down][k] != [] && d == s.layout[Down][k][0]
    ensures 0 <= d < |s.m| && SplitOf(s, Down, k).m == s.m[d := s.m[d].(last := d)]
    ensures HeapOk(SplitOf(s, Down, k), c[Down := SplitPackets(c[Down], k)], [])
    ensures DownAlone(SplitOf(s, Down, k)) && AsideKept(s, SplitOf(s, Down, k))
  {
    hide HeapOk, AsideKept, Alone, SplitAt, SplitPackets;
    LayoutSizes(s, c[Down], Down, c, []);
    AloneOf(s.m, s.layout[Down], k);
    SplitHeap(s, Down, k, c);
    SplitAlone(s.m, s.layout[Down], k);
  }

  // ----- when the rotation ends -----

  /** A queue: its packets, their descriptors and the terminator. */
  datatype Line = Line(c: seq<Packet>, l: seq<seq<int>>, t: int)

  /** Packets have a descriptor for every buffer, and free entries are single ones. */
  ghost predicate WellFormed(s: Line)
  {
    |s.c| == |s.l| && forall k {:trigger s.c[k]} {:trigger s.l[k]} :: 0 <= k < |s.c| ==>
      |s.l[k]| == |s.c[k]| > 0 && (s.c[k][0].own == Hw ==> |s.c[k]| == 1)
  }

  /** The queue is empty, or it has an entry that is not free, or `target` is one of its descriptors or its terminator. */
  ghost predicate Ends(s: Line, target: int)
  {
    s.c == [] || (exists k :: 0 <= k < |s.c| && s.c[k] != [] && s.c[k][0].own != Hw) || InQueue(target, s.l, s.t)
  }

  /** The guard of the loop. */
  predicate GoesOn(s: Line, target: int)
  {
    s.c != [] && s.l != [] && s.c[0] != [] && s.l[0] != [] && s.c[0][0].own == Hw && s.l[0][0] != target
  }

  /** The body of the loop, as in RotateOnce. */
  function Round(s: Line, target: int): Line
    requires GoesOn(s, target)
  {
    Line(s.c[1..] + [[FreeBuf(s.c[0][0])]], s.l[1..] + [[s.t]], s.l[0][0])
  }

  /** The loop makes more than `n` rounds. */
  predicate GoesOnFor(s: Line, target: int, n: nat)
    decreases n
  {
    GoesOn(s, target) && (n > 0 ==> GoesOnFor(Round(s, target), target, n - 1))
  }

  lemma {:induction false} EndsWithin(s: Line, target: int, n: nat, s': Line)
    requires Ends(s, target) && Rotated(s.c, s.l, s.t, n, target, s'.c, s'.l, s'.t)
    ensures n <= |s.c| && !GoesOnFor(s', target, |s.c| - n)
    decreases |s.c| - n
  {
    RotatedStop(s.c, s.l, s.t, n, target, s'.c, s'.l, s'.t);
    if GoesOn(s', target) {
      RotatedStep(s.c, s.l, s.t, n, target, s'.c, s'.l, s'.t);
      EndsWithin(s, target, n + 1, Round(s', target));
    }
  }

  lemma {:induction false} NeverEnds(s: Line, target: int, n: nat)
    requires WellFormed(s) && !Ends(s, target)
    ensures GoesOnFor(s, target, n)
    decreases n
  {
    assert s.c[0] != [] && s.c[0][0].own == Hw;
    assert s.l[0][0] in s.l[0];
    if n > 0 {
      var s' := Round(s, target);
      forall k | 0 <= k < |s'.c| ensures |s'.l[k]| == |s'.c[k]| == 1 && s'.c[k][0].own == Hw {
        assert k < |s.c| - 1 ==> s'.c[k] == s.c[k + 1] && s'.l[k] == s.l[k + 1] && s.c[k + 1] != [] && s.c[k + 1][0].own == Hw;
      }
      RoundKeepsDescriptors(s.l, s.t, target);
      NeverEnds(s', target, n - 1);
    }
  }

  /** The loop ends exactly when the queue is empty, has an entry that is not free, or contains `target`. */
  lemma RotationEndsIff(s: Line, target: int)
    requires WellFormed(s)
    ensures (exists n: nat :: !GoesOnFor(s, target, n)) <==> Ends(s, target)
  {
    hide GoesOnFor;
    if Ends(s, target) {
      RotatedStart(s.c, s.l, s.t, target);
      EndsWithin(s, target, 0, s);
    } else {
      forall n: nat ensures GoesOnFor(s, target, n) {
        NeverEnds(s, target, n);
      }
    }
  }

  /** One free entry, and a current descriptor that belongs to another queue. */
  lemma RotatesForever(n: nat)
    ensures GoesOnFor(Line([[FreeBlock(FIRST_DATA_BLOCK)]], [[TermCount(1)]], TermAt(Down)), TermAt(Rx), n)
  {
    NeverEnds(Line([[FreeBlock(FIRST_DATA_BLOCK)]], [[TermCount(1)]], TermAt(Down)), TermAt(Rx), n);
  }
}
