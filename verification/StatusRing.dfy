/**
 The ring of tx statuses: wlan_get_tx_status_buffer and wlan_send_buffered_tx_status.
 */
module StatusRing {

  /** CARL9170_TX_STATUS_NUM, which is also the number of statuses that fit into one message. */
  const STATUS_NUM: nat := 30

  /** `struct carl9170_tx_status` */
  datatype Status = Status(cookie: nat, queue: nat, rix: nat, tries: nat, success: bool)

  const NO_STATUS := Status(0, 0, 0, 0, false)

  /** The statuses that the host got, message after message. */
  function Flatten(messages: seq<seq<Status>>): seq<Status>
  {
    if messages == [] then [] else Flatten(messages[..|messages| - 1]) + messages[|messages| - 1]
  }

  lemma FlattenAppend(messages: seq<seq<Status>>, m: seq<Status>)
    ensures Flatten(messages + [m]) == Flatten(messages) + m
  {
    assert (messages + [m])[..|messages|] == messages;
  }

  /** The slot `i` places after `head`. */
  function Slot(head: nat, i: nat): (r: nat)
    requires head < STATUS_NUM && i <= STATUS_NUM
    ensures r == (head + i) % STATUS_NUM < STATUS_NUM
  {
    if head + i < STATUS_NUM then head + i else head + i - STATUS_NUM
  }

  lemma SlotZero(head: nat)
    requires head < STATUS_NUM
    ensures Slot(head, 0) == head
  {
  }

  /** The `n` entries of the ring from `head` on. */
  function Window(cache: seq<Status>, head: nat, n: nat): (r: seq<Status>)
    requires |cache| == STATUS_NUM && head < STATUS_NUM && n <= STATUS_NUM
    ensures |r| == n
  {
    seq(n, i requires 0 <= i < n => cache[Slot(head, i)])
  }

  /** Entries up to the end of the array come first. */
  lemma WindowSplit(cache: seq<Status>, head: nat, n: nat, len: nat)
    requires |cache| == STATUS_NUM && head < STATUS_NUM && n <= STATUS_NUM && len <= n && head + len <= STATUS_NUM
    ensures Window(cache, head, n) == cache[head..head + len] + Window(cache, Slot(head, len), n - len)
    ensures Slot(Slot(head, len), n - len) == Slot(head, n)
  {
    var after := Window(cache, Slot(head, len), n - len);
    forall i | 0 <= i < n ensures Window(cache, head, n)[i] == (cache[head..head + len] + after)[i] {
      if i >= len {
        assert Slot(Slot(head, len), i - len) == Slot(head, i);
      }
    }
  }

  /** A new entry goes behind the window. */
  lemma WindowAppend(cache: seq<Status>, head: nat, n: nat, s: Status)
    requires |cache| == STATUS_NUM && head < STATUS_NUM && n < STATUS_NUM
    ensures Window(cache[Slot(head, n) := s], head, n + 1) == Window(cache, head, n) + [s]
  {
    var w := Window(cache[Slot(head, n) := s], head, n + 1);
    forall i | 0 <= i < n ensures w[i] == Window(cache, head, n)[i] {
      assert Slot(head, i) != Slot(head, n);
    }
  }

  /** A message with the first `len` entries. */
  lemma SendStep(cache: seq<Status>, head: nat, n: nat, len: nat, messages: seq<seq<Status>>, log: seq<Status>)
    requires |cache| == STATUS_NUM && head < STATUS_NUM && n <= STATUS_NUM && 0 < len <= n && head + len <= STATUS_NUM
    requires log == Flatten(messages) + Window(cache, head, n)
    ensures (head + len) % STATUS_NUM == Slot(head, len) && Slot(Slot(head, len), n - len) == Slot(head, n)
    ensures log == Flatten(messages + [cache[head..head + len]]) + Window(cache, Slot(head, len), n - len)
  {
    hide Window, Flatten;
    var message, rest := cache[head..head + len], Window(cache, Slot(head, len), n - len);
    WindowSplit(cache, head, n, len);
    FlattenAppend(messages, message);
    assert Flatten(messages) + (message + rest) == (Flatten(messages) + message) + rest;
  }

  class Ring {
    const cache: array<Status>
    var head: nat
    var tail: nat
    var pending: nat

    /** History: the messages to the host, and all statuses ever put into the ring. */
    ghost var messages: seq<seq<Status>>
    ghost var log: seq<Status>

    /** The host has got, or will get, every status once and in order. */
    ghost predicate InOrder()
      reads this, cache
    {
      && cache.Length == STATUS_NUM && head < STATUS_NUM && pending <= STATUS_NUM
      && log == Flatten(messages) + Window(cache[..], head, pending)
    }

    ghost predicate Valid()
      reads this, cache
    {
      InOrder() && tail == Slot(head, pending)
    }

    constructor ()
      ensures Valid() && fresh(cache) && log == [] && messages == []
    {
      cache := new Status[STATUS_NUM](_ => NO_STATUS);
      head, tail, pending := 0, 0, 0;
      messages, log := [], [];
    }

    /** wlan_send_buffered_tx_status */
    method SendBuffered()
      requires InOrder()
      modifies this`head, this`pending, this`messages
      ensures InOrder() && pending == 0 && Flatten(messages) == log
      ensures old(InOrder()) && head == Slot(old(head), old(pending)) && old(messages) <= messages
      ensures forall m :: |old(messages)| <= m < |messages| ==> 0 < |messages[m]| <= STATUS_NUM
    {
      hide Window, Flatten, Slot;
      SlotZero(head);
      while pending > 0
        invariant InOrder() && Slot(head, pending) == Slot(old(head), old(pending)) && old(messages) <= messages
        invariant forall m :: |old(messages)| <= m < |messages| ==> 0 < |messages[m]| <= STATUS_NUM
        decreases pending
      {
        var len := if pending < STATUS_NUM then pending else STATUS_NUM;
        len := if len < STATUS_NUM - head then len else STATUS_NUM - head;
        SendStep(cache[..], head, pending, len, messages, log);
        messages := messages + [cache[..][head..head + len]];
        pending := pending - len;
        head := head + len;
        head := head % STATUS_NUM;
      }
      SlotZero(head);
      assert Window(cache[..], head, 0) == [];
    }

    /** wlan_get_tx_status_buffer; the caller fills the entry with `s`. */
    method Add(s: Status)
      requires Valid()
      modifies this, cache
      ensures Valid() && log == old(log) + [s]
      ensures old(messages) <= messages && (old(pending) < STATUS_NUM ==> messages == old(messages))
    {
      hide Window, Flatten;
      var tmp := tail;
      tail := tail + 1;
      tail := tail % STATUS_NUM;
      if pending == STATUS_NUM {
        SendBuffered();
      }
      assert tmp == Slot(head, pending);
      WindowAppend(cache[..], head, pending, s);
      pending := pending + 1;
      cache[tmp] := s;
      log := log + [s];
    }
  }
}
