// Early datagrams of a session: five slots that a receiver fills before the session has its
// own socket, and the set of sessions that the poller must treat as readable.
module DatagramPool {
  import opened Buffers
  import opened Bytes
  import opened Common

  const SLOTS: nat := 5

  /** What reading a session gives: an unknown session is a hard error, a session with its own
      socket and nothing pending is read from that socket, anything else from the pool. */
  datatype Read = Unknown | RealSocket(socket: int) | Data(bytes: seq<byte>)

  // ----- Slots -----

  function FirstEmpty(q: seq<seq<byte>>): (i: nat)
    ensures i <= |q| && (i < |q| ==> q[i] == []) && forall k :: 0 <= k < i ==> q[k] != []
  {
    if q == [] then 0 else if q[0] == [] then 0 else 1 + FirstEmpty(q[1..])
  }

  function FirstFull(q: seq<seq<byte>>): (i: nat)
    ensures i <= |q| && (i < |q| ==> q[i] != []) && forall k :: 0 <= k < i ==> q[k] == []
  {
    if q == [] then 0 else if q[0] != [] then 0 else 1 + FirstFull(q[1..])
  }

  function Total(q: seq<seq<byte>>): nat {
    if q == [] then 0 else |q[0]| + Total(q[1..])
  }

  function One(b: seq<byte>): multiset<seq<byte>> {
    if b == [] then multiset{} else multiset{b}
  }

  /** The pending datagrams, slot by slot. */
  function Pending(q: seq<seq<byte>>): multiset<seq<byte>> {
    if q == [] then multiset{} else One(q[0]) + Pending(q[1..])
  }

  function Enqueued(q: seq<seq<byte>>, data: seq<byte>): seq<seq<byte>> {
    var i := FirstEmpty(q);
    if i < |q| then q[i := data] else q
  }

  function Taken(n: nat, b: seq<byte>): nat {
    Least(n, |b|)
  }

  /** The slots and the readiness of one session. */
  datatype Pool = Pool(slots: seq<seq<byte>>, ready: bool)

  function ReadBytes(q: seq<seq<byte>>, n: nat): seq<byte> {
    var i := FirstFull(q);
    if i < |q| then q[i][..Taken(n, q[i])] else []
  }

  function AfterRead(p: Pool, n: nat, peek: bool): Pool {
    var i := FirstFull(p.slots);
    if i == |p.slots| then p
    else
      var size := |p.slots[i]|;
      var slots := if peek then p.slots else p.slots[i := Flushed(p.slots[i], Taken(n, p.slots[i]))];
      var ready := if !peek && Taken(n, p.slots[i]) >= size then false else p.ready;
      Pool(slots, ready || Total(slots) > 0)
  }

  lemma {:induction false} NothingPending(q: seq<seq<byte>>)
    ensures Total(q) == 0 <==> FirstFull(q) == |q|
    ensures Total(q) == 0 <==> Pending(q) == multiset{}
  {
    if q != [] {
      NothingPending(q[1..]);
      assert q[0] != [] ==> q[0] in Pending(q);
    }
  }

  lemma {:induction false} TotalUpTo(q: seq<seq<byte>>, i: nat)
    requires i < |q|
    ensures Total(q[..i + 1]) == Total(q[..i]) + |q[i]|
  {
    if i == 0 {
      assert q[..1] == [q[0]];
      assert Total([q[0]]) == |q[0]| + Total([q[0]][1..]);
    } else {
      TotalUpTo(q[1..], i - 1);
      assert q[..i + 1][1..] == q[1..][..i] && q[..i][1..] == q[1..][..i - 1];
    }
  }

  lemma {:induction false} TotalReplaced(q: seq<seq<byte>>, i: nat, b: seq<byte>)
    requires i < |q|
    ensures Total(q[i := b]) == Total(q) - |q[i]| + |b| && Total(q) >= |q[i]|
  {
    if i > 0 {
      TotalReplaced(q[1..], i - 1, b);
      assert q[i := b][1..] == q[1..][i - 1 := b];
    } else {
      assert q[0 := b][1..] == q[1..];
    }
  }

  lemma Exchange(first: multiset<seq<byte>>, a: multiset<seq<byte>>, x: multiset<seq<byte>>, b: multiset<seq<byte>>, y: multiset<seq<byte>>)
    requires a + x == b + y
    ensures first + a + x == first + b + y
  {
    assert first + a + x == first + (a + x);
  }

  lemma {:induction false} SlotReplaced(q: seq<seq<byte>>, i: nat, b: seq<byte>)
    requires i < |q|
    ensures Pending(q[i := b]) + One(q[i]) == Pending(q) + One(b)
  {
    if i > 0 {
      var rest := q[1..];
      SlotReplaced(rest, i - 1, b);
      assert q[i := b][1..] == rest[i - 1 := b];
      assert Pending(q[i := b]) == One(q[0]) + Pending(rest[i - 1 := b]);
      Exchange(One(q[0]), Pending(rest[i - 1 := b]), One(q[i]), Pending(rest), One(b));
    } else {
      assert q[0 := b][1..] == q[1..];
      assert Pending(q[0 := b]) == One(b) + Pending(q[1..]);
    }
  }

  // ----- The objects -----

  class Datagram {
    const rxQueue: array<seq<byte>>
    var socketLeft: Option<int>

    ghost predicate Valid() {
      rxQueue.Length == SLOTS
    }

    constructor ()
      ensures Valid() && fresh(rxQueue) && rxQueue[..] == [[], [], [], [], []] && socketLeft == None
    {
      rxQueue := new seq<byte>[SLOTS](_ => []);
      socketLeft := None;
    }

    method QueueBytes() returns (bytes: nat)
      requires Valid()
      ensures bytes == Total(rxQueue[..])
    {
      bytes := 0;
      for i := 0 to rxQueue.Length
        invariant bytes == Total(rxQueue[..][..i])
      {
        TotalUpTo(rxQueue[..], i);
        if rxQueue[i] != [] {
          bytes := bytes + |rxQueue[i]|;
        }
      }
      assert rxQueue[..][..rxQueue.Length] == rxQueue[..];
    }

    /** Zero also means that no slot was free. */
    method Enqueue(data: seq<byte>) returns (n: nat)
      requires Valid()
      modifies rxQueue
      ensures rxQueue[..] == Enqueued(old(rxQueue[..]), data)
      ensures n == if [] in old(rxQueue[..]) then |data| else 0
    {
      for i := 0 to rxQueue.Length
        invariant rxQueue[..] == old(rxQueue[..])
        invariant forall k :: 0 <= k < i ==> rxQueue[k] != []
      {
        if rxQueue[i] == [] {
          assert FirstEmpty(rxQueue[..]) == i;
          assert old(rxQueue[..])[i] == [];
          rxQueue[i] := rxQueue[i] + data;
          assert [] + data == data;
          assert rxQueue[..] == old(rxQueue[..])[i := data];
          return |data|;
        }
      }
      return 0;
    }
  }

  class DatagramCom {
    var received: map<nat, Datagram>
    var inVirtSet: set<nat>

    constructor ()
      ensures received == map[] && inVirtSet == {}
    {
      received := map[];
      inVirtSet := {};
    }

    ghost function View(fd: nat): Pool
      requires fd in received
      reads this, received[fd].rxQueue
    {
      Pool(received[fd].rxQueue[..], fd in inVirtSet)
    }

    method ReadFromPool(fd: nat, n: nat, peek: bool) returns (r: Read)
      requires fd in received ==> received[fd].Valid()
      modifies this`inVirtSet, if fd in received then {received[fd].rxQueue} else {}
      ensures fd !in received ==> r == Unknown && inVirtSet == old(inVirtSet)
      ensures fd in received ==>
                var p := old(View(fd));
                if received[fd].socketLeft.Some? && Total(p.slots) == 0
                then r == RealSocket(received[fd].socketLeft.value) && View(fd) == p
                else r == Data(ReadBytes(p.slots, n)) && View(fd) == AfterRead(p, n, peek)
      ensures inVirtSet - {fd} == old(inVirtSet) - {fd}
    {
      if fd !in received {
        return Unknown;
      }
      var record := received[fd];
      var q := record.rxQueue;
      ghost var p := View(fd);
      NothingPending(q[..]);
      var bytes := record.QueueBytes();
      if record.socketLeft.Some? && bytes == 0 {
        return RealSocket(record.socketLeft.value);
      }
      if bytes == 0 {
        return Data([]);
      }
      var i := 0;
      while q[i] == []
        invariant 0 <= i < q.Length && forall k :: 0 <= k < i ==> q[k] == []
        decreases q.Length - i
      {
        assert FirstFull(q[..]) != i;
        i := i + 1;
      }
      assert FirstFull(q[..]) == i by {
        assert q[..][i] != [];
      }
      var toCopy := Taken(n, q[i]);
      var size := |q[i]|;
      r := Data(q[i][..toCopy]);
      if !peek {
        q[i] := Flushed(q[i], toCopy);
        assert q[..] == p.slots[i := Flushed(p.slots[i], toCopy)];
        if toCopy >= size {
          inVirtSet := inVirtSet - {fd};
        }
      }
      var left := record.QueueBytes();
      if left > 0 {
        inVirtSet := inVirtSet + {fd};
      }
    }
  }

  // ----- One read -----

  lemma TakeOut(before: multiset<seq<byte>>, after: multiset<seq<byte>>, d: seq<byte>, rest: multiset<seq<byte>>)
    requires after + multiset{d} == before + rest && d in before
    ensures after == before - multiset{d} + rest
  {
    assert after == before + rest - multiset{d};
  }

  lemma {:induction false} FullSlotIsPending(q: seq<seq<byte>>, i: nat)
    requires i < |q| && q[i] != []
    ensures q[i] in Pending(q)
  {
    if i > 0 {
      FullSlotIsPending(q[1..], i - 1);
    }
  }

  /** A read takes a prefix of one datagram, leaves the rest of it to the next read, and
      touches nothing else; afterwards the session is ready exactly when bytes remain. */
  lemma ReadTakesOneDatagram(p: Pool, n: nat)
    requires FirstFull(p.slots) < |p.slots| && n > 0
    ensures var i := FirstFull(p.slots);
            var d := p.slots[i];
            var after := AfterRead(p, n, false);
            && ReadBytes(p.slots, n) + after.slots[i] == d
            && (n >= |d| ==> ReadBytes(p.slots, n) == d)
            && Pending(after.slots) == Pending(p.slots) - multiset{d} + One(if n < |d| then d[n..] else [])
            && (after.ready <==> Total(after.slots) > 0)
  {
    hide FirstFull;
    var i := FirstFull(p.slots);
    var d := p.slots[i];
    var left := Flushed(d, Taken(n, d));
    assert left == (if n < |d| then d[n..] else []) && d[..Taken(n, d)] + left == d;
    hide Flushed;
    FullSlotIsPending(p.slots, i);
    SlotReplaced(p.slots, i, left);
    TakeOut(Pending(p.slots), Pending(p.slots[i := left]), d, One(left));
    TotalReplaced(p.slots, i, left);
    hide Total, Pending, One;
  }

  /** Peeking shows what the next read returns and leaves the slots alone. */
  lemma PeekPredicts(p: Pool, n: nat, m: nat)
    requires n <= m
    ensures AfterRead(p, n, true).slots == p.slots
    ensures var next := ReadBytes(AfterRead(p, n, true).slots, m);
            ReadBytes(p.slots, n) <= next && (ReadBytes(p.slots, m) == next)
  {
  }

  /** After a read, readiness tells whether bytes remain; a read into an empty buffer is the
      exception: it empties the slot, so it lies exactly when that was the last one and the
      session was ready. */
  lemma ReadinessIsExact(p: Pool, n: nat)
    requires FirstFull(p.slots) < |p.slots|
    ensures var after := AfterRead(p, n, false);
            var lastOne := Total(p.slots) == |p.slots[FirstFull(p.slots)]|;
            (after.ready <==> Total(after.slots) > 0) <==> (n > 0 || !lastOne || !p.ready)
  {
    hide FirstFull;
    var i := FirstFull(p.slots);
    var d := p.slots[i];
    TotalReplaced(p.slots, i, Flushed(d, Taken(n, d)));
    hide Total;
  }

  // ----- Runs -----

  datatype Op = Arrive(data: seq<byte>) | Receive(n: nat, peek: bool)

  const Fresh := Pool([[], [], [], [], []], false)

  /** The receiver marks the session readable whether or not there was a free slot. */
  function Step(p: Pool, op: Op): Pool {
    match op
    case Arrive(data) => Pool(Enqueued(p.slots, data), true)
    case Receive(n, peek) => AfterRead(p, n, peek)
  }

  function After(ops: seq<Op>): (p: Pool)
    ensures |p.slots| == SLOTS
    decreases |ops|
  {
    if ops == [] then Fresh else Step(After(ops[..|ops| - 1]), ops[|ops| - 1])
  }

  /** Arrivals that found a free slot. */
  function Accepted(ops: seq<Op>): multiset<seq<byte>>
    decreases |ops|
  {
    if ops == [] then multiset{}
    else
      var n := |ops| - 1;
      var p := After(ops[..n]);
      Accepted(ops[..n])
      + if ops[n].Arrive? && FirstEmpty(p.slots) < SLOTS then multiset{ops[n].data} else multiset{}
  }

  /** What reads that were not peeks handed out. */
  function Returned(ops: seq<Op>): multiset<seq<byte>>
    decreases |ops|
  {
    if ops == [] then multiset{}
    else
      var n := |ops| - 1;
      var p := After(ops[..n]);
      Returned(ops[..n])
      + if ops[n].Receive? && !ops[n].peek && Total(p.slots) > 0 then multiset{ReadBytes(p.slots, ops[n].n)} else multiset{}
  }

  /** No empty datagrams, and reads into buffers that can hold any datagram. */
  predicate Fitting(ops: seq<Op>, limit: nat) {
    forall i :: 0 <= i < |ops| ==>
      match ops[i]
      case Arrive(data) => 0 < |data| <= limit
      case Receive(n, _) => n >= limit
  }

  predicate AllWithin(q: seq<seq<byte>>, limit: nat) {
    forall i :: 0 <= i < |q| ==> |q[i]| <= limit
  }

  lemma ArrivalStep(p: Pool, data: seq<byte>)
    requires data != []
    ensures var q := Enqueued(p.slots, data);
            && Pending(q) == Pending(p.slots) + (if FirstEmpty(p.slots) < |p.slots| then multiset{data} else multiset{})
            && (Total(q) > 0 || p.slots == [])
  {
    var i := FirstEmpty(p.slots);
    if i < |p.slots| {
      SlotReplaced(p.slots, i, data);
      TotalReplaced(p.slots, i, data);
    } else if |p.slots| > 0 {
      assert p.slots[0] != [];
    }
  }

  /** What every run of arrivals and whole reads keeps. */
  predicate Delivered(ops: seq<Op>, p: Pool, limit: nat) {
    && Accepted(ops) == Returned(ops) + Pending(p.slots)
    && AllWithin(p.slots, limit)
    && (p.ready <==> Total(p.slots) > 0)
  }

  lemma ArrivalIsKept(ops: seq<Op>, limit: nat)
    requires ops != [] && ops[|ops| - 1].Arrive? && 0 < |ops[|ops| - 1].data| <= limit
    requires Delivered(ops[..|ops| - 1], After(ops[..|ops| - 1]), limit)
    ensures Delivered(ops, After(ops), limit)
  {
    var before, data := ops[..|ops| - 1], ops[|ops| - 1].data;
    var p := After(before);
    hide Total, Pending, Enqueued, Delivered;
    var taken := if FirstEmpty(p.slots) < SLOTS then multiset{data} else multiset{};
    assert Accepted(ops) == Accepted(before) + taken;
    assert Returned(ops) == Returned(before) + multiset{};
    assert After(ops) == Pool(Enqueued(p.slots, data), true);
    ArrivalMovesIn(ops, before, p, data, taken, limit);
  }

  lemma ArrivalMovesIn(ops: seq<Op>, before: seq<Op>, p: Pool, data: seq<byte>, taken: multiset<seq<byte>>, limit: nat)
    requires 0 < |data| <= limit && Delivered(before, p, limit) && |p.slots| == SLOTS
    requires taken == if FirstEmpty(p.slots) < SLOTS then multiset{data} else multiset{}
    requires Accepted(ops) == Accepted(before) + taken && Returned(ops) == Returned(before) + multiset{}
    ensures Delivered(ops, Pool(Enqueued(p.slots, data), true), limit)
  {
    hide Accepted, Returned, After, Total, Pending, Enqueued, FirstEmpty;
    ArrivalStep(p, data);
    ArrivalFits(p, data, limit);
  }

  lemma ReadIsKept(ops: seq<Op>, limit: nat)
    requires ops != [] && ops[|ops| - 1].Receive? && ops[|ops| - 1].n >= limit > 0
    requires Delivered(ops[..|ops| - 1], After(ops[..|ops| - 1]), limit)
    ensures Delivered(ops, After(ops), limit)
  {
    var before, op := ops[..|ops| - 1], ops[|ops| - 1];
    var p := After(before);
    hide Total, Pending, AfterRead, ReadBytes, Delivered;
    assert Accepted(ops) == Accepted(before) + multiset{};
    var out := if !op.peek && Total(p.slots) > 0 then multiset{ReadBytes(p.slots, op.n)} else multiset{};
    assert Returned(ops) == Returned(before) + out;
    assert After(ops) == AfterRead(p, op.n, op.peek);
    ReadMovesOut(ops, before, p, After(ops), op, out, limit);
  }

  lemma ReadMovesOut(ops: seq<Op>, before: seq<Op>, p: Pool, after: Pool, op: Op, out: multiset<seq<byte>>, limit: nat)
    requires op.Receive? && op.n >= limit > 0 && Delivered(before, p, limit) && after == AfterRead(p, op.n, op.peek)
    requires out == if !op.peek && Total(p.slots) > 0 then multiset{ReadBytes(p.slots, op.n)} else multiset{}
    requires Accepted(ops) == Accepted(before) + multiset{} && Returned(ops) == Returned(before) + out
    ensures Delivered(ops, after, limit)
  {
    hide Accepted, Returned, After, Total, Pending, AfterRead, ReadBytes;
    ReceiveStep(p, op.n, op.peek, limit);
  }

  /** Over every run of arrivals and whole reads, nothing is lost, duplicated or cut: the
      accepted datagrams are those returned and those pending, and the session is marked
      readable exactly while datagrams are pending. */
  lemma {:induction false} EveryDatagramIsDeliveredOnce(ops: seq<Op>, limit: nat)
    requires Fitting(ops, limit) && limit > 0
    ensures Accepted(ops) == Returned(ops) + Pending(After(ops).slots)
    ensures After(ops).ready <==> Total(After(ops).slots) > 0
    ensures Delivered(ops, After(ops), limit)
    decreases |ops|
  {
    if ops == [] {
      FreshIsEmpty();
    } else {
      var n := |ops| - 1;
      EveryDatagramIsDeliveredOnce(ops[..n], limit);
      if ops[n].Arrive? {
        ArrivalIsKept(ops, limit);
      } else {
        ReadIsKept(ops, limit);
      }
      hide After, Accepted, Returned, Pending, Total;
    }
  }

  lemma FreshIsEmpty()
    ensures Total(Fresh.slots) == 0 && Pending(Fresh.slots) == multiset{}
  {
    NothingPending(Fresh.slots);
    assert forall k :: 0 <= k < |Fresh.slots| ==> Fresh.slots[k] == [];
  }

  lemma ArrivalFits(p: Pool, data: seq<byte>, limit: nat)
    requires AllWithin(p.slots, limit) && |data| <= limit
    ensures AllWithin(Enqueued(p.slots, data), limit)
  {
  }

  lemma ReceiveStep(p: Pool, n: nat, peek: bool, limit: nat)
    requires AllWithin(p.slots, limit) && n >= limit > 0 && (p.ready <==> Total(p.slots) > 0)
    ensures var after := AfterRead(p, n, peek);
            && AllWithin(after.slots, limit)
            && (after.ready <==> Total(after.slots) > 0)
            && Pending(p.slots) == (if !peek && Total(p.slots) > 0 then multiset{ReadBytes(p.slots, n)} else multiset{})
               + Pending(after.slots)
  {
    NothingPending(p.slots);
    hide Total, Pending, FirstFull;
    var i := FirstFull(p.slots);
    if i < |p.slots| && !peek {
      ReadTakesOneDatagram(p, n);
      WholeRead(p, n, limit);
    }
  }

  lemma WholeRead(p: Pool, n: nat, limit: nat)
    requires FirstFull(p.slots) < |p.slots| && AllWithin(p.slots, limit) && n >= limit
    ensures var i := FirstFull(p.slots);
            AfterRead(p, n, false).slots == p.slots[i := []] && p.slots[i] in Pending(p.slots) && n >= |p.slots[i]|
            && AllWithin(p.slots[i := []], limit)
  {
    FullSlotIsPending(p.slots, FirstFull(p.slots));
  }

  // ----- Order -----

  /** For each slot, when the datagram pending in it arrived; -1 for an empty slot. */
  function Stamps(ops: seq<Op>): (st: seq<int>)
    ensures |st| == SLOTS
    decreases |ops|
  {
    if ops == [] then [-1, -1, -1, -1, -1]
    else
      var n := |ops| - 1;
      var st, q := Stamps(ops[..n]), After(ops[..n]).slots;
      match ops[n]
      case Arrive(_) => if FirstEmpty(q) < SLOTS then st[FirstEmpty(q) := n] else st
      case Receive(_, peek) => if !peek && FirstFull(q) < SLOTS then st[FirstFull(q) := -1] else st
  }

  /** The arrival at that time went into slot k; what was filled behind it then is what is
      pending there now and came earlier. */
  predicate PlacedAt(ops: seq<Op>, t: nat, k: nat, st: seq<int>)
    requires t < |ops| && k < SLOTS == |st|
  {
    var q := After(ops[..t]).slots;
    FirstEmpty(q) == k && forall j :: k < j < SLOTS ==> (q[j] != [] <==> 0 <= st[j] < t)
  }

  /** The stamp of a slot marks whether it is filled, and names the arrival that filled it. */
  predicate TracedAt(ops: seq<Op>, q: seq<seq<byte>>, st: seq<int>, k: nat)
    requires k < |q| == |st| == SLOTS
  {
    && -1 <= st[k] < |ops|
    && (st[k] >= 0 <==> q[k] != [])
    && (st[k] >= 0 ==> ops[st[k]] == Arrive(q[k]) && PlacedAt(ops, st[k], k, st))
  }

  predicate Traced(ops: seq<Op>, q: seq<seq<byte>>, st: seq<int>)
    requires |q| == |st| == SLOTS
  {
    forall k :: 0 <= k < SLOTS ==> TracedAt(ops, q, st, k)
  }

  lemma PlacedEarlier(ops: seq<Op>, op: Op, t: nat, k: nat, st: seq<int>, st': seq<int>)
    requires t < |ops| && k < SLOTS == |st| == |st'| && PlacedAt(ops, t, k, st)
    requires forall j :: k < j < SLOTS ==> (0 <= st[j] < t <==> 0 <= st'[j] < t)
    ensures PlacedAt(ops + [op], t, k, st')
  {
    assert (ops + [op])[..t] == ops[..t];
    hide After, FirstEmpty;
  }

  /** Filling or emptying a slot leaves the trace of another one, if it does not change what
      was behind that one when it was filled. */
  lemma OtherSlotIsTraced(ops: seq<Op>, op: Op, q: seq<seq<byte>>, st: seq<int>, i: nat, x: seq<byte>, v: int, k: nat)
    requires |q| == |st| == SLOTS && i < SLOTS && k < SLOTS && k != i && TracedAt(ops, q, st, k)
    requires st[k] >= 0 && k < i ==> st[i] < 0 && v == |ops|
    ensures TracedAt(ops + [op], q[i := x], st[i := v], k)
  {
    if st[k] >= 0 {
      PlacedEarlier(ops, op, st[k], k, st, st[i := v]);
    }
    hide PlacedAt;
  }

  lemma NewSlotIsTraced(ops: seq<Op>, data: seq<byte>, q: seq<seq<byte>>, st: seq<int>)
    requires |q| == |st| == SLOTS && Traced(ops, q, st) && q == After(ops).slots && data != [] && FirstEmpty(q) < SLOTS
    ensures var i := FirstEmpty(q); TracedAt(ops + [Arrive(data)], q[i := data], st[i := |ops|], i)
  {
    var i, more := FirstEmpty(q), ops + [Arrive(data)];
    assert more[..|ops|] == ops;
    hide After, FirstEmpty;
    forall j | i < j < SLOTS
      ensures q[j] != [] <==> 0 <= st[i := |ops|][j] < |ops|
    {
      assert TracedAt(ops, q, st, j);
    }
    hide Traced;
    assert PlacedAt(more, |ops|, i, st[i := |ops|]);
    hide PlacedAt;
  }

  lemma ArrivalIsTraced(ops: seq<Op>, data: seq<byte>, q: seq<seq<byte>>, st: seq<int>)
    requires |q| == |st| == SLOTS && Traced(ops, q, st) && q == After(ops).slots && data != [] && FirstEmpty(q) < SLOTS
    ensures var i := FirstEmpty(q); Traced(ops + [Arrive(data)], q[i := data], st[i := |ops|])
  {
    var i := FirstEmpty(q);
    NewSlotIsTraced(ops, data, q, st);
    assert TracedAt(ops, q, st, i) && st[i] < 0;
    hide After, FirstEmpty, TracedAt;
    var more, q', st' := ops + [Arrive(data)], q[i := data], st[i := |ops|];
    forall k | 0 <= k < SLOTS
      ensures TracedAt(more, q', st', k)
    {
      if k != i {
        OtherSlotIsTraced(ops, Arrive(data), q, st, i, data, |ops|, k);
      }
    }
  }

  lemma ReadIsTraced(ops: seq<Op>, n: nat, q: seq<seq<byte>>, st: seq<int>)
    requires |q| == |st| == SLOTS && Traced(ops, q, st) && FirstFull(q) < SLOTS
    ensures var i := FirstFull(q); Traced(ops + [Receive(n, false)], q[i := []], st[i := -1])
  {
    var i := FirstFull(q);
    assert forall k :: 0 <= k < i ==> TracedAt(ops, q, st, k) && q[k] == [];
    var more, q', st' := ops + [Receive(n, false)], q[i := []], st[i := -1];
    assert TracedAt(more, q', st', i);
    hide FirstFull, PlacedAt;
    forall k | 0 <= k < SLOTS && k != i
      ensures TracedAt(more, q', st', k)
    {
      assert TracedAt(ops, q, st, k);
      OtherSlotIsTraced(ops, Receive(n, false), q, st, i, [], -1, k);
    }
    hide TracedAt;
  }

  lemma SkipIsTraced(ops: seq<Op>, op: Op, q: seq<seq<byte>>, st: seq<int>)
    requires |q| == |st| == SLOTS && Traced(ops, q, st)
    ensures Traced(ops + [op], q, st)
  {
    hide After, FirstEmpty;
    forall k | 0 <= k < SLOTS
      ensures TracedAt(ops + [op], q, st, k)
    {
      assert TracedAt(ops, q, st, k);
      if st[k] >= 0 {
        PlacedEarlier(ops, op, st[k], k, st, st);
      }
      hide PlacedAt;
    }
  }

  lemma ReceiveIsTraced(ops: seq<Op>, op: Op, limit: nat)
    requires op.Receive? && op.n >= limit > 0
    requires Traced(ops, After(ops).slots, Stamps(ops)) && Delivered(ops, After(ops), limit)
    ensures Traced(ops + [op], After(ops + [op]).slots, Stamps(ops + [op]))
  {
    var p, st, more := After(ops), Stamps(ops), ops + [op];
    assert more[..|ops|] == ops;
    var i := FirstFull(p.slots);
    assert After(more) == AfterRead(p, op.n, op.peek);
    assert Stamps(more) == if !op.peek && i < SLOTS then st[i := -1] else st;
    hide After, Stamps, FirstFull, Accepted, Returned, Pending, Total;
    if !op.peek && i < SLOTS {
      WholeRead(p, op.n, limit);
      ReadIsTraced(ops, op.n, p.slots, st);
    } else {
      assert AfterRead(p, op.n, op.peek).slots == p.slots;
      SkipIsTraced(ops, op, p.slots, st);
    }
  }

  lemma {:induction false} RunsAreTraced(ops: seq<Op>, limit: nat)
    requires Fitting(ops, limit) && limit > 0
    ensures Traced(ops, After(ops).slots, Stamps(ops))
    decreases |ops|
  {
    if ops != [] {
      var n := |ops| - 1;
      var before, op := ops[..n], ops[n];
      RunsAreTraced(before, limit);
      assert ops == before + [op];
      match op {
        case Arrive(data) =>
          var q, st := After(before).slots, Stamps(before);
          if FirstEmpty(q) < SLOTS {
            ArrivalIsTraced(before, data, q, st);
          } else {
            SkipIsTraced(before, op, q, st);
          }
          hide Traced, FirstEmpty;
        case Receive(_, _) =>
          EveryDatagramIsDeliveredOnce(before, limit);
          hide *;
          ReceiveIsTraced(before, op, limit);
      }
    }
  }

  /** The filled slots stand in the order in which their datagrams arrived. */
  predicate InOrderOfArrival(ops: seq<Op>) {
    var st := Stamps(ops);
    forall i, j :: 0 <= i < j < SLOTS && st[i] >= 0 && st[j] >= 0 ==> st[i] < st[j]
  }

  /** When that datagram arrived, nothing was pending behind the first empty slot. */
  predicate FoundNothingBehind(ops: seq<Op>, t: nat)
    requires t < |ops|
  {
    var q := After(ops[..t]).slots;
    forall j :: FirstEmpty(q) < j < SLOTS ==> q[j] == []
  }

  /** Over every run of arrivals and whole reads: the slots stand in order of arrival if and
      only if each pending datagram, when it arrived, found nothing pending behind the first
      empty slot. */
  lemma OrderIsKeptIff(ops: seq<Op>, limit: nat)
    requires Fitting(ops, limit) && limit > 0
    ensures InOrderOfArrival(ops) <==>
            forall k :: 0 <= k < SLOTS && 0 <= Stamps(ops)[k] < |ops| ==> FoundNothingBehind(ops, Stamps(ops)[k])
  {
    RunsAreTraced(ops, limit);
    var q, st := After(ops).slots, Stamps(ops);
    StampsDiffer(ops, q, st);
    hide Stamps, Fitting;
    if InOrderOfArrival(ops) {
      forall k | 0 <= k < SLOTS && 0 <= st[k] < |ops|
        ensures FoundNothingBehind(ops, st[k])
      {
        FoundNothingBehindIff(ops, q, st, k);
      }
    } else {
      var i, j :| 0 <= i < j < SLOTS && st[i] >= 0 && st[j] >= 0 && st[i] >= st[j];
      FoundNothingBehindIff(ops, q, st, i);
      assert !FoundNothingBehind(ops, st[i]);
    }
    hide After, FirstEmpty, FoundNothingBehind, Traced;
  }

  lemma FoundNothingBehindIff(ops: seq<Op>, q: seq<seq<byte>>, st: seq<int>, k: nat)
    requires |q| == |st| == SLOTS && Traced(ops, q, st) && k < SLOTS && st[k] >= 0
    ensures st[k] < |ops|
    ensures FoundNothingBehind(ops, st[k]) <==> forall j :: k < j < SLOTS && st[j] >= 0 ==> st[k] <= st[j]
  {
    assert TracedAt(ops, q, st, k);
    hide After, FirstEmpty, Traced;
  }

  lemma StampsDiffer(ops: seq<Op>, q: seq<seq<byte>>, st: seq<int>)
    requires |q| == |st| == SLOTS && Traced(ops, q, st)
    ensures forall i, j :: 0 <= i < j < SLOTS && st[i] >= 0 && st[j] >= 0 ==> st[i] != st[j]
  {
    forall i, j | 0 <= i < j < SLOTS && st[i] >= 0 && st[j] >= 0
      ensures st[i] != st[j]
    {
      assert TracedAt(ops, q, st, i) && TracedAt(ops, q, st, j);
      hide PlacedAt;
    }
  }

  /** The next read gives the datagram in the first filled slot, whether or not the slots are
      in order; and that is the one that has waited longest if and only if it found nothing
      pending behind the first empty slot when it arrived. */
  lemma NextReadIsTheOldestIff(ops: seq<Op>, limit: nat, n: nat)
    requires Fitting(ops, limit) && n >= limit > 0
    requires Total(After(ops).slots) > 0
    ensures var q, st := After(ops).slots, Stamps(ops);
            var i := FirstFull(q);
            && i < SLOTS && 0 <= st[i] < |ops| && ops[st[i]] == Arrive(ReadBytes(q, n))
            && ((forall j :: 0 <= j < SLOTS && st[j] >= 0 ==> st[i] <= st[j]) <==> FoundNothingBehind(ops, st[i]))
  {
    var q := After(ops).slots;
    RunsAreTraced(ops, limit);
    EveryDatagramIsDeliveredOnce(ops, limit);
    assert AllWithin(q, limit) by {
      hide After, Accepted, Returned, Pending, Total, AllWithin;
    }
    hide *;
    NothingPending(q);
    WholeFirst(q, n, limit);
    FirstIsTheOldestIff(ops, q, Stamps(ops));
  }

  lemma WholeFirst(q: seq<seq<byte>>, n: nat, limit: nat)
    requires AllWithin(q, limit) && n >= limit && FirstFull(q) < |q|
    ensures ReadBytes(q, n) == q[FirstFull(q)]
  {
    var i := FirstFull(q);
    hide FirstFull;
    assert q[i][..|q[i]|] == q[i];
  }

  lemma EarlierIsEmpty(ops: seq<Op>, q: seq<seq<byte>>, st: seq<int>, j: nat)
    requires |q| == |st| == SLOTS && Traced(ops, q, st) && j < FirstFull(q)
    ensures st[j] < 0
  {
    assert TracedAt(ops, q, st, j);
    hide FirstFull, PlacedAt, Traced;
  }

  lemma FirstIsStamped(ops: seq<Op>, q: seq<seq<byte>>, st: seq<int>)
    requires |q| == |st| == SLOTS && Traced(ops, q, st) && FirstFull(q) < SLOTS
    ensures var i := FirstFull(q); 0 <= st[i] < |ops| && ops[st[i]] == Arrive(q[i])
  {
    assert TracedAt(ops, q, st, FirstFull(q));
    hide FirstFull, PlacedAt, Traced;
  }

  lemma FirstIsTheOldestIff(ops: seq<Op>, q: seq<seq<byte>>, st: seq<int>)
    requires |q| == |st| == SLOTS && Traced(ops, q, st) && FirstFull(q) < SLOTS
    ensures var i := FirstFull(q);
            && 0 <= st[i] < |ops| && ops[st[i]] == Arrive(q[i])
            && ((forall j :: 0 <= j < SLOTS && st[j] >= 0 ==> st[i] <= st[j]) <==> FoundNothingBehind(ops, st[i]))
  {
    var i := FirstFull(q);
    hide *;
    FirstIsStamped(ops, q, st);
    FoundNothingBehindIff(ops, q, st, i);
    forall j | 0 <= j < i
      ensures st[j] < 0
    {
      EarlierIsEmpty(ops, q, st, j);
    }
  }

  /** A run that is not: a datagram that finds the first slot free again overtakes one that
      waits in the second. */
  lemma LateArrivalOvertakes(a: seq<byte>, b: seq<byte>, c: seq<byte>, n: nat)
    requires a != [] && b != [] && c != [] && n >= |a| && n >= |c|
    ensures var ops := [Arrive(a), Arrive(b), Receive(n, false), Arrive(c)];
            ReadBytes(After(ops).slots, n) == c
  {
    var o1, o2, o3 := [Arrive(a)], [Arrive(a), Arrive(b)], [Arrive(a), Arrive(b), Receive(n, false)];
    var ops := [Arrive(a), Arrive(b), Receive(n, false), Arrive(c)];
    assert ops[..3] == o3 && o3[..2] == o2 && o2[..1] == o1 && o1[..0] == [];
    assert After(o1).slots == [a, [], [], [], []];
    assert After(o2).slots == [a, b, [], [], []];
    assert After(o3).slots == [[], b, [], [], []];
    assert After(ops).slots == [c, b, [], [], []];
  }
}
