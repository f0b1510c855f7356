// The socket queue shared by the acceptor and the workers, and the hint bytes that wake the
// workers up. Pushing and popping each take several steps, and only the parts under the queue
// lock, single pipe operations and single accesses to an atomic happen at once; the model is a
// system whose runs are all the interleavings of those steps.
module FdQueue {
  import opened Common

  type WorkerId = nat
  type Thread = nat

  /** A worker's entry in the map of hint pairs. An entry without a pipe comes from a failed
      socketpair call or from a pop by a worker that was never registered. */
  datatype Pipe = Pipe(open: bool, load: nat)

  /** Inside a round of the hinting loop: about to write, about to look at the feedback flag,
      or about to clear it. */
  datatype Phase = Writing | Looking | Clearing

  /** Where a thread is inside push_all: after the locked part, walking over the entries with
      the loads it has seen so far; or in the hinting loop with all the loads it saw, the
      candidates ordered by them, and the loop's own counter. The outcome of each write so far
      and the workers that got a byte are kept as a record. */
  datatype Pusher =
    | Walking(seen: map<WorkerId, nat>)
    | Hinting(seen: map<WorkerId, nat>, order: seq<WorkerId>, phase: Phase, writtenSum: nat,
              outcome: seq<bool>, hinted: seq<WorkerId>, stopped: bool)

  /** A thread between its hint read and the locked part of pop, with the byte it took or
      without one. */
  datatype Popper = Popper(hint: bool)

  /** The shared state and where each thread is, with the history: sockets pushed and popped,
      pushes that ended without a byte written, and the hint bytes written, read, and lost
      with a pipe that was replaced. */
  datatype State = State(
    sq: seq<int>,
    pipes: map<WorkerId, Pipe>,
    unread: multiset<WorkerId>,
    feedback: bool,
    pushers: map<Thread, Pusher>,
    poppers: map<Thread, Popper>,
    pushed: seq<int>,
    popped: seq<int>,
    unannounced: nat,
    hints: multiset<WorkerId>,
    taken: multiset<WorkerId>,
    orphaned: multiset<WorkerId>)

  datatype Step =
    | Register(id: WorkerId, usable: bool)
    | PushLocked(t: Thread, s: int)
    | See(t: Thread, id: WorkerId)
    | Collect(t: Thread, order: seq<WorkerId>)
    | Hint(t: Thread, ok: bool)
    | Look(t: Thread)
    | ClearFeedback(t: Thread)
    | PushReturns(t: Thread)
    | ReadHint(t: Thread, id: WorkerId, red: bool)
    | PopLocked(t: Thread)
    | PopIf(agreed: bool)
    | UpdateLoad(id: WorkerId, load: nat)

  const Initial := State([], map[], multiset{}, false, map[], map[], [], [], 0, multiset{}, multiset{}, multiset{})

  // ----- Candidates -----

  predicate Before(seen: map<WorkerId, nat>, a: WorkerId, b: WorkerId)
    requires a in seen && b in seen
  {
    seen[a] < seen[b] || (seen[a] == seen[b] && a < b)
  }

  /** The order in which a multimap keyed by load is walked when it was filled in key order. */
  predicate LoadOrdered(order: seq<WorkerId>, seen: map<WorkerId, nat>) {
    && (forall i :: 0 <= i < |order| ==> order[i] in seen)
    && (forall id :: id in seen ==> id in order)
    && (forall i, j :: 0 <= i < j < |order| ==> Before(seen, order[i], order[j]))
  }

  predicate Ascending(order: seq<WorkerId>, seen: map<WorkerId, nat>)
    requires forall i :: 0 <= i < |order| ==> order[i] in seen
  {
    forall i, j :: 0 <= i < j < |order| ==> Before(seen, order[i], order[j])
  }

  lemma InsertKeepsAscending(order: seq<WorkerId>, k: nat, id: WorkerId, seen: map<WorkerId, nat>)
    requires k <= |order| && id in seen && forall i :: 0 <= i < |order| ==> order[i] in seen
    requires Ascending(order, seen)
    requires forall i :: 0 <= i < k ==> Before(seen, order[i], id)
    requires forall i :: k <= i < |order| ==> Before(seen, id, order[i])
    ensures var longer := order[..k] + [id] + order[k..];
            && (forall i :: 0 <= i < |longer| ==> longer[i] in seen)
            && Ascending(longer, seen)
  {
    var longer := order[..k] + [id] + order[k..];
    forall i, j | 0 <= i < j < |longer| ensures Before(seen, longer[i], longer[j]) {
      var i0 := if i < k then i else i - 1;
      var j0 := if j < k then j else j - 1;
      assert i != k ==> longer[i] == order[i0];
      assert j != k ==> longer[j] == order[j0];
    }
  }

  /** Where a multimap inserts: behind everything with the same or a lower load. */
  method InsertPosition(order: seq<WorkerId>, id: WorkerId, seen: map<WorkerId, nat>) returns (k: nat)
    requires id in seen && forall i :: 0 <= i < |order| ==> order[i] in seen && order[i] < id
    requires Ascending(order, seen)
    ensures k <= |order|
    ensures forall i :: 0 <= i < k ==> Before(seen, order[i], id)
    ensures forall i :: k <= i < |order| ==> Before(seen, id, order[i])
  {
    k := |order|;
    while k > 0 && seen[order[k - 1]] > seen[id]
      invariant 0 <= k <= |order|
      invariant forall i :: k <= i < |order| ==> Before(seen, id, order[i])
    {
      k := k - 1;
    }
    forall i | 0 <= i < k ensures Before(seen, order[i], id) {
      assert i < k - 1 ==> Before(seen, order[i], order[k - 1]);
    }
  }

  method Insert(order: seq<WorkerId>, id: WorkerId, seen: map<WorkerId, nat>) returns (longer: seq<WorkerId>)
    requires id in seen && forall i :: 0 <= i < |order| ==> order[i] in seen && order[i] < id
    requires Ascending(order, seen)
    ensures multiset(longer) == multiset(order) + multiset{id}
    ensures (forall i :: 0 <= i < |longer| ==> longer[i] in seen) && Ascending(longer, seen)
  {
    hide Ascending, Before;
    var k := InsertPosition(order, id, seen);
    InsertKeepsAscending(order, k, id, seen);
    longer := order[..k] + [id] + order[k..];
    assert order == order[..k] + order[k..];
  }

  predicate InKeyOrder(ids: seq<WorkerId>) {
    forall i, j :: 0 <= i < j < |ids| ==> ids[i] < ids[j]
  }

  lemma EarlierIdsAreLower(order: seq<WorkerId>, ids: seq<WorkerId>, n: nat)
    requires InKeyOrder(ids) && n < |ids| && multiset(order) == multiset(ids[..n])
    ensures forall i :: 0 <= i < |order| ==> order[i] < ids[n]
  {
    forall i | 0 <= i < |order| ensures order[i] < ids[n] {
      assert order[i] in multiset(order);
      assert order[i] in ids[..n];
    }
  }

  lemma EveryIdIsThere(order: seq<WorkerId>, ids: seq<WorkerId>, seen: map<WorkerId, nat>)
    requires multiset(order) == multiset(ids) && forall id :: id in seen <==> id in ids
    requires (forall i :: 0 <= i < |order| ==> order[i] in seen) && Ascending(order, seen)
    ensures LoadOrdered(order, seen)
  {
    forall id | id in seen ensures id in order {
      assert id in multiset(ids);
    }
  }

  /** Filling the multimap from the map of hint pairs, which is walked in key order. */
  method Candidates(ids: seq<WorkerId>, seen: map<WorkerId, nat>) returns (order: seq<WorkerId>)
    requires InKeyOrder(ids) && forall id :: id in seen <==> id in ids
    ensures LoadOrdered(order, seen) && multiset(order) == multiset(ids)
  {
    order := [];
    assert Ascending(order, seen);
    hide *;
    for n := 0 to |ids|
      invariant multiset(order) == multiset(ids[..n])
      invariant forall i :: 0 <= i < |order| ==> order[i] in seen
      invariant Ascending(order, seen)
    {
      EarlierIdsAreLower(order, ids, n);
      order := Insert(order, ids[n], seen);
      assert ids[..n + 1] == ids[..n] + [ids[n]];
    }
    assert ids[..|ids|] == ids;
    EveryIdIsThere(order, ids, seen);
  }

  /** The loads seen determine the order. */
  lemma {:induction false} OrderIsUnique(a: seq<WorkerId>, b: seq<WorkerId>, seen: map<WorkerId, nat>)
    requires LoadOrdered(a, seen) && LoadOrdered(b, seen)
    ensures a == b
    decreases |a|
  {
    if a == [] {
      BothEmpty(a, b, seen);
    } else {
      SameFirst(a, b, seen);
      var fewer := seen - {a[0]};
      RestIsOrdered(a, seen);
      RestIsOrdered(b, seen);
      hide LoadOrdered;
      OrderIsUnique(a[1..], b[1..], fewer);
      assert a == [a[0]] + a[1..] && b == [b[0]] + b[1..];
    }
  }

  lemma SameFirst(a: seq<WorkerId>, b: seq<WorkerId>, seen: map<WorkerId, nat>)
    requires a != [] && LoadOrdered(a, seen) && LoadOrdered(b, seen)
    ensures b != [] && a[0] == b[0]
  {
    assert a[0] in seen && a[0] in b;
    assert b[0] in seen && b[0] in a;
  }

  lemma BothEmpty(a: seq<WorkerId>, b: seq<WorkerId>, seen: map<WorkerId, nat>)
    requires a == [] && LoadOrdered(a, seen) && LoadOrdered(b, seen)
    ensures b == []
  {
    if b != [] {
      SameFirst(b, a, seen);
    }
  }

  lemma RestIsOrdered(a: seq<WorkerId>, seen: map<WorkerId, nat>)
    requires a != [] && LoadOrdered(a, seen)
    ensures LoadOrdered(a[1..], seen - {a[0]})
  {
    var rest, fewer := a[1..], seen - {a[0]};
    forall i | 0 <= i < |rest| ensures rest[i] in fewer {
      assert Before(seen, a[0], a[i + 1]);
    }
    forall id | id in fewer ensures id in rest {
      var p :| 0 <= p < |a| && a[p] == id;
      assert rest[p - 1] == id;
    }
    forall i, j | 0 <= i < j < |rest| ensures Before(fewer, rest[i], rest[j]) {
      assert Before(seen, a[i + 1], a[j + 1]);
    }
  }

  // ----- Steps -----

  /** The hinting loop is over: a worker reported an empty queue, there is no candidate left,
      or the counter, which grows once for the attempt and once for the written byte, has
      passed half the entries. */
  predicate LoopOver(p: Pusher)
    requires p.Hinting?
  {
    p.phase.Writing? && (p.stopped || |p.outcome| >= |p.order| || p.writtenSum + 1 > |p.order| / 2)
  }

  predicate InPhase(s: State, t: Thread, phase: Phase) {
    t in s.pushers && s.pushers[t].Hinting? && s.pushers[t].phase == phase
  }

  /** The walk over the entries, which goes by their keys, has not come to this one yet. */
  predicate Ahead(seen: map<WorkerId, nat>, id: WorkerId) {
    forall k :: k in seen ==> k < id
  }

  predicate Enabled(s: State, step: Step) {
    match step
    case Register(_, _) => true
    case PushLocked(t, _) => t !in s.pushers
    case See(t, id) =>
      && t in s.pushers && s.pushers[t].Walking?
      && id in s.pipes && Ahead(s.pushers[t].seen, id)
      && forall k :: k in s.pipes && Ahead(s.pushers[t].seen, k) ==> id <= k
    case Collect(t, order) =>
      && t in s.pushers && s.pushers[t].Walking?
      && (forall k :: k in s.pipes ==> !Ahead(s.pushers[t].seen, k))
      && LoadOrdered(order, s.pushers[t].seen)
    case Hint(t, ok) =>
      && InPhase(s, t, Writing) && !LoopOver(s.pushers[t])
      && (ok ==> var id := s.pushers[t].order[|s.pushers[t].outcome|]; id in s.pipes && s.pipes[id].open)
    case Look(t) => InPhase(s, t, Looking)
    case ClearFeedback(t) => InPhase(s, t, Clearing)
    case PushReturns(t) => t in s.pushers && s.pushers[t].Hinting? && LoopOver(s.pushers[t])
    case ReadHint(t, id, red) => t !in s.poppers && (red ==> id in s.unread)
    case PopLocked(t) => t in s.poppers
    case PopIf(_) => true
    case UpdateLoad(_, _) => true
  }

  /** One write of the hinting loop. */
  function Tried(p: Pusher, ok: bool): Pusher
    requires p.Hinting? && |p.outcome| < |p.order|
  {
    p.(phase := Looking, writtenSum := p.writtenSum + 1 + if ok then 1 else 0, outcome := p.outcome + [ok],
       hinted := if ok then p.hinted + [p.order[|p.outcome|]] else p.hinted)
  }

  function Written(s: State, id: WorkerId): State {
    s.(unread := s.unread + multiset{id}, hints := s.hints + multiset{id})
  }

  function Consumed(s: State, id: WorkerId): State {
    s.(unread := s.unread - multiset{id}, taken := s.taken + multiset{id})
  }

  function Next(s: State, step: Step): State
    requires Enabled(s, step)
  {
    match step
    case Register(id, usable) =>
      s.(pipes := s.pipes[id := Pipe(usable, 0)], unread := s.unread[id := 0],
         orphaned := s.orphaned[id := s.orphaned[id] + s.unread[id]])
    case PushLocked(t, x) =>
      s.(sq := [x] + s.sq, pushed := s.pushed + [x], pushers := s.pushers[t := Walking(map[])])
    case See(t, id) =>
      s.(pushers := s.pushers[t := Walking(s.pushers[t].seen[id := s.pipes[id].load])])
    case Collect(t, order) =>
      s.(pushers := s.pushers[t := Hinting(s.pushers[t].seen, order, Writing, 0, [], [], false)])
    case Hint(t, ok) =>
      var p := s.pushers[t];
      var s' := s.(pushers := s.pushers[t := Tried(p, ok)]);
      if ok then Written(s', p.order[|p.outcome|]) else s'
    case Look(t) =>
      s.(pushers := s.pushers[t := s.pushers[t].(phase := if s.feedback then Clearing else Writing)])
    case ClearFeedback(t) =>
      s.(pushers := s.pushers[t := s.pushers[t].(phase := Writing, stopped := true)], feedback := false)
    case PushReturns(t) =>
      s.(pushers := s.pushers - {t},
         unannounced := s.unannounced + if s.pushers[t].hinted == [] then 1 else 0)
    case ReadHint(t, id, red) =>
      var s' := s.(poppers := s.poppers[t := Popper(red)],
                   pipes := if id in s.pipes then s.pipes else s.pipes[id := Pipe(false, 0)]);
      if red then Consumed(s', id) else s'
    case PopLocked(t) =>
      var s' := s.(poppers := s.poppers - {t});
      if s.sq == [] then s'.(feedback := true)
      else TakeOldest(s').(feedback := s.feedback || |s.sq| == 1)
    case PopIf(agreed) => if s.sq == [] || !agreed then s else TakeOldest(s)
    case UpdateLoad(id, load) =>
      if id in s.pipes then s.(pipes := s.pipes[id := s.pipes[id].(load := load)]) else s
  }

  function TakeOldest(s: State): State
    requires s.sq != []
  {
    s.(sq := s.sq[..|s.sq| - 1], popped := s.popped + [s.sq[|s.sq| - 1]])
  }

  predicate Possible(s: State, steps: seq<Step>)
    decreases |steps|
  {
    steps == [] || (Enabled(s, steps[0]) && Possible(Next(s, steps[0]), steps[1..]))
  }

  function After(s: State, steps: seq<Step>): State
    requires Possible(s, steps)
    decreases |steps|
  {
    if steps == [] then s else After(Next(s, steps[0]), steps[1..])
  }

  // ----- The queue object -----

  /** The shared fields, and for each thread inside push_all or pop the local variables that
      live from one step to its next. Every method is one step: what happens under the lock,
      one pipe operation, or one access to an atomic. */
  class Queue {
    var sq: seq<int>
    var hintPairs: map<WorkerId, Pipe>
    var unread: multiset<WorkerId>
    var feedbackQueueEmpty: bool
    var pushers: map<Thread, Pusher>
    var poppers: map<Thread, Popper>
    ghost var pushed: seq<int>
    ghost var popped: seq<int>
    ghost var unannounced: nat
    ghost var hints: multiset<WorkerId>
    ghost var taken: multiset<WorkerId>
    ghost var orphaned: multiset<WorkerId>

    ghost function View(): State
      reads this
    {
      State(sq, hintPairs, unread, feedbackQueueEmpty, pushers, poppers, pushed, popped, unannounced,
            hints, taken, orphaned)
    }

    constructor ()
      ensures View() == Initial
    {
      sq, hintPairs, unread, feedbackQueueEmpty := [], map[], multiset{}, false;
      pushers, poppers := map[], map[];
      pushed, popped, unannounced := [], [], 0;
      hints, taken, orphaned := multiset{}, multiset{}, multiset{};
    }

    /** A worker that registers again gets a new pipe, and what lies in the old one is lost. */
    method NewPair(id: WorkerId, usable: bool)
      modifies this
      ensures View() == Next(old(View()), Register(id, usable))
    {
      hide LoadOrdered, LoopOver, Ahead;
      hintPairs := hintPairs[id := Pipe(usable, 0)];
      orphaned := orphaned[id := orphaned[id] + unread[id]];
      unread := unread[id := 0];
    }

    method PushFront(t: Thread, s: int)
      requires t !in pushers
      modifies this
      ensures View() == Next(old(View()), PushLocked(t, s))
    {
      sq := [s] + sq;
      pushed := pushed + [s];
      pushers := pushers[t := Walking(map[])];
    }

    /** The walk over the map reads each worker's load when it gets there. */
    method SeeLoad(t: Thread, id: WorkerId)
      requires Enabled(View(), See(t, id))
      modifies this
      ensures View() == Next(old(View()), See(t, id))
    {
      pushers := pushers[t := Walking(pushers[t].seen[id := hintPairs[id].load])];
    }

    /** The end of the walk, with the candidates in the order of the loads seen. */
    method CollectCandidates(t: Thread, ids: seq<WorkerId>) returns (order: seq<WorkerId>)
      requires t in pushers && pushers[t].Walking?
      requires forall k :: k in hintPairs ==> !Ahead(pushers[t].seen, k)
      requires InKeyOrder(ids) && forall id :: id in pushers[t].seen <==> id in ids
      modifies this
      ensures Enabled(old(View()), Collect(t, order)) && View() == Next(old(View()), Collect(t, order))
    {
      var seen := pushers[t].seen;
      order := Candidates(ids, seen);
      pushers := pushers[t := Hinting(seen, order, Writing, 0, [], [], false)];
    }

    method AddByte(id: WorkerId)
      modifies this`unread, this`hints
      ensures View() == Written(old(View()), id)
    {
      unread := unread + multiset{id};
      hints := hints + multiset{id};
    }

    method RemoveByte(id: WorkerId)
      modifies this`unread, this`taken
      ensures View() == Consumed(old(View()), id)
    {
      unread := unread - multiset{id};
      taken := taken + multiset{id};
    }

    /** The write in a round of the hinting loop, which may fail. */
    method WriteHint(t: Thread, ok: bool)
      requires Enabled(View(), Hint(t, ok))
      modifies this
      ensures View() == Next(old(View()), Hint(t, ok))
    {
      var p := pushers[t];
      var id := p.order[|p.outcome|];
      hide LoadOrdered, LoopOver, Ahead;
      var writtenSum, hinted := p.writtenSum + 1, p.hinted;
      if ok {
        AddByte(id);
        writtenSum := writtenSum + 1;
        hinted := hinted + [id];
      }
      pushers := pushers[t := Hinting(p.seen, p.order, Looking, writtenSum, p.outcome + [ok], hinted, p.stopped)];
    }

    /** The test of the feedback flag that follows it. */
    method LookAtFeedback(t: Thread)
      requires InPhase(View(), t, Looking)
      modifies this
      ensures View() == Next(old(View()), Look(t))
    {
      var phase := if feedbackQueueEmpty then Clearing else Writing;
      pushers := pushers[t := pushers[t].(phase := phase)];
    }

    method ResetFeedback(t: Thread)
      requires InPhase(View(), t, Clearing)
      modifies this
      ensures View() == Next(old(View()), ClearFeedback(t))
    {
      feedbackQueueEmpty := false;
      pushers := pushers[t := pushers[t].(phase := Writing, stopped := true)];
    }

    method PushEnds(t: Thread) returns (entryCount: nat)
      requires Enabled(View(), PushReturns(t))
      modifies this
      ensures View() == Next(old(View()), PushReturns(t)) && entryCount == |old(pushers)[t].order|
    {
      hide LoadOrdered, LoopOver, Ahead;
      entryCount := |pushers[t].order|;
      if pushers[t].hinted == [] {
        unannounced := unannounced + 1;
      }
      pushers := pushers - {t};
    }

    method TakeHint(t: Thread, id: WorkerId, red: bool)
      requires Enabled(View(), ReadHint(t, id, red))
      modifies this
      ensures View() == Next(old(View()), ReadHint(t, id, red))
    {
      if id !in hintPairs {
        hintPairs := hintPairs[id := Pipe(false, 0)];
      }
      if red {
        RemoveByte(id);
      }
      poppers := poppers[t := Popper(red)];
    }

    method TakeBack() returns (s: int)
      requires sq != []
      modifies this`sq, this`popped
      ensures View() == TakeOldest(old(View())) && s == old(sq)[|old(sq)| - 1]
    {
      s := sq[|sq| - 1];
      sq := sq[..|sq| - 1];
      popped := popped + [s];
    }

    /** Zero stands for an empty queue. */
    method PopBack(t: Thread) returns (s: int)
      requires t in poppers
      modifies this
      ensures View() == Next(old(View()), PopLocked(t))
      ensures s == if old(sq) == [] then 0 else old(sq)[|old(sq)| - 1]
    {
      poppers := poppers - {t};
      if sq == [] {
        feedbackQueueEmpty := true;
        s := 0;
      } else {
        s := TakeBack();
        if sq == [] {
          feedbackQueueEmpty := true;
        }
      }
    }

    method PopBackIf(agreed: bool) returns (s: Option<int>)
      modifies this
      ensures View() == Next(old(View()), PopIf(agreed))
      ensures s == if old(sq) == [] || !agreed then None else Some(old(sq)[|old(sq)| - 1])
    {
      if sq == [] || !agreed {
        return None;
      }
      var oldest := TakeBack();
      s := Some(oldest);
    }

    method SetLoad(id: WorkerId, load: nat)
      modifies this
      ensures View() == Next(old(View()), UpdateLoad(id, load))
    {
      if id in hintPairs {
        hintPairs := hintPairs[id := hintPairs[id].(load := load)];
      }
    }
  }

  // ----- What every step keeps -----

  function Holders(s: State): set<Thread> {
    set t | t in s.poppers && s.poppers[t].hint
  }

  function Unhinted(s: State): set<Thread> {
    set t | t in s.pushers && (s.pushers[t].Walking? || s.pushers[t].hinted == [])
  }

  /** Every queued socket is paid for: by an unread byte, by a worker that has taken its byte
      and not popped yet, by a pusher that has not written yet, by a byte lost with a replaced
      pipe, or it is counted as one whose push ended without any byte written. */
  predicate Covered(s: State) {
    |s.sq| <= |s.unread| + |Holders(s)| + |Unhinted(s)| + |s.orphaned| + s.unannounced
  }

  function Reversed(q: seq<int>): (r: seq<int>)
    ensures |r| == |q| && forall i :: 0 <= i < |q| ==> r[i] == q[|q| - 1 - i]
  {
    if q == [] then [] else [q[|q| - 1]] + Reversed(q[..|q| - 1])
  }

  predicate InOrder(s: State) {
    s.popped + Reversed(s.sq) == s.pushed
  }

  /** The candidates whose write went through. */
  function Successes(ids: seq<WorkerId>, outcome: seq<bool>): (r: seq<WorkerId>)
    requires |outcome| <= |ids|
    ensures |r| <= |outcome|
    decreases |outcome|
  {
    if outcome == [] then []
    else
      var n := |outcome| - 1;
      Successes(ids, outcome[..n]) + if outcome[n] then [ids[n]] else []
  }

  /** The loop's bookkeeping, and where the hints went: to those of a load-ordered prefix of
      the candidates whose write went through, and the prefix is no longer than half of them. */
  predicate LoopKept(p: Pusher) {
    p.Hinting? ==>
      && LoadOrdered(p.order, p.seen)
      && |p.outcome| <= |p.order| / 2
      && p.hinted == Successes(p.order, p.outcome)
      && p.writtenSum == |p.outcome| + |p.hinted|
      && (p.outcome != [] ==> p.writtenSum <= |p.order| / 2 + 1)
      && (p.stopped || !p.phase.Writing? ==> p.outcome != [])
  }

  lemma PusherMoves(s: State, t: Thread, p: Pusher)
    ensures var s' := s.(pushers := s.pushers[t := p]);
            && Holders(s') == Holders(s)
            && Unhinted(s') == if p.Walking? || p.hinted == [] then Unhinted(s) + {t} else Unhinted(s) - {t}
  {
  }

  lemma PopperMoves(s: State, t: Thread, p: Popper)
    ensures var s' := s.(poppers := s.poppers[t := p]);
            && Holders(s') == (if p.hint then Holders(s) + {t} else Holders(s) - {t})
            && Unhinted(s') == Unhinted(s)
  {
  }

  lemma ThreadLeaves(s: State, t: Thread)
    ensures Unhinted(s.(pushers := s.pushers - {t})) == Unhinted(s) - {t}
    ensures Holders(s.(pushers := s.pushers - {t})) == Holders(s)
    ensures Unhinted(s.(poppers := s.poppers - {t})) == Unhinted(s)
    ensures Holders(s.(poppers := s.poppers - {t})) == Holders(s) - {t}
  {
  }

  lemma SameThreads(s: State, s': State)
    requires s.pushers == s'.pushers && s.poppers == s'.poppers
    ensures Holders(s) == Holders(s') && Unhinted(s) == Unhinted(s')
  {
  }

  predicate Pushing(step: Step) {
    step.PushLocked? || step.See? || step.Collect? || step.Hint? || step.Look? || step.ClearFeedback? || step.PushReturns?
  }

  lemma CoverIsKept(s: State, step: Step)
    requires Covered(s) && Enabled(s, step)
    ensures Covered(Next(s, step))
  {
    if Pushing(step) {
      CoverIsKeptByPushing(s, step);
    } else {
      CoverIsKeptByPopping(s, step);
    }
  }

  /** Where the thread of a pushing step goes. */
  function Moved(s: State, step: Step): Pusher
    requires Enabled(s, step) && Pushing(step) && !step.PushReturns?
  {
    match step
    case PushLocked(_, _) => Walking(map[])
    case See(t, id) => Walking(s.pushers[t].seen[id := s.pipes[id].load])
    case Collect(t, order) => Hinting(s.pushers[t].seen, order, Writing, 0, [], [], false)
    case Hint(t, ok) => Tried(s.pushers[t], ok)
    case Look(t) => s.pushers[t].(phase := if s.feedback then Clearing else Writing)
    case ClearFeedback(t) => s.pushers[t].(phase := Writing, stopped := true)
  }

  lemma PushersStayOnReads(s: State, step: Step)
    requires Enabled(s, step) && step.ReadHint?
    ensures Next(s, step).pushers == s.pushers
  {
    hide LoadOrdered, LoopOver, Ahead;
  }

  lemma PushersStayOnPops(s: State, step: Step)
    requires Enabled(s, step) && (step.PopLocked? || step.PopIf?)
    ensures Next(s, step).pushers == s.pushers
  {
    hide LoadOrdered, LoopOver, Ahead;
  }

  lemma PushersStayOnUpdates(s: State, step: Step)
    requires Enabled(s, step) && (step.Register? || step.UpdateLoad?)
    ensures Next(s, step).pushers == s.pushers
  {
    hide LoadOrdered, LoopOver, Ahead;
  }

  lemma PushersStay(s: State, step: Step)
    requires Enabled(s, step) && !Pushing(step)
    ensures Next(s, step).pushers == s.pushers
  {
    hide Next, Enabled;
    if step.ReadHint? {
      PushersStayOnReads(s, step);
    } else if step.PopLocked? || step.PopIf? {
      PushersStayOnPops(s, step);
    } else {
      PushersStayOnUpdates(s, step);
    }
  }

  lemma PusherReturns(s: State, step: Step)
    requires Enabled(s, step) && step.PushReturns?
    ensures Next(s, step).pushers == s.pushers - {step.t}
  {
  }

  lemma OnePusherMoves(s: State, step: Step)
    requires Enabled(s, step) && Pushing(step) && !step.PushReturns?
    ensures Next(s, step).pushers == s.pushers[step.t := Moved(s, step)]
  {
    hide LoadOrdered, LoopOver, Ahead, Tried;
  }

  lemma OthersStay(s: State, step: Step)
    requires Enabled(s, step)
    ensures Next(s, step).pushers
            == if !Pushing(step) then s.pushers
               else if step.PushReturns? then s.pushers - {step.t}
               else s.pushers[step.t := Moved(s, step)]
  {
    hide Next, Enabled, Moved;
    if !Pushing(step) {
      PushersStay(s, step);
    } else if step.PushReturns? {
      PusherReturns(s, step);
    } else {
      OnePusherMoves(s, step);
    }
  }

  /** What a pushing step adds on both sides of the cover. */
  lemma PushingIsPaidFor(s: State, step: Step)
    requires Enabled(s, step) && Pushing(step)
    ensures var s' := Next(s, step);
            && s'.poppers == s.poppers && s'.orphaned == s.orphaned
            && |s'.sq| == |s.sq| + (if step.PushLocked? then 1 else 0)
            && |s'.unread| == |s.unread| + (if step.Hint? && step.ok then 1 else 0)
            && s'.unannounced == s.unannounced + (if step.PushReturns? && s.pushers[step.t].hinted == [] then 1 else 0)
  {
    hide LoadOrdered, LoopOver, Ahead, Tried;
  }

  /** A thread that goes on without having written was not counted before, or still is. */
  lemma MovedStaysUnhinted(s: State, step: Step)
    requires Enabled(s, step) && Pushing(step) && !step.PushReturns?
    ensures var p := Moved(s, step);
            (p.Walking? || p.hinted == [])
            <==> step.PushLocked? || (step.t in Unhinted(s) && !(step.Hint? && step.ok))
    ensures step.PushLocked? ==> step.t !in Unhinted(s)
  {
    var t := step.t;
    assert t in Unhinted(s) <==> t in s.pushers && (s.pushers[t].Walking? || s.pushers[t].hinted == []);
    hide LoadOrdered, LoopOver, Ahead, Unhinted;
  }

  lemma CoverIsKeptByPushing(s: State, step: Step)
    requires Pushing(step) && Covered(s) && Enabled(s, step)
    ensures Covered(Next(s, step))
  {
    if step.PushReturns? {
      CoverIsKeptByReturning(s, step);
    } else {
      CoverIsKeptByMoving(s, step);
    }
    hide Covered, Next, Enabled;
  }

  lemma CoverIsKeptByReturning(s: State, step: Step)
    requires step.PushReturns? && Covered(s) && Enabled(s, step)
    ensures Covered(Next(s, step))
  {
    var t, s' := step.t, Next(s, step);
    PusherReturns(s, step);
    PushingIsPaidFor(s, step);
    ThreadLeaves(s, t);
    assert s.pushers[t].hinted == [] <==> t in Unhinted(s);
    SameThreads(s.(pushers := s.pushers - {t}), s');
    hide Holders, Unhinted, Enabled, Next, LoopOver;
  }

  lemma MovingIsCounted(s: State, step: Step)
    requires Pushing(step) && !step.PushReturns? && Enabled(s, step)
    ensures var s' := Next(s, step);
            && Holders(s') == Holders(s)
            && |Unhinted(s')| >= |Unhinted(s)| + if step.PushLocked? then 1 else if step.Hint? && step.ok then -1 else 0
  {
    var t, s', p := step.t, Next(s, step), Moved(s, step);
    hide Holders, Unhinted, Enabled, Next, Moved;
    OnePusherMoves(s, step);
    MovedStaysUnhinted(s, step);
    PusherMoves(s, t, p);
    SameThreads(s.(pushers := s.pushers[t := p]), s');
    assert step.PushLocked? ==> |Unhinted(s')| == |Unhinted(s)| + 1;
    assert !(step.PushLocked? || (step.Hint? && step.ok)) ==> Unhinted(s') == Unhinted(s);
  }

  lemma CoverIsKeptByMoving(s: State, step: Step)
    requires Pushing(step) && !step.PushReturns? && Covered(s) && Enabled(s, step)
    ensures Covered(Next(s, step))
  {
    MovingIsCounted(s, step);
    PushingIsPaidFor(s, step);
    hide Holders, Unhinted, Enabled, Next;
  }

  lemma CoverIsKeptByPopping(s: State, step: Step)
    requires !Pushing(step)
    requires Covered(s) && Enabled(s, step)
    ensures Covered(Next(s, step))
  {
    if step.ReadHint? {
      CoverIsKeptByReading(s, step);
    } else if step.PopLocked? {
      CoverIsKeptByTaking(s, step);
    } else {
      var s' := Next(s, step);
      SameThreads(s, s');
      hide LoadOrdered, Holders, Unhinted;
      assert |s'.sq| <= |s.sq| && |s'.unread| + |s'.orphaned| == |s.unread| + |s.orphaned|;
      assert s'.unannounced == s.unannounced;
      hide Next, Enabled;
    }
  }

  lemma CoverIsKeptByTaking(s: State, step: Step)
    requires step.PopLocked? && Covered(s) && Enabled(s, step)
    ensures Covered(Next(s, step))
  {
    var s' := Next(s, step);
    ThreadLeaves(s, step.t);
    SameThreads(s.(poppers := s.poppers - {step.t}), s');
    hide LoadOrdered, Holders, Unhinted;
    assert |s'.sq| == if s.sq == [] then 0 else |s.sq| - 1;
    assert s'.unread == s.unread && s'.unannounced == s.unannounced && s'.orphaned == s.orphaned;
    hide Next, Enabled;
  }

  lemma CoverIsKeptByReading(s: State, step: Step)
    requires step.ReadHint? && Covered(s) && Enabled(s, step)
    ensures Covered(Next(s, step))
  {
    var t, p := step.t, Popper(step.red);
    assert t !in Holders(s);
    PopperMoves(s, t, p);
    SameThreads(s.(poppers := s.poppers[t := p]), Next(s, step));
    hide Holders, Unhinted, LoadOrdered;
  }

  lemma PushAtFront(q: seq<int>, x: int)
    ensures Reversed([x] + q) == Reversed(q) + [x]
  {
  }

  lemma TakeAtBack(popped: seq<int>, q: seq<int>)
    requires q != []
    ensures popped + [q[|q| - 1]] + Reversed(q[..|q| - 1]) == popped + Reversed(q)
  {
    var others := Reversed(q[..|q| - 1]);
    Regroup(popped, [q[|q| - 1]], others);
    assert Reversed(q) == [q[|q| - 1]] + others;
  }

  lemma OrderIsKept(s: State, step: Step)
    requires InOrder(s) && Enabled(s, step)
    ensures InOrder(Next(s, step))
  {
    hide LoadOrdered, LoopOver, Ahead, Reversed;
    if step.PushLocked? {
      PushAtFront(s.sq, step.s);
      assert s.popped + (Reversed(s.sq) + [step.s]) == s.popped + Reversed(s.sq) + [step.s];
    } else if (step.PopLocked? || (step.PopIf? && step.agreed)) && s.sq != [] {
      TakeAtBack(s.popped, s.sq);
    }
  }

  predicate LoopsKept(s: State) {
    forall t :: t in s.pushers ==> LoopKept(s.pushers[t])
  }

  /** Every hint byte ever written is still unread, was read, or was lost with its pipe. */
  predicate Accounted(s: State) {
    s.hints == s.unread + s.taken + s.orphaned
  }

  lemma AccountIsKept(s: State, step: Step)
    requires Accounted(s) && Enabled(s, step)
    ensures Accounted(Next(s, step))
  {
    hide LoadOrdered, LoopOver, Ahead;
  }

  /** Hint bytes lie only in pipes that exist. */
  predicate Placed(unread: multiset<WorkerId>, pipes: map<WorkerId, Pipe>) {
    forall id :: id in unread ==> id in pipes && pipes[id].open
  }

  predicate Valid(s: State) {
    Covered(s) && InOrder(s) && LoopsKept(s) && Placed(s.unread, s.pipes) && Accounted(s)
  }

  lemma TriedIsKept(p: Pusher, ok: bool)
    requires p.Hinting? && LoopKept(p) && p.phase.Writing? && !LoopOver(p)
    ensures LoopKept(Tried(p, ok))
  {
    var q := Tried(p, ok);
    assert q.outcome[..|q.outcome| - 1] == p.outcome;
    hide LoadOrdered;
  }

  lemma MovedIsKept(s: State, step: Step)
    requires Enabled(s, step) && Pushing(step) && !step.PushReturns?
    requires step.PushLocked? || LoopKept(s.pushers[step.t])
    ensures LoopKept(Moved(s, step))
  {
    if step.Hint? {
      TriedIsKept(s.pushers[step.t], step.ok);
    }
    hide LoadOrdered, Tried;
  }

  lemma LoopsAreKept(s: State, step: Step)
    requires LoopsKept(s) && Enabled(s, step)
    ensures LoopsKept(Next(s, step))
  {
    var s' := Next(s, step);
    OthersStay(s, step);
    if Pushing(step) && !step.PushReturns? {
      assert step.PushLocked? || LoopKept(s.pushers[step.t]);
      MovedIsKept(s, step);
    }
    hide LoopKept, Moved, Enabled, Next;
    forall t | t in s'.pushers ensures LoopKept(s'.pushers[t]) {
      assert t in s.pushers ==> LoopKept(s.pushers[t]);
    }
  }

  lemma PipesMayGrow(unread: multiset<WorkerId>, pipes: map<WorkerId, Pipe>, id: WorkerId, pipe: Pipe)
    requires Placed(unread, pipes) && (id in pipes && pipes[id].open ==> pipe.open)
    ensures Placed(unread, pipes[id := pipe])
  {
  }

  lemma PipeIsReplaced(unread: multiset<WorkerId>, pipes: map<WorkerId, Pipe>, id: WorkerId, pipe: Pipe)
    requires Placed(unread, pipes)
    ensures Placed(unread[id := 0], pipes[id := pipe])
  {
  }

  lemma BytesMayMove(unread: multiset<WorkerId>, pipes: map<WorkerId, Pipe>, id: WorkerId)
    requires Placed(unread, pipes)
    ensures Placed(unread - multiset{id}, pipes)
    ensures id in pipes && pipes[id].open ==> Placed(unread + multiset{id}, pipes)
  {
  }

  lemma PlacesAreKept(s: State, step: Step)
    requires Placed(s.unread, s.pipes) && Enabled(s, step)
    ensures Placed(Next(s, step).unread, Next(s, step).pipes)
  {
    hide Placed, LoadOrdered;
    match step {
      case Register(id, usable) =>
        PipeIsReplaced(s.unread, s.pipes, id, Pipe(usable, 0));
      case Hint(t, ok) =>
        if ok {
          BytesMayMove(s.unread, s.pipes, s.pushers[t].order[|s.pushers[t].outcome|]);
        }
      case ReadHint(_, id, _) =>
        BytesMayMove(s.unread, s.pipes, id);
        PipesMayGrow(Next(s, step).unread, s.pipes, id, if id in s.pipes then s.pipes[id] else Pipe(false, 0));
      case UpdateLoad(id, load) =>
        if id in s.pipes {
          PipesMayGrow(s.unread, s.pipes, id, s.pipes[id].(load := load));
        }
      case _ =>
    }
  }

  lemma StepKeepsValid(s: State, step: Step)
    requires Valid(s) && Enabled(s, step)
    ensures Valid(Next(s, step))
  {
    CoverIsKept(s, step);
    OrderIsKept(s, step);
    LoopsAreKept(s, step);
    PlacesAreKept(s, step);
    AccountIsKept(s, step);
    hide Covered, InOrder, LoopsKept, Placed, Accounted, Next, Enabled;
  }

  lemma {:induction false} RunsAreValid(s: State, steps: seq<Step>)
    requires Valid(s) && Possible(s, steps)
    ensures Valid(After(s, steps))
    decreases |steps|
  {
    if steps != [] {
      StepKeepsValid(s, steps[0]);
      RunsAreValid(Next(s, steps[0]), steps[1..]);
    }
  }

  // ----- No lost wake-up -----

  /** No thread is inside push_all or pop. */
  predicate Quiescent(s: State) {
    s.pushers == map[] && s.poppers == map[]
  }

  /** Over every interleaving: once nobody is in the middle of anything, there are at least
      as many unread bytes as announced sockets, but for bytes lost with a replaced pipe;
      every byte lies in an open pipe of a known worker; no byte appears or disappears
      otherwise; and the sockets came out in the order they went in. */
  lemma NoLostWakeup(steps: seq<Step>)
    requires Possible(Initial, steps)
    ensures var s := After(Initial, steps);
            && s.popped <= s.pushed
            && Reversed(s.sq) == s.pushed[|s.popped|..]
            && s.hints == s.unread + s.taken + s.orphaned
            && (Quiescent(s) ==> |s.sq| <= |s.unread| + |s.orphaned| + s.unannounced)
            && (Quiescent(s) && |s.sq| > |s.orphaned| + s.unannounced ==>
                  exists id :: id in s.unread && id in s.pipes && s.pipes[id].open)
  {
    RunsAreValid(Initial, steps);
    var s := After(Initial, steps);
    assert s.popped + Reversed(s.sq) == s.pushed;
    if Quiescent(s) {
      assert Holders(s) == {} && Unhinted(s) == {};
      if |s.sq| > |s.orphaned| + s.unannounced {
        assert |s.unread| > 0;
        var id :| id in s.unread;
      }
    }
  }

  /** A step in which hints do not fail, no push starts with fewer than two workers, and no
      worker registers again over a byte it has not read. */
  predicate Reliable(s: State, step: Step) {
    && (step.Hint? ==> step.ok)
    && (step.Collect? ==> |step.order| >= 2)
    && (step.Register? ==> step.id !in s.unread)
  }

  predicate AllReliable(s: State, steps: seq<Step>)
    requires Possible(s, steps)
    decreases |steps|
  {
    steps == [] || (Reliable(s, steps[0]) && AllReliable(Next(s, steps[0]), steps[1..]))
  }

  /** With at least two workers the loop cannot end before its first byte. */
  predicate FirstByteComes(s: State) {
    && s.unannounced == 0 && s.orphaned == multiset{}
    && forall t :: t in s.pushers ==> NothingFailed(s.pushers[t])
  }

  predicate NothingFailed(p: Pusher) {
    p.Hinting? ==> |p.hinted| == |p.outcome| && |p.order| >= 2
  }

  lemma {:induction false} ReliableRunsAnnounceEverything(s: State, steps: seq<Step>)
    requires Valid(s) && Possible(s, steps) && AllReliable(s, steps) && FirstByteComes(s)
    ensures FirstByteComes(After(s, steps))
    decreases |steps|
  {
    if steps != [] {
      StepKeepsValid(s, steps[0]);
      FirstByteStillComes(s, steps[0]);
      ReliableRunsAnnounceEverything(Next(s, steps[0]), steps[1..]);
    }
  }

  lemma FirstByteStillComes(s: State, step: Step)
    requires Valid(s) && Enabled(s, step) && Reliable(s, step) && FirstByteComes(s)
    ensures FirstByteComes(Next(s, step))
  {
    hide Covered, InOrder, Placed, Accounted;
    var s' := Next(s, step);
    if Pushing(step) {
      PushingIsPaidFor(s, step);
    }
    if step.PushReturns? {
      assert LoopKept(s.pushers[step.t]) && NothingFailed(s.pushers[step.t]);
      LoopIsNotOverYet(s.pushers[step.t]);
    }
    OrphansStay(s, step);
    OthersStay(s, step);
    if Pushing(step) && !step.PushReturns? {
      NothingFailedYet(s, step);
    }
    hide Moved, NothingFailed, Enabled, LoopsKept;
    assert s'.unannounced == 0;
    hide Next;
    forall t | t in s'.pushers ensures NothingFailed(s'.pushers[t]) {
      assert t in s.pushers ==> NothingFailed(s.pushers[t]);
    }
  }

  lemma OrphansStay(s: State, step: Step)
    requires Enabled(s, step) && Reliable(s, step)
    ensures Next(s, step).orphaned == s.orphaned
  {
    hide LoadOrdered, LoopOver, Ahead, Tried;
    assert step.Register? ==> s.unread[step.id] == 0;
  }

  lemma NothingFailedYet(s: State, step: Step)
    requires Enabled(s, step) && Reliable(s, step) && Pushing(step) && !step.PushReturns?
    requires step.PushLocked? || NothingFailed(s.pushers[step.t])
    ensures NothingFailed(Moved(s, step))
  {
    hide LoadOrdered, LoopOver, Ahead;
  }

  lemma LoopIsNotOverYet(p: Pusher)
    requires p.Hinting? && LoopKept(p) && LoopOver(p) && |p.hinted| == |p.outcome| && |p.order| >= 2
    ensures p.hinted != []
  {
    hide LoadOrdered, Successes;
  }

  /** Two workers or more and writes that succeed: a queue that is not empty when everything
      is at rest always has an unread byte, in the pipe of a worker that can be woken by it. */
  lemma NonEmptyQueueIsAnnounced(steps: seq<Step>)
    requires Possible(Initial, steps) && AllReliable(Initial, steps)
    ensures var s := After(Initial, steps);
            && |s.sq| <= |s.unread| + |Holders(s)| + |Unhinted(s)|
            && (Quiescent(s) && s.sq != [] ==> exists id :: id in s.unread && id in s.pipes && s.pipes[id].open)
  {
    RunsAreValid(Initial, steps);
    ReliableRunsAnnounceEverything(Initial, steps);
    NoLostWakeup(steps);
  }

  // ----- How far the hints go -----

  /** The bytes went to the candidates of lowest load: nobody who was not tried has less. */
  predicate HintsGoToTheIdle(p: Pusher)
    requires p.Hinting? && |p.outcome| <= |p.order|
  {
    forall h, j :: h in p.hinted && |p.outcome| <= j < |p.order| ==>
      AtMostAsBusy(p.seen, h, p.order[j])
  }

  predicate AtMostAsBusy(seen: map<WorkerId, nat>, a: WorkerId, b: WorkerId) {
    a in seen && b in seen && seen[a] <= seen[b]
  }

  lemma {:induction false} SuccessesAreTried(ids: seq<WorkerId>, outcome: seq<bool>, h: WorkerId)
    requires |outcome| <= |ids|
    ensures h in Successes(ids, outcome) <==> exists i :: 0 <= i < |outcome| && ids[i] == h && outcome[i]
    decreases |outcome|
  {
    if outcome != [] {
      var n := |outcome| - 1;
      var before := outcome[..n];
      SuccessesAreTried(ids, before, h);
      assert forall i :: 0 <= i < n ==> before[i] == outcome[i];
    }
  }

  lemma {:induction false} AllSucceeded(ids: seq<WorkerId>, outcome: seq<bool>)
    requires |outcome| <= |ids| && |Successes(ids, outcome)| == |outcome|
    ensures Successes(ids, outcome) == ids[..|outcome|]
    decreases |outcome|
  {
    if outcome != [] {
      AllSucceeded(ids, outcome[..|outcome| - 1]);
    }
  }

  lemma KeptHintsGoToTheIdle(p: Pusher)
    requires p.Hinting? && LoopKept(p)
    ensures |p.outcome| <= |p.order| && HintsGoToTheIdle(p)
  {
    forall h, j | h in p.hinted && |p.outcome| <= j < |p.order|
      ensures AtMostAsBusy(p.seen, h, p.order[j])
    {
      SuccessesAreTried(p.order, p.outcome, h);
      var i :| 0 <= i < |p.outcome| && p.order[i] == h && p.outcome[i];
      assert Before(p.seen, p.order[i], p.order[j]);
    }
  }

  /** At every moment of every run, a push has given bytes to exactly those of a load-ordered
      prefix of the workers whose write went through, and to nobody else. When it is over it
      tried at most half the workers, rounded down, and any at all exactly when there are two
      or more. When every write went through it reached no more than half of that half, rounded
      up, and exactly that many if nobody reported an empty queue meanwhile. */
  lemma HintsPerPush(steps: seq<Step>, t: Thread)
    requires Possible(Initial, steps)
    requires var s := After(Initial, steps); t in s.pushers && s.pushers[t].Hinting?
    ensures var p := After(Initial, steps).pushers[t];
            var n, tried := |p.order|, |p.outcome|;
            && LoadOrdered(p.order, p.seen)
            && tried <= n / 2
            && p.hinted == Successes(p.order, p.outcome)
            && HintsGoToTheIdle(p)
            && (LoopOver(p) ==>
                  && (tried >= 1 <==> n >= 2)
                  && (|p.hinted| == tried ==> tried <= (n / 2 + 1) / 2 && p.hinted == p.order[..tried])
                  && (|p.hinted| == tried && !p.stopped ==> tried == (n / 2 + 1) / 2))
  {
    RunsAreValid(Initial, steps);
    var p := After(Initial, steps).pushers[t];
    hide After, Possible;
    KeptHintsGoToTheIdle(p);
    if |p.hinted| == |p.outcome| {
      AllSucceeded(p.order, p.outcome);
    }
    hide LoadOrdered, Successes, HintsGoToTheIdle, Covered, InOrder, Placed, Accounted;
  }

  /** With a single worker nothing is ever hinted: a push, all the way through, leaves the
      socket queued and the system at rest without any unread byte. */
  lemma SingleWorkerIsNeverWoken(s: int)
    ensures var steps := [Register(0, true), PushLocked(0, s), See(0, 0), Collect(0, [0]), PushReturns(0)];
            && Possible(Initial, steps)
            && var e := After(Initial, steps); Quiescent(e) && e.sq == [s] && e.unread == multiset{}
  {
    var s1 := Next(Initial, Register(0, true));
    var s2 := Next(s1, PushLocked(0, s));
    assert s2.pipes == map[0 := Pipe(true, 0)] && s2.pushers[0].seen == map[];
    assert Ahead(map[], 0);
    var s3 := Next(s2, See(0, 0));
    assert s3.pushers[0].seen == map[0 := 0];
    assert LoadOrdered([0], map[0 := 0]) && !Ahead(map[0 := 0], 0);
    var s4 := Next(s3, Collect(0, [0]));
    var s5 := Next(s4, PushReturns(0));
    assert s5.pushers == map[];
    RunOfFive(Initial, Register(0, true), PushLocked(0, s), See(0, 0), Collect(0, [0]), PushReturns(0));
  }

  lemma RunOfFive(s: State, a: Step, b: Step, c: Step, d: Step, e: Step)
    requires Enabled(s, a) && Enabled(Next(s, a), b) && Enabled(Next(Next(s, a), b), c)
    requires Enabled(Next(Next(Next(s, a), b), c), d) && Enabled(Next(Next(Next(Next(s, a), b), c), d), e)
    ensures Possible(s, [a, b, c, d, e]) && After(s, [a, b, c, d, e]) == Next(Next(Next(Next(Next(s, a), b), c), d), e)
  {
    hide Enabled, Next;
    var s1 := Next(s, a);
    var s2 := Next(s1, b);
    var s3 := Next(s2, c);
    var s4 := Next(s3, d);
    var s5 := Next(s4, e);
    assert [a, b, c, d, e][1..] == [b, c, d, e] && [b, c, d, e][1..] == [c, d, e];
    assert [c, d, e][1..] == [d, e] && [d, e][1..] == [e] && [e][1..] == [];
    assert Possible(s5, []) && After(s5, []) == s5;
    assert Possible(s4, [e]) && After(s4, [e]) == s5;
    assert Possible(s3, [d, e]) && After(s3, [d, e]) == s5;
    assert Possible(s2, [c, d, e]) && After(s2, [c, d, e]) == s5;
    assert Possible(s1, [b, c, d, e]) && After(s1, [b, c, d, e]) == s5;
  }

  // ----- Feedback, pops and rounds -----

  /** The flag is up after a step exactly when it was up and the step did not clear it, or the
      step was a pop behind which the queue is empty. */
  lemma FeedbackIsRaisedIff(s: State, step: Step)
    requires Enabled(s, step)
    ensures var s' := Next(s, step);
            s'.feedback <==> (s.feedback && !step.ClearFeedback?) || (step.PopLocked? && s'.sq == [])
  {
    hide LoadOrdered, LoopOver, Ahead, Tried;
  }

  /** Of the sockets pushed, a pop takes the first that was not taken yet, if there is one;
      a conditional pop only with the caller's consent; and nothing else takes any. */
  lemma PopTakesTheOldest(s: State, step: Step)
    requires Valid(s) && Enabled(s, step)
    ensures var s', n := Next(s, step), |s.popped|;
            && s'.pushed == s.pushed + (if step.PushLocked? then [step.s] else [])
            && s'.popped == if (step.PopLocked? || (step.PopIf? && step.agreed)) && n < |s.pushed| then s.pushed[..n + 1]
                            else s.popped
  {
    NextInLine(s);
    hide Covered, LoopsKept, Placed, Accounted, InOrder, Next, Enabled;
    if Pushing(step) {
      PushesAreRecorded(s, step);
    } else if step.PopLocked? || step.PopIf? {
      PopsAreRecorded(s, step);
    } else {
      OthersLeaveSockets(s, step);
    }
  }

  lemma PushesAreRecorded(s: State, step: Step)
    requires Enabled(s, step) && Pushing(step)
    ensures var s' := Next(s, step);
            s'.pushed == s.pushed + (if step.PushLocked? then [step.s] else []) && s'.popped == s.popped
  {
    hide LoadOrdered, LoopOver, Ahead, Tried;
  }

  lemma PopsAreRecorded(s: State, step: Step)
    requires Enabled(s, step) && (step.PopLocked? || step.PopIf?)
    ensures var s' := Next(s, step);
            && s'.pushed == s.pushed
            && s'.popped == if (step.PopIf? && !step.agreed) || s.sq == [] then s.popped
                            else s.popped + [s.sq[|s.sq| - 1]]
  {
  }

  lemma OthersLeaveSockets(s: State, step: Step)
    requires Enabled(s, step) && (step.Register? || step.UpdateLoad? || step.ReadHint?)
    ensures Next(s, step).pushed == s.pushed && Next(s, step).popped == s.popped
  {
    hide LoadOrdered, LoopOver, Ahead;
  }

  lemma NextInLine(s: State)
    requires InOrder(s)
    ensures s.sq == [] <==> |s.popped| == |s.pushed|
    ensures s.sq != [] ==> |s.popped| < |s.pushed| && s.popped + [s.sq[|s.sq| - 1]] == s.pushed[..|s.popped| + 1]
  {
    var q := Reversed(s.sq);
    assert s.pushed == s.popped + q;
    if s.sq != [] {
      assert q[0] == s.sq[|s.sq| - 1];
      hide Reversed;
      assert q[..1] == [q[0]];
    }
  }

  /** A round writes once and looks at the flag; if it is up, it is cleared, and then the push
      can only return. */
  lemma RoundGoesOn(s: State, step: Step)
    requires Enabled(s, step) && (step.Hint? || step.Look? || step.ClearFeedback?)
    ensures var s', t := Next(s, step), step.t;
            && t in s'.pushers && s'.pushers[t].Hinting?
            && (step.Hint? ==> InPhase(s', t, Looking) && |s'.pushers[t].outcome| == |s.pushers[t].outcome| + 1)
            && (step.Look? ==> InPhase(s', t, if s.feedback then Clearing else Writing))
            && (step.ClearFeedback? ==> !s'.feedback && LoopOver(s'.pushers[t]))
            && (!step.Hint? ==> s'.pushers[t].outcome == s.pushers[t].outcome)
  {
    hide LoadOrdered, Ahead;
  }

  /** A pop takes at most the byte it read, keeps that in mind, and leaves an entry for its
      worker, with all other entries as they were. */
  lemma HintIsTaken(s: State, t: Thread, id: WorkerId, red: bool)
    requires Enabled(s, ReadHint(t, id, red))
    ensures var s' := Next(s, ReadHint(t, id, red));
            && s'.poppers == s.poppers[t := Popper(red)]
            && s'.taken == s.taken + (if red then multiset{id} else multiset{})
            && s'.pipes.Keys == s.pipes.Keys + {id} && (forall k :: k in s.pipes ==> s'.pipes[k] == s.pipes[k])
            && (id !in s.pipes ==> !s'.pipes[id].open)
  {
  }

  // ----- Loads -----

  /** An entry comes from a registration or from a pop. */
  predicate Known(steps: seq<Step>, id: WorkerId)
    decreases |steps|
  {
    if steps == [] then false
    else
      var n := |steps| - 1;
      Known(steps[..n], id) || ((steps[n].Register? || steps[n].ReadHint?) && steps[n].id == id)
  }

  /** The load a worker reported last since it was registered last. */
  function Reported(steps: seq<Step>, id: WorkerId): nat
    decreases |steps|
  {
    if steps == [] then 0
    else
      var n := |steps| - 1;
      match steps[n]
      case Register(i, _) => if i == id then 0 else Reported(steps[..n], id)
      case UpdateLoad(i, load) => if i == id && Known(steps[..n], id) then load else Reported(steps[..n], id)
      case _ => Reported(steps[..n], id)
  }

  lemma {:induction false} LastStepApart(s: State, steps: seq<Step>)
    requires Possible(s, steps) && steps != []
    ensures var n := |steps| - 1;
            && Possible(s, steps[..n]) && Enabled(After(s, steps[..n]), steps[n])
            && After(s, steps) == Next(After(s, steps[..n]), steps[n])
    decreases |steps|
  {
    hide Enabled, Next;
    var n, more := |steps| - 1, steps[1..];
    if n > 0 {
      LastStepApart(Next(s, steps[0]), more);
      assert more[..n - 1] == steps[..n][1..];
    } else {
      assert more == [];
    }
  }

  lemma PipesStayOnPushes(s: State, step: Step)
    requires Enabled(s, step) && Pushing(step)
    ensures Next(s, step).pipes == s.pipes
  {
    hide LoadOrdered, LoopOver, Ahead, Tried;
  }

  lemma PipesStayOnPops(s: State, step: Step)
    requires Enabled(s, step) && (step.PopLocked? || step.PopIf?)
    ensures Next(s, step).pipes == s.pipes
  {
    hide LoadOrdered, LoopOver, Ahead;
  }

  lemma PipeIsNew(s: State, id: WorkerId, usable: bool)
    ensures Next(s, Register(id, usable)).pipes == s.pipes[id := Pipe(usable, 0)]
  {
  }

  lemma PipeIsUpdated(s: State, id: WorkerId, load: nat)
    ensures Next(s, UpdateLoad(id, load)).pipes
         == if id in s.pipes then s.pipes[id := s.pipes[id].(load := load)] else s.pipes
  {
  }

  lemma PipeIsRead(s: State, t: Thread, id: WorkerId, red: bool)
    requires Enabled(s, ReadHint(t, id, red))
    ensures Next(s, ReadHint(t, id, red)).pipes == if id in s.pipes then s.pipes else s.pipes[id := Pipe(false, 0)]
  {
  }

  lemma LoadsChange(s: State, step: Step, id: WorkerId)
    requires Enabled(s, step)
    ensures var s' := Next(s, step);
            && (id in s'.pipes <==> id in s.pipes || ((step.Register? || step.ReadHint?) && step.id == id))
            && (id in s'.pipes ==>
                  s'.pipes[id].load == if step.Register? && step.id == id then 0
                                       else if id !in s.pipes then 0
                                       else if step.UpdateLoad? && step.id == id then step.load
                                       else s.pipes[id].load)
  {
    hide Next, Enabled;
    match step {
      case Register(i, usable) => PipeIsNew(s, i, usable);
      case UpdateLoad(i, load) => PipeIsUpdated(s, i, load);
      case ReadHint(t, i, red) => PipeIsRead(s, t, i, red);
      case PopLocked(_) => PipesStayOnPops(s, step);
      case PopIf(_) => PipesStayOnPops(s, step);
      case _ => PipesStayOnPushes(s, step);
    }
  }

  /** In every run an entry holds the load that was reported last for it. */
  lemma {:induction false} LoadIsTheLastReported(steps: seq<Step>, id: WorkerId)
    requires Possible(Initial, steps)
    ensures var s := After(Initial, steps);
            && (id in s.pipes <==> Known(steps, id))
            && (id in s.pipes ==> s.pipes[id].load == Reported(steps, id))
            && (id !in s.pipes ==> Reported(steps, id) == 0)
    decreases |steps|
  {
    if steps != [] {
      var n := |steps| - 1;
      LastStepApart(Initial, steps);
      LoadIsTheLastReported(steps[..n], id);
      LoadsChange(After(Initial, steps[..n]), steps[n], id);
      hide Enabled, Next, After, Possible;
    }
  }

  /** The loads a push saw, if the thread is inside one. */
  function SeenBy(s: State, t: Thread): map<WorkerId, nat> {
    if t in s.pushers then s.pushers[t].seen else map[]
  }

  /** Step k was this thread's look at the entry, in the push that still goes on, and what it
      saw was the load reported last at that moment. */
  predicate SawAt(steps: seq<Step>, t: Thread, id: WorkerId, load: nat, k: nat) {
    && k < |steps| && steps[k] == See(t, id) && load == Reported(steps[..k], id)
    && forall i :: k < i < |steps| ==> !(steps[i].PushLocked? && steps[i].t == t) && steps[i] != PushReturns(t)
  }

  lemma SeenChanges(s: State, step: Step, t: Thread)
    requires Enabled(s, step)
    ensures SeenBy(Next(s, step), t)
         == if step == PushReturns(t) || (step.PushLocked? && step.t == t) then map[]
            else if step.See? && step.t == t then SeenBy(s, t)[step.id := s.pipes[step.id].load]
            else SeenBy(s, t)
  {
    OthersStay(s, step);
    hide Next, LoadOrdered, LoopOver, Ahead;
  }

  lemma StillSaw(steps: seq<Step>, t: Thread, id: WorkerId, load: nat, k: nat)
    requires steps != [] && SawAt(steps[..|steps| - 1], t, id, load, k)
    requires var last := steps[|steps| - 1]; !(last.PushLocked? && last.t == t) && last != PushReturns(t)
    ensures SawAt(steps, t, id, load, k)
  {
    var before := steps[..|steps| - 1];
    assert forall i :: 0 <= i < |before| ==> before[i] == steps[i];
    assert before[..k] == steps[..k];
    hide Reported;
  }

  lemma {:induction false} WhenItSaw(steps: seq<Step>, t: Thread, id: WorkerId) returns (k: nat)
    requires Possible(Initial, steps) && id in SeenBy(After(Initial, steps), t)
    ensures SawAt(steps, t, id, SeenBy(After(Initial, steps), t)[id], k)
    decreases |steps|
  {
    LastStepApart(Initial, steps);
    var n := |steps| - 1;
    var s := After(Initial, steps[..n]);
    SeenChanges(s, steps[n], t);
    hide Next, After, Possible;
    if steps[n] == See(t, id) {
      k := n;
      LoadIsTheLastReported(steps[..n], id);
    } else {
      hide Enabled;
      k := WhenItSaw(steps[..n], t, id);
      StillSaw(steps, t, id, SeenBy(s, t)[id], k);
    }
  }

  /** In every run, whatever load a push goes by was the worker's last reported one when that
      push came to the worker's entry. */
  lemma LoadsSeenWereReported(steps: seq<Step>, t: Thread, id: WorkerId)
    requires Possible(Initial, steps) && id in SeenBy(After(Initial, steps), t)
    ensures exists k :: SawAt(steps, t, id, SeenBy(After(Initial, steps), t)[id], k)
  {
    var k := WhenItSaw(steps, t, id);
    hide SawAt;
  }

  // ----- Nobody is stuck -----

  lemma LeastOf(seen: map<WorkerId, nat>) returns (least: WorkerId)
    requires seen != map[]
    ensures least in seen && forall id :: id in seen && id != least ==> Before(seen, least, id)
    decreases |seen|
  {
    var some :| some in seen;
    var fewer := seen - {some};
    least := some;
    if fewer != map[] {
      var other := LeastOf(fewer);
      assert forall id :: id in fewer && id != other ==> Before(fewer, other, id);
      if Before(seen, other, some) {
        least := other;
      }
      forall id | id in seen && id != least ensures Before(seen, least, id) {
        assert id != some && id != other ==> Before(fewer, other, id);
      }
    } else {
      forall id | id in seen ensures id == some {
        assert id != some ==> id in fewer;
      }
    }
  }

  /** Whatever loads a push saw, there is an order to go by. */
  lemma OrderExists(seen: map<WorkerId, nat>) returns (order: seq<WorkerId>)
    ensures LoadOrdered(order, seen)
    decreases |seen|
  {
    if seen == map[] {
      order := [];
    } else {
      var least := LeastOf(seen);
      var fewer := seen - {least};
      var rest := OrderExists(fewer);
      order := [least] + rest;
      OrderGrows(seen, least, rest);
    }
  }

  lemma OrderGrows(seen: map<WorkerId, nat>, least: WorkerId, rest: seq<WorkerId>)
    requires least in seen && forall id :: id in seen && id != least ==> Before(seen, least, id)
    requires LoadOrdered(rest, seen - {least})
    ensures LoadOrdered([least] + rest, seen)
  {
    assert forall i :: 0 <= i < |rest| ==> rest[i] in seen - {least};
    RestIsAscending(seen, least, rest);
    hide Before;
    assert forall i :: 0 <= i < |rest| ==> Before(seen, least, rest[i]);
    InsertKeepsAscending(rest, 0, least, seen);
    assert rest[..0] + [least] + rest[0..] == [least] + rest;
    forall id | id in seen ensures id in [least] + rest {
      assert id == least || id in seen - {least};
    }
    assert LoadOrdered([least] + rest, seen) <==> (forall id :: id in seen ==> id in [least] + rest);
  }

  lemma RestIsAscending(seen: map<WorkerId, nat>, least: WorkerId, rest: seq<WorkerId>)
    requires LoadOrdered(rest, seen - {least})
    ensures (forall i :: 0 <= i < |rest| ==> rest[i] in seen) && Ascending(rest, seen)
  {
    var fewer := seen - {least};
    assert forall i :: 0 <= i < |rest| ==> rest[i] in fewer;
    forall i, j | 0 <= i < j < |rest| ensures Before(seen, rest[i], rest[j]) {
      assert Before(fewer, rest[i], rest[j]);
    }
  }

  lemma NextEntry(pipes: map<WorkerId, Pipe>, seen: map<WorkerId, nat>) returns (id: WorkerId)
    requires exists k :: k in pipes && Ahead(seen, k)
    ensures id in pipes && Ahead(seen, id) && forall k :: k in pipes && Ahead(seen, k) ==> id <= k
  {
    hide Ahead;
    id :| id in pipes && Ahead(seen, id);
    while exists k :: k in pipes && Ahead(seen, k) && k < id
      invariant id in pipes && Ahead(seen, id)
      decreases id
    {
      var k :| k in pipes && Ahead(seen, k) && k < id;
      id := k;
    }
  }

  lemma NextOfPusher(s: State, t: Thread) returns (step: Step)
    requires t in s.pushers
    ensures Enabled(s, step) && Pushing(step) && step.t == t
  {
    var p := s.pushers[t];
    if p.Walking? {
      if exists k :: k in s.pipes && Ahead(p.seen, k) {
        var id := NextEntry(s.pipes, p.seen);
        step := See(t, id);
      } else {
        var order := OrderExists(p.seen);
        step := Collect(t, order);
      }
    } else {
      hide LoadOrdered, Ahead;
      step := if p.phase.Looking? then Look(t) else if p.phase.Clearing? then ClearFeedback(t)
              else if LoopOver(p) then PushReturns(t) else Hint(t, false);
    }
  }

  /** A thread inside push_all or pop can always go on, whatever the others do; loads can be
      reported, workers registered and conditional pops made at any time. */
  lemma NobodyIsStuck(s: State, t: Thread)
    ensures t in s.pushers ==> exists step :: Enabled(s, step) && Pushing(step) && step.t == t
    ensures t in s.poppers ==> Enabled(s, PopLocked(t))
    ensures forall id, load :: Enabled(s, UpdateLoad(id, load))
    ensures forall agreed :: Enabled(s, PopIf(agreed))
    ensures forall id, usable :: Enabled(s, Register(id, usable))
  {
    if t in s.pushers {
      var step := NextOfPusher(s, t);
      assert Enabled(s, step) && Pushing(step) && step.t == t;
    }
  }
}
