// Who owns a context: the eight lists of a proxy and the trashcan behind them.
module ContextLists {

  /** A context is its identity here; what it holds is modelled in module HostContext. */
  type Cx(==, !new)

  datatype Side = Left | Right

  datatype Kind = Bound | Plain | Permanent | Delayed

  /** An entry of a vector of pointers. */
  datatype Slot = Null | Ptr(cx: Cx)

  datatype Lists = Lists(bound: seq<Cx>, sockets: seq<Cx>, permanent: seq<Cx>, delayed: seq<Cx>)

  /** The lists of both sides, the trashcan, and the flag each context carries. */
  datatype State = State(left: Lists, right: Lists, trash: seq<Slot>, flag: map<Cx, char>)

  datatype Op =
    | Add(side: Side, kind: Kind, cx: Cx)
    | Promote(side: Side, waiting: set<Cx>)
    | Shutdown(side: Side)

  const NoLists := Lists([], [], [], [])

  /** The trashcan is constructed with two empty entries. */
  const Start := State(NoLists, NoLists, [Null, Null], map[])

  // ----- Promotion -----

  /** The contexts that still wait for their peer, or those that do not, in list order. */
  function Picked(v: seq<Cx>, waiting: set<Cx>, still: bool): seq<Cx> {
    if v == [] then []
    else (if (v[0] in waiting) == still then [v[0]] else []) + Picked(v[1..], waiting, still)
  }

  /** Where the picked entries stood, counted from an offset. */
  function Positions(v: seq<Cx>, waiting: set<Cx>, still: bool, from: nat): seq<nat> {
    if v == [] then []
    else (if (v[0] in waiting) == still then [from] else []) + Positions(v[1..], waiting, still, from + 1)
  }

  predicate Increasing(p: seq<nat>, from: nat, to: nat) {
    && (forall i :: 0 <= i < |p| ==> from <= p[i] < to)
    && (forall i, j :: 0 <= i < j < |p| ==> p[i] < p[j])
  }

  /** The entries q are those of v at the increasing positions p, counted from an offset. */
  predicate Picks(p: seq<nat>, q: seq<Cx>, v: seq<Cx>, from: nat) {
    && |p| == |q|
    && Increasing(p, from, from + |v|)
    && (forall i :: 0 <= i < |p| ==> q[i] == v[p[i] - from])
  }

  lemma PicksFirst(p: seq<nat>, q: seq<Cx>, v: seq<Cx>, from: nat)
    requires v != [] && Picks(p, q, v[1..], from + 1)
    ensures Picks([from] + p, [v[0]] + q, v, from)
  {
  }

  lemma PicksLater(p: seq<nat>, q: seq<Cx>, v: seq<Cx>, from: nat)
    requires v != [] && Picks(p, q, v[1..], from + 1)
    ensures Picks(p, q, v, from)
  {
  }

  /** Picking keeps the order: the picked entries are those at increasing positions. */
  lemma {:induction false} PickedIsStable(v: seq<Cx>, waiting: set<Cx>, still: bool, from: nat)
    ensures Picks(Positions(v, waiting, still, from), Picked(v, waiting, still), v, from)
  {
    if v != [] {
      var p, q := Positions(v[1..], waiting, still, from + 1), Picked(v[1..], waiting, still);
      hide Picks;
      PickedIsStable(v[1..], waiting, still, from + 1);
      if (v[0] in waiting) == still {
        PicksFirst(p, q, v, from);
      } else {
        PicksLater(p, q, v, from);
        assert [] + p == p && [] + q == q;
      }
    } else {
      assert Positions(v, waiting, still, from) == [] && Picked(v, waiting, still) == [];
    }
  }

  /** And it takes every entry of its kind. */
  lemma {:induction false} PickedIsComplete(v: seq<Cx>, waiting: set<Cx>, still: bool, from: nat, k: nat)
    requires k < |v|
    ensures from + k in Positions(v, waiting, still, from) <==> (v[k] in waiting) == still
  {
    PickedIsStable(v[1..], waiting, still, from + 1);
    if k > 0 {
      PickedIsComplete(v[1..], waiting, still, from + 1, k - 1);
      assert from + 1 + (k - 1) == from + k;
    }
  }

  lemma {:induction false} PickedPartitions(v: seq<Cx>, waiting: set<Cx>)
    ensures multiset(Picked(v, waiting, true)) + multiset(Picked(v, waiting, false)) == multiset(v)
  {
    if v != [] {
      PickedPartitions(v[1..], waiting);
      assert v == [v[0]] + v[1..];
    }
  }

  lemma {:induction false} PickedSplits(a: seq<Cx>, b: seq<Cx>, waiting: set<Cx>, still: bool)
    ensures Picked(a + b, waiting, still) == Picked(a, waiting, still) + Picked(b, waiting, still)
  {
    if a == [] {
      assert a + b == b;
    } else {
      assert (a + b)[0] == a[0] && (a + b)[1..] == a[1..] + b;
      PickedSplits(a[1..], b, waiting, still);
      var first, more, after := if (a[0] in waiting) == still then [a[0]] else [],
        Picked(a[1..], waiting, still), Picked(b, waiting, still);
      assert Picked(a + b, waiting, still) == first + (more + after);
      hide Picked;
      assert first + (more + after) == first + more + after;
    }
  }

  // ----- Single operations -----

  function Of(s: State, side: Side): Lists {
    if side.Left? then s.left else s.right
  }

  function With(s: State, side: Side, l: Lists): State {
    if side.Left? then s.(left := l) else s.(right := l)
  }

  function Flag(side: Side, kind: Kind): char {
    if kind.Delayed? then (if side.Left? then 'l' else 'r') else if side.Left? then 'L' else 'R'
  }

  function Added(s: State, side: Side, kind: Kind, cx: Cx): State {
    var l := Of(s, side);
    var l' := match kind
              case Bound => l.(bound := l.bound + [cx])
              case Plain => l.(sockets := l.sockets + [cx])
              case Permanent => l.(permanent := l.permanent + [cx])
              case Delayed => l.(delayed := l.delayed + [cx]);
    With(s, side, l').(flag := s.flag[cx := Flag(side, kind)])
  }

  function Flagged(flag: map<Cx, char>, v: seq<Cx>, c: char): map<Cx, char> {
    map k | k in flag.Keys + (set x | x in v) :: if k in v then c else flag[k]
  }

  function Promoted(s: State, side: Side, waiting: set<Cx>): State {
    var l := Of(s, side);
    var moved := Picked(l.delayed, waiting, false);
    With(s, side, l.(delayed := Picked(l.delayed, waiting, true), sockets := l.sockets + moved))
    .(flag := Flagged(s.flag, moved, Flag(side, Plain)))
  }

  function All(l: Lists): seq<Cx> {
    l.bound + l.sockets + l.permanent + l.delayed
  }

  function Pointers(v: seq<Cx>): seq<Slot> {
    seq(|v|, i requires 0 <= i < |v| => Ptr(v[i]))
  }

  lemma PointersJoin(trash: seq<Slot>, a: seq<Cx>, b: seq<Cx>)
    ensures trash + Pointers(a) + Pointers(b) == trash + Pointers(a + b)
  {
    assert Pointers(a + b) == Pointers(a) + Pointers(b);
  }

  function Closed(s: State, side: Side): State {
    var gone := All(Of(s, side));
    With(s, side, NoLists).(trash := s.trash + Pointers(gone), flag := Flagged(s.flag, gone, '-'))
  }

  function Step(s: State, op: Op): State {
    match op
    case Add(side, kind, cx) => Added(s, side, kind, cx)
    case Promote(side, waiting) => Promoted(s, side, waiting)
    case Shutdown(side) => Closed(s, side)
  }

  // ----- The proxy's own lists -----

  class Proxy {
    var leftSockets: seq<Cx>
    var rightSockets: seq<Cx>
    var leftBindSockets: seq<Cx>
    var rightBindSockets: seq<Cx>
    var leftPcCx: seq<Cx>
    var rightPcCx: seq<Cx>
    var leftDelayedAccepts: seq<Cx>
    var rightDelayedAccepts: seq<Cx>
    var trashcan: seq<Slot>
    var parentFlag: map<Cx, char>

    ghost function View(): State
      reads this
    {
      State(Lists(leftBindSockets, leftSockets, leftPcCx, leftDelayedAccepts),
            Lists(rightBindSockets, rightSockets, rightPcCx, rightDelayedAccepts), trashcan, parentFlag)
    }

    constructor ()
      ensures View() == Start
    {
      leftSockets, rightSockets, leftBindSockets, rightBindSockets := [], [], [], [];
      leftPcCx, rightPcCx, leftDelayedAccepts, rightDelayedAccepts := [], [], [], [];
      trashcan := [Null, Null];
      parentFlag := map[];
    }

    method Ladd(cx: Cx)
      modifies this
      ensures View() == Step(old(View()), Add(Left, Plain, cx))
    {
      leftSockets := leftSockets + [cx];
      parentFlag := parentFlag[cx := 'L'];
    }

    method Radd(cx: Cx)
      modifies this
      ensures View() == Step(old(View()), Add(Right, Plain, cx))
    {
      rightSockets := rightSockets + [cx];
      parentFlag := parentFlag[cx := 'R'];
    }

    method Lbadd(cx: Cx)
      modifies this
      ensures View() == Step(old(View()), Add(Left, Bound, cx))
    {
      leftBindSockets := leftBindSockets + [cx];
      parentFlag := parentFlag[cx := 'L'];
    }

    method Rbadd(cx: Cx)
      modifies this
      ensures View() == Step(old(View()), Add(Right, Bound, cx))
    {
      rightBindSockets := rightBindSockets + [cx];
      parentFlag := parentFlag[cx := 'R'];
    }

    method Lpcadd(cx: Cx)
      modifies this
      ensures View() == Step(old(View()), Add(Left, Permanent, cx))
    {
      leftPcCx := leftPcCx + [cx];
      parentFlag := parentFlag[cx := 'L'];
    }

    method Rpcadd(cx: Cx)
      modifies this
      ensures View() == Step(old(View()), Add(Right, Permanent, cx))
    {
      rightPcCx := rightPcCx + [cx];
      parentFlag := parentFlag[cx := 'R'];
    }

    method Ldaadd(cx: Cx)
      modifies this
      ensures View() == Step(old(View()), Add(Left, Delayed, cx))
    {
      leftDelayedAccepts := leftDelayedAccepts + [cx];
      parentFlag := parentFlag[cx := 'l'];
    }

    method Rdaadd(cx: Cx)
      modifies this
      ensures View() == Step(old(View()), Add(Right, Delayed, cx))
    {
      rightDelayedAccepts := rightDelayedAccepts + [cx];
      parentFlag := parentFlag[cx := 'r'];
    }

    /** Accepted entries go to the regular list one by one and leave a null pointer behind;
        the nulls are removed at the end. */
    method AcceptFromLeft(waiting: set<Cx>)
      modifies this
      ensures View() == Step(old(View()), Promote(Left, waiting))
    {
      ghost var s := View();
      var delayed := leftDelayedAccepts;
      var v := Pointers(delayed);
      NothingMoved(s, Left);
      assert Half(v, delayed, waiting, 0);
      assert Picked(delayed[..0], waiting, false) == [];
      for i := 0 to |v|
        invariant |v| == |delayed| && Half(v, delayed, waiting, i)
        invariant View() == Midway(s, Left, Picked(delayed[..i], waiting, false))
      {
        hide Picked, Midway;
        NextPick(delayed, i, waiting);
        OneMoreMoved(s, Left, Picked(delayed[..i], waiting, false), delayed[i]);
        var cx := v[i].cx;
        if cx !in waiting {
          Ladd(cx);
          v := v[i := Null];
        }
      }
      assert delayed[..|v|] == delayed;
      hide Picked, Half, Flagged;
      leftDelayedAccepts := WithoutNulls(v, delayed, waiting);
    }

    method AcceptFromRight(waiting: set<Cx>)
      modifies this
      ensures View() == Step(old(View()), Promote(Right, waiting))
    {
      ghost var s := View();
      var delayed := rightDelayedAccepts;
      var v := Pointers(delayed);
      NothingMoved(s, Right);
      assert Half(v, delayed, waiting, 0);
      assert Picked(delayed[..0], waiting, false) == [];
      for i := 0 to |v|
        invariant |v| == |delayed| && Half(v, delayed, waiting, i)
        invariant View() == Midway(s, Right, Picked(delayed[..i], waiting, false))
      {
        hide Picked, Midway;
        NextPick(delayed, i, waiting);
        OneMoreMoved(s, Right, Picked(delayed[..i], waiting, false), delayed[i]);
        var cx := v[i].cx;
        if cx !in waiting {
          Radd(cx);
          v := v[i := Null];
        }
      }
      assert delayed[..|v|] == delayed;
      hide Picked, Half, Flagged;
      rightDelayedAccepts := WithoutNulls(v, delayed, waiting);
    }

    method DropAll(v: seq<Cx>)
      modifies this`trashcan
      ensures trashcan == old(trashcan) + Pointers(v)
    {
      for i := 0 to |v|
        invariant trashcan == old(trashcan) + Pointers(v[..i])
      {
        trashcan := trashcan + [Ptr(v[i])];
        assert Pointers(v[..i + 1]) == Pointers(v[..i]) + [Ptr(v[i])];
      }
      assert v[..|v|] == v;
    }

    /** Every context is shut down first, which takes its flag; then the lists are moved to
        the trashcan in a fixed order. */
    method LeftShutdown()
      modifies this
      ensures View() == Step(old(View()), Shutdown(Left))
    {
      var gone := leftBindSockets + leftSockets + leftPcCx + leftDelayedAccepts;
      hide Pointers, Flagged;
      PointersJoin(trashcan, leftBindSockets, leftSockets);
      PointersJoin(trashcan, leftBindSockets + leftSockets, leftPcCx);
      PointersJoin(trashcan, leftBindSockets + leftSockets + leftPcCx, leftDelayedAccepts);
      parentFlag := Flagged(parentFlag, gone, '-');
      DropAll(leftBindSockets);
      leftBindSockets := [];
      DropAll(leftSockets);
      leftSockets := [];
      DropAll(leftPcCx);
      leftPcCx := [];
      DropAll(leftDelayedAccepts);
      leftDelayedAccepts := [];
    }

    method RightShutdown()
      modifies this
      ensures View() == Step(old(View()), Shutdown(Right))
    {
      var gone := rightBindSockets + rightSockets + rightPcCx + rightDelayedAccepts;
      hide Pointers, Flagged;
      PointersJoin(trashcan, rightBindSockets, rightSockets);
      PointersJoin(trashcan, rightBindSockets + rightSockets, rightPcCx);
      PointersJoin(trashcan, rightBindSockets + rightSockets + rightPcCx, rightDelayedAccepts);
      parentFlag := Flagged(parentFlag, gone, '-');
      DropAll(rightBindSockets);
      rightBindSockets := [];
      DropAll(rightSockets);
      rightSockets := [];
      DropAll(rightPcCx);
      rightPcCx := [];
      DropAll(rightDelayedAccepts);
      rightDelayedAccepts := [];
    }
  }

  /** The state while accepted contexts have been moved and the vector is not cleaned yet. */
  function Midway(s: State, side: Side, moved: seq<Cx>): State {
    var l := Of(s, side);
    With(s, side, l.(sockets := l.sockets + moved)).(flag := Flagged(s.flag, moved, Flag(side, Plain)))
  }

  lemma NothingMoved(s: State, side: Side)
    ensures Midway(s, side, []) == s
  {
    NothingFlagged(s.flag, Flag(side, Plain));
    assert Of(s, side).sockets + [] == Of(s, side).sockets;
  }

  lemma OneMoreMoved(s: State, side: Side, moved: seq<Cx>, cx: Cx)
    ensures Step(Midway(s, side, moved), Add(side, Plain, cx)) == Midway(s, side, moved + [cx])
    ensures Midway(s, side, moved + []) == Midway(s, side, moved)
  {
    FlagOneMore(s.flag, moved, cx, Flag(side, Plain));
    hide Flagged;
    assert moved + [] == moved;
    assert Of(s, side).sockets + moved + [cx] == Of(s, side).sockets + (moved + [cx]);
  }

  /** The vector in the middle of the loop: accepted entries before i are null. */
  predicate Half(v: seq<Slot>, delayed: seq<Cx>, waiting: set<Cx>, i: nat) {
    && |v| == |delayed|
    && forall k :: 0 <= k < |v| ==> v[k] == if k < i && delayed[k] !in waiting then Null else Ptr(delayed[k])
  }

  lemma NextPick(v: seq<Cx>, i: nat, waiting: set<Cx>)
    requires i < |v|
    ensures Picked(v[..i + 1], waiting, false)
         == Picked(v[..i], waiting, false) + if v[i] in waiting then [] else [v[i]]
  {
    PickedSplits(v[..i], [v[i]], waiting, false);
    assert v[..i + 1] == v[..i] + [v[i]];
    assert Picked([v[i]], waiting, false) == (if v[i] in waiting then [] else [v[i]]) + Picked([v[i]][1..], waiting, false);
  }

  lemma NothingFlagged(flag: map<Cx, char>, c: char)
    ensures Flagged(flag, [], c) == flag
  {
  }

  lemma FlagOneMore(flag: map<Cx, char>, v: seq<Cx>, cx: Cx, c: char)
    ensures Flagged(flag, v + [cx], c) == Flagged(flag, v, c)[cx := c]
    ensures Flagged(flag, v + [], c) == Flagged(flag, v, c)
  {
    assert v + [] == v;
    assert forall k :: k in v + [cx] <==> k in v || k == cx;
  }

  /** The remove-if pass. */
  method WithoutNulls(v: seq<Slot>, ghost delayed: seq<Cx>, ghost waiting: set<Cx>) returns (kept: seq<Cx>)
    requires Half(v, delayed, waiting, |v|)
    ensures kept == Picked(delayed, waiting, true)
  {
    kept := [];
    for i := 0 to |v|
      invariant kept == Picked(delayed[..i], waiting, true)
    {
      PickedSplits(delayed[..i], [delayed[i]], waiting, true);
      assert delayed[..i + 1] == delayed[..i] + [delayed[i]];
      assert Picked([delayed[i]], waiting, true)
        == (if delayed[i] in waiting then [delayed[i]] else []) + Picked([delayed[i]][1..], waiting, true);
      if v[i].Ptr? {
        kept := kept + [v[i].cx];
      }
    }
    assert delayed[..|v|] == delayed;
  }

  // ----- Ownership over runs -----

  function After(ops: seq<Op>): State
    decreases |ops|
  {
    if ops == [] then Start else Step(After(ops[..|ops| - 1]), ops[|ops| - 1])
  }

  /** Every context handed to one of the add functions. */
  function Received(ops: seq<Op>): multiset<Cx>
    decreases |ops|
  {
    if ops == [] then multiset{}
    else
      var n := |ops| - 1;
      Received(ops[..n]) + if ops[n].Add? then multiset{ops[n].cx} else multiset{}
  }

  function Trashed(trash: seq<Slot>): multiset<Cx> {
    if trash == [] then multiset{}
    else (if trash[0].Ptr? then multiset{trash[0].cx} else multiset{}) + Trashed(trash[1..])
  }

  lemma Regroup(a: multiset<Cx>, b: multiset<Cx>, c: multiset<Cx>)
    ensures a + (b + c) == a + b + c
  {
  }

  lemma {:induction false} TrashGrows(a: seq<Slot>, b: seq<Slot>)
    ensures Trashed(a + b) == Trashed(a) + Trashed(b)
  {
    if a == [] {
      assert a + b == b;
    } else {
      assert (a + b)[0] == a[0] && (a + b)[1..] == a[1..] + b;
      TrashGrows(a[1..], b);
      var first := if a[0].Ptr? then multiset{a[0].cx} else multiset{};
      assert Trashed(a + b) == first + Trashed(a[1..] + b);
      Regroup(first, Trashed(a[1..]), Trashed(b));
    }
  }

  lemma {:induction false} TrashOfPointers(v: seq<Cx>)
    ensures Trashed(Pointers(v)) == multiset(v)
  {
    if v != [] {
      TrashOfPointers(v[1..]);
      assert Pointers(v)[1..] == Pointers(v[1..]);
      assert v == [v[0]] + v[1..];
    }
  }

  function Listed(l: Lists): multiset<Cx> {
    multiset(l.bound) + multiset(l.sockets) + multiset(l.permanent) + multiset(l.delayed)
  }

  function Owned(s: State): multiset<Cx> {
    Listed(s.left) + Listed(s.right) + Trashed(s.trash)
  }

  lemma AddConserves(s: State, side: Side, kind: Kind, cx: Cx)
    ensures Owned(Added(s, side, kind, cx)) == Owned(s) + multiset{cx}
  {
    var l, l' := Of(s, side), Of(Added(s, side, kind, cx), side);
    NewcomerIsListed(l, side, kind, cx, l');
    hide Listed, Trashed;
  }

  lemma NewcomerIsListed(l: Lists, side: Side, kind: Kind, cx: Cx, l': Lists)
    requires l' == Of(Added(State(l, l, [], map[]), side, kind, cx), side)
    ensures Listed(l') == Listed(l) + multiset{cx}
  {
  }

  lemma PromotionConserves(s: State, side: Side, waiting: set<Cx>)
    ensures Owned(Promoted(s, side, waiting)) == Owned(s)
  {
    var l, l' := Of(s, side), Of(Promoted(s, side, waiting), side);
    PickedPartitions(l.delayed, waiting);
    hide Picked, Flagged;
    assert Listed(l') == Listed(l);
    hide Listed, Trashed;
  }

  lemma ShutdownConserves(s: State, side: Side)
    ensures Owned(Closed(s, side)) == Owned(s)
  {
    var l := Of(s, side);
    TrashGrows(s.trash, Pointers(All(l)));
    TrashOfPointers(All(l));
    AllListed(l);
    assert Listed(NoLists) == multiset{};
    hide Listed, Trashed, Pointers, Flagged, All;
  }

  lemma AllListed(l: Lists)
    ensures multiset(All(l)) == Listed(l)
  {
  }

  lemma StepConserves(s: State, op: Op)
    ensures Owned(Step(s, op)) == Owned(s) + if op.Add? then multiset{op.cx} else multiset{}
  {
    match op {
      case Add(side, kind, cx) => AddConserves(s, side, kind, cx);
      case Promote(side, waiting) => PromotionConserves(s, side, waiting);
      case Shutdown(side) => ShutdownConserves(s, side);
    }
    hide Owned, Added, Promoted, Closed;
  }

  /** Nothing is lost and nothing appears: over every run the lists and the trashcan together
      hold exactly the contexts received, each as often as it was received. */
  lemma {:induction false} EveryContextIsOwnedOnce(ops: seq<Op>)
    ensures Owned(After(ops)) == Received(ops)
    decreases |ops|
  {
    if ops != [] {
      var n := |ops| - 1;
      EveryContextIsOwnedOnce(ops[..n]);
      StepConserves(After(ops[..n]), ops[n]);
    }
  }

  /** Occurrences of a context in the eight lists and the trashcan. */
  function Places(s: State, cx: Cx): nat {
    multiset(s.left.bound)[cx] + multiset(s.left.sockets)[cx] + multiset(s.left.permanent)[cx] + multiset(s.left.delayed)[cx]
    + multiset(s.right.bound)[cx] + multiset(s.right.sockets)[cx] + multiset(s.right.permanent)[cx] + multiset(s.right.delayed)[cx]
    + Trashed(s.trash)[cx]
  }

  lemma AddedOnceLivesInOnePlace(ops: seq<Op>, cx: Cx)
    ensures Places(After(ops), cx) == Received(ops)[cx]
  {
    EveryContextIsOwnedOnce(ops);
    var s := After(ops);
    assert Owned(s)[cx] == Places(s, cx);
  }

  /** After both sides are shut down every context lies in the trashcan, exactly as often as
      it was received, and shutting down again changes nothing. */
  lemma ShutdownCollectsEverything(ops: seq<Op>, side: Side)
    ensures var other := if side.Left? then Right else Left;
            var s := Step(Step(After(ops), Shutdown(side)), Shutdown(other));
            && Trashed(s.trash) == Received(ops)
            && s.left == NoLists && s.right == NoLists
            && Step(s, Shutdown(side)) == s && Step(s, Shutdown(other)) == s
  {
    hide *;
    var other := if side.Left? then Right else Left;
    var s0 := After(ops);
    EveryContextIsOwnedOnce(ops);
    var s1 := Step(s0, Shutdown(side));
    StepConserves(s0, Shutdown(side));
    var s := Step(s1, Shutdown(other));
    StepConserves(s1, Shutdown(other));
    BothClosed(s0, side);
    EmptiedOwnsTrash(s);
    ClosingNothing(s, side);
    ClosingNothing(s, other);
  }

  lemma BothClosed(s: State, side: Side)
    ensures var other := if side.Left? then Right else Left;
            var e := Step(Step(s, Shutdown(side)), Shutdown(other));
            e.left == NoLists && e.right == NoLists
  {
    hide Flagged, Pointers;
  }

  lemma EmptiedOwnsTrash(s: State)
    requires s.left == NoLists && s.right == NoLists
    ensures Owned(s) == Trashed(s.trash)
  {
    hide Trashed;
    assert Listed(NoLists) == multiset{};
  }

  lemma ClosingNothing(s: State, side: Side)
    requires s.left == NoLists && s.right == NoLists
    ensures Step(s, Shutdown(side)) == s
  {
    NothingFlagged(s.flag, '-');
    assert All(NoLists) == [] && Pointers([]) == [];
    assert s.trash + [] == s.trash;
  }

  // ----- Flags tell the place -----

  predicate AllFlagged(flag: map<Cx, char>, v: seq<Cx>, c: char) {
    forall i :: 0 <= i < |v| ==> v[i] in flag && flag[v[i]] == c
  }

  predicate SideFlagged(flag: map<Cx, char>, l: Lists, side: Side) {
    && AllFlagged(flag, l.bound, Flag(side, Bound))
    && AllFlagged(flag, l.sockets, Flag(side, Plain))
    && AllFlagged(flag, l.permanent, Flag(side, Permanent))
    && AllFlagged(flag, l.delayed, Flag(side, Delayed))
  }

  predicate TrashFlagged(flag: map<Cx, char>, trash: seq<Slot>) {
    forall i :: 0 <= i < |trash| && trash[i].Ptr? ==> trash[i].cx in flag && flag[trash[i].cx] == '-'
  }

  predicate FlagsTell(s: State) {
    SideFlagged(s.flag, s.left, Left) && SideFlagged(s.flag, s.right, Right) && TrashFlagged(s.flag, s.trash)
  }

  predicate Distinct(ops: seq<Op>) {
    forall i, j :: 0 <= i < j < |ops| && ops[i].Add? && ops[j].Add? ==> ops[i].cx != ops[j].cx
  }

  ghost predicate Apart(s: State) {
    forall cx :: Places(s, cx) <= 1
  }

  predicate Avoids(w: seq<Cx>, v: seq<Cx>) {
    forall i :: 0 <= i < |w| ==> w[i] !in v
  }

  /** Flags of contexts outside v do not change. */
  lemma OthersKeepFlags(flag: map<Cx, char>, w: seq<Cx>, c: char, v: seq<Cx>, d: char)
    requires AllFlagged(flag, w, c) && Avoids(w, v)
    ensures AllFlagged(Flagged(flag, v, d), w, c)
  {
  }

  lemma OtherSideKeepsFlags(flag: map<Cx, char>, l: Lists, side: Side, v: seq<Cx>, d: char)
    requires SideFlagged(flag, l, side) && Avoids(All(l), v)
    ensures SideFlagged(Flagged(flag, v, d), l, side)
  {
    var all := All(l);
    forall i | 0 <= i < |l.bound| ensures l.bound[i] !in v { assert all[i] == l.bound[i]; }
    forall i | 0 <= i < |l.sockets| ensures l.sockets[i] !in v { assert all[|l.bound| + i] == l.sockets[i]; }
    forall i | 0 <= i < |l.permanent| ensures l.permanent[i] !in v {
      assert all[|l.bound| + |l.sockets| + i] == l.permanent[i];
    }
    forall i | 0 <= i < |l.delayed| ensures l.delayed[i] !in v {
      assert all[|l.bound| + |l.sockets| + |l.permanent| + i] == l.delayed[i];
    }
  }

  lemma TakenAreFlagged(flag: map<Cx, char>, v: seq<Cx>, c: char)
    ensures AllFlagged(Flagged(flag, v, c), v, c)
  {
  }

  lemma AddedIsFlagged(flag: map<Cx, char>, cx: Cx, c: char)
    ensures Flagged(flag, [cx], c) == flag[cx := c]
  {
  }

  lemma TrashKeepsFlags(flag: map<Cx, char>, trash: seq<Slot>, v: seq<Cx>, d: char)
    requires TrashFlagged(flag, trash) && forall i :: 0 <= i < |trash| && trash[i].Ptr? ==> trash[i].cx !in v
    ensures TrashFlagged(Flagged(flag, v, d), trash)
  {
  }

  lemma {:induction false} TrashHolds(trash: seq<Slot>, i: nat)
    requires i < |trash| && trash[i].Ptr?
    ensures trash[i].cx in Trashed(trash)
  {
    if i > 0 {
      TrashHolds(trash[1..], i - 1);
    }
  }

  /** Contexts that are in one place only, seen from the delayed list, from a whole side, or
      from a newcomer. */
  lemma NobodyElseHas(s: State, v: seq<Cx>, side: Side)
    requires Apart(s) && forall cx :: cx in v ==> cx in All(Of(s, side))
    ensures var other := if side.Left? then Right else Left; Avoids(All(Of(s, other)), v)
    ensures forall i :: 0 <= i < |s.trash| && s.trash[i].Ptr? ==> s.trash[i].cx !in v
  {
    var other := if side.Left? then Right else Left;
    forall cx | cx in v ensures cx !in All(Of(s, other)) && cx !in Trashed(s.trash) {
      assert Places(s, cx) <= 1;
      assert multiset(All(Of(s, side))) == Listed(Of(s, side)) && multiset(All(Of(s, other))) == Listed(Of(s, other));
      assert cx in multiset(All(Of(s, side)));
      assert cx in All(Of(s, other)) ==> cx in multiset(All(Of(s, other)));
    }
    forall i | 0 <= i < |s.trash| && s.trash[i].Ptr? ensures s.trash[i].cx !in v {
      TrashHolds(s.trash, i);
    }
  }

  /** The other lists of a side hold nothing of its delayed list. */
  lemma DelayedAreApart(s: State, side: Side, v: seq<Cx>)
    requires Apart(s) && forall cx :: cx in v ==> cx in Of(s, side).delayed
    ensures var l := Of(s, side); Avoids(l.bound, v) && Avoids(l.sockets, v) && Avoids(l.permanent, v)
  {
    var l := Of(s, side);
    forall cx | cx in v ensures cx !in l.bound && cx !in l.sockets && cx !in l.permanent {
      assert Places(s, cx) <= 1;
      assert cx in multiset(l.delayed);
      assert cx in l.bound ==> cx in multiset(l.bound);
      assert cx in l.sockets ==> cx in multiset(l.sockets);
      assert cx in l.permanent ==> cx in multiset(l.permanent);
    }
  }

  lemma {:induction false} PickedComesFrom(v: seq<Cx>, waiting: set<Cx>, still: bool)
    ensures forall cx :: cx in Picked(v, waiting, still) ==> cx in v && (cx in waiting) == still
  {
    if v != [] {
      PickedComesFrom(v[1..], waiting, still);
      assert v == [v[0]] + v[1..];
    }
  }

  lemma AddKeepsFlags(s: State, side: Side, kind: Kind, cx: Cx)
    requires FlagsTell(s) && Places(s, cx) == 0
    ensures FlagsTell(Added(s, side, kind, cx))
  {
    var c := Flag(side, kind);
    var other := if side.Left? then Right else Left;
    NewcomerIsNowhere(s, cx);
    AddedIsFlagged(s.flag, cx, c);
    OtherSideKeepsFlags(s.flag, Of(s, side), side, [cx], c);
    OtherSideKeepsFlags(s.flag, Of(s, other), other, [cx], c);
    TrashKeepsFlags(s.flag, s.trash, [cx], c);
    ListTakesNewcomer(s.flag[cx := c], Of(s, side), side, kind, cx);
    hide SideFlagged, TrashFlagged, Flagged, All, Places, Avoids;
  }

  lemma ListTakesNewcomer(flag: map<Cx, char>, l: Lists, side: Side, kind: Kind, cx: Cx)
    requires SideFlagged(flag, l, side) && cx in flag && flag[cx] == Flag(side, kind)
    ensures SideFlagged(flag, l.(bound := l.bound + [cx]), side) || !kind.Bound?
    ensures SideFlagged(flag, l.(sockets := l.sockets + [cx]), side) || !kind.Plain?
    ensures SideFlagged(flag, l.(permanent := l.permanent + [cx]), side) || !kind.Permanent?
    ensures SideFlagged(flag, l.(delayed := l.delayed + [cx]), side) || !kind.Delayed?
  {
  }

  lemma NewcomerIsNowhere(s: State, cx: Cx)
    requires Places(s, cx) == 0
    ensures Avoids(All(s.left), [cx]) && Avoids(All(s.right), [cx])
    ensures forall i :: 0 <= i < |s.trash| && s.trash[i].Ptr? ==> s.trash[i].cx !in [cx]
  {
    assert multiset(All(s.left)) == Listed(s.left) && multiset(All(s.right)) == Listed(s.right);
    assert cx !in multiset(All(s.left)) && cx !in multiset(All(s.right));
    forall i | 0 <= i < |s.trash| && s.trash[i].Ptr? ensures s.trash[i].cx != cx {
      TrashHolds(s.trash, i);
    }
  }

  lemma PromotionKeepsFlags(s: State, side: Side, waiting: set<Cx>)
    requires FlagsTell(s) && Apart(s)
    ensures FlagsTell(Promoted(s, side, waiting))
  {
    var l := Of(s, side);
    var other := if side.Left? then Right else Left;
    var moved, kept := Picked(l.delayed, waiting, false), Picked(l.delayed, waiting, true);
    var c := Flag(side, Plain);
    PickedComesFrom(l.delayed, waiting, false);
    PickedComesFrom(l.delayed, waiting, true);
    assert forall cx :: cx in moved ==> cx in All(l);
    NobodyElseHas(s, moved, side);
    DelayedAreApart(s, side, moved);
    KeptAreFlagged(s.flag, l.delayed, kept, Flag(side, Delayed));
    hide Picked, All, Apart;
    OtherSideKeepsFlags(s.flag, Of(s, other), other, moved, c);
    TrashKeepsFlags(s.flag, s.trash, moved, c);
    OthersKeepFlags(s.flag, l.bound, c, moved, c);
    OthersKeepFlags(s.flag, l.sockets, c, moved, c);
    OthersKeepFlags(s.flag, l.permanent, c, moved, c);
    OthersKeepFlags(s.flag, kept, Flag(side, Delayed), moved, c);
    TakenAreFlagged(s.flag, moved, c);
    hide Flagged, Avoids;
  }

  lemma KeptAreFlagged(flag: map<Cx, char>, v: seq<Cx>, kept: seq<Cx>, c: char)
    requires AllFlagged(flag, v, c) && forall cx :: cx in kept ==> cx in v
    ensures AllFlagged(flag, kept, c)
  {
    forall i | 0 <= i < |kept| ensures kept[i] in flag && flag[kept[i]] == c {
      assert kept[i] in v;
    }
  }

  lemma ShutdownKeepsFlags(s: State, side: Side)
    requires FlagsTell(s) && Apart(s)
    ensures FlagsTell(Closed(s, side))
  {
    var other := if side.Left? then Right else Left;
    var gone := All(Of(s, side));
    NobodyElseHas(s, gone, side);
    OtherSideKeepsFlags(s.flag, Of(s, other), other, gone, '-');
    TrashKeepsFlags(s.flag, s.trash, gone, '-');
    TakenAreFlagged(s.flag, gone, '-');
    hide Flagged, All, Apart;
  }

  lemma {:induction false} ReceivedComesFromAdd(ops: seq<Op>, cx: Cx)
    requires cx in Received(ops)
    ensures exists i :: 0 <= i < |ops| && ops[i].Add? && ops[i].cx == cx
    decreases |ops|
  {
    var n := |ops| - 1;
    if !(ops[n].Add? && ops[n].cx == cx) {
      ReceivedComesFromAdd(ops[..n], cx);
    }
  }

  lemma {:induction false} DistinctAddsCountOnce(ops: seq<Op>)
    requires Distinct(ops)
    ensures forall cx :: Received(ops)[cx] <= 1
    decreases |ops|
  {
    if ops != [] {
      var n := |ops| - 1;
      DistinctAddsCountOnce(ops[..n]);
      if ops[n].Add? && ops[n].cx in Received(ops[..n]) {
        ReceivedComesFromAdd(ops[..n], ops[n].cx);
      }
    }
  }

  lemma DistinctContextsAreApart(ops: seq<Op>)
    requires Distinct(ops)
    ensures forall cx :: Places(After(ops), cx) == Received(ops)[cx] <= 1
    ensures Apart(After(ops))
  {
    DistinctAddsCountOnce(ops);
    hide Places;
    forall cx ensures Places(After(ops), cx) == Received(ops)[cx] <= 1 {
      AddedOnceLivesInOnePlace(ops, cx);
    }
  }

  /** When no context is added twice, each is in exactly one of the eight lists or in the
      trashcan, and the flag it carries says on which side, whether it is still delayed, and
      whether it was shut down. */
  lemma {:induction false} FlagsTellThePlace(ops: seq<Op>)
    requires Distinct(ops)
    ensures FlagsTell(After(ops)) && Apart(After(ops))
    ensures forall cx :: Places(After(ops), cx) == Received(ops)[cx] <= 1
    decreases |ops|
  {
    DistinctContextsAreApart(ops);
    if ops != [] {
      var n := |ops| - 1;
      FlagsTellThePlace(ops[..n]);
      NewcomersAreNew(ops);
      hide FlagsTell, Places, Step, Received, Apart;
      FlagStep(After(ops[..n]), ops[n]);
    }
  }

  lemma NewcomersAreNew(ops: seq<Op>)
    requires Distinct(ops) && ops != []
    ensures var n := |ops| - 1; ops[n].Add? ==> Places(After(ops[..n]), ops[n].cx) == 0
  {
    var n := |ops| - 1;
    if ops[n].Add? {
      DistinctAddsCountOnce(ops);
      AddedOnceLivesInOnePlace(ops[..n], ops[n].cx);
      assert Received(ops)[ops[n].cx] == Received(ops[..n])[ops[n].cx] + 1;
    }
  }

  lemma FlagStep(s: State, op: Op)
    requires FlagsTell(s) && Apart(s) && (op.Add? ==> Places(s, op.cx) == 0)
    ensures FlagsTell(Step(s, op))
  {
    hide FlagsTell, Places, Apart, Added, Promoted, Closed;
    match op {
      case Add(side, kind, cx) => AddKeepsFlags(s, side, kind, cx);
      case Promote(side, waiting) => PromotionKeepsFlags(s, side, waiting);
      case Shutdown(side) => ShutdownKeepsFlags(s, side);
    }
  }

  /** So the letter of a context is its place: capital on its side, small while it is delayed
      there, and a dash in the trashcan. */
  lemma FlagIsThePlace(ops: seq<Op>, cx: Cx)
    requires Distinct(ops) && cx in Received(ops)
    ensures var s := After(ops);
            && cx in s.flag
            && (s.flag[cx] == 'L' <==> cx in s.left.bound || cx in s.left.sockets || cx in s.left.permanent)
            && (s.flag[cx] == 'l' <==> cx in s.left.delayed)
            && (s.flag[cx] == 'R' <==> cx in s.right.bound || cx in s.right.sockets || cx in s.right.permanent)
            && (s.flag[cx] == 'r' <==> cx in s.right.delayed)
            && (s.flag[cx] == '-' <==> cx in Trashed(s.trash))
  {
    FlagsTellThePlace(ops);
    var s := After(ops);
    assert Places(s, cx) == 1;
    assert SideFlagged(s.flag, s.left, Left) && SideFlagged(s.flag, s.right, Right);
    SomePlace(s, cx);
    hide Places, Apart, After, Received, Distinct;
    SideLetters(s.flag, s.left, Left, cx);
    SideLetters(s.flag, s.right, Right, cx);
    TrashLetter(s, cx);
    hide FlagsTell, SideFlagged, Trashed;
  }

  lemma SomePlace(s: State, cx: Cx)
    requires Places(s, cx) > 0
    ensures cx in s.left.bound || cx in s.left.sockets || cx in s.left.permanent || cx in s.left.delayed
         || cx in s.right.bound || cx in s.right.sockets || cx in s.right.permanent || cx in s.right.delayed
         || cx in Trashed(s.trash)
  {
    hide Trashed;
  }

  lemma SideLetters(flag: map<Cx, char>, l: Lists, side: Side, cx: Cx)
    requires SideFlagged(flag, l, side)
    ensures cx in l.bound || cx in l.sockets || cx in l.permanent ==> cx in flag && flag[cx] == if side.Left? then 'L' else 'R'
    ensures cx in l.delayed ==> cx in flag && flag[cx] == if side.Left? then 'l' else 'r'
  {
  }

  lemma TrashLetter(s: State, cx: Cx)
    requires FlagsTell(s)
    ensures cx in Trashed(s.trash) ==> cx in s.flag && s.flag[cx] == '-'
  {
    if cx in Trashed(s.trash) {
      TrashComesFrom(s.trash, cx);
    }
  }

  // ----- What each list holds -----

  /** The contexts added in one way since the side was last shut down, in their order. */
  function Adds(ops: seq<Op>, side: Side, kind: Kind): seq<Cx>
    decreases |ops|
  {
    if ops == [] then []
    else
      var n := |ops| - 1;
      match ops[n]
      case Shutdown(d) => if d == side then [] else Adds(ops[..n], side, kind)
      case Add(d, k, cx) => Adds(ops[..n], side, kind) + if d == side && k == kind then [cx] else []
      case Promote(_, _) => Adds(ops[..n], side, kind)
  }

  /** Added as delayed, its side not shut down since, and found waiting each time its side
      looked. */
  predicate StillWaits(ops: seq<Op>, side: Side, i: nat) {
    && i < |ops| && ops[i].Add? && ops[i].side == side && ops[i].kind.Delayed?
    && forall j :: i < j < |ops| && !ops[j].Add? && ops[j].side == side ==> ops[j].Promote? && ops[i].cx in ops[j].waiting
  }

  /** Those among the first m operations, in their order. */
  function Waiters(ops: seq<Op>, side: Side, m: nat): seq<Cx>
    requires m <= |ops|
  {
    if m == 0 then [] else Waiters(ops, side, m - 1) + if StillWaits(ops, side, m - 1) then [ops[m - 1].cx] else []
  }

  /** Regular contexts in the order in which they were added or accepted. */
  function Accepted(ops: seq<Op>, side: Side): seq<Cx>
    decreases |ops|
  {
    if ops == [] then []
    else
      var n := |ops| - 1;
      var before := Accepted(ops[..n], side);
      match ops[n]
      case Shutdown(d) => if d == side then [] else before
      case Add(d, k, cx) => before + if d == side && k.Plain? then [cx] else []
      case Promote(d, waiting) => before + if d == side then Picked(Waiters(ops[..n], side, n), waiting, false) else []
  }

  lemma WaitsOn(ops: seq<Op>, side: Side, i: nat)
    requires i + 1 < |ops|
    ensures var n := |ops| - 1;
            var op := ops[n];
            StillWaits(ops, side, i)
            <==> StillWaits(ops[..n], side, i) && (!op.Add? && op.side == side ==> op.Promote? && ops[i].cx in op.waiting)
  {
    var before := ops[..|ops| - 1];
    assert forall j :: 0 <= j < |before| ==> before[j] == ops[j];
  }

  /** Who of some waiting contexts still waits after one more operation. */
  function Remaining(op: Op, side: Side, v: seq<Cx>): seq<Cx> {
    match op
    case Add(_, _, _) => v
    case Promote(d, waiting) => if d == side then Picked(v, waiting, true) else v
    case Shutdown(d) => if d == side then [] else v
  }

  lemma RemainingSplits(op: Op, side: Side, v: seq<Cx>, cx: Cx)
    ensures Remaining(op, side, v + [cx])
         == Remaining(op, side, v)
            + if !op.Add? && op.side == side && !(op.Promote? && cx in op.waiting) then [] else [cx]
  {
    if op.Promote? {
      PickedSplits(v, [cx], op.waiting, true);
      PickedOne(cx, op.waiting, true);
    }
    hide Picked;
  }

  lemma {:induction false} WaitersAfter(ops: seq<Op>, side: Side, m: nat)
    requires m < |ops|
    ensures var n := |ops| - 1; Waiters(ops, side, m) == Remaining(ops[n], side, Waiters(ops[..n], side, m))
  {
    var n := |ops| - 1;
    if m > 0 {
      WaitersAfter(ops, side, m - 1);
      WaitsOn(ops, side, m - 1);
      var before := Waiters(ops[..n], side, m - 1);
      if StillWaits(ops[..n], side, m - 1) {
        RemainingSplits(ops[n], side, before, ops[m - 1].cx);
      }
      hide StillWaits, Remaining;
      assert before + [] == before;
    }
  }

  lemma PickedOne(cx: Cx, waiting: set<Cx>, still: bool)
    ensures Picked([cx], waiting, still) == if (cx in waiting) == still then [cx] else []
  {
    assert [cx][1..] == [];
  }

  /** What a side holds by kind. */
  predicate HoldsKinds(l: Lists, ops: seq<Op>, side: Side) {
    && l.bound == Adds(ops, side, Bound) && l.permanent == Adds(ops, side, Permanent)
    && l.delayed == Waiters(ops, side, |ops|) && l.sockets == Accepted(ops, side)
  }

  lemma AllWaitersAfter(ops: seq<Op>, side: Side)
    requires ops != []
    ensures var n := |ops| - 1;
            var op, before := ops[n], Waiters(ops[..n], side, n);
            Waiters(ops, side, |ops|)
            == if op.Add? then before + (if op.side == side && op.kind.Delayed? then [op.cx] else [])
               else Remaining(op, side, before)
  {
    var n := |ops| - 1;
    WaitersAfter(ops, side, n);
    assert StillWaits(ops, side, n) <==> ops[n].Add? && ops[n].side == side && ops[n].kind.Delayed?;
    hide StillWaits, Remaining;
    var after := Remaining(ops[n], side, Waiters(ops[..n], side, n));
    assert after + [] == after;
  }

  lemma KindsAfterAdd(ops: seq<Op>, side: Side, s: State)
    requires ops != [] && ops[|ops| - 1].Add? && HoldsKinds(Of(s, side), ops[..|ops| - 1], side)
    ensures HoldsKinds(Of(Step(s, ops[|ops| - 1]), side), ops, side)
  {
    AllWaitersAfter(ops, side);
    hide Waiters, Remaining;
  }

  lemma KindsAfterPromotion(ops: seq<Op>, side: Side, s: State)
    requires ops != [] && ops[|ops| - 1].Promote? && HoldsKinds(Of(s, side), ops[..|ops| - 1], side)
    ensures HoldsKinds(Of(Step(s, ops[|ops| - 1]), side), ops, side)
  {
    AllWaitersAfter(ops, side);
    hide Waiters, Picked, Flagged;
    var l := Of(s, side).sockets;
    assert l + [] == l;
  }

  lemma KindsAfterShutdown(ops: seq<Op>, side: Side, s: State)
    requires ops != [] && ops[|ops| - 1].Shutdown? && HoldsKinds(Of(s, side), ops[..|ops| - 1], side)
    ensures HoldsKinds(Of(Step(s, ops[|ops| - 1]), side), ops, side)
  {
    AllWaitersAfter(ops, side);
    hide Waiters, Flagged, Pointers, All;
  }

  lemma {:induction false} KindsAreHeld(ops: seq<Op>, side: Side)
    ensures HoldsKinds(Of(After(ops), side), ops, side)
    decreases |ops|
  {
    if ops != [] {
      var n := |ops| - 1;
      KindsAreHeld(ops[..n], side);
      hide HoldsKinds, Step, Of;
      match ops[n] {
        case Add(_, _, _) => KindsAfterAdd(ops, side, After(ops[..n]));
        case Promote(_, _) => KindsAfterPromotion(ops, side, After(ops[..n]));
        case Shutdown(_) => KindsAfterShutdown(ops, side, After(ops[..n]));
      }
    } else {
      assert Of(Start, side) == NoLists;
    }
  }

  /** Regular and delayed ones together are those added as either. */
  predicate Balanced(regular: seq<Cx>, delayed: seq<Cx>, plainAdds: seq<Cx>, delayedAdds: seq<Cx>) {
    multiset(regular) + multiset(delayed) == multiset(plainAdds) + multiset(delayedAdds)
  }

  lemma MovingKeepsBalance(a: seq<Cx>, w: seq<Cx>, p: seq<Cx>, d: seq<Cx>, waiting: set<Cx>)
    requires Balanced(a, w, p, d)
    ensures Balanced(a + Picked(w, waiting, false), Picked(w, waiting, true), p, d)
  {
    PickedPartitions(w, waiting);
    hide Picked;
  }

  lemma Swapped(a: multiset<Cx>, w: multiset<Cx>, x: multiset<Cx>)
    ensures a + x + w == a + w + x && a + (w + x) == a + w + x
  {
  }

  lemma AddingKeepsBalance(a: seq<Cx>, w: seq<Cx>, p: seq<Cx>, d: seq<Cx>, cx: Cx)
    requires Balanced(a, w, p, d)
    ensures Balanced(a + [cx], w, p + [cx], d) && Balanced(a, w + [cx], p, d + [cx])
  {
    Swapped(multiset(a), multiset(w), multiset{cx});
    Swapped(multiset(p), multiset(d), multiset{cx});
  }

  lemma AcceptedAfter(ops: seq<Op>, side: Side)
    requires ops != []
    ensures var n := |ops| - 1;
            var op, a, w := ops[n], Accepted(ops[..n], side), Waiters(ops[..n], side, n);
            Accepted(ops, side) == if op.side != side then a
                                   else if op.Shutdown? then []
                                   else if op.Promote? then a + Picked(w, op.waiting, false)
                                   else if op.kind.Plain? then a + [op.cx] else a
  {
    var a := Accepted(ops[..|ops| - 1], side);
    assert a + [] == a;
    hide Waiters, Picked;
  }

  lemma AddsAfter(ops: seq<Op>, side: Side, kind: Kind)
    requires ops != []
    ensures var n := |ops| - 1;
            var op, before := ops[n], Adds(ops[..n], side, kind);
            Adds(ops, side, kind) == if op.side != side then before
                                     else if op.Shutdown? then []
                                     else if op.Add? && op.kind == kind then before + [op.cx] else before
  {
    var before := Adds(ops[..|ops| - 1], side, kind);
    assert before + [] == before;
  }

  lemma BalanceAfter(op: Op, side: Side, a: seq<Cx>, w: seq<Cx>, p: seq<Cx>, d: seq<Cx>)
    requires Balanced(a, w, p, d)
    ensures !op.Add? && op.side != side ==> Remaining(op, side, w) == w
    ensures op.Add? ==> Balanced(a + [op.cx], w, p + [op.cx], d) && Balanced(a, w + [op.cx], p, d + [op.cx])
    ensures op.Promote? && op.side == side ==> Balanced(a + Picked(w, op.waiting, false), Remaining(op, side, w), p, d)
    ensures op.Shutdown? && op.side == side ==> Balanced([], Remaining(op, side, w), [], [])
  {
    if op.Add? {
      AddingKeepsBalance(a, w, p, d, op.cx);
    } else if op.Promote? {
      MovingKeepsBalance(a, w, p, d, op.waiting);
    }
    hide Picked;
  }

  lemma StillBalanced(ops: seq<Op>, side: Side)
    requires ops != []
    requires var before := ops[..|ops| - 1];
             Balanced(Accepted(before, side), Waiters(before, side, |before|), Adds(before, side, Plain), Adds(before, side, Delayed))
    ensures Balanced(Accepted(ops, side), Waiters(ops, side, |ops|), Adds(ops, side, Plain), Adds(ops, side, Delayed))
  {
    hide *;
    var n := |ops| - 1;
    AllWaitersAfter(ops, side);
    AcceptedAfter(ops, side);
    AddsAfter(ops, side, Plain);
    AddsAfter(ops, side, Delayed);
    var w := Waiters(ops[..n], side, n);
    assert w + [] == w;
    BalanceAfter(ops[n], side, Accepted(ops[..n], side), w, Adds(ops[..n], side, Plain), Adds(ops[..n], side, Delayed));
  }

  lemma {:induction false} ListsAreBalanced(ops: seq<Op>, side: Side)
    ensures Balanced(Accepted(ops, side), Waiters(ops, side, |ops|), Adds(ops, side, Plain), Adds(ops, side, Delayed))
    decreases |ops|
  {
    if ops != [] {
      ListsAreBalanced(ops[..|ops| - 1], side);
      StillBalanced(ops, side);
      hide *;
    }
  }

  /** Over every run the lists of a side tell how its contexts came: bound and permanent ones
      are those added as such; the delayed list holds the delayed ones that were found waiting
      every time; and the others were added as regular ones or came from that list. */
  lemma ListsTellTheKinds(ops: seq<Op>, side: Side)
    ensures var l := Of(After(ops), side);
            && l.bound == Adds(ops, side, Bound) && l.permanent == Adds(ops, side, Permanent)
            && l.delayed == Waiters(ops, side, |ops|) && l.sockets == Accepted(ops, side)
            && multiset(l.sockets) + multiset(l.delayed) == multiset(Adds(ops, side, Plain)) + multiset(Adds(ops, side, Delayed))
  {
    KindsAreHeld(ops, side);
    ListsAreBalanced(ops, side);
    hide After, Of, Adds, Waiters, Accepted;
  }

  // ----- Nothing is freed twice -----

  /** No context lies in the trashcan twice. */
  predicate FreedOnce(trash: seq<Slot>) {
    forall i, j :: 0 <= i < j < |trash| && trash[i].Ptr? && trash[j].Ptr? ==> trash[i].cx != trash[j].cx
  }

  lemma {:induction false} TrashComesFrom(trash: seq<Slot>, cx: Cx)
    requires cx in Trashed(trash)
    ensures exists i :: 0 <= i < |trash| && trash[i] == Ptr(cx)
  {
    if trash[0] != Ptr(cx) {
      TrashComesFrom(trash[1..], cx);
      var i :| 0 <= i < |trash| - 1 && trash[1..][i] == Ptr(cx);
      assert trash[i + 1] == Ptr(cx);
    } else {
      assert trash[0] == Ptr(cx);
    }
  }

  lemma {:induction false} FreedOnceIff(trash: seq<Slot>)
    ensures FreedOnce(trash) <==> forall cx :: Trashed(trash)[cx] <= 1
  {
    if trash != [] {
      var rest := trash[1..];
      FreedOnceIff(rest);
      assert FreedOnce(trash) ==> FreedOnce(rest) by {
        assert forall i :: 0 <= i < |rest| ==> rest[i] == trash[i + 1];
      }
      if trash[0].Ptr? {
        var cx := trash[0].cx;
        if cx in Trashed(rest) {
          TrashComesFrom(rest, cx);
          var i :| 0 <= i < |rest| && rest[i] == Ptr(cx);
          assert trash[i + 1] == Ptr(cx) && !FreedOnce(trash);
          assert Trashed(trash)[cx] >= 2;
        } else {
          FirstIsFreedOnce(trash);
          assert Trashed(trash) == multiset{cx} + Trashed(rest);
          NewcomerCountsOnce(Trashed(rest), cx);
        }
      } else {
        FirstIsFreedOnce(trash);
        assert Trashed(trash) == Trashed(rest);
      }
    }
  }

  lemma NewcomerCountsOnce(m: multiset<Cx>, cx: Cx)
    requires cx !in m
    ensures (forall c :: (multiset{cx} + m)[c] <= 1) <==> (forall c :: m[c] <= 1)
  {
    assert forall c :: (multiset{cx} + m)[c] == if c == cx then 1 else m[c];
  }

  lemma FirstIsFreedOnce(trash: seq<Slot>)
    requires trash != [] && (trash[0].Ptr? ==> trash[0].cx !in Trashed(trash[1..]))
    ensures FreedOnce(trash) <==> FreedOnce(trash[1..])
  {
    var rest := trash[1..];
    assert forall i :: 0 < i < |trash| ==> trash[i] == rest[i - 1];
    if trash[0].Ptr? {
      forall j | 0 < j < |trash| && trash[j].Ptr? ensures trash[j].cx != trash[0].cx {
        TrashHolds(rest, j - 1);
      }
    }
    if !FreedOnce(rest) {
      var i, j :| 0 <= i < j < |rest| && rest[i].Ptr? && rest[j].Ptr? && rest[i].cx == rest[j].cx;
      assert trash[i + 1] == rest[i] && trash[j + 1] == rest[j];
    }
  }

  lemma {:induction false} AddIsReceived(ops: seq<Op>, i: nat)
    requires i < |ops| && ops[i].Add?
    ensures ops[i].cx in Received(ops)
    decreases |ops|
  {
    if i < |ops| - 1 {
      AddIsReceived(ops[..|ops| - 1], i);
    }
  }

  lemma {:induction false} AddedTwiceIsReceivedTwice(ops: seq<Op>, i: nat, j: nat)
    requires i < j < |ops| && ops[i].Add? && ops[j].Add? && ops[i].cx == ops[j].cx
    ensures Received(ops)[ops[i].cx] >= 2
    decreases |ops|
  {
    var n := |ops| - 1;
    if j == n {
      AddIsReceived(ops[..n], i);
    } else {
      AddedTwiceIsReceivedTwice(ops[..n], i, j);
    }
  }

  /** Once both sides are shut down, the trashcan frees nothing twice if and only if no context
      was added twice. */
  lemma NothingIsFreedTwiceIff(ops: seq<Op>, side: Side)
    ensures var other := if side.Left? then Right else Left;
            var s := Step(Step(After(ops), Shutdown(side)), Shutdown(other));
            FreedOnce(s.trash) <==> Distinct(ops)
  {
    var other := if side.Left? then Right else Left;
    var s := Step(Step(After(ops), Shutdown(side)), Shutdown(other));
    ShutdownCollectsEverything(ops, side);
    FreedOnceIff(s.trash);
    hide Step, After, Trashed, FreedOnce;
    if Distinct(ops) {
      DistinctAddsCountOnce(ops);
    } else {
      var i, j :| 0 <= i < j < |ops| && ops[i].Add? && ops[j].Add? && ops[i].cx == ops[j].cx;
      AddedTwiceIsReceivedTwice(ops, i, j);
      assert Trashed(s.trash)[ops[i].cx] >= 2;
    }
    hide Received;
  }
}
