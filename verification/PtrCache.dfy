// A bounded cache: a hash map of counted values and a list of keys that decides what goes
// when the list is full, either oldest first or after a look at how often the last key in the
// list was used.
module PtrCache {
  import opened Bytes
  import opened Common

  type Key(==, !new)
  type Value(==, !new)

  datatype Mode = FIFO | LRU

  /** A data block counts the reads since the value was set, in 32 bits. */
  datatype Block = Block(value: Value, count: u32)

  /** The map, the list (newest first) and the counter all blocks of a cache share. */
  datatype Content = Content(blocks: map<Key, Block>, items: seq<Key>, total: u32)

  /** What a caller can do. Whether the expiration check fires is up to the environment. */
  datatype Op =
    | Set(key: Key, value: Value)
    | Get(key: Key, expired: bool)
    | Erase(key: Key)
    | Clear

  const Empty := Content(map[], [], 0)

  predicate NoDuplicates(items: seq<Key>) {
    forall i, j :: 0 <= i < j < |items| ==> items[i] != items[j]
  }

  /** The list names every cached key once, and nothing else. */
  predicate Enumerated(c: Content) {
    && NoDuplicates(c.items)
    && (forall k :: k in c.blocks ==> k in c.items)
    && (forall i :: 0 <= i < |c.items| ==> c.items[i] in c.blocks)
  }

  // ----- Single operations -----

  function LastDeleted(c: Content): Content
    requires c.items != []
  {
    var n := |c.items| - 1;
    c.(blocks := c.blocks - {c.items[n]}, items := c.items[..n])
  }

  /** One look at the last key: above the average use it goes to the front. The source reads
      the first key's block before it checks that there is one. */
  function Reordered(c: Content): (r: Content)
    requires c.items != [] && c.items[0] in c.blocks
    ensures r.items != [] && |r.items| <= |c.items|
  {
    var n := |c.items| - 1;
    var last := c.items[n];
    if last !in c.blocks then c.(items := c.items[..n])
    else if c.blocks[last].count > c.total / |c.items| then c.(items := [last] + c.items[..n])
    else c
  }

  /** One round of the eviction loop. */
  function Evicted(mode: Mode, c: Content): (r: Content)
    requires c.items != [] && (mode.LRU? ==> c.items[0] in c.blocks)
    ensures |r.items| < |c.items|
  {
    LastDeleted(if mode.LRU? then Reordered(c) else c)
  }

  /** Each time the LRU code looks at the list while it makes room, the first key is cached. */
  predicate Roomy(mode: Mode, max: nat, c: Content)
    requires max > 0
    decreases |c.items|
  {
    mode.FIFO? || |c.items| < max || (c.items[0] in c.blocks && Roomy(mode, max, Evicted(mode, c)))
  }

  function RoomMade(mode: Mode, max: nat, c: Content): Content
    requires max > 0 && Roomy(mode, max, c)
    decreases |c.items|
  {
    if |c.items| < max then c else RoomMade(mode, max, Evicted(mode, c))
  }

  /** The operation does not read the block of a first key that has none. */
  predicate Safe(mode: Mode, max: nat, c: Content, op: Op) {
    match op
    case Set(k, _) => k !in c.blocks && max > 0 ==> Roomy(mode, max, c)
    case Get(k, expired) => mode.LRU? && k in c.blocks && !expired ==> c.items != [] && c.items[0] in c.blocks
    case _ => true
  }

  function AfterSet(mode: Mode, max: nat, c: Content, k: Key, v: Value): Content
    requires Safe(mode, max, c, Set(k, v))
  {
    if k in c.blocks then c.(blocks := c.blocks[k := Block(v, 0)])
    else
      var r := if max > 0 then RoomMade(mode, max, c) else c;
      r.(blocks := r.blocks[k := Block(v, 0)], items := [k] + r.items)
  }

  function Touched(c: Content, k: Key): Content
    requires k in c.blocks
  {
    var b := c.blocks[k];
    c.(blocks := c.blocks[k := b.(count := (b.count + 1) % U32)], total := (c.total + 1) % U32)
  }

  function AfterGet(mode: Mode, max: nat, c: Content, k: Key, expired: bool): Content
    requires Safe(mode, max, c, Get(k, expired))
  {
    if k !in c.blocks then c
    else if expired then c.(blocks := c.blocks - {k})
    else if mode.LRU? then Reordered(Touched(c, k))
    else c
  }

  function Answer(c: Content, k: Key, expired: bool): Option<Value> {
    if k !in c.blocks || expired then None else Some(c.blocks[k].value)
  }

  /** While the list enumerates the cache, every operation is safe. */
  lemma EnumeratedIsSafe(mode: Mode, max: nat, c: Content, op: Op)
    requires Enumerated(c)
    ensures Safe(mode, max, c, op)
  {
    if max > 0 {
      EnumeratedIsRoomy(mode, max, c);
    }
  }

  lemma {:induction false} EnumeratedIsRoomy(mode: Mode, max: nat, c: Content)
    requires Enumerated(c) && max > 0
    ensures Roomy(mode, max, c)
    ensures Enumerated(RoomMade(mode, max, c))
    decreases |c.items|
  {
    if |c.items| >= max {
      EvictionKeepsEnumeration(mode, c);
      EnumeratedIsRoomy(mode, max, Evicted(mode, c));
    }
  }

  lemma EvictionKeepsEnumeration(mode: Mode, c: Content)
    requires c.items != [] && Enumerated(c)
    ensures Enumerated(Evicted(mode, c)) && |Evicted(mode, c).items| == |c.items| - 1
  {
    if mode.LRU? {
      ReorderKeepsEnumeration(c);
      DeletionKeepsEnumeration(Reordered(c));
    } else {
      DeletionKeepsEnumeration(c);
    }
  }

  lemma ReorderKeepsEnumeration(c: Content)
    requires c.items != [] && Enumerated(c)
    ensures var m := Reordered(c); Enumerated(m) && |m.items| == |c.items| && m.blocks == c.blocks
  {
    var m := Reordered(c);
    if m.items != c.items {
      RotationKeepsEnumeration(c, m.items);
    }
  }

  lemma RotationKeepsEnumeration(c: Content, rotated: seq<Key>)
    requires c.items != [] && Enumerated(c)
    requires rotated == [c.items[|c.items| - 1]] + c.items[..|c.items| - 1]
    ensures Enumerated(c.(items := rotated))
  {
    var n := |c.items| - 1;
    assert forall i :: 0 < i <= n ==> rotated[i] == c.items[i - 1];
    forall k | k in c.blocks ensures k in rotated {
      var i :| 0 <= i <= n && c.items[i] == k;
      assert rotated[if i == n then 0 else i + 1] == k;
    }
  }

  lemma DeletionKeepsEnumeration(c: Content)
    requires c.items != [] && Enumerated(c)
    ensures Enumerated(LastDeleted(c))
  {
    var r := LastDeleted(c);
    forall k | k in r.blocks ensures k in r.items {
      var i :| 0 <= i < |c.items| && c.items[i] == k;
      assert r.items[i] == k;
    }
  }

  // ----- The cache object -----

  class Cache {
    const mode: Mode
    const maxSize: u32
    var cache: map<Key, Block>
    var items: seq<Key>
    var totalCounter: u32

    ghost function View(): Content
      reads this
    {
      Content(cache, items, totalCounter)
    }

    constructor (mode: Mode, maxSize: u32)
      ensures this.mode == mode && this.maxSize == maxSize && View() == Empty
    {
      this.mode, this.maxSize := mode, maxSize;
      cache, items, totalCounter := map[], [], 0;
    }

    method Clear()
      modifies this
      ensures View() == Content(map[], [], old(totalCounter))
    {
      cache := map[];
      items := [];
    }

    method Erase(k: Key) returns (found: bool)
      modifies this`cache
      ensures found == (k in old(cache)) && cache == old(cache) - {k}
    {
      found := k in cache;
      if found {
        cache := cache - {k};
      }
    }

    method DeleteLast() returns (deleted: bool)
      requires items != []
      modifies this
      ensures View() == LastDeleted(old(View())) && deleted == (old(items[|items| - 1]) in old(cache))
    {
      deleted := Erase(items[|items| - 1]);
      items := items[..|items| - 1];
    }

    method LruReorder() returns (moved: bool)
      requires items != [] && items[0] in cache
      modifies this`items
      ensures View() == Reordered(old(View()))
    {
      var n := |items| - 1;
      var last := items[n];
      var criteria := totalCounter / |items|;
      moved := false;
      if last in cache {
        if cache[last].count > criteria {
          items := [last] + items;
          items := items[..|items| - 1];
          assert items == [last] + old(items)[..n];
          moved := true;
        }
      } else {
        items := items[..n];
      }
    }

    method Get(k: Key, expired: bool) returns (v: Option<Value>)
      requires Safe(mode, maxSize, View(), Op.Get(k, expired))
      modifies this
      ensures View() == AfterGet(mode, maxSize, old(View()), k, expired)
      ensures v == Answer(old(View()), k, expired)
    {
      if k !in cache {
        return None;
      }
      if expired {
        var _ := Erase(k);
        return None;
      }
      if mode == LRU {
        cache := cache[k := Block(cache[k].value, (cache[k].count + 1) % U32)];
        totalCounter := (totalCounter + 1) % U32;
        var _ := LruReorder();
      }
      return Some(cache[k].value);
    }

    method Put(k: Key, v: Value) returns (replaced: bool)
      requires Safe(mode, maxSize, View(), Set(k, v))
      modifies this
      ensures View() == AfterSet(mode, maxSize, old(View()), k, v)
      ensures replaced == (k in old(cache))
    {
      replaced := k in cache;
      if replaced {
        cache := cache[k := Block(v, 0)];
      } else {
        if maxSize > 0 {
          while |items| >= maxSize
            invariant Roomy(mode, maxSize, View())
            invariant RoomMade(mode, maxSize, View()) == RoomMade(mode, maxSize, old(View()))
            decreases |items|
          {
            ghost var c := View();
            if mode == LRU {
              var _ := LruReorder();
            }
            var _ := DeleteLast();
            assert View() == Evicted(mode, c);
          }
        }
        cache := cache[k := Block(v, 0)];
        items := [k] + items;
      }
    }
  }

  // ----- Runs -----

  predicate SetsAndGets(ops: seq<Op>) {
    forall i :: 0 <= i < |ops| ==> ops[i].Set? || (ops[i].Get? && !ops[i].expired)
  }

  predicate NothingErased(ops: seq<Op>) {
    forall i :: 0 <= i < |ops| ==> !ops[i].Erase? && (ops[i].Get? ==> !ops[i].expired)
  }

  function Step(mode: Mode, max: nat, c: Content, op: Op): Content
    requires Safe(mode, max, c, op)
  {
    match op
    case Set(k, v) => AfterSet(mode, max, c, k, v)
    case Get(k, expired) => AfterGet(mode, max, c, k, expired)
    case Erase(k) => c.(blocks := c.blocks - {k})
    case Clear => Content(map[], [], c.total)
  }

  lemma StepKeepsEnumeration(mode: Mode, max: nat, c: Content, op: Op)
    requires Enumerated(c) && !op.Erase? && (op.Get? ==> !op.expired)
    ensures Safe(mode, max, c, op) && Enumerated(Step(mode, max, c, op))
  {
    EnumeratedIsSafe(mode, max, c, op);
    match op {
      case Set(k, v) =>
        if k !in c.blocks {
          var r := if max > 0 then RoomMade(mode, max, c) else c;
          if max > 0 {
            EnumeratedIsRoomy(mode, max, c);
            RoomKeepsValues(mode, max, c);
          }
          InsertionKeepsEnumeration(r, k, v);
        }
      case Get(k, _) =>
        if k in c.blocks && mode.LRU? {
          var t := Touched(c, k);
          assert t.items == c.items && t.blocks.Keys == c.blocks.Keys;
          ReorderKeepsEnumeration(t);
        }
      case Clear =>
    }
  }

  lemma InsertionKeepsEnumeration(r: Content, k: Key, v: Value)
    requires Enumerated(r) && k !in r.blocks
    ensures Enumerated(r.(blocks := r.blocks[k := Block(v, 0)], items := [k] + r.items))
  {
    var longer := [k] + r.items;
    assert longer[0] == k;
    forall q | q in r.blocks ensures q in longer {
      var i :| 0 <= i < |r.items| && r.items[i] == q;
      assert longer[i + 1] == q;
    }
  }

  /** No operation of a run reads a block that is not there; in FIFO mode none ever does. */
  predicate SafeRun(mode: Mode, max: nat, ops: seq<Op>)
    decreases |ops|, 0
  {
    mode.FIFO? || ops == [] ||
    (var n := |ops| - 1; SafeRun(mode, max, ops[..n]) && Safe(mode, max, After(mode, max, ops[..n]), ops[n]))
  }

  /** The content after a run from the empty cache. */
  function After(mode: Mode, max: nat, ops: seq<Op>): Content
    requires SafeRun(mode, max, ops)
    decreases |ops|, 1
  {
    if ops == [] then Empty
    else
      var n := |ops| - 1;
      Step(mode, max, After(mode, max, ops[..n]), ops[n])
  }

  /** The map a cache without a limit would hold. */
  function Ideal(ops: seq<Op>): map<Key, Value>
    decreases |ops|
  {
    if ops == [] then map[]
    else
      var n := |ops| - 1;
      var m := Ideal(ops[..n]);
      match ops[n]
      case Set(k, v) => m[k := v]
      case Get(k, expired) => if expired then m - {k} else m
      case Erase(k) => m - {k}
      case Clear => map[]
  }

  /** The keys in the order in which set found them missing, newest first, since the last
      clear. */
  function Inserted(mode: Mode, max: nat, ops: seq<Op>): seq<Key>
    requires SafeRun(mode, max, ops)
    decreases |ops|
  {
    if ops == [] then []
    else
      var n := |ops| - 1;
      var log := Inserted(mode, max, ops[..n]);
      match ops[n]
      case Set(k, _) => if k in After(mode, max, ops[..n]).blocks then log else [k] + log
      case Clear => []
      case _ => log
  }

  // ----- Coherence in either mode -----

  predicate PartOf(c: Content, m: map<Key, Value>) {
    forall k :: k in c.blocks ==> k in m && c.blocks[k].value == m[k]
  }

  lemma {:induction false} RoomKeepsValues(mode: Mode, max: nat, c: Content)
    requires max > 0 && Roomy(mode, max, c)
    ensures var r := RoomMade(mode, max, c);
            && (forall k :: k in r.blocks ==> k in c.blocks && r.blocks[k] == c.blocks[k])
            && (|c.items| < max ==> r == c) && |r.items| < max
            && r.total == c.total
    decreases |c.items|
  {
    if |c.items| >= max {
      RoomKeepsValues(mode, max, Evicted(mode, c));
    }
  }

  /** Whatever was set, read, erased, expired or cleared: what the cache holds is what an
      unlimited map would hold, so a read gives the last value set or nothing. */
  lemma {:induction false} CacheIsPartOfIdeal(mode: Mode, max: nat, ops: seq<Op>)
    requires SafeRun(mode, max, ops)
    ensures PartOf(After(mode, max, ops), Ideal(ops))
    decreases |ops|
  {
    if ops != [] {
      var n := |ops| - 1;
      CacheIsPartOfIdeal(mode, max, ops[..n]);
      var c := After(mode, max, ops[..n]);
      if ops[n].Set? && ops[n].key !in c.blocks && max > 0 {
        RoomKeepsValues(mode, max, c);
      }
    }
  }

  lemma ReadsAreNeverStale(mode: Mode, max: nat, ops: seq<Op>, k: Key, expired: bool)
    requires SafeRun(mode, max, ops)
    ensures var a := Answer(After(mode, max, ops), k, expired);
            a == None || (k in Ideal(ops) && a == Some(Ideal(ops)[k]))
  {
    CacheIsPartOfIdeal(mode, max, ops);
  }

  /** A read that has not expired answers for every cached key with the last value set, and
      for no other. */
  lemma ReadAnswersIff(mode: Mode, max: nat, ops: seq<Op>, k: Key, expired: bool)
    requires SafeRun(mode, max, ops)
    ensures k in After(mode, max, ops).blocks ==> k in Ideal(ops)
    ensures Answer(After(mode, max, ops), k, expired)
         == if k in After(mode, max, ops).blocks && !expired then Some(Ideal(ops)[k]) else None
  {
    CacheIsPartOfIdeal(mode, max, ops);
  }

  /** What was just set is found, whatever the limit and whatever had to go for it. */
  lemma ReadFindsWhatWasSet(mode: Mode, max: nat, ops: seq<Op>, k: Key, v: Value)
    requires SafeRun(mode, max, ops) && Safe(mode, max, After(mode, max, ops), Set(k, v))
    ensures SafeRun(mode, max, ops + [Set(k, v)])
    ensures Answer(After(mode, max, ops + [Set(k, v)]), k, false) == Some(v)
  {
    RunGoesOn(mode, max, ops, Set(k, v));
    hide After, SafeRun, Roomy, RoomMade;
  }

  lemma RunGoesOn(mode: Mode, max: nat, ops: seq<Op>, op: Op)
    requires SafeRun(mode, max, ops) && Safe(mode, max, After(mode, max, ops), op)
    ensures SafeRun(mode, max, ops + [op])
    ensures After(mode, max, ops + [op]) == Step(mode, max, After(mode, max, ops), op)
  {
    assert (ops + [op])[..|ops|] == ops;
    hide Safe, Step;
  }

  /** The end of the list goes up or out, or stays. */
  predicate EndIsLookedAt(c: Content, d: Content) {
    var n := |c.items| - 1;
    && n >= 0 && d.blocks.Keys == c.blocks.Keys
    && (c.items[n] !in c.blocks ==> d.items == c.items[..n])
    && (c.items[n] in c.blocks ==>
          d.items == if d.blocks[c.items[n]].count > d.total / |c.items| then [c.items[n]] + c.items[..n] else c.items)
  }

  lemma HitLooks(max: nat, c: Content, k: Key)
    requires Safe(LRU, max, c, Get(k, false)) && k in c.blocks
    ensures EndIsLookedAt(c, Step(LRU, max, c, Get(k, false)))
  {
  }

  /** An LRU read that finds its key looks once at the end of the list: a key there that is not
      cached is dropped, one used above average goes to the front, and nothing else moves. */
  lemma HitLooksAtTheEnd(max: nat, ops: seq<Op>, k: Key)
    requires SafeRun(LRU, max, ops) && Safe(LRU, max, After(LRU, max, ops), Get(k, false))
    requires k in After(LRU, max, ops).blocks
    ensures SafeRun(LRU, max, ops + [Get(k, false)])
    ensures EndIsLookedAt(After(LRU, max, ops), After(LRU, max, ops + [Get(k, false)]))
  {
    hide *;
    RunGoesOn(LRU, max, ops, Get(k, false));
    HitLooks(max, After(LRU, max, ops), k);
  }

  /** How often a key was read since it was set last. */
  function ReadsSinceSet(mode: Mode, ops: seq<Op>, k: Key): nat
    decreases |ops|
  {
    if ops == [] then 0
    else
      var n := |ops| - 1;
      ReadsAfter(mode, ops[n], k, ReadsSinceSet(mode, ops[..n], k))
  }

  /** What one operation makes of the reads of a key since it was set. */
  function ReadsAfter(mode: Mode, op: Op, k: Key, earlier: nat): nat {
    match op
    case Set(j, _) => if j == k then 0 else earlier
    case Get(j, _) => earlier + if j == k && mode.LRU? then 1 else 0
    case _ => earlier
  }

  predicate CountIs(c: Content, k: Key, n: nat) {
    k in c.blocks ==> c.blocks[k].count == n % U32
  }

  lemma CountAfterSet(mode: Mode, max: nat, c: Content, op: Op, k: Key, n: nat)
    requires op.Set? && Safe(mode, max, c, op) && CountIs(c, k, n)
    ensures CountIs(Step(mode, max, c, op), k, ReadsAfter(mode, op, k, n))
  {
    if op.key !in c.blocks && max > 0 {
      RoomKeepsValues(mode, max, c);
    }
    hide RoomMade, Roomy;
  }

  lemma CountAfterGet(mode: Mode, max: nat, c: Content, op: Op, k: Key, n: nat)
    requires op.Get? && Safe(mode, max, c, op) && CountIs(c, k, n)
    ensures CountIs(Step(mode, max, c, op), k, ReadsAfter(mode, op, k, n))
  {
    NextHit(n);
  }

  lemma {:induction false} CountsFollowReads(mode: Mode, max: nat, ops: seq<Op>, k: Key)
    requires SafeRun(mode, max, ops)
    ensures CountIs(After(mode, max, ops), k, ReadsSinceSet(mode, ops, k))
    decreases |ops|
  {
    if ops != [] {
      OneMore(mode, max, ops);
      var n := |ops| - 1;
      CountsFollowReads(mode, max, ops[..n], k);
      var c, r := After(mode, max, ops[..n]), ReadsSinceSet(mode, ops[..n], k);
      assert ReadsSinceSet(mode, ops, k) == ReadsAfter(mode, ops[n], k, r);
      hide After, SafeRun, Safe, ReadsSinceSet;
      if ops[n].Set? {
        CountAfterSet(mode, max, c, ops[n], k, r);
      } else if ops[n].Get? {
        CountAfterGet(mode, max, c, ops[n], k, r);
      }
      hide AfterSet, AfterGet;
    }
  }

  /** The count of every cached key is the number of its reads since it was set, in 32 bits;
      in FIFO mode nothing is counted. */
  lemma CountsAreReads(mode: Mode, max: nat, ops: seq<Op>, k: Key)
    requires SafeRun(mode, max, ops)
    ensures k in After(mode, max, ops).blocks ==>
              After(mode, max, ops).blocks[k].count == ReadsSinceSet(mode, ops, k) % U32
  {
    CountsFollowReads(mode, max, ops, k);
    hide After, SafeRun, ReadsSinceSet;
  }

  // ----- FIFO -----

  predicate Listed(c: Content) {
    forall k :: k in c.blocks ==> k in c.items
  }

  lemma ListedBoundsSize(c: Content)
    requires Listed(c)
    ensures |c.blocks| <= |c.items|
  {
    SetOfBound(c.items);
    assert c.blocks.Keys <= SetOf(c.items);
    SubsetBound(c.blocks.Keys, SetOf(c.items));
  }

  function SetOf(s: seq<Key>): set<Key> {
    set k | k in s
  }

  lemma {:induction false} SetOfBound(s: seq<Key>)
    ensures |SetOf(s)| <= |s|
  {
    if s != [] {
      var n := |s| - 1;
      SetOfBound(s[..n]);
      assert s == s[..n] + [s[n]];
      assert SetOf(s) == SetOf(s[..n]) + {s[n]};
    }
  }

  lemma {:induction false} SubsetBound(a: set<Key>, b: set<Key>)
    requires a <= b
    ensures |a| <= |b|
  {
    if a != {} {
      var x :| x in a;
      SubsetBound(a - {x}, b - {x});
    }
  }

  lemma DeletionKeepsListed(c: Content)
    requires c.items != [] && Listed(c)
    ensures Listed(LastDeleted(c))
  {
    var r := LastDeleted(c);
    forall k | k in r.blocks ensures k in r.items {
      var i :| 0 <= i < |c.items| && c.items[i] == k;
      assert r.items[i] == k;
    }
  }

  lemma ReorderKeepsListed(c: Content)
    requires c.items != [] && c.items[0] in c.blocks && Listed(c)
    ensures Listed(Reordered(c)) && Reordered(c).blocks == c.blocks
  {
    var n := |c.items| - 1;
    assert c.items == c.items[..n] + [c.items[n]];
  }

  lemma {:induction false} RoomKeepsListed(mode: Mode, max: nat, c: Content)
    requires max > 0 && Roomy(mode, max, c) && Listed(c)
    ensures Listed(RoomMade(mode, max, c))
    decreases |c.items|
  {
    if |c.items| >= max {
      if mode.LRU? {
        ReorderKeepsListed(c);
        DeletionKeepsListed(Reordered(c));
      } else {
        DeletionKeepsListed(c);
      }
      RoomKeepsListed(mode, max, Evicted(mode, c));
    }
  }

  /** What every run keeps in either mode, with stale entries and all: every cached key is in
      the list, and neither the list nor the map outgrows the limit. */
  lemma {:induction false} EveryValueIsListed(mode: Mode, max: nat, ops: seq<Op>)
    requires SafeRun(mode, max, ops)
    ensures var c := After(mode, max, ops);
            Listed(c) && (max > 0 ==> |c.blocks| <= |c.items| <= max)
    decreases |ops|
  {
    if ops != [] {
      OneMore(mode, max, ops);
      var n := |ops| - 1;
      EveryValueIsListed(mode, max, ops[..n]);
      var c := After(mode, max, ops[..n]);
      hide After, SafeRun;
      StepKeepsListed(mode, max, c, ops[n]);
      hide Step, Listed;
    }
    ListedBoundsSize(After(mode, max, ops));
  }

  lemma StepKeepsListed(mode: Mode, max: nat, c: Content, op: Op)
    requires Safe(mode, max, c, op) && Listed(c) && (max > 0 ==> |c.items| <= max)
    ensures var d := Step(mode, max, c, op); Listed(d) && (max > 0 ==> |d.items| <= max)
  {
    if op.Set? && op.key !in c.blocks {
      if max > 0 {
        RoomKeepsListed(mode, max, c);
        RoomKeepsValues(mode, max, c);
      }
    } else if op.Get? && op.key in c.blocks && mode.LRU? && !op.expired {
      ReorderKeepsListed(Touched(c, op.key));
    }
  }

  /** The eviction loop drops the tail of the list and nothing else from it. */
  lemma {:induction false} RoomIsMadeAtTheBack(max: nat, c: Content)
    requires max > 0 && Listed(c)
    ensures var r := RoomMade(FIFO, max, c);
            Listed(r) && r.items == c.items[..if |c.items| < max then |c.items| else max - 1]
    decreases |c.items|
  {
    if |c.items| >= max {
      DeletionKeepsListed(c);
      RoomIsMadeAtTheBack(max, Evicted(FIFO, c));
    }
  }

  /** What any FIFO run keeps: every cached key is in the list, the list is the newest part
      of the insertion log, whether or not entries in it have become stale, and neither the
      list nor the map outgrows the limit. */
  lemma {:induction false} FifoRun(max: nat, ops: seq<Op>)
    ensures var c := After(FIFO, max, ops);
            && Listed(c)
            && c.items <= Inserted(FIFO, max, ops)
            && (max > 0 ==> |c.blocks| <= |c.items| <= max)
    decreases |ops|
  {
    if ops != [] {
      var n := |ops| - 1;
      FifoRun(max, ops[..n]);
      FifoStep(max, ops);
    }
    ListedBoundsSize(After(FIFO, max, ops));
  }

  lemma FifoStep(max: nat, ops: seq<Op>)
    requires ops != []
    requires var p := ops[..|ops| - 1]; var c := After(FIFO, max, p);
             Listed(c) && c.items <= Inserted(FIFO, max, p) && (max > 0 ==> |c.items| <= max)
    ensures var c := After(FIFO, max, ops);
            Listed(c) && c.items <= Inserted(FIFO, max, ops) && (max > 0 ==> |c.items| <= max)
  {
    var n := |ops| - 1;
    var p := ops[..n];
    var c, log := After(FIFO, max, p), Inserted(FIFO, max, p);
    if ops[n].Set? && ops[n].key !in c.blocks {
      var k := ops[n].key;
      var r := if max > 0 then RoomMade(FIFO, max, c) else c;
      if max > 0 {
        RoomIsMadeAtTheBack(max, c);
      }
      var after := After(FIFO, max, ops);
      assert after.items == [k] + r.items;
      assert r.items == log[..|r.items|];
      assert after.items == ([k] + log)[..|r.items| + 1];
      forall q | q in after.blocks ensures q in after.items {
        assert q == k || q in r.items;
        assert after.items[0] == k && after.items[1..] == r.items;
      }
    }
  }

  /** As long as nothing is erased and nothing expires, the list has neither stale nor
      duplicate entries, so the survivors are exactly the keys inserted last. */
  lemma {:induction false} SurvivorsAreTheNewest(max: nat, ops: seq<Op>)
    requires NothingErased(ops)
    ensures var c := After(FIFO, max, ops);
            var log := Inserted(FIFO, max, ops);
            && Enumerated(c)
            && c.items == log[..if max == 0 || |log| < max then |log| else max]
    decreases |ops|
  {
    FifoRun(max, ops);
    if ops != [] {
      var n := |ops| - 1;
      assert NothingErased(ops[..n]);
      SurvivorsAreTheNewest(max, ops[..n]);
      SurvivorsStep(max, After(FIFO, max, ops[..n]), ops[n]);
    }
  }

  /** So a read then answers for exactly the keys inserted last. */
  lemma ReadsFindTheNewest(max: nat, ops: seq<Op>, k: Key)
    requires NothingErased(ops)
    ensures var log := Inserted(FIFO, max, ops);
            Answer(After(FIFO, max, ops), k, false).Some? <==> k in log[..if max == 0 || |log| < max then |log| else max]
  {
    SurvivorsAreTheNewest(max, ops);
    var c := After(FIFO, max, ops);
    hide After, Inserted;
    assert k in c.blocks <==> k in c.items;
  }

  lemma SurvivorsStep(max: nat, c: Content, op: Op)
    requires Enumerated(c) && Listed(c) && !op.Erase? && (op.Get? ==> !op.expired)
    ensures Enumerated(Step(FIFO, max, c, op))
    ensures op.Set? && op.key !in c.blocks && (max == 0 || |c.items| < max) ==>
              |Step(FIFO, max, c, op).items| == |c.items| + 1
    ensures op.Set? && op.key !in c.blocks && |c.items| == max > 0 ==> |Step(FIFO, max, c, op).items| == max
  {
    StepKeepsEnumeration(FIFO, max, c, op);
    if op.Set? && op.key !in c.blocks && max > 0 {
      RoomIsMadeAtTheBack(max, c);
    }
  }

  /** After an erase the stale list entry stays behind. When the same key comes back, making
      room for another one throws out the live value through its old entry: the youngest
      entry goes although the cache holds only one value out of two. */
  lemma StaleEntryEvictsTheYoungest(a: Key, b: Key, v: Value)
    requires a != b
    ensures var c := After(FIFO, 2, [Set(a, v), Erase(a), Set(a, v)]);
            && c.blocks.Keys == {a} && c.items == [a, a]
            && AfterSet(FIFO, 2, c, b, v).blocks.Keys == {b}
  {
    var first, second := [Set(a, v)], [Set(a, v), Erase(a)];
    var ops := [Set(a, v), Erase(a), Set(a, v)];
    assert first[..0] == [] && second[..1] == first && ops[..2] == second;
    var block := map[a := Block(v, 0)];
    OneMore(FIFO, 2, first);
    assert RoomMade(FIFO, 2, Empty) == Empty;
    assert After(FIFO, 2, first) == Content(block, [a], 0);
    OneMore(FIFO, 2, second);
    assert block - {a} == map[];
    assert After(FIFO, 2, second) == Content(map[], [a], 0);
    OneMore(FIFO, 2, ops);
    assert RoomMade(FIFO, 2, Content(map[], [a], 0)) == Content(map[], [a], 0);
    var c := Content(block, [a, a], 0);
    assert After(FIFO, 2, ops) == c;
    assert Evicted(FIFO, c) == Content(map[], [a], 0);
    assert RoomMade(FIFO, 2, c) == Content(map[], [a], 0);
  }

  /** How much of the list stays when room is made for another key. */
  function Staying(max: nat, c: Content): (n: nat)
    ensures n <= |c.items|
  {
    if max == 0 || |c.items| < max then |c.items| else max - 1
  }

  /** A set whose key was erased or expired, while its old entry stands among those that
      stay. */
  predicate ComesBack(max: nat, c: Content, op: Op) {
    op.Set? && op.key !in c.blocks && op.key in c.items[..Staying(max, c)]
  }

  lemma StepIsFreeOfDuplicatesIff(max: nat, c: Content, op: Op)
    requires Listed(c) && NoDuplicates(c.items)
    ensures NoDuplicates(Step(FIFO, max, c, op).items) <==> !ComesBack(max, c, op)
  {
    if op.Set? && op.key !in c.blocks {
      if max > 0 {
        RoomIsMadeAtTheBack(max, c);
      }
      var stay := c.items[..Staying(max, c)];
      assert Step(FIFO, max, c, op).items == [op.key] + stay;
      hide Step, RoomMade, Listed;
      FirstIsNewIff(op.key, stay);
    }
  }

  lemma FirstIsNewIff(k: Key, items: seq<Key>)
    requires NoDuplicates(items)
    ensures NoDuplicates([k] + items) <==> k !in items
  {
    var s := [k] + items;
    assert forall i :: 0 < i < |s| ==> s[i] == items[i - 1];
    if k in items {
      var i :| 0 <= i < |items| && items[i] == k;
      assert s[0] == s[i + 1];
    }
  }

  /** No key is ever listed twice during a run. */
  predicate NeverListedTwice(max: nat, ops: seq<Op>) {
    forall n :: 0 <= n <= |ops| ==> NoDuplicates(After(FIFO, max, ops[..n]).items)
  }

  /** No set of a run brings a key back while its old entry stays in the list. */
  predicate NoneComesBack(max: nat, ops: seq<Op>) {
    forall n :: 0 <= n < |ops| ==> !ComesBack(max, After(FIFO, max, ops[..n]), ops[n])
  }

  lemma OneMoreTwice(max: nat, ops: seq<Op>)
    requires ops != []
    ensures var before := ops[..|ops| - 1];
            NeverListedTwice(max, ops) <==> NeverListedTwice(max, before) && NoDuplicates(After(FIFO, max, ops).items)
  {
    var before := ops[..|ops| - 1];
    assert forall n :: 0 <= n <= |before| ==> before[..n] == ops[..n];
    assert ops[..|ops|] == ops;
    hide NoDuplicates, After;
  }

  lemma OneMoreBack(max: nat, ops: seq<Op>)
    requires ops != []
    ensures var m := |ops| - 1;
            NoneComesBack(max, ops) <==> NoneComesBack(max, ops[..m]) && !ComesBack(max, After(FIFO, max, ops[..m]), ops[m])
  {
    var before := ops[..|ops| - 1];
    assert forall n :: 0 <= n <= |before| ==> before[..n] == ops[..n];
    hide ComesBack, After;
  }

  /** Over every FIFO run: no key is ever listed twice if and only if no set brings a key back
      while its old entry stays in the list. */
  lemma {:induction false} FreeOfDuplicatesIff(max: nat, ops: seq<Op>)
    ensures NeverListedTwice(max, ops) <==> NoneComesBack(max, ops)
    ensures NeverListedTwice(max, ops) ==> NoDuplicates(After(FIFO, max, ops).items)
    decreases |ops|
  {
    hide ComesBack, NoDuplicates, Step, Listed;
    if ops == [] {
      EmptyHasNoDuplicates();
    } else {
      var m := |ops| - 1;
      var before := ops[..m];
      FreeOfDuplicatesIff(max, before);
      FifoRun(max, before);
      OneMoreTwice(max, ops);
      OneMoreBack(max, ops);
      var c := After(FIFO, max, before);
      assert After(FIFO, max, ops) == Step(FIFO, max, c, ops[m]);
      hide NeverListedTwice, NoneComesBack, After;
      if NoDuplicates(c.items) {
        StepIsFreeOfDuplicatesIff(max, c, ops[m]);
      }
    }
  }

  lemma EmptyHasNoDuplicates()
    ensures NoDuplicates(Empty.items)
  {
  }

  /** A key that is listed and not cached may come back without harm: its old entry is the one
      that makes room. */
  lemma ComingBackCanBeHarmless(a: Key, v: Value)
    ensures var ops := [Set(a, v), Erase(a), Set(a, v)];
            var c := After(FIFO, 1, ops[..2]);
            NeverListedTwice(1, ops) && a in c.items && a !in c.blocks
  {
    var ops := [Set(a, v), Erase(a), Set(a, v)];
    assert ops[..2] == [Set(a, v), Erase(a)] && ops[..2][..1] == [Set(a, v)] && [Set(a, v)][..0] == [];
    assert After(FIFO, 1, [Set(a, v)]).items == [a];
    forall n | 0 <= n < |ops|
      ensures !ComesBack(1, After(FIFO, 1, ops[..n]), ops[n])
    {
      assert Staying(1, After(FIFO, 1, ops[..n])) == 0;
    }
    FreeOfDuplicatesIff(1, ops);
  }

  lemma {:induction false} EvictionLeavesOthers(max: nat, c: Content)
    requires max > 0
    ensures var r := RoomMade(FIFO, max, c);
            && r.items == c.items[..Staying(max, c)]
            && r.blocks.Keys == c.blocks.Keys - SetOf(c.items[Staying(max, c)..])
    decreases |c.items|
  {
    if |c.items| < max {
      assert SetOf(c.items[Staying(max, c)..]) == {};
      assert c.items[..|c.items|] == c.items;
    } else {
      var e := Evicted(FIFO, c);
      EvictionLeavesOthers(max, e);
      var n, m := |c.items| - 1, Staying(max, c);
      assert c.items[m..] == e.items[Staying(max, e)..] + [c.items[n]];
      assert SetOf(c.items[m..]) == SetOf(e.items[Staying(max, e)..]) + {c.items[n]};
    }
  }

  /** And along such a run making room is fair: no value goes while its key stays listed. */
  lemma NoListedKeyIsEvicted(max: nat, ops: seq<Op>, k: Key)
    requires max > 0 && NoneComesBack(max, ops)
    ensures var c := After(FIFO, max, ops);
            var r := RoomMade(FIFO, max, c);
            k in c.blocks && k in r.items ==> k in r.blocks
  {
    FreeOfDuplicatesIff(max, ops);
    hide NeverListedTwice, NoneComesBack, After;
    var c := After(FIFO, max, ops);
    EvictionLeavesOthers(max, c);
    hide RoomMade;
  }

  lemma OneMore(mode: Mode, max: nat, ops: seq<Op>)
    requires ops != [] && SafeRun(mode, max, ops)
    ensures SafeRun(mode, max, ops[..|ops| - 1]) && Safe(mode, max, After(mode, max, ops[..|ops| - 1]), ops[|ops| - 1])
    ensures After(mode, max, ops) == Step(mode, max, After(mode, max, ops[..|ops| - 1]), ops[|ops| - 1])
  {
  }

  // ----- LRU -----

  function Uses(items: seq<Key>, blocks: map<Key, Block>): nat
    requires forall i :: 0 <= i < |items| ==> items[i] in blocks
  {
    if items == [] then 0 else blocks[items[0]].count + Uses(items[1..], blocks)
  }

  lemma {:induction false} UsesSplit(a: seq<Key>, b: seq<Key>, blocks: map<Key, Block>)
    requires forall i :: 0 <= i < |a| ==> a[i] in blocks
    requires forall i :: 0 <= i < |b| ==> b[i] in blocks
    ensures Uses(a + b, blocks) == Uses(a, blocks) + Uses(b, blocks)
  {
    if a == [] {
      assert a + b == b;
    } else {
      UsesSplit(a[1..], b, blocks);
      assert (a + b)[1..] == a[1..] + b;
    }
  }

  lemma {:induction false} UsesFrame(items: seq<Key>, p: map<Key, Block>, q: map<Key, Block>)
    requires forall i :: 0 <= i < |items| ==> items[i] in p && items[i] in q && q[items[i]].count <= p[items[i]].count
    ensures Uses(items, q) <= Uses(items, p)
  {
    if items != [] {
      UsesFrame(items[1..], p, q);
    }
  }

  lemma ReorderKeepsUses(c: Content)
    requires c.items != [] && Enumerated(c)
    ensures var m := Reordered(c); Enumerated(m) && Uses(m.items, m.blocks) == Uses(c.items, c.blocks)
  {
    ReorderKeepsEnumeration(c);
    ReorderedItems(c);
    hide *;
    if Reordered(c).items != c.items {
      RotationKeepsUses(c.items, c.blocks);
    }
  }

  lemma ReorderedItems(c: Content)
    requires c.items != [] && Enumerated(c)
    ensures var m, n := Reordered(c), |c.items| - 1;
            m.blocks == c.blocks && (m.items == c.items || m.items == [c.items[n]] + c.items[..n])
    ensures forall i :: 0 <= i < |c.items| ==> c.items[i] in c.blocks
  {
  }

  lemma RotationKeepsUses(items: seq<Key>, blocks: map<Key, Block>)
    requires items != [] && forall i :: 0 <= i < |items| ==> items[i] in blocks
    ensures var n := |items| - 1;
            var rotated := [items[n]] + items[..n];
            (forall i :: 0 <= i < |rotated| ==> rotated[i] in blocks) && Uses(rotated, blocks) == Uses(items, blocks)
  {
    var n := |items| - 1;
    var last, others := [items[n]], items[..n];
    assert items == others + last;
    UsesSplit(others, last, blocks);
    UsesSplit(last, others, blocks);
  }

  lemma DeletionKeepsUses(c: Content)
    requires c.items != [] && Enumerated(c)
    ensures var r := LastDeleted(c); Enumerated(r) && Uses(r.items, r.blocks) <= Uses(c.items, c.blocks)
  {
    DeletionKeepsEnumeration(c);
    var n := |c.items| - 1;
    assert c.items == c.items[..n] + [c.items[n]];
    UsesSplit(c.items[..n], [c.items[n]], c.blocks);
    UsesFrame(c.items[..n], c.blocks, LastDeleted(c).blocks);
  }

  lemma {:induction false} RoomKeepsUses(max: nat, c: Content)
    requires max > 0 && Enumerated(c)
    ensures Roomy(LRU, max, c) && Enumerated(RoomMade(LRU, max, c))
    ensures var r := RoomMade(LRU, max, c); Uses(r.items, r.blocks) <= Uses(c.items, c.blocks)
    decreases |c.items|
  {
    if |c.items| >= max {
      ReorderKeepsUses(c);
      DeletionKeepsUses(Reordered(c));
      EvictionKeepsEnumeration(LRU, c);
      RoomKeepsUses(max, Evicted(LRU, c));
    }
  }

  lemma {:induction false} TouchAddsOneUse(items: seq<Key>, c: Content, k: Key)
    requires k in c.blocks && NoDuplicates(items) && forall i :: 0 <= i < |items| ==> items[i] in c.blocks
    ensures Uses(items, Touched(c, k).blocks) <= Uses(items, c.blocks) + if k in items then 1 else 0
  {
    if items != [] {
      TouchAddsOneUse(items[1..], c, k);
    }
  }

  /** Reads that found their key. */
  function Hits(max: nat, ops: seq<Op>): nat
    requires SafeRun(LRU, max, ops)
    decreases |ops|
  {
    if ops == [] then 0
    else
      var n := |ops| - 1;
      Hits(max, ops[..n])
      + if ops[n].Get? && ops[n].key in After(LRU, max, ops[..n]).blocks then 1 else 0
  }

  /** The list enumerates the cache within the limit, the shared counter is the number of
      hits modulo 2^32, and the live counts add up to no more hits than there were. */
  predicate Counted(max: nat, c: Content, hits: nat) {
    && Enumerated(c)
    && (max > 0 ==> |c.items| <= max)
    && c.total == hits % U32
    && Uses(c.items, c.blocks) <= hits
  }

  /** What any LRU run of sets and reads keeps. Until the counter wraps, the live counts add
      up to no more than the counter they are compared with. */
  lemma {:induction false} LruRun(max: nat, ops: seq<Op>)
    requires SetsAndGets(ops)
    ensures SafeRun(LRU, max, ops)
    ensures Counted(max, After(LRU, max, ops), Hits(max, ops))
    ensures var c := After(LRU, max, ops);
            Hits(max, ops) < U32 ==> Uses(c.items, c.blocks) <= c.total
    decreases |ops|
  {
    hide Counted, Uses, Step, Safe;
    if ops == [] {
      EmptyIsCounted(max);
    } else {
      var n := |ops| - 1;
      LruRun(max, ops[..n]);
      CountedIsSafe(max, After(LRU, max, ops[..n]), ops[n], Hits(max, ops[..n]));
      LruStep(max, After(LRU, max, ops[..n]), ops[n], Hits(max, ops[..n]));
    }
    BeforeTheWrap(max, After(LRU, max, ops), Hits(max, ops));
  }

  lemma EmptyIsCounted(max: nat)
    ensures Counted(max, Empty, 0)
  {
  }

  lemma CountedIsSafe(max: nat, c: Content, op: Op, hits: nat)
    requires Counted(max, c, hits)
    ensures Safe(LRU, max, c, op)
  {
    hide Safe, Uses;
    EnumeratedIsSafe(LRU, max, c, op);
  }

  lemma BeforeTheWrap(max: nat, c: Content, hits: nat)
    requires Counted(max, c, hits)
    ensures hits < U32 ==> Uses(c.items, c.blocks) <= c.total
  {
  }

  lemma LruStep(max: nat, c: Content, op: Op, hits: nat)
    requires Counted(max, c, hits) && (op.Set? || (op.Get? && !op.expired)) && Safe(LRU, max, c, op)
    ensures Counted(max, Step(LRU, max, c, op), hits + if op.Get? && op.key in c.blocks then 1 else 0)
  {
    hide Uses, NoDuplicates;
    StepKeepsEnumeration(LRU, max, c, op);
    if op.Set? {
      SetKeepsUses(max, c, op.key, op.value);
    } else if op.key in c.blocks {
      HitIsCounted(max, c, op.key, hits);
    }
  }

  lemma HitIsCounted(max: nat, c: Content, k: Key, hits: nat)
    requires Counted(max, c, hits) && k in c.blocks
    ensures Counted(max, Reordered(Touched(c, k)), hits + 1)
  {
    var t := Touched(c, k);
    TouchIsCounted(max, c, k, hits);
    hide Touched, Enumerated, Uses;
    ReorderKeepsUses(t);
    ReorderKeepsEnumeration(t);
    assert Reordered(t).total == t.total;
  }

  lemma TouchIsCounted(max: nat, c: Content, k: Key, hits: nat)
    requires Counted(max, c, hits) && k in c.blocks
    ensures Counted(max, Touched(c, k), hits + 1) && c.items != []
  {
    var t := Touched(c, k);
    NextHit(hits);
    TouchAddsOneUse(c.items, c, k);
    hide Uses;
    assert t.items == c.items && t.blocks.Keys == c.blocks.Keys;
    assert Enumerated(t);
  }

  lemma NextHit(hits: nat)
    ensures (hits % U32 + 1) % U32 == (hits + 1) % U32
  {
  }

  lemma SetKeepsUses(max: nat, c: Content, k: Key, v: Value)
    requires Enumerated(c) && Safe(LRU, max, c, Set(k, v)) && Enumerated(AfterSet(LRU, max, c, k, v))
    requires max > 0 ==> |c.items| <= max
    ensures var d := AfterSet(LRU, max, c, k, v);
            d.total == c.total && Uses(d.items, d.blocks) <= Uses(c.items, c.blocks) && (max > 0 ==> |d.items| <= max)
  {
    var d := AfterSet(LRU, max, c, k, v);
    if k in c.blocks {
      UsesFrame(c.items, c.blocks, d.blocks);
    } else {
      var r := if max > 0 then RoomMade(LRU, max, c) else c;
      if max > 0 {
        RoomKeepsValues(LRU, max, c);
        RoomKeepsUses(max, c);
        EnumeratedIsRoomy(LRU, max, c);
      }
      assert k !in r.blocks && Enumerated(r);
      assert d.items[1..] == r.items;
      assert d.blocks[d.items[0]].count == 0;
      UsesFrame(r.items, r.blocks, d.blocks);
    }
  }

  /** Which key goes: the last in the list, or the one before it when the last is used above
      average. */
  function Victim(c: Content): Key
    requires Enumerated(c) && c.items != []
  {
    var n := |c.items|;
    if n > 1 && c.blocks[c.items[n - 1]].count > c.total / n then c.items[n - 2] else c.items[n - 1]
  }

  /** Who goes when a full LRU cache takes a new key. Only one look is taken, so the victim
      goes however often it was used; everything else stays. */
  lemma LruVictim(max: nat, c: Content, k: Key, v: Value)
    requires Enumerated(c) && k !in c.blocks && |c.items| == max >= 1
    ensures Safe(LRU, max, c, Set(k, v))
    ensures AfterSet(LRU, max, c, k, v).blocks == (c.blocks - {Victim(c)})[k := Block(v, 0)]
    ensures AfterSet(LRU, max, c, k, v).total == c.total
  {
    EnumeratedIsSafe(LRU, max, c, Set(k, v));
    var e := Evicted(LRU, c);
    EvictionKeepsEnumeration(LRU, c);
    assert RoomMade(LRU, max, c) == e;
    var m := Reordered(c);
    assert m.items[|m.items| - 1] == Victim(c);
  }

  /** A key used above average goes exactly when both keys at the end of the list are used
      above average. */
  lemma HotVictimIff(max: nat, c: Content)
    requires Enumerated(c) && |c.items| == max >= 2
    ensures c.blocks[Victim(c)].count > c.total / max
            <==> c.blocks[c.items[max - 1]].count > c.total / max && c.blocks[c.items[max - 2]].count > c.total / max
  {
  }

  // ----- A run that evicts a hot key -----

  /** Two keys, read x and y times. */
  function Pair(first: Key, second: Key, v: Value, x: u32, y: u32, items: seq<Key>): Content
    requires x + y < U32
  {
    Content(map[first := Block(v, x), second := Block(v, y)], items, x + y)
  }

  lemma AppendOne(max: nat, ops: seq<Op>, op: Op)
    requires SafeRun(LRU, max, ops) && Safe(LRU, max, After(LRU, max, ops), op)
    ensures SafeRun(LRU, max, ops + [op])
    ensures After(LRU, max, ops + [op]) == Step(LRU, max, After(LRU, max, ops), op)
  {
    assert (ops + [op])[..|ops|] == ops;
  }

  function Times(n: nat, op: Op): seq<Op> {
    if n == 0 then [] else Times(n - 1, op) + [op]
  }

  /** Reading the first of two keys over and over brings it to the front at once, and leaves
      it there. */
  lemma {:induction false} FirstIsRead(ops: seq<Op>, a: Key, b: Key, v: Value, n: nat)
    requires a != b && n < 100 && SafeRun(LRU, 3, ops) && After(LRU, 3, ops) == Pair(a, b, v, 0, 0, [b, a])
    ensures var more := ops + Times(n, Op.Get(a, false));
            && SafeRun(LRU, 3, more)
            && After(LRU, 3, more) == Pair(a, b, v, n, 0, if n == 0 then [b, a] else [a, b])
  {
    if n == 0 {
      assert ops + Times(0, Op.Get(a, false)) == ops;
    } else {
      FirstIsRead(ops, a, b, v, n - 1);
      var before, op := ops + Times(n - 1, Op.Get(a, false)), Op.Get(a, false);
      assert ops + Times(n, op) == before + [op];
      hide After, SafeRun, Times;
      TouchFirst(a, b, v, n - 1);
      hide Step, Safe, Pair;
      AppendOne(3, before, op);
    }
  }

  lemma TouchFirst(a: Key, b: Key, v: Value, n: nat)
    requires a != b && n < 100
    ensures var c := Pair(a, b, v, n, 0, if n == 0 then [b, a] else [a, b]);
            && Safe(LRU, 3, c, Op.Get(a, false))
            && Step(LRU, 3, c, Op.Get(a, false)) == Pair(a, b, v, n + 1, 0, [a, b])
  {
    var c := Pair(a, b, v, n, 0, if n == 0 then [b, a] else [a, b]);
    var t := Touched(c, a);
    assert t.blocks == map[a := Block(v, n + 1), b := Block(v, 0)];
    assert [a] + [b, a][..1] == [a, b];
  }

  /** As many reads of the second one never bring its use above the average of both. */
  lemma {:induction false} SecondIsRead(ops: seq<Op>, a: Key, b: Key, v: Value, m: nat, n: nat)
    requires a != b && n <= m < 100 && SafeRun(LRU, 3, ops) && After(LRU, 3, ops) == Pair(a, b, v, m, 0, [a, b])
    ensures var more := ops + Times(n, Op.Get(b, false));
            SafeRun(LRU, 3, more) && After(LRU, 3, more) == Pair(a, b, v, m, n, [a, b])
  {
    if n == 0 {
      assert ops + Times(0, Op.Get(b, false)) == ops;
    } else {
      SecondIsRead(ops, a, b, v, m, n - 1);
      var before, op := ops + Times(n - 1, Op.Get(b, false)), Op.Get(b, false);
      assert ops + Times(n, op) == before + [op];
      hide After, SafeRun, Times;
      TouchSecond(a, b, v, m, n - 1);
      hide Step, Safe, Pair;
      AppendOne(3, before, op);
    }
  }

  lemma TouchSecond(a: Key, b: Key, v: Value, m: nat, n: nat)
    requires a != b && n < m < 100
    ensures var c := Pair(a, b, v, m, n, [a, b]);
            && Safe(LRU, 3, c, Op.Get(b, false))
            && Step(LRU, 3, c, Op.Get(b, false)) == Pair(a, b, v, m, n + 1, [a, b])
  {
    var t := Touched(Pair(a, b, v, m, n, [a, b]), b);
    assert t.blocks == map[a := Block(v, m), b := Block(v, n + 1)];
  }

  lemma TwoKeysAreSet(a: Key, b: Key, v: Value)
    requires a != b
    ensures var ops := [Set(a, v), Set(b, v)];
            SafeRun(LRU, 3, ops) && After(LRU, 3, ops) == Pair(a, b, v, 0, 0, [b, a])
  {
    AppendOne(3, [], Set(a, v));
    assert [] + [Set(a, v)] == [Set(a, v)] && [Set(a, v)] + [Set(b, v)] == [Set(a, v), Set(b, v)];
    assert After(LRU, 3, [Set(a, v)]) == Content(map[a := Block(v, 0)], [a], 0);
    AppendOne(3, [Set(a, v)], Set(b, v));
  }

  /** Two keys that are read five times each, and a third one that is set and never read. */
  function TwoHotOneCold(hot1: Key, hot2: Key, cold: Key, v: Value): seq<Op> {
    [Set(hot1, v), Set(hot2, v)] + Times(5, Op.Get(hot1, false)) + Times(5, Op.Get(hot2, false)) + [Set(cold, v)]
  }

  /** After that run the next key throws a hot one out, and the one that was never read
      stays. */
  lemma HotKeyCanBeEvicted(cold: Key, hot1: Key, hot2: Key, next: Key, v: Value)
    requires NoDuplicates([cold, hot1, hot2, next])
    ensures var ops := TwoHotOneCold(hot1, hot2, cold, v);
            && SafeRun(LRU, 3, ops)
            && Safe(LRU, 3, After(LRU, 3, ops), Set(next, v))
            && AfterSet(LRU, 3, After(LRU, 3, ops), next, v).blocks.Keys == {cold, hot2, next}
  {
    var s := [cold, hot1, hot2, next];
    assert s[0] != s[1] && s[0] != s[2] && s[0] != s[3] && s[1] != s[2] && s[1] != s[3] && s[2] != s[3];
    var ops := [Set(hot1, v), Set(hot2, v)];
    hide After, SafeRun, Times;
    TwoKeysAreSet(hot1, hot2, v);
    FirstIsRead(ops, hot1, hot2, v, 5);
    var warm := ops + Times(5, Op.Get(hot1, false));
    SecondIsRead(warm, hot1, hot2, v, 5, 5);
    var hot := warm + Times(5, Op.Get(hot2, false));
    ColdIsSet(hot1, hot2, cold, v);
    AppendOne(3, hot, Set(cold, v));
    HotGoes(cold, hot1, hot2, next, v);
    hide Step, AfterSet, Safe, Pair;
  }

  function Three(cold: Key, hot1: Key, hot2: Key, v: Value): Content {
    Content(map[cold := Block(v, 0), hot1 := Block(v, 5), hot2 := Block(v, 5)], [cold, hot1, hot2], 10)
  }

  lemma ColdIsSet(hot1: Key, hot2: Key, cold: Key, v: Value)
    requires hot1 != hot2 && cold != hot1 && cold != hot2
    ensures var c := Pair(hot1, hot2, v, 5, 5, [hot1, hot2]);
            Safe(LRU, 3, c, Set(cold, v)) && Step(LRU, 3, c, Set(cold, v)) == Three(cold, hot1, hot2, v)
  {
  }

  lemma HotGoes(cold: Key, hot1: Key, hot2: Key, next: Key, v: Value)
    requires hot1 != hot2 && cold != hot1 && cold != hot2 && next !in {hot1, hot2, cold}
    ensures var c := Three(cold, hot1, hot2, v);
            && Safe(LRU, 3, c, Set(next, v))
            && AfterSet(LRU, 3, c, next, v).blocks.Keys == {cold, hot2, next}
  {
    var c := Three(cold, hot1, hot2, v);
    assert c.items[0] == cold && c.items[1] == hot1 && c.items[2] == hot2;
    assert Enumerated(c);
    assert Victim(c) == hot1;
    hide Enumerated, AfterSet, Safe;
    LruVictim(3, c, next, v);
  }

  /** After any run, an LRU operation reads a block that is not there exactly when the first
      listed key is not cached and the operation is a set of a new key with the list full, or
      a read that finds its key. */
  lemma MissingBlockIsReadIff(max: nat, ops: seq<Op>, op: Op)
    requires SafeRun(LRU, max, ops)
    ensures var c := After(LRU, max, ops);
            Safe(LRU, max, c, op) <==>
              (op.Set? && op.key !in c.blocks && |c.items| == max > 0) || (op.Get? && op.key in c.blocks && !op.expired)
              ==> c.items != [] && c.items[0] in c.blocks
  {
    EveryValueIsListed(LRU, max, ops);
    var c := After(LRU, max, ops);
    hide After, SafeRun;
    if max > 0 {
      RoomyIff(max, c);
    }
    hide Roomy;
  }

  /** At most one entry has to go, so the list is looked at once. */
  lemma RoomyIff(max: nat, c: Content)
    requires 0 < |c.items| <= max || (c.items == [] && max > 0)
    ensures Roomy(LRU, max, c) <==> |c.items| < max || c.items[0] in c.blocks
  {
    if |c.items| == max && c.items[0] in c.blocks {
      var e := Evicted(LRU, c);
      assert |e.items| < max;
      hide Evicted;
    }
  }

  /** Erasing the key at the front of a full LRU list makes the next set read a block that is
      not there. */
  lemma ErasedFrontIsUnsafe(a: Key, b: Key, v: Value)
    requires a != b
    ensures var ops := [Set(a, v), Erase(a)];
            SafeRun(LRU, 1, ops) && !Safe(LRU, 1, After(LRU, 1, ops), Set(b, v))
  {
    AppendOne(1, [], Set(a, v));
    assert [] + [Set(a, v)] == [Set(a, v)] && [Set(a, v)] + [Erase(a)] == [Set(a, v), Erase(a)];
    assert After(LRU, 1, [Set(a, v)]) == Content(map[a := Block(v, 0)], [a], 0);
    AppendOne(1, [Set(a, v)], Erase(a));
  }
}
