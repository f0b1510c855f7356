// The idle timer of the poller: watched sockets pass through two stages, one per expiry of
// a coarse timer, and are reported idle when they leave the second one.
module IdleWatch {
  import opened Common

  datatype Config = Config(timeoutMs: nat, rescanMs: nat)

  /** Times are milliseconds of the monotonic clock. */
  datatype State = State(
    pre: set<int>,
    watched: set<int>,
    idle: set<int>,
    idleCounter: nat,
    idleRound: bool,
    rescanTimer: nat)

  datatype Op =
    | Wait(at: nat)
    | Watch(at: nat, socket: int)
    | Unwatch(at: nat, socket: int)

  const Start := State({}, {}, {}, 0, true, 0)

  // ----- Single operations -----

  /** The coarse timer is read once the rescan interval has passed. */
  predicate Clicks(cfg: Config, c: State, at: nat) {
    at > c.rescanTimer + cfg.rescanMs
  }

  function Clicked(c: State, at: nat): State
    requires at >= c.rescanTimer
  {
    c.(rescanTimer := at, idleCounter := c.idleCounter + (at - c.rescanTimer))
  }

  predicate Triggers(cfg: Config, c: State, op: Op) {
    op.Wait? && Clicks(cfg, c, op.at) && c.idleCounter + (op.at - c.rescanTimer) > cfg.timeoutMs
  }

  /** Every other expiry promotes the first stage, the one after it reports the second. */
  function Triggered(c: State): State {
    var d := c.(idleCounter := 0, idleRound := !c.idleRound);
    if !d.idleRound then d.(watched := c.watched + c.pre, pre := {})
    else d.(idle := c.idle + c.watched, watched := {})
  }

  function Step(cfg: Config, c: State, op: Op): State {
    match op
    case Wait(at) =>
      var d := c.(idle := {});
      if !Clicks(cfg, c, at) then d
      else
        var e := Clicked(d, at);
        if e.idleCounter > cfg.timeoutMs then Triggered(e) else e
    case Watch(_, s) => c.(pre := c.pre + {s})
    case Unwatch(_, s) =>
      if s in c.pre then c.(pre := c.pre - {s}) else c.(watched := c.watched - {s})
  }

  // ----- The poller's part of it -----

  class Poller {
    const cfg: Config
    var idleWatchedPre: set<int>
    var idleWatched: set<int>
    var idleSet: set<int>
    var idleCounter: nat
    var idleRound: bool
    var rescanTimer: nat

    ghost function View(): State
      reads this
    {
      State(idleWatchedPre, idleWatched, idleSet, idleCounter, idleRound, rescanTimer)
    }

    constructor (cfg: Config)
      ensures View() == Start && this.cfg == cfg
    {
      this.cfg := cfg;
      idleWatchedPre, idleWatched, idleSet := {}, {}, {};
      idleCounter, idleRound, rescanTimer := 0, true, 0;
    }

    method ClickTimerNow(now: nat) returns (clicked: bool)
      modifies this`rescanTimer, this`idleCounter
      ensures clicked == Clicks(cfg, old(View()), now)
      ensures View() == if clicked then Clicked(old(View()), now) else old(View())
    {
      clicked := now > rescanTimer + cfg.rescanMs;
      if clicked {
        idleCounter := idleCounter + (now - rescanTimer);
        rescanTimer := now;
      }
    }

    method ProcessPreWaitIdles()
      modifies this
      ensures View() == if old(idleCounter) > cfg.timeoutMs then Triggered(old(View())) else old(View())
    {
      if idleCounter > cfg.timeoutMs {
        idleCounter := 0;
        idleRound := !idleRound;
        var moved := {};
        if !idleRound {
          moved := idleWatchedPre;
          idleWatchedPre := {};
          idleWatched := idleWatched + moved;
        } else {
          moved := idleWatched;
          idleWatched := {};
          idleSet := idleSet + moved;
        }
      }
    }

    method BeforeWait(now: nat)
      modifies this
      ensures View() == Step(cfg, old(View()), Wait(now))
    {
      idleSet := {};
      var clicked := ClickTimerNow(now);
      if clicked {
        ProcessPreWaitIdles();
      }
    }

    method SetIdleWatch(s: int, ghost now: nat)
      modifies this
      ensures View() == Step(cfg, old(View()), Watch(now, s))
    {
      idleWatchedPre := idleWatchedPre + {s};
    }

    /** The second stage is only looked at when the socket was not in the first one. */
    method ClearIdleWatch(s: int, ghost now: nat) returns (erased: nat)
      modifies this
      ensures View() == Step(cfg, old(View()), Unwatch(now, s))
      ensures erased == if s in old(idleWatchedPre) + old(idleWatched) then 1 else 0
    {
      if s in idleWatchedPre {
        idleWatchedPre := idleWatchedPre - {s};
        return 1;
      }
      erased := if s in idleWatched then 1 else 0;
      idleWatched := idleWatched - {s};
    }
  }

  // ----- Runs -----

  function After(cfg: Config, c: State, ops: seq<Op>): State
    decreases |ops|
  {
    if ops == [] then c else Step(cfg, After(cfg, c, ops[..|ops| - 1]), ops[|ops| - 1])
  }

  /** Operations happen in clock order. */
  predicate InTime(ops: seq<Op>) {
    forall i, j :: 0 <= i <= j < |ops| ==> ops[i].at <= ops[j].at
  }

  function Now(ops: seq<Op>): nat {
    if ops == [] then 0 else ops[|ops| - 1].at
  }

  /** When the socket was last watched, if it was not unwatched since. */
  function LastWatch(ops: seq<Op>, s: int): Option<nat>
    decreases |ops|
  {
    if ops == [] then None
    else
      var n := |ops| - 1;
      match ops[n]
      case Watch(at, w) => if w == s then Some(at) else LastWatch(ops[..n], s)
      case Unwatch(_, w) => if w == s then None else LastWatch(ops[..n], s)
      case Wait(_) => LastWatch(ops[..n], s)
  }

  /** No socket is watched again while it is in the second stage. */
  predicate NoRewatch(cfg: Config, ops: seq<Op>)
    decreases |ops|
  {
    ops == [] ||
    var n := |ops| - 1;
    NoRewatch(cfg, ops[..n]) && (ops[n].Watch? ==> ops[n].socket !in After(cfg, Start, ops[..n]).watched)
  }

  // ----- Soundness -----

  predicate Disjoint(c: State) {
    c.pre !! c.watched
  }

  predicate WatchedBy(c: State, ops: seq<Op>, trigger: nat) {
    && (forall s :: s in c.pre ==> LastWatch(ops, s).Some?)
    && (forall s :: s in c.watched ==> LastWatch(ops, s).Some? && LastWatch(ops, s).value <= trigger)
  }

  /** The counter measures the time from the last expiry on, and the second stage holds only
      sockets last watched before that. */
  predicate Kept(c: State, ops: seq<Op>, trigger: nat) {
    && Disjoint(c)
    && c.rescanTimer == trigger + c.idleCounter
    && c.rescanTimer <= Now(ops)
    && WatchedBy(c, ops, trigger)
    && (c.watched != {} ==> !c.idleRound)
  }

  /** What an idle report means: the run ends in a wait, and the time since the last watch,
      which was not taken back, exceeds the timeout. */
  predicate TrulyIdle(cfg: Config, ops: seq<Op>, s: int) {
    && ops != [] && ops[|ops| - 1].Wait?
    && LastWatch(ops, s).Some?
    && ops[|ops| - 1].at - LastWatch(ops, s).value > cfg.timeoutMs
  }

  lemma LastWatchIsPast(ops: seq<Op>, s: int)
    requires InTime(ops) && LastWatch(ops, s).Some?
    ensures ops != [] && LastWatch(ops, s).value <= ops[|ops| - 1].at
    decreases |ops|
  {
    var n := |ops| - 1;
    if !(ops[n].Watch? && ops[n].socket == s) {
      LastWatchIsPast(ops[..n], s);
    }
  }

  /** How one more operation changes what was watched when. */
  lemma OneMoreOp(ops: seq<Op>, op: Op)
    requires InTime(ops + [op])
    ensures Now(ops) <= op.at == Now(ops + [op])
    ensures forall s :: LastWatch(ops + [op], s) ==
              if !op.Wait? && s == op.socket then (if op.Watch? then Some(op.at) else None) else LastWatch(ops, s)
    ensures forall s :: LastWatch(ops + [op], s).Some? ==> LastWatch(ops + [op], s).value <= op.at
  {
    var more := ops + [op];
    assert more[..|ops|] == ops && more[|ops|] == op;
    assert ops != [] ==> more[|ops| - 1].at <= more[|ops|].at;
    forall s | LastWatch(more, s).Some? ensures LastWatch(more, s).value <= op.at {
      LastWatchIsPast(more, s);
    }
    forall s ensures LastWatch(more, s) ==
      if !op.Wait? && s == op.socket then (if op.Watch? then Some(op.at) else None) else LastWatch(ops, s) {
    }
  }

  lemma TriggerKeeps(cfg: Config, c: State, ops: seq<Op>, op: Op, trigger: nat)
    requires InTime(ops + [op]) && Kept(c, ops, trigger) && Triggers(cfg, c, op)
    ensures Kept(Step(cfg, c, op), ops + [op], op.at)
    ensures forall s :: s in Step(cfg, c, op).idle ==> TrulyIdle(cfg, ops + [op], s)
  {
    OneMoreOp(ops, op);
    hide LastWatch;
  }

  lemma QuietWaitKeeps(cfg: Config, c: State, ops: seq<Op>, op: Op, trigger: nat)
    requires InTime(ops + [op]) && Kept(c, ops, trigger) && op.Wait? && !Triggers(cfg, c, op)
    ensures Kept(Step(cfg, c, op), ops + [op], trigger) && Step(cfg, c, op).idle == {}
  {
    OneMoreOp(ops, op);
    hide LastWatch;
  }

  lemma WatchKeeps(cfg: Config, c: State, ops: seq<Op>, op: Op, trigger: nat)
    requires InTime(ops + [op]) && Kept(c, ops, trigger) && op.Watch? && op.socket !in c.watched
    ensures Kept(Step(cfg, c, op), ops + [op], trigger)
  {
    OneMoreOp(ops, op);
    hide LastWatch;
  }

  lemma UnwatchKeeps(cfg: Config, c: State, ops: seq<Op>, op: Op, trigger: nat)
    requires InTime(ops + [op]) && Kept(c, ops, trigger) && op.Unwatch?
    ensures Kept(Step(cfg, c, op), ops + [op], trigger)
  {
    OneMoreOp(ops, op);
    hide LastWatch;
  }

  lemma {:induction false} RunIsKept(cfg: Config, ops: seq<Op>) returns (trigger: nat)
    requires InTime(ops) && NoRewatch(cfg, ops)
    ensures Kept(After(cfg, Start, ops), ops, trigger)
    ensures ops != [] && ops[|ops| - 1].Wait? ==> forall s :: s in After(cfg, Start, ops).idle ==> TrulyIdle(cfg, ops, s)
    decreases |ops|
  {
    hide Kept, Step, LastWatch, TrulyIdle;
    if ops == [] {
      StartIsKept();
      trigger := 0;
    } else {
      var n := |ops| - 1;
      var p, op := ops[..n], ops[n];
      assert p + [op] == ops;
      trigger := RunIsKept(cfg, p);
      var c := After(cfg, Start, p);
      if Triggers(cfg, c, op) {
        TriggerKeeps(cfg, c, p, op, trigger);
        trigger := op.at;
      } else if op.Wait? {
        QuietWaitKeeps(cfg, c, p, op, trigger);
      } else if op.Watch? {
        WatchKeeps(cfg, c, p, op, trigger);
      } else {
        UnwatchKeeps(cfg, c, p, op, trigger);
      }
    }
  }

  lemma StartIsKept()
    ensures Kept(Start, [], 0)
  {
  }

  /** Over every run in which no socket is watched again in the second stage: a reported
      socket was last watched more than the timeout ago, by the clock, and not unwatched
      since; and no socket is in both stages. */
  lemma IdleReportsAreTrue(cfg: Config, ops: seq<Op>, s: int)
    requires InTime(ops) && NoRewatch(cfg, ops)
    ensures Disjoint(After(cfg, Start, ops))
    ensures ops != [] && ops[|ops| - 1].Wait? && s in After(cfg, Start, ops).idle ==> TrulyIdle(cfg, ops, s)
  {
    var _ := RunIsKept(cfg, ops);
  }

  /** Watching keeps the stages apart exactly when the socket is not in the second one. */
  lemma RewatchIsTheDanger(cfg: Config, c: State, at: nat, s: int)
    requires Disjoint(c)
    ensures Disjoint(Step(cfg, c, Watch(at, s))) <==> s !in c.watched
  {
    var d := Step(cfg, c, Watch(at, s));
    assert s in d.pre;
  }

  predicate ReportedAt(cfg: Config, c: State, at: nat, s: int, late: nat) {
    s in Step(cfg, Step(cfg, c, Watch(at, s)), Wait(late)).idle
  }

  /** When exactly the next wait can report a socket before the timeout has passed since it
      was watched: when it was watched in the second stage, some time was counted already,
      and the rescan interval can end within the timeout. */
  lemma EarlyReportIff(cfg: Config, c: State, at: nat, s: int)
    requires c.rescanTimer <= at && (c.watched != {} ==> !c.idleRound)
    ensures (exists late :: at <= late <= at + cfg.timeoutMs && ReportedAt(cfg, c, at, s, late))
        <==> && s in c.watched
             && c.idleCounter + (at - c.rescanTimer) > 0
             && at + cfg.timeoutMs > c.rescanTimer + cfg.rescanMs
  {
    var latest := at + cfg.timeoutMs;
    if s in c.watched && c.idleCounter + (at - c.rescanTimer) > 0 && latest > c.rescanTimer + cfg.rescanMs {
      assert ReportedAt(cfg, c, at, s, latest);
    }
  }

  /** A socket in both stages is cleared from the first one only, and is still reported. */
  lemma UnwatchMissesTheSecondStage(cfg: Config, c: State, at: nat, s: int)
    requires s in c.pre && s in c.watched
    ensures s in Step(cfg, c, Unwatch(at, s)).watched
    ensures s !in Step(cfg, Step(cfg, c, Unwatch(at, s)), Unwatch(at, s)).watched
  {
  }

  // ----- Completeness -----

  /** Expiries until the socket is reported. */
  function Remaining(c: State, s: int): nat {
    if s in c.watched && !c.idleRound then 1
    else if s in c.watched then 2
    else if c.idleRound then 2
    else 3
  }

  function TriggerCount(cfg: Config, c: State, ops: seq<Op>): nat
    decreases |ops|
  {
    if ops == [] then 0
    else
      var n := |ops| - 1;
      TriggerCount(cfg, c, ops[..n]) + if Triggers(cfg, After(cfg, c, ops[..n]), ops[n]) then 1 else 0
  }

  predicate LeftAlone(ops: seq<Op>, s: int) {
    forall i :: 0 <= i < |ops| ==> !(ops[i].Unwatch? && ops[i].socket == s)
  }

  predicate ReportedWithin(cfg: Config, c: State, ops: seq<Op>, s: int) {
    exists k :: 0 <= k <= |ops| && s in After(cfg, c, ops[..k]).idle
  }

  /** A watched socket that is left alone is reported by the third expiry at the latest. */
  lemma {:induction false} WatchedSocketIsReported(cfg: Config, c: State, ops: seq<Op>, s: int)
    requires s in c.pre || s in c.watched
    requires c.watched != {} ==> !c.idleRound
    requires LeftAlone(ops, s)
    ensures TriggerCount(cfg, c, ops) >= 3 ==> ReportedWithin(cfg, c, ops, s)
    ensures ReportedWithin(cfg, c, ops, s) ||
            var d := After(cfg, c, ops);
            && (s in d.pre || s in d.watched) && (d.watched != {} ==> !d.idleRound)
            && Remaining(d, s) + TriggerCount(cfg, c, ops) <= Remaining(c, s)
    decreases |ops|
  {
    if ops != [] {
      var n := |ops| - 1;
      WatchedSocketIsReported(cfg, c, ops[..n], s);
      if ReportedWithin(cfg, c, ops[..n], s) {
        var k :| 0 <= k <= n && s in After(cfg, c, ops[..n][..k]).idle;
        assert ops[..n][..k] == ops[..k];
      } else if s in After(cfg, c, ops).idle {
        assert ops[..|ops|] == ops;
      }
    }
  }
}
