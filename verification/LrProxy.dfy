// A left and a right context under the forwarding proxy: what one side reads goes to the
// other side, and a side that cannot send holds back the reads of the other one.
module LrProxy {
  import opened Buffers
  import opened Bytes
  import opened Common
  import opened HostContext

  datatype Side = Left | Right

  /** What the event checks at the end of a call may find besides an error of the context. */
  datatype Event = Quiet | Timeout | Message

  /** One read or write of a context: it goes ahead when the socket is ready for it, or when
      an event in the other direction asked for it. */
  datatype ReadPart = ReadPart(readable: bool, overridden: bool, env: ReadEnv)

  datatype WritePart = WritePart(writable: bool, overridden: bool, env: WriteEnv)

  /** The environment of one read call or one write call of the proxy, with the write that a
      read may force and the read that a write may force. */
  datatype ReadCall =
    ReadCall(inReadSet: bool, forced: bool, read: ReadPart, writeBack: Option<WritePart>, event: Event)

  datatype WriteCall =
    WriteCall(inWriteSet: bool, forced: bool, write: WritePart, readBack: Option<ReadPart>, event: Event)

  /** Whether the contexts know each other as peers, which only matters for waiting and for
      deferred reads. */
  datatype Config = Config(params: Params, peered: bool)

  /** Two contexts and the flags that say which of them cannot send everything. */
  datatype State = State(left: Cx, right: Cx, leftNeck: bool, rightNeck: bool)

  predicate Sound(s: State) {
    Fits(s.left) && Fits(s.right)
  }

  function Start(cfg: Config): State {
    State(NewCx(cfg.params), NewCx(cfg.params), false, false)
  }

  // ----- The calls as functions -----

  function Shut(c: Cx): Cx {
    c.(connected := false)
  }

  /** The events of one context; the result says whether all is well. */
  function Checked(c: Cx, event: Event): (Cx, bool) {
    if event.Timeout? || c.error then (Shut(c), false) else (c, event.Quiet?)
  }

  /** Bytes of one context go to the other one, then the source is finished with them. */
  function Forwarded(p: Params, from: Cx, to: Cx): (Cx, Cx) {
    var (t, f) := ToWrite(p, to, from);
    (Finished(f), t)
  }

  function Pending(cfg: Config, to: Cx): Option<nat> {
    if cfg.peered then Some(|to.wbuf|) else None
  }

  /** The reading part of a call: source, destination, and whether the source survived. */
  function HandledRead(cfg: Config, from: Cx, to: Cx, part: ReadPart): (r: (Cx, Cx, bool))
    requires Fits(from) && Fits(to)
    ensures Fits(r.0) && Fits(r.1)
  {
    if !part.readable && !part.overridden then (from, to, true)
    else
      ReadFits(cfg.params, from, part.env, Pending(cfg, to));
      var (c, n) := Read(cfg.params, from, part.env, Pending(cfg, to));
      if n == 0 then (Shut(c), to, false)
      else if n > 0 then
        ForwardFits(cfg.params, c, to);
        var (f, t) := Forwarded(cfg.params, c, to);
        (f, t, true)
      else (c, to, true)
  }

  /** The writing part: the context, and whether it survived. */
  function HandledWrite(cfg: Config, c: Cx, part: WritePart): (r: (Cx, bool))
    requires Fits(c)
    ensures Fits(r.0)
  {
    if !part.writable && !part.overridden then (c, true)
    else
      WriteSendsAPrefix(c, cfg.peered, part.env);
      var (d, n) := Written(c, cfg.peered, part.env);
      if n < 0 then (Shut(d), false) else (d, true)
  }

  /** A read that nothing holds back, and the write it may force on the same context. */
  function ReadThrough(cfg: Config, from: Cx, to: Cx, neck: bool, call: ReadCall): (r: (Cx, Cx, bool))
    requires Fits(from) && Fits(to)
    ensures Fits(r.0) && Fits(r.1)
  {
    if from.readWaiting || neck || (!call.inReadSet && !call.forced) then (from, to, true)
    else
      var (f, t, good) := HandledRead(cfg, from, to, call.read);
      if !good || call.writeBack.None? then (f, t, good)
      else
        var (g, sent) := HandledWrite(cfg, f, call.writeBack.value);
        (g, t, sent)
  }

  /** A read call: source, destination, whether all went well. The flag is the one of the
      destination. */
  function ReadOnce(cfg: Config, from: Cx, to: Cx, neck: bool, call: ReadCall): (r: (Cx, Cx, bool))
    requires Fits(from) && Fits(to)
    ensures Fits(r.0) && Fits(r.1)
  {
    if !from.connected then (Shut(from.(error := true)), to, false)
    else
      var w := Unpaused(from, cfg.peered && call.read.env.comReady);
      var (f, t, good) := ReadThrough(cfg, w, to, neck, call);
      var (g, quiet) := Checked(f, call.event);
      (g, t, good && quiet)
  }

  /** What a write leaves to do: a side that had something to send and has some left over is
      flagged and pauses the reads of the other one; a flagged side that has sent everything
      is released. */
  function Settle(had: bool, left: bool, c: Cx, other: Cx, neck: bool): (Cx, Cx, bool, bool) {
    if !had then (c, other, neck, true)
    else if left then (c.(readWaiting := false, writeWaiting := false), other.(readWaiting := true), true, true)
    else if neck then (c, other.(readWaiting := false), false, true)
    else (c, other, neck, true)
  }

  /** The read that a write may force on the same context, then the flag. What is left over
      is what was left right after the write. */
  function ReadBack(cfg: Config, had: bool, c: Cx, other: Cx, neck: bool, call: WriteCall): (r: (Cx, Cx, bool, bool))
    requires Fits(c) && Fits(other)
    ensures Fits(r.0) && Fits(r.1)
  {
    if call.readBack.None? then Settle(had, c.wbuf != [], c, other, neck)
    else
      var (d, o, good) := HandledRead(cfg, c, other, call.readBack.value);
      if good then Settle(had, c.wbuf != [], d, o, neck) else (Checked(d, call.event).0, o, neck, false)
  }

  function WriteThrough(cfg: Config, c: Cx, other: Cx, neck: bool, call: WriteCall): (r: (Cx, Cx, bool, bool))
    requires Fits(c) && Fits(other)
    ensures Fits(r.0) && Fits(r.1)
  {
    var (d, sent) := HandledWrite(cfg, c, call.write);
    if sent then ReadBack(cfg, c.wbuf != [], d, other, neck, call) else (Checked(d, call.event).0, other, neck, false)
  }

  function WriteReady(cfg: Config, c: Cx, other: Cx, neck: bool, call: WriteCall): (r: (Cx, Cx, bool, bool))
    requires Fits(c) && Fits(other)
    ensures Fits(r.0) && Fits(r.1)
  {
    var w := WriteUnpaused(c, cfg.peered, call.write.env.comReady);
    if w.writeWaiting then var (d, quiet) := Checked(w, call.event); (d, other, neck, quiet)
    else if !call.inWriteSet && !call.forced && w.wbuf == [] then (w, other, neck, true)
    else WriteThrough(cfg, w, other, neck, call)
  }

  /** A write call: the context, the other one, whose reads are paused or resumed, the flag of
      this side, and whether all went well. */
  function WriteOnce(cfg: Config, c: Cx, other: Cx, neck: bool, call: WriteCall): (r: (Cx, Cx, bool, bool))
    requires Fits(c) && Fits(other)
    ensures Fits(r.0) && Fits(r.1)
  {
    if c.connected then WriteReady(cfg, c, other, neck, call) else (Shut(c.(error := true)), other, neck, false)
  }

  function ReadStep(cfg: Config, s: State, side: Side, call: ReadCall): (r: (State, bool))
    requires Sound(s)
    ensures Sound(r.0)
  {
    if side.Left? then
      var (f, t, good) := ReadOnce(cfg, s.left, s.right, s.rightNeck, call);
      (s.(left := f, right := t), good)
    else
      var (f, t, good) := ReadOnce(cfg, s.right, s.left, s.leftNeck, call);
      (s.(right := f, left := t), good)
  }

  function WriteStep(cfg: Config, s: State, side: Side, call: WriteCall): (r: (State, bool))
    requires Sound(s)
    ensures Sound(r.0)
  {
    if side.Left? then
      var (c, o, neck, good) := WriteOnce(cfg, s.left, s.right, s.leftNeck, call);
      (State(c, o, neck, s.rightNeck), good)
    else
      var (c, o, neck, good) := WriteOnce(cfg, s.right, s.left, s.rightNeck, call);
      (State(o, c, s.leftNeck, neck), good)
  }

  /** The environment of one pass over both contexts: reads first, then writes; an error on
      one side does not keep the other side back. */
  datatype Pass = Pass(leftRead: ReadCall, rightRead: ReadCall, leftWrite: WriteCall, rightWrite: WriteCall)

  function Passed(cfg: Config, s: State, pass: Pass): (r: (State, bool))
    requires Sound(s)
    ensures Sound(r.0)
  {
    var (s1, a) := ReadStep(cfg, s, Left, pass.leftRead);
    var (s2, b) := ReadStep(cfg, s1, Right, pass.rightRead);
    var (s3, c) := WriteStep(cfg, s2, Left, pass.leftWrite);
    var (s4, d) := WriteStep(cfg, s3, Right, pass.rightWrite);
    (s4, a && b && c && d)
  }

  lemma ForwardFits(p: Params, from: Cx, to: Cx)
    requires Fits(from) && Fits(to)
    ensures var (f, t) := Forwarded(p, from, to); Fits(f) && Fits(t)
  {
    var (t, f) := ToWrite(p, to, from);
    assert Fits(t) && Fits(f);
    hide ToWrite;
    FinishedFits(f);
    hide Finished, Fits;
  }

  lemma FinishedFits(c: Cx)
    requires Fits(c)
    ensures Fits(Finished(c))
  {
  }

  // ----- The calls on the objects -----

  /** Frames of the methods below: source and destination of a read. */
  method Forward(from: HostCX, to: HostCX)
    requires from.Valid() && to.Valid() && to.ApartFrom(from)
    modifies from.readbuf, from.readbuf.data, to.writebuf, to.writebuf.data
    ensures from.Valid() && to.Valid() && to.ApartFrom(from)
    ensures (from.View(), to.View()) == Forwarded(to.params, old(from.View()), old(to.View()))
    ensures fresh({from.readbuf.data, to.writebuf.data} - old({from.readbuf.data, to.writebuf.data}))
  {
    hide ToWrite, Finished;
    to.TakeFrom(from);
    ghost var t := to.View();
    var _ := from.Finish();
    assert to.View() == t;
  }

  method Shutdown(cx: HostCX)
    requires cx.Valid()
    modifies cx`connected
    ensures cx.Valid() && cx.View() == Shut(old(cx.View()))
  {
    cx.connected := false;
  }

  /** Reads of a context do not touch the other one. */
  method ReadBeside(cfg: Config, from: HostCX, to: HostCX, env: ReadEnv) returns (red: int)
    requires from.Valid() && to.Valid() && to.ApartFrom(from) && from.params == cfg.params
    modifies from, from.readbuf, from.readbuf.data
    ensures from.Valid() && to.Valid() && to.ApartFrom(from) && to.View() == old(to.View())
    ensures (from.View(), red) == Read(cfg.params, old(from.View()), env, Pending(cfg, old(to.View())))
    ensures fresh({from.readbuf.data} - old({from.readbuf.data}))
  {
    assert |to.View().wbuf| == to.writebuf.used;
    hide Read, HostCX.View, Fits;
    red := from.ReadBytes(env, if cfg.peered then Some(to.writebuf.used) else None);
  }

  method ShutdownBeside(cx: HostCX, other: HostCX)
    requires cx.Valid() && other.Valid() && other.ApartFrom(cx)
    modifies cx`connected
    ensures cx.Valid() && other.Valid() && other.ApartFrom(cx) && other.View() == old(other.View())
    ensures cx.View() == Shut(old(cx.View()))
  {
    hide HostCX.View;
    Shutdown(cx);
  }

  method HandleCxRead(cfg: Config, from: HostCX, to: HostCX, part: ReadPart) returns (good: bool)
    requires from.Valid() && to.Valid() && to.ApartFrom(from) && from.params == cfg.params == to.params
    modifies from, from.readbuf, from.readbuf.data, to.writebuf, to.writebuf.data
    ensures from.Valid() && to.Valid() && to.ApartFrom(from)
    ensures (from.View(), to.View(), good) == HandledRead(cfg, old(from.View()), old(to.View()), part)
    ensures fresh({from.readbuf.data, to.writebuf.data} - old({from.readbuf.data, to.writebuf.data}))
  {
    hide Read, Forwarded, HostCX.View, HostCX.Valid, HostCX.ApartFrom, Fits;
    good := true;
    if part.readable || part.overridden {
      var red := ReadBeside(cfg, from, to, part.env);
      if red == 0 {
        ShutdownBeside(from, to);
        good := false;
      } else if red > 0 {
        Forward(from, to);
      }
    }
  }

  method HandleCxEvents(cx: HostCX, event: Event) returns (quiet: bool)
    requires cx.Valid()
    modifies cx`connected
    ensures cx.Valid() && (cx.View(), quiet) == Checked(old(cx.View()), event)
  {
    if event.Timeout? || cx.error {
      Shutdown(cx);
      return false;
    }
    return event == Quiet;
  }

  method EventsBeside(cx: HostCX, other: HostCX, event: Event) returns (quiet: bool)
    requires cx.Valid() && other.Valid() && other.ApartFrom(cx)
    modifies cx`connected
    ensures cx.Valid() && other.Valid() && other.ApartFrom(cx) && other.View() == old(other.View())
    ensures (cx.View(), quiet) == Checked(old(cx.View()), event)
  {
    hide HostCX.View;
    quiet := HandleCxEvents(cx, event);
  }

  /** The socket is gone: the context is in error and is shut down. */
  method Fail(cx: HostCX)
    requires cx.Valid()
    modifies cx`error, cx`connected
    ensures cx.Valid() && cx.View() == Shut(old(cx.View()).(error := true))
  {
    cx.error := true;
    cx.connected := false;
  }

  method HandleCxWrite(cfg: Config, cx: HostCX, part: WritePart) returns (good: bool)
    requires cx.Valid()
    modifies cx, cx.writebuf, cx.writebuf.data
    ensures cx.Valid() && cx.writebuf.data == old(cx.writebuf.data)
    ensures (cx.View(), good) == HandledWrite(cfg, old(cx.View()), part)
  {
    if !part.writable && !part.overridden {
      return true;
    }
    hide Written;
    var wrt := cx.WriteBytes(cfg.peered, part.env);
    if wrt < 0 {
      Shutdown(cx);
      return false;
    }
    return true;
  }

  method HandleCxReadThrough(cfg: Config, from: HostCX, to: HostCX, neck: bool, call: ReadCall) returns (good: bool)
    requires from.Valid() && to.Valid() && to.ApartFrom(from) && from.params == cfg.params == to.params
    modifies from, from.readbuf, from.readbuf.data, from.writebuf, from.writebuf.data, to.writebuf, to.writebuf.data
    ensures from.Valid() && to.Valid() && to.ApartFrom(from)
    ensures (from.View(), to.View(), good) == ReadThrough(cfg, old(from.View()), old(to.View()), neck, call)
    ensures fresh({from.readbuf.data, to.writebuf.data} - old({from.readbuf.data, to.writebuf.data}))
    ensures from.writebuf.data == old(from.writebuf.data) && to.readbuf.data == old(to.readbuf.data)
  {
    assert from.View().readWaiting == from.readWaiting;
    hide HandledRead, HandledWrite, HostCX.View, Fits;
    if from.readWaiting || neck || (!call.inReadSet && !call.forced) {
      return true;
    }
    good := HandleCxRead(cfg, from, to, call.read);
    if good && call.writeBack.Some? {
      ghost var t := to.View();
      good := HandleCxWrite(cfg, from, call.writeBack.value);
      assert to.View() == t;
    }
  }

  method HandleCxReadOnce(cfg: Config, from: HostCX, to: HostCX, neck: bool, call: ReadCall) returns (good: bool)
    requires from.Valid() && to.Valid() && to.ApartFrom(from) && from.params == cfg.params == to.params
    modifies from, from.readbuf, from.readbuf.data, from.writebuf, from.writebuf.data, to.writebuf, to.writebuf.data
    ensures from.Valid() && to.Valid() && to.ApartFrom(from)
    ensures (from.View(), to.View(), good) == ReadOnce(cfg, old(from.View()), old(to.View()), neck, call)
    ensures fresh({from.readbuf.data, to.writebuf.data} - old({from.readbuf.data, to.writebuf.data}))
    ensures from.writebuf.data == old(from.writebuf.data) && to.readbuf.data == old(to.readbuf.data)
  {
    ghost var t := to.View();
    assert from.View().connected == from.connected;
    hide ReadThrough, HostCX.View, Fits;
    if !from.connected {
      Fail(from);
      assert to.View() == t;
      return false;
    }
    var _ := from.ReadWaitingForPeercom(cfg.peered && call.read.env.comReady);
    assert to.View() == t;
    good := HandleCxReadThrough(cfg, from, to, neck, call);
    t := to.View();
    var quiet := HandleCxEvents(from, call.event);
    assert to.View() == t;
    good := good && quiet;
  }

  /** Pausing or resuming a context. */
  method SetWaiting(cx: HostCX, read: bool, write: bool)
    requires cx.Valid()
    modifies cx`readWaiting, cx`writeWaiting
    ensures cx.Valid() && cx.View() == old(cx.View()).(readWaiting := read, writeWaiting := write)
  {
    cx.readWaiting, cx.writeWaiting := read, write;
  }

  method SettleFlag(had: bool, cx: HostCX, other: HostCX, left: bool, neck: bool) returns (neck': bool)
    requires cx.Valid() && other.Valid() && other.ApartFrom(cx)
    modifies cx`readWaiting, cx`writeWaiting, other`readWaiting, other`writeWaiting
    ensures cx.Valid() && other.Valid() && other.ApartFrom(cx)
    ensures (cx.View(), other.View(), neck', true) == Settle(had, left, old(cx.View()), old(other.View()), neck)
  {
    ghost var c, o := cx.View(), other.View();
    assert o.writeWaiting == other.writeWaiting;
    hide HostCX.View;
    if had && left {
      SetWaiting(other, true, other.writeWaiting);
      assert cx.View() == c;
      o := other.View();
      SetWaiting(cx, false, false);
      assert other.View() == o;
      return true;
    } else if had && neck {
      SetWaiting(other, false, other.writeWaiting);
      assert cx.View() == c;
      return false;
    }
    return neck;
  }

  /** Frames of a write call: both contexts but the block of the first one's write buffer and
      the second one's read buffer, which stay where they are. */
  method HandleReadBack(cfg: Config, had: bool, cx: HostCX, other: HostCX, neck: bool, call: WriteCall)
    returns (neck': bool, good: bool)
    requires cx.Valid() && other.Valid() && other.ApartFrom(cx) && cx.params == cfg.params == other.params
    modifies cx, cx.readbuf, cx.readbuf.data
    modifies other`readWaiting, other`writeWaiting, other.writebuf, other.writebuf.data
    ensures cx.Valid() && other.Valid() && other.ApartFrom(cx)
    ensures fresh({cx.readbuf.data, other.writebuf.data} - old({cx.readbuf.data, other.writebuf.data}))
    ensures (cx.View(), other.View(), neck', good) == ReadBack(cfg, had, old(cx.View()), old(other.View()), neck, call)
  {
    var left := cx.writebuf.used > 0;
    assert left == (cx.View().wbuf != []);
    hide HandledRead, Checked, Settle, Fits, HostCX.View, HostCX.Valid, HostCX.ApartFrom;
    good := true;
    if call.readBack.Some? {
      good := HandleCxRead(cfg, cx, other, call.readBack.value);
    }
    if good {
      neck' := SettleFlag(had, cx, other, left, neck);
    } else {
      var _ := EventsBeside(cx, other, call.event);
      neck' := neck;
    }
  }

  method HandleCxWriteThrough(cfg: Config, cx: HostCX, other: HostCX, neck: bool, call: WriteCall)
    returns (neck': bool, good: bool)
    requires cx.Valid() && other.Valid() && other.ApartFrom(cx) && cx.params == cfg.params == other.params
    modifies cx, cx.writebuf, cx.writebuf.data, cx.readbuf, cx.readbuf.data
    modifies other`readWaiting, other`writeWaiting, other.writebuf, other.writebuf.data
    ensures cx.Valid() && other.Valid() && other.ApartFrom(cx)
    ensures fresh({cx.readbuf.data, other.writebuf.data} - old({cx.readbuf.data, other.writebuf.data}))
    ensures cx.writebuf.data == old(cx.writebuf.data) && other.readbuf.data == old(other.readbuf.data)
    ensures (cx.View(), other.View(), neck', good) == WriteThrough(cfg, old(cx.View()), old(other.View()), neck, call)
  {
    var had := cx.writebuf.used > 0;
    ghost var o := other.View();
    assert had == (cx.View().wbuf != []);
    hide ReadBack, HandledWrite, Checked, Fits, HostCX.View;
    good := HandleCxWrite(cfg, cx, call.write);
    assert other.View() == o;
    if !good {
      var _ := HandleCxEvents(cx, call.event);
      assert other.View() == o;
      return neck, false;
    }
    neck', good := HandleReadBack(cfg, had, cx, other, neck, call);
  }

  method WaitingBeside(cfg: Config, cx: HostCX, other: HostCX, comReady: bool) returns (waiting: bool)
    requires cx.Valid() && other.Valid() && other.ApartFrom(cx)
    modifies cx`writeWaiting, cx`error
    ensures cx.Valid() && other.Valid() && other.ApartFrom(cx) && other.View() == old(other.View())
    ensures cx.View() == WriteUnpaused(old(cx.View()), cfg.peered, comReady) && waiting == cx.View().writeWaiting
    ensures cx.View().wbuf == [] <==> cx.writebuf.used == 0
  {
    waiting := cx.WriteWaitingForPeercom(cfg.peered, comReady);
    assert cx.View().writeWaiting == waiting;
    hide WriteUnpaused;
  }

  method HandleCxWriteReady(cfg: Config, cx: HostCX, other: HostCX, neck: bool, call: WriteCall)
    returns (neck': bool, good: bool)
    requires cx.Valid() && other.Valid() && other.ApartFrom(cx) && cx.params == cfg.params == other.params
    modifies cx, cx.writebuf, cx.writebuf.data, cx.readbuf, cx.readbuf.data
    modifies other`readWaiting, other`writeWaiting, other.writebuf, other.writebuf.data
    ensures cx.Valid() && other.Valid() && other.ApartFrom(cx)
    ensures fresh({cx.readbuf.data, other.writebuf.data} - old({cx.readbuf.data, other.writebuf.data}))
    ensures cx.writebuf.data == old(cx.writebuf.data) && other.readbuf.data == old(other.readbuf.data)
    ensures (cx.View(), other.View(), neck', good) == WriteReady(cfg, old(cx.View()), old(other.View()), neck, call)
  {
    hide WriteThrough, WriteUnpaused, Checked, HostCX.View, HostCX.Valid, HostCX.ApartFrom, Fits;
    var waiting := WaitingBeside(cfg, cx, other, call.write.env.comReady);
    if waiting {
      good := EventsBeside(cx, other, call.event);
      neck' := neck;
    } else if !call.inWriteSet && !call.forced && cx.writebuf.used == 0 {
      neck', good := neck, true;
    } else {
      neck', good := HandleCxWriteThrough(cfg, cx, other, neck, call);
    }
  }

  method HandleCxWriteOnce(cfg: Config, cx: HostCX, other: HostCX, neck: bool, call: WriteCall)
    returns (neck': bool, good: bool)
    requires cx.Valid() && other.Valid() && other.ApartFrom(cx) && cx.params == cfg.params == other.params
    modifies cx, cx.writebuf, cx.writebuf.data, cx.readbuf, cx.readbuf.data
    modifies other`readWaiting, other`writeWaiting, other.writebuf, other.writebuf.data
    ensures cx.Valid() && other.Valid() && other.ApartFrom(cx)
    ensures fresh({cx.readbuf.data, other.writebuf.data} - old({cx.readbuf.data, other.writebuf.data}))
    ensures cx.writebuf.data == old(cx.writebuf.data) && other.readbuf.data == old(other.readbuf.data)
    ensures (cx.View(), other.View(), neck', good) == WriteOnce(cfg, old(cx.View()), old(other.View()), neck, call)
  {
    ghost var o := other.View();
    assert cx.View().connected == cx.connected;
    hide WriteReady, HostCX.View, Fits;
    if cx.connected {
      neck', good := HandleCxWriteReady(cfg, cx, other, neck, call);
    } else {
      Fail(cx);
      assert other.View() == o;
      neck', good := neck, false;
    }
  }

  class SimpleLRProxy {
    const cfg: Config
    const left: HostCX
    const right: HostCX
    var writeLeftBottleneck: bool
    var writeRightBottleneck: bool

    ghost predicate Valid()
      reads this, left, right, left.readbuf, left.writebuf, right.readbuf, right.writebuf
    {
      && left.Valid() && right.Valid() && left.ApartFrom(right)
      && left.params == cfg.params && right.params == cfg.params
    }

    ghost function Parts(): set<object>
      reads left, right, left.readbuf, left.writebuf, right.readbuf, right.writebuf
    {
      {this, left, right, left.readbuf, left.writebuf, right.readbuf, right.writebuf} + left.Blocks() + right.Blocks()
    }

    ghost function View(): (s: State)
      requires Valid()
      reads this, left, right, left.readbuf, left.writebuf, right.readbuf, right.writebuf, left.Blocks(), right.Blocks()
      ensures Sound(s)
    {
      State(left.View(), right.View(), writeLeftBottleneck, writeRightBottleneck)
    }

    constructor (cfg: Config)
      ensures Valid() && View() == Start(cfg) && this.cfg == cfg && fresh(Parts())
    {
      hide NewCx, HostCX.View;
      this.cfg := cfg;
      var l := new HostCX(cfg.params);
      var r := new HostCX(cfg.params);
      left, right := l, r;
      writeLeftBottleneck, writeRightBottleneck := false, false;
    }

    method ReadSide(side: Side, call: ReadCall) returns (good: bool)
      requires Valid()
      modifies Parts()
      ensures Valid() && fresh(Parts() - old(Parts()))
      ensures (View(), good) == ReadStep(cfg, old(View()), side, call)
    {
      hide ReadOnce, HostCX.View, HostCX.Valid, Fits;
      if side.Left? {
        good := HandleCxReadOnce(cfg, left, right, writeRightBottleneck, call);
      } else {
        good := HandleCxReadOnce(cfg, right, left, writeLeftBottleneck, call);
      }
    }

    method WriteLeft(call: WriteCall) returns (good: bool)
      requires Valid()
      modifies Parts()
      ensures Valid() && fresh(Parts() - old(Parts()))
      ensures (View(), good) == WriteStep(cfg, old(View()), Left, call)
    {
      hide WriteOnce, HostCX.View, HostCX.Valid, Fits;
      var neck;
      neck, good := HandleCxWriteOnce(cfg, left, right, writeLeftBottleneck, call);
      writeLeftBottleneck := neck;
    }

    method WriteRight(call: WriteCall) returns (good: bool)
      requires Valid()
      modifies Parts()
      ensures Valid() && fresh(Parts() - old(Parts()))
      ensures (View(), good) == WriteStep(cfg, old(View()), Right, call)
    {
      hide WriteOnce, HostCX.View, HostCX.Valid, Fits;
      var neck;
      neck, good := HandleCxWriteOnce(cfg, right, left, writeRightBottleneck, call);
      writeRightBottleneck := neck;
    }

    method HandleSocketsOnce(pass: Pass) returns (good: bool)
      requires Valid()
      modifies Parts()
      ensures Valid() && fresh(Parts() - old(Parts()))
      ensures (View(), good) == Passed(cfg, old(View()), pass)
    {
      hide ReadStep, WriteStep, View, Fits, Sound, HostCX.Valid, HostCX.ApartFrom;
      var a := ReadSide(Left, pass.leftRead);
      var b := ReadSide(Right, pass.rightRead);
      assert fresh(Parts() - old(Parts()));
      var c := WriteLeft(pass.leftWrite);
      assert fresh(Parts() - old(Parts()));
      var d := WriteRight(pass.rightWrite);
      good := a && b && c && d;
    }
  }

  // ----- Stream integrity -----

  /** One direction: what was received on one side is what was sent on the other, then what
      waits in its write buffer, then what was read and not forwarded yet. */
  predicate Flows(from: Cx, to: Cx) {
    from.received == to.sent + to.wbuf + from.rbuf
  }

  /** Inside a read call: after the kernel's bytes went into the read buffer, after the swap
      or the append, and after the flush, no byte is missing, doubled or out of place. */
  lemma NoByteIsLostOnTheWay(cfg: Config, from: Cx, to: Cx, env: ReadEnv, pending: Option<nat>)
    requires Settled(from) && Fits(to) && Flows(from, to)
    ensures var (c, n) := Read(cfg.params, from, env, pending);
            && Flows(c, to)
            && (n > 0 ==> var (t, f) := ToWrite(cfg.params, to, c);
                          Flows(Finished(f), t) && Settled(Finished(f)) && Fits(t)
                          && f.received == to.sent + to.wbuf + c.rbuf)
  {
    ReadAddsWhatItReceived(cfg.params, from, env, pending);
    var (c, n) := Read(cfg.params, from, env, pending);
    hide Read;
    Regroup(to.sent, to.wbuf, c.rbuf);
    assert to.sent + to.wbuf + [] == to.sent + to.wbuf;
    if n > 0 {
      ForwardMovesEverything(cfg.params, to, c);
      hide ToWrite, Finished;
      assert to.sent + (to.wbuf + c.rbuf) + [] == to.sent + (to.wbuf + c.rbuf);
    }
  }

  /** The counters count: bytes received and bytes sent. */
  predicate Metered(c: Cx) {
    c.meterRead == |c.received| && c.meterWrite == |c.sent|
  }

  predicate Linked(a: Cx, b: Cx) {
    Settled(a) && Settled(b) && Flows(a, b) && Flows(b, a) && Metered(a) && Metered(b)
  }

  predicate SameData(a: Cx, b: Cx) {
    b == a.(readWaiting := b.readWaiting, writeWaiting := b.writeWaiting, error := b.error, connected := b.connected)
  }

  /** Flags of a context do not matter to the flow. */
  lemma FlagsDoNotMatter(a: Cx, b: Cx, c: Cx)
    requires Linked(a, b) && SameData(a, c)
    ensures Linked(c, b) && Linked(b, c)
  {
  }

  lemma HandledReadKeepsFlow(cfg: Config, from: Cx, to: Cx, part: ReadPart)
    requires Linked(from, to)
    ensures var (f, t, _) := HandledRead(cfg, from, to, part); Linked(f, t)
  {
    if part.readable || part.overridden {
      var pending := Pending(cfg, to);
      NoByteIsLostOnTheWay(cfg, from, to, part.env, pending);
      ReadAddsWhatItReceived(cfg.params, from, part.env, pending);
      var (c, n) := Read(cfg.params, from, part.env, pending);
      if n > 0 {
        ForwardMovesEverything(cfg.params, to, c);
      } else {
        assert Linked(c, to);
        FlagsDoNotMatter(c, to, Shut(c));
      }
      hide Read, ToWrite, Finished;
    }
  }

  lemma HandledWriteKeepsFlow(cfg: Config, c: Cx, other: Cx, part: WritePart)
    requires Linked(c, other)
    ensures Linked(HandledWrite(cfg, c, part).0, other)
  {
    var (d, n) := Written(c, cfg.peered, part.env);
    WriteSendsAPrefix(c, cfg.peered, part.env);
    assert c.sent + c.wbuf + [] == c.sent + c.wbuf;
    hide Written;
    assert Linked(d, other);
    hide Linked, Sends;
    FlagsDoNotMatter(d, other, Shut(d));
  }

  lemma ReadThroughKeepsFlow(cfg: Config, from: Cx, to: Cx, neck: bool, call: ReadCall)
    requires Linked(from, to)
    ensures var (f, t, _) := ReadThrough(cfg, from, to, neck, call); Linked(f, t)
  {
    HandledReadKeepsFlow(cfg, from, to, call.read);
    var (f, t, _) := HandledRead(cfg, from, to, call.read);
    hide Linked, HandledRead, HandledWrite;
    if call.writeBack.Some? {
      HandledWriteKeepsFlow(cfg, f, t, call.writeBack.value);
    }
  }

  /** A whole read call, whatever happens in it, keeps both directions. */
  lemma ReadOnceKeepsFlow(cfg: Config, from: Cx, to: Cx, neck: bool, call: ReadCall)
    requires Linked(from, to)
    ensures var (f, t, _) := ReadOnce(cfg, from, to, neck, call); Linked(f, t)
  {
    var w := Unpaused(from, cfg.peered && call.read.env.comReady);
    FlagsDoNotMatter(from, to, Shut(from.(error := true)));
    FlagsDoNotMatter(from, to, w);
    hide Linked, ReadThrough;
    ReadThroughKeepsFlow(cfg, w, to, neck, call);
    var (f, t, _) := ReadThrough(cfg, w, to, neck, call);
    FlagsDoNotMatter(f, t, Shut(f));
  }

  lemma SettleKeepsFlow(had: bool, left: bool, c: Cx, other: Cx, neck: bool)
    requires Linked(c, other)
    ensures var (d, o, _, _) := Settle(had, left, c, other, neck); Linked(d, o)
  {
    var (d, o, _, _) := Settle(had, left, c, other, neck);
    assert SameData(c, d) && SameData(other, o);
    hide Linked, SameData, Settle;
    FlagsDoNotMatter(c, other, d);
    FlagsDoNotMatter(other, d, o);
  }

  lemma ReadBackKeepsFlow(cfg: Config, had: bool, c: Cx, other: Cx, neck: bool, call: WriteCall)
    requires Linked(c, other)
    ensures var (d, o, _, _) := ReadBack(cfg, had, c, other, neck, call); Linked(d, o)
  {
    var left := c.wbuf != [];
    assert Fits(c) && Fits(other);
    hide Linked, Settle, HandledRead;
    if call.readBack.None? {
      SettleKeepsFlow(had, left, c, other, neck);
    } else {
      HandledReadKeepsFlow(cfg, c, other, call.readBack.value);
      var (d, o, good) := HandledRead(cfg, c, other, call.readBack.value);
      SettleKeepsFlow(had, left, d, o, neck);
      FlagsDoNotMatter(d, o, Shut(d));
    }
  }

  lemma WriteThroughKeepsFlow(cfg: Config, c: Cx, other: Cx, neck: bool, call: WriteCall)
    requires Linked(c, other)
    ensures var (d, o, _, _) := WriteThrough(cfg, c, other, neck, call); Linked(d, o)
  {
    HandledWriteKeepsFlow(cfg, c, other, call.write);
    var d := HandledWrite(cfg, c, call.write).0;
    assert Fits(c) && Fits(other);
    hide Linked, ReadBack, HandledWrite;
    FlagsDoNotMatter(d, other, Shut(d));
    ReadBackKeepsFlow(cfg, c.wbuf != [], d, other, neck, call);
  }

  lemma WriteReadyKeepsFlow(cfg: Config, c: Cx, other: Cx, neck: bool, call: WriteCall)
    requires Linked(c, other)
    ensures var (d, o, _, _) := WriteReady(cfg, c, other, neck, call); Linked(d, o)
  {
    var w := WriteUnpaused(c, cfg.peered, call.write.env.comReady);
    FlagsDoNotMatter(c, other, w);
    assert Fits(c) && Fits(other);
    hide Linked, WriteThrough, WriteUnpaused;
    FlagsDoNotMatter(w, other, Shut(w));
    WriteThroughKeepsFlow(cfg, w, other, neck, call);
  }

  /** So does a whole write call. */
  lemma WriteOnceKeepsFlow(cfg: Config, c: Cx, other: Cx, neck: bool, call: WriteCall)
    requires Linked(c, other)
    ensures var (d, o, _, _) := WriteOnce(cfg, c, other, neck, call); Linked(d, o)
  {
    FlagsDoNotMatter(c, other, Shut(c.(error := true)));
    WriteReadyKeepsFlow(cfg, c, other, neck, call);
    hide Linked, WriteReady;
  }

  // ----- Runs of calls -----

  /** Any call of the proxy, on either side, in any environment; and anybody may make a
      context wait for its peer. */
  datatype Call =
    | ReadSide(side: Side, read: ReadCall)
    | WriteSide(side: Side, write: WriteCall)
    | Pause(side: Side, stopRead: bool, stopWrite: bool)

  function Paused(c: Cx, read: bool, write: bool): Cx {
    c.(readWaiting := read, writeWaiting := write)
  }

  function Step(cfg: Config, s: State, call: Call): (t: State)
    requires Sound(s)
    ensures Sound(t)
  {
    match call
    case ReadSide(side, read) => ReadStep(cfg, s, side, read).0
    case WriteSide(side, write) => WriteStep(cfg, s, side, write).0
    case Pause(side, r, w) =>
      if side.Left? then s.(left := Paused(s.left, r, w)) else s.(right := Paused(s.right, r, w))
  }

  lemma ReadStepKeepsFlow(cfg: Config, s: State, side: Side, read: ReadCall)
    requires Linked(s.left, s.right)
    ensures var t := ReadStep(cfg, s, side, read).0; Linked(t.left, t.right)
  {
    assert Linked(s.right, s.left);
    if side.Left? {
      ReadOnceKeepsFlow(cfg, s.left, s.right, s.rightNeck, read);
    } else {
      ReadOnceKeepsFlow(cfg, s.right, s.left, s.leftNeck, read);
    }
    hide ReadOnce, Flows, Settled;
  }

  lemma WriteStepKeepsFlow(cfg: Config, s: State, side: Side, write: WriteCall)
    requires Linked(s.left, s.right)
    ensures var t := WriteStep(cfg, s, side, write).0; Linked(t.left, t.right)
  {
    assert Linked(s.right, s.left);
    if side.Left? {
      WriteOnceKeepsFlow(cfg, s.left, s.right, s.leftNeck, write);
    } else {
      WriteOnceKeepsFlow(cfg, s.right, s.left, s.rightNeck, write);
    }
    hide WriteOnce, Flows, Settled;
  }

  lemma StepKeepsFlow(cfg: Config, s: State, call: Call)
    requires Linked(s.left, s.right)
    ensures var t := Step(cfg, s, call); Linked(t.left, t.right)
  {
    match call {
      case ReadSide(side, read) => ReadStepKeepsFlow(cfg, s, side, read);
      case WriteSide(side, write) => WriteStepKeepsFlow(cfg, s, side, write);
      case Pause(_, r, w) =>
        FlagsDoNotMatter(s.left, s.right, Paused(s.left, r, w));
        FlagsDoNotMatter(s.right, s.left, Paused(s.right, r, w));
    }
    hide ReadStep, WriteStep, Linked;
  }

  function After(cfg: Config, s: State, calls: seq<Call>): (t: State)
    requires Sound(s)
    ensures Sound(t)
    decreases |calls|
  {
    if calls == [] then s else After(cfg, Step(cfg, s, calls[0]), calls[1..])
  }

  lemma StartIsLinked(cfg: Config)
    ensures Linked(Start(cfg).left, Start(cfg).right)
  {
  }

  lemma {:induction false} RunsStayLinked(cfg: Config, s: State, calls: seq<Call>)
    requires Linked(s.left, s.right)
    ensures var t := After(cfg, s, calls); Linked(t.left, t.right)
    decreases |calls|
  {
    if calls != [] {
      assert Sound(s);
      StepKeepsFlow(cfg, s, calls[0]);
      hide Step, Linked, Sound;
      RunsStayLinked(cfg, Step(cfg, s, calls[0]), calls[1..]);
    }
  }

  /** Over every run of calls, in any order, with errors, pauses and forced reads and writes
      anywhere: each side sent a prefix of what the other side received, in order, and the
      rest of it lies in its write buffer. */
  lemma StreamsAreIntact(cfg: Config, calls: seq<Call>)
    ensures var s := After(cfg, Start(cfg), calls);
            && s.left.received == s.right.sent + s.right.wbuf
            && s.right.received == s.left.sent + s.left.wbuf
            && s.right.sent <= s.left.received
            && s.left.sent <= s.right.received
            && Metered(s.left) && Metered(s.right)
  {
    StartIsLinked(cfg);
    RunsStayLinked(cfg, Start(cfg), calls);
    var s := After(cfg, Start(cfg), calls);
    hide After;
    assert s.right.sent + s.right.wbuf + [] == s.right.sent + s.right.wbuf;
    assert s.left.sent + s.left.wbuf + [] == s.left.sent + s.left.wbuf;
  }

  // ----- Backpressure -----

  predicate Matches(c: Cx, neck: bool) {
    neck <==> c.wbuf != []
  }

  lemma HandledReadStaysBounded(cfg: Config, from: Cx, to: Cx, part: ReadPart)
    requires Bounded(cfg.params, from) && Bounded(cfg.params, to) && to.wbuf == [] && Settled(from)
    ensures var (f, t, _) := HandledRead(cfg, from, to, part);
            && Bounded(cfg.params, f) && Bounded(cfg.params, t)
            && f.wbuf == from.wbuf && f.sent == from.sent
            && (f.writeWaiting ==> from.writeWaiting) && (t.writeWaiting ==> to.writeWaiting)
  {
    if part.readable || part.overridden {
      var pending := Pending(cfg, to);
      ReadStaysBounded(cfg.params, from, part.env, pending);
      ReadAddsWhatItReceived(cfg.params, from, part.env, pending);
      var (c, n) := Read(cfg.params, from, part.env, pending);
      hide Read, Bound;
      if n > 0 {
        ForwardStaysBounded(cfg.params, to, c);
        ForwardMovesEverything(cfg.params, to, c);
        ForwardKeepsWaits(cfg.params, c, to);
      }
      hide ToWrite, Finished, Bounded, Settled;
    }
  }

  lemma ForwardKeepsWaits(p: Params, from: Cx, to: Cx)
    ensures var (f, t) := Forwarded(p, from, to); f.writeWaiting == from.writeWaiting && t.writeWaiting == to.writeWaiting
  {
  }

  /** What a read call leaves on both sides when the flag of the destination is exact. */
  predicate Respects(p: Params, neck: bool, forced: bool, from: Cx, f: Cx, to: Cx, t: Cx) {
    && Bounded(p, f) && Bounded(p, t)
    && (neck ==> t == to && f.received == from.received)
    && (!forced ==> f.wbuf == from.wbuf && f.sent == from.sent)
    && (f.writeWaiting ==> from.writeWaiting) && (t.writeWaiting ==> to.writeWaiting)
  }

  lemma ReadThroughRespectsFlag(cfg: Config, from: Cx, to: Cx, neck: bool, call: ReadCall)
    requires Bounded(cfg.params, from) && Bounded(cfg.params, to) && Matches(to, neck) && Settled(from)
    ensures var (f, t, _) := ReadThrough(cfg, from, to, neck, call);
            Respects(cfg.params, neck, call.writeBack.Some?, from, f, to, t)
  {
    if !neck {
      HandledReadStaysBounded(cfg, from, to, call.read);
      var f := HandledRead(cfg, from, to, call.read).0;
      if call.writeBack.Some? {
        HandledWriteStaysBounded(cfg, f, call.writeBack.value);
      }
    }
    hide HandledRead, HandledWrite, Bound, Settled;
  }

  /** A flagged destination gets nothing, and the source is not read at all; an unflagged one
      is empty, so what it gets fits. */
  lemma ReadOnceRespectsFlag(cfg: Config, from: Cx, to: Cx, neck: bool, call: ReadCall)
    requires Bounded(cfg.params, from) && Bounded(cfg.params, to) && Matches(to, neck) && Settled(from)
    ensures var (f, t, _) := ReadOnce(cfg, from, to, neck, call);
            Respects(cfg.params, neck, call.writeBack.Some?, from, f, to, t)
  {
    var w := Unpaused(from, cfg.peered && call.read.env.comReady);
    assert Bounded(cfg.params, w) && Settled(w);
    ReadThroughRespectsFlag(cfg, w, to, neck, call);
    hide ReadThrough, Bound, Settled;
  }

  lemma HandledWriteStaysBounded(cfg: Config, c: Cx, part: WritePart)
    requires Bounded(cfg.params, c)
    ensures var (d, sent) := HandledWrite(cfg, c, part);
            && Bounded(cfg.params, d) && d.received == c.received
            && (d.writeWaiting ==> c.writeWaiting)
            && (!sent ==> d.wbuf == c.wbuf) && (c.wbuf == [] ==> d.wbuf == [])
            && (sent <==> !Proceeds(part) || WriteUnpaused(c, cfg.peered, part.env.comReady).writeWaiting || !part.env.io.WriteFailed?)
  {
    WriteSendsAPrefix(c, cfg.peered, part.env);
    WrittenFailsIff(c, cfg.peered, part.env);
    hide Written, Bound, WriteUnpaused;
  }

  predicate Proceeds(part: WritePart) {
    part.writable || part.overridden
  }

  lemma WrittenFailsIff(c: Cx, peered: bool, env: WriteEnv)
    ensures var (d, n) := Written(c, peered, env);
            && (n < 0 <==> !WriteUnpaused(c, peered, env.comReady).writeWaiting && env.io.WriteFailed?)
            && (d.writeWaiting ==> c.writeWaiting)
  {
    hide Flushed;
  }

  /** A write call does what it can: it leaves nothing to send, or the side is flagged
      already, or its kernel call happens and does not fail. */
  predicate Brakes(cfg: Config, c: Cx, neck: bool, part: WritePart) {
    || neck
    || c.wbuf == []
    || (&& c.connected
        && !WriteUnpaused(c, cfg.peered, part.env.comReady).writeWaiting
        && (Proceeds(part) ==> !part.env.io.WriteFailed?))
  }

  /** What a write call does to the other side, when it forces no read, and to its own bounds. */
  predicate Writes(p: Params, c: Cx, d: Cx, other: Cx, o: Cx) {
    && Bounded(p, d) && o == other.(readWaiting := o.readWaiting)
    && d.received == c.received && (d.writeWaiting ==> c.writeWaiting)
  }

  lemma SettleIsExact(p: Params, had: bool, c: Cx, other: Cx, neck: bool)
    requires Bounded(p, c) && (had || (c.wbuf == [] && !neck))
    ensures var (d, o, neck', good) := Settle(had, c.wbuf != [], c, other, neck);
            good && Writes(p, c, d, other, o) && Matches(d, neck')
  {
    hide Bound;
  }

  lemma WriteThroughSettlesFlag(cfg: Config, c: Cx, other: Cx, neck: bool, call: WriteCall)
    requires Bounded(cfg.params, c) && Fits(other) && (neck ==> c.wbuf != []) && call.readBack.None? && c.connected && !c.writeWaiting
    ensures var (d, o, neck', good) := WriteThrough(cfg, c, other, neck, call);
            && Writes(cfg.params, c, d, other, o)
            && (Matches(d, neck') <==> Brakes(cfg, c, neck, call.write))
            && (good ==> Brakes(cfg, c, neck, call.write))
  {
    HandledWriteStaysBounded(cfg, c, call.write);
    var (d, sent) := HandledWrite(cfg, c, call.write);
    assert Brakes(cfg, c, neck, call.write) <==> neck || c.wbuf == [] || sent;
    hide HandledWrite, Bounded, Fits, Brakes;
    if sent {
      var had := c.wbuf != [];
      assert WriteThrough(cfg, c, other, neck, call) == Settle(had, d.wbuf != [], d, other, neck);
      SettleIsExact(cfg.params, had, d, other, neck);
      hide Settle, WriteThrough;
    } else {
      var e := Checked(d, call.event).0;
      assert WriteThrough(cfg, c, other, neck, call) == (e, other, neck, false);
      CheckedStaysBounded(cfg.params, d, call.event);
      hide Checked, WriteThrough;
    }
  }

  lemma CheckedStaysBounded(p: Params, c: Cx, event: Event)
    requires Bounded(p, c)
    ensures var d := Checked(c, event).0; Bounded(p, d) && d == c.(connected := d.connected)
  {
  }

  /** The flag of a side after a write call is exact if and only if the write was able to do
      what it should. */
  lemma FlagIsExactIff(cfg: Config, c: Cx, other: Cx, neck: bool, call: WriteCall)
    requires Bounded(cfg.params, c) && Fits(other) && (neck ==> c.wbuf != []) && call.readBack.None?
    ensures var (d, o, neck', good) := WriteOnce(cfg, c, other, neck, call);
            && Writes(cfg.params, c, d, other, o)
            && (Matches(d, neck') <==> Brakes(cfg, c, neck, call.write))
            && (good && !c.writeWaiting ==> Brakes(cfg, c, neck, call.write))
  {
    var w := WriteUnpaused(c, cfg.peered, call.write.env.comReady);
    assert Bounded(cfg.params, w) && w == c.(error := w.error, writeWaiting := w.writeWaiting);
    assert Writes(cfg.params, c, w, other, other) && Writes(cfg.params, c, Shut(c.(error := true)), other, other);
    if !c.connected {
    } else if w.writeWaiting {
      CheckedStaysBounded(cfg.params, w, call.event);
      hide WriteThrough, Bounded, Fits;
    } else {
      WriteThroughSettlesFlag(cfg, w, other, neck, call);
      hide WriteThrough, Bounded, Fits;
    }
  }

  /** Nothing is forced in a pass: no write on a read, and no read on a write. */
  predicate Plain(pass: Pass) {
    && pass.leftRead.writeBack.None? && pass.rightRead.writeBack.None?
    && pass.leftWrite.readBack.None? && pass.rightWrite.readBack.None?
  }

  predicate Exact(s: State) {
    Matches(s.left, s.leftNeck) && Matches(s.right, s.rightNeck)
  }

  /** Everything but the flags. */
  predicate Kept(cfg: Config, s: State) {
    Linked(s.left, s.right) && Bounded(cfg.params, s.left) && Bounded(cfg.params, s.right)
  }

  predicate NothingWaits(s: State) {
    !s.left.writeWaiting && !s.right.writeWaiting
  }

  function AfterReads(cfg: Config, s: State, pass: Pass): (t: State)
    requires Sound(s)
    ensures Sound(t)
  {
    ReadStep(cfg, ReadStep(cfg, s, Left, pass.leftRead).0, Right, pass.rightRead).0
  }

  /** Both write calls of a pass do what they can. */
  predicate BrakedPass(cfg: Config, s: State, pass: Pass)
    requires Sound(s)
  {
    var t := AfterReads(cfg, s, pass);
    && Brakes(cfg, t.left, t.leftNeck, pass.leftWrite.write)
    && Brakes(cfg, t.right, t.rightNeck, pass.rightWrite.write)
  }

  /** No flag is up over an empty buffer. */
  predicate NoIdleFlag(s: State) {
    (s.leftNeck ==> s.left.wbuf != []) && (s.rightNeck ==> s.right.wbuf != [])
  }

  lemma LeftReadOfAPass(cfg: Config, s: State, call: ReadCall)
    requires Kept(cfg, s) && Exact(s) && call.writeBack.None?
    ensures var t := ReadStep(cfg, s, Left, call).0;
            && Kept(cfg, t) && Matches(t.left, t.leftNeck) && NoIdleFlag(t)
            && (NothingWaits(s) ==> NothingWaits(t))
  {
    ReadStepKeepsFlow(cfg, s, Left, call);
    ReadOnceRespectsFlag(cfg, s.left, s.right, s.rightNeck, call);
    hide ReadOnce, Flows, Bounded, Settled;
  }

  lemma RightReadOfAPass(cfg: Config, s: State, call: ReadCall)
    requires Kept(cfg, s) && Matches(s.left, s.leftNeck) && NoIdleFlag(s) && call.writeBack.None?
    ensures var t := ReadStep(cfg, s, Right, call).0;
            Kept(cfg, t) && NoIdleFlag(t) && (NothingWaits(s) ==> NothingWaits(t))
  {
    ReadStepKeepsFlow(cfg, s, Right, call);
    ReadOnceRespectsFlag(cfg, s.right, s.left, s.leftNeck, call);
    hide ReadOnce, Flows, Bounded, Settled;
  }

  lemma ReadsOfAPass(cfg: Config, s: State, pass: Pass)
    requires Kept(cfg, s) && Exact(s) && Plain(pass)
    ensures var t := AfterReads(cfg, s, pass);
            Kept(cfg, t) && NoIdleFlag(t) && (NothingWaits(s) ==> NothingWaits(t))
  {
    LeftReadOfAPass(cfg, s, pass.leftRead);
    RightReadOfAPass(cfg, ReadStep(cfg, s, Left, pass.leftRead).0, pass.rightRead);
    hide ReadStep, Kept, NoIdleFlag, NothingWaits, Matches;
  }

  lemma LeftWriteOfAPass(cfg: Config, s: State, call: WriteCall)
    requires Kept(cfg, s) && NoIdleFlag(s) && call.readBack.None?
    ensures var (t, good) := WriteStep(cfg, s, Left, call);
            && Kept(cfg, t)
            && t.right == s.right.(readWaiting := t.right.readWaiting) && t.rightNeck == s.rightNeck
            && (Matches(t.left, t.leftNeck) <==> Brakes(cfg, s.left, s.leftNeck, call.write))
            && (NothingWaits(s) ==> NothingWaits(t) && (good ==> Brakes(cfg, s.left, s.leftNeck, call.write)))
  {
    WriteStepKeepsFlow(cfg, s, Left, call);
    FlagIsExactIff(cfg, s.left, s.right, s.leftNeck, call);
    hide WriteOnce, Linked, Bound, Brakes;
  }

  lemma RightWriteOfAPass(cfg: Config, s: State, call: WriteCall)
    requires Kept(cfg, s) && (s.rightNeck ==> s.right.wbuf != []) && call.readBack.None?
    ensures var (t, good) := WriteStep(cfg, s, Right, call);
            && Kept(cfg, t)
            && t.left == s.left.(readWaiting := t.left.readWaiting) && t.leftNeck == s.leftNeck
            && (Matches(t.right, t.rightNeck) <==> Brakes(cfg, s.right, s.rightNeck, call.write))
            && (NothingWaits(s) ==> NothingWaits(t) && (good ==> Brakes(cfg, s.right, s.rightNeck, call.write)))
  {
    WriteStepKeepsFlow(cfg, s, Right, call);
    FlagIsExactIff(cfg, s.right, s.left, s.rightNeck, call);
    hide WriteOnce, Linked, Bound, Brakes;
  }

  /** A pass keeps streams and bounds whatever happens, and its flags are exact at the end if
      and only if both of its write calls did what they should; a pass that goes well is one. */
  lemma PassIsExactIff(cfg: Config, s: State, pass: Pass)
    requires Kept(cfg, s) && Exact(s) && Plain(pass)
    ensures var (t, good) := Passed(cfg, s, pass);
            && Kept(cfg, t)
            && (Exact(t) <==> BrakedPass(cfg, s, pass))
            && (NothingWaits(s) ==> NothingWaits(t) && (good ==> BrakedPass(cfg, s, pass)))
  {
    ReadsOfAPass(cfg, s, pass);
    var s2 := AfterReads(cfg, s, pass);
    LeftWriteOfAPass(cfg, s2, pass.leftWrite);
    var s3 := WriteStep(cfg, s2, Left, pass.leftWrite).0;
    SameBrakes(cfg, s2.right, s3.right, s2.rightNeck, pass.rightWrite.write);
    RightWriteOfAPass(cfg, s3, pass.rightWrite);
    hide ReadStep, WriteStep, Brakes, Linked, Bounded;
  }

  lemma SameBrakes(cfg: Config, c: Cx, d: Cx, neck: bool, part: WritePart)
    requires d == c.(readWaiting := d.readWaiting)
    ensures Brakes(cfg, c, neck, part) <==> Brakes(cfg, d, neck, part)
  {
  }

  // ----- Runs of passes -----

  function AfterPasses(cfg: Config, s: State, passes: seq<Pass>): (t: State)
    requires Sound(s)
    ensures Sound(t)
    decreases |passes|
  {
    if passes == [] then s else AfterPasses(cfg, Passed(cfg, s, passes[0]).0, passes[1..])
  }

  predicate AllPlain(passes: seq<Pass>) {
    forall i :: 0 <= i < |passes| ==> Plain(passes[i])
  }

  /** No pass of a run reports an error. */
  predicate AllGood(cfg: Config, s: State, passes: seq<Pass>)
    requires Sound(s)
    decreases |passes|
  {
    passes == [] || (Passed(cfg, s, passes[0]).1 && AllGood(cfg, Passed(cfg, s, passes[0]).0, passes[1..]))
  }

  /** No write call of a run to a side that is not flagged and has something to send falls
      through: the side is connected and does not wait, and the kernel does not fail. */
  predicate AllBraked(cfg: Config, s: State, passes: seq<Pass>)
    requires Sound(s)
    decreases |passes|
  {
    passes == [] || (BrakedPass(cfg, s, passes[0]) && AllBraked(cfg, Passed(cfg, s, passes[0]).0, passes[1..]))
  }

  /** The flags are exact at the beginning and after every pass of a run. */
  predicate AlwaysExact(cfg: Config, s: State, passes: seq<Pass>)
    requires Sound(s)
    decreases |passes|
  {
    Exact(s) && (passes == [] || AlwaysExact(cfg, Passed(cfg, s, passes[0]).0, passes[1..]))
  }

  /** Over every run of plain passes: the flags are exact after every one of them if and only
      if every write call did what it should; and then streams and bounds hold at the end. */
  lemma {:induction false} FlagsAreExactIff(cfg: Config, s: State, passes: seq<Pass>)
    requires Kept(cfg, s) && Exact(s) && AllPlain(passes)
    ensures AlwaysExact(cfg, s, passes) <==> AllBraked(cfg, s, passes)
    ensures AllBraked(cfg, s, passes) ==> Kept(cfg, AfterPasses(cfg, s, passes)) && Exact(AfterPasses(cfg, s, passes))
    decreases |passes|
  {
    if passes != [] {
      assert Sound(s) && Plain(passes[0]);
      PassIsExactIff(cfg, s, passes[0]);
      hide Kept, Exact, Passed, BrakedPass, NothingWaits, Plain;
      var t := Passed(cfg, s, passes[0]).0;
      if Exact(t) {
        FlagsAreExactIff(cfg, t, passes[1..]);
      }
    }
  }

  /** A run without errors, in which nothing was made to wait, is such a run. */
  lemma {:induction false} GoodRunsAreBraked(cfg: Config, s: State, passes: seq<Pass>)
    requires Kept(cfg, s) && Exact(s) && NothingWaits(s) && AllPlain(passes) && AllGood(cfg, s, passes)
    ensures AllBraked(cfg, s, passes)
    decreases |passes|
  {
    if passes != [] {
      assert Sound(s) && Plain(passes[0]);
      PassIsExactIff(cfg, s, passes[0]);
      hide Kept, Exact, Passed, BrakedPass, NothingWaits, Plain;
      GoodRunsAreBraked(cfg, Passed(cfg, s, passes[0]).0, passes[1..]);
    }
  }

  /** Over every run of plain passes whose write calls do what they should, whatever else goes
      wrong: a side is flagged exactly when it has something left to send; neither write
      buffer, nor the block behind it, is ever larger than the configured maximum; and both
      streams are intact. */
  lemma BackpressureHolds(cfg: Config, passes: seq<Pass>)
    requires AllPlain(passes) && (AllGood(cfg, Start(cfg), passes) || AllBraked(cfg, Start(cfg), passes))
    requires cfg.params.buffsizeMaxmul >= 1
    ensures var s := AfterPasses(cfg, Start(cfg), passes);
            var max := cfg.params.buffsize * cfg.params.buffsizeMaxmul;
            && (s.leftNeck <==> s.left.wbuf != [])
            && (s.rightNeck <==> s.right.wbuf != [])
            && |s.left.wbuf| <= s.left.wcap <= max && |s.right.wbuf| <= s.right.wcap <= max
            && s.left.rcap <= max && s.right.rcap <= max
            && Linked(s.left, s.right)
  {
    hide AfterPasses, AllGood, AllBraked, AlwaysExact, Linked, AllPlain;
    StartIsKept(cfg);
    if AllGood(cfg, Start(cfg), passes) {
      GoodRunsAreBraked(cfg, Start(cfg), passes);
    }
    FlagsAreExactIff(cfg, Start(cfg), passes);
    MaximumIsNotBelowInitial(cfg.params.buffsize, cfg.params.buffsizeMaxmul);
    hide Start;
  }

  lemma StartIsKept(cfg: Config)
    ensures Kept(cfg, Start(cfg)) && Exact(Start(cfg)) && NothingWaits(Start(cfg))
  {
  }

  lemma MaximumIsNotBelowInitial(b: nat, m: nat)
    requires m >= 1
    ensures b <= b * m
  {
    assert b * m == b + b * (m - 1);
    assert b * (m - 1) >= 0;
  }

  // ----- A failed write loses the brake -----

  function Incoming(data: seq<byte>): ReadCall {
    ReadCall(true, false, ReadPart(true, false, ReadEnv(true, None, Got(data))), None, Quiet)
  }

  /** In the slow lane, and when nothing stands in the way of a read, the bytes arrive. */
  lemma ReadReachesTheOtherSide(cfg: Config, from: Cx, to: Cx, data: seq<byte>)
    requires Settled(from) && from.connected && !from.readWaiting && !from.error && !cfg.peered
    requires Fits(to) && data != [] && |data| <= from.rcap && to.meterWrite <= cfg.params.fastCopyStart
    ensures var (f, t, _) := ReadOnce(cfg, from, to, false, Incoming(data));
            t.wbuf == to.wbuf + data && t.meterWrite == to.meterWrite
            && Settled(f) && f.connected && !f.readWaiting && !f.error && f.rcap >= from.rcap
  {
    var env := Incoming(data).read.env;
    PlainRead(cfg.params, from, data);
    ReadAddsWhatItReceived(cfg.params, from, env, None);
    var (c, n) := Read(cfg.params, from, env, None);
    assert c.rbuf == data;
    ForwardMovesEverything(cfg.params, to, c);
    hide Read, Flushed;
  }

  lemma PlainRead(p: Params, c: Cx, data: seq<byte>)
    requires Settled(c) && !c.readWaiting && !c.error && data != [] && |data| <= c.rcap
    ensures var (d, n) := Read(p, c, Incoming(data).read.env, None);
            n == |data| && d.rbuf == data && d.rcap >= c.rcap && !d.error && !d.readWaiting
  {
    assert Finished(c) == c;
    assert Up(Got(data), Room(c, 0)) == data by {
      assert data[..|data|] == data;
    }
    assert c.rbuf + data == data;
    hide Up, Room, Finished, MaxBuffsize;
  }

  function Failing(): WriteCall {
    WriteCall(true, false, WritePart(true, false, WriteEnv(true, WriteFailed)), None, Quiet)
  }

  /** What happens without that condition: a write that fails leaves the bytes in the buffer
      and the flag down, and the other side goes on being read into that buffer. */
  lemma FailedWriteLosesTheBrake(cfg: Config, left: Cx, right: Cx, data: seq<byte>)
    requires Settled(left) && left.connected && !left.readWaiting && !left.error && !cfg.peered
    requires Fits(right) && right.connected && !right.writeWaiting
    requires right.wbuf == [] && right.meterWrite <= cfg.params.fastCopyStart
    requires data != [] && |data| <= left.rcap
    ensures var (l1, r1, _) := ReadOnce(cfg, left, right, false, Incoming(data));
            var (r2, l2, neck, good) := WriteOnce(cfg, r1, l1, false, Failing());
            && !good && !neck && r2.wbuf == data && !r2.connected
            && ReadOnce(cfg, l2, r2, neck, Incoming(data)).1.wbuf == data + data
  {
    ReadReachesTheOtherSide(cfg, left, right, data);
    var (l1, r1, _) := ReadOnce(cfg, left, right, false, Incoming(data));
    assert [] + data == data;
    KeepsConnection(cfg, left, right, data);
    hide ReadOnce;
    var (r2, l2, neck, good) := WriteOnce(cfg, r1, l1, false, Failing());
    FailingWriteLeavesData(cfg, r1, l1);
    hide WriteOnce;
    ReadReachesTheOtherSide(cfg, l2, r2, data);
  }

  lemma KeepsConnection(cfg: Config, from: Cx, to: Cx, data: seq<byte>)
    requires Fits(from) && Fits(to)
    ensures var t := ReadOnce(cfg, from, to, false, Incoming(data)).1;
            t.connected == to.connected && t.writeWaiting == to.writeWaiting
  {
    var call := Incoming(data);
    HandledReadKeepsConnection(cfg, Unpaused(from, cfg.peered && call.read.env.comReady), to, call.read);
    hide HandledRead;
  }

  lemma HandledReadKeepsConnection(cfg: Config, from: Cx, to: Cx, part: ReadPart)
    requires Fits(from) && Fits(to)
    ensures var t := HandledRead(cfg, from, to, part).1;
            t.connected == to.connected && t.writeWaiting == to.writeWaiting
  {
    hide Read, Finished;
  }

  lemma FailingWriteLeavesData(cfg: Config, c: Cx, other: Cx)
    requires Fits(c) && Fits(other) && c.connected && !c.writeWaiting
    ensures var (d, o, neck, good) := WriteOnce(cfg, c, other, false, Failing());
            !good && !neck && o == other && d.wbuf == c.wbuf && d.meterWrite == c.meterWrite && !d.connected
  {
    assert HandledWrite(cfg, c, Failing().write) == (Shut(Offered(c)), false);
    OfferedKeeps(c);
    hide HandledWrite, Offered, ReadBack;
  }

  lemma OfferedKeeps(c: Cx)
    ensures Offered(c) == c.(processedOutTotal := Offered(c).processedOutTotal)
  {
  }

  // ----- A write forced by a read leaves the brake on -----

  /** The write that a read call forces takes all that waits. */
  predicate Drains(cfg: Config, from: Cx, to: Cx, neck: bool, call: ReadCall)
    requires Fits(from) && Fits(to)
  {
    var w := Unpaused(from, cfg.peered && call.read.env.comReady);
    && from.connected && !w.readWaiting && !neck && (call.inReadSet || call.forced)
    && HandledRead(cfg, w, to, call.read).2
    && call.writeBack.Some? && Proceeds(call.writeBack.value)
    && !WriteUnpaused(from, cfg.peered, call.writeBack.value.env.comReady).writeWaiting
    && call.writeBack.value.env.io.Took? && call.writeBack.value.env.io.n >= |from.wbuf|
  }

  lemma HandledReadLeavesWrites(cfg: Config, from: Cx, to: Cx, part: ReadPart)
    requires Settled(from) && Fits(to)
    ensures var f := HandledRead(cfg, from, to, part).0;
            f.wbuf == from.wbuf && f.sent == from.sent && f.writeWaiting == from.writeWaiting
  {
    ReadAddsWhatItReceived(cfg.params, from, part.env, Pending(cfg, to));
    var c := Read(cfg.params, from, part.env, Pending(cfg, to)).0;
    ForwardKeepsWaits(cfg.params, c, to);
    FinishedKeepsWrites(cfg.params, to, c);
    hide Read, ToWrite, Finished;
  }

  lemma FinishedKeepsWrites(p: Params, dst: Cx, c: Cx)
    ensures var f := Finished(ToWrite(p, dst, c).1); f.wbuf == c.wbuf && f.sent == c.sent
  {
    hide Flushed;
  }

  lemma HandledWriteDrainsIff(cfg: Config, c: Cx, part: WritePart)
    requires Fits(c) && c.wbuf != []
    ensures HandledWrite(cfg, c, part).0.wbuf == [] <==>
            Proceeds(part) && !WriteUnpaused(c, cfg.peered, part.env.comReady).writeWaiting
            && part.env.io.Took? && part.env.io.n >= |c.wbuf|
  {
    WriteSendsAPrefix(c, cfg.peered, part.env);
    var (d, n) := Written(c, cfg.peered, part.env);
    WrittenCounts(c, cfg.peered, part.env);
    hide Written, WriteUnpaused;
  }

  lemma WrittenCounts(c: Cx, peered: bool, env: WriteEnv)
    ensures var (d, n) := Written(c, peered, env);
            n == if WriteUnpaused(c, peered, env.comReady).writeWaiting then 0
                 else if env.io.WriteFailed? then -1
                 else Least(env.io.n, |c.wbuf|)
  {
    hide Flushed, Accepted;
  }

  /** A flagged side whose bytes go out in the write forced by one of its own reads keeps its
      flag, with nothing left to send; and there is no other way for a read call to do so. */
  lemma ForcedWriteLeavesTheBrakeOnIff(cfg: Config, from: Cx, to: Cx, neck: bool, call: ReadCall)
    requires Settled(from) && Fits(to) && from.wbuf != []
    ensures ReadOnce(cfg, from, to, neck, call).0.wbuf == [] <==> Drains(cfg, from, to, neck, call)
  {
    var w := Unpaused(from, cfg.peered && call.read.env.comReady);
    HandledReadLeavesWrites(cfg, w, to, call.read);
    var f := HandledRead(cfg, w, to, call.read).0;
    if call.writeBack.Some? {
      HandledWriteDrainsIff(cfg, f, call.writeBack.value);
    }
    assert Fits(from) && Fits(w);
    hide HandledRead, HandledWrite, Settled, Fits;
  }

  function Opposite(side: Side): Side {
    if side.Left? then Right else Left
  }

  /** The side is flagged and has nothing to send. */
  predicate Stuck(s: State, side: Side) {
    if side.Left? then s.leftNeck && s.left.wbuf == [] else s.rightNeck && s.right.wbuf == []
  }

  function Of(s: State, side: Side): Cx {
    if side.Left? then s.left else s.right
  }

  predicate ForcesNoRead(call: Call) {
    call.WriteSide? ==> call.write.readBack.None?
  }

  lemma HandledWriteLeavesEmpty(cfg: Config, c: Cx, part: WritePart)
    requires Fits(c) && c.wbuf == []
    ensures var d := HandledWrite(cfg, c, part).0; d.wbuf == [] && d.sent == c.sent
  {
    WriteSendsAPrefix(c, cfg.peered, part.env);
    var d := HandledWrite(cfg, c, part).0;
    assert d.wbuf == [] && d.sent + [] == c.sent + [];
    assert d.sent + [] == d.sent && c.sent + [] == c.sent;
    hide Written;
  }

  /** A write call of a side that has nothing to send sends nothing and leaves its flag. */
  lemma EmptyWriteOnceSettlesNothing(cfg: Config, c: Cx, other: Cx, neck: bool, call: WriteCall)
    requires Fits(c) && Fits(other) && c.wbuf == [] && call.readBack.None?
    ensures var (d, o, neck', _) := WriteOnce(cfg, c, other, neck, call);
            d.wbuf == [] && d.sent == c.sent && neck' == neck
  {
    var w := WriteUnpaused(c, cfg.peered, call.write.env.comReady);
    assert w.wbuf == [] && w.sent == c.sent && Fits(w);
    hide WriteUnpaused, Fits;
    EmptyWriteThrough(cfg, w, other, neck, call);
    hide WriteThrough;
  }

  lemma EmptyWriteThrough(cfg: Config, c: Cx, other: Cx, neck: bool, call: WriteCall)
    requires Fits(c) && Fits(other) && c.wbuf == [] && call.readBack.None?
    ensures var (d, o, neck', _) := WriteThrough(cfg, c, other, neck, call);
            d.wbuf == [] && d.sent == c.sent && neck' == neck
  {
    HandledWriteLeavesEmpty(cfg, c, call.write);
    hide HandledWrite, Fits;
  }

  lemma WriteOnceLeavesOther(cfg: Config, c: Cx, other: Cx, neck: bool, call: WriteCall)
    requires Fits(c) && Fits(other) && call.readBack.None?
    ensures WriteOnce(cfg, c, other, neck, call).1 == other.(readWaiting := WriteOnce(cfg, c, other, neck, call).1.readWaiting)
  {
    var w := WriteUnpaused(c, cfg.peered, call.write.env.comReady);
    assert Fits(w);
    hide WriteUnpaused, Fits;
    WriteThroughLeavesOther(cfg, w, other, neck, call);
    hide WriteThrough;
  }

  lemma WriteThroughLeavesOther(cfg: Config, c: Cx, other: Cx, neck: bool, call: WriteCall)
    requires Fits(c) && Fits(other) && call.readBack.None?
    ensures WriteThrough(cfg, c, other, neck, call).1 == other.(readWaiting := WriteThrough(cfg, c, other, neck, call).1.readWaiting)
  {
    hide HandledWrite, Fits;
  }

  lemma FlaggedReadOnceLeavesOther(cfg: Config, from: Cx, to: Cx, call: ReadCall)
    requires Fits(from) && Fits(to)
    ensures ReadOnce(cfg, from, to, true, call).1 == to
  {
  }

  lemma ReadOnceLeavesEmpty(cfg: Config, from: Cx, to: Cx, neck: bool, call: ReadCall)
    requires Settled(from) && Fits(to) && from.wbuf == []
    ensures var f := ReadOnce(cfg, from, to, neck, call).0; f.wbuf == [] && f.sent == from.sent
  {
    var w := Unpaused(from, cfg.peered && call.read.env.comReady);
    HandledReadLeavesSent(cfg, w, to, call.read);
    var f := HandledRead(cfg, w, to, call.read).0;
    if call.writeBack.Some? {
      HandledWriteLeavesEmpty(cfg, f, call.writeBack.value);
    }
    hide HandledRead, HandledWrite, Settled, Fits;
  }

  lemma HandledReadLeavesSent(cfg: Config, from: Cx, to: Cx, part: ReadPart)
    requires Settled(from) && Fits(to)
    ensures var f := HandledRead(cfg, from, to, part).0; f.wbuf == from.wbuf && f.sent == from.sent
  {
    ReadAddsWhatItReceived(cfg.params, from, part.env, Pending(cfg, to));
    var (c, n) := Read(cfg.params, from, part.env, Pending(cfg, to));
    if n > 0 {
      ForwardMovesEverything(cfg.params, to, c);
    }
    hide Read, ToWrite, Finished;
  }

  lemma StepKeepsStuck(cfg: Config, s: State, side: Side, call: Call)
    requires Linked(s.left, s.right) && Stuck(s, side) && ForcesNoRead(call)
    ensures Stuck(Step(cfg, s, call), side) && Of(Step(cfg, s, call), side).sent == Of(s, side).sent
  {
    var c, o := Of(s, side), if side.Left? then s.right else s.left;
    var oNeck := if side.Left? then s.rightNeck else s.leftNeck;
    assert Settled(c) && Settled(o) && Fits(c) && Fits(o);
    match call {
      case ReadSide(at, read) =>
        if at == side {
          ReadOnceLeavesEmpty(cfg, c, o, oNeck, read);
        } else {
          FlaggedReadOnceLeavesOther(cfg, o, c, read);
        }
      case WriteSide(at, write) =>
        if at == side {
          EmptyWriteOnceSettlesNothing(cfg, c, o, true, write);
        } else {
          WriteOnceLeavesOther(cfg, o, c, oNeck, write);
        }
      case Pause(_, _, _) =>
    }
    hide ReadOnce, WriteOnce, Linked, Settled, Fits;
  }

  /** And that is for good: over every run of calls in which no write forces a read, the flag
      stays up, nothing more is sent on that side, and nothing is ever read for it. */
  lemma {:induction false} StuckBrakeStaysOn(cfg: Config, s: State, side: Side, calls: seq<Call>)
    requires Linked(s.left, s.right) && Stuck(s, side)
    requires forall i :: 0 <= i < |calls| ==> ForcesNoRead(calls[i])
    ensures var t := After(cfg, s, calls);
            Stuck(t, side) && Of(t, side).sent == Of(s, side).sent
            && Of(t, Opposite(side)).received == Of(s, Opposite(side)).received
    decreases |calls|
  {
    RunsStayLinked(cfg, s, calls);
    StuckSent(cfg, s, side, calls);
    var t := After(cfg, s, calls);
    var us, ut := Of(s, side), Of(t, side);
    assert us.sent + us.wbuf + [] == us.sent && ut.sent + ut.wbuf + [] == ut.sent;
    hide After;
  }

  lemma {:induction false} StuckSent(cfg: Config, s: State, side: Side, calls: seq<Call>)
    requires Linked(s.left, s.right) && Stuck(s, side)
    requires forall i :: 0 <= i < |calls| ==> ForcesNoRead(calls[i])
    ensures Stuck(After(cfg, s, calls), side) && Of(After(cfg, s, calls), side).sent == Of(s, side).sent
    decreases |calls|
  {
    if calls != [] {
      assert Sound(s);
      StepKeepsFlow(cfg, s, calls[0]);
      StepKeepsStuck(cfg, s, side, calls[0]);
      hide Step, Linked, Sound, Stuck, ForcesNoRead;
      StuckSent(cfg, Step(cfg, s, calls[0]), side, calls[1..]);
    }
  }

  // ----- A read forced by a write takes no notice of the other side's flag -----

  function Flag(s: State, side: Side): bool {
    if side.Left? then s.leftNeck else s.rightNeck
  }

  /** The read gives bytes. */
  predicate Gives(cfg: Config, c: Cx, other: Cx, part: ReadPart)
    requires Fits(c)
  {
    (part.readable || part.overridden) && Read(cfg.params, c, part.env, Pending(cfg, other)).1 > 0
  }

  /** The write call comes to its write, the write does not fail, and the read it forces gives
      bytes. */
  predicate ForcesBytes(cfg: Config, c: Cx, other: Cx, call: WriteCall)
    requires Fits(c)
  {
    var w := WriteUnpaused(c, cfg.peered, call.write.env.comReady);
    && c.connected && !w.writeWaiting && (call.inWriteSet || call.forced || c.wbuf != [])
    && HandledWrite(cfg, w, call.write).1
    && call.readBack.Some? && Gives(cfg, HandledWrite(cfg, w, call.write).0, other, call.readBack.value)
  }

  /** The buffer gets longer at its end, or stays. */
  predicate GrowsIf(b: seq<byte>, b': seq<byte>, more: bool) {
    if more then b < b' else b' == b
  }

  lemma HandledReadGrows(cfg: Config, from: Cx, to: Cx, part: ReadPart)
    requires Settled(from) && Fits(to)
    ensures GrowsIf(to.wbuf, HandledRead(cfg, from, to, part).1.wbuf, Gives(cfg, from, to, part))
  {
    ReadAddsWhatItReceived(cfg.params, from, part.env, Pending(cfg, to));
    var (c, n) := Read(cfg.params, from, part.env, Pending(cfg, to));
    if n > 0 {
      ForwardMovesEverything(cfg.params, to, c);
    }
    hide Read, ToWrite, Finished;
  }

  lemma HandledWriteStaysSettled(cfg: Config, c: Cx, part: WritePart)
    requires Settled(c)
    ensures Settled(HandledWrite(cfg, c, part).0)
  {
    WriteSendsAPrefix(c, cfg.peered, part.env);
    hide Written;
  }

  lemma ReadBackGrows(cfg: Config, had: bool, c: Cx, other: Cx, neck: bool, call: WriteCall)
    requires Settled(c) && Fits(other)
    ensures var o := ReadBack(cfg, had, c, other, neck, call).1;
            GrowsIf(other.wbuf, o.wbuf, call.readBack.Some? && Gives(cfg, c, other, call.readBack.value))
  {
    if call.readBack.Some? {
      HandledReadGrows(cfg, c, other, call.readBack.value);
    }
    assert Fits(c);
    hide HandledRead, Gives, Fits, Settled;
  }

  lemma WriteReadyGrows(cfg: Config, c: Cx, other: Cx, neck: bool, call: WriteCall)
    requires Settled(c) && Fits(other) && c.connected
    ensures GrowsIf(other.wbuf, WriteReady(cfg, c, other, neck, call).1.wbuf, ForcesBytes(cfg, c, other, call))
  {
    var w := WriteUnpaused(c, cfg.peered, call.write.env.comReady);
    assert Settled(w) && w.wbuf == c.wbuf && Fits(w);
    HandledWriteStaysSettled(cfg, w, call.write);
    var d := HandledWrite(cfg, w, call.write).0;
    ReadBackGrows(cfg, w.wbuf != [], d, other, neck, call);
    hide HandledWrite, ReadBack, WriteUnpaused, Gives, Fits, Settled;
  }

  /** A write call puts bytes into the other side's buffer, flagged or not, exactly when it
      forces a read that gives some, and it leaves the other side's flag as it is. */
  lemma ForcedReadIgnoresTheFlagIff(cfg: Config, s: State, side: Side, call: WriteCall)
    requires Sound(s) && Settled(Of(s, side))
    ensures var t, other := WriteStep(cfg, s, side, call).0, Opposite(side);
            && (Of(s, other).wbuf < Of(t, other).wbuf <==> ForcesBytes(cfg, Of(s, side), Of(s, other), call))
            && Of(s, other).wbuf <= Of(t, other).wbuf
            && Flag(t, other) == Flag(s, other)
  {
    var c, o := Of(s, side), Of(s, Opposite(side));
    if c.connected {
      WriteReadyGrows(cfg, c, o, Flag(s, side), call);
    }
    hide WriteReady, HandledWrite, Gives, Fits, Settled;
  }

  // ----- What one call does, exactly -----

  /** A read call gets as far as the context's own read. */
  predicate ComesToRead(cfg: Config, from: Cx, neck: bool, call: ReadCall) {
    && from.connected && !neck
    && (from.readWaiting ==> cfg.peered && call.read.env.comReady)
    && (call.inReadSet || call.forced) && (call.read.readable || call.read.overridden)
  }

  /** Some bytes were added at the end: a first part of these, as long as room and limit
      allow. */
  predicate Gained(b: seq<byte>, b': seq<byte>, bytes: seq<byte>, room: nat, limit: Option<nat>) {
    && b < b'
    && b'[|b|..] <= bytes
    && IsLeastOf(|b'| - |b|, |bytes|, room, limit)
  }

  /** A read that goes ahead and finds bytes brings them to the destination, and only such a
      read does. */
  predicate Brings(from: Cx, to: Cx, t: Cx, goes: bool, env: ReadEnv) {
    if goes && Offers(from, env.io) then Gained(to.wbuf, t.wbuf, env.io.bytes, from.rcap, env.limit)
    else t.wbuf == to.wbuf
  }

  /** The read goes ahead and finds the end of the stream, or has no room. */
  predicate Ends(from: Cx, goes: bool, env: ReadEnv) {
    goes && !Offers(from, env.io) && !env.io.ReadFailed?
  }

  lemma HandledReadIsExact(cfg: Config, from: Cx, to: Cx, part: ReadPart)
    requires Settled(from) && Fits(to)
    ensures var (f, t, good) := HandledRead(cfg, from, to, part);
            var goes := (part.readable || part.overridden) && MayRead(cfg.params, from, part.env, Pending(cfg, to));
            && Brings(from, to, t, goes, part.env)
            && (good <==> !Ends(from, goes, part.env))
            && (f.connected <==> from.connected && good) && (f.error <==> from.error || !good)
  {
    var pending := Pending(cfg, to);
    ReadGivesBytesIff(cfg.params, from, part.env, pending);
    ReadCountsAndGrowsIff(cfg.params, from, part.env, pending);
    ReadAddsWhatItReceived(cfg.params, from, part.env, pending);
    var (c, n) := Read(cfg.params, from, part.env, pending);
    hide Read, MayRead, Offers, IsLeastOf, Gained, Settled, Fits;
    if (part.readable || part.overridden) && n > 0 {
      ForwardGains(cfg.params, c, to, n, part.env.io.bytes, from.rcap, part.env.limit);
    }
    hide Forwarded;
  }

  lemma ForwardGains(p: Params, from: Cx, to: Cx, n: nat, bytes: seq<byte>, room: nat, limit: Option<nat>)
    requires Fits(from) && Fits(to) && from.processedIn == |from.rbuf| == n > 0 && from.processedInTotal == from.meterRead
    requires IsLeastOf(n, |bytes|, room, limit) && n <= |bytes| && from.rbuf == bytes[..n]
    ensures var (f, t) := Forwarded(p, from, to);
            Gained(to.wbuf, t.wbuf, bytes, room, limit) && f.connected == from.connected && f.error == from.error
  {
    ForwardMovesEverything(p, to, from);
    hide ToWrite, Finished;
    assert (to.wbuf + from.rbuf)[|to.wbuf|..] == from.rbuf;
  }

  /** A read call that forces no write: the destination grows if and only if the call comes to
      its read, nothing holds that back, and there are bytes; the source is shut down if and
      only if that read found the end of the stream, or there was an error, or a timeout. */
  lemma ReadCallIsExact(cfg: Config, from: Cx, to: Cx, neck: bool, call: ReadCall)
    requires Settled(from) && Fits(to) && call.writeBack.None?
    ensures var (f, t, good) := ReadOnce(cfg, from, to, neck, call);
            var env := call.read.env;
            var goes := ComesToRead(cfg, from, neck, call) && MayRead(cfg.params, from, env, Pending(cfg, to));
            && Brings(from, to, t, goes, env)
            && (good <==> from.connected && !from.error && !Ends(from, goes, env) && call.event == Quiet)
            && (f.connected <==> from.connected && !from.error && !Ends(from, goes, env) && call.event != Timeout)
            && (f.error <==> from.error || Ends(from, goes, env) || !from.connected)
  {
    var w := Unpaused(from, cfg.peered && call.read.env.comReady);
    assert Settled(w);
    HandledReadIsExact(cfg, w, to, call.read);
    hide HandledRead, Gained, Settled, Fits;
  }

  /** A write call that forces no read takes so many bytes of the buffer. */
  function TakenBy(cfg: Config, c: Cx, call: WriteCall): nat {
    if c.connected && !Holds(c, cfg.peered, call.write.env) && Proceeds(call.write) && call.write.env.io.Took?
    then Least(call.write.env.io.n, |c.wbuf|) else 0
  }

  /** Its kernel call happens and fails. */
  predicate FailsIn(cfg: Config, c: Cx, call: WriteCall) {
    && c.connected && !Holds(c, cfg.peered, call.write.env)
    && (call.inWriteSet || call.forced || c.wbuf != [])
    && Proceeds(call.write) && call.write.env.io.WriteFailed?
  }

  /** What it leaves behind: with bytes left over the side is flagged and the other one
      pauses; with none left a flag goes down and the other one resumes. A call that had
      nothing to send, or could not, changes neither flag nor pause. */
  predicate PausesOther(had: bool, left: bool, neck: bool, neck': bool, d: Cx, other: Cx, o: Cx) {
    && o == other.(readWaiting := o.readWaiting)
    && (if had && left then neck' && o.readWaiting && !d.readWaiting
        else if had then !neck' && o.readWaiting == (other.readWaiting && !neck)
        else neck' == neck && o.readWaiting == other.readWaiting)
  }

  lemma HandledWriteIsExact(cfg: Config, c: Cx, part: WritePart)
    requires Fits(c) && c.connected && !Holds(c, cfg.peered, part.env)
    ensures var (d, sent) := HandledWrite(cfg, c, part);
            var k := if Proceeds(part) && part.env.io.Took? then Least(part.env.io.n, |c.wbuf|) else 0;
            && (sent <==> !(Proceeds(part) && part.env.io.WriteFailed?))
            && Leaves(c, d, k, !sent)
  {
    WriteIsExact(c, cfg.peered, part.env);
    WriteSendsAPrefix(c, cfg.peered, part.env);
    hide Written;
    assert c.sent + c.wbuf[..0] == c.sent && c.wbuf[0..] == c.wbuf;
  }

  /** What a write call leaves of the context itself: k bytes are sent. */
  predicate Leaves(c: Cx, d: Cx, k: nat, failed: bool) {
    && k <= |c.wbuf| && d.sent == c.sent + c.wbuf[..k] && d.wbuf == c.wbuf[k..]
    && (d.connected <==> c.connected && !failed && !(c.closeAfterWrite && k > 0 && k == |c.wbuf|))
  }

  lemma SettlementIsExact(c: Cx, d: Cx, other: Cx, neck: bool, k: nat)
    requires Leaves(c, d, k, false)
    ensures var (e, o, neck', good) := Settle(c.wbuf != [], d.wbuf != [], d, other, neck);
            && good && Leaves(c, e, k, false)
            && PausesOther(c.wbuf != [], k < |c.wbuf|, neck, neck', e, other, o)
  {
  }

  lemma FailureIsExact(c: Cx, d: Cx, other: Cx, neck: bool, k: nat, event: Event)
    requires Leaves(c, d, k, true)
    ensures var e := Checked(d, event).0;
            Leaves(c, e, k, true) && PausesOther(false, k < |c.wbuf|, neck, neck, e, other, other)
  {
  }

  lemma WriteThroughIsExact(cfg: Config, c: Cx, other: Cx, neck: bool, call: WriteCall)
    requires Fits(c) && Fits(other) && call.readBack.None? && c.connected && !Holds(c, cfg.peered, call.write.env)
    ensures var (d, o, neck', good) := WriteThrough(cfg, c, other, neck, call);
            var k := if Proceeds(call.write) && call.write.env.io.Took? then Least(call.write.env.io.n, |c.wbuf|) else 0;
            var failed := Proceeds(call.write) && call.write.env.io.WriteFailed?;
            && Leaves(c, d, k, failed) && (good <==> !failed)
            && PausesOther(!failed && c.wbuf != [], k < |c.wbuf|, neck, neck', d, other, o)
  {
    hide *;
    HandledWriteIsExact(cfg, c, call.write);
    WriteThroughUnfolds(cfg, c, other, neck, call);
    var (d, sent) := HandledWrite(cfg, c, call.write);
    var k := if Proceeds(call.write) && call.write.env.io.Took? then Least(call.write.env.io.n, |c.wbuf|) else 0;
    if sent {
      SettlementIsExact(c, d, other, neck, k);
    } else {
      FailureIsExact(c, d, other, neck, k, call.event);
    }
  }

  lemma WriteThroughUnfolds(cfg: Config, c: Cx, other: Cx, neck: bool, call: WriteCall)
    requires Fits(c) && Fits(other) && call.readBack.None?
    ensures var (d, sent) := HandledWrite(cfg, c, call.write);
            WriteThrough(cfg, c, other, neck, call)
            == if sent then Settle(c.wbuf != [], d.wbuf != [], d, other, neck)
               else (Checked(d, call.event).0, other, neck, false)
  {
    hide HandledWrite, Settle, Checked, Fits;
  }

  lemma WriteReadyIsExact(cfg: Config, c: Cx, other: Cx, neck: bool, call: WriteCall)
    requires Fits(c) && Fits(other) && call.readBack.None? && c.connected && !Holds(c, cfg.peered, call.write.env)
    ensures var (d, o, neck', good) := WriteReady(cfg, c, other, neck, call);
            var k, failed := TakenBy(cfg, c, call), FailsIn(cfg, c, call);
            && Leaves(c, d, k, failed) && (good <==> !failed)
            && PausesOther(!failed && c.wbuf != [], k < |c.wbuf|, neck, neck', d, other, o)
  {
    var w := WriteUnpaused(c, cfg.peered, call.write.env.comReady);
    assert w == c.(writeWaiting := false) && Fits(w) && !Holds(w, cfg.peered, call.write.env);
    assert c.sent + c.wbuf[..0] == c.sent && c.wbuf[0..] == c.wbuf;
    if call.inWriteSet || call.forced || c.wbuf != [] {
      WriteThroughIsExact(cfg, w, other, neck, call);
      assert WriteReady(cfg, c, other, neck, call) == WriteThrough(cfg, w, other, neck, call);
      hide WriteReady, WriteThrough, Fits, WriteUnpaused, Holds, Proceeds, PausesOther;
    } else {
      hide WriteThrough, Fits, WriteUnpaused;
    }
  }

  /** Whatever happens in a write call that forces no read: how much it sends, what it says of
      itself, whether the side is shut down, and what becomes of the flag and of the pause of
      the other side. */
  lemma WriteCallIsExact(cfg: Config, c: Cx, other: Cx, neck: bool, call: WriteCall)
    requires Fits(c) && Fits(other) && call.readBack.None?
    ensures var (d, o, neck', good) := WriteOnce(cfg, c, other, neck, call);
            var k, failed, holds := TakenBy(cfg, c, call), FailsIn(cfg, c, call), Holds(c, cfg.peered, call.write.env);
            var error := c.error || (c.writeWaiting && !cfg.peered);
            && Leaves(c, d, k, if holds then error || call.event == Timeout else failed)
            && (good <==> c.connected && (if holds then !error && call.event == Quiet else !failed))
            && PausesOther(c.connected && !holds && !failed && c.wbuf != [], k < |c.wbuf|, neck, neck', d, other, o)
  {
    if c.connected {
      if Holds(c, cfg.peered, call.write.env) {
        HeldCallIsExact(cfg, c, other, neck, call);
      } else {
        WriteReadyIsExact(cfg, c, other, neck, call);
      }
    } else {
      ClosedCallIsExact(cfg, c, other, neck, call);
    }
    hide WriteReady, Holds, Leaves, PausesOther, Fits;
  }

  lemma HeldCallIsExact(cfg: Config, c: Cx, other: Cx, neck: bool, call: WriteCall)
    requires Fits(c) && Fits(other) && c.connected && Holds(c, cfg.peered, call.write.env)
    ensures var (d, o, neck', good) := WriteReady(cfg, c, other, neck, call);
            var error := c.error || (c.writeWaiting && !cfg.peered);
            && Leaves(c, d, 0, error || call.event == Timeout)
            && (good <==> !error && call.event == Quiet)
            && PausesOther(false, 0 < |c.wbuf|, neck, neck', d, other, o)
    ensures TakenBy(cfg, c, call) == 0
  {
    assert c.sent + c.wbuf[..0] == c.sent && c.wbuf[0..] == c.wbuf;
    hide WriteThrough, Fits;
  }

  lemma ClosedCallIsExact(cfg: Config, c: Cx, other: Cx, neck: bool, call: WriteCall)
    requires Fits(c) && Fits(other) && !c.connected
    ensures var (d, o, neck', good) := WriteOnce(cfg, c, other, neck, call);
            && !good && (forall failed :: Leaves(c, d, 0, failed)) && PausesOther(false, 0 < |c.wbuf|, neck, neck', d, other, o)
    ensures TakenBy(cfg, c, call) == 0
  {
    assert c.sent + c.wbuf[..0] == c.sent && c.wbuf[0..] == c.wbuf;
    hide WriteReady, Fits;
  }

  /** And when it reports an error: the side was closed, or waits for a peer it does not have. */
  lemma WriteCallErrorsIff(cfg: Config, c: Cx, other: Cx, neck: bool, call: WriteCall)
    requires Fits(c) && Fits(other) && call.readBack.None?
    ensures WriteOnce(cfg, c, other, neck, call).0.error
       <==> c.error || !c.connected || (c.writeWaiting && !cfg.peered)
  {
    if c.connected {
      var w := WriteUnpaused(c, cfg.peered, call.write.env.comReady);
      assert Fits(w) && (w.error <==> c.error || (c.writeWaiting && !cfg.peered));
      if !w.writeWaiting {
        WriteThroughErrorsIff(cfg, w, other, neck, call);
      }
      hide WriteThrough, Fits;
    }
  }

  lemma WriteThroughErrorsIff(cfg: Config, c: Cx, other: Cx, neck: bool, call: WriteCall)
    requires Fits(c) && Fits(other) && call.readBack.None? && !c.writeWaiting
    ensures WriteThrough(cfg, c, other, neck, call).0.error == c.error
  {
    WriteIsExact(c, cfg.peered, call.write.env);
    WriteThroughUnfolds(cfg, c, other, neck, call);
    hide Written, WriteThrough, Fits, SendsExactly;
  }

  /** A write call that comes to its read, which is one of the same side. */
  predicate ReadsBack(cfg: Config, c: Cx, call: WriteCall) {
    && c.connected && !Holds(c, cfg.peered, call.write.env) && !FailsIn(cfg, c, call)
    && (call.inWriteSet || call.forced || c.wbuf != []) && call.readBack.Some?
  }

  /** The flag of a side and the pause of the other one, after a write that had something to
      send or not, and left some of it or not. */
  predicate FlagsAndPauses(had: bool, left: bool, neck: bool, neck': bool, paused: bool, paused': bool) {
    if had && left then neck' && paused' else if had then !neck' && paused' == (paused && !neck)
    else neck' == neck && paused' == paused
  }

  /** Whatever happens in a write call that forces a read: the bytes go as in any other, and
      the read brings bytes to the other side as a read call would, whether it is flagged or
      not. When that read ends the stream, flag and pause stay as they were; else they follow
      from what the write left. */
  lemma ForcedReadIsExact(cfg: Config, c: Cx, other: Cx, neck: bool, call: WriteCall)
    requires Settled(c) && Fits(other) && ReadsBack(cfg, c, call)
    ensures var (d, o, neck', good) := WriteOnce(cfg, c, other, neck, call);
            var k, part := TakenBy(cfg, c, call), call.readBack.value;
            var goes := (part.readable || part.overridden) && MayRead(cfg.params, c, part.env, Pending(cfg, other));
            && k <= |c.wbuf| && d.sent == c.sent + c.wbuf[..k] && d.wbuf == c.wbuf[k..]
            && Brings(c, other, o.(readWaiting := other.readWaiting), goes, part.env)
            && (good <==> !Ends(c, goes, part.env))
            && FlagsAndPauses(good && c.wbuf != [], k < |c.wbuf|, neck, neck', other.readWaiting, o.readWaiting)
  {
    hide *;
    var w := WriteUnpaused(c, cfg.peered, call.write.env.comReady);
    ReadyForRead(cfg, c, call);
    WrittenForRead(cfg, c, w, call);
    var d := HandledWrite(cfg, w, call.write).0;
    ComesToReadBack(cfg, c, other, neck, call);
    ReadBackIsExact(cfg, c.wbuf != [], d, other, neck, call);
    SameReads(cfg, c, d, other, call.readBack.value);
  }

  lemma ReadyForRead(cfg: Config, c: Cx, call: WriteCall)
    requires Settled(c) && ReadsBack(cfg, c, call)
    ensures var w := WriteUnpaused(c, cfg.peered, call.write.env.comReady);
            w == c.(writeWaiting := false) && Settled(w) && Fits(w) && Fits(c) && call.readBack.Some?
  {
  }

  /** What the write of such a call leaves. */
  lemma WrittenForRead(cfg: Config, c: Cx, w: Cx, call: WriteCall)
    requires Settled(c) && ReadsBack(cfg, c, call) && w == c.(writeWaiting := false) && Settled(w) && Fits(w)
    ensures var (d, sent) := HandledWrite(cfg, w, call.write);
            var k := TakenBy(cfg, c, call);
            && sent && Settled(d) && d.readWaiting == c.readWaiting && d.rcap == c.rcap
            && k <= |c.wbuf| && d.sent == c.sent + c.wbuf[..k] && d.wbuf == c.wbuf[k..]
            && (d.wbuf != [] <==> k < |c.wbuf|)
  {
    assert !Holds(w, cfg.peered, call.write.env);
    HandledWriteIsExact(cfg, w, call.write);
    HandledWriteStaysSettled(cfg, w, call.write);
    HandledWriteReadsLater(cfg, w, call.write);
    hide HandledWrite, Settled, Fits;
  }

  lemma ComesToReadBack(cfg: Config, c: Cx, other: Cx, neck: bool, call: WriteCall)
    requires Settled(c) && Fits(other) && ReadsBack(cfg, c, call)
    requires Fits(c) && Fits(WriteUnpaused(c, cfg.peered, call.write.env.comReady))
    requires HandledWrite(cfg, WriteUnpaused(c, cfg.peered, call.write.env.comReady), call.write).1
    ensures var d := HandledWrite(cfg, WriteUnpaused(c, cfg.peered, call.write.env.comReady), call.write).0;
            WriteOnce(cfg, c, other, neck, call) == ReadBack(cfg, c.wbuf != [], d, other, neck, call)
  {
    hide HandledWrite, ReadBack, Fits, Settled;
  }

  /** A write does not touch what reads go by. */
  lemma HandledWriteReadsLater(cfg: Config, c: Cx, part: WritePart)
    requires Fits(c)
    ensures var d := HandledWrite(cfg, c, part).0;
            d.readWaiting == c.readWaiting && d.rcap == c.rcap
  {
    WriteSendsAPrefix(c, cfg.peered, part.env);
    hide Written;
  }

  lemma SameReads(cfg: Config, c: Cx, d: Cx, other: Cx, part: ReadPart)
    requires d.readWaiting == c.readWaiting && d.rcap == c.rcap
    ensures MayRead(cfg.params, d, part.env, Pending(cfg, other)) == MayRead(cfg.params, c, part.env, Pending(cfg, other))
    ensures forall o, goes :: Brings(d, other, o, goes, part.env) == Brings(c, other, o, goes, part.env)
    ensures forall goes :: Ends(d, goes, part.env) == Ends(c, goes, part.env)
  {
  }

  lemma ReadBackIsExact(cfg: Config, had: bool, c: Cx, other: Cx, neck: bool, call: WriteCall)
    requires Settled(c) && Fits(other) && call.readBack.Some?
    ensures var (d, o, neck', good) := ReadBack(cfg, had, c, other, neck, call);
            var part := call.readBack.value;
            var goes := (part.readable || part.overridden) && MayRead(cfg.params, c, part.env, Pending(cfg, other));
            && d.sent == c.sent && d.wbuf == c.wbuf
            && Brings(c, other, o.(readWaiting := other.readWaiting), goes, part.env)
            && (good <==> !Ends(c, goes, part.env))
            && FlagsAndPauses(good && had, c.wbuf != [], neck, neck', other.readWaiting, o.readWaiting)
  {
    hide *;
    SettledFits(c);
    var part := call.readBack.value;
    HandledReadIsExact(cfg, c, other, part);
    HandledReadLeavesWrites(cfg, c, other, part);
    ReadBackUnfolds(cfg, had, c, other, neck, call);
    HandledReadLeavesPause(cfg, c, other, part);
    var (d, o, good) := HandledRead(cfg, c, other, part);
    SettledFlags(had, c.wbuf != [], d, o, neck);
    BroughtAlike(c, other, o, part);
    CheckedKeeps(d, call.event);
  }

  lemma SettledFits(c: Cx)
    requires Settled(c)
    ensures Fits(c)
  {
  }

  lemma ReadBackUnfolds(cfg: Config, had: bool, c: Cx, other: Cx, neck: bool, call: WriteCall)
    requires Fits(c) && Fits(other) && call.readBack.Some?
    ensures var (d, o, good) := HandledRead(cfg, c, other, call.readBack.value);
            ReadBack(cfg, had, c, other, neck, call)
            == if good then Settle(had, c.wbuf != [], d, o, neck) else (Checked(d, call.event).0, o, neck, false)
  {
    hide HandledRead, Settle, Checked, Fits;
  }

  lemma HandledReadLeavesPause(cfg: Config, from: Cx, to: Cx, part: ReadPart)
    requires Fits(from) && Fits(to)
    ensures HandledRead(cfg, from, to, part).1.readWaiting == to.readWaiting
  {
    hide Read, Finished;
  }

  lemma SettledFlags(had: bool, left: bool, c: Cx, other: Cx, neck: bool)
    ensures var (d, o, neck', good) := Settle(had, left, c, other, neck);
            && good && d.sent == c.sent && d.wbuf == c.wbuf && o == other.(readWaiting := o.readWaiting)
            && FlagsAndPauses(had, left, neck, neck', other.readWaiting, o.readWaiting)
    ensures FlagsAndPauses(false, left, neck, neck, other.readWaiting, other.readWaiting)
  {
  }

  lemma BroughtAlike(from: Cx, to: Cx, t: Cx, part: ReadPart)
    ensures forall t': Cx, goes :: t'.wbuf == t.wbuf ==> Brings(from, to, t', goes, part.env) == Brings(from, to, t, goes, part.env)
  {
  }

  lemma CheckedKeeps(c: Cx, event: Event)
    ensures var d := Checked(c, event).0; d.sent == c.sent && d.wbuf == c.wbuf
  {
  }

  /** A pause by hand sets both waits of one side and nothing else. */
  lemma PauseSetsOneSide(cfg: Config, s: State, side: Side, read: bool, write: bool)
    requires Sound(s)
    ensures var t, other := Step(cfg, s, Pause(side, read, write)), Opposite(side);
            && Of(t, side) == Of(s, side).(readWaiting := read, writeWaiting := write)
            && Of(t, other) == Of(s, other) && Flag(t, side) == Flag(s, side) && Flag(t, other) == Flag(s, other)
  {
    hide Fits;
  }

  // ----- Pauses -----

  /** A side is paused only while the other one is flagged. */
  predicate PausedOnlyWhileFlagged(s: State) {
    (s.left.readWaiting ==> s.rightNeck) && (s.right.readWaiting ==> s.leftNeck)
  }

  lemma HandledReadPausesNobody(cfg: Config, from: Cx, to: Cx, part: ReadPart)
    requires Settled(from) && Fits(to)
    ensures var (f, t, _) := HandledRead(cfg, from, to, part);
            (f.readWaiting ==> from.readWaiting) && t.readWaiting == to.readWaiting
  {
    var pending := Pending(cfg, to);
    ReadCountsAndGrowsIff(cfg.params, from, part.env, pending);
    ReadAddsWhatItReceived(cfg.params, from, part.env, pending);
    var (c, n) := Read(cfg.params, from, part.env, pending);
    if n > 0 {
      ForwardMovesEverything(cfg.params, to, c);
    }
    hide Read, ToWrite, Finished;
  }

  lemma HandledWritePausesNobody(cfg: Config, c: Cx, part: WritePart)
    requires Settled(c)
    ensures var d := HandledWrite(cfg, c, part).0; d.readWaiting == c.readWaiting && Settled(d)
  {
    WriteSendsAPrefix(c, cfg.peered, part.env);
    hide Written;
  }

  lemma ReadThroughPausesNobody(cfg: Config, from: Cx, to: Cx, neck: bool, call: ReadCall)
    requires Linked(from, to)
    ensures var (f, t, _) := ReadThrough(cfg, from, to, neck, call);
            (f.readWaiting ==> from.readWaiting) && t.readWaiting == to.readWaiting
  {
    HandledReadPausesNobody(cfg, from, to, call.read);
    HandledReadKeepsFlow(cfg, from, to, call.read);
    var (f, t, _) := HandledRead(cfg, from, to, call.read);
    if call.writeBack.Some? {
      HandledWritePausesNobody(cfg, f, call.writeBack.value);
    }
    hide HandledRead, HandledWrite, Settled, Flows, Metered;
  }

  lemma ReadOncePausesNobody(cfg: Config, from: Cx, to: Cx, neck: bool, call: ReadCall)
    requires Linked(from, to)
    ensures var (f, t, _) := ReadOnce(cfg, from, to, neck, call);
            (f.readWaiting ==> from.readWaiting) && t.readWaiting == to.readWaiting
  {
    var w := Unpaused(from, cfg.peered && call.read.env.comReady);
    FlagsDoNotMatter(from, to, w);
    ReadThroughPausesNobody(cfg, w, to, neck, call);
    hide ReadThrough, Linked;
  }

  /** A write call, with whatever read it forces, pauses nobody but the other side, and that
      only with its own flag up. */
  predicate PausesByFlag(c: Cx, d: Cx, other: Cx, o: Cx, neck: bool, neck': bool) {
    && (d.readWaiting ==> c.readWaiting)
    && ((other.readWaiting ==> neck) ==> (o.readWaiting ==> neck'))
  }

  lemma ReadBackPausesByFlag(cfg: Config, had: bool, c: Cx, other: Cx, neck: bool, call: WriteCall)
    requires Settled(c) && Fits(other)
    ensures var (d, o, neck', _) := ReadBack(cfg, had, c, other, neck, call); PausesByFlag(c, d, other, o, neck, neck')
  {
    if call.readBack.Some? {
      HandledReadPausesNobody(cfg, c, other, call.readBack.value);
    }
    hide HandledRead, Settled, Fits;
  }

  lemma WriteThroughPausesByFlag(cfg: Config, c: Cx, other: Cx, neck: bool, call: WriteCall)
    requires Settled(c) && Fits(other)
    ensures var (d, o, neck', _) := WriteThrough(cfg, c, other, neck, call); PausesByFlag(c, d, other, o, neck, neck')
  {
    HandledWritePausesNobody(cfg, c, call.write);
    var d := HandledWrite(cfg, c, call.write).0;
    ReadBackPausesByFlag(cfg, c.wbuf != [], d, other, neck, call);
    hide HandledWrite, ReadBack, Settled, Fits;
  }

  lemma WriteOncePausesByFlag(cfg: Config, c: Cx, other: Cx, neck: bool, call: WriteCall)
    requires Settled(c) && Fits(other)
    ensures var (d, o, neck', _) := WriteOnce(cfg, c, other, neck, call); PausesByFlag(c, d, other, o, neck, neck')
  {
    var w := WriteUnpaused(c, cfg.peered, call.write.env.comReady);
    assert Settled(w) && w.readWaiting == c.readWaiting;
    hide Settled, Fits, WriteUnpaused;
    WriteThroughPausesByFlag(cfg, w, other, neck, call);
    hide WriteThrough;
  }

  lemma StepPausesByFlag(cfg: Config, s: State, call: Call)
    requires Linked(s.left, s.right) && PausedOnlyWhileFlagged(s) && !call.Pause?
    ensures PausedOnlyWhileFlagged(Step(cfg, s, call))
  {
    assert Linked(s.right, s.left) && Settled(s.left) && Settled(s.right) && Fits(s.left) && Fits(s.right);
    match call {
      case ReadSide(side, read) =>
        if side.Left? {
          ReadOncePausesNobody(cfg, s.left, s.right, s.rightNeck, read);
        } else {
          ReadOncePausesNobody(cfg, s.right, s.left, s.leftNeck, read);
        }
      case WriteSide(side, write) =>
        if side.Left? {
          WriteOncePausesByFlag(cfg, s.left, s.right, s.leftNeck, write);
        } else {
          WriteOncePausesByFlag(cfg, s.right, s.left, s.rightNeck, write);
        }
    }
    hide ReadOnce, WriteOnce, Linked, Settled, Fits;
  }

  /** Over every run of calls in which nobody pauses a side by hand, with errors and forced
      reads and writes anywhere: a side is paused only while the other one is flagged. */
  lemma {:induction false} PausesFollowFlags(cfg: Config, s: State, calls: seq<Call>)
    requires Linked(s.left, s.right) && PausedOnlyWhileFlagged(s)
    requires forall i :: 0 <= i < |calls| ==> !calls[i].Pause?
    ensures PausedOnlyWhileFlagged(After(cfg, s, calls))
    decreases |calls|
  {
    if calls != [] {
      assert Sound(s);
      StepKeepsFlow(cfg, s, calls[0]);
      StepPausesByFlag(cfg, s, calls[0]);
      hide Step, Linked, Sound, PausedOnlyWhileFlagged;
      PausesFollowFlags(cfg, Step(cfg, s, calls[0]), calls[1..]);
    }
  }

  lemma PausesFollowFlagsFromTheStart(cfg: Config, calls: seq<Call>)
    requires forall i :: 0 <= i < |calls| ==> !calls[i].Pause?
    ensures PausedOnlyWhileFlagged(After(cfg, Start(cfg), calls))
  {
    StartIsLinked(cfg);
    PausesFollowFlags(cfg, Start(cfg), calls);
    hide After;
  }

  /** A write call that gets through to the kernel while its side has something to send. */
  predicate Serves(cfg: Config, c: Cx, call: WriteCall) {
    && c.connected && !Holds(c, cfg.peered, call.write.env) && c.wbuf != [] && !FailsIn(cfg, c, call)
    && call.readBack.None?
  }

  /** A side that had size bytes to send, of which a write call took some; mine is what is
      left of them, and later what is there after the next read call of the other side. The
      call leaves bytes if and only if the side is flagged after it; then the other side is
      paused, and its read brings nothing. When it leaves none, the flag is down and the other
      side is not paused, so that its read brings bytes if and only if its kernel has some and
      nothing but the flag held it back. */
  predicate BrakeWorks(size: nat, taken: nat, flag: bool, mine: seq<byte>, paused: bool,
                       later: seq<byte>, from: Cx, read: ReadCall) {
    && (flag <==> mine != []) && (flag <==> taken < size) && (flag <==> paused)
    && (flag ==> later == mine)
    && (!flag ==> (later != [] <==>
                     && from.connected && (read.inReadSet || read.forced)
                     && (read.read.readable || read.read.overridden)
                     && read.read.env.limit != Some(0) && Offers(from, read.read.env.io)))
  }

  /** In every state that calls lead to from the start, a write call that gets through to the
      kernel, followed by a read call of the other side. */
  lemma ReleasedSideIsReadAgain(cfg: Config, s: State, side: Side, write: WriteCall, read: ReadCall)
    requires Linked(s.left, s.right) && PausedOnlyWhileFlagged(s) && Serves(cfg, Of(s, side), write)
    requires read.writeBack.None?
    ensures var t := WriteStep(cfg, s, side, write).0;
            var u := ReadStep(cfg, t, Opposite(side), read).0;
            BrakeWorks(|Of(s, side).wbuf|, TakenBy(cfg, Of(s, side), write), Flag(t, side), Of(t, side).wbuf,
                       Of(t, Opposite(side)).readWaiting, Of(u, side).wbuf, Of(s, Opposite(side)), read)
  {
    var c, o, neck := Of(s, side), Of(s, Opposite(side)), Flag(s, side);
    assert Linked(s.right, s.left);
    assert Settled(c) && Settled(o) && Fits(c) && Fits(o) && (o.readWaiting ==> neck);
    hide Linked, Settled, Fits, Serves, BrakeWorks, WriteOnce, ReadOnce, TakenBy;
    BrakeWorksAtCalls(cfg, c, o, neck, write, read);
  }

  lemma BrakeWorksAtCalls(cfg: Config, c: Cx, o: Cx, neck: bool, write: WriteCall, read: ReadCall)
    requires Settled(c) && Settled(o) && (o.readWaiting ==> neck) && Serves(cfg, c, write) && read.writeBack.None?
    ensures var (d, p, neck', _) := WriteOnce(cfg, c, o, neck, write);
            var t := ReadOnce(cfg, p, d, neck', read).1;
            BrakeWorks(|c.wbuf|, TakenBy(cfg, c, write), neck', d.wbuf, p.readWaiting, t.wbuf, o, read)
  {
    ServedCallIsExact(cfg, c, o, neck, write);
    var (d, p, neck', _) := WriteOnce(cfg, c, o, neck, write);
    assert Settled(p);
    hide WriteOnce, ReadOnce, Settled, Fits, Serves, TakenBy;
    ReadAfterRelease(cfg, p, d, neck', read);
  }

  lemma ServedCallIsExact(cfg: Config, c: Cx, other: Cx, neck: bool, call: WriteCall)
    requires Fits(c) && Fits(other) && Serves(cfg, c, call) && (other.readWaiting ==> neck)
    ensures var (d, o, neck', _) := WriteOnce(cfg, c, other, neck, call);
            && o == other.(readWaiting := neck')
            && (neck' <==> d.wbuf != []) && (neck' <==> TakenBy(cfg, c, call) < |c.wbuf|)
  {
    WriteCallIsExact(cfg, c, other, neck, call);
    hide WriteOnce, Fits;
  }

  lemma ReadAfterRelease(cfg: Config, from: Cx, to: Cx, neck: bool, call: ReadCall)
    requires Settled(from) && Fits(to) && call.writeBack.None?
    requires (neck <==> to.wbuf != []) && (neck <==> from.readWaiting)
    ensures var t := ReadOnce(cfg, from, to, neck, call).1;
            if neck then t.wbuf == to.wbuf
            else t.wbuf != [] <==> && from.connected && (call.inReadSet || call.forced)
                                   && (call.read.readable || call.read.overridden)
                                   && call.read.env.limit != Some(0) && Offers(from, call.read.env.io)
  {
    ReadCallIsExact(cfg, from, to, neck, call);
    hide ReadOnce, Settled, Fits, Offers;
  }
}
