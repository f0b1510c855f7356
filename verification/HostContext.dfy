// One side of a proxied connection: what a context reads is appended to its read buffer,
// moved from there into the write buffer of its peer, and sent from there as far as the
// kernel takes it. The kernel is an arbitrary environment: every call gives any permitted
// result.
module HostContext {
  import opened Buffers
  import opened Bytes
  import opened Common

  /** The tunables of the source. */
  datatype Params = Params(buffsize: nat, buffsizeMaxmul: nat, writeFull: nat, fastCopyStart: nat)

  function MaxBuffsize(p: Params): nat {
    p.buffsize * p.buffsizeMaxmul
  }

  /** What a receive call gives: an error, the end of the stream, or bytes, of which the call
      takes as many as there is room for. */
  datatype IoRead = ReadFailed | Eof | Got(bytes: seq<byte>)

  /** What a send call gives: an error, or the number of bytes the kernel would take. */
  datatype IoWrite = WriteFailed | Took(n: nat)

  /** Everything around one read: whether the peer's connection is up, the limit a hook left
      for this read (zero simulates a temporary failure), and the receive call. */
  datatype ReadEnv = ReadEnv(comReady: bool, limit: Option<nat>, io: IoRead)

  /** And around one write. */
  datatype WriteEnv = WriteEnv(comReady: bool, io: IoWrite)

  /** A context, with the history of all bytes received from and handed to the kernel. */
  datatype Cx = Cx(
    rbuf: seq<byte>, rcap: nat,
    wbuf: seq<byte>, wcap: nat,
    processedIn: nat, processedInTotal: nat, processedOutTotal: nat,
    meterRead: nat, meterWrite: nat,
    readWaiting: bool, writeWaiting: bool, closeAfterWrite: bool, error: bool, connected: bool,
    received: seq<byte>, sent: seq<byte>)

  function NewCx(p: Params): Cx {
    Cx([], p.buffsize, [], p.buffsize, 0, 0, 0, 0, 0, false, false, false, false, true, [], [])
  }

  predicate Fits(c: Cx) {
    |c.rbuf| <= c.rcap && |c.wbuf| <= c.wcap
  }

  // ----- The operations as functions -----

  /** Waiting for the peer ends by itself once the peer's connection is up. */
  function Unpaused(c: Cx, peerReady: bool): Cx {
    if peerReady then c.(readWaiting := false) else c
  }

  /** A write cannot wait without a peer: that is an error, and the wait goes on. */
  function WriteUnpaused(c: Cx, peered: bool, comReady: bool): Cx {
    if !c.writeWaiting then c
    else if !peered then c.(error := true)
    else if comReady then c.(writeWaiting := false)
    else c
  }

  function Finished(c: Cx): Cx {
    if |c.rbuf| >= c.processedIn && c.processedIn > 0 then c.(rbuf := Flushed(c.rbuf, c.processedIn))
    else if c.rbuf == [] then c
    else c.(rbuf := [])
  }

  /** The octets offered to the receive call. */
  function Room(c: Cx, limit: nat): nat
    requires Fits(c)
  {
    if limit > 0 && c.rcap - |c.rbuf| > limit then limit else c.rcap - |c.rbuf|
  }

  function Grown(p: Params, c: Cx): Cx {
    if c.rcap * 2 <= MaxBuffsize(p) then c.(rcap := c.rcap * 2) else c
  }

  function Processed(c: Cx, n: nat): Cx {
    var m := c.meterRead + n;
    var d := if m > c.processedInTotal then |c.rbuf| else 0;
    c.(meterRead := m, processedIn := d, processedInTotal := c.processedInTotal + d)
  }

  function Up(io: IoRead, room: nat): seq<byte> {
    match io
    case Got(bytes) => if |bytes| < room then bytes else bytes[..room]
    case _ => []
  }

  function Extended(c: Cx, data: seq<byte>): Cx {
    c.(rbuf := c.rbuf + data, received := c.received + data)
  }

  /** The receive call and what follows it. */
  function Received(p: Params, c: Cx, limit: nat, io: IoRead): (Cx, int)
    requires Fits(c)
  {
    var data := Up(io, Room(c, limit));
    if io.ReadFailed? then (c.(processedIn := 0), -1)
    else if data == [] then (c.(error := true), 0)
    else
      var d := Extended(c, data);
      var e := if limit > 0 && |data| >= limit then d else if |d.rbuf| >= d.rcap then Grown(p, d) else d;
      (Processed(e, |data|), |data|)
  }

  /** A whole read. The peer's pending bytes are looked at when there is a peer. */
  function Read(p: Params, c: Cx, env: ReadEnv, peerPending: Option<nat>): (Cx, int)
    requires Fits(c)
  {
    var w := Unpaused(c, peerPending.Some? && env.comReady);
    if w.readWaiting then (w, -1)
    else if peerPending.Some? && peerPending.value > p.writeFull then (w, -1)
    else if env.limit == Some(0) then (w, -1)
    else Received(p, Finished(w), if env.limit.Some? then env.limit.value else 0, env.io)
  }

  function Offered(c: Cx): Cx {
    if c.meterWrite + |c.wbuf| > c.processedOutTotal then c.(processedOutTotal := c.processedOutTotal + |c.wbuf|) else c
  }

  /** The send call. The bytes seen by the processing hook are counted again whenever new
      ones have arrived; the whole buffer is offered either way. */
  function Sent(c: Cx, io: IoWrite): (Cx, int) {
    var d := Offered(c);
    if io.WriteFailed? then (d, -1)
    else
      var k: int := Least(io.n, |d.wbuf|);
      (if k == 0 then d else Accepted(d, k), k)
  }

  /** A whole write. */
  function Written(c: Cx, peered: bool, env: WriteEnv): (Cx, int) {
    var w := WriteUnpaused(c, peered, env.comReady);
    if w.writeWaiting then (w, 0) else Sent(w, env.io)
  }

  /** The kernel has taken some bytes. */
  function Accepted(c: Cx, k: nat): Cx
    requires 0 < k <= |c.wbuf|
  {
    var e := c.(meterWrite := c.meterWrite + k, sent := c.sent + c.wbuf[..k], wbuf := Flushed(c.wbuf, k));
    if e.closeAfterWrite && e.wbuf == [] then e.(connected := false) else e
  }

  /** Once enough was written, an empty write buffer takes the whole block over; the giver
      gets the empty block and is grown to the size of the one it gave. */
  predicate FastLane(p: Params, dst: Cx) {
    dst.wbuf == [] && dst.meterWrite > p.fastCopyStart
  }

  function ToWrite(p: Params, dst: Cx, src: Cx): (Cx, Cx) {
    if FastLane(p, dst) then
      (dst.(wbuf := src.rbuf, wcap := src.rcap),
       src.(rbuf := [], rcap := if dst.wcap < src.rcap then src.rcap else dst.wcap))
    else
      var ns := |dst.wbuf| + |src.rbuf|;
      (dst.(wbuf := dst.wbuf + src.rbuf, wcap := if src.rbuf != [] && dst.wcap < ns then ns else dst.wcap), src)
  }

  // ----- The context object -----

  class HostCX {
    const params: Params
    const readbuf: Buffer
    const writebuf: Buffer
    var processedIn: nat
    var processedInTotal: nat
    var processedOutTotal: nat
    var meterReadBytes: nat
    var meterWriteBytes: nat
    var readWaiting: bool
    var writeWaiting: bool
    var closeAfterWrite: bool
    var error: bool
    var connected: bool
    ghost var received: seq<byte>
    ghost var sent: seq<byte>

    ghost predicate Valid()
      reads this, readbuf, writebuf
    {
      && readbuf != writebuf && readbuf.Valid() && writebuf.Valid() && readbuf.data != writebuf.data
    }

    ghost function Blocks(): set<object>
      reads readbuf, writebuf
    {
      {readbuf.data, writebuf.data}
    }

    ghost function View(): (c: Cx)
      requires Valid()
      reads this, readbuf, writebuf, readbuf.data, writebuf.data
      ensures Fits(c)
    {
      Cx(readbuf.Contents(), readbuf.data.Length, writebuf.Contents(), writebuf.data.Length,
         processedIn, processedInTotal, processedOutTotal, meterReadBytes, meterWriteBytes,
         readWaiting, writeWaiting, closeAfterWrite, error, connected, received, sent)
    }

    constructor (p: Params)
      ensures Valid() && View() == NewCx(p) && params == p
      ensures fresh(readbuf) && fresh(writebuf) && fresh(Blocks())
    {
      params := p;
      readbuf := new Buffer(p.buffsize);
      writebuf := new Buffer(p.buffsize);
      processedIn, processedInTotal, processedOutTotal, meterReadBytes, meterWriteBytes := 0, 0, 0, 0, 0;
      readWaiting, writeWaiting, closeAfterWrite, error, connected := false, false, false, false, true;
      received, sent := [], [];
    }

    method Finish() returns (n: nat)
      requires Valid()
      modifies readbuf, readbuf.data
      ensures Valid() && readbuf.data == old(readbuf.data)
      ensures View() == Finished(old(View())) && n == |old(View()).rbuf| - |View().rbuf|
    {
      if readbuf.used >= processedIn && processedIn > 0 {
        readbuf.Flush(processedIn);
        return processedIn;
      } else if readbuf.used == 0 {
        return 0;
      } else {
        var s := readbuf.used;
        readbuf.Flush(s);
        return s;
      }
    }

    method GrowBuffer()
      requires Valid()
      modifies readbuf
      ensures Valid() && View() == Grown(params, old(View()))
      ensures fresh(readbuf.data) || readbuf.data == old(readbuf.data)
    {
      if readbuf.data.Length * 2 <= MaxBuffsize(params) {
        var _ := readbuf.Capacity(readbuf.data.Length * 2);
      }
    }

    method AfterRead(n: nat)
      requires Valid()
      modifies this
      ensures Valid() && View() == Processed(old(View()), n)
    {
      meterReadBytes := meterReadBytes + n;
      processedIn := 0;
      if meterReadBytes > processedInTotal {
        processedIn := readbuf.used;
        processedInTotal := processedInTotal + processedIn;
      }
    }

    /** The kernel writes straight into the free part of the block. */
    method IoRead(room: nat, io: IoRead) returns (n: int)
      requires Valid() && readbuf.used + room <= readbuf.data.Length
      modifies readbuf.data
      ensures n == if io.ReadFailed? then -1 else |Up(io, room)|
      ensures Valid() && View() == old(View())
      ensures n > 0 ==> readbuf.data[readbuf.used..readbuf.used + n] == Up(io, room)
    {
      if io.ReadFailed? {
        return -1;
      }
      var data := Up(io, room);
      for i := 0 to |data|
        invariant readbuf.data[readbuf.used..readbuf.used + i] == data[..i]
        invariant readbuf.data[..readbuf.used] == old(readbuf.data[..readbuf.used])
      {
        readbuf.data[readbuf.used + i] := data[i];
      }
      return |data|;
    }

    method Extend(n: nat, ghost bytes: seq<byte>)
      requires Valid() && readbuf.used + n <= readbuf.data.Length
      requires |bytes| == n && readbuf.data[readbuf.used..readbuf.used + n] == bytes
      modifies this`received, readbuf
      ensures Valid() && View() == Extended(old(View()), bytes)
      ensures readbuf.data == old(readbuf.data)
    {
      ghost var before := readbuf.Contents();
      var _ := readbuf.Size(readbuf.used + n);
      received := received + bytes;
      assert readbuf.Contents() == before + bytes;
    }

    method Receive(limit: nat, io: IoRead) returns (n: int)
      requires Valid()
      modifies this, readbuf, readbuf.data
      ensures Valid() && (View(), n) == Received(params, old(View()), limit, io)
      ensures fresh(readbuf.data) || readbuf.data == old(readbuf.data)
    {
      var room := readbuf.data.Length - readbuf.used;
      if limit > 0 && room > limit {
        room := limit;
      }
      var len := IoRead(room, io);
      if len < 0 {
        processedIn := 0;
        return -1;
      }
      if len == 0 {
        error := true;
        return 0;
      }
      hide View, Grown, Processed, Extended, Up;
      Extend(len, Up(io, room));
      if !(limit > 0 && len >= limit) && readbuf.used >= readbuf.data.Length {
        GrowBuffer();
      }
      AfterRead(len);
      return len;
    }

    method ReadWaitingForPeercom(peerReady: bool) returns (waiting: bool)
      requires Valid()
      modifies this`readWaiting
      ensures Valid() && View() == Unpaused(old(View()), peerReady) && waiting == readWaiting
    {
      if readWaiting && peerReady {
        readWaiting := false;
      }
      return readWaiting;
    }

    method ReadBytes(env: ReadEnv, peerPending: Option<nat>) returns (n: int)
      requires Valid()
      modifies this, readbuf, readbuf.data
      ensures Valid() && (View(), n) == Read(params, old(View()), env, peerPending)
      ensures fresh(readbuf.data) || readbuf.data == old(readbuf.data)
    {
      var waiting := ReadWaitingForPeercom(peerPending.Some? && env.comReady);
      if waiting {
        return -1;
      }
      if peerPending.Some? && peerPending.value > params.writeFull {
        return -1;
      }
      if env.limit == Some(0) {
        return -1;
      }
      var _ := Finish();
      n := Receive(if env.limit.Some? then env.limit.value else 0, env.io);
    }

    method WriteWaitingForPeercom(peered: bool, comReady: bool) returns (waiting: bool)
      requires Valid()
      modifies this`writeWaiting, this`error
      ensures Valid() && View() == WriteUnpaused(old(View()), peered, comReady) && waiting == writeWaiting
    {
      if writeWaiting {
        if peered {
          if comReady {
            writeWaiting := false;
          }
        } else {
          error := true;
        }
      }
      return writeWaiting;
    }

    method Send(io: IoWrite) returns (n: int)
      requires Valid()
      modifies this, writebuf, writebuf.data
      ensures Valid() && (View(), n) == Sent(old(View()), io)
      ensures writebuf.data == old(writebuf.data)
    {
      var processedOut := writebuf.used;
      if meterWriteBytes + writebuf.used > processedOutTotal {
        processedOutTotal := processedOutTotal + processedOut;
      }
      if io.WriteFailed? {
        return -1;
      }
      var k := Least(io.n, Least(writebuf.used, processedOut));
      if k > 0 {
        hide Accepted;
        Accept(k);
      }
      return k;
    }

    method WriteBytes(peered: bool, env: WriteEnv) returns (n: int)
      requires Valid()
      modifies this, writebuf, writebuf.data
      ensures Valid() && (View(), n) == Written(old(View()), peered, env)
      ensures writebuf.data == old(writebuf.data)
    {
      assert View().writeWaiting == writeWaiting;
      hide View, Sent;
      var waiting := WriteWaitingForPeercom(peered, env.comReady);
      if waiting {
        return 0;
      }
      n := Send(env.io);
    }

    method Accept(k: nat)
      requires Valid() && 0 < k <= writebuf.used
      modifies this, writebuf, writebuf.data
      ensures Valid() && View() == Accepted(old(View()), k)
      ensures writebuf.data == old(writebuf.data)
    {
      hide Flushed;
      meterWriteBytes := meterWriteBytes + k;
      sent := sent + writebuf.Contents()[..k];
      writebuf.Flush(k);
      if closeAfterWrite && writebuf.used == 0 {
        connected := false;
      }
    }

    /** The two contexts share nothing. */
    ghost predicate ApartFrom(other: HostCX)
      reads this, readbuf, writebuf, other, other.readbuf, other.writebuf
    {
      && other != this && {readbuf, writebuf} !! {other.readbuf, other.writebuf} && Blocks() !! other.Blocks()
    }

    /** Takes the read buffer of another context over, or copies it. */
    method TakeFrom(src: HostCX)
      requires Valid() && src.Valid() && ApartFrom(src)
      modifies writebuf, writebuf.data, src.readbuf
      ensures Valid() && src.Valid() && ApartFrom(src)
      ensures (View(), src.View()) == ToWrite(params, old(View()), old(src.View()))
      ensures fresh({writebuf.data, src.readbuf.data} - old({writebuf.data, src.readbuf.data}))
    {
      if writebuf.used == 0 && meterWriteBytes > params.fastCopyStart {
        SwapWith(src);
      } else {
        writebuf.Append(src.readbuf.data[..src.readbuf.used]);
      }
    }

    method SwapWith(src: HostCX)
      requires Valid() && src.Valid() && ApartFrom(src) && FastLane(params, View())
      modifies writebuf, src.readbuf
      ensures Valid() && src.Valid() && ApartFrom(src)
      ensures (View(), src.View()) == ToWrite(params, old(View()), old(src.View()))
      ensures fresh({writebuf.data, src.readbuf.data} - old({writebuf.data, src.readbuf.data}))
    {
      var b := src.readbuf;
      b.Swap(writebuf);
      var _ := b.Capacity(writebuf.data.Length);
      var _ := b.Size(0);
    }
  }

  // ----- What the operations keep -----

  /** Between two calls of the proxy the read buffer is empty and everything received was
      processed once. */
  predicate Settled(c: Cx) {
    Fits(c) && c.rbuf == [] && c.processedInTotal == c.meterRead
  }

  /** What a read leaves: the bytes it gave are appended and all of them are there to process;
      a read that gives none leaves the buffers alone. */
  predicate Reads(c: Cx, d: Cx, n: int) {
    && Fits(d)
    && d.received == c.received + d.rbuf
    && d.wbuf == c.wbuf && d.wcap == c.wcap && d.sent == c.sent && d.meterWrite == c.meterWrite
    && d.processedOutTotal == c.processedOutTotal && d.meterRead == c.meterRead + |d.rbuf|
    && (n > 0 ==> |d.rbuf| == n == d.processedIn && d.processedInTotal == d.meterRead)
    && (n <= 0 ==> Settled(d))
    && (n == 0 ==> d.error)
    && (c.error ==> d.error) && d.connected == c.connected && d.writeWaiting == c.writeWaiting
  }

  /** A read that gives bytes appends exactly them, and finds exactly them to process; any
      other read leaves the buffers alone. */
  lemma ReadAddsWhatItReceived(p: Params, c: Cx, env: ReadEnv, peerPending: Option<nat>)
    requires Settled(c)
    ensures var (d, n) := Read(p, c, env, peerPending); Reads(c, d, n)
  {
    var w := Unpaused(c, peerPending.Some? && env.comReady);
    assert Settled(w) && Finished(w) == w;
    QuietRead(c, w);
    var limit := if env.limit.Some? then env.limit.value else 0;
    ReceiveAddsWhatItReceived(p, w, limit, env.io);
    var (d, n) := Received(p, w, limit, env.io);
    hide Received, Finished;
    assert Reads(c, d, n);
    hide Reads, Settled;
  }

  lemma QuietRead(c: Cx, w: Cx)
    requires Settled(c) && w == c.(readWaiting := w.readWaiting)
    ensures Reads(c, w, -1)
  {
    assert c.received + [] == c.received;
  }

  lemma ReceiveAddsWhatItReceived(p: Params, c: Cx, limit: nat, io: IoRead)
    requires Settled(c)
    ensures var (d, n) := Received(p, c, limit, io); Reads(c, d, n)
  {
    var data := Up(io, Room(c, limit));
    assert |data| <= Room(c, limit) <= c.rcap;
    hide Up, Room;
    if io.ReadFailed? || data == [] {
      assert c.received + [] == c.received;
    } else {
      var d := Extended(c, data);
      assert c.rbuf + data == data;
      assert d.received == c.received + d.rbuf;
      hide Extended;
      var e := Grown(p, d);
      assert e == d.(rcap := e.rcap) && e.rcap >= d.rcap;
      hide Grown;
    }
  }

  lemma ReadFits(p: Params, c: Cx, env: ReadEnv, peerPending: Option<nat>)
    requires Fits(c)
    ensures Fits(Read(p, c, env, peerPending).0)
  {
    var f := Finished(Unpaused(c, peerPending.Some? && env.comReady));
    assert Fits(f);
    ReceiveFits(p, f, if env.limit.Some? then env.limit.value else 0, env.io);
    hide Received, Finished;
  }

  lemma ReceiveFits(p: Params, c: Cx, limit: nat, io: IoRead)
    requires Fits(c)
    ensures Fits(Received(p, c, limit, io).0)
  {
    var data := Up(io, Room(c, limit));
    assert |data| <= c.rcap - |c.rbuf|;
    hide Up, Room, MaxBuffsize;
  }

  /** Forwarding moves the read buffer behind what the destination still has to send, in the
      slow lane and in the fast one, and leaves the source settled. */
  lemma ForwardMovesEverything(p: Params, dst: Cx, src: Cx)
    requires Fits(dst) && Fits(src)
    requires src.processedIn == |src.rbuf| > 0 && src.processedInTotal == src.meterRead
    ensures var (d, s) := ToWrite(p, dst, src);
            var f := Finished(s);
            && Fits(d) && Settled(f)
            && d.wbuf == dst.wbuf + src.rbuf
            && d == dst.(wbuf := d.wbuf, wcap := d.wcap) && f == src.(rbuf := f.rbuf, rcap := f.rcap)
  {
  }

  /** What a write leaves: the bytes it took are the first ones of the buffer, the rest stays
      in it, and nothing of the reading part changes. */
  predicate Sends(c: Cx, d: Cx, n: int) {
    && Fits(d)
    && d.sent + d.wbuf == c.sent + c.wbuf && d.meterWrite + |d.wbuf| == c.meterWrite + |c.wbuf|
    && (n > 0 ==> |d.wbuf| == |c.wbuf| - n) && (n <= 0 ==> d.wbuf == c.wbuf)
    && d == c.(sent := d.sent, wbuf := d.wbuf, meterWrite := d.meterWrite, processedOutTotal := d.processedOutTotal,
               connected := d.connected, error := d.error, writeWaiting := d.writeWaiting)
  }

  /** A send takes a prefix of the write buffer; nothing is lost between the two. */
  lemma WriteSendsAPrefix(c: Cx, peered: bool, env: WriteEnv)
    requires Fits(c)
    ensures var (d, n) := Written(c, peered, env); Sends(c, d, n)
  {
    var w := WriteUnpaused(c, peered, env.comReady);
    assert Sends(c, w, 0);
    SentSendsAPrefix(w, env.io);
    var (d, n) := Sent(w, env.io);
    assert Sends(c, d, n);
    hide Sent, Sends, WriteUnpaused;
  }

  lemma SentSendsAPrefix(c: Cx, io: IoWrite)
    requires Fits(c)
    ensures var (d, n) := Sent(c, io); Sends(c, d, n)
  {
    var d := Offered(c);
    assert d == c.(processedOutTotal := d.processedOutTotal) && Fits(d);
    hide Offered;
    var k := if io.WriteFailed? then 0 else Least(io.n, |d.wbuf|);
    if k > 0 {
      AcceptedKeeps(d, k);
    }
    hide Accepted, Fits;
  }

  lemma AcceptedKeeps(c: Cx, k: nat)
    requires Fits(c) && 0 < k <= |c.wbuf|
    ensures var d := Accepted(c, k);
            && Fits(d) && d.sent + d.wbuf == c.sent + c.wbuf && |d.wbuf| == |c.wbuf| - k
            && d == c.(meterWrite := d.meterWrite, sent := d.sent, wbuf := d.wbuf, connected := d.connected)
  {
    var rest := Flushed(c.wbuf, k);
    assert c.wbuf == c.wbuf[..k] + rest;
    assert |rest| == |c.wbuf| - k;
    hide Flushed;
    Regroup(c.sent, c.wbuf[..k], rest);
  }

  /** Forwarding the same buffer to a second destination works only in the slow lane: after a
      swap there is nothing left to forward. */
  lemma FanOutNeedsTheSlowLane(p: Params, first: Cx, second: Cx, src: Cx)
    ensures var rest := ToWrite(p, first, src).1;
            ToWrite(p, second, rest).0.wbuf == second.wbuf + src.rbuf <==> src.rbuf == [] || !FastLane(p, first)
  {
    var rest := ToWrite(p, first, src).1;
    assert ToWrite(p, second, rest).0.wbuf == second.wbuf + rest.rbuf;
    assert |second.wbuf + src.rbuf| == |second.wbuf| + |src.rbuf|;
  }

  // ----- When a read or a write goes ahead, and what it gives -----

  /** Nothing holds the read back: it does not wait, or waits for a peer that is up; the peer
      has no more than the allowed amount pending; and no hook forbids it. */
  predicate MayRead(p: Params, c: Cx, env: ReadEnv, peerPending: Option<nat>) {
    && (c.readWaiting ==> peerPending.Some? && env.comReady)
    && (peerPending.Some? ==> peerPending.value <= p.writeFull)
    && env.limit != Some(0)
  }

  predicate Offers(c: Cx, io: IoRead) {
    io.Got? && io.bytes != [] && c.rcap > 0
  }

  /** The largest number that none of the three exceeds. */
  predicate IsLeastOf(n: int, offered: nat, room: nat, limit: Option<nat>) {
    && n <= offered && n <= room && (limit.Some? ==> n <= limit.value)
    && (n == offered || n == room || limit == Some(n))
  }

  /** A read of a settled context, with a peer or without, gives bytes if and only if nothing
      holds it back and the kernel has some and there is room: then as many as are offered, as
      fit, and as the limit allows. It reports the end of the stream if and only if it went
      ahead and got nothing; anything else is a temporary failure. */
  lemma ReadGivesBytesIff(p: Params, c: Cx, env: ReadEnv, peerPending: Option<nat>)
    requires Settled(c)
    ensures var (d, n) := Read(p, c, env, peerPending);
            && (n > 0 <==> MayRead(p, c, env, peerPending) && Offers(c, env.io))
            && (n == 0 <==> MayRead(p, c, env, peerPending) && !Offers(c, env.io) && !env.io.ReadFailed?)
            && n >= -1
            && (n > 0 ==> IsLeastOf(n, |env.io.bytes|, c.rcap, env.limit) && d.rbuf == env.io.bytes[..n])
  {
    var w := Unpaused(c, peerPending.Some? && env.comReady);
    assert Settled(w) && Finished(w) == w;
    ReceiveGivesBytesIff(p, w, if env.limit.Some? then env.limit.value else 0, env.io);
    hide Received, Finished;
  }

  lemma ReceiveGivesBytesIff(p: Params, c: Cx, limit: nat, io: IoRead)
    requires Settled(c)
    ensures var (d, n) := Received(p, c, limit, io);
            && (n > 0 <==> Offers(c, io))
            && (n == 0 <==> !Offers(c, io) && !io.ReadFailed?)
            && n >= -1
            && (n > 0 ==> IsLeastOf(n, |io.bytes|, c.rcap, if limit > 0 then Some(limit) else None)
                          && d.rbuf == io.bytes[..n])
  {
    var data := Up(io, Room(c, limit));
    assert io.Got? ==> data == io.bytes[..|data|];
    assert c.rbuf + data == data;
    hide Grown;
  }

  /** What a read does to the rest of the context: it counts the bytes, and it doubles the
      block if and only if they filled it, no limit stopped them, and the maximum allows it. */
  lemma ReadCountsAndGrowsIff(p: Params, c: Cx, env: ReadEnv, peerPending: Option<nat>)
    requires Settled(c)
    ensures var (d, n) := Read(p, c, env, peerPending);
            && d.meterRead == c.meterRead + (if n > 0 then n else 0)
            && d.rcap == (if n > 0 && n == c.rcap && env.limit != Some(n) && 2 * c.rcap <= p.buffsize * p.buffsizeMaxmul
                          then 2 * c.rcap else c.rcap)
            && (d.readWaiting <==> c.readWaiting && !(peerPending.Some? && env.comReady))
            && (d.error <==> c.error || n == 0)
  {
    var w := Unpaused(c, peerPending.Some? && env.comReady);
    assert Settled(w) && Finished(w) == w;
    ReceiveCountsAndGrowsIff(p, w, if env.limit.Some? then env.limit.value else 0, env.io);
    hide Received, Finished;
  }

  lemma ReceiveCountsAndGrowsIff(p: Params, c: Cx, limit: nat, io: IoRead)
    requires Settled(c)
    ensures var (d, n) := Received(p, c, limit, io);
            && d.meterRead == c.meterRead + (if n > 0 then n else 0)
            && d.rcap == (if n > 0 && n == c.rcap && n != limit && 2 * c.rcap <= p.buffsize * p.buffsizeMaxmul
                          then 2 * c.rcap else c.rcap)
            && d.readWaiting == c.readWaiting && (d.error <==> c.error || n == 0)
  {
    var data := Up(io, Room(c, limit));
    assert |data| <= c.rcap && (limit > 0 ==> |data| <= limit);
    hide Up, Room;
    if data != [] && !io.ReadFailed? {
      var d := Extended(c, data);
      assert |d.rbuf| == |data|;
      hide Extended;
    }
  }

  /** The write stays put while the context waits for a peer that is not up. */
  predicate Holds(c: Cx, peered: bool, env: WriteEnv) {
    c.writeWaiting && !(peered && env.comReady)
  }

  /** The first k bytes of the write buffer are sent and counted, and the connection is closed
      if and only if that was asked for and the write emptied the buffer. */
  predicate SendsExactly(c: Cx, d: Cx, k: nat) {
    && k <= |c.wbuf|
    && d.sent == c.sent + c.wbuf[..k] && d.wbuf == c.wbuf[k..] && d.meterWrite == c.meterWrite + k
    && (d.connected <==> c.connected && !(c.closeAfterWrite && k > 0 && k == |c.wbuf|))
  }

  /** A write gives its number exactly: nothing while it waits, which without a peer is an
      error; -1 when the kernel fails; else as much as the kernel takes. */
  lemma WriteIsExact(c: Cx, peered: bool, env: WriteEnv)
    requires Fits(c)
    ensures var (d, n) := Written(c, peered, env);
            && n == (if Holds(c, peered, env) then 0 else if env.io.WriteFailed? then -1
                     else if env.io.n < |c.wbuf| then env.io.n else |c.wbuf|)
            && SendsExactly(c, d, if n > 0 then n else 0)
            && (d.writeWaiting <==> Holds(c, peered, env))
            && (d.error <==> c.error || (c.writeWaiting && !peered))
  {
    var w := WriteUnpaused(c, peered, env.comReady);
    assert w == c.(error := w.error, writeWaiting := w.writeWaiting);
    NothingIsSent(c, w);
    SentIsExact(w, env.io);
    var d := Sent(w, env.io).0;
    hide Sent;
    assert forall k: nat :: SendsExactly(w, d, k) ==> SendsExactly(c, d, k);
    hide SendsExactly;
  }

  lemma NothingIsSent(c: Cx, d: Cx)
    requires d == c.(error := d.error, writeWaiting := d.writeWaiting, processedOutTotal := d.processedOutTotal)
    ensures SendsExactly(c, d, 0)
  {
    assert c.sent + c.wbuf[..0] == c.sent && c.wbuf[0..] == c.wbuf;
  }

  lemma SentIsExact(c: Cx, io: IoWrite)
    ensures var (d, n) := Sent(c, io);
            && n == (if io.WriteFailed? then -1 else if io.n < |c.wbuf| then io.n else |c.wbuf|)
            && SendsExactly(c, d, if n > 0 then n else 0)
            && d.writeWaiting == c.writeWaiting && d.error == c.error
  {
    var d := Offered(c);
    assert d == c.(processedOutTotal := d.processedOutTotal);
    NothingIsSent(c, d);
    hide Offered;
    var k := if io.WriteFailed? then 0 else Least(io.n, |d.wbuf|);
    if k > 0 {
      AcceptedIsExact(d, k);
      assert SendsExactly(c, Accepted(d, k), k);
    }
    hide Accepted, SendsExactly;
  }

  lemma AcceptedIsExact(c: Cx, k: nat)
    requires 0 < k <= |c.wbuf|
    ensures var d := Accepted(c, k);
            && SendsExactly(c, d, k)
            && d.writeWaiting == c.writeWaiting && d.error == c.error && d.processedOutTotal == c.processedOutTotal
  {
  }

  /** Everything has been seen by the processing hook before it can be sent: its counter never
      falls behind the bytes sent, and a send call puts it behind all that waits. */
  lemma ProcessedBeforeSent(c: Cx, peered: bool, env: WriteEnv)
    requires Fits(c) && c.processedOutTotal >= c.meterWrite
    ensures var d := Written(c, peered, env).0;
            && d.processedOutTotal >= d.meterWrite
            && (!Holds(c, peered, env) ==> d.processedOutTotal >= c.meterWrite + |c.wbuf|)
            && (Holds(c, peered, env) || c.processedOutTotal >= c.meterWrite + |c.wbuf|
                ==> d.processedOutTotal == c.processedOutTotal)
  {
    var w := WriteUnpaused(c, peered, env.comReady);
    assert w == c.(error := w.error, writeWaiting := w.writeWaiting);
    ProcessedBySend(w, env.io);
    hide Sent;
  }

  lemma ProcessedBySend(c: Cx, io: IoWrite)
    requires Fits(c) && c.processedOutTotal >= c.meterWrite
    ensures var d, all := Sent(c, io).0, c.meterWrite + |c.wbuf|;
            && d.processedOutTotal >= all && d.meterWrite <= all
            && (c.processedOutTotal >= all ==> d.processedOutTotal == c.processedOutTotal)
  {
    var d := Offered(c);
    assert d.meterWrite == c.meterWrite && d.wbuf == c.wbuf && d.processedOutTotal >= c.meterWrite + |c.wbuf|;
    assert c.processedOutTotal >= c.meterWrite + |c.wbuf| ==> d.processedOutTotal == c.processedOutTotal;
    hide Offered;
    var k := if io.WriteFailed? then 0 else Least(io.n, |d.wbuf|);
    if k > 0 {
      AcceptedIsExact(d, k);
    }
    hide Accepted;
  }

  /** A buffer is handed over whole, and not copied, if and only if nothing waits in front of
      it and enough was sent before. */
  lemma HandedOverIff(p: Params, dst: Cx, src: Cx)
    requires src.rbuf != []
    ensures var (d, s) := ToWrite(p, dst, src);
            && (s.rbuf == [] <==> dst.wbuf == [] && dst.meterWrite > p.fastCopyStart)
            && (s.rbuf != [] ==> s == src)
            && d.meterWrite == dst.meterWrite && s.meterWrite == src.meterWrite
  {
  }

  predicate IsGreatestOf(n: nat, a: nat, b: nat) {
    n >= a && n >= b && (n == a || n == b)
  }

  /** Blocks never shrink by forwarding: handed over, a block is replaced by the greater of the
      two; copied, the contents go into one that grows no more than it must. */
  lemma ForwardingKeepsBlocks(p: Params, dst: Cx, src: Cx)
    ensures var (d, s) := ToWrite(p, dst, src);
            if dst.wbuf == [] && dst.meterWrite > p.fastCopyStart then
              d.wcap == src.rcap && IsGreatestOf(s.rcap, dst.wcap, src.rcap)
            else
              && s.rcap == src.rcap
              && (src.rbuf == [] ==> d.wcap == dst.wcap)
              && (src.rbuf != [] ==> IsGreatestOf(d.wcap, dst.wcap, |dst.wbuf| + |src.rbuf|))
  {
  }

  /** What is finished is the processed front part; when the counter does not fit the buffer,
      it is everything. */
  lemma FinishLeavesTheRest(c: Cx)
    ensures var d := Finished(c);
            if 0 < c.processedIn <= |c.rbuf| then c.rbuf == c.rbuf[..c.processedIn] + d.rbuf else d.rbuf == []
  {
  }

  // ----- Memory -----

  function Bound(p: Params): nat {
    if p.buffsize < MaxBuffsize(p) then MaxBuffsize(p) else p.buffsize
  }

  predicate Bounded(p: Params, c: Cx) {
    Fits(c) && c.rcap <= Bound(p) && c.wcap <= Bound(p)
  }

  /** Reading never grows a buffer beyond the bound. */
  lemma ReadStaysBounded(p: Params, c: Cx, env: ReadEnv, peerPending: Option<nat>)
    requires Bounded(p, c)
    ensures Bounded(p, Read(p, c, env, peerPending).0)
  {
    var w := Unpaused(c, peerPending.Some? && env.comReady);
    assert Bounded(p, Finished(w));
    ReceiveStaysBounded(p, Finished(w), if env.limit.Some? then env.limit.value else 0, env.io);
    hide Received, Finished;
  }

  lemma ReceiveStaysBounded(p: Params, c: Cx, limit: nat, io: IoRead)
    requires Bounded(p, c)
    ensures Bounded(p, Received(p, c, limit, io).0)
  {
    var data := Up(io, Room(c, limit));
    assert |data| <= c.rcap - |c.rbuf|;
    hide Up, Room, MaxBuffsize;
    assert MaxBuffsize(p) <= Bound(p);
    hide Bound;
  }

  /** Nor does forwarding into an empty write buffer, whichever lane it takes. */
  lemma ForwardStaysBounded(p: Params, dst: Cx, src: Cx)
    requires Bounded(p, dst) && Bounded(p, src) && dst.wbuf == []
    ensures var (d, s) := ToWrite(p, dst, src); Bounded(p, d) && Bounded(p, Finished(s))
  {
    hide Bound;
    var (d, s) := ToWrite(p, dst, src);
    assert Bounded(p, d) && Bounded(p, s);
    hide ToWrite;
    FinishStaysBounded(p, s);
  }

  lemma FinishStaysBounded(p: Params, c: Cx)
    requires Bounded(p, c)
    ensures Bounded(p, Finished(c))
  {
    hide Bound;
  }
}
