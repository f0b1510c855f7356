// The capture window of an application context: a copy of what passes in either direction,
// kept as a list of chunks, while detection still wants to see it.
module FlowCapture {
  import opened Bytes

  datatype Domain = Stream | Datagram

  /** A chunk of one side, the number of times it was extended, and whether data for it was
      dropped because of the size limit. */
  datatype Entry = Entry(source: char, data: seq<byte>, counter: nat, truncated: bool)

  datatype FlowState = FlowState(queue: seq<Entry>, exchanges: nat)

  const EmptyFlow := FlowState([], 0)

  // ----- The flow -----

  function Last(f: FlowState): Entry
    requires f.queue != []
  {
    f.queue[|f.queue| - 1]
  }

  function Replaced(f: FlowState, e: Entry): FlowState
    requires f.queue != []
  {
    f.(queue := f.queue[..|f.queue| - 1] + [e])
  }

  /** Data that extends the last chunk of a stream past the limit is dropped. */
  predicate Drops(domain: Domain, limit: nat, f: FlowState, src: char, data: seq<byte>) {
    f.queue != [] && Last(f).source == src && domain.Stream? && |Last(f).data| + |data| > limit
  }

  function Appended(domain: Domain, limit: nat, f: FlowState, src: char, data: seq<byte>): FlowState {
    if f.queue == [] then f.(queue := [Entry(src, data, 1, false)])
    else if Last(f).source == src && domain.Stream? then
      if |Last(f).data| + |data| > limit then Replaced(f, Last(f).(truncated := true))
      else Replaced(f, Last(f).(data := Last(f).data + data, counter := Last(f).counter + 1))
    else
      var g := f.(queue := f.queue + [Entry(src, data, 1, false)]);
      if Last(f).source == src then g else g.(exchanges := f.exchanges + 1)
  }

  class Flow {
    const domain: Domain
    const maxFlowSize: nat
    var queue: seq<Entry>
    var exchanges: nat

    ghost function View(): FlowState
      reads this
    {
      FlowState(queue, exchanges)
    }

    constructor (domain: Domain, maxFlowSize: nat)
      ensures View() == EmptyFlow && this.domain == domain && this.maxFlowSize == maxFlowSize
    {
      this.domain, this.maxFlowSize := domain, maxFlowSize;
      queue, exchanges := [], 0;
    }

    method Append(src: char, data: seq<byte>) returns (len: nat)
      modifies this
      ensures View() == Appended(domain, maxFlowSize, old(View()), src, data) && len == |data|
    {
      if queue == [] {
        queue := [Entry(src, data, 1, false)];
      } else {
        var n := |queue| - 1;
        var last := queue[n];
        if last.source == src {
          if domain == Stream {
            if |last.data| + |data| > maxFlowSize {
              queue := queue[..n] + [last.(truncated := true)];
            } else {
              queue := queue[..n] + [last.(data := last.data + data, counter := last.counter + 1)];
            }
          } else {
            queue := queue + [Entry(src, data, 1, false)];
          }
        } else {
          queue := queue + [Entry(src, data, 1, false)];
          exchanges := exchanges + 1;
        }
      }
      return |data|;
    }

    method Pop()
      modifies this`queue
      ensures queue == if old(queue) == [] then [] else old(queue)[1..]
    {
      if queue != [] {
        queue := queue[1..];
      }
    }
  }

  /** All bytes of one side, in order. */
  function SideBytes(q: seq<Entry>, side: char): seq<byte>
    decreases |q|
  {
    if q == [] then []
    else
      var n := |q| - 1;
      SideBytes(q[..n], side) + if q[n].source == side then q[n].data else []
  }

  /** All bytes of both sides, each with its side. */
  function Tagged(q: seq<Entry>): seq<(char, byte)>
    decreases |q|
  {
    if q == [] then []
    else
      var n := |q| - 1;
      Tagged(q[..n]) + Marked(q[n].source, q[n].data)
  }

  function Marked(side: char, data: seq<byte>): (m: seq<(char, byte)>)
    ensures |m| == |data| && forall i :: 0 <= i < |data| ==> m[i] == (side, data[i])
  {
    seq(|data|, i requires 0 <= i < |data| => (side, data[i]))
  }

  predicate Untruncated(q: seq<Entry>) {
    forall i :: 0 <= i < |q| ==> !q[i].truncated
  }

  predicate Alternating(q: seq<Entry>) {
    && (forall i :: 0 <= i < |q| ==> q[i].data != [])
    && (forall i :: 0 < i < |q| ==> q[i - 1].source != q[i].source)
  }

  lemma AppendAddsBytes(domain: Domain, limit: nat, f: FlowState, src: char, data: seq<byte>, side: char)
    ensures var g := Appended(domain, limit, f, src, data);
            SideBytes(g.queue, side) == SideBytes(f.queue, side)
              + if src == side && !Drops(domain, limit, f, src, data) then data else []
  {
    var g := Appended(domain, limit, f, src, data);
    var n := |g.queue| - 1;
    if f.queue != [] && Last(f).source == src && domain.Stream? {
      assert g.queue[..n] == f.queue[..n];
      if src == side && !Drops(domain, limit, f, src, data) {
        assert SideBytes(f.queue[..n], side) + (Last(f).data + data) == SideBytes(f.queue, side) + data;
      }
    } else {
      assert g.queue[..n] == f.queue;
    }
  }

  lemma AppendAddsTagged(limit: nat, f: FlowState, src: char, data: seq<byte>)
    requires !Drops(Stream, limit, f, src, data)
    ensures Tagged(Appended(Stream, limit, f, src, data).queue) == Tagged(f.queue) + Marked(src, data)
  {
    var g := Appended(Stream, limit, f, src, data);
    var n := |g.queue| - 1;
    if f.queue != [] && Last(f).source == src {
      assert g.queue[..n] == f.queue[..n];
      assert Marked(src, Last(f).data + data) == Marked(src, Last(f).data) + Marked(src, data);
      assert Tagged(f.queue[..n]) + (Marked(src, Last(f).data) + Marked(src, data))
        == Tagged(f.queue[..n]) + Marked(src, Last(f).data) + Marked(src, data);
    } else {
      assert g.queue[..n] == f.queue;
    }
  }

  // ----- Any run of appends -----

  datatype Chunk = Chunk(src: char, data: seq<byte>)

  function Collected(domain: Domain, limit: nat, chunks: seq<Chunk>): FlowState
    decreases |chunks|
  {
    if chunks == [] then EmptyFlow
    else
      var n := |chunks| - 1;
      Appended(domain, limit, Collected(domain, limit, chunks[..n]), chunks[n].src, chunks[n].data)
  }

  function TaggedChunks(chunks: seq<Chunk>): seq<(char, byte)>
    decreases |chunks|
  {
    if chunks == [] then []
    else
      var n := |chunks| - 1;
      TaggedChunks(chunks[..n]) + Marked(chunks[n].src, chunks[n].data)
  }

  predicate NonEmpty(chunks: seq<Chunk>) {
    forall i :: 0 <= i < |chunks| ==> chunks[i].data != []
  }

  /** The sides alternate in a stream flow, and every change of side is counted. */
  lemma {:induction false} StreamFlowsAlternate(limit: nat, chunks: seq<Chunk>)
    requires NonEmpty(chunks)
    ensures var f := Collected(Stream, limit, chunks);
            Alternating(f.queue) && (chunks != [] ==> |f.queue| > 0 && f.exchanges + 1 == |f.queue|)
    decreases |chunks|
  {
    if chunks != [] {
      var n := |chunks| - 1;
      StreamFlowsAlternate(limit, chunks[..n]);
      AppendKeepsAlternation(limit, Collected(Stream, limit, chunks[..n]), chunks[n].src, chunks[n].data);
    }
  }

  lemma AppendKeepsAlternation(limit: nat, f: FlowState, src: char, data: seq<byte>)
    requires Alternating(f.queue) && data != []
    requires f.exchanges + 1 == |f.queue| || f == EmptyFlow
    ensures var g := Appended(Stream, limit, f, src, data); Alternating(g.queue) && g.exchanges + 1 == |g.queue|
  {
  }

  /** A flow without a truncation mark lost nothing: it holds the appended bytes in order. */
  lemma {:induction false} UntruncatedHoldsEverything(limit: nat, chunks: seq<Chunk>)
    requires Untruncated(Collected(Stream, limit, chunks).queue)
    ensures Tagged(Collected(Stream, limit, chunks).queue) == TaggedChunks(chunks)
    decreases |chunks|
  {
    if chunks != [] {
      var n := |chunks| - 1;
      var f := Collected(Stream, limit, chunks[..n]);
      MarksStay(Stream, limit, f, chunks[n].src, chunks[n].data);
      UntruncatedHoldsEverything(limit, chunks[..n]);
      AppendAddsTagged(limit, f, chunks[n].src, chunks[n].data);
    }
  }

  lemma MarksStay(domain: Domain, limit: nat, f: FlowState, src: char, data: seq<byte>)
    requires Untruncated(Appended(domain, limit, f, src, data).queue)
    ensures Untruncated(f.queue) && !Drops(domain, limit, f, src, data)
  {
    var g := Appended(domain, limit, f, src, data);
    forall i | 0 <= i < |f.queue| ensures !f.queue[i].truncated {
      assert !g.queue[i].truncated;
    }
    if f.queue != [] {
      assert !g.queue[|f.queue| - 1].truncated;
    }
  }

  /** Side and data of each entry, without the number of updates. */
  predicate SameContent(a: seq<Entry>, b: seq<Entry>) {
    |a| == |b| && forall i :: 0 <= i < |a| ==> a[i].source == b[i].source && a[i].data == b[i].data
  }

  /** The run of equal sides at the end of a tagged stream starts at i. */
  predicate RunStarts(t: seq<(char, byte)>, i: nat, side: char) {
    && i < |t|
    && (forall k :: i <= k < |t| ==> t[k].0 == side)
    && (i > 0 ==> t[i - 1].0 != side)
  }

  lemma RunStartIsUnique(t: seq<(char, byte)>, i: nat, x: char, j: nat, y: char)
    requires RunStarts(t, i, x) && RunStarts(t, j, y)
    ensures i == j && x == y
  {
    assert t[|t| - 1].0 == x;
  }

  lemma {:induction false} LastRun(q: seq<Entry>)
    requires q != [] && Alternating(q)
    ensures var n := |q| - 1;
            var i := |Tagged(q[..n])|;
            && RunStarts(Tagged(q), i, q[n].source)
            && Tagged(q) == Tagged(q[..n]) + Marked(q[n].source, q[n].data)
  {
    var n := |q| - 1;
    var i := |Tagged(q[..n])|;
    assert Tagged(q)[i..] == Marked(q[n].source, q[n].data);
    if n > 0 {
      var p := q[..n];
      assert q[n - 1].source != q[n].source && p[n - 1] == q[n - 1];
      assert Tagged(p) == Tagged(p[..n - 1]) + Marked(q[n - 1].source, q[n - 1].data);
      assert q[n - 1].data != [];
    }
  }

  /** An alternating flow is determined by the tagged bytes in it. */
  lemma {:induction false} ContentIsDetermined(a: seq<Entry>, b: seq<Entry>)
    requires Alternating(a) && Alternating(b) && Tagged(a) == Tagged(b)
    ensures SameContent(a, b)
    decreases |a|
  {
    if a == [] {
      if b != [] {
        LastRun(b);
      }
    } else {
      LastRun(a);
      if b != [] {
        LastRun(b);
        SameLastRun(a, b);
        hide Tagged;
        var m, n := |a| - 1, |b| - 1;
        assert Alternating(a[..m]) && Alternating(b[..n]);
        ContentIsDetermined(a[..m], b[..n]);
        assert forall i :: 0 <= i < m ==> a[i] == a[..m][i] && b[i] == b[..n][i];
      }
    }
  }

  lemma {:induction false} SameLastRun(a: seq<Entry>, b: seq<Entry>)
    requires a != [] && b != [] && Alternating(a) && Alternating(b) && Tagged(a) == Tagged(b)
    ensures var x, y := a[|a| - 1], b[|b| - 1];
            x.source == y.source && x.data == y.data && Tagged(a[..|a| - 1]) == Tagged(b[..|b| - 1])
  {
    LastRun(a);
    LastRun(b);
    hide Tagged;
    var x, y := a[|a| - 1], b[|b| - 1];
    var i, j := |Tagged(a[..|a| - 1])|, |Tagged(b[..|b| - 1])|;
    RunStartIsUnique(Tagged(a), i, x.source, j, y.source);
    assert Tagged(a)[..i] == Tagged(a[..|a| - 1]) && Tagged(b)[..i] == Tagged(b[..|b| - 1]);
    assert Tagged(a)[i..] == Marked(x.source, x.data) && Tagged(b)[i..] == Marked(y.source, y.data);
    SameMarks(x.source, x.data, y.data);
  }

  lemma SameMarks(side: char, a: seq<byte>, b: seq<byte>)
    requires Marked(side, a) == Marked(side, b)
    ensures a == b
  {
    forall k | 0 <= k < |a| ensures a[k] == b[k] {
      assert Marked(side, a)[k] == Marked(side, b)[k];
    }
  }

  /** However the bytes of a side were cut into chunks, the flow is the same, apart from the
      update counters. */
  lemma ChunkingDoesNotMatter(limit: nat, a: seq<Chunk>, b: seq<Chunk>)
    requires NonEmpty(a) && NonEmpty(b) && TaggedChunks(a) == TaggedChunks(b)
    requires Untruncated(Collected(Stream, limit, a).queue) && Untruncated(Collected(Stream, limit, b).queue)
    ensures SameContent(Collected(Stream, limit, a).queue, Collected(Stream, limit, b).queue)
    ensures a != [] && b != [] ==> Collected(Stream, limit, a).exchanges == Collected(Stream, limit, b).exchanges
  {
    StreamFlowsAlternate(limit, a);
    StreamFlowsAlternate(limit, b);
    UntruncatedHoldsEverything(limit, a);
    UntruncatedHoldsEverything(limit, b);
    ContentIsDetermined(Collected(Stream, limit, a).queue, Collected(Stream, limit, b).queue);
  }

  // ----- The context -----

  datatype Config = Config(
    domain: Domain,
    maxFlowSize: nat,
    maxDetectBytes: nat,
    minDetectBytes: nat,
    maxExchanges: nat)

  /** A context in detection mode, with the switch to continuous capture turned off. */
  datatype Cx = Cx(wbuf: seq<byte>, meterWrite: nat, meterRead: nat, peek: nat, flow: FlowState)

  const NewCx := Cx([], 0, 0, 0, EmptyFlow)

  predicate Inside(cfg: Config, c: Cx) {
    var total := c.meterWrite + c.meterRead;
    total <= cfg.maxDetectBytes && (|c.flow.queue| < cfg.maxExchanges || total <= cfg.minDetectBytes)
  }

  /** The part of the write buffer that was not captured yet, as the hook computes it. */
  function Missing(c: Cx): seq<byte>
    requires c.meterWrite <= c.peek <= c.meterWrite + |c.wbuf|
  {
    c.wbuf[c.peek - c.meterWrite..]
  }

  /** The counter lies within the stream, and not behind what was sent while the window is
      open, so that the part missing from the capture is still in the buffer. */
  predicate CanCatchUp(cfg: Config, c: Cx) {
    c.peek <= c.meterWrite + |c.wbuf| && (Inside(cfg, c) ==> c.meterWrite <= c.peek)
  }

  function BeforeWrite(cfg: Config, c: Cx): Cx
    requires CanCatchUp(cfg, c)
  {
    if c.wbuf == [] || !Inside(cfg, c) || Missing(c) == [] then c
    else c.(flow := Appended(cfg.domain, cfg.maxFlowSize, c.flow, 'w', Missing(c)), peek := c.peek + |Missing(c)|)
  }

  function AfterSend(c: Cx, sent: nat): Cx {
    var k := if sent < |c.wbuf| then sent else |c.wbuf|;
    c.(wbuf := c.wbuf[k..], meterWrite := c.meterWrite + k)
  }

  class AppHostCX {
    const cfg: Config
    const flow: Flow
    var writebuf: seq<byte>
    var meterWriteBytes: nat
    var meterReadBytes: nat
    var peekWriteCounter: nat

    ghost function View(): Cx
      reads this, flow
    {
      Cx(writebuf, meterWriteBytes, meterReadBytes, peekWriteCounter, flow.View())
    }

    ghost predicate Valid() {
      flow.domain == cfg.domain && flow.maxFlowSize == cfg.maxFlowSize
    }

    constructor (cfg: Config)
      ensures Valid() && fresh(flow) && View() == NewCx && this.cfg == cfg
    {
      this.cfg := cfg;
      writebuf, meterWriteBytes, meterReadBytes, peekWriteCounter := [], 0, 0, 0;
      flow := new Flow(cfg.domain, cfg.maxFlowSize);
    }

    method InsideDetectRanges() returns (inside: bool)
      ensures inside == Inside(cfg, View())
    {
      var bytesTotal := meterWriteBytes + meterReadBytes;
      var insideRange := bytesTotal <= cfg.maxDetectBytes;
      var bytesOverride := bytesTotal <= cfg.minDetectBytes;
      var insideExchanges := |flow.queue| < cfg.maxExchanges || bytesOverride;
      return insideRange && insideExchanges;
    }

    method PreWrite()
      requires Valid()
      requires CanCatchUp(cfg, View())
      modifies this`peekWriteCounter, flow
      ensures View() == BeforeWrite(cfg, old(View()))
    {
      if writebuf == [] {
        return;
      }
      var inside := InsideDetectRanges();
      if inside {
        var delta := (meterWriteBytes + |writebuf|) - peekWriteCounter;
        if delta > 0 {
          var missing := writebuf[|writebuf| - delta..];
          var _ := flow.Append('w', missing);
          peekWriteCounter := peekWriteCounter + |missing|;
        }
      }
    }
  }

  // ----- Runs -----

  /** Bytes for the peer arrive; the context writes, and the kernel takes some of it; or bytes
      are read, some of which the read hook captured. */
  datatype Op =
    | ToWrite(data: seq<byte>)
    | Write(sent: nat)
    | Read(red: nat, captured: seq<byte>)

  function Outgoing(ops: seq<Op>): seq<byte>
    decreases |ops|
  {
    if ops == [] then []
    else
      var n := |ops| - 1;
      Outgoing(ops[..n]) + if ops[n].ToWrite? then ops[n].data else []
  }

  function Step(cfg: Config, c: Cx, op: Op): Cx
    requires CanCatchUp(cfg, c)
  {
    match op
    case ToWrite(data) => c.(wbuf := c.wbuf + data)
    case Write(sent) => AfterSend(BeforeWrite(cfg, c), sent)
    case Read(red, captured) =>
      c.(meterRead := c.meterRead + red,
         flow := if captured == [] then c.flow else Appended(cfg.domain, cfg.maxFlowSize, c.flow, 'r', captured))
  }

  predicate WriteTruncated(q: seq<Entry>) {
    exists i :: 0 <= i < |q| && q[i].source == 'w' && q[i].truncated
  }

  /** Where buffer, counters and capture stand in the outgoing stream. */
  predicate Kept(cfg: Config, c: Cx, out: seq<byte>) {
    && c.meterWrite <= |out| && c.wbuf == out[c.meterWrite..]
    && c.peek <= |out|
    && (Inside(cfg, c) ==> c.meterWrite <= c.peek)
    && (!WriteTruncated(c.flow.queue) ==> SideBytes(c.flow.queue, 'w') == out[..c.peek])
    && (WriteTruncated(c.flow.queue) ==> |SideBytes(c.flow.queue, 'w')| < c.peek)
  }

  /** A closed window stays closed. */
  lemma WindowNeverReopens(cfg: Config, c: Cx, op: Op)
    requires CanCatchUp(cfg, c) && !Inside(cfg, c)
    ensures !Inside(cfg, Step(cfg, c, op))
  {
  }

  lemma AppendAndTruncation(domain: Domain, limit: nat, f: FlowState, src: char, data: seq<byte>)
    ensures WriteTruncated(Appended(domain, limit, f, src, data).queue)
        <==> WriteTruncated(f.queue) || (src == 'w' && Drops(domain, limit, f, src, data))
  {
    var g := Appended(domain, limit, f, src, data);
    if WriteTruncated(f.queue) {
      var i :| 0 <= i < |f.queue| && f.queue[i].source == 'w' && f.queue[i].truncated;
      assert g.queue[i].source == 'w' && g.queue[i].truncated;
    }
    if src == 'w' && Drops(domain, limit, f, src, data) {
      assert g.queue[|f.queue| - 1].source == 'w' && g.queue[|f.queue| - 1].truncated;
    }
  }

  lemma HookKeeps(cfg: Config, c: Cx, out: seq<byte>)
    requires Kept(cfg, c, out)
    ensures var d := BeforeWrite(cfg, c);
            && Kept(cfg, d, out)
            && (Inside(cfg, c) && c.wbuf != [] ==> d.peek == |out|)
            && (!Inside(cfg, c) ==> d == c)
  {
    if c.wbuf != [] && Inside(cfg, c) && Missing(c) != [] {
      var data := Missing(c);
      assert data == out[c.peek..];
      assert out[..c.peek] + data == out;
      AppendAddsBytes(cfg.domain, cfg.maxFlowSize, c.flow, 'w', data, 'w');
      AppendAndTruncation(cfg.domain, cfg.maxFlowSize, c.flow, 'w', data);
      hide SideBytes, WriteTruncated, Appended, Drops;
      assert out[..|out|] == out;
    }
  }

  lemma StepKeeps(cfg: Config, c: Cx, out: seq<byte>, op: Op)
    requires Kept(cfg, c, out)
    ensures Kept(cfg, Step(cfg, c, op), out + if op.ToWrite? then op.data else [])
  {
    assert out + [] == out;
    match op {
      case ToWrite(data) =>
        hide SideBytes, WriteTruncated;
        assert (out + data)[c.meterWrite..] == out[c.meterWrite..] + data;
        assert (out + data)[..c.peek] == out[..c.peek];
      case Write(sent) =>
        HookKeeps(cfg, c, out);
        SendKeeps(cfg, c, BeforeWrite(cfg, c), out, sent);
      case Read(red, captured) =>
        if captured != [] {
          AppendAddsBytes(cfg.domain, cfg.maxFlowSize, c.flow, 'r', captured, 'w');
          AppendAndTruncation(cfg.domain, cfg.maxFlowSize, c.flow, 'r', captured);
        }
        if !Inside(cfg, c) {
          WindowNeverReopens(cfg, c, op);
        }
        hide SideBytes, WriteTruncated, Appended;
    }
  }

  lemma SendKeeps(cfg: Config, c: Cx, d: Cx, out: seq<byte>, sent: nat)
    requires Kept(cfg, d, out)
    requires (Inside(cfg, c) && c.wbuf != [] ==> d.peek == |out|) && (!Inside(cfg, c) ==> d == c)
    requires d.wbuf == c.wbuf && (c.wbuf == [] ==> d == c)
    ensures Kept(cfg, AfterSend(d, sent), out)
  {
    hide SideBytes, WriteTruncated;
    var e := AfterSend(d, sent);
    assert e.wbuf == out[e.meterWrite..];
  }

  lemma StepCatchesUp(cfg: Config, c: Cx, op: Op)
    requires CanCatchUp(cfg, c)
    ensures CanCatchUp(cfg, Step(cfg, c, op))
  {
    if !Inside(cfg, c) {
      WindowNeverReopens(cfg, c, op);
    }
    hide Appended, Inside;
    if op.Write? && c.wbuf != [] && Inside(cfg, c) {
      assert BeforeWrite(cfg, c).peek == c.meterWrite + |c.wbuf|;
    }
  }

  function After(cfg: Config, ops: seq<Op>): (c: Cx)
    ensures CanCatchUp(cfg, c)
    decreases |ops|
  {
    if ops == [] then NewCx
    else
      var n := |ops| - 1;
      var c := After(cfg, ops[..n]);
      StepCatchesUp(cfg, c, ops[n]);
      Step(cfg, c, ops[n])
  }

  lemma {:induction false} RunsAreKept(cfg: Config, ops: seq<Op>)
    ensures Kept(cfg, After(cfg, ops), Outgoing(ops))
    decreases |ops|
  {
    if ops != [] {
      var n := |ops| - 1;
      RunsAreKept(cfg, ops[..n]);
      StepKeeps(cfg, After(cfg, ops[..n]), Outgoing(ops[..n]), ops[n]);
      hide Kept, Step;
    }
  }

  /** Exactly once: the captured 'w' bytes are the first bytes of the outgoing stream, as many
      as the counter says, with no gap and no repeat, over every run of arrivals, partial
      sends and reads, if and only if no chunk of that side carries a truncation mark. */
  lemma CaptureIsExactlyOnce(cfg: Config, ops: seq<Op>)
    ensures var c := After(cfg, ops);
            var out := Outgoing(ops);
            && c.peek <= |out| && c.meterWrite <= |out|
            && (SideBytes(c.flow.queue, 'w') == out[..c.peek] <==> !WriteTruncated(c.flow.queue))
            && out == out[..c.meterWrite] + c.wbuf
  {
    RunsAreKept(cfg, ops);
    var c := After(cfg, ops);
    var out := Outgoing(ops);
    hide SideBytes, WriteTruncated, After, Outgoing;
    assert out[..c.meterWrite] + out[c.meterWrite..] == out;
  }

  /** While the window is open, a write captures everything that is about to be sent, so no
      byte leaves uncaptured before the window closes. */
  lemma OpenWindowMissesNothing(cfg: Config, ops: seq<Op>, sent: nat)
    ensures var c := After(cfg, ops);
            var d := After(cfg, ops + [Write(sent)]);
            Inside(cfg, c) && c.wbuf != [] ==> d.meterWrite <= d.peek == |Outgoing(ops)|
  {
    var more := ops + [Write(sent)];
    assert more[..|ops|] == ops;
    RunsAreKept(cfg, ops);
    HookKeeps(cfg, After(cfg, ops), Outgoing(ops));
    hide Kept;
  }

  /** What the read hook captured in a run. */
  function CapturedReads(ops: seq<Op>): seq<byte>
    decreases |ops|
  {
    if ops == [] then []
    else
      var n := |ops| - 1;
      CapturedReads(ops[..n]) + if ops[n].Read? then ops[n].captured else []
  }

  lemma StepKeepsReads(cfg: Config, c: Cx, op: Op)
    requires CanCatchUp(cfg, c)
    ensures Untruncated(Step(cfg, c, op).flow.queue) ==>
              && Untruncated(c.flow.queue)
              && SideBytes(Step(cfg, c, op).flow.queue, 'r')
                 == SideBytes(c.flow.queue, 'r') + if op.Read? then op.captured else []
  {
    var r, w := if op.Read? then op.captured else [], if c.wbuf != [] && Inside(cfg, c) then Missing(c) else [];
    if Untruncated(Step(cfg, c, op).flow.queue) {
      AppendAddsBytes(cfg.domain, cfg.maxFlowSize, c.flow, 'r', r, 'r');
      AppendAddsBytes(cfg.domain, cfg.maxFlowSize, c.flow, 'w', w, 'r');
      if op.Read? && r != [] {
        MarksStay(cfg.domain, cfg.maxFlowSize, c.flow, 'r', r);
      } else if op.Write? && w != [] {
        MarksStay(cfg.domain, cfg.maxFlowSize, c.flow, 'w', w);
      }
    }
    hide SideBytes, Untruncated, Appended, Drops;
    assert SideBytes(c.flow.queue, 'r') + [] == SideBytes(c.flow.queue, 'r');
  }

  /** The other side: without a truncation mark the captured 'r' bytes are those the read hook
      took, whatever is written in between. */
  lemma {:induction false} ReadsAreCaptured(cfg: Config, ops: seq<Op>)
    ensures var q := After(cfg, ops).flow.queue;
            Untruncated(q) ==> SideBytes(q, 'r') == CapturedReads(ops)
    decreases |ops|
  {
    if ops != [] {
      var n := |ops| - 1;
      ReadsAreCaptured(cfg, ops[..n]);
      StepKeepsReads(cfg, After(cfg, ops[..n]), ops[n]);
      hide SideBytes, Untruncated, Step;
    }
  }

  // ----- When the window is open -----

  /** Bytes read in a run. */
  function Incoming(ops: seq<Op>): nat
    decreases |ops|
  {
    if ops == [] then 0
    else
      var n := |ops| - 1;
      Incoming(ops[..n]) + if ops[n].Read? then ops[n].red else 0
  }

  /** The counters count: all bytes read, and all bytes that went out and wait no longer. */
  lemma {:induction false} TrafficIsCounted(cfg: Config, ops: seq<Op>)
    ensures var c := After(cfg, ops);
            c.meterRead == Incoming(ops) && c.meterWrite == |Outgoing(ops)| - |c.wbuf|
    decreases |ops|
  {
    if ops != [] {
      var n := |ops| - 1;
      TrafficIsCounted(cfg, ops[..n]);
      hide Appended, Inside;
    }
  }

  /** A write takes from the front of the buffer what the kernel takes of it. */
  lemma WriteSends(cfg: Config, ops: seq<Op>, sent: nat)
    ensures var c, d := After(cfg, ops), After(cfg, ops + [Write(sent)]);
            && (sent < |c.wbuf| ==> d.wbuf == c.wbuf[sent..])
            && (sent >= |c.wbuf| ==> d.wbuf == [])
  {
    assert (ops + [Write(sent)])[..|ops|] == ops;
    hide Appended, Inside;
  }

  /** A read of which nothing is captured leaves the flow as it was. */
  lemma UnseenReadsLeaveTheFlow(cfg: Config, ops: seq<Op>, red: nat)
    ensures After(cfg, ops + [Read(red, [])]).flow == After(cfg, ops).flow
  {
    assert (ops + [Read(red, [])])[..|ops|] == ops;
    hide Appended, Inside;
  }

  /** Over every run: a write captures all that is in its buffer while no more bytes have
      passed than the maximum and either no more than the minimum or there are fewer chunks
      than allowed; otherwise it captures nothing. */
  lemma WindowIsOpenIff(cfg: Config, ops: seq<Op>, sent: nat)
    ensures var c, d := After(cfg, ops), After(cfg, ops + [Write(sent)]);
            var passed := |Outgoing(ops)| - |c.wbuf| + Incoming(ops);
            c.wbuf != [] ==>
              && (passed <= cfg.maxDetectBytes && passed <= cfg.minDetectBytes ==> d.peek == |Outgoing(ops)|)
              && (passed > cfg.maxDetectBytes ==> d.peek == c.peek && d.flow == c.flow)
              && (cfg.minDetectBytes < passed <= cfg.maxDetectBytes ==>
                    if |c.flow.queue| < cfg.maxExchanges then d.peek == |Outgoing(ops)|
                    else d.peek == c.peek && d.flow == c.flow)
  {
    var more := ops + [Write(sent)];
    assert more[..|ops|] == ops;
    TrafficIsCounted(cfg, ops);
    RunsAreKept(cfg, ops);
    HookKeeps(cfg, After(cfg, ops), Outgoing(ops));
    hide Kept, Appended, Missing;
  }

  // ----- When data is dropped -----

  /** The bytes of the side that spoke last, since it began to. */
  function LastRunBytes(chunks: seq<Chunk>): nat
    decreases |chunks|
  {
    if chunks == [] then 0
    else
      var n := |chunks| - 1;
      |chunks[n].data| + if n > 0 && chunks[n - 1].src == chunks[n].src then LastRunBytes(chunks[..n]) else 0
  }

  /** No side goes on beyond the limit; what it says first may be of any size. */
  predicate StaysWithin(limit: nat, chunks: seq<Chunk>)
    decreases |chunks|
  {
    if chunks == [] then true
    else
      var n := |chunks| - 1;
      && StaysWithin(limit, chunks[..n])
      && (n > 0 && chunks[n - 1].src == chunks[n].src ==> LastRunBytes(chunks) <= limit)
  }

  /** A stream flow drops nothing if and only if no side goes on beyond the limit. */
  lemma {:induction false} NothingIsDroppedIff(limit: nat, chunks: seq<Chunk>)
    ensures var f := Collected(Stream, limit, chunks);
            && (Untruncated(f.queue) <==> StaysWithin(limit, chunks))
            && (f.queue == [] <==> chunks == [])
            && (chunks != [] ==> Last(f).source == chunks[|chunks| - 1].src)
            && (chunks != [] && Untruncated(f.queue) ==> |Last(f).data| == LastRunBytes(chunks))
    decreases |chunks|
  {
    if chunks != [] {
      var n := |chunks| - 1;
      NothingIsDroppedIff(limit, chunks[..n]);
      var f := Collected(Stream, limit, chunks[..n]);
      AppendTruncatesIff(limit, f, chunks[n].src, chunks[n].data);
      hide Untruncated, Appended;
    }
  }

  lemma AppendTruncatesIff(limit: nat, f: FlowState, src: char, data: seq<byte>)
    ensures Untruncated(Appended(Stream, limit, f, src, data).queue)
       <==> Untruncated(f.queue) && !(f.queue != [] && Last(f).source == src && |Last(f).data| + |data| > limit)
  {
    var g := Appended(Stream, limit, f, src, data);
    if Untruncated(g.queue) {
      MarksStay(Stream, limit, f, src, data);
    }
  }

  /** How often the chunks were written to, the first time included. */
  function Updates(q: seq<Entry>): nat
    decreases |q|
  {
    if q == [] then 0 else Updates(q[..|q| - 1]) + q[|q| - 1].counter
  }

  lemma AppendIsCounted(domain: Domain, limit: nat, f: FlowState, src: char, data: seq<byte>)
    ensures Updates(Appended(domain, limit, f, src, data).queue)
         == Updates(f.queue) + if Drops(domain, limit, f, src, data) then 0 else 1
  {
    var g := Appended(domain, limit, f, src, data);
    if f.queue != [] {
      var n := |f.queue| - 1;
      assert g.queue[..n] == f.queue[..n];
      if |g.queue| == |f.queue| + 1 {
        assert g.queue[..n + 1] == f.queue;
      }
    }
  }

  /** In a flow that dropped nothing, every append is counted by one chunk. */
  lemma {:induction false} UpdatesAreCounted(domain: Domain, limit: nat, chunks: seq<Chunk>)
    ensures var f := Collected(domain, limit, chunks);
            Untruncated(f.queue) ==> Updates(f.queue) == |chunks|
    decreases |chunks|
  {
    if chunks != [] {
      var n := |chunks| - 1;
      var f, c := Collected(domain, limit, chunks[..n]), chunks[n];
      UpdatesAreCounted(domain, limit, chunks[..n]);
      AppendIsCounted(domain, limit, f, c.src, c.data);
      if Untruncated(Collected(domain, limit, chunks).queue) {
        MarksStay(domain, limit, f, c.src, c.data);
      }
      hide Appended, Drops, Updates, Untruncated;
    }
  }

  /** How often the side changes from one chunk to the next. */
  function Changes(q: seq<Entry>): nat
    decreases |q|
  {
    if |q| < 2 then 0
    else
      var n := |q| - 1;
      Changes(q[..n]) + if q[n - 1].source == q[n].source then 0 else 1
  }

  lemma ReplacingKeepsChanges(q: seq<Entry>, e: Entry)
    requires q != [] && e.source == q[|q| - 1].source
    ensures Changes(q[..|q| - 1] + [e]) == Changes(q)
  {
    var n := |q| - 1;
    assert (q[..n] + [e])[..n] == q[..n];
  }

  lemma AppendCountsChanges(domain: Domain, limit: nat, f: FlowState, src: char, data: seq<byte>)
    requires f.exchanges == Changes(f.queue)
    ensures var g := Appended(domain, limit, f, src, data); g.exchanges == Changes(g.queue)
  {
    if f.queue != [] {
      var e := Last(f);
      ReplacingKeepsChanges(f.queue, e.(truncated := true));
      ReplacingKeepsChanges(f.queue, e.(data := e.data + data, counter := e.counter + 1));
      AddingCountsChange(f.queue, Entry(src, data, 1, false));
      hide Changes;
    }
  }

  lemma AddingCountsChange(q: seq<Entry>, e: Entry)
    requires q != []
    ensures Changes(q + [e]) == Changes(q) + if q[|q| - 1].source == e.source then 0 else 1
  {
    assert (q + [e])[..|q|] == q;
  }

  /** In either domain the exchanges are the changes of side. */
  lemma {:induction false} ExchangesAreChanges(domain: Domain, limit: nat, chunks: seq<Chunk>)
    ensures var f := Collected(domain, limit, chunks); f.exchanges == Changes(f.queue)
    decreases |chunks|
  {
    if chunks != [] {
      var n := |chunks| - 1;
      ExchangesAreChanges(domain, limit, chunks[..n]);
      AppendCountsChanges(domain, limit, Collected(domain, limit, chunks[..n]), chunks[n].src, chunks[n].data);
      hide Appended, Changes;
    }
  }

  /** Datagrams are kept apart and whole, whatever their size. */
  lemma {:induction false} DatagramsStayApart(limit: nat, chunks: seq<Chunk>)
    ensures var q := Collected(Domain.Datagram, limit, chunks).queue;
            |q| == |chunks| && forall i :: 0 <= i < |q| ==> q[i] == Entry(chunks[i].src, chunks[i].data, 1, false)
    decreases |chunks|
  {
    if chunks != [] {
      DatagramsStayApart(limit, chunks[..|chunks| - 1]);
    }
  }
}
