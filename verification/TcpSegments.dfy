// The TCP conversation the capture invents: sequence and acknowledgement numbers for frames
// that never were on a wire, cut to a maximum size.
module TcpSegments {
  import opened Bytes
  import opened Common

  /** The flags a caller asks for. */
  datatype Flags = Flags(syn: bool, fin: bool, ack: bool)

  const SYN := Flags(true, false, false)
  const SYN_ACK := Flags(true, false, true)
  const ACK := Flags(false, false, true)
  const FIN_ACK := Flags(false, true, true)

  /** What changes from frame to frame: the next sequence number of each direction, the last
      number acknowledged in it, and the next IP identification. */
  datatype Counters = Counters(
    seqIn: u32, seqOut: u32, lastAckIn: u32, lastAckOut: u32, idIn: u16, idOut: u16)

  /** A frame; incoming ones go from the server, on the right, to the client. */
  datatype Frame = Frame(
    incoming: bool, seqNo: u32, ackNo: u32, syn: bool, fin: bool, ack: bool, id: u16, payload: seq<byte>)

  function Plus(a: u32, n: nat): u32 {
    (a + n) % U32
  }

  lemma PlusAdds(a: u32, m: nat, n: nat)
    ensures Plus(Plus(a, m), n) == Plus(a, m + n) && Plus(a, 0) == a
  {
  }

  // ----- One frame -----

  /** A SYN or a FIN takes one number whatever the payload, anything else takes its size. */
  function Taken(f: Flags, payload: seq<byte>): nat {
    if f.syn || f.fin then 1 else |payload|
  }

  function Emitted(c: Counters, incoming: bool, f: Flags, payload: seq<byte>): (Frame, Counters) {
    var plain := f.ack || f == Flags(false, false, false);
    if incoming then
      var news := c.seqOut != c.lastAckIn;
      (Frame(true, c.seqIn, c.seqOut, f.syn, f.fin, plain || (news && !f.syn), c.idIn, payload),
       c.(seqIn := Plus(c.seqIn, Taken(f, payload)), lastAckIn := c.seqOut, idIn := (c.idIn + 1) % U16))
    else
      var news := c.seqIn != c.lastAckOut;
      (Frame(false, c.seqOut, c.seqIn, f.syn, f.fin, plain || (news && !f.syn), c.idOut, payload),
       c.(seqOut := Plus(c.seqOut, Taken(f, payload)), lastAckOut := c.seqIn, idOut := (c.idOut + 1) % U16))
  }

  /** The cutting loop, from a state in which the next cut is already known. */
  function Cut(c: Counters, incoming: bool, f: Flags, data: seq<byte>, size: nat): (seq<Frame>, Counters)
    requires size <= |data| && (size == 0 ==> data == [])
    decreases |data|
  {
    var (frame, next) := Emitted(c, incoming, f, data[..size]);
    var rest := data[size..];
    if rest == [] then ([frame], next)
    else
      var (more, last) := Cut(next, incoming, f, rest, Least(size, |rest|));
      ([frame] + more, last)
  }

  /** A limit of zero or less means no limit. */
  function FirstCut(limit: int, data: seq<byte>): nat {
    if limit <= 0 then |data| else Least(limit, |data|)
  }

  function Segments(c: Counters, limit: int, incoming: bool, f: Flags, data: seq<byte>): (seq<Frame>, Counters) {
    Cut(c, incoming, f, data, FirstCut(limit, data))
  }

  /** The mutable details of a connection. */
  class TcpDetails {
    const maxDataSize: int
    var counters: Counters

    constructor (maxDataSize: int, counters: Counters)
      ensures this.maxDataSize == maxDataSize && this.counters == counters
    {
      this.maxDataSize, this.counters := maxDataSize, counters;
    }

    method AppendHeader(incoming: bool, f: Flags, payload: seq<byte>) returns (frame: Frame)
      modifies this
      ensures (frame, counters) == Emitted(old(counters), incoming, f, payload)
    {
      var c := counters;
      var ack := f.ack || (!f.syn && !f.fin && !f.ack);
      var taken := if f.syn || f.fin then 1 else |payload|;
      if incoming {
        if c.seqOut != c.lastAckIn && !f.syn {
          ack := true;
        }
        frame := Frame(true, c.seqIn, c.seqOut, f.syn, f.fin, ack, c.idIn, payload);
        counters := c.(seqIn := (c.seqIn + taken) % U32, idIn := (c.idIn + 1) % U16);
        if c.seqOut != c.lastAckIn {
          counters := counters.(lastAckIn := c.seqOut);
        }
      } else {
        if c.seqIn != c.lastAckOut && !f.syn {
          ack := true;
        }
        frame := Frame(false, c.seqOut, c.seqIn, f.syn, f.fin, ack, c.idOut, payload);
        counters := c.(seqOut := (c.seqOut + taken) % U32, idOut := (c.idOut + 1) % U16);
        if c.seqIn != c.lastAckOut {
          counters := counters.(lastAckOut := c.seqIn);
        }
      }
    }

    /** At least one frame goes out, also for empty data. */
    method AppendTcp(data: seq<byte>, incoming: bool, f: Flags) returns (frames: seq<Frame>)
      modifies this
      ensures (frames, counters) == Segments(old(counters), maxDataSize, incoming, f, data)
    {
      var size := FirstCut(maxDataSize, data);
      var written := 0;
      var first := true;
      frames := [];
      ghost var whole := Segments(counters, maxDataSize, incoming, f, data);
      assert data[0..] == data && [] + whole.0 == whole.0;
      assert Midway(whole, frames, counters, incoming, f, data, written, size, first);
      hide Emitted, Midway;
      while first || written < |data|
        invariant written + size <= |data| && (size == 0 ==> written == |data|)
        invariant Midway(whole, frames, counters, incoming, f, data, written, size, first)
        decreases |data| - written, first
      {
        NextIsMidway(whole, frames, counters, incoming, f, data, written, size, first);
        var frame := AppendHeader(incoming, f, data[written..written + size]);
        frames := frames + [frame];
        written := written + size;
        size := Least(size, |data| - written);
        first := false;
      }
      DoneIsWhole(whole, frames, counters, incoming, f, data, written, size);
    }
  }

  /** The frames so far, and what the loop will still add to them, make up the whole. */
  predicate Midway(whole: (seq<Frame>, Counters), frames: seq<Frame>, c: Counters, incoming: bool, f: Flags,
                   data: seq<byte>, written: nat, size: nat, first: bool)
    requires written + size <= |data| && (size == 0 ==> written == |data|)
  {
    whole == if first || written < |data| then Joined(frames, Cut(c, incoming, f, data[written..], size))
             else (frames, c)
  }

  lemma NextIsMidway(whole: (seq<Frame>, Counters), frames: seq<Frame>, c: Counters, incoming: bool, f: Flags,
                     data: seq<byte>, written: nat, size: nat, first: bool)
    requires written + size <= |data| && (size == 0 ==> written == |data|)
    requires Midway(whole, frames, c, incoming, f, data, written, size, first) && (first || written < |data|)
    ensures var (frame, next) := Emitted(c, incoming, f, data[written..written + size]);
            Midway(whole, frames + [frame], next, incoming, f, data, written + size,
                   Least(size, |data| - (written + size)), false)
  {
    var rest := data[written..];
    assert data[written..written + size] == rest[..size] && data[written + size..] == rest[size..];
    hide Emitted, Cut;
    NextCut(frames, c, incoming, f, rest, size);
  }

  lemma DoneIsWhole(whole: (seq<Frame>, Counters), frames: seq<Frame>, c: Counters, incoming: bool, f: Flags,
                    data: seq<byte>, written: nat, size: nat)
    requires written + size <= |data| && (size == 0 ==> written == |data|)
    requires Midway(whole, frames, c, incoming, f, data, written, size, false) && written >= |data|
    ensures whole == (frames, c)
  {
  }

  function Joined(frames: seq<Frame>, more: (seq<Frame>, Counters)): (seq<Frame>, Counters) {
    (frames + more.0, more.1)
  }

  lemma NextCut(frames: seq<Frame>, c: Counters, incoming: bool, f: Flags, rest: seq<byte>, size: nat)
    requires size <= |rest| && (size == 0 ==> rest == [])
    ensures var (frame, next) := Emitted(c, incoming, f, rest[..size]);
            Joined(frames, Cut(c, incoming, f, rest, size))
            == if size == |rest| then (frames + [frame], next)
               else Joined(frames + [frame], Cut(next, incoming, f, rest[size..], Least(size, |rest| - size)))
  {
    hide Emitted;
    var (frame, next) := Emitted(c, incoming, f, rest[..size]);
    if size < |rest| {
      var (more, last) := Cut(next, incoming, f, rest[size..], Least(size, |rest| - size));
      assert frames + ([frame] + more) == frames + [frame] + more;
    }
  }

  // ----- What a cut keeps -----

  function Payloads(frames: seq<Frame>): seq<byte> {
    if frames == [] then [] else frames[0].payload + Payloads(frames[1..])
  }

  /** The next sequence number of one direction. */
  function SeqOf(c: Counters, incoming: bool): u32 {
    if incoming then c.seqIn else c.seqOut
  }

  /** The payloads concatenate to the data, all frames go one way, and all but the last are
      of full size. */
  lemma {:induction false} CutIsFaithful(c: Counters, incoming: bool, f: Flags, data: seq<byte>, size: nat, k: nat)
    requires size <= |data| && (size == 0 ==> data == [])
    requires k < |Cut(c, incoming, f, data, size).0|
    ensures var frames := Cut(c, incoming, f, data, size).0;
            && Payloads(frames) == data
            && |frames[k].payload| <= size && frames[k].incoming == incoming
            && (k + 1 < |frames| ==> |frames[k].payload| == size)
            && (data == [] ==> |frames| == 1)
    decreases |data|
  {
    var (frame, next) := Emitted(c, incoming, f, data[..size]);
    assert frame.payload == data[..size] && frame.incoming == incoming;
    hide Emitted;
    var rest := data[size..];
    var frames := Cut(c, incoming, f, data, size).0;
    assert data == data[..size] + rest;
    if rest == [] {
      assert frames[1..] == [] && data[..size] == data;
    } else {
      var n := Least(size, |rest|);
      assert frames[1..] == Cut(next, incoming, f, rest, n).0;
      CutIsFaithful(next, incoming, f, rest, n, if k > 0 then k - 1 else 0);
    }
  }

  /** Without SYN and FIN, each frame's number counts the payload before it, and the counter
      of the direction moves by all of it; the other one stays. */
  lemma {:induction false} CutCounts(c: Counters, incoming: bool, f: Flags, data: seq<byte>, size: nat, k: nat)
    requires size <= |data| && (size == 0 ==> data == []) && !f.syn && !f.fin
    requires k < |Cut(c, incoming, f, data, size).0|
    ensures var (frames, last) := Cut(c, incoming, f, data, size);
            && frames[k].seqNo == Plus(SeqOf(c, incoming), |Payloads(frames[..k])|)
            && SeqOf(last, incoming) == Plus(SeqOf(c, incoming), |data|)
            && SeqOf(last, !incoming) == SeqOf(c, !incoming)
    decreases |data|
  {
    var (frame, next) := Emitted(c, incoming, f, data[..size]);
    var s0 := SeqOf(c, incoming);
    assert frame.payload == data[..size] && frame.seqNo == s0;
    assert SeqOf(next, incoming) == Plus(s0, size) && SeqOf(next, !incoming) == SeqOf(c, !incoming);
    hide Emitted, Plus, SeqOf;
    var rest := data[size..];
    PlusAdds(s0, size, |rest|);
    if rest != [] {
      var n := Least(size, |rest|);
      var frames, more := Cut(c, incoming, f, data, size).0, Cut(next, incoming, f, rest, n).0;
      CutCounts(next, incoming, f, rest, n, if k > 0 then k - 1 else 0);
      if k > 0 {
        assert frames[..k][0] == frame && frames[..k][1..] == more[..k - 1];
        PlusAdds(s0, size, |Payloads(more[..k - 1])|);
      }
    }
  }

  /** For any data, any limit and flags without SYN or FIN: the payloads concatenate to the
      data, none exceeds a positive limit, empty data makes exactly one frame, and each
      frame's sequence number counts the payload before it. */
  lemma SegmentationIsFaithful(c: Counters, limit: int, incoming: bool, f: Flags, data: seq<byte>, k: nat)
    requires !f.syn && !f.fin && k < |Segments(c, limit, incoming, f, data).0|
    ensures var (frames, last) := Segments(c, limit, incoming, f, data);
            && Payloads(frames) == data
            && (limit > 0 ==> |frames[k].payload| <= limit)
            && (limit <= 0 || data == [] ==> |frames| == 1)
            && frames[k].seqNo == (SeqOf(c, incoming) + |Payloads(frames[..k])|) % U32
            && SeqOf(last, incoming) == (SeqOf(c, incoming) + |data|) % U32
  {
    CutIsFaithful(c, incoming, f, data, FirstCut(limit, data), k);
    CutCounts(c, incoming, f, data, FirstCut(limit, data), k);
    if limit <= 0 {
      assert data[|data|..] == [];
    }
  }

  /** What a direction acknowledged last, and its next IP identification. */
  function AckOf(c: Counters, incoming: bool): u32 {
    if incoming then c.lastAckIn else c.lastAckOut
  }

  function IdOf(c: Counters, incoming: bool): u16 {
    if incoming then c.idIn else c.idOut
  }

  /** The fields of frame k: asked-for flags, the other direction's number, a running
      identification; and the ACK bit when asked for, on plain data, or on the first FIN frame
      while there is something new to acknowledge. */
  predicate HasFields(g: Frame, c: Counters, incoming: bool, f: Flags, k: nat) {
    && g.incoming == incoming && g.syn == f.syn && g.fin == f.fin
    && g.ackNo == SeqOf(c, !incoming) && g.id == (IdOf(c, incoming) + k) % U16
    && (g.ack <==> f.ack || (!f.syn && (!f.fin || (k == 0 && SeqOf(c, !incoming) != AckOf(c, incoming)))))
  }

  /** What n frames of one direction leave behind in the counters, besides its number. */
  predicate Remembered(c: Counters, d: Counters, incoming: bool, n: nat) {
    && SeqOf(d, !incoming) == SeqOf(c, !incoming) == AckOf(d, incoming)
    && AckOf(d, !incoming) == AckOf(c, !incoming) && IdOf(d, !incoming) == IdOf(c, !incoming)
    && IdOf(d, incoming) == (IdOf(c, incoming) + n) % U16
  }

  lemma EmittedFields(c: Counters, incoming: bool, f: Flags, payload: seq<byte>)
    ensures var (frame, next) := Emitted(c, incoming, f, payload);
            HasFields(frame, c, incoming, f, 0) && Remembered(c, next, incoming, 1)
  {
  }

  lemma IdsGoOn(id: u16, m: nat, n: nat)
    ensures ((id + m) % U16 + n) % U16 == (id + (m + n)) % U16
  {
  }

  lemma LaterFields(g: Frame, c: Counters, next: Counters, incoming: bool, f: Flags, k: nat)
    requires Remembered(c, next, incoming, 1) && HasFields(g, next, incoming, f, k)
    ensures HasFields(g, c, incoming, f, k + 1)
  {
    IdsGoOn(IdOf(c, incoming), 1, k);
    hide SeqOf, AckOf, IdOf;
  }

  lemma LaterRemembered(c: Counters, next: Counters, last: Counters, incoming: bool, n: nat)
    requires Remembered(c, next, incoming, 1) && Remembered(next, last, incoming, n)
    ensures Remembered(c, last, incoming, n + 1)
  {
    IdsGoOn(IdOf(c, incoming), 1, n);
    hide SeqOf, AckOf, IdOf;
  }

  lemma {:induction false} CutFields(c: Counters, incoming: bool, f: Flags, data: seq<byte>, size: nat, k: nat)
    requires size <= |data| && (size == 0 ==> data == [])
    requires k < |Cut(c, incoming, f, data, size).0|
    ensures var (frames, last) := Cut(c, incoming, f, data, size);
            HasFields(frames[k], c, incoming, f, k) && Remembered(c, last, incoming, |frames|)
    decreases |data|
  {
    var (frame, next) := Emitted(c, incoming, f, data[..size]);
    EmittedFields(c, incoming, f, data[..size]);
    hide Emitted, HasFields, Remembered;
    var rest := data[size..];
    if rest != [] {
      var j := if k > 0 then k - 1 else 0;
      var (more, last) := Cut(next, incoming, f, rest, Least(size, |rest|));
      CutFields(next, incoming, f, rest, Least(size, |rest|), j);
      LaterFields(more[j], c, next, incoming, f, j);
      LaterRemembered(c, next, last, incoming, |more|);
    }
  }

  /** For any data, any limit and any flags. */
  lemma FrameFields(c: Counters, limit: int, incoming: bool, f: Flags, data: seq<byte>, k: nat)
    requires k < |Segments(c, limit, incoming, f, data).0|
    ensures var (frames, last) := Segments(c, limit, incoming, f, data);
            HasFields(frames[k], c, incoming, f, k) && Remembered(c, last, incoming, |frames|)
  {
    CutFields(c, incoming, f, data, FirstCut(limit, data), k);
    hide HasFields, Remembered, Cut;
  }

  /** The piece of the data that starts at k times the limit. */
  function PieceAt(data: seq<byte>, limit: nat, k: nat): seq<byte>
    requires k * limit <= |data|
  {
    data[k * limit..if (k + 1) * limit < |data| then (k + 1) * limit else |data|]
  }

  function PiecesIn(n: nat, limit: nat): nat
    requires limit > 0
  {
    (n + limit - 1) / limit
  }

  lemma {:induction false} CutIsFull(c: Counters, incoming: bool, f: Flags, data: seq<byte>, limit: nat, k: nat)
    requires data != [] && limit > 0
    requires k < |Cut(c, incoming, f, data, Least(limit, |data|)).0|
    ensures var frames := Cut(c, incoming, f, data, Least(limit, |data|)).0;
            && |frames| == PiecesIn(|data|, limit)
            && k * limit < |data| && frames[k].payload == PieceAt(data, limit, k)
    decreases |data|
  {
    var size := Least(limit, |data|);
    var (frame, next) := Emitted(c, incoming, f, data[..size]);
    assert frame.payload == data[..size];
    FirstPiece(data, limit);
    PieceCount(|data|, limit);
    hide Emitted, PieceAt, PiecesIn;
    var rest := data[size..];
    if rest != [] {
      CutIsFull(next, incoming, f, rest, limit, if k > 0 then k - 1 else 0);
      if k > 0 {
        PieceOfTheRest(data, limit, k);
      }
    }
  }

  lemma FirstPiece(data: seq<byte>, limit: nat)
    ensures 0 * limit <= |data| && PieceAt(data, limit, 0) == data[..Least(limit, |data|)]
  {
  }

  lemma Times(a: int, b: int, d: nat)
    requires a <= b
    ensures a * d <= b * d
  {
    assert b * d == a * d + (b - a) * d;
    assert (b - a) * d >= 0;
  }

  lemma Quotient(n: nat, d: nat, q: int)
    requires d > 0 && q * d <= n < q * d + d
    ensures n / d == q
  {
    var p := n / d;
    assert p * d <= n < p * d + d;
    if p < q {
      Times(p + 1, q, d);
    } else if p > q {
      Times(q + 1, p, d);
    }
  }

  /** How many pieces there are, one more for each further limit. */
  lemma PieceCount(n: nat, limit: nat)
    requires n > 0 && limit > 0
    ensures PiecesIn(n, limit) == if n <= limit then 1 else PiecesIn(n - limit, limit) + 1
  {
    if n <= limit {
      Quotient(n + limit - 1, limit, 1);
    } else {
      var q := (n - 1) / limit;
      assert q * limit <= n - 1 < q * limit + limit;
      assert (q + 1) * limit == q * limit + limit;
      Quotient(n + limit - 1, limit, q + 1);
    }
  }

  lemma PieceOfTheRest(data: seq<byte>, limit: nat, k: nat)
    requires k > 0 && limit < |data| && (k - 1) * limit < |data| - limit
    ensures k * limit < |data| && PieceAt(data[limit..], limit, k - 1) == PieceAt(data, limit, k)
  {
    var at: nat := (k - 1) * limit;
    assert k * limit == at + limit && (k + 1) * limit == at + limit + limit && (k - 1 + 1) * limit == at + limit;
    RestOfRest(data, limit, at);
  }

  lemma RestOfRest(data: seq<byte>, limit: nat, at: nat)
    requires limit <= |data| && at <= |data| - limit
    ensures var rest, end := data[limit..], at + limit;
            rest[at..if end < |rest| then end else |rest|]
            == data[end..if end + limit < |data| then end + limit else |data|]
  {
    var rest := data[limit..];
    var to := if at + limit < |rest| then at + limit else |rest|;
    var x, y := rest[at..to], data[at + limit..to + limit];
    assert |x| == |y| && forall i :: 0 <= i < |x| ==> x[i] == y[i];
  }

  /** For any flags: with a positive limit every frame but the last carries exactly that much,
      so there are no more frames than needed; without one there is a single frame. */
  lemma FramesAreFull(c: Counters, limit: int, incoming: bool, f: Flags, data: seq<byte>, k: nat)
    requires k < |Segments(c, limit, incoming, f, data).0|
    ensures var frames := Segments(c, limit, incoming, f, data).0;
            if limit <= 0 || data == [] then |frames| == 1 && frames[0].payload == data
            else && |frames| == (|data| + limit - 1) / limit
                 && k * limit < |data| && frames[k].payload == PieceAt(data, limit, k)
                 && (k < |frames| - 1 ==> |frames[k].payload| == limit)
  {
    hide Cut, PieceAt;
    if limit <= 0 || data == [] {
      OnlyFrame(c, incoming, f, data);
    } else {
      CutIsFull(c, incoming, f, data, limit, k);
      if k < (|data| + limit - 1) / limit - 1 {
        WholePiece(data, limit, k);
      }
    }
  }

  lemma OnlyFrame(c: Counters, incoming: bool, f: Flags, data: seq<byte>)
    ensures var frames := Cut(c, incoming, f, data, |data|).0; |frames| == 1 && frames[0].payload == data
  {
    assert data[..|data|] == data && data[|data|..] == [];
  }

  lemma WholePiece(data: seq<byte>, limit: nat, k: nat)
    requires limit > 0 && k < (|data| + limit - 1) / limit - 1
    ensures (k + 1) * limit <= |data| && k * limit <= |data| && |PieceAt(data, limit, k)| == limit
  {
    var n := |data| + limit - 1;
    var q := n / limit;
    assert q * limit <= n;
    Times(k + 2, q, limit);
    assert (k + 2) * limit == k * limit + limit + limit && (k + 1) * limit == k * limit + limit;
  }

  // ----- Following a conversation -----

  /** How far a frame moves its direction, by section 3.4 of RFC 9293. */
  function Advance(f: Frame): nat {
    |f.payload| + (if f.syn then 1 else 0) + (if f.fin then 1 else 0)
  }

  /** Every frame continues its direction, and acknowledges the other one up to date. */
  predicate Follows(frames: seq<Frame>, nextIn: u32, nextOut: u32)
    decreases |frames|
  {
    frames == [] ||
    var f := frames[0];
    if f.incoming then
      f.seqNo == nextIn && f.ackNo == nextOut && Follows(frames[1..], Plus(nextIn, Advance(f)), nextOut)
    else
      f.seqNo == nextOut && f.ackNo == nextIn && Follows(frames[1..], nextIn, Plus(nextOut, Advance(f)))
  }

  /** The number a direction has reached behind the frames. */
  function Reached(frames: seq<Frame>, incoming: bool, next: u32): u32 {
    if frames == [] then next
    else Reached(frames[1..], incoming, if frames[0].incoming == incoming then Plus(next, Advance(frames[0])) else next)
  }

  /** A receiver that takes a frame of its direction only when it starts at the next expected
      number, and drops it otherwise. */
  function Reassembled(frames: seq<Frame>, incoming: bool, next: u32): seq<byte> {
    if frames == [] then []
    else if frames[0].incoming == incoming && frames[0].seqNo == next then
      frames[0].payload + Reassembled(frames[1..], incoming, Plus(next, Advance(frames[0])))
    else Reassembled(frames[1..], incoming, next)
  }

  /** All payloads of one direction. */
  function Sent(frames: seq<Frame>, incoming: bool): seq<byte> {
    if frames == [] then []
    else (if frames[0].incoming == incoming then frames[0].payload else []) + Sent(frames[1..], incoming)
  }

  /** The receiver of a conversation that follows drops nothing. */
  lemma {:induction false} NothingIsDropped(frames: seq<Frame>, nextIn: u32, nextOut: u32)
    requires Follows(frames, nextIn, nextOut)
    ensures Reassembled(frames, true, nextIn) == Sent(frames, true)
    ensures Reassembled(frames, false, nextOut) == Sent(frames, false)
  {
    if frames != [] {
      var f := frames[0];
      NothingIsDropped(frames[1..], if f.incoming then Plus(nextIn, Advance(f)) else nextIn,
                       if f.incoming then nextOut else Plus(nextOut, Advance(f)));
    }
  }

  lemma {:induction false} FollowsOn(a: seq<Frame>, b: seq<Frame>, nextIn: u32, nextOut: u32)
    requires Follows(a, nextIn, nextOut)
    requires Follows(b, Reached(a, true, nextIn), Reached(a, false, nextOut))
    ensures Follows(a + b, nextIn, nextOut)
    ensures Reached(a + b, true, nextIn) == Reached(b, true, Reached(a, true, nextIn))
    ensures Reached(a + b, false, nextOut) == Reached(b, false, Reached(a, false, nextOut))
  {
    if a == [] {
      assert a + b == b;
    } else {
      assert (a + b)[0] == a[0] && (a + b)[1..] == a[1..] + b;
      var f := a[0];
      FollowsOn(a[1..], b, if f.incoming then Plus(nextIn, Advance(f)) else nextIn,
                if f.incoming then nextOut else Plus(nextOut, Advance(f)));
    }
  }

  lemma {:induction false} SentJoins(a: seq<Frame>, b: seq<Frame>, incoming: bool)
    ensures Sent(a + b, incoming) == Sent(a, incoming) + Sent(b, incoming)
  {
    if a == [] {
      assert a + b == b;
    } else {
      assert (a + b)[0] == a[0] && (a + b)[1..] == a[1..] + b;
      SentJoins(a[1..], b, incoming);
      var first := if a[0].incoming == incoming then a[0].payload else [];
      assert first + (Sent(a[1..], incoming) + Sent(b, incoming)) == first + Sent(a[1..], incoming) + Sent(b, incoming);
    }
  }

  // ----- Pieces of a conversation -----

  /** Frames that bring the counters from one state to another, and carry some bytes. */
  predicate Piece(frames: seq<Frame>, c: Counters, d: Counters, toLeft: seq<byte>, toRight: seq<byte>) {
    && Follows(frames, c.seqIn, c.seqOut)
    && Reached(frames, true, c.seqIn) == d.seqIn && Reached(frames, false, c.seqOut) == d.seqOut
    && Sent(frames, true) == toLeft && Sent(frames, false) == toRight
  }

  lemma PiecesJoin(a: seq<Frame>, b: seq<Frame>, c: Counters, d: Counters, e: Counters,
                   l1: seq<byte>, r1: seq<byte>, l2: seq<byte>, r2: seq<byte>)
    requires Piece(a, c, d, l1, r1) && Piece(b, d, e, l2, r2)
    ensures Piece(a + b, c, e, l1 + l2, r1 + r2)
  {
    FollowsOn(a, b, c.seqIn, c.seqOut);
    SentJoins(a, b, true);
    SentJoins(a, b, false);
  }

  /** A frame with payload, or a SYN or FIN without. */
  lemma FrameIsAPiece(c: Counters, incoming: bool, f: Flags, payload: seq<byte>)
    requires (f.syn || f.fin) ==> payload == [] && !(f.syn && f.fin)
    ensures var (frame, next) := Emitted(c, incoming, f, payload);
            Piece([frame], c, next, if incoming then payload else [], if incoming then [] else payload)
  {
    var (frame, next) := Emitted(c, incoming, f, payload);
    assert [frame][1..] == [];
    assert payload + [] == payload;
  }

  lemma {:induction false} CutIsAPiece(c: Counters, incoming: bool, f: Flags, data: seq<byte>, size: nat)
    requires size <= |data| && (size == 0 ==> data == [])
    requires (f.syn || f.fin) ==> data == [] && !(f.syn && f.fin)
    ensures var (frames, last) := Cut(c, incoming, f, data, size);
            Piece(frames, c, last, if incoming then data else [], if incoming then [] else data)
    decreases |data|
  {
    var (frame, next) := Emitted(c, incoming, f, data[..size]);
    var rest := data[size..];
    FrameIsAPiece(c, incoming, f, data[..size]);
    hide Piece, Emitted;
    assert data == data[..size] + rest;
    if rest == [] {
      assert data[..size] == data;
    } else {
      var (more, last) := Cut(next, incoming, f, rest, Least(size, |rest|));
      CutIsAPiece(next, incoming, f, rest, Least(size, |rest|));
      var a, b, none: seq<byte> := data[..size], rest, [];
      PiecesJoin([frame], more, c, next, last, if incoming then a else [], if incoming then [] else a,
                 if incoming then b else [], if incoming then [] else b);
      assert none + none == none;
    }
  }
}
