// What a reader of a capture file learns of the session: which side said what in how many
// frames, at what time, and with which comments.
module CaptureJournal {
  import opened Bytes
  import opened Common
  import opened TcpSegments
  import opened PcapLog
  import Packets
  import PcapNg

  datatype Line = Line(
    right: bool, syn: bool, fin: bool, payload: seq<byte>, comments: seq<seq<byte>>, time: Time)

  // ----- Reading -----

  function LineIn(block: seq<byte>): Option<Line> {
    match PcapNg.Captured(block)
    case None => None
    case Some(p) =>
      match Packets.Dissected(p)
      case None => None
      case Some(f) =>
        match PcapNg.OptionPart(block)
        case None => None
        case Some(o) =>
          match PcapNg.CommentList(o)
          case None => None
          case Some(comments) =>
            var (high, low) := PcapNg.Stamp(block);
            Some(Line(f.incoming, f.syn, f.fin, f.payload, comments, Time(high, low)))
  }

  /** The lines of the packet blocks among some blocks. */
  function LinesIn(pieces: seq<seq<byte>>): Option<seq<Line>> {
    if pieces == [] then Some([])
    else if PcapNg.Captured(pieces[0]).None? then LinesIn(pieces[1..])
    else
      match (LineIn(pieces[0]), LinesIn(pieces[1..]))
      case (Some(l), Some(others)) => Some([l] + others)
      case _ => None
  }

  function ReadLines(file: seq<byte>): Option<seq<Line>> {
    match PcapNg.Walked(file)
    case None => None
    case Some(pieces) => LinesIn(pieces)
  }

  // ----- What the session was -----

  /** Data cut into pieces of the limit, the last one of what is left; a limit of zero or less
      is none. */
  function CutUp(limit: int, data: seq<byte>): seq<seq<byte>> {
    if limit <= 0 || |data| <= limit then [data] else [data[..limit]] + CutUp(limit, data[limit..])
  }

  function Lines(right: bool, syn: bool, fin: bool, pieces: seq<seq<byte>>, comments: seq<seq<byte>>, t: Time): seq<Line> {
    if pieces == [] then []
    else [Line(right, syn, fin, pieces[0], comments, t)] + Lines(right, syn, fin, pieces[1..], comments, t)
  }

  /** SYN of the client, SYN of the server, and a frame of the client with neither. */
  function Opening(t: Time): seq<Line> {
    [Line(false, true, false, [], [], t), Line(true, true, false, [], [], t), Line(false, false, false, [], [], t)]
  }

  function Ending(comments: seq<seq<byte>>, t: Time): seq<Line> {
    [Line(false, false, true, [], comments, t), Line(true, false, true, [], comments, t)]
  }

  function Note(text: seq<byte>): seq<seq<byte>> {
    if text == [] then [] else [text]
  }

  /** The comments since the last write, run together. */
  function Pending(ops: seq<Op>): seq<byte>
    decreases |ops|
  {
    if ops == [] then []
    else
      var n := |ops| - 1;
      match ops[n]
      case Write(_, _, _) => []
      case Comment(text) => Pending(ops[..n]) + text
  }

  /** The handshake at the time of the first write; then the pieces of every write in their
      order, each with the time of the write and the comments that came before it. */
  function Journal(limit: int, ops: seq<Op>): seq<Line>
    decreases |ops|
  {
    if ops == [] then []
    else
      var n := |ops| - 1;
      var before := Journal(limit, ops[..n]);
      match ops[n]
      case Comment(_) => before
      case Write(right, data, t) =>
        before + (if before == [] then Opening(t) else [])
        + Lines(right, false, false, CutUp(limit, data), Note(Pending(ops[..n])), t)
  }

  /** A session that was written to ends with a FIN of each side. */
  function Told(limit: int, ops: seq<Op>, closing: Time): seq<Line> {
    var before := Journal(limit, ops);
    before + if before == [] then [] else Ending(Note(Pending(ops)), closing)
  }

  // ----- From blocks to lines -----

  predicate Dissectable(blocks: seq<PcapNg.Block>) {
    forall i :: 0 <= i < |blocks| && blocks[i].Packet? ==> Packets.Dissected(blocks[i].data).Some?
  }

  function LineOf(b: PcapNg.Block): Line
    requires b.Packet? && Packets.Dissected(b.data).Some?
  {
    var f := Packets.Dissected(b.data).value;
    Line(f.incoming, f.syn, f.fin, f.payload, PcapNg.Spoken(b.comments), Time(b.high, b.low))
  }

  function Held(blocks: seq<PcapNg.Block>): seq<Line>
    requires Dissectable(blocks)
  {
    if blocks == [] then []
    else (if blocks[0].Packet? then [LineOf(blocks[0])] else []) + Held(blocks[1..])
  }

  predicate Short(lines: seq<Line>) {
    forall i :: 0 <= i < |lines| ==> PcapNg.AllShort(lines[i].comments)
  }

  lemma ShortJoins(a: seq<Line>, b: seq<Line>)
    ensures Short(a + b) <==> Short(a) && Short(b)
  {
    var both := a + b;
    assert forall i :: 0 <= i < |a| ==> a[i] == both[i];
    assert forall i :: 0 <= i < |b| ==> b[i] == both[|a| + i];
    hide PcapNg.AllShort;
  }

  lemma {:induction false} SpokenAreShort(comments: seq<seq<byte>>)
    ensures PcapNg.AllShort(PcapNg.Spoken(comments)) <==> PcapNg.AllShort(comments)
  {
    if comments != [] {
      var c, others := comments[0], comments[1..];
      SpokenAreShort(others);
      assert comments == [c] + others;
      PcapNg.ShortOnes(c, others);
      PcapNg.ShortOnes(c, PcapNg.Spoken(others));
      assert [] + PcapNg.Spoken(others) == PcapNg.Spoken(others);
    }
  }

  lemma LineIsReadIff(b: PcapNg.Block)
    requires b.Packet? && PcapNg.Declared(b) < U32 && Packets.Dissected(b.data).Some?
    ensures PcapNg.Captured(PcapNg.Emitted(b)).Some?
    ensures LineIn(PcapNg.Emitted(b)) == Some(LineOf(b)) <==> PcapNg.AllShort(LineOf(b).comments)
  {
    PcapNg.CapturedIsRead(b);
    PcapNg.PacketPartsAreRead(b);
    PcapNg.CommentsAreReadIff(b);
    SpokenAreShort(b.comments);
    hide PcapNg.Emitted, PcapNg.Declared, PcapNg.Captured, PcapNg.OptionPart, PcapNg.OptionsBytes, PcapNg.CommentList,
         PcapNg.Stamp, PcapNg.AllShort, PcapNg.Spoken, Packets.Dissected;
  }

  lemma {:induction false} LinesAreReadIff(blocks: seq<PcapNg.Block>)
    requires Dissectable(blocks) && PcapNg.AllHonest(blocks)
    ensures LinesIn(PcapNg.Pieces(blocks)) == Some(Held(blocks)) <==> Short(Held(blocks))
  {
    if blocks != [] {
      var b, e, pieces := blocks[0], PcapNg.Emitted(blocks[0]), PcapNg.Pieces(blocks[1..]);
      LinesAreReadIff(blocks[1..]);
      var others := Held(blocks[1..]);
      assert ([e] + pieces)[0] == e && ([e] + pieces)[1..] == pieces;
      PcapNg.CapturedIsRead(b);
      hide PcapNg.Emitted, PcapNg.Declared, PcapNg.Captured, PcapNg.AllShort, Packets.Dissected, LineIn, LineOf, Short;
      if b.Packet? {
        LineIsReadIff(b);
        ShortJoins([LineOf(b)], others);
        OneIsShort(LineOf(b));
        FirstLineIff(e, pieces, LineOf(b), others);
      } else {
        assert [] + others == others;
      }
    }
  }

  lemma OneIsShort(l: Line)
    ensures Short([l]) <==> PcapNg.AllShort(l.comments)
  {
    assert [l][0] == l;
    hide PcapNg.AllShort;
  }

  lemma FirstLineIff(e: seq<byte>, pieces: seq<seq<byte>>, l: Line, others: seq<Line>)
    requires PcapNg.Captured(e).Some?
    ensures LinesIn([e] + pieces) == Some([l] + others) <==> LineIn(e) == Some(l) && LinesIn(pieces) == Some(others)
  {
    assert ([e] + pieces)[0] == e && ([e] + pieces)[1..] == pieces;
    hide LineIn, PcapNg.Captured;
    if LineIn(e).Some? && LinesIn(pieces).Some? {
      PcapNg.SameLists(LineIn(e).value, LinesIn(pieces).value, l, others);
    }
  }

  // ----- The session in the blocks -----

  /** The blocks hold these lines. */
  predicate Tells(blocks: seq<PcapNg.Block>, lines: seq<Line>) {
    Dissectable(blocks) && Held(blocks) == lines
  }

  lemma {:induction false} TalesJoin(a: seq<PcapNg.Block>, b: seq<PcapNg.Block>, l: seq<Line>, m: seq<Line>)
    requires Tells(a, l) && Tells(b, m)
    ensures Tells(a + b, l + m)
  {
    hide Packets.Dissected;
    if a == [] {
      assert a + b == b && l + m == m;
    } else {
      assert (a + b)[0] == a[0] && (a + b)[1..] == a[1..] + b;
      var first, rest := if a[0].Packet? then [LineOf(a[0])] else [], Held(a[1..]);
      TalesJoin(a[1..], b, rest, m);
      hide LineOf;
      assert first + (rest + m) == first + rest + m;
    }
  }

  function FrameLines(frames: seq<Frame>, comments: seq<seq<byte>>, t: Time): seq<Line> {
    if frames == [] then []
    else
      var f := frames[0];
      [Line(f.incoming, f.syn, f.fin, f.payload, comments, t)] + FrameLines(frames[1..], comments, t)
  }

  lemma {:induction false} BlocksTell(cn: Packets.Connection, frames: seq<Frame>, text: seq<byte>, t: Time)
    requires Packets.Valid(cn)
    ensures Tells(BlocksOf(cn, frames, Note(text), t), FrameLines(frames, Note(text), t))
  {
    if frames != [] {
      var b := PcapNg.Packet(Packets.Packet(cn, frames[0]), Note(text), t.high, t.low);
      var f := frames[0];
      BlocksTell(cn, frames[1..], text, t);
      OneTells(cn, f, text, t);
      var others, lines := BlocksOf(cn, frames[1..], Note(text), t), FrameLines(frames[1..], Note(text), t);
      hide Packets.Packet, Tells;
      TalesJoin([b], others, [Line(f.incoming, f.syn, f.fin, f.payload, Note(text), t)], lines);
    }
  }

  lemma OneTells(cn: Packets.Connection, f: Frame, text: seq<byte>, t: Time)
    requires Packets.Valid(cn)
    ensures Tells([PcapNg.Packet(Packets.Packet(cn, f), Note(text), t.high, t.low)],
                  [Line(f.incoming, f.syn, f.fin, f.payload, Note(text), t)])
  {
    var b := PcapNg.Packet(Packets.Packet(cn, f), Note(text), t.high, t.low);
    Packets.PacketIsDissected(cn, f);
    NotesAreSpoken(text);
    hide Packets.Packet, Packets.Dissected, PcapNg.Spoken, Note;
    assert [b][1..] == [];
    assert Held([b]) == [LineOf(b)] + [];
  }

  lemma NotesAreSpoken(text: seq<byte>)
    ensures PcapNg.Spoken(Note(text)) == Note(text)
  {
    assert text != [] ==> [text][1..] == [];
  }

  lemma {:induction false} CutLines(c: Counters, limit: int, right: bool, f: Flags, data: seq<byte>, comments: seq<seq<byte>>, t: Time)
    ensures FrameLines(Segments(c, limit, right, f, data).0, comments, t)
         == Lines(right, f.syn, f.fin, CutUp(limit, data), comments, t)
    decreases |data|
  {
    var size := FirstCut(limit, data);
    var (frame, next) := TcpSegments.Emitted(c, right, f, data[..size]);
    assert frame.incoming == right && frame.syn == f.syn && frame.fin == f.fin && frame.payload == data[..size];
    hide TcpSegments.Emitted;
    var rest := data[size..];
    if limit <= 0 || |data| <= limit {
      assert data[..|data|] == data && rest == [];
      assert [frame][1..] == [] && [data][1..] == [];
    } else {
      CutLines(next, limit, right, f, rest, comments, t);
      var frames, pieces := Segments(next, limit, right, f, rest).0, CutUp(limit, rest);
      assert ([frame] + frames)[1..] == frames && ([data[..size]] + pieces)[1..] == pieces;
    }
  }

  lemma AddingTells(cfg: Config, s: State, right: bool, f: Flags, data: seq<byte>, text: seq<byte>, t: Time, lines: seq<Line>)
    requires Packets.Valid(cfg.cn) && Tells(s.blocks, lines)
    ensures Tells(Added(cfg, s, right, f, data, Note(text), t).blocks,
                  lines + Lines(right, f.syn, f.fin, CutUp(cfg.limit, data), Note(text), t))
  {
    var frames := Segments(s.counters, cfg.limit, right, f, data).0;
    CutLines(s.counters, cfg.limit, right, f, data, Note(text), t);
    BlocksTell(cfg.cn, frames, text, t);
    hide Tells, Segments, BlocksOf, FrameLines, Lines;
    TalesJoin(s.blocks, BlocksOf(cfg.cn, frames, Note(text), t), lines, FrameLines(frames, Note(text), t));
  }

  lemma OneLine(limit: int, right: bool, syn: bool, fin: bool, comments: seq<seq<byte>>, t: Time)
    ensures Lines(right, syn, fin, CutUp(limit, []), comments, t) == [Line(right, syn, fin, [], comments, t)]
  {
    var nothing: seq<byte> := [];
    assert CutUp(limit, nothing) == [nothing] && [nothing][1..] == [];
  }

  lemma HeaderTells(s: State, lines: seq<Line>)
    requires Tells(s.blocks, lines)
    ensures Tells(WithHeader(s).blocks, lines)
  {
    var header := [PcapNg.Section, PcapNg.Interface];
    assert header[1..] == [PcapNg.Interface] && header[1..][1..] == [];
    assert Tells(header, []);
    TalesJoin(s.blocks, header, lines, []);
    assert lines + [] == lines;
    hide Tells;
  }

  lemma HandshakeTells(cfg: Config, s: State, t: Time, lines: seq<Line>)
    requires Packets.Valid(cfg.cn) && Tells(s.blocks, lines) && !s.started
    ensures Tells(WithHandshake(cfg, s, t).blocks, lines + Opening(t))
  {
    hide Tells, Added, CutUp, Lines;
    OneLine(cfg.limit, false, true, false, [], t);
    OneLine(cfg.limit, true, true, false, [], t);
    OneLine(cfg.limit, false, false, false, [], t);
    var o := Opening(t);
    AddingTells(cfg, s, false, SYN, [], [], t, lines);
    var a := Added(cfg, s, false, SYN, [], [], t);
    AddingTells(cfg, a, true, SYN_ACK, [], [], t, lines + [o[0]]);
    var b := Added(cfg, a, true, SYN_ACK, [], [], t);
    AddingTells(cfg, b, false, ACK, [], [], t, lines + [o[0]] + [o[1]]);
    assert lines + [o[0]] + [o[1]] + [o[2]] == lines + o;
  }

  lemma AddedKeepsComment(cfg: Config, s: State, right: bool, f: Flags, data: seq<byte>, comments: seq<seq<byte>>, t: Time)
    requires Packets.Valid(cfg.cn)
    ensures var a := Added(cfg, s, right, f, data, comments, t); a.comlog == s.comlog && a.started == s.started
  {
  }

  lemma HandshakeKeepsComment(cfg: Config, s: State, t: Time)
    requires Packets.Valid(cfg.cn)
    ensures var h := WithHandshake(cfg, s, t); h.comlog == s.comlog && h.started
  {
    if !s.started {
      AddedKeepsComment(cfg, s, false, SYN, [], [], t);
      var a := Added(cfg, s, false, SYN, [], [], t);
      AddedKeepsComment(cfg, a, true, SYN_ACK, [], [], t);
      AddedKeepsComment(cfg, Added(cfg, a, true, SYN_ACK, [], [], t), false, ACK, [], [], t);
      hide Added;
    }
  }

  lemma WriteTells(cfg: Config, s: State, right: bool, data: seq<byte>, t: Time, lines: seq<Line>)
    requires Packets.Valid(cfg.cn) && Tells(s.blocks, lines)
    ensures var w := AfterWrite(cfg, s, right, data, t);
            && w.started && w.comlog == []
            && Tells(w.blocks, lines + (if s.started then [] else Opening(t))
                               + Lines(right, false, false, CutUp(cfg.limit, data), Note(s.comlog), t))
  {
    HeaderTells(s, lines);
    var h := WithHeader(s);
    if h.started {
      assert lines + [] == lines;
    } else {
      HandshakeTells(cfg, h, t, lines);
    }
    HandshakeKeepsComment(cfg, h, t);
    var b := WithHandshake(cfg, h, t).(comlog := []);
    hide WithHandshake, Tells, Lines, Opening, CutUp;
    var l := lines + if s.started then [] else Opening(t);
    AddingTells(cfg, b, right, ACK, data, s.comlog, t, l);
    AddedKeepsComment(cfg, b, right, ACK, data, Note(s.comlog), t);
    hide Added;
  }

  lemma {:induction false} SessionTells(cfg: Config, c: Counters, ops: seq<Op>)
    requires Packets.Valid(cfg.cn)
    ensures var s := After(cfg, c, ops);
            && Tells(s.blocks, Journal(cfg.limit, ops)) && s.comlog == Pending(ops)
            && (s.started <==> Journal(cfg.limit, ops) != [])
    decreases |ops|
  {
    if ops != [] {
      var n := |ops| - 1;
      SessionTells(cfg, c, ops[..n]);
      if ops[n].Write? {
        var op := ops[n];
        WriteTells(cfg, After(cfg, c, ops[..n]), op.right, op.data, op.time, Journal(cfg.limit, ops[..n]));
        SomeLines(op.right, cfg.limit, op.data, Note(Pending(ops[..n])), op.time);
        hide Tells, AfterWrite, Lines, Opening, CutUp;
      } else {
        hide Tells, AfterWrite, Lines, Opening, CutUp;
      }
    }
  }

  lemma SomeLines(right: bool, limit: int, data: seq<byte>, comments: seq<seq<byte>>, t: Time)
    ensures var lines := Lines(right, false, false, CutUp(limit, data), comments, t);
            |lines| > 0 && (Short(lines) <==> PcapNg.AllShort(comments))
  {
    assert CutUp(limit, data) != [];
    SameComments(right, CutUp(limit, data), comments, t);
    assert Lines(right, false, false, CutUp(limit, data), comments, t)[0].comments == comments;
    hide PcapNg.AllShort, CutUp;
  }

  lemma {:induction false} SameComments(right: bool, pieces: seq<seq<byte>>, comments: seq<seq<byte>>, t: Time)
    ensures var lines := Lines(right, false, false, pieces, comments, t);
            |lines| == |pieces| && forall i :: 0 <= i < |lines| ==> lines[i].comments == comments
  {
    if pieces != [] {
      SameComments(right, pieces[1..], comments, t);
    }
  }

  lemma ClosingTells(cfg: Config, s: State, t: Time, lines: seq<Line>)
    requires Packets.Valid(cfg.cn) && Tells(s.blocks, lines)
    ensures Tells(AfterClose(cfg, s, t).blocks, lines + if s.started then Ending(Note(s.comlog), t) else [])
  {
    hide Tells, Added, CutUp, Lines;
    if s.started {
      var note := Note(s.comlog);
      OneLine(cfg.limit, false, false, true, note, t);
      OneLine(cfg.limit, true, false, true, note, t);
      var e := Ending(note, t);
      var u := s.(comlog := []);
      AddingTells(cfg, u, false, FIN_ACK, [], s.comlog, t, lines);
      var a := Added(cfg, u, false, FIN_ACK, [], note, t);
      AddingTells(cfg, a, true, FIN_ACK, [], s.comlog, t, lines + [e[0]]);
      assert lines + [e[0]] + [e[1]] == lines + e;
    } else {
      assert lines + [] == lines;
    }
  }

  // ----- The whole story -----

  /** No write comes with more than 65535 octets of comments. */
  predicate WritesNoted(ops: seq<Op>)
    decreases |ops|
  {
    if ops == [] then true
    else
      var n := |ops| - 1;
      WritesNoted(ops[..n]) && (ops[n].Write? ==> |Pending(ops[..n])| < U16)
  }

  /** Nor does the end of a session that has frames. */
  predicate CommentsFit(ops: seq<Op>) {
    WritesNoted(ops) && (WasWritten(ops) ==> |Pending(ops)| < U16)
  }

  lemma NoteIsShort(text: seq<byte>)
    ensures PcapNg.AllShort(Note(text)) <==> |text| < U16
  {
    assert text != [] ==> Note(text)[0] == text;
  }

  lemma {:induction false} JournalIsShortIff(limit: int, ops: seq<Op>)
    ensures Short(Journal(limit, ops)) <==> WritesNoted(ops)
    ensures Journal(limit, ops) != [] <==> WasWritten(ops)
    decreases |ops|
  {
    if ops != [] {
      var n, op := |ops| - 1, ops[|ops| - 1];
      JournalIsShortIff(limit, ops[..n]);
      WrittenBefore(ops);
      if op.Write? {
        MoreIsShortIff(limit, Journal(limit, ops[..n]), op.right, op.data, Pending(ops[..n]), op.time);
      }
      hide Short, Lines, CutUp, Opening, Pending, WasWritten, Note;
    }
  }

  lemma MoreIsShortIff(limit: int, before: seq<Line>, right: bool, data: seq<byte>, text: seq<byte>, t: Time)
    ensures var more := before + (if before == [] then Opening(t) else [])
                        + Lines(right, false, false, CutUp(limit, data), Note(text), t);
            more != [] && (Short(more) <==> Short(before) && |text| < U16)
  {
    NoteIsShort(text);
    SomeLines(right, limit, data, Note(text), t);
    var opening := if before == [] then Opening(t) else [];
    assert Short(opening);
    hide Short, Lines, CutUp, Opening, PcapNg.AllShort;
    ShortJoins(before, opening);
    ShortJoins(before + opening, Lines(right, false, false, CutUp(limit, data), Note(text), t));
  }

  lemma TaleIsShortIff(limit: int, ops: seq<Op>, closing: Time)
    ensures Short(Told(limit, ops, closing)) <==> CommentsFit(ops)
  {
    JournalIsShortIff(limit, ops);
    var before, e := Journal(limit, ops), Ending(Note(Pending(ops)), closing);
    NoteIsShort(Pending(ops));
    assert Short(e) <==> |Pending(ops)| < U16 by {
      assert e[0].comments == e[1].comments == Note(Pending(ops));
      hide PcapNg.AllShort, Note, Pending;
    }
    hide Short, Journal, Pending, Note, Ending, WritesNoted, WasWritten;
    ShortJoins(before, e);
    assert before + [] == before;
  }

  /** The file of a closed session tells the whole of it: what each side said and in which
      order, cut to the limit, with the times of the writes and with the comments before each
      of them, between a handshake and a FIN of each side; exactly when no frame has more
      comments than the length field of an option can count. */
  lemma SessionIsToldIff(cfg: Config, c: Counters, ops: seq<Op>, closing: Time)
    requires Packets.Valid(cfg.cn) && Small(cfg.limit, ops)
    ensures var file := PcapNg.File(AfterClose(cfg, After(cfg, c, ops), closing).blocks);
            ReadLines(file) == Some(Told(cfg.limit, ops, closing)) <==> CommentsFit(ops)
  {
    SessionIsKept(cfg, c, ops);
    SessionTells(cfg, c, ops);
    TaleIsShortIff(cfg.limit, ops, closing);
    var s := After(cfg, c, ops);
    CloseKeeps(cfg, c, s, closing, Written(ops, true), Written(ops, false));
    ClosingTells(cfg, s, closing, Journal(cfg.limit, ops));
    var e := AfterClose(cfg, s, closing);
    hide After, AfterClose, Written, Small, Short, CommentsFit, Held, Journal, Ending, Pending, Piece, PcapNg.AllHonest;
    PcapNg.WalkerVisitsEveryBlockIff(e.blocks);
    LinesAreReadIff(e.blocks);
  }
}
