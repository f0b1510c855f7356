// The capture log of one TCP session: a made-up handshake before the first data, the data of
// both sides as it passes, and the closing frames when the session ends; all of it written
// to one file that is read back at the end of this module.
module PcapLog {
  import opened Bytes
  import opened Common
  import opened TcpSegments
  import Packets
  import PcapNg

  /** The connection, and the largest payload of a frame; zero or less means no limit. */
  datatype Config = Config(cn: Packets.Connection, limit: int)

  /** What the clock said when the frames of one call were stamped. */
  datatype Time = Time(high: u32, low: u32)

  datatype State = State(
    headerWritten: bool, started: bool, counters: Counters, comlog: seq<byte>,
    blocks: seq<PcapNg.Block>, frames: seq<Frame>)

  function Start(c: Counters): State {
    State(false, false, c, [], [], [])
  }

  // ----- The calls as functions -----

  function BlocksOf(cn: Packets.Connection, frames: seq<Frame>, comments: seq<seq<byte>>, t: Time): seq<PcapNg.Block>
    requires Packets.Valid(cn)
  {
    if frames == [] then []
    else [PcapNg.Packet(Packets.Packet(cn, frames[0]), comments, t.high, t.low)]
         + BlocksOf(cn, frames[1..], comments, t)
  }

  /** Frames for some data; every frame cut from it carries the same comments. */
  function Added(cfg: Config, s: State, right: bool, f: Flags, data: seq<byte>, comments: seq<seq<byte>>, t: Time): State
    requires Packets.Valid(cfg.cn)
  {
    var (frames, c) := Segments(s.counters, cfg.limit, right, f, data);
    s.(counters := c, frames := s.frames + frames, blocks := s.blocks + BlocksOf(cfg.cn, frames, comments, t))
  }

  function WithHeader(s: State): State {
    if s.headerWritten then s
    else s.(headerWritten := true, blocks := s.blocks + [PcapNg.Section, PcapNg.Interface])
  }

  function WithHandshake(cfg: Config, s: State, t: Time): State
    requires Packets.Valid(cfg.cn)
  {
    if s.started then s
    else
      var a := Added(cfg, s, false, SYN, [], [], t);
      var b := Added(cfg, a, true, SYN_ACK, [], [], t);
      Added(cfg, b, false, ACK, [], [], t).(started := true)
  }

  function Comments(comlog: seq<byte>): seq<seq<byte>> {
    if comlog == [] then [] else [comlog]
  }

  function AfterWrite(cfg: Config, s: State, right: bool, data: seq<byte>, t: Time): State
    requires Packets.Valid(cfg.cn)
  {
    var b := WithHandshake(cfg, WithHeader(s), t);
    Added(cfg, b.(comlog := []), right, ACK, data, Comments(b.comlog), t)
  }

  /** Both closing frames come from the same block, which keeps the comment for the second. */
  function AfterClose(cfg: Config, s: State, t: Time): State
    requires Packets.Valid(cfg.cn)
  {
    if !s.started then s
    else
      var a := Added(cfg, s.(comlog := []), false, FIN_ACK, [], Comments(s.comlog), t);
      Added(cfg, a, true, FIN_ACK, [], Comments(s.comlog), t)
  }

  // ----- The log object -----

  class Log {
    const cfg: Config
    const details: TcpDetails
    var headerWritten: bool
    var tcpStartWritten: bool
    var comlog: seq<byte>
    var file: seq<byte>
    ghost var blocks: seq<PcapNg.Block>
    ghost var frames: seq<Frame>

    ghost predicate Valid()
      reads this
    {
      Packets.Valid(cfg.cn) && details.maxDataSize == cfg.limit && file == PcapNg.File(blocks)
    }

    ghost function View(): State
      reads this, details
    {
      State(headerWritten, tcpStartWritten, details.counters, comlog, blocks, frames)
    }

    constructor (cfg: Config, c: Counters)
      requires Packets.Valid(cfg.cn)
      ensures Valid() && View() == Start(c) && this.cfg == cfg && fresh(details)
    {
      this.cfg := cfg;
      details := new TcpDetails(cfg.limit, c);
      headerWritten, tcpStartWritten, comlog, file := false, false, [], [];
      blocks, frames := [], [];
    }

    method AppendBlock(b: PcapNg.Block)
      requires Valid()
      modifies this`file, this`blocks
      ensures Valid() && blocks == old(blocks) + [b]
    {
      file := PcapNg.AppendBlock(b, file);
      FileGrows(blocks, b);
      blocks := blocks + [b];
    }

    method AppendFrames(cut: seq<Frame>, comments: seq<seq<byte>>, t: Time)
      requires Valid()
      modifies this`file, this`blocks
      ensures Valid() && blocks == old(blocks) + BlocksOf(cfg.cn, cut, comments, t)
    {
      ghost var before := blocks;
      assert before + BlocksOf(cfg.cn, cut[..0], comments, t) == before;
      hide BlocksOf, Packets.Packet, PcapNg.File;
      for i := 0 to |cut|
        invariant Valid() && blocks == before + BlocksOf(cfg.cn, cut[..i], comments, t)
      {
        var packet := Packets.BuildPacket(cfg.cn, cut[i]);
        BlocksGrow(cfg.cn, cut, i, comments, t);
        var b := PcapNg.Packet(packet, comments, t.high, t.low);
        AppendBlock(b);
        Regroup(before, BlocksOf(cfg.cn, cut[..i], comments, t), [b]);
      }
      assert cut[..|cut|] == cut;
    }

    method AppendTcp(right: bool, f: Flags, data: seq<byte>, comments: seq<seq<byte>>, t: Time)
      requires Valid()
      modifies this`file, this`blocks, this`frames, details
      ensures Valid() && View() == Added(cfg, old(View()), right, f, data, comments, t)
    {
      hide Segments, BlocksOf;
      var cut := details.AppendTcp(data, right, f);
      AppendFrames(cut, comments, t);
      frames := frames + cut;
    }

    method WritePcapHeader()
      requires Valid()
      modifies this
      ensures Valid() && View() == WithHeader(old(View()))
    {
      if !headerWritten {
        AppendBlock(PcapNg.Section);
        AppendBlock(PcapNg.Interface);
        headerWritten := true;
        assert old(blocks) + [PcapNg.Section] + [PcapNg.Interface] == old(blocks) + [PcapNg.Section, PcapNg.Interface];
      }
    }

    method WriteTcpStart(t: Time)
      requires Valid() && !tcpStartWritten
      modifies this, details
      ensures Valid() && View() == WithHandshake(cfg, old(View()), t).(started := false)
    {
      hide Added;
      AppendTcp(false, SYN, [], [], t);
      AppendTcp(true, SYN_ACK, [], [], t);
      AppendTcp(false, ACK, [], [], t);
    }

    /** The comment goes with the next frames and is then forgotten. */
    method CommentFrame() returns (comments: seq<seq<byte>>)
      requires Valid()
      modifies this`comlog
      ensures Valid() && comments == Comments(old(comlog)) && comlog == []
    {
      comments := [];
      if comlog != [] {
        comments := [comlog];
        comlog := [];
      }
    }

    method Write(right: bool, data: seq<byte>, t: Time)
      requires Valid()
      modifies this, details
      ensures Valid() && View() == AfterWrite(cfg, old(View()), right, data, t)
    {
      hide Added, WithHeader;
      WritePcapHeader();
      ghost var s := View();
      if !tcpStartWritten {
        WriteTcpStart(t);
        tcpStartWritten := true;
      }
      assert View() == WithHandshake(cfg, s, t);
      hide WithHandshake;
      var comments := CommentFrame();
      AppendTcp(right, ACK, data, comments, t);
    }

    method WriteComment(text: seq<byte>)
      requires Valid()
      modifies this`comlog
      ensures Valid() && comlog == old(comlog) + text
    {
      comlog := comlog + text;
    }

    method Close(t: Time)
      requires Valid()
      modifies this, details
      ensures Valid() && View() == AfterClose(cfg, old(View()), t)
    {
      if tcpStartWritten {
        hide Added;
        var comments := CommentFrame();
        AppendTcp(false, FIN_ACK, [], comments, t);
        AppendTcp(true, FIN_ACK, [], comments, t);
      }
    }
  }

  lemma {:induction false} FileGrows(blocks: seq<PcapNg.Block>, b: PcapNg.Block)
    ensures PcapNg.File(blocks + [b]) == PcapNg.File(blocks) + PcapNg.Emitted(b)
  {
    hide PcapNg.Emitted;
    if blocks == [] {
      assert [b][1..] == [];
    } else {
      assert (blocks + [b])[0] == blocks[0] && (blocks + [b])[1..] == blocks[1..] + [b];
      FileGrows(blocks[1..], b);
      Regroup(PcapNg.Emitted(blocks[0]), PcapNg.File(blocks[1..]), PcapNg.Emitted(b));
    }
  }

  lemma {:induction false} BlocksGrow(cn: Packets.Connection, cut: seq<Frame>, i: nat, comments: seq<seq<byte>>, t: Time)
    requires Packets.Valid(cn) && i < |cut|
    ensures BlocksOf(cn, cut[..i + 1], comments, t)
         == BlocksOf(cn, cut[..i], comments, t) + [PcapNg.Packet(Packets.Packet(cn, cut[i]), comments, t.high, t.low)]
  {
    hide Packets.Packet;
    if i == 0 {
      assert cut[..1][1..] == [];
    } else {
      BlocksGrow(cn, cut[1..], i - 1, comments, t);
      assert cut[..i + 1][1..] == cut[1..][..i] && cut[..i][1..] == cut[1..][..i - 1];
    }
  }

  // ----- What the log keeps -----

  function PacketData(blocks: seq<PcapNg.Block>): seq<seq<byte>> {
    if blocks == [] then []
    else (if blocks[0].Packet? then [blocks[0].data] else []) + PacketData(blocks[1..])
  }

  function Built(cn: Packets.Connection, frames: seq<Frame>): seq<seq<byte>>
    requires Packets.Valid(cn)
  {
    if frames == [] then [] else [Packets.Packet(cn, frames[0])] + Built(cn, frames[1..])
  }

  lemma {:induction false} DataJoins(a: seq<PcapNg.Block>, b: seq<PcapNg.Block>)
    ensures PacketData(a + b) == PacketData(a) + PacketData(b)
  {
    if a == [] {
      assert a + b == b;
    } else {
      assert (a + b)[0] == a[0] && (a + b)[1..] == a[1..] + b;
      DataJoins(a[1..], b);
    }
  }

  lemma {:induction false} BuiltJoins(cn: Packets.Connection, a: seq<Frame>, b: seq<Frame>)
    requires Packets.Valid(cn)
    ensures Built(cn, a + b) == Built(cn, a) + Built(cn, b)
  {
    hide Packets.Packet;
    if a == [] {
      assert a + b == b;
    } else {
      assert (a + b)[0] == a[0] && (a + b)[1..] == a[1..] + b;
      BuiltJoins(cn, a[1..], b);
    }
  }

  /** The largest payload together with a comment for which every length field of the blocks
      is right: 32 bits less what the headers around them need. */
  const CAP: nat := 0xFFFF_FF00

  function CommentSize(comments: seq<seq<byte>>): nat {
    if comments == [] then 0 else |comments[0]|
  }

  lemma BlockIsHonest(cn: Packets.Connection, f: Frame, comments: seq<seq<byte>>, t: Time)
    requires Packets.Valid(cn) && |comments| <= 1 && |f.payload| + CommentSize(comments) <= CAP
    ensures var b := PcapNg.Packet(Packets.Packet(cn, f), comments, t.high, t.low);
            PcapNg.Honest(b) && PcapNg.Declared(b) < U32
  {
    PacketSize(cn, f);
    hide Packets.Packet;
    OneCommentIsHonest(PcapNg.Packet(Packets.Packet(cn, f), comments, t.high, t.low));
  }

  lemma PacketSize(cn: Packets.Connection, f: Frame)
    requires Packets.Valid(cn)
    ensures |Packets.Packet(cn, f)| <= |f.payload| + 0x80
  {
    hide Packets.IpHeader, Packets.TcpHeader;
  }

  /** Blocks hold their frames' packets, and are honest when they carry one comment at most. */
  lemma {:induction false} BlocksHoldFrames(cn: Packets.Connection, frames: seq<Frame>, comments: seq<seq<byte>>, t: Time, max: nat)
    requires Packets.Valid(cn) && |comments| <= 1 && max + CommentSize(comments) <= CAP
    requires forall i :: 0 <= i < |frames| ==> |frames[i].payload| <= max
    ensures PacketData(BlocksOf(cn, frames, comments, t)) == Built(cn, frames)
    ensures PcapNg.AllHonest(BlocksOf(cn, frames, comments, t))
  {
    if frames != [] {
      var b, rest := PcapNg.Packet(Packets.Packet(cn, frames[0]), comments, t.high, t.low),
                     BlocksOf(cn, frames[1..], comments, t);
      assert BlocksOf(cn, frames, comments, t) == [b] + rest;
      hide Packets.Packet, BlocksOf;
      BlocksHoldFrames(cn, frames[1..], comments, t, max);
      BlockIsHonest(cn, frames[0], comments, t);
      hide PcapNg.Honest, PcapNg.Declared, CommentSize;
      DataJoins([b], rest);
      assert [b][1..] == [] && PacketData([b]) == [b.data];
      hide PacketData;
      HonestJoin([b], rest);
    }
  }

  lemma OneCommentIsHonest(b: PcapNg.Block)
    requires b.Packet? && |b.comments| <= 1 && |b.data| + CommentSize(b.comments) <= CAP + 0x80
    ensures PcapNg.Honest(b) && PcapNg.Declared(b) < U32
  {
    PcapNg.PaddingAligns(|b.data|);
    assert PcapNg.Filled([]) == 0 && PcapNg.OptionsSize([]) == 0;
    if |b.comments| == 1 {
      assert b.comments[1..] == [];
      PcapNg.PaddingAligns(|b.comments[0]|);
      assert PcapNg.Filled(b.comments) <= 1;
      assert PcapNg.OptionsSize(b.comments) == PcapNg.OptionSize(b.comments[0]);
    } else {
      assert b.comments == [];
    }
    hide PcapNg.Padding, PcapNg.OptionsSize, PcapNg.Filled;
  }

  /** The frames make up a conversation that carried these bytes, and the blocks hold exactly
      these frames. */
  predicate Kept(cfg: Config, c: Counters, s: State, toLeft: seq<byte>, toRight: seq<byte>)
    requires Packets.Valid(cfg.cn)
  {
    && Piece(s.frames, c, s.counters, toLeft, toRight)
    && PcapNg.AllHonest(s.blocks)
    && PacketData(s.blocks) == Built(cfg.cn, s.frames)
  }

  predicate Plain(f: Flags, data: seq<byte>) {
    (f.syn || f.fin) ==> data == [] && !(f.syn && f.fin)
  }

  lemma AddingKeeps(cfg: Config, c: Counters, s: State, right: bool, f: Flags, data: seq<byte>,
                    comments: seq<seq<byte>>, t: Time, toLeft: seq<byte>, toRight: seq<byte>)
    requires Packets.Valid(cfg.cn) && Kept(cfg, c, s, toLeft, toRight)
    requires Plain(f, data) && |comments| <= 1 && FirstCut(cfg.limit, data) + CommentSize(comments) <= CAP
    ensures Kept(cfg, c, Added(cfg, s, right, f, data, comments, t),
                 toLeft + if right then data else [], toRight + if right then [] else data)
  {
    var (frames, d) := Segments(s.counters, cfg.limit, right, f, data);
    SegmentsFit(s.counters, cfg.limit, right, f, data);
    hide Segments, Piece, PacketData, Built, BlocksOf, PcapNg.AllHonest;
    PiecesJoin(s.frames, frames, c, s.counters, d, toLeft, toRight,
               if right then data else [], if right then [] else data);
    BlocksHoldFrames(cfg.cn, frames, comments, t, FirstCut(cfg.limit, data));
    HonestJoin(s.blocks, BlocksOf(cfg.cn, frames, comments, t));
    DataJoins(s.blocks, BlocksOf(cfg.cn, frames, comments, t));
    BuiltJoins(cfg.cn, s.frames, frames);
  }

  lemma HonestJoin(a: seq<PcapNg.Block>, b: seq<PcapNg.Block>)
    requires PcapNg.AllHonest(a) && PcapNg.AllHonest(b)
    ensures PcapNg.AllHonest(a + b)
  {
    hide PcapNg.Honest, PcapNg.Declared;
  }

  lemma SegmentsFit(c: Counters, limit: int, right: bool, f: Flags, data: seq<byte>)
    requires Plain(f, data)
    ensures var (frames, d) := Segments(c, limit, right, f, data);
            && Piece(frames, c, d, if right then data else [], if right then [] else data)
            && forall i :: 0 <= i < |frames| ==> |frames[i].payload| <= FirstCut(limit, data)
  {
    CutIsAPiece(c, right, f, data, FirstCut(limit, data));
    var frames := Segments(c, limit, right, f, data).0;
    forall i | 0 <= i < |frames| ensures |frames[i].payload| <= FirstCut(limit, data) {
      CutsAreSmall(c, right, f, data, FirstCut(limit, data), i);
    }
    hide Cut, Piece;
  }

  lemma {:induction false} CutsAreSmall(c: Counters, incoming: bool, f: Flags, data: seq<byte>, size: nat, k: nat)
    requires size <= |data| && (size == 0 ==> data == [])
    requires k < |Cut(c, incoming, f, data, size).0|
    ensures |Cut(c, incoming, f, data, size).0[k].payload| <= size
    decreases |data|
  {
    var (frame, next) := Emitted(c, incoming, f, data[..size]);
    assert frame.payload == data[..size];
    hide Emitted;
    var rest := data[size..];
    if k > 0 {
      CutsAreSmall(next, incoming, f, rest, Least(size, |rest|), k - 1);
    }
  }

  // ----- Sessions -----

  datatype Op = Write(right: bool, data: seq<byte>, time: Time) | Comment(text: seq<byte>)

  function After(cfg: Config, c: Counters, ops: seq<Op>): State
    requires Packets.Valid(cfg.cn)
    decreases |ops|
  {
    if ops == [] then Start(c)
    else
      var n := |ops| - 1;
      var s := After(cfg, c, ops[..n]);
      match ops[n]
      case Write(right, data, t) => AfterWrite(cfg, s, right, data, t)
      case Comment(text) => s.(comlog := s.comlog + text)
  }

  /** All bytes written for one side. */
  function Written(ops: seq<Op>, right: bool): seq<byte>
    decreases |ops|
  {
    if ops == [] then []
    else
      var n := |ops| - 1;
      Written(ops[..n], right) + if ops[n].Write? && ops[n].right == right then ops[n].data else []
  }

  /** The comments that wait for the next frames. */
  function Waiting(ops: seq<Op>): nat
    decreases |ops|
  {
    if ops == [] then 0
    else
      var n := |ops| - 1;
      match ops[n]
      case Write(_, _, _) => 0
      case Comment(text) => Waiting(ops[..n]) + |text|
  }

  /** No frame together with its comment is near the limit of a length field. */
  predicate WritesFit(limit: int, ops: seq<Op>) {
    forall i :: 0 <= i < |ops| && ops[i].Write? ==> FirstCut(limit, ops[i].data) + Waiting(ops[..i]) <= CAP
  }

  predicate Small(limit: int, ops: seq<Op>) {
    WritesFit(limit, ops) && Waiting(ops) <= CAP
  }

  lemma PrefixFits(limit: int, ops: seq<Op>)
    requires WritesFit(limit, ops) && ops != []
    ensures WritesFit(limit, ops[..|ops| - 1])
  {
    var before := ops[..|ops| - 1];
    assert forall i :: 0 <= i < |before| ==> before[i] == ops[i] && before[..i] == ops[..i];
    hide Waiting, FirstCut;
  }

  lemma HeaderKeeps(cfg: Config, c: Counters, s: State, l: seq<byte>, r: seq<byte>)
    requires Packets.Valid(cfg.cn) && Kept(cfg, c, s, l, r)
    ensures Kept(cfg, c, WithHeader(s), l, r)
  {
    var header := [PcapNg.Section, PcapNg.Interface];
    DataJoins(s.blocks, header);
    assert header[1..] == [PcapNg.Interface] && header[1..][1..] == [];
    assert PacketData(header) == [];
    hide PacketData, Piece, Built;
  }

  lemma HandshakeKeeps(cfg: Config, c: Counters, s: State, t: Time, l: seq<byte>, r: seq<byte>)
    requires Packets.Valid(cfg.cn) && Kept(cfg, c, s, l, r)
    ensures Kept(cfg, c, WithHandshake(cfg, s, t), l, r)
    ensures WithHandshake(cfg, s, t).comlog == s.comlog
  {
    if !s.started {
      assert l + [] == l && r + [] == r;
      AddingKeeps(cfg, c, s, false, SYN, [], [], t, l, r);
      var a := Added(cfg, s, false, SYN, [], [], t);
      AddingKeeps(cfg, c, a, true, SYN_ACK, [], [], t, l, r);
      var b := Added(cfg, a, true, SYN_ACK, [], [], t);
      AddingKeeps(cfg, c, b, false, ACK, [], [], t, l, r);
      hide Piece, PacketData, Built, PcapNg.AllHonest, Segments, BlocksOf;
    }
  }

  lemma WriteKeeps(cfg: Config, c: Counters, s: State, right: bool, data: seq<byte>, t: Time, l: seq<byte>, r: seq<byte>)
    requires Packets.Valid(cfg.cn) && Kept(cfg, c, s, l, r)
    requires FirstCut(cfg.limit, data) + |s.comlog| <= CAP
    ensures Kept(cfg, c, AfterWrite(cfg, s, right, data, t),
                 l + if right then data else [], r + if right then [] else data)
    ensures AfterWrite(cfg, s, right, data, t).comlog == []
  {
    HeaderKeeps(cfg, c, s, l, r);
    var h := WithHeader(s);
    HandshakeKeeps(cfg, c, h, t, l, r);
    var b := WithHandshake(cfg, h, t);
    assert b.comlog == s.comlog;
    hide WithHandshake, Piece, PacketData, Built, PcapNg.AllHonest, Segments, BlocksOf;
    assert Kept(cfg, c, b.(comlog := []), l, r);
    AddingKeeps(cfg, c, b.(comlog := []), right, ACK, data, Comments(b.comlog), t, l, r);
  }

  lemma CloseKeeps(cfg: Config, c: Counters, s: State, t: Time, l: seq<byte>, r: seq<byte>)
    requires Packets.Valid(cfg.cn) && Kept(cfg, c, s, l, r) && |s.comlog| <= CAP
    ensures Kept(cfg, c, AfterClose(cfg, s, t), l, r)
  {
    if s.started {
      hide Piece, PacketData, Built, PcapNg.AllHonest, Segments, BlocksOf;
      assert l + [] == l && r + [] == r;
      AddingKeeps(cfg, c, s.(comlog := []), false, FIN_ACK, [], Comments(s.comlog), t, l, r);
      var a := Added(cfg, s.(comlog := []), false, FIN_ACK, [], Comments(s.comlog), t);
      AddingKeeps(cfg, c, a, true, FIN_ACK, [], Comments(s.comlog), t, l, r);
    }
  }

  lemma {:induction false} SessionIsKept(cfg: Config, c: Counters, ops: seq<Op>)
    requires Packets.Valid(cfg.cn) && WritesFit(cfg.limit, ops)
    ensures Kept(cfg, c, After(cfg, c, ops), Written(ops, true), Written(ops, false))
    ensures |After(cfg, c, ops).comlog| == Waiting(ops)
    decreases |ops|
  {
    if ops == [] {
      assert Kept(cfg, c, Start(c), [], []);
    } else {
      var n := |ops| - 1;
      PrefixFits(cfg.limit, ops);
      SessionIsKept(cfg, c, ops[..n]);
      var s := After(cfg, c, ops[..n]);
      var l, r := Written(ops[..n], true), Written(ops[..n], false);
      assert l + [] == l && r + [] == r;
      hide AfterWrite, Piece, PacketData, Built, PcapNg.AllHonest;
      if ops[n].Write? {
        WriteKeeps(cfg, c, s, ops[n].right, ops[n].data, ops[n].time, l, r);
      }
    }
  }

  // ----- The shape of a conversation -----

  predicate IsData(f: Frame) {
    !f.syn && !f.fin && f.ack
  }

  /** SYN, SYN and ACK, ACK, then only data, all of it with the ACK bit. */
  predicate Opened(frames: seq<Frame>) {
    && |frames| >= 3
    && frames[0].syn && !frames[0].ack && !frames[0].incoming && !frames[0].fin
    && frames[1].syn && frames[1].ack && frames[1].incoming && !frames[1].fin
    && !frames[2].incoming
    && forall i :: 2 <= i < |frames| ==> IsData(frames[i])
  }

  lemma {:induction false} CutFlags(c: Counters, incoming: bool, f: Flags, data: seq<byte>, size: nat)
    requires size <= |data| && (size == 0 ==> data == [])
    ensures var frames := Cut(c, incoming, f, data, size).0;
            && |frames| > 0 && (data == [] ==> |frames| == 1)
            && forall i :: 0 <= i < |frames| ==>
                 var g := frames[i];
                 g.incoming == incoming && g.syn == f.syn && g.fin == f.fin && (f.ack ==> g.ack) && (f == SYN ==> !g.ack)
    decreases |data|
  {
    var (frame, next) := Emitted(c, incoming, f, data[..size]);
    assert frame.incoming == incoming && frame.syn == f.syn && frame.fin == f.fin && (f.ack ==> frame.ack) && (f == SYN ==> !frame.ack);
    hide Emitted;
    var rest := data[size..];
    if rest != [] {
      CutFlags(next, incoming, f, rest, Least(size, |rest|));
    }
  }

  lemma AddedFlags(cfg: Config, s: State, right: bool, f: Flags, data: seq<byte>, comments: seq<seq<byte>>, t: Time)
    requires Packets.Valid(cfg.cn)
    ensures var more := Segments(s.counters, cfg.limit, right, f, data).0;
            && Added(cfg, s, right, f, data, comments, t).frames == s.frames + more
            && |more| > 0 && (data == [] ==> |more| == 1)
            && forall i :: 0 <= i < |more| ==>
                 var g := more[i];
                 g.incoming == right && g.syn == f.syn && g.fin == f.fin && (f.ack ==> g.ack) && (f == SYN ==> !g.ack)
  {
    CutFlags(s.counters, right, f, data, FirstCut(cfg.limit, data));
    hide BlocksOf;
  }

  lemma HandshakeOpens(cfg: Config, s: State, t: Time)
    requires Packets.Valid(cfg.cn) && !s.started && s.frames == []
    ensures var h := WithHandshake(cfg, s, t); Opened(h.frames) && |h.frames| == 3 && h.started
  {
    AddedFlags(cfg, s, false, SYN, [], [], t);
    var a := Added(cfg, s, false, SYN, [], [], t);
    AddedFlags(cfg, a, true, SYN_ACK, [], [], t);
    var b := Added(cfg, a, true, SYN_ACK, [], [], t);
    AddedFlags(cfg, b, false, ACK, [], [], t);
    hide Added;
  }

  lemma WriteKeepsShape(cfg: Config, s: State, right: bool, data: seq<byte>, t: Time)
    requires Packets.Valid(cfg.cn) && (if s.started then Opened(s.frames) else s.frames == [])
    ensures var w := AfterWrite(cfg, s, right, data, t); w.started && Opened(w.frames)
  {
    var h := WithHeader(s);
    if !s.started {
      HandshakeOpens(cfg, h, t);
    }
    var b := WithHandshake(cfg, h, t);
    AddedFlags(cfg, b.(comlog := []), right, ACK, data, Comments(b.comlog), t);
    AddedKeepsStart(cfg, b.(comlog := []), right, ACK, data, Comments(b.comlog), t);
    hide Added, WithHandshake, Segments;
  }

  lemma AddedKeepsStart(cfg: Config, s: State, right: bool, f: Flags, data: seq<byte>, comments: seq<seq<byte>>, t: Time)
    requires Packets.Valid(cfg.cn)
    ensures Added(cfg, s, right, f, data, comments, t).started == s.started
  {
  }

  predicate WasWritten(ops: seq<Op>) {
    exists i :: 0 <= i < |ops| && ops[i].Write?
  }

  lemma WrittenBefore(ops: seq<Op>)
    requires ops != []
    ensures var n := |ops| - 1; WasWritten(ops) <==> WasWritten(ops[..n]) || ops[n].Write?
  {
    var n := |ops| - 1;
    assert forall i :: 0 <= i < n ==> ops[..n][i] == ops[i];
  }

  lemma {:induction false} SessionOpens(cfg: Config, c: Counters, ops: seq<Op>)
    requires Packets.Valid(cfg.cn)
    ensures var s := After(cfg, c, ops);
            (s.started <==> WasWritten(ops)) && if s.started then Opened(s.frames) else s.frames == []
    decreases |ops|
  {
    if ops != [] {
      var n := |ops| - 1;
      SessionOpens(cfg, c, ops[..n]);
      WrittenBefore(ops);
      hide AfterWrite, Opened, WasWritten;
      if ops[n].Write? {
        WriteKeepsShape(cfg, After(cfg, c, ops[..n]), ops[n].right, ops[n].data, ops[n].time);
      }
    }
  }

  /** A session that was written to opens with the handshake and closes with one FIN of each
      side, the client first; nothing else carries SYN or FIN, and only the first frame is
      without ACK. A session without data leaves no frames. */
  lemma ConversationShape(cfg: Config, c: Counters, ops: seq<Op>, closing: Time)
    requires Packets.Valid(cfg.cn)
    ensures var s := After(cfg, c, ops);
            var e := AfterClose(cfg, s, closing);
            && (s.started <==> exists i :: 0 <= i < |ops| && ops[i].Write?)
            && (!s.started ==> e.frames == [])
            && (s.started ==>
                  Opened(s.frames) && |e.frames| == |s.frames| + 2 && s.frames <= e.frames
                  && var f, g := e.frames[|s.frames|], e.frames[|s.frames| + 1];
                  f.fin && f.ack && !f.syn && !f.incoming && g.fin && g.ack && !g.syn && g.incoming)
  {
    SessionOpens(cfg, c, ops);
    CloseShape(cfg, After(cfg, c, ops), closing);
    hide AfterClose, After, Opened;
  }

  lemma CloseShape(cfg: Config, s: State, t: Time)
    requires Packets.Valid(cfg.cn)
    ensures var e := AfterClose(cfg, s, t);
            if !s.started then e.frames == s.frames
            else |e.frames| == |s.frames| + 2 && s.frames <= e.frames
                 && var f, g := e.frames[|s.frames|], e.frames[|s.frames| + 1];
                 f.fin && f.ack && !f.syn && !f.incoming && g.fin && g.ack && !g.syn && g.incoming
  {
    if s.started {
      var u := s.(comlog := []);
      AddedFlags(cfg, u, false, FIN_ACK, [], Comments(s.comlog), t);
      var a := Added(cfg, u, false, FIN_ACK, [], Comments(s.comlog), t);
      AddedFlags(cfg, a, true, FIN_ACK, [], Comments(s.comlog), t);
      hide Added, Segments;
    }
  }

  /** One section header, one interface description, then packets of that interface only. */
  predicate WellFramed(blocks: seq<PcapNg.Block>) {
    && |blocks| >= 2 && blocks[0] == PcapNg.Section && blocks[1] == PcapNg.Interface
    && forall i :: 2 <= i < |blocks| ==> blocks[i].Packet?
  }

  lemma {:induction false} OnlyPackets(cn: Packets.Connection, frames: seq<Frame>, comments: seq<seq<byte>>, t: Time)
    requires Packets.Valid(cn)
    ensures forall i :: 0 <= i < |BlocksOf(cn, frames, comments, t)| ==> BlocksOf(cn, frames, comments, t)[i].Packet?
  {
    hide Packets.Packet;
    if frames != [] {
      OnlyPackets(cn, frames[1..], comments, t);
    }
  }

  lemma AddingKeepsFraming(cfg: Config, s: State, right: bool, f: Flags, data: seq<byte>, comments: seq<seq<byte>>, t: Time)
    requires Packets.Valid(cfg.cn) && WellFramed(s.blocks)
    ensures var a := Added(cfg, s, right, f, data, comments, t);
            WellFramed(a.blocks) && a.headerWritten == s.headerWritten && a.started == s.started
  {
    var (frames, _) := Segments(s.counters, cfg.limit, right, f, data);
    OnlyPackets(cfg.cn, frames, comments, t);
    hide Segments, BlocksOf;
  }

  lemma HandshakeKeepsFraming(cfg: Config, s: State, t: Time)
    requires Packets.Valid(cfg.cn) && WellFramed(s.blocks)
    ensures var h := WithHandshake(cfg, s, t); WellFramed(h.blocks) && h.headerWritten == s.headerWritten
  {
    if !s.started {
      AddingKeepsFraming(cfg, s, false, SYN, [], [], t);
      var a := Added(cfg, s, false, SYN, [], [], t);
      AddingKeepsFraming(cfg, a, true, SYN_ACK, [], [], t);
      var b := Added(cfg, a, true, SYN_ACK, [], [], t);
      AddingKeepsFraming(cfg, b, false, ACK, [], [], t);
      hide Added, WellFramed;
    }
  }

  /** The file of every session, closed or not, is empty or opens with the section header and
      the one interface all its packets refer to. */
  lemma {:induction false} FilesAreWellFramed(cfg: Config, c: Counters, ops: seq<Op>, closing: Time)
    requires Packets.Valid(cfg.cn)
    ensures var s := After(cfg, c, ops);
            var e := AfterClose(cfg, s, closing);
            && (if s.headerWritten then WellFramed(s.blocks) && WellFramed(e.blocks) else s.blocks == [] && e.blocks == [])
            && (s.started ==> s.headerWritten)
    decreases |ops|
  {
    var s := After(cfg, c, ops);
    if ops != [] {
      var n := |ops| - 1;
      FilesAreWellFramed(cfg, c, ops[..n], closing);
      if ops[n].Write? {
        WriteKeepsFraming(cfg, After(cfg, c, ops[..n]), ops[n].right, ops[n].data, ops[n].time);
      }
      hide AfterWrite, WellFramed;
    }
    hide After, WellFramed;
    if s.started {
      var u := s.(comlog := []);
      AddingKeepsFraming(cfg, u, false, FIN_ACK, [], Comments(s.comlog), closing);
      var a := Added(cfg, u, false, FIN_ACK, [], Comments(s.comlog), closing);
      AddingKeepsFraming(cfg, a, true, FIN_ACK, [], Comments(s.comlog), closing);
      hide Added;
    }
  }

  lemma WriteKeepsFraming(cfg: Config, s: State, right: bool, data: seq<byte>, t: Time)
    requires Packets.Valid(cfg.cn) && (if s.headerWritten then WellFramed(s.blocks) else s.blocks == [])
    ensures var w := AfterWrite(cfg, s, right, data, t); WellFramed(w.blocks) && w.headerWritten
  {
    var h := WithHeader(s);
    assert WellFramed(h.blocks);
    HandshakeKeepsFraming(cfg, h, t);
    var b := WithHandshake(cfg, h, t);
    hide WithHandshake, WellFramed;
    AddingKeepsFraming(cfg, b.(comlog := []), right, ACK, data, Comments(b.comlog), t);
    hide Added;
  }

  // ----- Reading the file back -----

  function Stripped(frames: seq<Frame>): seq<Frame> {
    if frames == [] then [] else [frames[0].(id := 0)] + Stripped(frames[1..])
  }

  /** The frames in the packet blocks among some blocks. */
  function FramesIn(pieces: seq<seq<byte>>): Option<seq<Frame>> {
    if pieces == [] then Some([])
    else
      match FramesIn(pieces[1..])
      case None => None
      case Some(rest) =>
        match PcapNg.Captured(pieces[0])
        case None => Some(rest)
        case Some(p) =>
          match Packets.Dissected(p)
          case None => None
          case Some(f) => Some([f] + rest)
  }

  function ReadBack(file: seq<byte>): Option<seq<Frame>> {
    match PcapNg.Walked(file)
    case None => None
    case Some(pieces) => FramesIn(pieces)
  }

  lemma {:induction false} FramesAreFound(cn: Packets.Connection, blocks: seq<PcapNg.Block>, frames: seq<Frame>)
    requires Packets.Valid(cn) && PcapNg.AllHonest(blocks) && PacketData(blocks) == Built(cn, frames)
    ensures FramesIn(PcapNg.Pieces(blocks)) == Some(Stripped(frames))
    decreases |blocks|
  {
    hide PcapNg.Emitted, Packets.Packet, PcapNg.Captured, Packets.Dissected, PcapNg.Honest, PcapNg.Declared;
    if blocks == [] {
      assert frames == [];
    } else {
      PcapNg.CapturedIsRead(blocks[0]);
      var rest := PacketData(blocks[1..]);
      if blocks[0].Packet? {
        assert PacketData(blocks)[0] == blocks[0].data && PacketData(blocks)[1..] == rest;
        assert frames != [];
        assert Built(cn, frames)[0] == Packets.Packet(cn, frames[0]) && Built(cn, frames)[1..] == Built(cn, frames[1..]);
        Packets.PacketIsDissected(cn, frames[0]);
        FramesAreFound(cn, blocks[1..], frames[1..]);
      } else {
        assert PacketData(blocks) == rest;
        FramesAreFound(cn, blocks[1..], frames);
      }
    }
  }

  lemma {:induction false} StrippingKeepsTheConversation(frames: seq<Frame>, nextIn: u32, nextOut: u32)
    ensures Follows(Stripped(frames), nextIn, nextOut) == Follows(frames, nextIn, nextOut)
    ensures Sent(Stripped(frames), true) == Sent(frames, true) && Sent(Stripped(frames), false) == Sent(frames, false)
  {
    if frames != [] {
      var f := frames[0];
      assert Stripped(frames)[0] == f.(id := 0) && Stripped(frames)[1..] == Stripped(frames[1..]);
      StrippingKeepsTheConversation(frames[1..], if f.incoming then Plus(nextIn, Advance(f)) else nextIn,
                                    if f.incoming then nextOut else Plus(nextOut, Advance(f)));
    }
  }

  /** The whole way round. For every session of writes of either side and comments, closed at
      the end, whatever the limit, the addresses and the first sequence numbers: a reader that
      walks the file by block lengths, dissects the packets, and reassembles each direction by
      sequence numbers, gets exactly the bytes that were written for it; and every frame
      acknowledges everything the other direction has sent before it. */
  lemma CaptureIsReadBack(cfg: Config, c: Counters, ops: seq<Op>, closing: Time)
    requires Packets.Valid(cfg.cn) && Small(cfg.limit, ops)
    ensures var file := PcapNg.File(AfterClose(cfg, After(cfg, c, ops), closing).blocks);
            var found := ReadBack(file);
            && found.Some?
            && Reassembled(found.value, true, c.seqIn) == Written(ops, true)
            && Reassembled(found.value, false, c.seqOut) == Written(ops, false)
            && Follows(found.value, c.seqIn, c.seqOut)
  {
    SessionIsKept(cfg, c, ops);
    var s := After(cfg, c, ops);
    var l, r := Written(ops, true), Written(ops, false);
    CloseKeeps(cfg, c, s, closing, l, r);
    var e := AfterClose(cfg, s, closing);
    assert Piece(e.frames, c, e.counters, l, r);
    hide After, AfterClose, Written, Small;
    PcapNg.WalkerVisitsEveryBlockIff(e.blocks);
    FramesAreFound(cfg.cn, e.blocks, e.frames);
    var found := Stripped(e.frames);
    StrippingKeepsTheConversation(e.frames, c.seqIn, c.seqOut);
    NothingIsDropped(found, c.seqIn, c.seqOut);
    hide Follows, Stripped, Reassembled, Sent;
  }
}
