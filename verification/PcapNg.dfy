// The block format of the capture file: every block says its length twice, and a reader that
// knows nothing else about a block can skip it.
module PcapNg {
  import opened Bytes
  import opened Common

  /** A section header, an interface description, or a captured packet with its comments. */
  datatype Block =
    | Section
    | Interface
    | Packet(data: seq<byte>, comments: seq<seq<byte>>, high: u32, low: u32)

  const SHB: u32 := 0x0A0D0D0A
  const IDB: u32 := 1
  const EPB: u32 := 6
  const COMMENT: u16 := 1
  const FIXED: nat := 32

  // ----- Sizes -----

  function Padding(n: nat): nat {
    var p := 4 - (n + 4) % 4;
    if p == 4 then 0 else p
  }

  /** The size of one option as the size functions see it: an end marker is counted with
      every option that is not empty. */
  function OptionSize(data: seq<byte>): nat {
    if data == [] then 0 else 2 + 2 + |data| + Padding(|data|) + 4
  }

  function OptionsSize(comments: seq<seq<byte>>): nat {
    if comments == [] then 0 else OptionSize(comments[0]) + OptionsSize(comments[1..])
  }

  function Declared(b: Block): nat {
    match b
    case Section => 28
    case Interface => 20
    case Packet(data, comments, _, _) => Padding(|data|) + |data| + OptionsSize(comments) + FIXED
  }

  // ----- Octets -----

  function OptionBytes(data: seq<byte>): seq<byte> {
    if data == [] then []
    else LE16(COMMENT) + LE16(|data| % U16) + data + Repeat(0xCC, Padding(|data|))
  }

  function EntriesBytes(comments: seq<seq<byte>>): seq<byte> {
    if comments == [] then [] else OptionBytes(comments[0]) + EntriesBytes(comments[1..])
  }

  /** The end marker is written once, and only behind something. */
  function OptionsBytes(comments: seq<seq<byte>>): seq<byte> {
    var entries := EntriesBytes(comments);
    if entries == [] then [] else entries + LE32(0)
  }

  /** What lies between the two lengths. */
  function Body(b: Block): seq<byte> {
    match b
    case Section => LE32(0x1A2B3C4D) + LE16(1) + LE16(0) + Repeat(0xFF, 8)
    case Interface => LE16(113) + LE16(0) + LE32(20000)
    case Packet(data, comments, high, low) =>
      LE32(0) + LE32(high) + LE32(low) + LE32(|data| % U32) + LE32(|data| % U32)
      + data + Repeat(0xCC, Padding(|data|)) + OptionsBytes(comments)
  }

  function Type(b: Block): u32 {
    match b
    case Section => SHB
    case Interface => IDB
    case Packet(_, _, _, _) => EPB
  }

  function Emitted(b: Block): seq<byte> {
    LE32(Type(b)) + LE32(Declared(b) % U32) + Body(b) + LE32(Declared(b) % U32)
  }

  function File(blocks: seq<Block>): seq<byte> {
    if blocks == [] then [] else Emitted(blocks[0]) + File(blocks[1..])
  }

  // ----- Appending, step by step -----

  method AppendOption(data: seq<byte>, out: seq<byte>) returns (more: seq<byte>, wrt: nat)
    ensures more == out + OptionBytes(data) && wrt == |OptionBytes(data)|
  {
    if OptionSize(data) == 0 {
      assert out + [] == out;
      return out, 0;
    }
    more := out + LE16(COMMENT);
    more := more + LE16(|data| % U16);
    more := more + data;
    more := more + Repeat(0xCC, Padding(|data|));
    assert more == out + OptionBytes(data);
    wrt := |more| - |out|;
  }

  method AppendOptions(comments: seq<seq<byte>>, out: seq<byte>) returns (more: seq<byte>)
    ensures more == out + OptionsBytes(comments)
  {
    hide OptionBytes;
    var wrt := 0;
    more := out;
    assert EntriesBytes(comments[..0]) == [];
    for i := 0 to |comments|
      invariant more == out + EntriesBytes(comments[..i]) && wrt == |EntriesBytes(comments[..i])|
    {
      EntriesGrow(comments, i);
      var n;
      more, n := AppendOption(comments[i], more);
      wrt := wrt + n;
    }
    assert comments[..|comments|] == comments;
    if wrt > 0 {
      more := more + LE32(0);
    }
  }

  lemma {:induction false} EntriesGrow(comments: seq<seq<byte>>, i: nat)
    requires i < |comments|
    ensures EntriesBytes(comments[..i + 1]) == EntriesBytes(comments[..i]) + OptionBytes(comments[i])
    ensures OptionsSize(comments[..i + 1]) == OptionsSize(comments[..i]) + OptionSize(comments[i])
  {
    hide OptionBytes, OptionSize;
    if i == 0 {
      assert comments[..1][1..] == [];
    } else {
      EntriesGrow(comments[1..], i - 1);
      assert comments[..i + 1][1..] == comments[1..][..i] && comments[..i][1..] == comments[1..][..i - 1];
    }
  }

  method AppendPacketBody(data: seq<byte>, comments: seq<seq<byte>>, high: u32, low: u32, out: seq<byte>)
    returns (more: seq<byte>)
    ensures more == out + Body(Packet(data, comments, high, low))
  {
    hide OptionsBytes, LE32, Padding, Repeat;
    var head := LE32(0) + LE32(high) + LE32(low) + LE32(|data| % U32) + LE32(|data| % U32);
    more := out + head;
    Regroup(out, head, data);
    more := more + data;
    Regroup(out, head + data, Repeat(0xCC, Padding(|data|)));
    more := more + Repeat(0xCC, Padding(|data|));
    Regroup(out, head + data + Repeat(0xCC, Padding(|data|)), OptionsBytes(comments));
    more := AppendOptions(comments, more);
  }

  method AppendBlock(b: Block, out: seq<byte>) returns (more: seq<byte>)
    ensures more == out + Emitted(b)
  {
    hide LE32, LE16, Repeat, Declared;
    var typ, len := LE32(Type(b)), LE32(Declared(b) % U32);
    more := out + (typ + len);
    match b {
      case Section =>
        more := more + (LE32(0x1A2B3C4D) + LE16(1) + LE16(0) + Repeat(0xFF, 8));
      case Interface =>
        more := more + (LE16(113) + LE16(0) + LE32(20000));
      case Packet(data, comments, high, low) =>
        more := AppendPacketBody(data, comments, high, low, more);
    }
    hide Body;
    Regroup(out, typ + len, Body(b));
    Regroup(out, typ + len + Body(b), len);
    more := more + len;
  }

  // ----- Lengths -----

  lemma PaddingAligns(n: nat)
    ensures (n + Padding(n)) % 4 == 0 && Padding(n) < 4
  {
  }

  function Filled(comments: seq<seq<byte>>): nat {
    if comments == [] then 0 else (if comments[0] == [] then 0 else 1) + Filled(comments[1..])
  }

  lemma OptionLength(data: seq<byte>)
    ensures OptionSize(data) == |OptionBytes(data)| + (if data == [] then 0 else 4)
    ensures OptionSize(data) % 4 == 0 && |OptionBytes(data)| % 4 == 0
    ensures data != [] ==> |OptionBytes(data)| > 0
  {
    PaddingAligns(|data|);
  }

  lemma {:induction false} EntriesLength(comments: seq<seq<byte>>)
    ensures OptionsSize(comments) == |EntriesBytes(comments)| + 4 * Filled(comments)
    ensures OptionsSize(comments) % 4 == 0 && |EntriesBytes(comments)| % 4 == 0
    ensures EntriesBytes(comments) == [] <==> Filled(comments) == 0
  {
    if comments != [] {
      var first, others := OptionBytes(comments[0]), EntriesBytes(comments[1..]);
      assert EntriesBytes(comments) == first + others;
      assert OptionsSize(comments) == OptionSize(comments[0]) + OptionsSize(comments[1..]);
      assert Filled(comments) == (if comments[0] == [] then 0 else 1) + Filled(comments[1..]);
      EntriesLength(comments[1..]);
      OptionLength(comments[0]);
      OptionOfNothing();
      hide *;
      SumOfFours(|first|, |others|);
      SumOfFours(OptionSize(comments[0]), OptionsSize(comments[1..]));
    }
  }

  lemma SumOfFours(m: nat, n: nat)
    requires m % 4 == 0 && n % 4 == 0
    ensures (m + n) % 4 == 0
  {
  }

  lemma OptionOfNothing()
    ensures OptionBytes([]) == []
  {
  }

  lemma BodyLength(b: Block)
    ensures |Body(b)| == (match b
                          case Section => 16
                          case Interface => 8
                          case Packet(data, comments, _, _) =>
                            20 + |data| + Padding(|data|) + |OptionsBytes(comments)|)
    ensures |Emitted(b)| == 12 + |Body(b)|
  {
    hide OptionsBytes, Padding, LE32, LE16, Repeat;
  }

  /** Both are multiples of four, and the declared length is the emitted one with one surplus
      end marker for every comment behind the first. */
  lemma DeclaredAgainstEmitted(b: Block)
    ensures var k := if b.Packet? then Filled(b.comments) else 0;
            && Declared(b) == |Emitted(b)| + (if k > 1 then 4 * (k - 1) else 0)
            && Declared(b) % 4 == 0 && |Emitted(b)| % 4 == 0 && |Emitted(b)| >= 12
  {
    BodyLength(b);
    if b.Packet? {
      OptionsLength(b.comments);
      PaddingAligns(|b.data|);
      hide OptionsBytes, OptionsSize, Emitted, Body, Padding, Filled;
      MultiplesOfFour(|b.data| + Padding(|b.data|), |OptionsBytes(b.comments)|);
      MultiplesOfFour(|b.data| + Padding(|b.data|), OptionsSize(b.comments));
      assert |Emitted(b)| == |b.data| + Padding(|b.data|) + |OptionsBytes(b.comments)| + 32;
    } else {
      hide Emitted, Body;
    }
  }

  lemma MultiplesOfFour(m: nat, n: nat)
    requires m % 4 == 0 && n % 4 == 0
    ensures (m + n + 32) % 4 == 0
  {
  }

  lemma OptionsLength(comments: seq<seq<byte>>)
    ensures var k := Filled(comments);
            && OptionsSize(comments) == |OptionsBytes(comments)| + (if k > 1 then 4 * (k - 1) else 0)
            && OptionsSize(comments) % 4 == 0 && |OptionsBytes(comments)| % 4 == 0
  {
    EntriesLength(comments);
    hide EntriesBytes, OptionsSize, Filled, LE32;
  }

  /** So a block says the truth exactly when it has at most one comment that is not empty. */
  predicate Honest(b: Block) {
    b.Packet? ==> Filled(b.comments) <= 1
  }

  lemma HonestIff(b: Block)
    ensures Declared(b) == |Emitted(b)| <==> Honest(b)
  {
    DeclaredAgainstEmitted(b);
    hide Emitted, Declared;
  }

  // ----- Walking -----

  /** The length of the block at the start of the file, if there is a whole block with equal
      lengths at both ends. */
  function BlockLength(file: seq<byte>): Option<nat> {
    if |file| < 12 then None
    else
      var n := FromLE32(file[4..]);
      if n < 12 || n % 4 != 0 || n > |file| then None
      else if FromLE32(file[n - 4..]) != n then None
      else Some(n)
  }

  /** Skips from block to block and gives each one as it lies in the file. */
  function Walked(file: seq<byte>): Option<seq<seq<byte>>>
    decreases |file|
  {
    if file == [] then Some([])
    else
      match BlockLength(file)
      case None => None
      case Some(n) =>
        match Walked(file[n..])
        case None => None
        case Some(rest) => Some([file[..n]] + rest)
  }

  /** The captured octets in a block, if it is a packet block. */
  function Captured(block: seq<byte>): Option<seq<byte>> {
    if |block| < FIXED || FromLE32(block) != EPB then None
    else
      var n := FromLE32(block[20..]);
      if 28 + n > |block| - 4 then None else Some(block[28..28 + n])
  }

  /** A number in the middle of other octets. */
  lemma NumberAt(before: seq<byte>, n: u32, after: seq<byte>)
    ensures var s := before + LE32(n) + after; FromLE32(s[|before|..]) == n
  {
    var s, m := before + LE32(n) + after, LE32(n);
    hide LE32;
    assert s[|before|] == m[0] && s[|before| + 1] == m[1] && s[|before| + 2] == m[2] && s[|before| + 3] == m[3];
    SameNumber(s[|before|..], m);
  }

  /** A reader sees the length written at the start, and the block only if that is right. */
  lemma FramedLength(typ: seq<byte>, n: u32, body: seq<byte>, rest: seq<byte>)
    requires |typ| == 4 && n % 4 == 0
    ensures var found := BlockLength(typ + LE32(n) + body + LE32(n) + rest);
            && (n == 12 + |body| ==> found == Some(n))
            && (found.Some? ==> found.value == n)
  {
    var len := LE32(n);
    NumberAt(typ, n, body + len + rest);
    NumberAt(typ + len + body, n, rest);
    hide LE32, FromLE32;
    var file := typ + len + body + len + rest;
    assert file == typ + len + (body + len + rest);
    assert file == (typ + len + body) + len + rest;
  }

  lemma EmittedInParts(b: Block)
    requires Declared(b) < U32
    ensures Emitted(b) == LE32(Type(b)) + LE32(Declared(b)) + Body(b) + LE32(Declared(b))
    ensures |Emitted(b)| == 12 + |Body(b)|
  {
    hide Declared, LE32, Body, Type;
    assert Declared(b) % U32 == Declared(b);
  }

  /** Whatever follows it, a block is found as it was written exactly when it is honest. */
  lemma BlockIsFoundIff(b: Block, rest: seq<byte>)
    requires Declared(b) < U32
    ensures BlockLength(Emitted(b) + rest) == Some(|Emitted(b)|) <==> Honest(b)
  {
    HonestIff(b);
    DeclaredAgainstEmitted(b);
    EmittedInParts(b);
    var typ, n, body := LE32(Type(b)), Declared(b), Body(b);
    hide *;
    FramedLength(typ, n, body, rest);
  }

  predicate AllHonest(blocks: seq<Block>) {
    forall i :: 0 <= i < |blocks| ==> Honest(blocks[i]) && Declared(blocks[i]) < U32
  }

  function Pieces(blocks: seq<Block>): seq<seq<byte>> {
    if blocks == [] then [] else [Emitted(blocks[0])] + Pieces(blocks[1..])
  }

  /** The length field of each block can hold the length it declares. */
  predicate AllDeclared(blocks: seq<Block>) {
    forall i :: 0 <= i < |blocks| ==> Declared(blocks[i]) < U32
  }

  /** A reader that skips by length visits exactly the blocks that were written if and only if
      every one of them is honest. */
  lemma {:induction false} WalkerVisitsEveryBlockIff(blocks: seq<Block>)
    requires AllDeclared(blocks)
    ensures Walked(File(blocks)) == Some(Pieces(blocks)) <==> AllHonest(blocks)
  {
    if blocks != [] {
      var first, rest, pieces := Emitted(blocks[0]), File(blocks[1..]), Pieces(blocks[1..]);
      assert AllHonest(blocks) <==> Honest(blocks[0]) && AllHonest(blocks[1..]) by {
        hide Honest, Declared;
        assert forall i :: 0 < i < |blocks| ==> blocks[i] == blocks[1..][i - 1];
      }
      BlockIsFoundIff(blocks[0], rest);
      DeclaredAgainstEmitted(blocks[0]);
      WalkerVisitsEveryBlockIff(blocks[1..]);
      hide Emitted, BlockLength, Honest, Declared, AllHonest;
      assert (first + rest)[..|first|] == first && (first + rest)[|first|..] == rest;
      FirstPieceTellsIff(first + rest, first, pieces);
    }
  }

  lemma FirstPieceTellsIff(file: seq<byte>, first: seq<byte>, pieces: seq<seq<byte>>)
    requires first != [] && first <= file
    ensures Walked(file) == Some([first] + pieces)
       <==> BlockLength(file) == Some(|first|) && Walked(file[|first|..]) == Some(pieces)
  {
    var n := BlockLength(file);
    assert n.Some? ==> 12 <= n.value <= |file|;
    hide BlockLength;
    assert file[..|first|] == first;
    assert ([first] + pieces)[0] == first && ([first] + pieces)[1..] == pieces;
    if n.Some? && Walked(file[n.value..]).Some? {
      var piece, others := file[..n.value], Walked(file[n.value..]).value;
      assert Walked(file) == Some([piece] + others);
      assert ([piece] + others)[0] == piece && ([piece] + others)[1..] == others;
      assert piece == first ==> n.value == |first|;
    }
  }

  lemma CapturedBetween(head: seq<byte>, data: seq<byte>, tail: seq<byte>)
    requires |head| == 28 && |tail| >= 4 && |data| < U32
    requires FromLE32(head) == EPB && FromLE32(head[20..]) == |data|
    ensures Captured(head + data + tail) == Some(data)
  {
    var e := head + data + tail;
    SameNumber(e, head);
    SameNumber(e[20..], head[20..]);
    hide FromLE32;
    assert e[28..28 + |data|] == data;
  }

  lemma PacketHead(len: seq<byte>, high: u32, low: u32, n: u32)
    requires |len| == 4
    ensures var head := LE32(EPB) + len + (LE32(0) + LE32(high) + LE32(low) + LE32(n) + LE32(n));
            |head| == 28 && FromLE32(head) == EPB && FromLE32(head[20..]) == n
  {
    var typ, zero, h, l, c := LE32(EPB), LE32(0), LE32(high), LE32(low), LE32(n);
    NumberAt([], EPB, len + (zero + h + l + c + c));
    NumberAt(typ + len + (zero + h + l), n, c);
    hide LE32, FromLE32;
    var head := typ + len + (zero + h + l + c + c);
    assert head == [] + typ + (len + (zero + h + l + c + c));
    assert head[0..] == head;
    assert head == typ + len + (zero + h + l) + c + c;
  }

  lemma PacketIsRead(b: Block)
    requires b.Packet? && Declared(b) < U32
    ensures Captured(Emitted(b)) == Some(b.data)
  {
    var (data, comments) := (b.data, b.comments);
    assert |data| < U32 && |data| % U32 == |data|;
    hide LE32, OptionsBytes, Padding, OptionsSize, Repeat, FromLE32, Captured, Declared;
    var len := LE32(Declared(b) % U32);
    var nums := LE32(0) + LE32(b.high) + LE32(b.low) + LE32(|data|) + LE32(|data|);
    var end := Repeat(0xCC, Padding(|data|));
    PacketHead(len, b.high, b.low, |data|);
    CapturedBetween(LE32(EPB) + len + nums, data, end + OptionsBytes(comments) + len);
    SplitPacket(LE32(EPB) + len, nums, data, end, OptionsBytes(comments), len);
  }

  /** And finds the captured octets in each packet block, and none in the others. */
  lemma CapturedIsRead(b: Block)
    requires Declared(b) < U32
    ensures Captured(Emitted(b)) == if b.Packet? then Some(b.data) else None
  {
    if b.Packet? {
      PacketIsRead(b);
    } else {
      TypeIsRead(b);
      hide FromLE32, Emitted;
    }
  }

  lemma TypeIsRead(b: Block)
    ensures FromLE32(Emitted(b)) == Type(b)
  {
    var e, t := Emitted(b), LE32(Type(b));
    hide LE32, Body, Declared, FromLE32;
    SameNumber(e, t);
  }

  lemma SplitPacket(front: seq<byte>, nums: seq<byte>, data: seq<byte>, end: seq<byte>, opts: seq<byte>, len: seq<byte>)
    ensures front + (nums + data + end + opts) + len == (front + nums) + data + (end + opts + len)
  {
  }

  // ----- Times and comments -----

  /** The two halves of the time in a packet block. */
  function Stamp(block: seq<byte>): (u32, u32)
    requires |block| >= FIXED
  {
    (FromLE32(block[12..]), FromLE32(block[16..]))
  }

  /** The options behind the captured octets of a packet block. */
  function OptionPart(block: seq<byte>): Option<seq<byte>> {
    match Captured(block)
    case None => None
    case Some(data) =>
      var at := 28 + |data| + Padding(|data|);
      if at > |block| - 4 then None else Some(block[at..|block| - 4])
  }

  /** The comments among some options, up to the end marker. Others are skipped. */
  function CommentList(options: seq<byte>): Option<seq<seq<byte>>>
    decreases |options|
  {
    if options == [] then Some([])
    else if |options| < 4 then None
    else
      var code, n := FromLE16(options), FromLE16(options[2..]);
      var size := 4 + n + Padding(n);
      if code == 0 then Some([])
      else if size > |options| then None
      else
        match CommentList(options[size..])
        case None => None
        case Some(others) => Some(if code == COMMENT then [options[4..4 + n]] + others else others)
  }

  /** The comments that are written at all. */
  function Spoken(comments: seq<seq<byte>>): seq<seq<byte>> {
    if comments == [] then [] else (if comments[0] == [] then [] else [comments[0]]) + Spoken(comments[1..])
  }

  /** The 16-bit length of an option can hold the length of each comment. */
  predicate AllShort(comments: seq<seq<byte>>) {
    forall i :: 0 <= i < |comments| ==> |comments[i]| < U16
  }

  lemma OptionHead(data: seq<byte>, rest: seq<byte>)
    requires data != []
    ensures var o := OptionBytes(data) + rest;
            && |o| >= 4 && FromLE16(o) == COMMENT && FromLE16(o[2..]) == |data| % U16
            && (|data| < U16 ==> var size := 4 + |data| + Padding(|data|);
                                 size <= |o| && o[4..4 + |data|] == data && o[size..] == rest)
  {
    var code, len, end := LE16(COMMENT), LE16(|data| % U16), Repeat(0xCC, Padding(|data|));
    var o := OptionBytes(data) + rest;
    assert o == code + len + data + end + rest;
    hide LE16, FromLE16, Padding, Repeat, OptionBytes;
    SamePair(o, code);
    SamePair(o[2..], len);
  }

  lemma SameLists<T>(a: T, x: seq<T>, b: T, y: seq<T>)
    ensures [a] + x == [b] + y <==> a == b && x == y
  {
    assert ([a] + x)[1..] == x && ([b] + y)[1..] == y;
    assert ([a] + x)[0] == a && ([b] + y)[0] == b;
  }

  lemma CommentIsTaken(o: seq<byte>, n: nat, size: nat)
    requires |o| >= 4 && FromLE16(o) == COMMENT && FromLE16(o[2..]) == n && size == 4 + n + Padding(n)
    ensures size > |o| ==> CommentList(o) == None
    ensures size <= |o| ==>
              var others := CommentList(o[size..]);
              CommentList(o) == if others.None? then None else Some([o[4..4 + n]] + others.value)
  {
    hide FromLE16, Padding;
  }

  /** An option is read as it was written exactly when its length fits. */
  lemma OptionIsReadIff(data: seq<byte>, rest: seq<byte>, others: seq<seq<byte>>)
    requires data != []
    ensures CommentList(OptionBytes(data) + rest) == Some([data] + others)
       <==> |data| < U16 && CommentList(rest) == Some(others)
  {
    var o := OptionBytes(data) + rest;
    OptionHead(data, rest);
    hide OptionBytes, FromLE16, Padding, CommentList;
    if |data| < U16 {
      ShortOptionIff(o, data, rest, others);
    } else {
      LongOptionIsLost(o, data, others);
    }
  }

  lemma ShortOptionIff(o: seq<byte>, data: seq<byte>, rest: seq<byte>, others: seq<seq<byte>>)
    requires |o| >= 4 && FromLE16(o) == COMMENT && FromLE16(o[2..]) == |data|
    requires var size := 4 + |data| + Padding(|data|);
             size <= |o| && o[4..4 + |data|] == data && o[size..] == rest
    ensures CommentList(o) == Some([data] + others) <==> CommentList(rest) == Some(others)
  {
    hide FromLE16, Padding, CommentList;
    CommentIsTaken(o, |data|, 4 + |data| + Padding(|data|));
    FirstIsReadIff(CommentList(o), data, CommentList(rest), data, others);
  }

  lemma LongOptionIsLost(o: seq<byte>, data: seq<byte>, others: seq<seq<byte>>)
    requires |o| >= 4 && FromLE16(o) == COMMENT && |data| >= U16
    ensures CommentList(o) != Some([data] + others)
  {
    var n: nat := FromLE16(o[2..]);
    assert n < U16;
    hide FromLE16, Padding, CommentList;
    var size := 4 + n + Padding(n);
    CommentIsTaken(o, n, size);
    if size <= |o| {
      assert |o[4..4 + n]| == n;
      FirstIsReadIff(CommentList(o), o[4..4 + n], CommentList(o[size..]), data, others);
    }
  }

  lemma FirstIsReadIff<T>(whole: Option<seq<T>>, first: T, more: Option<seq<T>>, a: T, others: seq<T>)
    requires whole == if more.None? then None else Some([first] + more.value)
    ensures whole == Some([a] + others) <==> first == a && more == Some(others)
  {
    if more.Some? {
      SameLists(first, more.value, a, others);
    }
  }

  lemma {:induction false} EntriesAreReadIff(comments: seq<seq<byte>>)
    ensures CommentList(EntriesBytes(comments) + LE32(0)) == Some(Spoken(comments)) <==> AllShort(comments)
    ensures EntriesBytes(comments) == [] ==> Spoken(comments) == [] && AllShort(comments)
  {
    if comments == [] {
      EndIsRead();
      assert [] + LE32(0) == LE32(0);
    } else {
      EntriesAreReadIff(comments[1..]);
      MoreEntriesAreReadIff(comments[0], comments[1..]);
      assert [comments[0]] + comments[1..] == comments;
      hide *;
    }
  }

  lemma MoreEntriesAreReadIff(c: seq<byte>, others: seq<seq<byte>>)
    requires CommentList(EntriesBytes(others) + LE32(0)) == Some(Spoken(others)) <==> AllShort(others)
    requires EntriesBytes(others) == [] ==> Spoken(others) == [] && AllShort(others)
    ensures var comments := [c] + others;
            && (CommentList(EntriesBytes(comments) + LE32(0)) == Some(Spoken(comments)) <==> AllShort(comments))
            && (EntriesBytes(comments) == [] ==> Spoken(comments) == [] && AllShort(comments))
  {
    var comments, entries, end := [c] + others, EntriesBytes(others), LE32(0);
    assert comments[0] == c && comments[1..] == others;
    assert EntriesBytes(comments) == OptionBytes(c) + entries;
    assert Spoken(comments) == (if c == [] then [] else [c]) + Spoken(others);
    ShortOnes(c, others);
    OptionLength(c);
    hide CommentList, LE32, OptionBytes, EntriesBytes, Spoken, AllShort, OptionSize;
    Regroup(OptionBytes(c), entries, end);
    if c == [] {
      OptionOfNothing();
      assert [] + (entries + end) == entries + end && [] + Spoken(others) == Spoken(others);
    } else {
      OptionIsReadIff(c, entries + end, Spoken(others));
    }
  }

  lemma ShortOnes(c: seq<byte>, others: seq<seq<byte>>)
    ensures AllShort([c] + others) <==> |c| < U16 && AllShort(others)
  {
    var comments := [c] + others;
    assert comments[0] == c;
    assert forall i :: 0 <= i < |others| ==> others[i] == comments[i + 1];
  }

  lemma EndIsRead()
    ensures CommentList(LE32(0)) == Some([])
  {
  }

  lemma CommentListIsReadIff(comments: seq<seq<byte>>)
    ensures CommentList(OptionsBytes(comments)) == Some(Spoken(comments)) <==> AllShort(comments)
  {
    EntriesAreReadIff(comments);
    hide EntriesBytes, Spoken, AllShort, LE32;
  }

  lemma PartsInPlace(e: seq<byte>, front: seq<byte>, zero: seq<byte>, h: seq<byte>, l: seq<byte>, c: seq<byte>,
                     data: seq<byte>, end: seq<byte>, opts: seq<byte>, len: seq<byte>)
    requires |front| == 8 && |zero| == |h| == |l| == |c| == |len| == 4
    requires e == front + (zero + h + l + c + c + data + end + opts) + len
    ensures |e| == 32 + |data| + |end| + |opts|
    ensures e[12..16] == h && e[16..20] == l && e[28 + |data| + |end|..|e| - 4] == opts
  {
  }

  lemma PartsOfPacket(b: Block)
    requires b.Packet? && Declared(b) < U32
    ensures var e, n := Emitted(b), |b.data| + Padding(|b.data|);
            && |e| >= FIXED + n && e[12..16] == LE32(b.high) && e[16..20] == LE32(b.low)
            && e[28 + n..|e| - 4] == OptionsBytes(b.comments)
  {
    hide LE32, OptionsBytes, Padding, OptionsSize, Repeat, Declared;
    var len, h, l, c := LE32(Declared(b) % U32), LE32(b.high), LE32(b.low), LE32(|b.data| % U32);
    var end := Repeat(0xCC, Padding(|b.data|));
    PartsInPlace(Emitted(b), LE32(EPB) + len, LE32(0), h, l, c, b.data, end, OptionsBytes(b.comments), len);
  }

  lemma NumberIn(s: seq<byte>, at: nat, n: u32)
    requires at + 4 <= |s| && s[at..at + 4] == LE32(n)
    ensures FromLE32(s[at..]) == n
  {
    hide LE32;
    var d := s[at..at + 4];
    assert s[at..][0] == d[0] && s[at..][1] == d[1] && s[at..][2] == d[2] && s[at..][3] == d[3];
    SameNumber(s[at..], d);
  }

  lemma StampOf(e: seq<byte>, high: u32, low: u32)
    requires |e| >= FIXED && e[12..16] == LE32(high) && e[16..20] == LE32(low)
    ensures Stamp(e) == (high, low)
  {
    hide LE32, FromLE32;
    NumberIn(e, 12, high);
    NumberIn(e, 16, low);
  }

  lemma OptionPartOf(e: seq<byte>, data: seq<byte>, options: seq<byte>)
    requires Captured(e) == Some(data)
    requires var n := |data| + Padding(|data|); |e| >= FIXED + n && e[28 + n..|e| - 4] == options
    ensures OptionPart(e) == Some(options)
  {
    hide Captured, Padding;
  }

  /** A packet block shows its time, and its options where they were put. */
  lemma PacketPartsAreRead(b: Block)
    requires b.Packet? && Declared(b) < U32
    ensures |Emitted(b)| >= FIXED && Stamp(Emitted(b)) == (b.high, b.low)
    ensures OptionPart(Emitted(b)) == Some(OptionsBytes(b.comments))
  {
    PacketIsRead(b);
    PartsOfPacket(b);
    hide LE32, OptionsBytes, Padding, FromLE32, Captured, Declared, Emitted, Stamp, OptionPart;
    StampOf(Emitted(b), b.high, b.low);
    OptionPartOf(Emitted(b), b.data, OptionsBytes(b.comments));
  }

  /** The comments of a packet block are read back, but for the empty ones, exactly when the
      length of each fits into its field. */
  lemma CommentsAreReadIff(b: Block)
    requires b.Packet? && Declared(b) < U32
    ensures var part := OptionPart(Emitted(b));
            part.Some? && (CommentList(part.value) == Some(Spoken(b.comments)) <==> AllShort(b.comments))
  {
    PacketPartsAreRead(b);
    CommentListIsReadIff(b.comments);
    hide Emitted, OptionPart, Stamp, Declared;
  }

  /** What the two blocks at the start of a file say: the byte order, version 1.0 of the format
      and a section of unknown length; and cooked captures of at most 20000 octets. */
  lemma FileHeadIsRead()
    ensures var e := Emitted(Section);
            && |e| == 28 && FromLE32(e) == 0x0A0D0D0A && FromLE32(e[8..]) == 0x1A2B3C4D
            && FromLE16(e[12..]) == 1 && FromLE16(e[14..]) == 0 && forall i :: 16 <= i < 24 ==> e[i] == 0xFF
    ensures var e := Emitted(Interface);
            |e| == 20 && FromLE32(e) == 1 && FromLE16(e[8..]) == 113 && FromLE16(e[10..]) == 0 && FromLE32(e[12..]) == 20000
  {
    SectionInParts();
    InterfaceInParts();
    var s, i := Emitted(Section), Emitted(Interface);
    TypeIsRead(Section);
    TypeIsRead(Interface);
    hide Emitted, LE32, LE16, FromLE32, FromLE16;
    NumberIn(s, 8, 0x1A2B3C4D);
    NumberIn(i, 12, 20000);
    SamePair(s[12..], s[12..14]);
    SamePair(s[14..], s[14..16]);
    SamePair(i[8..], i[8..10]);
    SamePair(i[10..], i[10..12]);
  }

  lemma SectionInParts()
    ensures var e := Emitted(Section);
            && |e| == 28 && e[8..12] == LE32(0x1A2B3C4D) && e[12..14] == LE16(1) && e[14..16] == LE16(0)
            && forall i :: 16 <= i < 24 ==> e[i] == 0xFF
  {
    hide LE32, LE16;
  }

  lemma InterfaceInParts()
    ensures var e := Emitted(Interface);
            |e| == 20 && e[8..10] == LE16(113) && e[10..12] == LE16(0) && e[12..16] == LE32(20000)
  {
    hide LE32, LE16;
  }
}
