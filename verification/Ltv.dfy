// Length-type-value trees: packing into one buffer with length fields filled in afterwards,
// and unpacking from a receive buffer that may hold more, or less, than one entry.
module Ltv {
  import opened Bytes
  import opened Common

  /** An entry with the octets behind its header and the entries it contains. Both belong to
      every entry, whatever its type: a container that was unpacked keeps the octets its
      children were read from, and a value can be set with the container's type. */
  datatype Entry = Entry(len: nat, id: byte, typ: byte, payload: seq<byte>, children: seq<Entry>)

  const CONT: byte := 6
  const HEADER: nat := 6
  const INT_LIMIT: nat := 0x8000_0000

  /** What the default constructor leaves. */
  const Blank := Entry(0, 0, 0, [], [])

  // ----- Building -----

  /** The octets of a C string. */
  function CString(s: seq<byte>): (r: seq<byte>)
    ensures r <= s && (r < s ==> s[|r|] == 0) && 0 !in r
  {
    if s == [] || s[0] == 0 then [] else [s[0]] + CString(s[1..])
  }

  function SetData(id: byte, typ: byte, data: seq<byte>): Entry {
    Entry(HEADER + |data|, id, typ, data, [])
  }

  function SetStr(id: byte, typ: byte, s: seq<byte>): Entry {
    SetData(id, typ, CString(s))
  }

  /** A string in a field of fixed size, filled up with zeros. */
  function SetBytes(id: byte, typ: byte, s: seq<byte>, size: nat): Entry
    requires |CString(s)| <= size
  {
    SetData(id, typ, CString(s) + Repeat(0, size - |CString(s)|))
  }

  function SetNum(id: byte, typ: byte, n: u32): Entry {
    SetData(id, typ, BE32(n))
  }

  function Container(id: byte, children: seq<Entry>): Entry {
    Entry(HEADER, id, CONT, [], children)
  }

  /** A tree of containers without octets of their own and values without children, no value
      typed as a container, all the way down. */
  predicate WellBuilt(t: Entry) {
    if t.typ == CONT then t == Container(t.id, t.children) && forall c | c in t.children :: WellBuilt(c)
    else t == SetData(t.id, t.typ, t.payload)
  }

  // ----- Packing -----

  function Header(len: nat, id: byte, typ: byte): (h: seq<byte>)
    ensures |h| == HEADER
  {
    BE32(len % U32) + [id, typ]
  }

  /** An entry's own memory: header and payload, as far as its length goes. An entry that was
      never set has none, and one that was read from a broken stream may end in its header. */
  function Own(t: Entry): seq<byte> {
    if t.len < HEADER then Header(t.len, t.id, t.typ)[..t.len] else Header(t.len, t.id, t.typ) + t.payload
  }

  /** The wire form of an entry. The length of a container is written over whatever stands at
      its start. */
  function Packed(t: Entry): seq<byte>
    decreases t, 1
  {
    if t.typ == CONT then Labelled(Own(t) + PackedAll(t.children)) else Own(t)
  }

  function Labelled(all: seq<byte>): (r: seq<byte>)
    ensures |r| == |all|
  {
    if |all| < 4 then all else BE32(|all| % U32) + all[4..]
  }

  function PackedAll(ts: seq<Entry>): seq<byte>
    decreases ts
  {
    if ts == [] then [] else Packed(ts[0]) + PackedAll(ts[1..])
  }

  lemma {:induction false} PackedAllComposes(a: seq<Entry>, b: seq<Entry>)
    ensures PackedAll(a + b) == PackedAll(a) + PackedAll(b)
  {
    hide Packed;
    if a == [] {
      assert a + b == b;
    } else {
      assert (a + b)[0] == a[0] && (a + b)[1..] == a[1..] + b;
      PackedAllComposes(a[1..], b);
      var first, others, after := Packed(a[0]), PackedAll(a[1..]), PackedAll(b);
      assert first + (others + after) == (first + others) + after;
    }
  }

  lemma OneMoreChild(children: seq<Entry>, i: nat)
    requires i < |children|
    ensures PackedAll(children[..i + 1]) == PackedAll(children[..i]) + Packed(children[i])
  {
    hide Packed;
    PackedAllComposes(children[..i], [children[i]]);
    assert children[..i + 1] == children[..i] + [children[i]];
    assert PackedAll([children[i]]) == Packed(children[i]) + PackedAll([]);
  }

  /** What the builders and unpack leave: the payload is what the length says it is. */
  predicate Coherent(t: Entry) {
    && |t.payload| == (if t.len > HEADER then t.len - HEADER else 0)
    && forall c | c in t.children :: Coherent(c)
  }

  /** There is room for the length of every container; otherwise the source writes it behind
      the end of the buffer. */
  predicate HasRoom(t: Entry) {
    && (t.typ == CONT ==> |Packed(t)| >= 4)
    && forall c | c in t.children :: HasRoom(c)
  }

  predicate Packable(t: Entry) {
    Coherent(t) && HasRoom(t)
  }

  lemma OwnSize(t: Entry)
    requires Coherent(t)
    ensures |Own(t)| == t.len
  {
  }

  /** Appends the entry to the buffer. A container goes in with a length field that may not be
      set yet, and gets it once its children have been appended behind it. */
  method Pack(t: Entry, buf: seq<byte>) returns (out: seq<byte>, packed: nat)
    requires Packable(t)
    ensures out == buf + Packed(t) && packed == |Packed(t)|
    decreases t, 1
  {
    OwnSize(t);
    hide Own, PackedAll, Header;
    if t.typ == CONT {
      var lengthPos := |buf|;
      var stale := Unset(Least(4, t.len));
      out := buf + (stale + Own(t)[|stale|..]);
      var subBytes;
      out, subBytes := PackChildren(t.children, out);
      packed := t.len + subBytes;
      LengthIsSet(buf, stale, Own(t)[|stale|..], PackedAll(t.children), packed);
      assert Own(t)[..|stale|] + Own(t)[|stale|..] == Own(t);
      SameLabel(stale, Own(t)[..|stale|], Own(t)[|stale|..], PackedAll(t.children));
      out := out[..lengthPos] + BE32(packed % U32) + out[lengthPos + 4..];
    } else if t.len > 0 {
      out := buf + Own(t);
      packed := t.len;
    } else {
      out := buf;
      packed := 0;
    }
  }

  lemma LengthIsSet(buf: seq<byte>, stale: seq<byte>, own: seq<byte>, body: seq<byte>, n: nat)
    requires n == |stale + own| + |body| >= 4
    ensures var out := buf + (stale + own) + body;
            out[..|buf|] + BE32(n % U32) + out[|buf| + 4..] == buf + Labelled(stale + own + body)
  {
    var out := buf + (stale + own) + body;
    assert out[..|buf|] == buf && out[|buf|..] == stale + own + body;
    assert out[|buf| + 4..] == out[|buf|..][4..];
    hide BE32;
  }

  lemma SameLabel(stale: seq<byte>, old4: seq<byte>, own: seq<byte>, body: seq<byte>)
    requires |stale| == |old4| <= 4 && (|stale| < 4 ==> own == []) && |stale| + |own| + |body| >= 4
    ensures Labelled(stale + own + body) == Labelled(old4 + own + body)
  {
    assert (stale + own + body)[4..] == (old4 + own + body)[4..];
    hide BE32;
  }

  method PackChildren(children: seq<Entry>, buf: seq<byte>) returns (out: seq<byte>, subBytes: nat)
    requires forall c | c in children :: Packable(c)
    ensures out == buf + PackedAll(children) && subBytes == |PackedAll(children)|
    decreases children, 0
  {
    hide *;
    out, subBytes := buf, 0;
    NoChildren();
    for i := 0 to |children|
      invariant out == buf + PackedAll(children[..i]) && subBytes == |PackedAll(children[..i])|
    {
      var n;
      out, n := Pack(children[i], out);
      subBytes := subBytes + n;
      OneMoreChild(children, i);
    }
    assert children[..|children|] == children;
  }

  lemma NoChildren()
    ensures PackedAll([]) == []
  {
  }

  /** Some octets of memory nobody has written yet. */
  method Unset(n: nat) returns (stale: seq<byte>)
    ensures |stale| == n
  {
    stale := *;
    if |stale| != n {
      stale := Repeat(0, n);
    }
  }

  // ----- Unpacking -----

  /** What unpack reports. The integer it returns is -1 for Short, 0 for More and the
      number of octets used for Done; Overrun is a read past the memory behind the pointer,
      which the source does not check for. */
  datatype Outcome<+T> = Short | More | Done(value: T, red: nat) | Overrun

  function Returned(o: Outcome<Entry>): int
    requires !o.Overrun?
  {
    match o
    case Short => -1
    case More => 0
    case Done(_, red) => red
  }

  /** An entry read at the start of mem, when the caller says buflen octets are there. The
      top entry owns a copy of its octets; entries inside point into that copy. */
  function Unpacked(mem: seq<byte>, buflen: nat, owner: bool): Outcome<Entry>
    requires buflen < INT_LIMIT
    decreases buflen, 0
  {
    if buflen < 4 then Short
    else if |mem| < 4 then Overrun
    else
      var len := FromBE32(mem);
      if buflen < len then More
      else if |mem| < HEADER || |mem| < len then Overrun
      else
        var id, typ := mem[4], mem[5];
        var payload := if len < HEADER then [] else mem[HEADER..len];
        if typ != CONT || len <= HEADER then Done(Entry(len, id, typ, payload, []), len)
        else
          var data := if owner then payload else mem[HEADER..];
          match UnpackedAll(data, len - HEADER, 0)
          case Done(children, _) => Done(Entry(len, id, typ, payload, children), len)
          case _ => Overrun
  }

  /** The sub-entry loop from one index on. Every sub-entry is offered the whole payload
      length, and an error code is taken for a very long entry. */
  function UnpackedAll(mem: seq<byte>, payloadLen: nat, index: nat): Outcome<seq<Entry>>
    requires 0 < payloadLen < INT_LIMIT && index < payloadLen
    decreases payloadLen, 1, payloadLen - index
  {
    if |mem| < index then Overrun
    else
      match Unpacked(mem[index..], payloadLen, false)
      case Overrun => Overrun
      case Short => Done([Blank], 0)
      case More => Done([], 0)
      case Done(e, red) =>
        if red == 0 then Done([], 0)
        else if index + red >= payloadLen then Done([e], 0)
        else Prepend(e, UnpackedAll(mem, payloadLen, index + red))
  }

  function Prepend(e: Entry, o: Outcome<seq<Entry>>): Outcome<seq<Entry>> {
    match o
    case Done(es, red) => Done([e] + es, red)
    case _ => o
  }

  function PrependAll(es: seq<Entry>, o: Outcome<seq<Entry>>): Outcome<seq<Entry>> {
    match o
    case Done(fs, red) => Done(es + fs, red)
    case _ => o
  }

  method Unpack(mem: seq<byte>, buflen: nat, owner: bool) returns (o: Outcome<Entry>)
    requires buflen < INT_LIMIT
    ensures o == Unpacked(mem, buflen, owner)
    decreases buflen, 0
  {
    if buflen < 4 {
      return Short;
    }
    if |mem| < 4 {
      return Overrun;
    }
    var len := FromBE32(mem);
    if buflen < len {
      return More;
    }
    if |mem| < HEADER || |mem| < len {
      return Overrun;
    }
    var id, typ := mem[4], mem[5];
    var payload := if len < HEADER then [] else mem[HEADER..len];
    if typ == CONT && len > HEADER {
      var data := if owner then payload else mem[HEADER..];
      var children := UnpackChildren(data, len - HEADER);
      match children {
        case Done(es, _) => return Done(Entry(len, id, typ, payload, es), len);
        case _ => return Overrun;
      }
    }
    return Done(Entry(len, id, typ, payload, []), len);
  }

  lemma PrependFacts(es: seq<Entry>, e: Entry, o: Outcome<seq<Entry>>)
    ensures PrependAll([], o) == o
    ensures PrependAll(es, Done([], 0)) == Done(es, 0)
    ensures PrependAll(es, Done([e], 0)) == Done(es + [e], 0)
    ensures PrependAll(es, Prepend(e, o)) == PrependAll(es + [e], o)
  {
    assert es + [] == es;
    match o {
      case Done(fs, _) =>
        assert [] + fs == fs;
        assert es + ([e] + fs) == es + [e] + fs;
      case _ =>
    }
  }

  method UnpackChildren(data: seq<byte>, payloadLen: nat) returns (o: Outcome<seq<Entry>>)
    requires 0 < payloadLen < INT_LIMIT
    ensures o == UnpackedAll(data, payloadLen, 0)
    decreases payloadLen, 1
  {
    hide Unpacked;
    var contains: seq<Entry> := [];
    var dataIndex := 0;
    PrependFacts([], Blank, UnpackedAll(data, payloadLen, 0));
    while true
      invariant dataIndex < payloadLen
      invariant UnpackedAll(data, payloadLen, 0) == PrependAll(contains, UnpackedAll(data, payloadLen, dataIndex))
      decreases payloadLen - dataIndex
    {
      if |data| < dataIndex {
        return Overrun;
      }
      var sub := Unpack(data[dataIndex..], payloadLen, false);
      match sub {
        case Overrun =>
          return Overrun;
        case Short =>
          PrependFacts(contains, Blank, Overrun);
          // the error code -1 is read as an unsigned length: the blank entry is kept
          return Done(contains + [Blank], 0);
        case More =>
          PrependFacts(contains, Blank, Overrun);
          return Done(contains, 0);
        case Done(e, red) =>
          ghost var ahead := dataIndex + red;
          PrependFacts(contains, e, if 0 < ahead < payloadLen then UnpackedAll(data, payloadLen, ahead) else Overrun);
          if red == 0 {
            return Done(contains, 0);
          }
          contains := contains + [e];
          dataIndex := dataIndex + red;
          if dataIndex >= payloadLen {
            return Done(contains, 0);
          }
      }
    }
  }

  // ----- What unpacking keeps -----

  lemma HeaderFields(len: nat, id: byte, typ: byte, rest: seq<byte>)
    requires len < U32
    ensures var m := Header(len, id, typ) + rest;
            FromBE32(m) == len && m[4] == id && m[5] == typ && m[HEADER..] == rest
  {
    hide FromBE32, BE32;
    var h, n := Header(len, id, typ), BE32(len);
    assert len % U32 == len && h == n + [id, typ];
    hide Header;
    var m := h + rest;
    assert m[0] == n[0] && m[1] == n[1] && m[2] == n[2] && m[3] == n[3];
    SameNumber(m, n);
  }

  /** Every entry unpack reports, nested or not, holds exactly the octets it was read from,
      and an entry that is not a container contains nothing. */
  lemma UnpackedKeepsItsOctets(mem: seq<byte>, buflen: nat, owner: bool)
    requires buflen < INT_LIMIT
    ensures var o := Unpacked(mem, buflen, owner);
            o.Done? ==>
              && o.red == o.value.len <= buflen
              && o.red <= |mem| && HEADER <= |mem|
              && (o.red >= HEADER ==>
                    mem[..o.red] == Header(o.red, o.value.id, o.value.typ) + o.value.payload)
              && (o.value.typ != CONT || o.red <= HEADER ==> o.value.children == [])
  {
    var o := Unpacked(mem, buflen, owner);
    if o.Done? && o.red >= HEADER {
      assert o.red == FromBE32(mem) && o.value.id == mem[4] && o.value.typ == mem[5];
      assert o.value.payload == mem[HEADER..o.red];
      BE32OfFromBE32(mem);
      assert o.red % U32 == o.red;
      hide FromBE32, BE32, Unpacked;
      assert mem[..4] + [mem[4], mem[5]] + mem[HEADER..o.red] == mem[..o.red];
    }
  }

  /** The blank entry nobody sent appears among the children of a container exactly when its
      payload is too short for a length field. */
  lemma {:induction false} BlankIffTooShort(mem: seq<byte>, payloadLen: nat, index: nat)
    requires 0 < payloadLen < INT_LIMIT && index < payloadLen && (payloadLen < 4 ==> index == 0)
    ensures var o := UnpackedAll(mem, payloadLen, index);
            && (payloadLen < 4 ==> o == Done([Blank], 0))
            && (payloadLen >= 4 && o.Done? ==> Blank !in o.value)
    decreases payloadLen - index
  {
    hide Unpacked, Header;
    if |mem| >= index {
      ShortIff(mem[index..], payloadLen);
      UnpackedKeepsItsOctets(mem[index..], payloadLen, false);
      var sub := Unpacked(mem[index..], payloadLen, false);
      if sub.Done? && 0 < sub.red && index + sub.red < payloadLen {
        BlankIffTooShort(mem, payloadLen, index + sub.red);
      }
    }
  }

  lemma ShortIff(mem: seq<byte>, buflen: nat)
    requires buflen < INT_LIMIT
    ensures Unpacked(mem, buflen, false).Short? <==> buflen < 4
  {
    hide UnpackedAll, FromBE32;
  }

  lemma BlankEntryIff(mem: seq<byte>, buflen: nat, owner: bool)
    requires buflen < INT_LIMIT
    ensures var o := Unpacked(mem, buflen, owner);
            o.Done? ==> (Blank in o.value.children <==> o.value.typ == CONT && 0 < |o.value.payload| < 4)
  {
    if buflen >= 4 && |mem| >= HEADER {
      var len := FromBE32(mem);
      if HEADER < len <= buflen && len <= |mem| && mem[5] == CONT {
        BlankIffTooShort(if owner then mem[HEADER..len] else mem[HEADER..], len - HEADER, 0);
      }
    }
  }

  lemma {:induction false} UnpackedIsCoherent(mem: seq<byte>, buflen: nat, owner: bool)
    requires buflen < INT_LIMIT
    ensures var o := Unpacked(mem, buflen, owner); o.Done? ==> Coherent(o.value)
    decreases buflen, 0
  {
    hide FromBE32;
    if buflen >= 4 && |mem| >= HEADER {
      var len := FromBE32(mem);
      if HEADER < len <= buflen && len <= |mem| && mem[5] == CONT {
        var data := if owner then mem[HEADER..len] else mem[HEADER..];
        ChildrenAreCoherent(data, len - HEADER, 0);
        hide UnpackedAll;
      }
    }
  }

  lemma {:induction false} ChildrenAreCoherent(mem: seq<byte>, payloadLen: nat, index: nat)
    requires 0 < payloadLen < INT_LIMIT && index < payloadLen
    ensures var o := UnpackedAll(mem, payloadLen, index); o.Done? ==> forall c | c in o.value :: Coherent(c)
    decreases payloadLen, 1, payloadLen - index
  {
    hide Unpacked;
    assert Coherent(Blank);
    if |mem| >= index {
      UnpackedIsCoherent(mem[index..], payloadLen, false);
      hide Coherent;
      var o := Unpacked(mem[index..], payloadLen, false);
      if o.Done? && o.red > 0 && index + o.red < payloadLen {
        ChildrenAreCoherent(mem, payloadLen, index + o.red);
      }
    }
  }

  // ----- When the wire form is read back -----

  /** A tree after packing and unpacking, when nothing goes wrong: containers hold the octets
      of their children as well. */
  function Filled(t: Entry): Entry {
    if t.typ == CONT then Entry(|Packed(t)|, t.id, CONT, Behind(Packed(t)), FilledAll(t.children))
    else t.(children := FilledAll(t.children))
  }

  function FilledAll(ts: seq<Entry>): seq<Entry> {
    if ts == [] then [] else [Filled(ts[0])] + FilledAll(ts[1..])
  }

  /** What a packed entry has behind its header. */
  function Behind(p: seq<byte>): seq<byte> {
    if |p| < HEADER then [] else p[HEADER..]
  }

  /** The octets from which unpack makes this entry: a whole header, even if the entry is
      shorter than that. */
  function Wire(t: Entry): seq<byte> {
    Header(|Packed(t)|, t.id, t.typ) + Behind(Packed(t))
  }

  /** The sub-entry loop ends here without another entry: the next length is longer than the
      payload, or zero with a whole header in memory. */
  predicate Stops(mem: seq<byte>, payloadLen: nat) {
    && |mem| >= 4
    && (FromBE32(mem) > payloadLen || (FromBE32(mem) == 0 && |mem| >= HEADER))
  }

  /** Whether the contents of an entry come back, by looking at the tree; after is the memory
      behind the entry. A value and a container without octets contain nothing; a payload too
      short for a length gives the blank entry; any other is walked by the sub-entry loop. */
  predicate Opens(t: Entry, after: seq<byte>)
    decreases t, 0
  {
    var n := |Packed(t)|;
    if t.typ != CONT || n <= HEADER then t.children == []
    else if n < HEADER + 4 then t.children == [Blank]
    else Follows(t.children, Behind(Packed(t)) + after, n - HEADER, 0)
  }

  /** The loop meets exactly these entries: each of them is packed to something, stands where
      the one before it ends, and opens; and behind the last one the payload ends or the loop
      stops. */
  predicate Follows(ts: seq<Entry>, mem: seq<byte>, payloadLen: nat, index: nat)
    requires index <= |mem|
    decreases ts
  {
    if ts == [] then Stops(mem[index..], payloadLen)
    else
      var n := |Packed(ts[0])|;
      && 0 < n <= payloadLen && index + n <= |mem| && Wire(ts[0]) <= mem[index..]
      && Opens(ts[0], mem[index + n..])
      && if index + n >= payloadLen then ts[1..] == [] else Follows(ts[1..], mem, payloadLen, index + n)
  }

  /** Whether a tree comes back when rest follows it in the receive buffer. The header only
      needs a look at that for an entry shorter than its header. */
  predicate Survives(t: Entry, rest: seq<byte>) {
    Header(|Packed(t)|, t.id, t.typ) <= Packed(t) + rest && Opens(t, [])
  }

  // Lengths and contents of packed entries.

  lemma PackedSize(t: Entry)
    requires Coherent(t)
    ensures Filled(t).len == |Packed(t)| && Filled(t).id == t.id && Filled(t).typ == t.typ
    ensures Filled(t).payload == Behind(Packed(t))
    ensures |Packed(t)| == t.len + if t.typ == CONT then |PackedAll(t.children)| else 0
  {
    OwnSize(t);
    hide Header, PackedAll;
  }

  lemma WholeHeader(t: Entry)
    requires Coherent(t) && t.len >= HEADER && |Packed(t)| < U32
    ensures Packed(t) == Wire(t)
    ensures Behind(Packed(t)) == if t.typ == CONT then t.payload + PackedAll(t.children) else t.payload
  {
    var body := if t.typ == CONT then t.payload + PackedAll(t.children) else t.payload;
    PackedSize(t);
    var h, n := Header(t.len, t.id, t.typ), |Packed(t)|;
    if t.typ == CONT {
      Regroup(h, t.payload, PackedAll(t.children));
      Relabelled(t.len, t.id, t.typ, body, n);
    }
    hide PackedAll, Header, Coherent, Labelled;
    assert Packed(t) == Header(n, t.id, t.typ) + body;
    hide Packed;
  }

  lemma Relabelled(len: nat, id: byte, typ: byte, body: seq<byte>, n: nat)
    requires n == HEADER + |body| < U32
    ensures Labelled(Header(len, id, typ) + body) == Header(n, id, typ) + body
  {
    var all := Header(len, id, typ) + body;
    assert n % U32 == n;
    hide BE32;
    assert all[4..] == [id, typ] + body;
  }

  /** Unpack reads this entry here exactly when its octets stand here and its contents open;
      the lemmas below it are used for its contents, and it for smaller trees in turn. */
  lemma {:induction false} EntryIff(t: Entry, m: seq<byte>, buflen: nat, owner: bool)
    requires Packable(t) && 4 <= buflen < INT_LIMIT
    ensures var n := |Packed(t)|;
            Unpacked(m, buflen, owner) == Done(Filled(t), n)
            <==> n <= buflen && n <= |m| && Wire(t) <= m && Opens(t, if owner then [] else m[n..])
    decreases t, 1
  {
    var n := |Packed(t)|;
    hide *;
    if Unpacked(m, buflen, owner) == Done(Filled(t), n) {
      PackableIsCoherent(t);
      HeaderStandsIff(t, m, buflen, owner);
    }
    if n <= buflen && n <= |m| && Wire(t) <= m {
      ContentsIff(t, m, buflen, owner);
    }
  }

  lemma PackableIsCoherent(t: Entry)
    requires Packable(t)
    ensures Coherent(t) && forall c | c in t.children :: Packable(c)
  {
  }

  lemma {:induction false} ContentsIff(t: Entry, m: seq<byte>, buflen: nat, owner: bool)
    requires Packable(t) && 4 <= buflen < INT_LIMIT
    requires |Packed(t)| <= buflen && |Packed(t)| <= |m| && Wire(t) <= m
    ensures var n := |Packed(t)|;
            Unpacked(m, buflen, owner) == Done(Filled(t), n) <==> Opens(t, if owner then [] else m[n..])
    decreases t, 0
  {
    var n := |Packed(t)|;
    hide *;
    PackableIsCoherent(t);
    PayloadStands(t, m);
    OpensOne(t, if owner then [] else m[n..]);
    if t.typ == CONT && n > HEADER {
      var body := Behind(Packed(t));
      var data := if owner then body else m[HEADER..];
      assert m[HEADER..] == body + m[n..] && body + [] == body;
      ContainerIff(t, m, buflen, owner);
      if n < HEADER + 4 {
        BlankIffTooShort(data, n - HEADER, 0);
        OnlyBlank(t.children);
      } else {
        ChildrenIff(t.children, data, n - HEADER, 0);
      }
    } else {
      ChildlessIff(t, m, buflen, owner);
    }
  }

  /** What is read as this entry stands here. */
  lemma HeaderStandsIff(t: Entry, m: seq<byte>, buflen: nat, owner: bool)
    requires Coherent(t) && 4 <= buflen < INT_LIMIT
    requires Unpacked(m, buflen, owner) == Done(Filled(t), |Packed(t)|)
    ensures |Packed(t)| <= buflen && |Packed(t)| <= |m| && Wire(t) <= m
  {
    UnpackedKeepsItsOctets(m, buflen, owner);
    ShortHeaderIsKept(m, buflen, owner);
    PackedSize(t);
    var n := |Packed(t)|;
    hide Unpacked, Packed, Filled, Header, Coherent;
    if n >= HEADER {
      assert m == m[..n] + m[n..];
    } else {
      assert m == m[..HEADER] + m[HEADER..];
    }
  }

  lemma ShortHeaderIsKept(mem: seq<byte>, buflen: nat, owner: bool)
    requires buflen < INT_LIMIT
    ensures var o := Unpacked(mem, buflen, owner);
            o.Done? && o.red < HEADER ==> |mem| >= HEADER && mem[..HEADER] == Header(o.red, o.value.id, o.value.typ)
  {
    var o := Unpacked(mem, buflen, owner);
    if o.Done? && o.red < HEADER {
      assert o.red == FromBE32(mem) && o.value.id == mem[4] && o.value.typ == mem[5];
      BE32OfFromBE32(mem);
      assert o.red % U32 == o.red;
      hide FromBE32, BE32, Unpacked;
      assert mem[..4] + [mem[4], mem[5]] == mem[..HEADER];
    }
  }

  lemma PayloadStands(t: Entry, m: seq<byte>)
    requires Wire(t) <= m && |Packed(t)| < INT_LIMIT && |Packed(t)| <= |m|
    ensures |m| >= HEADER && FromBE32(m) == |Packed(t)| && m[4] == t.id && m[5] == t.typ
    ensures |Packed(t)| >= HEADER ==> m[HEADER..|Packed(t)|] == Behind(Packed(t))
  {
    var n, b := |Packed(t)|, Behind(Packed(t));
    hide Packed;
    var tail := m[|Wire(t)|..];
    assert m == Wire(t) + tail;
    Regroup(Header(n, t.id, t.typ), b, tail);
    HeaderFields(n, t.id, t.typ, b + tail);
    assert m[HEADER..] == b + tail;
  }

  lemma OpensOne(t: Entry, after: seq<byte>)
    ensures var n := |Packed(t)|;
            Opens(t, after) <==> if t.typ != CONT || n <= HEADER then t.children == []
                                 else if n < HEADER + 4 then t.children == [Blank]
                                 else Follows(t.children, Behind(Packed(t)) + after, n - HEADER, 0)
  {
    hide Packed, Behind, Follows;
  }

  lemma ChildlessIff(t: Entry, m: seq<byte>, buflen: nat, owner: bool)
    requires Coherent(t) && 4 <= buflen < INT_LIMIT && |Packed(t)| <= buflen && |Packed(t)| <= |m|
    requires |m| >= HEADER && FromBE32(m) == |Packed(t)| && m[4] == t.id && m[5] == t.typ
    requires |Packed(t)| >= HEADER ==> m[HEADER..|Packed(t)|] == Behind(Packed(t))
    requires t.typ != CONT || |Packed(t)| <= HEADER
    ensures Unpacked(m, buflen, owner) == Done(Filled(t), |Packed(t)|) <==> t.children == []
  {
    PackedSize(t);
    assert |FilledAll(t.children)| == 0 <==> t.children == [];
    FilledHasChildren(t);
    var n := |Packed(t)|;
    hide FromBE32, UnpackedAll, Packed, Filled, FilledAll, Coherent;
    assert Unpacked(m, buflen, owner) == Done(Entry(n, t.id, t.typ, Filled(t).payload, []), n);
  }

  lemma FilledHasChildren(t: Entry)
    ensures Filled(t).children == FilledAll(t.children)
  {
    hide Packed;
  }

  lemma ContainerIff(t: Entry, m: seq<byte>, buflen: nat, owner: bool)
    requires Coherent(t) && t.typ == CONT && HEADER < |Packed(t)| <= buflen < INT_LIMIT && |Packed(t)| <= |m|
    requires FromBE32(m) == |Packed(t)| && m[4] == t.id && m[5] == CONT
    requires m[HEADER..|Packed(t)|] == Behind(Packed(t))
    ensures Unpacked(m, buflen, owner) == Done(Filled(t), |Packed(t)|)
       <==> UnpackedAll(if owner then Behind(Packed(t)) else m[HEADER..], |Packed(t)| - HEADER, 0)
            == Done(FilledAll(t.children), 0)
  {
    PackedSize(t);
    FilledHasChildren(t);
    var n := |Packed(t)|;
    var o := UnpackedAll(if owner then Behind(Packed(t)) else m[HEADER..], n - HEADER, 0);
    LoopReportsZero(if owner then Behind(Packed(t)) else m[HEADER..], n - HEADER, 0);
    hide FromBE32, UnpackedAll, Packed, Filled, FilledAll, Coherent;
    assert Unpacked(m, buflen, owner)
        == if o.Done? then Done(Entry(n, t.id, CONT, Filled(t).payload, o.value), n) else Overrun;
  }

  lemma OnlyBlank(ts: seq<Entry>)
    ensures FilledAll(ts) == [Blank] <==> ts == [Blank]
  {
    hide Packed;
    if ts != [] {
      var first, others := Filled(ts[0]), FilledAll(ts[1..]);
      assert FilledAll(ts) == [first] + others;
      assert FilledAll(ts)[0] == first && FilledAll(ts)[1..] == others;
      assert others == [] <==> ts[1..] == [];
      FilledHasChildren(ts[0]);
      assert |FilledAll(ts[0].children)| == 0 <==> ts[0].children == [];
      assert first == Blank <==> ts[0] == Blank;
    }
  }

  lemma {:induction false} LoopReportsZero(mem: seq<byte>, payloadLen: nat, index: nat)
    requires 0 < payloadLen < INT_LIMIT && index < payloadLen
    ensures var o := UnpackedAll(mem, payloadLen, index); o.Done? ==> o.red == 0
    decreases payloadLen - index
  {
    hide Unpacked;
    if |mem| >= index {
      var o := Unpacked(mem[index..], payloadLen, false);
      if o.Done? && o.red > 0 && index + o.red < payloadLen {
        LoopReportsZero(mem, payloadLen, index + o.red);
      }
    }
  }

  lemma {:induction false} ChildrenIff(ts: seq<Entry>, mem: seq<byte>, payloadLen: nat, index: nat)
    requires 4 <= payloadLen < INT_LIMIT && index < payloadLen && index <= |mem|
    requires forall c | c in ts :: Packable(c)
    ensures UnpackedAll(mem, payloadLen, index) == Done(FilledAll(ts), 0) <==> Follows(ts, mem, payloadLen, index)
    decreases ts
  {
    hide *;
    FollowsOne(ts, mem, payloadLen, index);
    if ts == [] {
      NothingFilled();
      EndIff(mem, payloadLen, index);
    } else {
      var n := |Packed(ts[0])|;
      EntryIff(ts[0], mem[index..], payloadLen, false);
      StepIff(ts, mem, payloadLen, index);
      if 0 < n <= payloadLen && index + n <= |mem| {
        assert mem[index..][n..] == mem[index + n..];
        if index + n < payloadLen {
          ChildrenIff(ts[1..], mem, payloadLen, index + n);
        }
      }
    }
  }

  lemma NothingFilled()
    ensures FilledAll([]) == []
  {
  }

  lemma FollowsOne(ts: seq<Entry>, mem: seq<byte>, payloadLen: nat, index: nat)
    requires index <= |mem|
    ensures Follows(ts, mem, payloadLen, index)
       <==> if ts == [] then Stops(mem[index..], payloadLen)
            else
              var n := |Packed(ts[0])|;
              && 0 < n <= payloadLen && index + n <= |mem| && Wire(ts[0]) <= mem[index..]
              && Opens(ts[0], mem[index + n..])
              && if index + n >= payloadLen then ts[1..] == [] else Follows(ts[1..], mem, payloadLen, index + n)
  {
    hide Stops, Opens, Packed, Wire;
  }

  lemma EndIff(mem: seq<byte>, payloadLen: nat, index: nat)
    requires 4 <= payloadLen < INT_LIMIT && index < payloadLen && index <= |mem|
    ensures UnpackedAll(mem, payloadLen, index) == Done([], 0) <==> Stops(mem[index..], payloadLen)
  {
    UnpackedKeepsItsOctets(mem[index..], payloadLen, false);
    StopIff(mem[index..], payloadLen);
    hide Unpacked, Stops;
    var o := Unpacked(mem[index..], payloadLen, false);
    if o.Done? && o.red > 0 && index + o.red < payloadLen {
      assert Prepend(o.value, UnpackedAll(mem, payloadLen, index + o.red)) != Done([], 0);
    }
  }

  lemma StopIff(m: seq<byte>, payloadLen: nat)
    requires 4 <= payloadLen < INT_LIMIT
    ensures var o := Unpacked(m, payloadLen, false);
            o.More? || (o.Done? && o.red == 0) <==> Stops(m, payloadLen)
  {
    hide UnpackedAll, FromBE32;
  }

  /** The loop takes the first of some entries, then the others; one of length zero it never
      takes. */
  lemma StepIff(ts: seq<Entry>, mem: seq<byte>, payloadLen: nat, index: nat)
    requires 4 <= payloadLen < INT_LIMIT && index < payloadLen && index <= |mem| && ts != [] && Packable(ts[0])
    ensures var n := |Packed(ts[0])|;
            UnpackedAll(mem, payloadLen, index) == Done(FilledAll(ts), 0)
            <==> && n > 0 && Unpacked(mem[index..], payloadLen, false) == Done(Filled(ts[0]), n)
                 && if index + n >= payloadLen then ts[1..] == []
                    else UnpackedAll(mem, payloadLen, index + n) == Done(FilledAll(ts[1..]), 0)
  {
    hide Unpacked, Packed;
    var o, n := Unpacked(mem[index..], payloadLen, false), |Packed(ts[0])|;
    ShortIff(mem[index..], payloadLen);
    UnpackedKeepsItsOctets(mem[index..], payloadLen, false);
    PackedSize(ts[0]);
    var all, head, tail := FilledAll(ts), Filled(ts[0]), FilledAll(ts[1..]);
    assert all == [head] + tail && all[0] == head && all[1..] == tail;
    assert tail == [] <==> ts[1..] == [];
    hide Filled, FilledAll, Coherent, HasRoom, Header;
    if o.Done? && o.red > 0 && index + o.red < payloadLen {
      var more := UnpackedAll(mem, payloadLen, index + o.red);
      if more.Done? {
        assert ([o.value] + more.value)[0] == o.value && ([o.value] + more.value)[1..] == more.value;
      }
    } else if o.Done? && o.red > 0 {
      assert [o.value] == all ==> o.value == head && tail == [];
    }
  }

  /** The packed entry and what follows it fit into a receive buffer. */
  predicate CanBeReceived(t: Entry, rest: seq<byte>) {
    |Packed(t) + rest| < INT_LIMIT
  }

  /** What the other end unpacks from the packed entry and what follows it. */
  function WayRound(t: Entry, rest: seq<byte>): Outcome<Entry>
    requires CanBeReceived(t, rest)
  {
    Unpacked(Packed(t) + rest, |Packed(t) + rest|, true)
  }

  /** Packing a tree and unpacking it, whatever follows in the receive buffer, gives the tree
      and its length back if and only if it survives by the condition above. */
  lemma RoundTripIff(t: Entry, rest: seq<byte>)
    requires Packable(t) && CanBeReceived(t, rest)
    ensures WayRound(t, rest) == Done(Filled(t), |Packed(t)|) <==> Survives(t, rest)
  {
    var m := Packed(t) + rest;
    WireStandsIff(t, rest);
    hide Packable, Header, Wire, Opens, Packed, UnpackedAll, Filled;
    if |m| >= 4 {
      hide Unpacked;
      EntryIff(t, m, |m|, true);
    }
  }

  lemma WireStandsIff(t: Entry, rest: seq<byte>)
    ensures Wire(t) <= Packed(t) + rest <==> Header(|Packed(t)|, t.id, t.typ) <= Packed(t) + rest
  {
    var p, h := Packed(t), Header(|Packed(t)|, t.id, t.typ);
    hide Packed, Header;
    if h <= p + rest && |p| >= HEADER {
      assert h == (p + rest)[..HEADER] == p[..HEADER];
      assert Wire(t) == p;
    }
    if |p| < HEADER {
      assert Wire(t) == h;
    }
  }

  lemma {:induction false} WellBuiltIsPackable(t: Entry)
    requires WellBuilt(t)
    ensures Packable(t) && t.len >= HEADER
    decreases t
  {
    hide Packed;
    forall c | c in t.children
      ensures Packable(c)
    {
      WellBuiltIsPackable(c);
    }
    PackedSize(t);
  }

  lemma {:induction false} WellBuiltOpens(t: Entry, after: seq<byte>)
    requires WellBuilt(t) && |Packed(t)| < U32
    ensures Opens(t, after)
    decreases t, 0
  {
    OpensOne(t, after);
    WellBuiltIsPackable(t);
    PackedSize(t);
    WholeHeader(t);
    if t.typ == CONT {
      var body := PackedAll(t.children);
      assert [] + body == body && (body + after)[0..] == body + after;
      NothingLeft(t.children);
      if body != [] {
        WellBuiltFollow(t.children, body + after, |body|, 0);
      }
    }
    hide *;
  }

  lemma {:induction false} NothingLeft(ts: seq<Entry>)
    requires forall c | c in ts :: WellBuilt(c)
    ensures if ts == [] then PackedAll(ts) == [] else |PackedAll(ts)| >= HEADER
  {
    if ts != [] {
      WellBuiltIsPackable(ts[0]);
      PackedSize(ts[0]);
      hide Packed;
    }
  }

  lemma {:induction false} WellBuiltFollow(ts: seq<Entry>, mem: seq<byte>, payloadLen: nat, index: nat)
    requires ts != [] && forall c | c in ts :: WellBuilt(c)
    requires index + |PackedAll(ts)| == payloadLen < U32 && index <= |mem| && PackedAll(ts) <= mem[index..]
    ensures Follows(ts, mem, payloadLen, index)
    decreases ts
  {
    hide *;
    FollowsOne(ts, mem, payloadLen, index);
    FirstOfWellBuilt(ts);
    var p, others := Packed(ts[0]), PackedAll(ts[1..]);
    assert mem[index..] == p + (others + mem[payloadLen..]);
    assert mem[index + |p|..] == others + mem[payloadLen..];
    assert p <= mem[index..] && |p| <= |PackedAll(ts)| <= payloadLen;
    WellBuiltOpens(ts[0], mem[index + |p|..]);
    if ts[1..] != [] {
      WellBuiltFollow(ts[1..], mem, payloadLen, index + |p|);
    }
  }

  lemma FirstOfWellBuilt(ts: seq<Entry>)
    requires ts != [] && (forall c | c in ts :: WellBuilt(c)) && |PackedAll(ts)| < U32
    ensures WellBuilt(ts[0]) && forall c | c in ts[1..] :: WellBuilt(c)
    ensures PackedAll(ts) == Packed(ts[0]) + PackedAll(ts[1..])
    ensures Packed(ts[0]) == Wire(ts[0]) && Packed(ts[0]) != []
    ensures ts[1..] == [] <==> PackedAll(ts[1..]) == []
  {
    WellBuiltIsPackable(ts[0]);
    assert forall c | c in ts[1..] :: c in ts;
    NothingLeft(ts[1..]);
    hide Packed, Wire, WellBuilt, HasRoom;
    PackedSize(ts[0]);
    WholeHeader(ts[0]);
    hide Coherent;
  }

  /** So every tree of containers and properly typed values comes back. */
  lemma RoundTrip(t: Entry, rest: seq<byte>)
    requires WellBuilt(t) && CanBeReceived(t, rest)
    ensures Packable(t) && WayRound(t, rest) == Done(Filled(t), |Packed(t)|)
  {
    WellBuiltIsPackable(t);
    WholeHeader(t);
    WellBuiltOpens(t, []);
    WireStandsIff(t, rest);
    hide Packable, Packed, Wire, WellBuilt, Opens, Filled, Unpacked;
    RoundTripIff(t, rest);
  }

  /** An entry without a length, as the default constructor leaves it, is not packed at all, so
      a container loses it; only when its payload is too short for a length does one appear. */
  lemma UnsetChildIff(t: Entry, i: nat, after: seq<byte>)
    requires t.typ == CONT && i < |t.children| && |Packed(t.children[i])| == 0
    ensures Opens(t, after) <==> HEADER < |Packed(t)| < HEADER + 4 && t.children == [Blank]
  {
    hide *;
    OpensOne(t, after);
    if |Packed(t)| >= HEADER + 4 {
      EmptyIsNotFollowed(t.children, i, Behind(Packed(t)) + after, |Packed(t)| - HEADER, 0);
    }
  }

  lemma {:induction false} EmptyIsNotFollowed(ts: seq<Entry>, i: nat, mem: seq<byte>, payloadLen: nat, index: nat)
    requires i < |ts| && |Packed(ts[i])| == 0 && index <= |mem|
    ensures !Follows(ts, mem, payloadLen, index)
    decreases ts
  {
    FollowsOne(ts, mem, payloadLen, index);
    hide *;
    if i > 0 && index + |Packed(ts[0])| <= |mem| {
      EmptyIsNotFollowed(ts[1..], i - 1, mem, payloadLen, index + |Packed(ts[0])|);
    }
  }

  /** What unpacking makes of one to three octets in a container goes round unchanged. */
  lemma ShortContainerComesBack(id: byte, data: seq<byte>, rest: seq<byte>)
    requires 1 <= |data| <= 3 && |data| + |rest| + HEADER < INT_LIMIT
    ensures var t := Entry(HEADER + |data|, id, CONT, data, [Blank]);
            && Packable(t) && |Packed(t)| == HEADER + |data|
            && WayRound(t, rest) == Done(t, HEADER + |data|)
  {
    var t := Entry(HEADER + |data|, id, CONT, data, [Blank]);
    NoChildren();
    assert Packed(Blank) == [] && Packable(Blank);
    assert PackedAll([Blank]) == Packed(Blank) + PackedAll([]) == [];
    PackedSize(t);
    WholeHeader(t);
    OnlyBlank([Blank]);
    WireStandsIff(t, rest);
    OpensOne(t, []);
    hide PackedAll, Header, Wire, Opens, Unpacked, FilledAll;
    assert data + [] == data;
    assert Filled(t) == t;
    hide Filled, Packed;
    RoundTripIff(t, rest);
  }

  /** And what comes back tells such trees apart. */
  lemma {:induction false} FilledIsInjective(t: Entry, u: Entry)
    requires WellBuilt(t) && WellBuilt(u) && Filled(t) == Filled(u)
    ensures t == u
    decreases t
  {
    if t.typ == CONT {
      AllFilledIsInjective(t.children, u.children);
    }
  }

  lemma {:induction false} AllFilledIsInjective(ts: seq<Entry>, us: seq<Entry>)
    requires (forall c | c in ts :: WellBuilt(c)) && (forall c | c in us :: WellBuilt(c))
    requires FilledAll(ts) == FilledAll(us)
    ensures ts == us
    decreases ts
  {
    hide WellBuilt, Filled;
    if ts != [] && us != [] {
      assert FilledAll(ts)[0] == Filled(ts[0]) && FilledAll(ts)[1..] == FilledAll(ts[1..]);
      assert FilledAll(us)[0] == Filled(us[0]) && FilledAll(us)[1..] == FilledAll(us[1..]);
      FilledIsInjective(ts[0], us[0]);
      AllFilledIsInjective(ts[1..], us[1..]);
      assert ts == [ts[0]] + ts[1..] && us == [us[0]] + us[1..];
    }
  }

  /** A value set with the container's type is read as a container: it comes back unchanged
      exactly when it is empty, or when its first four octets, taken for a length, are longer
      than the value, or zero with a whole header there. */
  lemma ContainerTypedValueIff(id: byte, data: seq<byte>, rest: seq<byte>)
    requires |data| + |rest| + HEADER < INT_LIMIT
    ensures var t := SetData(id, CONT, data);
            && Packable(t) && |Packed(t)| == HEADER + |data|
            && (WayRound(t, rest) == Done(t, HEADER + |data|)
                <==> data == [] || (|data| >= 4 && (FromBE32(data) > |data| || (FromBE32(data) == 0 && |data| >= HEADER))))
  {
    var t := SetData(id, CONT, data);
    ValueWithContainerType(id, data);
    WireStandsIff(t, rest);
    OpensOne(t, []);
    assert data + [] == data && data[0..] == data;
    FollowsOne([], data, |data|, 0);
    hide Packed, WayRound, Filled, FromBE32, Wire, Opens, Follows, Header, Packable;
    RoundTripIff(t, rest);
  }

  lemma ValueWithContainerType(id: byte, data: seq<byte>)
    requires |data| + HEADER < U32
    ensures var t := SetData(id, CONT, data);
            && Packable(t) && Packed(t) == Wire(t) == Header(HEADER + |data|, id, CONT) + data
            && Behind(Packed(t)) == data && Filled(t) == t
  {
    var t := SetData(id, CONT, data);
    NoChildren();
    NothingFilled();
    PackedSize(t);
    WholeHeader(t);
    assert data + [] == data;
    FilledHasChildren(t);
    hide PackedAll, Header;
  }

  /** With four or five octets there is no whole header behind the length: a length that is
      not longer than the value makes the source read past its copy of the entry. */
  lemma ShortValueOverruns(id: byte, data: seq<byte>, rest: seq<byte>)
    requires 4 <= |data| <= 5 && |data| + |rest| + HEADER < INT_LIMIT
    ensures var t := SetData(id, CONT, data);
            && |Packed(t)| == HEADER + |data|
            && (WayRound(t, rest).Overrun? <==> FromBE32(data) <= |data|)
  {
    var t := SetData(id, CONT, data);
    ValueWithContainerType(id, data);
    var m := Packed(t) + rest;
    assert Wire(t) <= m;
    PayloadStands(t, m);
    LengthBehindTheCopy(data);
    hide FromBE32, Header, Packed, Wire, Filled, Packable, Behind, UnpackedAll;
  }

  lemma LengthBehindTheCopy(data: seq<byte>)
    requires 4 <= |data| <= 5
    ensures UnpackedAll(data, |data|, 0) == if |data| < FromBE32(data) then Done([], 0) else Overrun
  {
    hide FromBE32;
    assert data[0..] == data;
    assert Unpacked(data, |data|, false) == if |data| < FromBE32(data) then More else Overrun;
    hide Unpacked;
  }

  lemma PackedStartsWithItsLength(t: Entry)
    requires Coherent(t) && 4 <= |Packed(t)| < INT_LIMIT
    ensures FromBE32(Packed(t)) == |Packed(t)|
  {
    PackedSize(t);
    OwnSize(t);
    var p, n := Packed(t), BE32(|Packed(t)| % U32);
    assert p[..4] == n;
    hide FromBE32, BE32, Packed, Own;
    assert p[0] == p[..4][0] && p[1] == p[..4][1] && p[2] == p[..4][2] && p[3] == p[..4][3];
    SameNumber(p, n);
  }

  /** Every proper prefix asks for more: -1 before the length field is complete, 0 after. */
  lemma PrefixAsksForMore(t: Entry, k: nat, owner: bool)
    requires Packable(t) && k < |Packed(t)| < INT_LIMIT
    ensures var o := Unpacked(Packed(t)[..k], k, owner);
            !o.Overrun? && Returned(o) == if k < 4 then -1 else 0
  {
    var p := Packed(t);
    if k >= 4 {
      PackedStartsWithItsLength(t);
      SameNumber(p[..k], p);
    }
    hide Packed, UnpackedAll, FromBE32;
  }

  /** No packed tree is a prefix of another one's stream: entries can be sent back to back. */
  lemma StreamIsUnambiguous(t: Entry, u: Entry, r: seq<byte>, q: seq<byte>)
    requires WellBuilt(t) && WellBuilt(u) && Packed(t) + r == Packed(u) + q && CanBeReceived(t, r)
    ensures t == u && r == q
  {
    hide Packed, Unpacked, Filled;
    RoundTrip(t, r);
    RoundTrip(u, q);
    FilledIsInjective(t, u);
    assert (Packed(t) + r)[|Packed(t)|..] == r;
  }

  /** A value goes through packing and unpacking unchanged. */
  lemma ValueIsReadBack(t: Entry, rest: seq<byte>)
    requires WellBuilt(t) && t.typ != CONT && CanBeReceived(t, rest)
    ensures WayRound(t, rest) == Done(t, HEADER + |t.payload|)
  {
    WellBuiltIsPackable(t);
    PackedSize(t);
    NothingFilled();
    assert Filled(t) == t;
    RoundTrip(t, rest);
    hide WayRound, Packed;
  }

  /** So the caller's number is found again, and the caller's string, also in a field of fixed
      size, at its first zero. */
  lemma NumbersAndStringsAreFound(id: byte, typ: byte, n: u32, s: seq<byte>, size: nat)
    requires typ != CONT && |CString(s)| <= size
    ensures WellBuilt(SetNum(id, typ, n)) && FromBE32(SetNum(id, typ, n).payload) == n
    ensures WellBuilt(SetStr(id, typ, s)) && CString(SetStr(id, typ, s).payload) == CString(s)
    ensures WellBuilt(SetBytes(id, typ, s, size)) && CString(SetBytes(id, typ, s, size).payload) == CString(s)
  {
    PaddedString(CString(s), size - |CString(s)|);
    PaddedString(CString(s), 0);
    assert CString(s) + Repeat(0, 0) == CString(s);
    hide CString, FromBE32, BE32;
  }

  lemma {:induction false} PaddedString(s: seq<byte>, n: nat)
    requires 0 !in s
    ensures CString(s + Repeat(0, n)) == s
  {
    var zeros := Repeat(0, n);
    if s == [] {
      assert s + zeros == zeros;
    } else {
      assert (s + zeros)[0] == s[0] && (s + zeros)[1..] == s[1..] + zeros;
      PaddedString(s[1..], n);
      assert s[0] != 0 by { assert s[0] in s; }
    }
  }
}
