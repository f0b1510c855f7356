// Base 64 of section 4 of RFC 4648, as libbase64 codes it with its SAFETY switch on.
module Base64 {
  import opened Bytes

  type sextet = s: int | 0 <= s < 64

  // ----- The two tables -----

  function GetChar(bin: sextet): char {
    match bin
    case 0 => 'A' case 1 => 'B' case 2 => 'C' case 3 => 'D' case 4 => 'E' case 5 => 'F' case 6 => 'G' case 7 => 'H'
    case 8 => 'I' case 9 => 'J' case 10 => 'K' case 11 => 'L' case 12 => 'M' case 13 => 'N' case 14 => 'O' case 15 => 'P'
    case 16 => 'Q' case 17 => 'R' case 18 => 'S' case 19 => 'T' case 20 => 'U' case 21 => 'V' case 22 => 'W' case 23 => 'X'
    case 24 => 'Y' case 25 => 'Z' case 26 => 'a' case 27 => 'b' case 28 => 'c' case 29 => 'd' case 30 => 'e' case 31 => 'f'
    case 32 => 'g' case 33 => 'h' case 34 => 'i' case 35 => 'j' case 36 => 'k' case 37 => 'l' case 38 => 'm' case 39 => 'n'
    case 40 => 'o' case 41 => 'p' case 42 => 'q' case 43 => 'r' case 44 => 's' case 45 => 't' case 46 => 'u' case 47 => 'v'
    case 48 => 'w' case 49 => 'x' case 50 => 'y' case 51 => 'z' case 52 => '0' case 53 => '1' case 54 => '2' case 55 => '3'
    case 56 => '4' case 57 => '5' case 58 => '6' case 59 => '7' case 60 => '8' case 61 => '9' case 62 => '+' case _ => '/'
  }

  /** The source's table starts at '+' (code 43) and has 80 entries. */
  function ToBinary(c: char): byte
    requires 43 <= c as int < 123
  {
    match c as int
    case 43 => 62 case 44 => 48 case 45 => 49 case 46 => 50 case 47 => 63 case 48 => 52 case 49 => 53 case 50 => 54
    case 51 => 55 case 52 => 56 case 53 => 57 case 54 => 58 case 55 => 59 case 56 => 60 case 57 => 61 case 58 => 249
    case 59 => 250 case 60 => 251 case 61 => 252 case 62 => 253 case 63 => 254 case 64 => 255 case 65 => 0 case 66 => 1
    case 67 => 2 case 68 => 3 case 69 => 4 case 70 => 5 case 71 => 6 case 72 => 7 case 73 => 8 case 74 => 9
    case 75 => 10 case 76 => 11 case 77 => 12 case 78 => 13 case 79 => 14 case 80 => 15 case 81 => 16 case 82 => 17
    case 83 => 18 case 84 => 19 case 85 => 20 case 86 => 21 case 87 => 22 case 88 => 23 case 89 => 24 case 90 => 25
    case 91 => 20 case 92 => 21 case 93 => 22 case 94 => 23 case 95 => 24 case 96 => 25 case 97 => 26 case 98 => 27
    case 99 => 28 case 100 => 29 case 101 => 30 case 102 => 31 case 103 => 32 case 104 => 33 case 105 => 34 case 106 => 35
    case 107 => 36 case 108 => 37 case 109 => 38 case 110 => 39 case 111 => 40 case 112 => 41 case 113 => 42 case 114 => 43
    case 115 => 44 case 116 => 45 case 117 => 46 case 118 => 47 case 119 => 48 case 120 => 49 case 121 => 50 case _ => 51
  }

  predicate InAlphabet(c: char) {
    var n := c as int;
    48 <= n < 58 || 65 <= n < 91 || 97 <= n < 123 || n == 43 || n == 47
  }

  lemma GetCharByRange(bin: sextet)
    ensures GetChar(bin) as int == if bin < 26 then 65 + bin else if bin < 52 then 71 + bin
                                   else if bin < 62 then bin - 4 else if bin == 62 then 43 else 47
  {
  }

  lemma ToBinaryByRange(c: char)
    requires InAlphabet(c)
    ensures var n := c as int;
      ToBinary(c) == if n < 44 then 62 else if n < 48 then 63 else if n < 58 then n + 4
                     else if n < 91 then n - 65 else n - 71
  {
  }

  function Value(c: char): sextet
    requires InAlphabet(c)
  {
    ToBinaryByRange(c);
    ToBinary(c)
  }

  /** The tables are inverse to each other on the 64 symbols. */
  lemma SymbolOf(bin: sextet)
    ensures InAlphabet(GetChar(bin)) && Value(GetChar(bin)) == bin
  {
    hide GetChar, ToBinary;
    GetCharByRange(bin);
    ToBinaryByRange(GetChar(bin));
  }

  lemma ValueOf(c: char)
    requires InAlphabet(c)
    ensures GetChar(Value(c)) == c
  {
    hide GetChar, ToBinary;
    ToBinaryByRange(c);
    GetCharByRange(Value(c));
    assert GetChar(Value(c)) as int == c as int;
  }

  // ----- Three octets against four sextets -----

  function Split(a: byte, b: byte, c: byte): (sextet, sextet, sextet, sextet) {
    (a / 4, a % 4 * 16 + b / 16, b % 16 * 4 + c / 64, c % 64)
  }

  function Join(w: sextet, x: sextet, y: sextet, z: sextet): (byte, byte, byte) {
    (w * 4 + x / 16, x % 16 * 16 + y / 4, y % 4 * 64 + z)
  }

  /** Cutting where two pieces were put together. */
  lemma CutApart(high: nat, low: nat)
    ensures low < 4 ==> (high * 4 + low) / 4 == high && (high * 4 + low) % 4 == low
    ensures low < 16 ==> (high * 16 + low) / 16 == high && (high * 16 + low) % 16 == low
    ensures low < 64 ==> (high * 64 + low) / 64 == high && (high * 64 + low) % 64 == low
  {
  }

  lemma JoinSplit(a: byte, b: byte, c: byte)
    ensures var (w, x, y, z) := Split(a, b, c); Join(w, x, y, z) == (a, b, c)
  {
    CutApart(a % 4, b / 16);
    CutApart(b % 16, c / 64);
  }

  lemma SplitJoin(w: sextet, x: sextet, y: sextet, z: sextet)
    ensures var (a, b, c) := Join(w, x, y, z); Split(a, b, c) == (w, x, y, z)
  {
    CutApart(w, x / 16);
    CutApart(x % 16, y / 4);
    CutApart(y % 4, z);
  }

  // ----- Encoding -----

  function Quad(a: byte, b: byte, c: byte): (s: string)
    ensures |s| == 4
  {
    var (w, x, y, z) := Split(a, b, c);
    [GetChar(w), GetChar(x), GetChar(y), GetChar(z)]
  }

  /** The meaning of encode: whole groups, then one padded group for what is left over. */
  function Encoded(b: seq<byte>): string {
    if |b| == 0 then ""
    else if |b| == 1 then Quad(b[0], 0, 0)[..2] + "=="
    else if |b| == 2 then Quad(b[0], b[1], 0)[..3] + "="
    else Quad(b[0], b[1], b[2]) + Encoded(b[3..])
  }

  function EncodingSize(bytes: nat): nat {
    (bytes + 2 - (bytes + 2) % 3) / 3 * 4
  }

  lemma {:induction false} EncodedLength(b: seq<byte>)
    ensures |Encoded(b)| == EncodingSize(|b|)
  {
    hide Quad;
    if |b| >= 3 {
      EncodedLength(b[3..]);
    }
  }

  lemma {:induction false} EncodedGroups(a: seq<byte>, b: seq<byte>)
    requires |a| % 3 == 0
    ensures Encoded(a + b) == Encoded(a) + Encoded(b)
  {
    hide Quad;
    if a == [] {
      assert a + b == b;
    } else {
      assert (a + b)[3..] == a[3..] + b;
      EncodedGroups(a[3..], b);
      var first, more, after := Quad(a[0], a[1], a[2]), Encoded(a[3..]), Encoded(b);
      assert Encoded(a + b) == first + (more + after);
      hide Encoded;
      assert first + (more + after) == first + more + after;
    }
  }

  lemma OneMoreGroup(front: seq<byte>, a: byte, b: byte, c: byte)
    requires |front| % 3 == 0
    ensures Encoded(front + [a, b, c]) == Encoded(front) + Quad(a, b, c)
  {
    hide Quad;
    EncodedGroups(front, [a, b, c]);
    assert [a, b, c][3..] == [];
    assert Quad(a, b, c) + "" == Quad(a, b, c);
  }

  // ----- The bits of the symbols -----

  /** The number up to three octets make up, the missing ones counted as zero. */
  function OctetNumber(b: seq<byte>): int {
    OctetAt(b, 0) * 65536 + OctetAt(b, 1) * 256 + OctetAt(b, 2)
  }

  function OctetAt(b: seq<byte>, k: nat): int {
    if k < |b| then b[k] else 0
  }

  /** What a symbol counts for; padding counts for nothing. */
  function Digit(c: char): int {
    if 'A' <= c <= 'Z' then c as int - 'A' as int
    else if 'a' <= c <= 'z' then c as int - 'a' as int + 26
    else if '0' <= c <= '9' then c as int - '0' as int + 52
    else if c == '+' then 62 else if c == '/' then 63 else 0
  }

  function SymbolNumber(s: string): int
    requires |s| >= 4
  {
    ((Digit(s[0]) * 64 + Digit(s[1])) * 64 + Digit(s[2])) * 64 + Digit(s[3])
  }

  /** A group of four symbols shows the 24 bits of three octets, six in each symbol, and has
      padding where there is no octet. */
  ghost predicate Shows(s: string, b: seq<byte>)
    requires |s| >= 4 && |b| > 0
  {
    && SymbolNumber(s) == OctetNumber(b)
    && s[0] != '=' && s[1] != '=' && (s[2] == '=' <==> |b| == 1) && (s[3] == '=' <==> |b| <= 2)
  }

  lemma DigitOf(bin: sextet)
    ensures Digit(GetChar(bin)) == bin && GetChar(bin) != '='
  {
    GetCharByRange(bin);
    hide GetChar;
  }

  lemma SplitShows(a: byte, b: byte, c: byte)
    ensures var (w, x, y, z) := Split(a, b, c);
            && ((w * 64 + x) * 64 + y) * 64 + z == a * 65536 + b * 256 + c
            && (c == 0 ==> z == 0) && (b == c == 0 ==> y == 0)
  {
  }

  lemma FirstGroupShows(b: seq<byte>)
    requires |b| > 0
    ensures |Encoded(b)| >= 4 && Shows(Encoded(b), b)
  {
    var y, z := if |b| > 1 then b[1] else 0, if |b| > 2 then b[2] else 0;
    SplitShows(b[0], y, z);
    var (p, q, r, t) := Split(b[0], y, z);
    DigitOf(p); DigitOf(q); DigitOf(r); DigitOf(t);
    hide GetChar, Split;
  }

  /** The groups of an encoding, one after the other, show the octets. */
  lemma {:induction false} EncodingShowsTheBits(b: seq<byte>, i: nat)
    requires 3 * i < |b|
    ensures 4 * i + 4 <= |Encoded(b)| && Shows(Encoded(b)[4 * i..], b[3 * i..])
    decreases i
  {
    hide Shows, Quad;
    if i == 0 {
      FirstGroupShows(b);
      assert Encoded(b)[0..] == Encoded(b) && b[0..] == b;
    } else {
      EncodingShowsTheBits(b[3..], i - 1);
      assert b[3..][3 * (i - 1)..] == b[3 * i..];
      assert Encoded(b)[4 * i..] == Encoded(b[3..])[4 * (i - 1)..];
    }
  }

  /** The padded group that ends an encoding when the length is not a multiple of three. */
  method EncodeRest(rest: seq<byte>) returns (result: string)
    requires 1 <= |rest| <= 2
    ensures result == Encoded(rest)
  {
    hide GetChar;
    var temp: seq<byte> := [0, 0, 0];
    for i := 0 to |rest|
      invariant |temp| == 3
      invariant forall k :: 0 <= k < 3 ==> temp[k] == if k < i then rest[k] else 0
    {
      temp := temp[i := rest[i]];
    }
    var (w, x, y, z) := Split(temp[0], temp[1], temp[2]);
    result := [GetChar(w)];
    result := result + [GetChar(x)];
    if |rest| == 2 {
      result := result + [GetChar(y)];
    } else {
      result := result + ['='];
    }
    result := result + ['='];
  }

  method Encode(binary: seq<byte>) returns (result: string)
    ensures result == Encoded(binary)
    ensures |result| == EncodingSize(|binary|)
  {
    hide *;
    EncodedLength(binary);
    if |binary| == 0 {
      EmptyEncoding();
      return "";
    }
    var misaligned := |binary| % 3;
    var p := 0;
    result := "";
    EmptyEncoding();
    for i := 0 to (|binary| - misaligned) / 3
      invariant p == 3 * i && result == Encoded(binary[..p])
    {
      OneMoreGroup(binary[..p], binary[p], binary[p + 1], binary[p + 2]);
      assert binary[..p] + [binary[p], binary[p + 1], binary[p + 2]] == binary[..p + 3];
      result := result + Quad(binary[p], binary[p + 1], binary[p + 2]);
      p := p + 3;
    }
    EncodedGroups(binary[..p], binary[p..]);
    assert binary[..p] + binary[p..] == binary;
    if misaligned != 0 {
      var padded := EncodeRest(binary[p..]);
      result := result + padded;
    } else {
      assert binary[p..] == [];
    }
  }

  lemma EmptyEncoding()
    ensures Encoded([]) == ""
  {
  }

  // ----- Decoding -----

  /** The position of the first character outside the alphabet, or the length. */
  function FirstOdd(s: string): (pos: nat)
    ensures pos <= |s|
    ensures forall k :: 0 <= k < pos ==> InAlphabet(s[k])
    ensures pos < |s| ==> !InAlphabet(s[pos])
  {
    if s == "" || !InAlphabet(s[0]) then 0 else 1 + FirstOdd(s[1..])
  }

  /** What the SAFETY checks let through: whole groups of symbols, the last one or two
      characters possibly being padding. */
  predicate Acceptable(s: string) {
    var pos := FirstOdd(s);
    && |s| % 4 == 0 && |s| > 0
    && (pos < |s| ==> s[pos] == '=' && (pos == |s| - 1 || (pos == |s| - 2 && s[pos + 1] == '=')))
  }

  predicate Symbols(s: string) {
    forall k :: 0 <= k < |s| ==> InAlphabet(s[k])
  }

  predicate LastGroup(s: string) {
    && |s| == 4
    && InAlphabet(s[0]) && InAlphabet(s[1])
    && (InAlphabet(s[2]) || (s[2] == '=' && s[3] == '='))
    && (InAlphabet(s[3]) || s[3] == '=')
  }

  lemma AcceptableShape(s: string)
    requires |s| % 4 == 0 && |s| > 0
    ensures Acceptable(s) <==> Symbols(s[..|s| - 4]) && LastGroup(s[|s| - 4..])
  {
    var pos := FirstOdd(s);
    var n := |s|;
    var last := s[n - 4..];
    assert forall k :: 0 <= k < 4 ==> last[k] == s[n - 4 + k];
    if Symbols(s[..n - 4]) && LastGroup(s[n - 4..]) && pos < n {
      assert forall k :: 0 <= k < n - 4 ==> s[..n - 4][k] == s[k];
      assert pos == n - 1 || pos == n - 2;
    }
  }

  function Triple(s: string): (b: seq<byte>)
    requires |s| == 4 && Symbols(s)
    ensures |b| == 3
  {
    var (a, b, c) := Join(Value(s[0]), Value(s[1]), Value(s[2]), Value(s[3]));
    [a, b, c]
  }

  function LastBytes(s: string): (b: seq<byte>)
    requires LastGroup(s)
    ensures 1 <= |b| <= 3
  {
    if s[2] == '=' then [Join(Value(s[0]), Value(s[1]), 0, 0).0]
    else if s[3] == '=' then
      var (a, b, _) := Join(Value(s[0]), Value(s[1]), Value(s[2]), 0);
      [a, b]
    else Triple(s)
  }

  function Groups(s: string): seq<byte>
    requires |s| % 4 == 0 && Symbols(s)
  {
    if s == "" then [] else Groups(s[..|s| - 4]) + Triple(s[|s| - 4..])
  }

  /** The meaning of decode: nothing for input the checks refuse. */
  function Decoded(s: string): seq<byte> {
    if Acceptable(s) then
      AcceptableShape(s);
      Groups(s[..|s| - 4]) + LastBytes(s[|s| - 4..])
    else []
  }

  method Decode(encoded: string) returns (result: seq<byte>)
    ensures result == Decoded(encoded)
  {
    hide GetChar, Value, Triple, LastBytes;
    var length := |encoded|;
    if length % 4 != 0 || length == 0 {
      return [];
    }
    AcceptableShape(encoded);
    var pos := FirstOdd(encoded);
    if pos != length {
      if encoded[pos] != '=' {
        return [];
      }
      if pos != length - 1 {
        if pos != length - 2 {
          return [];
        }
        if encoded[pos + 1] != '=' {
          return [];
        }
      }
    }
    var runner := 0;
    var aligned := length / 4 - 1;
    result := [];
    for i := 0 to aligned
      invariant runner == 4 * i <= length - 4
      invariant Symbols(encoded[..runner]) && result == Groups(encoded[..runner])
    {
      var four := encoded[runner..runner + 4];
      assert forall k :: 0 <= k < 4 ==> four[k] == encoded[..length - 4][runner + k];
      assert encoded[..runner + 4][..runner] == encoded[..runner];
      assert encoded[..runner + 4][runner..] == four;
      assert Symbols(encoded[..runner + 4]);
      result := result + Triple(four);
      runner := runner + 4;
    }
    result := result + LastBytes(encoded[runner..]);
  }

  // ----- Encoding and decoding undo each other -----

  lemma QuadIsSymbols(a: byte, b: byte, c: byte)
    ensures Symbols(Quad(a, b, c)) && Triple(Quad(a, b, c)) == [a, b, c]
  {
    hide GetChar, Value, InAlphabet;
    var (w, x, y, z) := Split(a, b, c);
    SymbolOf(w); SymbolOf(x); SymbolOf(y); SymbolOf(z);
    JoinSplit(a, b, c);
  }

  /** s passes the checks and carries exactly the octets b. */
  ghost predicate Carries(s: string, b: seq<byte>) {
    && |s| % 4 == 0 && |s| > 0
    && Symbols(s[..|s| - 4]) && LastGroup(s[|s| - 4..])
    && Groups(s[..|s| - 4]) + LastBytes(s[|s| - 4..]) == b
  }

  lemma LastGroupIsCarried(s: string, b: seq<byte>)
    requires LastGroup(s) && LastBytes(s) == b
    ensures Carries(s, b)
  {
    assert |s| == 4;
    hide LastGroup, LastBytes;
    assert s[..0] == "" && s[0..] == s;
  }

  lemma OneOctet(a: byte)
    ensures var s := Encoded([a]); LastGroup(s) && LastBytes(s) == [a]
  {
    hide GetChar, Value, InAlphabet;
    var (w, x, _, _) := Split(a, 0, 0);
    SymbolOf(w); SymbolOf(x);
  }

  lemma SplitEnd(a: byte, b: byte)
    ensures Split(a, b, 0).3 == 0
  {
  }

  lemma TwoOctets(a: byte, b: byte)
    ensures var s := Encoded([a, b]); LastGroup(s) && LastBytes(s) == [a, b]
  {
    assert !InAlphabet('=');
    JoinSplit(a, b, 0);
    hide GetChar, Value, InAlphabet, Split, Join;
    var (w, x, y, z) := Split(a, b, 0);
    SplitEnd(a, b);
    SymbolOf(w); SymbolOf(x); SymbolOf(y);
    assert Encoded([a, b]) == [GetChar(w), GetChar(x), GetChar(y), '='];
  }

  lemma ThreeOctets(a: byte, b: byte, c: byte)
    ensures var s := Encoded([a, b, c]); LastGroup(s) && LastBytes(s) == [a, b, c]
  {
    assert !InAlphabet('=');
    assert [a, b, c][3..] == [];
    assert Encoded([a, b, c]) == Quad(a, b, c) + "" == Quad(a, b, c);
    QuadIsSymbols(a, b, c);
    hide Quad, Triple, InAlphabet;
  }

  lemma ShortIsCarried(b: seq<byte>)
    requires 1 <= |b| <= 3
    ensures Carries(Encoded(b), b)
  {
    hide *;
    if |b| == 1 {
      OneOctet(b[0]);
      assert b == [b[0]];
    } else if |b| == 2 {
      TwoOctets(b[0], b[1]);
      assert b == [b[0], b[1]];
    } else {
      ThreeOctets(b[0], b[1], b[2]);
      assert b == [b[0], b[1], b[2]];
    }
    LastGroupIsCarried(Encoded(b), b);
  }

  lemma GroupIsCarried(quad: string, t: string, b: seq<byte>)
    requires |quad| == 4 && Symbols(quad) && Carries(t, b)
    ensures Carries(quad + t, Triple(quad) + b)
  {
    hide Triple, LastBytes, LastGroup, InAlphabet;
    var s := quad + t;
    assert s[..|s| - 4] == quad + t[..|t| - 4] && s[|s| - 4..] == t[|t| - 4..];
    GroupsCompose(quad, t[..|t| - 4]);
    assert quad[..0] == "" && quad[0..] == quad;
    assert Groups(quad) == [] + Triple(quad);
  }

  lemma {:induction false} EncodedIsDecoded(b: seq<byte>)
    requires b != []
    ensures Carries(Encoded(b), b)
  {
    hide Quad, Carries, Symbols, Triple;
    if |b| <= 3 {
      ShortIsCarried(b);
    } else {
      QuadIsSymbols(b[0], b[1], b[2]);
      EncodedIsDecoded(b[3..]);
      GroupIsCarried(Quad(b[0], b[1], b[2]), Encoded(b[3..]), b[3..]);
      assert [b[0], b[1], b[2]] + b[3..] == b;
    }
  }

  lemma {:induction false} GroupsCompose(s: string, t: string)
    requires |s| % 4 == 0 && |t| % 4 == 0 && Symbols(s) && Symbols(t)
    ensures Symbols(s + t) && Groups(s + t) == Groups(s) + Groups(t)
  {
    hide Triple;
    if t == "" {
      assert s + t == s;
    } else {
      var n := |t| - 4;
      var u := s + t;
      assert Symbols(u);
      assert u[..|u| - 4] == s + t[..n] && u[|u| - 4..] == t[n..];
      GroupsCompose(s, t[..n]);
      var before, more, last := Groups(s), Groups(t[..n]), Triple(t[n..]);
      assert Groups(u) == before + more + last && Groups(t) == more + last;
      hide Groups, Symbols;
      assert before + more + last == before + (more + last);
    }
  }

  /** What was encoded comes back, for every octet string. */
  lemma RoundTrip(b: seq<byte>)
    ensures Decoded(Encoded(b)) == b
  {
    if b != [] {
      var s := Encoded(b);
      EncodedIsDecoded(b);
      AcceptableShape(s);
    }
  }

  /** The unused low bits of the symbol before the padding. */
  predicate PaddingBitsClear(last: string)
    requires LastGroup(last)
  {
    if last[2] == '=' then Value(last[1]) % 16 == 0
    else last[3] == '=' ==> Value(last[2]) % 4 == 0
  }

  lemma TripleIsQuad(s: string)
    requires |s| == 4 && Symbols(s)
    ensures var b := Triple(s); Quad(b[0], b[1], b[2]) == s
  {
    hide GetChar, Value, InAlphabet;
    SplitJoin(Value(s[0]), Value(s[1]), Value(s[2]), Value(s[3]));
    ValueOf(s[0]); ValueOf(s[1]); ValueOf(s[2]); ValueOf(s[3]);
  }

  lemma SymbolsDiffer(x: sextet, y: sextet)
    ensures GetChar(x) == GetChar(y) <==> x == y
  {
    hide *;
    SymbolOf(x);
    SymbolOf(y);
  }

  lemma OneOctetEncoded(last: string)
    requires LastGroup(last) && last[2] == '='
    ensures Encoded(LastBytes(last)) == last <==> PaddingBitsClear(last)
  {
    assert !InAlphabet('=');
    hide GetChar, Value, InAlphabet;
    var w, x, b := Value(last[0]), Value(last[1]), LastBytes(last);
    ValueOf(last[0]); ValueOf(last[1]);
    SymbolsDiffer(x, x - x % 16);
    assert Split(b[0], 0, 0).0 == w && Split(b[0], 0, 0).1 == x - x % 16;
    assert Encoded(b) == [last[0], GetChar(x - x % 16), '=', '='];
    assert last == [last[0], last[1], '=', '='];
  }

  lemma TwoOctetsEncoded(last: string)
    requires LastGroup(last) && last[2] != '=' && last[3] == '='
    ensures Encoded(LastBytes(last)) == last <==> PaddingBitsClear(last)
  {
    hide GetChar, Value, InAlphabet;
    var w, x, y, b := Value(last[0]), Value(last[1]), Value(last[2]), LastBytes(last);
    ValueOf(last[0]); ValueOf(last[1]); ValueOf(last[2]);
    SymbolsDiffer(y, y - y % 4);
    var q := Split(b[0], b[1], 0);
    assert q.0 == w && q.1 == x && q.2 == y - y % 4;
    assert Encoded(b) == [last[0], last[1], GetChar(y - y % 4), '='];
    assert last == [last[0], last[1], last[2], '='];
  }

  lemma LastBytesEncoded(last: string)
    requires LastGroup(last)
    ensures Encoded(LastBytes(last)) == last <==> PaddingBitsClear(last)
  {
    if last[2] == '=' {
      OneOctetEncoded(last);
    } else if last[3] == '=' {
      TwoOctetsEncoded(last);
    } else {
      TripleIsQuad(last);
      hide Quad, Triple, Value;
      var b := LastBytes(last);
      assert b[3..] == [];
      assert Encoded(b) == Quad(b[0], b[1], b[2]) + "" == Quad(b[0], b[1], b[2]);
    }
  }

  lemma GroupEncoded(front: seq<byte>, quad: string)
    requires |front| % 3 == 0 && |quad| == 4 && Symbols(quad)
    ensures Encoded(front + Triple(quad)) == Encoded(front) + quad
  {
    hide Triple, Quad, Encoded, Symbols;
    TripleIsQuad(quad);
    var b := Triple(quad);
    assert b == [b[0], b[1], b[2]];
    OneMoreGroup(front, b[0], b[1], b[2]);
  }

  lemma {:induction false} GroupsEncoded(s: string)
    requires |s| % 4 == 0 && Symbols(s)
    ensures |Groups(s)| % 3 == 0 && Encoded(Groups(s)) == s
  {
    hide *;
    if s == "" {
      NoGroups();
    } else {
      var n := |s| - 4;
      LastGroupApart(s);
      GroupsEncoded(s[..n]);
      GroupEncoded(Groups(s[..n]), s[n..]);
      assert s[..n] + s[n..] == s;
    }
  }

  lemma NoGroups()
    ensures Groups("") == [] && Encoded([]) == ""
  {
  }

  lemma LastGroupApart(s: string)
    requires |s| % 4 == 0 && s != "" && Symbols(s)
    ensures var n := |s| - 4;
            && |s[..n]| % 4 == 0 && Symbols(s[..n]) && Symbols(s[n..])
            && Groups(s) == Groups(s[..n]) + Triple(s[n..])
  {
    hide Triple, InAlphabet;
    var n := |s| - 4;
    assert forall k :: 0 <= k < n ==> s[..n][k] == s[k];
    assert forall k :: 0 <= k < 4 ==> s[n..][k] == s[n + k];
  }

  /** Exactly the canonical strings survive a decode followed by an encode: the empty one,
      and those the checks accept whose last symbol leaves no stray bits behind. */
  lemma CanonicalText(s: string)
    ensures Encoded(Decoded(s)) == s
      <==> s == "" || (Acceptable(s) && LastGroup(s[|s| - 4..]) && PaddingBitsClear(s[|s| - 4..]))
  {
    if Acceptable(s) {
      AcceptableShape(s);
      var n := |s| - 4;
      var groups, last := Groups(s[..n]), LastBytes(s[n..]);
      assert Decoded(s) == groups + last;
      hide *;
      GroupsEncoded(s[..n]);
      LastBytesEncoded(s[n..]);
      EncodedGroups(groups, last);
      var e := Encoded(last);
      assert s[..n] + s[n..] == s;
      EncodedLength(last);
      assert (s[..n] + e)[n..] == e;
    }
  }
}
