// CRC-32 as section 8 of RFC 1952 defines it: the byte-at-a-time form driven by a
// 256-entry table refines a register clocked once per message bit.
module Crc32 {

  const POLYNOMIAL: bv32 := 0xEDB88320

  /** One clock of the bit-serial reflected register: the message bit is compared with
      the bit that falls out, and the polynomial is fed back when they differ. */
  function Clock(c: bv32, bit: bool): bv32 {
    if (c & 1 == 1) != bit then (c >> 1) ^ POLYNOMIAL else c >> 1
  }

  /** n clocks fed with the low bits of w, least significant first. */
  function Clocks(c: bv32, w: bv32, n: nat): bv32
    decreases n
  {
    if n == 0 then c else Clocks(Clock(c, w & 1 == 1), w >> 1, n - 1)
  }

  /** The register after a whole message. */
  function Register(c: bv32, data: seq<bv8>): bv32 {
    if data == [] then c
    else Clocks(Register(c, data[..|data| - 1]), data[|data| - 1] as bv32, 8)
  }

  /** The checksum proper: the register is complemented before and after. */
  function Crc(seed: bv32, data: seq<bv8>): bv32 {
    Register(seed ^ 0xFFFFFFFF, data) ^ 0xFFFFFFFF
  }

  // ----- The register without input, and its table -----

  function Shift(c: bv32): bv32 {
    if c & 1 == 1 then (c >> 1) ^ POLYNOMIAL else c >> 1
  }

  function Shifts(c: bv32, n: nat): bv32
    decreases n
  {
    if n == 0 then c else Shifts(Shift(c), n - 1)
  }

  function Shift8(c: bv32): bv32 {
    Shift(Shift(Shift(Shift(Shift(Shift(Shift(Shift(c))))))))
  }

  lemma Shift8IsShifts(c: bv32)
    ensures Shift8(c) == Shifts(c, 8)
  {
    hide Shift;
  }

  method Row0(i: bv32) returns (r: bv32)
    requires i >> 4 == 0
    ensures r == Shift8(i)
  {
    match i {
      case 0x00 => r := 0x00000000; case 0x01 => r := 0x77073096; case 0x02 => r := 0xee0e612c; case 0x03 => r := 0x990951ba;
      case 0x04 => r := 0x076dc419; case 0x05 => r := 0x706af48f; case 0x06 => r := 0xe963a535; case 0x07 => r := 0x9e6495a3;
      case 0x08 => r := 0x0edb8832; case 0x09 => r := 0x79dcb8a4; case 0x0a => r := 0xe0d5e91e; case 0x0b => r := 0x97d2d988;
      case 0x0c => r := 0x09b64c2b; case 0x0d => r := 0x7eb17cbd; case 0x0e => r := 0xe7b82d07; case _ => r := 0x90bf1d91;
    }
  }

  method Row1(i: bv32) returns (r: bv32)
    requires i >> 4 == 1
    ensures r == Shift8(i)
  {
    match i {
      case 0x10 => r := 0x1db71064; case 0x11 => r := 0x6ab020f2; case 0x12 => r := 0xf3b97148; case 0x13 => r := 0x84be41de;
      case 0x14 => r := 0x1adad47d; case 0x15 => r := 0x6ddde4eb; case 0x16 => r := 0xf4d4b551; case 0x17 => r := 0x83d385c7;
      case 0x18 => r := 0x136c9856; case 0x19 => r := 0x646ba8c0; case 0x1a => r := 0xfd62f97a; case 0x1b => r := 0x8a65c9ec;
      case 0x1c => r := 0x14015c4f; case 0x1d => r := 0x63066cd9; case 0x1e => r := 0xfa0f3d63; case _ => r := 0x8d080df5;
    }
  }

  method Row2(i: bv32) returns (r: bv32)
    requires i >> 4 == 2
    ensures r == Shift8(i)
  {
    match i {
      case 0x20 => r := 0x3b6e20c8; case 0x21 => r := 0x4c69105e; case 0x22 => r := 0xd56041e4; case 0x23 => r := 0xa2677172;
      case 0x24 => r := 0x3c03e4d1; case 0x25 => r := 0x4b04d447; case 0x26 => r := 0xd20d85fd; case 0x27 => r := 0xa50ab56b;
      case 0x28 => r := 0x35b5a8fa; case 0x29 => r := 0x42b2986c; case 0x2a => r := 0xdbbbc9d6; case 0x2b => r := 0xacbcf940;
      case 0x2c => r := 0x32d86ce3; case 0x2d => r := 0x45df5c75; case 0x2e => r := 0xdcd60dcf; case _ => r := 0xabd13d59;
    }
  }

  method Row3(i: bv32) returns (r: bv32)
    requires i >> 4 == 3
    ensures r == Shift8(i)
  {
    match i {
      case 0x30 => r := 0x26d930ac; case 0x31 => r := 0x51de003a; case 0x32 => r := 0xc8d75180; case 0x33 => r := 0xbfd06116;
      case 0x34 => r := 0x21b4f4b5; case 0x35 => r := 0x56b3c423; case 0x36 => r := 0xcfba9599; case 0x37 => r := 0xb8bda50f;
      case 0x38 => r := 0x2802b89e; case 0x39 => r := 0x5f058808; case 0x3a => r := 0xc60cd9b2; case 0x3b => r := 0xb10be924;
      case 0x3c => r := 0x2f6f7c87; case 0x3d => r := 0x58684c11; case 0x3e => r := 0xc1611dab; case _ => r := 0xb6662d3d;
    }
  }

  method Row4(i: bv32) returns (r: bv32)
    requires i >> 4 == 4
    ensures r == Shift8(i)
  {
    match i {
      case 0x40 => r := 0x76dc4190; case 0x41 => r := 0x01db7106; case 0x42 => r := 0x98d220bc; case 0x43 => r := 0xefd5102a;
      case 0x44 => r := 0x71b18589; case 0x45 => r := 0x06b6b51f; case 0x46 => r := 0x9fbfe4a5; case 0x47 => r := 0xe8b8d433;
      case 0x48 => r := 0x7807c9a2; case 0x49 => r := 0x0f00f934; case 0x4a => r := 0x9609a88e; case 0x4b => r := 0xe10e9818;
      case 0x4c => r := 0x7f6a0dbb; case 0x4d => r := 0x086d3d2d; case 0x4e => r := 0x91646c97; case _ => r := 0xe6635c01;
    }
  }

  method Row5(i: bv32) returns (r: bv32)
    requires i >> 4 == 5
    ensures r == Shift8(i)
  {
    match i {
      case 0x50 => r := 0x6b6b51f4; case 0x51 => r := 0x1c6c6162; case 0x52 => r := 0x856530d8; case 0x53 => r := 0xf262004e;
      case 0x54 => r := 0x6c0695ed; case 0x55 => r := 0x1b01a57b; case 0x56 => r := 0x8208f4c1; case 0x57 => r := 0xf50fc457;
      case 0x58 => r := 0x65b0d9c6; case 0x59 => r := 0x12b7e950; case 0x5a => r := 0x8bbeb8ea; case 0x5b => r := 0xfcb9887c;
      case 0x5c => r := 0x62dd1ddf; case 0x5d => r := 0x15da2d49; case 0x5e => r := 0x8cd37cf3; case _ => r := 0xfbd44c65;
    }
  }

  method Row6(i: bv32) returns (r: bv32)
    requires i >> 4 == 6
    ensures r == Shift8(i)
  {
    match i {
      case 0x60 => r := 0x4db26158; case 0x61 => r := 0x3ab551ce; case 0x62 => r := 0xa3bc0074; case 0x63 => r := 0xd4bb30e2;
      case 0x64 => r := 0x4adfa541; case 0x65 => r := 0x3dd895d7; case 0x66 => r := 0xa4d1c46d; case 0x67 => r := 0xd3d6f4fb;
      case 0x68 => r := 0x4369e96a; case 0x69 => r := 0x346ed9fc; case 0x6a => r := 0xad678846; case 0x6b => r := 0xda60b8d0;
      case 0x6c => r := 0x44042d73; case 0x6d => r := 0x33031de5; case 0x6e => r := 0xaa0a4c5f; case _ => r := 0xdd0d7cc9;
    }
  }

  method Row7(i: bv32) returns (r: bv32)
    requires i >> 4 == 7
    ensures r == Shift8(i)
  {
    match i {
      case 0x70 => r := 0x5005713c; case 0x71 => r := 0x270241aa; case 0x72 => r := 0xbe0b1010; case 0x73 => r := 0xc90c2086;
      case 0x74 => r := 0x5768b525; case 0x75 => r := 0x206f85b3; case 0x76 => r := 0xb966d409; case 0x77 => r := 0xce61e49f;
      case 0x78 => r := 0x5edef90e; case 0x79 => r := 0x29d9c998; case 0x7a => r := 0xb0d09822; case 0x7b => r := 0xc7d7a8b4;
      case 0x7c => r := 0x59b33d17; case 0x7d => r := 0x2eb40d81; case 0x7e => r := 0xb7bd5c3b; case _ => r := 0xc0ba6cad;
    }
  }

  method Row8(i: bv32) returns (r: bv32)
    requires i >> 4 == 8
    ensures r == Shift8(i)
  {
    match i {
      case 0x80 => r := 0xedb88320; case 0x81 => r := 0x9abfb3b6; case 0x82 => r := 0x03b6e20c; case 0x83 => r := 0x74b1d29a;
      case 0x84 => r := 0xead54739; case 0x85 => r := 0x9dd277af; case 0x86 => r := 0x04db2615; case 0x87 => r := 0x73dc1683;
      case 0x88 => r := 0xe3630b12; case 0x89 => r := 0x94643b84; case 0x8a => r := 0x0d6d6a3e; case 0x8b => r := 0x7a6a5aa8;
      case 0x8c => r := 0xe40ecf0b; case 0x8d => r := 0x9309ff9d; case 0x8e => r := 0x0a00ae27; case _ => r := 0x7d079eb1;
    }
  }

  method Row9(i: bv32) returns (r: bv32)
    requires i >> 4 == 9
    ensures r == Shift8(i)
  {
    match i {
      case 0x90 => r := 0xf00f9344; case 0x91 => r := 0x8708a3d2; case 0x92 => r := 0x1e01f268; case 0x93 => r := 0x6906c2fe;
      case 0x94 => r := 0xf762575d; case 0x95 => r := 0x806567cb; case 0x96 => r := 0x196c3671; case 0x97 => r := 0x6e6b06e7;
      case 0x98 => r := 0xfed41b76; case 0x99 => r := 0x89d32be0; case 0x9a => r := 0x10da7a5a; case 0x9b => r := 0x67dd4acc;
      case 0x9c => r := 0xf9b9df6f; case 0x9d => r := 0x8ebeeff9; case 0x9e => r := 0x17b7be43; case _ => r := 0x60b08ed5;
    }
  }

  method RowA(i: bv32) returns (r: bv32)
    requires i >> 4 == 10
    ensures r == Shift8(i)
  {
    match i {
      case 0xa0 => r := 0xd6d6a3e8; case 0xa1 => r := 0xa1d1937e; case 0xa2 => r := 0x38d8c2c4; case 0xa3 => r := 0x4fdff252;
      case 0xa4 => r := 0xd1bb67f1; case 0xa5 => r := 0xa6bc5767; case 0xa6 => r := 0x3fb506dd; case 0xa7 => r := 0x48b2364b;
      case 0xa8 => r := 0xd80d2bda; case 0xa9 => r := 0xaf0a1b4c; case 0xaa => r := 0x36034af6; case 0xab => r := 0x41047a60;
      case 0xac => r := 0xdf60efc3; case 0xad => r := 0xa867df55; case 0xae => r := 0x316e8eef; case _ => r := 0x4669be79;
    }
  }

  method RowB(i: bv32) returns (r: bv32)
    requires i >> 4 == 11
    ensures r == Shift8(i)
  {
    match i {
      case 0xb0 => r := 0xcb61b38c; case 0xb1 => r := 0xbc66831a; case 0xb2 => r := 0x256fd2a0; case 0xb3 => r := 0x5268e236;
      case 0xb4 => r := 0xcc0c7795; case 0xb5 => r := 0xbb0b4703; case 0xb6 => r := 0x220216b9; case 0xb7 => r := 0x5505262f;
      case 0xb8 => r := 0xc5ba3bbe; case 0xb9 => r := 0xb2bd0b28; case 0xba => r := 0x2bb45a92; case 0xbb => r := 0x5cb36a04;
      case 0xbc => r := 0xc2d7ffa7; case 0xbd => r := 0xb5d0cf31; case 0xbe => r := 0x2cd99e8b; case _ => r := 0x5bdeae1d;
    }
  }

  method RowC(i: bv32) returns (r: bv32)
    requires i >> 4 == 12
    ensures r == Shift8(i)
  {
    match i {
      case 0xc0 => r := 0x9b64c2b0; case 0xc1 => r := 0xec63f226; case 0xc2 => r := 0x756aa39c; case 0xc3 => r := 0x026d930a;
      case 0xc4 => r := 0x9c0906a9; case 0xc5 => r := 0xeb0e363f; case 0xc6 => r := 0x72076785; case 0xc7 => r := 0x05005713;
      case 0xc8 => r := 0x95bf4a82; case 0xc9 => r := 0xe2b87a14; case 0xca => r := 0x7bb12bae; case 0xcb => r := 0x0cb61b38;
      case 0xcc => r := 0x92d28e9b; case 0xcd => r := 0xe5d5be0d; case 0xce => r := 0x7cdcefb7; case _ => r := 0x0bdbdf21;
    }
  }

  method RowD(i: bv32) returns (r: bv32)
    requires i >> 4 == 13
    ensures r == Shift8(i)
  {
    match i {
      case 0xd0 => r := 0x86d3d2d4; case 0xd1 => r := 0xf1d4e242; case 0xd2 => r := 0x68ddb3f8; case 0xd3 => r := 0x1fda836e;
      case 0xd4 => r := 0x81be16cd; case 0xd5 => r := 0xf6b9265b; case 0xd6 => r := 0x6fb077e1; case 0xd7 => r := 0x18b74777;
      case 0xd8 => r := 0x88085ae6; case 0xd9 => r := 0xff0f6a70; case 0xda => r := 0x66063bca; case 0xdb => r := 0x11010b5c;
      case 0xdc => r := 0x8f659eff; case 0xdd => r := 0xf862ae69; case 0xde => r := 0x616bffd3; case _ => r := 0x166ccf45;
    }
  }

  method RowE(i: bv32) returns (r: bv32)
    requires i >> 4 == 14
    ensures r == Shift8(i)
  {
    match i {
      case 0xe0 => r := 0xa00ae278; case 0xe1 => r := 0xd70dd2ee; case 0xe2 => r := 0x4e048354; case 0xe3 => r := 0x3903b3c2;
      case 0xe4 => r := 0xa7672661; case 0xe5 => r := 0xd06016f7; case 0xe6 => r := 0x4969474d; case 0xe7 => r := 0x3e6e77db;
      case 0xe8 => r := 0xaed16a4a; case 0xe9 => r := 0xd9d65adc; case 0xea => r := 0x40df0b66; case 0xeb => r := 0x37d83bf0;
      case 0xec => r := 0xa9bcae53; case 0xed => r := 0xdebb9ec5; case 0xee => r := 0x47b2cf7f; case _ => r := 0x30b5ffe9;
    }
  }

  method RowF(i: bv32) returns (r: bv32)
    requires i >> 4 == 15
    ensures r == Shift8(i)
  {
    match i {
      case 0xf0 => r := 0xbdbdf21c; case 0xf1 => r := 0xcabac28a; case 0xf2 => r := 0x53b39330; case 0xf3 => r := 0x24b4a3a6;
      case 0xf4 => r := 0xbad03605; case 0xf5 => r := 0xcdd70693; case 0xf6 => r := 0x54de5729; case 0xf7 => r := 0x23d967bf;
      case 0xf8 => r := 0xb3667a2e; case 0xf9 => r := 0xc4614ab8; case 0xfa => r := 0x5d681b02; case 0xfb => r := 0x2a6f2b94;
      case 0xfc => r := 0xb40bbe37; case 0xfd => r := 0xc30c8ea1; case 0xfe => r := 0x5a05df1b; case _ => r := 0x2d02ef8d;
    }
  }

  /** The lookup: every one of the 256 entries is eight shifts of its index. */
  method Table(i: bv32) returns (r: bv32)
    requires i < 256
    ensures r == Shift8(i)
  {
    match i >> 4 {
      case 0 => r := Row0(i); case 1 => r := Row1(i); case 2 => r := Row2(i); case 3 => r := Row3(i);
      case 4 => r := Row4(i); case 5 => r := Row5(i); case 6 => r := Row6(i); case 7 => r := Row7(i);
      case 8 => r := Row8(i); case 9 => r := Row9(i); case 10 => r := RowA(i); case 11 => r := RowB(i);
      case 12 => r := RowC(i); case 13 => r := RowD(i); case 14 => r := RowE(i); case _ => r := RowF(i);
    }
  }

  // ----- Eight clocks are one table step -----

  /** z is the exclusive or of x and y. Stated as a relation so that the inductions
      below never ask the solver to rearrange exclusive ors. */
  ghost predicate Xor(x: bv32, y: bv32, z: bv32) {
    z == x ^ y
  }

  lemma XorFacts(x: bv32, y: bv32, p: bv32)
    ensures (x ^ y) >> 1 == (x >> 1) ^ (y >> 1) && (x ^ y) & 1 == (x & 1) ^ (y & 1)
    ensures (x ^ p) ^ (y ^ p) == x ^ y && (x ^ y) ^ p == (x ^ p) ^ y == x ^ (y ^ p)
    ensures (x & 1 == 0 || x & 1 == 1) && (y & 1 == 0 || y & 1 == 1)
  {
  }

  lemma ShiftIsLinear(x: bv32, y: bv32, z: bv32)
    requires Xor(x, y, z)
    ensures Xor(Shift(x), Shift(y), Shift(z))
  {
    XorFacts(x, y, POLYNOMIAL);
    XorFacts(x >> 1, y >> 1, POLYNOMIAL);
  }

  lemma {:induction false} ShiftsAreLinear(x: bv32, y: bv32, z: bv32, n: nat)
    requires Xor(x, y, z)
    ensures Xor(Shifts(x, n), Shifts(y, n), Shifts(z, n))
    decreases n
  {
    hide Shift, Xor;
    if n > 0 {
      ShiftIsLinear(x, y, z);
      ShiftsAreLinear(Shift(x), Shift(y), Shift(z), n - 1);
    }
  }

  /** A register whose low byte is clear only moves. */
  lemma ClearLowByteMoves(x: bv32)
    requires x & 0xFF == 0
    ensures Shift8(x) == x >> 8
  {
  }

  lemma SplitLowByte(x: bv32)
    ensures Xor(x & 0xFF, x & 0xFFFFFF00, x)
    ensures (x & 0xFFFFFF00) & 0xFF == 0 && (x & 0xFFFFFF00) >> 8 == x >> 8
    ensures x & 0xFF < 256
  {
  }

  lemma TableStep(x: bv32)
    ensures Xor(Shift8(x & 0xFF), x >> 8, Shift8(x))
  {
    hide *;
    var low, high := x & 0xFF, x & 0xFFFFFF00;
    SplitLowByte(x);
    ShiftsAreLinear(low, high, x, 8);
    Shift8IsShifts(low);
    Shift8IsShifts(high);
    Shift8IsShifts(x);
    ClearLowByteMoves(high);
  }

  function Drop(w: bv32, n: nat): bv32
    decreases n
  {
    if n == 0 then w else Drop(w >> 1, n - 1)
  }

  lemma FoldBit(c: bv32, w: bv32, z: bv32)
    requires Xor(c, w, z)
    ensures Xor(Clock(c, w & 1 == 1), w >> 1, Shift(z))
  {
    XorFacts(c, w, POLYNOMIAL);
    XorFacts(c >> 1, w >> 1, POLYNOMIAL);
  }

  /** Message bits can be folded into the register ahead of the clocks. */
  lemma {:induction false} FoldBits(c: bv32, w: bv32, z: bv32, n: nat)
    requires Xor(c, w, z)
    ensures Xor(Clocks(c, w, n), Drop(w, n), Shifts(z, n))
    decreases n
  {
    hide Shift, Clock, Xor;
    if n > 0 {
      FoldBit(c, w, z);
      FoldBits(Clock(c, w & 1 == 1), w >> 1, Shift(z), n - 1);
    }
  }

  lemma ByteIsUsedUp(w: bv32)
    requires w < 256
    ensures Drop(w, 8) == 0
  {
  }

  lemma XorZero(x: bv32, z: bv32)
    requires Xor(x, 0, z)
    ensures z == x
  {
  }

  lemma XorIsUnique(x: bv32, y: bv32, z: bv32, z': bv32)
    requires Xor(x, y, z) && z' == x ^ y
    ensures z == z'
  {
  }

  lemma FoldedByteFallsOut(c: bv32, w: bv32)
    requires w < 256
    ensures (c ^ w) >> 8 == c >> 8
  {
  }

  lemma ClocksAreTableStep(c: bv32, w: bv32, z: bv32)
    requires w < 256 && z == c ^ w
    ensures Xor(Shift8(z & 0xFF), c >> 8, Clocks(c, w, 8))
  {
    assert Xor(c, w, z);
    hide *;
    FoldBits(c, w, z, 8);
    ByteIsUsedUp(w);
    XorZero(Clocks(c, w, 8), Shifts(z, 8));
    FoldedByteFallsOut(c, w);
    TableStep(z);
    Shift8IsShifts(z);
  }

  lemma WideByte(b: bv8)
    ensures (b as bv32) < 256
  {
  }

  /** The byte loop of the source, against the bit-serial register. */
  method Compute(seed: bv32, data: seq<bv8>) returns (crc: bv32)
    ensures crc == Crc(seed, data)
  {
    crc := seed ^ 0xFFFFFFFF;
    var i := 0;
    while i < |data|
      invariant 0 <= i <= |data|
      invariant crc == Register(seed ^ 0xFFFFFFFF, data[..i])
    {
      crc := Step(crc, data[i]);
      assert data[..i + 1][..i] == data[..i];
      i := i + 1;
    }
    assert data[..|data|] == data;
    crc := crc ^ 0xFFFFFFFF;
  }

  /** One round of the loop. */
  method Step(crc: bv32, b: bv8) returns (next: bv32)
    ensures next == Clocks(crc, b as bv32, 8)
  {
    hide *;
    var w := b as bv32;
    var z := crc ^ w;
    WideByte(b);
    SplitLowByte(z);
    var entry := Table(z & 0xFF);
    next := entry ^ (crc >> 8);
    ClocksAreTableStep(crc, w, z);
    XorIsUnique(entry, crc >> 8, Clocks(crc, w, 8), next);
  }

  // ----- Consequences -----

  lemma {:induction false} RegisterComposes(c: bv32, a: seq<bv8>, b: seq<bv8>)
    ensures Register(Register(c, a), b) == Register(c, a + b)
  {
    hide Clocks;
    if b == [] {
      assert a + b == a;
    } else {
      RegisterComposes(c, a, b[..|b| - 1]);
      assert (a + b)[..|a + b| - 1] == a + b[..|b| - 1];
    }
  }

  lemma DoubleComplement(x: bv32)
    ensures (x ^ 0xFFFFFFFF) ^ 0xFFFFFFFF == x
  {
  }

  /** Checksumming in pieces, each result seeding the next, is checksumming the whole. */
  lemma CrcComposes(seed: bv32, a: seq<bv8>, b: seq<bv8>)
    ensures Crc(Crc(seed, a), b) == Crc(seed, a + b)
  {
    hide Register;
    var m := seed ^ 0xFFFFFFFF;
    var x := Register(m, a);
    DoubleComplement(x);
    assert Crc(seed, a) ^ 0xFFFFFFFF == x;
    RegisterComposes(m, a, b);
    assert Register(x, b) == Register(m, a + b);
  }

  // ----- What the checksum detects -----

  lemma ClockIsInjective(x: bv32, y: bv32, bit: bool)
    requires Clock(x, bit) == Clock(y, bit)
    ensures x == y
  {
  }

  lemma {:induction false} ClocksAreInjective(x: bv32, y: bv32, w: bv32, n: nat)
    requires Clocks(x, w, n) == Clocks(y, w, n)
    ensures x == y
    decreases n
  {
    hide Clock;
    if n > 0 {
      ClocksAreInjective(Clock(x, w & 1 == 1), Clock(y, w & 1 == 1), w >> 1, n - 1);
      ClockIsInjective(x, y, w & 1 == 1);
    }
  }

  /** Two different registers never meet again on the same input. */
  lemma {:induction false} RegisterIsInjective(x: bv32, y: bv32, data: seq<bv8>)
    requires Register(x, data) == Register(y, data)
    ensures x == y
  {
    hide Clocks;
    if data != [] {
      var front := data[..|data| - 1];
      ClocksAreInjective(Register(x, front), Register(y, front), data[|data| - 1] as bv32, 8);
      RegisterIsInjective(x, y, front);
    }
  }

  /** How far apart two equal-length inputs drive one register. */
  ghost function Gap(v: seq<bv8>, w: seq<bv8>): bv32
    requires |v| == |w|
  {
    if v == [] then 0
    else NextGap(Gap(v[..|v| - 1], w[..|w| - 1]), v[|v| - 1], w[|w| - 1])
  }

  ghost function NextGap(g: bv32, a: bv8, b: bv8): bv32 {
    Shift8(g ^ ((a ^ b) as bv32))
  }

  lemma XorOfPairs(c: bv32, d: bv32, g: bv32, a: bv8, b: bv8)
    requires Xor(c, d, g)
    ensures Xor(c ^ (a as bv32), d ^ (b as bv32), g ^ ((a ^ b) as bv32))
  {
  }

  lemma ClocksFold(c: bv32, b: bv8)
    ensures Clocks(c, b as bv32, 8) == Shift8(c ^ (b as bv32))
  {
    var w := b as bv32;
    var z := c ^ w;
    assert Xor(c, w, z);
    hide *;
    WideByte(b);
    FoldBits(c, w, z, 8);
    ByteIsUsedUp(w);
    XorZero(Clocks(c, w, 8), Shifts(z, 8));
    Shift8IsShifts(z);
  }

  lemma Shift8IsLinear(x: bv32, y: bv32, z: bv32)
    requires Xor(x, y, z)
    ensures Xor(Shift8(x), Shift8(y), Shift8(z))
  {
    hide *;
    ShiftsAreLinear(x, y, z, 8);
    Shift8IsShifts(x);
    Shift8IsShifts(y);
    Shift8IsShifts(z);
  }

  lemma GapGrows(r: bv32, q: bv32, g: bv32, a: bv8, b: bv8)
    requires Xor(r, q, g)
    ensures Xor(Clocks(r, a as bv32, 8), Clocks(q, b as bv32, 8), NextGap(g, a, b))
  {
    hide Xor, Clocks, Shift8;
    XorOfPairs(r, q, g, a, b);
    ClocksFold(r, a);
    ClocksFold(q, b);
    Shift8IsLinear(r ^ (a as bv32), q ^ (b as bv32), g ^ ((a ^ b) as bv32));
  }

  lemma {:induction false} GapSeparates(c: bv32, v: seq<bv8>, w: seq<bv8>)
    requires |v| == |w|
    ensures Xor(Register(c, v), Register(c, w), Gap(v, w))
  {
    if v == [] {
      assert c ^ c == 0;
    } else {
      hide Clocks, NextGap, Xor;
      var n := |v| - 1;
      GapSeparates(c, v[..n], w[..n]);
      GapGrows(Register(c, v[..n]), Register(c, w[..n]), Gap(v[..n], w[..n]), v[n], w[n]);
    }
  }

  /** x fits in its k low bytes. */
  ghost predicate Fits(x: bv32, k: nat) {
    && (k == 0 ==> x == 0)
    && (k == 1 ==> x & 0xFFFFFF00 == 0)
    && (k == 2 ==> x & 0xFFFF0000 == 0)
    && (k == 3 ==> x & 0xFF000000 == 0)
  }

  lemma TopByteTells(x: bv32)
    requires Shift8(x) & 0xFF000000 == 0
    ensures x & 0xFF == 0
  {
  }

  lemma BytesOfGap(g: bv32, a: bv8, b: bv8, y: bv32, k: nat)
    requires k <= 3 && y == g ^ ((a ^ b) as bv32) && y & 0xFF == 0 && Fits(y >> 8, k)
    ensures Fits(g, k + 1) && (g == 0 ==> a == b && y == 0)
  {
    var d := (a ^ b) as bv32;
    assert d & 0xFFFFFF00 == 0 && g == y ^ d;
    match k {
      case 0 => assert g & 0xFFFFFF00 == 0;
      case 1 => assert g & 0xFFFF0000 == 0;
      case 2 => assert g & 0xFF000000 == 0;
      case 3 =>
    }
  }

  lemma TopByteIsClear(x: bv32, k: nat)
    requires k <= 3 && Fits(x, k)
    ensures x & 0xFF000000 == 0
  {
    match k {
      case 0 =>
      case 1 => assert x & 0xFFFFFF00 == 0;
      case 2 => assert x & 0xFFFF0000 == 0;
      case 3 =>
    }
  }

  lemma GapNarrows(g: bv32, a: bv8, b: bv8, k: nat)
    requires k <= 3 && Fits(NextGap(g, a, b), k)
    ensures Fits(g, k + 1) && (g == 0 ==> a == b && g ^ ((a ^ b) as bv32) == 0)
  {
    hide Shift8, Fits;
    var y := g ^ ((a ^ b) as bv32);
    TopByteIsClear(Shift8(y), k);
    TopByteTells(y);
    ClearLowByteMoves(y);
    BytesOfGap(g, a, b, y, k);
  }

  lemma GapCloses(g: bv32, a: bv8, b: bv8, k: nat)
    requires k <= 3 && Fits(NextGap(g, a, b), k) && g == 0
    ensures a == b && NextGap(g, a, b) == 0
  {
    hide Shift8, Fits;
    GapNarrows(g, a, b, k);
    ClearLowByteMoves(0);
  }

  lemma GapUnfolds(v: seq<bv8>, w: seq<bv8>)
    requires |v| == |w|
    ensures v == [] ==> Gap(v, w) == 0
    ensures v != [] ==> var n := |v| - 1; Gap(v, w) == NextGap(Gap(v[..n], w[..n]), v[n], w[n])
  {
    hide NextGap;
  }

  /** A gap of n bytes needs 4 - n bytes more before it can close. */
  lemma {:induction false} GapStaysOpen(v: seq<bv8>, w: seq<bv8>, k: nat)
    requires |v| == |w| && |v| + k <= 4
    requires Fits(Gap(v, w), k)
    ensures v == w && Gap(v, w) == 0
  {
    hide *;
    GapUnfolds(v, w);
    if v != [] {
      var n := |v| - 1;
      var v', w', a, b := v[..n], w[..n], v[n], w[n];
      var g := Gap(v', w');
      GapNarrows(g, a, b, k);
      GapStaysOpen(v', w', k + 1);
      GapCloses(g, a, b, k);
      assert v == v' + [a] && w == w' + [b];
    }
  }

  /** Two messages that differ, but only within four adjacent bytes, never share a checksum. */
  lemma BurstIsDetected(seed: bv32, before: seq<bv8>, v: seq<bv8>, w: seq<bv8>, after: seq<bv8>)
    requires |v| == |w| <= 4 && v != w
    ensures Crc(seed, before + v + after) != Crc(seed, before + w + after)
  {
    hide Register, Clocks, Gap;
    var c := Register(seed ^ 0xFFFFFFFF, before);
    var x, y := Register(c, v), Register(c, w);
    RegisterComposes(seed ^ 0xFFFFFFFF, before, v);
    RegisterComposes(seed ^ 0xFFFFFFFF, before, w);
    RegisterComposes(seed ^ 0xFFFFFFFF, before + v, after);
    RegisterComposes(seed ^ 0xFFFFFFFF, before + w, after);
    GapSeparates(c, v, w);
    if Crc(seed, before + v + after) == Crc(seed, before + w + after) {
      var p, q := Register(x, after), Register(y, after);
      DoubleComplement(p);
      DoubleComplement(q);
      RegisterIsInjective(x, y, after);
      SelfXor(x, Gap(v, w));
      GapStaysOpen(v, w, 0);
      assert false;
    }
  }

  lemma SelfXor(x: bv32, z: bv32)
    requires Xor(x, x, z)
    ensures Fits(z, 0)
  {
  }

  // ----- The check value -----

  /** One octet more in the register. */
  lemma OctetMore(c: bv32, data: seq<bv8>, k: nat, w: bv32, r: bv32, q: bv32)
    requires k < |data| && data[k] as bv32 == w
    requires Register(c, data[..k]) == r && Clocks(r, w, 8) == q
    ensures Register(c, data[..k + 1]) == q
  {
    assert data[..k + 1][..k] == data[..k];
    hide Clocks;
  }

  lemma NineOctets()
    ensures Clocks(0xffffffff, 0x31, 8) == 0x7c231048
    ensures Clocks(0x7c231048, 0x32, 8) == 0xb0acbb32
    ensures Clocks(0xb0acbb32, 0x33, 8) == 0x77b79c2d
    ensures Clocks(0x77b79c2d, 0x34, 8) == 0x641c1f5c
    ensures Clocks(0x641c1f5c, 0x35, 8) == 0x340ac5e3
    ensures Clocks(0x340ac5e3, 0x36, 8) == 0xf68d2c9e
    ensures Clocks(0xf68d2c9e, 0x37, 8) == 0xaffc9660
    ensures Clocks(0xaffc9660, 0x38, 8) == 0x651f2550
    ensures Clocks(0x651f2550, 0x39, 8) == 0x340bc6d9
  {
  }

  const DIGITS: seq<bv8> := [0x31, 0x32, 0x33, 0x34, 0x35, 0x36, 0x37, 0x38, 0x39]

  lemma NineWide(d: seq<bv8>)
    requires d == DIGITS
    ensures d[0] as bv32 == 0x31
    ensures d[1] as bv32 == 0x32
    ensures d[2] as bv32 == 0x33
    ensures d[3] as bv32 == 0x34
    ensures d[4] as bv32 == 0x35
    ensures d[5] as bv32 == 0x36
    ensures d[6] as bv32 == 0x37
    ensures d[7] as bv32 == 0x38
    ensures d[8] as bv32 == 0x39
  {
  }

  lemma RegisterOfDigits()
    ensures Register(0xFFFFFFFF, DIGITS) == 0x340bc6d9
  {
    NineOctets();
    var d := DIGITS;
    assert Register(0xFFFFFFFF, d[..0]) == 0xFFFFFFFF;
    assert |d| == 9 && d[..9] == d;
    NineWide(d);
    hide *;
    OctetMore(0xFFFFFFFF, d, 0, 0x31, 0xffffffff, 0x7c231048);
    OctetMore(0xFFFFFFFF, d, 1, 0x32, 0x7c231048, 0xb0acbb32);
    OctetMore(0xFFFFFFFF, d, 2, 0x33, 0xb0acbb32, 0x77b79c2d);
    OctetMore(0xFFFFFFFF, d, 3, 0x34, 0x77b79c2d, 0x641c1f5c);
    OctetMore(0xFFFFFFFF, d, 4, 0x35, 0x641c1f5c, 0x340ac5e3);
    OctetMore(0xFFFFFFFF, d, 5, 0x36, 0x340ac5e3, 0xf68d2c9e);
    OctetMore(0xFFFFFFFF, d, 6, 0x37, 0xf68d2c9e, 0xaffc9660);
    OctetMore(0xFFFFFFFF, d, 7, 0x38, 0xaffc9660, 0x651f2550);
    OctetMore(0xFFFFFFFF, d, 8, 0x39, 0x651f2550, 0x340bc6d9);
  }

  /** The check value by which catalogues tell this CRC from its relatives: the checksum of
      the nine digits "123456789". */
  lemma CheckValue()
    ensures Crc(0, DIGITS) == 0xCBF43926
  {
    RegisterOfDigits();
    hide Register;
  }
}
