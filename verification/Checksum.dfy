// The Internet checksum of section 1 of RFC 1071, as the capture code computes it: a 32-bit
// running sum of network-order words that is folded to 16 bits and complemented.
module Checksum {
  import opened Bytes

  /** The first n words of data added up without any width limit. A trailing odd octet is
      never part of a word. */
  function Words(data: seq<byte>, n: nat): nat
    requires 2 * n <= |data|
  {
    if n == 0 then 0 else Words(data, n - 1) + FromBE16(data[2 * n - 2..])
  }

  function WordSum(data: seq<byte>): nat {
    Words(data, |data| / 2)
  }

  /** End-around carry until the sum fits in 16 bits. */
  function Folded(sum: nat): nat {
    if sum < U16 then sum else Folded(sum % U16 + sum / U16)
  }

  function Cksum(data: seq<byte>): nat {
    0xFFFF - FoldedInRange(WordSum(data) % U32)
  }

  function FoldedInRange(sum: nat): (f: nat)
    ensures f == Folded(sum) && f < U16
  {
    FoldedValue(sum);
    Folded(sum)
  }

  /** Folding keeps the residue modulo 65535, and only zero folds to zero. */
  lemma {:induction false} FoldedValue(sum: nat)
    ensures Folded(sum) == if sum == 0 then 0 else if sum % 0xFFFF == 0 then 0xFFFF else sum % 0xFFFF
  {
    if sum >= U16 {
      FoldedValue(sum % U16 + sum / U16);
      FoldStep(sum);
    }
  }

  lemma FoldStep(sum: nat)
    ensures (sum % U16 + sum / U16) % 0xFFFF == sum % 0xFFFF
    ensures sum % U16 + sum / U16 == 0 <==> sum == 0
  {
    var q := sum / U16;
    assert sum == (sum % U16 + q) + 0xFFFF * q;
    AddMultiple(sum % U16 + q, q);
  }

  lemma AddMultiple(n: int, q: int)
    ensures (n + 0xFFFF * q) % 0xFFFF == n % 0xFFFF
  {
  }

  lemma {:induction false} WordsBound(data: seq<byte>, n: nat)
    requires 2 * n <= |data|
    ensures Words(data, n) <= 0xFFFF * n
  {
    if n > 0 {
      WordsBound(data, n - 1);
    }
  }

  lemma RunningSum(sum: nat, word: nat)
    ensures (sum % U32 + word) % U32 == (sum + word) % U32
  {
  }

  /** The checksum function of the source. */
  method IphdrCksum(data: seq<byte>, enabled: bool) returns (cksum: nat)
    ensures cksum == if enabled then Cksum(data) else 0
  {
    if !enabled {
      return 0;
    }
    var sum := 0;
    for i := 0 to |data| / 2
      invariant sum == Words(data, i) % U32
    {
      RunningSum(Words(data, i), FromBE16(data[2 * i..]));
      sum := (sum + FromBE16(data[2 * i..])) % U32;
    }
    ghost var total := sum;
    hide Words;
    while sum >= U16
      invariant 0 <= sum && Folded(sum) == Folded(total)
    {
      sum := sum % U16 + sum / U16;
    }
    cksum := 0xFFFF - sum;
  }

  /** Header, next header and payload in one run of octets, padded to whole words. */
  function L4Data(hdr: seq<byte>, next: seq<byte>, payload: seq<byte>): seq<byte> {
    hdr + next + payload + (if |payload| % 2 == 1 then [0] else [])
  }

  method L4hdrCksum(hdr: seq<byte>, next: seq<byte>, payload: seq<byte>, enabled: bool) returns (cksum: nat)
    ensures cksum == if enabled then Cksum(L4Data(hdr, next, payload)) else 0
  {
    if !enabled {
      return 0;
    }
    var padd := |payload| % 2;
    var buff := Repeat(0xAA, |hdr| + |next| + |payload| + padd);
    buff := hdr + buff[|hdr|..];
    buff := buff[..|hdr|] + next + buff[|hdr| + |next|..];
    buff := buff[..|hdr| + |next|] + payload + buff[|hdr| + |next| + |payload|..];
    if padd > 0 {
      buff := buff[|buff| - 1 := 0];
    }
    assert buff == L4Data(hdr, next, payload);
    cksum := IphdrCksum(buff, enabled);
  }

  // ----- A completed header verifies -----

  /** Small enough for the 32-bit sum: 65537 words of at most 65535. */
  predicate NoOverflow(data: seq<byte>) {
    |data| / 2 <= 65537
  }

  function Store16(data: seq<byte>, at: nat, value: u16): seq<byte>
    requires at + 2 <= |data|
  {
    data[at := value / 256][at + 1 := value % 256]
  }

  lemma {:induction false} WordsAfterStore(data: seq<byte>, at: nat, value: u16, n: nat)
    requires at % 2 == 0 && at + 2 <= |data| && 2 * n <= |data|
    requires data[at] == 0 && data[at + 1] == 0
    ensures Words(Store16(data, at, value), n) == Words(data, n) + if at < 2 * n then value else 0
  {
    if n > 0 {
      WordsAfterStore(data, at, value, n - 1);
      var d, e := data[2 * n - 2..], Store16(data, at, value)[2 * n - 2..];
      assert e[0] == if at == 2 * n - 2 then value / 256 else d[0];
      assert e[1] == if at == 2 * n - 2 then value % 256 else d[1];
    }
  }

  /** A receiver sums the completed data to zero, whatever the data. */
  lemma CompletedVerifies(data: seq<byte>, at: nat)
    requires NoOverflow(data)
    requires at % 2 == 0 && at + 2 <= |data| && data[at] == 0 && data[at + 1] == 0
    ensures Cksum(Store16(data, at, Cksum(data))) == 0
  {
    hide Words, Folded, FoldedInRange, Cksum;
    NoWrap(data);
    NoWrap(Store16(data, at, Cksum(data)));
    WordsAfterStore(data, at, Cksum(data), |data| / 2);
    ComplementFolds(WordSum(data));
  }

  lemma NoWrap(data: seq<byte>)
    requires NoOverflow(data)
    ensures WordSum(data) < U32 && Cksum(data) == 0xFFFF - FoldedInRange(WordSum(data))
  {
    WordsBound(data, |data| / 2);
  }

  lemma ComplementFolds(s: nat)
    ensures FoldedInRange(s + 0xFFFF - FoldedInRange(s)) == 0xFFFF
  {
    hide Folded;
    var f := Folded(s);
    FoldedValue(s);
    FoldedValue(s + 0xFFFF - f);
    if s != 0 {
      var q := s / 0xFFFF;
      AddMultiple(0, if s % 0xFFFF == 0 then q else q + 1);
    }
  }

  /** The test a receiver makes accepts exactly the data whose words add up to a non-zero
      multiple of 65535; so a changed word passes only if it changes by such a multiple. */
  lemma VerifiesIff(data: seq<byte>)
    requires NoOverflow(data)
    ensures Cksum(data) == 0 <==> WordSum(data) > 0 && WordSum(data) % 0xFFFF == 0
  {
    WordsBound(data, |data| / 2);
    FoldedValue(WordSum(data));
  }

  /** A checksum in the header part of a padded layer-4 packet verifies too. */
  lemma CompletedL4Verifies(hdr: seq<byte>, next: seq<byte>, payload: seq<byte>, at: nat)
    requires |hdr| % 2 == 0 && at % 2 == 0 && at + 2 <= |next| && next[at] == 0 && next[at + 1] == 0
    requires NoOverflow(L4Data(hdr, next, payload))
    ensures var sum := Cksum(L4Data(hdr, next, payload));
            Cksum(L4Data(hdr, Store16(next, at, sum), payload)) == 0
  {
    var data := L4Data(hdr, next, payload);
    CompletedVerifies(data, |hdr| + at);
    assert Store16(data, |hdr| + at, Cksum(data)) == L4Data(hdr, Store16(next, at, Cksum(data)), payload);
  }

  // ----- What a receiver adds up -----

  /** The sum over a segment: an odd octet at its end is the upper half of a last word. */
  function SegmentSum(segment: seq<byte>): nat {
    WordSum(segment) + if |segment| % 2 == 1 then segment[|segment| - 1] as int * 256 else 0
  }

  lemma {:induction false} WordsOfFront(a: seq<byte>, b: seq<byte>, n: nat)
    requires 2 * n <= |a|
    ensures Words(a + b, n) == Words(a, n)
  {
    if n > 0 {
      WordsOfFront(a, b, n - 1);
      assert (a + b)[2 * n - 2..][..2] == a[2 * n - 2..][..2];
    }
  }

  lemma {:induction false} WordsAppend(a: seq<byte>, b: seq<byte>, n: nat)
    requires |a| % 2 == 0 && 2 * n <= |b|
    ensures Words(a + b, |a| / 2 + n) == WordSum(a) + Words(b, n)
  {
    if n == 0 {
      WordsOfFront(a, b, |a| / 2);
    } else {
      WordsAppend(a, b, n - 1);
      assert (a + b)[2 * (|a| / 2 + n) - 2..] == b[2 * n - 2..];
    }
  }

  lemma SumsAdd(a: seq<byte>, b: seq<byte>)
    requires |a| % 2 == 0
    ensures WordSum(a + b) == WordSum(a) + WordSum(b)
  {
    WordsAppend(a, b, |b| / 2);
    Halves(|a|, |b|);
    hide Words;
  }

  lemma Halves(m: nat, n: nat)
    requires m % 2 == 0
    ensures (m + n) / 2 == m / 2 + n / 2
  {
  }

  lemma PaddedSum(segment: seq<byte>)
    ensures WordSum(segment + if |segment| % 2 == 1 then [0] else []) == SegmentSum(segment)
  {
    if |segment| % 2 == 1 {
      var s, n := segment + [0], |segment| / 2;
      WordsOfFront(segment, [0], n);
      LastWord(s, n);
      hide Words;
      assert |s| / 2 == n + 1 && 2 * n == |segment| - 1;
    } else {
      assert segment + [] == segment;
    }
  }

  lemma LastWord(s: seq<byte>, n: nat)
    requires 2 * n + 2 <= |s|
    ensures Words(s, n + 1) == Words(s, n) + s[2 * n] as int * 256 + s[2 * n + 1]
  {
    var last := s[2 * n..];
    assert last[0] == s[2 * n] && last[1] == s[2 * n + 1];
    assert 2 * (n + 1) - 2 == 2 * n;
  }

  lemma L4Parts(hdr: seq<byte>, next: seq<byte>, payload: seq<byte>)
    requires |next| % 2 == 0
    ensures var segment := next + payload;
            L4Data(hdr, next, payload) == hdr + (segment + if |segment| % 2 == 1 then [0] else [])
  {
  }

  /** What the source sums is what a receiver of header and segment sums. */
  lemma L4SumIsReceiverSum(hdr: seq<byte>, next: seq<byte>, payload: seq<byte>)
    requires |hdr| % 2 == 0 && |next| % 2 == 0
    ensures WordSum(L4Data(hdr, next, payload)) == WordSum(hdr) + SegmentSum(next + payload)
  {
    L4Parts(hdr, next, payload);
    hide *;
    var segment := next + payload;
    SumsAdd(hdr, segment + if |segment| % 2 == 1 then [0] else []);
    PaddedSum(segment);
  }

  // ----- The exact limit of the 32-bit sum -----

  /** Wrapping the sum at 32 bits loses one for every wrap, so the residue survives exactly
      when the number of wraps is a multiple of 65535. */
  lemma ResidueSurvivesIff(sum: nat)
    ensures Folded(sum % U32) % 0xFFFF == Folded(sum) % 0xFFFF <==> (sum / U32) % 0xFFFF == 0
  {
    hide Folded;
    var wraps, kept := sum / U32, sum % U32;
    FoldedResidue(kept);
    FoldedResidue(sum);
    SplitAtWrap(sum);
    AddMultiple(kept + wraps, 0x10001 * wraps);
    SameResidue(kept, wraps);
  }

  /** The folded sum itself survives the wrap exactly when its residue does, and the sum
      that is left is not zero for a sum that was not. */
  lemma FoldedSumSurvivesIff(sum: nat)
    ensures Folded(sum % U32) == Folded(sum)
       <==> (sum / U32) % 0xFFFF == 0 && (sum == 0 || sum % U32 != 0)
  {
    ResidueSurvivesIff(sum);
    hide Folded;
    FoldedValue(sum % U32);
    FoldedValue(sum);
  }

  /** So the checksum of any data is the right one if and only if the number of wraps is a
      multiple of 65535 and the wrapped sum of non-zero words is not zero. */
  lemma ChecksumIsRightIff(data: seq<byte>)
    ensures Cksum(data) == 0xFFFF - FoldedInRange(WordSum(data))
       <==> && (WordSum(data) / U32) % 0xFFFF == 0
            && (WordSum(data) == 0 || WordSum(data) % U32 != 0)
  {
    FoldedSumSurvivesIff(WordSum(data));
    hide Folded, WordSum;
  }

  lemma FoldedResidue(sum: nat)
    ensures Folded(sum) % 0xFFFF == sum % 0xFFFF
  {
    hide Folded;
    FoldedValue(sum);
  }

  lemma SplitAtWrap(sum: nat)
    ensures sum == sum % U32 + sum / U32 + 0xFFFF * (0x10001 * (sum / U32))
  {
  }

  lemma SameResidue(a: nat, b: nat)
    ensures (a + b) % 0xFFFF == a % 0xFFFF <==> b % 0xFFFF == 0
  {
    var q := b / 0xFFFF;
    AddMultiple(a + b % 0xFFFF, q);
    assert a + b == a + b % 0xFFFF + 0xFFFF * q;
    var p := a / 0xFFFF;
    AddMultiple(a % 0xFFFF + b % 0xFFFF, p);
    assert a + b % 0xFFFF == a % 0xFFFF + b % 0xFFFF + 0xFFFF * p;
  }

  lemma {:induction false} WordsOfOnes(n: nat, k: nat)
    requires k <= n
    ensures Words(Repeat(0xFF, 2 * n), k) == 0xFFFF * k
  {
    if k > 0 {
      WordsOfOnes(n, k - 1);
    }
  }

  /** The smallest input of all-ones octets that does overflow: the sum comes out wrong. */
  lemma OverflowBreaksTheSum()
    ensures var data := Repeat(0xFF, 2 * 65538);
            Cksum(data) != 0xFFFF - FoldedInRange(WordSum(data))
  {
    WordsOfOnes(65538, 65538);
    var data := Repeat(0xFF, 2 * 65538);
    assert WordSum(data) == 0xFFFF * 65538;
    hide Repeat, WordSum, Cksum, FoldedInRange;
    ChecksumIsRightIff(data);
  }
}
