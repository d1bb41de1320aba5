/**
  The Internet checksum of inc/pkthlp.h, against RFC 1071.

  The code adds little-endian 16-bit words into a 32-bit accumulator and folds the
  carries back twice. The reference here is the definition in section 1 of RFC 1071:
  16-bit addition with end-around carry.
 */
module Checksum {
  import opened Bytes

  // ---------------------------------------------------------------- reference

  /** 16-bit ones' complement addition: a carry out of bit 15 is added back in. */
  function AddCarry(a: u16, b: u16): u16 {
    if a + b > 0xFFFF then a + b - 0xFFFF else a + b
  }

  /** Ones' complement sum of the words of `s` as a little-endian machine loads them. */
  function OnesSum(s: seq<byte>): u16 {
    OnesFrom(s, 0)
  }

  function OnesFrom(s: seq<byte>, i: nat): u16
    decreases |s| - i
  {
    if i >= |s| then 0
    else if i + 1 == |s| then s[i]
    else AddCarry(Word(s[i], s[i + 1]), OnesFrom(s, i + 2))
  }

  /** The same sum with the words read in network order, an odd tail padded with a zero byte. */
  function NetworkSum(s: seq<byte>): u16 {
    NetworkFrom(s, 0)
  }

  function NetworkFrom(s: seq<byte>, i: nat): u16
    decreases |s| - i
  {
    if i >= |s| then 0
    else if i + 1 == |s| then Word(0, s[i])
    else AddCarry(Word(s[i + 1], s[i]), NetworkFrom(s, i + 2))
  }

  /** A receiver accepts when the sum over the covered bytes, checksum included, is all ones. */
  predicate Verifies(s: seq<byte>) {
    OnesSum(s) == 0xFFFF
  }

  // ---------------------------------------------------------------- the plain integer sum

  /** The integer sum of the words: what the 32-bit accumulator would hold without a width. */
  function WordSum(s: seq<byte>): nat {
    WordsFrom(s, 0)
  }

  function WordsFrom(s: seq<byte>, i: nat): nat
    decreases |s| - i
  {
    if i >= |s| then 0
    else if i + 1 == |s| then s[i]
    else Word(s[i], s[i + 1]) + WordsFrom(s, i + 2)
  }

  /** The ones' complement representative of an integer: 0 only for 0, else 1..0xFFFF. */
  function Rep(n: nat): u16 {
    if n <= 0xFFFF then n else Rep(n - 0xFFFF)
  }

  lemma {:induction false} WordsFromBound(s: seq<byte>, i: nat)
    requires i <= |s|
    ensures WordsFrom(s, i) <= (|s| - i + 1) / 2 * 0xFFFF
    decreases |s| - i
  {
    if i + 2 <= |s| {
      WordsFromBound(s, i + 2);
    }
  }

  lemma {:induction false} WordsFromSuffix(a: seq<byte>, b: seq<byte>, j: nat)
    ensures WordsFrom(a + b, |a| + j) == WordsFrom(b, j)
    decreases |b| - j
  {
    if j + 2 <= |b| {
      WordsFromSuffix(a, b, j + 2);
    }
  }

  lemma {:induction false} WordsFromConcat(a: seq<byte>, b: seq<byte>, i: nat, k: nat)
    requires |a| == i + 2 * k
    ensures WordsFrom(a + b, i) == WordsFrom(a, i) + WordsFrom(b, 0)
    decreases k
  {
    if k == 0 {
      WordsFromSuffix(a, b, 0);
    } else {
      WordsFromConcat(a, b, i + 2, k - 1);
    }
  }

  /** Evenness of a length is stated by naming the number `k` of words. */
  lemma WordSumConcat(a: seq<byte>, b: seq<byte>, k: nat)
    requires |a| == 2 * k
    ensures WordSum(a + b) == WordSum(a) + WordSum(b)
  {
    WordsFromConcat(a, b, 0, k);
  }

  lemma {:induction false} RepQuotient(n: nat) returns (k: nat)
    ensures n == Rep(n) + k * 0xFFFF
    ensures Rep(n) == 0 <==> n == 0
  {
    if n <= 0xFFFF {
      k := 0;
    } else {
      k := RepQuotient(n - 0xFFFF);
      k := k + 1;
    }
  }

  /** `Rep` is the only value in its range that agrees with `n` modulo 0xFFFF and on zero. */
  lemma {:induction false} RepUnique(n: nat, r: u16, k: nat)
    requires n == r + k * 0xFFFF
    requires r == 0 <==> n == 0
    ensures Rep(n) == r
  {
    if k > 0 {
      RepUnique(n - 0xFFFF, r, k - 1);
    }
  }

  lemma RepShift(m: nat, n: nat, k: nat)
    requires n == m + k * 0xFFFF
    requires m == 0 ==> n == 0
    ensures Rep(m) == Rep(n)
  {
    var q := RepQuotient(m);
    RepUnique(n, Rep(m), q + k);
  }

  lemma RepAdd(a: nat, b: nat)
    ensures AddCarry(Rep(a), Rep(b)) == Rep(a + b)
    ensures Rep(Rep(a) + b) == Rep(a + b)
  {
    var qa := RepQuotient(a);
    var qb := RepQuotient(b);
    var carry := if Rep(a) + Rep(b) > 0xFFFF then 1 else 0;
    RepUnique(a + b, AddCarry(Rep(a), Rep(b)), qa + qb + carry);
    RepShift(Rep(a) + b, a + b, qa);
  }

  lemma {:induction false} OnesFromIsRep(s: seq<byte>, i: nat)
    ensures OnesFrom(s, i) == Rep(WordsFrom(s, i))
    decreases |s| - i
  {
    if i + 2 <= |s| {
      OnesFromIsRep(s, i + 2);
      RepAdd(Word(s[i], s[i + 1]), WordsFrom(s, i + 2));
    }
  }

  /** The reference sum is the representative of the integer sum. */
  lemma OnesSumIsRep(s: seq<byte>)
    ensures OnesSum(s) == Rep(WordSum(s))
  {
    OnesFromIsRep(s, 0);
  }

  // ---------------------------------------------------------------- the code

  /** One folding line: the low half plus the high half. */
  function FoldOnce(c: u32): u32 {
    c % 0x1_0000 + c / 0x1_0000
  }

  /** `PktChecksumFold`: fold twice, then truncate to 16 bits. */
  function Fold(c: u32): u16 {
    FoldOnce(FoldOnce(c)) % 0x1_0000
  }

  /** Two folds always reach 16 bits, so the final truncation drops nothing, and they
      compute the ones' complement value. */
  lemma FoldIsRep(c: u32)
    ensures FoldOnce(FoldOnce(c)) < 0x1_0000
    ensures Fold(c) == Rep(c)
  {
    var c1 := FoldOnce(c);
    assert c == c1 + c / 0x1_0000 * 0xFFFF;
    assert c1 == FoldOnce(c1) + c1 / 0x1_0000 * 0xFFFF;
    RepUnique(c, Fold(c), c / 0x1_0000 + c1 / 0x1_0000);
  }

  /** `PktPartialChecksum`: the accumulator is a 32-bit integer and every addition to it is
      taken modulo 2^32; the result is nevertheless the reference sum for every buffer whose
      length fits the 16-bit parameter, even or odd. */
  method PartialChecksum(buffer: seq<byte>) returns (r: u16)
    requires |buffer| <= MAX_U16
    ensures r == OnesSum(buffer)
  {
    WordsFromBound(buffer, 0);
    var checksum: u32 := 0;
    var p, left := 0, |buffer|;
    while left >= 2
      invariant 0 <= p && 0 <= left && p + left == |buffer|
      invariant checksum + WordsFrom(buffer, p) == WordSum(buffer)
    {
      checksum := (checksum + Word(buffer[p], buffer[p + 1])) % 0x1_0000_0000;
      p, left := p + 2, left - 2;
    }
    if left > 0 {
      checksum := (checksum + buffer[p]) % 0x1_0000_0000;
    }
    assert checksum == WordSum(buffer);
    FoldIsRep(checksum);
    OnesSumIsRep(buffer);
    r := Fold(checksum);
  }

  /** `PktChecksum`: complement of the folded sum of an initial value and a buffer. */
  method FullChecksum(initial: u16, buffer: seq<byte>) returns (r: u16)
    requires |buffer| <= MAX_U16
    ensures r == 0xFFFF - AddCarry(initial, OnesSum(buffer))
  {
    var partial := PartialChecksum(buffer);
    FoldIsRep(initial + partial);
    RepUnique(initial + partial, AddCarry(initial, partial), if initial + partial > 0xFFFF then 1 else 0);
    r := 0xFFFF - Fold(initial + partial);
  }

  // ---------------------------------------------------------------- RFC 1071, section 2

  /** Section 2(A): the sum splits at any even offset. */
  lemma SumSplits(a: seq<byte>, b: seq<byte>)
    requires |a| % 2 == 0
    ensures OnesSum(a + b) == AddCarry(OnesSum(a), OnesSum(b))
  {
    WordSumConcat(a, b, |a| / 2);
    OnesSumIsRep(a);
    OnesSumIsRep(b);
    OnesSumIsRep(a + b);
    RepAdd(WordSum(a), WordSum(b));
  }

  lemma SwapAddCarry(a: u16, b: u16)
    ensures Swap16(AddCarry(a, b)) == AddCarry(Swap16(a), Swap16(b))
  {
    SwapIsScale(a);
    SwapIsScale(b);
    SwapIsScale(AddCarry(a, b));
    RepAdd(256 * a, 256 * b);
    RepShift(256 * AddCarry(a, b), 256 * a + 256 * b, if a + b > 0xFFFF then 256 else 0);
  }

  lemma SwapIsScale(x: u16)
    ensures Swap16(x) == Rep(256 * x)
  {
    RepUnique(256 * x, Swap16(x), x / 256);
  }

  lemma SwapWord(lo: byte, hi: byte)
    ensures Swap16(Word(lo, hi)) == Word(hi, lo)
  {
    assert Word(lo, hi) % 256 == lo && Word(lo, hi) / 256 == hi;
  }

  lemma {:induction false} SumIsByteSwappedFrom(s: seq<byte>, i: nat)
    ensures OnesFrom(s, i) == Swap16(NetworkFrom(s, i))
    decreases |s| - i
  {
    if i + 1 == |s| {
      SwapWord(0, s[i]);
    } else if i + 2 <= |s| {
      SumIsByteSwappedFrom(s, i + 2);
      SwapWord(s[i + 1], s[i]);
      SwapAddCarry(Word(s[i + 1], s[i]), NetworkFrom(s, i + 2));
    }
  }

  /** Section 2(B): the little-endian sum is the byte swap of the network-order sum. */
  lemma SumIsByteSwapped(s: seq<byte>)
    ensures OnesSum(s) == Swap16(NetworkSum(s))
  {
    SumIsByteSwappedFrom(s, 0);
  }

  // ---------------------------------------------------------------- sealing a packet

  /** The memory image of a 16-bit value stored without a byte swap. */
  function Le16(x: u16): (s: seq<byte>)
    ensures |s| == 2
  {
    [x % 256, x / 256]
  }

  lemma WordSumLe16(x: u16)
    ensures WordSum(Le16(x)) == x
  {
    assert WordSum(Le16(x)) == Word(x % 256, x / 256) + WordsFrom(Le16(x), 2);
  }

  lemma WordSumField(before: seq<byte>, field: u16, after: seq<byte>, k: nat)
    requires |before| == 2 * k
    ensures WordSum(before + Le16(field) + after) == WordSum(before) + field + WordSum(after)
  {
    WordSumLe16(field);
    WordSumConcat(before, Le16(field), k);
    WordSumConcat(before + Le16(field), after, k + 1);
  }

  /** The checksum the builders store: the complement of the sum taken while the checksum
      field holds `placeholder`. */
  function Seal(before: seq<byte>, placeholder: u16, after: seq<byte>): u16 {
    0xFFFF - OnesSum(before + Le16(placeholder) + after)
  }

  /** The field that completes an integer sum to a multiple of 0xFFFF. */
  predicate Completes(n: nat, field: u16) {
    field == 0xFFFF - Rep(n) || (field == 0xFFFF && Rep(n) == 0xFFFF)
  }

  lemma CompletedRep(n: nat, field: u16)
    requires Completes(n, field)
    ensures Rep(n + field) == 0xFFFF
  {
    var q := RepQuotient(n);
    RepUnique(n + field, 0xFFFF, if field == 0xFFFF - Rep(n) then q else q + 1);
  }

  lemma PacketWordSum(pseudo: seq<byte>, before: seq<byte>, field: u16, after: seq<byte>, j: nat, k: nat)
    requires |pseudo| == 2 * j && |before| == 2 * k
    ensures WordSum(pseudo + (before + Le16(field) + after))
            == WordSum(pseudo) + (WordSum(before) + WordSum(after)) + field
  {
    WordSumConcat(pseudo, before + Le16(field) + after, j);
    WordSumField(before, field, after, k);
  }

  lemma VerifiesByWordSum(packet: seq<byte>, n: nat, field: u16)
    requires WordSum(packet) == n + field && Completes(n, field)
    ensures Verifies(packet)
  {
    OnesSumIsRep(packet);
    CompletedRep(n, field);
  }

  lemma CompletedVerifies(pseudo: seq<byte>, before: seq<byte>, field: u16, after: seq<byte>, j: nat, k: nat)
    requires |pseudo| == 2 * j && |before| == 2 * k
    requires Completes(WordSum(pseudo) + (WordSum(before) + WordSum(after)), field)
    ensures Verifies(pseudo + (before + Le16(field) + after))
  {
    PacketWordSum(pseudo, before, field, after, j, k);
    VerifiesByWordSum(pseudo + (before + Le16(field) + after),
                      WordSum(pseudo) + (WordSum(before) + WordSum(after)), field);
  }

  lemma SealIsComplement(before: seq<byte>, placeholder: u16, after: seq<byte>, k: nat)
    requires |before| == 2 * k
    ensures Seal(before, placeholder, after) == 0xFFFF - Rep(placeholder + (WordSum(before) + WordSum(after)))
  {
    WordSumField(before, placeholder, after, k);
    OnesSumIsRep(before + Le16(placeholder) + after);
  }

  lemma SealCompletes(pseudo: seq<byte>, n: nat, placeholder: u16, seal: u16, stored: u16)
    requires placeholder == OnesSum(pseudo)
    requires seal == 0xFFFF - Rep(placeholder + n)
    requires stored == seal || (seal == 0 && stored == 0xFFFF)
    ensures Completes(WordSum(pseudo) + n, stored)
  {
    OnesSumIsRep(pseudo);
    RepAdd(WordSum(pseudo), n);
  }

  /** Storing `Seal` at any even offset, with the sum of `pseudo` as the placeholder, makes
      `pseudo` followed by the packet verify. `pseudo` may be empty. A stored zero may be
      replaced by all ones. */
  lemma SealVerifies(pseudo: seq<byte>, before: seq<byte>, placeholder: u16, after: seq<byte>, stored: u16, j: nat, k: nat)
    requires |pseudo| == 2 * j && |before| == 2 * k
    requires placeholder == OnesSum(pseudo)
    requires var seal := Seal(before, placeholder, after);
             stored == seal || (seal == 0 && stored == 0xFFFF)
    ensures Verifies(pseudo + (before + Le16(stored) + after))
  {
    SealIsComplement(before, placeholder, after, k);
    SealCompletes(pseudo, WordSum(before) + WordSum(after), placeholder, Seal(before, placeholder, after), stored);
    CompletedVerifies(pseudo, before, stored, after, j, k);
  }
}
