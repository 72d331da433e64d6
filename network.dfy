/**
 * IPv4 helpers: the binary text of a dotted quad, the 32-bit population count
 * computed by the classic SWAR sequence, and the dotted-quad netmask of a
 * prefix length (the prefix notation of section 3.1 of RFC 4632).
 */
module Network {
  import opened Wrappers
  import opened Text

  // ================================================================ binary text

  predicate IsBinary(s: string) {
    forall i :: 0 <= i < |s| ==> s[i] == '0' || s[i] == '1'
  }

  function BitChar(b: nat): char
    requires b < 2
  {
    if b == 0 then '0' else '1'
  }

  /** `bin(n)[2:]` for n >= 0: the binary digits of n, with no leading zero unless n is 0. */
  function BinDigits(n: nat): (s: string)
    ensures s != [] && IsBinary(s)
    ensures |s| > 1 ==> s[0] == '1'
  {
    if n < 2 then [BitChar(n)] else BinDigits(n / 2) + [BitChar(n % 2)]
  }

  /** Python's `bin(n)`: "0b" and the digits, with a leading "-" for negative n. */
  function Bin(n: int): string {
    if n >= 0 then "0b" + BinDigits(n) else "-0b" + BinDigits(-n)
  }

  function Pow2(k: nat): (p: nat)
    ensures p >= 1
  {
    if k == 0 then 1 else 2 * Pow2(k - 1)
  }

  /** The number a text of '0' and '1' denotes, most significant digit first. */
  function BinaryValue(s: string): nat
    requires IsBinary(s)
  {
    if s == [] then 0 else 2 * BinaryValue(s[..|s| - 1]) + (if s[|s| - 1] == '1' then 1 else 0)
  }

  lemma {:induction false} BinDigitsValue(n: nat)
    ensures BinaryValue(BinDigits(n)) == n
  {
    if n >= 2 {
      BinDigitsValue(n / 2);
      var s := BinDigits(n);
      assert s[..|s| - 1] == BinDigits(n / 2);
    }
  }

  lemma {:induction false} BinDigitsLength(n: nat, k: nat)
    requires k >= 1 && n < Pow2(k)
    ensures |BinDigits(n)| <= k
  {
    if n >= 2 {
      BinDigitsLength(n / 2, k - 1);
    }
  }

  lemma {:induction false} BinaryValueConcat(a: string, b: string)
    requires IsBinary(a) && IsBinary(b)
    ensures IsBinary(a + b)
    ensures BinaryValue(a + b) == BinaryValue(a) * Pow2(|b|) + BinaryValue(b)
  {
    if b == [] {
      assert a + b == a;
    } else {
      var b' := b[..|b| - 1];
      assert IsBinary(b');
      BinaryValueConcat(a, b');
      assert (a + b)[..|a + b| - 1] == a + b';
      var last := if b[|b| - 1] == '1' then 1 else 0;
      var va, vb', p' := BinaryValue(a), BinaryValue(b'), Pow2(|b'|);
      assert BinaryValue(a + b) == 2 * BinaryValue(a + b') + last;
      assert BinaryValue(b) == 2 * vb' + last;
      Double(va, p');
    }
  }

  lemma Double(x: int, y: int)
    ensures 2 * (x * y) == x * (2 * y)
  {
  }

  lemma {:induction false} ZerosValue(k: nat)
    ensures IsBinary(Repeat('0', k)) && BinaryValue(Repeat('0', k)) == 0
  {
    if k > 0 {
      ZerosValue(k - 1);
      assert Repeat('0', k)[..k - 1] == Repeat('0', k - 1);
    }
  }

  /** The eight binary digits of one octet, as `ipv4_to_bits` writes them. */
  function OctetBits(part: string): Result<string, Exception> {
    match ParseInt(part)
    case None => Err(ValueError(part))
    case Some(n) => Ok(RJust(Bin(n)[2..], 8, '0'))
  }

  /** The octet texts converted left to right; the first that is not a number raises. */
  function PartsBits(parts: seq<string>): Result<string, Exception> {
    if parts == [] then Ok("")
    else
      match OctetBits(parts[0])
      case Err(e) => Err(e)
      case Ok(b) =>
        match PartsBits(parts[1..])
        case Err(e) => Err(e)
        case Ok(bs) => Ok(b + bs)
  }

  /** `ipv4_to_bits`: the binary text of every dot-separated part, concatenated. */
  function Ipv4ToBits(ip: string): (r: Result<string, Exception>)
    ensures r.Err? <==> exists i :: 0 <= i < |Split(ip, '.')| && ParseInt(Split(ip, '.')[i]).None?
  {
    var parts := Split(ip, '.');
    PartsBitsFails(parts);
    assert PartsBits(parts).Err? <==> exists i :: 0 <= i < |parts| && ParseInt(parts[i]).None?;
    assert parts == Split(ip, '.');
    PartsBits(parts)
  }

  /** The conversion fails exactly when some part is not an integer. */
  lemma {:induction false} PartsBitsFails(parts: seq<string>)
    ensures PartsBits(parts).Err? <==> exists i :: 0 <= i < |parts| && ParseInt(parts[i]).None?
  {
    if parts != [] {
      PartsBitsFails(parts[1..]);
      assert forall i :: 1 <= i < |parts| ==> parts[i] == parts[1..][i - 1];
      OctetBitsFails(parts[0]);
    }
  }

  lemma OctetBitsFails(part: string)
    ensures OctetBits(part).Err? <==> ParseInt(part).None?
  {
  }

  lemma BinOfNatural(n: nat)
    ensures Bin(n)[2..] == BinDigits(n)
  {
  }

  lemma {:induction false} PaddedValue(d: string)
    requires IsBinary(d) && |d| <= 8
    ensures |RJust(d, 8, '0')| == 8 && IsBinary(RJust(d, 8, '0'))
    ensures BinaryValue(RJust(d, 8, '0')) == BinaryValue(d)
  {
    if |d| < 8 {
      ZerosValue(8 - |d|);
      BinaryValueConcat(Repeat('0', 8 - |d|), d);
    }
  }

  /** The text `ipv4_to_bits` writes for an octet: eight digits worth its value. */
  function OctetText(v: nat): string {
    RJust(BinDigits(v), 8, '0')
  }

  lemma OctetOfDecimal(v: nat)
    requires v < 256
    ensures OctetBits(Decimal(v)) == Ok(OctetText(v))
    ensures |OctetText(v)| == 8 && IsBinary(OctetText(v)) && BinaryValue(OctetText(v)) == v
  {
    ParseDecimal(v);
    BinOfNatural(v);
    assert Pow2(8) == 256;
    BinDigitsLength(v, 8);
    BinDigitsValue(v);
    PaddedValue(BinDigits(v));
  }

  function Quad(a: nat, b: nat, c: nat, d: nat): string {
    Join([Decimal(a), Decimal(b), Decimal(c), Decimal(d)], '.')
  }

  lemma DecimalHasNoDot(n: nat)
    ensures '.' !in Decimal(n)
  {
  }

  lemma SplitQuad(a: nat, b: nat, c: nat, d: nat)
    ensures Split(Quad(a, b, c, d), '.') == [Decimal(a), Decimal(b), Decimal(c), Decimal(d)]
  {
    DecimalHasNoDot(a);
    DecimalHasNoDot(b);
    DecimalHasNoDot(c);
    DecimalHasNoDot(d);
    SplitJoin([Decimal(a), Decimal(b), Decimal(c), Decimal(d)], '.');
  }

  lemma PartsBitsCons(p: seq<string>, t: string, rest: string)
    requires p != [] && OctetBits(p[0]) == Ok(t) && PartsBits(p[1..]) == Ok(rest)
    ensures PartsBits(p) == Ok(t + rest)
  {
  }

  lemma PartsBitsTwo(pc: string, pd: string, tc: string, td: string)
    requires OctetBits(pc) == Ok(tc) && OctetBits(pd) == Ok(td)
    ensures PartsBits([pc, pd]) == Ok(tc + td)
  {
    assert [pd][1..] == [];
    assert PartsBits([pd][1..]) == Ok("");
    PartsBitsCons([pd], td, "");
    assert td + "" == td;
    assert [pc, pd][1..] == [pd];
    PartsBitsCons([pc, pd], tc, td);
  }

  lemma PartsBitsFour(pa: string, pb: string, pc: string, pd: string, ta: string, tb: string, tc: string, td: string)
    requires OctetBits(pa) == Ok(ta) && OctetBits(pb) == Ok(tb)
    requires OctetBits(pc) == Ok(tc) && OctetBits(pd) == Ok(td)
    ensures PartsBits([pa, pb, pc, pd]) == Ok(ta + tb + tc + td)
  {
    PartsBitsTwo(pc, pd, tc, td);
    assert [pb, pc, pd][1..] == [pc, pd];
    PartsBitsCons([pb, pc, pd], tb, tc + td);
    assert [pa, pb, pc, pd][1..] == [pb, pc, pd];
    PartsBitsCons([pa, pb, pc, pd], ta, tb + (tc + td));
    ConcatAssoc(ta, tb, tc, td);
  }

  lemma ConcatAssoc(a: string, b: string, c: string, d: string)
    ensures a + (b + (c + d)) == a + b + c + d
  {
  }

  /**
   * A dotted quad of octets 0..255 becomes 32 binary digits whose value is the
   * address read as one 32-bit number.
   */
  lemma Ipv4ToBitsOfQuad(a: nat, b: nat, c: nat, d: nat)
    requires a < 256 && b < 256 && c < 256 && d < 256
    ensures Ipv4ToBits(Quad(a, b, c, d)) == Ok(OctetText(a) + OctetText(b) + OctetText(c) + OctetText(d))
    ensures var s := OctetText(a) + OctetText(b) + OctetText(c) + OctetText(d);
      |s| == 32 && IsBinary(s) && BinaryValue(s) == ((a * 256 + b) * 256 + c) * 256 + d
  {
    SplitQuad(a, b, c, d);
    OctetOfDecimal(a);
    OctetOfDecimal(b);
    OctetOfDecimal(c);
    OctetOfDecimal(d);
    PartsBitsFour(Decimal(a), Decimal(b), Decimal(c), Decimal(d), OctetText(a), OctetText(b), OctetText(c), OctetText(d));
    ConcatValue(OctetText(a), OctetText(b), OctetText(c), OctetText(d));
  }

  lemma ConcatValue(ta: string, tb: string, tc: string, td: string)
    requires |ta| == 8 && |tb| == 8 && |tc| == 8 && |td| == 8
    requires IsBinary(ta) && IsBinary(tb) && IsBinary(tc) && IsBinary(td)
    ensures IsBinary(ta + tb + tc + td)
    ensures BinaryValue(ta + tb + tc + td)
      == ((BinaryValue(ta) * 256 + BinaryValue(tb)) * 256 + BinaryValue(tc)) * 256 + BinaryValue(td)
  {
    assert Pow2(8) == 256;
    BinaryValueConcat(ta, tb);
    BinaryValueConcat(ta + tb, tc);
    BinaryValueConcat(ta + tb + tc, td);
  }

  // ================================================================ population count

  predicate IsSet(x: bv32, i: bv6)
    requires i < 32
  {
    (x >> i) & 1 == 1
  }

  /** The number of set bits of x at positions lo .. hi-1. */
  function BitsIn(x: bv32, lo: bv6, hi: bv6): nat
    requires lo <= hi <= 32
    decreases hi - lo
  {
    if lo == hi then 0 else BitsIn(x, lo, hi - 1) + (if IsSet(x, hi - 1) then 1 else 0)
  }

  /** The number of bits set in a 32-bit value. */
  function PopCount(x: bv32): nat {
    BitsIn(x, 0, 32)
  }

  lemma {:induction false} BitsInSplit(x: bv32, lo: bv6, mid: bv6, hi: bv6)
    requires lo <= mid <= hi <= 32
    ensures BitsIn(x, lo, hi) == BitsIn(x, lo, mid) + BitsIn(x, mid, hi)
    decreases hi - mid
  {
    if mid < hi {
      BitsInSplit(x, lo, mid, hi - 1);
    }
  }

  lemma {:induction false} BitsInBound(x: bv32, lo: bv6, hi: bv6)
    requires lo <= hi <= 32
    ensures BitsIn(x, lo, hi) <= (hi - lo) as int
    decreases hi - lo
  {
    if lo < hi {
      BitsInBound(x, lo, hi - 1);
    }
  }

  /** The field of y that starts at bit lo, under mask. */
  function Field(y: bv32, lo: bv6, mask: bv32): bv32
    requires lo < 32
  {
    (y >> lo) & mask
  }

  function Digit(v: bv32, m: bv32): nat {
    if v & m == 0 then 0 else 1
  }

  /** The value of a small bit-vector as a number, read bit by bit. */
  function Small(v: bv32): nat
    requires v < 64
  {
    Digit(v, 1) + 2 * Digit(v, 2) + 4 * Digit(v, 4) + 8 * Digit(v, 8) + 16 * Digit(v, 16) + 32 * Digit(v, 32)
  }

  lemma SmallAdd(a: bv32, b: bv32)
    requires a < 64 && b < 64 && a + b < 64
    ensures Small(a + b) == Small(a) + Small(b)
  {
  }

  lemma SmallValue(v: bv32)
    requires v < 64
    ensures Small(v) == v as int
  {
  }

  // The five assignments of `number_of_set_bits`, each a function of the value before it.

  function Pairs(x: bv32): bv32 {
    x - ((x >> 1) & 0x5555_5555)
  }

  function Nibbles(y: bv32): bv32 {
    ((y >> 2) & 0x3333_3333) + (y & 0x3333_3333)
  }

  function Bytes(z: bv32): bv32 {
    ((z >> 4) + z) & 0x0f0f_0f0f
  }

  function Fold8(b: bv32): bv32 {
    b + (b >> 8)
  }

  function Fold16(w: bv32): bv32 {
    w + (w >> 16)
  }

  function Total(b: bv32): bv32 {
    var w := b + (b >> 8);
    var t := w + (w >> 16);
    t & 0x3f
  }

  /** On a value whose bytes are below 16, the two folds and the mask compute `Total`. */
  lemma TotalIsFolds(b: bv32)
    requires b & 0xf0f0_f0f0 == 0
    ensures Total(b) == Fold16(Fold8(b)) & 0x3f
  {
  }

  lemma BitValue(x: bv32, i: bv6)
    requires i < 32
    ensures Field(x, i, 1) < 2 && Small(Field(x, i, 1)) == (if IsSet(x, i) then 1 else 0)
  {
  }

  lemma BitsInTwo(x: bv32, lo: bv6)
    requires lo < 31
    ensures BitsIn(x, lo, lo + 2) == (if IsSet(x, lo) then 1 else 0) + (if IsSet(x, lo + 1) then 1 else 0)
  {
    assert BitsIn(x, lo, lo) == 0;
    assert BitsIn(x, lo, lo + 1) == BitsIn(x, lo, lo) + (if IsSet(x, lo) then 1 else 0);
    assert BitsIn(x, lo, lo + 2) == BitsIn(x, lo, lo + 1) + (if IsSet(x, lo + 1) then 1 else 0);
  }

  lemma PairsSplit(x: bv32)
    ensures Pairs(x) == (x & 0x5555_5555) + ((x >> 1) & 0x5555_5555)
  {
  }

  lemma EvenSum(a: bv32, b: bv32, lo: bv6)
    requires lo < 31 && lo & 1 == 0 && a & 0xaaaa_aaaa == 0 && b & 0xaaaa_aaaa == 0
    ensures ((a + b) >> lo) & 3 == ((a >> lo) & 1) + ((b >> lo) & 1)
  {
  }

  lemma EvenBit(x: bv32, lo: bv6)
    requires lo < 31 && lo & 1 == 0
    ensures ((x & 0x5555_5555) >> lo) & 1 == (x >> lo) & 1
  {
  }

  lemma OddBit(x: bv32, lo: bv6)
    requires lo < 31 && lo & 1 == 0
    ensures (((x >> 1) & 0x5555_5555) >> lo) & 1 == (x >> (lo + 1)) & 1
  {
  }

  lemma PairSum(x: bv32, lo: bv6)
    requires lo < 31 && lo & 1 == 0
    ensures Field(Pairs(x), lo, 3) == Field(x, lo, 1) + Field(x, lo + 1, 1)
  {
    PairsSplit(x);
    EvenSum(x & 0x5555_5555, (x >> 1) & 0x5555_5555, lo);
    EvenBit(x, lo);
    OddBit(x, lo);
  }

  /** After the first stage every 2-bit field holds the number of bits set in it. */
  lemma PairField(x: bv32, lo: bv6)
    requires lo < 31 && lo & 1 == 0
    ensures Field(Pairs(x), lo, 3) <= 2
    ensures Small(Field(Pairs(x), lo, 3)) == BitsIn(x, lo, lo + 2)
  {
    PairSum(x, lo);
    BitValue(x, lo);
    BitValue(x, lo + 1);
    SmallAdd(Field(x, lo, 1), Field(x, lo + 1, 1));
    BitsInTwo(x, lo);
  }

  lemma NibbleField(y: bv32, lo: bv6)
    requires lo < 29 && lo & 3 == 0
    requires Field(y, lo, 3) <= 2 && Field(y, lo + 2, 3) <= 2
    ensures Field(Nibbles(y), lo, 15) <= 4
    ensures Small(Field(Nibbles(y), lo, 15)) == Small(Field(y, lo, 3)) + Small(Field(y, lo + 2, 3))
  {
    assert Field(Nibbles(y), lo, 15) == Field(y, lo, 3) + Field(y, lo + 2, 3);
    SmallAdd(Field(y, lo, 3), Field(y, lo + 2, 3));
  }

  /** After the second stage every 4-bit field holds the number of bits set in it. */
  lemma NibbleCount(x: bv32, lo: bv6)
    requires lo < 29 && lo & 3 == 0
    ensures Field(Nibbles(Pairs(x)), lo, 15) <= 4
    ensures Small(Field(Nibbles(Pairs(x)), lo, 15)) == BitsIn(x, lo, lo + 4)
  {
    PairField(x, lo);
    PairField(x, lo + 2);
    NibbleField(Pairs(x), lo);
    BitsInSplit(x, lo, lo + 2, lo + 4);
  }

  lemma NibblesBelowEight(y: bv32)
    ensures Nibbles(y) & 0x8888_8888 == 0
  {
  }

  lemma ByteField(z: bv32, lo: bv6)
    requires lo < 25 && lo & 7 == 0
    requires z & 0x8888_8888 == 0
    requires Field(z, lo, 15) <= 4 && Field(z, lo + 4, 15) <= 4
    ensures Field(Bytes(z), lo, 255) <= 8
    ensures Small(Field(Bytes(z), lo, 255)) == Small(Field(z, lo, 15)) + Small(Field(z, lo + 4, 15))
  {
    assert Field(Bytes(z), lo, 255) == Field(z, lo, 15) + Field(z, lo + 4, 15);
    SmallAdd(Field(z, lo, 15), Field(z, lo + 4, 15));
  }

  /** After the third stage every byte holds the number of bits set in it. */
  lemma ByteCount(x: bv32, lo: bv6)
    requires lo < 25 && lo & 7 == 0
    ensures Field(Bytes(Nibbles(Pairs(x))), lo, 255) <= 8
    ensures Small(Field(Bytes(Nibbles(Pairs(x))), lo, 255)) == BitsIn(x, lo, lo + 8)
  {
    NibblesBelowEight(Pairs(x));
    NibbleCount(x, lo);
    NibbleCount(x, lo + 4);
    ByteField(Nibbles(Pairs(x)), lo);
    BitsInSplit(x, lo, lo + 4, lo + 8);
  }

  lemma BytesMasked(z: bv32)
    ensures Bytes(z) & 0xf0f0_f0f0 == 0
  {
  }

  /** The two folds add the four byte counts. */
  lemma TotalField(b: bv32)
    requires b & 0xf0f0_f0f0 == 0
    ensures Total(b) == (Field(b, 0, 255) + Field(b, 8, 255)) + (Field(b, 16, 255) + Field(b, 24, 255))
  {
  }

  /** Four byte counts of at most 8 added in pairs: the total and its value. */
  lemma SumOfFour(t: bv32, b0: bv32, b1: bv32, b2: bv32, b3: bv32, c0: nat, c1: nat, c2: nat, c3: nat)
    requires t == (b0 + b1) + (b2 + b3) && b0 <= 8 && b1 <= 8 && b2 <= 8 && b3 <= 8
    requires Small(b0) == c0 && Small(b1) == c1 && Small(b2) == c2 && Small(b3) == c3
    ensures t <= 32 && t as int == c0 + c1 + c2 + c3
  {
    SmallAdd(b0, b1);
    SmallAdd(b2, b3);
    SmallAdd(b0 + b1, b2 + b3);
    SmallValue(t);
  }

  /** The folds of four byte counts of at most 8 give their sum. */
  lemma TotalCount(b: bv32, c0: nat, c1: nat, c2: nat, c3: nat)
    requires b & 0xf0f0_f0f0 == 0
    requires Field(b, 0, 255) <= 8 && Field(b, 8, 255) <= 8 && Field(b, 16, 255) <= 8 && Field(b, 24, 255) <= 8
    requires Small(Field(b, 0, 255)) == c0 && Small(Field(b, 8, 255)) == c1
    requires Small(Field(b, 16, 255)) == c2 && Small(Field(b, 24, 255)) == c3
    ensures Total(b) <= 32 && Total(b) as int == c0 + c1 + c2 + c3
  {
    TotalField(b);
    SumOfFour(Total(b), Field(b, 0, 255), Field(b, 8, 255), Field(b, 16, 255), Field(b, 24, 255), c0, c1, c2, c3);
  }

  /** The four stages together count the set bits of x. */
  lemma SwarCounts(x: bv32)
    ensures Total(Bytes(Nibbles(Pairs(x)))) <= 32
    ensures Total(Bytes(Nibbles(Pairs(x)))) as int == PopCount(x)
  {
    BytesMasked(Nibbles(Pairs(x)));
    ByteCount(x, 0);
    ByteCount(x, 8);
    ByteCount(x, 16);
    ByteCount(x, 24);
    BitsInSplit(x, 0, 8, 16);
    BitsInSplit(x, 0, 16, 24);
    BitsInSplit(x, 0, 24, 32);
    TotalCount(Bytes(Nibbles(Pairs(x))), BitsIn(x, 0, 8), BitsIn(x, 8, 16), BitsIn(x, 16, 24), BitsIn(x, 24, 32));
  }

  /** `a - b` on 32 bits is the difference of the numbers: nothing wraps below zero. */
  predicate SubFits(a: bv32, b: bv32) {
    b <= a
  }

  /** `a + b` on 32 bits is the sum of the numbers: nothing wraps past 2^32. */
  predicate AddFits(a: bv32, b: bv32) {
    a + b >= a
  }

  lemma PairsFit(x: bv32)
    ensures SubFits(x, (x >> 1) & 0x5555_5555)
  {
  }

  lemma NibblesFit(y: bv32)
    ensures AddFits(y & 0x3333_3333, (y >> 2) & 0x3333_3333)
  {
  }

  lemma BytesFit(z: bv32)
    requires z & 0x8888_8888 == 0
    ensures AddFits(z, z >> 4)
  {
  }

  /** Neither fold of the byte counts wraps past 2^32. */
  predicate FoldsFit(b: bv32) {
    AddFits(b, b >> 8) && AddFits(Fold8(b), Fold8(b) >> 16)
  }

  lemma FirstFoldFits(b: bv32)
    requires b & 0xf0f0_f0f0 == 0
    ensures AddFits(b, b >> 8) && Fold8(b) < 0x1000_0000
  {
  }

  lemma SecondFoldFits(w: bv32)
    requires w < 0x1000_0000
    ensures AddFits(w, w >> 16)
  {
    assert w >> 16 < 0x1000;
  }

  lemma FoldsFitMasked(b: bv32)
    requires b & 0xf0f0_f0f0 == 0
    ensures FoldsFit(b)
  {
    FirstFoldFits(b);
    SecondFoldFits(Fold8(b));
  }

  /**
   * For every 32-bit input no intermediate value of `number_of_set_bits` leaves
   * 0 .. 2^32-1, so 32-bit arithmetic computes what Python's integers compute.
   */
  lemma SwarFitsIn32Bits(x: bv32)
    ensures SubFits(x, (x >> 1) & 0x5555_5555)
    ensures AddFits(Pairs(x) & 0x3333_3333, (Pairs(x) >> 2) & 0x3333_3333)
    ensures AddFits(Nibbles(Pairs(x)), Nibbles(Pairs(x)) >> 4)
    ensures FoldsFit(Bytes(Nibbles(Pairs(x))))
  {
    PairsFit(x);
    var y := Pairs(x);
    NibblesFit(y);
    NibblesBelowEight(y);
    var z := Nibbles(y);
    BytesFit(z);
    BytesMasked(z);
    FoldsFitMasked(Bytes(z));
  }

  /**
   * `number_of_set_bits`: the SWAR population count.  Each assignment of the
   * original is one stage function applied to the running value.
   */
  method NumberOfSetBits(x0: bv32) returns (r: bv32)
    ensures r <= 32 && r as int == PopCount(x0)
  {
    var x := x0;
    x := Pairs(x);
    x := Nibbles(x);
    x := Bytes(x);
    x := Fold8(x);
    x := Fold16(x);
    r := x & 0x0000_003f;
    TotalIsFolds(Bytes(Nibbles(Pairs(x0))));
    SwarCounts(x0);
  }

  // ================================================================ netmask

  /** What `cidr_to_ipv4_netmask` may be given: an integer, or a text for `int()` to read. */
  datatype Prefix = Number(n: int) | Text(s: string)

  /** `int(cidr_bits)`; None where it raises ValueError. */
  function PrefixValue(p: Prefix): Option<int> {
    match p
    case Number(n) => Some(n)
    case Text(s) => ParseInt(s)
  }

  /** The prefix bits still to place once i octets of an n-bit mask are written. */
  function Rest(n: int, i: nat): (r: nat)
    ensures r <= if n >= 0 then n else 0
  {
    if n - 8 * i >= 0 then n - 8 * i else 0
  }

  lemma {:induction false} Pow2Monotone(j: nat, k: nat)
    requires j <= k
    ensures Pow2(j) <= Pow2(k)
  {
    if j < k {
      Pow2Monotone(j, k - 1);
    }
  }

  /** The octet written when r prefix bits remain: 255, or r leading ones. */
  function OctetValue(r: nat): (v: nat)
    ensures v < 256
    ensures r >= 8 <==> v == 255
    ensures r == 0 <==> v == 0
  {
    if r >= 8 then 255
    else
      Pow2Monotone(8 - r, 8);
      assert r > 0 ==> Pow2(8 - r) <= Pow2(7) == 128 by {
        if r > 0 { Pow2Monotone(8 - r, 7); }
      }
      256 - Pow2(8 - r)
  }

  /** The first k octet texts of the netmask of an n-bit prefix. */
  function MaskTexts(n: int, k: nat): (ts: seq<string>)
    ensures |ts| == k
  {
    if k == 0 then [] else MaskTexts(n, k - 1) + [Decimal(OctetValue(Rest(n, k - 1)))]
  }

  /** What `cidr_to_ipv4_netmask` returns: the dotted quad, or "" for an invalid prefix. */
  function CidrNetmask(p: Prefix): string {
    match PrefixValue(p)
    case None => ""
    case Some(n) => if 1 <= n <= 32 then Join(MaskTexts(n, 4), '.') else ""
  }

  lemma DecimalOf255()
    ensures Decimal(255) == "255"
  {
    assert Decimal(2) == "2";
    assert Decimal(25) == "25";
  }

  /** `cidr_to_ipv4_netmask`: the loop over the four octets. */
  method CidrToIpv4Netmask(cidr: Prefix) returns (netmask: string)
    ensures netmask == CidrNetmask(cidr)
  {
    var value := PrefixValue(cidr);
    if value.None? {
      return "";
    }
    var cidrBits := value.value;
    if !(1 <= cidrBits <= 32) {
      return "";
    }
    ghost var n := cidrBits;
    netmask := "";
    for idx := 0 to 4
      invariant cidrBits == Rest(n, idx)
      invariant netmask == Join(MaskTexts(n, idx), '.')
    {
      ghost var text := Decimal(OctetValue(Rest(n, idx)));
      ghost var before := netmask;
      if idx != 0 {
        netmask := netmask + ".";
      }
      RestStep(n, idx);
      if cidrBits >= 8 {
        DecimalOf255();
        netmask := netmask + "255";
        cidrBits := cidrBits - 8;
      } else {
        PartialOctet(cidrBits);
        netmask := netmask + Decimal(256 - Pow2(8 - cidrBits));
        cidrBits := 0;
      }
      if idx == 0 {
        assert MaskTexts(n, 1) == [text];
      } else {
        JoinSnoc(MaskTexts(n, idx), text, '.');
        assert netmask == before + "." + text;
      }
    }
  }

  /** Each octet uses up eight of the remaining prefix bits, or all of them when fewer remain. */
  lemma RestStep(n: int, i: nat)
    ensures Rest(n, i + 1) == if Rest(n, i) >= 8 then Rest(n, i) - 8 else 0
  {
  }

  lemma PartialOctet(r: nat)
    requires r < 8
    ensures Pow2(8 - r) <= 256 && OctetValue(r) == 256 - Pow2(8 - r)
  {
    Pow2Monotone(8 - r, 8);
    assert Pow2(8) == 256;
  }

  /** The netmask is empty exactly when `int()` fails or the prefix is outside 1 .. 32. */
  lemma NetmaskEmpty(p: Prefix)
    ensures CidrNetmask(p) == "" <==> PrefixValue(p).None? || !(1 <= PrefixValue(p).value <= 32)
  {
    if PrefixValue(p).Some? && 1 <= PrefixValue(p).value <= 32 {
      var ts := MaskTexts(PrefixValue(p).value, 4);
      assert ts[1..] != [];
      assert Join(ts, '.') == ts[0] + ['.'] + Join(ts[1..], '.');
    }
  }

  lemma MaskTextsFour(n: int)
    ensures MaskTexts(n, 4) == [Decimal(OctetValue(Rest(n, 0))), Decimal(OctetValue(Rest(n, 1))),
                                Decimal(OctetValue(Rest(n, 2))), Decimal(OctetValue(Rest(n, 3)))]
  {
    assert MaskTexts(n, 0) == [];
    assert MaskTexts(n, 1) == MaskTexts(n, 0) + [Decimal(OctetValue(Rest(n, 0)))];
    assert MaskTexts(n, 2) == MaskTexts(n, 1) + [Decimal(OctetValue(Rest(n, 1)))];
    assert MaskTexts(n, 3) == MaskTexts(n, 2) + [Decimal(OctetValue(Rest(n, 2)))];
    assert MaskTexts(n, 4) == MaskTexts(n, 3) + [Decimal(OctetValue(Rest(n, 3)))];
  }

  /** The four octets of the netmask of an n-bit prefix, as a dotted quad. */
  lemma NetmaskQuad(n: int)
    requires 1 <= n <= 32
    ensures CidrNetmask(Number(n))
      == Quad(OctetValue(Rest(n, 0)), OctetValue(Rest(n, 1)), OctetValue(Rest(n, 2)), OctetValue(Rest(n, 3)))
    ensures Split(CidrNetmask(Number(n)), '.') == MaskTexts(n, 4)
  {
    var o0, o1, o2, o3 := OctetValue(Rest(n, 0)), OctetValue(Rest(n, 1)), OctetValue(Rest(n, 2)), OctetValue(Rest(n, 3));
    MaskTextsFour(n);
    assert CidrNetmask(Number(n)) == Join(MaskTexts(n, 4), '.');
    SplitQuad(o0, o1, o2, o3);
  }

  /**
   * Octet i of the mask is 255 when the prefix covers it, 0 when the prefix ends
   * before it, and the octets never increase from left to right.
   */
  lemma OctetShape(n: int, i: nat, j: nat)
    requires 1 <= n <= 32 && i <= j < 4
    ensures n >= 8 * (i + 1) ==> OctetValue(Rest(n, i)) == 255
    ensures n <= 8 * i ==> OctetValue(Rest(n, i)) == 0
    ensures 8 * i < n < 8 * (i + 1) ==> OctetValue(Rest(n, i)) == 256 - Pow2(8 - (n - 8 * i))
    ensures OctetValue(Rest(n, i)) >= OctetValue(Rest(n, j))
  {
    var ri, rj := Rest(n, i), Rest(n, j);
    if ri < 8 && rj > 0 {
      assert ri == rj;
    } else if ri < 8 && 0 < ri {
      assert rj == 0;
    }
  }

  lemma {:induction false} RunDigits(r: nat, k: nat)
    requires r >= 1
    ensures Pow2(r + k) > Pow2(k)
    ensures BinDigits(Pow2(r + k) - Pow2(k)) == Repeat('1', r) + Repeat('0', k)
  {
    if k == 0 {
      OnesDigits(r);
      assert Repeat('1', r) + Repeat('0', 0) == Repeat('1', r);
    } else {
      RunDigits(r, k - 1);
      var w := Pow2(r + (k - 1)) - Pow2(k - 1);
      assert Pow2(r + k) == 2 * Pow2(r + (k - 1));
      assert Pow2(k) == 2 * Pow2(k - 1);
      BinDigitsEven(Pow2(r + k) - Pow2(k), w, Repeat('1', r) + Repeat('0', k - 1));
      ZeroSnoc(Repeat('1', r), k);
    }
  }

  lemma {:induction false} OnesDigits(r: nat)
    requires r >= 1
    ensures Pow2(r) > 1 && BinDigits(Pow2(r) - 1) == Repeat('1', r)
  {
    if r > 1 {
      OnesDigits(r - 1);
      assert (Pow2(r) - 1) / 2 == Pow2(r - 1) - 1;
    }
  }

  lemma BinDigitsEven(v: nat, w: nat, t: string)
    requires w >= 1 && v == 2 * w && BinDigits(w) == t
    ensures BinDigits(v) == t + ['0']
  {
    assert v / 2 == w && v % 2 == 0;
  }

  lemma ZeroSnoc(s: string, k: nat)
    requires k >= 1
    ensures s + Repeat('0', k) == (s + Repeat('0', k - 1)) + ['0']
  {
    assert Repeat('0', k) == Repeat('0', k - 1) + ['0'];
  }

  /** The binary text of a mask octet: its leading ones, then zeros, eight digits in all. */
  lemma OctetTextOfMask(r: nat)
    ensures var m := if r >= 8 then 8 else r;
      OctetText(OctetValue(r)) == Repeat('1', m) + Repeat('0', 8 - m)
  {
    var m := if r >= 8 then 8 else r;
    var v := OctetValue(r);
    assert Pow2(8) == 256;
    if m > 0 {
      assert v == Pow2(m + (8 - m)) - Pow2(8 - m);
      RunDigits(m, 8 - m);
      assert |BinDigits(v)| == 8;
    } else {
      assert BinDigits(v) == "0";
      assert RJust("0", 8, '0') == Repeat('0', 7) + "0";
    }
  }

  lemma OctetTextLength(v: nat)
    requires v < 256
    ensures |OctetText(v)| == 8
  {
    assert Pow2(8) == 256;
    BinDigitsLength(v, 8);
  }

  /** The text of a mask octet as a run: its leading ones, then zeros. */
  lemma OctetRun(r: nat)
    ensures IsRun(OctetText(OctetValue(r)), if r >= 8 then 8 else r, 8)
  {
    OctetTextOfMask(r);
    RepeatRun(if r >= 8 then 8 else r, 8);
  }

  /** The binary texts of the first k mask octets of an n-bit prefix, concatenated. */
  function MaskBits(n: int, k: nat): (s: string)
    ensures |s| == 8 * k
  {
    if k == 0 then ""
    else
      OctetTextLength(OctetValue(Rest(n, k - 1)));
      MaskBits(n, k - 1) + OctetText(OctetValue(Rest(n, k - 1)))
  }

  /** s is m ones followed by zeros, len characters in all. */
  predicate IsRun(s: string, m: nat, len: nat) {
    |s| == len && forall i :: 0 <= i < len ==> s[i] == (if i < m then '1' else '0')
  }

  /** A run followed by a run that starts where the first left off is one run. */
  lemma RunConcat(s: string, t: string, a: nat, la: nat, q: nat, lb: nat, m: nat, len: nat)
    requires IsRun(s, a, la) && IsRun(t, q, lb) && a <= la && q <= lb && (a == la || q == 0)
    requires m == a + q && len == la + lb
    ensures IsRun(s + t, m, len)
  {
    forall i | 0 <= i < len
      ensures (s + t)[i] == (if i < m then '1' else '0')
    {
      if i < la {
        assert (s + t)[i] == s[i];
      } else {
        assert (s + t)[i] == t[i - la];
      }
    }
  }

  lemma RepeatRun(m: nat, len: nat)
    requires m <= len
    ensures IsRun(Repeat('1', m) + Repeat('0', len - m), m, len)
  {
    var s := Repeat('1', m) + Repeat('0', len - m);
    forall i | 0 <= i < len
      ensures s[i] == (if i < m then '1' else '0')
    {
      if i < m {
        assert s[i] == Repeat('1', m)[i];
      } else {
        assert s[i] == Repeat('0', len - m)[i - m];
      }
    }
  }

  lemma RunRepeat(s: string, m: nat, len: nat)
    requires m <= len && IsRun(s, m, len)
    ensures s == Repeat('1', m) + Repeat('0', len - m)
  {
    var r := Repeat('1', m) + Repeat('0', len - m);
    RepeatRun(m, len);
    assert forall i :: 0 <= i < len ==> s[i] == r[i];
  }

  lemma {:induction false} MaskBitsRun(n: int, k: nat)
    requires n >= 0
    ensures IsRun(MaskBits(n, k), if n <= 8 * k then n else 8 * k, 8 * k)
  {
    if k > 0 {
      var r := Rest(n, k - 1);
      var q := if r >= 8 then 8 else r;
      var before := if n <= 8 * (k - 1) then n else 8 * (k - 1);
      MaskBitsRun(n, k - 1);
      OctetRun(r);
      assert MaskBits(n, k) == MaskBits(n, k - 1) + OctetText(OctetValue(r));
      RunConcat(MaskBits(n, k - 1), OctetText(OctetValue(r)), before, 8 * (k - 1), q, 8,
                if n <= 8 * k then n else 8 * k, 8 * k);
    }
  }

  lemma MaskBitsFour(n: int)
    ensures MaskBits(n, 4) == OctetText(OctetValue(Rest(n, 0))) + OctetText(OctetValue(Rest(n, 1)))
                             + OctetText(OctetValue(Rest(n, 2))) + OctetText(OctetValue(Rest(n, 3)))
  {
    assert MaskBits(n, 1) == "" + OctetText(OctetValue(Rest(n, 0)));
    assert MaskBits(n, 2) == MaskBits(n, 1) + OctetText(OctetValue(Rest(n, 1)));
    assert MaskBits(n, 3) == MaskBits(n, 2) + OctetText(OctetValue(Rest(n, 2)));
    assert MaskBits(n, 4) == MaskBits(n, 3) + OctetText(OctetValue(Rest(n, 3)));
  }

  /** Read back by `ipv4_to_bits`, the netmask of an n-bit prefix is n ones followed by 32 - n zeros. */
  lemma NetmaskBits(n: int)
    requires 1 <= n <= 32
    ensures Ipv4ToBits(CidrNetmask(Number(n))) == Ok(Repeat('1', n) + Repeat('0', 32 - n))
  {
    var o0, o1, o2, o3 := OctetValue(Rest(n, 0)), OctetValue(Rest(n, 1)), OctetValue(Rest(n, 2)), OctetValue(Rest(n, 3));
    NetmaskQuad(n);
    Ipv4ToBitsOfQuad(o0, o1, o2, o3);
    MaskBitsFour(n);
    MaskBitsRun(n, 4);
    RunRepeat(MaskBits(n, 4), n, 32);
  }

  /** n ones followed by 32 - n zeros hold n set bits and denote 2^32 - 2^(32 - n). */
  lemma MaskRun(n: nat)
    requires 1 <= n <= 32
    ensures IsBinary(Repeat('1', n) + Repeat('0', 32 - n))
    ensures Occurrences(Repeat('1', n) + Repeat('0', 32 - n), '1') == n
    ensures BinaryValue(Repeat('1', n) + Repeat('0', 32 - n)) == 0x1_0000_0000 - Pow2(32 - n)
  {
    RunOnes(n, 32 - n);
    Pow2Of32();
    RunValue(n, 32 - n, 32);
  }

  lemma {:induction false} Pow2Add(a: nat, b: nat)
    ensures Pow2(a + b) == Pow2(a) * Pow2(b)
  {
    if a > 0 {
      Pow2Add(a - 1, b);
    }
  }

  lemma Pow2Of32()
    ensures Pow2(32) == 0x1_0000_0000
  {
    assert Pow2(8) == 256;
    Pow2Add(8, 8);
    Pow2Add(16, 16);
  }

  lemma RunOnes(a: nat, b: nat)
    ensures Occurrences(Repeat('1', a) + Repeat('0', b), '1') == a
  {
    OccurrencesConcat(Repeat('1', a), Repeat('0', b), '1');
    OccurrencesRepeat('1', a, '1');
    OccurrencesRepeat('0', b, '1');
  }

  lemma RunValue(a: nat, b: nat, len: nat)
    requires a >= 1 && a + b == len
    ensures IsBinary(Repeat('1', a) + Repeat('0', b))
    ensures BinaryValue(Repeat('1', a) + Repeat('0', b)) == Pow2(len) - Pow2(b)
  {
    RunDigits(a, b);
    BinDigitsValue(Pow2(a + b) - Pow2(b));
  }

  // ================================================================ netmask of a mask value

  /** `number_of_set_bits_to_ipv4_netmask`: the netmask of the prefix as long as x has set bits. */
  method NumberOfSetBitsToIpv4Netmask(setBits: bv32) returns (netmask: string)
    ensures netmask == CidrNetmask(Number(PopCount(setBits)))
  {
    var count := NumberOfSetBits(setBits);
    netmask := CidrToIpv4Netmask(Number(count as int));
  }

  /** A mask value yields the empty netmask exactly when no bit of it is set. */
  lemma SetBitsNetmaskEmpty(x: bv32)
    ensures PopCount(x) <= 32
    ensures CidrNetmask(Number(PopCount(x))) == "" <==> PopCount(x) == 0
  {
    BitsInBound(x, 0, 32);
    NetmaskEmpty(Number(PopCount(x)));
  }

  lemma DecimalOfZero()
    ensures Decimal(0) == "0"
  {
  }

  /** The example of the documentation: 0xffffff00 has 24 set bits and the netmask 255.255.255.0. */
  lemma SetBitsNetmaskExample()
    ensures PopCount(0xffff_ff00) == 24
    ensures CidrNetmask(Number(PopCount(0xffff_ff00))) == "255.255.255.0"
  {
    SwarCounts(0xffff_ff00);
    assert Total(Bytes(Nibbles(Pairs(0xffff_ff00)))) == 24;
    MaskTextsFour(24);
    OctetShape(24, 0, 3);
    OctetShape(24, 1, 3);
    OctetShape(24, 2, 3);
    OctetShape(24, 3, 3);
    DecimalOf255();
    DecimalOfZero();
    assert MaskTexts(24, 4) == ["255", "255", "255", "0"];
  }
}
