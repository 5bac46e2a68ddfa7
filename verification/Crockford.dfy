/** Crockford base32 as the program computes it, with an accumulator that wraps at 64 bits. */
module Crockford {
  const WORD := 0x1_0000_0000_0000_0000

  /** The alphabet leaves out I, L, O and U. */
  function Symbol(d: nat): char
    requires d < 32
  {
    if d < 10 then '0' + d as char
    else if d < 18 then 'A' + (d - 10) as char
    else if d < 20 then 'J' + (d - 18) as char
    else if d < 22 then 'M' + (d - 20) as char
    else if d < 27 then 'P' + (d - 22) as char
    else 'V' + (d - 27) as char
  }

  predicate IsSymbol(c: char) {
    '0' <= c <= '9' || ('A' <= c <= 'Z' && c != 'I' && c != 'L' && c != 'O' && c != 'U')
  }

  /** The alphabet in order. */
  lemma SymbolIs(d: nat)
    requires d < 32
    ensures Symbol(d) == "0123456789ABCDEFGHJKMNPQRSTVWXYZ"[d]
  {
  }

  lemma SymbolIsInjective(a: nat, b: nat)
    requires a < 32 && b < 32
    ensures IsSymbol(Symbol(a))
    ensures Symbol(a) == Symbol(b) <==> a == b
  {
  }

  function Pow2(n: nat): (p: nat)
    ensures p > 0
  {
    if n == 0 then 1 else 2 * Pow2(n - 1)
  }

  // ---- what the text stands for ----

  type Byte = b: nat | b < 256 witness 0

  /** The big-endian value of the bytes. */
  function Value(b: seq<Byte>): nat {
    if b == [] then 0 else 256 * Value(b[..|b| - 1]) + b[|b| - 1]
  }

  /** The last `n` base-32 digits of `v`, most significant first. */
  function Digits(v: nat, n: nat): (s: string)
    ensures |s| == n
  {
    if n == 0 then "" else Digits(v / 32, n - 1) + [Symbol(v % 32)]
  }

  /** How many bits the value is padded with on the right. */
  function Padding(n: nat): nat { (5 - (8 * n) % 5) % 5 }

  function Length(n: nat): nat { (8 * n + 4) / 5 }

  /** The base-32 digits of the value padded right to a multiple of five bits. */
  function Encoded(b: seq<Byte>): string {
    Digits(Value(b) * Pow2(Padding(|b|)), Length(|b|))
  }

  lemma QuotientIsNat(v: nat, p: nat)
    requires p > 0
    ensures v / p >= 0
  {
  }

  /** `v` without its last `bits` bits. */
  function Drop(v: nat, bits: nat): nat {
    QuotientIsNat(v, Pow2(bits));
    v / Pow2(bits)
  }

  // ---- shifting a wrapped word ----

  /** Five bits below bit 64 of a wrapped value are the value's own. */
  lemma WrapKeepsLowBits(v: nat, bits: nat)
    requires bits <= 12
    ensures Drop(v % WORD, bits) % 32 == Drop(v, bits) % 32
  {
    assert Pow2(1) == 2 && Pow2(2) == 4 && Pow2(3) == 8 && Pow2(4) == 16;
    assert Pow2(5) == 32 && Pow2(6) == 64 && Pow2(7) == 128 && Pow2(8) == 256;
    assert Pow2(9) == 512 && Pow2(10) == 1024 && Pow2(11) == 2048 && Pow2(12) == 4096;
    var q, r := v / WORD, v % WORD;
    assert v == q * WORD + r;
    var p := Pow2(bits);
    if bits == 0 { LowBits(q, r, 1, 0x800_0000_0000_0000); }
    else if bits == 1 { LowBits(q, r, 2, 0x400_0000_0000_0000); }
    else if bits == 2 { LowBits(q, r, 4, 0x200_0000_0000_0000); }
    else if bits == 3 { LowBits(q, r, 8, 0x100_0000_0000_0000); }
    else if bits == 4 { LowBits(q, r, 16, 0x80_0000_0000_0000); }
    else if bits == 5 { LowBits(q, r, 32, 0x40_0000_0000_0000); }
    else if bits == 6 { LowBits(q, r, 64, 0x20_0000_0000_0000); }
    else if bits == 7 { LowBits(q, r, 128, 0x10_0000_0000_0000); }
    else if bits == 8 { LowBits(q, r, 256, 0x8_0000_0000_0000); }
    else if bits == 9 { LowBits(q, r, 512, 0x4_0000_0000_0000); }
    else if bits == 10 { LowBits(q, r, 1024, 0x2_0000_0000_0000); }
    else if bits == 11 { LowBits(q, r, 2048, 0x1_0000_0000_0000); }
    else { LowBits(q, r, 4096, 0x8000_0000_0000); }
  }

  lemma LowBits(q: nat, r: nat, p: nat, k: nat)
    requires p > 0 && p * 32 * k == WORD
    ensures (r / p) % 32 == ((q * WORD + r) / p) % 32
  {
    var m := q * 32 * k;
    assert q * WORD == p * m by {
      assert q * (p * 32 * k) == p * (q * 32 * k);
    }
    DivideSum(m, r, p);
    var j := q * k;
    assert m == j * 32;
    ModSum(j, r / p);
  }

  lemma DivideSum(m: nat, r: nat, p: nat)
    requires p > 0
    ensures (p * m + r) / p == m + r / p
  {
    var d, e := r / p, r % p;
    assert r == p * d + e;
    assert p * m + r == p * (m + d) + e;
    QuotientIs(p * m + r, p, m + d, e);
  }

  lemma Spread(p: nat, a: nat, k: nat)
    ensures p * (a + 1 + k) == p * a + p + p * k && p * k >= 0
  {
  }

  lemma MultipleGap(p: nat, a: nat, b: nat)
    ensures a < b ==> p * a + p <= p * b
  {
    if a < b {
      var k: nat := b - a - 1;
      Spread(p, a, k);
      assert b == a + 1 + k;
    }
  }

  lemma QuotientIs(n: nat, p: nat, d: nat, e: nat)
    requires e < p && n == p * d + e
    ensures n / p == d
  {
    assert n == p * (n / p) + n % p;
    MultipleGap(p, n / p, d);
    MultipleGap(p, d, n / p);
  }

  lemma ModSum(j: nat, x: nat)
    ensures (j * 32 + x) % 32 == x % 32
  {
  }

  lemma Distribute(a: nat, b: nat, d: nat, e: nat)
    ensures a * (b * d + e) == (a * b) * d + a * e
  {
  }

  lemma DivideTwice(x: nat, a: nat, b: nat)
    requires a > 0 && b > 0
    ensures a * b > 0 && x / (a * b) == x / a / b
  {
    var y, f := x / a, x % a;
    var d, e := y / b, y % b;
    assert x == a * y + f;
    assert y == b * d + e;
    Distribute(a, b, d, e);
    MultipleGap(a, e, b);
    var g := a * e + f;
    assert g < a * b;
    QuotientIs(x, a * b, d, g);
  }

  lemma ByteStep(v: nat, c: Byte, bits: nat)
    ensures Drop(256 * v + c, bits + 8) == Drop(v, bits)
  {
    PowSum(bits, 8);
    assert Pow2(8) == 256 by { PowEight(); }
    DivideTwice(256 * v + c, 256, Pow2(bits));
    QuotientIs(256 * v + c, 256, v, c);
  }

  lemma PowEight()
    ensures Pow2(8) == 256 && Pow2(5) == 32
  {
    assert Pow2(1) == 2 && Pow2(2) == 4 && Pow2(3) == 8 && Pow2(4) == 16 && Pow2(5) == 32 && Pow2(6) == 64 && Pow2(7) == 128;
  }

  lemma {:induction false} PowSum(a: nat, b: nat)
    ensures Pow2(a + b) == Pow2(a) * Pow2(b)
  {
    if a > 0 { PowSum(a - 1, b); }
  }

  lemma DigitStep(v: nat, bits: nat)
    ensures Drop(v, bits) / 32 == Drop(v, bits + 5)
  {
    PowSum(bits, 5);
    PowEight();
    DivideTwice(v, Pow2(bits), 32);
  }

  lemma WrapStep(v: nat, c: Byte)
    ensures (v % WORD) * 256 % WORD + c == (256 * v + c) % WORD
  {
    var q, r := v / WORD, v % WORD;
    assert v == q * WORD + r;
    assert 256 * v + c == (256 * q) * WORD + (256 * r + c);
  }

  lemma Thirty2(bits: nat)
    requires 0 < bits < 5
    ensures Pow2(5 - bits) * Pow2(bits) == 32
  {
    PowSum(5 - bits, bits);
    PowEight();
  }

  lemma CommonFactor(v: nat, p: nat, m: nat)
    requires p > 0 && m > 0
    ensures v * p / (p * m) == v / m
  {
    DivideTwice(v * p, p, m);
    QuotientIs(v * p, p, v, 0);
  }

  lemma ScaledWrap(q: nat, r: nat, p: nat)
    ensures (r * p % WORD) % 32 == ((q * WORD + r) * p) % 32
  {
    assert (q * WORD + r) * p == (q * p) * WORD + r * p;
    WordMultiple(q * p, r * p);
  }

  lemma WordMultiple(j: nat, x: nat)
    ensures (j * WORD + x) % 32 == (x % WORD) % 32
  {
    var k := x / WORD;
    assert x == k * WORD + x % WORD;
    assert WORD == 0x800_0000_0000_0000 * 32;
    ModSum((j + k) * 0x800_0000_0000_0000, x % WORD);
  }

  /** The last digit holds the remaining bits and zeros. */
  lemma LastDigit(v: nat, bits: nat)
    requires 0 < bits < 5
    ensures ((v % WORD) * Pow2(5 - bits) % WORD) % 32 == (v * Pow2(5 - bits)) % 32
    ensures v * Pow2(5 - bits) / 32 == Drop(v, bits)
  {
    Thirty2(bits);
    CommonFactor(v, Pow2(5 - bits), Pow2(bits));
    ScaledWrap(v / WORD, v % WORD, Pow2(5 - bits));
    assert v == (v / WORD) * WORD + v % WORD;
  }

  /** `out` are the digits of `v` without its last `bits` bits. */
  ghost predicate Written(out: string, v: nat, bits: nat) { out == Digits(Drop(v, bits), |out|) }

  lemma WriteDigit(out: string, v: nat, acc: nat, bits: nat)
    requires bits <= 7 && Written(out, v, bits + 5) && acc == v % WORD
    ensures Written(out + [Symbol(Drop(acc, bits) % 32)], v, bits)
  {
    WrapKeepsLowBits(v, bits);
    DigitStep(v, bits);
  }

  lemma WriteLast(out: string, v: nat, acc: nat, bits: nat)
    requires 0 < bits < 5 && Written(out, v, bits) && acc == v % WORD
    ensures out + [Symbol(acc * Pow2(5 - bits) % WORD % 32)] == Digits(v * Pow2(5 - bits), |out| + 1)
  {
    LastDigit(v, bits);
  }

  /** The inner loop: writes every full group of five bits. */
  method Drain(out: string, acc: nat, bits: nat, ghost v: nat) returns (longer: string, left: nat)
    requires bits <= 12 && Written(out, v, bits) && acc == v % WORD
    ensures left < 5 && Written(longer, v, left) && 5 * |longer| + left == 5 * |out| + bits
  {
    longer, left := out, bits;
    while left >= 5
      invariant left <= 12 && Written(longer, v, left) && 5 * |longer| + left == 5 * |out| + bits
    {
      left := left - 5;
      WriteDigit(longer, v, acc, left);
      longer := longer + [Symbol(Drop(acc, left) % 32)];
    }
  }

  /** What the loop keeps: the digits written are those of the bytes so far, without the bits still to write. */
  ghost predicate Progress(v: nat, n: nat, out: string, acc: nat, bits: nat) {
    bits < 5 && 5 * |out| + bits == 8 * n && acc == v % WORD && Written(out, v, bits)
  }

  /** One byte into the accumulator, and every full group out of it. */
  method OneByte(c: Byte, out: string, acc: nat, bits: nat, ghost v: nat, ghost n: nat)
    returns (longer: string, wrapped: nat, left: nat)
    requires Progress(v, n, out, acc, bits)
    ensures Progress(256 * v + c, n + 1, longer, wrapped, left)
  {
    WrapStep(v, c);
    ByteStep(v, c, bits);
    wrapped := acc * 256 % WORD + c;
    longer, left := Drain(out, wrapped, bits + 8, 256 * v + c);
  }

  lemma NoBitsLeft(v: nat, n: nat, out: string, acc: nat)
    requires Progress(v, n, out, acc, 0)
    ensures out == Digits(v * Pow2(Padding(n)), Length(n))
  {
  }

  lemma SomeBitsLeft(v: nat, n: nat, out: string, acc: nat, bits: nat)
    requires Progress(v, n, out, acc, bits) && bits > 0
    ensures Padding(n) == 5 - bits && Length(n) == |out| + 1
  {
  }

  /** The program's loop writes the digits of the padded value, however often the accumulator wraps. */
  method Encode(b: seq<Byte>) returns (out: string)
    ensures out == Encoded(b)
  {
    out := "";
    var acc: nat, bits: nat := 0, 0;
    for i := 0 to |b|
      invariant Progress(Value(b[..i]), i, out, acc, bits)
    {
      assert b[..i + 1][..i] == b[..i];
      out, acc, bits := OneByte(b[i], out, acc, bits, Value(b[..i]), i);
    }
    assert b[..|b|] == b;
    if bits > 0 {
      SomeBitsLeft(Value(b), |b|, out, acc, bits);
      WriteLast(out, Value(b), acc, bits);
      out := out + [Symbol(acc * Pow2(5 - bits) % WORD % 32)];
    } else {
      NoBitsLeft(Value(b), |b|, out, acc);
    }
  }

  // ---- injectivity ----

  lemma {:induction false} DigitsDetermine(v: nat, w: nat, n: nat)
    requires Digits(v, n) == Digits(w, n) && v < Pow2(5 * n) && w < Pow2(5 * n)
    ensures v == w
  {
    if n > 0 {
      var s, t := Digits(v, n), Digits(w, n);
      assert s[..n - 1] == Digits(v / 32, n - 1) && t[..n - 1] == Digits(w / 32, n - 1);
      assert s[n - 1] == Symbol(v % 32) && t[n - 1] == Symbol(w % 32);
      SymbolIsInjective(v % 32, w % 32);
      PowSum(5 * (n - 1), 5);
      PowEight();
      DigitsDetermine(v / 32, w / 32, n - 1);
    }
  }

  lemma {:induction false} ValueBound(b: seq<Byte>)
    ensures Value(b) < Pow2(8 * |b|)
  {
    if b != [] {
      ValueBound(b[..|b| - 1]);
      PowSum(8 * (|b| - 1), 8);
      PowEight();
    }
  }

  lemma {:induction false} ValueDetermines(b: seq<Byte>, c: seq<Byte>)
    requires |b| == |c| && Value(b) == Value(c)
    ensures b == c
  {
    if b != [] {
      var n := |b| - 1;
      assert Value(b[..n]) == Value(c[..n]) && b[n] == c[n];
      ValueDetermines(b[..n], c[..n]);
      assert b == b[..n] + [b[n]] && c == c[..n] + [c[n]];
    }
  }

  lemma PaddedBits(n: nat)
    ensures 8 * n + Padding(n) == 5 * Length(n)
  {
  }

  /** The value with its padding bits. */
  function Padded(b: seq<Byte>): nat { Value(b) * Pow2(Padding(|b|)) }

  lemma PaddedFits(b: seq<Byte>)
    ensures Padded(b) < Pow2(5 * Length(|b|))
  {
    ValueBound(b);
    PaddedBits(|b|);
    PowSum(8 * |b|, Padding(|b|));
    Scaled(Value(b), Pow2(8 * |b|), Pow2(Padding(|b|)));
  }

  lemma PaddedDetermines(b: seq<Byte>, c: seq<Byte>)
    requires |b| == |c| && Padded(b) == Padded(c)
    ensures b == c
  {
    Unscaled(Value(b), Value(c), Pow2(Padding(|b|)));
    ValueDetermines(b, c);
  }

  /** At a fixed length different bytes have different texts. */
  lemma EncodedIsInjective(b: seq<Byte>, c: seq<Byte>)
    requires |b| == |c| && Encoded(b) == Encoded(c)
    ensures b == c
  {
    PaddedFits(b);
    PaddedFits(c);
    DigitsDetermine(Padded(b), Padded(c), Length(|b|));
    PaddedDetermines(b, c);
  }

  lemma Unscaled(x: nat, y: nat, p: nat)
    requires p > 0 && x * p == y * p
    ensures x == y
  {
    MultipleGap(p, x, y);
    MultipleGap(p, y, x);
  }

  lemma Scaled(x: nat, y: nat, p: nat)
    requires x < y && p > 0
    ensures x * p < y * p
  {
  }

  lemma {:induction false} DigitsAreSymbols(v: nat, n: nat)
    ensures forall i :: 0 <= i < n ==> IsSymbol(Digits(v, n)[i])
  {
    if n > 0 {
      DigitsAreSymbols(v / 32, n - 1);
      SymbolIsInjective(v % 32, v % 32);
    }
  }

  const SECRET_BYTES := 32
  const BODY_LENGTH := 52

  /** A secret of 32 bytes has a text of 52 symbols. */
  lemma SecretLength(b: seq<Byte>)
    requires |b| == 32
    ensures |Encoded(b)| == 52 && forall c :: c in Encoded(b) ==> IsSymbol(c)
  {
    DigitsAreSymbols(Value(b) * Pow2(Padding(|b|)), Length(|b|));
  }
}
