/**
 The CRC-8 of the safety controller's framing layer: polynomial 0x07, initial value 0,
 no reflection. `Compute` is the firmware's pair of nested loops. It is proved to be
 a bit-serial register, and the register to be the unique remainder of polynomial
 division over GF(2); the error-detection guarantees follow from that algebra.

 Bits are taken in transmission order, most significant bit of each byte first.
 */
module Crc8 {
  import opened Bytes
  import opened Orbits

  /** 0x07: x^2 + x + 1, the low part of the generator x^8 + x^2 + x + 1. */
  const POLY: Byte := Or(Bit(2), Or(Bit(1), Bit(0)))

  const ZERO: Byte := Zero()
  const ONE: Byte := Bit(0)
  const TOP: Byte := Bit(7)

  // ----- the firmware's loops and their bit-serial meaning

  /** Feeds one message bit to the register: multiplication by x, reduced by the generator. */
  function Feed(c: Byte, b: bool): (r: Byte)
    ensures forall i :: 0 <= i < 8 ==> r[i] == ((i < 7 && c[i + 1]) != (i >= 5 && c[0] != b))
  {
    seq(8, i requires 0 <= i < 8 => (i < 7 && c[i + 1]) != (i >= 5 && c[0] != b))
  }

  function Shift(c: Byte): Byte {
    Feed(c, false)
  }

  function ShiftBy(c: Byte, n: nat): Byte {
    Iterate<Byte>(Shift, c, n)
  }

  function Register(c: Byte, bits: seq<bool>): Byte {
    if bits == [] then c
    else Feed(Register(c, bits[..|bits| - 1]), bits[|bits| - 1])
  }

  function MessageBits(m: seq<Byte>): (bits: seq<bool>)
    ensures |bits| == 8 * |m|
  {
    if m == [] then [] else MessageBits(m[..|m| - 1]) + m[|m| - 1]
  }

  /** The checksum of a message, as a bit-serial register computes it. */
  function Checksum(m: seq<Byte>): Byte {
    Register(ZERO, MessageBits(m))
  }

  /** One turn of the inner loop, as the firmware writes it. */
  lemma ShiftAsWritten(c: Byte)
    ensures (if c[0] then Xor(Shl(c), POLY) else Shl(c)) == Shift(c)
  {
  }

  method Compute(data: array<Byte>, len: nat) returns (crc: Byte)
    requires len <= data.Length && len < 0x1_0000
    ensures crc == Checksum(data[..len])
  {
    crc := ZERO;
    var i := 0;
    while i < len
      invariant 0 <= i <= len
      invariant crc == Checksum(data[..i])
    {
      ghost var before := crc;
      crc := Xor(crc, data[i]);
      var b := 0;
      while b < 8
        invariant 0 <= b <= 8
        invariant crc == ShiftBy(Xor(before, data[i]), b)
      {
        ShiftAsWritten(crc);
        crc := if crc[0] then Xor(Shl(crc), POLY) else Shl(crc);
        b := b + 1;
      }
      assert data[..i + 1][..i] == data[..i];
      ByteStep(before, data[i]);
      RegisterAppend(ZERO, MessageBits(data[..i]), data[i]);
      i := i + 1;
    }
  }

  /** Folding a whole byte in and shifting eight times is feeding its eight bits. */
  lemma ByteStep(c: Byte, x: Byte)
    ensures ShiftBy(Xor(c, x), 8) == Register(c, x)
  {
    BitSteps(c, x, 8);
    assert x[..8] == x;
  }

  /** After `n` turns the remaining bits of the byte are still folded in, `n` places up. */
  lemma {:induction false} BitSteps(c: Byte, x: Byte, n: nat)
    requires n <= 8
    ensures forall i :: 0 <= i < 8 ==> ShiftBy(Xor(c, x), n)[i] == (Register(c, x[..n])[i] != (i + n < 8 && x[i + n]))
  {
    if n > 0 {
      BitSteps(c, x, n - 1);
      assert x[..n][..n - 1] == x[..n - 1];
      var s, t := ShiftBy(Xor(c, x), n - 1), Register(c, x[..n - 1]);
      assert s[0] == (t[0] != x[n - 1]);
    } else {
      assert x[..0] == [];
    }
  }

  lemma {:induction false} RegisterAppend(c: Byte, xs: seq<bool>, ys: seq<bool>)
    ensures Register(c, xs + ys) == Register(Register(c, xs), ys)
  {
    if ys == [] {
      assert xs + ys == xs;
    } else {
      var n := |ys| - 1;
      assert (xs + ys)[..|xs + ys| - 1] == xs + ys[..n];
      RegisterAppend(c, xs, ys[..n]);
    }
  }

  // ----- the register is the remainder of polynomial division

  /** Coefficient `i` of `q`, which is zero outside the sequence. */
  predicate Coeff(q: seq<bool>, i: int) {
    0 <= i < |q| && q[i]
  }

  /** Coefficient `i` (highest degree first) of q(x) times x^8 + x^2 + x + 1. */
  predicate TimesG(q: seq<bool>, i: int) {
    (Coeff(q, i) != Coeff(q, i - 6)) != (Coeff(q, i - 7) != Coeff(q, i - 8))
  }

  /** m(x) * x^8 == q(x) * (x^8 + x^2 + x + 1) + r(x), where r has degree below 8. */
  ghost predicate DividesWith(m: seq<bool>, q: seq<bool>, r: Byte) {
    && |q| == |m|
    && forall i :: 0 <= i < |m| + 8 ==> Coeff(m, i) == (TimesG(q, i) != Coeff(r, i - |m|))
  }

  function Quotient(m: seq<bool>): (q: seq<bool>)
    ensures |q| == |m|
  {
    if m == [] then []
    else
      var n := |m| - 1;
      Quotient(m[..n]) + [Register(ZERO, m[..n])[0] != m[n]]
  }

  /** The register holds the remainder, and the bits it shifts out are the quotient. */
  lemma {:induction false} RegisterIsRemainder(m: seq<bool>)
    ensures DividesWith(m, Quotient(m), Register(ZERO, m))
  {
    if m != [] {
      var n := |m| - 1;
      var m0, q0, c := m[..n], Quotient(m[..n]), Register(ZERO, m[..n]);
      RegisterIsRemainder(m0);
      var t := c[0] != m[n];
      var q, c1 := q0 + [t], Register(ZERO, m);
      forall i | 0 <= i < |m| + 8
        ensures Coeff(m, i) == (TimesG(q, i) != Coeff(c1, i - |m|))
      {
        QuotientExtends(q0, t, i);
        assert i < n + 8 ==> Coeff(m0, i) == (TimesG(q0, i) != Coeff(c, i - n));
        assert Coeff(m, i) == if i == n then m[n] else Coeff(m0, i);
        FeedCoeff(c, m[n], i - n - 1);
      }
    }
  }

  /** Appending a quotient bit adds the generator, shifted to where that bit stands. */
  lemma QuotientExtends(q0: seq<bool>, t: bool, i: int)
    ensures var n := |q0|;
            TimesG(q0 + [t], i) == (TimesG(q0, i) != (t && (i == n || i == n + 6 || i == n + 7 || i == n + 8)))
  {
  }

  lemma FeedCoeff(c: Byte, b: bool, k: int)
    ensures Coeff(Feed(c, b), k) == (0 <= k < 8 && Coeff(c, k + 1) != (5 <= k && c[0] != b))
  {
  }

  /** Quotient and remainder are unique, so the division pins the checksum down. */
  lemma RemainderUnique(m: seq<bool>, q1: seq<bool>, r1: Byte, q2: seq<bool>, r2: Byte)
    requires DividesWith(m, q1, r1) && DividesWith(m, q2, r2)
    ensures q1 == q2 && r1 == r2
  {
    QuotientUnique(m, q1, r1, q2, r2, |m|);
    assert q1 == q2;
    forall k | 0 <= k < 8 ensures r1[k] == r2[k] {
      var i := |m| + k;
      assert Coeff(m, i) == (TimesG(q1, i) != Coeff(r1, i - |m|));
      assert Coeff(m, i) == (TimesG(q2, i) != Coeff(r2, i - |m|));
    }
  }

  lemma {:induction false} QuotientUnique(m: seq<bool>, q1: seq<bool>, r1: Byte, q2: seq<bool>, r2: Byte, n: nat)
    requires DividesWith(m, q1, r1) && DividesWith(m, q2, r2) && n <= |m|
    ensures forall i :: 0 <= i < n ==> q1[i] == q2[i]
  {
    if n > 0 {
      QuotientUnique(m, q1, r1, q2, r2, n - 1);
      var i := n - 1;
      assert Coeff(m, i) == (TimesG(q1, i) != Coeff(r1, i - |m|));
      assert Coeff(m, i) == (TimesG(q2, i) != Coeff(r2, i - |m|));
      assert Coeff(q1, i - 6) == Coeff(q2, i - 6) && Coeff(q1, i - 7) == Coeff(q2, i - 7) && Coeff(q1, i - 8) == Coeff(q2, i - 8);
    }
  }

  /** Division has one answer, and the checksum is its remainder. */
  lemma ChecksumIsTheRemainder(m: seq<Byte>, q: seq<bool>, r: Byte)
    ensures DividesWith(MessageBits(m), q, r) <==> q == Quotient(MessageBits(m)) && r == Checksum(m)
  {
    var bits := MessageBits(m);
    RegisterIsRemainder(bits);
    if DividesWith(bits, q, r) {
      RemainderUnique(bits, q, r, Quotient(bits), Checksum(m));
    }
  }

  // ----- linearity and the residue

  lemma FeedLinear(c: Byte, d: Byte, x: bool, y: bool)
    ensures Feed(Xor(c, d), x != y) == Xor(Feed(c, x), Feed(d, y))
  {
    var l, r := Feed(Xor(c, d), x != y), Xor(Feed(c, x), Feed(d, y));
    forall i | 0 <= i < 8 ensures l[i] == r[i] {
    }
  }

  lemma {:induction false} RegisterLinear(c: Byte, d: Byte, xs: seq<bool>, ys: seq<bool>)
    requires |xs| == |ys|
    ensures Register(Xor(c, d), Xor(xs, ys)) == Xor(Register(c, xs), Register(d, ys))
  {
    if xs != [] {
      var n := |xs| - 1;
      RegisterLinear(c, d, xs[..n], ys[..n]);
      assert Xor(xs, ys)[..n] == Xor(xs[..n], ys[..n]);
      FeedLinear(Register(c, xs[..n]), Register(d, ys[..n]), xs[n], ys[n]);
    }
  }

  function XorBytes(m: seq<Byte>, e: seq<Byte>): (r: seq<Byte>)
    requires |m| == |e|
    ensures |r| == |m|
    ensures forall i :: 0 <= i < |m| ==> r[i] == Xor(m[i], e[i])
  {
    seq(|m|, i requires 0 <= i < |m| => Xor(m[i], e[i]))
  }

  lemma {:induction false} MessageBitsXor(m: seq<Byte>, e: seq<Byte>)
    requires |m| == |e|
    ensures MessageBits(XorBytes(m, e)) == Xor(MessageBits(m), MessageBits(e))
  {
    if m != [] {
      var n := |m| - 1;
      MessageBitsXor(m[..n], e[..n]);
      assert XorBytes(m, e)[..n] == XorBytes(m[..n], e[..n]);
    }
  }

  /** The checksum of the sum is the sum of the checksums. */
  lemma ChecksumLinear(m: seq<Byte>, e: seq<Byte>)
    requires |m| == |e|
    ensures Checksum(XorBytes(m, e)) == Xor(Checksum(m), Checksum(e))
  {
    MessageBitsXor(m, e);
    RegisterLinear(ZERO, ZERO, MessageBits(m), MessageBits(e));
    assert Xor(ZERO, ZERO) == ZERO;
  }

  /** A frame carrying its own checksum has checksum zero, and no other trailer byte does. */
  lemma ResidueIsZero(m: seq<Byte>, x: Byte)
    ensures Checksum(m + [x]) == ZERO <==> x == Checksum(m)
  {
    assert (m + [x])[..|m|] == m;
    RegisterAppend(ZERO, MessageBits(m), x);
    ByteStep(Checksum(m), x);
    ShiftByZeroOnly(Xor(Checksum(m), x), 8);
    XorZero(Checksum(m), x);
  }

  lemma XorZero(x: seq<bool>, y: seq<bool>)
    requires |x| == |y| == 8
    ensures Xor(x, y) == ZERO <==> x == y
  {
    if Xor(x, y) == ZERO {
      forall i | 0 <= i < 8 ensures x[i] == y[i] {
        assert !Xor(x, y)[i];
      }
    }
  }

  lemma ShiftInjective(c: Byte, d: Byte)
    requires Shift(c) == Shift(d)
    ensures c == d
  {
    var s, t := Shift(c), Shift(d);
    assert s[7] == t[7];
    forall i | 1 <= i < 8 ensures c[i] == d[i] {
      assert s[i - 1] == t[i - 1];
    }
  }

  lemma ShiftIsInjective()
    ensures Injective<Byte>(Shift)
  {
    forall c, d | Shift(c) == Shift(d) ensures c == d {
      ShiftInjective(c, d);
    }
  }

  lemma ShiftZero()
    ensures Shift(ZERO) == ZERO
  {
    forall i | 0 <= i < 8 ensures Shift(ZERO)[i] == ZERO[i] {
    }
  }

  lemma ShiftByZeroOnly(c: Byte, n: nat)
    ensures ShiftBy(c, n) == ZERO <==> c == ZERO
  {
    ShiftIsInjective();
    ShiftZero();
    var z := ZERO;
    IterateFixed<Byte>(Shift, z, n);
    if ShiftBy(c, n) == z {
      IterateInjective<Byte>(Shift, c, z, n);
    }
  }

  // ----- error detection

  function Zeros(n: nat): (z: seq<bool>)
    ensures |z| == n && forall i :: 0 <= i < n ==> !z[i]
  {
    seq(n, _ => false)
  }

  lemma {:induction false} FeedZeros(c: Byte, n: nat)
    ensures Register(c, Zeros(n)) == ShiftBy(c, n)
  {
    if n > 0 {
      assert Zeros(n)[..n - 1] == Zeros(n - 1);
      FeedZeros(c, n - 1);
    }
  }

  /** Leading and trailing zero bits do not hide an error pattern. */
  lemma PaddingKeepsNonzero(before: nat, w: seq<bool>, after: nat)
    ensures Register(ZERO, Zeros(before) + w + Zeros(after)) == ZERO <==> Register(ZERO, w) == ZERO
  {
    RegisterAppend(ZERO, Zeros(before) + w, Zeros(after));
    RegisterAppend(ZERO, Zeros(before), w);
    FeedZeros(ZERO, before);
    ShiftByZeroOnly(ZERO, before);
    FeedZeros(Register(ZERO, w), after);
    ShiftByZeroOnly(Register(ZERO, w), after);
  }

  /** Bit position `i` differs between the two messages. */
  predicate Flipped(m: seq<Byte>, m': seq<Byte>, i: int)
    requires |m| == |m'|
  {
    0 <= i < 8 * |m| && MessageBits(m)[i] != MessageBits(m')[i]
  }

  lemma DetectedIffErrorNonzero(m: seq<Byte>, m': seq<Byte>)
    requires |m| == |m'|
    ensures Checksum(m) == Checksum(m') <==> Register(ZERO, Xor(MessageBits(m), MessageBits(m'))) == ZERO
  {
    RegisterLinear(ZERO, ZERO, MessageBits(m), MessageBits(m'));
    assert Xor(ZERO, ZERO) == ZERO;
    XorZero(Checksum(m), Checksum(m'));
  }

  /** Eight bits fed to a clear register leave it clear only if they are all zero. */
  lemma WindowNonzero(w: Byte, k: nat)
    requires k < 8 && w[k]
    ensures Register(ZERO, w) != ZERO
  {
    ByteStep(ZERO, w);
    assert Xor(ZERO, w) == w;
    ShiftByZeroOnly(w, 8);
  }

  lemma WindowDetected(e: seq<bool>, lo: nat, at: nat)
    requires lo <= at < lo + 8 <= |e| && e[at]
    requires forall i :: 0 <= i < |e| && !(lo <= i < lo + 8) ==> !e[i]
    ensures Register(ZERO, e) != ZERO
  {
    WindowPadded(e, lo);
    PaddedDetected(lo, e[lo..lo + 8], |e| - lo - 8, at - lo);
  }

  lemma PaddedDetected(before: nat, w: Byte, after: nat, k: nat)
    requires k < 8 && w[k]
    ensures Register(ZERO, Zeros(before) + w + Zeros(after)) != ZERO
  {
    WindowNonzero(w, k);
    PaddingKeepsNonzero(before, w, after);
  }

  lemma WindowPadded(e: seq<bool>, lo: nat)
    requires lo + 8 <= |e| && forall i :: 0 <= i < |e| && !(lo <= i < lo + 8) ==> !e[i]
    ensures e == Zeros(lo) + e[lo..lo + 8] + Zeros(|e| - lo - 8)
  {
  }

  /** Every nonzero error confined to eight consecutive bits is detected, wherever it falls. */
  lemma BurstDetected(m: seq<Byte>, m': seq<Byte>, p: nat, at: nat)
    requires |m| == |m'| && Flipped(m, m', at)
    requires forall i :: Flipped(m, m', i) ==> p <= i < p + 8
    ensures Checksum(m) != Checksum(m')
  {
    var n := 8 * |m|;
    var e := Xor(MessageBits(m), MessageBits(m'));
    // The window may hang over the end; slid back inside, it still holds every flip.
    var lo := if p + 8 <= n then p else n - 8;
    forall i | 0 <= i < n && !(lo <= i < lo + 8) ensures !e[i] {
      assert !Flipped(m, m', i);
    }
    WindowDetected(e, lo, at);
    DetectedIffErrorNonzero(m, m');
  }

  // ----- parity

  predicate OddBits(bits: seq<bool>) {
    bits != [] && (OddBits(bits[..|bits| - 1]) != bits[|bits| - 1])
  }

  predicate OddByte(x: Byte) {
    ((x[0] != x[1]) != (x[2] != x[3])) != ((x[4] != x[5]) != (x[6] != x[7]))
  }

  lemma FeedParity(c: Byte, b: bool)
    ensures OddByte(Feed(c, b)) == (OddByte(c) != b)
  {
  }

  /** The parity of the register is the parity of everything fed to it. */
  lemma {:induction false} RegisterParity(bits: seq<bool>)
    ensures OddByte(Register(ZERO, bits)) == OddBits(bits)
  {
    if bits != [] {
      var n := |bits| - 1;
      RegisterParity(bits[..n]);
      FeedParity(Register(ZERO, bits[..n]), bits[n]);
    }
  }

  /** Every error that flips an odd number of bits is detected. */
  lemma OddErrorDetected(m: seq<Byte>, m': seq<Byte>)
    requires |m| == |m'|
    requires OddBits(Xor(MessageBits(m), MessageBits(m')))
    ensures Checksum(m) != Checksum(m')
  {
    RegisterParity(Xor(MessageBits(m), MessageBits(m')));
    DetectedIffErrorNonzero(m, m');
  }

  // ----- two flipped bits: x has order 127 modulo the polynomial

  /** Squaring modulo the generator, a linear map: x^4 squares to x^2 + x + 1, and so on. */
  function Square(c: Byte): (r: Byte)
    ensures r[0] == c[0] && r[1] == ((c[0] != c[1]) != c[4]) && r[2] == c[1] && r[3] == ((c[1] != c[2]) != c[5])
    ensures r[4] == c[2] && r[5] == ((c[0] != c[2]) != (c[3] != c[6])) && r[6] == (c[0] != c[3]) && r[7] == ((c[0] != c[3]) != c[7])
  {
    seq(8, i requires 0 <= i < 8 =>
      if i == 0 then c[0] else if i == 1 then (c[0] != c[1]) != c[4] else if i == 2 then c[1]
      else if i == 3 then (c[1] != c[2]) != c[5] else if i == 4 then c[2]
      else if i == 5 then (c[0] != c[2]) != (c[3] != c[6]) else if i == 6 then c[0] != c[3]
      else (c[0] != c[3]) != c[7])
  }

  lemma SquareOfShift(c: Byte)
    ensures Square(Shift(c)) == Shift(Shift(Square(c)))
  {
    var s, q := Shift(c), Square(c);
    var l, t := Square(s), Shift(q);
    var r := Shift(t);
    assert s[7] == c[0];
    forall i | 0 <= i < 8 ensures l[i] == r[i] {
    }
  }

  lemma SquareOne()
    ensures Square(ONE) == ONE
  {
    forall i | 0 <= i < 8 ensures Square(ONE)[i] == ONE[i] {
    }
  }

  lemma SevenSquarings()
    ensures Square(Square(Square(Square(Square(Square(Square(Shift(ONE)))))))) == Shift(ONE)
  {
    var x := Shift(ONE);
    var x2 := Square(x);
    var x4 := Square(x2);
    var x8 := Square(x4);
    var x16 := Square(x8);
    var x32 := Square(x16);
    var x64 := Square(x32);
    assert Square(x64) == x;
  }

  /** x^128 == x, by seven squarings; hence x^127 == 1. */
  lemma ReturnsAfter127(p: nat)
    requires p == 127
    ensures Returns<Byte>(Shift, ONE, p)
  {
    SquareOne();
    forall c: Byte ensures Square(Shift(c)) == Shift(Shift(Square(c))) {
      SquareOfShift(c);
    }
    SevenDoublings<Byte>(Shift, Square, ONE, p + 1);
    SevenSquarings();
    ShiftInjective(ShiftBy(ONE, p), ONE);
  }

  lemma Prime127()
    ensures Prime(127)
  {
    forall d: nat, q: nat | 2 <= d < 127 ensures q * d != 127 {
      NoFactor127(d, q);
    }
  }

  lemma NoFactor127(d: nat, q: nat)
    requires 2 <= d < 127
    ensures q * d != 127
  {
    if d < 12 {
      assert d == 2 || d == 3 || d == 4 || d == 5 || d == 6 || d == 7 || d == 8 || d == 9 || d == 10 || d == 11;
    } else if q < 12 {
      assert q == 0 || q == 1 || q == 2 || q == 3 || q == 4 || q == 5 || q == 6 || q == 7 || q == 8 || q == 9 || q == 10 || q == 11;
    } else {
      assert q * d >= 12 * d;
    }
  }

  /** x has multiplicative order exactly 127 modulo the generator. */
  lemma OrderOfX(d: nat)
    ensures Returns<Byte>(Shift, ONE, d) <==> d % 127 == 0
  {
    var p := 127;
    ShiftIsInjective();
    ReturnsAfter127(p);
    Prime127();
    assert !Shift(ONE)[7];
    PrimePeriod<Byte>(Shift, ONE, p, d);
  }

  /** Two flipped bits go undetected exactly when their distance is a multiple of 127. */
  lemma TwoFlipsDetected(m: seq<Byte>, m': seq<Byte>, p: nat, d: nat)
    requires |m| == |m'| && d > 0
    requires forall i :: Flipped(m, m', i) <==> i == p || i == p + d
    ensures Checksum(m) != Checksum(m') <==> d % 127 != 0
  {
    var n := 8 * |m|;
    var e := Xor(MessageBits(m), MessageBits(m'));
    assert Flipped(m, m', p) && Flipped(m, m', p + d);
    var w := [true] + Zeros(d - 1) + [true];
    forall i | 0 <= i < n ensures e[i] == (i == p || i == p + d) {
      assert Flipped(m, m', i) == e[i];
    }
    assert e == Zeros(p) + w + Zeros(n - p - d - 1);
    PaddingKeepsNonzero(p, w, n - p - d - 1);
    TwoOnes(d);
    OrderOfX(d);
    DetectedIffErrorNonzero(m, m');
  }

  lemma TwoOnes(d: nat)
    requires d > 0
    ensures Register(ZERO, [true] + Zeros(d - 1) + [true]) == ZERO <==> Returns<Byte>(Shift, ONE, d)
  {
    OneThenZeros(d);
    RegisterAppend(ZERO, [true] + Zeros(d - 1), [true]);
    ClosingOne(ShiftBy(TOP, d));
    TopReturns(d, 7);
  }

  lemma OneThenZeros(d: nat)
    requires d > 0
    ensures Register(ZERO, [true] + Zeros(d - 1)) == ShiftBy(TOP, d)
  {
    RegisterAppend(ZERO, [true], Zeros(d - 1));
    FeedOne(ZERO);
    assert Xor(ZERO, TOP) == TOP;
    FeedZeros(ShiftBy(TOP, 1), d - 1);
    IterateAdd<Byte>(Shift, TOP, 1, d - 1);
  }

  lemma ClosingOne(s: Byte)
    ensures Register(s, [true]) == ZERO <==> s == TOP
  {
    FeedOne(s);
    ShiftByZeroOnly(Xor(s, TOP), 1);
    XorZero(s, TOP);
  }

  /** Multiplication by powers of x commutes and is injective. */
  lemma TopReturns(d: nat, seven: nat)
    requires seven == 7
    ensures ShiftBy(TOP, d) == TOP <==> Returns<Byte>(Shift, ONE, d)
  {
    PowerBit(seven);
    assert ShiftBy(ONE, seven) == TOP;
    IterateAdd<Byte>(Shift, ONE, seven, d);
    IterateAdd<Byte>(Shift, ONE, d, seven);
    ShiftIsInjective();
    if ShiftBy(TOP, d) == TOP {
      IterateInjective<Byte>(Shift, ShiftBy(ONE, d), ONE, seven);
    }
  }

  lemma FeedOne(c: Byte)
    ensures Register(c, [true]) == ShiftBy(Xor(c, TOP), 1)
  {
    assert [true][..0] == [];
    assert Register(c, [true]) == Feed(Register(c, []), true);
    assert ShiftBy(Xor(c, TOP), 1) == Shift(ShiftBy(Xor(c, TOP), 0));
    assert Feed(c, true) == Shift(Xor(c, TOP));
  }

  lemma {:induction false} PowerBit(n: nat)
    requires n <= 7
    ensures forall i :: 0 <= i < 8 ==> ShiftBy(ONE, n)[i] == (i == 7 - n)
  {
    if n > 0 {
      PowerBit(n - 1);
      assert ShiftBy(ONE, n) == Shift(ShiftBy(ONE, n - 1));
    } else {
      assert ShiftBy(ONE, 0) == ONE;
    }
  }
}
