/** Byte strings and the little-endian integer encodings used on the wire. */
module ByteStrings {

  type Byte = b: int | 0 <= b < 256
  type Bytes = seq<Byte>

  datatype Option<+T> = None | Some(value: T)

  /** The number of values of a 32-bit word. */
  const WORD := 0x1_0000_0000

  function Min(a: int, b: int): int { if a <= b then a else b }

  /** The `k` low bytes of `n`, least significant first. Euclidean division makes this the
      two's complement encoding when `n` is negative, as Go's uint64(int) conversion does. */
  function LE(n: int, k: nat): (b: Bytes)
    ensures |b| == k
    decreases k
  {
    if k == 0 then [] else [n % 256] + LE(n / 256, k - 1)
  }

  /** The unsigned number a little-endian byte string stands for. */
  function FromLE(b: Bytes): (n: nat)
  {
    if b == [] then 0 else b[0] + 256 * FromLE(b[1..])
  }

  function Pow256(k: nat): (r: nat)
    ensures r >= 1
  {
    if k == 0 then 1 else 256 * Pow256(k - 1)
  }

  lemma LowDigit(n: int, m: nat)
    requires m >= 1
    ensures n % (256 * m) == n % 256 + 256 * ((n / 256) % m)
  {
    var q, d := n / 256, n % 256;
    var h, l := q / m, q % m;
    assert n == 256 * (m * h + l) + d == (256 * m) * h + (d + 256 * l);
    DivisionIsUnique(n, 256 * m, h, d + 256 * l);
  }

  lemma MulAtLeast(m: int, a: int)
    requires m > 0 && a >= 1
    ensures m * a >= m
  {
    if a > 1 { MulAtLeast(m, a - 1); assert m * a == m * (a - 1) + m; }
  }

  lemma QuotientIsUnique(m: int, h: int, r: int, h': int, r': int)
    requires 0 <= r < m && 0 <= r' < m && m * h + r == m * h' + r'
    ensures h == h' && r == r'
  {
    assert m * (h - h') == r' - r && m * (h' - h) == r - r';
    if h > h' { MulAtLeast(m, h - h'); }
    if h < h' { MulAtLeast(m, h' - h); }
  }

  lemma DivisionIsUnique(n: int, m: int, h: int, r: int)
    requires 0 <= r < m && n == m * h + r
    ensures n % m == r && n / m == h
  {
    QuotientIsUnique(m, h, r, n / m, n % m);
  }

  lemma FromLECons(b: Byte, rest: Bytes)
    ensures FromLE([b] + rest) == b + 256 * FromLE(rest)
  {
    assert ([b] + rest)[1..] == rest;
  }

  /** Decoding the encoding gives the number back, modulo the width. */
  lemma {:induction false} LERoundTrip(n: int, k: nat)
    ensures FromLE(LE(n, k)) == n % Pow256(k)
    decreases k
  {
    if k > 0 {
      var m, d := Pow256(k - 1), n % 256;
      LERoundTrip(n / 256, k - 1);
      LowDigit(n, m);
      FromLECons(d, LE(n / 256, k - 1));
      hide FromLE, LE;
      assert FromLE(LE(n, k)) == d + 256 * ((n / 256) % m);
    }
  }

  lemma LEInjective(m: int, n: int, k: nat)
    requires 0 <= m < Pow256(k) && 0 <= n < Pow256(k)
    requires LE(m, k) == LE(n, k)
    ensures m == n
  {
    LERoundTrip(m, k);
    LERoundTrip(n, k);
    DivisionIsUnique(m, Pow256(k), 0, m);
    DivisionIsUnique(n, Pow256(k), 0, n);
  }

  lemma LowWord(n: int)
    ensures FromLE(LE(n, 4)) == n % WORD
  {
    LERoundTrip(n, 4);
    assert Pow256(0) == 1 && Pow256(1) == 256 && Pow256(2) == 256 * 256 && Pow256(4) == WORD;
  }

  /** Bitwise exclusive or, digit by digit. */
  function Xor(a: nat, b: nat): (r: nat)
    decreases a + b
  {
    if a == 0 && b == 0 then 0 else (if a % 2 == b % 2 then 0 else 1) + 2 * Xor(a / 2, b / 2)
  }

  lemma {:induction false} XorBelow(a: nat, b: nat, k: nat)
    requires a < Pow2(k) && b < Pow2(k)
    ensures Xor(a, b) < Pow2(k)
    decreases k
  {
    if k > 0 { XorBelow(a / 2, b / 2, k - 1); }
  }

  function Pow2(k: nat): (r: nat)
    ensures r >= 1
  {
    if k == 0 then 1 else 2 * Pow2(k - 1)
  }

  lemma XorStep(a: nat, b: nat)
    ensures Xor(a, b) % 2 == if a % 2 == b % 2 then 0 else 1
    ensures Xor(a, b) / 2 == Xor(a / 2, b / 2)
  {}

  lemma {:induction false} XorTwice(a: nat, k: nat)
    ensures Xor(Xor(a, k), k) == a
    decreases a + k
  {
    if a > 0 || k > 0 {
      XorTwice(a / 2, k / 2);
      XorStep(a, k);
      XorStep(Xor(a, k), k);
      hide Xor;
    }
  }

  function XorByte(a: Byte, b: Byte): (r: Byte)
  {
    assert Pow2(8) == 256;
    XorBelow(a, b, 8);
    Xor(a, b)
  }

  // ----- bits

  /** Bit k of a number. */
  function Bit(n: nat, k: nat): (b: nat)
    ensures b < 2
  {
    n / Pow2(k) % 2
  }

  lemma HalfThenDivide(n: nat, m: nat)
    requires m >= 1
    ensures n / (2 * m) == (n / 2) / m
  {
    var q, d := n / 2, n % 2;
    var h, l := q / m, q % m;
    assert n == 2 * (m * h + l) + d == (2 * m) * h + (2 * l + d);
    DivisionIsUnique(n, 2 * m, h, 2 * l + d);
  }

  lemma BitStep(n: nat, k: nat)
    requires k > 0
    ensures Bit(n, k) == Bit(n / 2, k - 1)
  {
    HalfThenDivide(n, Pow2(k - 1));
  }

  /** Numbers of k bits with the same bits are equal. */
  lemma {:induction false} BitsDetermine(a: nat, b: nat, k: nat)
    requires a < Pow2(k) && b < Pow2(k) && forall i :: 0 <= i < k ==> Bit(a, i) == Bit(b, i)
    ensures a == b
    decreases k
  {
    if k > 0 {
      assert Bit(a, 0) == a % 2 && Bit(b, 0) == b % 2;
      forall i | 0 <= i < k - 1 ensures Bit(a / 2, i) == Bit(b / 2, i) {
        BitStep(a, i + 1);
        BitStep(b, i + 1);
        assert Bit(a, i + 1) == Bit(b, i + 1);
      }
      BitsDetermine(a / 2, b / 2, k - 1);
    }
  }

  lemma {:induction false} XorBits(a: nat, b: nat, k: nat)
    ensures Bit(Xor(a, b), k) == (Bit(a, k) + Bit(b, k)) % 2
    decreases k
  {
    XorStep(a, b);
    hide Xor;
    if k == 0 {
      assert Pow2(0) == 1;
    } else {
      BitStep(a, k);
      BitStep(b, k);
      BitStep(Xor(a, b), k);
      XorBits(a / 2, b / 2, k - 1);
    }
  }

  /** c is m plus a, bit by bit. */
  ghost predicate AddsBits(c: Byte, m: Byte, a: Byte) {
    forall k :: 0 <= k < 8 ==> Bit(c, k) == (Bit(m, k) + Bit(a, k)) % 2
  }

  lemma SameByte(a: Byte, b: Byte)
    requires forall k :: 0 <= k < 8 ==> Bit(a, k) == Bit(b, k)
    ensures a == b
  {
    hide Bit;
    assert Pow2(8) == 256;
    BitsDetermine(a, b, 8);
  }

  lemma BitsCancel(c: Byte, m: Byte, a: Byte, b: Byte)
    requires AddsBits(c, m, a) && AddsBits(c, m, b)
    ensures a == b
  {
    hide Bit;
    forall k | 0 <= k < 8 ensures Bit(a, k) == Bit(b, k) {
      assert Bit(c, k) == (Bit(m, k) + Bit(a, k)) % 2 == (Bit(m, k) + Bit(b, k)) % 2;
    }
    SameByte(a, b);
  }

  lemma SameSum(c: Byte, d: Byte, m: Byte, a: Byte)
    requires AddsBits(c, m, a) && AddsBits(d, m, a)
    ensures c == d
  {
    hide Bit;
    SameByte(c, d);
  }

  lemma AddsZero(m: Byte)
    ensures AddsBits(m, m, 0)
  {
    forall k | 0 <= k < 8 ensures Bit(0, k) == 0 { DivisionIsUnique(0, Pow2(k), 0, 0); }
    hide Bit;
  }

  /** Go's copy into a part of a buffer. */
  method CopyInto(dst: array<Byte>, at: nat, src: Bytes)
    requires at + |src| <= dst.Length
    modifies dst
    ensures dst[at..at + |src|] == src
    ensures forall i :: 0 <= i < dst.Length && !(at <= i < at + |src|) ==> dst[i] == old(dst[i])
  {
    for k := 0 to |src|
      invariant dst[at..at + k] == src[..k]
      invariant forall i :: 0 <= i < dst.Length && !(at <= i < at + k) ==> dst[i] == old(dst[i])
    {
      dst[at + k] := src[k];
    }
  }
}
