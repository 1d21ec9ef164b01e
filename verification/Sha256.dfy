/**
  SHA-256 (src/kernel/self_defense.rs, lines 25-115) against FIPS 180-4: padding (section 5.1.1), parsing (5.2.1),
  constants (4.2.2 and 5.3.3), functions (4.1.2), message schedule and compression (6.2.2), and the lower-case
  hexadecimal text.
 */
module Sha256 {
  import opened Common

  // ---------------------------------------------------------------------------
  // Numbers as bytes, most significant first
  // ---------------------------------------------------------------------------

  const U64_SIZE: int := 0x1_0000_0000_0000_0000

  function Power256(k: nat): nat {
    if k == 0 then 1 else 256 * Power256(k - 1)
  }

  function BigEndian(n: nat, k: nat): (r: seq<byte>)
    ensures |r| == k
  {
    if k == 0 then [] else BigEndian(n / 256, k - 1) + [n % 256]
  }

  function BigEndianValue(s: seq<byte>): nat {
    if s == [] then 0 else 256 * BigEndianValue(s[..|s| - 1]) + s[|s| - 1]
  }

  lemma {:induction false} BigEndianRoundTrip(n: nat, k: nat)
    requires n < Power256(k)
    ensures BigEndianValue(BigEndian(n, k)) == n
  {
    if k > 0 {
      BigEndianRoundTrip(n / 256, k - 1);
      assert BigEndian(n, k)[..k - 1] == BigEndian(n / 256, k - 1);
    }
  }

  lemma EightBytes()
    ensures Power256(8) == U64_SIZE
  {
    assert Power256(2) == 0x1_0000;
    assert Power256(4) == 0x1_0000_0000;
    assert Power256(6) == 0x1_0000_0000_0000;
  }

  // ---------------------------------------------------------------------------
  // Padding
  // ---------------------------------------------------------------------------

  function Zeros(n: nat): (r: seq<byte>)
    ensures |r| == n
  {
    seq(n, _ => 0)
  }

  /** How many zero bytes make `length` bytes, the 0x80 byte and the zeros end eight bytes in front of a block
      boundary. */
  function ZeroCount(length: nat): (k: nat)
    ensures k < 64 && (length + 1 + k) % 64 == 56
  {
    (119 - length % 64) % 64
  }

  lemma ZeroCountIsLeast(length: nat, k: nat)
    requires (length + 1 + k) % 64 == 56
    ensures ZeroCount(length) <= k
  {
  }

  /** The length in bits, which wraps around at 64 bits. */
  function BitLength(data: seq<byte>): nat {
    8 * |data| % U64_SIZE
  }

  function Padded(data: seq<byte>): seq<byte> {
    data + [0x80] + Zeros(ZeroCount(|data|)) + BigEndian(BitLength(data), 8)
  }

  lemma PaddedLength(data: seq<byte>)
    ensures |Padded(data)| == |data| + ZeroCount(|data|) + 9
    ensures |Padded(data)| % 64 == 0
  {
    hide BigEndian, Zeros;
    WholeBlocks(|data| + 1 + ZeroCount(|data|));
  }

  lemma WholeBlocks(n: nat)
    requires n % 64 == 56
    ensures (n + 8) % 64 == 0
  {
  }

  method PadMessage(data: seq<byte>) returns (msg: seq<byte>)
    ensures msg == Padded(data)
  {
    hide ZeroCount, BigEndian, BitLength;
    msg := data;
    msg := msg + [0x80];
    ghost var k: nat := 0;
    assert msg == data + [0x80] + Zeros(k);
    while |msg| % 64 != 56
      invariant k <= ZeroCount(|data|)
      invariant msg == data + [0x80] + Zeros(k)
      decreases ZeroCount(|data|) - k
    {
      MoreZeros(|data|, k);
      assert data + [0x80] + Zeros(k) + [0x00] == data + [0x80] + (Zeros(k) + [0x00]);
      msg := msg + [0x00];
      k := k + 1;
    }
    ZeroCountIsLeast(|data|, k);
    msg := msg + BigEndian(BitLength(data), 8);
  }

  lemma MoreZeros(length: nat, k: nat)
    requires k <= ZeroCount(length) && (length + 1 + k) % 64 != 56
    ensures k < ZeroCount(length) && Zeros(k) + [0x00] == Zeros(k + 1)
  {
    hide ZeroCount;
  }

  /** Two messages shorter than 2^61 bytes have different paddings. */
  lemma PaddingIsInjective(a: seq<byte>, b: seq<byte>)
    requires |a| < 0x2000_0000_0000_0000 && |b| < 0x2000_0000_0000_0000 && Padded(a) == Padded(b)
    ensures a == b
  {
    hide *;
    PaddedEnd(a);
    PaddedEnd(b);
    assert BigEndian(BitLength(a), 8) == BigEndian(BitLength(b), 8);
    assert Padded(a)[..|a|] == Padded(b)[..|b|];
  }

  /** A padded message shows the length of the message, and begins with it. */
  lemma PaddedEnd(data: seq<byte>)
    requires |data| < 0x2000_0000_0000_0000
    ensures var p := Padded(data);
      && |data| + 9 <= |p| && p[..|data|] == data
      && p[|p| - 8..] == BigEndian(BitLength(data), 8) && BigEndianValue(BigEndian(BitLength(data), 8)) == 8 * |data|
  {
    hide Power256, BigEndian, ZeroCount, Zeros;
    EightBytes();
    BigEndianRoundTrip(8 * |data|, 8);
  }

  // ---------------------------------------------------------------------------
  // Constants
  // ---------------------------------------------------------------------------

  /** A word of the table, the prime it comes from, and the integer part of the cube root of that prime. */
  datatype RoundConstant = RoundConstant(word: bv32, prime: nat, root: nat)

  function Constant(t: nat): RoundConstant
    requires t < 64
  {
    match t
    case 0 => RoundConstant(0x428a2f98, 2, 1)
    case 1 => RoundConstant(0x71374491, 3, 1)
    case 2 => RoundConstant(0xb5c0fbcf, 5, 1)
    case 3 => RoundConstant(0xe9b5dba5, 7, 1)
    case 4 => RoundConstant(0x3956c25b, 11, 2)
    case 5 => RoundConstant(0x59f111f1, 13, 2)
    case 6 => RoundConstant(0x923f82a4, 17, 2)
    case 7 => RoundConstant(0xab1c5ed5, 19, 2)
    case 8 => RoundConstant(0xd807aa98, 23, 2)
    case 9 => RoundConstant(0x12835b01, 29, 3)
    case 10 => RoundConstant(0x243185be, 31, 3)
    case 11 => RoundConstant(0x550c7dc3, 37, 3)
    case 12 => RoundConstant(0x72be5d74, 41, 3)
    case 13 => RoundConstant(0x80deb1fe, 43, 3)
    case 14 => RoundConstant(0x9bdc06a7, 47, 3)
    case 15 => RoundConstant(0xc19bf174, 53, 3)
    case 16 => RoundConstant(0xe49b69c1, 59, 3)
    case 17 => RoundConstant(0xefbe4786, 61, 3)
    case 18 => RoundConstant(0x0fc19dc6, 67, 4)
    case 19 => RoundConstant(0x240ca1cc, 71, 4)
    case 20 => RoundConstant(0x2de92c6f, 73, 4)
    case 21 => RoundConstant(0x4a7484aa, 79, 4)
    case 22 => RoundConstant(0x5cb0a9dc, 83, 4)
    case 23 => RoundConstant(0x76f988da, 89, 4)
    case 24 => RoundConstant(0x983e5152, 97, 4)
    case 25 => RoundConstant(0xa831c66d, 101, 4)
    case 26 => RoundConstant(0xb00327c8, 103, 4)
    case 27 => RoundConstant(0xbf597fc7, 107, 4)
    case 28 => RoundConstant(0xc6e00bf3, 109, 4)
    case 29 => RoundConstant(0xd5a79147, 113, 4)
    case 30 => RoundConstant(0x06ca6351, 127, 5)
    case 31 => RoundConstant(0x14292967, 131, 5)
    case 32 => RoundConstant(0x27b70a85, 137, 5)
    case 33 => RoundConstant(0x2e1b2138, 139, 5)
    case 34 => RoundConstant(0x4d2c6dfc, 149, 5)
    case 35 => RoundConstant(0x53380d13, 151, 5)
    case 36 => RoundConstant(0x650a7354, 157, 5)
    case 37 => RoundConstant(0x766a0abb, 163, 5)
    case 38 => RoundConstant(0x81c2c92e, 167, 5)
    case 39 => RoundConstant(0x92722c85, 173, 5)
    case 40 => RoundConstant(0xa2bfe8a1, 179, 5)
    case 41 => RoundConstant(0xa81a664b, 181, 5)
    case 42 => RoundConstant(0xc24b8b70, 191, 5)
    case 43 => RoundConstant(0xc76c51a3, 193, 5)
    case 44 => RoundConstant(0xd192e819, 197, 5)
    case 45 => RoundConstant(0xd6990624, 199, 5)
    case 46 => RoundConstant(0xf40e3585, 211, 5)
    case 47 => RoundConstant(0x106aa070, 223, 6)
    case 48 => RoundConstant(0x19a4c116, 227, 6)
    case 49 => RoundConstant(0x1e376c08, 229, 6)
    case 50 => RoundConstant(0x2748774c, 233, 6)
    case 51 => RoundConstant(0x34b0bcb5, 239, 6)
    case 52 => RoundConstant(0x391c0cb3, 241, 6)
    case 53 => RoundConstant(0x4ed8aa4a, 251, 6)
    case 54 => RoundConstant(0x5b9cca4f, 257, 6)
    case 55 => RoundConstant(0x682e6ff3, 263, 6)
    case 56 => RoundConstant(0x748f82ee, 269, 6)
    case 57 => RoundConstant(0x78a5636f, 271, 6)
    case 58 => RoundConstant(0x84c87814, 277, 6)
    case 59 => RoundConstant(0x8cc70208, 281, 6)
    case 60 => RoundConstant(0x90befffa, 283, 6)
    case 61 => RoundConstant(0xa4506ceb, 293, 6)
    case 62 => RoundConstant(0xbef9a3f7, 307, 6)
    case _ => RoundConstant(0xc67178f2, 311, 6)
  }

  function K(): (k: seq<bv32>)
    ensures |k| == 64
  {
    seq(64, t requires 0 <= t < 64 => Constant(t).word)
  }

  /** The eight working variables, or the eight words of a hash value. */
  datatype Words = Words(a: bv32, b: bv32, c: bv32, d: bv32, e: bv32, f: bv32, g: bv32, h: bv32)

  function InitialHash(): Words {
    Words(0x6a09e667, 0xbb67ae85, 0x3c6ef372, 0xa54ff53a, 0x510e527f, 0x9b05688c, 0x1f83d9ab, 0x5be0cd19)
  }

  /** The first 32 bits of the fractional part of the square root of `p`, where `i` is its integer part. */
  predicate IsSquareRootFraction(word: int, p: nat, i: nat) {
    var x := i * 0x1_0000_0000 + word;
    i * i <= p < (i + 1) * (i + 1) && x * x <= p * 0x1_0000_0000_0000_0000 < (x + 1) * (x + 1)
  }

  lemma InitialHashIsSquareRoots()
    ensures var h := InitialHash();
      && IsSquareRootFraction(h.a as int, 2, 1) && IsSquareRootFraction(h.b as int, 3, 1)
      && IsSquareRootFraction(h.c as int, 5, 2) && IsSquareRootFraction(h.d as int, 7, 2)
      && IsSquareRootFraction(h.e as int, 11, 3) && IsSquareRootFraction(h.f as int, 13, 3)
      && IsSquareRootFraction(h.g as int, 17, 4) && IsSquareRootFraction(h.h as int, 19, 4)
  {
  }

  /** The first 32 bits of the fractional part of the cube root of `p`, where `i` is its integer part. */
  predicate IsCubeRootFraction(word: int, p: nat, i: nat) {
    var x := i * 0x1_0000_0000 + word;
    && i * i * i <= p < (i + 1) * (i + 1) * (i + 1)
    && x * x * x <= p * 0x1_0000_0000_0000_0000_0000_0000 < (x + 1) * (x + 1) * (x + 1)
  }

  /** The words of the table are the first 32 bits of the fractional parts of the cube roots of its numbers. */
  lemma ConstantsAreCubeRoots(t: nat)
    requires t < 64
    ensures IsCubeRootFraction(K()[t] as int, Constant(t).prime, Constant(t).root)
  {
    hide IsCubeRootFraction, Constant;
    match t / 8 {
      case 0 => CubeRoots0(t);
      case 1 => CubeRoots1(t);
      case 2 => CubeRoots2(t);
      case 3 => CubeRoots3(t);
      case 4 => CubeRoots4(t);
      case 5 => CubeRoots5(t);
      case 6 => CubeRoots6(t);
      case _ => CubeRoots7(t);
    }
  }

  lemma CubeRoots0(t: nat)
    requires 0 <= t < 8
    ensures IsCubeRootFraction(Constant(t).word as int, Constant(t).prime, Constant(t).root)
  {
    match t {
      case 0 => assert IsCubeRootFraction(0x428a2f98, 2, 1);
      case 1 => assert IsCubeRootFraction(0x71374491, 3, 1);
      case 2 => assert IsCubeRootFraction(0xb5c0fbcf, 5, 1);
      case 3 => assert IsCubeRootFraction(0xe9b5dba5, 7, 1);
      case 4 => assert IsCubeRootFraction(0x3956c25b, 11, 2);
      case 5 => assert IsCubeRootFraction(0x59f111f1, 13, 2);
      case 6 => assert IsCubeRootFraction(0x923f82a4, 17, 2);
      case 7 => assert IsCubeRootFraction(0xab1c5ed5, 19, 2);
    }
    hide IsCubeRootFraction;
  }

  lemma CubeRoots1(t: nat)
    requires 8 <= t < 16
    ensures IsCubeRootFraction(Constant(t).word as int, Constant(t).prime, Constant(t).root)
  {
    match t {
      case 8 => assert IsCubeRootFraction(0xd807aa98, 23, 2);
      case 9 => assert IsCubeRootFraction(0x12835b01, 29, 3);
      case 10 => assert IsCubeRootFraction(0x243185be, 31, 3);
      case 11 => assert IsCubeRootFraction(0x550c7dc3, 37, 3);
      case 12 => assert IsCubeRootFraction(0x72be5d74, 41, 3);
      case 13 => assert IsCubeRootFraction(0x80deb1fe, 43, 3);
      case 14 => assert IsCubeRootFraction(0x9bdc06a7, 47, 3);
      case 15 => assert IsCubeRootFraction(0xc19bf174, 53, 3);
    }
    hide IsCubeRootFraction;
  }

  lemma CubeRoots2(t: nat)
    requires 16 <= t < 24
    ensures IsCubeRootFraction(Constant(t).word as int, Constant(t).prime, Constant(t).root)
  {
    match t {
      case 16 => assert IsCubeRootFraction(0xe49b69c1, 59, 3);
      case 17 => assert IsCubeRootFraction(0xefbe4786, 61, 3);
      case 18 => assert IsCubeRootFraction(0x0fc19dc6, 67, 4);
      case 19 => assert IsCubeRootFraction(0x240ca1cc, 71, 4);
      case 20 => assert IsCubeRootFraction(0x2de92c6f, 73, 4);
      case 21 => assert IsCubeRootFraction(0x4a7484aa, 79, 4);
      case 22 => assert IsCubeRootFraction(0x5cb0a9dc, 83, 4);
      case 23 => assert IsCubeRootFraction(0x76f988da, 89, 4);
    }
    hide IsCubeRootFraction;
  }

  lemma CubeRoots3(t: nat)
    requires 24 <= t < 32
    ensures IsCubeRootFraction(Constant(t).word as int, Constant(t).prime, Constant(t).root)
  {
    match t {
      case 24 => assert IsCubeRootFraction(0x983e5152, 97, 4);
      case 25 => assert IsCubeRootFraction(0xa831c66d, 101, 4);
      case 26 => assert IsCubeRootFraction(0xb00327c8, 103, 4);
      case 27 => assert IsCubeRootFraction(0xbf597fc7, 107, 4);
      case 28 => assert IsCubeRootFraction(0xc6e00bf3, 109, 4);
      case 29 => assert IsCubeRootFraction(0xd5a79147, 113, 4);
      case 30 => assert IsCubeRootFraction(0x06ca6351, 127, 5);
      case 31 => assert IsCubeRootFraction(0x14292967, 131, 5);
    }
    hide IsCubeRootFraction;
  }

  lemma CubeRoots4(t: nat)
    requires 32 <= t < 40
    ensures IsCubeRootFraction(Constant(t).word as int, Constant(t).prime, Constant(t).root)
  {
    match t {
      case 32 => assert IsCubeRootFraction(0x27b70a85, 137, 5);
      case 33 => assert IsCubeRootFraction(0x2e1b2138, 139, 5);
      case 34 => assert IsCubeRootFraction(0x4d2c6dfc, 149, 5);
      case 35 => assert IsCubeRootFraction(0x53380d13, 151, 5);
      case 36 => assert IsCubeRootFraction(0x650a7354, 157, 5);
      case 37 => assert IsCubeRootFraction(0x766a0abb, 163, 5);
      case 38 => assert IsCubeRootFraction(0x81c2c92e, 167, 5);
      case 39 => assert IsCubeRootFraction(0x92722c85, 173, 5);
    }
    hide IsCubeRootFraction;
  }

  lemma CubeRoots5(t: nat)
    requires 40 <= t < 48
    ensures IsCubeRootFraction(Constant(t).word as int, Constant(t).prime, Constant(t).root)
  {
    match t {
      case 40 => assert IsCubeRootFraction(0xa2bfe8a1, 179, 5);
      case 41 => assert IsCubeRootFraction(0xa81a664b, 181, 5);
      case 42 => assert IsCubeRootFraction(0xc24b8b70, 191, 5);
      case 43 => assert IsCubeRootFraction(0xc76c51a3, 193, 5);
      case 44 => assert IsCubeRootFraction(0xd192e819, 197, 5);
      case 45 => assert IsCubeRootFraction(0xd6990624, 199, 5);
      case 46 => assert IsCubeRootFraction(0xf40e3585, 211, 5);
      case 47 => assert IsCubeRootFraction(0x106aa070, 223, 6);
    }
    hide IsCubeRootFraction;
  }

  lemma CubeRoots6(t: nat)
    requires 48 <= t < 56
    ensures IsCubeRootFraction(Constant(t).word as int, Constant(t).prime, Constant(t).root)
  {
    match t {
      case 48 => assert IsCubeRootFraction(0x19a4c116, 227, 6);
      case 49 => assert IsCubeRootFraction(0x1e376c08, 229, 6);
      case 50 => assert IsCubeRootFraction(0x2748774c, 233, 6);
      case 51 => assert IsCubeRootFraction(0x34b0bcb5, 239, 6);
      case 52 => assert IsCubeRootFraction(0x391c0cb3, 241, 6);
      case 53 => assert IsCubeRootFraction(0x4ed8aa4a, 251, 6);
      case 54 => assert IsCubeRootFraction(0x5b9cca4f, 257, 6);
      case 55 => assert IsCubeRootFraction(0x682e6ff3, 263, 6);
    }
    hide IsCubeRootFraction;
  }

  lemma CubeRoots7(t: nat)
    requires 56 <= t < 64
    ensures IsCubeRootFraction(Constant(t).word as int, Constant(t).prime, Constant(t).root)
  {
    match t {
      case 56 => assert IsCubeRootFraction(0x748f82ee, 269, 6);
      case 57 => assert IsCubeRootFraction(0x78a5636f, 271, 6);
      case 58 => assert IsCubeRootFraction(0x84c87814, 277, 6);
      case 59 => assert IsCubeRootFraction(0x8cc70208, 281, 6);
      case 60 => assert IsCubeRootFraction(0x90befffa, 283, 6);
      case 61 => assert IsCubeRootFraction(0xa4506ceb, 293, 6);
      case 62 => assert IsCubeRootFraction(0xbef9a3f7, 307, 6);
      case 63 => assert IsCubeRootFraction(0xc67178f2, 311, 6);
    }
    hide IsCubeRootFraction;
  }

  predicate Divides(d: nat, n: nat)
    requires d > 0
  {
    n % d == 0
  }

  predicate IsPrime(n: nat) {
    n >= 2 && forall d :: 2 <= d < n ==> !Divides(d, n)
  }

  function PrimesBelow(n: nat): nat {
    if n == 0 then 0 else PrimesBelow(n - 1) + if IsPrime(n - 1) then 1 else 0
  }

  /** The primes of the table are the first 64: each is a prime, and the table lists all the smaller ones before it. */
  lemma {:induction false} TableListsThePrimes(t: nat)
    requires t < 64
    ensures IsPrime(Constant(t).prime) && PrimesBelow(Constant(t).prime) == t
  {
    hide Constant, IsPrime, Sieved, NoneSieved, PrimesBelow;
    if t == 0 {
      FirstPrime();
    } else {
      TableListsThePrimes(t - 1);
      NextPrime(t);
      var p, q := Constant(t - 1).prime, Constant(t).prime;
      SievedIsPrime(q);
      OnePrimeMore(p);
      NoPrimesBetween(p + 1, q);
    }
  }

  lemma FirstPrime()
    ensures IsPrime(Constant(0).prime) && PrimesBelow(Constant(0).prime) == 0
  {
    assert !IsPrime(0) && !IsPrime(1);
    assert PrimesBelow(1) == 0;
  }

  lemma OnePrimeMore(p: nat)
    requires IsPrime(p)
    ensures PrimesBelow(p + 1) == PrimesBelow(p) + 1
  {
    hide IsPrime;
  }

  lemma {:induction false} NoPrimesBetween(m: nat, n: nat)
    requires m <= n <= 312 && NoneSieved(m, n)
    ensures PrimesBelow(n) == PrimesBelow(m)
    decreases n - m
  {
    hide IsPrime, Sieved, PrimesBelow;
    if m < n {
      SievedIsPrime(m);
      NoPrimesBetween(m + 1, n);
      NotOneMore(m);
    }
  }

  lemma NotOneMore(n: nat)
    requires !IsPrime(n)
    ensures PrimesBelow(n + 1) == PrimesBelow(n)
  {
    hide IsPrime;
  }

  /** No multiple of a prime up to 17, except for that prime itself. */
  predicate Sieved(n: nat) {
    && n >= 2 && (n % 2 != 0 || n == 2) && (n % 3 != 0 || n == 3) && (n % 5 != 0 || n == 5) && (n % 7 != 0 || n == 7)
    && (n % 11 != 0 || n == 11) && (n % 13 != 0 || n == 13) && (n % 17 != 0 || n == 17)
  }

  predicate NoneSieved(m: nat, n: nat)
    decreases n - m
  {
    m >= n || (!Sieved(m) && NoneSieved(m + 1, n))
  }

  /** Below 18 * 18 the sieve leaves exactly the primes. */
  lemma SievedIsPrime(n: nat)
    requires n < 324
    ensures Sieved(n) <==> IsPrime(n)
  {
    if Sieved(n) {
      forall d | 2 <= d < n
        ensures !Divides(d, n)
      {
        if Divides(d, n) {
          SievedHasNoDivisor(n, d, n / d);
        }
      }
    } else if n >= 2 {
      var r := if n % 2 == 0 && n != 2 then 2 else if n % 3 == 0 && n != 3 then 3 else if n % 5 == 0 && n != 5 then 5
               else if n % 7 == 0 && n != 7 then 7 else if n % 11 == 0 && n != 11 then 11
               else if n % 13 == 0 && n != 13 then 13 else 17;
      assert Divides(r, n);
    }
  }

  lemma SievedHasNoDivisor(n: nat, d: nat, q: nat)
    requires n < 324 && 2 <= d < n && n == d * q
    ensures !Sieved(n)
  {
    hide Sieved;
    Factors(d, q);
    if d < 18 {
      SmallDivisor(n, d, q);
    } else {
      SmallDivisor(n, q, d);
    }
  }

  lemma Factors(d: nat, q: nat)
    requires 2 <= d < d * q < 324
    ensures 2 <= q < d * q && (d < 18 || q < 18)
  {
    if d >= 18 && q >= 18 {
      BothLarge(d, q);
      assert false;
    }
  }

  lemma BothLarge(d: nat, q: nat)
    requires d >= 18 && q >= 18
    ensures d * q >= 324
  {
    assert d * q >= 18 * q;
  }

  lemma SmallDivisor(n: nat, d: nat, q: nat)
    requires n == d * q && 2 <= d < 18 && d < n
    ensures !Sieved(n)
  {
    hide Sieved;
    var r, k := SmallFactor(d);
    assert n == r * (k * q);
    MultipleIsNotSieved(n, r, k * q);
  }

  lemma SmallFactor(d: nat) returns (r: nat, k: nat)
    requires 2 <= d < 18
    ensures r in {2, 3, 5, 7, 11, 13, 17} && r <= d == r * k
  {
    if d % 2 == 0 {
      r, k := 2, d / 2;
    } else if d % 3 == 0 {
      r, k := 3, d / 3;
    } else {
      r, k := d, 1;
    }
  }

  lemma MultipleIsNotSieved(n: nat, r: nat, k: nat)
    requires r in {2, 3, 5, 7, 11, 13, 17} && n == r * k && n > r
    ensures !Sieved(n)
  {
    RemainderIsZero(r, k);
    assert n % r == 0;
  }

  lemma RemainderIsZero(r: nat, k: nat)
    requires r > 0
    ensures r * k % r == 0
  {
    NextMultiple(r, k - r * k / r);
  }

  lemma NextMultiple(r: nat, k: int)
    ensures if k > 0 then r * k >= r else r * k <= 0
  {
  }

  lemma NextPrime(t: nat)
    requires 0 < t < 64
    ensures var p, q := Constant(t - 1).prime, Constant(t).prime;
      p < q < 312 && Sieved(q) && NoneSieved(p + 1, q)
  {
    hide Constant, Sieved, NoneSieved;
    match t / 8 {
      case 0 => NextPrimes0(t);
      case 1 => NextPrimes1(t);
      case 2 => NextPrimes2(t);
      case 3 => NextPrimes3(t);
      case 4 => NextPrimes4(t);
      case 5 => NextPrimes5(t);
      case 6 => NextPrimes6(t);
      case _ => NextPrimes7(t);
    }
  }

  lemma NextPrimes0(t: nat)
    requires 1 <= t < 8
    ensures var p, q := Constant(t - 1).prime, Constant(t).prime;
      p < q < 312 && Sieved(q) && NoneSieved(p + 1, q)
  {
    assert Sieved(3) && NoneSieved(3, 3);
    assert Sieved(5) && NoneSieved(4, 5);
    assert Sieved(7) && NoneSieved(6, 7);
    assert Sieved(11) && NoneSieved(8, 11);
    assert Sieved(13) && NoneSieved(12, 13);
    assert Sieved(17) && NoneSieved(14, 17);
    assert Sieved(19) && NoneSieved(18, 19);
    hide Sieved, NoneSieved;
  }

  lemma NextPrimes1(t: nat)
    requires 8 <= t < 16
    ensures var p, q := Constant(t - 1).prime, Constant(t).prime;
      p < q < 312 && Sieved(q) && NoneSieved(p + 1, q)
  {
    assert Sieved(23) && NoneSieved(20, 23);
    assert Sieved(29) && NoneSieved(24, 29);
    assert Sieved(31) && NoneSieved(30, 31);
    assert Sieved(37) && NoneSieved(32, 37);
    assert Sieved(41) && NoneSieved(38, 41);
    assert Sieved(43) && NoneSieved(42, 43);
    assert Sieved(47) && NoneSieved(44, 47);
    assert Sieved(53) && NoneSieved(48, 53);
    hide Sieved, NoneSieved;
  }

  lemma NextPrimes2(t: nat)
    requires 16 <= t < 24
    ensures var p, q := Constant(t - 1).prime, Constant(t).prime;
      p < q < 312 && Sieved(q) && NoneSieved(p + 1, q)
  {
    assert Sieved(59) && NoneSieved(54, 59);
    assert Sieved(61) && NoneSieved(60, 61);
    assert Sieved(67) && NoneSieved(62, 67);
    assert Sieved(71) && NoneSieved(68, 71);
    assert Sieved(73) && NoneSieved(72, 73);
    assert Sieved(79) && NoneSieved(74, 79);
    assert Sieved(83) && NoneSieved(80, 83);
    assert Sieved(89) && NoneSieved(84, 89);
    hide Sieved, NoneSieved;
  }

  lemma NextPrimes3(t: nat)
    requires 24 <= t < 32
    ensures var p, q := Constant(t - 1).prime, Constant(t).prime;
      p < q < 312 && Sieved(q) && NoneSieved(p + 1, q)
  {
    assert Sieved(97) && NoneSieved(90, 97);
    assert Sieved(101) && NoneSieved(98, 101);
    assert Sieved(103) && NoneSieved(102, 103);
    assert Sieved(107) && NoneSieved(104, 107);
    assert Sieved(109) && NoneSieved(108, 109);
    assert Sieved(113) && NoneSieved(110, 113);
    assert Sieved(127) && NoneSieved(114, 127);
    assert Sieved(131) && NoneSieved(128, 131);
    hide Sieved, NoneSieved;
  }

  lemma NextPrimes4(t: nat)
    requires 32 <= t < 40
    ensures var p, q := Constant(t - 1).prime, Constant(t).prime;
      p < q < 312 && Sieved(q) && NoneSieved(p + 1, q)
  {
    assert Sieved(137) && NoneSieved(132, 137);
    assert Sieved(139) && NoneSieved(138, 139);
    assert Sieved(149) && NoneSieved(140, 149);
    assert Sieved(151) && NoneSieved(150, 151);
    assert Sieved(157) && NoneSieved(152, 157);
    assert Sieved(163) && NoneSieved(158, 163);
    assert Sieved(167) && NoneSieved(164, 167);
    assert Sieved(173) && NoneSieved(168, 173);
    hide Sieved, NoneSieved;
  }

  lemma NextPrimes5(t: nat)
    requires 40 <= t < 48
    ensures var p, q := Constant(t - 1).prime, Constant(t).prime;
      p < q < 312 && Sieved(q) && NoneSieved(p + 1, q)
  {
    assert Sieved(179) && NoneSieved(174, 179);
    assert Sieved(181) && NoneSieved(180, 181);
    assert Sieved(191) && NoneSieved(182, 191);
    assert Sieved(193) && NoneSieved(192, 193);
    assert Sieved(197) && NoneSieved(194, 197);
    assert Sieved(199) && NoneSieved(198, 199);
    assert Sieved(211) && NoneSieved(200, 211);
    assert Sieved(223) && NoneSieved(212, 223);
    hide Sieved, NoneSieved;
  }

  lemma NextPrimes6(t: nat)
    requires 48 <= t < 56
    ensures var p, q := Constant(t - 1).prime, Constant(t).prime;
      p < q < 312 && Sieved(q) && NoneSieved(p + 1, q)
  {
    assert Sieved(227) && NoneSieved(224, 227);
    assert Sieved(229) && NoneSieved(228, 229);
    assert Sieved(233) && NoneSieved(230, 233);
    assert Sieved(239) && NoneSieved(234, 239);
    assert Sieved(241) && NoneSieved(240, 241);
    assert Sieved(251) && NoneSieved(242, 251);
    assert Sieved(257) && NoneSieved(252, 257);
    assert Sieved(263) && NoneSieved(258, 263);
    hide Sieved, NoneSieved;
  }

  lemma NextPrimes7(t: nat)
    requires 56 <= t < 64
    ensures var p, q := Constant(t - 1).prime, Constant(t).prime;
      p < q < 312 && Sieved(q) && NoneSieved(p + 1, q)
  {
    assert Sieved(269) && NoneSieved(264, 269);
    assert Sieved(271) && NoneSieved(270, 271);
    assert Sieved(277) && NoneSieved(272, 277);
    assert Sieved(281) && NoneSieved(278, 281);
    assert Sieved(283) && NoneSieved(282, 283);
    assert Sieved(293) && NoneSieved(284, 293);
    assert Sieved(307) && NoneSieved(294, 307);
    assert Sieved(311) && NoneSieved(308, 311);
    hide Sieved, NoneSieved;
  }

  // ---------------------------------------------------------------------------
  // The hash
  // ---------------------------------------------------------------------------

  /** Addition modulo 2^32. */
  function Add(x: bv32, y: bv32): bv32 { x + y }

  function Ch(x: bv32, y: bv32, z: bv32): bv32 { (x & y) ^ (!x & z) }

  function Maj(x: bv32, y: bv32, z: bv32): bv32 { (x & y) ^ (x & z) ^ (y & z) }

  function BigSigma0(x: bv32): bv32 { x.RotateRight(2) ^ x.RotateRight(13) ^ x.RotateRight(22) }

  function BigSigma1(x: bv32): bv32 { x.RotateRight(6) ^ x.RotateRight(11) ^ x.RotateRight(25) }

  function SmallSigma0(x: bv32): bv32 { x.RotateRight(7) ^ x.RotateRight(18) ^ (x >> 3) }

  function SmallSigma1(x: bv32): bv32 { x.RotateRight(17) ^ x.RotateRight(19) ^ (x >> 10) }

  function WordOf(b0: byte, b1: byte, b2: byte, b3: byte): bv32 {
    ((b0 as bv32) << 24) | ((b1 as bv32) << 16) | ((b2 as bv32) << 8) | (b3 as bv32)
  }

  /** Word `t` of the message schedule for the block that begins at `at`. */
  function W(msg: seq<byte>, at: nat, t: nat): bv32
    requires at + 64 <= |msg|
  {
    if t < 16 then WordOf(msg[at + 4 * t], msg[at + 4 * t + 1], msg[at + 4 * t + 2], msg[at + 4 * t + 3])
    else
      Add(Add(Add(SmallSigma1(W(msg, at, t - 2)), W(msg, at, t - 7)), SmallSigma0(W(msg, at, t - 15))),
          W(msg, at, t - 16))
  }

  function Round(v: Words, k: bv32, w: bv32): Words {
    var t1 := Add(Add(Add(Add(v.h, BigSigma1(v.e)), Ch(v.e, v.f, v.g)), k), w);
    var t2 := Add(BigSigma0(v.a), Maj(v.a, v.b, v.c));
    Words(Add(t1, t2), v.a, v.b, v.c, Add(v.d, t1), v.e, v.f, v.g)
  }

  /** The working variables after the first `t` rounds. */
  function Rounds(msg: seq<byte>, at: nat, v: Words, t: nat): Words
    requires at + 64 <= |msg| && t <= 64
  {
    if t == 0 then v else Round(Rounds(msg, at, v, t - 1), K()[t - 1], W(msg, at, t - 1))
  }

  function Plus(x: Words, y: Words): Words {
    Words(Add(x.a, y.a), Add(x.b, y.b), Add(x.c, y.c), Add(x.d, y.d),
          Add(x.e, y.e), Add(x.f, y.f), Add(x.g, y.g), Add(x.h, y.h))
  }

  /** The hash value after the first `n` blocks. */
  function HashValue(msg: seq<byte>, n: nat): Words
    requires 64 * n <= |msg|
  {
    if n == 0 then InitialHash()
    else
      var v := HashValue(msg, n - 1);
      Plus(Rounds(msg, 64 * (n - 1), v, 64), v)
  }

  // ---------------------------------------------------------------------------
  // The text
  // ---------------------------------------------------------------------------

  function HexDigit(d: nat): char
    requires d < 16
  {
    if d < 10 then '0' + d as char else 'a' + (d - 10) as char
  }

  /** The last `width` digits of a number in base 16, the most significant first. */
  function HexDigits(n: nat, width: nat): (r: string)
    ensures |r| == width
  {
    if width == 0 then "" else HexDigits(n / 16, width - 1) + [HexDigit(n % 16)]
  }

  function HexWord(w: bv32): string {
    HexDigits(w as nat, 8)
  }

  function Hex(words: seq<bv32>): string {
    if words == [] then "" else Hex(words[..|words| - 1]) + HexWord(words[|words| - 1])
  }

  function WordSeq(v: Words): seq<bv32> {
    [v.a, v.b, v.c, v.d, v.e, v.f, v.g, v.h]
  }

  /** The digest of a message, as text. */
  function Sha256Text(data: seq<byte>): string {
    PaddedLength(data);
    var msg := Padded(data);
    Hex(WordSeq(HashValue(msg, |msg| / 64)))
  }

  // ---------------------------------------------------------------------------
  // The program
  // ---------------------------------------------------------------------------

  lemma ScheduleStep(msg: seq<byte>, at: nat, t: nat)
    requires at + 64 <= |msg| && 16 <= t < 64
    ensures W(msg, at, t)
         == Add(Add(Add(W(msg, at, t - 16), SmallSigma0(W(msg, at, t - 15))), W(msg, at, t - 7)),
                SmallSigma1(W(msg, at, t - 2)))
  {
    hide Add, SmallSigma0, SmallSigma1, WordOf;
    SumOrder(W(msg, at, t - 16), SmallSigma0(W(msg, at, t - 15)), W(msg, at, t - 7), SmallSigma1(W(msg, at, t - 2)));
  }

  lemma SumOrder(p: bv32, q: bv32, r: bv32, s: bv32)
    ensures Add(Add(Add(p, q), r), s) == Add(Add(Add(s, r), q), p)
  {
    hide Add;
    AddCommutes(p, q);
    AddAssociates(q, p, r);
    AddCommutes(p, r);
    AddAssociates(q, r, p);
    AddCommutes(q, r);
    AddCommutes(Add(Add(r, q), p), s);
    AddAssociates(s, Add(r, q), p);
    AddAssociates(s, r, q);
  }

  lemma AddCommutes(x: bv32, y: bv32)
    ensures Add(x, y) == Add(y, x)
  {
  }

  lemma AddAssociates(x: bv32, y: bv32, z: bv32)
    ensures Add(Add(x, y), z) == Add(x, Add(y, z))
  {
    PlusAssociates(x, y, z);
    assert Add(x, y) == x + y && Add(y, z) == y + z;
    assert Add(x + y, z) == x + y + z && Add(x, y + z) == x + (y + z);
  }

  lemma PlusAssociates(x: bv32, y: bv32, z: bv32)
    ensures x + y + z == x + (y + z)
  {
  }

  lemma ScheduleStart(msg: seq<byte>, at: nat, t: nat)
    requires at + 64 <= |msg| && t < 16
    ensures W(msg, at, t) == WordOf(msg[at + 4 * t], msg[at + 4 * t + 1], msg[at + 4 * t + 2], msg[at + 4 * t + 3])
  {
    hide WordOf;
  }

  method FillSchedule(msg: seq<byte>, at: nat, w: array<bv32>)
    requires at + 64 <= |msg| && w.Length == 64
    modifies w
    ensures forall t :: 0 <= t < 64 ==> w[t] == W(msg, at, t)
  {
    hide *;
    for i := 0 to 16
      invariant forall t :: 0 <= t < i ==> w[t] == W(msg, at, t)
    {
      var idx := at + i * 4;
      ScheduleStart(msg, at, i);
      w[i] := WordOf(msg[idx], msg[idx + 1], msg[idx + 2], msg[idx + 3]);
    }
    for i := 16 to 64
      invariant forall t :: 0 <= t < i ==> w[t] == W(msg, at, t)
    {
      var s0 := SmallSigma0(w[i - 15]);
      var s1 := SmallSigma1(w[i - 2]);
      ScheduleStep(msg, at, i);
      w[i] := Add(Add(Add(w[i - 16], s0), w[i - 7]), s1);
    }
  }

  ghost function Value(h: array<bv32>): Words
    requires h.Length == 8
    reads h
  {
    Words(h[0], h[1], h[2], h[3], h[4], h[5], h[6], h[7])
  }

  /** The rotation of the eight registers is a round. */
  lemma RoundIs(v: Words, k: bv32, w: bv32, t1: bv32, t2: bv32)
    requires t1 == Add(Add(Add(Add(v.h, BigSigma1(v.e)), Ch(v.e, v.f, v.g)), k), w)
    requires t2 == Add(BigSigma0(v.a), Maj(v.a, v.b, v.c))
    ensures Words(Add(t1, t2), v.a, v.b, v.c, Add(v.d, t1), v.e, v.f, v.g) == Round(v, k, w)
  {
    hide Add, BigSigma0, BigSigma1, Ch, Maj;
  }

  lemma NextRound(msg: seq<byte>, at: nat, v: Words, t: nat)
    requires at + 64 <= |msg| && t < 64
    ensures Rounds(msg, at, v, 0) == v
    ensures Rounds(msg, at, v, t + 1) == Round(Rounds(msg, at, v, t), K()[t], W(msg, at, t))
  {
    hide Round, K, W;
  }

  lemma ValueIs(h: array<bv32>)
    requires h.Length == 8
    ensures Value(h) == Words(h[0], h[1], h[2], h[3], h[4], h[5], h[6], h[7])
  {
  }

  method Compress(ghost msg: seq<byte>, ghost at: nat, h: array<bv32>, w: array<bv32>)
    requires at + 64 <= |msg| && h.Length == 8 && w.Length == 64 && h != w
    requires forall t :: 0 <= t < 64 ==> w[t] == W(msg, at, t)
    modifies h
    ensures Value(h) == Plus(Rounds(msg, at, old(Value(h)), 64), old(Value(h)))
  {
    hide *;
    var k := K();
    var a, b, c, d := h[0], h[1], h[2], h[3];
    var e, f, g, hVal := h[4], h[5], h[6], h[7];
    ghost var start := Value(h);
    ValueIs(h);
    NextRound(msg, at, start, 0);
    for i := 0 to 64
      invariant Words(a, b, c, d, e, f, g, hVal) == Rounds(msg, at, start, i)
      invariant Value(h) == start
    {
      var s1 := BigSigma1(e);
      var ch := Ch(e, f, g);
      var temp1 := Add(Add(Add(Add(hVal, s1), ch), k[i]), w[i]);
      var s0 := BigSigma0(a);
      var maj := Maj(a, b, c);
      var temp2 := Add(s0, maj);
      RoundIs(Words(a, b, c, d, e, f, g, hVal), k[i], w[i], temp1, temp2);
      NextRound(msg, at, start, i);

      hVal := g;
      g := f;
      f := e;
      e := Add(d, temp1);
      d := c;
      c := b;
      b := a;
      a := Add(temp1, temp2);
    }
    AddTo(h, Words(a, b, c, d, e, f, g, hVal));
    PlusCommutes(start, Words(a, b, c, d, e, f, g, hVal));
  }

  lemma PlusCommutes(x: Words, y: Words)
    ensures Plus(x, y) == Plus(y, x)
  {
  }

  method AddTo(h: array<bv32>, v: Words)
    requires h.Length == 8
    modifies h
    ensures Value(h) == Plus(old(Value(h)), v)
  {
    hide Add;
    h[0] := Add(h[0], v.a);
    h[1] := Add(h[1], v.b);
    h[2] := Add(h[2], v.c);
    h[3] := Add(h[3], v.d);
    h[4] := Add(h[4], v.e);
    h[5] := Add(h[5], v.f);
    h[6] := Add(h[6], v.g);
    h[7] := Add(h[7], v.h);
  }

  method Sha256Hex(data: seq<byte>) returns (out: string)
    ensures out == Sha256Text(data)
  {
    hide Padded, W, Rounds, Plus, Hex, HexWord;
    var h := new bv32[] [
      0x6a09e667, 0xbb67ae85, 0x3c6ef372, 0xa54ff53a, 0x510e527f, 0x9b05688c, 0x1f83d9ab, 0x5be0cd19
    ];
    var msg := PadMessage(data);
    PaddedLength(data);
    for n := 0 to |msg| / 64
      invariant Value(h) == HashValue(msg, n)
    {
      var w := new bv32[64];
      FillSchedule(msg, 64 * n, w);
      Compress(msg, 64 * n, h, w);
    }
    out := Render(h);
  }

  method Render(h: array<bv32>) returns (out: string)
    requires h.Length == 8
    ensures out == Hex(WordSeq(Value(h)))
  {
    hide HexWord;
    out := "";
    for i := 0 to 8
      invariant out == Hex(h[..i])
    {
      assert h[..i + 1][..i] == h[..i];
      out := out + HexWord(h[i]);
    }
    assert h[..8] == WordSeq(Value(h));
  }

  // ---------------------------------------------------------------------------
  // The text determines the hash value
  // ---------------------------------------------------------------------------

  predicate IsHexDigit(c: char) { '0' <= c <= '9' || 'a' <= c <= 'f' }

  predicate AllHex(s: string) {
    forall i :: 0 <= i < |s| ==> IsHexDigit(s[i])
  }

  /** The number a digit stands for. */
  function DigitNumber(c: char): nat
    requires IsHexDigit(c)
  {
    if '0' <= c <= '9' then c as nat - '0' as nat else c as nat - 'a' as nat + 10
  }

  /** The number a text stands for in base 16. */
  function HexNumber(s: string): nat
    requires AllHex(s)
  {
    if s == "" then 0 else 16 * HexNumber(s[..|s| - 1]) + DigitNumber(s[|s| - 1])
  }

  lemma HexDigitNumber(d: nat)
    requires d < 16
    ensures IsHexDigit(HexDigit(d)) && DigitNumber(HexDigit(d)) == d
  {
  }

  lemma {:induction false} HexDigitsNumber(n: nat, width: nat)
    requires n < Power16(width)
    ensures AllHex(HexDigits(n, width)) && HexNumber(HexDigits(n, width)) == n
  {
    hide HexDigit, IsHexDigit, DigitNumber;
    if width > 0 {
      HexDigitsNumber(n / 16, width - 1);
      HexDigitNumber(n % 16);
      var s := HexDigits(n, width);
      assert s[..|s| - 1] == HexDigits(n / 16, width - 1);
    }
  }

  function Power16(k: nat): nat {
    if k == 0 then 1 else 16 * Power16(k - 1)
  }

  lemma EightDigits()
    ensures Power16(8) == 0x1_0000_0000
  {
    assert Power16(2) == 0x100;
    assert Power16(4) == 0x1_0000;
    assert Power16(6) == 0x100_0000;
  }

  /** Its text is the word in base 16, with eight digits. */
  lemma HexWordNumber(w: bv32)
    ensures |HexWord(w)| == 8 && AllHex(HexWord(w)) && HexNumber(HexWord(w)) == w as nat
  {
    EightDigits();
    HexDigitsNumber(w as nat, 8);
    hide HexDigits, Power16, HexNumber;
  }

  lemma HexWordIsInjective(v: bv32, w: bv32)
    requires HexWord(v) == HexWord(w)
    ensures v == w
  {
    hide HexWord;
    HexWordNumber(v);
    HexWordNumber(w);
    WordOfNumber(v);
    WordOfNumber(w);
  }

  lemma WordOfNumber(w: bv32)
    ensures (w as nat) as bv32 == w
  {
  }

  /** Different words have different texts; each word takes eight digits. */
  lemma {:induction false} HexIsInjective(a: seq<bv32>, b: seq<bv32>)
    requires Hex(a) == Hex(b)
    ensures a == b
    decreases |a|
  {
    hide HexWord;
    HexLength(a);
    HexLength(b);
    if a != [] {
      var n := |a| - 1;
      HexWordNumber(a[n]);
      HexWordNumber(b[n]);
      SplitEnd(Hex(a[..n]), HexWord(a[n]), Hex(b[..n]), HexWord(b[n]));
      HexWordIsInjective(a[n], b[n]);
      HexIsInjective(a[..n], b[..n]);
      assert a == a[..n] + [a[n]] && b == b[..n] + [b[n]];
    }
  }

  lemma {:induction false} HexLength(words: seq<bv32>)
    ensures |Hex(words)| == 8 * |words| && AllHex(Hex(words))
    decreases |words|
  {
    hide HexWord, IsHexDigit;
    if words != [] {
      HexLength(words[..|words| - 1]);
      HexWordNumber(words[|words| - 1]);
    }
  }

  /** Characters 8 * k to 8 * k + 7 of the text are word `k` in base 16. */
  lemma {:induction false} HexPart(words: seq<bv32>, k: nat)
    requires k < |words|
    ensures |Hex(words)| == 8 * |words| && Hex(words)[8 * k..8 * k + 8] == HexWord(words[k])
    decreases |words|
  {
    hide HexWord;
    HexLength(words);
    var n := |words| - 1;
    HexLength(words[..n]);
    HexWordNumber(words[n]);
    if k < n {
      HexPart(words[..n], k);
      assert Hex(words)[8 * k..8 * k + 8] == Hex(words[..n])[8 * k..8 * k + 8];
    } else {
      assert Hex(words)[8 * n..8 * n + 8] == HexWord(words[n]);
    }
  }

  /** Which number a digest shows: its characters 8 * k to 8 * k + 7 are word `k` of the hash value in base 16. */
  lemma DigestNumbers(data: seq<byte>, k: nat)
    requires k < 8
    ensures |Padded(data)| % 64 == 0 && |Sha256Text(data)| == 64 && AllHex(Sha256Text(data)[8 * k..8 * k + 8])
    ensures HexNumber(Sha256Text(data)[8 * k..8 * k + 8])
         == WordSeq(HashValue(Padded(data), |Padded(data)| / 64))[k] as nat
  {
    hide Padded, HashValue, Hex, HexWord, HexNumber, AllHex, WordSeq;
    PaddedLength(data);
    var words := WordSeq(HashValue(Padded(data), |Padded(data)| / 64));
    EightWords(HashValue(Padded(data), |Padded(data)| / 64));
    HexPart(words, k);
    HexWordNumber(words[k]);
  }

  lemma EightWords(v: Words)
    ensures |WordSeq(v)| == 8
  {
  }

  /** A digest is always 64 lower-case hexadecimal digits, and it shows the whole hash value. */
  lemma DigestText(data: seq<byte>)
    ensures |Sha256Text(data)| == 64 && forall i :: 0 <= i < 64 ==> IsHexDigit(Sha256Text(data)[i])
    ensures forall v :: Hex(WordSeq(v)) == Sha256Text(data) ==>
              |Padded(data)| % 64 == 0 && v == HashValue(Padded(data), |Padded(data)| / 64)
  {
    hide Padded, HashValue, Hex;
    PaddedLength(data);
    var msg := Padded(data);
    var h := HashValue(msg, |msg| / 64);
    HexLength(WordSeq(h));
    forall v | Hex(WordSeq(v)) == Sha256Text(data)
      ensures v == h
    {
      HexIsInjective(WordSeq(v), WordSeq(h));
      assert forall i :: 0 <= i < 8 ==> WordSeq(v)[i] == WordSeq(h)[i];
    }
  }
}
