/** Unsigned integers seen as strings of bits, the way Python's `^`, `&` and
    `>>` see them, and their reading as bytes. */
module Bits {

  newtype byte = x: int | 0 <= x < 256

  function Pow2(n: nat): (p: nat)
    ensures p > 0
  {
    if n == 0 then 1 else 2 * Pow2(n - 1)
  }

  lemma {:induction false} Pow2Adds(m: nat, n: nat)
    ensures Pow2(m + n) == Pow2(m) * Pow2(n)
  {
    if m > 0 { Pow2Adds(m - 1, n); }
  }

  /** Exclusive or, bit by bit and without a width. */
  function Xor(a: nat, b: nat): nat
    decreases a + b
  {
    if a == 0 && b == 0 then 0
    else 2 * Xor(a / 2, b / 2) + (if a % 2 == b % 2 then 0 else 1)
  }

  lemma {:induction false} XorZero(a: nat)
    ensures Xor(a, 0) == a && Xor(0, a) == a
  {
    if a > 0 { XorZero(a / 2); }
  }

  lemma {:induction false} XorSelf(a: nat)
    ensures Xor(a, a) == 0
  {
    if a > 0 { XorSelf(a / 2); }
  }

  lemma {:induction false} XorCommutes(a: nat, b: nat)
    ensures Xor(a, b) == Xor(b, a)
    decreases a + b
  {
    if a + b > 0 { XorCommutes(a / 2, b / 2); }
  }

  lemma {:induction false} XorAssociates(a: nat, b: nat, c: nat)
    ensures Xor(Xor(a, b), c) == Xor(a, Xor(b, c))
    decreases a + b + c
  {
    if a + b + c > 0 { XorAssociates(a / 2, b / 2, c / 2); }
  }

  /** (a ^ b) ^ (c ^ d) == (a ^ c) ^ (b ^ d) */
  lemma XorExchange(a: nat, b: nat, c: nat, d: nat)
    ensures Xor(Xor(a, b), Xor(c, d)) == Xor(Xor(a, c), Xor(b, d))
  {
    XorAssociates(a, b, Xor(c, d));
    XorAssociates(b, c, d);
    XorCommutes(b, c);
    XorAssociates(c, b, d);
    XorAssociates(a, c, Xor(b, d));
  }

  /** Exclusive or with a fixed mask is its own inverse. */
  lemma XorCancels(a: nat, m: nat)
    ensures Xor(Xor(a, m), m) == a
    ensures Xor(m, Xor(m, a)) == a
  {
    XorAssociates(a, m, m);
    XorAssociates(m, m, a);
    XorSelf(m);
    XorZero(a);
  }

  lemma XorInjective(a: nat, b: nat, m: nat)
    requires Xor(a, m) == Xor(b, m)
    ensures a == b
  {
    XorCancels(a, m);
    XorCancels(b, m);
  }

  lemma {:induction false} XorBound(a: nat, b: nat, k: nat)
    requires a < Pow2(k) && b < Pow2(k)
    ensures Xor(a, b) < Pow2(k)
  {
    if k > 0 { XorBound(a / 2, b / 2, k - 1); }
  }

  /** A mask whose bit k is set sets bit k of anything below it. */
  lemma {:induction false} XorSetsTopBit(a: nat, m: nat, k: nat)
    requires a < Pow2(k) <= m < Pow2(k + 1)
    ensures Pow2(k) <= Xor(a, m)
  {
    if k > 0 { XorSetsTopBit(a / 2, m / 2, k - 1); }
  }

  /** The lowest k bits of n, least significant first. */
  function ToBits(n: nat, k: nat): (s: seq<bool>)
    ensures |s| == k
  {
    if k == 0 then [] else [n % 2 == 1] + ToBits(n / 2, k - 1)
  }

  function FromBits(s: seq<bool>): nat {
    if s == [] then 0 else (if s[0] then 1 else 0) + 2 * FromBits(s[1..])
  }

  lemma {:induction false} FromBitsBound(s: seq<bool>)
    ensures FromBits(s) < Pow2(|s|)
  {
    if s != [] { FromBitsBound(s[1..]); }
  }

  lemma {:induction false} BitsReadBack(n: nat, k: nat)
    requires n < Pow2(k)
    ensures FromBits(ToBits(n, k)) == n
  {
    if k > 0 {
      BitsReadBack(n / 2, k - 1);
      assert ToBits(n, k)[1..] == ToBits(n / 2, k - 1);
    }
  }

  lemma {:induction false} FromBitsInjective(s: seq<bool>, t: seq<bool>)
    requires |s| == |t| && FromBits(s) == FromBits(t)
    ensures s == t
  {
    if s != [] {
      assert s[0] == t[0] && FromBits(s[1..]) == FromBits(t[1..]);
      FromBitsInjective(s[1..], t[1..]);
      assert s == [s[0]] + s[1..] && t == [t[0]] + t[1..];
    }
  }

  /** The lowest k bits of n in the opposite order, below the bits of `acc`. */
  function Reflect(n: nat, k: nat, acc: nat): nat {
    if k == 0 then acc else Reflect(n / 2, k - 1, 2 * acc + n % 2)
  }

  lemma DoubleAndBit(x: nat, bit: nat)
    requires bit < 2
    ensures (2 * x + bit) / 2 == x && (2 * x + bit) % 2 == bit
  {
  }

  function BitXor(x: nat, y: nat): (r: nat)
    requires x < 2 && y < 2
    ensures r < 2
  {
    if x == y then 0 else 1
  }

  lemma XorHalves(a: nat, b: nat)
    ensures Xor(a, b) / 2 == Xor(a / 2, b / 2) && Xor(a, b) % 2 == BitXor(a % 2, b % 2)
  {
    DoubleAndBit(Xor(a / 2, b / 2), BitXor(a % 2, b % 2));
  }

  lemma XorPlusBit(c: nat, d: nat, x: nat, y: nat)
    requires x < 2 && y < 2
    ensures Xor(2 * c + x, 2 * d + y) == 2 * Xor(c, d) + BitXor(x, y)
  {
    DoubleAndBit(c, x);
    DoubleAndBit(d, y);
  }

  lemma {:induction false} ReflectXor(a: nat, b: nat, k: nat, c: nat, d: nat)
    ensures Reflect(Xor(a, b), k, Xor(c, d)) == Xor(Reflect(a, k, c), Reflect(b, k, d))
    decreases k
  {
    if k > 0 {
      var x, y, ab, cd := 2 * c + a % 2, 2 * d + b % 2, Xor(a, b), Xor(c, d);
      ReflectXor(a / 2, b / 2, k - 1, x, y);
      XorHalves(a, b);
      XorPlusBit(c, d, a % 2, b % 2);
      assert Reflect(ab, k, cd) == Reflect(ab / 2, k - 1, 2 * cd + ab % 2);
    }
  }

  lemma ReflectBit(hi: nat, b: nat, k: nat, acc: nat)
    requires b < 2
    ensures Reflect(2 * hi + b, k + 1, acc) == Reflect(hi, k, 2 * acc + b)
  {
  }

  lemma ReflectNibble(hi: nat, b3: nat, b2: nat, b1: nat, b0: nat, k: nat, acc: nat)
    requires b3 < 2 && b2 < 2 && b1 < 2 && b0 < 2
    ensures Reflect(16 * hi + 8 * b3 + 4 * b2 + 2 * b1 + b0, k + 4, acc)
         == Reflect(hi, k, 16 * acc + 8 * b0 + 4 * b1 + 2 * b2 + b3)
  {
    ReflectBit(8 * hi + 4 * b3 + 2 * b2 + b1, b0, k + 3, acc);
    ReflectBit(4 * hi + 2 * b3 + b2, b1, k + 2, 2 * acc + b0);
    ReflectBit(2 * hi + b3, b2, k + 1, 4 * acc + 2 * b0 + b1);
    ReflectBit(hi, b3, k, 8 * acc + 4 * b0 + 2 * b1 + b2);
  }

  /** The leading bit becomes the trailing bit. */
  lemma {:induction false} ReflectTop(n: nat, h: nat, k: nat, acc: nat)
    requires n < Pow2(k) && h < 2
    ensures Reflect(h * Pow2(k) + n, k + 1, acc) == 2 * Reflect(n, k, acc) + h
    decreases k
  {
    if k > 0 {
      var m := h * Pow2(k) + n;
      assert m / 2 == h * Pow2(k - 1) + n / 2 && m % 2 == n % 2;
      ReflectTop(n / 2, h, k - 1, 2 * acc + n % 2);
    }
  }

  lemma {:induction false} ReflectOffset(n: nat, k: nat, acc: nat, d: nat)
    ensures Reflect(n, k, acc + d) == Reflect(n, k, acc) + d * Pow2(k)
    decreases k
  {
    if k > 0 {
      var half, next := n / 2, 2 * acc + n % 2;
      ReflectOffset(half, k - 1, next, 2 * d);
      assert Reflect(n, k, acc + d) == Reflect(half, k - 1, next + 2 * d);
      assert Reflect(n, k, acc) == Reflect(half, k - 1, next);
      DoubleFactor(d, Pow2(k - 1));
    }
  }

  lemma DoubleFactor(a: nat, b: nat)
    ensures (2 * a) * b == a * (2 * b)
  {
  }

  lemma {:induction false} ReflectBound(n: nat, k: nat)
    ensures Reflect(n, k, 0) < Pow2(k)
  {
    if k > 0 {
      ReflectBound(n / 2, k - 1);
      if n % 2 == 1 { ReflectOffset(n / 2, k - 1, 0, 1); }
    }
  }

  /** The trailing bit becomes the leading bit. */
  lemma ReflectLow(n: nat, k: nat)
    requires k > 0
    ensures Reflect(n, k, 0) == (n % 2) * Pow2(k - 1) + Reflect(n / 2, k - 1, 0)
  {
    ReflectOffset(n / 2, k - 1, 0, n % 2);
  }

  lemma {:induction false} ReflectTwice(n: nat, k: nat)
    requires n < Pow2(k)
    ensures Reflect(Reflect(n, k, 0), k, 0) == n
  {
    if k > 0 {
      ReflectTwice(n / 2, k - 1);
      ReflectLow(n, k);
      ReflectBound(n / 2, k - 1);
      ReflectTop(Reflect(n / 2, k - 1, 0), n % 2, k - 1, 0);
    }
  }

  lemma {:induction false} ReflectOnes(k: nat)
    ensures Reflect(Pow2(k) - 1, k, 0) == Pow2(k) - 1
  {
    if k > 0 {
      ReflectOnes(k - 1);
      ReflectOffset(Pow2(k - 1) - 1, k - 1, 0, 1);
    }
  }

  /** `int.to_bytes(k, 'big')` of an integer that fits. */
  function ToBytes(n: nat, k: nat): (s: seq<byte>)
    ensures |s| == k
  {
    if k == 0 then [] else ToBytes(n / 256, k - 1) + [(n % 256) as byte]
  }

  /** `int.from_bytes(s, 'big')` */
  function FromBytes(s: seq<byte>): nat {
    if s == [] then 0 else FromBytes(s[..|s| - 1]) * 256 + s[|s| - 1] as nat
  }

  function Pow256(k: nat): nat {
    if k == 0 then 1 else 256 * Pow256(k - 1)
  }

  lemma {:induction false} Pow256IsPow2(k: nat)
    ensures Pow256(k) == Pow2(8 * k)
  {
    if k > 0 {
      Pow256IsPow2(k - 1);
      Pow2Adds(8, 8 * (k - 1));
    }
  }

  lemma {:induction false} BytesReadBack(n: nat, k: nat)
    requires n < Pow256(k)
    ensures FromBytes(ToBytes(n, k)) == n
  {
    if k > 0 {
      BytesReadBack(n / 256, k - 1);
      assert ToBytes(n, k)[..k - 1] == ToBytes(n / 256, k - 1);
    }
  }
}
