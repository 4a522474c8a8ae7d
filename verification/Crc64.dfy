/** CRC64-NVMe: the bit-by-bit reflected computation of scripts/irods/lib.py,
    and the unreflected computation the C++ hasher asks of boost::crc_basic. */
module Crc64 {

  import opened Bits

  const POLYNOMIAL: nat := 0x9a6c_9329_ac4b_c9b5
  const ONES: nat := 0xFFFF_FFFF_FFFF_FFFF
  const WORD: nat := 0x1_0000_0000_0000_0000

  datatype Result<T> = Ok(value: T) | Overflow

  // ------------------------------------------------------------- the register

  /** One turn of the inner loop, on an integer of any size. */
  function Step(c: nat): nat {
    if c % 2 == 1 then Xor(c / 2, POLYNOMIAL) else c / 2
  }

  function Steps(c: nat, n: nat): nat
    decreases n
  {
    if n == 0 then c else Steps(Step(c), n - 1)
  }

  /** The register after all of `data`, starting from `c`. */
  function Register(c: nat, data: seq<byte>): nat
    decreases data
  {
    if data == [] then c else Register(Steps(Xor(c, data[0] as nat), 8), data[1..])
  }

  function Crc(data: seq<byte>, initial: nat): nat {
    Xor(Register(Xor(initial, ONES), data), ONES)
  }

  method CalculateCrc64Nvme(data: seq<byte>, initialCrc: nat) returns (r: Result<seq<byte>>)
    ensures r.Ok? <==> Crc(data, initialCrc) < WORD
    ensures initialCrc < WORD ==> r.Ok?
    ensures r.Ok? ==> |r.value| == 8 && FromBytes(r.value) == Crc(data, initialCrc)
  {
    var crc: nat := Xor(initialCrc, ONES);
    for i := 0 to |data|
      invariant Register(crc, data[i..]) == Register(Xor(initialCrc, ONES), data)
    {
      assert data[i..][1..] == data[i + 1..];
      ghost var start := Xor(crc, data[i] as nat);
      crc := Xor(crc, data[i] as nat);
      for j := 0 to 8
        invariant Steps(crc, 8 - j) == Steps(start, 8)
      {
        if crc % 2 == 1 {
          crc := Xor(crc / 2, POLYNOMIAL);
        } else {
          crc := crc / 2;
        }
      }
    }
    crc := Xor(crc, ONES);
    if initialCrc < WORD {
      CrcFitsInWord(data, initialCrc);
    }
    if crc < WORD {
      WordWidth();
      BytesReadBack(crc, 8);
      return Ok(ToBytes(crc, 8));
    }
    return Overflow;
  }

  lemma WordWidth()
    ensures Pow2(63) == 0x8000_0000_0000_0000 && Pow2(64) == WORD && Pow256(8) == WORD
  {
    Pow2At8();
    Pow2Adds(8, 8);
    Pow2Adds(16, 16);
    Pow2Adds(32, 16);
    Pow2Adds(48, 8);
    Pow2Adds(56, 7);
    Pow2Adds(32, 32);
    Pow256IsPow2(8);
  }

  lemma Pow2At8()
    ensures Pow2(7) == 128 && Pow2(8) == 256
  {
  }

  // ----------------------------------------- the step keeps 64 bits, is linear, is injective

  lemma StepFits(c: nat)
    requires c < WORD
    ensures Step(c) < WORD
  {
    WordWidth();
    XorBound(c / 2, POLYNOMIAL, 64);
  }

  lemma {:induction false} StepsFit(c: nat, n: nat)
    requires c < WORD
    ensures Steps(c, n) < WORD
    decreases n
  {
    if n > 0 {
      StepFits(c);
      StepsFit(Step(c), n - 1);
    }
  }

  lemma {:induction false} RegisterFits(c: nat, data: seq<byte>)
    requires c < WORD
    ensures Register(c, data) < WORD
    decreases data
  {
    if data != [] {
      WordWidth();
      XorBound(c, data[0] as nat, 64);
      StepsFit(Xor(c, data[0] as nat), 8);
      RegisterFits(Steps(Xor(c, data[0] as nat), 8), data[1..]);
    }
  }

  lemma CrcFitsInWord(data: seq<byte>, initial: nat)
    requires initial < WORD
    ensures Xor(initial, ONES) < WORD
    ensures Register(Xor(initial, ONES), data) < WORD
    ensures Crc(data, initial) < WORD
  {
    WordWidth();
    XorBound(initial, ONES, 64);
    RegisterFits(Xor(initial, ONES), data);
    XorBound(Register(Xor(initial, ONES), data), ONES, 64);
  }

  lemma StepLinear(x: nat, y: nat)
    ensures Step(Xor(x, y)) == Xor(Step(x), Step(y))
  {
    FeedbackLinear(x, y, POLYNOMIAL);
  }

  /** Linearity does not depend on which polynomial is fed back. */
  lemma FeedbackLinear(x: nat, y: nat, m: nat)
    ensures (if Xor(x, y) % 2 == 1 then Xor(Xor(x, y) / 2, m) else Xor(x, y) / 2)
         == Xor(if x % 2 == 1 then Xor(x / 2, m) else x / 2, if y % 2 == 1 then Xor(y / 2, m) else y / 2)
  {
    var a, b := x / 2, y / 2;
    var p := if x % 2 == 1 then m else 0;
    var q := if y % 2 == 1 then m else 0;
    XorExchange(a, p, b, q);
    XorSelf(m);
    XorZero(m);
    XorZero(a);
    XorZero(b);
    XorZero(Xor(a, b));
  }

  lemma StepInjective(x: nat, y: nat)
    requires x < WORD && y < WORD && Step(x) == Step(y)
    ensures x == y
  {
    WordWidth();
    XorSetsTopBit(x / 2, POLYNOMIAL, 63);
    XorSetsTopBit(y / 2, POLYNOMIAL, 63);
    if x % 2 == 1 && y % 2 == 1 {
      XorInjective(x / 2, y / 2, POLYNOMIAL);
    }
  }

  lemma {:induction false} StepsLinear(x: nat, y: nat, n: nat)
    ensures Steps(Xor(x, y), n) == Xor(Steps(x, n), Steps(y, n))
    decreases n
  {
    if n > 0 {
      StepLinear(x, y);
      StepsLinear(Step(x), Step(y), n - 1);
    }
  }

  lemma {:induction false} StepsInjective(x: nat, y: nat, n: nat)
    requires x < WORD && y < WORD && Steps(x, n) == Steps(y, n)
    ensures x == y
    decreases n
  {
    if n > 0 {
      StepFits(x);
      StepFits(y);
      StepsInjective(Step(x), Step(y), n - 1);
      StepInjective(x, y);
    }
  }

  // ------------------------------------------------------ continuing a checksum

  lemma {:induction false} RegisterConcat(c: nat, a: seq<byte>, b: seq<byte>)
    ensures Register(c, a + b) == Register(Register(c, a), b)
    decreases a
  {
    if a == [] {
      assert a + b == b;
    } else {
      assert (a + b)[1..] == a[1..] + b;
      RegisterConcat(Steps(Xor(c, a[0] as nat), 8), a[1..], b);
    }
  }

  /** Starting the CRC of `b` from the CRC of `a`, read back from its eight
      bytes, gives the CRC of `a + b`. */
  lemma Incremental(a: seq<byte>, b: seq<byte>, initial: nat)
    requires initial < WORD
    ensures Crc(b, FromBytes(ToBytes(Crc(a, initial), 8))) == Crc(a + b, initial)
  {
    CrcFitsInWord(a, initial);
    WordWidth();
    BytesReadBack(Crc(a, initial), 8);
    RegisterConcat(Xor(initial, ONES), a, b);
    XorCancels(Register(Xor(initial, ONES), a), ONES);
  }

  // ------------------------------------------------------------------ affinity

  function XorBytes(x: seq<byte>, y: seq<byte>): (r: seq<byte>)
    requires |x| == |y|
    ensures |r| == |x|
  {
    if x == [] then [] else
      (Pow2At8(); XorBound(x[0] as nat, y[0] as nat, 8);
       [Xor(x[0] as nat, y[0] as nat) as byte] + XorBytes(x[1..], y[1..]))
  }

  lemma {:induction false} RegisterLinear(c: nat, d: nat, x: seq<byte>, y: seq<byte>)
    requires |x| == |y|
    ensures Register(Xor(c, d), XorBytes(x, y)) == Xor(Register(c, x), Register(d, y))
    decreases x
  {
    if x != [] {
      var a, b := x[0] as nat, y[0] as nat;
      XorExchange(c, d, a, b);
      StepsLinear(Xor(c, a), Xor(d, b), 8);
      assert XorBytes(x, y)[1..] == XorBytes(x[1..], y[1..]);
      RegisterLinear(Steps(Xor(c, a), 8), Steps(Xor(d, b), 8), x[1..], y[1..]);
    }
  }

  /** The difference of two checksums depends on the difference of the
      messages alone: neither the messages nor the starting value matter. */
  lemma Affine(x: seq<byte>, y: seq<byte>, initial: nat)
    requires |x| == |y|
    ensures Xor(Crc(x, initial), Crc(y, initial)) == Register(0, XorBytes(x, y))
  {
    var c := Xor(initial, ONES);
    RegisterLinear(c, c, x, y);
    XorSelf(c);
    XorExchange(Register(c, x), ONES, Register(c, y), ONES);
    XorSelf(ONES);
    XorZero(Xor(Register(c, x), Register(c, y)));
  }

  // -------------------------------------------------------- the message as bits

  /** The bits of a message in the order the register takes them in. */
  function MessageBits(data: seq<byte>): (s: seq<bool>)
    ensures |s| == 8 * |data|
  {
    if data == [] then [] else ToBits(data[0] as nat, 8) + MessageBits(data[1..])
  }

  /** A register fed one bit at a time. */
  function BitRun(c: nat, s: seq<bool>): nat
    decreases s
  {
    if s == [] then c else BitRun(Step(Xor(c, if s[0] then 1 else 0)), s[1..])
  }

  lemma {:induction false} BitRunConcat(c: nat, s: seq<bool>, t: seq<bool>)
    ensures BitRun(c, s + t) == BitRun(BitRun(c, s), t)
    decreases s
  {
    if s == [] {
      assert s + t == t;
    } else {
      assert (s + t)[1..] == s[1..] + t;
      BitRunConcat(Step(Xor(c, if s[0] then 1 else 0)), s[1..], t);
    }
  }

  lemma {:induction false} XorLowBit(b: nat, l: nat)
    requires b < 2
    ensures Xor(b, 2 * l) == b + 2 * l
  {
    XorZero(l);
  }

  /** Any run of bits acts as a single exclusive or of their packed value,
      followed by as many steps. */
  lemma {:induction false} BitRunPacks(c: nat, s: seq<bool>)
    ensures BitRun(c, s) == Steps(Xor(c, FromBits(s)), |s|)
    decreases s
  {
    if s == [] {
      XorZero(c);
    } else {
      var b, l := if s[0] then 1 else 0, FromBits(s[1..]);
      XorLowBit(b, l);
      XorAssociates(c, b, 2 * l);
      StepLinear(Xor(c, b), 2 * l);
      BitRunPacks(Step(Xor(c, b)), s[1..]);
    }
  }

  lemma {:induction false} RegisterIsBitRun(c: nat, data: seq<byte>)
    ensures Register(c, data) == BitRun(c, MessageBits(data))
    decreases data
  {
    if data != [] {
      var s := ToBits(data[0] as nat, 8);
      Pow2At8();
      BitsReadBack(data[0] as nat, 8);
      BitRunPacks(c, s);
      BitRunConcat(c, s, MessageBits(data[1..]));
      RegisterIsBitRun(Steps(Xor(c, data[0] as nat), 8), data[1..]);
    }
  }

  lemma {:induction false} MessageBitsInjective(a: seq<byte>, b: seq<byte>)
    requires |a| == |b| && MessageBits(a) == MessageBits(b)
    ensures a == b
  {
    if a != [] {
      Pow2At8();
      BitsReadBack(a[0] as nat, 8);
      BitsReadBack(b[0] as nat, 8);
      assert ToBits(a[0] as nat, 8) == MessageBits(a)[..8] == ToBits(b[0] as nat, 8);
      assert MessageBits(a[1..]) == MessageBits(a)[8..] == MessageBits(b[1..]);
      MessageBitsInjective(a[1..], b[1..]);
      assert a == [a[0]] + a[1..] && b == [b[0]] + b[1..];
    }
  }

  lemma BitFits(c: nat, b: nat)
    requires c < WORD && b < 2
    ensures Xor(c, b) < WORD
  {
    WordWidth();
    XorBound(c, b, 64);
  }

  lemma {:induction false} BitRunFits(c: nat, s: seq<bool>)
    requires c < WORD
    ensures BitRun(c, s) < WORD
    decreases s
  {
    if s != [] {
      var b := if s[0] then 1 else 0;
      BitFits(c, b);
      StepFits(Xor(c, b));
      BitRunFits(Step(Xor(c, b)), s[1..]);
    }
  }

  /** The same bits never bring two different registers together. */
  lemma {:induction false} BitRunInjective(c: nat, d: nat, s: seq<bool>)
    requires c < WORD && d < WORD && BitRun(c, s) == BitRun(d, s)
    ensures c == d
    decreases s
  {
    if s != [] {
      var b := if s[0] then 1 else 0;
      BitFits(c, b);
      BitFits(d, b);
      StepFits(Xor(c, b));
      StepFits(Xor(d, b));
      BitRunInjective(Step(Xor(c, b)), Step(Xor(d, b)), s[1..]);
      StepInjective(Xor(c, b), Xor(d, b));
      XorInjective(c, d, b);
    }
  }

  // ------------------------------------------------------------ burst detection

  lemma PackedFits(c: nat, s: seq<bool>)
    requires c < WORD && |s| <= 64
    ensures Xor(c, FromBits(s)) < WORD
  {
    WordWidth();
    FromBitsBound(s);
    Pow2Monotone(|s|, 64);
    XorBound(c, FromBits(s), 64);
  }

  lemma {:induction false} Pow2Monotone(m: nat, n: nat)
    requires m <= n
    ensures Pow2(m) <= Pow2(n)
    decreases n
  {
    if m < n { Pow2Monotone(m, n - 1); }
  }

  /** From one register, two different runs of at most 64 bits never meet. */
  lemma ShortRunsDiffer(c: nat, s: seq<bool>, t: seq<bool>)
    requires c < WORD && |s| == |t| <= 64 && BitRun(c, s) == BitRun(c, t)
    ensures s == t
  {
    BitRunPacks(c, s);
    BitRunPacks(c, t);
    PackedFits(c, s);
    PackedFits(c, t);
    StepsInjective(Xor(c, FromBits(s)), Xor(c, FromBits(t)), |s|);
    XorCommutes(c, FromBits(s));
    XorCommutes(c, FromBits(t));
    XorInjective(FromBits(s), FromBits(t), c);
    FromBitsInjective(s, t);
  }

  /** Two equal-length messages that differ only inside a window of at most 64
      consecutive bits, at any bit offset, have different checksums. */
  lemma BurstDetected(a: seq<byte>, b: seq<byte>, initial: nat, lo: nat, hi: nat)
    requires initial < WORD && |a| == |b| && a != b
    requires lo <= hi <= 8 * |a| && hi - lo <= 64
    requires MessageBits(a)[..lo] == MessageBits(b)[..lo]
    requires MessageBits(a)[hi..] == MessageBits(b)[hi..]
    ensures Crc(a, initial) != Crc(b, initial)
  {
    if Crc(a, initial) == Crc(b, initial) {
      var c := Xor(initial, ONES);
      CrcFitsInWord([], initial);
      XorInjective(Register(c, a), Register(c, b), ONES);
      RegisterIsBitRun(c, a);
      RegisterIsBitRun(c, b);
      RunsAgree(c, MessageBits(a), MessageBits(b), lo, hi);
      MessageBitsInjective(a, b);
      assert false;
    }
  }

  lemma {:induction false} MessageBitsConcat(a: seq<byte>, b: seq<byte>)
    ensures MessageBits(a + b) == MessageBits(a) + MessageBits(b)
  {
    if a == [] {
      assert a + b == b;
    } else {
      assert (a + b)[1..] == a[1..] + b;
      MessageBitsConcat(a[1..], b);
    }
  }

  /** In particular eight consecutive bytes may hold any difference. */
  lemma ByteBurstDetected(p: seq<byte>, x: seq<byte>, y: seq<byte>, q: seq<byte>, initial: nat)
    requires initial < WORD && |x| == |y| <= 8 && x != y
    ensures Crc(p + x + q, initial) != Crc(p + y + q, initial)
  {
    var a, b := p + x + q, p + y + q;
    var lo, hi := 8 * |p|, 8 * (|p| + |x|);
    MessageBitsConcat(p + x, q);
    MessageBitsConcat(p, x);
    MessageBitsConcat(p + y, q);
    MessageBitsConcat(p, y);
    assert a[|p|..|p| + |x|] == x && b[|p|..|p| + |x|] == y;
    assert MessageBits(a)[..lo] == MessageBits(p) == MessageBits(b)[..lo];
    assert MessageBits(a)[hi..] == MessageBits(q) == MessageBits(b)[hi..];
    BurstDetected(a, b, initial, lo, hi);
  }

  lemma RunsAgree(c: nat, s: seq<bool>, t: seq<bool>, lo: nat, hi: nat)
    requires c < WORD && |s| == |t| && BitRun(c, s) == BitRun(c, t)
    requires lo <= hi <= |s| && hi - lo <= 64
    requires s[..lo] == t[..lo] && s[hi..] == t[hi..]
    ensures s == t
  {
    var d := BitRun(c, s[..lo]);
    BitRunFits(c, s[..lo]);
    SplitRun(c, s, lo, hi);
    SplitRun(c, t, lo, hi);
    BitRunFits(d, s[lo..hi]);
    BitRunFits(d, t[lo..hi]);
    BitRunInjective(BitRun(d, s[lo..hi]), BitRun(d, t[lo..hi]), s[hi..]);
    ShortRunsDiffer(d, s[lo..hi], t[lo..hi]);
    assert s == s[..lo] + s[lo..hi] + s[hi..] && t == t[..lo] + t[lo..hi] + t[hi..];
  }

  lemma SplitRun(c: nat, s: seq<bool>, lo: nat, hi: nat)
    requires lo <= hi <= |s|
    ensures BitRun(c, s) == BitRun(BitRun(BitRun(c, s[..lo]), s[lo..hi]), s[hi..])
  {
    assert s == s[..lo] + s[lo..hi] + s[hi..];
    BitRunConcat(c, s[..lo] + s[lo..hi], s[hi..]);
    BitRunConcat(c, s[..lo], s[lo..hi]);
  }

  // ----------------------------------------------------------- the residue test

  /** What the checksum of a message followed by its own checksum comes to. */
  function Residue(): nat {
    Xor(Steps(ONES, 64), ONES)
  }

  /** A message followed by eight more bytes has the residue as its checksum
      exactly when those bytes are the message's checksum, low byte first. */
  lemma ResidueTest(m: seq<byte>, tail: seq<byte>, initial: nat)
    requires initial < WORD && |tail| == 8
    ensures Crc(m + tail, initial) == Residue() <==> FromBits(MessageBits(tail)) == Crc(m, initial)
  {
    var c := Register(Xor(initial, ONES), m);
    var w := FromBits(MessageBits(tail));
    RegisterConcat(Xor(initial, ONES), m, tail);
    RegisterIsBitRun(c, tail);
    BitRunPacks(c, MessageBits(tail));
    assert Crc(m + tail, initial) == Xor(Steps(Xor(c, w), 64), ONES);
    XorCancels(ONES, c);
    XorCommutes(Xor(c, ONES), c);
    if w == Xor(c, ONES) {
      assert Xor(c, w) == ONES;
    }
    if Crc(m + tail, initial) == Residue() {
      CrcFitsInWord(m, initial);
      PackedFits(c, MessageBits(tail));
      XorInjective(Steps(Xor(c, w), 64), Steps(ONES, 64), ONES);
      StepsInjective(Xor(c, w), ONES, 64);
      XorCancels(w, c);
    }
  }

  // ------------------------------------------------- agreement with the C++ hasher

  /** The polynomial given to boost::crc_basic, most significant bit first. */
  const CPP_POLYNOMIAL: nat := 0xAD93_D235_94C9_3659

  /** boost::crc_basic<64>::process_bit on its 64-bit remainder. */
  function MsbStep(r: nat, bit: bool): nat {
    var fed := Xor(r, if bit then 0x8000_0000_0000_0000 else 0);
    var shifted := (2 * fed) % WORD;
    if fed >= 0x8000_0000_0000_0000 then Xor(shifted, CPP_POLYNOMIAL) else shifted
  }

  function MsbRun(r: nat, s: seq<bool>): nat
    decreases s
  {
    if s == [] then r else MsbRun(MsbStep(r, s[0]), s[1..])
  }

  /** checksum(): reflected input, reflected output, both ends inverted. */
  function CppChecksum(data: seq<byte>): nat {
    Xor(Reflect(MsbRun(ONES, MessageBits(data)), 64, 0), ONES)
  }

  lemma PolynomialsReflect(n: nat, w: nat)
    requires n == POLYNOMIAL && w == 64
    ensures Reflect(n, w, 0) == CPP_POLYNOMIAL
  {
    PolynomialLowHalf(n, w);
    ReflectNibble(0x9a6c932, 1, 0, 0, 1, w - 36, 0xAD93D235);
    ReflectNibble(0x9a6c93, 0, 0, 1, 0, w - 40, 0xAD93D2359);
    ReflectNibble(0x9a6c9, 0, 0, 1, 1, w - 44, 0xAD93D23594);
    ReflectNibble(0x9a6c, 1, 0, 0, 1, w - 48, 0xAD93D23594C);
    ReflectNibble(0x9a6, 1, 1, 0, 0, w - 52, 0xAD93D23594C9);
    ReflectNibble(0x9a, 0, 1, 1, 0, w - 56, 0xAD93D23594C93);
    ReflectNibble(0x9, 1, 0, 1, 0, w - 60, 0xAD93D23594C936);
    ReflectNibble(0x0, 1, 0, 0, 1, w - 64, 0xAD93D23594C9365);
  }

  lemma PolynomialLowHalf(n: nat, w: nat)
    requires n == POLYNOMIAL && w == 64
    ensures Reflect(n, w, 0) == Reflect(0x9a6c9329, w - 32, 0xAD93D235)
  {
    ReflectNibble(0x9a6c9329ac4bc9b, 0, 1, 0, 1, w - 4, 0x0);
    ReflectNibble(0x9a6c9329ac4bc9, 1, 0, 1, 1, w - 8, 0xA);
    ReflectNibble(0x9a6c9329ac4bc, 1, 0, 0, 1, w - 12, 0xAD);
    ReflectNibble(0x9a6c9329ac4b, 1, 1, 0, 0, w - 16, 0xAD9);
    ReflectNibble(0x9a6c9329ac4, 1, 0, 1, 1, w - 20, 0xAD93);
    ReflectNibble(0x9a6c9329ac, 0, 1, 0, 0, w - 24, 0xAD93D);
    ReflectNibble(0x9a6c9329a, 1, 1, 0, 0, w - 28, 0xAD93D2);
    ReflectNibble(0x9a6c9329, 1, 0, 1, 0, w - 32, 0xAD93D23);
  }

  /** Running the reflected register backwards bit by bit is running the
      unreflected one forwards. */
  lemma StepReflects(c: nat, bit: bool, w: nat)
    requires c < WORD && w == 64
    ensures Reflect(Step(Xor(c, if bit then 1 else 0)), w, 0) == MsbStep(Reflect(c, w, 0), bit)
  {
    var b: nat := if bit then 1 else 0;
    var d := Xor(c, b);
    BitFits(c, b);
    InputReflects(c, b, w);
    ShiftReflects(d, w);
    if d % 2 == 1 {
      ReflectXor(d / 2, POLYNOMIAL, w, 0, 0);
      PolynomialsReflect(POLYNOMIAL, w);
    }
  }

  lemma InputReflects(c: nat, b: nat, w: nat)
    requires b < 2 && w == 64
    ensures Reflect(Xor(c, b), w, 0) == Xor(Reflect(c, w, 0), b * 0x8000_0000_0000_0000)
  {
    WordWidth();
    ReflectXor(c, b, w, 0, 0);
    ReflectOffset(0, w - 1, 0, b);
    ReflectZero(w - 1);
  }

  lemma ShiftReflects(d: nat, w: nat)
    requires d < WORD && w == 64
    ensures Reflect(d / 2, w, 0) == (2 * Reflect(d, w, 0)) % WORD
    ensures Reflect(d, w, 0) >= 0x8000_0000_0000_0000 <==> d % 2 == 1
  {
    WordWidth();
    ReflectOffset(d / 2, w - 1, 0, d % 2);
    ReflectBound(d / 2, w - 1);
    ReflectTop(d / 2, 0, w - 1, 0);
  }

  lemma {:induction false} ReflectZero(k: nat)
    ensures Reflect(0, k, 0) == 0
  {
    if k > 0 { ReflectZero(k - 1); }
  }

  lemma {:induction false} RunReflects(c: nat, s: seq<bool>, w: nat)
    requires c < WORD && w == 64
    ensures Reflect(BitRun(c, s), w, 0) == MsbRun(Reflect(c, w, 0), s)
    decreases s
  {
    if s != [] {
      var b := if s[0] then 1 else 0;
      BitFits(c, b);
      StepFits(Xor(c, b));
      StepReflects(c, s[0], w);
      RunReflects(Step(Xor(c, b)), s[1..], w);
    }
  }

  /** The Python and the C++ checksum of the same data are the same number. */
  lemma HashersAgree(data: seq<byte>)
    ensures CppChecksum(data) == Crc(data, 0)
  {
    XorZero(ONES);
    RegisterIsBitRun(ONES, data);
    OnesReflect(64);
    RunReflects(ONES, MessageBits(data), 64);
    BitRunFits(ONES, MessageBits(data));
    WordReflectsTwice(BitRun(ONES, MessageBits(data)), 64);
  }

  lemma OnesReflect(w: nat)
    requires w == 64
    ensures Reflect(ONES, w, 0) == ONES
  {
    WordWidth();
    ReflectOnes(w);
  }

  lemma WordReflectsTwice(c: nat, w: nat)
    requires c < WORD && w == 64
    ensures Reflect(Reflect(c, w, 0), w, 0) == c
  {
    WordWidth();
    ReflectTwice(c, w);
  }
}
