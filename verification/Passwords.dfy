/** The two password encodings of scripts/irods/password_obfuscation.py: the
    .irodsA file form (encode/decode) and the catalog form (scramble/unscramble). */
module Passwords {

  import opened Bits
  import opened Common

  datatype Error = TooLong | IndexError | KeyNotAscii
  datatype Result<T> = Ok(value: T) | Err(error: Error)

  const MAXIMUM_PASSWORD_LENGTH: nat := 42
  const DEFAULT_PASSWORD_KEY: string := "a9_3fker"

  // ------------------------------------------------------------------ the wheel

  const WHEEL_SIZE: nat := 77

  /** The wheel: digits, capitals, small letters and the marks '!' to '/'. */
  function WheelChar(i: int): char
    requires 0 <= i < WHEEL_SIZE
  {
    if i < 10 then '0' + i as char
    else if i < 36 then 'A' + (i - 10) as char
    else if i < 62 then 'a' + (i - 36) as char
    else '!' + (i - 62) as char
  }

  predicate InWheel(c: char) {
    '0' <= c <= '9' || 'A' <= c <= 'Z' || 'a' <= c <= 'z' || '!' <= c <= '/'
  }

  /** wheel.index(c) */
  function WheelIndex(c: char): (i: nat)
    requires InWheel(c)
    ensures i < WHEEL_SIZE && WheelChar(i) == c
  {
    if '0' <= c <= '9' then c as int - '0' as int
    else if 'A' <= c <= 'Z' then 10 + c as int - 'A' as int
    else if 'a' <= c <= 'z' then 36 + c as int - 'a' as int
    else 62 + c as int - '!' as int
  }

  lemma WheelCharIndex(i: int)
    requires 0 <= i < WHEEL_SIZE
    ensures InWheel(WheelChar(i)) && WheelIndex(WheelChar(i)) == i && WheelChar(i) != NUL
  {
  }

  /** Turning the wheel by `offset` places; other characters stay. */
  function Turn(c: char, offset: int): char {
    if InWheel(c) then WheelChar((WheelIndex(c) + offset) % WHEEL_SIZE) else c
  }

  lemma TurnKeepsWheel(c: char, offset: int)
    ensures InWheel(Turn(c, offset)) <==> InWheel(c)
    ensures Turn(c, offset) == NUL <==> c == NUL
  {
    if InWheel(c) {
      WheelCharIndex((WheelIndex(c) + offset) % WHEEL_SIZE);
    }
  }

  /** Two turns meet again exactly when together they go round the wheel. */
  lemma TurnTurn(c: char, a: int, b: int)
    ensures Turn(Turn(c, a), b) == c <==> !InWheel(c) || (a + b) % WHEEL_SIZE == 0
  {
    if InWheel(c) {
      var i := WheelIndex(c);
      var j := (i + a) % WHEEL_SIZE;
      WheelCharIndex(j);
      WheelCharIndex((j + b) % WHEEL_SIZE);
      ModTwice(i, a, b);
      assert Turn(Turn(c, a), b) == WheelChar((j + b) % WHEEL_SIZE);
    }
  }

  lemma ModTwice(i: nat, a: int, b: int)
    requires i < WHEEL_SIZE
    ensures ((i + a) % WHEEL_SIZE + b) % WHEEL_SIZE == i <==> (a + b) % WHEEL_SIZE == 0
  {
  }

  // ------------------------------------------------------- the .irodsA encoding

  const SEQ_LIST: seq<nat> := [
    0xd768b678, 0xedfdaf56, 0x2420231b, 0x987098d8, 0xc1bdfeee, 0xf572341f, 0x478def3a, 0xa830d343,
    0x774dfa2a, 0x6720731e, 0x346fa320, 0x6ffdf43a, 0x7723a320, 0xdf67d02e, 0x86ad240a, 0xe76d342e
  ]

  /** uid & 0xf5f */
  function Salt(uid: int): (r: nat)
    ensures r <= 0xf5f
  {
    uid % 32 + 64 * (uid / 64 % 2) + 256 * (uid / 256 % 16)
  }

  function Offset(sequence: nat, shift: nat, uid: int): int {
    (sequence / Pow2(shift)) % 32 + Salt(uid)
  }

  function NextShift(shift: nat): nat {
    if shift + 3 > 28 then 0 else shift + 3
  }

  function EncodeChars(s: string, sequence: nat, shift: nat, uid: int): string
    decreases |s|
  {
    if s == [] || s[0] == NUL then ""
    else [Turn(s[0], Offset(sequence, shift, uid))] + EncodeChars(s[1..], sequence, NextShift(shift), uid)
  }

  function DecodeChars(s: string, sequence: nat, shift: nat, uid: int): string
    decreases |s|
  {
    if s == [] || s[0] == NUL then ""
    else [Turn(s[0], -Offset(sequence, shift, uid))] + DecodeChars(s[1..], sequence, NextShift(shift), uid)
  }

  /** The five characters that go before the password: the sequence number's
      letter and sixteen bits of the modification time. */
  function Header(mtime: int): (h: string)
    ensures |h| == 5 && NUL !in h
  {
    ['S',
     ((mtime / 16) % 16 + 'a' as int) as char,
     (mtime % 16 + 'a' as int) as char,
     ((mtime / 4096) % 16 + 'a' as int) as char,
     ((mtime / 256) % 16 + 'a' as int) as char]
  }

  function Slice(s: string, k: nat): (string, string) {
    if k <= |s| then (s[..k], s[k..]) else (s, "")
  }

  function Encode(s: string, uid: int, mtime: int): Result<string> {
    if |s| > MAXIMUM_PASSWORD_LENGTH then Err(TooLong) else
      var (head, tail) := Slice("." + EncodeChars(Header(mtime) + s, SEQ_LIST[0], 0, uid), 6);
      Ok(head + "e" + tail + [NUL])
  }

  /** A Python list index, which counts from the end when negative. */
  function SequenceAt(i: int): Result<nat> {
    if 0 <= i < 16 then Ok(SEQ_LIST[i]) else if -16 <= i < 0 then Ok(SEQ_LIST[16 + i]) else Err(IndexError)
  }

  function Decode(s: string, uid: int): Result<string> {
    if |s| < 7 then Err(IndexError) else
      match SequenceAt(s[6] as int - 'e' as int)
      case Err(e) => Err(e)
      case Ok(sequence) => Ok(DecodeChars(s[7..], sequence, 15, uid))
  }

  function ShiftAfter(shift: nat, n: nat): nat
    decreases n
  {
    if n == 0 then shift else ShiftAfter(NextShift(shift), n - 1)
  }

  function UpToNul(s: string): string {
    if s == [] || s[0] == NUL then "" else [s[0]] + UpToNul(s[1..])
  }

  method EncodePassword(s: string, uid: int, mtime: int) returns (r: Result<string>)
    ensures r == Encode(s, uid, mtime)
  {
    if |s| > MAXIMUM_PASSWORD_LENGTH {
      return Err(TooLong);
    }
    var encoded := EncodeLoop(Header(mtime) + s, SEQ_LIST[0], uid);
    var (head, tail) := Slice("." + encoded, 6);
    r := Ok(head + "e" + tail + [NUL]);
  }

  method EncodeLoop(toEncode: string, sequence: nat, uid: int) returns (encoded: string)
    ensures encoded == EncodeChars(toEncode, sequence, 0, uid)
  {
    var bitshift := 0;
    encoded := "";
    for i := 0 to |toEncode|
      invariant encoded + EncodeChars(toEncode[i..], sequence, bitshift, uid) == EncodeChars(toEncode, sequence, 0, uid)
    {
      EncodeUnfold(toEncode, i, sequence, bitshift, uid);
      if toEncode[i] as int == 0 {
        return;
      }
      var offset := Offset(sequence, bitshift, uid);
      bitshift := bitshift + 3;
      if bitshift > 28 {
        bitshift := 0;
      }
      var turned := Turn(toEncode[i], offset);
      Associates(encoded, [turned], EncodeChars(toEncode[i + 1..], sequence, bitshift, uid));
      encoded := encoded + [turned];
    }
    assert toEncode[|toEncode|..] == "";
  }

  lemma EncodeUnfold(s: string, i: nat, sequence: nat, shift: nat, uid: int)
    requires i < |s|
    ensures EncodeChars(s[i..], sequence, shift, uid)
         == if s[i] == NUL then ""
            else [Turn(s[i], Offset(sequence, shift, uid))] + EncodeChars(s[i + 1..], sequence, NextShift(shift), uid)
  {
    assert s[i..][0] == s[i] && s[i..][1..] == s[i + 1..];
  }

  method DecodePassword(s: string, uid: int) returns (r: Result<string>)
    ensures r == Decode(s, uid)
  {
    if |s| <= 6 {
      return Err(IndexError);
    }
    var found := SequenceAt(s[6] as int - 'e' as int);
    if found.Err? {
      return Err(found.error);
    }
    var decoded := DecodeLoop(s[7..], found.value, uid);
    r := Ok(decoded);
  }

  /** One turn of decode's loop body: the character taken back by `offset`. */
  method TurnBack(c: char, offset: int) returns (r: char)
    ensures r == Turn(c, -offset)
  {
    if InWheel(c) {
      var wheelIndex := (WHEEL_SIZE + WheelIndex(c) - offset) % WHEEL_SIZE;
      r := WheelChar(wheelIndex);
    } else {
      r := c;
    }
  }

  method DecodeLoop(encoded: string, sequence: nat, uid: int) returns (decoded: string)
    ensures decoded == DecodeChars(encoded, sequence, 15, uid)
  {
    var bitshift := 15;
    decoded := "";
    for i := 0 to |encoded|
      invariant decoded + DecodeChars(encoded[i..], sequence, bitshift, uid) == DecodeChars(encoded, sequence, 15, uid)
    {
      DecodeUnfold(encoded, i, sequence, bitshift, uid);
      if encoded[i] as int == 0 {
        return;
      }
      var turned := TurnBack(encoded[i], Offset(sequence, bitshift, uid));
      bitshift := bitshift + 3;
      if bitshift > 28 {
        bitshift := 0;
      }
      Associates(decoded, [turned], DecodeChars(encoded[i + 1..], sequence, bitshift, uid));
      decoded := decoded + [turned];
    }
    assert encoded[|encoded|..] == "";
  }

  lemma DecodeUnfold(s: string, i: nat, sequence: nat, shift: nat, uid: int)
    requires i < |s|
    ensures DecodeChars(s[i..], sequence, shift, uid)
         == if s[i] == NUL then ""
            else [Turn(s[i], -Offset(sequence, shift, uid))] + DecodeChars(s[i + 1..], sequence, NextShift(shift), uid)
  {
    assert s[i..][0] == s[i] && s[i..][1..] == s[i + 1..];
  }

  lemma {:induction false} EncodeSplits(h: string, s: string, sequence: nat, shift: nat, uid: int)
    requires NUL !in h
    ensures |EncodeChars(h, sequence, shift, uid)| == |h|
    ensures EncodeChars(h + s, sequence, shift, uid)
         == EncodeChars(h, sequence, shift, uid) + EncodeChars(s, sequence, ShiftAfter(shift, |h|), uid)
    decreases |h|
  {
    if h == [] {
      assert h + s == s;
    } else {
      assert (h + s)[1..] == h[1..] + s;
      EncodeSplits(h[1..], s, sequence, NextShift(shift), uid);
    }
  }

  /** Whether decoding with `other` undoes encoding with `uid`. */
  ghost predicate SaltsAgree(uid: int, other: int) {
    Salt(uid) % WHEEL_SIZE == Salt(other) % WHEEL_SIZE
  }

  ghost predicate NoWheelChar(s: string) {
    forall i | 0 <= i < |s| :: !InWheel(s[i])
  }

  lemma OneTurn(c: char, base: int, x: int, y: int)
    ensures Turn(Turn(c, base + x), -(base + y)) == c <==> !InWheel(c) || x % WHEEL_SIZE == y % WHEEL_SIZE
  {
    TurnTurn(c, base + x, -(base + y));
    assert base + x + -(base + y) == x - y;
    ModDifference(x, y);
  }

  lemma ModDifference(x: int, y: int)
    ensures (x - y) % WHEEL_SIZE == 0 <==> x % WHEEL_SIZE == y % WHEEL_SIZE
  {
  }

  lemma OneCharacter(c: char, sequence: nat, shift: nat, uid: int, other: int)
    ensures Turn(Turn(c, Offset(sequence, shift, uid)), -Offset(sequence, shift, other)) == c
       <==> !InWheel(c) || SaltsAgree(uid, other)
  {
    OneTurn(c, (sequence / Pow2(shift)) % 32, Salt(uid), Salt(other));
  }

  /** Decoding what was encoded, from the same place in the shift cycle and
      with a NUL at the end, gives the text up to its first NUL exactly when
      the salts agree or no character was turned. */
  lemma {:induction false} CharsRoundTrip(s: string, sequence: nat, shift: nat, uid: int, other: int)
    ensures DecodeChars(EncodeChars(s, sequence, shift, uid) + [NUL], sequence, shift, other) == UpToNul(s)
       <==> SaltsAgree(uid, other) || NoWheelChar(UpToNul(s))
    decreases |s|
  {
    var e := EncodeChars(s, sequence, shift, uid) + [NUL];
    if s != [] && s[0] != NUL {
      var rest := EncodeChars(s[1..], sequence, NextShift(shift), uid) + [NUL];
      TurnKeepsWheel(s[0], Offset(sequence, shift, uid));
      OneCharacter(s[0], sequence, shift, uid, other);
      CharsRoundTrip(s[1..], sequence, NextShift(shift), uid, other);
      assert e[1..] == rest;
      var d := DecodeChars(e, sequence, shift, other);
      var u := UpToNul(s);
      assert d[0] == Turn(e[0], -Offset(sequence, shift, other));
      assert d[1..] == DecodeChars(rest, sequence, NextShift(shift), other);
      assert u[0] == s[0] && u[1..] == UpToNul(s[1..]);
      assert d == u <==> d[0] == u[0] && d[1..] == u[1..];
      assert NoWheelChar(u) <==> !InWheel(u[0]) && NoWheelChar(u[1..]);
    } else {
      assert e == [NUL];
    }
  }

  /** decode(encode(s, uid, mtime), other) is s up to its first NUL, for every
      modification time, exactly when the two salts agree on the wheel or s has
      nothing the wheel could turn. */
  lemma EncodeDecode(s: string, uid: int, mtime: int, other: int)
    ensures Encode(s, uid, mtime) == Err(TooLong) <==> |s| > MAXIMUM_PASSWORD_LENGTH
    ensures |s| <= MAXIMUM_PASSWORD_LENGTH ==>
              && Encode(s, uid, mtime).Ok?
              && (Decode(Encode(s, uid, mtime).value, other) == Ok(UpToNul(s))
                  <==> SaltsAgree(uid, other) || NoWheelChar(UpToNul(s)))
  {
    if |s| <= MAXIMUM_PASSWORD_LENGTH {
      EncodedDecodes(s, uid, mtime, other);
    }
  }

  lemma EncodedDecodes(s: string, uid: int, mtime: int, other: int)
    requires |s| <= MAXIMUM_PASSWORD_LENGTH
    ensures Decode(Encode(s, uid, mtime).value, other) == Ok(UpToNul(s))
       <==> SaltsAgree(uid, other) || NoWheelChar(UpToNul(s))
  {
    var h := EncodeChars(Header(mtime), SEQ_LIST[0], 0, uid);
    var t := EncodeChars(s, SEQ_LIST[0], 15, uid);
    assert ShiftAfter(0, 5) == 15;
    EncodeSplits(Header(mtime), s, SEQ_LIST[0], 0, uid);
    EncodedShape(h, t);
    var e := Encode(s, uid, mtime).value;
    assert e[6] == 'e' && e[7..] == t + [NUL];
    CharsRoundTrip(s, SEQ_LIST[0], 15, uid, other);
  }

  lemma EncodedShape(h: string, t: string)
    requires |h| == 5
    ensures var (head, tail) := Slice("." + (h + t), 6);
            var e := head + "e" + tail + [NUL];
            |e| >= 7 && e[6] == 'e' && e[7..] == t + [NUL]
  {
    var e := "." + (h + t);
    assert e[..6] == "." + h && e[6..] == t;
  }

  lemma DecodesOwnEncoding(s: string, uid: int, mtime: int)
    requires |s| <= MAXIMUM_PASSWORD_LENGTH
    ensures Decode(Encode(s, uid, mtime).value, uid) == Ok(UpToNul(s))
  {
    EncodeDecode(s, uid, mtime, uid);
  }

  // ------------------------------------------------------- the catalog encoding

  /** hashlib.md5, of which only the length of the digest matters. */
  ghost predicate IsDigest(md5: seq<byte> -> seq<byte>) {
    forall data :: |md5(data)| == 16
  }

  /** key.ljust(100, chr(0))[:100] */
  function Padded(key: string): (r: string)
    ensures |r| == 100
  {
    if |key| >= 100 then key[..100] else key + seq(100 - |key|, _ => NUL)
  }

  predicate IsAscii(s: string) {
    forall i | 0 <= i < |s| :: s[i] as int < 128
  }

  function AsciiBytes(s: string): seq<byte>
    requires IsAscii(s)
  {
    seq(|s|, i requires 0 <= i < |s| => s[i] as int as byte)
  }

  /** 64 bytes made of three digests, or a UnicodeEncodeError. */
  function EncoderRing(md5: seq<byte> -> seq<byte>, key: string): (r: Result<seq<byte>>)
    requires IsDigest(md5)
    ensures r.Ok? <==> IsAscii(Padded(key))
    ensures r.Ok? ==> |r.value| == 64
  {
    if !IsAscii(Padded(key)) then Err(KeyNotAscii) else
      var first := md5(AsciiBytes(Padded(key)));
      var second := md5(first);
      var third := md5(first + second);
      Ok(first + second + third + third)
  }

  function KeyOrDefault(key: Option<string>): string {
    if key.Some? then key.value else DEFAULT_PASSWORD_KEY
  }

  /** ord(c) & 0xff, kept only when chaining. */
  function Link(chain: nat, c: char, chaining: bool): nat {
    if chaining && InWheel(c) then c as nat % 256 else chain
  }

  function ScrambleChars(s: string, i: nat, chain: nat, ring: seq<byte>, chaining: bool): (r: string)
    requires |ring| == 64
    ensures |r| == |s|
    decreases |s|
  {
    if s == [] then "" else
      var c := Turn(s[0], ring[i % 61] as int + chain);
      [c] + ScrambleChars(s[1..], i + 1, Link(chain, c, chaining), ring, chaining)
  }

  function UnscrambleChars(s: string, i: nat, chain: nat, ring: seq<byte>, chaining: bool): (r: string)
    requires |ring| == 64
    ensures |r| == |s|
    decreases |s|
  {
    if s == [] then "" else
      var c := Turn(s[0], -(ring[i % 61] as int + chain));
      [c] + UnscrambleChars(s[1..], i + 1, Link(chain, s[0], chaining), ring, chaining)
  }

  function Scramble(md5: seq<byte> -> seq<byte>, s: string, key: Option<string>, prefix: string, chaining: bool)
    : Result<string>
    requires IsDigest(md5)
  {
    if |s| > MAXIMUM_PASSWORD_LENGTH then Err(TooLong) else
      match EncoderRing(md5, KeyOrDefault(key))
      case Err(e) => Err(e)
      case Ok(ring) => Ok(prefix + ScrambleChars(s, 0, 0, ring, chaining))
  }

  function Unscramble(md5: seq<byte> -> seq<byte>, s: string, key: Option<string>, prefix: string, chaining: bool)
    : Result<string>
    requires IsDigest(md5)
  {
    if !(prefix <= s) then Ok(s) else
      match EncoderRing(md5, KeyOrDefault(key))
      case Err(e) => Err(e)
      case Ok(ring) => Ok(UnscrambleChars(s[|prefix|..], 0, 0, ring, chaining))
  }

  method ScramblePassword(md5: seq<byte> -> seq<byte>, s: string, key: Option<string>, prefix: string, chaining: bool)
    returns (r: Result<string>)
    requires IsDigest(md5)
    ensures r == Scramble(md5, s, key, prefix, chaining)
  {
    if |s| > MAXIMUM_PASSWORD_LENGTH {
      return Err(TooLong);
    }
    var ring := EncoderRing(md5, KeyOrDefault(key));
    if ring.Err? {
      return Err(ring.error);
    }
    var scrambled := ScrambleLoop(s, ring.value, chaining);
    r := Ok(prefix + scrambled);
  }

  method ScrambleLoop(s: string, ring: seq<byte>, chaining: bool) returns (scrambled: string)
    requires |ring| == 64
    ensures scrambled == ScrambleChars(s, 0, 0, ring, chaining)
  {
    var ringIndex: nat := 0;
    var chain: nat := 0;
    scrambled := "";
    for i := 0 to |s|
      invariant ringIndex == i
      invariant scrambled + ScrambleChars(s[i..], ringIndex, chain, ring, chaining)
             == ScrambleChars(s, 0, 0, ring, chaining)
    {
      assert s[i..] == [s[i]] + s[i + 1..];
      var turned := Turn(s[i], ring[ringIndex % 61] as int + chain);
      TurnKeepsWheel(s[i], ring[ringIndex % 61] as int + chain);
      ScrambleCons(s[i], turned, s[i + 1..], ringIndex, chain, ring, chaining);
      if InWheel(s[i]) && chaining {
        chain := turned as nat % 256;
      }
      ringIndex := ringIndex + 1;
      Associates(scrambled, [turned], ScrambleChars(s[i + 1..], ringIndex, chain, ring, chaining));
      scrambled := scrambled + [turned];
    }
    assert s[|s|..] == "";
  }

  method UnscramblePassword(md5: seq<byte> -> seq<byte>, s: string, key: Option<string>, prefix: string, chaining: bool)
    returns (r: Result<string>)
    requires IsDigest(md5)
    ensures r == Unscramble(md5, s, key, prefix, chaining)
  {
    if !(prefix <= s) {
      return Ok(s);
    }
    var ring := EncoderRing(md5, KeyOrDefault(key));
    if ring.Err? {
      return Err(ring.error);
    }
    var unscrambled := UnscrambleLoop(s[|prefix|..], ring.value, chaining);
    r := Ok(unscrambled);
  }

  method UnscrambleLoop(s: string, ring: seq<byte>, chaining: bool) returns (unscrambled: string)
    requires |ring| == 64
    ensures unscrambled == UnscrambleChars(s, 0, 0, ring, chaining)
  {
    var ringIndex: nat := 0;
    var chain: nat := 0;
    unscrambled := "";
    for i := 0 to |s|
      invariant ringIndex == i
      invariant unscrambled + UnscrambleChars(s[i..], ringIndex, chain, ring, chaining)
             == UnscrambleChars(s, 0, 0, ring, chaining)
    {
      assert s[i..] == [s[i]] + s[i + 1..];
      var turned := TurnBack(s[i], ring[ringIndex % 61] as int + chain);
      UnscrambleCons(s[i], turned, s[i + 1..], ringIndex, chain, ring, chaining);
      if InWheel(s[i]) && chaining {
        chain := s[i] as nat % 256;
      }
      ringIndex := ringIndex + 1;
      Associates(unscrambled, [turned], UnscrambleChars(s[i + 1..], ringIndex, chain, ring, chaining));
      unscrambled := unscrambled + [turned];
    }
    assert s[|s|..] == "";
  }

  lemma TurnUndone(c: char, o: int)
    ensures Turn(Turn(c, o), -o) == c
  {
    TurnTurn(c, o, -o);
  }

  /** A turn by o, with what turning back gives. */
  lemma Turned(a: char, o: int) returns (c: char)
    ensures c == Turn(a, o) && a == Turn(c, -o)
  {
    c := Turn(a, o);
    TurnUndone(a, o);
  }

  lemma TurnedBack(a: char, o: int) returns (c: char)
    ensures c == Turn(a, -o) && a == Turn(c, o)
  {
    c := Turn(a, -o);
    TurnUndone(a, -o);
  }

  lemma UnscrambleCons(c: char, a: char, t: string, i: nat, chain: nat, ring: seq<byte>, chaining: bool)
    requires |ring| == 64 && a == Turn(c, -(ring[i % 61] as int + chain))
    ensures UnscrambleChars([c] + t, i, chain, ring, chaining)
         == [a] + UnscrambleChars(t, i + 1, Link(chain, c, chaining), ring, chaining)
  {
    assert ([c] + t)[1..] == t;
  }

  lemma ScrambleCons(c: char, d: char, t: string, i: nat, chain: nat, ring: seq<byte>, chaining: bool)
    requires |ring| == 64 && d == Turn(c, ring[i % 61] as int + chain)
    ensures ScrambleChars([c] + t, i, chain, ring, chaining)
         == [d] + ScrambleChars(t, i + 1, Link(chain, d, chaining), ring, chaining)
  {
    assert ([c] + t)[1..] == t;
  }

  /** The two loops are inverse to each other, from any place on the ring and
      any chain value. */
  lemma {:induction false} CharsUnscramble(s: string, i: nat, chain: nat, ring: seq<byte>, chaining: bool)
    requires |ring| == 64
    ensures UnscrambleChars(ScrambleChars(s, i, chain, ring, chaining), i, chain, ring, chaining) == s
    decreases |s|
  {
    if s != [] {
      var a, rest, o := s[0], s[1..], ring[i % 61] as int + chain;
      var c := Turned(a, o);
      var next := Link(chain, c, chaining);
      assert s == [a] + rest;
      ScrambleCons(a, c, rest, i, chain, ring, chaining);
      UnscrambleCons(c, a, ScrambleChars(rest, i + 1, next, ring, chaining), i, chain, ring, chaining);
      CharsUnscramble(rest, i + 1, next, ring, chaining);
    }
  }

  lemma {:induction false} CharsScramble(s: string, i: nat, chain: nat, ring: seq<byte>, chaining: bool)
    requires |ring| == 64
    ensures ScrambleChars(UnscrambleChars(s, i, chain, ring, chaining), i, chain, ring, chaining) == s
    decreases |s|
  {
    if s != [] {
      var a, rest, o := s[0], s[1..], ring[i % 61] as int + chain;
      var c := TurnedBack(a, o);
      var next := Link(chain, a, chaining);
      assert s == [a] + rest;
      UnscrambleCons(a, c, rest, i, chain, ring, chaining);
      ScrambleCons(c, a, UnscrambleChars(rest, i + 1, next, ring, chaining), i, chain, ring, chaining);
      CharsScramble(rest, i + 1, next, ring, chaining);
    }
  }

  lemma ScrambleUnscramble(md5: seq<byte> -> seq<byte>, s: string, key: Option<string>, prefix: string, chaining: bool)
    requires IsDigest(md5)
    ensures Scramble(md5, s, key, prefix, chaining).Ok?
       <==> |s| <= MAXIMUM_PASSWORD_LENGTH && IsAscii(Padded(KeyOrDefault(key)))
    ensures Scramble(md5, s, key, prefix, chaining).Ok?
        ==> Unscramble(md5, Scramble(md5, s, key, prefix, chaining).value, key, prefix, chaining) == Ok(s)
  {
    var ring := EncoderRing(md5, KeyOrDefault(key));
    if |s| <= MAXIMUM_PASSWORD_LENGTH && ring.Ok? {
      var t := ScrambleChars(s, 0, 0, ring.value, chaining);
      assert (prefix + t)[|prefix|..] == t;
      CharsUnscramble(s, 0, 0, ring.value, chaining);
    }
  }

  /** Every prefixed string of at most 42 further characters is the scrambled
      form of what it unscrambles to, so scrambling is onto as well. */
  lemma UnscrambleScramble(md5: seq<byte> -> seq<byte>, t: string, key: Option<string>, prefix: string, chaining: bool)
    requires IsDigest(md5)
    requires |t| <= MAXIMUM_PASSWORD_LENGTH && IsAscii(Padded(KeyOrDefault(key)))
    ensures Unscramble(md5, prefix + t, key, prefix, chaining).Ok?
    ensures Scramble(md5, Unscramble(md5, prefix + t, key, prefix, chaining).value, key, prefix, chaining)
         == Ok(prefix + t)
  {
    var ring := EncoderRing(md5, KeyOrDefault(key)).value;
    assert (prefix + t)[|prefix|..] == t;
    CharsScramble(t, 0, 0, ring, chaining);
  }
}
