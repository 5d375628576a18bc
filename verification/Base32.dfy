/**
 Decoding of base32 secrets.  The specification regroups bits, as section 6 of RFC 4648 does; the
 program keeps a 32-bit buffer from which old bits fall out at the top.
 */
module Base32 {
  import opened Arithmetic
  import opened Streams

  // ----- bits -----

  /** The lowest `n` bits of a number, highest first. */
  function BitsOf(v: nat, n: nat): (s: seq<bool>)
    ensures |s| == n
  {
    if n == 0 then [] else BitsOf(v / 2, n - 1) + [v % 2 == 1]
  }

  function Val(s: seq<bool>): nat {
    if s == [] then 0 else 2 * Val(s[..|s|-1]) + if s[|s|-1] then 1 else 0
  }

  function Pow2(n: nat): (p: nat)
    ensures p > 0
  {
    if n == 0 then 1 else 2 * Pow2(n - 1)
  }

  lemma {:induction false} ValBelow(s: seq<bool>)
    ensures Val(s) < Pow2(|s|)
  {
    if s != [] {
      ValBelow(s[..|s|-1]);
    }
  }

  lemma {:induction false} ValOfBits(v: nat, n: nat)
    requires v < Pow2(n)
    ensures Val(BitsOf(v, n)) == v
  {
    if n > 0 {
      ValOfBits(v / 2, n - 1);
      assert BitsOf(v, n)[..n-1] == BitsOf(v / 2, n - 1);
    }
  }

  lemma {:induction false} BitsOfVal(s: seq<bool>)
    ensures BitsOf(Val(s), |s|) == s
  {
    if s != [] {
      var r, b := s[..|s|-1], s[|s|-1];
      BitsOfVal(r);
      assert Val(s) / 2 == Val(r) && (Val(s) % 2 == 1 <==> b);
      assert s == r + [b];
    }
  }

  lemma {:induction false} ValConcat(s: seq<bool>, t: seq<bool>)
    ensures Val(s + t) == Val(s) * Pow2(|t|) + Val(t)
  {
    if t == [] {
      assert s + t == s;
    } else {
      var r := t[..|t|-1];
      ValConcat(s, r);
      assert (s + t)[..|s + t|-1] == s + r;
      assert Val(s) * (2 * Pow2(|r|)) == 2 * (Val(s) * Pow2(|r|));
    }
  }

  // ----- the alphabet -----

  datatype Digit = NoDigit | Digit(v: nat)

  /** `A` to `Z` are 0 to 25, `2` to `7` are 26 to 31. */
  function DigitOf(ch: Byte): (d: Digit)
    ensures d.Digit? ==> d.v < 32
  {
    if 65 <= ch <= 90 then Digit(ch % 32 - 1) else if 50 <= ch <= 55 then Digit(ch - 24) else NoDigit
  }

  function LetterOf(v: nat): (ch: Byte)
    requires v < 32
    ensures DigitOf(ch) == Digit(v)
  {
    if v < 26 then v + 65 else v + 24
  }

  /** All bits of a string of digits; of one with a character that is none, nothing. */
  function DigitBits(s: seq<Byte>): seq<bool>
    requires Proper(s)
  {
    if s == [] then []
    else
      assert DigitOf(s[0]).Digit? && Proper(s[1..]);
      BitsOf(DigitOf(s[0]).v, 5) + DigitBits(s[1..])
  }

  predicate Proper(s: seq<Byte>) {
    forall k :: 0 <= k < |s| ==> DigitOf(s[k]).Digit?
  }

  /** Bits in groups of eight; what is left over is dropped. */
  function Eights(bits: seq<bool>): seq<Byte> {
    if |bits| < 8 then []
    else
      ValBelow(bits[..8]);
      assert Pow2(8) == 256 by { assert Pow2(4) == 16; }
      [Val(bits[..8])] + Eights(bits[8..])
  }

  function Decoded(secret: seq<Byte>): seq<Byte> {
    if Proper(secret) then Eights(DigitBits(secret)) else []
  }

  // ----- encoding -----

  function ByteBits(b: seq<Byte>): seq<bool> {
    if b == [] then [] else BitsOf(b[0], 8) + ByteBits(b[1..])
  }

  function Zeros(n: nat): (s: seq<bool>)
    ensures |s| == n
  {
    if n == 0 then [] else [false] + Zeros(n - 1)
  }

  /** Bits in groups of five; the last group is filled up with zeros. */
  function Fives(bits: seq<bool>): seq<Byte>
    decreases |bits|
  {
    if bits == [] then []
    else
      var n := if |bits| < 5 then |bits| else 5;
      var g := bits[..n] + Zeros(5 - n);
      ValBelow(g);
      assert Pow2(5) == 32;
      [LetterOf(Val(g))] + Fives(bits[n..])
  }

  /** The encoding without padding characters. */
  function Encoded(b: seq<Byte>): seq<Byte> {
    Fives(ByteBits(b))
  }

  lemma GroupBack(g: seq<bool>, s: seq<Byte>)
    requires |g| == 5 && Proper(s)
    ensures Val(g) < 32 && Proper([LetterOf(Val(g))] + s)
    ensures DigitBits([LetterOf(Val(g))] + s) == g + DigitBits(s)
  {
    BitsOfVal(g);
    ValBelow(g);
    assert Pow2(5) == 32;
    assert ([LetterOf(Val(g))] + s)[1..] == s;
  }

  lemma {:induction false} FivesBits(bits: seq<bool>) returns (k: nat)
    ensures Proper(Fives(bits)) && k < 5 && DigitBits(Fives(bits)) == bits + Zeros(k)
    decreases |bits|
  {
    k := 0;
    if bits == [] {
      assert bits + Zeros(0) == bits;
    } else if |bits| < 5 {
      k := 5 - |bits|;
      LastFive(bits, k);
    } else {
      k := FivesBits(bits[5..]);
      assert bits[..5] + Zeros(0) == bits[..5];
      GroupBack(bits[..5], Fives(bits[5..]));
      Zipped(bits, k);
    }
  }

  lemma LastFive(bits: seq<bool>, k: nat)
    requires 0 < |bits| < 5 && k == 5 - |bits|
    ensures Proper(Fives(bits)) && DigitBits(Fives(bits)) == bits + Zeros(k)
  {
    assert bits[..|bits|] == bits && bits[|bits|..] == [];
    GroupBack(bits + Zeros(k), []);
    assert bits + Zeros(k) + [] == bits + Zeros(k);
  }

  lemma Zipped(bits: seq<bool>, k: nat)
    requires |bits| >= 5
    ensures bits[..5] + (bits[5..] + Zeros(k)) == bits + Zeros(k)
  {
  }

  lemma {:induction false} EightsBack(b: seq<Byte>, tail: seq<bool>)
    requires |tail| < 8
    ensures Eights(ByteBits(b) + tail) == b
    decreases |b|
  {
    if b == [] {
      assert [] + tail == tail;
    } else {
      var s := ByteBits(b) + tail;
      assert s[..8] == BitsOf(b[0], 8) && s[8..] == ByteBits(b[1..]) + tail;
      assert Pow2(8) == 256 by { assert Pow2(4) == 16; }
      ValOfBits(b[0], 8);
      EightsBack(b[1..], tail);
    }
  }

  /** Decoding undoes encoding, for every byte string. */
  lemma DecodeEncoded(b: seq<Byte>)
    ensures Decoded(Encoded(b)) == b
  {
    var k := FivesBits(ByteBits(b));
    EightsBack(b, Zeros(k));
  }

  // ----- the program -----

  lemma {:induction false} DigitBitsAppend(s: seq<Byte>, ch: Byte)
    requires Proper(s) && DigitOf(ch).Digit?
    ensures Proper(s + [ch]) && DigitBits(s + [ch]) == DigitBits(s) + BitsOf(DigitOf(ch).v, 5)
  {
    if s == [] {
      assert [ch][1..] == [];
      assert DigitBits([ch]) == BitsOf(DigitOf(ch).v, 5) + [];
    } else {
      assert Proper(s[1..]);
      DigitBitsAppend(s[1..], ch);
      assert (s + [ch])[1..] == s[1..] + [ch];
    }
  }

  lemma {:induction false} EightsConcat(s: seq<bool>, t: seq<bool>)
    requires |s| % 8 == 0
    ensures Eights(s + t) == Eights(s) + Eights(t)
    decreases |s|
  {
    if s == [] {
      assert s + t == t;
    } else {
      assert (s + t)[..8] == s[..8] && (s + t)[8..] == s[8..] + t;
      EightsConcat(s[8..], t);
    }
  }

  /** What the buffer knows: its lowest bits are those that have not been put out yet. */
  ghost predicate Keeps(buffer: nat, pending: seq<bool>) {
    buffer < UINT32 && buffer % Pow2(|pending|) == Val(pending)
  }

  lemma {:induction false} PowSplit(a: nat, b: nat)
    ensures Pow2(a + b) == Pow2(a) * Pow2(b)
    decreases b
  {
    if b > 0 {
      PowSplit(a, b - 1);
      assert Pow2(a) * (2 * Pow2(b - 1)) == 2 * (Pow2(a) * Pow2(b - 1));
    }
  }

  lemma Powers()
    ensures Pow2(5) == 32 && Pow2(8) == 256 && Pow2(32) == UINT32
  {
    assert Pow2(4) == 16;
    assert Pow2(8) == 256;
    PowSplit(8, 8);
    PowSplit(16, 16);
  }

  /** Five more bits push the oldest ones out of the buffer, but none that is still needed. */
  lemma Shifted(buffer: nat, pending: seq<bool>, v: nat)
    requires Keeps(buffer, pending) && |pending| < 8 && v < 32
    ensures Keeps((buffer * 32) % UINT32 + v, pending + BitsOf(v, 5))
  {
    Powers();
    ValOfBits(v, 5);
    ValConcat(pending, BitsOf(v, 5));
    ShiftedNumber(buffer, |pending|, Val(pending), v);
  }

  lemma ShiftedNumber(buffer: nat, left: nat, p: nat, v: nat)
    requires left < 8 && v < 32 && buffer < UINT32 && buffer % Pow2(left) == p
    ensures (buffer * 32) % UINT32 + v < UINT32
    ensures ((buffer * 32) % UINT32 + v) % Pow2(left + 5) == p * 32 + v
  {
    var m, k, q, c := Pow2(left), Pow2(27 - left), buffer / Pow2(left), buffer * 32 / UINT32;
    MulFits(buffer, v, c);
    assert Pow2(left + 5) == 32 * m && UINT32 == (32 * m) * k by {
      Powers();
      PowSplit(left, 5);
      PowSplit(left + 5, 27 - left);
    }
    assert buffer == q * m + p;
    Regrouped(buffer, q, m, p, c, k, v);
    DivIs(q - c * k, 32 * m, p * 32 + v);
  }

  /** Five zero bits come in at the bottom. */
  lemma MulFits(buffer: nat, v: nat, c: nat)
    requires v < 32 && c == buffer * 32 / UINT32
    ensures (buffer * 32) % UINT32 == buffer * 32 - c * UINT32 && (buffer * 32) % UINT32 + v < UINT32
  {
  }

  lemma Regrouped(buffer: int, q: int, m: int, p: int, c: int, k: int, v: int)
    requires buffer == q * m + p
    ensures buffer * 32 - c * ((32 * m) * k) + v == (q - c * k) * (32 * m) + (p * 32 + v)
  {
  }

  /** The byte that is put out is the first eight of the pending bits. */
  lemma PutOut(buffer: nat, pending: seq<bool>)
    requires Keeps(buffer, pending) && 8 <= |pending| < 13
    ensures buffer / Pow2(|pending| - 8) % 256 == Val(pending[..8])
    ensures Keeps(buffer, pending[8..])
  {
    var left := |pending| - 8;
    Powers();
    ValConcat(pending[..8], pending[8..]);
    assert pending[..8] + pending[8..] == pending;
    ValBelow(pending[..8]);
    ValBelow(pending[8..]);
    PutOutNumber(buffer, left, Val(pending[..8]), Val(pending[8..]));
  }

  lemma PutOutNumber(buffer: nat, left: nat, hi: nat, lo: nat)
    requires left < 5 && hi < 256 && lo < Pow2(left) && buffer % Pow2(left + 8) == hi * Pow2(left) + lo
    ensures buffer / Pow2(left) % 256 == hi && buffer % Pow2(left) == lo
  {
    Powers();
    PowSplit(left, 8);
    var m, t := Pow2(left), buffer / Pow2(left + 8);
    assert buffer == t * (m * 256) + (hi * m + lo);
    assert t * (m * 256) + hi * m == (t * 256 + hi) * m;
    DivIs(t * 256 + hi, m, lo);
    LastByte(t, hi);
  }

  lemma LastByte(t: int, hi: nat)
    requires hi < 256
    ensures (t * 256 + hi) % 256 == hi
  {
    DivIs(t, 256, hi);
  }

  /** How far decoding has got: the bits of the first `i` digits are those put out and those pending. */
  ghost predicate DecodedTo(secret: seq<Byte>, i: nat, done: seq<bool>, pending: seq<bool>, key: seq<Byte>)
    requires i <= |secret|
  {
    Proper(secret[..i]) && DigitBits(secret[..i]) == done + pending && |done| % 8 == 0 && key == Eights(done)
  }

  lemma OneMore(secret: seq<Byte>, i: nat, done: seq<bool>, pending: seq<bool>, key: seq<Byte>, v: nat) returns (now: seq<bool>)
    requires i < |secret| && DecodedTo(secret, i, done, pending, key) && DigitOf(secret[i]) == Digit(v)
    ensures now == pending + BitsOf(v, 5) && DecodedTo(secret, i + 1, done, now, key)
  {
    assert secret[..i+1] == secret[..i] + [secret[i]];
    DigitBitsAppend(secret[..i], secret[i]);
    now := pending + BitsOf(v, 5);
    assert done + pending + BitsOf(v, 5) == done + now;
  }

  lemma OneGroup(g: seq<bool>)
    requires |g| == 8
    ensures Val(g) < 256 && Eights(g) == [Val(g)]
  {
    Powers();
    ValBelow(g);
    assert g[..8] == g && g[8..] == [];
  }

  lemma GroupDone(done: seq<bool>, g: seq<bool>)
    requires |done| % 8 == 0 && |g| == 8
    ensures Val(g) < 256 && Eights(done + g) == Eights(done) + [Val(g)]
  {
    EightsConcat(done, g);
    OneGroup(g);
  }

  lemma Regroup3(done: seq<bool>, pending: seq<bool>)
    requires |pending| >= 8
    ensures done + pending[..8] + pending[8..] == done + pending
  {
    assert pending[..8] + pending[8..] == pending;
  }

  lemma EightMore(secret: seq<Byte>, i: nat, done: seq<bool>, pending: seq<bool>, key: seq<Byte>, byte: nat)
    returns (next: seq<bool>, left: seq<bool>)
    requires i <= |secret| && DecodedTo(secret, i, done, pending, key) && |pending| >= 8 && byte == Val(pending[..8])
    ensures byte < 256 && left == pending[8..] && DecodedTo(secret, i, next, left, key + [byte])
  {
    next, left := done + pending[..8], pending[8..];
    GroupDone(done, pending[..8]);
    Regroup3(done, pending);
  }

  /** A letter more in the buffer. */
  lemma PutIn(secret: seq<Byte>, i: nat, done: seq<bool>, pending: seq<bool>, key: seq<Byte>, buffer: nat, v: nat)
    returns (now: seq<bool>)
    requires i < |secret| && DecodedTo(secret, i, done, pending, key) && Keeps(buffer, pending) && |pending| < 8
    requires DigitOf(secret[i]) == Digit(v) && v < 32
    ensures |now| == |pending| + 5 && Keeps((buffer * 32) % UINT32 + v, now) && DecodedTo(secret, i + 1, done, now, key)
  {
    Shifted(buffer, pending, v);
    now := OneMore(secret, i, done, pending, key, v);
  }

  /** A byte taken out of the buffer. */
  lemma TakeOut(secret: seq<Byte>, i: nat, done: seq<bool>, pending: seq<bool>, key: seq<Byte>, buffer: nat)
    returns (next: seq<bool>, left: seq<bool>)
    requires i <= |secret| && DecodedTo(secret, i, done, pending, key) && Keeps(buffer, pending) && 8 <= |pending| < 13
    ensures |left| == |pending| - 8 && Keeps(buffer, left)
    ensures var byte := buffer / Pow2(|pending| - 8) % 256; DecodedTo(secret, i, next, left, key + [byte])
  {
    PutOut(buffer, pending);
    next, left := EightMore(secret, i, done, pending, key, buffer / Pow2(|pending| - 8) % 256);
  }

  /** `decodeSecret` */
  method DecodeSecret(secret: seq<Byte>) returns (key: seq<Byte>)
    ensures key == Decoded(secret)
  {
    key := [];
    var buffer, left := 0, 0;
    ghost var done: seq<bool>, pending: seq<bool> := [], [];
    assert secret[..0] == [];
    for i := 0 to |secret|
      invariant DecodedTo(secret, i, done, pending, key) && left == |pending| < 8
      invariant buffer >= 0 && Keeps(buffer, pending)
    {
      var ch := secret[i];
      if DigitOf(ch).NoDigit? {
        return [];
      }
      var v := DigitOf(ch).v;
      pending := PutIn(secret, i, done, pending, key, buffer, v);
      buffer := (buffer * 32) % UINT32 + v;
      left := left + 5;
      if left >= 8 {
        done, pending := TakeOut(secret, i + 1, done, pending, key, buffer);
        left := left - 8;
        var byte := buffer / Pow2(left) % 256;
        key := key + [byte];
      }
    }
    assert secret[..|secret|] == secret;
    LeftOver(done, pending);
  }

  /** Less than eight bits make no byte. */
  lemma LeftOver(done: seq<bool>, pending: seq<bool>)
    requires |done| % 8 == 0 && |pending| < 8
    ensures Eights(done + pending) == Eights(done)
  {
    EightsConcat(done, pending);
    assert Eights(done) + [] == Eights(done);
  }

  // ----- the alphabet and the order of the bits, written out -----

  const ALPHABET := "ABCDEFGHIJKLMNOPQRSTUVWXYZ234567"

  /** The digits are those of the table in section 6 of RFC 4648, and no other character is one. */
  lemma AlphabetIs(ch: Byte)
    ensures forall v :: 0 <= v < |ALPHABET| && ALPHABET[v] as nat == ch ==> DigitOf(ch) == Digit(v)
    ensures DigitOf(ch).Digit? ==> ALPHABET[DigitOf(ch).v] as nat == ch
  {
    assert |ALPHABET| == 32;
    assert forall v :: 0 <= v < 26 ==> ALPHABET[v] as nat == 65 + v;
    assert forall v :: 26 <= v < 32 ==> ALPHABET[v] as nat == 24 + v;
  }

  /** The first digit is the upper five bits of the first byte: two digits `x`, `y` are the byte 8 x + y / 4. */
  lemma TwoDigits(s: seq<Byte>, x: nat, y: nat)
    requires |s| == 2 && x < 32 && y < 32 && DigitOf(s[0]) == Digit(x) && DigitOf(s[1]) == Digit(y)
    ensures Decoded(s) == [8 * x + y / 4]
  {
    var a, b := BitsOf(x, 5), BitsOf(y, 5);
    assert Pow2(5) == 32 && Pow2(3) == 8 && Pow2(2) == 4;
    assert s[1..][1..] == [];
    assert DigitBits(s[1..]) == b + [];
    assert DigitBits(s) == a + b;
    UpperThree(y, b);
    assert (a + b)[..8] == a + b[..3];
    ValConcat(a, b[..3]);
    ValOfBits(x, 5);
    assert (a + b)[8..] == b[3..];
    assert Eights(a + b) == [Val((a + b)[..8])] + Eights((a + b)[8..]);
  }

  lemma UpperThree(y: nat, b: seq<bool>)
    requires y < 32 && b == BitsOf(y, 5)
    ensures |b[..3]| == 3 && Val(b[..3]) == y / 4 && Pow2(3) == 8
  {
    assert BitsOf(y, 5) == BitsOf(y / 2, 4) + [y % 2 == 1];
    assert BitsOf(y / 2, 4) == BitsOf(y / 2 / 2, 3) + [y / 2 % 2 == 1];
    assert b[..3] == BitsOf(y / 4, 3);
    ValOfBits(y / 4, 3);
  }
}
