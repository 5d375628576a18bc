/**
 The byte form of attributes tag by tag, with the numbers written out: what the bytes of each tag do
 to an item, and as what bytes each attribute is written.
 */
module AttrTags {
  import opened Streams
  import opened ItemTree
  import opened AttrCodec

  // ----- numbers, byte by byte -----

  function Bytes1(n: nat): seq<Byte>
    requires n < 0x100
  {
    [n]
  }

  function Bytes2(n: nat): seq<Byte>
    requires n < 0x1_0000
  {
    [n % 256, n / 256]
  }

  function Bytes4(n: nat): seq<Byte>
    requires n < 0x1_0000_0000
  {
    [n % 256, n / 256 % 256, n / 65536 % 256, n / 16777216]
  }

  function Bytes8(n: nat): seq<Byte>
    requires n < 0x1_0000_0000_0000_0000
  {
    [n % 256, n / 0x100 % 256, n / 0x1_0000 % 256, n / 0x100_0000 % 256] + Bytes4(n / 0x1_0000_0000)
  }

  /** The number an unsigned byte stands for if its highest bit is a sign; likewise for four and eight bytes. */
  function Signed1(n: nat): int {
    if n < 128 then n else n - 256
  }

  function Signed4(n: nat): int {
    if n < 0x8000_0000 then n else n - 0x1_0000_0000
  }

  function Signed8(n: nat): int {
    if n < 0x8000_0000_0000_0000 then n else n - 0x1_0000_0000_0000_0000
  }

  lemma LeIs1(n: nat)
    requires n < 0x100
    ensures Le(n, 1) == Bytes1(n)
  {
    assert Le(n / 256, 0) == [];
  }

  lemma LeIs2(n: nat)
    requires n < 0x1_0000
    ensures Le(n, 2) == Bytes2(n)
  {
    LeIs1(n / 256);
  }

  lemma LeIs4(n: nat)
    requires n < 0x1_0000_0000
    ensures Le(n, 4) == Bytes4(n)
  {
    LeIs2(n / 65536);
    assert Le(n, 4) == [n % 256] + Le(n / 256, 3);
    assert Le(n / 256, 3) == [n / 256 % 256] + Le(n / 256 / 256, 2);
    assert n / 256 / 256 == n / 65536;
  }

  lemma LeStep(n: nat, width: nat, m: nat)
    requires width > 0 && m == n / 256
    ensures Le(n, width) == [n % 256] + Le(m, width - 1)
  {
  }

  lemma LeIs8(n: nat)
    requires n < 0x1_0000_0000_0000_0000
    ensures Le(n, 8) == Bytes8(n)
  {
    var n1, n2, n3, n4 := n / 0x100, n / 0x1_0000, n / 0x100_0000, n / 0x1_0000_0000;
    LeStep(n, 8, n1);
    assert n2 == n1 / 256;
    LeStep(n1, 7, n2);
    assert n3 == n2 / 256;
    LeStep(n2, 6, n3);
    assert n4 == n3 / 256;
    LeStep(n3, 5, n4);
    LeIs4(n4);
  }

  lemma Takes1(n: nat, rest: seq<Byte>)
    requires n < 0x100
    ensures TakeNumber(Bytes1(n) + rest, 1) == Got(n, rest) && TakeNumber([n] + rest, 1) == Got(n, rest)
  {
    Spans();
    LeIs1(n);
    NumberReads(n, 1, rest);
  }

  lemma Takes2(n: nat, rest: seq<Byte>)
    requires n < 0x1_0000
    ensures TakeNumber(Bytes2(n) + rest, 2) == Got(n, rest)
  {
    Spans();
    LeIs2(n);
    NumberReads(n, 2, rest);
  }

  lemma Takes4(n: nat, rest: seq<Byte>)
    requires n < 0x1_0000_0000
    ensures TakeNumber(Bytes4(n) + rest, 4) == Got(n, rest)
  {
    Spans();
    LeIs4(n);
    NumberReads(n, 4, rest);
  }

  lemma Takes8(n: nat, rest: seq<Byte>)
    requires n < 0x1_0000_0000_0000_0000
    ensures TakeNumber(Bytes8(n) + rest, 8) == Got(n, rest)
  {
    Spans();
    LeIs8(n);
    NumberReads(n, 8, rest);
  }

  /** A string is its length in two bytes and its bytes. */
  function StringIs(s: seq<Byte>): seq<Byte>
    requires |s| < 0x1_0000
  {
    Bytes2(|s|) + s
  }

  lemma TakesString(s: seq<Byte>, rest: seq<Byte>)
    requires |s| < 0x1_0000
    ensures StringIs(s) == StringBytes(s) && TakeString(StringIs(s) + rest) == Got(s, rest)
  {
    LeIs2(|s|);
    StringReads(s, rest);
  }

  // ----- what the bytes of a tag do -----

  /** The bytes set one numeric attribute and are consumed. */
  predicate Sets(t: Kind, a: State, tag: Byte, b: seq<Byte>, rest: seq<Byte>, k: nat, n: int) {
    AttrRead(t, a, tag, b + rest) == Go(State(a.count, a.vals[k := Number(n)], a.customs), rest)
  }

  /** The bytes set one attribute to a string, or nothing if it is empty, and are consumed. */
  predicate SetsText(t: Kind, a: State, tag: Byte, b: seq<Byte>, rest: seq<Byte>, k: nat, s: seq<Byte>) {
    AttrRead(t, a, tag, b + rest) == Go(if s == [] then a else State(a.count, a.vals[k := Text(s)], a.customs), rest)
  }

  /** The bytes are consumed without effect. */
  predicate Ignores(t: Kind, a: State, tag: Byte, b: seq<Byte>, rest: seq<Byte>) {
    AttrRead(t, a, tag, b + rest) == Go(a, rest)
  }

  function NotBelowZero(n: int): int {
    if n < 0 then 0 else n
  }

  lemma FieldReads(t: Kind, a: State, tag: Byte, b: seq<Byte>, rest: seq<Byte>, v: Value)
    requires FieldOf(tag).Field? && Decoded(FieldOf(tag).form, b + rest) == Got(v, rest)
    ensures AttrRead(t, a, tag, b + rest) == Go(Stored(a, tag, v), rest)
  {
  }

  lemma Reads4(t: Kind, a: State, tag: Byte, n: nat, rest: seq<Byte>, k: nat, form: Form)
    requires n < 0x1_0000_0000 && FieldOf(tag) == Field(k, form) && (form == Unsigned(4) || form == Twos(4))
    ensures AttrRead(t, a, tag, Bytes4(n) + rest) == Go(Stored(a, tag, Number(if form.Twos? then Signed4(n) else n)), rest)
  {
    Spans();
    Takes4(n, rest);
    FieldReads(t, a, tag, Bytes4(n), rest, Number(if form.Twos? then Signed4(n) else n));
  }

  lemma Reads1(t: Kind, a: State, tag: Byte, n: nat, rest: seq<Byte>, k: nat, form: Form)
    requires n < 0x100 && FieldOf(tag) == Field(k, form) && (form == Unsigned(1) || form == Twos(1))
    ensures AttrRead(t, a, tag, Bytes1(n) + rest) == Go(Stored(a, tag, Number(if form.Twos? then Signed1(n) else n)), rest)
  {
    Spans();
    Takes1(n, rest);
    FieldReads(t, a, tag, Bytes1(n), rest, Number(if form.Twos? then Signed1(n) else n));
  }

  lemma Plain4(t: Kind, a: State, tag: Byte, n: nat, rest: seq<Byte>, k: nat, form: Form)
    requires n < 0x1_0000_0000 && FieldOf(tag) == Field(k, form) && (form == Unsigned(4) || form == Twos(4)) && 9 <= k <= 13
    ensures Sets(t, a, tag, Bytes4(n), rest, k, if form.Twos? then Signed4(n) else n)
  {
    Reads4(t, a, tag, n, rest, k, form);
  }

  /** Weight, attack, defence, extra defence and armour: four bytes. */
  lemma FourByteTags(t: Kind, a: State, n: nat, rest: seq<Byte>)
    requires n < 0x1_0000_0000
    ensures Sets(t, a, 27, Bytes4(n), rest, 9, n)
    ensures Sets(t, a, 28, Bytes4(n), rest, 10, Signed4(n))
    ensures Sets(t, a, 29, Bytes4(n), rest, 11, Signed4(n))
    ensures Sets(t, a, 30, Bytes4(n), rest, 12, Signed4(n))
    ensures Sets(t, a, 31, Bytes4(n), rest, 13, Signed4(n))
  {
    Plain4(t, a, 27, n, rest, 9, Unsigned(4));
    Plain4(t, a, 28, n, rest, 10, Twos(4));
    Plain4(t, a, 29, n, rest, 11, Twos(4));
    Plain4(t, a, 30, n, rest, 12, Twos(4));
    Plain4(t, a, 31, n, rest, 13, Twos(4));
  }

  lemma CastSmall(n: nat)
    ensures n < 0x100 ==> Cast(n, 1) == n
    ensures n < 0x1_0000 ==> Cast(n, 2) == n
    ensures n < 0x1_0000_0000 ==> Cast(n, 4) == n && Signed(n, 4) == Signed4(n)
  {
    Spans();
  }

  lemma CastLarge(n: int)
    ensures Cast(n, 8) == n % 0x1_0000_0000_0000_0000
  {
    Spans();
  }

  /** The duration, never below zero: four bytes. */
  lemma DurationTag(t: Kind, a: State, n: nat, rest: seq<Byte>)
    requires n < 0x1_0000_0000
    ensures Sets(t, a, 16, Bytes4(n), rest, 17, NotBelowZero(Signed4(n)))
  {
    Reads4(t, a, 16, n, rest, 17, Twos(4));
  }

  /** The date: four bytes. */
  lemma DateTag(t: Kind, a: State, n: nat, rest: seq<Byte>)
    requires n < 0x1_0000_0000
    ensures Sets(t, a, 18, Bytes4(n), rest, 4, Signed4(n))
  {
    CastSmall(n);
    Reads4(t, a, 18, n, rest, 4, Unsigned(4));
  }

  /** Hit chance, range and the open flag: one byte.  A state of decay other than 0 makes the item one that is to decay. */
  lemma OneByteTags(t: Kind, a: State, n: nat, rest: seq<Byte>)
    requires n < 0x100
    ensures Sets(t, a, 32, [n], rest, 14, Signed1(n))
    ensures Sets(t, a, 33, [n], rest, 15, n)
    ensures Sets(t, a, 37, [n], rest, 25, Signed1(n))
    ensures if n == 0 then Ignores(t, a, 17, [n], rest) else Sets(t, a, 17, [n], rest, 18, 2)
  {
    Reads1(t, a, 32, n, rest, 14, Twos(1));
    Reads1(t, a, 33, n, rest, 15, Unsigned(1));
    Reads1(t, a, 37, n, rest, 25, Twos(1));
    Reads1(t, a, 17, n, rest, 18, Unsigned(1));
  }

  lemma Reads2(t: Kind, a: State, tag: Byte, n: nat, rest: seq<Byte>, k: nat)
    requires n < 0x1_0000 && FieldOf(tag) == Field(k, Unsigned(2))
    ensures AttrRead(t, a, tag, Bytes2(n) + rest) == Go(Stored(a, tag, Number(n)), rest)
  {
    Takes2(n, rest);
    FieldReads(t, a, tag, Bytes2(n), rest, Number(n));
  }

  /** Action id, which is 100 at least, and unique id, which an item gets once: two bytes. */
  lemma IdTags(t: Kind, a: State, n: nat, rest: seq<Byte>)
    requires n < 0x1_0000
    ensures Sets(t, a, 4, Bytes2(n), rest, 0, if n < 100 then 100 else n)
    ensures if 1 in a.vals then Ignores(t, a, 5, Bytes2(n), rest) else Sets(t, a, 5, Bytes2(n), rest, 1, n)
  {
    Reads2(t, a, 4, n, rest, 0);
    Reads2(t, a, 5, n, rest, 1);
  }

  lemma ReadsString(t: Kind, a: State, tag: Byte, s: seq<Byte>, rest: seq<Byte>, k: nat)
    requires |s| < 0x1_0000 && FieldOf(tag) == Field(k, Chars)
    ensures AttrRead(t, a, tag, StringIs(s) + rest) == Go(WithStr(a, k, s), rest)
  {
    TakesString(s, rest);
    FieldReads(t, a, tag, StringIs(s), rest, Text(s));
  }

  /** Text, description, writer, name, article and plural name; the last kind of string nobody keeps. */
  lemma StringTags(t: Kind, a: State, s: seq<Byte>, rest: seq<Byte>)
    requires |s| < 0x1_0000
    ensures SetsText(t, a, 6, StringIs(s), rest, 3, s)
    ensures SetsText(t, a, 7, StringIs(s), rest, 2, s)
    ensures SetsText(t, a, 19, StringIs(s), rest, 5, s)
    ensures SetsText(t, a, 24, StringIs(s), rest, 6, s)
    ensures SetsText(t, a, 25, StringIs(s), rest, 7, s)
    ensures SetsText(t, a, 26, StringIs(s), rest, 8, s)
    ensures Ignores(t, a, 35, StringIs(s), rest)
  {
    ReadsString(t, a, 6, s, rest, 3);
    ReadsString(t, a, 7, s, rest, 2);
    ReadsString(t, a, 19, s, rest, 5);
    ReadsString(t, a, 24, s, rest, 6);
    ReadsString(t, a, 25, s, rest, 7);
    ReadsString(t, a, 26, s, rest, 8);
    ReadsString(t, a, 35, s, rest, 24);
  }

  /** What a count does: the fluid of a fluid container, the charges of something with charges, or the size of a stack. */
  function Recounted(t: Kind, a: State, n: nat): State {
    if t.fluid then State(a.count, a.vals[21 := Number(n)], a.customs)
    else if t.charges > 0 && !t.stackable then State(a.count, a.vals[20 := Number(n)], a.customs)
    else State(n % 256, a.vals, a.customs)
  }

  /** Count and rune charges, one byte, and charges, two bytes, set the same thing. */
  lemma CountTags(t: Kind, a: State, n: nat, rest: seq<Byte>)
    ensures n < 0x100 ==> AttrRead(t, a, 15, [n] + rest) == Go(Recounted(t, a, n), rest)
    ensures n < 0x100 ==> AttrRead(t, a, 12, [n] + rest) == Go(Recounted(t, a, n), rest)
    ensures n < 0x1_0000 ==> AttrRead(t, a, 22, Bytes2(n) + rest) == Go(Recounted(t, a, n), rest)
  {
    if n < 0x100 {
      Takes1(n, rest);
    }
    if n < 0x1_0000 {
      Takes2(n, rest);
    }
  }

  /** The contents of a container, whose number is four bytes; other items do not have any. */
  lemma ContentsTag(t: Kind, a: State, n: nat, rest: seq<Byte>)
    requires n < 0x1_0000_0000
    ensures AttrRead(t, a, 23, Bytes4(n) + rest) == if t.container then Contents(a, n, rest) else Failed(a)
  {
    Takes4(n, rest);
  }

  /** Depots, doors, beds and teleports: their bytes are skipped, two, one, four, four and five of them. */
  lemma SkippedTags(t: Kind, a: State, b: seq<Byte>, rest: seq<Byte>)
    ensures |b| == 2 ==> Ignores(t, a, 10, b, rest)
    ensures |b| == 1 ==> Ignores(t, a, 14, b, rest)
    ensures |b| == 4 ==> Ignores(t, a, 20, b, rest) && Ignores(t, a, 21, b, rest)
    ensures |b| == 5 ==> Ignores(t, a, 8, b, rest)
  {
    assert (b + rest)[|b|..] == rest;
  }

  /** Every other byte in the place of a tag is an error. */
  lemma OtherTags(t: Kind, a: State, tag: Byte, b: seq<Byte>)
    requires tag !in [4, 5, 6, 7, 8, 10, 12, 14, 15, 16, 17, 18, 19, 20, 21, 22, 23, 24, 25, 26, 27, 28, 29, 30, 31, 32, 33, 34, 35, 37]
    ensures AttrRead(t, a, tag, b).Failed?
  {
  }

  lemma FieldFails(t: Kind, a: State, tag: Byte, b: seq<Byte>)
    requires FieldOf(tag).Field? && Decoded(FieldOf(tag).form, b).Short?
    ensures AttrRead(t, a, tag, b).Failed?
  {
  }

  lemma DecodedShort(form: Form, b: seq<Byte>)
    requires match form case Chars => |b| < 2 case Unsigned(width) => |b| < width case Twos(width) => |b| < width
    ensures Decoded(form, b).Short?
  {
  }

  /** With too few bytes for a number or for the length of a string reading fails. */
  lemma ShortFails(t: Kind, a: State, tag: Byte, b: seq<Byte>)
    requires || (tag in [17, 32, 33, 37] && |b| < 1) || (tag in [4, 5, 6, 7, 19, 24, 25, 26, 35] && |b| < 2)
             || (tag in [16, 18, 27, 28, 29, 30, 31] && |b| < 4)
    ensures AttrRead(t, a, tag, b).Failed?
  {
    DecodedShort(FieldOf(tag).form, b);
    FieldFails(t, a, tag, b);
  }

  /** Likewise for counts, charges and contents. */
  lemma ShortCountFails(t: Kind, a: State, tag: Byte, b: seq<Byte>)
    requires (tag in [12, 15] && |b| < 1) || (tag == 22 && |b| < 2) || (tag == 23 && |b| < 4)
    ensures AttrRead(t, a, tag, b).Failed?
  {
    assert FieldOf(tag) == NoField;
  }

  /** Likewise for what is skipped. */
  lemma ShortSkipFails(t: Kind, a: State, tag: Byte, b: seq<Byte>)
    requires (tag == 14 && |b| < 1) || (tag == 10 && |b| < 2) || (tag in [20, 21] && |b| < 4) || (tag == 8 && |b| < 5)
    ensures AttrRead(t, a, tag, b).Failed?
  {
    assert FieldOf(tag) == NoField;
  }

  lemma ShortCustomFails(t: Kind, a: State, tag: Byte, b: seq<Byte>)
    requires tag == 34 && |b| < 8
    ensures AttrRead(t, a, tag, b).Failed?
  {
  }

  /** Likewise for a string that is cut short. */
  lemma CutStringFails(t: Kind, a: State, tag: Byte, n: nat, b: seq<Byte>)
    requires tag in [6, 7, 19, 24, 25, 26, 35] && n < 0x1_0000 && |b| < n
    ensures AttrRead(t, a, tag, Bytes2(n) + b).Failed?
  {
    Takes2(n, b);
  }

  /** Custom attributes: their number is eight bytes; keys are strings and are stored in lower case; a byte tells the kind of value. */
  lemma CustomTag(t: Kind, a: State, tag: Byte, n: nat, b: seq<Byte>, rest: seq<Byte>)
    requires tag == 34 && n < 0x1_0000_0000_0000_0000 && b == Bytes8(n)
    ensures AttrRead(t, a, tag, b + rest) == CustomsRead(a, n, rest)
  {
    Takes8(n, rest);
    CustomNumber(t, a, tag, n, b + rest, rest);
  }

  lemma CustomNumber(t: Kind, a: State, tag: Byte, n: nat, b: seq<Byte>, rest: seq<Byte>)
    requires tag == 34 && TakeNumber(b, 8) == Got(n, rest)
    ensures AttrRead(t, a, tag, b) == CustomsRead(a, n, rest)
  {
    assert FieldOf(tag) == NoField && tag == CUSTOM_TAG && tag != COUNT_TAG && tag != RUNE_CHARGES_TAG && tag != CHARGES_TAG;
  }

  lemma NoCustoms(a: State, rest: seq<Byte>)
    ensures CustomsRead(a, 0, rest) == Go(a, rest)
  {
  }

  /** One custom attribute is read, and then the others. */
  predicate StoresCustom(a: State, n: nat, key: seq<Byte>, b: seq<Byte>, rest: seq<Byte>, v: Custom)
    requires |key| < 0x1_0000
  {
    CustomsRead(a, n + 1, StringIs(key) + (b + rest)) ==
    CustomsRead(State(a.count, a.vals, a.customs[InLowerCase(key) := v]), n, rest)
  }

  /** Letters in lower case, everything else as it is. */
  function InLowerCase(s: seq<Byte>): seq<Byte> {
    seq(|s|, i requires 0 <= i < |s| => if 'A' as nat <= s[i] <= 'Z' as nat then s[i] - 'A' as nat + 'a' as nat else s[i])
  }

  lemma {:induction false} LowerIs(s: seq<Byte>)
    ensures Lower(s) == InLowerCase(s)
  {
    if s != [] {
      LowerIs(s[1..]);
      assert InLowerCase(s)[1..] == InLowerCase(s[1..]);
      assert InLowerCase(s) == [InLowerCase(s)[0]] + InLowerCase(s)[1..];
    }
  }

  lemma StoresOne(a: State, n: nat, key: seq<Byte>, b: seq<Byte>, rest: seq<Byte>, v: Custom)
    requires |key| < 0x1_0000 && CustomRead(b + rest) == Got(v, rest)
    ensures StoresCustom(a, n, key, b, rest, v)
  {
    LowerIs(key);
    TakesString(key, b + rest);
    EntryTaken(key, v, n, a, StringIs(key) + (b + rest), b + rest, rest);
  }

  /** A string is 1, a truth value 4. */
  lemma CustomKinds(a: State, n: nat, key: seq<Byte>, s: seq<Byte>, x: nat, rest: seq<Byte>)
    requires |key| < 0x1_0000 && |s| < 0x1_0000 && x < 256
    ensures StoresCustom(a, n, key, [1] + StringIs(s), rest, CustomText(s))
    ensures StoresCustom(a, n, key, [4] + [x], rest, CustomBool(x != 0))
  {
    KindReads(1, StringIs(s), rest);
    TakesString(s, rest);
    StoresOne(a, n, key, [1] + StringIs(s), rest, CustomText(s));
    Takes1(x, rest);
    KindReads(4, [x], rest);
    StoresOne(a, n, key, [4] + [x], rest, CustomBool(x != 0));
  }

  lemma SignedIs8(m: nat)
    requires m < 0x1_0000_0000_0000_0000
    ensures Signed(m, 8) == Signed8(m)
  {
    Spans();
  }

  /** A whole number is 2, a number with a point 3. */
  lemma CustomNumbers(a: State, n: nat, key: seq<Byte>, m: nat, b: seq<Byte>, rest: seq<Byte>)
    requires |key| < 0x1_0000 && m < 0x1_0000_0000_0000_0000 && b == Bytes8(m)
    ensures StoresCustom(a, n, key, [2] + b, rest, CustomInt(Signed8(m)))
    ensures StoresCustom(a, n, key, [3] + b, rest, CustomDouble(m))
  {
    SignedIs8(m);
    Takes8(m, rest);
    OneNumber(a, n, key, m, b, rest);
  }

  lemma OneNumber(a: State, n: nat, key: seq<Byte>, m: nat, b: seq<Byte>, rest: seq<Byte>)
    requires |key| < 0x1_0000 && TakeNumber(b + rest, 8) == Got(m, rest)
    ensures StoresCustom(a, n, key, [2] + b, rest, CustomInt(Signed(m, 8)))
    ensures StoresCustom(a, n, key, [3] + b, rest, CustomDouble(m))
  {
    KindReads(2, b, rest);
    StoresOne(a, n, key, [2] + b, rest, CustomInt(Signed(m, 8)));
    KindReads(3, b, rest);
    StoresOne(a, n, key, [3] + b, rest, CustomDouble(m));
  }

  lemma KindReads(which: Byte, b: seq<Byte>, rest: seq<Byte>)
    ensures [which] + b + rest != [] && ([which] + b + rest)[0] == which && ([which] + b + rest)[1..] == b + rest
  {
  }

  /** Any other kind of value is an error. */
  lemma OtherKinds(b: seq<Byte>)
    requires b == [] || b[0] == 0 || b[0] > 4
    ensures CustomRead(b).Short?
  {
  }

  // ----- as what bytes an attribute is written -----

  function Unsigned1(n: int): nat {
    n % 0x100
  }

  function Unsigned2(n: int): nat {
    n % 0x1_0000
  }

  function Unsigned4(n: int): nat {
    n % 0x1_0000_0000
  }

  lemma Writes4(t: Kind, a: State, now: int, tag: Byte, k: nat, form: Form)
    requires FieldOf(tag) == Field(k, form) && (form == Unsigned(4) || form == Twos(4)) && 9 <= k <= 13
    ensures k !in a.vals ==> Chunk(t, a, now, tag) == []
    ensures k in a.vals && a.vals[k].Number? ==> Chunk(t, a, now, tag) == [tag] + Bytes4(Unsigned4(a.vals[k].n))
  {
    Spans();
    if k in a.vals && a.vals[k].Number? {
      LeIs4(Unsigned4(a.vals[k].n));
    }
  }

  /** The attribute, if it is there, is written under this tag with its four lowest bytes. */
  predicate Written4(t: Kind, a: State, now: int, tag: Byte, k: nat) {
    && (k !in a.vals ==> Chunk(t, a, now, tag) == [])
    && (k in a.vals && a.vals[k].Number? ==> Chunk(t, a, now, tag) == [tag] + Bytes4(Unsigned4(a.vals[k].n)))
  }

  /** The same with the lowest byte. */
  predicate Written1(t: Kind, a: State, now: int, tag: Byte, k: nat) {
    && (k !in a.vals ==> Chunk(t, a, now, tag) == [])
    && (k in a.vals && a.vals[k].Number? ==> Chunk(t, a, now, tag) == [tag, Unsigned1(a.vals[k].n)])
  }

  /** The attribute, if it is there, is written under this tag as a string. */
  predicate WrittenText(t: Kind, a: State, now: int, tag: Byte, k: nat) {
    && (k !in a.vals ==> Chunk(t, a, now, tag) == [])
    && (k in a.vals && a.vals[k].Text? && a.vals[k].s != [] ==>
          Chunk(t, a, now, tag) == [tag] + if |a.vals[k].s| < 0x1_0000 then StringIs(a.vals[k].s) else [0, 0])
  }

  /** Weight, attack, defence, extra defence and armour. */
  lemma FourBytesWritten(t: Kind, a: State, now: int)
    ensures Written4(t, a, now, 27, 9) && Written4(t, a, now, 28, 10) && Written4(t, a, now, 29, 11)
    ensures Written4(t, a, now, 30, 12) && Written4(t, a, now, 31, 13)
  {
    Writes4(t, a, now, 27, 9, Unsigned(4));
    Writes4(t, a, now, 28, 10, Twos(4));
    Writes4(t, a, now, 29, 11, Twos(4));
    Writes4(t, a, now, 30, 12, Twos(4));
    Writes4(t, a, now, 31, 13, Twos(4));
  }

  lemma Writes1(t: Kind, a: State, now: int, tag: Byte, k: nat, form: Form)
    requires FieldOf(tag) == Field(k, form) && (form == Unsigned(1) || form == Twos(1)) && k in [14, 15, 25]
    ensures Written1(t, a, now, tag, k)
  {
    Spans();
    if k in a.vals && a.vals[k].Number? {
      LeIs1(Unsigned1(a.vals[k].n));
    }
  }

  /** Hit chance, range and the open flag. */
  lemma OneByteWritten(t: Kind, a: State, now: int)
    ensures Written1(t, a, now, 32, 14) && Written1(t, a, now, 33, 15) && Written1(t, a, now, 37, 25)
  {
    Writes1(t, a, now, 32, 14, Twos(1));
    Writes1(t, a, now, 33, 15, Unsigned(1));
    Writes1(t, a, now, 37, 25, Twos(1));
  }

  lemma WritesText(t: Kind, a: State, now: int, tag: Byte, k: nat)
    requires FieldOf(tag) == Field(k, Chars) && k in [2, 3, 5, 6, 7, 8, 24]
    ensures WrittenText(t, a, now, tag, k)
  {
    if k in a.vals && a.vals[k].Text? {
      if |a.vals[k].s| < 0x1_0000 {
        LeIs2(|a.vals[k].s|);
      } else {
        LeIs2(0);
      }
    }
  }

  /** Text, description, writer, name, article, plural name, and the kind of string nobody keeps. */
  lemma StringsWritten(t: Kind, a: State, now: int)
    ensures WrittenText(t, a, now, 6, 3) && WrittenText(t, a, now, 7, 2) && WrittenText(t, a, now, 19, 5)
    ensures WrittenText(t, a, now, 24, 6) && WrittenText(t, a, now, 25, 7) && WrittenText(t, a, now, 26, 8)
    ensures WrittenText(t, a, now, 35, 24)
  {
    WritesText(t, a, now, 6, 3);
    WritesText(t, a, now, 7, 2);
    WritesText(t, a, now, 19, 5);
    WritesText(t, a, now, 24, 6);
    WritesText(t, a, now, 25, 7);
    WritesText(t, a, now, 26, 8);
    WritesText(t, a, now, 35, 24);
  }

  /** The action id of a thing that can be moved, unless its two lowest bytes are zero; unique ids are not written. */
  lemma ActionWritten(t: Kind, a: State, now: int)
    ensures var n := if 0 in a.vals && a.vals[0].Number? then Unsigned2(a.vals[0].n) else 0;
            Chunk(t, a, now, 4) == if t.moveable && n != 0 then [4] + Bytes2(n) else []
    ensures 5 !in ORDER
  {
    Spans();
    LeIs2(if 0 in a.vals && a.vals[0].Number? then Unsigned2(a.vals[0].n) else 0);
  }

  /** The date, unless it is zero. */
  lemma DateWritten(t: Kind, a: State, now: int)
    ensures var n := if 4 in a.vals && a.vals[4].Number? then a.vals[4].n else 0;
            Chunk(t, a, now, 18) == if n != 0 then [18] + Bytes4(Unsigned4(n)) else []
  {
    Spans();
    LeIs4(Unsigned4(if 4 in a.vals && a.vals[4].Number? then a.vals[4].n else 0));
  }

  predicate HasNumber(a: State, k: nat, n: int) {
    k in a.vals && a.vals[k] == Number(n)
  }

  /** What is left of the time of an item that decays or is being stopped; of others, the duration.  Numbers of 31 bits. */
  lemma LeftIs(a: State, now: int, n: int, due: int)
    requires HasNumber(a, 17, n) && 0 <= n < 0x8000_0000
    ensures HasNumber(a, 23, due) && (HasNumber(a, 18, 1) || HasNumber(a, 18, 3)) && -0x8000_0000 <= due - now < 0x8000_0000 ==>
              DurationLeft(a, now) == NotBelowZero(due - now)
    ensures 18 !in a.vals || HasNumber(a, 18, 0) || HasNumber(a, 18, 2) ==> DurationLeft(a, now) == n
  {
    Spans();
  }

  /** The duration, if there is one. */
  lemma DurationWritten(t: Kind, a: State, now: int)
    requires 17 in a.vals && 0 <= DurationLeft(a, now) < 0x8000_0000
    ensures Chunk(t, a, now, 16) == [16] + Bytes4(DurationLeft(a, now))
  {
    CastSmall(DurationLeft(a, now));
    LeIs4(DurationLeft(a, now));
  }

  lemma NoDuration(t: Kind, a: State, now: int)
    ensures 17 !in a.vals ==> Chunk(t, a, now, 16) == []
  {
  }

  /** The state of decay, if the item decays or is to decay. */
  lemma DecayWritten(t: Kind, a: State, now: int)
    ensures HasNumber(a, 18, 1) ==> Chunk(t, a, now, 17) == [17, 1]
    ensures HasNumber(a, 18, 2) ==> Chunk(t, a, now, 17) == [17, 2]
    ensures 18 !in a.vals || HasNumber(a, 18, 0) || HasNumber(a, 18, 3) ==> Chunk(t, a, now, 17) == []
  {
    Spans();
    LeIs1(1);
    LeIs1(2);
  }

  function NumberOf(a: State, k: nat): int {
    if k in a.vals && a.vals[k].Number? then a.vals[k].n else 0
  }

  /** The count of stacks and fluids: the fluid, or the size. */
  lemma CountWritten(t: Kind, a: State, n: nat)
    requires n == if t.fluid then Unsigned2(NumberOf(a, 21)) else a.count
    ensures CountChunk(t, a) == if t.fluid || t.stackable then [15, n % 256] else []
  {
    Spans();
    LeIs1(n % 256);
    if t.fluid || t.stackable {
      assert SubType(t, a) == n;
      assert CountChunk(t, a) == [15] + Le(n % 256, 1);
    }
  }

  /** Charges, if there are any. */
  lemma ChargesWritten(a: State, n: nat)
    requires n == Unsigned2(NumberOf(a, 20))
    ensures ChargesChunk(a) == if n == 0 then [] else [22] + Bytes2(n)
  {
    Spans();
    LeIs2(n);
  }

  /** Attributes are written one after the other. */
  lemma {:induction false} ChunksConcat(t: Kind, a: State, now: int, tags: seq<Byte>, more: seq<Byte>)
    ensures Chunks(t, a, now, tags + more) == Chunks(t, a, now, tags) + Chunks(t, a, now, more)
    decreases |tags|
  {
    if tags == [] {
      assert tags + more == more;
    } else {
      assert (tags + more)[1..] == tags[1..] + more;
      ChunksConcat(t, a, now, tags[1..], more);
    }
  }

  /** The order: count, charges, the simple attributes from action id to the open flag, custom attributes. */
  lemma OrderWritten(t: Kind, a: State, now: int, keys: seq<seq<Byte>>, tags: seq<Byte>)
    requires Enumerates(keys, a.customs)
    requires tags == [4, 6, 18, 19, 7, 16, 17, 24, 25, 26, 27, 28, 29, 30, 31, 32, 33, 35, 37]
    ensures Serialized(t, a, now, keys) == CountChunk(t, a) + ChargesChunk(a) + Chunks(t, a, now, tags) + CustomChunk(a, keys)
  {
    assert tags == ORDER;
  }

  /** Custom attributes: the tag, their number in eight bytes, and the entries; nothing if there are none. */
  lemma CustomsWritten(a: State, keys: seq<seq<Byte>>, n: nat, b: seq<Byte>)
    requires Enumerates(keys, a.customs) && n == |a.customs| < 0x1_0000_0000_0000_0000 && b == Bytes8(n)
    ensures CustomChunk(a, keys) == if a.customs == map[] then [] else [34] + b + EntriesBytes(a.customs, keys)
  {
    EightBytes(n, n);
  }

  lemma EightBytes(n: int, m: nat)
    requires m == n % 0x1_0000_0000_0000_0000
    ensures Le(Cast(n, 8), 8) == Bytes8(m)
  {
    CastLarge(n);
    LeIs8(m);
  }

  /** An entry: the key as a string, and a byte for the kind of value in front of the value. */
  lemma EntryWritten(key: seq<Byte>, s: seq<Byte>, b: bool)
    requires |key| < 0x1_0000 && |s| < 0x1_0000
    ensures EntryBytes(key, CustomText(s)) == StringIs(key) + ([1] + StringIs(s))
    ensures EntryBytes(key, CustomBool(b)) == StringIs(key) + ([4] + [if b then 1 else 0])
    ensures EntryBytes(key, Blank) == StringIs(key) + [0]
  {
    TakesString(key, []);
    TakesString(s, []);
  }

  /** Whole numbers and numbers with a point are eight bytes. */
  lemma NumberEntryWritten(key: seq<Byte>, n: int, m: nat, b: seq<Byte>)
    requires |key| < 0x1_0000 && m == n % 0x1_0000_0000_0000_0000 && b == Bytes8(m)
    ensures EntryBytes(key, CustomInt(n)) == StringIs(key) + ([2] + b)
    ensures n >= 0 ==> EntryBytes(key, CustomDouble(n)) == StringIs(key) + ([3] + b)
  {
    TakesString(key, []);
    EightBytes(n, m);
  }

  lemma SmallBytes(n: nat)
    requires n < 256
    ensures Bytes4(n) == [n, 0, 0, 0]
  {
  }

  /** An attack of 40 is the tag 28 and four bytes; read back, it is an attack of 40, the eleventh kind of attribute. */
  lemma AttackIs(t: Kind, a: State, now: int, rest: seq<Byte>, n: nat)
    requires n == 40 && HasNumber(a, 10, n)
    ensures Chunk(t, a, now, 28) == [28] + [40, 0, 0, 0]
    ensures Sets(t, a, 28, [40, 0, 0, 0], rest, 10, 40)
  {
    Writes4(t, a, now, 28, 10, Twos(4));
    Plain4(t, a, 28, n, rest, 10, Twos(4));
    SmallBytes(n);
  }
}
