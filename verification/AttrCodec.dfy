/**
 The byte form of an item's attributes: a tag byte in front of each one, a zero byte or the end of
 the stream behind the last.
 */
module AttrCodec {
  import opened Arithmetic
  import opened Streams
  import opened Seals
  import opened ItemTree

  // ----- the attributes of an item -----

  /** What the item table says that matters here.  `fluid` stands for fluid containers and splashes. */
  datatype Kind = Kind(stackable: bool, fluid: bool, charges: nat, moveable: bool, decayTime: nat, container: bool)

  datatype Custom = Blank | CustomText(s: seq<Byte>) | CustomInt(n: int) | CustomDouble(bits: nat) | CustomBool(b: bool)

  datatype State = State(count: nat, vals: map<nat, Value>, customs: map<seq<Byte>, Custom>)

  const ACTION_ID: nat := 0
  const UNIQUE_ID: nat := 1
  const DESCRIPTION: nat := 2
  const TEXT: nat := 3
  const DATE: nat := 4
  const WRITER: nat := 5
  const CHARGES: nat := 20
  const FLUID_TYPE: nat := 21
  const SPECIAL: nat := 24

  function IntOf(a: State, k: nat): int {
    if k in a.vals && a.vals[k].Number? then a.vals[k].n else 0
  }

  function StrOf(a: State, k: nat): seq<Byte> {
    if k in a.vals && a.vals[k].Text? then a.vals[k].s else []
  }

  function WithInt(a: State, k: nat, n: int): State {
    a.(vals := a.vals[k := Number(n)])
  }

  /** An empty string is not stored, and neither is one of a kind that is not a string kind. */
  function WithStr(a: State, k: nat, s: seq<Byte>): State {
    if s == [] || k == SPECIAL then a else a.(vals := a.vals[k := Text(s)])
  }

  function SubType(t: Kind, a: State): nat {
    if t.fluid then Cast(IntOf(a, FLUID_TYPE), 2)
    else if t.stackable then a.count
    else if t.charges != 0 then Cast(IntOf(a, CHARGES), 2)
    else a.count
  }

  function WithSubType(t: Kind, a: State, n: nat): State {
    if t.fluid then WithInt(a, FLUID_TYPE, n)
    else if !t.stackable && t.charges != 0 then WithInt(a, CHARGES, n)
    else a.(count := n % 256)
  }

  /** While an item decays, what is left is the distance to the time it is due. */
  function DurationLeft(a: State, now: int): int {
    var state := IntOf(a, DECAY_STATE);
    if state == DECAYING_TRUE || state == DECAYING_STOPPING then
      var left := Signed(Cast(IntOf(a, TIMESTAMP) - now, 4), 4);
      if left < 0 then 0 else left
    else Signed(Cast(IntOf(a, DURATION), 4), 4)
  }

  // ----- the table of simple attributes -----

  const COUNT_TAG: Byte := 15
  const RUNE_CHARGES_TAG: Byte := 12
  const CHARGES_TAG: Byte := 22
  const ITEMS_TAG: Byte := 23
  const CUSTOM_TAG: Byte := 34

  /** The order in which simple attributes are written. */
  const ORDER: seq<Byte> := [4, 6, 18, 19, 7, 16, 17, 24, 25, 26, 27, 28, 29, 30, 31, 32, 33, 35, 37]

  datatype Form = Chars | Unsigned(width: nat) | Twos(width: nat)

  datatype Field = Field(attr: nat, form: Form) | NoField

  function FieldOf(tag: Byte): Field {
    match tag
    case 4 => Field(ACTION_ID, Unsigned(2))
    case 5 => Field(UNIQUE_ID, Unsigned(2))
    case 6 => Field(TEXT, Chars)
    case 7 => Field(DESCRIPTION, Chars)
    case 16 => Field(DURATION, Twos(4))
    case 17 => Field(DECAY_STATE, Unsigned(1))
    case 18 => Field(DATE, Unsigned(4))
    case 19 => Field(WRITER, Chars)
    case 24 => Field(6, Chars)
    case 25 => Field(7, Chars)
    case 26 => Field(8, Chars)
    case 27 => Field(WEIGHT, Unsigned(4))
    case 28 => Field(10, Twos(4))
    case 29 => Field(11, Twos(4))
    case 30 => Field(12, Twos(4))
    case 31 => Field(13, Twos(4))
    case 32 => Field(14, Twos(1))
    case 33 => Field(15, Unsigned(1))
    case 35 => Field(SPECIAL, Chars)
    case 37 => Field(25, Twos(1))
    case _ => NoField
  }

  /** Whether the attribute is written at all. */
  predicate Due(t: Kind, a: State, now: int, tag: Byte) {
    match FieldOf(tag)
    case NoField => false
    case Field(attr, form) =>
      if attr == ACTION_ID then t.moveable && Cast(IntOf(a, ACTION_ID), 2) != 0
      else if attr == DATE then IntOf(a, DATE) != 0
      else if attr == TEXT || attr == WRITER || attr == DESCRIPTION then StrOf(a, attr) != []
      else if attr == DECAY_STATE then
        IntOf(a, DECAY_STATE) == DECAYING_TRUE || IntOf(a, DECAY_STATE) == DECAYING_PENDING
      else attr in a.vals
  }

  function Payload(a: State, now: int, tag: Byte): Value
    requires FieldOf(tag).Field?
  {
    var f := FieldOf(tag);
    if f.form.Chars? then Text(StrOf(a, f.attr))
    else if f.attr == DURATION then Number(DurationLeft(a, now))
    else Number(IntOf(a, f.attr))
  }

  function Encoded(form: Form, v: Value): seq<Byte> {
    match form
    case Chars => StringBytes(if v.Text? then v.s else [])
    case Unsigned(width) => Le(Cast(if v.Number? then v.n else 0, width), width)
    case Twos(width) => Le(Cast(if v.Number? then v.n else 0, width), width)
  }

  function Decoded(form: Form, b: seq<Byte>): (r: Taken<Value>)
    ensures r.Got? ==> |r.rest| <= |b|
  {
    match form
    case Chars => (match TakeString(b) case Short => Short case Got(s, rest) => Got(Text(s), rest))
    case Unsigned(width) => (match TakeNumber(b, width) case Short => Short case Got(n, rest) => Got(Number(n), rest))
    case Twos(width) => (match TakeNumber(b, width) case Short => Short case Got(n, rest) => Got(Number(Signed(n, width)), rest))
  }

  /** What the setter behind a tag does with the value that has been read. */
  function Stored(a: State, tag: Byte, v: Value): State
    requires FieldOf(tag).Field?
  {
    var k := FieldOf(tag).attr;
    match v
    case Text(s) => WithStr(a, k, s)
    case Number(n) =>
      if k == ACTION_ID then WithInt(a, k, if n < 100 then 100 else n)
      else if k == UNIQUE_ID && UNIQUE_ID in a.vals then a
      else if k == DATE then WithInt(a, k, Signed(Cast(n, 4), 4))
      else if k == DURATION then WithInt(a, k, if n < 0 then 0 else n)
      else if k == DECAY_STATE then (if n == 0 then a else WithInt(a, k, DECAYING_PENDING))
      else WithInt(a, k, n)
  }

  // ----- writing -----

  function Chunk(t: Kind, a: State, now: int, tag: Byte): seq<Byte> {
    if Due(t, a, now, tag) then [tag] + Encoded(FieldOf(tag).form, Payload(a, now, tag)) else []
  }

  function Chunks(t: Kind, a: State, now: int, tags: seq<Byte>): seq<Byte> {
    if tags == [] then [] else Chunk(t, a, now, tags[0]) + Chunks(t, a, now, tags[1..])
  }

  function CountChunk(t: Kind, a: State): seq<Byte> {
    if t.stackable || t.fluid then [COUNT_TAG] + Le(Cast(SubType(t, a), 1), 1) else []
  }

  function ChargesChunk(a: State): seq<Byte> {
    var charges := Cast(IntOf(a, CHARGES), 2);
    if charges != 0 then [CHARGES_TAG] + Le(charges, 2) else []
  }

  function CustomBytes(v: Custom): seq<Byte> {
    match v
    case Blank => [0]
    case CustomText(s) => [1] + StringBytes(s)
    case CustomInt(n) => [2] + Le(Cast(n, 8), 8)
    case CustomDouble(bits) => [3] + Le(Cast(bits, 8), 8)
    case CustomBool(b) => [4] + [if b then 1 else 0]
  }

  function EntryBytes(key: seq<Byte>, v: Custom): seq<Byte> {
    StringBytes(key) + CustomBytes(v)
  }

  /** The entries in whatever order the hash table has them. */
  function EntriesBytes(m: map<seq<Byte>, Custom>, keys: seq<seq<Byte>>): seq<Byte>
    requires forall k :: k in keys ==> k in m
  {
    if keys == [] then [] else EntryBytes(keys[0], m[keys[0]]) + EntriesBytes(m, keys[1..])
  }

  predicate Enumerates(keys: seq<seq<Byte>>, m: map<seq<Byte>, Custom>) {
    Distinct(keys) && (forall k :: k in keys ==> k in m) && (forall k :: k in m ==> k in keys)
  }

  function CustomChunk(a: State, keys: seq<seq<Byte>>): seq<Byte>
    requires Enumerates(keys, a.customs)
  {
    if a.customs == map[] then [] else [CUSTOM_TAG] + Le(Cast(|a.customs|, 8), 8) + EntriesBytes(a.customs, keys)
  }

  /** `serializeAttr` */
  function Serialized(t: Kind, a: State, now: int, keys: seq<seq<Byte>>): seq<Byte>
    requires Enumerates(keys, a.customs)
  {
    CountChunk(t, a) + ChargesChunk(a) + Chunks(t, a, now, ORDER) + CustomChunk(a, keys)
  }

  // ----- reading -----

  function Lower(s: seq<Byte>): seq<Byte> {
    if s == [] then [] else [if 65 <= s[0] <= 90 then s[0] + 32 else s[0]] + Lower(s[1..])
  }

  function CustomRead(b: seq<Byte>): (r: Taken<Custom>)
    ensures r.Got? ==> |r.rest| < |b|
  {
    if b == [] then Short
    else match b[0]
      case 1 => (match TakeString(b[1..]) case Short => Short case Got(s, rest) => Got(CustomText(s), rest))
      case 2 => (match TakeNumber(b[1..], 8) case Short => Short case Got(n, rest) => Got(CustomInt(Signed(n, 8)), rest))
      case 3 => (match TakeNumber(b[1..], 8) case Short => Short case Got(n, rest) => Got(CustomDouble(n), rest))
      case 4 => (match TakeNumber(b[1..], 1) case Short => Short case Got(n, rest) => Got(CustomBool(n != 0), rest))
      case _ => Short
  }

  datatype Step =
    | Go(a: State, rest: seq<Byte>)
    | Failed(a: State)
    | Contents(a: State, n: nat, rest: seq<Byte>)

  function CustomsRead(a: State, n: nat, b: seq<Byte>): (r: Step)
    ensures !r.Contents? && (r.Go? ==> |r.rest| <= |b|)
    decreases n
  {
    if n == 0 then Go(a, b)
    else match TakeString(b)
      case Short => Failed(a)
      case Got(key, rest) => match CustomRead(rest)
        case Short => Failed(a)
        case Got(v, rest2) => CustomsRead(a.(customs := a.customs[Lower(key) := v]), n - 1, rest2)
  }

  /** How many bytes are skipped for attributes of kinds of items that are not modelled. */
  function Skipped(tag: Byte): nat {
    match tag
    case 10 => 2
    case 14 => 1
    case 20 => 4
    case 21 => 4
    case 8 => 5
    case _ => 0
  }

  /** `readAttr`, of a container if the kind says so. */
  function AttrRead(t: Kind, a: State, tag: Byte, b: seq<Byte>): (r: Step)
    ensures !r.Failed? ==> |r.rest| <= |b|
  {
    if FieldOf(tag).Field? then
      match Decoded(FieldOf(tag).form, b)
      case Short => Failed(a)
      case Got(v, rest) => Go(Stored(a, tag, v), rest)
    else if tag == COUNT_TAG || tag == RUNE_CHARGES_TAG then
      match TakeNumber(b, 1)
      case Short => Failed(a)
      case Got(n, rest) => Go(WithSubType(t, a, n), rest)
    else if tag == CHARGES_TAG then
      match TakeNumber(b, 2)
      case Short => Failed(a)
      case Got(n, rest) => Go(WithSubType(t, a, n), rest)
    else if tag == CUSTOM_TAG then
      match TakeNumber(b, 8)
      case Short => Failed(a)
      case Got(n, rest) => CustomsRead(a, n, rest)
    else if tag == ITEMS_TAG && t.container then
      match TakeNumber(b, 4)
      case Short => Failed(a)
      case Got(n, rest) => Contents(a, n, rest)
    else if Skipped(tag) > 0 && Skipped(tag) <= |b| then Go(a, b[Skipped(tag)..])
    else Failed(a)
  }

  /** `unserializeAttr`: `Go` is the ordinary end, `Contents` the start of a container's entries. */
  function Unserialized(t: Kind, a: State, b: seq<Byte>): Step
    decreases |b|
  {
    if b == [] then Go(a, [])
    else if b[0] == 0 then Go(a, b[1..])
    else match AttrRead(t, a, b[0], b[1..])
      case Go(a1, rest) => Unserialized(t, a1, rest)
      case other => other
  }

  // ----- what comes back -----

  /** The bytes of an attribute decode to its value if the value fits. */
  predicate Fits(form: Form, v: Value) {
    match form
    case Chars => v.Text? && |v.s| <= 0xFFFF
    case Unsigned(width) => v.Number? && 0 <= v.n < Span(width)
    case Twos(width) => v.Number? && 0 <= 2 * v.n + Span(width) && 2 * v.n < Span(width)
  }

  /** The value the bytes stand for when it does not. */
  function Kept(form: Form, v: Value): Value {
    match form
    case Chars => Text(if v.Text? && |v.s| <= 0xFFFF then v.s else [])
    case Unsigned(width) => Number(Cast(if v.Number? then v.n else 0, width))
    case Twos(width) => Number(Signed(Cast(if v.Number? then v.n else 0, width), width))
  }

  lemma EncodedReads(form: Form, v: Value, rest: seq<Byte>)
    ensures Decoded(form, Encoded(form, v) + rest) == Got(Kept(form, v), rest)
  {
    match form
    case Chars => StringReads(if v.Text? then v.s else [], rest);
    case Unsigned(width) => NumberBack(if v.Number? then v.n else 0, width, rest);
    case Twos(width) => NumberBack(if v.Number? then v.n else 0, width, rest);
  }

  /** A value survives the byte form exactly when it fits. */
  lemma KeptIff(form: Form, v: Value)
    requires v.Text? <==> form.Chars?
    requires form.Twos? ==> Span(form.width) % 2 == 0
    ensures Kept(form, v) == v <==> Fits(form, v)
  {
    match form
    case Chars =>
    case Unsigned(width) => ModUnique(v.n, Span(width));
    case Twos(width) => ModUnique(v.n, Span(width));
  }

  // ----- reading back what was written -----

  lemma ChunkReads(t: Kind, a: State, now: int, tag: Byte, d: State, tail: seq<Byte>)
    requires tag != 0 && FieldOf(tag).Field?
    ensures Unserialized(t, d, Chunk(t, a, now, tag) + tail) == Unserialized(t, Rewritten(t, a, now, tag, d), tail)
  {
    if Due(t, a, now, tag) {
      var form, v := FieldOf(tag).form, Payload(a, now, tag);
      TagReads(t, d, tag, Encoded(form, v), tail);
      EncodedReads(form, v, tail);
    } else {
      assert [] + tail == tail;
    }
  }

  /** `d` after one attribute of `a` has been written and read. */
  function Rewritten(t: Kind, a: State, now: int, tag: Byte, d: State): State
    requires FieldOf(tag).Field?
  {
    if Due(t, a, now, tag) then Stored(d, tag, Kept(FieldOf(tag).form, Payload(a, now, tag))) else d
  }

  predicate AreFields(tags: seq<Byte>) {
    forall k :: 0 <= k < |tags| ==> tags[k] != 0 && FieldOf(tags[k]).Field?
  }

  function RewrittenAll(t: Kind, a: State, now: int, tags: seq<Byte>, d: State): State
    requires AreFields(tags)
  {
    if tags == [] then d
    else
      assert AreFields(tags[1..]);
      RewrittenAll(t, a, now, tags[1..], Rewritten(t, a, now, tags[0], d))
  }

  lemma {:induction false} ChunksRead(t: Kind, a: State, now: int, tags: seq<Byte>, d: State, tail: seq<Byte>)
    requires AreFields(tags)
    ensures Unserialized(t, d, Chunks(t, a, now, tags) + tail) == Unserialized(t, RewrittenAll(t, a, now, tags, d), tail)
    decreases |tags|
  {
    if tags == [] {
      assert [] + tail == tail;
    } else {
      FirstChunk(t, a, now, tags, tags[1..], d, tail);
      ChunksRead(t, a, now, tags[1..], Rewritten(t, a, now, tags[0], d), tail);
    }
  }

  lemma FirstChunk(t: Kind, a: State, now: int, tags: seq<Byte>, rest: seq<Byte>, d: State, tail: seq<Byte>)
    requires AreFields(tags) && tags != [] && rest == tags[1..]
    ensures AreFields(rest)
    ensures var d1 := Rewritten(t, a, now, tags[0], d);
            && Unserialized(t, d, Chunks(t, a, now, tags) + tail) == Unserialized(t, d1, Chunks(t, a, now, rest) + tail)
            && RewrittenAll(t, a, now, tags, d) == RewrittenAll(t, a, now, rest, d1)
  {
    Regroup(Chunk(t, a, now, tags[0]), Chunks(t, a, now, rest), tail);
    ChunkReads(t, a, now, tags[0], d, Chunks(t, a, now, rest) + tail);
  }

  lemma OrderIsFields()
    ensures AreFields(ORDER)
  {
  }

  /** `d` after the count and the charges of `a`. */
  function Counted(t: Kind, a: State, d: State): State {
    var d1 := if t.stackable || t.fluid then WithSubType(t, d, Cast(SubType(t, a), 1)) else d;
    var charges := Cast(IntOf(a, CHARGES), 2);
    if charges != 0 then WithSubType(t, d1, charges) else d1
  }

  lemma CountReads(t: Kind, a: State, d: State, tail: seq<Byte>)
    ensures Unserialized(t, d, CountChunk(t, a) + tail) ==
            Unserialized(t, if t.stackable || t.fluid then WithSubType(t, d, Cast(SubType(t, a), 1)) else d, tail)
  {
    if t.stackable || t.fluid {
      CountTag(t, Cast(SubType(t, a), 1), d, tail);
    } else {
      assert [] + tail == tail;
    }
  }

  lemma CountTag(t: Kind, n: nat, d: State, tail: seq<Byte>)
    requires n < Span(1)
    ensures Unserialized(t, d, [COUNT_TAG] + Le(n, 1) + tail) == Unserialized(t, WithSubType(t, d, n), tail)
  {
    TagReads(t, d, COUNT_TAG, Le(n, 1), tail);
    NumberReads(n, 1, tail);
    CountAttr(t, d, n, Le(n, 1) + tail, tail);
  }

  lemma CountAttr(t: Kind, d: State, n: nat, b: seq<Byte>, tail: seq<Byte>)
    requires TakeNumber(b, 1) == Got(n, tail)
    ensures AttrRead(t, d, COUNT_TAG, b) == Go(WithSubType(t, d, n), tail)
  {
    assert FieldOf(COUNT_TAG) == NoField;
  }

  lemma ChargesRead(t: Kind, a: State, d: State, tail: seq<Byte>)
    ensures var charges := Cast(IntOf(a, CHARGES), 2);
            Unserialized(t, d, ChargesChunk(a) + tail) ==
            Unserialized(t, if charges != 0 then WithSubType(t, d, charges) else d, tail)
  {
    var charges := Cast(IntOf(a, CHARGES), 2);
    if charges != 0 {
      ChargesTag(t, charges, d, tail);
    } else {
      assert [] + tail == tail;
    }
  }

  lemma ChargesTag(t: Kind, n: nat, d: State, tail: seq<Byte>)
    requires n < Span(2)
    ensures Unserialized(t, d, [CHARGES_TAG] + Le(n, 2) + tail) == Unserialized(t, WithSubType(t, d, n), tail)
  {
    TagReads(t, d, CHARGES_TAG, Le(n, 2), tail);
    NumberReads(n, 2, tail);
    ChargesAttr(t, d, n, Le(n, 2) + tail, tail);
  }

  lemma ChargesAttr(t: Kind, d: State, n: nat, b: seq<Byte>, tail: seq<Byte>)
    requires TakeNumber(b, 2) == Got(n, tail)
    ensures AttrRead(t, d, CHARGES_TAG, b) == Go(WithSubType(t, d, n), tail)
  {
    assert FieldOf(CHARGES_TAG) == NoField;
  }

  /** Reading goes by the tag. */
  lemma TagReads(t: Kind, d: State, tag: Byte, b: seq<Byte>, tail: seq<Byte>)
    requires tag != 0
    ensures Unserialized(t, d, [tag] + b + tail) ==
            match AttrRead(t, d, tag, b + tail) case Go(d1, rest) => Unserialized(t, d1, rest) case other => other
  {
    assert ([tag] + b + tail)[1..] == b + tail;
  }

  lemma CountsRead(t: Kind, a: State, d: State, tail: seq<Byte>)
    ensures Unserialized(t, d, CountChunk(t, a) + (ChargesChunk(a) + tail)) == Unserialized(t, Counted(t, a, d), tail)
  {
    CountReads(t, a, d, ChargesChunk(a) + tail);
    ChargesRead(t, a, if t.stackable || t.fluid then WithSubType(t, d, Cast(SubType(t, a), 1)) else d, tail);
  }

  // ----- custom attributes -----

  /** What a value comes back as, unless it is blank. */
  function BackCustom(v: Custom): Custom {
    match v
    case CustomText(s) => CustomText(if |s| > 0xFFFF then [] else s)
    case CustomInt(n) => CustomInt(Signed(Cast(n, 8), 8))
    case CustomDouble(bits) => CustomDouble(Cast(bits, 8))
    case other => other
  }

  /** What a key comes back as. */
  function BackKey(key: seq<Byte>): seq<Byte> {
    Lower(if |key| > 0xFFFF then [] else key)
  }

  predicate CustomFits(v: Custom) {
    match v
    case Blank => false
    case CustomText(s) => |s| <= 0xFFFF
    case CustomInt(n) => 0 <= 2 * n + Span(8) && 2 * n < Span(8)
    case CustomDouble(bits) => bits < Span(8)
    case CustomBool(b) => true
  }

  predicate EntryFits(key: seq<Byte>, v: Custom) {
    |key| <= 0xFFFF && Lower(key) == key && CustomFits(v)
  }

  /** An entry comes back as it was exactly if it fits. */
  lemma EntryBackIff(key: seq<Byte>, v: Custom)
    requires v != Blank
    ensures BackKey(key) == key && BackCustom(v) == v <==> EntryFits(key, v)
  {
    Spans();
    match v
    case CustomInt(n) => ModUnique(n, Span(8));
    case CustomDouble(bits) => ModUnique(bits, Span(8));
    case other =>
  }

  lemma CustomReads(v: Custom, rest: seq<Byte>)
    requires v != Blank
    ensures CustomRead(CustomBytes(v) + rest) == Got(BackCustom(v), rest)
  {
    match v
    case CustomText(s) =>
      WhichReads(v, 1, StringBytes(s), rest);
      StringReads(s, rest);
    case CustomInt(n) =>
      WhichReads(v, 2, Le(Cast(n, 8), 8), rest);
      NumberBack(n, 8, rest);
    case CustomDouble(bits) =>
      WhichReads(v, 3, Le(Cast(bits, 8), 8), rest);
      NumberBack(bits, 8, rest);
    case CustomBool(x) =>
      WhichReads(v, 4, [if x then 1 else 0], rest);
      BoolReads(x, rest);
  }

  lemma WhichReads(v: Custom, which: Byte, b: seq<Byte>, rest: seq<Byte>)
    requires CustomBytes(v) == [which] + b
    ensures CustomBytes(v) + rest != [] && (CustomBytes(v) + rest)[0] == which && (CustomBytes(v) + rest)[1..] == b + rest
  {
    Regroup([which], b, rest);
  }

  lemma BoolReads(x: bool, rest: seq<Byte>)
    ensures TakeNumber([if x then 1 else 0] + rest, 1) == Got(if x then 1 else 0, rest)
  {
    var n := if x then 1 else 0;
    Spans();
    assert Le(n, 1) == [n];
    NumberReads(n, 1, rest);
  }

  /** A blank value cannot be read back: loading stops there. */
  lemma BlankFails(a: State, n: nat, key: seq<Byte>, r: seq<Byte>)
    ensures CustomsRead(a, n + 1, EntryBytes(key, Blank) + r) == Failed(a)
  {
    var s, c: seq<Byte> := StringBytes(key), [0];
    Regroup(s, c, r);
    StringReads(key, c + r);
    EntryStops(a, n, s + (c + r), c + r);
  }

  lemma EntryStops(a: State, n: nat, b: seq<Byte>, c: seq<Byte>)
    requires TakeString(b).Got? && TakeString(b).rest == c && CustomRead(c) == Short
    ensures CustomsRead(a, n + 1, b) == Failed(a)
  {
  }

  predicate NoBlank(m: map<seq<Byte>, Custom>) {
    forall k :: k in m ==> m[k] != Blank
  }

  /** The entries with these keys. */
  function Only(m: map<seq<Byte>, Custom>, keys: seq<seq<Byte>>): map<seq<Byte>, Custom> {
    map k | k in keys && k in m :: m[k]
  }

  lemma EntryReads(key: seq<Byte>, v: Custom, n: nat, a: State, r: seq<Byte>)
    requires v != Blank
    ensures CustomsRead(a, n + 1, EntryBytes(key, v) + r) ==
            CustomsRead(a.(customs := a.customs[BackKey(key) := BackCustom(v)]), n, r)
  {
    var s, c := StringBytes(key), CustomBytes(v);
    Regroup(s, c, r);
    StringReads(key, c + r);
    CustomReads(v, r);
    EntryTaken(if |key| > 0xFFFF then [] else key, BackCustom(v), n, a, s + (c + r), c + r, r);
  }

  lemma EntryTaken(key: seq<Byte>, v: Custom, n: nat, a: State, b: seq<Byte>, c: seq<Byte>, r: seq<Byte>)
    requires TakeString(b) == Got(key, c) && CustomRead(c) == Got(v, r)
    ensures CustomsRead(a, n + 1, b) == CustomsRead(a.(customs := a.customs[Lower(key) := v]), n, r)
  {
  }

  /** `d` after the entries with these keys have been read into it. */
  function ReadBack(d: map<seq<Byte>, Custom>, m: map<seq<Byte>, Custom>, keys: seq<seq<Byte>>): map<seq<Byte>, Custom>
    requires forall k :: k in keys ==> k in m
    decreases |keys|
  {
    if keys == [] then d else ReadBack(d[BackKey(keys[0]) := BackCustom(m[keys[0]])], m, keys[1..])
  }

  /** What reading goes on with after an entry. */
  function Entered(a: State, key: seq<Byte>, v: Custom): State {
    a.(customs := a.customs[BackKey(key) := BackCustom(v)])
  }

  /** The first entry is read, or reading fails there. */
  lemma FirstEntry(m: map<seq<Byte>, Custom>, keys: seq<seq<Byte>>, a: State, tail: seq<Byte>, rest: seq<seq<Byte>>)
    requires keys != [] && rest == keys[1..] && forall k :: k in keys ==> k in m
    ensures CustomsRead(a, |keys|, EntriesBytes(m, keys) + tail) ==
            if m[keys[0]] == Blank then Failed(a)
            else CustomsRead(Entered(a, keys[0], m[keys[0]]), |rest|, EntriesBytes(m, rest) + tail)
  {
    EntriesSplit(m, keys, tail, rest);
    OneEntry(keys[0], m[keys[0]], |rest|, a, EntriesBytes(m, rest) + tail);
  }

  lemma EntriesSplit(m: map<seq<Byte>, Custom>, keys: seq<seq<Byte>>, tail: seq<Byte>, rest: seq<seq<Byte>>)
    requires keys != [] && rest == keys[1..] && forall k :: k in keys ==> k in m
    ensures EntriesBytes(m, keys) + tail == EntryBytes(keys[0], m[keys[0]]) + (EntriesBytes(m, rest) + tail)
  {
    Regroup(EntryBytes(keys[0], m[keys[0]]), EntriesBytes(m, rest), tail);
  }

  lemma OneEntry(k: seq<Byte>, v: Custom, n: nat, a: State, r: seq<Byte>)
    ensures CustomsRead(a, n + 1, EntryBytes(k, v) + r) == if v == Blank then Failed(a) else CustomsRead(Entered(a, k, v), n, r)
  {
    if v == Blank {
      BlankFails(a, n, k, r);
    } else {
      EntryReads(k, v, n, a, r);
    }
  }

  /** Entries none of which is blank are all read. */
  lemma {:induction false} EntriesRead(m: map<seq<Byte>, Custom>, keys: seq<seq<Byte>>, a: State, tail: seq<Byte>)
    requires forall k :: k in keys ==> k in m && m[k] != Blank
    ensures CustomsRead(a, |keys|, EntriesBytes(m, keys) + tail) == Go(a.(customs := ReadBack(a.customs, m, keys)), tail)
    decreases |keys|
  {
    if keys == [] {
      assert [] + tail == tail;
    } else {
      FirstEntry(m, keys, a, tail, keys[1..]);
      EntriesRead(m, keys[1..], Entered(a, keys[0], m[keys[0]]), tail);
    }
  }

  /** If one of them, `j`, is blank, loading fails. */
  lemma {:induction false} EntriesFail(m: map<seq<Byte>, Custom>, keys: seq<seq<Byte>>, a: State, tail: seq<Byte>, j: seq<Byte>,
                                       r: Step)
    requires (forall k :: k in keys ==> k in m) && j in keys && m[j] == Blank
    requires r == CustomsRead(a, |keys|, EntriesBytes(m, keys) + tail)
    ensures r.Failed?
    decreases |keys|
  {
    FirstEntry(m, keys, a, tail, keys[1..]);
    if m[keys[0]] != Blank {
      assert j in keys[1..];
      EntriesFail(m, keys[1..], Entered(a, keys[0], m[keys[0]]), tail, j, r);
    }
  }

  /** Entries that fit come back as they were. */
  lemma {:induction false} ReadBackFits(d: map<seq<Byte>, Custom>, m: map<seq<Byte>, Custom>, keys: seq<seq<Byte>>)
    requires forall k :: k in keys ==> k in m && EntryFits(k, m[k])
    ensures ReadBack(d, m, keys) == d + Only(m, keys)
    decreases |keys|
  {
    if keys == [] {
      assert d + Only(m, keys) == d;
    } else {
      EntryBackIff(keys[0], m[keys[0]]);
      ReadBackFits(d[keys[0] := m[keys[0]]], m, keys[1..]);
      OnlyNext(m, keys, d);
    }
  }

  lemma OnlyNext(m: map<seq<Byte>, Custom>, keys: seq<seq<Byte>>, d: map<seq<Byte>, Custom>)
    requires keys != [] && keys[0] in m
    ensures d[keys[0] := m[keys[0]]] + Only(m, keys[1..]) == d + Only(m, keys)
  {
    assert forall k :: k in keys <==> k == keys[0] || k in keys[1..];
  }

  lemma {:induction false} LowerTwice(s: seq<Byte>)
    ensures Lower(Lower(s)) == Lower(s) && |Lower(s)| == |s|
  {
    if s != [] {
      LowerTwice(s[1..]);
      assert Lower(s)[1..] == Lower(s[1..]);
    }
  }

  lemma BackKeyTwice(key: seq<Byte>)
    ensures BackKey(BackKey(key)) == BackKey(key)
  {
    LowerTwice(if |key| > 0xFFFF then [] else key);
  }

  /** Every key that comes back is one that a key can come back as. */
  lemma {:induction false} ReadBackKeys(d: map<seq<Byte>, Custom>, m: map<seq<Byte>, Custom>, keys: seq<seq<Byte>>, k: seq<Byte>)
    requires (forall j :: j in keys ==> j in m) && k in ReadBack(d, m, keys) && k !in d
    ensures BackKey(k) == k
    decreases |keys|
  {
    if keys != [] {
      var n := d[BackKey(keys[0]) := BackCustom(m[keys[0]])];
      if k in n {
        BackKeyTwice(keys[0]);
      } else {
        ReadBackKeys(n, m, keys[1..], k);
      }
    }
  }

  /** If the keys come back as they were, so does each value as what it comes back as. */
  lemma {:induction false} ReadBackAt(d: map<seq<Byte>, Custom>, m: map<seq<Byte>, Custom>, keys: seq<seq<Byte>>, k: seq<Byte>)
    requires Distinct(keys) && forall j :: j in keys ==> j in m && BackKey(j) == j
    ensures var r := ReadBack(d, m, keys);
            && (k in keys ==> k in r && r[k] == BackCustom(m[k]))
            && (k !in keys ==> (k in r <==> k in d) && (k in d ==> r[k] == d[k]))
    decreases |keys|
  {
    if keys != [] {
      assert keys[0] !in keys[1..];
      ReadBackAt(d[keys[0] := BackCustom(m[keys[0]])], m, keys[1..], k);
    }
  }

  /**
   Into an item that has none, the custom attributes come back as they were exactly if each of them
   fits: no blank among them, no string or key that is too long, keys in lower case.
   */
  lemma CustomsBackIff(m: map<seq<Byte>, Custom>, keys: seq<seq<Byte>>, a: State, tail: seq<Byte>)
    requires Enumerates(keys, m) && a.customs == map[]
    ensures CustomsRead(a, |keys|, EntriesBytes(m, keys) + tail) == Go(a.(customs := m), tail) <==>
            forall k :: k in m ==> EntryFits(k, m[k])
  {
    if k :| k in m && m[k] == Blank {
      EntriesFail(m, keys, a, tail, k, CustomsRead(a, |keys|, EntriesBytes(m, keys) + tail));
    } else {
      EntriesRead(m, keys, a, tail);
      ReadBackIff(m, keys);
    }
  }

  lemma ReadBackIff(m: map<seq<Byte>, Custom>, keys: seq<seq<Byte>>)
    requires Enumerates(keys, m) && NoBlank(m)
    ensures ReadBack(map[], m, keys) == m <==> forall k :: k in m ==> EntryFits(k, m[k])
  {
    if forall k :: k in m ==> EntryFits(k, m[k]) {
      ReadBackFits(map[], m, keys);
      assert map[] + Only(m, keys) == m;
    } else if ReadBack(map[], m, keys) == m {
      forall k | k in m
        ensures BackKey(k) == k
      {
        ReadBackKeys(map[], m, keys, k);
      }
      var k :| k in m && !EntryFits(k, m[k]);
      ReadBackAt(map[], m, keys, k);
      EntryBackIff(k, m[k]);
    }
  }

  // ----- a blank is never stored -----

  /** Reading the entries gives this, sealed. */
  ghost predicate Reads(a: State, n: nat, b: seq<Byte>, r: Step) {
    forall k {:trigger Unsealed(OfReads, k)} :: Unsealed(OfReads, k) ==> r == CustomsRead(a, n, b)
  }

  /** One entry of the reading: it ends there, or goes on. */
  lemma ReadOn(a: State, n: nat, b: seq<Byte>, r: Step) returns (ends: bool, a1: State, rest: seq<Byte>)
    requires NoBlank(a.customs) && n > 0 && Reads(a, n, b, r)
    ensures if ends then NoBlank(r.a.customs) else NoBlank(a1.customs) && Reads(a1, n - 1, rest, r)
  {
    assert Unsealed(OfReads, 0);
    ends, a1, rest := true, a, b;
    match TakeString(b)
    case Short =>
    case Got(key, c) =>
      NeverReadBlank(c);
      match CustomRead(c)
      case Short =>
      case Got(v, d) => ends, a1, rest := false, a.(customs := a.customs[Lower(key) := v]), d;
  }

  lemma {:induction false} CustomsStayFilled(a: State, n: nat, b: seq<Byte>, r: Step)
    requires NoBlank(a.customs) && Reads(a, n, b, r)
    ensures NoBlank(r.a.customs)
    decreases n
  {
    if n == 0 {
      assert Unsealed(OfReads, 0);
    } else {
      var ends, a1, rest := ReadOn(a, n, b, r);
      if !ends {
        CustomsStayFilled(a1, n - 1, rest, r);
      }
    }
  }

  lemma NeverReadBlank(b: seq<Byte>)
    ensures CustomRead(b).Got? ==> CustomRead(b).value != Blank
  {
  }

  /** Whatever bytes are read into an item without blank values, it has none afterwards, even if reading fails. */
  lemma {:induction false} NeverBlank(t: Kind, a: State, b: seq<Byte>)
    requires NoBlank(a.customs)
    ensures NoBlank(Unserialized(t, a, b).a.customs)
    decreases |b|
  {
    if b != [] && b[0] != 0 {
      TagStaysFilled(t, a, b[0], b[1..]);
      var r := AttrRead(t, a, b[0], b[1..]);
      if r.Go? {
        NeverBlank(t, r.a, r.rest);
      }
    }
  }

  lemma TagStaysFilled(t: Kind, a: State, tag: Byte, b: seq<Byte>)
    requires NoBlank(a.customs)
    ensures NoBlank(AttrRead(t, a, tag, b).a.customs)
  {
    if tag == CUSTOM_TAG && TakeNumber(b, 8).Got? {
      CustomTag(t, a, b, TakeNumber(b, 8).value, TakeNumber(b, 8).rest);
      CustomsStayFilled(a, TakeNumber(b, 8).value, TakeNumber(b, 8).rest, AttrRead(t, a, tag, b));
    }
  }

  /** The custom attributes behind the others: what becomes of them, and of what follows. */
  lemma CustomsReadBack(t: Kind, a: State, keys: seq<seq<Byte>>, d: State, tail: seq<Byte>)
    requires Enumerates(keys, a.customs) && |a.customs| < Span(8)
    ensures NoBlank(a.customs) ==>
              Unserialized(t, d, CustomChunk(a, keys) + tail) ==
              Unserialized(t, d.(customs := ReadBack(d.customs, a.customs, keys)), tail)
    ensures !NoBlank(a.customs) ==> Unserialized(t, d, CustomChunk(a, keys) + tail).Failed?
  {
    if a.customs == map[] {
      KeyCount(keys, a.customs);
      assert [] + tail == tail;
    } else {
      var n, e := Le(Cast(|a.customs|, 8), 8), EntriesBytes(a.customs, keys);
      Regroup([CUSTOM_TAG] + n, e, tail);
      TagReads(t, d, CUSTOM_TAG, n, e + tail);
      CustomsTaken(a, keys, d, e + tail, tail);
      CustomTag(t, d, n + (e + tail), |a.customs|, e + tail);
    }
  }

  lemma CustomTag(t: Kind, d: State, b: seq<Byte>, n: nat, rest: seq<Byte>)
    requires TakeNumber(b, 8) == Got(n, rest)
    ensures AttrRead(t, d, CUSTOM_TAG, b) == CustomsRead(d, n, rest)
  {
    assert FieldOf(CUSTOM_TAG) == NoField;
  }

  lemma CustomsTaken(a: State, keys: seq<seq<Byte>>, d: State, b: seq<Byte>, tail: seq<Byte>)
    requires Enumerates(keys, a.customs) && |a.customs| < Span(8) && b == EntriesBytes(a.customs, keys) + tail
    ensures TakeNumber(Le(Cast(|a.customs|, 8), 8) + b, 8) == Got(|a.customs|, b)
    ensures NoBlank(a.customs) ==>
              CustomsRead(d, |a.customs|, b) == Go(d.(customs := ReadBack(d.customs, a.customs, keys)), tail)
    ensures !NoBlank(a.customs) ==> CustomsRead(d, |a.customs|, b).Failed?
  {
    ModUnique(|a.customs|, Span(8));
    NumberBack(|a.customs|, 8, b);
    KeyCount(keys, a.customs);
    if NoBlank(a.customs) {
      EntriesRead(a.customs, keys, d, tail);
    } else {
      var j :| j in a.customs && a.customs[j] == Blank;
      EntriesFail(a.customs, keys, d, tail, j, CustomsRead(d, |keys|, b));
    }
  }

  lemma {:induction false} KeyCount(keys: seq<seq<Byte>>, m: map<seq<Byte>, Custom>)
    requires Enumerates(keys, m)
    ensures |keys| == |m|
    decreases |keys|
  {
    if keys == [] {
      assert m == map[];
    } else {
      FewerKeys(keys, m);
      KeyCount(keys[1..], m - {keys[0]});
      assert m.Keys == (m - {keys[0]}).Keys + {keys[0]};
    }
  }

  lemma FewerKeys(keys: seq<seq<Byte>>, m: map<seq<Byte>, Custom>)
    requires Enumerates(keys, m) && keys != []
    ensures keys[0] in m && Enumerates(keys[1..], m - {keys[0]})
  {
    assert forall k :: k in keys <==> k == keys[0] || k in keys[1..];
    assert keys[0] !in keys[1..];
  }

  /** Exactly what a round trip does, whatever the attributes are like: it fails if and only if a custom value is blank. */
  lemma SerializedReads(t: Kind, a: State, now: int, keys: seq<seq<Byte>>, d: State, rest: seq<Byte>)
    requires Enumerates(keys, a.customs) && |a.customs| < Span(8)
    ensures AreFields(ORDER)
    ensures var r := RewrittenAll(t, a, now, ORDER, Counted(t, a, d));
            NoBlank(a.customs) ==>
              Unserialized(t, d, Serialized(t, a, now, keys) + rest) ==
              Unserialized(t, r.(customs := ReadBack(r.customs, a.customs, keys)), rest)
    ensures !NoBlank(a.customs) ==> Unserialized(t, d, Serialized(t, a, now, keys) + rest).Failed?
  {
    OrderIsFields();
    var c, g, f, u := CountChunk(t, a), ChargesChunk(a), Chunks(t, a, now, ORDER), CustomChunk(a, keys);
    Regroup(c + g + f, u, rest);
    Regroup(c + g, f, u + rest);
    Regroup(c, g, f + (u + rest));
    CountsRead(t, a, d, f + (u + rest));
    var d1 := Counted(t, a, d);
    ChunksRead(t, a, now, ORDER, d1, u + rest);
    CustomsReadBack(t, a, keys, RewrittenAll(t, a, now, ORDER, d1), rest);
  }

  /** What has been written can be read exactly if no custom value is blank. */
  lemma LoadsIff(t: Kind, a: State, now: int, keys: seq<seq<Byte>>, d: State, rest: seq<Byte>)
    requires Enumerates(keys, a.customs) && |a.customs| < Span(8)
    ensures Unserialized(t, d, Serialized(t, a, now, keys) + [0] + rest).Go? <==> NoBlank(a.customs)
  {
    Regroup(Serialized(t, a, now, keys), [0], rest);
    SerializedReads(t, a, now, keys, d, [0] + rest);
    assert ([0] + rest)[1..] == rest;
  }

  // ----- when an attribute survives -----

  /** What is meant to come back: a decaying item comes back as one that is to decay. */
  function Canon(a: State, now: int, tag: Byte): Value
    requires FieldOf(tag).Field?
  {
    if FieldOf(tag).attr == DECAY_STATE then Number(DECAYING_PENDING) else Payload(a, now, tag)
  }

  /** The attributes as the program keeps them: of the right sort, strings not empty, nothing of the sort nobody can set. */
  ghost predicate Regular(a: State) {
    && SPECIAL !in a.vals
    && (forall tag: Byte {:trigger FieldOf(tag)} :: FieldOf(tag).Field? && FieldOf(tag).attr in a.vals ==>
          (if FieldOf(tag).form.Chars? then a.vals[FieldOf(tag).attr].Text? && a.vals[FieldOf(tag).attr].s != []
           else a.vals[FieldOf(tag).attr].Number?))
  }

  /** What a caller can check about one attribute before saving it. */
  predicate Storable(a: State, now: int, tag: Byte)
    requires FieldOf(tag).Field?
  {
    var f, v := FieldOf(tag), Payload(a, now, tag);
    if f.form.Chars? then |StrOf(a, f.attr)| <= 0xFFFF
    else if f.attr == ACTION_ID then 100 <= v.n <= 0xFFFF
    else if f.attr == DATE then Fits(Twos(4), v)
    else if f.attr == DURATION then v.n >= 0
    else if f.attr == DECAY_STATE then true
    else Fits(f.form, v)
  }

  lemma DurationFits(a: State, now: int)
    ensures 0 <= 2 * DurationLeft(a, now) + Span(4) && 2 * DurationLeft(a, now) < Span(4)
  {
  }

  /** The attribute of a tag comes back as it was. */
  predicate Survives(t: Kind, a: State, now: int, tag: Byte, d: State)
    requires FieldOf(tag).Field?
  {
    Rewritten(t, a, now, tag, d) == d.(vals := d.vals[FieldOf(tag).attr := Canon(a, now, tag)])
  }

  lemma SurvivesDate(t: Kind, a: State, now: int, d: State)
    requires Due(t, a, now, 18)
    ensures Survives(t, a, now, 18, d) <==> Storable(a, now, 18)
  {
    var n := IntOf(a, DATE);
    CastTwice(n, 4);
    KeptIff(Twos(4), Number(n));
    assert Rewritten(t, a, now, 18, d).vals[DATE] == Number(Signed(Cast(n, 4), 4));
  }

  lemma SurvivesDuration(t: Kind, a: State, now: int, d: State)
    requires Due(t, a, now, 16)
    ensures Survives(t, a, now, 16, d) <==> Storable(a, now, 16)
  {
    var n := DurationLeft(a, now);
    DurationFits(a, now);
    KeptIff(Twos(4), Number(n));
    assert Rewritten(t, a, now, 16, d).vals[DURATION] == Number(if n < 0 then 0 else n);
  }

  lemma SurvivesAction(t: Kind, a: State, now: int, d: State)
    requires Due(t, a, now, 4)
    ensures Survives(t, a, now, 4, d) <==> Storable(a, now, 4)
  {
    var n := IntOf(a, ACTION_ID);
    Spans();
    KeptIff(Unsigned(2), Number(n));
    var m := Cast(n, 2);
    assert Rewritten(t, a, now, 4, d).vals[ACTION_ID] == Number(if m < 100 then 100 else m);
  }

  lemma SurvivesDecay(t: Kind, a: State, now: int, d: State)
    requires Due(t, a, now, 17)
    ensures Survives(t, a, now, 17, d) <==> Storable(a, now, 17)
  {
    Spans();
    ModUnique(IntOf(a, DECAY_STATE), Span(1));
  }

  lemma SurvivesText(t: Kind, a: State, now: int, tag: Byte, d: State)
    requires FieldOf(tag).Field? && FieldOf(tag).form.Chars? && Due(t, a, now, tag) && Regular(a)
    ensures Storable(a, now, tag) ==> Survives(t, a, now, tag, d)
    ensures FieldOf(tag).attr !in d.vals && Survives(t, a, now, tag, d) ==> Storable(a, now, tag)
  {
    var k := FieldOf(tag).attr;
    var s := StrOf(a, k);
    assert Rewritten(t, a, now, tag, d) == WithStr(d, k, if |s| <= 0xFFFF then s else []);
    assert Survives(t, a, now, tag, d) ==> k in Rewritten(t, a, now, tag, d).vals;
  }

  /** The numbers that are stored just as they are read. */
  predicate Plain(tag: Byte) {
    FieldOf(tag).Field? && !FieldOf(tag).form.Chars? && tag !in [4, 5, 16, 17, 18]
  }

  lemma PlainNumber(t: Kind, a: State, now: int, tag: Byte, d: State, m: int)
    requires Plain(tag)
    ensures Payload(a, now, tag) == Canon(a, now, tag) == Number(IntOf(a, FieldOf(tag).attr))
    ensures Stored(d, tag, Number(m)) == WithInt(d, FieldOf(tag).attr, m)
    ensures Storable(a, now, tag) == Fits(FieldOf(tag).form, Number(IntOf(a, FieldOf(tag).attr)))
    ensures FieldOf(tag).form.Twos? ==> FieldOf(tag).form.width == 1 || FieldOf(tag).form.width == 4
  {
  }

  lemma SetTwice(d: State, k: nat, m: int, n: int)
    ensures WithInt(d, k, m) == WithInt(d, k, n) <==> m == n
  {
    assert WithInt(d, k, m).vals[k] == Number(m);
    assert WithInt(d, k, n).vals[k] == Number(n);
  }

  lemma SurvivesNumber(t: Kind, a: State, now: int, tag: Byte, d: State)
    requires Plain(tag) && Due(t, a, now, tag)
    ensures Survives(t, a, now, tag, d) <==> Storable(a, now, tag)
  {
    var f := FieldOf(tag);
    var n := IntOf(a, f.attr);
    var m := Kept(f.form, Number(n)).n;
    PlainNumber(t, a, now, tag, d, m);
    Spans();
    KeptIff(f.form, Number(n));
    SetTwice(d, f.attr, m, n);
  }

  /** An attribute that is written comes back as it was exactly when it is storable. */
  lemma SurvivesIff(t: Kind, a: State, now: int, tag: Byte, d: State)
    requires FieldOf(tag).Field? && Due(t, a, now, tag) && Regular(a) && tag != 5
    ensures Storable(a, now, tag) ==> Survives(t, a, now, tag, d)
    ensures FieldOf(tag).attr !in d.vals && Survives(t, a, now, tag, d) ==> Storable(a, now, tag)
  {
    if FieldOf(tag).form.Chars? {
      SurvivesText(t, a, now, tag, d);
    } else if tag == 4 {
      SurvivesAction(t, a, now, d);
    } else if tag == 16 {
      SurvivesDuration(t, a, now, d);
    } else if tag == 17 {
      SurvivesDecay(t, a, now, d);
    } else if tag == 18 {
      SurvivesDate(t, a, now, d);
    } else {
      SurvivesNumber(t, a, now, tag, d);
    }
  }

  lemma CastTwice(v: int, width: nat)
    ensures Cast(Cast(v, width), width) == Cast(v, width)
  {
    ModUnique(Cast(v, width), Span(width));
  }

  // ----- all simple attributes -----

  function KeptVal(t: Kind, a: State, now: int, tag: Byte): map<nat, Value>
    requires FieldOf(tag).Field?
  {
    if Due(t, a, now, tag) then map[FieldOf(tag).attr := Canon(a, now, tag)] else map[]
  }

  /** The attributes that are written, as they are meant to come back. */
  function KeptVals(t: Kind, a: State, now: int, tags: seq<Byte>): map<nat, Value>
    requires AreFields(tags)
  {
    if tags == [] then map[]
    else
      assert AreFields(tags[1..]);
      KeptVal(t, a, now, tags[0]) + KeptVals(t, a, now, tags[1..])
  }

  predicate AllStorable(t: Kind, a: State, now: int, tags: seq<Byte>)
    requires AreFields(tags)
  {
    forall i :: 0 <= i < |tags| && Due(t, a, now, tags[i]) ==> Storable(a, now, tags[i])
  }

  lemma MergeInOrder(d: map<nat, Value>, h: map<nat, Value>, r: map<nat, Value>)
    ensures (d + h) + r == d + (h + r)
  {
  }

  lemma OneSurvives(t: Kind, a: State, now: int, tag: Byte, d: State)
    requires FieldOf(tag).Field? && tag != 5 && Regular(a) && (Due(t, a, now, tag) ==> Storable(a, now, tag))
    ensures Rewritten(t, a, now, tag, d) == d.(vals := d.vals + KeptVal(t, a, now, tag))
  {
    if Due(t, a, now, tag) {
      SurvivesIff(t, a, now, tag, d);
      var k, v := FieldOf(tag).attr, Canon(a, now, tag);
      assert d.vals[k := v] == d.vals + map[k := v];
    } else {
      assert d.vals + map[] == d.vals;
    }
  }

  lemma {:induction false} AllSurvive(t: Kind, a: State, now: int, tags: seq<Byte>, d: State)
    requires AreFields(tags) && Regular(a) && AllStorable(t, a, now, tags) && 5 !in tags
    ensures RewrittenAll(t, a, now, tags, d) == d.(vals := d.vals + KeptVals(t, a, now, tags))
    decreases |tags|
  {
    if tags == [] {
      assert d.vals + map[] == d.vals;
    } else {
      OneSurvives(t, a, now, tags[0], d);
      assert AreFields(tags[1..]) && AllStorable(t, a, now, tags[1..]);
      AllSurvive(t, a, now, tags[1..], Rewritten(t, a, now, tags[0], d));
      MergeInOrder(d.vals, KeptVal(t, a, now, tags[0]), KeptVals(t, a, now, tags[1..]));
    }
  }

  predicate Differ(tags: seq<Byte>) {
    forall i, j :: 0 <= i < j < |tags| ==> FieldOf(tags[i]) != FieldOf(tags[j]) && OtherAttr(tags[i], tags[j])
  }

  predicate OtherAttr(a: Byte, b: Byte) {
    FieldOf(a).Field? && FieldOf(b).Field? ==> FieldOf(a).attr != FieldOf(b).attr
  }

  /** Where in the order an attribute is written. */
  function Position(attr: nat): nat {
    match attr
    case 0 => 0 case 3 => 1 case 4 => 2 case 5 => 3 case 2 => 4 case 17 => 5 case 18 => 6 case 6 => 7 case 7 => 8
    case 8 => 9 case 9 => 10 case 10 => 11 case 11 => 12 case 12 => 13 case 13 => 14 case 14 => 15 case 15 => 16
    case 24 => 17 case _ => 18
  }

  lemma OrderDiffers()
    ensures AreFields(ORDER) && Differ(ORDER) && 5 !in ORDER
  {
    assert forall i :: 0 <= i < |ORDER| ==> FieldOf(ORDER[i]).Field? && Position(FieldOf(ORDER[i]).attr) == i;
  }

  predicate Agree(d: State, e: State, k: nat) {
    (k in d.vals <==> k in e.vals) && (k in d.vals ==> d.vals[k] == e.vals[k])
  }

  lemma RewrittenLocal(t: Kind, a: State, now: int, tag: Byte, d: State, e: State, k: nat)
    requires FieldOf(tag).Field? && tag != 5
    ensures k != FieldOf(tag).attr ==> Agree(Rewritten(t, a, now, tag, d), d, k)
    ensures k == FieldOf(tag).attr && Agree(d, e, k) ==> Agree(Rewritten(t, a, now, tag, d), Rewritten(t, a, now, tag, e), k)
  {
  }

  /** What becomes of an attribute depends on its own tag alone. */
  lemma {:induction false} RewrittenAt(t: Kind, a: State, now: int, tags: seq<Byte>, d: State, e: State, i: nat)
    requires AreFields(tags) && Differ(tags) && 5 !in tags && i < |tags| && Agree(d, e, FieldOf(tags[i]).attr)
    ensures Agree(RewrittenAll(t, a, now, tags, d), Rewritten(t, a, now, tags[i], e), FieldOf(tags[i]).attr)
    decreases |tags|
  {
    var k := FieldOf(tags[i]).attr;
    assert AreFields(tags[1..]) && Differ(tags[1..]);
    var d1 := Rewritten(t, a, now, tags[0], d);
    RewrittenLocal(t, a, now, tags[0], d, e, k);
    if i == 0 {
      RewrittenElsewhere(t, a, now, tags[1..], d1, k);
    } else {
      assert OtherAttr(tags[0], tags[i]);
      RewrittenAt(t, a, now, tags[1..], d1, e, i - 1);
    }
  }

  lemma {:induction false} RewrittenElsewhere(t: Kind, a: State, now: int, tags: seq<Byte>, d: State, k: nat)
    requires AreFields(tags) && 5 !in tags && forall i :: 0 <= i < |tags| ==> FieldOf(tags[i]).attr != k
    ensures Agree(RewrittenAll(t, a, now, tags, d), d, k)
    decreases |tags|
  {
    if tags != [] {
      assert AreFields(tags[1..]);
      RewrittenLocal(t, a, now, tags[0], d, d, k);
      RewrittenElsewhere(t, a, now, tags[1..], Rewritten(t, a, now, tags[0], d), k);
    }
  }

  /** Which attributes are kept, and with what value. */
  lemma {:induction false} KeptAt(t: Kind, a: State, now: int, tags: seq<Byte>, i: nat)
    requires AreFields(tags) && Differ(tags) && i < |tags|
    ensures FieldOf(tags[i]).attr in KeptVals(t, a, now, tags) <==> Due(t, a, now, tags[i])
    ensures Due(t, a, now, tags[i]) ==> KeptVals(t, a, now, tags)[FieldOf(tags[i]).attr] == Canon(a, now, tags[i])
    decreases |tags|
  {
    assert AreFields(tags[1..]) && Differ(tags[1..]);
    if i == 0 {
      KeptElsewhere(t, a, now, tags[1..], FieldOf(tags[0]).attr);
    } else {
      assert OtherAttr(tags[0], tags[i]);
      KeptAt(t, a, now, tags[1..], i - 1);
    }
  }

  lemma {:induction false} KeptElsewhere(t: Kind, a: State, now: int, tags: seq<Byte>, k: nat)
    requires AreFields(tags) && forall i :: 0 <= i < |tags| ==> FieldOf(tags[i]).attr != k
    ensures k !in KeptVals(t, a, now, tags)
    decreases |tags|
  {
    if tags != [] {
      assert AreFields(tags[1..]);
      KeptElsewhere(t, a, now, tags[1..], k);
    }
  }

  /** All simple attributes come back, and nothing else changes, exactly when each of them is storable. */
  lemma AllSurviveIff(t: Kind, a: State, now: int, d: State)
    requires Regular(a) && forall tag: Byte {:trigger FieldOf(tag)} :: FieldOf(tag).Field? ==> FieldOf(tag).attr !in d.vals
    ensures AreFields(ORDER)
    ensures RewrittenAll(t, a, now, ORDER, d) == d.(vals := d.vals + KeptVals(t, a, now, ORDER)) <==>
            AllStorable(t, a, now, ORDER)
  {
    OrderDiffers();
    if AllStorable(t, a, now, ORDER) {
      AllSurvive(t, a, now, ORDER, d);
    } else {
      var i :| 0 <= i < |ORDER| && Due(t, a, now, ORDER[i]) && !Storable(a, now, ORDER[i]);
      KeptAt(t, a, now, ORDER, i);
      RewrittenAt(t, a, now, ORDER, d, d, i);
      SurvivesIff(t, a, now, ORDER[i], d);
      OnlyItself(t, a, now, ORDER[i], d);
    }
  }

  lemma OnlyItself(t: Kind, a: State, now: int, tag: Byte, d: State)
    requires FieldOf(tag).Field? && tag != 5
    ensures var k, r := FieldOf(tag).attr, Rewritten(t, a, now, tag, d);
            k in r.vals && r.vals[k] == Canon(a, now, tag) ==> r == d.(vals := d.vals[k := Canon(a, now, tag)])
  {
    var k, r := FieldOf(tag).attr, Rewritten(t, a, now, tag, d);
    if k in r.vals && r == d {
      assert d.vals[k := d.vals[k]] == d.vals;
    }
  }

  // ----- count and charges -----

  /** What a caller can check about count and charges before saving. */
  predicate CountsStorable(t: Kind, a: State) {
    && (Cast(IntOf(a, CHARGES), 2) != 0 ==> !t.fluid && !t.stackable && t.charges != 0 && 0 <= IntOf(a, CHARGES) < Span(2))
    && (t.fluid ==> 0 <= IntOf(a, FLUID_TYPE) < Span(1))
    && (t.stackable ==> a.count < Span(1))
  }

  function CountVals(t: Kind, a: State): map<nat, Value> {
    if t.fluid then map[FLUID_TYPE := Number(IntOf(a, FLUID_TYPE))]
    else if Cast(IntOf(a, CHARGES), 2) != 0 then map[CHARGES := Number(IntOf(a, CHARGES))] else map[]
  }

  /** Stack size, fluid and charges come back. */
  lemma CountsSurvive(t: Kind, a: State, d: State)
    requires CountsStorable(t, a)
    ensures Counted(t, a, d) == State(if t.stackable && !t.fluid then a.count else d.count, d.vals + CountVals(t, a), d.customs)
  {
    Spans();
    if t.fluid {
      assert d.vals[FLUID_TYPE := Number(IntOf(a, FLUID_TYPE))] == d.vals + CountVals(t, a);
    } else if Cast(IntOf(a, CHARGES), 2) != 0 {
      assert d.vals[CHARGES := Number(IntOf(a, CHARGES))] == d.vals + CountVals(t, a);
    } else {
      assert d.vals + CountVals(t, a) == d.vals;
    }
  }

  /** Charges on a stack overwrite its size: it survives only if they happen to be equal modulo 256. */
  lemma ChargesOverwriteCount(t: Kind, a: State, d: State)
    requires t.stackable && !t.fluid && a.count < 256
    ensures Counted(t, a, d).count == a.count <==>
            Cast(IntOf(a, CHARGES), 2) == 0 || Cast(IntOf(a, CHARGES), 2) % 256 == a.count
  {
    Spans();
  }

  // ----- the round trip -----

  ghost predicate Persistable(t: Kind, a: State, now: int)
    requires AreFields(ORDER)
  {
    && Regular(a) && CountsStorable(t, a) && AllStorable(t, a, now, ORDER)
    && |a.customs| < Span(8) && forall k :: k in a.customs ==> EntryFits(k, a.customs[k])
  }

  /** `d` with everything that is saved of `a` put over it. */
  function Overlaid(t: Kind, a: State, now: int, d: State): State
    requires AreFields(ORDER)
  {
    State(if t.stackable && !t.fluid then a.count else d.count,
          d.vals + (CountVals(t, a) + KeptVals(t, a, now, ORDER)), d.customs + a.customs)
  }

  /** Whatever follows the attributes: reading has arrived there, and the attributes are back. */
  lemma AttributesBack(t: Kind, a: State, now: int, keys: seq<seq<Byte>>, d: State, rest: seq<Byte>)
    requires AreFields(ORDER) && Persistable(t, a, now) && Enumerates(keys, a.customs)
    ensures Unserialized(t, d, Serialized(t, a, now, keys) + rest) == Unserialized(t, Overlaid(t, a, now, d), rest)
  {
    OrderDiffers();
    SerializedReads(t, a, now, keys, d, rest);
    OverlaidVals(t, a, now, d);
    CustomsOver(a.customs, keys, RewrittenAll(t, a, now, ORDER, Counted(t, a, d)), Overlaid(t, a, now, d));
  }

  /** The custom attributes read into `r` make it `o`. */
  lemma CustomsOver(customs: map<seq<Byte>, Custom>, keys: seq<seq<Byte>>, r: State, o: State)
    requires Enumerates(keys, customs) && forall k :: k in customs ==> EntryFits(k, customs[k])
    requires o.customs == r.customs + customs && r == o.(customs := r.customs)
    ensures r.(customs := ReadBack(r.customs, customs, keys)) == o
  {
    ReadBackFits(r.customs, customs, keys);
    assert Only(customs, keys) == customs;
  }

  lemma OverlaidVals(t: Kind, a: State, now: int, d: State)
    requires AreFields(ORDER) && Persistable(t, a, now)
    ensures RewrittenAll(t, a, now, ORDER, Counted(t, a, d)) == Overlaid(t, a, now, d).(customs := d.customs)
  {
    OrderDiffers();
    CountsSurvive(t, a, d);
    AllSurvive(t, a, now, ORDER, Counted(t, a, d));
    MergeInOrder(d.vals, CountVals(t, a), KeptVals(t, a, now, ORDER));
  }

  /** With a zero byte behind them the attributes are read exactly, and what follows is left alone. */
  lemma RoundTrip(t: Kind, a: State, now: int, keys: seq<seq<Byte>>, d: State, rest: seq<Byte>)
    requires AreFields(ORDER) && Persistable(t, a, now) && Enumerates(keys, a.customs)
    ensures Unserialized(t, d, Serialized(t, a, now, keys) + [0] + rest) == Go(Overlaid(t, a, now, d), rest)
  {
    Regroup(Serialized(t, a, now, keys), [0], rest);
    AttributesBack(t, a, now, keys, d, [0] + rest);
    assert ([0] + rest)[1..] == rest;
  }

  /** The attributes that come back are those that were there, but for the state of decay. */
  lemma BackIsSame(t: Kind, a: State, now: int, i: nat)
    requires AreFields(ORDER) && Regular(a) && i < |ORDER| && Due(t, a, now, ORDER[i])
    ensures var k := FieldOf(ORDER[i]).attr;
            var m := KeptVals(t, a, now, ORDER);
            k in m && k in a.vals && (k != DECAY_STATE && k != DURATION ==> m[k] == a.vals[k])
            && (k == DECAY_STATE ==> m[k] == Number(DECAYING_PENDING))
            && (k == DURATION ==> m[k] == Number(DurationLeft(a, now)))
  {
    OrderDiffers();
    KeptAt(t, a, now, ORDER, i);
    DueIsThere(t, a, now, ORDER[i]);
  }

  lemma DueIsThere(t: Kind, a: State, now: int, tag: Byte)
    requires Due(t, a, now, tag) && Regular(a) && FieldOf(tag).Field?
    ensures FieldOf(tag).attr in a.vals
    ensures FieldOf(tag).attr != DURATION ==> Payload(a, now, tag) == a.vals[FieldOf(tag).attr]
  {
    if FieldOf(tag).attr == ACTION_ID {
      ModUnique(0, Span(2));
    }
  }
}
