/** Writing and reading attributes and items through the stream objects. */
module AttrStreams {
  import opened Streams
  import opened ItemTree
  import opened AttrCodec
  import opened Seals
  import opened ItemStream

  // ----- writing -----

  method WriteValue(form: Form, v: Value, out: PropWriteStream)
    modifies out
    ensures out.buffer == old(out.buffer) + Encoded(form, v)
  {
    match form
    case Chars => out.WriteString(if v.Text? then v.s else []);
    case Unsigned(width) => out.Write(Cast(if v.Number? then v.n else 0, width), width);
    case Twos(width) => out.Write(Cast(if v.Number? then v.n else 0, width), width);
  }

  method WriteTag(tag: Byte, out: PropWriteStream)
    modifies out
    ensures out.buffer == old(out.buffer) + [tag]
  {
    Spans();
    assert Le(tag, 1) == [tag];
    out.Write(tag, 1);
  }

  method WriteSimple(t: Kind, a: State, now: int, tag: Byte, out: PropWriteStream)
    modifies out
    ensures out.buffer == old(out.buffer) + Chunk(t, a, now, tag)
  {
    if Due(t, a, now, tag) {
      WriteTag(tag, out);
      WriteValue(FieldOf(tag).form, Payload(a, now, tag), out);
    }
  }

  method WriteCounts(t: Kind, a: State, out: PropWriteStream)
    modifies out
    ensures out.buffer == old(out.buffer) + CountChunk(t, a) + ChargesChunk(a)
  {
    if t.stackable || t.fluid {
      WriteTag(COUNT_TAG, out);
      out.Write(Cast(SubType(t, a), 1), 1);
    }
    var charges := Cast(IntOf(a, CHARGES), 2);
    if charges != 0 {
      WriteTag(CHARGES_TAG, out);
      out.Write(charges, 2);
    }
  }

  method WriteCustom(v: Custom, out: PropWriteStream)
    modifies out
    ensures out.buffer == old(out.buffer) + CustomBytes(v)
  {
    ghost var o := out.buffer;
    match v {
      case Blank =>
        WriteTag(0, out);
      case CustomText(s) =>
        WriteTag(1, out);
        out.WriteString(s);
        Regroup(o, [1], StringBytes(s));
      case CustomInt(n) =>
        WriteTagged(2, Cast(n, 8), out);
      case CustomDouble(bits) =>
        WriteTagged(3, Cast(bits, 8), out);
      case CustomBool(b) =>
        WriteTag(4, out);
        WriteTag(if b then 1 else 0, out);
        Regroup(o, [4], [if b then 1 else 0]);
    }
  }

  method WriteTagged(tag: Byte, n: nat, out: PropWriteStream)
    modifies out
    ensures out.buffer == old(out.buffer) + ([tag] + Le(n, 8))
  {
    ghost var o := out.buffer;
    WriteTag(tag, out);
    out.Write(n, 8);
    Regroup(o, [tag], Le(n, 8));
  }

  method WriteEntries(m: map<seq<Byte>, Custom>, keys: seq<seq<Byte>>, out: PropWriteStream)
    requires forall k :: k in keys ==> k in m
    modifies out
    ensures out.buffer == old(out.buffer) + EntriesBytes(m, keys)
  {
    ghost var o := out.buffer;
    assert keys[0..] == keys;
    for k := 0 to |keys|
      invariant out.buffer + EntriesBytes(m, keys[k..]) == o + EntriesBytes(m, keys)
    {
      var key := keys[k];
      ghost var b, tail := out.buffer, EntriesBytes(m, keys[k+1..]);
      assert keys[k..][1..] == keys[k+1..];
      out.WriteString(key);
      WriteCustom(m[key], out);
      Regroup(b, StringBytes(key), CustomBytes(m[key]));
      Regroup(b, EntryBytes(key, m[key]), tail);
    }
  }

  method WriteCustoms(a: State, keys: seq<seq<Byte>>, out: PropWriteStream)
    requires Enumerates(keys, a.customs)
    modifies out
    ensures out.buffer == old(out.buffer) + CustomChunk(a, keys)
  {
    if a.customs == map[] {
      return;
    }
    ghost var o := out.buffer;
    WriteTagged(CUSTOM_TAG, Cast(|a.customs|, 8), out);
    WriteEntries(a.customs, keys, out);
    Regroup(o, [CUSTOM_TAG] + Le(Cast(|a.customs|, 8), 8), EntriesBytes(a.customs, keys));
  }

  /** The simple attributes, in the order of the tags. */
  method WriteTable(t: Kind, a: State, now: int, tags: seq<Byte>, out: PropWriteStream)
    modifies out
    ensures out.buffer == old(out.buffer) + Chunks(t, a, now, tags)
  {
    ghost var o := out.buffer;
    assert tags[0..] == tags;
    for i := 0 to |tags|
      invariant out.buffer + Chunks(t, a, now, tags[i..]) == o + Chunks(t, a, now, tags)
    {
      assert tags[i..][1..] == tags[i+1..];
      ghost var b := out.buffer;
      WriteSimple(t, a, now, tags[i], out);
      Regroup(b, Chunk(t, a, now, tags[i]), Chunks(t, a, now, tags[i+1..]));
    }
  }

  /** `serializeAttr`; its tests for the simple attributes, one after the other, are a loop over the table here. */
  method SerializeAttr(t: Kind, a: State, now: int, keys: seq<seq<Byte>>, out: PropWriteStream)
    requires Enumerates(keys, a.customs)
    modifies out
    ensures out.buffer == old(out.buffer) + Serialized(t, a, now, keys)
  {
    ghost var o := out.buffer;
    WriteCounts(t, a, out);
    WriteTable(t, a, now, ORDER, out);
    WriteCustoms(a, keys, out);
    Four(o, CountChunk(t, a), ChargesChunk(a), Chunks(t, a, now, ORDER), CustomChunk(a, keys));
  }

  lemma Four(o: seq<Byte>, a: seq<Byte>, b: seq<Byte>, c: seq<Byte>, d: seq<Byte>)
    ensures o + a + b + c + d == o + (a + b + c + d)
  {
  }

  // ----- reading -----

  method ReadValue(form: Form, ins: PropStream) returns (ok: bool, v: Value)
    requires ins.Valid()
    modifies ins`p
    ensures ins.Valid() && ok == Decoded(form, old(ins.Rest())).Got?
    ensures ok ==> Decoded(form, old(ins.Rest())) == Got(v, ins.Rest())
  {
    var n;
    match form {
      case Chars =>
        var s;
        ok, s := ins.ReadString();
        v := Text(s);
      case Unsigned(width) =>
        ok, n := ins.Read(width);
        v := Number(n);
      case Twos(width) =>
        ok, n := ins.Read(width);
        v := Number(Signed(n, width));
    }
  }

  method ReadCustom(ins: PropStream) returns (ok: bool, v: Custom)
    requires ins.Valid()
    modifies ins`p
    ensures ins.Valid() && ok == CustomRead(old(ins.Rest())).Got?
    ensures ok ==> CustomRead(old(ins.Rest())) == Got(v, ins.Rest())
  {
    var pos, n;
    ghost var b := ins.Rest();
    v := Blank;
    ok, pos := ins.Read(1);
    if !ok {
      return;
    }
    OneByte(b);
    if pos == 1 {
      var s;
      ok, s := ins.ReadString();
      v := CustomText(s);
    } else if pos == 2 {
      ok, n := ins.Read(8);
      v := CustomInt(Signed(n, 8));
    } else if pos == 3 {
      ok, n := ins.Read(8);
      v := CustomDouble(n);
    } else if pos == 4 {
      ok, n := ins.Read(1);
      v := CustomBool(n != 0);
    } else {
      ok := false;
    }
  }

  lemma OneByte(b: seq<Byte>)
    requires b != []
    ensures TakeNumber(b, 1) == Got(b[0], b[1..])
  {
    assert b[..1][1..] == [];
    assert Un(b[..1]) == b[0] + 256 * Un([]);
  }

  /** The first of `left` custom attributes; `next` are to follow. */
  method ReadEntry(a: State, ghost left: nat, ghost next: nat, ins: PropStream, ghost r: Step) returns (ok: bool, a1: State)
    requires ins.Valid() && left == next + 1 && r == CustomsRead(a, left, ins.Rest())
    modifies ins`p
    ensures ins.Valid()
    ensures if ok then r == CustomsRead(a1, next, ins.Rest()) else r.Failed?
  {
    ghost var b := ins.Rest();
    var key, v;
    a1 := a;
    ok, key := ins.ReadString();
    if !ok {
      return;
    }
    ghost var c := ins.Rest();
    ok, v := ReadCustom(ins);
    if ok {
      a1 := a.(customs := a.customs[Lower(key) := v]);
      EntryTaken(key, v, next, a, b, c, ins.Rest());
    } else {
      EntryStops(a, next, b, c);
    }
  }

  method ReadCustoms(a: State, size: nat, ins: PropStream) returns (ok: bool, a1: State)
    requires ins.Valid()
    modifies ins`p
    ensures ins.Valid() && ok == CustomsRead(a, size, old(ins.Rest())).Go?
    ensures ok ==> CustomsRead(a, size, old(ins.Rest())) == Go(a1, ins.Rest())
  {
    a1 := a;
    ghost var r := CustomsRead(a, size, ins.Rest());
    var left: nat := size;
    while left > 0
      invariant ins.Valid() && left <= size && r == CustomsRead(a1, left, ins.Rest())
    {
      var next: nat := left - 1;
      ok, a1 := ReadEntry(a1, left, next, ins, r);
      if !ok {
        return;
      }
      left := next;
    }
    ok := true;
  }

  datatype ReadResult = ReadContinue | ReadError | ReadEnd(count: nat)

  /** What `readAttr` has found out, as the pure reading says it. */
  ghost predicate Reads(s: Step, r: ReadResult, a: State, rest: seq<Byte>) {
    match r
    case ReadContinue => s == Go(a, rest)
    case ReadError => s.Failed?
    case ReadEnd(count) => s == Contents(a, count, rest)
  }

  method ReadSub(t: Kind, a: State, width: nat, ins: PropStream) returns (r: ReadResult, a1: State)
    requires ins.Valid()
    modifies ins`p
    ensures ins.Valid() && !r.ReadEnd?
    ensures var n := TakeNumber(old(ins.Rest()), width);
            if n.Got? then r.ReadContinue? && a1 == WithSubType(t, a, n.value) && ins.Rest() == n.rest else r.ReadError?
  {
    var ok, n := ins.Read(width);
    a1, r := a, ReadError;
    if ok {
      a1, r := WithSubType(t, a, n), ReadContinue;
    }
  }

  method ReadTable(a: State, attr: Byte, ins: PropStream) returns (r: ReadResult, a1: State)
    requires ins.Valid() && FieldOf(attr).Field?
    modifies ins`p
    ensures ins.Valid() && !r.ReadEnd?
    ensures var v := Decoded(FieldOf(attr).form, old(ins.Rest()));
            if v.Got? then r.ReadContinue? && a1 == Stored(a, attr, v.value) && ins.Rest() == v.rest else r.ReadError?
  {
    var ok, v := ReadValue(FieldOf(attr).form, ins);
    a1, r := a, ReadError;
    if ok {
      a1, r := Stored(a, attr, v), ReadContinue;
    }
  }

  /** Tags that stand for more, or less, than one value. */
  method ReadOther(t: Kind, a: State, attr: Byte, ins: PropStream) returns (r: ReadResult, a1: State)
    requires ins.Valid() && !FieldOf(attr).Field? && attr !in [COUNT_TAG, RUNE_CHARGES_TAG, CHARGES_TAG]
    modifies ins`p
    ensures ins.Valid() && Reads(AttrRead(t, a, attr, old(ins.Rest())), r, a1, ins.Rest())
  {
    var ok, n;
    a1, r := a, ReadError;
    if attr == CUSTOM_TAG {
      ok, n := ins.Read(8);
      if ok {
        ok, a1 := ReadCustoms(a, n, ins);
        r := if ok then ReadContinue else ReadError;
      }
    } else if attr == ITEMS_TAG && t.container {
      ok, n := ins.Read(4);
      if ok {
        r := ReadEnd(n);
      }
    } else if Skipped(attr) > 0 {
      ok := ins.Skip(Skipped(attr));
      r := if ok then ReadContinue else ReadError;
    }
  }

  /** `readAttr` */
  method ReadAttr(t: Kind, a: State, attr: Byte, ins: PropStream) returns (r: ReadResult, a1: State)
    requires ins.Valid()
    modifies ins`p
    ensures ins.Valid() && Reads(AttrRead(t, a, attr, old(ins.Rest())), r, a1, ins.Rest())
  {
    if FieldOf(attr).Field? {
      r, a1 := ReadTable(a, attr, ins);
    } else if attr == COUNT_TAG || attr == RUNE_CHARGES_TAG {
      r, a1 := ReadSub(t, a, 1, ins);
    } else if attr == CHARGES_TAG {
      r, a1 := ReadSub(t, a, 2, ins);
    } else {
      r, a1 := ReadOther(t, a, attr, ins);
    }
  }

  /** `unserializeAttr`: attributes until a zero byte, the end of the stream, or the entries of a container. */
  method UnserializeAttr(t: Kind, a: State, ins: PropStream) returns (r: ReadResult, a1: State)
    requires ins.Valid()
    modifies ins`p
    ensures ins.Valid() && Reads(Unserialized(t, a, old(ins.Rest())), r, a1, ins.Rest())
  {
    a1, r := a, ReadContinue;
    while true
      invariant ins.Valid() && r.ReadContinue?
      invariant Unserialized(t, a, old(ins.Rest())) == Unserialized(t, a1, ins.Rest())
      decreases |ins.Rest()|
    {
      ghost var b := ins.Rest();
      var ok, attr := ins.Read(1);
      if !ok {
        assert b == [];
        return;
      }
      OneByte(b);
      if attr == 0 {
        return;
      }
      r, a1 := ReadAttr(t, a1, attr, ins);
      if !r.ReadContinue? {
        return;
      }
    }
  }

  // ----- items -----

  /** `saveItem` */
  method SaveItem(e: Env, x: Thing, out: PropWriteStream)
    requires Walkable(e, x)
    modifies out
    ensures out.buffer == old(out.buffer) + ItemBytes(e, x)
    decreases x, 1
  {
    ghost var o := out.buffer;
    var t := e.kinds(x.id);
    out.Write(Cast(x.id, 2), 2);
    SerializeAttr(t, x.state, e.now, e.keys(x.state.customs), out);
    ghost var b := out.buffer;
    ghost var middle := if t.container then [ITEMS_TAG] + Le(Cast(|x.kids|, 4), 4) + KidsBytes(e, x, |x.kids|) else [];
    if t.container {
      WriteTag(ITEMS_TAG, out);
      out.Write(Cast(|x.kids|, 4), 4);
      SaveKids(e, x, out);
      Three(b, [ITEMS_TAG], Le(Cast(|x.kids|, 4), 4), KidsBytes(e, x, |x.kids|));
    }
    assert out.buffer == b + middle;
    WriteTag(0, out);
    Four(o, Le(Cast(x.id, 2), 2), Serialized(t, x.state, e.now, e.keys(x.state.customs)), middle, [0]);
  }

  lemma Three(o: seq<Byte>, a: seq<Byte>, b: seq<Byte>, c: seq<Byte>)
    ensures o + a + b + c == o + (a + b + c)
  {
  }

  /** The entries of a container, from the last to the first. */
  method SaveKids(e: Env, x: Thing, out: PropWriteStream)
    requires Walkable(e, x)
    modifies out
    ensures out.buffer == old(out.buffer) + KidsBytes(e, x, |x.kids|)
    decreases x, 0, 1
  {
    ghost var o := out.buffer;
    var k: nat := |x.kids|;
    while k > 0
      invariant k <= |x.kids| && KidsWritten(e, x, k, o, out.buffer)
    {
      k := SaveKid(e, x, k, o, out);
    }
    AllWritten(e, x, k, o, out.buffer);
  }

  method SaveKid(e: Env, x: Thing, k: nat, ghost o: seq<Byte>, out: PropWriteStream) returns (next: nat)
    requires Walkable(e, x) && 0 < k <= |x.kids| && KidsWritten(e, x, k, o, out.buffer)
    modifies out
    ensures next == k - 1 && KidsWritten(e, x, next, o, out.buffer)
    decreases x, 0, 0
  {
    ghost var b := out.buffer;
    SaveItem(e, x.kids[k-1], out);
    next := k - 1;
    KidWritten(e, x, k, next, o, b, out.buffer);
  }

  /** With the bytes of the first `k` entries behind it, `b` is `o` and the bytes of all entries; sealed. */
  ghost predicate KidsWritten(e: Env, x: Thing, k: nat, o: seq<Byte>, b: seq<Byte>)
    requires Walkable(e, x) && k <= |x.kids|
  {
    forall i {:trigger Unsealed(OfLoads, i)} :: Unsealed(OfLoads, i) ==> b + KidsBytes(e, x, k) == o + KidsBytes(e, x, |x.kids|)
  }

  lemma KidWritten(e: Env, x: Thing, k: nat, next: nat, o: seq<Byte>, b: seq<Byte>, b1: seq<Byte>)
    requires Walkable(e, x) && 0 < k <= |x.kids| && KidsWritten(e, x, k, o, b) && b1 == b + ItemBytes(e, x.kids[k-1])
    requires next == k - 1
    ensures KidsWritten(e, x, next, o, b1)
  {
    assert Unsealed(OfLoads, 0);
    Regroup(b, ItemBytes(e, x.kids[k-1]), KidsBytes(e, x, k - 1));
  }

  lemma AllWritten(e: Env, x: Thing, k: nat, o: seq<Byte>, b: seq<Byte>)
    requires Walkable(e, x) && k == 0 && KidsWritten(e, x, k, o, b)
    ensures b == o + KidsBytes(e, x, |x.kids|)
  {
    assert Unsealed(OfLoads, 0);
    assert b + [] == b;
  }

  /** `loadItem` for an item that is created anew. */
  method LoadItem(kinds: nat -> Kind, ins: PropStream) returns (ok: bool, x: Thing)
    requires ins.Valid()
    modifies ins`p
    ensures ins.Valid() && ok == ItemLoaded(kinds, old(ins.Rest())).Done?
    ensures ok ==> ItemLoaded(kinds, old(ins.Rest())) == Done(x, ins.Rest())
    decreases |ins.Rest()|, 0, 0
  {
    ghost var b := ins.Rest();
    var id, r, a, kids;
    x := Thing(0, State(0, map[], map[]), []);
    ok, id := ins.Read(2);
    if !ok {
      return;
    }
    ghost var b1 := ins.Rest();
    r, a := UnserializeAttr(kinds(id), NewState(kinds(id)), ins);
    UnserializedShrinks(kinds(id), NewState(kinds(id)), b1);
    if r.ReadError? {
      ok := false;
      return;
    }
    kids := [];
    if kinds(id).container {
      ok, kids := LoadContainer(kinds, if r.ReadEnd? then r.count else 0, ins);
    }
    x := Thing(id, a, kids);
  }

  /** `loadContainer`: as many items as were counted, each put to the front, and a zero byte. */
  method LoadContainer(kinds: nat -> Kind, serializationCount: nat, ins: PropStream) returns (ok: bool, items: seq<Thing>)
    requires ins.Valid()
    modifies ins`p
    ensures ins.Valid() && ok == KidsLoaded(kinds, serializationCount, old(ins.Rest()), []).Done?
    ensures ok ==> KidsLoaded(kinds, serializationCount, old(ins.Rest()), []) == Done(items, ins.Rest())
    decreases |ins.Rest()|, 1, 0
  {
    ghost var b := ins.Rest();
    items := [];
    var count := serializationCount;
    while count > 0
      invariant ins.Valid() && |ins.Rest()| <= |b|
      invariant KidsLoaded(kinds, serializationCount, b, []) == KidsLoaded(kinds, count, ins.Rest(), items)
    {
      var x;
      ghost var b0 := ins.Rest();
      ok, x := LoadItem(kinds, ins);
      if !ok {
        return;
      }
      KidStep(kinds, count, b0, items, x, ins.Rest());
      items, count := [x] + items, count - 1;
    }
    var endAttr;
    ok, endAttr := ins.Read(1);
    ok := ok && endAttr == 0;
  }
}
