/**
 The relational form of a forest of items: one row per item, naming the row of the container it is
 in.  This module says what saving has to produce, what loading makes of it, and why the two fit.
 */
module Rows {
  import opened ItemTree
  import opened Traversal

  /** What a row stores of an item itself: its type, which decides whether it is a container, its count and attributes. */
  datatype Record = Record(typ: ItemType, count: nat, attrs: Attrs, box: bool, cap: nat, unlocked: bool)

  datatype Row = Row(pid: int, sid: int, record: Record)

  const FIRST_ID: int := 101

  function RecordOf<R>(v: View<R>): Record {
    Record(v.typ, v.count, v.attrs, v.box, v.cap, v.unlocked)
  }

  /** The item of a record, before it is put anywhere. */
  function ViewOf<R>(r: Record): View<R> {
    View(r.typ, r.count, r.attrs, Nowhere, r.box, r.cap, r.unlocked, [], 0)
  }

  /** The items whose rows name `p` as their parent, from row `s` on. */
  function Listed<R>(rows: seq<Row>, objs: seq<R>, p: int, s: nat): seq<R>
    requires |rows| == |objs| && s <= |rows|
    decreases |rows| - s
  {
    if s == |rows| then [] else (if rows[s].pid == p then [objs[s]] else []) + Listed(rows, objs, p, s + 1)
  }

  lemma {:induction false} ListedAppend<R>(rows: seq<Row>, objs: seq<R>, r: Row, x: R, p: int, s: nat)
    requires |rows| == |objs| && s <= |rows|
    ensures Listed(rows + [r], objs + [x], p, s) == Listed(rows, objs, p, s) + if r.pid == p then [x] else []
    decreases |rows| - s
  {
    if s < |rows| {
      ListedAppend(rows, objs, r, x, p, s + 1);
    }
  }

  /** The same positions are picked from any two lists of items that go with the rows. */
  lemma {:induction false} ListedPair<R, S>(rows: seq<Row>, a: seq<R>, b: seq<S>, p: int, s: nat, k: nat) returns (j: nat)
    requires |rows| == |a| == |b| && s <= |rows|
    requires k < |Listed(rows, a, p, s)|
    ensures |Listed(rows, a, p, s)| == |Listed(rows, b, p, s)|
    ensures s <= j < |rows| && rows[j].pid == p && Listed(rows, a, p, s)[k] == a[j] && Listed(rows, b, p, s)[k] == b[j]
    decreases |rows| - s
  {
    if rows[s].pid == p && k == 0 {
      ListedLength(rows, a, b, p, s);
      j := s;
    } else {
      j := ListedPair(rows, a, b, p, s + 1, if rows[s].pid == p then k - 1 else k);
    }
  }

  lemma {:induction false} ListedLength<R, S>(rows: seq<Row>, a: seq<R>, b: seq<S>, p: int, s: nat)
    requires |rows| == |a| == |b| && s <= |rows|
    ensures |Listed(rows, a, p, s)| == |Listed(rows, b, p, s)|
    decreases |rows| - s
  {
    if s < |rows| {
      ListedLength(rows, a, b, p, s + 1);
    }
  }

  lemma {:induction false} ListedSome<R>(rows: seq<Row>, objs: seq<R>, p: int, s: nat, k: nat)
    requires |rows| == |objs| && s <= k < |rows| && rows[k].pid == p
    ensures Listed(rows, objs, p, s) != []
    decreases |rows| - s
  {
    if s < k {
      ListedSome(rows, objs, p, s + 1, k);
    }
  }

  lemma {:induction false} ListedNone<R>(rows: seq<Row>, objs: seq<R>, p: int, s: nat)
    requires |rows| == |objs| && s <= |rows| && forall j :: s <= j < |rows| ==> rows[j].pid != p
    ensures Listed(rows, objs, p, s) == []
    decreases |rows| - s
  {
    if s < |rows| {
      ListedNone(rows, objs, p, s + 1);
    }
  }

  // ----- saving -----

  /** Row `j` is the row of item `objs[j]`: a slot number for the first ones, then the row of its container. */
  ghost predicate RowIs<R>(w: World<R>, slots: seq<int>, rows: seq<Row>, objs: seq<R>, j: nat)
    requires |rows| == |objs| && j < |rows|
  {
    && objs[j] in w && rows[j].sid == FIRST_ID + j && rows[j].record == RecordOf(w[objs[j]])
    && if j < |slots| then rows[j].pid == slots[j] && w[objs[j]].parent.Outside?
       else FIRST_ID <= rows[j].pid < rows[j].sid && w[objs[j]].parent == In(objs[rows[j].pid - FIRST_ID])
  }

  /** Container `b` of the worklist and the id of its row; so far `n` of its entries have rows. */
  ghost predicate BlockIs<R>(w: World<R>, rows: seq<Row>, objs: seq<R>, cs: seq<R>, ids: seq<int>, b: nat, n: nat)
    requires |rows| == |objs| && |cs| == |ids| && b < |cs|
  {
    && FIRST_ID <= ids[b] < FIRST_ID + |objs| && objs[ids[b] - FIRST_ID] == cs[b]
    && cs[b] in w && n <= |w[cs[b]].items| && Listed(rows, objs, ids[b], 0) == w[cs[b]].items[..n]
  }

  /** How many entries of container `b` have rows when container `i` has got as far as entry `k`. */
  function Progress<R>(w: World<R>, cs: seq<R>, b: nat, i: nat, k: nat): nat
    requires b < |cs|
  {
    if b < i then (if cs[b] in w then |w[cs[b]].items| else 0) else if b == i then k else 0
  }

  /** The entries that have rows, in order: the roots, the entries of the first `i` containers, and `k` of the next. */
  ghost function Written<R>(w: World<R>, roots: seq<R>, cs: seq<R>, i: nat, k: nat): seq<R>
    requires i <= |cs| && (i < |cs| ==> cs[i] in w && k <= |w[cs[i]].items|)
  {
    roots + Entries(w, cs[..i]) + if i < |cs| then w[cs[i]].items[..k] else []
  }

  /** Where saving has got to. */
  ghost predicate Saving<R>(w: World<R>, roots: seq<R>, slots: seq<int>, rows: seq<Row>, objs: seq<R>,
                            cs: seq<R>, ids: seq<int>, i: nat, k: nat) {
    && Forest(w) && Roots(w, roots, slots) && |rows| == |objs| && |cs| == |ids| && i <= |cs|
    && (if i < |cs| then cs[i] in w && k <= |w[cs[i]].items| else k == 0)
    && objs == Written(w, roots, cs, i, k) && cs == Boxes(w, objs) && Distinct(objs)
    && (forall j {:trigger RowIs(w, slots, rows, objs, j)} :: 0 <= j < |rows| ==> RowIs(w, slots, rows, objs, j))
    && (forall b {:trigger Progress(w, cs, b, i, k)} ::
          0 <= b < |cs| ==> BlockIs(w, rows, objs, cs, ids, b, Progress(w, cs, b, i, k)))
  }

  /** The items handed to a save, each with the slot it is in. */
  ghost predicate Roots<R>(w: World<R>, roots: seq<R>, slots: seq<int>) {
    && |roots| == |slots| && Distinct(roots)
    && (forall j :: 0 <= j < |slots| ==> slots[j] < FIRST_ID)
    && (forall x :: x in roots ==> x in w && w[x].parent.Outside?)
  }

  /** Of the roots alone, none has any of its entries saved yet. */
  lemma SaveNothing<R>(w: World<R>)
    requires Forest(w)
    ensures Saving<R>(w, [], [], [], [], [], [], 0, 0)
  {
  }

  /** A new row and the worklist after it. */
  function Work<R>(w: World<R>, cs: seq<R>, x: R): seq<R>
    requires x in w
  {
    cs + if w[x].box then [x] else []
  }

  function WorkIds<R>(w: World<R>, ids: seq<int>, x: R, sid: int): seq<int>
    requires x in w
  {
    ids + if w[x].box then [sid] else []
  }

  lemma RowStays<R>(w: World<R>, slots: seq<int>, more: seq<int>, rows: seq<Row>, objs: seq<R>, r: Row, x: R, j: nat)
    requires |rows| == |objs| && j < |rows| && RowIs(w, slots, rows, objs, j)
    requires more == slots || (|rows| == |slots| && slots <= more)
    ensures RowIs(w, more, rows + [r], objs + [x], j)
  {
  }

  /** A row for `x` leaves the progress of a container alone, unless `x` is the next of its entries. */
  lemma BlockStays<R>(w: World<R>, rows: seq<Row>, objs: seq<R>, cs: seq<R>, ids: seq<int>, b: nat, n: nat,
                      r: Row, x: R, cs1: seq<R>, ids1: seq<int>)
    requires |rows| == |objs| && |cs| == |ids| && b < |cs| && BlockIs(w, rows, objs, cs, ids, b, n)
    requires cs <= cs1 && ids <= ids1 && |cs1| == |ids1|
    requires r.pid == ids[b] ==> n < |w[cs[b]].items| && x == w[cs[b]].items[n]
    ensures BlockIs(w, rows + [r], objs + [x], cs1, ids1, b, if r.pid == ids[b] then n + 1 else n)
  {
    ListedAppend(rows, objs, r, x, ids[b], 0);
    if r.pid == ids[b] {
      assert w[cs[b]].items[..n+1] == w[cs[b]].items[..n] + [x];
    }
  }

  /** The row of a container starts a block without entries. */
  lemma BlockStarts<R>(w: World<R>, slots: seq<int>, rows: seq<Row>, objs: seq<R>, r: Row, x: R, cs: seq<R>, ids: seq<int>)
    requires |rows| == |objs| && |cs| == |ids| && x in w && r.pid < r.sid == FIRST_ID + |rows|
    requires forall j :: 0 <= j < |rows| ==> rows[j].pid < r.sid
    ensures BlockIs(w, rows + [r], objs + [x], cs + [x], ids + [r.sid], |cs|, 0)
  {
    ListedNone(rows + [r], objs + [x], r.sid, 0);
  }

  lemma WorkIs<R>(w: World<R>, objs: seq<R>, x: R)
    requires x in w
    ensures Boxes(w, objs + [x]) == Work(w, Boxes(w, objs), x)
  {
    BoxesConcat(w, objs, [x]);
    assert Boxes(w, [x]) == (if w[x].box then [x] else []) + Boxes(w, []);
  }

  lemma PidsBelow<R>(w: World<R>, slots: seq<int>, rows: seq<Row>, objs: seq<R>, sid: int)
    requires |rows| == |objs| && sid == FIRST_ID + |rows|
    requires forall j {:trigger RowIs(w, slots, rows, objs, j)} :: 0 <= j < |rows| ==> RowIs(w, slots, rows, objs, j)
    requires forall j :: 0 <= j < |slots| ==> slots[j] < FIRST_ID
    ensures forall j :: 0 <= j < |rows| ==> rows[j].pid < sid
  {
    forall j | 0 <= j < |rows|
      ensures rows[j].pid < sid
    {
      assert RowIs(w, slots, rows, objs, j);
    }
  }

  lemma RootBlock<R>(w: World<R>, slots: seq<int>, rows: seq<Row>, objs: seq<R>, cs: seq<R>, ids: seq<int>, x: R, r: Row, b: nat)
    requires |rows| == |objs| && |cs| == |ids| && x in w && b < |Work(w, cs, x)|
    requires b < |cs| ==> BlockIs(w, rows, objs, cs, ids, b, 0)
    requires r.pid < FIRST_ID && r.sid == FIRST_ID + |rows| && forall j :: 0 <= j < |rows| ==> rows[j].pid < r.sid
    ensures BlockIs(w, rows + [r], objs + [x], Work(w, cs, x), WorkIds(w, ids, x, r.sid), b, 0)
  {
    if b < |cs| {
      BlockStays(w, rows, objs, cs, ids, b, 0, r, x, Work(w, cs, x), WorkIds(w, ids, x, r.sid));
    } else {
      BlockStarts(w, slots, rows, objs, r, x, cs, ids);
    }
  }

  /** One more root. */
  lemma SaveRoot<R>(w: World<R>, roots: seq<R>, slots: seq<int>, rows: seq<Row>, objs: seq<R>, cs: seq<R>, ids: seq<int>,
                    x: R, r: Row)
    requires Saving(w, roots, slots, rows, objs, cs, ids, 0, 0) && Roots(w, roots + [x], slots + [r.pid])
    requires x in w && r.sid == FIRST_ID + |rows| && r.record == RecordOf(w[x])
    ensures Saving(w, roots + [x], slots + [r.pid], rows + [r], objs + [x], Work(w, cs, x), WorkIds(w, ids, x, r.sid), 0, 0)
  {
    var cs1, ids1, slots1 := Work(w, cs, x), WorkIds(w, ids, x, r.sid), slots + [r.pid];
    assert slots1[|slots|] == r.pid && x in roots + [x];
    RootsWritten(w, roots, cs);
    RootsWritten(w, roots + [x], cs1);
    WorkIs(w, objs, x);
    PidsBelow(w, slots, rows, objs, r.sid);
    forall j | 0 <= j < |rows + [r]|
      ensures RowIs(w, slots1, rows + [r], objs + [x], j)
    {
      if j < |rows| {
        assert RowIs(w, slots, rows, objs, j);
        RowStays(w, slots, slots1, rows, objs, r, x, j);
      }
    }
    forall b | 0 <= b < |cs1|
      ensures BlockIs(w, rows + [r], objs + [x], cs1, ids1, b, Progress(w, cs1, b, 0, 0))
    {
      assert b < |cs| ==> Progress(w, cs, b, 0, 0) == 0;
      RootBlock(w, slots, rows, objs, cs, ids, x, r, b);
    }
  }

  lemma RootsWritten<R>(w: World<R>, roots: seq<R>, cs: seq<R>)
    requires |cs| > 0 ==> cs[0] in w
    ensures Written(w, roots, cs, 0, 0) == roots
  {
    assert cs[..0] == [];
  }

  /** What has been written up to an entry has no repetitions. */
  lemma WrittenDistinct<R>(w: World<R>, roots: seq<R>, slots: seq<int>, cs: seq<R>, i: nat, k: nat)
    requires Forest(w) && Roots(w, roots, slots) && Distinct(cs)
    requires i < |cs| && cs[i] in w && k < |w[cs[i]].items|
    ensures Written(w, roots, cs, i, k + 1) == Written(w, roots, cs, i, k) + [w[cs[i]].items[k]]
    ensures Distinct(Written(w, roots, cs, i, k + 1))
  {
    assert w[cs[i]].items[..k+1] == w[cs[i]].items[..k] + [w[cs[i]].items[k]];
    assert cs[..i+1] == cs[..i] + [cs[i]];
    EntriesConcat(w, cs[..i], [cs[i]]);
    assert Entries(w, [cs[i]]) == w[cs[i]].items + Entries(w, []);
    EntriesDistinct(w, cs[..i+1]);
    forall x | x in roots
      ensures x !in Entries(w, cs[..i+1])
    {
      EntriesAt(w, cs[..i+1], x);
    }
    DistinctConcat(roots, Entries(w, cs[..i+1]));
    var all := roots + Entries(w, cs[..i+1]);
    assert Written(w, roots, cs, i, k + 1) == all[..|roots| + |Entries(w, cs[..i])| + k + 1];
  }

  /** What a new entry means for each container of the worklist. */
  lemma EntryBlock<R>(w: World<R>, roots: seq<R>, slots: seq<int>, rows: seq<Row>, objs: seq<R>, cs: seq<R>, ids: seq<int>,
                      i: nat, k: nat, x: R, r: Row, b: nat)
    requires Saving(w, roots, slots, rows, objs, cs, ids, i, k) && i < |cs| && k < |w[cs[i]].items|
    requires x == w[cs[i]].items[k] && x in w && r == Row(ids[i], FIRST_ID + |rows|, RecordOf(w[x]))
    requires b < |Work(w, cs, x)|
    ensures BlockIs(w, rows + [r], objs + [x], Work(w, cs, x), WorkIds(w, ids, x, r.sid), b, Progress(w, Work(w, cs, x), b, i, k + 1))
  {
    var n := if b < |cs| then Progress(w, cs, b, i, k) else 0;
    if b < |cs| {
      assert Progress(w, cs, i, i, k) == k && BlockIs(w, rows, objs, cs, ids, i, k);
      assert BlockIs(w, rows, objs, cs, ids, b, n);
      assert b != i ==> ids[b] != ids[i] by {
        BoxesDistinct(w, objs);
      }
      BlockStays(w, rows, objs, cs, ids, b, n, r, x, Work(w, cs, x), WorkIds(w, ids, x, r.sid));
    } else {
      PidsBelow(w, slots, rows, objs, r.sid);
      assert Progress(w, cs, i, i, k) == k && BlockIs(w, rows, objs, cs, ids, i, k);
      BlockStarts(w, slots, rows, objs, r, x, cs, ids);
    }
  }

  /** The row of an entry names the row of its container. */
  lemma EntryRow<R>(w: World<R>, slots: seq<int>, rows: seq<Row>, objs: seq<R>, cs: seq<R>, ids: seq<int>,
                    i: nat, k: nat, x: R, r: Row)
    requires Forest(w) && |slots| <= |rows| == |objs| && |cs| == |ids| && i < |cs| && BlockIs(w, rows, objs, cs, ids, i, k)
    requires k < |w[cs[i]].items| && x == w[cs[i]].items[k] && x in w
    requires r == Row(ids[i], FIRST_ID + |rows|, RecordOf(w[x]))
    ensures RowIs(w, slots, rows + [r], objs + [x], |rows|)
  {
    assert Holds(w, cs[i]);
  }

  lemma EntryRows<R>(w: World<R>, roots: seq<R>, slots: seq<int>, rows: seq<Row>, objs: seq<R>, cs: seq<R>, ids: seq<int>,
                     i: nat, k: nat, x: R, r: Row)
    requires Saving(w, roots, slots, rows, objs, cs, ids, i, k) && i < |cs| && k < |w[cs[i]].items|
    requires x == w[cs[i]].items[k] && x in w && r == Row(ids[i], FIRST_ID + |rows|, RecordOf(w[x]))
    ensures |rows| >= |slots|
    ensures forall j {:trigger RowIs(w, slots, rows + [r], objs + [x], j)} ::
              0 <= j < |rows + [r]| ==> RowIs(w, slots, rows + [r], objs + [x], j)
  {
    forall j | 0 <= j < |rows + [r]|
      ensures RowIs(w, slots, rows + [r], objs + [x], j)
    {
      if j < |rows| {
        assert RowIs(w, slots, rows, objs, j);
        RowStays(w, slots, slots, rows, objs, r, x, j);
      } else {
        assert Progress(w, cs, i, i, k) == k;
        EntryRow(w, slots, rows, objs, cs, ids, i, k, x, r);
      }
    }
  }

  /** One more entry of the container in hand. */
  lemma SaveEntry<R>(w: World<R>, roots: seq<R>, slots: seq<int>, rows: seq<Row>, objs: seq<R>, cs: seq<R>, ids: seq<int>,
                     i: nat, k: nat, x: R, r: Row)
    requires Saving(w, roots, slots, rows, objs, cs, ids, i, k) && i < |cs| && k < |w[cs[i]].items|
    requires x == w[cs[i]].items[k] && x in w && r == Row(ids[i], FIRST_ID + |rows|, RecordOf(w[x]))
    ensures Saving(w, roots, slots, rows + [r], objs + [x], Work(w, cs, x), WorkIds(w, ids, x, r.sid), i, k + 1)
  {
    var cs1, ids1, k1 := Work(w, cs, x), WorkIds(w, ids, x, r.sid), k + 1;
    EntryRows(w, roots, slots, rows, objs, cs, ids, i, k, x, r);
    forall b | 0 <= b < |cs1|
      ensures BlockIs(w, rows + [r], objs + [x], cs1, ids1, b, Progress(w, cs1, b, i, k1))
    {
      EntryBlock(w, roots, slots, rows, objs, cs, ids, i, k, x, r, b);
    }
    BoxesDistinct(w, objs);
    WrittenDistinct(w, roots, slots, cs, i, k);
    assert cs1[..i] == cs[..i];
    WorkIs(w, objs, x);
  }

  /** Everything of the container in hand written is the same as nothing of the next. */
  lemma WrittenNext<R>(w: World<R>, roots: seq<R>, cs: seq<R>, i: nat)
    requires i < |cs| && cs[i] in w && (i + 1 < |cs| ==> cs[i+1] in w)
    ensures Written(w, roots, cs, i + 1, 0) == Written(w, roots, cs, i, |w[cs[i]].items|)
  {
    var items := w[cs[i]].items;
    assert items[..|items|] == items;
    assert cs[..i+1] == cs[..i] + [cs[i]];
    EntriesConcat(w, cs[..i], [cs[i]]);
    assert Entries(w, [cs[i]]) == items + Entries(w, []);
    assert i + 1 < |cs| ==> w[cs[i+1]].items[..0] == [];
  }

  /** The container in hand is done. */
  lemma SaveNext<R>(w: World<R>, roots: seq<R>, slots: seq<int>, rows: seq<Row>, objs: seq<R>, cs: seq<R>, ids: seq<int>, i: nat)
    requires i < |cs| && cs[i] in w && Saving(w, roots, slots, rows, objs, cs, ids, i, |w[cs[i]].items|)
    ensures Saving(w, roots, slots, rows, objs, cs, ids, i + 1, 0)
  {
    if i + 1 < |cs| {
      assert cs == Boxes(w, objs);
      BoxesAt(w, objs, cs[i + 1]);
    }
    WrittenNext(w, roots, cs, i);
    var next, all := i + 1, |w[cs[i]].items|;
    forall b | 0 <= b < |cs|
      ensures BlockIs(w, rows, objs, cs, ids, b, Progress(w, cs, b, next, 0))
    {
      assert Progress(w, cs, b, next, 0) == Progress(w, cs, b, i, all);
    }
  }

  // ----- what has been saved in the end -----

  ghost predicate Reached<R>(w: World<R>, roots: seq<R>, x: R)
    requires Forest(w) && x in w
  {
    exists r :: r in roots && Under(w, x, r)
  }

  /** The rows that name the row of `objs[j]` are those of its entries, in their order. */
  ghost predicate EntriesSaved<R>(w: World<R>, rows: seq<Row>, objs: seq<R>, j: nat)
    requires |rows| == |objs| && j < |rows|
  {
    objs[j] in w && w[objs[j]].items == Listed(rows, objs, rows[j].sid, 0)
  }

  /**
   What a save produces: `objs` are the roots and everything inside them, each once; row `j` is that
   of `objs[j]`, has the id 101 + `j` and names a slot or the earlier row of its container.
   */
  ghost predicate SavedAs<R>(w: World<R>, roots: seq<R>, slots: seq<int>, rows: seq<Row>, objs: seq<R>) {
    && Forest(w) && Roots(w, roots, slots) && |roots| <= |rows| == |objs|
    && objs[..|roots|] == roots && Distinct(objs)
    && (forall j {:trigger RowIs(w, slots, rows, objs, j)} :: 0 <= j < |rows| ==> RowIs(w, slots, rows, objs, j))
    && (forall j {:trigger EntriesSaved(w, rows, objs, j)} :: 0 <= j < |rows| ==> EntriesSaved(w, rows, objs, j))
    && (forall x :: x in w ==> (x in objs <==> Reached(w, roots, x)))
  }

  lemma {:induction false} ListedIn<R>(rows: seq<Row>, objs: seq<R>, p: int, s: nat, x: R)
    requires |rows| == |objs| && s <= |rows| && x in Listed(rows, objs, p, s)
    ensures x in objs
    decreases |rows| - s
  {
    if x in Listed(rows, objs, p, s + 1) {
      ListedIn(rows, objs, p, s + 1, x);
    }
  }

  lemma {:induction false} RowReached<R>(w: World<R>, roots: seq<R>, slots: seq<int>, rows: seq<Row>, objs: seq<R>, j: nat)
    requires Forest(w) && |rows| == |objs| && j < |rows| && |slots| == |roots| <= |rows| && objs[..|roots|] == roots
    requires forall k {:trigger RowIs(w, slots, rows, objs, k)} :: 0 <= k < |rows| ==> RowIs(w, slots, rows, objs, k)
    ensures objs[j] in w && Reached(w, roots, objs[j])
    decreases j
  {
    assert RowIs(w, slots, rows, objs, j);
    if j < |slots| {
      assert objs[j] in roots;
    } else {
      RowReached(w, roots, slots, rows, objs, rows[j].pid - FIRST_ID);
      assert Linked(w, objs[j]);
      var r :| r in roots && Under(w, w[objs[j]].parent.c, r);
      assert Under(w, objs[j], r);
    }
  }

  lemma {:induction false} ReachedHasRow<R>(w: World<R>, roots: seq<R>, rows: seq<Row>, objs: seq<R>, x: R, r: R)
    requires Forest(w) && |roots| <= |rows| == |objs| && objs[..|roots|] == roots
    requires forall j {:trigger EntriesSaved(w, rows, objs, j)} :: 0 <= j < |rows| ==> EntriesSaved(w, rows, objs, j)
    requires x in w && r in roots && Under(w, x, r)
    ensures x in objs
    decreases w[x].depth
  {
    assert Linked(w, x);
    if x != r {
      var p := w[x].parent.c;
      ReachedHasRow(w, roots, rows, objs, p, r);
      var j :| 0 <= j < |objs| && objs[j] == p;
      assert EntriesSaved(w, rows, objs, j);
      ListedIn(rows, objs, rows[j].sid, 0, x);
    } else {
      assert x in objs[..|roots|];
    }
  }

  lemma SavedEntries<R>(w: World<R>, roots: seq<R>, slots: seq<int>, rows: seq<Row>, objs: seq<R>, cs: seq<R>, ids: seq<int>, j: nat)
    requires Saving(w, roots, slots, rows, objs, cs, ids, |cs|, 0) && j < |rows|
    ensures EntriesSaved(w, rows, objs, j)
  {
    var x := objs[j];
    assert RowIs(w, slots, rows, objs, j);
    if w[x].box {
      BoxesAt(w, objs, x);
      var b :| 0 <= b < |cs| && cs[b] == x;
      assert Progress(w, cs, b, |cs|, 0) == |w[x].items|;
      assert BlockIs(w, rows, objs, cs, ids, b, |w[x].items|);
      assert ids[b] == rows[j].sid;
      assert w[x].items[..|w[x].items|] == w[x].items;
    } else {
      assert Holds(w, x);
      forall k | 0 <= k < |rows|
        ensures rows[k].pid != rows[j].sid
      {
        assert RowIs(w, slots, rows, objs, k);
        assert Linked(w, objs[k]);
      }
      ListedNone(rows, objs, rows[j].sid, 0);
    }
  }

  lemma SaveDone<R>(w: World<R>, roots: seq<R>, slots: seq<int>, rows: seq<Row>, objs: seq<R>, cs: seq<R>, ids: seq<int>)
    requires Saving(w, roots, slots, rows, objs, cs, ids, |cs|, 0)
    ensures SavedAs(w, roots, slots, rows, objs)
  {
    assert objs == roots + Entries(w, cs[..|cs|]);
    forall j | 0 <= j < |rows|
      ensures EntriesSaved(w, rows, objs, j)
    {
      SavedEntries(w, roots, slots, rows, objs, cs, ids, j);
    }
    forall x | x in objs
      ensures x in w && Reached(w, roots, x)
    {
      var j :| 0 <= j < |objs| && objs[j] == x;
      RowReached(w, roots, slots, rows, objs, j);
    }
    forall x, r | x in w && r in roots && Under(w, x, r)
      ensures x in objs
    {
      ReachedHasRow(w, roots, rows, objs, x, r);
    }
  }

  // ----- loading -----

  /** Rows that can be loaded: ids above the slot numbers, ascending, containers before what is in them. */
  predicate Loadable(rows: seq<Row>) {
    && (forall j :: 0 <= j < |rows| ==> FIRST_ID <= rows[j].sid && rows[j].pid < rows[j].sid)
    && (forall j, k :: 0 <= j < k < |rows| ==> rows[j].sid < rows[k].sid)
  }

  predicate InSlot(r: Row) {
    1 <= r.pid <= 10
  }

  /** Row `m` is that of the container row `j` names. */
  predicate Boxed(rows: seq<Row>, j: nat, m: nat)
    requires j < |rows|
  {
    !InSlot(rows[j]) && m < |rows| && rows[m].sid == rows[j].pid && rows[m].record.box
  }

  ghost predicate HasBox(rows: seq<Row>, j: nat)
    requires j < |rows|
  {
    exists m: nat {:trigger Boxed(rows, j, m)} :: Boxed(rows, j, m)
  }

  /** A later row names the same parent: a slot that is taken is not given away again. */
  ghost predicate TakenLater(rows: seq<Row>, j: nat)
    requires j < |rows|
  {
    exists k {:trigger rows[k]} :: j < k < |rows| && rows[k].pid == rows[j].pid
  }

  /** Where the item of row `j` ends up: in a free slot, in its container, or nowhere if that is missing or none. */
  ghost predicate PlacedRight<R>(rows: seq<Row>, l: seq<R>, j: nat, parent: Parent<R>)
    requires |l| == |rows| && j < |rows|
  {
    if InSlot(rows[j]) then parent == if TakenLater(rows, j) then Nowhere else Outside
    else if parent.In? then exists m: nat {:trigger Boxed(rows, j, m)} :: Boxed(rows, j, m) && parent.c == l[m]
    else parent == Nowhere && !HasBox(rows, j)
  }

  /** Row `k` when the rows from `j` on have been put in place. */
  ghost predicate LoadedRow<R>(n: World<R>, rows: seq<Row>, l: seq<R>, k: nat, j: nat)
    requires |l| == |rows| && k < |rows| && j <= |rows|
  {
    && l[k] in n && RecordOf(n[l[k]]) == rows[k].record
    && n[l[k]].items == (if rows[k].record.box then Listed(rows, l, rows[k].sid, j) else [])
    && if k < j then n[l[k]].parent.Nowhere? else PlacedRight(rows, l, k, n[l[k]].parent)
  }

  ghost predicate Loading<R>(n: World<R>, rows: seq<Row>, l: seq<R>, j: nat) {
    && Forest(n) && Loadable(rows) && |l| == |rows| && j <= |rows| && Distinct(l)
    && forall k {:trigger LoadedRow(n, rows, l, k, j)} :: 0 <= k < |rows| ==> LoadedRow(n, rows, l, k, j)
  }

  lemma BoxedBefore(rows: seq<Row>, j: nat, m: nat)
    requires Loadable(rows) && j < |rows| && Boxed(rows, j, m)
    ensures m < j
  {
  }

  /** The container of the next row, and why the item may go there. */
  lemma LoadIntoReady<R>(n: World<R>, rows: seq<Row>, l: seq<R>, j: nat, m: nat)
    requires Loading(n, rows, l, j + 1) && Boxed(rows, j, m)
    ensures m < j && l[j] in n && l[m] in n && n[l[m]].box && n[l[j]].parent.Nowhere? && !Under(n, l[m], l[j])
  {
    BoxedBefore(rows, j, m);
    assert LoadedRow(n, rows, l, j, j + 1) && LoadedRow(n, rows, l, m, j + 1);
  }

  lemma LoadIntoRow<R>(n: World<R>, rows: seq<Row>, l: seq<R>, j: nat, m: nat, k: nat)
    requires Loading(n, rows, l, j + 1) && Boxed(rows, j, m) && k < |rows| && m < j && l[j] in n && l[m] in n
    ensures LoadedRow(PushFront(n, l[m], l[j]), rows, l, k, j)
  {
    assert LoadedRow(n, rows, l, k, j + 1);
    if k != m {
      assert rows[k].sid != rows[m].sid;
    }
    if k == j {
      assert PlacedRight(rows, l, j, In(l[m]));
    }
  }

  /** The item of the next row goes to the front of its container. */
  lemma LoadInto<R>(n: World<R>, rows: seq<Row>, l: seq<R>, j: nat, m: nat)
    requires Loading(n, rows, l, j + 1) && Boxed(rows, j, m)
    ensures m < j && l[j] in n && l[m] in n && n[l[m]].box && n[l[j]].parent.Nowhere? && !Under(n, l[m], l[j])
    ensures Loading(PushFront(n, l[m], l[j]), rows, l, j)
  {
    LoadIntoReady(n, rows, l, j, m);
    PushFrontForest(n, l[m], l[j]);
    var p := PushFront(n, l[m], l[j]);
    forall k | 0 <= k < |rows|
      ensures LoadedRow(p, rows, l, k, j)
    {
      LoadIntoRow(n, rows, l, j, m, k);
    }
  }

  lemma LoadSlotRow<R>(n: World<R>, rows: seq<Row>, l: seq<R>, j: nat, k: nat, parent: Parent<R>)
    requires Loading(n, rows, l, j + 1) && InSlot(rows[j]) && k < |rows| && l[j] in n
    requires parent == if TakenLater(rows, j) then Nowhere else Outside
    ensures LoadedRow(n[l[j] := n[l[j]].(parent := parent)], rows, l, k, j)
  {
    assert LoadedRow(n, rows, l, k, j + 1);
    assert k != j ==> l[k] != l[j];
  }

  /** The item of the next row goes to a slot that is free. */
  lemma LoadSlot<R>(n: World<R>, rows: seq<Row>, l: seq<R>, j: nat)
    requires Loading(n, rows, l, j + 1) && InSlot(rows[j]) && !TakenLater(rows, j)
    ensures l[j] in n && n[l[j]].parent.Nowhere?
    ensures Loading(n[l[j] := n[l[j]].(parent := Outside)], rows, l, j)
  {
    assert LoadedRow(n, rows, l, j, j + 1);
    OutsideForest(n, l[j]);
    var p := n[l[j] := n[l[j]].(parent := Outside)];
    forall k | 0 <= k < |rows|
      ensures LoadedRow(p, rows, l, k, j)
    {
      LoadSlotRow(n, rows, l, j, k, Outside);
    }
  }

  /** The slot of the next row is taken. */
  lemma LoadTaken<R>(n: World<R>, rows: seq<Row>, l: seq<R>, j: nat)
    requires Loading(n, rows, l, j + 1) && InSlot(rows[j]) && TakenLater(rows, j)
    ensures Loading(n, rows, l, j)
  {
    assert LoadedRow(n, rows, l, j, j + 1);
    assert n[l[j] := n[l[j]].(parent := Nowhere)] == n;
    forall k | 0 <= k < |rows|
      ensures LoadedRow(n, rows, l, k, j)
    {
      LoadSlotRow(n, rows, l, j, k, Nowhere);
    }
  }

  /** The item of the next row has no container to go to. */
  lemma LoadSkip<R>(n: World<R>, rows: seq<Row>, l: seq<R>, j: nat)
    requires Loading(n, rows, l, j + 1) && !InSlot(rows[j]) && !HasBox(rows, j)
    ensures Loading(n, rows, l, j)
  {
    forall k | 0 <= k < |rows|
      ensures LoadedRow(n, rows, l, k, j)
    {
      assert LoadedRow(n, rows, l, k, j + 1);
      assert !Boxed(rows, j, k);
    }
  }

  // ----- the round trip -----

  /** A forest of items as a value. */
  datatype Tree = Tree(record: Record, kids: seq<Tree>)

  /** `t` is the tree below `x`. */
  ghost predicate Shows<R>(w: World<R>, x: R, t: Tree)
    decreases t
  {
    && x in w && RecordOf(w[x]) == t.record && |w[x].items| == |t.kids|
    && forall k :: 0 <= k < |t.kids| ==> Shows(w, w[x].items[k], t.kids[k])
  }

  /** Loading what was saved gives every item the tree it had. */
  lemma {:induction false} SameTree<R, S>(w: World<R>, roots: seq<R>, slots: seq<int>, rows: seq<Row>, objs: seq<R>,
                                          n: World<S>, l: seq<S>, j: nat, t: Tree)
    requires SavedAs(w, roots, slots, rows, objs) && Loading(n, rows, l, 0) && j < |rows|
    ensures Shows(w, objs[j], t) <==> Shows(n, l[j], t)
    decreases t
  {
    assert RowIs(w, slots, rows, objs, j) && EntriesSaved(w, rows, objs, j) && LoadedRow(n, rows, l, j, 0);
    assert Holds(w, objs[j]);
    var a, b := w[objs[j]].items, n[l[j]].items;
    SameEntries(rows, objs, l, rows[j].sid, a, b, rows[j].record.box);
    forall k | 0 <= k < |t.kids| && |a| == |t.kids|
      ensures Shows(w, a[k], t.kids[k]) <==> Shows(n, b[k], t.kids[k])
    {
      var i := ListedPair(rows, objs, l, rows[j].sid, 0, k);
      SameTree(w, roots, slots, rows, objs, n, l, i, t.kids[k]);
    }
  }

  lemma SameEntries<R, S>(rows: seq<Row>, objs: seq<R>, l: seq<S>, sid: int, a: seq<R>, b: seq<S>, box: bool)
    requires |rows| == |objs| == |l| && a == Listed(rows, objs, sid, 0) && (!box ==> a == [])
    requires b == if box then Listed(rows, l, sid, 0) else []
    ensures |a| == |b| && (a != [] ==> b == Listed(rows, l, sid, 0))
  {
    ListedLength(rows, objs, l, sid, 0);
  }

  /** Every item of a forest has a tree. */
  ghost function TreeBelow<R>(w: World<R>, x: R, floor: nat): (t: Tree)
    requires Forest(w) && x in w && Bounded(w, floor)
    ensures Shows(w, x, t)
    decreases floor - w[x].depth
  {
    assert Holds(w, x);
    var kids := seq(|w[x].items|, k requires 0 <= k < |w[x].items| =>
      assert w[x].items[k] in w[x].items;
      assert Linked(w, w[x].items[k]);
      TreeBelow(w, w[x].items[k], floor));
    Tree(RecordOf(w[x]), kids)
  }

  /** What is saved can be loaded, and the slots come back. */
  lemma SavedIsLoadable<R>(w: World<R>, roots: seq<R>, slots: seq<int>, rows: seq<Row>, objs: seq<R>)
    requires SavedAs(w, roots, slots, rows, objs)
    ensures Loadable(rows)
    ensures forall j :: 0 <= j < |slots| ==> rows[j].pid == slots[j]
    ensures forall j :: |slots| <= j < |rows| ==> rows[j].pid >= FIRST_ID
  {
    forall j | 0 <= j < |rows|
      ensures FIRST_ID <= rows[j].sid && rows[j].pid < rows[j].sid && rows[j].sid == FIRST_ID + j
      ensures if j < |slots| then rows[j].pid == slots[j] else rows[j].pid >= FIRST_ID
    {
      assert RowIs(w, slots, rows, objs, j);
    }
  }

  /** Rows are numbered from 101 on and hold what the items themselves are; those of the roots name their slots. */
  lemma RowsAre<R>(w: World<R>, roots: seq<R>, slots: seq<int>, rows: seq<Row>, objs: seq<R>, j: nat)
    requires SavedAs(w, roots, slots, rows, objs) && j < |rows|
    ensures objs[j] in w && rows[j].sid == 101 + j
    ensures var r, v := rows[j].record, w[objs[j]];
            r.typ == v.typ && r.count == v.count && r.attrs == v.attrs && r.box == v.box && r.cap == v.cap && r.unlocked == v.unlocked
    ensures j < |slots| ==> rows[j].pid == slots[j]
    ensures j >= |slots| ==> 101 <= rows[j].pid < 101 + j && w[objs[j]].parent == In(objs[rows[j].pid - 101])
  {
    assert RowIs(w, slots, rows, objs, j);
  }

  /**
   What has become of a row in the end: an item as the row describes it, in its slot unless a later
   row names the same one, or else in the container with the id the row names, or nowhere.
   */
  lemma RebuiltIs<R>(n: World<R>, rows: seq<Row>, l: seq<R>, k: nat, m: nat)
    requires Loading(n, rows, l, 0) && k < |rows|
    ensures |l| == |rows| && l[k] in n
    ensures var v, r := n[l[k]], rows[k].record;
            v.typ == r.typ && v.count == r.count && v.attrs == r.attrs && v.box == r.box && v.cap == r.cap && v.unlocked == r.unlocked
    ensures 1 <= rows[k].pid <= 10 ==>
              n[l[k]].parent == if (exists j {:trigger rows[j]} :: k < j < |rows| && rows[j].pid == rows[k].pid) then Nowhere else Outside
    ensures !(1 <= rows[k].pid <= 10) && m < |rows| && rows[m].sid == rows[k].pid ==>
              n[l[k]].parent == if rows[m].record.box then In(l[m]) else Nowhere
    ensures !(1 <= rows[k].pid <= 10) && (forall j :: 0 <= j < |rows| ==> rows[j].sid != rows[k].pid) ==> n[l[k]].parent == Nowhere
  {
    assert LoadedRow(n, rows, l, k, 0);
    assert PlacedRight(rows, l, k, n[l[k]].parent);
    if !(1 <= rows[k].pid <= 10) && m < |rows| && rows[m].sid == rows[k].pid {
      assert rows[m].record.box ==> Boxed(rows, k, m);
    }
  }
}
