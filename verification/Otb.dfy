/**
 The OTB container format: nodes in brackets, with escapes.  `Doc` describes the byte strings that
 are well bracketed; the parser accepts exactly those and returns the tree they describe.
 */
module Otb {
  import opened Streams

  const ESCAPE: Byte := 0xFD
  const START: Byte := 0xFE
  const END: Byte := 0xFF

  /** What the parser builds: the properties of a node are a stretch of the file. */
  datatype Node = Node(kind: Byte, propsBegin: nat, propsEnd: nat, children: seq<Node>)

  // ----- the format -----

  /** One byte of payload: as it is, or behind an escape. */
  datatype Unit = Plain(b: Byte) | Escaped(b: Byte)

  predicate Proper(u: Unit) {
    u.Plain? ==> u.b < ESCAPE
  }

  function UnitBytes(u: Unit): seq<Byte> {
    if u.Plain? then [u.b] else [ESCAPE, u.b]
  }

  function Units(us: seq<Unit>): seq<Byte> {
    if us == [] then [] else UnitBytes(us[0]) + Units(us[1..])
  }

  function Payload(us: seq<Unit>): seq<Byte> {
    if us == [] then [] else [us[0].b] + Payload(us[1..])
  }

  predicate AllProper(us: seq<Unit>) {
    forall k :: 0 <= k < |us| ==> Proper(us[k])
  }

  /** A node with its properties and its children; behind every child there may be bytes that mean nothing. */
  datatype Doc = Doc(kind: Byte, props: seq<Unit>, kids: seq<Kid>)
  datatype Kid = Kid(doc: Doc, junk: seq<Unit>)

  predicate WellFormed(d: Doc)
    decreases d
  {
    AllProper(d.props) && forall k :: 0 <= k < |d.kids| ==> WellFormed(d.kids[k].doc) && AllProper(d.kids[k].junk)
  }

  function Render(d: Doc): seq<Byte>
    decreases d, 1, 0
  {
    Opened(d, |d.kids|) + [END]
  }

  /** A node up to its `k`-th child. */
  function Opened(d: Doc, k: nat): seq<Byte>
    requires k <= |d.kids|
    decreases d, 0, k
  {
    if k == 0 then [START, d.kind] + Units(d.props)
    else Opened(d, k - 1) + Render(d.kids[k-1].doc) + Units(d.kids[k-1].junk)
  }

  /** The tree a document at position `at` of a file describes. */
  function TreeAt(d: Doc, at: nat): Node
    decreases d, 1, 0
  {
    Node(d.kind, at + 2, at + 2 + |Units(d.props)|, KidsAt(d, at, |d.kids|))
  }

  function KidsAt(d: Doc, at: nat, k: nat): (s: seq<Node>)
    requires k <= |d.kids|
    ensures |s| == k
    decreases d, 0, k
  {
    if k == 0 then [] else KidsAt(d, at, k - 1) + [TreeAt(d.kids[k-1].doc, at + |Opened(d, k - 1)|)]
  }

  // ----- the parser -----

  /** A node on the stack.  The end of its properties is known once its first child has started. */
  datatype Frame = Frame(kind: Byte, propsBegin: nat, propsEnd: nat, children: seq<Node>)

  datatype Parsed = Invalid | Tree(root: Node)

  /** The end of the properties, where a bracket is met. */
  function Marked(f: Frame, it: nat): Frame {
    if f.children == [] then f.(propsEnd := it) else f
  }

  function Finished(f: Frame): Node {
    Node(f.kind, f.propsBegin, f.propsEnd, f.children)
  }

  function Top(stack: seq<Frame>): Frame
    requires stack != []
  {
    stack[|stack|-1]
  }

  function WithTop(stack: seq<Frame>, f: Frame): seq<Frame>
    requires stack != []
  {
    stack[..|stack|-1] + [f]
  }

  /** The parse loop from position `it` on. */
  function Parse(b: seq<Byte>, it: nat, stack: seq<Frame>, root: Node): Parsed
    decreases |b| - it
  {
    if it >= |b| then if stack == [] then Tree(root) else Invalid
    else if b[it] == START then
      if stack == [] || it + 1 >= |b| then Invalid
      else Parse(b, it + 2, WithTop(stack, Marked(Top(stack), it)) + [Frame(b[it+1], it + 2, 0, [])], root)
    else if b[it] == END then
      if stack == [] then Invalid
      else
        var node := Finished(Marked(Top(stack), it));
        if |stack| == 1 then Parse(b, it + 1, [], node)
        else Parse(b, it + 1, Adopted(stack[..|stack|-1], node), root)
    else if b[it] == ESCAPE then
      if it + 1 >= |b| then Invalid else Parse(b, it + 2, stack, root)
    else Parse(b, it + 1, stack, root)
  }

  /** The node on top gets one more child. */
  function Adopted(stack: seq<Frame>, node: Node): seq<Frame>
    requires stack != []
  {
    WithTop(stack, Top(stack).(children := Top(stack).children + [node]))
  }

  /** What the loop starts with, behind the identifier, the first bracket and the type of the root. */
  function ParseFile(b: seq<Byte>, accepted: seq<Byte>): Parsed {
    if |b| <= 7 || |accepted| != 4 || (b[..4] != accepted && b[..4] != [0, 0, 0, 0]) || b[4] != START then Invalid
    else Parse(b, 6, [Frame(b[5], 6, 0, [])], Node(0, 0, 0, []))
  }

  // ----- well-bracketed files are parsed -----

  ghost predicate Occurs(s: seq<Byte>, b: seq<Byte>, it: nat) {
    it + |s| <= |b| && b[it..it + |s|] == s
  }

  lemma OccursParts(s: seq<Byte>, t: seq<Byte>, b: seq<Byte>, it: nat)
    ensures Occurs(s + t, b, it) <==> Occurs(s, b, it) && Occurs(t, b, it + |s|)
  {
    if it + |s| + |t| <= |b| {
      var r := b[it..it + |s + t|];
      assert r[..|s|] == b[it..it + |s|] && r[|s|..] == b[it + |s|..it + |s| + |t|];
      assert r == r[..|s|] + r[|s|..];
    }
  }

  lemma {:induction false} UnitsParse(us: seq<Unit>, b: seq<Byte>, it: nat, stack: seq<Frame>, root: Node)
    requires AllProper(us) && Occurs(Units(us), b, it)
    ensures Parse(b, it, stack, root) == Parse(b, it + |Units(us)|, stack, root)
    decreases |us|
  {
    if us != [] {
      OccursParts(UnitBytes(us[0]), Units(us[1..]), b, it);
      var n := |UnitBytes(us[0])|;
      assert b[it..it + n][0] == UnitBytes(us[0])[0];
      assert AllProper(us[1..]);
      UnitsParse(us[1..], b, it + n, stack, root);
    }
  }

  /** The stack when a document at `at` is open and `k` of its children are done. */
  function DocFrame(d: Doc, at: nat, k: nat): Frame
    requires k <= |d.kids|
  {
    Frame(d.kind, at + 2, if k == 0 then 0 else at + 2 + |Units(d.props)|, KidsAt(d, at, k))
  }

  /** A document open up to its `k`-th child contains what came before, that child and its junk. */
  lemma OpenedHas(d: Doc, at: nat, k: nat, b: seq<Byte>)
    requires 0 < k <= |d.kids| && Occurs(Opened(d, k), b, at)
    ensures var p := at + |Opened(d, k - 1)|;
            && Occurs(Opened(d, k - 1), b, at) && Occurs(Render(d.kids[k-1].doc), b, p)
            && Occurs(Units(d.kids[k-1].junk), b, p + |Render(d.kids[k-1].doc)|)
  {
    var kid, o := d.kids[k-1], Opened(d, k - 1);
    OccursParts(o + Render(kid.doc), Units(kid.junk), b, at);
    OccursParts(o, Render(kid.doc), b, at);
  }

  /** One child more. */
  lemma {:induction false} OpenedMore(d: Doc, at: nat, k: nat, b: seq<Byte>, under: seq<Frame>, root: Node,
                                      p: nat, q: nat, s: seq<Frame>, s1: seq<Frame>)
    requires WellFormed(d) && 0 < k <= |d.kids| && Occurs(Opened(d, k), b, at)
    requires p == at + |Opened(d, k - 1)| && q == at + |Opened(d, k)|
    requires s == under + [DocFrame(d, at, k - 1)] && s1 == under + [DocFrame(d, at, k)]
    ensures Parse(b, p, s, root) == Parse(b, q, s1, root)
    decreases d, 0, k, 0
  {
    OpenedHas(d, at, k, b);
    RenderParse(d.kids[k-1].doc, p, b, s, root);
    KidAdopted(d, at, k, under);
    JunkParse(d, at, k, b, p, q, s1, root);
  }

  /** What follows a child up to the next one. */
  lemma JunkParse(d: Doc, at: nat, k: nat, b: seq<Byte>, p: nat, q: nat, s: seq<Frame>, root: Node)
    requires WellFormed(d) && 0 < k <= |d.kids| && Occurs(Opened(d, k), b, at)
    requires p == at + |Opened(d, k - 1)| && q == at + |Opened(d, k)|
    ensures Parse(b, p + |Render(d.kids[k-1].doc)|, s, root) == Parse(b, q, s, root)
  {
    OpenedHas(d, at, k, b);
    UnitsParse(d.kids[k-1].junk, b, p + |Render(d.kids[k-1].doc)|, s, root);
  }

  /** An open document, behind its bracket and type: parsed up to its `k`-th child. */
  lemma {:induction false} OpenedParse(d: Doc, at: nat, k: nat, b: seq<Byte>, under: seq<Frame>, root: Node)
    requires WellFormed(d) && k <= |d.kids| && Occurs(Opened(d, k), b, at)
    ensures at + 2 <= |b| && b[at] == START && b[at+1] == d.kind
    ensures Parse(b, at + 2, under + [DocFrame(d, at, 0)], root) ==
            Parse(b, at + |Opened(d, k)|, under + [DocFrame(d, at, k)], root)
    decreases d, 0, k, 1
  {
    if k == 0 {
      OccursParts([START, d.kind], Units(d.props), b, at);
      assert b[at] == b[at..at+2][0] && b[at+1] == b[at..at+2][1];
      UnitsParse(d.props, b, at + 2, under + [DocFrame(d, at, 0)], root);
    } else {
      OpenedHas(d, at, k, b);
      OpenedMore(d, at, k, b, under, root, at + |Opened(d, k - 1)|, at + |Opened(d, k)|,
                 under + [DocFrame(d, at, k - 1)], under + [DocFrame(d, at, k)]);
      OpenedParse(d, at, k - 1, b, under, root);
    }
  }

  lemma KidAdopted(d: Doc, at: nat, k: nat, under: seq<Frame>)
    requires 0 < k <= |d.kids|
    ensures var s, p := under + [DocFrame(d, at, k - 1)], at + |Opened(d, k - 1)|;
            Adopted(WithTop(s, Marked(Top(s), p)), TreeAt(d.kids[k-1].doc, p)) == under + [DocFrame(d, at, k)]
  {
  }

  /** A whole document becomes a child of the node on top. */
  lemma {:induction false} RenderParse(d: Doc, at: nat, b: seq<Byte>, stack: seq<Frame>, root: Node)
    requires WellFormed(d) && Occurs(Render(d), b, at) && stack != []
    ensures Parse(b, at, stack, root) ==
            Parse(b, at + |Render(d)|, Adopted(WithTop(stack, Marked(Top(stack), at)), TreeAt(d, at)), root)
    decreases d, 1, 0, 0
  {
    var n := |d.kids|;
    OccursParts(Opened(d, n), [END], b, at);
    var under := WithTop(stack, Marked(Top(stack), at));
    OpenedParse(d, at, n, b, under, root);
    var p, s := at + |Opened(d, n)|, under + [DocFrame(d, at, n)];
    assert b[p] == b[p..p+1][0];
    assert s[..|s|-1] == under && Top(s) == DocFrame(d, at, n);
    DocDone(d, at);
  }

  lemma DocDone(d: Doc, at: nat)
    ensures Finished(Marked(DocFrame(d, at, |d.kids|), at + |Opened(d, |d.kids|)|)) == TreeAt(d, at)
  {
    assert |d.kids| == 0 ==> Opened(d, |d.kids|) == [START, d.kind] + Units(d.props);
  }

  predicate Accepted(b: seq<Byte>, accepted: seq<Byte>) {
    |b| > 7 && |accepted| == 4 && (b[..4] == accepted || b[..4] == [0, 0, 0, 0])
  }

  /** A file is the identifier, one document, and possibly bytes that mean nothing. */
  ghost predicate Holds(b: seq<Byte>, d: Doc, junk: seq<Unit>) {
    |b| >= 4 && WellFormed(d) && AllProper(junk) && b[4..] == Render(d) + Units(junk)
  }

  lemma FileParses(b: seq<Byte>, accepted: seq<Byte>, d: Doc, junk: seq<Unit>)
    requires Accepted(b, accepted) && Holds(b, d, junk)
    ensures ParseFile(b, accepted) == Tree(TreeAt(d, 4))
  {
    var n, r := |d.kids|, Node(0, 0, 0, []);
    assert Occurs(Render(d) + Units(junk), b, 4);
    OccursParts(Render(d), Units(junk), b, 4);
    OccursParts(Opened(d, n), [END], b, 4);
    OpenedParse(d, 4, n, b, [], r);
    var p, s := 4 + |Opened(d, n)|, [] + [DocFrame(d, 4, n)];
    assert b[p] == b[p..p+1][0];
    assert [] + [DocFrame(d, 4, 0)] == [Frame(b[5], 6, 0, [])];
    DocDone(d, 4);
    UnitsParse(junk, b, p + 1, [], TreeAt(d, 4));
  }

  // ----- only well-bracketed files are parsed -----

  /** A document that is open on the stack, as far as it has been seen. */
  datatype Partial = Partial(at: nat, doc: Doc)

  function Seen(p: Partial): seq<Byte> {
    Opened(p.doc, |p.doc.kids|)
  }

  /** A frame and the text it stands for, up to `next`.  `below` says that there is another frame on top of it. */
  ghost predicate FrameIs(b: seq<Byte>, f: Frame, p: Partial, next: nat, below: bool) {
    && WellFormed(p.doc) && Occurs(Seen(p), b, p.at) && next == p.at + |Seen(p)|
    && f.kind == p.doc.kind && f.propsBegin == p.at + 2 && f.children == KidsAt(p.doc, p.at, |p.doc.kids|)
    && (below || f.children != [] ==> f.propsEnd == p.at + 2 + |Units(p.doc.props)|)
  }

  /** Where the next open document starts, or where the last one has got to. */
  function NextAt(ps: seq<Partial>, i: nat, it: nat): nat
    requires i < |ps|
  {
    if i == |ps| - 1 then it else ps[i+1].at
  }

  ghost predicate OpenIs(b: seq<Byte>, it: nat, stack: seq<Frame>, ps: seq<Partial>, i: nat)
    requires |ps| == |stack| && i < |ps|
  {
    FrameIs(b, stack[i], ps[i], NextAt(ps, i, it), i < |ps| - 1)
  }

  ghost predicate Explains(b: seq<Byte>, it: nat, stack: seq<Frame>, root: Node, ps: seq<Partial>, d: Doc, junk: seq<Unit>) {
    && 4 <= it <= |b| && |ps| == |stack|
    && if stack == [] then WellFormed(d) && AllProper(junk) && b[4..it] == Render(d) + Units(junk) && root == TreeAt(d, 4)
       else ps[0].at == 4 && forall i {:trigger OpenIs(b, it, stack, ps, i)} :: 0 <= i < |ps| ==> OpenIs(b, it, stack, ps, i)
  }

  lemma {:induction false} OpenedSame(d: Doc, e: Doc, at: nat, k: nat)
    requires d.kind == e.kind && d.props == e.props && k <= |d.kids| && k <= |e.kids| && d.kids[..k] == e.kids[..k]
    ensures Opened(d, k) == Opened(e, k) && KidsAt(d, at, k) == KidsAt(e, at, k)
    decreases k
  {
    if k > 0 {
      assert d.kids[..k][k-1] == e.kids[..k][k-1];
      assert d.kids[..k-1] == d.kids[..k][..k-1] == e.kids[..k-1];
      OpenedSame(d, e, at, k - 1);
    }
  }

  lemma {:induction false} UnitsAppend(us: seq<Unit>, u: Unit)
    ensures Units(us + [u]) == Units(us) + UnitBytes(u)
  {
    if us == [] {
      assert [u][1..] == [];
    } else {
      UnitsAppend(us[1..], u);
      assert (us + [u])[1..] == us[1..] + [u];
    }
  }

  /** One more unit of an open document: a property, or junk behind its last child. */
  function WithUnit(d: Doc, u: Unit): Doc {
    if d.kids == [] then d.(props := d.props + [u])
    else d.(kids := d.kids[..|d.kids|-1] + [d.kids[|d.kids|-1].(junk := d.kids[|d.kids|-1].junk + [u])])
  }

  lemma WithUnitIs(d: Doc, u: Unit, at: nat) returns (e: Doc)
    requires WellFormed(d) && Proper(u)
    ensures e == WithUnit(d, u) && WellFormed(e) && |e.kids| == |d.kids| && e.kind == d.kind
    ensures Opened(e, |e.kids|) == Opened(d, |d.kids|) + UnitBytes(u)
    ensures KidsAt(e, at, |e.kids|) == KidsAt(d, at, |d.kids|)
    ensures d.kids != [] ==> e.props == d.props
  {
    e := WithUnit(d, u);
    if d.kids == [] {
      UnitsAppend(d.props, u);
      Regroup([START, d.kind], Units(d.props), UnitBytes(u));
    } else {
      WithJunkIs(d, u, at);
    }
  }

  lemma WithJunkIs(d: Doc, u: Unit, at: nat)
    requires WellFormed(d) && Proper(u) && d.kids != []
    ensures var e := WithUnit(d, u);
            && WellFormed(e) && Opened(e, |e.kids|) == Opened(d, |d.kids|) + UnitBytes(u)
            && KidsAt(e, at, |e.kids|) == KidsAt(d, at, |d.kids|)
  {
    var e, n := WithUnit(d, u), |d.kids|;
    JunkBytes(d, u, e, n);
    assert e.kids[..n-1] == d.kids[..n-1];
    OpenedSame(d, e, at, n - 1);
    assert forall k :: 0 <= k < n - 1 ==> e.kids[k] == d.kids[k];
  }

  lemma JunkBytes(d: Doc, u: Unit, e: Doc, n: nat)
    requires n == |d.kids| > 0 && e == WithUnit(d, u)
    ensures Units(e.kids[n-1].junk) == Units(d.kids[n-1].junk) + UnitBytes(u)
    ensures Opened(e, n) == Opened(d, n) + UnitBytes(u)
  {
    var kid := d.kids[n-1];
    UnitsAppend(kid.junk, u);
    assert e.kids[..n-1] == d.kids[..n-1];
    OpenedSame(d, e, 0, n - 1);
    Regroup(Opened(d, n - 1) + Render(kid.doc), Units(kid.junk), UnitBytes(u));
  }

  /** One child more. */
  function WithKid(d: Doc, kid: Doc): Doc {
    d.(kids := d.kids + [Kid(kid, [])])
  }

  lemma WithKidIs(d: Doc, kid: Doc, at: nat) returns (e: Doc)
    requires WellFormed(d) && WellFormed(kid)
    ensures e == WithKid(d, kid) && WellFormed(e) && e.kids != [] && e.kind == d.kind && e.props == d.props
    ensures Opened(e, |e.kids|) == Opened(d, |d.kids|) + Render(kid)
    ensures KidsAt(e, at, |e.kids|) == KidsAt(d, at, |d.kids|) + [TreeAt(kid, at + |Opened(d, |d.kids|)|)]
  {
    e := WithKid(d, kid);
    var n := |d.kids|;
    assert e.kids[..n] == d.kids[..n];
    OpenedSame(d, e, at, n);
  }

  lemma UnitIs(b: seq<Byte>, f: Frame, p: Partial, it: nat, u: Unit, end: nat) returns (p1: Partial)
    requires FrameIs(b, f, p, it, false) && Proper(u) && Occurs(UnitBytes(u), b, it) && end == it + |UnitBytes(u)|
    ensures p1.at == p.at && FrameIs(b, f, p1, end, false)
  {
    var e := WithUnitIs(p.doc, u, p.at);
    p1 := Partial(p.at, e);
    MoreSeen(b, p, p1, it, UnitBytes(u), end);
  }

  /** What has been seen goes on to occur where it started. */
  lemma MoreSeen(b: seq<Byte>, p: Partial, p1: Partial, it: nat, more: seq<Byte>, end: nat)
    requires Occurs(Seen(p), b, p.at) && it == p.at + |Seen(p)| && Occurs(more, b, it) && end == it + |more|
    requires p1.at == p.at && Seen(p1) == Seen(p) + more
    ensures Occurs(Seen(p1), b, p1.at) && end == p1.at + |Seen(p1)|
  {
    OccursParts(Seen(p), more, b, p.at);
  }

  lemma SoundUnit(b: seq<Byte>, it: nat, stack: seq<Frame>, root: Node, ps: seq<Partial>, d: Doc, junk: seq<Unit>,
                  u: Unit, end: nat) returns (ps1: seq<Partial>, junk1: seq<Unit>)
    requires Explains(b, it, stack, root, ps, d, junk) && Proper(u) && Occurs(UnitBytes(u), b, it)
    requires end == it + |UnitBytes(u)|
    ensures Explains(b, end, stack, root, ps1, d, junk1)
  {
    ps1, junk1 := ps, junk;
    if stack == [] {
      junk1 := junk + [u];
      UnitsAppend(junk, u);
      assert b[4..end] == b[4..it] + b[it..end];
      Regroup(Render(d), Units(junk), UnitBytes(u));
    } else {
      var n := |ps| - 1;
      assert OpenIs(b, it, stack, ps, n);
      var p1 := UnitIs(b, stack[n], ps[n], it, u, end);
      ps1 := ps[n := p1];
      assert OpenIs(b, end, stack, ps1, n);
      OpensStay(b, it, end, stack, ps, stack, ps1, n);
    }
  }

  /** The stack and its explanation behind the start of a node. */
  function Pushed(b: seq<Byte>, it: nat, stack: seq<Frame>): seq<Frame>
    requires stack != [] && it + 1 < |b|
  {
    WithTop(stack, Marked(Top(stack), it)) + [Frame(b[it+1], it + 2, 0, [])]
  }

  function PushedText(b: seq<Byte>, it: nat, ps: seq<Partial>): seq<Partial>
    requires it + 1 < |b|
  {
    ps + [Partial(it, Doc(b[it+1], [], []))]
  }

  lemma NewIs(b: seq<Byte>, it: nat)
    requires it + 1 < |b| && b[it] == START
    ensures FrameIs(b, Frame(b[it+1], it + 2, 0, []), Partial(it, Doc(b[it+1], [], [])), it + 2, false)
  {
    var q := Partial(it, Doc(b[it+1], [], []));
    assert Seen(q) == [START, b[it+1]] + Units([]) == [START, b[it+1]];
    assert b[it..it+2] == [START, b[it+1]];
  }

  /** Where a bracket is met, the properties of a node without children end. */
  lemma MarkedIs(b: seq<Byte>, it: nat, f: Frame, p: Partial)
    requires FrameIs(b, f, p, it, false)
    ensures FrameIs(b, Marked(f, it), p, it, true)
  {
    assert p.doc.kids == [] ==> Seen(p) == [START, p.doc.kind] + Units(p.doc.props);
  }

  lemma SoundStart(b: seq<Byte>, it: nat, stack: seq<Frame>, root: Node, ps: seq<Partial>, d: Doc, junk: seq<Unit>)
    requires Explains(b, it, stack, root, ps, d, junk) && stack != [] && it + 1 < |b| && b[it] == START
    ensures Explains(b, it + 2, Pushed(b, it, stack), root, PushedText(b, it, ps), d, junk)
  {
    var n := |ps| - 1;
    assert OpenIs(b, it, stack, ps, n);
    MarkedIs(b, it, stack[n], ps[n]);
    NewIs(b, it);
    var s, ps1, end := Pushed(b, it, stack), PushedText(b, it, ps), it + 2;
    forall i | 0 <= i < |ps1|
      ensures OpenIs(b, end, s, ps1, i)
    {
      if i < n {
        assert OpenIs(b, it, stack, ps, i);
        OpenStays(b, it, end, stack, ps, s, ps1, i);
      }
    }
  }

  /** A bracket ends the document on top. */
  lemma EndsHere(b: seq<Byte>, it: nat, f: Frame, p: Partial)
    requires FrameIs(b, f, p, it, false) && it < |b| && b[it] == END
    ensures Occurs(Render(p.doc), b, p.at) && Finished(Marked(f, it)) == TreeAt(p.doc, p.at)
    ensures it + 1 == p.at + |Render(p.doc)|
  {
    assert b[it..it+1] == [END];
    OccursParts(Seen(p), [END], b, p.at);
    assert p.doc.kids == [] ==> Seen(p) == [START, p.doc.kind] + Units(p.doc.props);
  }

  lemma SoundLast(b: seq<Byte>, it: nat, stack: seq<Frame>, root: Node, ps: seq<Partial>, d: Doc, junk: seq<Unit>)
    requires Explains(b, it, stack, root, ps, d, junk) && |stack| == 1 && it < |b| && b[it] == END
    ensures Explains(b, it + 1, [], Finished(Marked(Top(stack), it)), [], ps[0].doc, [])
  {
    assert OpenIs(b, it, stack, ps, 0);
    EndsHere(b, it, stack[0], ps[0]);
    assert Render(ps[0].doc) + Units([]) == Render(ps[0].doc);
  }

  /** The document on top becomes a child of the one below. */
  lemma KidIs(b: seq<Byte>, f: Frame, p: Partial, kid: Doc, at: nat, end: nat, node: Node) returns (p1: Partial)
    requires FrameIs(b, f, p, at, true) && WellFormed(kid) && Occurs(Render(kid), b, at) && node == TreeAt(kid, at)
    requires end == at + |Render(kid)|
    ensures p1.at == p.at && FrameIs(b, f.(children := f.children + [node]), p1, end, false)
  {
    var e := WithKidIs(p.doc, kid, p.at);
    p1 := Partial(p.at, e);
    MoreSeen(b, p, p1, at, Render(kid), end);
  }

  lemma OpenStays(b: seq<Byte>, it: nat, end: nat, stack: seq<Frame>, ps: seq<Partial>, s: seq<Frame>, ps1: seq<Partial>, i: nat)
    requires |ps| == |stack| && |ps1| == |s| && i + 1 < |ps| && i + 1 < |ps1| && OpenIs(b, it, stack, ps, i)
    requires s[i] == stack[i] && ps1[i] == ps[i] && ps1[i+1].at == ps[i+1].at
    ensures OpenIs(b, end, s, ps1, i)
  {
  }

  lemma SoundEnd(b: seq<Byte>, it: nat, stack: seq<Frame>, root: Node, ps: seq<Partial>, d: Doc, junk: seq<Unit>, end: nat)
    returns (ps1: seq<Partial>)
    requires Explains(b, it, stack, root, ps, d, junk) && |stack| > 1 && it < |b| && b[it] == END && end == it + 1
    ensures Explains(b, end, Adopted(stack[..|stack|-1], Finished(Marked(Top(stack), it))), root, ps1, d, junk)
  {
    var n := |ps| - 1;
    assert OpenIs(b, it, stack, ps, n) && OpenIs(b, it, stack, ps, n - 1);
    EndsHere(b, it, stack[n], ps[n]);
    var node := Finished(Marked(Top(stack), it));
    var p1 := KidIs(b, stack[n-1], ps[n-1], ps[n].doc, ps[n].at, end, node);
    ps1 := ps[..n-1] + [p1];
    var s := Adopted(stack[..n], node);
    assert s == stack[..n-1] + [stack[n-1].(children := stack[n-1].children + [node])];
    assert OpenIs(b, end, s, ps1, n - 1);
    OpensStay(b, it, end, stack, ps, s, ps1, n - 1);
  }

  /** All frames below the top one. */
  lemma OpensStay(b: seq<Byte>, it: nat, end: nat, stack: seq<Frame>, ps: seq<Partial>, s: seq<Frame>, ps1: seq<Partial>, n: nat)
    requires |ps| == |stack| && |ps1| == |s| == n + 1 && n < |ps| && s[..n] == stack[..n] && ps1[..n] == ps[..n] && ps1[n].at == ps[n].at
    requires forall i {:trigger OpenIs(b, it, stack, ps, i)} :: 0 <= i < |ps| ==> OpenIs(b, it, stack, ps, i)
    ensures forall i {:trigger OpenIs(b, end, s, ps1, i)} :: 0 <= i < n ==> OpenIs(b, end, s, ps1, i)
  {
    forall i | 0 <= i < n
      ensures OpenIs(b, end, s, ps1, i)
    {
      assert OpenIs(b, it, stack, ps, i);
      assert s[..n][i] == stack[..n][i] && ps1[..n][i] == ps[..n][i];
      assert i + 1 < n ==> ps1[..n][i+1] == ps[..n][i+1];
      OpenStays(b, it, end, stack, ps, s, ps1, i);
    }
  }

  /** Whatever the rest of the parse accepts is described by a document. */
  lemma {:induction false} Sound(b: seq<Byte>, it: nat, stack: seq<Frame>, root: Node, ps: seq<Partial>, d: Doc, junk: seq<Unit>)
    returns (e: Doc, j: seq<Unit>)
    requires Explains(b, it, stack, root, ps, d, junk) && Parse(b, it, stack, root).Tree?
    ensures Holds(b, e, j) && Parse(b, it, stack, root).root == TreeAt(e, 4)
    decreases |b| - it
  {
    e, j := d, junk;
    if it >= |b| {
      assert b[4..it] == b[4..];
    } else if b[it] == START {
      SoundStart(b, it, stack, root, ps, d, junk);
      e, j := Sound(b, it + 2, Pushed(b, it, stack), root, PushedText(b, it, ps), d, junk);
    } else if b[it] == END && |stack| == 1 {
      SoundLast(b, it, stack, root, ps, d, junk);
      e, j := Sound(b, it + 1, [], Finished(Marked(Top(stack), it)), [], ps[0].doc, []);
    } else if b[it] == END {
      var ps1 := SoundEnd(b, it, stack, root, ps, d, junk, it + 1);
      e, j := Sound(b, it + 1, Adopted(stack[..|stack|-1], Finished(Marked(Top(stack), it))), root, ps1, d, junk);
    } else {
      var u, end := NextUnit(b, it);
      var ps1, junk1 := SoundUnit(b, it, stack, root, ps, d, junk, u, end);
      e, j := Sound(b, end, stack, root, ps1, d, junk1);
    }
  }

  lemma NextUnit(b: seq<Byte>, it: nat) returns (u: Unit, end: nat)
    requires it < |b| && b[it] != START && b[it] != END && (b[it] == ESCAPE ==> it + 1 < |b|)
    ensures Proper(u) && Occurs(UnitBytes(u), b, it) && end == it + |UnitBytes(u)|
    ensures end == if b[it] == ESCAPE then it + 2 else it + 1
  {
    u := if b[it] == ESCAPE then Escaped(b[it+1]) else Plain(b[it]);
    end := it + |UnitBytes(u)|;
    assert b[it..end] == UnitBytes(u);
  }

  lemma FileSound(b: seq<Byte>, accepted: seq<Byte>) returns (d: Doc, junk: seq<Unit>)
    requires ParseFile(b, accepted).Tree?
    ensures Accepted(b, accepted) && Holds(b, d, junk) && ParseFile(b, accepted).root == TreeAt(d, 4)
  {
    NewIs(b, 4);
    var stack, ps := [Frame(b[5], 6, 0, [])], [Partial(4, Doc(b[5], [], []))];
    assert OpenIs(b, 6, stack, ps, 0);
    d, junk := Sound(b, 6, stack, Node(0, 0, 0, []), ps, Doc(0, [], []), []);
  }

  /** The parser accepts a file exactly when it is well bracketed outside escapes and has more than seven bytes. */
  lemma AcceptsIff(b: seq<Byte>, accepted: seq<Byte>)
    ensures ParseFile(b, accepted).Tree? <==> Accepted(b, accepted) && exists d, junk :: Holds(b, d, junk)
  {
    if ParseFile(b, accepted).Tree? {
      var d, junk := FileSound(b, accepted);
    }
    if Accepted(b, accepted) && exists d, junk :: Holds(b, d, junk) {
      var d, junk :| Holds(b, d, junk);
      FileParses(b, accepted, d, junk);
    }
  }

  // ----- properties -----

  /** What the copying loop of `getProps` keeps of some bytes. */
  function Unescaped(s: seq<Byte>, lastEscaped: bool): seq<Byte> {
    if s == [] then []
    else if s[0] == ESCAPE && !lastEscaped then Unescaped(s[1..], true)
    else [s[0]] + Unescaped(s[1..], false)
  }

  lemma {:induction false} UnescapedUnits(us: seq<Unit>)
    requires AllProper(us)
    ensures Unescaped(Units(us), false) == Payload(us)
  {
    if us != [] {
      assert AllProper(us[1..]);
      UnescapedUnits(us[1..]);
      var r := Units(us[1..]);
      if us[0].Plain? {
        assert ([us[0].b] + r)[1..] == r;
      } else {
        assert ([ESCAPE, us[0].b] + r)[1..] == [us[0].b] + r && ([us[0].b] + r)[1..] == r;
      }
    }
  }

  /** `getProps`: nothing for a node without properties. */
  datatype Props = NoProps | Bytes(s: seq<Byte>)

  function PropsOf(b: seq<Byte>, n: Node): Props {
    if n.propsBegin < n.propsEnd <= |b| then Bytes(Unescaped(b[n.propsBegin..n.propsEnd], false)) else NoProps
  }

  /** A tree of nodes with their unescaped properties. */
  datatype Plain = Branch(kind: Byte, props: seq<Byte>, kids: seq<Plain>)

  /** The parsed node is this tree. */
  ghost predicate Reads(b: seq<Byte>, n: Node, t: Plain)
    decreases t
  {
    && n.kind == t.kind && PropsOf(b, n) == (if t.props == [] then NoProps else Bytes(t.props))
    && |n.children| == |t.kids| && forall k :: 0 <= k < |t.kids| ==> Reads(b, n.children[k], t.kids[k])
  }

  /** A document is the encoding of a tree. */
  ghost predicate Encodes(d: Doc, t: Plain)
    decreases t
  {
    && d.kind == t.kind && Payload(d.props) == t.props && |d.kids| == |t.kids|
    && forall k :: 0 <= k < |t.kids| ==> Encodes(d.kids[k].doc, t.kids[k])
  }

  lemma {:induction false} KidAt(d: Doc, at: nat, n: nat, k: nat, b: seq<Byte>)
    requires k < n <= |d.kids| && Occurs(Opened(d, n), b, at)
    ensures KidsAt(d, at, n)[k] == TreeAt(d.kids[k].doc, at + |Opened(d, k)|)
    ensures Occurs(Render(d.kids[k].doc), b, at + |Opened(d, k)|)
    decreases n
  {
    OpenedHas(d, at, n, b);
    if k < n - 1 {
      KidAt(d, at, n - 1, k, b);
    }
  }

  lemma {:induction false} PropsOccur(d: Doc, at: nat, n: nat, b: seq<Byte>)
    requires n <= |d.kids| && Occurs(Opened(d, n), b, at)
    ensures Occurs(Units(d.props), b, at + 2)
    decreases n
  {
    if n == 0 {
      OccursParts([START, d.kind], Units(d.props), b, at);
    } else {
      OpenedHas(d, at, n, b);
      PropsOccur(d, at, n - 1, b);
    }
  }

  lemma PropsBack(d: Doc, at: nat, b: seq<Byte>)
    requires AllProper(d.props) && Occurs(Units(d.props), b, at + 2)
    ensures PropsOf(b, TreeAt(d, at)) == if Payload(d.props) == [] then NoProps else Bytes(Payload(d.props))
  {
    UnescapedUnits(d.props);
  }

  /** A node and its properties. */
  lemma HeadReads(d: Doc, at: nat, b: seq<Byte>)
    requires WellFormed(d) && Occurs(Render(d), b, at)
    ensures Occurs(Opened(d, |d.kids|), b, at)
    ensures PropsOf(b, TreeAt(d, at)) == if Payload(d.props) == [] then NoProps else Bytes(Payload(d.props))
  {
    OccursParts(Opened(d, |d.kids|), [END], b, at);
    PropsOccur(d, at, |d.kids|, b);
    PropsBack(d, at, b);
  }

  /** The node at the position of a document is the tree the document encodes. */
  lemma {:induction false} TreeReads(d: Doc, at: nat, b: seq<Byte>, t: Plain)
    requires WellFormed(d) && Occurs(Render(d), b, at) && Encodes(d, t)
    ensures Reads(b, TreeAt(d, at), t)
    decreases t
  {
    HeadReads(d, at, b);
    forall k | 0 <= k < |t.kids|
      ensures Reads(b, TreeAt(d, at).children[k], t.kids[k])
    {
      KidAt(d, at, |d.kids|, k, b);
      TreeReads(d.kids[k].doc, at + |Opened(d, k)|, b, t.kids[k]);
    }
  }

  // ----- encoding -----

  function Escape(p: seq<Byte>): seq<Unit> {
    if p == [] then [] else [if p[0] >= ESCAPE then Escaped(p[0]) else Unit.Plain(p[0])] + Escape(p[1..])
  }

  lemma {:induction false} EscapeBack(p: seq<Byte>)
    ensures Payload(Escape(p)) == p && AllProper(Escape(p)) && |Units(Escape(p))| >= |p|
  {
    if p != [] {
      EscapeBack(p[1..]);
    }
  }

  /** The usual encoding: only what has to be is escaped, and there is no junk. */
  function Encoded(t: Plain): Doc
    decreases t, 1, 0
  {
    Doc(t.kind, Escape(t.props), EncodedKids(t, |t.kids|))
  }

  function EncodedKids(t: Plain, k: nat): (s: seq<Kid>)
    requires k <= |t.kids|
    ensures |s| == k
    decreases t, 0, k
  {
    if k == 0 then [] else EncodedKids(t, k - 1) + [Kid(Encoded(t.kids[k-1]), [])]
  }

  lemma {:induction false} EncodedKid(t: Plain, n: nat, k: nat)
    requires k < n <= |t.kids|
    ensures EncodedKids(t, n)[k] == Kid(Encoded(t.kids[k]), [])
    decreases n
  {
    if k < n - 1 {
      EncodedKid(t, n - 1, k);
    }
  }

  lemma {:induction false} EncodedIs(t: Plain)
    ensures WellFormed(Encoded(t)) && Encodes(Encoded(t), t)
    decreases t
  {
    EscapeBack(t.props);
    forall k | 0 <= k < |t.kids|
      ensures Encoded(t).kids[k] == Kid(Encoded(t.kids[k]), []) && WellFormed(Encoded(t.kids[k]))
              && Encodes(Encoded(t.kids[k]), t.kids[k])
    {
      EncodedKid(t, |t.kids|, k);
      EncodedIs(t.kids[k]);
    }
  }

  lemma {:induction false} OpenedLong(d: Doc, n: nat)
    requires n <= |d.kids|
    ensures |Opened(d, n)| >= 2 + |Units(d.props)| + 3 * n
    decreases d, n
  {
    if n > 0 {
      OpenedLong(d, n - 1);
      OpenedLong(d.kids[n-1].doc, |d.kids[n-1].doc.kids|);
    }
  }

  /**
   Encoding and parsing a tree gives the tree with its properties, for every tree but a single node
   without properties: that file is one byte too short for the loader.
   */
  lemma EncodedParses(id: seq<Byte>, t: Plain, accepted: seq<Byte>)
    requires |id| == |accepted| == 4 && (id == accepted || id == [0, 0, 0, 0])
    ensures var b := id + Render(Encoded(t));
            if t.props == [] && t.kids == [] then ParseFile(b, accepted) == Invalid
            else ParseFile(b, accepted).Tree? && Reads(b, ParseFile(b, accepted).root, t)
  {
    var d := Encoded(t);
    var b := id + Render(d);
    EncodedIs(t);
    EscapeBack(t.props);
    OpenedLong(d, |d.kids|);
    assert b[4..] == Render(d) + Units([]) && b[..4] == id;
    if t.props == [] && t.kids == [] {
      assert |b| == 7;
    } else {
      FileParses(b, accepted, d, []);
      assert Occurs(Render(d), b, 4);
      TreeReads(d, 4, b, t);
    }
  }

  // ----- the loader itself -----

  /** `parseTree`, with the checks of the constructor in front. */
  method ParseTree(b: seq<Byte>, accepted: seq<Byte>) returns (r: Parsed)
    requires |accepted| == 4
    ensures r == ParseFile(b, accepted)
  {
    if |b| <= 7 || (b[..4] != accepted && b[..4] != [0, 0, 0, 0]) {
      return Invalid;
    }
    var it := 4;
    if b[it] != START {
      return Invalid;
    }
    var root := Node(0, 0, 0, []);
    var parseStack := [Frame(b[it+1], it + 2, 0, [])];
    it := it + 2;
    while it < |b|
      invariant it <= |b|
      invariant Parse(b, it, parseStack, root) == ParseFile(b, accepted)
    {
      if b[it] == START {
        if parseStack == [] || it + 1 >= |b| {
          return Invalid;
        }
        parseStack := WithTop(parseStack, Marked(Top(parseStack), it)) + [Frame(b[it+1], it + 2, 0, [])];
        it := it + 1;
      } else if b[it] == END {
        if parseStack == [] {
          return Invalid;
        }
        var node := Finished(Marked(Top(parseStack), it));
        parseStack := parseStack[..|parseStack|-1];
        if parseStack == [] {
          root := node;
        } else {
          parseStack := Adopted(parseStack, node);
        }
      } else if b[it] == ESCAPE {
        it := it + 1;
        if it >= |b| {
          return Invalid;
        }
      }
      it := it + 1;
    }
    r := if parseStack == [] then Tree(root) else Invalid;
  }

  /** `getProps` */
  method GetProps(b: seq<Byte>, n: Node) returns (ok: bool, props: seq<Byte>)
    requires n.propsBegin <= n.propsEnd <= |b|
    ensures PropsOf(b, n) == if ok then Bytes(props) else NoProps
  {
    props := [];
    ok := n.propsEnd - n.propsBegin != 0;
    if !ok {
      return;
    }
    var lastEscaped := false;
    ghost var s := b[n.propsBegin..n.propsEnd];
    assert b[n.propsBegin..n.propsEnd] == s;
    for i := n.propsBegin to n.propsEnd
      invariant props + Unescaped(b[i..n.propsEnd], lastEscaped) == Unescaped(s, false)
    {
      assert b[i..n.propsEnd][1..] == b[i+1..n.propsEnd];
      lastEscaped := b[i] == ESCAPE && !lastEscaped;
      if !lastEscaped {
        props := props + [b[i]];
      }
    }
  }

  /** The smallest file there is: any identifier of four bytes, and a node with a single byte of properties. */
  lemma SmallestFile(b: seq<Byte>, kind: Byte, p: Byte, accepted: seq<Byte>)
    requires |accepted| == 4 && p < 0xFD && b == [0, 0, 0, 0, 0xFE, kind, p, 0xFF]
    ensures ParseFile(b, accepted) == Tree(Node(kind, 6, 7, []))
    ensures PropsOf(b, Node(kind, 6, 7, [])) == Bytes([p])
  {
    assert b[..4] == [0, 0, 0, 0];
    var f := Frame(kind, 6, 0, []);
    assert Parse(b, 6, [f], Node(0, 0, 0, [])) == Parse(b, 7, [f], Node(0, 0, 0, []));
    assert b[6..7] == [p];
    assert Unescaped([p], false) == [p] + Unescaped([p][1..], false);
  }

  /** The three special bytes stand for themselves behind an escape. */
  lemma EscapedByte(b: seq<Byte>, kind: Byte, p: Byte, accepted: seq<Byte>)
    requires |accepted| == 4 && b == [0, 0, 0, 0, 0xFE, kind, 0xFD, p, 0xFF]
    ensures ParseFile(b, accepted) == Tree(Node(kind, 6, 8, []))
    ensures PropsOf(b, Node(kind, 6, 8, [])) == Bytes([p])
  {
    assert b[..4] == [0, 0, 0, 0];
    var f := Frame(kind, 6, 0, []);
    assert Parse(b, 6, [f], Node(0, 0, 0, [])) == Parse(b, 8, [f], Node(0, 0, 0, []));
    assert b[6..8] == [0xFD, p] && [0xFD, p][1..] == [p];
    assert Unescaped([0xFD, p], false) == Unescaped([p], true) == [p] + Unescaped([p][1..], false);
  }
}
