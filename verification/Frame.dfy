/** What surrounds the body: the html element and the head. Its tags may have keys of
    their own. As long as no keyed tag of the frame changes, and none answers to a name of
    the body's, the diff of two pages is the diff of their bodies. */
module Frame {
  import opened Strings
  import opened Dom
  import opened Pipeline
  import opened Differ
  import opened Replay
  import opened Flat
  import opened Patch
  import opened Quiet

  function Root(p: Page): Tag {
    Elem("html", p.htmlAttrs, [])
  }

  predicate FrameNamed(p: Page, x: string) {
    Hit(Root(p), D(x)) || Hit(Root(p), I(x)) || Named(p.before, x) || Named(p.after, x)
  }

  /** A published page whose frame may have keys. */
  predicate FramedPage(p: Page) {
    && Tidy(Soup(p)) && Parsed(Soup(p))
    && !Has(p.before, ByTag("body")) && !Has(p.after, ByTag("body"))
    && p.body.tag == "body" && DOM_ID !in p.body.attrs && !Under("dom", BodyKey(p))
    && Labelled(p.body.kids, "dom", 0)
  }

  /** The names the two bodies go by, themselves and below. */
  predicate Own(o: Page, n: Page, x: string) {
    x != "" && (Under("dom", x) || x == BodyKey(o) || x == BodyKey(n))
  }

  /** The keyed tags, in document order. */
  function Keyed(f: seq<Node>): seq<Tag> {
    if f == [] then []
    else if !f[0].Elem? then Keyed(f[1..])
    else (if Key(f[0]).Some? then [f[0]] else []) + Keyed(f[0].kids) + Keyed(f[1..])
  }

  /** Nothing that compute_diff looks at. */
  predicate Unchanged(a: Tag, b: Tag) {
    a.tag == b.tag && a.attrs == b.attrs && !TextChanged(a, b)
  }

  predicate AllUnchanged(a: seq<Tag>, b: seq<Tag>) {
    |a| == |b| && forall i :: 0 <= i < |a| ==> Unchanged(a[i], b[i])
  }

  /** Two pages whose frames can be told from their bodies: no name of the bodies' is used
      in a frame, and the keyed tags of the frames are unchanged. Tags without a key may
      change. An html element with a key must keep its attributes, and its body the id. */
  ghost predicate Comparable(o: Page, n: Page) {
    && FramedPage(o) && FramedPage(n)
    && (forall x :: Own(o, n, x) ==> !FrameNamed(o, x) && !FrameNamed(n, x))
    && !Hit(Root(o), D("body")) && !Hit(Root(o), I("body"))
    && AllUnchanged(Keyed(o.before), Keyed(n.before)) && AllUnchanged(Keyed(o.after), Keyed(n.after))
    && (Key(Root(o)).Some? || Key(Root(n)).Some? ==> o.htmlAttrs == n.htmlAttrs && BodyKey(o) == BodyKey(n))
  }

  /** The page without its frame. */
  function Unframed(p: Page): Page {
    Page(map[], [], p.body, [])
  }

  lemma {:induction false} PartTidy(a: seq<Node>, b: seq<Node>)
    requires Tidy(a + b) && Parsed(a + b)
    ensures Tidy(b) && Parsed(b)
  {
    if a == [] {
      assert a + b == b;
    } else {
      assert (a + b)[1..] == a[1..] + b;
      PartTidy(a[1..], b);
    }
  }

  lemma UnframedValid(p: Page)
    requires FramedPage(p)
    ensures ValidPage(Unframed(p))
  {
    var kids := p.before + [p.body] + p.after;
    assert Soup(p)[0].kids == kids == p.before + ([p.body] + p.after);
    PartTidy(p.before, [p.body] + p.after);
    assert ([p.body] + p.after)[0] == p.body;
    UnframedTidy(p.body);
  }

  lemma UnframedTidy(b: Tag)
    requires b.tag !in STRIPPED && CleanTag(b.attrs) && Tidy(b.kids) && Parsed(b.kids)
    ensures var f := Soup(Page(map[], [], b, [])); Tidy(f) && Parsed(f)
  {
    var f := Soup(Page(map[], [], b, []));
    assert [b][1..] == [] && [] + [b] + [] == [b];
    assert f[0].kids == [b] && f[1..] == [];
  }

  // ---- the entries of the body and those of the frame ----------------------------------------

  function Nodes(es: seq<Entry>): seq<Tag> {
    if es == [] then [] else [es[0].node] + Nodes(es[1..])
  }

  lemma {:induction false} NodesAppend(a: seq<Entry>, b: seq<Entry>)
    ensures Nodes(a + b) == Nodes(a) + Nodes(b)
  {
    if a == [] { assert a + b == b; }
    else {
      assert (a + b)[0] == a[0] && (a + b)[1..] == a[1..] + b;
      NodesAppend(a[1..], b);
    }
  }

  lemma {:induction false} WalkNodes(f: seq<Node>, parent: Option<string>)
    ensures Nodes(Walk(f, parent)) == Keyed(f)
  {
    if f != [] {
      WalkNodes(f[1..], parent);
      if f[0].Elem? {
        WalkNodes(f[0].kids, Key(f[0]));
        var own := if Key(f[0]).Some? then [Entry(Key(f[0]).value, f[0], parent)] else [];
        NodesAppend(own + Walk(f[0].kids, Key(f[0])), Walk(f[1..], parent));
        NodesAppend(own, Walk(f[0].kids, Key(f[0])));
        if own != [] { assert own[1..] == []; }
      }
    }
  }

  lemma {:induction false} WalkNamed(f: seq<Node>, parent: Option<string>, e: Entry)
    requires e in Walk(f, parent)
    ensures Key(e.node) == Some(e.key) && Named(f, e.key)
  {
    if !f[0].Elem? {
      WalkNamed(f[1..], parent, e);
    } else if Key(f[0]).Some? && e == Entry(Key(f[0]).value, f[0], parent) {
      KeyHits(f[0]);
    } else if e in Walk(f[0].kids, Key(f[0])) {
      WalkNamed(f[0].kids, Key(f[0]), e);
    } else {
      WalkNamed(f[1..], parent, e);
    }
  }

  lemma KeyHits(n: Node)
    requires n.Elem? && Key(n).Some?
    ensures Hit(n, D(Key(n).value)) || Hit(n, I(Key(n).value))
    ensures Key(n).value != ""
  {
  }

  /** The body's entries; `parent` is the key of the html element. */
  function BodyEntries(p: Page, parent: Option<string>): seq<Entry> {
    (if BodyKey(p) == "" then [] else [Entry(BodyKey(p), p.body, parent)]) + Walk(p.body.kids, BodyParent(p))
  }

  function RootEntries(p: Page): seq<Entry> {
    if Key(Root(p)).Some? then [Entry(Key(Root(p)).value, Soup(p)[0], None)] else []
  }

  lemma FramedWalk(p: Page)
    requires FramedPage(p)
    ensures var k := Key(Root(p));
            Walk(Soup(p), None)
            == RootEntries(p) + (Walk(p.before, k) + (BodyEntries(p, k) + Walk(p.after, k)))
  {
    var k := Key(Root(p));
    assert Soup(p)[1..] == [] && Key(Soup(p)[0]) == k;
    WalkAppend(p.before + [p.body], p.after, k);
    WalkAppend(p.before, [p.body], k);
    assert [p.body][1..] == [] && Key(p.body) == BodyParent(p);
    Unit(BodyEntries(p, k));
    Unit(RootEntries(p) + Walk(Soup(p)[0].kids, k));
    Associate(Walk(p.before, k), BodyEntries(p, k), Walk(p.after, k));
  }

  lemma OwnEntries(p: Page, o: Page, n: Page, parent: Option<string>)
    requires FramedPage(p) && (p == o || p == n)
    ensures Distinct(BodyEntries(p, parent))
    ensures forall e :: e in BodyEntries(p, parent) ==> Own(o, n, e.key)
  {
    var below := Walk(p.body.kids, BodyParent(p));
    UnframedValid(p);
    WalkDistinct(p.body.kids, "dom", 0, BodyParent(p));
    forall e | e in below ensures Own(o, n, e.key) && e.key != BodyKey(p) {
      PageKeys(Unframed(p), e);
    }
    if BodyKey(p) != "" { DistinctAppend([Entry(BodyKey(p), p.body, parent)], below); }
    else { Unit(below); }
  }

  lemma {:induction false} WalkParents(f: seq<Node>, p: string, j: nat, parent: Option<string>, e: Entry)
    requires Labelled(f, p, j) && e in Walk(f, parent)
    ensures e.parent == parent || (e.parent.Some? && e.parent.value != "" && Under(p, e.parent.value))
  {
    if !f[0].Elem? {
      WalkParents(f[1..], p, j, parent, e);
    } else {
      var k := Sub(p, j);
      WalkHead(f, p, j, parent);
      if e in Walk(f[0].kids, Some(k)) {
        WalkParents(f[0].kids, k, 0, Some(k), e);
        assert Under(k, e.parent.value);
        UnderSub(p, j, e.parent.value);
      } else if e in Walk(f[1..], parent) {
        WalkParents(f[1..], p, j + 1, parent, e);
      }
    }
  }

  lemma OwnParents(p: Page, o: Page, n: Page, e: Entry)
    requires FramedPage(p) && (p == o || p == n) && e in Walk(p.body.kids, BodyParent(p))
    ensures e.parent.Some? ==> Own(o, n, e.parent.value)
  {
    WalkParents(p.body.kids, "dom", 0, BodyParent(p), e);
  }

  // ---- the node map of a page with a frame ----------------------------------------------------

  function OwnKeys(ks: seq<string>, o: Page, n: Page): (r: seq<string>)
    ensures forall k :: k in r ==> k in ks
  {
    if ks == [] then [] else (if Own(o, n, ks[0]) then [ks[0]] else []) + OwnKeys(ks[1..], o, n)
  }

  lemma {:induction false} OwnKeysAppend(a: seq<string>, b: seq<string>, o: Page, n: Page)
    ensures OwnKeys(a + b, o, n) == OwnKeys(a, o, n) + OwnKeys(b, o, n)
  {
    if a == [] { assert a + b == b; }
    else {
      assert (a + b)[0] == a[0] && (a + b)[1..] == a[1..] + b;
      OwnKeysAppend(a[1..], b, o, n);
    }
  }

  lemma {:induction false} OwnKeysAll(es: seq<Entry>, o: Page, n: Page)
    requires forall e :: e in es ==> Own(o, n, e.key)
    ensures OwnKeys(KeysOf(es), o, n) == KeysOf(es)
  {
    if es != [] {
      assert es[0] in es && KeysOf(es)[1..] == KeysOf(es[1..]);
      OwnKeysAll(es[1..], o, n);
    }
  }

  lemma {:induction false} InsertAppend(m: NodeMap, a: seq<Entry>, b: seq<Entry>)
    ensures InsertAll(m, a + b) == InsertAll(InsertAll(m, a), b)
    decreases a
  {
    if a == [] { assert a + b == b; }
    else {
      assert (a + b)[0] == a[0] && (a + b)[1..] == a[1..] + b;
      InsertAppend(Insert(m, a[0]), a[1..], b);
    }
  }

  predicate Foreign(es: seq<Entry>, o: Page, n: Page) {
    forall e :: e in es ==> !Own(o, n, e.key)
  }

  /** The map holds, of the bodies' names, exactly the entries `es`, in their order. */
  predicate Holds(m: NodeMap, es: seq<Entry>, o: Page, n: Page) {
    && OwnKeys(m.order, o, n) == KeysOf(es)
    && (forall e :: e in es ==> e.key in m.entries && m.entries[e.key] == e)
    && (forall x :: x in m.entries && Own(o, n, x) ==> m.entries[x] in es && m.entries[x].key == x)
  }

  lemma {:induction false} InsertForeign(m: NodeMap, es: seq<Entry>, own: seq<Entry>, o: Page, n: Page)
    requires Foreign(es, o, n) && Holds(m, own, o, n) && forall e :: e in own ==> Own(o, n, e.key)
    ensures Holds(InsertAll(m, es), own, o, n)
    decreases es
  {
    if es != [] {
      assert es[0] in es;
      OwnKeysAppend(m.order, [es[0].key], o, n);
      assert [es[0].key][1..] == [];
      InsertForeign(Insert(m, es[0]), es[1..], own, o, n);
    }
  }

  lemma InsertOwn(m: NodeMap, es: seq<Entry>, o: Page, n: Page)
    requires Holds(m, [], o, n) && Distinct(es) && forall e :: e in es ==> Own(o, n, e.key)
    ensures Holds(InsertAll(m, es), es, o, n)
    ensures forall x :: !Own(o, n, x) ==>
      && (x in InsertAll(m, es).entries <==> x in m.entries)
      && (x in m.entries ==> InsertAll(m, es).entries[x] == m.entries[x])
  {
    assert forall e :: e in es ==> Own(o, n, e.key) && e.key !in m.entries;
    InsertOrder(m, es);
    InsertDistinct(m, es);
    OwnKeysAppend(m.order, KeysOf(es), o, n);
    OwnKeysAll(es, o, n);
    assert [] + KeysOf(es) == KeysOf(es);
  }

  lemma FrameForeign(p: Page, f: seq<Node>, o: Page, n: Page, parent: Option<string>)
    requires forall x :: Own(o, n, x) ==> !Named(f, x)
    ensures Foreign(Walk(f, parent), o, n)
  {
    forall e | e in Walk(f, parent) ensures !Own(o, n, e.key) { WalkNamed(f, parent, e); }
  }

  lemma FramedMap(p: Page, o: Page, n: Page)
    requires FramedPage(p) && (p == o || p == n) && forall x :: Own(o, n, x) ==> !FrameNamed(p, x)
    ensures Holds(MapOf(Soup(p)), BodyEntries(p, Key(Root(p))), o, n)
  {
    var k := Key(Root(p));
    var es := BodyEntries(p, k);
    FramedWalk(p);
    OwnEntries(p, o, n, k);
    var m1 := InsertAll(NodeMap([], map[]), RootEntries(p));
    var m2 := InsertAll(m1, Walk(p.before, k));
    InsertAppend(NodeMap([], map[]), RootEntries(p), Walk(p.before, k) + (es + Walk(p.after, k)));
    InsertAppend(m1, Walk(p.before, k), es + Walk(p.after, k));
    InsertAppend(m2, es, Walk(p.after, k));
    RootForeign(p, o, n);
    FrameForeign(p, p.before, o, n, k);
    FrameForeign(p, p.after, o, n, k);
    InsertForeign(NodeMap([], map[]), RootEntries(p), [], o, n);
    InsertForeign(m1, Walk(p.before, k), [], o, n);
    InsertOwn(m2, es, o, n);
    InsertForeign(InsertAll(m2, es), Walk(p.after, k), es, o, n);
  }

  lemma RootForeign(p: Page, o: Page, n: Page)
    requires forall x :: Own(o, n, x) ==> !FrameNamed(p, x)
    ensures Foreign(RootEntries(p), o, n)
  {
    if Key(Root(p)).Some? { KeyHits(Root(p)); }
  }

  // ---- what both maps hold of the frames is unchanged -------------------------------------------

  predicate Same(a: Entry, b: Entry) {
    a.key == b.key && Unchanged(a.node, b.node)
  }

  predicate AllSame(a: seq<Entry>, b: seq<Entry>) {
    |a| == |b| && forall i :: 0 <= i < |a| ==> Same(a[i], b[i])
  }

  ghost predicate Agree(m: NodeMap, m': NodeMap, o: Page, n: Page) {
    forall x :: !Own(o, n, x) ==>
      (x in m.entries <==> x in m'.entries) && (x in m.entries ==> Same(m.entries[x], m'.entries[x]))
  }

  lemma {:induction false} NodesAt(es: seq<Entry>, i: nat)
    requires i < |es|
    ensures |Nodes(es)| == |es| && Nodes(es)[i] == es[i].node
  {
    if i > 0 { NodesAt(es[1..], i - 1); } else if |es| > 1 { NodesAt(es[1..], 0); }
  }

  lemma WalksSame(f: seq<Node>, g: seq<Node>, p: Option<string>, q: Option<string>)
    requires AllUnchanged(Keyed(f), Keyed(g))
    ensures AllSame(Walk(f, p), Walk(g, q))
  {
    var a, b := Walk(f, p), Walk(g, q);
    WalkNodes(f, p);
    WalkNodes(g, q);
    if a != [] { NodesAt(a, 0); }
    if b != [] { NodesAt(b, 0); }
    forall i | 0 <= i < |a| ensures Same(a[i], b[i]) {
      NodesAt(a, i);
      NodesAt(b, i);
      WalkNamed(f, p, a[i]);
      WalkNamed(g, q, b[i]);
    }
  }

  lemma {:induction false} InsertAgree(m: NodeMap, m': NodeMap, a: seq<Entry>, b: seq<Entry>, o: Page, n: Page)
    requires Agree(m, m', o, n) && AllSame(a, b)
    ensures Agree(InsertAll(m, a), InsertAll(m', b), o, n)
    decreases a
  {
    if a != [] {
      assert Same(a[0], b[0]);
      assert forall i :: 0 <= i < |a[1..]| ==> a[1..][i] == a[i + 1] && b[1..][i] == b[i + 1];
      InsertAgree(Insert(m, a[0]), Insert(m', b[0]), a[1..], b[1..], o, n);
    }
  }

  lemma RootsSame(o: Page, n: Page)
    requires Key(Root(o)).Some? || Key(Root(n)).Some? ==> o.htmlAttrs == n.htmlAttrs
    ensures AllSame(RootEntries(o), RootEntries(n)) && Key(Root(o)) == Key(Root(n))
  {
    RootUnchanged(o, n);
    if Key(Root(o)).Some? {
      assert Same(RootEntries(o)[0], RootEntries(n)[0]);
    } else {
      assert RootEntries(o) == RootEntries(n) == [];
    }
  }

  lemma RootUnchanged(o: Page, n: Page)
    ensures o.htmlAttrs == n.htmlAttrs ==> Unchanged(Soup(o)[0], Soup(n)[0])
  {
    RootHasElems(o);
    RootHasElems(n);
  }

  lemma RootHasElems(p: Page)
    ensures Elems(Soup(p)[0].kids) != []
  {
    ElemsAppend(p.before + [p.body], p.after);
    ElemsAppend(p.before, [p.body]);
  }

  lemma FramesAgree(o: Page, n: Page)
    requires Comparable(o, n)
    ensures Agree(MapOf(Soup(o)), MapOf(Soup(n)), o, n)
  {
    var k := Key(Root(o));
    RootsSame(o, n);
    WalksSame(o.before, n.before, k, k);
    WalksSame(o.after, n.after, k, k);
    var o1, n1 := HeadMap(o), HeadMap(n);
    HeadsAgree(o, n);
    BodyMap(o, o, n);
    BodyMap(n, o, n);
    InsertAgree(InsertAll(o1, BodyEntries(o, k)), InsertAll(n1, BodyEntries(n, k)), Walk(o.after, k), Walk(n.after, k),
                o, n);
  }

  function HeadMap(p: Page): NodeMap {
    InsertAll(InsertAll(NodeMap([], map[]), RootEntries(p)), Walk(p.before, Key(Root(p))))
  }

  lemma HeadsAgree(o: Page, n: Page)
    requires Comparable(o, n)
    ensures Agree(HeadMap(o), HeadMap(n), o, n)
  {
    var k := Key(Root(o));
    var none := NodeMap([], map[]);
    RootsSame(o, n);
    WalksSame(o.before, n.before, k, k);
    InsertAgree(none, none, RootEntries(o), RootEntries(n), o, n);
    InsertAgree(InsertAll(none, RootEntries(o)), InsertAll(none, RootEntries(n)), Walk(o.before, k), Walk(n.before, k),
                o, n);
  }

  lemma BodyMap(p: Page, o: Page, n: Page)
    requires FramedPage(p) && (p == o || p == n) && forall x :: Own(o, n, x) ==> !FrameNamed(p, x)
    ensures var k := Key(Root(p)); var m := InsertAll(HeadMap(p), BodyEntries(p, k));
            && MapOf(Soup(p)) == InsertAll(m, Walk(p.after, k))
            && (forall x :: !Own(o, n, x) ==> (x in m.entries <==> x in HeadMap(p).entries))
            && (forall x :: !Own(o, n, x) && x in m.entries ==> m.entries[x] == HeadMap(p).entries[x])
  {
    var k := Key(Root(p));
    var es := BodyEntries(p, k);
    var none := NodeMap([], map[]);
    FramedWalk(p);
    InsertAppend(none, RootEntries(p), Walk(p.before, k) + (es + Walk(p.after, k)));
    InsertAppend(InsertAll(none, RootEntries(p)), Walk(p.before, k), es + Walk(p.after, k));
    InsertAppend(HeadMap(p), es, Walk(p.after, k));
    RootForeign(p, o, n);
    FrameForeign(p, p.before, o, n, k);
    InsertForeign(none, RootEntries(p), [], o, n);
    InsertForeign(InsertAll(none, RootEntries(p)), Walk(p.before, k), [], o, n);
    OwnEntries(p, o, n, k);
    InsertOwn(HeadMap(p), es, o, n);
  }

  // ---- so the frame gives rise to no operation ---------------------------------------------------

  lemma OwnHead(m: NodeMap, order: seq<string>, o: Page, n: Page)
    requires order != [] && forall k :: k in order ==> k in m.entries
    ensures forall k :: k in order[1..] ==> k in m.entries
    ensures Listed(m, order) == [m.entries[order[0]]] + Listed(m, order[1..])
    ensures Listed(m, OwnKeys(order, o, n))
         == (if Own(o, n, order[0]) then [m.entries[order[0]]] else []) + Listed(m, OwnKeys(order[1..], o, n))
  {
    var own, rest := OwnKeys(order, o, n), OwnKeys(order[1..], o, n);
    assert order[0] in order;
    if Own(o, n, order[0]) { assert own[0] == order[0] && own[1..] == rest; }
    else { Unit(rest); Unit(Listed(m, rest)); }
  }

  lemma SkipRemoval(e: Entry, own: bool, a: seq<Entry>, b: seq<Entry>, kept: set<string>)
    requires Removals(a, kept) == Removals(b, kept) && (own || Removal(e, kept) == [])
    ensures Removals([e] + a, kept) == Removals((if own then [e] else []) + b, kept)
  {
    RemovalsAppend([e], a, kept);
    RemovalsAppend([e], b, kept);
    OneRemoval(e, kept);
    Unit(b);
    Unit(Removals(b, kept));
  }

  lemma SkipChange(e: Entry, own: bool, a: seq<Entry>, b: seq<Entry>, prev: map<string, Entry>)
    requires Changes(a, prev) == Changes(b, prev) && (own || Change(e, prev) == [])
    ensures Changes([e] + a, prev) == Changes((if own then [e] else []) + b, prev)
  {
    ChangesAppend([e], a, prev);
    ChangesAppend([e], b, prev);
    OneChange(e, prev);
    Unit(b);
    Unit(Changes(b, prev));
  }

  lemma {:induction false} FrameRemovals(m: NodeMap, order: seq<string>, kept: set<string>, o: Page, n: Page)
    requires forall k :: k in order ==> k in m.entries && m.entries[k].key == k
    requires forall k :: k in order && !Own(o, n, k) ==> k in kept
    ensures Removals(Listed(m, order), kept) == Removals(Listed(m, OwnKeys(order, o, n)), kept)
  {
    if order != [] {
      assert order[0] in order;
      FrameRemovals(m, order[1..], kept, o, n);
      OwnHead(m, order, o, n);
      SkipRemoval(m.entries[order[0]], Own(o, n, order[0]),
                  Listed(m, order[1..]), Listed(m, OwnKeys(order[1..], o, n)), kept);
    }
  }

  lemma {:induction false} FrameChanges(m: NodeMap, order: seq<string>, prev: map<string, Entry>, o: Page, n: Page)
    requires forall k :: k in order ==> k in m.entries && m.entries[k].key == k
    requires forall k :: k in order && !Own(o, n, k) ==> k in prev && Same(prev[k], m.entries[k])
    ensures Changes(Listed(m, order), prev) == Changes(Listed(m, OwnKeys(order, o, n)), prev)
  {
    if order != [] {
      assert order[0] in order;
      FrameChanges(m, order[1..], prev, o, n);
      OwnHead(m, order, o, n);
      if !Own(o, n, order[0]) { NoChange(m.entries[order[0]], prev); }
      SkipChange(m.entries[order[0]], Own(o, n, order[0]),
                 Listed(m, order[1..]), Listed(m, OwnKeys(order[1..], o, n)), prev);
    }
  }

  lemma NoChange(e: Entry, prev: map<string, Entry>)
    requires e.key in prev && Same(prev[e.key], e)
    ensures Change(e, prev) == []
  {
    SelfQuiet(e.key, prev[e.key].node, e.node);
  }

  lemma {:induction false} KeysMatch(m: NodeMap, es: seq<Entry>)
    requires forall k :: k in m.entries ==> m.entries[k].key == k
    ensures forall k :: k in InsertAll(m, es).entries ==> InsertAll(m, es).entries[k].key == k
    decreases es
  {
    if es != [] { KeysMatch(Insert(m, es[0]), es[1..]); }
  }

  lemma MapKeys(f: seq<Node>)
    ensures forall k :: k in MapOf(f).order ==> k in MapOf(f).entries && MapOf(f).entries[k].key == k
  {
    InsertAllKeys(NodeMap([], map[]), Walk(f, None));
    KeysMatch(NodeMap([], map[]), Walk(f, None));
  }

  lemma FramedPasses(o: Page, n: Page)
    requires Comparable(o, n)
    ensures var om, nm := MapOf(Soup(o)), MapOf(Soup(n));
            MainOps(Soup(o), Soup(n))
            == Removals(BodyEntries(o, Key(Root(o))), nm.entries.Keys)
               + Changes(BodyEntries(n, Key(Root(n))), om.entries)
  {
    var om, nm := MapOf(Soup(o)), MapOf(Soup(n));
    MapKeys(Soup(o));
    MapKeys(Soup(n));
    FramesAgree(o, n);
    FrameRemovals(om, om.order, nm.entries.Keys, o, n);
    FrameChanges(nm, nm.order, om.entries, o, n);
    OwnListed(o, o, n);
    OwnListed(n, o, n);
  }

  lemma OwnListed(p: Page, o: Page, n: Page)
    requires FramedPage(p) && (p == o || p == n) && forall x :: Own(o, n, x) ==> !FrameNamed(p, x)
    ensures var m := MapOf(Soup(p));
            && (forall k :: k in OwnKeys(m.order, o, n) ==> k in m.entries)
            && Listed(m, OwnKeys(m.order, o, n)) == BodyEntries(p, Key(Root(p)))
  {
    FramedMap(p, o, n);
    MapKeys(Soup(p));
    ListedKeys(MapOf(Soup(p)), BodyEntries(p, Key(Root(p))));
  }

  // ---- and the bodies' are those of the pages without their frames ---------------------------------

  lemma {:induction false} RemovalsMatch(es: seq<Entry>, kept: set<string>, kept': set<string>)
    requires forall e :: e in es ==> (e.key in kept <==> e.key in kept')
    requires forall e :: e in es && e.parent.Some? ==> (e.parent.value in kept <==> e.parent.value in kept')
    ensures Removals(es, kept) == Removals(es, kept')
  {
    if es != [] {
      assert es[0] in es;
      RemovalsMatch(es[1..], kept, kept');
    }
  }

  predicate MatchAt(prev: map<string, Entry>, prev': map<string, Entry>, x: string) {
    (x in prev <==> x in prev') && (x in prev ==> prev[x].node == prev'[x].node)
  }

  lemma {:induction false} ChangesMatch(es: seq<Entry>, prev: map<string, Entry>, prev': map<string, Entry>)
    requires forall e :: e in es ==> MatchAt(prev, prev', e.key)
    requires forall e :: e in es && e.parent.Some? ==> MatchAt(prev, prev', e.parent.value)
    ensures Changes(es, prev) == Changes(es, prev')
  {
    if es != [] {
      assert es[0] in es;
      ChangesMatch(es[1..], prev, prev');
    }
  }

  lemma UnframedMatch(p: Page, o: Page, n: Page, x: string)
    requires FramedPage(p) && (p == o || p == n) && (forall x :: Own(o, n, x) ==> !FrameNamed(p, x))
    requires Own(o, n, x)
    ensures MatchAt(MapOf(Soup(p)).entries, MapOf(Soup(Unframed(p))).entries, x)
  {
    var k := Key(Root(p));
    var m, b := MapOf(Soup(p)).entries, MapOf(Soup(Unframed(p))).entries;
    FramedMap(p, o, n);
    UnframedValid(p);
    PageMap(Unframed(p));
    if x in m { Reparented(p, k, None, m[x]); }
    if x in b { Reparented(p, None, k, b[x]); }
  }

  lemma Reparented(p: Page, k: Option<string>, k': Option<string>, e: Entry)
    requires e in BodyEntries(p, k)
    ensures exists e' :: e' in BodyEntries(p, k') && e'.key == e.key && e'.node == e.node
  {
    if e in Walk(p.body.kids, BodyParent(p)) {
      assert e in BodyEntries(p, k');
    } else {
      assert Entry(BodyKey(p), p.body, k') in BodyEntries(p, k');
    }
  }

  lemma RemovalSide(o: Page, n: Page)
    requires Comparable(o, n)
    ensures Removals(BodyEntries(o, Key(Root(o))), MapOf(Soup(n)).entries.Keys)
         == Removals(BodyEntries(o, None), MapOf(Soup(Unframed(n))).entries.Keys)
  {
    var k := Key(Root(o));
    var kept, kept' := MapOf(Soup(n)).entries.Keys, MapOf(Soup(Unframed(n))).entries.Keys;
    var below := Walk(o.body.kids, BodyParent(o));
    OwnEntries(o, o, n, k);
    forall e | e in below
      ensures e.key in kept <==> e.key in kept'
      ensures e.parent.Some? ==> (e.parent.value in kept <==> e.parent.value in kept')
    {
      assert e in BodyEntries(o, k);
      UnframedMatch(n, o, n, e.key);
      OwnParents(o, o, n, e);
      if e.parent.Some? { UnframedMatch(n, o, n, e.parent.value); }
    }
    RemovalsMatch(below, kept, kept');
    if BodyKey(o) != "" {
      UnframedMatch(n, o, n, BodyKey(o));
      if k.Some? { KeptBody(n); }
      RemovalsAppend([Entry(BodyKey(o), o.body, k)], below, kept);
      RemovalsAppend([Entry(BodyKey(o), o.body, None)], below, kept');
      OneRemoval(Entry(BodyKey(o), o.body, k), kept);
      OneRemoval(Entry(BodyKey(o), o.body, None), kept');
    } else {
      Unit(below);
    }
  }

  lemma OneRemoval(e: Entry, kept: set<string>)
    ensures Removals([e], kept) == Removal(e, kept)
  {
    assert [e][1..] == [];
  }

  lemma OneChange(e: Entry, prev: map<string, Entry>)
    ensures Changes([e], prev) == Change(e, prev)
  {
    assert [e][1..] == [];
  }

  lemma KeptBody(p: Page)
    requires FramedPage(p) && BodyKey(p) != ""
    ensures BodyKey(p) in MapOf(Soup(Unframed(p))).entries
  {
    UnframedValid(p);
    PageMapBody(Unframed(p), BodyKey(p));
  }

  lemma ChangeSide(o: Page, n: Page)
    requires Comparable(o, n)
    ensures Changes(BodyEntries(n, Key(Root(n))), MapOf(Soup(o)).entries)
         == Changes(BodyEntries(n, None), MapOf(Soup(Unframed(o))).entries)
  {
    var k := Key(Root(n));
    var prev, prev' := MapOf(Soup(o)).entries, MapOf(Soup(Unframed(o))).entries;
    var below := Walk(n.body.kids, BodyParent(n));
    OwnEntries(n, o, n, k);
    forall e | e in below
      ensures MatchAt(prev, prev', e.key) && (e.parent.Some? ==> MatchAt(prev, prev', e.parent.value))
    {
      assert e in BodyEntries(n, k);
      UnframedMatch(o, o, n, e.key);
      OwnParents(n, o, n, e);
      if e.parent.Some? { UnframedMatch(o, o, n, e.parent.value); }
    }
    ChangesMatch(below, prev, prev');
    if BodyKey(n) != "" {
      UnframedMatch(o, o, n, BodyKey(n));
      if k.Some? { KeptBody(o); }
      ChangesAppend([Entry(BodyKey(n), n.body, k)], below, prev);
      ChangesAppend([Entry(BodyKey(n), n.body, None)], below, prev');
      OneChange(Entry(BodyKey(n), n.body, k), prev);
      OneChange(Entry(BodyKey(n), n.body, None), prev');
    } else {
      Unit(below);
    }
  }

  /** The main passes of compute_diff see the bodies only. */
  lemma FramedOps(o: Page, n: Page)
    requires Comparable(o, n)
    ensures MainOps(Soup(o), Soup(n)) == MainOps(Soup(Unframed(o)), Soup(Unframed(n)))
  {
    FramedPasses(o, n);
    RemovalSide(o, n);
    ChangeSide(o, n);
    UnframedValid(o);
    UnframedValid(n);
    PageMap(Unframed(o));
    PageMap(Unframed(n));
  }

  // ---- which leave the frame alone -----------------------------------------------------------------

  predicate OwnEntry(e: Entry, o: Page, n: Page) {
    Own(o, n, e.key) && (e.parent.Some? ==> Own(o, n, e.parent.value))
  }

  lemma ChangeOwn(e: Entry, prev: map<string, Entry>, o: Page, n: Page, op: Op)
    requires OwnEntry(e, o, n) && op in Change(e, prev)
    ensures Own(o, n, op.selector)
  {
    if e.key in prev && prev[e.key].node.tag == e.node.tag {
      var oa, na := prev[e.key].node.attrs, e.node.attrs;
      AttrSelectors(e.key, oa, na, Names(na), op);
      if op in DelAttrOps(e.key, na, Names(oa)) { DelSelectors(e.key, na, Names(oa), op); }
    }
  }

  lemma {:induction false} PassOwn(
    es: seq<Entry>, kept: set<string>, prev: map<string, Entry>, o: Page, n: Page, op: Op)
    requires forall e :: e in es ==> OwnEntry(e, o, n)
    requires op in Removals(es, kept) || op in Changes(es, prev)
    ensures Own(o, n, op.selector)
  {
    assert es[0] in es;
    if op in Change(es[0], prev) { ChangeOwn(es[0], prev, o, n, op); }
    else if op !in Removal(es[0], kept) { PassOwn(es[1..], kept, prev, o, n, op); }
  }

  lemma EntriesOwn(p: Page, o: Page, n: Page)
    requires FramedPage(p) && (p == o || p == n)
    ensures forall e :: e in BodyEntries(p, None) ==> OwnEntry(e, o, n)
  {
    OwnEntries(p, o, n, None);
    forall e | e in BodyEntries(p, None) ensures OwnEntry(e, o, n) {
      if e in Walk(p.body.kids, BodyParent(p)) { OwnParents(p, o, n, e); }
    }
  }

  /** Every operation names the body or something below it. */
  lemma OwnSelectors(o: Page, n: Page, op: Op)
    requires FramedPage(o) && FramedPage(n) && op in MainOps(Soup(Unframed(o)), Soup(Unframed(n)))
    ensures Own(o, n, op.selector)
  {
    var kept, prev := MapOf(Soup(Unframed(n))).entries.Keys, MapOf(Soup(Unframed(o))).entries;
    UnframedValid(o);
    UnframedValid(n);
    PageMap(Unframed(o));
    PageMap(Unframed(n));
    EntriesOwn(o, o, n);
    EntriesOwn(n, o, n);
    if op in Removals(BodyEntries(o, None), kept) { PassOwn(BodyEntries(o, None), kept, prev, o, n, op); }
    else { PassOwn(BodyEntries(n, None), kept, prev, o, n, op); }
  }

  lemma FrameFold(p: Page, ops: seq<Op>)
    requires FoundAny([p.body], ops) && forall op :: op in ops ==> !FrameNamed(p, op.selector)
    ensures ApplyOps(Soup(p), ops) == [Elem("html", p.htmlAttrs, p.before + ApplyOps([p.body], ops) + p.after)]
  {
    LiftFold(p.before, [p.body], p.after, ops);
    WrapFold(Soup(p)[0], ops);
  }

  /** Replaying a page's operations changes its body only. */
  lemma PageFold(o: Page, n: Page)
    requires Comparable(o, n) && SameBody(o, n)
    ensures MainOps(Soup(o), Soup(n)) == PageOps(o, n)
    ensures ApplyOps(Soup(o), PageOps(o, n)) == Soup(o.(body := BodyPatched(o.body, n.body, BodyKey(o) != "")))
  {
    var ops := PageOps(o, n);
    FramedOps(o, n);
    UnframedValid(o);
    UnframedValid(n);
    PageDiff(Unframed(o), Unframed(n));
    BodyFold(Unframed(o), Unframed(n));
    assert ops == PageOps(Unframed(o), Unframed(n));
    forall op | op in ops ensures !FrameNamed(o, op.selector) { OwnSelectors(o, n, op); }
    FrameFold(o, ops);
  }

  // ---- pages without keys outside the body ------------------------------------------------------------

  lemma {:induction false} UnkeyedKeyed(f: seq<Node>)
    requires Unkeyed(f)
    ensures Keyed(f) == []
  {
    if f != [] {
      UnkeyedKeyed(f[1..]);
      if f[0].Elem? { UnkeyedKeyed(f[0].kids); }
    }
  }

  lemma PlainFrame(p: Page, x: string)
    requires ValidPage(p) && x != ""
    ensures !FrameNamed(p, x) && Key(Root(p)).None? && Keyed(p.before) == [] && Keyed(p.after) == []
  {
    UnkeyedFree(p.before, x);
    UnkeyedFree(p.after, x);
    UnkeyedKeyed(p.before);
    UnkeyedKeyed(p.after);
  }

  lemma PlainComparable(o: Page, n: Page)
    requires ValidPage(o) && ValidPage(n)
    ensures Comparable(o, n)
  {
    forall x | Own(o, n, x) ensures !FrameNamed(o, x) && !FrameNamed(n, x) {
      PlainFrame(o, x);
      PlainFrame(n, x);
    }
    PlainFrame(o, "body");
    PlainFrame(n, "body");
  }
}
