/** Consequences of the exact condition: when the fallback is unreachable, the simple
    documents on which text never gets in the way, which inputs fail, and that the
    normaliser's output is a valid page. */
module Fragment {
  import opened Strings
  import opened Dom
  import opened Pipeline
  import opened Differ
  import opened Replay
  import opened Flat
  import opened Patch
  import opened Contract
  import opened Frame
  import opened PageContract
  import opened Quiet

  // ---- completeness of the main passes -----------------------------------------------------

  /** From a collapsed page, the main passes miss a difference only if they could not
      reproduce the new page anyway. */
  lemma DiffComplete(o: Page, n: Page)
    requires Comparable(o, n) && Collapsed(Soup(o), false)
    requires SameBody(o, n) && Collapsed(Soup(n), false) && FrameKept(o, n) && BodyKept(o, n) && o != n
    ensures MainOps(Soup(o), Soup(n)) != [] && Patchable(o, n)
  {
    FramedSilent(o, n);
    if MainOps(Soup(o), Soup(n)) == [] {
      var p := o.(body := BodyPatched(o.body, n.body, BodyKey(o) != ""));
      PageFold(o, n);
      assert Soup(p)[0].kids == Soup(o)[0].kids;
      BodySplit(p.before, p.body, p.after, o.before, o.body, o.after);
      CollapsedPage(o);
      CollapsedPage(n);
      PageSplit(o, o);
      PageSplit(n, n);
      BodyIff(o, n);
      assert false;
    }
  }

  // ---- simple documents -------------------------------------------------------------------

  /** Every element is empty, holds one trimmed text, or holds elements only. */
  predicate Simple(n: Tag)
    decreases n
  {
    (n.kids == []
     || (|n.kids| == 1 && n.kids[0].Text? && n.kids[0].text != "" && Strip(n.kids[0].text) == n.kids[0].text)
     || forall k :: k in n.kids ==> k.Elem?)
    && SimpleKids(n.kids)
  }

  predicate SimpleKids(f: seq<Node>)
    decreases f
  {
    f != [] ==> (f[0].Elem? ==> Simple(f[0])) && SimpleKids(f[1..])
  }

  /** Wherever both sides have an element: no attribute of a kept element is set to the empty
      string, and an element that changes its tag gains no children, nor does anything in it. */
  predicate Agreeing(o: Tag, n: Tag, replaced: bool)
    decreases 1 + Size(n.kids), 0
  {
    var now := replaced || o.tag != n.tag;
    && (o.tag == n.tag ==> AttrsKept(o.attrs, n.attrs))
    && (now ==> |Elems(n.kids)| <= |Elems(o.kids)|)
    && AgreeingEach(Elems(o.kids), Elems(n.kids), now)
  }

  predicate AgreeingEach(os: seq<Tag>, ns: seq<Tag>, replaced: bool)
    decreases Size(ns), 1
  {
    os != [] && ns != [] ==> Agreeing(os[0], ns[0], replaced) && AgreeingEach(os[1..], ns[1..], replaced)
  }

  lemma {:induction false} AllElems(f: seq<Node>)
    requires forall k :: k in f ==> k.Elem?
    ensures Elems(f) == f && RawText(f) == "" && Shape(f) == Holes(|f|)
  {
    if f != [] { assert f[0] in f; AllElems(f[1..]); }
  }

  lemma {:induction false} HolesKept(m: nat, k: nat)
    ensures KeepFirst(Holes(m), k) == Holes(if m < k then m else k)
  {
    if m > 0 {
      assert Holes(m)[1..] == Holes(m - 1);
      HolesKept(m - 1, if k == 0 then 0 else k - 1);
    }
  }

  lemma {:induction false} HolesAppend(a: nat, b: nat)
    ensures Holes(a) + Holes(b) == Holes(a + b)
  {
    if a > 0 {
      HolesAppend(a - 1, b);
      assert Holes(a) + Holes(b) == [HOLE] + (Holes(a - 1) + Holes(b));
    }
  }

  lemma {:induction false} HolesClosed(m: nat, pre: bool)
    ensures Close(Holes(m), pre) == Holes(m) && Close([Text("")] + Holes(m), pre) == Holes(m)
  {
    assert ([Text("")] + Holes(m))[1..] == Holes(m);
    if m > 0 {
      assert Holes(m)[1..] == Holes(m - 1);
      HolesClosed(m - 1, pre);
      assert Merge(Holes(m)) == [HOLE] + Merge(Holes(m - 1));
      assert Collapse([HOLE] + Merge(Holes(m - 1)), pre) == [HOLE] + Collapse(Merge(Holes(m - 1)), pre) by {
        assert ([HOLE] + Merge(Holes(m - 1)))[1..] == Merge(Holes(m - 1));
      }
    }
  }

  /** A simple element is a single text, or as many elements as it has children. */
  lemma SimpleViews(n: Tag)
    requires Simple(n)
    ensures if |n.kids| == 1 && n.kids[0].Text?
            then Elems(n.kids) == [] && DirectText(n) == n.kids[0].text && Shape(n.kids) == n.kids
                && n.kids[0].text != ""
            else Elems(n.kids) == n.kids && DirectText(n) == "" && Shape(n.kids) == Holes(|n.kids|)
  {
    if |n.kids| == 1 && n.kids[0].Text? {
      assert n.kids == [n.kids[0]] && n.kids[1..] == [];
      assert RawText(n.kids[1..]) == "" && RawText(n.kids) == n.kids[0].text + "" == n.kids[0].text;
    } else {
      AllElems(n.kids);
    }
  }

  lemma SimpleTextLayout(o: Tag, n: Tag, pre: bool)
    requires Simple(o) && Simple(n) && Close(n.kids, pre) == n.kids && |n.kids| == 1 && n.kids[0].Text?
    ensures LayoutKept(o, n, false, pre)
  {
    SimpleViews(o);
    SimpleViews(n);
    assert [Text(DirectText(n))] + Holes(0) == n.kids;
    if !TextChanged(o, n) {
      assert o.kids[0] == Text(DirectText(o));
      assert o.kids == n.kids;
      assert o.kids[1..] == [];
      assert KeepFirst(o.kids, 0) == [o.kids[0]] + KeepFirst(o.kids[1..], 0);
      assert KeepFirst(o.kids, 0) + Holes(0) == n.kids;
    }
  }

  lemma SimpleLayout(o: Tag, n: Tag, pre: bool)
    requires Simple(o) && Simple(n) && Close(n.kids, pre) == n.kids
    ensures LayoutKept(o, n, false, pre)
  {
    if |n.kids| == 1 && n.kids[0].Text? {
      SimpleTextLayout(o, n, pre);
    } else {
      SimpleViews(o);
      SimpleViews(n);
      var os, ns := Elems(o.kids), Elems(n.kids);
      HolesClosed(|ns|, pre);
      if !TextChanged(o, n) {
        var m := if |os| < |ns| then |os| else |ns|;
        HolesKept(|os|, |ns|);
        HolesAppend(m, Missing(os, ns));
        assert KeepFirst(Shape(o.kids), |ns|) + Holes(Missing(os, ns)) == Holes(|ns|);
      }
    }
  }

  lemma {:induction false} SimpleKept(o: Tag, n: Tag, replaced: bool, pre: bool)
    requires Simple(o) && Simple(n) && Agreeing(o, n, replaced) && CloseNode(n, pre) == n
    ensures NodeKept(o, n, replaced, pre)
    decreases 1 + Size(n.kids), 0
  {
    var pre' := pre || n.tag in PRESERVE;
    SimpleLayout(o, n, pre');
    SimpleElems(o.kids);
    SimpleElems(n.kids);
    CloseElems(n.kids, pre');
    SimpleKidsKept(Elems(o.kids), Elems(n.kids), replaced || o.tag != n.tag, pre');
  }

  lemma {:induction false} SimpleElems(f: seq<Node>)
    requires SimpleKids(f)
    ensures SimpleKids(Elems(f))
  {
    if f != [] { SimpleElems(f[1..]); }
  }

  lemma {:induction false} SimpleKidsKept(os: seq<Tag>, ns: seq<Tag>, replaced: bool, pre: bool)
    requires SimpleKids(os) && SimpleKids(ns) && AgreeingEach(os, ns, replaced) && CloseEach(ns, pre) == ns
    ensures KidsKept(os, ns, replaced, pre)
    decreases Size(ns), 1
  {
    if os != [] && ns != [] {
      assert CloseEach(ns, pre)[0] == CloseNode(ns[0], pre) && CloseEach(ns, pre)[1..] == CloseEach(ns[1..], pre);
      SimpleKept(os[0], ns[0], replaced, pre);
      SimpleKidsKept(os[1..], ns[1..], replaced, pre);
    }
  }

  lemma SimpleBody(o: Page, n: Page)
    requires o.body.tag == n.body.tag == "body" && CloseNode(n.body, false) == n.body
    requires Simple(o.body) && Simple(n.body) && Agreeing(o.body, n.body, false)
    requires BodyKey(o) == "" ==>
      && o.body.attrs == n.body.attrs && !TextChanged(o.body, n.body)
      && |Elems(n.body.kids)| <= |Elems(o.body.kids)|
    ensures BodyKept(o, n)
  {
    SimpleKept(o.body, n.body, false, false);
    if BodyKey(o) == "" {
      var kept := KeepFirst(Shape(o.body.kids), |Elems(n.body.kids)|);
      assert kept + Holes(0) == kept;
    }
  }

  lemma SimpleFrame(o: Page, n: Page)
    requires FramedPage(n) && Collapsed(Soup(n), false)
    requires o.htmlAttrs == n.htmlAttrs && o.before == n.before && o.after == n.after
    ensures FrameKept(o, n) && CloseNode(n.body, false) == n.body
  {
    CollapsedPage(n);
    PageSplit(n, n);
  }

  /** On simple, collapsed documents whose elements agree, tags that change included,
      replaying the diff always gives the new page. */
  lemma SimpleContract(o: Page, n: Page)
    requires Comparable(o, n) && Collapsed(Soup(o), false) && Collapsed(Soup(n), false)
    requires Simple(o.body) && Simple(n.body) && Agreeing(o.body, n.body, false)
    requires o.htmlAttrs == n.htmlAttrs && o.before == n.before && o.after == n.after
    requires BodyKey(o) == BodyKey(n)
    requires BodyKey(o) == "" ==>
      && o.body.attrs == n.body.attrs && !TextChanged(o.body, n.body)
      && |Elems(n.body.kids)| <= |Elems(o.body.kids)|
    ensures Applied(Soup(o), Diff(Soup(o), Soup(n))) == Soup(n)
  {
    SimpleFrame(o, n);
    SimpleBody(o, n);
    if o != n { DiffComplete(o, n); }
    PatchContract(o, n);
  }

  // ---- inputs that fail ------------------------------------------------------------------------

  /** Children added to a body without an id are lost: no operation can name their parent. */
  lemma BodyGainLost(o: Page, n: Page)
    requires Comparable(o, n) && BodyKey(o) == ""
    requires |Elems(n.body.kids)| > |Elems(o.body.kids)|
    ensures Applied(Soup(o), Diff(Soup(o), Soup(n))) != Soup(n)
  {
    PatchContract(o, n);
    var kept := KeepFirst(Shape(o.body.kids), |Elems(n.body.kids)|);
    CloseElems(kept, false);
    CloseEachLen(Elems(kept), false);
    PruneShape(o.body.kids, Elems(n.body.kids));
    PruneEnters(o.body.kids, Elems(n.body.kids));
    EnterLen(Elems(Prune(o.body.kids, Elems(n.body.kids))), Elems(o.body.kids), Elems(n.body.kids), false);
    ShapeCount(Prune(o.body.kids, Elems(n.body.kids)));
    ShapeCount(n.body.kids);
  }

  /** An element that changes its tag and gains children gets them twice. */
  lemma ReplacedGainDoubled(o: Tag, n: Tag, pre: bool)
    requires o.tag != n.tag && |Elems(n.kids)| > |Elems(o.kids)|
    ensures |Elems(CloseNode(NodePatched(PrunedNode(o, n), o, n), pre).kids)| == 2 * |Elems(n.kids)| - |Elems(o.kids)|
  {
    var os, ns := Elems(o.kids), Elems(n.kids);
    var x := KidsPatched(n.kids, os, ns) + Extra(os, ns);
    PatchedKids(n.kids, os, ns);
    PatchEachLen(ns, os, ns);
    ElemsAppend(KidsPatched(n.kids, os, ns), Extra(os, ns));
    ElemsId(Extra(os, ns));
    CloseElems(x, pre || n.tag in PRESERVE);
    CloseEachLen(Elems(x), pre || n.tag in PRESERVE);
  }

  const DIV: Tag := Elem("div", map[DOM_ID := "dom_0"], [])

  function SmallPage(kids: seq<Node>): Page {
    Page(map[], [], Elem("body", map[], kids), [])
  }

  lemma DivLabelled()
    ensures Labelled([DIV], "dom", 0)
  {
    assert Dec(0) == "0" && Sub("dom", 0) == "dom_0";
    assert Hit(DIV, D(Sub("dom", 0))) && Labelled(DIV.kids, Sub("dom", 0), 0);
    assert LabelledNode(DIV, Sub("dom", 0));
    assert [DIV][1..] == [];
  }

  lemma DivTidy()
    ensures Tidy([DIV]) && Parsed([DIV])
  {
    var none: map<Name, string> := map[];
    DomIdClean(none, "dom_0");
    assert DIV.attrs == none[DOM_ID := "dom_0"];
    assert [DIV][1..] == [];
  }

  lemma SmallValid(kids: seq<Node>)
    requires Tidy(kids) && Parsed(kids) && Labelled(kids, "dom", 0)
    ensures ValidPage(SmallPage(kids))
  {
    var p := SmallPage(kids);
    assert [p.body][1..] == [] && Soup(p)[1..] == [];
    assert p.before + [p.body] + p.after == [p.body];
    TidySoup(p);
    assert Parsed([p.body]);
    assert BodyKey(p) == "";
  }

  /** A concrete failing input: the empty body gains its first element. */
  lemma GainExample()
    ensures var o, n := SmallPage([]), SmallPage([DIV]);
            ValidPage(o) && ValidPage(n) && Applied(Soup(o), Diff(Soup(o), Soup(n))) != Soup(n)
  {
    DivLabelled();
    DivTidy();
    SmallValid([]);
    SmallValid([DIV]);
    assert [DIV][1..] == [] && Labelled([DIV], "dom", 0);
    var o, n := SmallPage([]), SmallPage([DIV]);
    assert o.body.kids == [] && n.body.kids == [DIV];
    PlainComparable(o, n);
    BodyGainLost(o, n);
  }
}
