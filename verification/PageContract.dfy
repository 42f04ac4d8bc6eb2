/** The contract on whole pages, for every pair of comparable pages. */
module PageContract {
  import opened Strings
  import opened Dom
  import opened Pipeline
  import opened Differ
  import opened Replay
  import opened Flat
  import opened Patch
  import opened Contract
  import opened Quiet
  import opened Frame

  // ---- everything stays tidy, so closing is only merging and collapsing -----------------

  lemma {:induction false} TidyAppend(a: seq<Node>, b: seq<Node>)
    ensures Tidy(a + b) <==> Tidy(a) && Tidy(b)
  {
    if a == [] { assert a + b == b; }
    else {
      assert (a + b)[0] == a[0] && (a + b)[1..] == a[1..] + b;
      TidyAppend(a[1..], b);
    }
  }

  lemma {:induction false} TidyElems(f: seq<Node>)
    requires Tidy(f)
    ensures Tidy(Elems(f))
  {
    if f != [] { TidyElems(f[1..]); }
  }

  lemma {:induction false} TidyPrune(kids: seq<Node>, ns: seq<Tag>)
    requires Tidy(kids)
    ensures Tidy(Prune(kids, ns))
  {
    if kids != [] {
      TidyPrune(kids[1..], if kids[0].Elem? && ns != [] then ns[1..] else ns);
      if kids[0].Elem? && ns != [] {
        TidyPrune(kids[0].kids, Elems(ns[0].kids));
        assert Prune(kids, ns)[1..] == Prune(kids[1..], ns[1..]);
      }
    }
  }

  lemma TidyExtra(os: seq<Tag>, ns: seq<Tag>)
    requires Tidy(ns)
    ensures Tidy(Extra(os, ns))
  {
    if |os| < |ns| {
      assert ns == ns[..|os|] + ns[|os|..];
      TidyAppend(ns[..|os|], ns[|os|..]);
    }
  }

  lemma {:induction false} TidyNode(s: Tag, o: Tag, n: Tag)
    requires Tidy([s]) && Tidy([n])
    ensures Tidy([NodePatched(s, o, n)])
    decreases 1 + Size(n.kids), 0
  {
    var b := if o.tag != n.tag then n else SelfPatched(s, o, n);
    var os, ns := Elems(o.kids), Elems(n.kids);
    TidyElems(n.kids);
    if o.tag == n.tag && TextChanged(o, n) { assert b.kids[1..] == []; }
    assert Tidy(b.kids);
    TidyKids(b.kids, os, ns);
    TidyExtra(os, ns);
    TidyAppend(KidsPatched(b.kids, os, ns), Extra(os, ns));
    assert [NodePatched(s, o, n)][1..] == [];
  }

  lemma {:induction false} TidyKids(kids: seq<Node>, os: seq<Tag>, ns: seq<Tag>)
    requires Tidy(kids) && Tidy(ns)
    ensures Tidy(KidsPatched(kids, os, ns))
    decreases Size(ns), |kids|
  {
    if kids != [] && os != [] && ns != [] {
      assert [kids[0]][1..] == [] && [ns[0]][1..] == [];
      if !kids[0].Elem? {
        TidyKids(kids[1..], os, ns);
        TidyAppend([kids[0]], KidsPatched(kids[1..], os, ns));
      } else {
        TidyNode(kids[0], os[0], ns[0]);
        TidyKids(kids[1..], os[1..], ns[1..]);
        TidyAppend([NodePatched(kids[0], os[0], ns[0])], KidsPatched(kids[1..], os[1..], ns[1..]));
      }
    }
  }

  lemma TidySoup(p: Page)
    ensures Tidy(Soup(p)) <==> CleanTag(p.htmlAttrs) && Tidy(p.before) && Tidy([p.body]) && Tidy(p.after)
  {
    assert Soup(p)[1..] == [];
    TidyAppend(p.before + [p.body], p.after);
    TidyAppend(p.before, [p.body]);
  }

  lemma TidyBody(o: Page, n: Page)
    requires FramedPage(o) && FramedPage(n)
    ensures Tidy([BodyPatched(o.body, n.body, BodyKey(o) != "")])
  {
    TidySoup(o);
    TidySoup(n);
    var os, ns := Elems(o.body.kids), Elems(n.body.kids);
    TidyPrune(o.body.kids, ns);
    TidyElems(n.body.kids);
    var b := OwnDone(o, n);
    if BodyKey(o) != "" && TextChanged(o.body, n.body) { assert b.kids[1..] == []; }
    assert Tidy(b.kids) && CleanTag(b.attrs);
    TidyKids(b.kids, os, ns);
    TidyExtra(os, ns);
    TidyAppend(KidsPatched(b.kids, os, ns), Extra(os, ns));
    TidyAppend(KidsPatched(b.kids, os, ns), []);
    assert [BodyPatched(o.body, n.body, BodyKey(o) != "")][1..] == [];
  }

  lemma CloseOne(e: Tag, pre: bool)
    ensures Close([e], pre) == [CloseNode(e, pre)]
  {
    var m := e.(kids := Merge(e.kids));
    assert [e][1..] == [] && Merge([e]) == [m] + Merge([e][1..]) && [m][1..] == [];
    assert Collapse([m], pre) == [m.(kids := Collapse(m.kids, pre || m.tag in PRESERVE))] + Collapse([m][1..], pre);
  }

  /** The closing pass on a tidy document that has some element. */
  lemma Closing(e: Tag)
    requires Tidy([e])
    ensures Merge(Normalized(Merge([e]), false)) == Close([e], false) == [CloseNode(e, false)]
  {
    assert [e][1..] == [];
    MergeTidy([e]);
    TidyFixed(Merge([e]));
    assert Merge([e])[0].Elem? && Merge([e])[0] in Merge([e]);
    MergeParsed([e]);
    CollapseParsed(Merge([e]), false);
    MergeParsed(Collapse(Merge([e]), false));
    CloseOne(e, false);
  }

  lemma CloseTwice(f: seq<Node>, pre: bool)
    ensures Close(Close(f, pre), pre) == Close(f, pre)
  {
    MergeParsed(f);
    CollapseParsed(Merge(f), pre);
    MergeParsed(Close(f, pre));
    CollapseCollapsed(Merge(f), pre);
    CollapseCollapsed(Close(f, pre), pre);
  }

  lemma {:induction false} CloseMiddle(a: seq<Node>, e: Tag, b: seq<Node>, pre: bool)
    ensures Close(a + [e] + b, pre) == Close(a, pre) + [CloseNode(e, pre)] + Close(b, pre)
  {
    MergeMiddle(a, e, b);
    CollapseAppend(Merge(a), [e.(kids := Merge(e.kids))] + Merge(b), pre);
    CollapseAppend([e.(kids := Merge(e.kids))], Merge(b), pre);
    assert [e.(kids := Merge(e.kids))][1..] == [];
  }

  lemma {:induction false} MergeMiddle(a: seq<Node>, e: Tag, b: seq<Node>)
    ensures Merge(a + [e] + b) == Merge(a) + ([e.(kids := Merge(e.kids))] + Merge(b))
  {
    var f, tail := a + [e] + b, [e.(kids := Merge(e.kids))] + Merge(b);
    if a == [] {
      assert f[0] == e && f[1..] == b;
    } else {
      assert f[0] == a[0] && f[1..] == a[1..] + [e] + b;
      MergeMiddle(a[1..], e, b);
      var r := Merge(a[1..]);
      match a[0]
      case Text(s) => GlueBefore(s, r, tail);
      case Comment(_) => Associate([a[0]], r, tail);
      case Elem(_, _, kids) => Associate([a[0].(kids := Merge(kids))], r, tail);
    }
  }

  lemma GlueBefore(s: string, r: seq<Node>, tail: seq<Node>)
    requires tail != [] && tail[0].Elem?
    ensures Glue(s, r + tail) == Glue(s, r) + tail
  {
    if r == [] {
      Unit(tail);
      Unit([Text(s)]);
    } else {
      assert (r + tail)[0] == r[0] && (r + tail)[1..] == r[1..] + tail;
      if r[0].Text? { Associate([Text(s + r[0].text)], r[1..], tail); } else { Associate([Text(s)], r, tail); }
    }
  }

  lemma {:induction false} CollapseAppend(a: seq<Node>, b: seq<Node>, pre: bool)
    ensures Collapse(a + b, pre) == Collapse(a, pre) + Collapse(b, pre)
  {
    if a == [] { assert a + b == b; }
    else {
      assert (a + b)[0] == a[0] && (a + b)[1..] == a[1..] + b;
      CollapseAppend(a[1..], b, pre);
    }
  }

  lemma {:induction false} CloseTags(f: seq<Node>, t: string, pre: bool)
    ensures Has(Collapse(f, pre), ByTag(t)) <==> Has(f, ByTag(t))
    ensures Has(Merge(f), ByTag(t)) <==> Has(f, ByTag(t))
  {
    if f != [] {
      CloseTags(f[1..], t, pre);
      var r := Merge(f[1..]);
      if f[0].Elem? { CloseTags(f[0].kids, t, pre || f[0].tag in PRESERVE); }
      assert Collapse(f, pre)[1..] == Collapse(f[1..], pre);
      if f[0].Text? && f[0].text != "" && r != [] && r[0].Text? { assert Merge(f)[1..] == r[1..]; }
      else if f[0] != Text("") { assert Merge(f)[1..] == r; }
    }
  }

  lemma NoBodyClosed(f: seq<Node>, pre: bool)
    ensures Has(Close(f, pre), ByTag("body")) <==> Has(f, ByTag("body"))
  {
    CloseTags(f, "body", pre);
    CloseTags(Merge(f), "body", pre);
  }

  // ---- a page is determined by its soup ---------------------------------------------------

  lemma BodyFirst(a: seq<Node>, x: Tag, b: seq<Node>)
    requires x.tag == "body" && !Has(a, ByTag("body"))
    ensures Hit((a + [x] + b)[0], ByTag("body")) <==> a == []
  {
    assert (a + [x] + b)[0] == if a == [] then x else a[0];
  }

  lemma {:induction false} BodySplit(a: seq<Node>, x: Tag, b: seq<Node>, c: seq<Node>, y: Tag, d: seq<Node>)
    requires a + [x] + b == c + [y] + d && x.tag == "body" && y.tag == "body"
    requires !Has(a, ByTag("body")) && !Has(c, ByTag("body"))
    ensures a == c && x == y && b == d
  {
    var f := a + [x] + b;
    BodyFirst(a, x, b);
    BodyFirst(c, y, d);
    if a == [] {
      assert f[0] == x == y && f[1..] == b && f[1..] == d;
    } else {
      assert f[0] == a[0] == c[0] && f[1..] == a[1..] + [x] + b && f[1..] == c[1..] + [y] + d;
      BodySplit(a[1..], x, b, c[1..], y, d);
    }
  }

  /** Closing a page gives another page exactly when it does so part by part. */
  lemma PageSplit(p: Page, n: Page)
    requires p.body.tag == "body" && n.body.tag == "body"
    requires !Has(p.before, ByTag("body")) && !Has(n.before, ByTag("body"))
    ensures Close(Soup(p), false) == Soup(n) <==>
            && p.htmlAttrs == n.htmlAttrs
            && Close(p.before, false) == n.before
            && CloseNode(p.body, false) == n.body
            && Close(p.after, false) == n.after
  {
    var kids := p.before + [p.body] + p.after;
    assert Soup(p)[1..] == [];
    CloseOne(Soup(p)[0], false);
    CloseMiddle(p.before, p.body, p.after, false);
    NoBodyClosed(p.before, false);
    if Close(Soup(p), false) == Soup(n) {
      BodySplit(Close(p.before, false), CloseNode(p.body, false), Close(p.after, false), n.before, n.body, n.after);
    }
  }

  // ---- the condition -----------------------------------------------------------------------

  /** What must hold of the body. A body with an id is a tag like any other. A body
      without one has no operations of its own: its attributes must not change, its text
      must survive the removals, and it must not gain children. */
  predicate BodyKept(o: Page, n: Page) {
    var os, ns := Elems(o.body.kids), Elems(n.body.kids);
    if BodyKey(o) != "" then NodeKept(o.body, n.body, false, false)
    else
      && o.body.attrs == n.body.attrs
      && Close(KeepFirst(Shape(o.body.kids), |ns|), false) == Shape(n.body.kids)
      && KidsKept(os, ns, false, false)
  }

  predicate FrameKept(o: Page, n: Page) {
    && o.htmlAttrs == n.htmlAttrs
    && Close(o.before, false) == n.before
    && Close(o.after, false) == n.after
  }

  /** The exact condition under which the contract holds for two different pages. */
  predicate Patchable(o: Page, n: Page) {
    && SameBody(o, n)
    && Collapsed(Soup(n), false)
    && !PageQuiet(o, n)
    && FrameKept(o, n)
    && BodyKept(o, n)
  }

  lemma BodyIff(o: Page, n: Page)
    requires o.body.tag == n.body.tag == "body" && CloseNode(n.body, false) == n.body
    ensures CloseNode(BodyPatched(o.body, n.body, BodyKey(o) != ""), false) == n.body <==> BodyKept(o, n)
  {
    var os, ns := Elems(o.body.kids), Elems(n.body.kids);
    if BodyKey(o) != "" {
      NodeIff(o.body, n.body, false, false);
      assert BodyPatched(o.body, n.body, true) == NodePatched(PrunedNode(o.body, n.body), o.body, n.body);
    } else {
      BareBodyIff(o.body, n.body);
    }
  }

  /** A body without operations of its own: its children are patched in place. */
  lemma BareBodyIff(o: Tag, n: Tag)
    requires CloseNode(n, false) == n && o.tag == n.tag == "body"
    ensures CloseNode(BodyPatched(o, n, false), false) == n <==>
      && o.attrs == n.attrs
      && Close(KeepFirst(Shape(o.kids), |Elems(n.kids)|), false) == Shape(n.kids)
      && KidsKept(Elems(o.kids), Elems(n.kids), false, false)
  {
    var os, ns := Elems(o.kids), Elems(n.kids);
    var kids := Prune(o.kids, ns);
    PruneEnters(o.kids, ns);
    PruneShape(o.kids, ns);
    EnterLen(Elems(kids), os, ns, false);
    CloseElems(n.kids, false);
    KidsIff(Elems(kids), os, ns, false, false);
    BareListIff(kids, os, n.kids);
    var x := KidsPatched(kids, os, ns);
    assert x + [] == x;
  }

  lemma BareListIff(kids: seq<Node>, os: seq<Tag>, g: seq<Node>)
    requires |Elems(kids)| == Shorter(os, Elems(g))
    ensures Close(KidsPatched(kids, os, Elems(g)), false) == g <==>
      && Close(Shape(kids), false) == Shape(g)
      && CloseEach(PatchEach(Elems(kids), os, Elems(g)), false) == Elems(g)[..Shorter(os, Elems(g))]
  {
    var ns, x := Elems(g), KidsPatched(kids, os, Elems(g));
    PatchedKids(kids, os, ns);
    PatchEachLen(Elems(kids), os, ns);
    CloseSplit(x, g, false);
    CloseEachLen(Elems(x), false);
    CloseElems(Shape(kids), false);
    CloseEachLen(Elems(Shape(kids)), false);
    ShapeCount(kids);
    ShapeCount(g);
    if |ns| == Shorter(os, ns) { assert ns[..|ns|] == ns; }
  }

  lemma CollapsedPage(n: Page)
    requires FramedPage(n)
    ensures Collapsed(Soup(n), false) <==> Close(Soup(n), false) == Soup(n)
  {
    MergeParsed(Soup(n));
    CollapseCollapsed(Soup(n), false);
  }

  lemma FramedSilent(o: Page, n: Page)
    requires Comparable(o, n) && SameBody(o, n)
    ensures MainOps(Soup(o), Soup(n)) == [] <==> PageQuiet(o, n)
  {
    FramedOps(o, n);
    UnframedValid(o);
    UnframedValid(n);
    MainSilent(Unframed(o), Unframed(n));
  }

  /** Where the main passes find something and the body keeps its identity. */
  lemma MainCase(o: Page, n: Page)
    requires Comparable(o, n) && SameBody(o, n) && MainOps(Soup(o), Soup(n)) != []
    ensures Applied(Soup(o), MainOps(Soup(o), Soup(n))) == Soup(n) <==> Patchable(o, n)
  {
    var b := BodyPatched(o.body, n.body, BodyKey(o) != "");
    var p := o.(body := b);
    FramedSilent(o, n);
    PageFold(o, n);
    TidySoup(o);
    TidyBody(o, n);
    TidySoup(p);
    Closing(Soup(p)[0]);
    CollapsedPage(n);
    PageSplit(p, n);
    PageSplit(n, n);
    if Close(Soup(p), false) == Soup(n) { CloseTwice(Soup(p), false); }
    if CloseNode(n.body, false) == n.body { BodyIff(o, n); }
  }

  // ---- when the main passes find nothing: the fallback --------------------------------------

  function Count(f: seq<Node>): nat {
    if f == [] then 0 else (if f[0].Elem? then 1 + Count(f[0].kids) else 0) + Count(f[1..])
  }

  lemma {:induction false} CountClosed(f: seq<Node>, pre: bool)
    ensures Count(Merge(f)) == Count(f) && Count(Collapse(f, pre)) == Count(f)
  {
    if f != [] {
      CountClosed(f[1..], pre);
      var r := Merge(f[1..]);
      if f[0].Elem? { CountClosed(f[0].kids, pre || f[0].tag in PRESERVE); }
      assert Collapse(f, pre)[1..] == Collapse(f[1..], pre);
      if f[0].Text? && f[0].text != "" && r != [] && r[0].Text? { assert Merge(f)[1..] == r[1..]; }
      else if f[0] != Text("") { assert Merge(f)[1..] == r; }
    }
  }

  lemma {:induction false} CountReplaced(f: seq<Node>, q: Query, x: string, e: Tag)
    requires Has(f, q) && Tidy(f) && Tidy([e])
    ensures Count(EditFirst(f, q, ReplaceOp(x, [e]))) >= Count([e])
    ensures Tidy(EditFirst(f, q, ReplaceOp(x, [e])))
  {
    var op := ReplaceOp(x, [e]);
    if Hit(f[0], q) {
      assert Edit(op, f[0]) == [e];
      assert (([e] + f[1..])[0] == e && ([e] + f[1..])[1..] == f[1..]);
      TidyAppend([e], f[1..]);
      assert [e][1..] == [];
    } else if f[0].Elem? && Has(f[0].kids, q) {
      CountReplaced(f[0].kids, q, x, e);
    } else {
      CountReplaced(f[1..], q, x, e);
    }
  }

  /** Replacing some element of the old page by the whole new page never gives the new page. */
  lemma FallbackFails(o: Page, n: Page)
    requires Comparable(o, n)
    ensures Applied(Soup(o), [ReplaceOp(FallbackTarget(Soup(o)), Soup(n))]) != Soup(n)
  {
    var x := FallbackTarget(Soup(o));
    var op := ReplaceOp(x, Soup(n));
    var root := Soup(o)[0];
    assert Soup(o)[1..] == [];
    var q := FallbackFound(o, n, x);
    TidySoup(o);
    TidySoup(n);
    CountReplaced(root.kids, q, x, Soup(n)[0]);
    var r := root.(kids := EditFirst(root.kids, q, op));
    assert ApplyOps(Soup(o), [op]) == ApplyOp(Soup(o), op) == [r];
    assert [r][1..] == [] && Tidy([r]);
    Closing(r);
    CountClosed([r], false);
    CountClosed(Merge([r]), false);
  }

  lemma FallbackBelow(o: Page, n: Page, x: string)
    requires Comparable(o, n) && x == FallbackTarget(Soup(o))
    ensures x == "body" || (Own(o, n, x) && Has(o.before + [o.body] + o.after, if x == "dom_0" then D(x) else I(x)))
  {
    BodyFound(o);
    if "dom_0" in MapOf(Soup(o)).entries { DomZero(o, n); }
    else if BodyKey(o) != "" { BodyBelow(o, n); }
  }

  lemma BodyBelow(o: Page, n: Page)
    requires FramedPage(o) && BodyKey(o) != ""
    ensures Own(o, n, BodyKey(o)) && BodyKey(o) != "dom_0"
    ensures Has(o.before + [o.body] + o.after, I(BodyKey(o)))
  {
    HasAppend(o.before + [o.body], o.after, I(BodyKey(o)));
    HasAppend(o.before, [o.body], I(BodyKey(o)));
    BodyNotZero(o);
  }

  lemma BodyNotZero(o: Page)
    requires FramedPage(o)
    ensures Under("dom", "dom_0") && BodyKey(o) != "dom_0"
  {
    assert "dom_0"[..3] == "dom" && "dom_0"[3] == '_';
  }

  /** The fallback's selector resolves, to something below the root. */
  lemma FallbackFound(o: Page, n: Page, x: string) returns (q: Query)
    requires Comparable(o, n) && x == FallbackTarget(Soup(o))
    ensures Has(Soup(o)[0].kids, q) && !Hit(Soup(o)[0], q)
    ensures forall op: Op :: op.selector == x ==> ApplyOp(Soup(o), op) == EditFirst(Soup(o), q, op)
  {
    var kids := o.before + [o.body] + o.after;
    HasAppend(o.before + [o.body], o.after, ByTag("body"));
    HasAppend(o.before, [o.body], ByTag("body"));
    HasOne(Soup(o)[0], D(x));
    HasOne(Soup(o)[0], I(x));
    HasOne(Soup(o)[0], ByTag("body"));
    FallbackBelow(o, n, x);
    assert !Hit(Root(o), D(x)) && !Hit(Root(o), I(x)) by { if x != "body" { assert !FrameNamed(o, x); } }
    q := if Has(kids, D(x)) then D(x) else if Has(kids, I(x)) then I(x) else ByTag("body");
  }

  lemma {:induction false} FindAppend(a: seq<Node>, b: seq<Node>, q: Query)
    requires Has(b, q) && !Has(a, q)
    ensures Has(a + b, q) && Find(a + b, q) == Find(b, q)
  {
    if a == [] { assert a + b == b; }
    else {
      assert (a + b)[0] == a[0] && (a + b)[1..] == a[1..] + b;
      FindAppend(a[1..], b, q);
    }
  }

  lemma BodyFound(o: Page)
    requires FramedPage(o)
    ensures Has(Soup(o), ByTag("body")) && Find(Soup(o), ByTag("body")) == o.body
  {
    var q := ByTag("body");
    var kids := o.before + [o.body] + o.after;
    assert o.before + [o.body] + o.after == o.before + ([o.body] + o.after);
    assert ([o.body] + o.after)[0] == o.body;
    FindAppend(o.before, [o.body] + o.after, q);
    HasOne(Soup(o)[0], q);
  }

  /** The label of the body's first child is listed for that child only. */
  lemma DomZeroIff(o: Page, n: Page)
    requires Comparable(o, n)
    ensures Own(o, n, "dom_0") && Sub("dom", 0) == "dom_0"
    ensures "dom_0" in MapOf(Soup(o)).entries <==> Has(o.body.kids, D("dom_0"))
  {
    assert Dec(0) == "0" && Sub("dom", 0) == "dom_0";
    BodyNotZero(o);
    UnframedMatch(o, o, n, "dom_0");
    UnframedValid(o);
    PageMapBelow(Unframed(o), "dom_0", 0);
  }

  lemma DomZero(o: Page, n: Page)
    requires Comparable(o, n) && "dom_0" in MapOf(Soup(o)).entries
    ensures Own(o, n, "dom_0") && Has(o.before + [o.body] + o.after, D("dom_0"))
  {
    DomZeroIff(o, n);
    HasAppend(o.before + [o.body], o.after, D("dom_0"));
    HasAppend(o.before, [o.body], D("dom_0"));
    HasOne(o.body, D("dom_0"));
  }

  // ---- when the body's id changes: the body is removed --------------------------------------

  lemma {:induction false} NoTarget(f: seq<Node>, ops: seq<Op>)
    requires !Has(f, ByTag("body")) && forall op :: op in ops ==> !Named(f, op.selector)
    ensures ApplyOps(f, ops) == f
    decreases ops
  {
    if ops != [] {
      assert ops[0] in ops;
      NoTarget(f, ops[1..]);
    }
  }

  lemma IdentityOps(o: Page, n: Page)
    requires Comparable(o, n) && !SameBody(o, n)
    ensures var ops := MainOps(Soup(o), Soup(n));
            ops != [] && ops[0] == RemoveOp(BodyKey(o)) && forall op :: op in ops ==> Own(o, n, op.selector)
  {
    FramedOps(o, n);
    UnframedValid(o);
    UnframedValid(n);
    PageMap(Unframed(o));
    PageMap(Unframed(n));
    BodyGoes(Unframed(o), Unframed(n));
    forall op | op in MainOps(Soup(o), Soup(n)) ensures Own(o, n, op.selector) { OwnSelectors(o, n, op); }
  }

  lemma BodyGoes(o: Page, n: Page)
    requires ValidPage(o) && ValidPage(n) && !SameBody(o, n)
    ensures var rs := Removals(PageEntries(o), MapOf(Soup(n)).entries.Keys); rs != [] && rs[0] == RemoveOp(BodyKey(o))
  {
    PageMapBody(n, BodyKey(o));
    assert PageEntries(o)[0] == Entry(BodyKey(o), o.body, None);
  }

  lemma FrameAppend(o: Page, x: string)
    requires !FrameNamed(o, x)
    ensures !Named([Elem("html", o.htmlAttrs, o.before + o.after)], x)
  {
    var bare := Elem("html", o.htmlAttrs, o.before + o.after);
    HasAppend(o.before, o.after, D(x));
    HasAppend(o.before, o.after, I(x));
    HasOne(bare, D(x));
    HasOne(bare, I(x));
  }

  /** Changing or dropping the body's id makes the diff delete the whole body. */
  lemma IdentityLost(o: Page, n: Page)
    requires Comparable(o, n) && !SameBody(o, n)
    ensures MainOps(Soup(o), Soup(n)) != []
    ensures ApplyOps(Soup(o), MainOps(Soup(o), Soup(n))) == [Elem("html", o.htmlAttrs, o.before + o.after)]
    ensures Applied(Soup(o), MainOps(Soup(o), Soup(n))) != Soup(n)
  {
    var bare := Elem("html", o.htmlAttrs, o.before + o.after);
    var ops := MainOps(Soup(o), Soup(n));
    IdentityOps(o, n);
    BodyRemoved(o, n);
    HasAppend(o.before, o.after, ByTag("body"));
    HasOne(bare, ByTag("body"));
    forall op | op in ops[1..] ensures !Named([bare], op.selector) {
      assert op in ops;
      FrameAppend(o, op.selector);
    }
    NoTarget([bare], ops[1..]);
    BareDiffers(o, n);
  }

  lemma BareDiffers(o: Page, n: Page)
    requires FramedPage(o) && FramedPage(n)
    ensures var bare := Elem("html", o.htmlAttrs, o.before + o.after);
            Merge(Normalized(Merge([bare]), false)) != Soup(n)
  {
    var bare := Elem("html", o.htmlAttrs, o.before + o.after);
    assert [bare][1..] == [];
    TidySoup(o);
    TidyAppend(o.before, o.after);
    Closing(bare);
    HasAppend(o.before, o.after, ByTag("body"));
    HasOne(bare, ByTag("body"));
    NoBodyClosed([bare], false);
    BodyFound(n);
  }

  lemma BodyRemoved(o: Page, n: Page)
    requires Comparable(o, n) && BodyKey(o) != ""
    ensures ApplyOp(Soup(o), RemoveOp(BodyKey(o))) == [Elem("html", o.htmlAttrs, o.before + o.after)]
  {
    var op := RemoveOp(BodyKey(o));
    assert Own(o, n, op.selector) && !FrameNamed(o, op.selector);
    BodyDeleted(o, op);
    FrameFold(o, [op]);
    OneOp(Soup(o), op);
    Unit(o.before);
  }

  lemma OneOp(f: seq<Node>, op: Op)
    ensures ApplyOps(f, [op]) == ApplyOp(f, op)
  {
    assert [op][1..] == [];
  }

  lemma BodyDeleted(o: Page, op: Op)
    requires FramedPage(o) && BodyKey(o) != "" && op == RemoveOp(BodyKey(o))
    ensures ApplyOps([o.body], [op]) == [] && FoundAny([o.body], [op])
  {
    OutsideLabels(o.body.kids, BodyKey(o));
    AnchoredEdit(o.body, op, false);
    OneOp([o.body], op);
  }

  // ---- the main theorem ---------------------------------------------------------------------

  lemma SoupInjective(o: Page, n: Page)
    requires FramedPage(o) && FramedPage(n)
    ensures Soup(o) == Soup(n) <==> o == n
  {
    if Soup(o) == Soup(n) {
      assert Soup(o)[0].kids == Soup(n)[0].kids;
      BodySplit(o.before, o.body, o.after, n.before, n.body, n.after);
    }
  }

  /** The differ's contract: for every two comparable pages, replaying the computed diff
      gives the new page if and only if the pages are equal or Patchable. */
  lemma PatchContract(o: Page, n: Page)
    requires Comparable(o, n)
    ensures Applied(Soup(o), Diff(Soup(o), Soup(n))) == Soup(n) <==> o == n || Patchable(o, n)
  {
    SoupInjective(o, n);
    if o != n {
      if !SameBody(o, n) {
        IdentityLost(o, n);
      } else {
        FramedSilent(o, n);
        if MainOps(Soup(o), Soup(n)) == [] { FallbackFails(o, n); } else { MainCase(o, n); }
      }
    }
  }

  /** Which covers all pages without keys outside their bodies. */
  lemma PlainContract(o: Page, n: Page)
    requires ValidPage(o) && ValidPage(n)
    ensures Applied(Soup(o), Diff(Soup(o), Soup(n))) == Soup(n) <==> o == n || Patchable(o, n)
  {
    PlainComparable(o, n);
    PatchContract(o, n);
  }
}
