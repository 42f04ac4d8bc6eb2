/** Exactly when replaying a computed diff reproduces the new page. */
module Contract {
  import opened Strings
  import opened Dom
  import opened Pipeline
  import opened Differ
  import opened Replay
  import opened Flat
  import opened Patch

  // ---- the closing normalisation -------------------------------------------------------

  /** What apply_diff's closing render, parse and normalise does to a tidy tree. */
  function Close(f: seq<Node>, pre: bool): seq<Node> {
    Collapse(Merge(f), pre)
  }

  function CloseNode(e: Tag, pre: bool): Tag {
    e.(kids := Close(e.kids, pre || e.tag in PRESERVE))
  }

  function CloseEach(es: seq<Tag>, pre: bool): seq<Tag> {
    if es == [] then [] else [CloseNode(es[0], pre)] + CloseEach(es[1..], pre)
  }

  const HOLE: Tag := Elem("", map[], [])

  /** The text layout of a child list: its elements are reduced to placeholders. */
  function Shape(f: seq<Node>): seq<Node> {
    if f == [] then [] else [if f[0].Elem? then HOLE else f[0]] + Shape(f[1..])
  }

  function Holes(n: nat): seq<Node> {
    if n == 0 then [] else [HOLE] + Holes(n - 1)
  }

  lemma {:induction false} Recompose(a: seq<Node>, b: seq<Node>)
    ensures a == b <==> Shape(a) == Shape(b) && Elems(a) == Elems(b)
  {
    if a != [] && b != [] {
      Recompose(a[1..], b[1..]);
      assert a == [a[0]] + a[1..] && b == [b[0]] + b[1..];
      assert Shape(a)[1..] == Shape(a[1..]) && Shape(b)[1..] == Shape(b[1..]);
      if a[0].Elem? && b[0].Elem? { assert Elems(a)[1..] == Elems(a[1..]) && Elems(b)[1..] == Elems(b[1..]); }
      if Shape(a) == Shape(b) {
        assert Shape(a)[0] == Shape(b)[0];
        if a[0].Elem? && Elems(a) == Elems(b) { assert Elems(a)[0] == Elems(b)[0]; }
      }
    }
  }

  lemma {:induction false} ShapeAppend(a: seq<Node>, b: seq<Node>)
    ensures Shape(a + b) == Shape(a) + Shape(b)
  {
    if a == [] { assert a + b == b; }
    else {
      assert (a + b)[0] == a[0] && (a + b)[1..] == a[1..] + b;
      ShapeAppend(a[1..], b);
    }
  }

  lemma {:induction false} ShapeOfElems(es: seq<Tag>)
    ensures Shape(es) == Holes(|es|) && Elems(es) == es
  {
    if es != [] { ShapeOfElems(es[1..]); }
  }

  lemma {:induction false} ShapeCount(f: seq<Node>)
    ensures |Elems(Shape(f))| == |Elems(f)|
  {
    if f != [] { ShapeCount(f[1..]); assert Shape(f)[1..] == Shape(f[1..]); }
  }

  // closing acts on the layout and on each element separately

  lemma {:induction false} CloseShape(f: seq<Node>, pre: bool)
    ensures Shape(Merge(f)) == Merge(Shape(f))
    ensures Shape(Collapse(f, pre)) == Collapse(Shape(f), pre)
  {
    if f != [] {
      CloseShape(f[1..], pre);
      assert Shape(f)[0] == if f[0].Elem? then HOLE else f[0];
      assert Shape(f)[1..] == Shape(f[1..]);
      var r := Merge(f[1..]);
      if f[0].Text? && f[0].text != "" {
        if r != [] {
          assert Shape(r)[0] == (if r[0].Elem? then HOLE else r[0]) && Shape(r)[1..] == Shape(r[1..]);
          if r[0].Text? { assert Merge(f)[1..] == r[1..]; } else { assert Merge(f)[1..] == r; }
        } else {
          assert Merge(f)[1..] == r;
        }
      } else if f[0] != Text("") {
        assert Merge(f)[1..] == r;
        assert Merge(HOLE.kids) == [];
      }
      assert Collapse(f, pre)[1..] == Collapse(f[1..], pre);
      assert Collapse(HOLE.kids, pre) == [];
    }
  }

  lemma CloseLayout(f: seq<Node>, pre: bool)
    ensures Shape(Close(f, pre)) == Close(Shape(f), pre)
  {
    CloseShape(f, pre);
    CloseShape(Merge(f), pre);
  }

  function MergeEach(es: seq<Tag>): seq<Tag> {
    if es == [] then [] else [es[0].(kids := Merge(es[0].kids))] + MergeEach(es[1..])
  }

  lemma {:induction false} MergeElems(f: seq<Node>)
    ensures Elems(Merge(f)) == MergeEach(Elems(f))
  {
    if f != [] {
      MergeElems(f[1..]);
      var r := Merge(f[1..]);
      if f[0].Text? && f[0].text != "" && r != [] && r[0].Text? { assert Merge(f)[1..] == r[1..]; }
      else if f[0] != Text("") { assert Merge(f)[1..] == r; }
    }
  }

  lemma {:induction false} CollapseElems(f: seq<Node>, pre: bool, es: seq<Tag>)
    requires Elems(f) == MergeEach(es)
    ensures Elems(Collapse(f, pre)) == CloseEach(es, pre)
  {
    if f == [] {
      assert es == [];
    } else {
      assert Collapse(f, pre)[1..] == Collapse(f[1..], pre);
      if f[0].Elem? {
        assert es != [];
        assert Elems(f)[0] == f[0] && Elems(f)[1..] == Elems(f[1..]);
        assert MergeEach(es)[1..] == MergeEach(es[1..]);
        CollapseElems(f[1..], pre, es[1..]);
      } else {
        CollapseElems(f[1..], pre, es);
      }
    }
  }

  lemma CloseElems(f: seq<Node>, pre: bool)
    ensures Elems(Close(f, pre)) == CloseEach(Elems(f), pre)
  {
    MergeElems(f);
    CollapseElems(Merge(f), pre, Elems(f));
  }

  /** Whether a closed child list is the wanted one splits into layout and elements. */
  lemma CloseSplit(f: seq<Node>, g: seq<Node>, pre: bool)
    ensures Close(f, pre) == g <==> Close(Shape(f), pre) == Shape(g) && CloseEach(Elems(f), pre) == Elems(g)
  {
    CloseLayout(f, pre);
    CloseElems(f, pre);
    Recompose(Close(f, pre), g);
  }

  lemma {:induction false} CloseEachAppend(a: seq<Tag>, b: seq<Tag>, pre: bool)
    ensures CloseEach(a + b, pre) == CloseEach(a, pre) + CloseEach(b, pre)
  {
    if a == [] { assert a + b == b; }
    else {
      assert (a + b)[0] == a[0] && (a + b)[1..] == a[1..] + b;
      CloseEachAppend(a[1..], b, pre);
    }
  }

  lemma {:induction false} CloseEachLen(a: seq<Tag>, pre: bool)
    ensures |CloseEach(a, pre)| == |a|
  {
    if a != [] { CloseEachLen(a[1..], pre); }
  }

  // ---- the condition, tag by tag ----------------------------------------------------------

  /** No attribute has to be set to the empty string, which would delete it instead. */
  predicate AttrsKept(oa: map<Name, string>, na: map<Name, string>) {
    forall a :: a in na && (a !in oa || oa[a] != na[a]) ==> na[a] != ""
  }

  function KeepFirst(shape: seq<Node>, n: nat): seq<Node> {
    if shape == [] then []
    else if !shape[0].Elem? then [shape[0]] + KeepFirst(shape[1..], n)
    else if n == 0 then KeepFirst(shape[1..], n)
    else [shape[0]] + KeepFirst(shape[1..], n - 1)
  }

  function Missing(os: seq<Tag>, ns: seq<Tag>): nat {
    if |os| < |ns| then |ns| - |os| else 0
  }

  /** The text around the children comes out right. With a text operation: the stripped
      text, then the elements. Without: the old text stays, minus removed elements, plus
      added ones at the end; or, inside an element already replaced by its new version
      (`replaced`), nothing may be added a second time. */
  predicate LayoutKept(o: Tag, n: Tag, replaced: bool, pre: bool) {
    var os, ns := Elems(o.kids), Elems(n.kids);
    if TextChanged(o, n) then Close([Text(DirectText(n))] + Holes(|ns|), pre) == Shape(n.kids)
    else if replaced then |ns| <= |os|
    else Close(KeepFirst(Shape(o.kids), |ns|) + Holes(Missing(os, ns)), pre) == Shape(n.kids)
  }

  predicate NodeKept(o: Tag, n: Tag, replaced: bool, pre: bool)
    decreases 1 + Size(n.kids), 0
  {
    var os, ns, pre' := Elems(o.kids), Elems(n.kids), pre || n.tag in PRESERVE;
    if o.tag != n.tag then |ns| <= |os| && KidsKept(os, ns, true, pre')
    else AttrsKept(o.attrs, n.attrs) && LayoutKept(o, n, replaced, pre') && KidsKept(os, ns, replaced, pre')
  }

  predicate KidsKept(os: seq<Tag>, ns: seq<Tag>, replaced: bool, pre: bool)
    decreases Size(ns), 1
  {
    os != [] && ns != [] ==> NodeKept(os[0], ns[0], replaced, pre) && KidsKept(os[1..], ns[1..], replaced, pre)
  }

  lemma AttrsIff(oa: map<Name, string>, na: map<Name, string>)
    ensures AttrsPatched(oa, na) == na <==> AttrsKept(oa, na)
  {
    var r := AttrsPatched(oa, na);
    if r == na {
      forall a | a in na && (a !in oa || oa[a] != na[a]) ensures na[a] != "" { assert a in r; }
    }
  }

  // ---- shape and elements of a patched child list -------------------------------------------

  function PatchEach(es: seq<Tag>, os: seq<Tag>, ns: seq<Tag>): seq<Tag> {
    if es == [] || os == [] || ns == [] then es
    else [NodePatched(es[0], os[0], ns[0])] + PatchEach(es[1..], os[1..], ns[1..])
  }

  lemma {:induction false} PatchedKids(kids: seq<Node>, os: seq<Tag>, ns: seq<Tag>)
    ensures Shape(KidsPatched(kids, os, ns)) == Shape(kids)
    ensures Elems(KidsPatched(kids, os, ns)) == PatchEach(Elems(kids), os, ns)
    decreases |kids|
  {
    if kids != [] && os != [] && ns != [] {
      var r := KidsPatched(kids, os, ns);
      if !kids[0].Elem? {
        PatchedKids(kids[1..], os, ns);
        assert r[1..] == KidsPatched(kids[1..], os, ns);
      } else {
        PatchedKids(kids[1..], os[1..], ns[1..]);
        assert r[1..] == KidsPatched(kids[1..], os[1..], ns[1..]);
        assert Elems(kids)[1..] == Elems(kids[1..]);
      }
    }
  }

  lemma {:induction false} PruneShape(kids: seq<Node>, ns: seq<Tag>)
    ensures Shape(Prune(kids, ns)) == KeepFirst(Shape(kids), |ns|)
  {
    if kids != [] {
      assert Shape(kids)[1..] == Shape(kids[1..]);
      if !kids[0].Elem? {
        PruneShape(kids[1..], ns);
        assert Prune(kids, ns)[1..] == Prune(kids[1..], ns);
      } else if ns == [] {
        PruneShape(kids[1..], ns);
      } else {
        PruneShape(kids[1..], ns[1..]);
        assert Prune(kids, ns)[1..] == Prune(kids[1..], ns[1..]);
      }
    }
  }

  lemma {:induction false} PatchEachLen(es: seq<Tag>, os: seq<Tag>, ns: seq<Tag>)
    ensures |PatchEach(es, os, ns)| == |es|
  {
    if es != [] && os != [] && ns != [] { PatchEachLen(es[1..], os[1..], ns[1..]); }
  }

  // ---- the equivalence --------------------------------------------------------------------------

  function Entering(o: Tag, n: Tag, replaced: bool): Tag {
    if replaced then n else PrunedNode(o, n)
  }

  /** `es` lists the first min(|os|, |ns|) subtrees as they enter the change pass. */
  predicate EnterEach(es: seq<Tag>, os: seq<Tag>, ns: seq<Tag>, replaced: bool) {
    if os == [] || ns == [] then es == []
    else es != [] && es[0] == Entering(os[0], ns[0], replaced) && EnterEach(es[1..], os[1..], ns[1..], replaced)
  }

  function Shorter(os: seq<Tag>, ns: seq<Tag>): nat {
    if |os| < |ns| then |os| else |ns|
  }

  lemma {:induction false} PruneEnters(kids: seq<Node>, ns: seq<Tag>)
    ensures EnterEach(Elems(Prune(kids, ns)), Elems(kids), ns, false)
  {
    if kids != [] {
      if !kids[0].Elem? {
        PruneEnters(kids[1..], ns);
        assert Prune(kids, ns)[1..] == Prune(kids[1..], ns);
      } else if ns == [] {
        PruneAll(kids);
      } else {
        PruneEnters(kids[1..], ns[1..]);
        assert Prune(kids, ns)[1..] == Prune(kids[1..], ns[1..]);
        var es := Elems(Prune(kids, ns));
        assert es[0] == PrunedNode(kids[0], ns[0]) && es[1..] == Elems(Prune(kids[1..], ns[1..]));
        assert Elems(kids)[0] == kids[0] && Elems(kids)[1..] == Elems(kids[1..]);
      }
    }
  }

  lemma {:induction false} VerbatimEnters(os: seq<Tag>, ns: seq<Tag>)
    requires |ns| <= |os|
    ensures EnterEach(ns, os, ns, true)
  {
    if ns != [] { VerbatimEnters(os[1..], ns[1..]); }
  }

  lemma {:induction false} EnterLen(es: seq<Tag>, os: seq<Tag>, ns: seq<Tag>, replaced: bool)
    requires EnterEach(es, os, ns, replaced)
    ensures |es| == Shorter(os, ns)
  {
    if os != [] && ns != [] { EnterLen(es[1..], os[1..], ns[1..], replaced); }
  }

  /** A patched child list closes to the new one iff its layout and its shared elements do. */
  lemma ListIff(kids: seq<Node>, os: seq<Tag>, g: seq<Node>, pre: bool)
    requires Close(g, pre) == g && |Elems(kids)| == Shorter(os, Elems(g))
    ensures Close(KidsPatched(kids, os, Elems(g)) + Extra(os, Elems(g)), pre) == g <==>
            Close(Shape(kids) + Holes(Missing(os, Elems(g))), pre) == Shape(g)
            && CloseEach(PatchEach(Elems(kids), os, Elems(g)), pre) == Elems(g)[..Shorter(os, Elems(g))]
  {
    var ns := Elems(g);
    var head, tail := PatchEach(Elems(kids), os, ns), Extra(os, ns);
    var x := KidsPatched(kids, os, ns) + tail;
    var m := Shorter(os, ns);
    PatchedKids(kids, os, ns);
    ShapeAppend(KidsPatched(kids, os, ns), tail);
    ElemsAppend(KidsPatched(kids, os, ns), tail);
    ShapeOfElems(tail);
    assert Shape(x) == Shape(kids) + Holes(Missing(os, ns)) && Elems(x) == head + tail;
    CloseSplit(x, g, pre);
    CloseEachAppend(head, tail, pre);
    CloseElems(g, pre);
    CloseTail(ns, m, pre);
    PatchEachLen(Elems(kids), os, ns);
    CloseEachLen(head, pre);
    assert tail == ns[m..];
    PrefixIff(CloseEach(head, pre), ns, m);
  }

  lemma PrefixIff(head: seq<Tag>, ns: seq<Tag>, m: nat)
    requires |head| == m <= |ns|
    ensures head + ns[m..] == ns <==> head == ns[..m]
  {
    assert ns == ns[..m] + ns[m..];
    if head + ns[m..] == ns { assert (head + ns[m..])[..m] == head; }
  }

  lemma {:induction false} CloseTail(ns: seq<Tag>, m: nat, pre: bool)
    requires CloseEach(ns, pre) == ns && m <= |ns|
    ensures CloseEach(ns[m..], pre) == ns[m..]
  {
    if m > 0 {
      assert CloseEach(ns, pre)[1..] == CloseEach(ns[1..], pre);
      CloseTail(ns[1..], m - 1, pre);
      assert ns[m..] == ns[1..][m - 1..];
    }
  }

  /** Children added next to a verbatim copy of themselves are there twice. */
  lemma Duplicated(os: seq<Tag>, g: seq<Node>, pre: bool)
    requires |Elems(g)| > |os|
    ensures Close(KidsPatched(g, os, Elems(g)) + Extra(os, Elems(g)), pre) != g
  {
    var ns := Elems(g);
    var x := KidsPatched(g, os, ns) + Extra(os, ns);
    PatchedKids(g, os, ns);
    PatchEachLen(ns, os, ns);
    ElemsAppend(KidsPatched(g, os, ns), Extra(os, ns));
    ElemsId(Extra(os, ns));
    CloseElems(x, pre);
    CloseEachLen(Elems(x), pre);
  }

  // The three ways an element's children come about.

  lemma TextIff(o: Tag, n: Tag, replaced: bool, pre: bool)
    requires CloseNode(n, pre) == n && o.tag == n.tag && TextChanged(o, n)
    ensures CloseNode(NodePatched(Entering(o, n, replaced), o, n), pre) == n <==> NodeKept(o, n, replaced, pre)
  {
    TextListIff(o, n, pre || n.tag in PRESERVE);
    AttrsIff(o.attrs, n.attrs);
    TextPatched(Entering(o, n, replaced), o, n);
    TextKept(o, n, replaced, pre);
  }

  lemma TextPatched(s: Tag, o: Tag, n: Tag)
    requires s.tag == o.tag == n.tag && TextChanged(o, n)
    ensures var r, b := NodePatched(s, o, n), [Text(DirectText(n))];
            && r.tag == n.tag && r.attrs == AttrsPatched(o.attrs, n.attrs)
            && r.kids == KidsPatched(b, Elems(o.kids), Elems(n.kids)) + Extra(Elems(o.kids), Elems(n.kids))
  {
  }

  lemma TextKept(o: Tag, n: Tag, replaced: bool, pre: bool)
    requires o.tag == n.tag && TextChanged(o, n)
    ensures NodeKept(o, n, replaced, pre) <==>
      && AttrsKept(o.attrs, n.attrs)
      && Close([Text(DirectText(n))] + Holes(Missing(Elems(o.kids), Elems(n.kids))), pre || n.tag in PRESERVE)
         == Shape(n.kids)
  {
    assert Elems(o.kids) == [] || Elems(n.kids) == [];
  }

  lemma TextListIff(o: Tag, n: Tag, pre: bool)
    requires Close(n.kids, pre) == n.kids && TextChanged(o, n)
    ensures var os, ns, b := Elems(o.kids), Elems(n.kids), [Text(DirectText(n))];
            Close(KidsPatched(b, os, ns) + Extra(os, ns), pre) == n.kids <==>
            Close(b + Holes(Missing(os, ns)), pre) == Shape(n.kids)
  {
    var b := [Text(DirectText(n))];
    CloseElems(n.kids, pre);
    assert b[1..] == [] && Elems(b) == [] && Shape(b) == b;
    ListIff(b, Elems(o.kids), n.kids, pre);
    assert Elems(n.kids)[..0] == [];
  }

  lemma PrunedIff(o: Tag, n: Tag, pre: bool)
    requires CloseNode(n, pre) == n && o.tag == n.tag && !TextChanged(o, n)
    requires var os, ns, pre' := Elems(o.kids), Elems(n.kids), pre || n.tag in PRESERVE;
             CloseEach(PatchEach(Elems(Prune(o.kids, ns)), os, ns), pre') == ns[..Shorter(os, ns)]
             <==> KidsKept(os, ns, false, pre')
    ensures CloseNode(NodePatched(Entering(o, n, false), o, n), pre) == n <==> NodeKept(o, n, false, pre)
  {
    var os, ns, pre' := Elems(o.kids), Elems(n.kids), pre || n.tag in PRESERVE;
    CloseElems(n.kids, pre');
    AttrsIff(o.attrs, n.attrs);
    PruneEnters(o.kids, ns);
    PruneShape(o.kids, ns);
    EnterLen(Elems(Prune(o.kids, ns)), os, ns, false);
    ListIff(Prune(o.kids, ns), os, n.kids, pre');
  }

  lemma VerbatimIff(o: Tag, n: Tag, replaced: bool, pre: bool)
    requires CloseNode(n, pre) == n && (o.tag == n.tag ==> replaced && !TextChanged(o, n))
    requires var os, ns, pre' := Elems(o.kids), Elems(n.kids), pre || n.tag in PRESERVE;
             |ns| <= |os| ==>
               (CloseEach(PatchEach(ns, os, ns), pre') == ns[..Shorter(os, ns)] <==> KidsKept(os, ns, true, pre'))
    ensures CloseNode(NodePatched(Entering(o, n, replaced), o, n), pre) == n <==> NodeKept(o, n, replaced, pre)
  {
    var os, ns, pre' := Elems(o.kids), Elems(n.kids), pre || n.tag in PRESERVE;
    CloseElems(n.kids, pre');
    AttrsIff(o.attrs, n.attrs);
    if |ns| > |os| {
      Duplicated(os, n.kids, pre');
    } else {
      ListIff(n.kids, os, n.kids, pre');
      CloseLayout(n.kids, pre');
      assert Shape(n.kids) + Holes(0) == Shape(n.kids);
    }
  }

  lemma {:induction false} NodeIff(o: Tag, n: Tag, replaced: bool, pre: bool)
    requires CloseNode(n, pre) == n
    ensures CloseNode(NodePatched(Entering(o, n, replaced), o, n), pre) == n <==> NodeKept(o, n, replaced, pre)
    decreases 1 + Size(n.kids), 0
  {
    var os, ns, pre' := Elems(o.kids), Elems(n.kids), pre || n.tag in PRESERVE;
    CloseElems(n.kids, pre');
    if o.tag == n.tag && TextChanged(o, n) {
      TextIff(o, n, replaced, pre);
    } else if o.tag == n.tag && !replaced {
      PruneEnters(o.kids, ns);
      KidsIff(Elems(Prune(o.kids, ns)), os, ns, false, pre');
      PrunedIff(o, n, pre);
    } else {
      if |ns| <= |os| {
        VerbatimEnters(os, ns);
        KidsIff(ns, os, ns, true, pre');
      }
      VerbatimIff(o, n, replaced, pre);
    }
  }

  lemma HeadTail(c: seq<Tag>, ns: seq<Tag>, m: nat)
    requires c != [] && 0 < m <= |ns|
    ensures c == ns[..m] <==> c[0] == ns[0] && c[1..] == ns[1..][..m - 1]
  {
    assert ns[..m] == [ns[0]] + ns[1..][..m - 1] && c == [c[0]] + c[1..];
  }

  lemma {:induction false} KidsIff(es: seq<Tag>, os: seq<Tag>, ns: seq<Tag>, replaced: bool, pre: bool)
    requires EnterEach(es, os, ns, replaced) && CloseEach(ns, pre) == ns
    ensures CloseEach(PatchEach(es, os, ns), pre) == ns[..Shorter(os, ns)] <==> KidsKept(os, ns, replaced, pre)
    decreases Size(ns), 1
  {
    if os == [] || ns == [] {
      assert ns[..0] == [];
    } else {
      CloseEachHead(ns, pre);
      NodeIff(os[0], ns[0], replaced, pre);
      KidsIff(es[1..], os[1..], ns[1..], replaced, pre);
      PatchEachHead(es, os, ns, pre);
      HeadTail(CloseEach(PatchEach(es, os, ns), pre), ns, Shorter(os, ns));
    }
  }

  lemma CloseEachHead(ns: seq<Tag>, pre: bool)
    requires ns != []
    ensures CloseEach(ns, pre) != []
    ensures CloseEach(ns, pre)[0] == CloseNode(ns[0], pre) && CloseEach(ns, pre)[1..] == CloseEach(ns[1..], pre)
  {
  }

  lemma PatchEachHead(es: seq<Tag>, os: seq<Tag>, ns: seq<Tag>, pre: bool)
    requires es != [] && os != [] && ns != []
    ensures var c := CloseEach(PatchEach(es, os, ns), pre);
            && c != [] && c[0] == CloseNode(NodePatched(es[0], os[0], ns[0]), pre)
            && c[1..] == CloseEach(PatchEach(es[1..], os[1..], ns[1..]), pre)
  {
    assert PatchEach(es, os, ns)[1..] == PatchEach(es[1..], os[1..], ns[1..]);
    CloseEachHead(PatchEach(es, os, ns), pre);
  }
}
