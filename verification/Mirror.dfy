/** The published document's element tree is the live one without the stripped tags, so
    selectors computed on the mirror work on the live page. */
module Mirror {
  import opened Strings
  import opened Dom
  import opened Pipeline
  import Publish
  import Selector

  /** A parser reads tags in lower case. */
  predicate LowerTags(f: seq<Node>) {
    f != [] ==> (f[0].Elem? ==> Lower(f[0].tag) == f[0].tag && LowerTags(f[0].kids)) && LowerTags(f[1..])
  }

  lemma {:induction false} LowerSkeleton(f: seq<Node>, es: seq<Selector.E>)
    requires Selector.Skeleton(f) == Selector.LoweredEach(es)
    ensures LowerTags(f)
    decreases f
  {
    if f != [] {
      if f[0].Elem? {
        Selector.LowerTwice(es[0].name);
        assert Selector.Skeleton(f)[0] == Selector.Lowered(es[0]);
        assert Selector.Skeleton(f)[1..] == Selector.Skeleton(f[1..]) == Selector.LoweredEach(es[1..]);
        LowerSkeleton(f[0].kids, es[0].kids);
        LowerSkeleton(f[1..], es[1..]);
      } else {
        LowerSkeleton(f[1..], es);
      }
    }
  }

  lemma {:induction false} CookedSkeleton(f: seq<Node>, pre: bool)
    requires LowerTags(f)
    ensures Selector.Skeleton(Publish.Cooked(f, pre)) == Selector.StripEach(Selector.Skeleton(f))
  {
    if f != [] {
      Publish.CookedHead(f, pre);
      CookedSkeleton(f[1..], pre);
      var head := Publish.Cooked([f[0]], pre);
      SkeletonAppend(head, Publish.Cooked(f[1..], pre));
      if f[0].Elem? { assert Selector.Skeleton(f)[1..] == Selector.Skeleton(f[1..]); }
      if f[0].Elem? && f[0].tag !in STRIPPED {
        Publish.CookedElem(f[0], pre);
        CookedSkeleton(f[0].kids, pre || f[0].tag in PRESERVE);
        Publish.CleanKeys(f[0].attrs);
        assert head[1..] == [];
      } else if head != [] {
        assert head[0] in head && head[1..] == [];
      }
    }
  }

  lemma {:induction false} SkeletonAppend(a: seq<Node>, b: seq<Node>)
    ensures Selector.Skeleton(a + b) == Selector.Skeleton(a) + Selector.Skeleton(b)
  {
    if a == [] { assert a + b == b; }
    else {
      assert (a + b)[0] == a[0] && (a + b)[1..] == a[1..] + b;
      SkeletonAppend(a[1..], b);
    }
  }

  lemma {:induction false} LabelSkeleton(f: seq<Node>, p: string, j: nat)
    ensures Selector.Skeleton(Label(f, p, j)) == Selector.Skeleton(f)
  {
    if f != [] {
      LabelSkeleton(f[1..], p, if f[0].Elem? then j + 1 else j);
      if f[0].Elem? { LabelSkeleton(f[0].kids, Sub(p, j), 0); }
    }
  }

  lemma {:induction false} LabelBodySkeleton(f: seq<Node>)
    requires Has(f, ByTag("body"))
    ensures Selector.Skeleton(LabelBody(f)) == Selector.Skeleton(f)
  {
    if Hit(f[0], ByTag("body")) { LabelSkeleton(f[0].kids, "dom", 0); }
    else if f[0].Elem? && Has(f[0].kids, ByTag("body")) { LabelBodySkeleton(f[0].kids); }
    else { LabelBodySkeleton(f[1..]); }
  }

  lemma {:induction false} MergeSkeleton(f: seq<Node>)
    ensures Selector.Skeleton(Merge(f)) == Selector.Skeleton(f)
  {
    if f != [] {
      MergeSkeleton(f[1..]);
      var r := Merge(f[1..]);
      if f[0].Elem? { MergeSkeleton(f[0].kids); }
      if f[0].Text? && f[0].text != "" && r != [] && r[0].Text? { assert Merge(f)[1..] == r[1..]; }
      else if f[0] != Text("") { assert Merge(f)[1..] == r; }
    }
  }

  /** What survives normalisation, in which order and nesting, with which tags and ids. */
  lemma PublishedSkeleton(f: seq<Node>)
    requires !Blank(f) && LowerTags(f)
    ensures Selector.Skeleton(Published(f)) == Selector.StripEach(Selector.Skeleton(f))
  {
    var g := Publish.Cooked(f, false);
    CookedSkeleton(f, false);
    if Has(g, ByTag("body")) { LabelBodySkeleton(g); } else { LabelSkeleton(g, "dom", 0); }
    MergeSkeleton(LabelSoup(g));
  }

  /** End to end: the source of a live page is parsed and published; pick an element of the
      mirror, compute its selector there, and resolve it on the live page. It finds the live
      element if and only if that is addressable. */
  lemma SelectorsLand(live: Selector.E, page: Tag, p: Selector.Path)
    requires Selector.WellFormed(live) && page.tag !in STRIPPED
    requires Selector.Skeleton([page]) == [Selector.Lowered(live)]
    requires Selector.Skeleton(Published([page])) != [] && Selector.Valid(Selector.Skeleton(Published([page]))[0], p)
    ensures var mirror := Selector.Skeleton(Published([page]))[0];
            && mirror == Selector.Lowered(Selector.StripOne(live))
            && Selector.Valid(Selector.StripOne(live), p) && Selector.Valid(live, Selector.LivePath(live, p))
            && Selector.SelectorOf(mirror, p) != []
            && (Selector.Query(live, [], Selector.SelectorOf(mirror, p)) == Some(Selector.LivePath(live, p))
                <==> Selector.Addressable(live, Selector.LivePath(live, p)))
  {
    var stripped := Selector.StripOne(live);
    assert page in [page] && !Blank([page]) && [page][1..] == [];
    assert Selector.LoweredEach([live]) == [Selector.Lowered(live)] + Selector.LoweredEach([live][1..]);
    LowerSkeleton([page], [live]);
    PublishedSkeleton([page]);
    Selector.LoweredStrips(live.kids);
    Selector.LowerTwice(live.name);
    assert [Selector.Lowered(live)][1..] == [];
    assert Selector.Skeleton(Published([page])) == [Selector.Lowered(stripped)];
    Selector.LoweredAt(stripped, p);
    Selector.LoweredSelector(stripped, p);
    Selector.MirrorToLive(live, p);
  }
}
