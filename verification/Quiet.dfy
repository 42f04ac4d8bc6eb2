/** When the main passes of compute_diff find nothing, read off the two trees. */
module Quiet {
  import opened Strings
  import opened Dom
  import opened Differ
  import opened Replay
  import opened Patch

  /** Same tag and attributes, no change of text that is looked at, and children alike. */
  predicate NodeQuiet(o: Tag, n: Tag)
    decreases 1 + Size(n.kids), 0
  {
    && o.tag == n.tag && o.attrs == n.attrs && !TextChanged(o, n)
    && |Elems(o.kids)| == |Elems(n.kids)| && SharedQuiet(Elems(o.kids), Elems(n.kids))
  }

  /** As far as both lists go. */
  predicate SharedQuiet(os: seq<Tag>, ns: seq<Tag>)
    decreases Size(ns), 1
  {
    os != [] && ns != [] ==> NodeQuiet(os[0], ns[0]) && SharedQuiet(os[1..], ns[1..])
  }

  /** A body without an id is not looked at itself, and what it gains is not noticed. */
  predicate PageQuiet(o: Page, n: Page) {
    var os, ns := Elems(o.body.kids), Elems(n.body.kids);
    && |os| <= |ns| && SharedQuiet(os, ns)
    && (BodyKey(o) != "" ==> o.body.attrs == n.body.attrs && !TextChanged(o.body, n.body) && |ns| <= |os|)
  }

  lemma {:induction false} SetQuiet(k: string, oa: map<Name, string>, na: map<Name, string>, names: seq<Name>)
    requires forall a :: a in names ==> a in na
    ensures SetAttrOps(k, oa, na, names) == [] <==> forall a :: a in names ==> a in oa && oa[a] == na[a]
  {
    if names != [] {
      SetQuiet(k, oa, na, names[1..]);
      assert names[0] in names && forall a :: a in names <==> a == names[0] || a in names[1..];
    }
  }

  lemma {:induction false} DelQuiet(k: string, na: map<Name, string>, names: seq<Name>)
    ensures DelAttrOps(k, na, names) == [] <==> forall a :: a in names ==> a in na
  {
    if names != [] {
      DelQuiet(k, na, names[1..]);
      assert names[0] in names && forall a :: a in names <==> a == names[0] || a in names[1..];
    }
  }

  lemma SelfQuiet(k: string, o: Tag, n: Tag)
    ensures SelfOps(k, o, n) == [] <==> o.attrs == n.attrs && !TextChanged(o, n)
  {
    SetQuiet(k, o.attrs, n.attrs, Names(n.attrs));
    DelQuiet(k, n.attrs, Names(o.attrs));
  }

  lemma {:induction false} NodeSilent(o: Tag, n: Tag, k: string)
    ensures NodeChanges(o, n, k) == [] && KidRemovals(Elems(o.kids), Elems(n.kids), k, 0) == [] <==> NodeQuiet(o, n)
    decreases 1 + Size(n.kids), 0
  {
    SelfQuiet(k, o, n);
    KidsSilent(Elems(o.kids), Elems(n.kids), k, 0);
  }

  lemma {:induction false} KidsSilent(os: seq<Tag>, ns: seq<Tag>, p: string, j: nat)
    ensures SharedChanges(os, ns, p, j) == [] && KidRemovals(os, ns, p, j) == []
      <==> |os| <= |ns| && SharedQuiet(os, ns)
    decreases Size(ns), 1
  {
    if os != [] && ns != [] {
      NodeSilent(os[0], ns[0], Sub(p, j));
      KidsSilent(os[1..], ns[1..], p, j + 1);
    }
  }

  /** The main passes emit nothing if and only if the pages are alike in this sense. */
  lemma MainSilent(o: Page, n: Page)
    requires ValidPage(o) && ValidPage(n) && SameBody(o, n)
    ensures MainOps(Soup(o), Soup(n)) == [] <==> PageQuiet(o, n)
  {
    PageDiff(o, n);
    KidsSilent(Elems(o.body.kids), Elems(n.body.kids), "dom", 0);
    SelfQuiet(BodyKey(o), o.body, n.body);
  }
}
