/** The contract of shared/dom_differ.py, apply_diff(old, compute_diff(old, new)) == new,
    on whole pages: what the replay produces, and exactly when that is the new page. */
module Patch {
  import opened Strings
  import opened Dom
  import opened Pipeline
  import opened Differ
  import opened Replay
  import opened Flat

  // ---- pages -------------------------------------------------------------------------

  /** A document with one body; `before` and `after` are the body's siblings (the head). */
  datatype Page = Page(htmlAttrs: map<Name, string>, before: seq<Node>, body: Tag, after: seq<Node>)

  function Soup(p: Page): seq<Node> {
    [Elem("html", p.htmlAttrs, p.before + [p.body] + p.after)]
  }

  /** No element carries a usable key. */
  predicate Unkeyed(f: seq<Node>) {
    f != [] ==> (f[0].Elem? ==> Key(f[0]) == None && Unkeyed(f[0].kids)) && Unkeyed(f[1..])
  }

  function BodyKey(p: Page): string {
    Attr(p.body, ID)
  }

  /** A published page: tidy, parsed, labelled below the body, and with no keys outside
      it. The body may have an id, as long as it does not look like a label. */
  predicate ValidPage(p: Page) {
    && Tidy(Soup(p)) && Parsed(Soup(p))
    && Attr(Elem("html", p.htmlAttrs, []), DOM_ID) == "" && Attr(Elem("html", p.htmlAttrs, []), ID) == ""
    && Unkeyed(p.before) && Unkeyed(p.after)
    && !Has(p.before, ByTag("body")) && !Has(p.after, ByTag("body"))
    && p.body.tag == "body" && DOM_ID !in p.body.attrs && !Under("dom", BodyKey(p))
    && Labelled(p.body.kids, "dom", 0)
  }

  lemma {:induction false} UnkeyedFree(f: seq<Node>, x: string)
    requires Unkeyed(f) && x != ""
    ensures !Has(f, D(x)) && !Has(f, I(x))
  {
    if f != [] {
      UnkeyedFree(f[1..], x);
      if f[0].Elem? { UnkeyedFree(f[0].kids, x); }
    }
  }

  lemma {:induction false} UnkeyedAppend(a: seq<Node>, b: seq<Node>)
    requires Unkeyed(a) && Unkeyed(b)
    ensures Unkeyed(a + b)
  {
    if a == [] { assert a + b == b; }
    else {
      assert (a + b)[0] == a[0] && (a + b)[1..] == a[1..] + b;
      UnkeyedAppend(a[1..], b);
    }
  }

  /** Some element has the name for its data-dom-id or its id. */
  predicate Named(f: seq<Node>, x: string) {
    Has(f, D(x)) || Has(f, I(x))
  }

  lemma {:induction false} UnkeyedWalk(f: seq<Node>, parent: Option<string>)
    requires Unkeyed(f)
    ensures Walk(f, parent) == []
  {
    if f != [] {
      UnkeyedWalk(f[1..], parent);
      if f[0].Elem? { UnkeyedWalk(f[0].kids, None); }
    }
  }

  lemma {:induction false} WalkAppend(a: seq<Node>, b: seq<Node>, parent: Option<string>)
    ensures Walk(a + b, parent) == Walk(a, parent) + Walk(b, parent)
  {
    if a == [] { assert a + b == b; }
    else {
      assert (a + b)[0] == a[0] && (a + b)[1..] == a[1..] + b;
      WalkAppend(a[1..], b, parent);
    }
  }

  function BodyParent(p: Page): Option<string> {
    if BodyKey(p) == "" then None else Some(BodyKey(p))
  }

  /** The keyed tags of a page: the body if it has an id, then everything below it. */
  function PageEntries(p: Page): seq<Entry> {
    (if BodyKey(p) == "" then [] else [Entry(BodyKey(p), p.body, None)]) + Walk(p.body.kids, BodyParent(p))
  }

  lemma PageWalk(p: Page)
    requires ValidPage(p)
    ensures Walk(Soup(p), None) == PageEntries(p)
  {
    assert Soup(p)[1..] == [] && Key(Soup(p)[0]) == None;
    WalkAppend(p.before + [p.body], p.after, None);
    WalkAppend(p.before, [p.body], None);
    UnkeyedWalk(p.before, None);
    UnkeyedWalk(p.after, None);
    BodyWalk(p);
    Unit(PageEntries(p));
    Unit(Walk(Soup(p)[0].kids, None));
  }

  lemma BodyWalk(p: Page)
    requires DOM_ID !in p.body.attrs
    ensures Walk([p.body], None) == PageEntries(p)
  {
    assert [p.body][1..] == [] && Key(p.body) == BodyParent(p);
    Unit(PageEntries(p));
  }

  lemma PageKeys(p: Page, e: Entry)
    requires ValidPage(p) && e in Walk(p.body.kids, BodyParent(p))
    ensures Under("dom", e.key) && e.key != BodyKey(p)
  {
    WalkSound(p.body.kids, "dom", 0, BodyParent(p), e);
    var i := LabelledKeys(p.body.kids, "dom", 0, e.key);
    UnderSub("dom", i, e.key);
  }

  /** The node map lists the keyed tags in document order, each once. */
  lemma PageMap(p: Page)
    requires ValidPage(p)
    ensures var m := MapOf(Soup(p));
            && (forall k :: k in m.order ==> k in m.entries)
            && Listed(m, m.order) == PageEntries(p)
            && (forall e :: e in PageEntries(p) ==> e.key in m.entries && m.entries[e.key] == e)
            && (forall k :: k in m.entries ==> m.entries[k] in PageEntries(p) && m.entries[k].key == k)
  {
    PageWalk(p);
    var es := PageEntries(p);
    var below := Walk(p.body.kids, BodyParent(p));
    WalkDistinct(p.body.kids, "dom", 0, BodyParent(p));
    forall e | e in below ensures e.key != BodyKey(p) { PageKeys(p, e); }
    if BodyKey(p) != "" { DistinctAppend([Entry(BodyKey(p), p.body, None)], below); }
    else { assert [] + below == below; }
    InsertOrder(NodeMap([], map[]), es);
    InsertDistinct(NodeMap([], map[]), es);
    assert [] + KeysOf(es) == KeysOf(es);
    ListedKeys(MapOf(Soup(p)), es);
  }

  lemma PageMapBelow(p: Page, x: string, i: nat)
    requires ValidPage(p) && Under(Sub("dom", i), x)
    ensures x in MapOf(Soup(p)).entries <==> Has(p.body.kids, D(x))
    ensures x in MapOf(Soup(p)).entries ==> MapOf(Soup(p)).entries[x].node == Find(p.body.kids, D(x))
  {
    PageMap(p);
    UnderSub("dom", i, x);
    var m := MapOf(Soup(p));
    if x in m.entries {
      assert m.entries[x] in PageEntries(p);
      assert m.entries[x] in Walk(p.body.kids, BodyParent(p));
      WalkSound(p.body.kids, "dom", 0, BodyParent(p), m.entries[x]);
    }
    if Has(p.body.kids, D(x)) {
      var e := WalkComplete(p.body.kids, "dom", 0, BodyParent(p), x);
      assert e in PageEntries(p);
    }
  }

  lemma PageMapBody(p: Page, x: string)
    requires ValidPage(p) && !Under("dom", x)
    ensures x in MapOf(Soup(p)).entries <==> x != "" && x == BodyKey(p)
    ensures x in MapOf(Soup(p)).entries ==> MapOf(Soup(p)).entries[x].node == p.body
  {
    PageMap(p);
    var m := MapOf(Soup(p));
    if x in m.entries && m.entries[x] in Walk(p.body.kids, BodyParent(p)) {
      PageKeys(p, m.entries[x]);
    }
    if BodyKey(p) != "" { assert Entry(BodyKey(p), p.body, None) in PageEntries(p); }
  }

  // ---- the operations for a page ---------------------------------------------------------

  /** The body keeps its identity: it had no id, or it has the same one still. */
  predicate SameBody(o: Page, n: Page) {
    BodyKey(o) == "" || BodyKey(o) == BodyKey(n)
  }

  function PageOps(o: Page, n: Page): seq<Op> {
    KidRemovals(Elems(o.body.kids), Elems(n.body.kids), "dom", 0)
    + ((if BodyKey(o) == "" then [] else SelfOps(BodyKey(o), o.body, n.body))
       + KidChanges(Elems(o.body.kids), Elems(n.body.kids), "dom", BodyParent(o)))
  }

  lemma PageRemovals(o: Page, n: Page)
    requires ValidPage(o) && ValidPage(n) && SameBody(o, n)
    ensures Removals(PageEntries(o), MapOf(Soup(n)).entries.Keys)
      == KidRemovals(Elems(o.body.kids), Elems(n.body.kids), "dom", 0)
  {
    var kept := MapOf(Soup(n)).entries.Keys;
    var ns := Elems(n.body.kids);
    LabelledElems(n.body.kids, "dom", 0);
    forall x, i: nat | Under(Sub("dom", i), x) ensures x in kept <==> Has(ns, D(x)) {
      PageMapBelow(n, x, i);
      HasElems(n.body.kids, D(x));
    }
    PageMapBody(n, BodyKey(o));
    RemovalPass(o.body.kids, ns, "dom", 0, BodyParent(o), kept);
    var below := Walk(o.body.kids, BodyParent(o));
    if BodyKey(o) == "" {
      assert [] + below == below;
    } else {
      var e := Entry(BodyKey(o), o.body, None);
      RemovalsAppend([e], below, kept);
      assert Removals([e], kept) == Removal(e, kept) + Removals([], kept);
    }
  }

  lemma PagePrev(o: Page)
    requires ValidPage(o)
    ensures PrevBelow(MapOf(Soup(o)).entries, Elems(o.body.kids), "dom", 0)
  {
    var prev, os := MapOf(Soup(o)).entries, Elems(o.body.kids);
    forall x, i: nat | Under(Sub("dom", i), x)
      ensures x in prev <==> Has(os, D(x))
      ensures x in prev ==> prev[x].node == Find(os, D(x))
    {
      PageMapBelow(o, x, i);
      HasElems(o.body.kids, D(x));
    }
  }

  lemma PageChanges(o: Page, n: Page)
    requires ValidPage(o) && ValidPage(n) && SameBody(o, n)
    ensures Changes(PageEntries(n), MapOf(Soup(o)).entries)
         == (if BodyKey(o) == "" then [] else SelfOps(BodyKey(o), o.body, n.body))
            + KidChanges(Elems(o.body.kids), Elems(n.body.kids), "dom", BodyParent(o))
  {
    var prev := MapOf(Soup(o)).entries;
    var os := Elems(o.body.kids);
    LabelledElems(o.body.kids, "dom", 0);
    PagePrev(o);
    PageMapBody(o, BodyKey(n));
    ChangePass(n.body.kids, os, "dom", 0, BodyParent(n), prev);
    assert Addressed(BodyParent(n), prev) == BodyParent(o);
    var below := Walk(n.body.kids, BodyParent(n));
    if BodyKey(n) == "" {
      assert [] + below == below;
    } else {
      var e := Entry(BodyKey(n), n.body, None);
      ChangesAppend([e], below, prev);
      assert Changes([e], prev) == Change(e, prev) + Changes([], prev);
    }
  }

  /** The flat passes of compute_diff, on pages. */
  lemma PageDiff(o: Page, n: Page)
    requires ValidPage(o) && ValidPage(n) && SameBody(o, n)
    ensures MainOps(Soup(o), Soup(n)) == PageOps(o, n)
  {
    PageMap(o);
    PageMap(n);
    PageRemovals(o, n);
    PageChanges(o, n);
  }

  // ---- replaying them -----------------------------------------------------------------------

  function BodyPatched(o: Tag, n: Tag, keyed: bool): Tag {
    var b := if keyed then SelfPatched(PrunedNode(o, n), o, n) else PrunedNode(o, n);
    b.(kids := KidsPatched(b.kids, Elems(o.kids), Elems(n.kids))
               + if keyed then Extra(Elems(o.kids), Elems(n.kids)) else [])
  }

  /** Surroundings that no operation names do not take part. */
  lemma {:induction false} LiftFold(pre: seq<Node>, mid: seq<Node>, post: seq<Node>, ops: seq<Op>)
    requires FoundAny(mid, ops)
    requires forall op :: op in ops ==> !Named(pre, op.selector) && !Named(post, op.selector)
    ensures ApplyOps(pre + mid + post, ops) == pre + ApplyOps(mid, ops) + post
    ensures FoundAny(pre + mid + post, ops)
    decreases ops
  {
    if ops != [] {
      var x := ops[0].selector;
      assert ops[0] in ops;
      HasAppend(pre + mid, post, D(x));
      HasAppend(pre, mid, D(x));
      if Has(mid, D(x)) { EditFrame(pre, mid, post, D(x), ops[0]); }
      else { EditFrame(pre, mid, post, I(x), ops[0]); }
      LiftFold(pre, ApplyOp(mid, ops[0]), post, ops[1..]);
    }
  }

  lemma {:induction false} WrapFold(e: Tag, ops: seq<Op>)
    requires FoundAny(e.kids, ops)
    requires forall op :: op in ops ==> !Hit(e, D(op.selector)) && !Hit(e, I(op.selector))
    ensures ApplyOps([e], ops) == [e.(kids := ApplyOps(e.kids, ops))]
    decreases ops
  {
    if ops != [] {
      var x := ops[0].selector;
      assert ops[0] in ops;
      HasOne(e, D(x));
      HasOne(e, I(x));
      var e' := e.(kids := ApplyOp(e.kids, ops[0]));
      assert ApplyOp([e], ops[0]) == [e'];
      WrapFold(e', ops[1..]);
    }
  }

  lemma LabelNotEmpty(i: nat, x: string)
    requires Under(Sub("dom", i), x)
    ensures x != "" && Under("dom", x)
  {
    UnderSub("dom", i, x);
  }

  lemma BodyRemovals(b: Tag, ns: seq<Tag>)
    requires DOM_ID !in b.attrs && Labelled(b.kids, "dom", 0)
    ensures var ops := KidRemovals(Elems(b.kids), ns, "dom", 0);
            && ApplyOps([b], ops) == [b.(kids := Prune(b.kids, ns))]
            && FoundAny([b], ops)
            && (forall op :: op in ops ==> op.selector != "")
  {
    var ops := KidRemovals(Elems(b.kids), ns, "dom", 0);
    RemovalFold(b.kids, ns, "dom", 0);
    FoldDescend(b, ops);
    FoundAllAny([b], ops);
    forall op | op in ops ensures op.selector != "" {
      var i := RemovalSelectors(Elems(b.kids), ns, "dom", 0, op);
      LabelNotEmpty(i, op.selector);
    }
  }

  lemma BodyShared(b: Tag, os: seq<Tag>, ns: seq<Tag>)
    requires DOM_ID !in b.attrs && Labelled(b.kids, "dom", 0) && Labelled(os, "dom", 0) && Labelled(ns, "dom", 0)
    requires Aligned(Elems(b.kids), os, ns)
    ensures var ops := SharedChanges(os, ns, "dom", 0);
            && ApplyOps([b], ops) == [b.(kids := KidsPatched(b.kids, os, ns))]
            && FoundAny([b], ops)
            && (forall op :: op in ops ==> op.selector != "")
  {
    var ops := SharedChanges(os, ns, "dom", 0);
    KidsFold(b.kids, os, ns, "dom", 0);
    FoldDescend(b, ops);
    FoundAllAny([b], ops);
    forall op | op in ops ensures op.selector != "" {
      var i := SharedSelectors(os, ns, "dom", 0, op);
      LabelNotEmpty(i, op.selector);
    }
  }

  lemma OutsideLabels(f: seq<Node>, x: string)
    requires Labelled(f, "dom", 0) && !Under("dom", x)
    ensures !Has(f, D(x))
  {
    if Has(f, D(x)) {
      var i := LabelledKeys(f, "dom", 0, x);
      UnderSub("dom", i, x);
    }
  }

  // the body after each group of operations

  function OwnOps(o: Page, n: Page): seq<Op> {
    if BodyKey(o) == "" then [] else SelfOps(BodyKey(o), o.body, n.body)
  }

  function OwnDone(o: Page, n: Page): Tag {
    var b := PrunedNode(o.body, n.body);
    if BodyKey(o) == "" then b else SelfPatched(b, o.body, n.body)
  }

  function SharedDone(o: Page, n: Page): Tag {
    var b := OwnDone(o, n);
    b.(kids := KidsPatched(b.kids, Elems(o.body.kids), Elems(n.body.kids)))
  }

  function AddOps(o: Page, n: Page): seq<Op> {
    Adds(BodyParent(o), Extra(Elems(o.body.kids), Elems(n.body.kids)))
  }

  predicate Addressable(ops: seq<Op>) {
    forall op :: op in ops ==> op.selector != ""
  }

  lemma BodySelf(o: Page, n: Page)
    requires ValidPage(o) && ValidPage(n) && SameBody(o, n)
    ensures ApplyOps([PrunedNode(o.body, n.body)], OwnOps(o, n)) == [OwnDone(o, n)]
    ensures FoundAny([PrunedNode(o.body, n.body)], OwnOps(o, n)) && Addressable(OwnOps(o, n))
    ensures DOM_ID !in OwnDone(o, n).attrs && (BodyKey(o) != "" ==> Hit(OwnDone(o, n), I(BodyKey(o))))
    ensures Labelled(OwnDone(o, n).kids, "dom", 0)
    ensures Aligned(Elems(OwnDone(o, n).kids), Elems(o.body.kids), Elems(n.body.kids))
  {
    PruneLabelled(o.body.kids, Elems(n.body.kids), "dom", 0);
    PruneAligned(o.body.kids, Elems(n.body.kids));
    if BodyKey(o) != "" {
      BodyOwn(o, n);
      SelfAddressable(BodyKey(o), o.body, n.body);
      if TextChanged(o.body, n.body) { LabelledTexts([Text(DirectText(n.body))], "dom", 0); }
    }
  }

  lemma BodyOwn(o: Page, n: Page)
    requires ValidPage(o) && ValidPage(n) && SameBody(o, n) && BodyKey(o) != ""
    ensures ApplyOps([PrunedNode(o.body, n.body)], OwnOps(o, n)) == [OwnDone(o, n)]
    ensures FoundAny([PrunedNode(o.body, n.body)], OwnOps(o, n))
    ensures DOM_ID !in OwnDone(o, n).attrs && Hit(OwnDone(o, n), I(BodyKey(o)))
  {
    var b0, k := PrunedNode(o.body, n.body), BodyKey(o);
    PruneLabelled(o.body.kids, Elems(n.body.kids), "dom", 0);
    OutsideLabels(b0.kids, k);
    SelfFold(b0, o.body, n.body, k, false);
  }

  lemma SelfAddressable(k: string, o: Tag, n: Tag)
    requires k != ""
    ensures Addressable(SelfOps(k, o, n))
  {
    forall op | op in SelfOps(k, o, n) ensures op.selector != "" {
      AttrSelectors(k, o.attrs, n.attrs, Names(n.attrs), op);
      if op in DelAttrOps(k, n.attrs, Names(o.attrs)) { DelSelectors(k, n.attrs, Names(o.attrs), op); }
    }
  }

  lemma NotBelow(ns: seq<Tag>, e: Tag, k: string)
    requires Labelled(ns, "dom", 0) && e in ns && !Under("dom", k)
    ensures !Has([e], D(k))
  {
    var i :| 0 <= i < |ns| && ns[i] == e;
    LabelledAt(ns, "dom", 0, i);
    if Has([e], D(k)) {
      LabelledNodeKeys(e, Sub("dom", i), k);
      UnderSub("dom", i, k);
    }
  }

  lemma BodyAdds(o: Page, n: Page)
    requires ValidPage(o) && ValidPage(n) && SameBody(o, n)
    requires DOM_ID !in SharedDone(o, n).attrs && (BodyKey(o) != "" ==> Hit(SharedDone(o, n), I(BodyKey(o))))
    requires Labelled(OwnDone(o, n).kids, "dom", 0)
    ensures ApplyOps([SharedDone(o, n)], AddOps(o, n)) == [BodyPatched(o.body, n.body, BodyKey(o) != "")]
    ensures FoundAny([SharedDone(o, n)], AddOps(o, n)) && Addressable(AddOps(o, n))
  {
    var k, ns := BodyKey(o), Elems(n.body.kids);
    var b := SharedDone(o, n);
    if k == "" {
      assert b.kids + [] == b.kids;
    } else {
      var extra := Extra(Elems(o.body.kids), ns);
      LabelledElems(n.body.kids, "dom", 0);
      forall e | e in extra ensures !Has([e], D(k)) { NotBelow(ns, e, k); }
      ForestWithin(OwnDone(o, n).kids, "dom");
      ForestWithin(ns, "dom");
      KidsWithin(OwnDone(o, n).kids, Elems(o.body.kids), ns, "dom");
      AddsFold(b, k, extra, false);
      forall op | op in AddOps(o, n) ensures op.selector != "" { AddSelectors(Some(k), extra, op); }
    }
  }

  lemma ForestWithin(f: seq<Node>, p: string)
    requires Labelled(f, p, 0)
    ensures Within(f, p)
  {
    forall x | Has(f, D(x)) ensures Under(p, x) {
      var i := LabelledKeys(f, p, 0, x);
      UnderSub(p, i, x);
    }
  }

  /** Folding a page's operations over its body gives BodyPatched. */
  lemma BodyFold(o: Page, n: Page)
    requires ValidPage(o) && ValidPage(n) && SameBody(o, n)
    ensures ApplyOps([o.body], PageOps(o, n)) == [BodyPatched(o.body, n.body, BodyKey(o) != "")]
    ensures FoundAny([o.body], PageOps(o, n)) && Addressable(PageOps(o, n))
  {
    var os, ns := Elems(o.body.kids), Elems(n.body.kids);
    var removals, shared := KidRemovals(os, ns, "dom", 0), SharedChanges(os, ns, "dom", 0);
    BodyRemovals(o.body, ns);
    BodySelf(o, n);
    LabelledElems(o.body.kids, "dom", 0);
    LabelledElems(n.body.kids, "dom", 0);
    BodyShared(OwnDone(o, n), os, ns);
    BodyAdds(o, n);
    BodyChain(o.body, removals, PrunedNode(o.body, n.body), OwnOps(o, n), OwnDone(o, n), shared, SharedDone(o, n),
              AddOps(o, n));
  }

  lemma BodyChain(b: Tag, a1: seq<Op>, b0: Tag, a2: seq<Op>, b1: Tag, a3: seq<Op>, b2: Tag, a4: seq<Op>)
    requires ApplyOps([b], a1) == [b0] && FoundAny([b], a1)
    requires ApplyOps([b0], a2) == [b1] && FoundAny([b0], a2)
    requires ApplyOps([b1], a3) == [b2] && FoundAny([b1], a3)
    requires FoundAny([b2], a4)
    ensures ApplyOps([b], a1 + (a2 + (a3 + a4))) == ApplyOps([b2], a4)
    ensures FoundAny([b], a1 + (a2 + (a3 + a4)))
  {
    FoldAppend([b1], a3, a4);
    AnyAppend([b1], a3, a4);
    FoldAppend([b0], a2, a3 + a4);
    AnyAppend([b0], a2, a3 + a4);
    FoldAppend([b], a1, a2 + (a3 + a4));
    AnyAppend([b], a1, a2 + (a3 + a4));
  }
}
