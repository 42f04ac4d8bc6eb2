/** What replaying a diff does to a labelled tree, computed structurally, and the proof
    that folding the flat operations one at a time gives exactly that. Every
    intermediate tree is tracked: each operation is shown to find its target, and to
    find it inside the subtree it belongs to. */
module Replay {
  import opened Strings
  import opened Dom
  import opened Pipeline
  import opened Differ

  // ---- folds and frames ------------------------------------------------------------

  /** Each operation finds a target by data-dom-id when its turn comes. */
  predicate FoundAll(f: seq<Node>, ops: seq<Op>)
    decreases ops
  {
    ops != [] ==> Has(f, D(ops[0].selector)) && FoundAll(ApplyOp(f, ops[0]), ops[1..])
  }

  lemma {:induction false} FoldAppend(f: seq<Node>, a: seq<Op>, b: seq<Op>)
    ensures ApplyOps(f, a + b) == ApplyOps(ApplyOps(f, a), b)
    ensures FoundAll(f, a + b) <==> FoundAll(f, a) && FoundAll(ApplyOps(f, a), b)
    decreases a
  {
    if a == [] { assert a + b == b; }
    else {
      assert (a + b)[0] == a[0] && (a + b)[1..] == a[1..] + b;
      FoldAppend(ApplyOp(f, a[0]), a[1..], b);
    }
  }

  lemma {:induction false} EditBefore(mid: seq<Node>, post: seq<Node>, q: Query, op: Op)
    requires Has(mid, q)
    ensures Has(mid + post, q) && EditFirst(mid + post, q, op) == EditFirst(mid, q, op) + post
  {
    assert (mid + post)[0] == mid[0] && (mid + post)[1..] == mid[1..] + post;
    if Hit(mid[0], q) {
      var edited := Edit(op, mid[0]);
      assert edited + (mid[1..] + post) == (edited + mid[1..]) + post;
    } else if mid[0].Elem? && Has(mid[0].kids, q) {
      var edited := mid[0].(kids := EditFirst(mid[0].kids, q, op));
      assert [edited] + (mid[1..] + post) == ([edited] + mid[1..]) + post;
    } else {
      EditBefore(mid[1..], post, q, op);
      assert [mid[0]] + (EditFirst(mid[1..], q, op) + post) == ([mid[0]] + EditFirst(mid[1..], q, op)) + post;
    }
  }

  lemma {:induction false} EditAfter(pre: seq<Node>, mid: seq<Node>, q: Query, op: Op)
    requires Has(mid, q) && !Has(pre, q)
    ensures Has(pre + mid, q) && EditFirst(pre + mid, q, op) == pre + EditFirst(mid, q, op)
  {
    if pre == [] {
      assert pre + mid == mid;
    } else {
      assert (pre + mid)[0] == pre[0] && (pre + mid)[1..] == pre[1..] + mid;
      EditAfter(pre[1..], mid, q, op);
      assert [pre[0]] + (pre[1..] + EditFirst(mid, q, op)) == pre + EditFirst(mid, q, op);
    }
  }

  lemma EditFrame(pre: seq<Node>, mid: seq<Node>, post: seq<Node>, q: Query, op: Op)
    requires Has(mid, q) && !Has(pre, q)
    ensures Has(pre + mid + post, q)
    ensures EditFirst(pre + mid + post, q, op) == pre + EditFirst(mid, q, op) + post
  {
    EditAfter(pre, mid, q, op);
    EditBefore(pre + mid, post, q, op);
  }

  lemma {:induction false} FoldFrame(pre: seq<Node>, mid: seq<Node>, post: seq<Node>, ops: seq<Op>)
    requires FoundAll(mid, ops)
    requires forall op :: op in ops ==> !Has(pre, D(op.selector))
    ensures FoundAll(pre + mid + post, ops)
    ensures ApplyOps(pre + mid + post, ops) == pre + ApplyOps(mid, ops) + post
    decreases ops
  {
    if ops != [] {
      assert ops[0] in ops;
      EditFrame(pre, mid, post, D(ops[0].selector), ops[0]);
      FoldFrame(pre, ApplyOp(mid, ops[0]), post, ops[1..]);
    }
  }

  /** Operations on the first node, then operations on what follows it. */
  lemma FoldHead(e: Node, tail: seq<Node>, own: seq<Op>, e': Node, rest: seq<Op>)
    requires FoundAll([e], own) && ApplyOps([e], own) == [e']
    requires FoundAll(tail, rest) && forall op :: op in rest ==> !Has([e'], D(op.selector))
    ensures FoundAll([e] + tail, own + rest)
    ensures ApplyOps([e] + tail, own + rest) == [e'] + ApplyOps(tail, rest)
  {
    FoldFrame([], [e], tail, own);
    assert [] + [e] + tail == [e] + tail && [] + [e'] + tail == [e'] + tail;
    FoldFrame([e'], tail, [], rest);
    assert [e'] + tail + [] == [e'] + tail && [e'] + ApplyOps(tail, rest) + [] == [e'] + ApplyOps(tail, rest);
    FoldAppend([e] + tail, own, rest);
  }

  /** Operations below an element leave the element itself alone. */
  lemma {:induction false} FoldDescend(e: Tag, ops: seq<Op>)
    requires FoundAll(e.kids, ops)
    requires forall op :: op in ops ==> !Hit(e, D(op.selector))
    ensures FoundAll([e], ops)
    ensures ApplyOps([e], ops) == [e.(kids := ApplyOps(e.kids, ops))]
    decreases ops
  {
    if ops != [] {
      assert ops[0] in ops;
      var e' := e.(kids := ApplyOp(e.kids, ops[0]));
      assert ApplyOp([e], ops[0]) == [e'];
      FoldDescend(e', ops[1..]);
    }
  }

  // ---- removals ----------------------------------------------------------------------

  /** The removals among the labelled children `os`, when `ns` are to remain. */
  function KidRemovals(os: seq<Tag>, ns: seq<Tag>, p: string, j: nat): seq<Op>
    decreases Size(os)
  {
    if os == [] then []
    else if ns == [] then [RemoveOp(Sub(p, j))] + KidRemovals(os[1..], [], p, j + 1)
    else
      KidRemovals(Elems(os[0].kids), Elems(ns[0].kids), Sub(p, j), 0)
      + KidRemovals(os[1..], ns[1..], p, j + 1)
  }

  /** The children after the removals: elements beyond the number of new ones are gone. */
  function Prune(kids: seq<Node>, ns: seq<Tag>): seq<Node> {
    if kids == [] then []
    else if !kids[0].Elem? then [kids[0]] + Prune(kids[1..], ns)
    else if ns == [] then Prune(kids[1..], ns)
    else [kids[0].(kids := Prune(kids[0].kids, Elems(ns[0].kids)))] + Prune(kids[1..], ns[1..])
  }

  lemma {:induction false} PruneLabelled(kids: seq<Node>, ns: seq<Tag>, p: string, j: nat)
    requires Labelled(kids, p, j)
    ensures Labelled(Prune(kids, ns), p, j)
  {
    if kids != [] {
      if !kids[0].Elem? {
        PruneLabelled(kids[1..], ns, p, j);
      } else {
        assert LabelledNode(kids[0], Sub(p, j));
        if ns == [] {
          PruneAll(kids[1..]);
          LabelledTexts(Prune(kids[1..], []), p, j);
        } else {
          PruneLabelled(kids[1..], ns[1..], p, j + 1);
          PruneLabelled(kids[0].kids, Elems(ns[0].kids), Sub(p, j), 0);
          var e := Prune(kids, ns)[0];
          assert LabelledNode(e, Sub(p, j));
          assert Prune(kids, ns)[1..] == Prune(kids[1..], ns[1..]);
        }
      }
    }
  }

  lemma {:induction false} PruneAll(kids: seq<Node>)
    ensures Elems(Prune(kids, [])) == []
  {
    if kids != [] { PruneAll(kids[1..]); }
  }

  lemma {:induction false} LabelledTexts(f: seq<Node>, p: string, j: nat)
    requires Elems(f) == []
    ensures Labelled(f, p, j)
  {
    if f != [] { LabelledTexts(f[1..], p, j); }
  }

  /** Selectors stay below the labels of the children they are about. */
  lemma {:induction false} RemovalSelectors(os: seq<Tag>, ns: seq<Tag>, p: string, j: nat, op: Op) returns (i: nat)
    requires op in KidRemovals(os, ns, p, j)
    ensures j <= i < j + |os| && Under(Sub(p, i), op.selector)
    decreases Size(os)
  {
    if ns != [] && op in KidRemovals(Elems(os[0].kids), Elems(ns[0].kids), Sub(p, j), 0) {
      i := j;
      var m := RemovalSelectors(Elems(os[0].kids), Elems(ns[0].kids), Sub(p, j), 0, op);
      UnderSub(Sub(p, j), m, op.selector);
    } else if ns == [] && op == RemoveOp(Sub(p, j)) {
      i := j;
    } else {
      i := RemovalSelectors(os[1..], if ns == [] then [] else ns[1..], p, j + 1, op);
    }
  }

  /** No selector for children from number `j` on addresses anything in `f`, whose labels are below `j`. */
  lemma NotInNode(n: Node, p: string, i: nat, j: nat, x: string)
    requires LabelledNode(n, Sub(p, j)) && i != j && Under(Sub(p, i), x)
    ensures !Has([n], D(x))
  {
    if Has([n], D(x)) {
      LabelledNodeKeys(n, Sub(p, j), x);
      UnderOne(p, i, j, x);
    }
  }

  lemma RemovalSkip(kids: seq<Node>, ns: seq<Tag>, ops: seq<Op>)
    requires kids != [] && !kids[0].Elem?
    requires FoundAll(kids[1..], ops) && ApplyOps(kids[1..], ops) == Prune(kids[1..], ns)
    ensures FoundAll(kids, ops) && ApplyOps(kids, ops) == Prune(kids, ns)
  {
    FoldFrame([kids[0]], kids[1..], [], ops);
    assert [kids[0]] + kids[1..] + [] == kids;
  }

  /** Folding the removals prunes. */
  lemma {:induction false} RemovalFold(kids: seq<Node>, ns: seq<Tag>, p: string, j: nat)
    requires Labelled(kids, p, j)
    ensures FoundAll(kids, KidRemovals(Elems(kids), ns, p, j))
    ensures ApplyOps(kids, KidRemovals(Elems(kids), ns, p, j)) == Prune(kids, ns)
    decreases kids
  {
    if kids == [] {
    } else if !kids[0].Elem? {
      RemovalFold(kids[1..], ns, p, j);
      RemovalSkip(kids, ns, KidRemovals(Elems(kids), ns, p, j));
    } else {
      assert LabelledNode(kids[0], Sub(p, j));
      var ns1 := if ns == [] then [] else ns[1..];
      RemovalFold(kids[1..], ns1, p, j + 1);
      if ns == [] {
        assert ApplyOp(kids, RemoveOp(Sub(p, j))) == kids[1..];
        var ops := KidRemovals(Elems(kids), ns, p, j);
        assert ops[0] == RemoveOp(Sub(p, j)) && ops[1..] == KidRemovals(Elems(kids[1..]), [], p, j + 1);
      } else {
        RemovalFold(kids[0].kids, Elems(ns[0].kids), Sub(p, j), 0);
        RemovalInside(kids[0], ns[0], Sub(p, j));
        RemovalElsewhere(PrunedNode(kids[0], ns[0]), Elems(kids[1..]), ns1, p, j);
        RemovalSplit(kids, ns, p, j);
        FoldHead(kids[0], kids[1..], KidRemovals(Elems(kids[0].kids), Elems(ns[0].kids), Sub(p, j), 0),
                 PrunedNode(kids[0], ns[0]), KidRemovals(Elems(kids[1..]), ns1, p, j + 1));
        assert [kids[0]] + kids[1..] == kids;
      }
    }
  }

  function PrunedNode(o: Tag, n: Tag): Tag {
    o.(kids := Prune(o.kids, Elems(n.kids)))
  }

  lemma RemovalInside(e: Tag, n: Tag, k: string)
    requires LabelledNode(e, k)
    requires var own := KidRemovals(Elems(e.kids), Elems(n.kids), k, 0);
             FoundAll(e.kids, own) && ApplyOps(e.kids, own) == Prune(e.kids, Elems(n.kids))
    ensures var own := KidRemovals(Elems(e.kids), Elems(n.kids), k, 0);
            FoundAll([e], own) && ApplyOps([e], own) == [PrunedNode(e, n)]
    ensures LabelledNode(PrunedNode(e, n), k)
  {
    var own := KidRemovals(Elems(e.kids), Elems(n.kids), k, 0);
    forall op | op in own ensures !Hit(e, D(op.selector)) {
      var i := RemovalSelectors(Elems(e.kids), Elems(n.kids), k, 0, op);
      UnderSub(k, i, op.selector);
    }
    FoldDescend(e, own);
    PruneLabelled(e.kids, Elems(n.kids), k, 0);
  }

  lemma RemovalSplit(kids: seq<Node>, ns: seq<Tag>, p: string, j: nat)
    requires kids != [] && ns != [] && kids[0].Elem?
    ensures KidRemovals(Elems(kids), ns, p, j)
         == KidRemovals(Elems(kids[0].kids), Elems(ns[0].kids), Sub(p, j), 0)
            + KidRemovals(Elems(kids[1..]), ns[1..], p, j + 1)
    ensures Prune(kids, ns) == [PrunedNode(kids[0], ns[0])] + Prune(kids[1..], ns[1..])
  {
    assert Elems(kids)[0] == kids[0] && Elems(kids)[1..] == Elems(kids[1..]);
  }

  lemma RemovalElsewhere(e': Node, os: seq<Tag>, ns: seq<Tag>, p: string, j: nat)
    requires LabelledNode(e', Sub(p, j))
    ensures forall op :: op in KidRemovals(os, ns, p, j + 1) ==> !Has([e'], D(op.selector))
  {
    forall op | op in KidRemovals(os, ns, p, j + 1) ensures !Has([e'], D(op.selector)) {
      var i := RemovalSelectors(os, ns, p, j + 1, op);
      NotInNode(e', p, i, j, op.selector);
    }
  }

  // ---- changes -----------------------------------------------------------------------

  /** The operations for the children both sides have. */
  function SharedChanges(os: seq<Tag>, ns: seq<Tag>, p: string, j: nat): seq<Op>
    decreases Size(ns), 0
  {
    if os == [] || ns == [] then []
    else NodeChanges(os[0], ns[0], Sub(p, j)) + SharedChanges(os[1..], ns[1..], p, j + 1)
  }

  function Adds(sel: Option<string>, ns: seq<Tag>): seq<Op> {
    if ns == [] || sel.None? then [] else [AddOp(sel.value, [ns[0]])] + Adds(sel, ns[1..])
  }

  function Extra(os: seq<Tag>, ns: seq<Tag>): seq<Tag> {
    if |os| < |ns| then ns[|os|..] else []
  }

  function KidChanges(os: seq<Tag>, ns: seq<Tag>, p: string, sel: Option<string>): seq<Op>
    decreases Size(ns), 1
  {
    SharedChanges(os, ns, p, 0) + Adds(sel, Extra(os, ns))
  }

  /** All the operations emitted for the tag keyed `k` and everything below it. */
  function NodeChanges(o: Tag, n: Tag, k: string): seq<Op>
    decreases Size(n.kids), 2
  {
    TagOps(k, o, n) + KidChanges(Elems(o.kids), Elems(n.kids), k, Some(k))
  }

  /** Attributes after the edits: the new ones, less those whose new value is empty and
      that would have had to be set. */
  function AttrsPatched(oa: map<Name, string>, na: map<Name, string>): map<Name, string> {
    map a | a in na && (na[a] != "" || (a in oa && oa[a] == "")) :: na[a]
  }

  function SelfPatched(s: Tag, o: Tag, n: Tag): Tag {
    s.(attrs := AttrsPatched(o.attrs, n.attrs), kids := if TextChanged(o, n) then [Text(DirectText(n))] else s.kids)
  }

  /** What becomes of the subtree `s` keyed like `o` and `n`. */
  function NodePatched(s: Tag, o: Tag, n: Tag): Tag
    decreases 1 + Size(n.kids), 0
  {
    var b := if o.tag != n.tag then n else SelfPatched(s, o, n);
    b.(kids := KidsPatched(b.kids, Elems(o.kids), Elems(n.kids)) + Extra(Elems(o.kids), Elems(n.kids)))
  }

  function KidsPatched(kids: seq<Node>, os: seq<Tag>, ns: seq<Tag>): seq<Node>
    decreases Size(ns), |kids|
  {
    if kids == [] || os == [] || ns == [] then kids
    else if !kids[0].Elem? then [kids[0]] + KidsPatched(kids[1..], os, ns)
    else [NodePatched(kids[0], os[0], ns[0])] + KidsPatched(kids[1..], os[1..], ns[1..])
  }

  /** A subtree enters the change passes either pruned, or already replaced by the new one. */
  predicate Start(s: Tag, o: Tag, n: Tag) {
    s == n || s == PrunedNode(o, n)
  }

  predicate Aligned(es: seq<Tag>, os: seq<Tag>, ns: seq<Tag>) {
    os != [] && ns != [] ==> es != [] && Start(es[0], os[0], ns[0]) && Aligned(es[1..], os[1..], ns[1..])
  }

  lemma {:induction false} PruneAligned(kids: seq<Node>, ns: seq<Tag>)
    ensures Aligned(Elems(Prune(kids, ns)), Elems(kids), ns)
    ensures |Elems(Prune(kids, ns))| == if |Elems(kids)| < |ns| then |Elems(kids)| else |ns|
  {
    if kids != [] {
      if !kids[0].Elem? {
        PruneAligned(kids[1..], ns);
      } else if ns == [] {
        PruneAll(kids);
      } else {
        PruneAligned(kids[1..], ns[1..]);
        var es := Elems(Prune(kids, ns));
        assert es[0] == kids[0].(kids := Prune(kids[0].kids, Elems(ns[0].kids)));
        assert es[1..] == Elems(Prune(kids[1..], ns[1..]));
        assert Elems(kids)[1..] == Elems(kids[1..]);
      }
    }
  }

  lemma {:induction false} SelfAligned(os: seq<Tag>, ns: seq<Tag>)
    ensures Aligned(ns, os, ns)
  {
    if os != [] && ns != [] { SelfAligned(os[1..], ns[1..]); }
  }

  // selectors

  lemma {:induction false} AttrSelectors(
    k: string, oa: map<Name, string>, na: map<Name, string>, names: seq<Name>, op: Op)
    requires forall a :: a in names ==> a in na
    ensures op in SetAttrOps(k, oa, na, names) ==> op.selector == k
    ensures op in DelAttrOps(k, na, names) ==> op.selector == k
  {
    if names != [] { AttrSelectors(k, oa, na, names[1..], op); }
  }

  lemma {:induction false} DelSelectors(k: string, na: map<Name, string>, names: seq<Name>, op: Op)
    requires op in DelAttrOps(k, na, names)
    ensures op.selector == k
  {
    if names != [] && op in DelAttrOps(k, na, names[1..]) { DelSelectors(k, na, names[1..], op); }
  }

  lemma {:induction false} AddSelectors(sel: Option<string>, ns: seq<Tag>, op: Op)
    requires op in Adds(sel, ns)
    ensures sel == Some(op.selector)
  {
    if op in Adds(sel, ns[1..]) { AddSelectors(sel, ns[1..], op); }
  }

  lemma {:induction false} NodeSelectors(o: Tag, n: Tag, k: string, op: Op)
    requires op in NodeChanges(o, n, k)
    ensures Under(k, op.selector)
    decreases Size(n.kids), 1
  {
    var os, ns := Elems(o.kids), Elems(n.kids);
    if op in TagOps(k, o, n) {
      if o.tag == n.tag {
        AttrSelectors(k, o.attrs, n.attrs, Names(n.attrs), op);
        if op in DelAttrOps(k, n.attrs, Names(o.attrs)) { DelSelectors(k, n.attrs, Names(o.attrs), op); }
      }
    } else if op in SharedChanges(os, ns, k, 0) {
      var i := SharedSelectors(os, ns, k, 0, op);
      UnderSub(k, i, op.selector);
    } else {
      AddSelectors(Some(k), Extra(os, ns), op);
    }
  }

  lemma {:induction false} SharedSelectors(os: seq<Tag>, ns: seq<Tag>, p: string, j: nat, op: Op) returns (i: nat)
    requires op in SharedChanges(os, ns, p, j)
    ensures j <= i && Under(Sub(p, i), op.selector)
    decreases Size(ns), 0
  {
    if op in NodeChanges(os[0], ns[0], Sub(p, j)) {
      i := j;
      NodeSelectors(os[0], ns[0], Sub(p, j), op);
    } else {
      i := SharedSelectors(os[1..], ns[1..], p, j + 1, op);
    }
  }

  // one element's own operations

  /** The element answers to `k`: by data-dom-id, or else by id. */
  predicate Anchored(e: Tag, k: string, byDom: bool) {
    if byDom then Hit(e, D(k)) else DOM_ID !in e.attrs && Hit(e, I(k)) && !Has(e.kids, D(k))
  }

  predicate KeyKept(oa: map<Name, string>, na: map<Name, string>, byDom: bool) {
    if byDom then DOM_ID in oa && DOM_ID in na && oa[DOM_ID] == na[DOM_ID]
    else DOM_ID !in oa && DOM_ID !in na && ID in oa && ID in na && oa[ID] == na[ID]
  }

  lemma AnchoredEdit(e: Tag, op: Op, byDom: bool)
    requires Anchored(e, op.selector, byDom)
    ensures ApplyOp([e], op) == Edit(op, e)
    ensures Has([e], D(op.selector)) || Has([e], I(op.selector))
    ensures byDom ==> Has([e], D(op.selector))
  {
    HasOne(e, D(op.selector));
    HasOne(e, I(op.selector));
    var q := if byDom then D(op.selector) else I(op.selector);
    assert EditFirst([e], q, op) == Edit(op, e) + [e][1..];
  }

  /** Each operation finds some target, by either attribute. */
  predicate FoundAny(f: seq<Node>, ops: seq<Op>)
    decreases ops
  {
    ops != [] ==> (Has(f, D(ops[0].selector)) || Has(f, I(ops[0].selector))) && FoundAny(ApplyOp(f, ops[0]), ops[1..])
  }

  lemma {:induction false} FoundAllAny(f: seq<Node>, ops: seq<Op>)
    requires FoundAll(f, ops)
    ensures FoundAny(f, ops)
    decreases ops
  {
    if ops != [] { FoundAllAny(ApplyOp(f, ops[0]), ops[1..]); }
  }

  lemma {:induction false} AnyAppend(f: seq<Node>, a: seq<Op>, b: seq<Op>)
    requires FoundAny(f, a) && FoundAny(ApplyOps(f, a), b)
    ensures FoundAny(f, a + b)
    decreases a
  {
    if a == [] { assert a + b == b; }
    else {
      assert (a + b)[0] == a[0] && (a + b)[1..] == a[1..] + b;
      AnyAppend(ApplyOp(f, a[0]), a[1..], b);
    }
  }

  /** The attribute map after the edits for some of the names. */
  function AttrsSet(
    m: map<Name, string>, oa: map<Name, string>, na: map<Name, string>, names: seq<Name>): map<Name, string>
    requires forall a :: a in names ==> a in na
    decreases names
  {
    if names == [] then m
    else
      var a := names[0];
      assert a in names;
      AttrsSet(if a in oa && oa[a] == na[a] then m else if na[a] == "" then m - {a} else m[a := na[a]],
               oa, na, names[1..])
  }

  function AttrsDeleted(m: map<Name, string>, na: map<Name, string>, names: seq<Name>): map<Name, string>
    decreases names
  {
    if names == [] then m else AttrsDeleted(if names[0] in na then m else m - {names[0]}, na, names[1..])
  }

  lemma {:induction false} AttrsSetAt(
    m: map<Name, string>, oa: map<Name, string>, na: map<Name, string>, names: seq<Name>, a: Name)
    requires forall b :: b in names ==> b in na
    ensures var r := AttrsSet(m, oa, na, names);
            if a in names && !(a in oa && oa[a] == na[a])
            then (a in r <==> na[a] != "") && (a in r ==> r[a] == na[a])
            else (a in r <==> a in m) && (a in r ==> r[a] == m[a])
    decreases names
  {
    if names != [] {
      var b := names[0];
      assert b in names;
      AttrsSetAt(if b in oa && oa[b] == na[b] then m else if na[b] == "" then m - {b} else m[b := na[b]],
                 oa, na, names[1..], a);
    }
  }

  lemma {:induction false} AttrsDeletedAt(m: map<Name, string>, na: map<Name, string>, names: seq<Name>, a: Name)
    ensures var r := AttrsDeleted(m, na, names);
            (a in r <==> a in m && !(a in names && a !in na)) && (a in r ==> r[a] == m[a])
    decreases names
  {
    if names != [] { AttrsDeletedAt(if names[0] in na then m else m - {names[0]}, na, names[1..], a); }
  }

  lemma AttrsResult(m: map<Name, string>, oa: map<Name, string>, na: map<Name, string>, ns: seq<Name>, os: seq<Name>)
    requires m == oa || m == na
    requires (forall a :: a in ns <==> a in na) && (forall a :: a in os <==> a in oa)
    ensures AttrsDeleted(AttrsSet(m, oa, na, ns), na, os) == AttrsPatched(oa, na)
  {
    var r1 := AttrsSet(m, oa, na, ns);
    var r := AttrsDeleted(r1, na, os);
    forall a: Name
      ensures a in r <==> a in AttrsPatched(oa, na)
      ensures a in r ==> r[a] == na[a]
    {
      AttrsSetAt(m, oa, na, ns, a);
      AttrsDeletedAt(r1, na, os, a);
    }
  }

  lemma {:induction false} SetFold(
    e: Tag, k: string, oa: map<Name, string>, na: map<Name, string>, names: seq<Name>, byDom: bool)
    returns (e': Tag)
    requires forall a :: a in names ==> a in na
    requires Anchored(e, k, byDom) && KeyKept(oa, na, byDom)
    ensures e' == e.(attrs := AttrsSet(e.attrs, oa, na, names)) && Anchored(e', k, byDom)
    ensures ApplyOps([e], SetAttrOps(k, oa, na, names)) == [e']
    ensures FoundAny([e], SetAttrOps(k, oa, na, names))
    ensures byDom ==> FoundAll([e], SetAttrOps(k, oa, na, names))
    decreases names
  {
    if names == [] { return e; }
    var a := names[0];
    assert a in names;
    if a in oa && oa[a] == na[a] {
      e' := SetFold(e, k, oa, na, names[1..], byDom);
      assert [] + SetAttrOps(k, oa, na, names[1..]) == SetAttrOps(k, oa, na, names[1..]);
    } else {
      var op := AttributeOp(k, a, na[a]);
      AnchoredEdit(e, op, byDom);
      var ops := SetAttrOps(k, oa, na, names);
      assert ops[0] == op && ops[1..] == SetAttrOps(k, oa, na, names[1..]);
      e' := SetFold(Edit(op, e)[0], k, oa, na, names[1..], byDom);
    }
  }

  lemma {:induction false} DelFold(e: Tag, k: string, na: map<Name, string>, names: seq<Name>, byDom: bool)
    returns (e': Tag)
    requires Anchored(e, k, byDom)
    requires if byDom then DOM_ID in na else ID in na
    ensures e' == e.(attrs := AttrsDeleted(e.attrs, na, names)) && Anchored(e', k, byDom)
    ensures ApplyOps([e], DelAttrOps(k, na, names)) == [e']
    ensures FoundAny([e], DelAttrOps(k, na, names))
    ensures byDom ==> FoundAll([e], DelAttrOps(k, na, names))
    decreases names
  {
    if names == [] { return e; }
    if names[0] in na {
      e' := DelFold(e, k, na, names[1..], byDom);
      assert [] + DelAttrOps(k, na, names[1..]) == DelAttrOps(k, na, names[1..]);
    } else {
      var op := AttributeOp(k, names[0], "");
      AnchoredEdit(e, op, byDom);
      var ops := DelAttrOps(k, na, names);
      assert ops[0] == op && ops[1..] == DelAttrOps(k, na, names[1..]);
      e' := DelFold(Edit(op, e)[0], k, na, names[1..], byDom);
    }
  }

  /** An element's own operations turn it into SelfPatched. */
  lemma SelfFold(s: Tag, o: Tag, n: Tag, k: string, byDom: bool)
    requires Anchored(s, k, byDom) && KeyKept(o.attrs, n.attrs, byDom)
    requires s.attrs == o.attrs || s.attrs == n.attrs
    ensures ApplyOps([s], SelfOps(k, o, n)) == [SelfPatched(s, o, n)]
    ensures Anchored(SelfPatched(s, o, n), k, byDom)
    ensures FoundAny([s], SelfOps(k, o, n)) && (byDom ==> FoundAll([s], SelfOps(k, o, n)))
  {
    var a := SetAttrOps(k, o.attrs, n.attrs, Names(n.attrs));
    var d := DelAttrOps(k, n.attrs, Names(o.attrs));
    var t := TextOps(k, o, n);
    var s1 := SetFold(s, k, o.attrs, n.attrs, Names(n.attrs), byDom);
    var s2 := DelFold(s1, k, n.attrs, Names(o.attrs), byDom);
    AttrsResult(s.attrs, o.attrs, n.attrs, Names(n.attrs), Names(o.attrs));
    TextFold(s2, o, n, k, byDom);
    ThreeFolds(s, s1, s2, a, d, t, byDom);
  }

  function TextOps(k: string, o: Tag, n: Tag): seq<Op> {
    if TextChanged(o, n) then [TextOp(k, DirectText(n))] else []
  }

  lemma TextFold(s: Tag, o: Tag, n: Tag, k: string, byDom: bool)
    requires Anchored(s, k, byDom)
    ensures var s1: Tag := if TextChanged(o, n) then s.(kids := [Text(DirectText(n))]) else s;
            ApplyOps([s], TextOps(k, o, n)) == [s1] && Anchored(s1, k, byDom)
    ensures FoundAny([s], TextOps(k, o, n)) && (byDom ==> FoundAll([s], TextOps(k, o, n)))
  {
    if TextChanged(o, n) {
      var t := TextOps(k, o, n);
      AnchoredEdit(s, t[0], byDom);
      assert ApplyOps([s], t) == ApplyOps(Edit(t[0], s), t[1..]);
    }
  }

  lemma ThreeFolds(s: Tag, s1: Tag, s2: Tag, a: seq<Op>, d: seq<Op>, t: seq<Op>, byDom: bool)
    requires ApplyOps([s], a) == [s1] && ApplyOps([s1], d) == [s2]
    requires FoundAny([s], a) && FoundAny([s1], d) && FoundAny([s2], t)
    requires byDom ==> FoundAll([s], a) && FoundAll([s1], d) && FoundAll([s2], t)
    ensures ApplyOps([s], a + d + t) == ApplyOps([s2], t)
    ensures FoundAny([s], a + d + t) && (byDom ==> FoundAll([s], a + d + t))
  {
    FoldAppend([s], a, d);
    AnyAppend([s], a, d);
    FoldAppend([s], a + d, t);
    AnyAppend([s], a + d, t);
  }

  lemma {:induction false} AddsFold(e: Tag, k: string, ns: seq<Tag>, byDom: bool)
    requires Anchored(e, k, byDom)
    requires !byDom ==> forall n :: n in ns ==> !Has([n], D(k))
    ensures ApplyOps([e], Adds(Some(k), ns)) == [e.(kids := e.kids + ns)]
    ensures FoundAny([e], Adds(Some(k), ns)) && (byDom ==> FoundAll([e], Adds(Some(k), ns)))
    decreases ns
  {
    if ns == [] {
      assert e.kids + ns == e.kids;
    } else {
      var op := AddOp(k, [ns[0]]);
      AnchoredEdit(e, op, byDom);
      var e' := Edit(op, e)[0];
      HasAppend(e.kids, [ns[0]], D(k));
      AddsFold(e', k, ns[1..], byDom);
      assert e.kids + [ns[0]] + ns[1..] == e.kids + ns;
      var ops := Adds(Some(k), ns);
      assert ops[0] == op && ops[1..] == Adds(Some(k), ns[1..]);
    }
  }

  // patched subtrees keep their keys

  ghost predicate Within(f: seq<Node>, k: string) {
    forall x :: Has(f, D(x)) ==> Under(k, x)
  }

  lemma WithinAppend(a: seq<Node>, b: seq<Node>, k: string)
    ensures Within(a + b, k) <==> Within(a, k) && Within(b, k)
  {
    forall x ensures Has(a + b, D(x)) <==> Has(a, D(x)) || Has(b, D(x)) { HasAppend(a, b, D(x)); }
  }

  lemma WithinElems(f: seq<Node>, k: string)
    ensures Within(Elems(f), k) <==> Within(f, k)
  {
    forall x ensures Has(Elems(f), D(x)) <==> Has(f, D(x)) { HasElems(f, D(x)); }
  }

  lemma WithinHead(f: seq<Node>, k: string)
    requires f != [] && Within(f, k)
    ensures Within([f[0]], k) && Within(f[1..], k)
  {
    assert f == [f[0]] + f[1..];
    WithinAppend([f[0]], f[1..], k);
  }

  lemma {:induction false} PatchedWithin(s: Tag, o: Tag, n: Tag, k: string)
    requires Within([s], k) && Within([n], k)
    ensures Within([NodePatched(s, o, n)], k)
    decreases 1 + Size(n.kids), 0
  {
    var b := if o.tag != n.tag then n else SelfPatched(s, o, n);
    var os, ns := Elems(o.kids), Elems(n.kids);
    forall x | Has(b.kids, D(x)) ensures Under(k, x) {
      if b.kids == n.kids { assert Has([n], D(x)); }
      else if b.kids == s.kids { assert Has([s], D(x)); }
      else { HasOne(Text(DirectText(n)), D(x)); }
    }
    forall x | Has(n.kids, D(x)) ensures Under(k, x) { assert Has([n], D(x)); }
    WithinElems(n.kids, k);
    KidsWithin(b.kids, os, ns, k);
    if |os| < |ns| {
      assert ns == ns[..|os|] + ns[|os|..];
      WithinAppend(ns[..|os|], ns[|os|..], k);
    }
    WithinAppend(KidsPatched(b.kids, os, ns), Extra(os, ns), k);
    var r := NodePatched(s, o, n);
    assert r.kids == KidsPatched(b.kids, os, ns) + Extra(os, ns);
    forall x | Has([r], D(x)) ensures Under(k, x) {
      HasOne(r, D(x));
      if Hit(r, D(x)) { assert Has([n], D(x)); }
    }
  }

  lemma {:induction false} KidsWithin(kids: seq<Node>, os: seq<Tag>, ns: seq<Tag>, k: string)
    requires Within(kids, k) && Within(ns, k)
    ensures Within(KidsPatched(kids, os, ns), k)
    decreases Size(ns), |kids|
  {
    if kids != [] && os != [] && ns != [] {
      WithinHead(kids, k);
      if !kids[0].Elem? {
        KidsWithin(kids[1..], os, ns, k);
        WithinAppend([kids[0]], KidsPatched(kids[1..], os, ns), k);
      } else {
        WithinHead(ns, k);
        PatchedWithin(kids[0], os[0], ns[0], k);
        KidsWithin(kids[1..], os[1..], ns[1..], k);
        WithinAppend([NodePatched(kids[0], os[0], ns[0])], KidsPatched(kids[1..], os[1..], ns[1..]), k);
      }
    }
  }

  lemma LabelledWithin(n: Node, k: string)
    requires LabelledNode(n, k)
    ensures Within([n], k)
  {
    forall x | Has([n], D(x)) ensures Under(k, x) { LabelledNodeKeys(n, k, x); }
  }

  lemma SharedElsewhere(e: Node, os: seq<Tag>, ns: seq<Tag>, p: string, j: nat)
    requires Within([e], Sub(p, j))
    ensures forall op :: op in SharedChanges(os, ns, p, j + 1) ==> !Has([e], D(op.selector))
  {
    forall op | op in SharedChanges(os, ns, p, j + 1) ensures !Has([e], D(op.selector)) {
      var i := SharedSelectors(os, ns, p, j + 1, op);
      if Has([e], D(op.selector)) { UnderOne(p, i, j, op.selector); }
    }
  }

  // ---- the whole replay below one element ----------------------------------------------

  /** Folding every operation for the tag keyed `k` and its descendants over the subtree
      yields NodePatched, and each operation finds its target. */
  lemma {:induction false} NodeFold(s: Tag, o: Tag, n: Tag, k: string)
    requires LabelledNode(s, k) && LabelledNode(o, k) && LabelledNode(n, k) && Start(s, o, n)
    ensures ApplyOps([s], NodeChanges(o, n, k)) == [NodePatched(s, o, n)]
    ensures FoundAll([s], NodeChanges(o, n, k))
    decreases 1 + Size(n.kids), 0
  {
    var os, ns := Elems(o.kids), Elems(n.kids);
    var b := if o.tag != n.tag then n else SelfPatched(s, o, n);
    if o.tag != n.tag {
      AnchoredEdit(s, ReplaceOp(k, [n]), true);
      assert TagOps(k, o, n)[1..] == [];
    } else {
      SelfFold(s, o, n, k, true);
    }
    BaseReady(s, o, n, k);
    LabelledElems(o.kids, k, 0);
    LabelledElems(n.kids, k, 0);
    KidsFold(b.kids, os, ns, k, 0);
    BelowFold(b, os, ns, k);
    FoldAppend([s], TagOps(k, o, n), KidChanges(os, ns, k, Some(k)));
  }

  /** After its own operations an element's children are still labelled and aligned. */
  lemma BaseReady(s: Tag, o: Tag, n: Tag, k: string)
    requires LabelledNode(s, k) && LabelledNode(o, k) && LabelledNode(n, k) && Start(s, o, n)
    ensures var b := if o.tag != n.tag then n else SelfPatched(s, o, n);
            Hit(b, D(k)) && Labelled(b.kids, k, 0) && Aligned(Elems(b.kids), Elems(o.kids), Elems(n.kids))
  {
    PruneAligned(o.kids, Elems(n.kids));
    SelfAligned(Elems(o.kids), Elems(n.kids));
    if o.tag == n.tag && TextChanged(o, n) {
      LabelledTexts([Text(DirectText(n))], k, 0);
    }
  }

  lemma BelowFold(b: Tag, os: seq<Tag>, ns: seq<Tag>, k: string)
    requires Hit(b, D(k))
    requires FoundAll(b.kids, SharedChanges(os, ns, k, 0))
    requires ApplyOps(b.kids, SharedChanges(os, ns, k, 0)) == KidsPatched(b.kids, os, ns)
    ensures ApplyOps([b], KidChanges(os, ns, k, Some(k))) == [b.(kids := KidsPatched(b.kids, os, ns) + Extra(os, ns))]
    ensures FoundAll([b], KidChanges(os, ns, k, Some(k)))
  {
    var shared := SharedChanges(os, ns, k, 0);
    forall op | op in shared ensures !Hit(b, D(op.selector)) {
      var i := SharedSelectors(os, ns, k, 0, op);
      UnderSub(k, i, op.selector);
    }
    FoldDescend(b, shared);
    var b1 := b.(kids := KidsPatched(b.kids, os, ns));
    AddsFold(b1, k, Extra(os, ns), true);
    FoldAppend([b], shared, Adds(Some(k), Extra(os, ns)));
  }

  lemma {:induction false} KidsFold(kids: seq<Node>, os: seq<Tag>, ns: seq<Tag>, p: string, j: nat)
    requires Labelled(kids, p, j) && Labelled(os, p, j) && Labelled(ns, p, j) && Aligned(Elems(kids), os, ns)
    ensures ApplyOps(kids, SharedChanges(os, ns, p, j)) == KidsPatched(kids, os, ns)
    ensures FoundAll(kids, SharedChanges(os, ns, p, j))
    decreases Size(ns), |kids|
  {
    if os == [] || ns == [] {
    } else if kids == [] {
      assert false;
    } else if !kids[0].Elem? {
      KidsFold(kids[1..], os, ns, p, j);
      KidsSkip(kids, os, ns, SharedChanges(os, ns, p, j));
    } else {
      assert LabelledNode(kids[0], Sub(p, j)) && LabelledNode(os[0], Sub(p, j)) && LabelledNode(ns[0], Sub(p, j));
      assert Elems(kids)[0] == kids[0] && Elems(kids)[1..] == Elems(kids[1..]);
      NodeFold(kids[0], os[0], ns[0], Sub(p, j));
      KidsFold(kids[1..], os[1..], ns[1..], p, j + 1);
      PatchedElsewhere(kids[0], os, ns, p, j);
      KidsStep(kids, os, ns, p, j);
    }
  }

  lemma KidsSkip(kids: seq<Node>, os: seq<Tag>, ns: seq<Tag>, ops: seq<Op>)
    requires kids != [] && !kids[0].Elem? && os != [] && ns != []
    requires ApplyOps(kids[1..], ops) == KidsPatched(kids[1..], os, ns) && FoundAll(kids[1..], ops)
    ensures ApplyOps(kids, ops) == KidsPatched(kids, os, ns) && FoundAll(kids, ops)
  {
    FoldFrame([kids[0]], kids[1..], [], ops);
    assert [kids[0]] + kids[1..] + [] == kids;
  }

  lemma PatchedElsewhere(kid: Tag, os: seq<Tag>, ns: seq<Tag>, p: string, j: nat)
    requires os != [] && ns != [] && LabelledNode(kid, Sub(p, j)) && LabelledNode(ns[0], Sub(p, j))
    ensures forall op :: op in SharedChanges(os[1..], ns[1..], p, j + 1) ==>
      !Has([NodePatched(kid, os[0], ns[0])], D(op.selector))
  {
    LabelledWithin(kid, Sub(p, j));
    LabelledWithin(ns[0], Sub(p, j));
    PatchedWithin(kid, os[0], ns[0], Sub(p, j));
    SharedElsewhere(NodePatched(kid, os[0], ns[0]), os[1..], ns[1..], p, j);
  }

  lemma KidsUnfold(kids: seq<Node>, os: seq<Tag>, ns: seq<Tag>, p: string, j: nat)
    requires kids != [] && os != [] && ns != [] && kids[0].Elem?
    ensures SharedChanges(os, ns, p, j) == NodeChanges(os[0], ns[0], Sub(p, j))
      + SharedChanges(os[1..], ns[1..], p, j + 1)
    ensures KidsPatched(kids, os, ns) == [NodePatched(kids[0], os[0], ns[0])] + KidsPatched(kids[1..], os[1..], ns[1..])
  {
  }

  lemma KidsStep(kids: seq<Node>, os: seq<Tag>, ns: seq<Tag>, p: string, j: nat)
    requires kids != [] && os != [] && ns != [] && kids[0].Elem?
    requires ApplyOps([kids[0]], NodeChanges(os[0], ns[0], Sub(p, j))) == [NodePatched(kids[0], os[0], ns[0])]
    requires FoundAll([kids[0]], NodeChanges(os[0], ns[0], Sub(p, j)))
    requires ApplyOps(kids[1..], SharedChanges(os[1..], ns[1..], p, j + 1)) == KidsPatched(kids[1..], os[1..], ns[1..])
    requires FoundAll(kids[1..], SharedChanges(os[1..], ns[1..], p, j + 1))
    requires forall op :: op in SharedChanges(os[1..], ns[1..], p, j + 1) ==>
      !Has([NodePatched(kids[0], os[0], ns[0])], D(op.selector))
    ensures ApplyOps(kids, SharedChanges(os, ns, p, j)) == KidsPatched(kids, os, ns)
    ensures FoundAll(kids, SharedChanges(os, ns, p, j))
  {
    KidsUnfold(kids, os, ns, p, j);
    assert [kids[0]] + kids[1..] == kids;
    KidsJoin(kids[0], kids[1..], NodeChanges(os[0], ns[0], Sub(p, j)), NodePatched(kids[0], os[0], ns[0]),
             SharedChanges(os[1..], ns[1..], p, j + 1), KidsPatched(kids[1..], os[1..], ns[1..]));
  }

  lemma KidsJoin(e: Node, tail: seq<Node>, own: seq<Op>, e': Node, rest: seq<Op>, tail': seq<Node>)
    requires FoundAll([e], own) && ApplyOps([e], own) == [e']
    requires FoundAll(tail, rest) && ApplyOps(tail, rest) == tail'
    requires forall op :: op in rest ==> !Has([e'], D(op.selector))
    ensures FoundAll([e] + tail, own + rest) && ApplyOps([e] + tail, own + rest) == [e'] + tail'
  {
    FoldHead(e, tail, own, e', rest);
  }
}
