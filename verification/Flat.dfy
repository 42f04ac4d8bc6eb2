/** compute_diff works on two flat dictionaries. On labelled trees the flat passes emit
    exactly the operations that a walk over both trees side by side would. */
module Flat {
  import opened Strings
  import opened Dom
  import opened Pipeline
  import opened Differ
  import opened Replay

  // ---- dictionaries with distinct keys ---------------------------------------------

  predicate Distinct(es: seq<Entry>) {
    es != [] ==> (forall e :: e in es[1..] ==> e.key != es[0].key) && Distinct(es[1..])
  }

  lemma {:induction false} DistinctAppend(a: seq<Entry>, b: seq<Entry>)
    requires Distinct(a) && Distinct(b) && forall e, e' :: e in a && e' in b ==> e.key != e'.key
    ensures Distinct(a + b)
  {
    if a == [] { assert a + b == b; }
    else {
      assert (a + b)[0] == a[0] && (a + b)[1..] == a[1..] + b;
      DistinctAppend(a[1..], b);
    }
  }

  function KeysOf(es: seq<Entry>): seq<string> {
    if es == [] then [] else [es[0].key] + KeysOf(es[1..])
  }

  lemma {:induction false} InsertOrder(m: NodeMap, es: seq<Entry>)
    requires Distinct(es) && forall e :: e in es ==> e.key !in m.entries
    ensures InsertAll(m, es).order == m.order + KeysOf(es)
    decreases es
  {
    if es == [] {
      assert m.order + KeysOf(es) == m.order;
    } else {
      assert es[0] in es && forall e :: e in es[1..] ==> e in es;
      InsertOrder(Insert(m, es[0]), es[1..]);
      assert m.order + [es[0].key] + KeysOf(es[1..]) == m.order + ([es[0].key] + KeysOf(es[1..]));
    }
  }

  lemma {:induction false} InsertDistinct(m: NodeMap, es: seq<Entry>)
    requires Distinct(es) && forall e :: e in es ==> e.key !in m.entries
    ensures var r := InsertAll(m, es).entries;
            && (forall k :: k in m.entries ==> k in r && r[k] == m.entries[k])
            && (forall e :: e in es ==> e.key in r && r[e.key] == e)
            && (forall k :: k in r && k !in m.entries ==> r[k] in es && r[k].key == k)
    decreases es
  {
    if es != [] {
      assert es[0] in es && forall e :: e in es <==> e == es[0] || e in es[1..];
      InsertDistinct(Insert(m, es[0]), es[1..]);
    }
  }

  lemma {:induction false} ListedKeys(m: NodeMap, es: seq<Entry>)
    requires forall e :: e in es ==> e.key in m.entries && m.entries[e.key] == e
    ensures (forall k :: k in KeysOf(es) ==> k in m.entries) && Listed(m, KeysOf(es)) == es
  {
    if es != [] {
      assert es[0] in es;
      ListedKeys(m, es[1..]);
      assert KeysOf(es)[1..] == KeysOf(es[1..]);
    }
  }

  // ---- walking a labelled forest -----------------------------------------------------

  lemma {:induction false} WalkSound(f: seq<Node>, p: string, j: nat, parent: Option<string>, e: Entry)
    requires Labelled(f, p, j) && e in Walk(f, parent)
    ensures Has(f, D(e.key)) && Find(f, D(e.key)) == e.node
  {
    if !f[0].Elem? {
      WalkSound(f[1..], p, j, parent, e);
    } else {
      var k := Sub(p, j);
      assert LabelledNode(f[0], k) && Key(f[0]) == Some(k);
      var own := [Entry(k, f[0], parent)];
      assert Walk(f, parent) == own + Walk(f[0].kids, Some(k)) + Walk(f[1..], parent);
      if e in own {
      } else if e in Walk(f[0].kids, Some(k)) {
        WalkSound(f[0].kids, k, 0, Some(k), e);
        var i := LabelledKeys(f[0].kids, k, 0, e.key);
        UnderSub(k, i, e.key);
      } else {
        WalkSound(f[1..], p, j + 1, parent, e);
        var i := LabelledKeys(f[1..], p, j + 1, e.key);
        NotInNode(f[0], p, i, j, e.key);
        HasOne(f[0], D(e.key));
      }
    }
  }

  lemma {:induction false} WalkComplete(
    f: seq<Node>, p: string, j: nat, parent: Option<string>, x: string) returns (e: Entry)
    requires Labelled(f, p, j) && Has(f, D(x))
    ensures e in Walk(f, parent) && e.key == x
  {
    if !f[0].Elem? {
      e := WalkComplete(f[1..], p, j, parent, x);
    } else {
      var k := Sub(p, j);
      assert LabelledNode(f[0], k) && Key(f[0]) == Some(k);
      if Hit(f[0], D(x)) {
        e := Entry(k, f[0], parent);
      } else if Has(f[0].kids, D(x)) {
        e := WalkComplete(f[0].kids, k, 0, Some(k), x);
      } else {
        e := WalkComplete(f[1..], p, j + 1, parent, x);
      }
    }
  }

  lemma WalkHead(f: seq<Node>, p: string, j: nat, parent: Option<string>)
    requires Labelled(f, p, j) && f != [] && f[0].Elem?
    ensures LabelledNode(f[0], Sub(p, j))
    ensures Walk(f, parent) == [Entry(Sub(p, j), f[0], parent)]
      + (Walk(f[0].kids, Some(Sub(p, j))) + Walk(f[1..], parent))
  {
    assert LabelledNode(f[0], Sub(p, j)) && Key(f[0]) == Some(Sub(p, j));
  }

  lemma {:induction false} WalkDistinct(f: seq<Node>, p: string, j: nat, parent: Option<string>)
    requires Labelled(f, p, j)
    ensures Distinct(Walk(f, parent))
  {
    if f == [] {
    } else if !f[0].Elem? {
      WalkDistinct(f[1..], p, j, parent);
    } else {
      var k := Sub(p, j);
      WalkHead(f, p, j, parent);
      var below, rest := Walk(f[0].kids, Some(k)), Walk(f[1..], parent);
      WalkDistinct(f[0].kids, k, 0, Some(k));
      WalkDistinct(f[1..], p, j + 1, parent);
      forall e | e in below ensures Under(k, e.key) && e.key != k {
        WalkSound(f[0].kids, k, 0, Some(k), e);
        var i := LabelledKeys(f[0].kids, k, 0, e.key);
        UnderSub(k, i, e.key);
      }
      forall e | e in rest ensures !Under(k, e.key) {
        WalkSound(f[1..], p, j + 1, parent, e);
        var i := LabelledKeys(f[1..], p, j + 1, e.key);
        if Under(k, e.key) { UnderOne(p, i, j, e.key); }
      }
      DistinctAppend(below, rest);
      DistinctAppend([Entry(k, f[0], parent)], below + rest);
    }
  }

  // ---- the removal pass ----------------------------------------------------------------

  lemma {:induction false} RemovalsAppend(a: seq<Entry>, b: seq<Entry>, kept: set<string>)
    ensures Removals(a + b, kept) == Removals(a, kept) + Removals(b, kept)
  {
    if a == [] { assert a + b == b; }
    else {
      assert (a + b)[0] == a[0] && (a + b)[1..] == a[1..] + b;
      RemovalsAppend(a[1..], b, kept);
    }
  }

  /** Below the children of `p` from number `j` on, the kept keys are those of `ns`. */
  ghost predicate KeptBelow(kept: set<string>, ns: seq<Tag>, p: string, j: nat) {
    forall x, i: nat :: i >= j && Under(Sub(p, i), x) ==> (x in kept <==> Has(ns, D(x)))
  }

  lemma {:induction false} NothingRemoved(f: seq<Node>, k: string, j: nat, kept: set<string>)
    requires Labelled(f, k, j) && forall x :: Under(k, x) ==> x !in kept
    ensures Removals(Walk(f, Some(k)), kept) == []
  {
    if f != [] {
      if !f[0].Elem? {
        NothingRemoved(f[1..], k, j, kept);
      } else {
        var c := Sub(k, j);
        WalkHead(f, k, j, Some(k));
        assert Under(k, k) && Under(c, c);
        UnderSub(k, j, c);
        forall x | Under(c, x) ensures x !in kept { UnderSub(k, j, x); }
        NothingRemoved(f[0].kids, c, 0, kept);
        NothingRemoved(f[1..], k, j + 1, kept);
        RemovalsAppend(Walk(f[0].kids, Some(c)), Walk(f[1..], Some(k)), kept);
        RemovalsAppend([Entry(c, f[0], Some(k))], Walk(f[0].kids, Some(c)) + Walk(f[1..], Some(k)), kept);
      }
    }
  }

  lemma KeptInside(kept: set<string>, ns: seq<Tag>, p: string, j: nat)
    requires ns != [] && Labelled(ns, p, j) && KeptBelow(kept, ns, p, j)
    ensures Sub(p, j) in kept
    ensures KeptBelow(kept, Elems(ns[0].kids), Sub(p, j), 0)
    ensures KeptBelow(kept, ns[1..], p, j + 1)
  {
    var k := Sub(p, j);
    assert LabelledNode(ns[0], k) && Under(k, k) && Hit(ns[0], D(k));
    forall x, i: nat | Under(Sub(k, i), x) ensures x in kept <==> Has(Elems(ns[0].kids), D(x)) {
      UnderSub(k, i, x);
      HasElems(ns[0].kids, D(x));
      if Has(ns[1..], D(x)) {
        var m := LabelledKeys(ns[1..], p, j + 1, x);
        UnderOne(p, m, j, x);
      }
    }
    forall x, i: nat | i >= j + 1 && Under(Sub(p, i), x) ensures x in kept <==> Has(ns[1..], D(x)) {
      NotInNode(ns[0], p, i, j, x);
      HasOne(ns[0], D(x));
    }
  }

  lemma RemovalsHead(f: seq<Node>, p: string, j: nat, parent: Option<string>, kept: set<string>)
    requires Labelled(f, p, j) && f != [] && f[0].Elem?
    ensures var k := Sub(p, j);
            Removals(Walk(f, parent), kept)
            == Removal(Entry(k, f[0], parent), kept)
               + (Removals(Walk(f[0].kids, Some(k)), kept) + Removals(Walk(f[1..], parent), kept))
  {
    var k := Sub(p, j);
    WalkHead(f, p, j, parent);
    var e, below, rest := Entry(k, f[0], parent), Walk(f[0].kids, Some(k)), Walk(f[1..], parent);
    RemovalsAppend(below, rest, kept);
    assert ([e] + (below + rest))[1..] == below + rest;
  }

  /** Nothing is kept of what is beyond the new children. */
  lemma GoneHead(f: seq<Node>, p: string, j: nat, parent: Option<string>, kept: set<string>)
    requires Labelled(f, p, j) && f != [] && f[0].Elem? && KeptBelow(kept, [], p, j)
    requires parent.Some? ==> parent.value in kept
    ensures var k := Sub(p, j);
            Removal(Entry(k, f[0], parent), kept) == [RemoveOp(k)] && Removals(Walk(f[0].kids, Some(k)), kept) == []
    ensures KeptBelow(kept, [], p, j + 1)
  {
    var k := Sub(p, j);
    assert LabelledNode(f[0], k) && Under(k, k);
    forall x | Under(k, x) ensures x !in kept { assert !Has([], D(x)); }
    NothingRemoved(f[0].kids, k, 0, kept);
  }

  lemma ElemsHead(f: seq<Node>)
    requires f != [] && f[0].Elem?
    ensures Elems(f) != [] && Elems(f)[0] == f[0] && Elems(f)[1..] == Elems(f[1..])
  {
  }

  lemma RemovalGone(f: seq<Node>, p: string, j: nat, parent: Option<string>, kept: set<string>)
    requires Labelled(f, p, j) && f != [] && f[0].Elem? && KeptBelow(kept, [], p, j)
    requires parent.Some? ==> parent.value in kept
    requires Removals(Walk(f[1..], parent), kept) == KidRemovals(Elems(f[1..]), [], p, j + 1)
    ensures Removals(Walk(f, parent), kept) == KidRemovals(Elems(f), [], p, j)
  {
    RemovalsHead(f, p, j, parent, kept);
    ElemsHead(f);
    GoneHead(f, p, j, parent, kept);
    Unit(Removals(Walk(f[1..], parent), kept));
  }

  lemma RemovalKept(f: seq<Node>, ns: seq<Tag>, p: string, j: nat, parent: Option<string>, kept: set<string>)
    requires Labelled(f, p, j) && f != [] && f[0].Elem? && ns != [] && Sub(p, j) in kept
    requires var k := Sub(p, j);
             Removals(Walk(f[0].kids, Some(k)), kept) == KidRemovals(Elems(f[0].kids), Elems(ns[0].kids), k, 0)
    requires Removals(Walk(f[1..], parent), kept) == KidRemovals(Elems(f[1..]), ns[1..], p, j + 1)
    ensures Removals(Walk(f, parent), kept) == KidRemovals(Elems(f), ns, p, j)
  {
    RemovalsHead(f, p, j, parent, kept);
    ElemsHead(f);
    RemovalJoin(Removal(Entry(Sub(p, j), f[0], parent), kept), Elems(f), ns, p, j);
  }

  lemma {:induction false} RemovalPass(
    f: seq<Node>, ns: seq<Tag>, p: string, j: nat, parent: Option<string>, kept: set<string>)
    requires Labelled(f, p, j) && Labelled(ns, p, j) && KeptBelow(kept, ns, p, j)
    requires parent.Some? ==> parent.value in kept
    ensures Removals(Walk(f, parent), kept) == KidRemovals(Elems(f), ns, p, j)
  {
    if f == [] {
    } else if !f[0].Elem? {
      RemovalPass(f[1..], ns, p, j, parent, kept);
    } else if ns == [] {
      GoneHead(f, p, j, parent, kept);
      RemovalPass(f[1..], [], p, j + 1, parent, kept);
      RemovalGone(f, p, j, parent, kept);
    } else {
      var k := Sub(p, j);
      KeptInside(kept, ns, p, j);
      KeptKids(f, ns, p, j);
      RemovalPass(f[0].kids, Elems(ns[0].kids), k, 0, Some(k), kept);
      RemovalPass(f[1..], ns[1..], p, j + 1, parent, kept);
      RemovalKept(f, ns, p, j, parent, kept);
    }
  }

  lemma KeptKids(f: seq<Node>, ns: seq<Tag>, p: string, j: nat)
    requires Labelled(f, p, j) && Labelled(ns, p, j) && f != [] && f[0].Elem? && ns != []
    ensures Labelled(f[0].kids, Sub(p, j), 0) && Labelled(Elems(ns[0].kids), Sub(p, j), 0)
    ensures Labelled(f[1..], p, j + 1) && Labelled(ns[1..], p, j + 1)
  {
    assert LabelledNode(f[0], Sub(p, j)) && LabelledNode(ns[0], Sub(p, j));
    LabelledElems(ns[0].kids, Sub(p, j), 0);
  }

  lemma RemovalJoin(own: seq<Op>, os: seq<Tag>, ns: seq<Tag>, p: string, j: nat)
    requires own == [] && os != [] && ns != []
    ensures own + (KidRemovals(Elems(os[0].kids), Elems(ns[0].kids), Sub(p, j), 0)
      + KidRemovals(os[1..], ns[1..], p, j + 1))
         == KidRemovals(os, ns, p, j)
  {
  }

  // ---- the change pass -------------------------------------------------------------------

  lemma {:induction false} ChangesAppend(a: seq<Entry>, b: seq<Entry>, prev: map<string, Entry>)
    ensures Changes(a + b, prev) == Changes(a, prev) + Changes(b, prev)
  {
    if a == [] { assert a + b == b; }
    else {
      assert (a + b)[0] == a[0] && (a + b)[1..] == a[1..] + b;
      ChangesAppend(a[1..], b, prev);
    }
  }

  /** Below the children of `p` from number `j` on, the old dictionary is that of `os`. */
  ghost predicate PrevBelow(prev: map<string, Entry>, os: seq<Tag>, p: string, j: nat) {
    forall x, i: nat :: i >= j && Under(Sub(p, i), x) ==>
      (x in prev <==> Has(os, D(x))) && (x in prev ==> prev[x].node == Find(os, D(x)))
  }

  lemma {:induction false} NothingChanged(f: seq<Node>, k: string, j: nat, prev: map<string, Entry>)
    requires Labelled(f, k, j) && forall x :: Under(k, x) ==> x !in prev
    ensures Changes(Walk(f, Some(k)), prev) == []
  {
    if f != [] {
      if !f[0].Elem? {
        NothingChanged(f[1..], k, j, prev);
      } else {
        var c := Sub(k, j);
        WalkHead(f, k, j, Some(k));
        assert Under(k, k) && Under(c, c);
        UnderSub(k, j, c);
        forall x | Under(c, x) ensures x !in prev { UnderSub(k, j, x); }
        NothingChanged(f[0].kids, c, 0, prev);
        NothingChanged(f[1..], k, j + 1, prev);
        ChangesAppend(Walk(f[0].kids, Some(c)), Walk(f[1..], Some(k)), prev);
        ChangesAppend([Entry(c, f[0], Some(k))], Walk(f[0].kids, Some(c)) + Walk(f[1..], Some(k)), prev);
      }
    }
  }

  lemma PrevInside(prev: map<string, Entry>, os: seq<Tag>, p: string, j: nat)
    requires os != [] && Labelled(os, p, j) && PrevBelow(prev, os, p, j)
    ensures Sub(p, j) in prev && prev[Sub(p, j)].node == os[0]
    ensures PrevBelow(prev, Elems(os[0].kids), Sub(p, j), 0)
    ensures PrevBelow(prev, os[1..], p, j + 1)
  {
    assert LabelledNode(os[0], Sub(p, j)) && Under(Sub(p, j), Sub(p, j)) && Hit(os[0], D(Sub(p, j)));
    PrevKids(prev, os, p, j);
    PrevRest(prev, os, p, j);
  }

  lemma PrevKids(prev: map<string, Entry>, os: seq<Tag>, p: string, j: nat)
    requires os != [] && Labelled(os, p, j) && PrevBelow(prev, os, p, j)
    ensures PrevBelow(prev, Elems(os[0].kids), Sub(p, j), 0)
  {
    forall x, i: nat | Under(Sub(Sub(p, j), i), x)
      ensures x in prev <==> Has(Elems(os[0].kids), D(x))
      ensures x in prev ==> prev[x].node == Find(Elems(os[0].kids), D(x))
    {
      UnderSub(Sub(p, j), i, x);
      BelowFirst(os, p, j, x);
    }
  }

  /** A label below the first element's is found among its children. */
  lemma BelowFirst(os: seq<Tag>, p: string, j: nat, x: string)
    requires os != [] && Labelled(os, p, j) && Under(Sub(p, j), x) && x != Sub(p, j)
    ensures Has(os, D(x)) <==> Has(Elems(os[0].kids), D(x))
    ensures Has(os, D(x)) ==> Find(os, D(x)) == Find(Elems(os[0].kids), D(x))
  {
    assert LabelledNode(os[0], Sub(p, j));
    HasElems(os[0].kids, D(x));
    if Has(os[1..], D(x)) {
      var m := LabelledKeys(os[1..], p, j + 1, x);
      UnderOne(p, m, j, x);
    }
  }

  lemma PrevRest(prev: map<string, Entry>, os: seq<Tag>, p: string, j: nat)
    requires os != [] && Labelled(os, p, j) && PrevBelow(prev, os, p, j)
    ensures PrevBelow(prev, os[1..], p, j + 1)
  {
    forall x, i: nat | i >= j + 1 && Under(Sub(p, i), x)
      ensures x in prev <==> Has(os[1..], D(x))
      ensures x in prev ==> prev[x].node == Find(os[1..], D(x))
    {
      NotInNode(os[0], p, i, j, x);
      HasOne(os[0], D(x));
    }
  }

  function Addressed(parent: Option<string>, prev: map<string, Entry>): Option<string> {
    if parent.Some? && parent.value in prev then parent else None
  }

  lemma ChangesHead(f: seq<Node>, p: string, j: nat, parent: Option<string>, prev: map<string, Entry>)
    requires Labelled(f, p, j) && f != [] && f[0].Elem?
    ensures var k := Sub(p, j);
            Changes(Walk(f, parent), prev)
            == Change(Entry(k, f[0], parent), prev)
               + (Changes(Walk(f[0].kids, Some(k)), prev) + Changes(Walk(f[1..], parent), prev))
  {
    var k := Sub(p, j);
    WalkHead(f, p, j, parent);
    var e, below, rest := Entry(k, f[0], parent), Walk(f[0].kids, Some(k)), Walk(f[1..], parent);
    ChangesAppend(below, rest, prev);
    assert ([e] + (below + rest))[1..] == below + rest;
  }

  /** What the change pass emits for the children of one tag, from number `j` on. */
  function PassOps(os: seq<Tag>, ns: seq<Tag>, p: string, j: nat, sel: Option<string>): seq<Op> {
    SharedChanges(os, ns, p, j) + Adds(sel, Extra(os, ns))
  }

  lemma PassNew(ns: seq<Tag>, p: string, j: nat, sel: Option<string>)
    requires ns != []
    ensures PassOps([], ns, p, j, sel) == Adds(sel, [ns[0]]) + PassOps([], ns[1..], p, j + 1, sel)
  {
    assert Extra([], ns) == ns && Extra([], ns[1..]) == ns[1..];
    assert [ns[0]][1..] == [];
    assert [] + Adds(sel, ns) == Adds(sel, ns) && [] + Adds(sel, ns[1..]) == Adds(sel, ns[1..]);
  }

  lemma PassShared(os: seq<Tag>, ns: seq<Tag>, p: string, j: nat, sel: Option<string>)
    requires os != [] && ns != []
    ensures PassOps(os, ns, p, j, sel) == NodeChanges(os[0], ns[0], Sub(p, j))
      + PassOps(os[1..], ns[1..], p, j + 1, sel)
  {
    assert Extra(os, ns) == Extra(os[1..], ns[1..]);
    var own, rest, adds := NodeChanges(os[0], ns[0], Sub(p, j)), SharedChanges(os[1..], ns[1..], p, j + 1),
        Adds(sel, Extra(os, ns));
    assert (own + rest) + adds == own + (rest + adds);
  }

  /** A key the old dictionary does not have, and none below it. */
  lemma NewHead(f: seq<Node>, p: string, j: nat, parent: Option<string>, prev: map<string, Entry>)
    requires Labelled(f, p, j) && f != [] && f[0].Elem? && PrevBelow(prev, [], p, j)
    ensures Change(Entry(Sub(p, j), f[0], parent), prev) == Adds(Addressed(parent, prev), [f[0]])
    ensures Changes(Walk(f[0].kids, Some(Sub(p, j))), prev) == []
    ensures PrevBelow(prev, [], p, j + 1)
  {
    var k := Sub(p, j);
    assert LabelledNode(f[0], k) && Under(k, k);
    forall x | Under(k, x) ensures x !in prev { assert !Has([], D(x)); }
    NothingChanged(f[0].kids, k, 0, prev);
    assert [f[0]][1..] == [] && [AddOp(k, [f[0]])] + [] == [AddOp(k, [f[0]])];
  }

  /** A key both dictionaries have. */
  lemma OldHead(f: seq<Node>, os: seq<Tag>, p: string, j: nat, parent: Option<string>, prev: map<string, Entry>)
    requires os != [] && f != [] && f[0].Elem? && Sub(p, j) in prev && prev[Sub(p, j)].node == os[0]
    requires Changes(Walk(f[0].kids, Some(Sub(p, j))), prev)
          == PassOps(Elems(os[0].kids), Elems(f[0].kids), Sub(p, j), 0, Some(Sub(p, j)))
    ensures Change(Entry(Sub(p, j), f[0], parent), prev) + Changes(Walk(f[0].kids, Some(Sub(p, j))), prev)
         == NodeChanges(os[0], f[0], Sub(p, j))
  {
  }

  lemma OpsAssociate(a: seq<Op>, b: seq<Op>, c: seq<Op>)
    ensures a + (b + c) == (a + b) + c && a + ([] + c) == a + c
  {
  }

  lemma {:induction false} ChangePass(
    f: seq<Node>, os: seq<Tag>, p: string, j: nat, parent: Option<string>, prev: map<string, Entry>)
    requires Labelled(f, p, j) && Labelled(os, p, j) && PrevBelow(prev, os, p, j)
    ensures Changes(Walk(f, parent), prev) == PassOps(os, Elems(f), p, j, Addressed(parent, prev))
  {
    var k, sel := Sub(p, j), Addressed(parent, prev);
    if f == [] {
    } else if !f[0].Elem? {
      ChangePass(f[1..], os, p, j, parent, prev);
    } else if os == [] {
      ChangesHead(f, p, j, parent, prev);
      ElemsHead(f);
      NewHead(f, p, j, parent, prev);
      ChangePass(f[1..], [], p, j + 1, parent, prev);
      PassNew(Elems(f), p, j, sel);
      OpsAssociate(Adds(sel, [f[0]]), [], Changes(Walk(f[1..], parent), prev));
    } else {
      ChangesHead(f, p, j, parent, prev);
      ElemsHead(f);
      PrevInside(prev, os, p, j);
      KeptKids(f, os, p, j);
      ChangePass(f[0].kids, Elems(os[0].kids), k, 0, Some(k), prev);
      ChangePass(f[1..], os[1..], p, j + 1, parent, prev);
      OldHead(f, os, p, j, parent, prev);
      PassShared(os, Elems(f), p, j, sel);
      OpsAssociate(Change(Entry(k, f[0], parent), prev), Changes(Walk(f[0].kids, Some(k)), prev),
                   Changes(Walk(f[1..], parent), prev));
    }
  }
}
