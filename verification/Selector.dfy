/** web_controller/interceptor.js: the CSS path computed for an element of the mirror,
    and where it leads on the live page. Element trees carry what selectors see: names,
    ids, and element children. A path is the sequence of child positions from the document
    element. */
module Selector {
  import opened Strings
  import Dom
  import Pipeline

  /** The name is the one type selectors are compared with, letter for letter: an element of
      HTML has it in lower case, but SVG has names like linearGradient. */
  datatype E = E(name: string, id: string, kids: seq<E>)

  /** nodeName.toLowerCase(), and what an HTML parser makes of the name. */
  function TagOf(e: E): string {
    Lower(e.name)
  }

  type Path = seq<nat>

  /** One compound of the selector: `#id`, or `tag:nth-of-type(n)`, which is written
      (and matches) as plain `tag` when n is 1. */
  datatype Compound = ById(id: string) | ByType(tag: string, nth: nat)

  predicate Valid(r: E, p: Path)
    decreases p
  {
    p != [] ==> p[0] < |r.kids| && Valid(r.kids[p[0]], p[1..])
  }

  function At(r: E, p: Path): E
    requires Valid(r, p)
    decreases p
  {
    if p == [] then r else At(r.kids[p[0]], p[1..])
  }

  function Parent(p: Path): Path
    requires p != []
  {
    p[..|p| - 1]
  }

  function Last(p: Path): nat
    requires p != []
  {
    p[|p| - 1]
  }

  lemma {:induction false} ValidParent(r: E, p: Path)
    requires p != []
    ensures Valid(r, p) <==> Valid(r, Parent(p)) && Last(p) < |At(r, Parent(p)).kids|
    ensures Valid(r, p) ==> At(r, p) == At(r, Parent(p)).kids[Last(p)]
    decreases p
  {
    if |p| > 1 && p[0] < |r.kids| {
      assert Parent(p)[1..] == Parent(p[1..]) && Last(p[1..]) == Last(p);
      ValidParent(r.kids[p[0]], p[1..]);
    }
  }

  function CountTag(es: seq<E>, t: string): nat {
    if es == [] then 0 else (if TagOf(es[0]) == t then 1 else 0) + CountTag(es[1..], t)
  }

  function CountName(es: seq<E>, name: string): nat {
    if es == [] then 0 else (if es[0].name == name then 1 else 0) + CountName(es[1..], name)
  }

  /** Position among the siblings of the same tag, from 1. */
  function Nth(r: E, p: Path): nat
    requires Valid(r, p)
  {
    if p == [] then 1
    else
      ValidParent(r, p);
      1 + CountTag(At(r, Parent(p)).kids[..Last(p)], TagOf(At(r, p)))
  }

  /** Position among the siblings of the same name, from 1, as `:nth-of-type` counts. */
  function NthOfType(r: E, p: Path): nat
    requires Valid(r, p)
  {
    if p == [] then 1
    else
      ValidParent(r, p);
      1 + CountName(At(r, Parent(p)).kids[..Last(p)], At(r, p).name)
  }

  // ---- generation ------------------------------------------------------------------------

  function SelectorOf(r: E, p: Path): seq<Compound>
    requires Valid(r, p)
    decreases |p|
  {
    var e := At(r, p);
    if e.id != "" then [ById(e.id)]
    else if p == [] then [ByType(TagOf(e), 1)]
    else
      ValidParent(r, p);
      SelectorOf(r, Parent(p)) + [ByType(TagOf(e), Nth(r, p))]
  }

  method GetCssSelector(r: E, target: Path) returns (path: seq<Compound>)
    requires Valid(r, target)
    ensures path == SelectorOf(r, target)
  {
    if At(r, target).id != "" { return [ById(At(r, target).id)]; }
    path := [];
    var el := target;
    while true
      invariant Valid(r, el) && SelectorOf(r, el) + path == SelectorOf(r, target)
      decreases |el|
    {
      var e := At(r, el);
      if e.id != "" {
        path := [ById(e.id)] + path;
        break;
      }
      var nth := 1;
      if el != [] {
        ValidParent(r, el);
        var siblings := At(r, Parent(el)).kids;
        var sib := Last(el);
        assert siblings[sib..Last(el)] == [];
        while sib > 0
          invariant sib <= Last(el) && nth == 1 + CountTag(siblings[sib..Last(el)], TagOf(e))
        {
          sib := sib - 1;
          assert siblings[sib..Last(el)][1..] == siblings[sib + 1..Last(el)];
          if TagOf(siblings[sib]) == TagOf(e) { nth := nth + 1; }
        }
        assert siblings[0..Last(el)] == siblings[..Last(el)];
      }
      path := [ByType(TagOf(e), nth)] + path;
      if el == [] { break; }
      el := Parent(el);
    }
  }

  // ---- resolution --------------------------------------------------------------------------

  predicate Fits(r: E, p: Path, c: Compound)
    requires Valid(r, p)
  {
    match c
    case ById(i) => At(r, p).id == i
    case ByType(t, n) => At(r, p).name == t && (n == 1 || NthOfType(r, p) == n)
  }

  /** The compounds, joined by child combinators, match at `p` (W3C Selectors Level 3,
      sections 6.6.5.4 and 8.2). The leftmost compound may match at any depth. */
  predicate Matches(r: E, p: Path, sel: seq<Compound>)
    requires Valid(r, p) && sel != []
    decreases |p|
  {
    && Fits(r, p, sel[|sel| - 1])
    && (|sel| > 1 ==> p != [] && (ValidParent(r, p); Matches(r, Parent(p), sel[..|sel| - 1])))
  }

  /** Document order. */
  predicate Before(p: Path, q: Path) {
    q != [] && (p == [] || p[0] < q[0] || (p[0] == q[0] && Before(p[1..], q[1..])))
  }

  /** querySelector: the first match in document order at or below `e`, which sits at `p`. */
  function Query(r: E, p: Path, sel: seq<Compound>): Option<Path>
    requires Valid(r, p) && sel != []
    decreases At(r, p), 1, 0
  {
    if Matches(r, p, sel) then Some(p) else QueryKids(r, p, 0, sel)
  }

  function QueryKids(r: E, p: Path, i: nat, sel: seq<Compound>): Option<Path>
    requires Valid(r, p) && sel != [] && i <= |At(r, p).kids|
    decreases At(r, p), 0, |At(r, p).kids| - i
  {
    if i == |At(r, p).kids| then None
    else
      assert Parent(p + [i]) == p && Last(p + [i]) == i;
      ValidParent(r, p + [i]);
      var found := Query(r, p + [i], sel);
      if found.Some? then found else QueryKids(r, p, i + 1, sel)
  }

  lemma {:induction false} BeforePrefix(p: Path, a: Path, b: Path)
    ensures Before(p + a, p + b) <==> Before(a, b)
  {
    if p == [] { assert p + a == a && p + b == b; }
    else {
      assert (p + a)[0] == p[0] == (p + b)[0] && (p + a)[1..] == p[1..] + a && (p + b)[1..] == p[1..] + b;
      BeforePrefix(p[1..], a, b);
    }
  }

  /** The search returns the least match, and finds one if there is one. */
  lemma {:induction false} QueryFirst(r: E, p: Path, sel: seq<Compound>, q: Path)
    requires Valid(r, p) && sel != [] && p <= q && Valid(r, q) && Matches(r, q, sel)
    ensures var f := Query(r, p, sel);
            f.Some? && p <= f.value && Valid(r, f.value) && Matches(r, f.value, sel)
                && (f.value == q || Before(f.value, q))
    decreases At(r, p), 1, 0
  {
    if Matches(r, p, sel) {
      if p != q {
        assert p + [] == p && q == p + q[|p|..];
        BeforePrefix(p, [], q[|p|..]);
      }
    } else {
      assert p != q && q == p + q[|p|..];
      KidOnPath(r, p, q);
      QueryKidsFirst(r, p, 0, sel, q);
    }
  }

  /** A proper descendant's path goes on through one of the children. */
  lemma {:induction false} KidOnPath(r: E, p: Path, q: Path)
    requires Valid(r, p) && Valid(r, q) && p < q
    ensures q[|p|] < |At(r, p).kids| && p + [q[|p|]] <= q
    ensures Valid(r, p + [q[|p|]]) && At(r, p + [q[|p|]]) == At(r, p).kids[q[|p|]]
    decreases p
  {
    if p == [] {
      assert [q[0]] <= q && [q[0]][1..] == [];
      assert p + [q[0]] == [q[0]];
    } else {
      KidOnPath(r.kids[p[0]], p[1..], q[1..]);
      assert (p + [q[|p|]])[1..] == p[1..] + [q[|p|]];
    }
  }

  lemma {:induction false} QueryKidsFirst(r: E, p: Path, i: nat, sel: seq<Compound>, q: Path)
    requires Valid(r, p) && sel != [] && p < q && Valid(r, q) && Matches(r, q, sel) && i <= q[|p|] < |At(r, p).kids|
    ensures var f := QueryKids(r, p, i, sel);
            f.Some? && p <= f.value && Valid(r, f.value) && Matches(r, f.value, sel)
                && (f.value == q || Before(f.value, q))
    decreases At(r, p), 0, |At(r, p).kids| - i
  {
    var k := p + [i];
    assert Parent(k) == p && Last(k) == i;
    ValidParent(r, k);
    var f := Query(r, k, sel);
    if i == q[|p|] {
      KidOnPath(r, p, q);
      QueryFirst(r, k, sel, q);
    } else if f.Some? {
      QuerySound(r, k, sel);
      assert f.value == p + f.value[|p|..] && q == p + q[|p|..];
      BeforePrefix(p, f.value[|p|..], q[|p|..]);
    } else {
      QueryKidsFirst(r, p, i + 1, sel, q);
    }
  }

  lemma {:induction false} QuerySound(r: E, p: Path, sel: seq<Compound>)
    requires Valid(r, p) && sel != [] && Query(r, p, sel).Some?
    ensures var f := Query(r, p, sel).value; p <= f && Valid(r, f) && Matches(r, f, sel)
    decreases At(r, p), 1, 0
  {
    if !Matches(r, p, sel) { QueryKidsSound(r, p, 0, sel); }
  }

  lemma {:induction false} QueryKidsSound(r: E, p: Path, i: nat, sel: seq<Compound>)
    requires Valid(r, p) && sel != [] && i <= |At(r, p).kids| && QueryKids(r, p, i, sel).Some?
    ensures var f := QueryKids(r, p, i, sel).value; p <= f && Valid(r, f) && Matches(r, f, sel)
    decreases At(r, p), 0, |At(r, p).kids| - i
  {
    var k := p + [i];
    assert Parent(k) == p && Last(k) == i;
    ValidParent(r, k);
    if Query(r, k, sel).Some? { QuerySound(r, k, sel); } else { QueryKidsSound(r, p, i + 1, sel); }
  }

  // ---- the generated selector resolves to its own element ------------------------------------

  /** A valid HTML document: ids are unique, and the root's tag occurs only at the root. */
  ghost predicate WellFormed(r: E) {
    && (forall p, q :: Valid(r, p) && Valid(r, q) && At(r, p).id != "" && At(r, p).id == At(r, q).id ==> p == q)
    && (forall p :: Valid(r, p) && TagOf(At(r, p)) == TagOf(r) ==> p == [])
  }

  /** The element's name is in lower case, and no sibling before it has a name that differs
      from it in letter case only. */
  predicate Named(r: E, p: Path)
    requires Valid(r, p)
  {
    At(r, p).name == TagOf(At(r, p)) && NthOfType(r, p) == Nth(r, p)
  }

  /** So are all elements the selector names by their tag: those from the element up to the
      nearest id. */
  predicate Addressable(r: E, p: Path)
    requires Valid(r, p)
    decreases |p|
  {
    At(r, p).id != "" || (Named(r, p) && (p != [] ==> (ValidParent(r, p); Addressable(r, Parent(p)))))
  }

  lemma {:induction false} CountMonotone(es: seq<E>, i: nat, j: nat, t: string)
    requires i < j <= |es|
    ensures CountName(es[..i], t) <= CountName(es[..j], t)
    ensures es[i].name == t ==> CountName(es[..i], t) < CountName(es[..j], t)
  {
    if i == 0 {
      assert es[..0] == [] && es[..j][0] == es[0];
    } else {
      assert es[..i][1..] == es[1..][..i - 1] && es[..j][1..] == es[1..][..j - 1];
      CountMonotone(es[1..], i - 1, j - 1, t);
    }
  }

  /** There are no more of a name in lower case than of the tag. */
  lemma {:induction false} CountsCompare(es: seq<E>, t: string)
    requires Lower(t) == t
    ensures CountName(es, t) <= CountTag(es, t)
  {
    if es != [] { CountsCompare(es[1..], t); }
  }

  lemma {:induction false} SelectorNotEmpty(r: E, p: Path)
    requires Valid(r, p)
    ensures SelectorOf(r, p) != []
    ensures At(r, p).id == "" && p != [] ==>
      (ValidParent(r, p); SelectorOf(r, p)[..|SelectorOf(r, p)| - 1] == SelectorOf(r, Parent(p)) != [])
    decreases |p|
  {
    if At(r, p).id == "" && p != [] {
      ValidParent(r, p);
      SelectorNotEmpty(r, Parent(p));
    }
  }

  /** The selector matches its own element exactly if that is addressable. */
  lemma {:induction false} SelfMatches(r: E, p: Path)
    requires Valid(r, p)
    ensures SelectorOf(r, p) != []
    ensures Matches(r, p, SelectorOf(r, p)) <==> Addressable(r, p)
    decreases |p|
  {
    SelectorNotEmpty(r, p);
    if At(r, p).id == "" {
      OwnFits(r, p);
      if p != [] {
        ValidParent(r, p);
        SelfMatches(r, Parent(p));
      }
    }
  }

  lemma OwnFits(r: E, p: Path)
    requires Valid(r, p)
    ensures Fits(r, p, ByType(TagOf(At(r, p)), Nth(r, p))) <==> Named(r, p)
  {
    if p != [] && At(r, p).name == TagOf(At(r, p)) {
      ValidParent(r, p);
      CountsCompare(At(r, Parent(p)).kids[..Last(p)], At(r, p).name);
    }
  }

  /** Same length, earlier parent: earlier child. */
  lemma {:induction false} BeforeExtend(p: Path, q: Path, i: nat, j: nat)
    requires |p| == |q|
    ensures Before(p, q) ==> Before(p + [i], q + [j])
    ensures p == q ==> (Before(p + [i], q + [j]) <==> i < j)
  {
    if p == [] {
      assert p + [i] == [i] && q + [j] == [j];
    } else {
      assert (p + [i])[1..] == p[1..] + [i] && (q + [j])[1..] == q[1..] + [j];
      BeforeExtend(p[1..], q[1..], i, j);
    }
  }

  /** Among siblings the position decides, or else the first of its tag is meant. */
  lemma SiblingMatch(r: E, p: Path, q: Path)
    requires p != [] && q != [] && Valid(r, p) && Valid(r, q) && Parent(p) == Parent(q)
    requires Fits(r, q, ByType(TagOf(At(r, p)), Nth(r, p))) && Named(r, p)
    ensures Last(p) <= Last(q)
  {
    ValidParent(r, p);
    ValidParent(r, q);
    var kids := At(r, Parent(p)).kids;
    if Last(q) < Last(p) { CountMonotone(kids, Last(q), Last(p), At(r, p).name); }
  }

  /** Without an id, the last compound is for the element and the rest for its parent. */
  lemma ParentMatch(r: E, p: Path, q: Path)
    requires Valid(r, p) && Valid(r, q) && p != [] && At(r, p).id == "" && SelectorOf(r, p) != []
    requires Matches(r, q, SelectorOf(r, p))
    ensures q != [] && Valid(r, Parent(p)) && Valid(r, Parent(q)) && SelectorOf(r, Parent(p)) != []
    ensures Matches(r, Parent(q), SelectorOf(r, Parent(p))) && Fits(r, q, ByType(TagOf(At(r, p)), Nth(r, p)))
  {
    var sel := SelectorOf(r, p);
    ValidParent(r, p);
    ValidParent(r, q);
    SelectorNotEmpty(r, Parent(p));
    assert sel[..|sel| - 1] == SelectorOf(r, Parent(p));
  }

  /** The selector is often not unique, but the element it was made for, if addressable, is
      the least of its matches: a compound without a position was the first of its tag. */
  lemma {:induction false} LeastMatch(r: E, p: Path, q: Path)
    requires WellFormed(r) && Valid(r, p) && Valid(r, q) && SelectorOf(r, p) != [] && Addressable(r, p)
    requires Matches(r, q, SelectorOf(r, p))
    ensures |q| == |p| && (q == p || Before(p, q))
    decreases |p|
  {
    if At(r, p).id == "" && p != [] {
      ParentMatch(r, p, q);
      LeastMatch(r, Parent(p), Parent(q));
      if Parent(p) == Parent(q) { SiblingMatch(r, p, q); }
      LastDecides(p, q);
    }
  }

  lemma LastDecides(p: Path, q: Path)
    requires p != [] && q != [] && |p| == |q|
    requires Before(Parent(p), Parent(q)) || (Parent(p) == Parent(q) && Last(p) <= Last(q))
    ensures q == p || Before(p, q)
  {
    assert p == Parent(p) + [Last(p)] && q == Parent(q) + [Last(q)];
    BeforeExtend(Parent(p), Parent(q), Last(p), Last(q));
  }

  /** Resolving the generated selector on the same document gives back the element if and
      only if that is addressable. */
  lemma Resolves(r: E, p: Path)
    requires WellFormed(r) && Valid(r, p)
    ensures SelectorOf(r, p) != []
    ensures Query(r, [], SelectorOf(r, p)) == Some(p) <==> Addressable(r, p)
  {
    SelfMatches(r, p);
    if Addressable(r, p) {
      QueryFirst(r, [], SelectorOf(r, p), p);
      var f := Query(r, [], SelectorOf(r, p)).value;
      LeastMatch(r, p, f);
      if f != p { BeforeAsymmetric(f, p); }
    } else if Query(r, [], SelectorOf(r, p)) == Some(p) {
      QuerySound(r, [], SelectorOf(r, p));
    }
  }

  lemma {:induction false} BeforeAsymmetric(p: Path, q: Path)
    ensures !(Before(p, q) && Before(q, p))
  {
    if p != [] && q != [] && p[0] == q[0] { BeforeAsymmetric(p[1..], q[1..]); }
  }

  // ---- from the mirror to the live page ---------------------------------------------------------

  /** The element tree of a parsed document. */
  function Skeleton(f: seq<Dom.Node>): seq<E> {
    if f == [] then []
    else if f[0].Elem? then [E(f[0].tag, Dom.Attr(f[0], Dom.ID), Skeleton(f[0].kids))] + Skeleton(f[1..])
    else Skeleton(f[1..])
  }

  function StripEach(es: seq<E>): seq<E> {
    if es == [] then []
    else if TagOf(es[0]) in Pipeline.STRIPPED then StripEach(es[1..])
    else [StripOne(es[0])] + StripEach(es[1..])
  }

  function StripOne(e: E): E {
    E(e.name, e.id, StripEach(e.kids))
  }

  /** The live position of the i-th child that survives stripping. */
  function LiveIndex(es: seq<E>, i: nat): nat
    requires i < |StripEach(es)|
  {
    if TagOf(es[0]) in Pipeline.STRIPPED then 1 + LiveIndex(es[1..], i)
    else if i == 0 then 0
    else 1 + LiveIndex(es[1..], i - 1)
  }

  lemma {:induction false} LiveIndexAt(es: seq<E>, i: nat)
    requires i < |StripEach(es)|
    ensures LiveIndex(es, i) < |es|
    ensures TagOf(es[LiveIndex(es, i)]) !in Pipeline.STRIPPED && StripEach(es)[i] == StripOne(es[LiveIndex(es, i)])
  {
    if TagOf(es[0]) in Pipeline.STRIPPED { LiveIndexAt(es[1..], i); }
    else if i > 0 { LiveIndexAt(es[1..], i - 1); }
  }

  /** Stripping never changes how many siblings of another tag come first. */
  lemma {:induction false} CountStripped(es: seq<E>, i: nat, t: string)
    requires i < |StripEach(es)| && t !in Pipeline.STRIPPED
    ensures LiveIndex(es, i) < |es|
    ensures CountTag(StripEach(es)[..i], t) == CountTag(es[..LiveIndex(es, i)], t)
  {
    LiveIndexAt(es, i);
    var k := LiveIndex(es, i);
    if TagOf(es[0]) in Pipeline.STRIPPED {
      CountStripped(es[1..], i, t);
      assert es[..k][1..] == es[1..][..k - 1];
    } else if i > 0 {
      CountStripped(es[1..], i - 1, t);
      assert es[..k][1..] == es[1..][..k - 1];
      assert StripEach(es)[..i][1..] == StripEach(es[1..])[..i - 1];
    }
  }

  /** The live element that a mirror element mirrors. */
  function LivePath(live: E, p: Path): Path
    requires Valid(StripOne(live), p)
    decreases p
  {
    if p == [] then []
    else
      LiveIndexAt(live.kids, p[0]);
      var k := LiveIndex(live.kids, p[0]);
      [k] + LivePath(live.kids[k], p[1..])
  }

  lemma {:induction false} LivePathAt(live: E, p: Path)
    requires Valid(StripOne(live), p)
    ensures Valid(live, LivePath(live, p)) && |LivePath(live, p)| == |p|
    ensures At(StripOne(live), p) == StripOne(At(live, LivePath(live, p)))
    ensures p != [] ==> TagOf(At(live, LivePath(live, p))) !in Pipeline.STRIPPED
    decreases p
  {
    if p != [] {
      LiveIndexAt(live.kids, p[0]);
      var k := LiveIndex(live.kids, p[0]);
      LivePathAt(live.kids[k], p[1..]);
      assert LivePath(live, p)[1..] == LivePath(live.kids[k], p[1..]);
    }
  }

  lemma {:induction false} LivePathParent(live: E, p: Path)
    requires Valid(StripOne(live), p) && p != []
    ensures Valid(StripOne(live), Parent(p)) && Parent(LivePath(live, p)) == LivePath(live, Parent(p))
    ensures Valid(live, LivePath(live, Parent(p)))
    ensures Last(p) < |StripEach(At(live, LivePath(live, Parent(p))).kids)|
    ensures Last(LivePath(live, p)) == LiveIndex(At(live, LivePath(live, Parent(p))).kids, Last(p))
    decreases p
  {
    ValidParent(StripOne(live), p);
    LivePathAt(live, Parent(p));
    LiveIndexAt(live.kids, p[0]);
    var k := LiveIndex(live.kids, p[0]);
    var rest := LivePath(live.kids[k], p[1..]);
    assert LivePath(live, p) == [k] + rest;
    LivePathAt(live.kids[k], p[1..]);
    if |p| == 1 {
      assert rest == [] && Parent(p) == [];
    } else {
      LivePathParent(live.kids[k], p[1..]);
      assert Parent(p)[1..] == Parent(p[1..]) && Parent(p)[0] == p[0] && Last(p[1..]) == Last(p);
      assert LivePath(live, Parent(p)) == [k] + LivePath(live.kids[k], Parent(p[1..]));
      assert Parent([k] + rest) == [k] + Parent(rest);
      assert ([k] + LivePath(live.kids[k], Parent(p[1..])))[1..] == LivePath(live.kids[k], Parent(p[1..]));
    }
  }

  /** The selector computed on the mirror is the one the live element would get. */
  lemma {:induction false} SameSelector(live: E, p: Path)
    requires Valid(StripOne(live), p) && Valid(live, LivePath(live, p))
    ensures SelectorOf(StripOne(live), p) == SelectorOf(live, LivePath(live, p))
    decreases |p|
  {
    var m, q := StripOne(live), LivePath(live, p);
    LivePathAt(live, p);
    if p != [] && At(m, p).id == "" {
      LivePathParent(live, p);
      LivePathAt(live, Parent(p));
      SameSelector(live, Parent(p));
      ValidParent(m, p);
      ValidParent(live, q);
      CountStripped(At(live, Parent(q)).kids, Last(p), TagOf(At(live, q)));
    }
  }

  /** Commands land where they were aimed: the selector computed for an element of the
      mirror, resolved by first match on the unstripped live page, finds the live element
      that it mirrors, if and only if that is addressable. */
  lemma MirrorToLive(live: E, p: Path)
    requires WellFormed(live) && Valid(StripOne(live), p)
    ensures Valid(live, LivePath(live, p)) && At(StripOne(live), p) == StripOne(At(live, LivePath(live, p)))
    ensures SelectorOf(StripOne(live), p) != []
    ensures Query(live, [], SelectorOf(StripOne(live), p)) == Some(LivePath(live, p))
      <==> Addressable(live, LivePath(live, p))
  {
    LivePathAt(live, p);
    SameSelector(live, p);
    Resolves(live, LivePath(live, p));
  }

  const PARAGRAPH := E("p", "", [])
  const DIVISION := E("div", "", [PARAGRAPH])
  const TWO_DIVISIONS := E("html", "", [E("body", "", [DIVISION, DIVISION])])

  /** No ids, and the tag `t` nowhere. */
  predicate Plain(e: E, t: string) {
    e.id == "" && TagOf(e) != t && PlainEach(e.kids, t)
  }

  predicate PlainEach(es: seq<E>, t: string) {
    es != [] ==> Plain(es[0], t) && PlainEach(es[1..], t)
  }

  lemma {:induction false} PlainAt(e: E, t: string, p: Path)
    requires Plain(e, t) && Valid(e, p)
    ensures At(e, p).id == "" && TagOf(At(e, p)) != t
    decreases p
  {
    if p != [] {
      PlainKid(e.kids, t, p[0]);
      PlainAt(e.kids[p[0]], t, p[1..]);
    }
  }

  lemma {:induction false} PlainKid(es: seq<E>, t: string, i: nat)
    requires PlainEach(es, t) && i < |es|
    ensures Plain(es[i], t)
  {
    if i > 0 { PlainKid(es[1..], t, i - 1); }
  }

  lemma RootOnly(body: E)
    requires Lower("html") == "html" && Plain(body, "html")
    ensures WellFormed(E("html", "", [body]))
  {
    var r := E("html", "", [body]);
    forall p: Path | Valid(r, p) && p != [] ensures At(r, p).id == "" && TagOf(At(r, p)) != "html" {
      PlainAt(body, "html", p[1..]);
    }
  }

  lemma {:induction false} LowerSame(s: string)
    requires forall i :: 0 <= i < |s| ==> !('A' <= s[i] <= 'Z')
    ensures Lower(s) == s
  {
    if s != "" {
      assert forall i :: 0 <= i < |s[1..]| ==> s[1..][i] == s[i + 1];
      LowerSame(s[1..]);
    }
  }

  lemma PlainOne(name: string, kids: seq<E>, t: string)
    requires name != "" && t != "" && 'a' <= name[0] <= 'z' && name[0] != t[0] && PlainEach(kids, t)
    ensures Plain(E(name, "", kids), t) && PlainEach([E(name, "", kids)], t)
  {
    LowerAt(name, 0);
    assert [E(name, "", kids)][1..] == [];
  }

  lemma TwoDivisions()
    ensures WellFormed(TWO_DIVISIONS)
  {
    PlainOne("p", [], "html");
    PlainOne("div", [PARAGRAPH], "html");
    assert [DIVISION, DIVISION][1..] == [DIVISION];
    PlainOne("body", [DIVISION, DIVISION], "html");
    LowerSame("html");
    RootOnly(TWO_DIVISIONS.kids[0]);
  }

  const TO_DIVISION := [ByType("html", 1), ByType("body", 1), ByType("div", 1)]

  lemma FirstKidAt(r: E, p: Path)
    requires Valid(r, p) && At(r, p).kids != []
    ensures var q := p + [0];
            Parent(q) == p && Valid(r, q) && At(r, q) == At(r, p).kids[0] && Nth(r, q) == 1
  {
    assert Parent(p + [0]) == p && Last(p + [0]) == 0;
    ValidParent(r, p + [0]);
    assert At(r, p).kids[..0] == [];
  }

  lemma LastCompound(r: E, q: Path)
    requires q != [] && Valid(r, q) && At(r, q).id == "" && Valid(r, Parent(q))
    ensures SelectorOf(r, q) == SelectorOf(r, Parent(q)) + [ByType(TagOf(At(r, q)), Nth(r, q))]
  {
  }

  lemma FirstKidSelector(r: E, p: Path)
    requires Valid(r, p) && At(r, p).kids != [] && At(r, p).kids[0].id == ""
    ensures Valid(r, p + [0]) && At(r, p + [0]) == At(r, p).kids[0]
    ensures SelectorOf(r, p + [0]) == SelectorOf(r, p) + [ByType(TagOf(At(r, p).kids[0]), 1)]
  {
    FirstKidAt(r, p);
    LastCompound(r, p + [0]);
  }

  lemma FirstOfFirstSelector(r: E, b: E, d: E, p: E)
    requires r.id == b.id == d.id == p.id == ""
    requires r.kids != [] && r.kids[0] == b && b.kids != [] && b.kids[0] == d && d.kids != [] && d.kids[0] == p
    ensures Valid(r, [0, 0, 0])
    ensures SelectorOf(r, [0, 0, 0])
         == [ByType(TagOf(r), 1), ByType(TagOf(b), 1), ByType(TagOf(d), 1)] + [ByType(TagOf(p), 1)]
  {
    FirstKidSelector(r, []);
    assert [] + [0] == [0];
    FirstKidSelector(r, [0]);
    assert [0] + [0] == [0, 0];
    FirstKidSelector(r, [0, 0]);
    assert [0, 0] + [0] == [0, 0, 0];
  }

  lemma ParagraphSelector()
    ensures Valid(TWO_DIVISIONS, [0, 0, 0])
    ensures SelectorOf(TWO_DIVISIONS, [0, 0, 0]) == TO_DIVISION + [ByType("p", 1)]
  {
    LowerSame("html");
    LowerSame("body");
    LowerSame("div");
    LowerSame("p");
    FirstOfFirstSelector(TWO_DIVISIONS, TWO_DIVISIONS.kids[0], DIVISION, PARAGRAPH);
  }

  /** A selector that matches a node's parent matches the node, one compound longer. */
  lemma MatchesChild(r: E, p: Path, i: nat, sel: seq<Compound>, c: Compound)
    requires Valid(r, p) && i < |At(r, p).kids| && sel != [] && Matches(r, p, sel)
    requires c.ByType? && c.nth == 1 && At(r, p).kids[i].name == c.tag
    ensures Valid(r, p + [i]) && At(r, p + [i]) == At(r, p).kids[i] && Matches(r, p + [i], sel + [c])
  {
    assert Parent(p + [i]) == p && Last(p + [i]) == i && (sel + [c])[..|sel|] == sel;
    ValidParent(r, p + [i]);
  }

  lemma SecondDivision()
    ensures Valid(TWO_DIVISIONS, [0, 1]) && At(TWO_DIVISIONS, [0, 1]) == DIVISION
    ensures Matches(TWO_DIVISIONS, [0, 1], TO_DIVISION)
  {
    var r := TWO_DIVISIONS;
    var html, body, div := ByType("html", 1), ByType("body", 1), ByType("div", 1);
    assert Matches(r, [], [html]);
    MatchesChild(r, [], 0, [html], body);
    assert [] + [0] == [0] && [html] + [body] == [html, body];
    MatchesChild(r, [0], 1, [html, body], div);
    assert [0] + [1] == [0, 1] && [html, body] + [div] == TO_DIVISION;
  }

  /** A selector that is not unique: the first paragraph's also matches the second. */
  lemma NotUnique()
    ensures WellFormed(TWO_DIVISIONS) && Valid(TWO_DIVISIONS, [0, 0, 0]) && Valid(TWO_DIVISIONS, [0, 1, 0])
    ensures SelectorOf(TWO_DIVISIONS, [0, 0, 0]) != []
    ensures Matches(TWO_DIVISIONS, [0, 1, 0], SelectorOf(TWO_DIVISIONS, [0, 0, 0]))
  {
    TwoDivisions();
    ParagraphSelector();
    SecondDivision();
    MatchesChild(TWO_DIVISIONS, [0, 1], 0, TO_DIVISION, ByType("p", 1));
    assert [0, 1] + [0] == [0, 1, 0];
  }

  const GRADIENT := E("linearGradient", "", [])
  const DRAWING := E("html", "", [E("body", "", [E("svg", "", [GRADIENT])])])

  lemma DrawingFormed(name: string)
    requires name != "" && name[0] == 'l'
    ensures WellFormed(E("html", "", [E("body", "", [E("svg", "", [E(name, "", [])])])]))
  {
    var kid := E(name, "", []);
    PlainOne(name, [], "html");
    PlainOne("svg", [kid], "html");
    PlainOne("body", [E("svg", "", [kid])], "html");
    LowerSame("html");
    RootOnly(E("body", "", [E("svg", "", [kid])]));
  }

  lemma GradientAt()
    ensures Valid(DRAWING, [0, 0, 0]) && At(DRAWING, [0, 0, 0]) == GRADIENT
  {
    assert At(DRAWING, [0, 0, 0]) == At(DRAWING.kids[0], [0, 0]) == At(DRAWING.kids[0].kids[0], [0]) == GRADIENT;
  }

  /** A selector that does not find its element: the name of the live element is not in lower
      case, and type selectors are compared letter for letter outside HTML. */
  lemma MixedCase()
    ensures WellFormed(DRAWING) && Valid(DRAWING, [0, 0, 0]) && At(DRAWING, [0, 0, 0]) == GRADIENT
    ensures SelectorOf(DRAWING, [0, 0, 0]) != []
    ensures Query(DRAWING, [], SelectorOf(DRAWING, [0, 0, 0])) != Some([0, 0, 0])
  {
    DrawingFormed("linearGradient");
    GradientAt();
    LowerAt("linearGradient", 6);
    assert !Named(DRAWING, [0, 0, 0]);
    Resolves(DRAWING, [0, 0, 0]);
  }

  // ---- what parsing the page source makes of the live tree ------------------------------------------

  /** An HTML parser reads all names in lower case. */
  function Lowered(e: E): E {
    E(TagOf(e), e.id, LoweredEach(e.kids))
  }

  function LoweredEach(es: seq<E>): seq<E> {
    if es == [] then [] else [Lowered(es[0])] + LoweredEach(es[1..])
  }

  lemma {:induction false} LowerTwice(s: string)
    ensures Lower(Lower(s)) == Lower(s)
  {
    if s != "" {
      LowerTwice(s[1..]);
      assert Lower(s)[1..] == Lower(s[1..]);
    }
  }

  lemma {:induction false} LoweredStrips(es: seq<E>)
    ensures StripEach(LoweredEach(es)) == LoweredEach(StripEach(es))
  {
    if es != [] {
      LowerTwice(es[0].name);
      LoweredStrips(es[0].kids);
      LoweredStrips(es[1..]);
      assert LoweredEach(es)[1..] == LoweredEach(es[1..]);
      if TagOf(es[0]) !in Pipeline.STRIPPED {
        assert LoweredEach(StripEach(es)) == [Lowered(StripOne(es[0]))] + LoweredEach(StripEach(es)[1..]);
      }
    }
  }

  lemma {:induction false} LoweredKid(es: seq<E>, i: nat)
    requires i < |es|
    ensures |LoweredEach(es)| == |es| && LoweredEach(es)[i] == Lowered(es[i])
  {
    if i > 0 { LoweredKid(es[1..], i - 1); } else if |es| > 1 { LoweredKid(es[1..], 0); }
  }

  lemma {:induction false} LoweredAt(r: E, p: Path)
    ensures Valid(Lowered(r), p) <==> Valid(r, p)
    ensures Valid(r, p) ==> At(Lowered(r), p) == Lowered(At(r, p))
    decreases p
  {
    if r.kids != [] { LoweredKid(r.kids, 0); }
    if p != [] && p[0] < |r.kids| {
      LoweredKid(r.kids, p[0]);
      LoweredAt(r.kids[p[0]], p[1..]);
    }
  }

  lemma {:induction false} LoweredCount(es: seq<E>, i: nat, t: string)
    requires i <= |es|
    ensures |LoweredEach(es)| == |es| && CountTag(LoweredEach(es)[..i], t) == CountTag(es[..i], t)
  {
    if i > 0 {
      LowerTwice(es[0].name);
      LoweredKid(es, 0);
      LoweredCount(es[1..], i - 1, t);
      assert LoweredEach(es)[..i][1..] == LoweredEach(es[1..])[..i - 1] && es[..i][1..] == es[1..][..i - 1];
    } else if es != [] {
      LoweredKid(es, 0);
    }
  }

  /** The script computes the same selectors on the tree with all names in lower case. */
  lemma {:induction false} LoweredSelector(r: E, p: Path)
    requires Valid(r, p) && Valid(Lowered(r), p)
    ensures SelectorOf(Lowered(r), p) == SelectorOf(r, p)
    decreases |p|
  {
    LoweredAt(r, p);
    LowerTwice(At(r, p).name);
    if p != [] && At(r, p).id == "" {
      ValidParent(r, p);
      ValidParent(Lowered(r), p);
      LoweredAt(r, Parent(p));
      LoweredSelector(r, Parent(p));
      LoweredCount(At(r, Parent(p)).kids, Last(p), TagOf(At(r, p)));
    }
  }
}
