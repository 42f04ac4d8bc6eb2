/** Parsed documents as trees: the part of the BeautifulSoup interface that the
    normaliser and the differ use. A soup is the sequence of its top-level nodes. */
module Dom {
  import opened Strings

  /** The name of an attribute is never empty. */
  type Name = s: string | s != "" witness "id"

  /** `attrs` is a map because rendering always follows a sort of the attributes. */
  datatype Node =
    | Text(text: string)
    | Comment(text: string)
    | Elem(tag: string, attrs: map<Name, string>, kids: seq<Node>)

  type Tag = n: Node | n.Elem? witness Elem("", map[], [])

  const DOM_ID := "data-dom-id"
  const ID := "id"

  function Size(f: seq<Node>): nat {
    if f == [] then 0
    else 1 + (if f[0].Elem? then Size(f[0].kids) else 0) + Size(f[1..])
  }

  lemma {:induction false} SizeAppend(a: seq<Node>, b: seq<Node>)
    ensures Size(a + b) == Size(a) + Size(b)
  {
    if a == [] { assert a + b == b; }
    else {
      assert (a + b)[0] == a[0] && (a + b)[1..] == a[1..] + b;
      SizeAppend(a[1..], b);
    }
  }

  /** The element children, in order. */
  function Elems(f: seq<Node>): (r: seq<Tag>)
    ensures Size(r) <= Size(f)
  {
    if f == [] then []
    else if f[0].Elem? then [f[0]] + Elems(f[1..])
    else Elems(f[1..])
  }

  lemma {:induction false} ElemsAppend(a: seq<Node>, b: seq<Node>)
    ensures Elems(a + b) == Elems(a) + Elems(b)
  {
    if a == [] { assert a + b == b; }
    else {
      assert (a + b)[0] == a[0] && (a + b)[1..] == a[1..] + b;
      ElemsAppend(a[1..], b);
    }
  }

  lemma {:induction false} ElemsId(f: seq<Tag>)
    ensures Elems(f) == f
  {
    if f != [] { ElemsId(f[1..]); }
  }

  /** `tag.get(name)`, with a missing attribute read as the (equally falsy) empty string. */
  function Attr(n: Node, name: string): string {
    if n.Elem? && name in n.attrs then n.attrs[name] else ""
  }

  /** The attribute names in the order the normaliser writes them. */
  function Names(attrs: map<Name, string>): (r: seq<Name>)
    ensures forall a: Name :: a in r <==> a in attrs
  {
    var r := Sorted(attrs.Keys);
    assert forall i :: 0 <= i < |r| ==> r[i] in attrs;
    r
  }

  // ---- searching -------------------------------------------------------------

  /** What `soup.find` is asked for. */
  datatype Query = ByAttr(name: string, val: string) | ByTag(tag: string)

  predicate Hit(n: Node, q: Query) {
    n.Elem? && match q
    case ByAttr(a, v) => a in n.attrs && n.attrs[a] == v
    case ByTag(t) => n.tag == t
  }

  /** Some element of the forest, at any depth, answers the query. */
  predicate Has(f: seq<Node>, q: Query) {
    f != [] && (Hit(f[0], q) || (f[0].Elem? && Has(f[0].kids, q)) || Has(f[1..], q))
  }

  /** The first answer in document order. */
  function Find(f: seq<Node>, q: Query): (r: Node)
    requires Has(f, q)
    ensures Hit(r, q)
  {
    if Hit(f[0], q) then f[0]
    else if f[0].Elem? && Has(f[0].kids, q) then Find(f[0].kids, q)
    else Find(f[1..], q)
  }

  lemma HasOne(n: Node, q: Query)
    ensures Has([n], q) <==> Hit(n, q) || (n.Elem? && Has(n.kids, q))
  {
    assert [n][1..] == [];
  }

  lemma {:induction false} HasAppend(a: seq<Node>, b: seq<Node>, q: Query)
    ensures Has(a + b, q) <==> Has(a, q) || Has(b, q)
  {
    if a == [] { assert a + b == b; }
    else {
      assert (a + b)[0] == a[0] && (a + b)[1..] == a[1..] + b;
      HasAppend(a[1..], b, q);
    }
  }

  lemma {:induction false} HasElems(f: seq<Node>, q: Query)
    ensures Has(Elems(f), q) <==> Has(f, q)
    ensures Has(f, q) ==> Find(Elems(f), q) == Find(f, q)
  {
    if f != [] { HasElems(f[1..], q); }
  }

  // ---- labels ----------------------------------------------------------------

  function D(x: string): Query { ByAttr(DOM_ID, x) }
  function I(x: string): Query { ByAttr(ID, x) }

  /** The element children of the forest carry the keys Sub(p, j), Sub(p, j + 1), ...
      and so on at every depth. */
  predicate Labelled(f: seq<Node>, p: string, j: nat) {
    f == [] ||
    if f[0].Elem? then LabelledNode(f[0], Sub(p, j)) && Labelled(f[1..], p, j + 1)
    else Labelled(f[1..], p, j)
  }

  predicate LabelledNode(n: Node, k: string) {
    n.Elem? && Hit(n, D(k)) && Labelled(n.kids, k, 0)
  }

  lemma {:induction false} LabelledElems(f: seq<Node>, p: string, j: nat)
    requires Labelled(f, p, j)
    ensures Labelled(Elems(f), p, j)
  {
    if f != [] { LabelledElems(f[1..], p, if f[0].Elem? then j + 1 else j); }
  }

  lemma {:induction false} LabelledAt(f: seq<Tag>, p: string, j: nat, i: nat)
    requires Labelled(f, p, j) && i < |f|
    ensures LabelledNode(f[i], Sub(p, j + i))
  {
    if i > 0 { LabelledAt(f[1..], p, j + 1, i - 1); }
  }

  lemma {:induction false} LabelledDrop(f: seq<Tag>, p: string, j: nat, i: nat)
    requires Labelled(f, p, j) && i <= |f|
    ensures Labelled(f[i..], p, j + i)
  {
    if i > 0 { LabelledDrop(f[1..], p, j + 1, i - 1); assert f[i..] == f[1..][i - 1..]; }
  }

  /** A labelled forest holds no keys but those below its own children's labels. */
  lemma {:induction false} LabelledKeys(f: seq<Node>, p: string, j: nat, x: string) returns (i: nat)
    requires Labelled(f, p, j) && Has(f, D(x))
    ensures j <= i < j + |Elems(f)| && Under(Sub(p, i), x)
    decreases f, 0
  {
    if f[0].Elem? && Has([f[0]], D(x)) {
      i := j;
      LabelledNodeKeys(f[0], Sub(p, j), x);
    } else {
      i := LabelledKeys(f[1..], p, if f[0].Elem? then j + 1 else j, x);
    }
  }

  lemma {:induction false} LabelledNodeKeys(n: Node, k: string, x: string)
    requires LabelledNode(n, k) && Has([n], D(x))
    ensures Under(k, x)
    decreases n, 1
  {
    if !Hit(n, D(x)) {
      var i := LabelledKeys(n.kids, k, 0, x);
      UnderSub(k, i, x);
    }
  }
}
