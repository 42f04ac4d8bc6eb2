/** What the worker publishes lies in the differ's domain: normalising an ordinary raw
    document yields a page, and two of them with the same frame are comparable. */
module Publish {
  import opened Strings
  import opened Dom
  import opened Pipeline
  import opened Differ
  import opened Replay
  import opened Patch
  import opened Frame
  import opened PageContract

  function Cooked(f: seq<Node>, pre: bool): seq<Node> {
    Collapse(CleanAll(Stripped(f)), pre)
  }

  lemma {:induction false} CommentsAppend(a: seq<Node>, b: seq<Node>)
    ensures StripComments(a + b) == StripComments(a) + StripComments(b)
  {
    if a == [] { assert a + b == b; }
    else {
      assert (a + b)[0] == a[0] && (a + b)[1..] == a[1..] + b;
      CommentsAppend(a[1..], b);
    }
  }

  lemma {:induction false} TagsAppend(a: seq<Node>, b: seq<Node>)
    ensures StripTags(a + b, STRIPPED) == StripTags(a, STRIPPED) + StripTags(b, STRIPPED)
  {
    if a == [] { assert a + b == b; }
    else {
      assert (a + b)[0] == a[0] && (a + b)[1..] == a[1..] + b;
      TagsAppend(a[1..], b);
    }
  }

  lemma {:induction false} CleanAppend(a: seq<Node>, b: seq<Node>)
    ensures CleanAll(a + b) == CleanAll(a) + CleanAll(b)
  {
    if a == [] { assert a + b == b; }
    else {
      assert (a + b)[0] == a[0] && (a + b)[1..] == a[1..] + b;
      CleanAppend(a[1..], b);
    }
  }

  lemma CookedAppend(a: seq<Node>, b: seq<Node>, pre: bool)
    ensures Cooked(a + b, pre) == Cooked(a, pre) + Cooked(b, pre)
  {
    CommentsAppend(a, b);
    TagsAppend(StripComments(a), StripComments(b));
    CleanAppend(Stripped(a), Stripped(b));
    CollapseAppend(CleanAll(Stripped(a)), CleanAll(Stripped(b)), pre);
  }

  lemma CookedElem(e: Tag, pre: bool)
    requires e.tag !in STRIPPED
    ensures Cooked([e], pre) == [Elem(e.tag, CleanAttrs(e.attrs), Cooked(e.kids, pre || e.tag in PRESERVE))]
  {
    assert [e][1..] == [];
    var c := e.(kids := StripComments(e.kids));
    assert StripComments([e]) == [c] && [c][1..] == [];
    var s := e.(kids := Stripped(e.kids));
    assert StripTags([c], STRIPPED) == [s] && [s][1..] == [];
    NormalizeHead([s], pre);
  }

  /** How the cooked forest starts, by the kind of its first node. */
  lemma CookedHead(f: seq<Node>, pre: bool)
    requires f != []
    ensures Cooked(f, pre) == Cooked([f[0]], pre) + Cooked(f[1..], pre)
    ensures f[0].Elem? && f[0].tag in STRIPPED ==> Cooked([f[0]], pre) == []
    ensures !f[0].Elem? ==> forall n :: n in Cooked([f[0]], pre) ==> !n.Elem?
    ensures |Cooked([f[0]], pre)| <= 1
  {
    assert f == [f[0]] + f[1..];
    CookedAppend([f[0]], f[1..], pre);
    match f[0]
    case Elem(_, _, _) => if f[0].tag in STRIPPED { CookedStripped(f[0], pre); } else { CookedElem(f[0], pre); }
    case Text(_) => CookedText(f[0], pre);
    case Comment(_) => CookedComment(f[0], pre);
  }

  lemma CookedStripped(e: Tag, pre: bool)
    requires e.tag in STRIPPED
    ensures Cooked([e], pre) == []
  {
    var c := e.(kids := StripComments(e.kids));
    assert [e][1..] == [] && StripComments([e]) == [c];
    assert [c][1..] == [] && StripTags([c], STRIPPED) == StripTags([], STRIPPED);
  }

  lemma CookedText(n: Node, pre: bool)
    requires n.Text?
    ensures Cooked([n], pre) == [if pre then n else Text(Squeeze(n.text))]
  {
    assert [n][1..] == [] && StripComments([n]) == [n];
    assert StripTags([n], STRIPPED) == [n];
    NormalizeHead([n], pre);
  }

  lemma CookedComment(n: Node, pre: bool)
    requires n.Comment?
    ensures Cooked([n], pre) == []
  {
    assert [n][1..] == [] && StripComments([n]) == StripComments([]);
  }

  lemma KeyNames()
    ensures !EventHandler(DOM_ID) && !EventHandler(ID)
    ensures forall v :: !ScriptUrl(DOM_ID, v) && !ScriptUrl(ID, v)
  {
    assert Lower(DOM_ID)[0] == 'd' && Lower(ID)[0] == 'i';
    assert forall x :: x in URL_ATTRS ==> x[0] != 'd' && x[0] != 'i';
  }

  lemma CleanKeys(attrs: map<Name, string>)
    ensures DOM_ID in CleanAttrs(attrs) <==> DOM_ID in attrs
    ensures ID in CleanAttrs(attrs) <==> ID in attrs
    ensures DOM_ID in attrs ==> CleanAttrs(attrs)[DOM_ID] == attrs[DOM_ID]
    ensures ID in attrs ==> CleanAttrs(attrs)[ID] == attrs[ID]
  {
    KeyNames();
  }

  /** What the differ and the labelling search for: keys and the body. */
  predicate Sought(q: Query) {
    match q
    case ByAttr(a, _) => a == DOM_ID || a == ID
    case ByTag(t) => t == "body"
  }

  /** Normalising adds nothing that is searched for. */
  lemma {:induction false} CookedHas(f: seq<Node>, pre: bool, q: Query)
    requires Sought(q)
    ensures Has(Cooked(f, pre), q) ==> Has(f, q)
  {
    if f != [] {
      CookedHead(f, pre);
      CookedHas(f[1..], pre, q);
      if f[0].Elem? { CookedHas(f[0].kids, pre || f[0].tag in PRESERVE, q); }
      HasHead(f[0], pre, q);
      HasAppend(Cooked([f[0]], pre), Cooked(f[1..], pre), q);
    }
  }

  lemma HasHead(n: Node, pre: bool, q: Query)
    requires Sought(q)
    requires n.Elem? ==> (Has(Cooked(n.kids, pre || n.tag in PRESERVE), q) ==> Has(n.kids, q))
    ensures Has(Cooked([n], pre), q) ==> Hit(n, q) || (n.Elem? && Has(n.kids, q))
  {
    match n
    case Text(_) => CookedText(n, pre); HasOne(Cooked([n], pre)[0], q);
    case Comment(_) => CookedComment(n, pre);
    case Elem(t, attrs, kids) =>
      if t in STRIPPED { CookedStripped(n, pre); }
      else {
        CookedElem(n, pre);
        CleanKeys(attrs);
        HasOne(Elem(t, CleanAttrs(attrs), Cooked(kids, pre || t in PRESERVE)), q);
      }
  }

  lemma {:induction false} MergeHas(f: seq<Node>, q: Query)
    ensures Has(Merge(f), q) ==> Has(f, q)
  {
    if f != [] {
      MergeHas(f[1..], q);
      var r := Merge(f[1..]);
      if f[0].Elem? { MergeHas(f[0].kids, q); }
      if f[0].Text? && f[0].text != "" && r != [] && r[0].Text? { assert Merge(f)[1..] == r[1..]; }
      else if f[0] != Text("") { assert Merge(f)[1..] == r; }
    }
  }

  lemma {:induction false} CookedPlain(f: seq<Node>, pre: bool)
    requires Unkeyed(f)
    ensures Unkeyed(Cooked(f, pre))
  {
    if f != [] {
      CookedHead(f, pre);
      CookedPlain(f[1..], pre);
      if f[0].Elem? { CookedPlain(f[0].kids, pre || f[0].tag in PRESERVE); }
      PlainHead(f[0], pre);
      UnkeyedAppend(Cooked([f[0]], pre), Cooked(f[1..], pre));
    }
  }

  lemma PlainHead(n: Node, pre: bool)
    requires n.Elem? ==> Key(n) == None && Unkeyed(Cooked(n.kids, pre || n.tag in PRESERVE))
    ensures Unkeyed(Cooked([n], pre))
  {
    match n
    case Text(_) => CookedText(n, pre); PlainOne(Cooked([n], pre)[0]);
    case Comment(_) => CookedComment(n, pre);
    case Elem(t, attrs, kids) =>
      if t in STRIPPED { CookedStripped(n, pre); }
      else {
        CookedElem(n, pre);
        CleanKeys(attrs);
        PlainOne(Elem(t, CleanAttrs(attrs), Cooked(kids, pre || t in PRESERVE)));
      }
  }

  lemma PlainOne(n: Node)
    requires n.Elem? ==> Key(n) == None && Unkeyed(n.kids)
    ensures Unkeyed([n])
  {
    assert [n][1..] == [];
  }

  lemma {:induction false} MergePlain(f: seq<Node>)
    requires Unkeyed(f)
    ensures Unkeyed(Merge(f))
  {
    if f != [] {
      MergePlain(f[1..]);
      var r := Merge(f[1..]);
      if f[0].Elem? { MergePlain(f[0].kids); }
      if f[0].Text? && f[0].text != "" && r != [] && r[0].Text? { assert Merge(f)[1..] == r[1..]; }
      else if f[0] != Text("") { assert Merge(f)[1..] == r; }
    }
  }

  lemma {:induction false} LabelMiddle(a: seq<Node>, b: Tag, c: seq<Node>)
    requires !Has(a, ByTag("body")) && b.tag == "body"
    ensures Has(a + [b] + c, ByTag("body"))
    ensures LabelBody(a + [b] + c) == a + [b.(kids := Label(b.kids, "dom", 0))] + c
  {
    var f := a + [b] + c;
    if a == [] {
      assert f[0] == b && f[1..] == c;
    } else {
      assert f[0] == a[0] && f[1..] == a[1..] + [b] + c;
      HasOne(a[0], ByTag("body"));
      LabelMiddle(a[1..], b, c);
      LabelTail(f);
      Refit(a, b.(kids := Label(b.kids, "dom", 0)), c);
    }
  }

  lemma LabelTail(f: seq<Node>)
    requires f != [] && !Has([f[0]], ByTag("body")) && Has(f[1..], ByTag("body"))
    ensures Has(f, ByTag("body")) && LabelBody(f) == [f[0]] + LabelBody(f[1..])
  {
    HasOne(f[0], ByTag("body"));
  }

  lemma Refit(a: seq<Node>, b: Node, c: seq<Node>)
    requires a != []
    ensures [a[0]] + (a[1..] + [b] + c) == a + [b] + c
  {
  }

  /** An ordinary raw document: one body, without a label of its own. */
  predicate Ordinary(htmlAttrs: map<Name, string>, before: seq<Node>, body: Tag, after: seq<Node>) {
    && body.tag == "body" && !Has(before, ByTag("body")) && !Has(after, ByTag("body"))
    && DOM_ID !in body.attrs && !Under("dom", Attr(body, ID))
  }

  lemma CookedRoot(htmlAttrs: map<Name, string>, before: seq<Node>, body: Tag, after: seq<Node>)
    requires body.tag == "body"
    ensures Cooked([Elem("html", htmlAttrs, before + [body] + after)], false)
         == [Elem("html", CleanAttrs(htmlAttrs),
                  Cooked(before, false) + [Elem("body", CleanAttrs(body.attrs), Cooked(body.kids, false))]
                      + Cooked(after, false))]
  {
    CookedElem(Elem("html", htmlAttrs, before + [body] + after), false);
    CookedElem(body, false);
    CookedAppend(before + [body], after, false);
    CookedAppend(before, [body], false);
  }

  lemma LabelRoot(r: Tag, x: seq<Node>, b: Tag, y: seq<Node>)
    requires r.tag == "html" && r.kids == x + [b] + y && b.tag == "body" && !Has(x, ByTag("body"))
    ensures LabelSoup([r]) == [r.(kids := x + [b.(kids := Label(b.kids, "dom", 0))] + y)]
  {
    LabelMiddle(x, b, y);
    HasOne(r, ByTag("body"));
    assert [r][1..] == [];
  }

  lemma MergeRoot(r: Tag, x: seq<Node>, b: Tag, y: seq<Node>)
    requires r.kids == x + [b] + y
    ensures Merge([r]) == [r.(kids := Merge(x) + [b.(kids := Merge(b.kids))] + Merge(y))]
  {
    MergeMiddle(x, b, y);
    assert Merge(x) + ([b.(kids := Merge(b.kids))] + Merge(y)) == Merge(x) + [b.(kids := Merge(b.kids))] + Merge(y);
    assert [r][1..] == [];
  }

  function PublishedBody(body: Tag): Tag {
    Elem("body", CleanAttrs(body.attrs), Merge(Label(Cooked(body.kids, false), "dom", 0)))
  }

  lemma PublishedSoup(htmlAttrs: map<Name, string>, before: seq<Node>, body: Tag, after: seq<Node>)
    requires Ordinary(htmlAttrs, before, body, after)
    ensures Published([Elem("html", htmlAttrs, before + [body] + after)])
         == Soup(Page(CleanAttrs(htmlAttrs), Merge(Cooked(before, false)), PublishedBody(body),
                      Merge(Cooked(after, false))))
  {
    var root := Elem("html", htmlAttrs, before + [body] + after);
    var b := Elem("body", CleanAttrs(body.attrs), Cooked(body.kids, false));
    CookedRoot(htmlAttrs, before, body, after);
    CookedHas(before, false, ByTag("body"));
    LabelledRoot(CleanAttrs(htmlAttrs), Cooked(before, false), b, Cooked(after, false));
    assert root in [root] && !Blank([root]);
  }

  lemma LabelledRoot(attrs: map<Name, string>, x: seq<Node>, b: Tag, y: seq<Node>)
    requires b.tag == "body" && !Has(x, ByTag("body"))
    ensures var bl: Tag := b.(kids := Merge(Label(b.kids, "dom", 0)));
            Merge(LabelSoup([Elem("html", attrs, x + [b] + y)])) == [Elem("html", attrs, Merge(x) + [bl] + Merge(y))]
  {
    var r: Tag := Elem("html", attrs, x + [b] + y);
    var bl: Tag := b.(kids := Label(b.kids, "dom", 0));
    LabelRoot(r, x, b, y);
    MergeRoot(r.(kids := x + [bl] + y), x, bl, y);
  }

  lemma PublishedHas(f: seq<Node>, q: Query)
    requires Sought(q)
    ensures Has(Merge(Cooked(f, false)), q) ==> Has(f, q)
  {
    CookedHas(f, false, q);
    MergeHas(Cooked(f, false), q);
  }

  /** Publishing an ordinary document gives a page, with its body's id untouched and no
      name in its frame that was not there before; a page without keys outside the body
      if the document had none. */
  lemma PublishedPage(htmlAttrs: map<Name, string>, before: seq<Node>, body: Tag, after: seq<Node>) returns (p: Page)
    requires Ordinary(htmlAttrs, before, body, after)
    ensures Published([Elem("html", htmlAttrs, before + [body] + after)]) == Soup(p)
    ensures FramedPage(p) && BodyKey(p) == Attr(body, ID)
    ensures forall x :: FrameNamed(p, x) ==> FrameNamed(Page(htmlAttrs, before, body, after), x)
    ensures Unkeyed(before) && Unkeyed(after) && Key(Elem("html", htmlAttrs, [])) == None ==> ValidPage(p)
    ensures p == PublishedParts(htmlAttrs, before, body, after)
  {
    p := PublishedParts(htmlAttrs, before, body, after);
    PublishedFramed(htmlAttrs, before, body, after);
    forall x | FrameNamed(p, x) ensures FrameNamed(Page(htmlAttrs, before, body, after), x) {
      PublishedNames(htmlAttrs, before, body, after, x);
    }
    if Unkeyed(before) && Unkeyed(after) && Key(Elem("html", htmlAttrs, [])) == None {
      PublishedPlain(htmlAttrs, before, body, after);
    }
  }

  lemma PublishedFramed(htmlAttrs: map<Name, string>, before: seq<Node>, body: Tag, after: seq<Node>)
    requires Ordinary(htmlAttrs, before, body, after)
    ensures var p := PublishedParts(htmlAttrs, before, body, after);
            && Published([Elem("html", htmlAttrs, before + [body] + after)]) == Soup(p)
            && FramedPage(p) && BodyKey(p) == Attr(body, ID)
  {
    PublishedSoup(htmlAttrs, before, body, after);
    PublishedShape([Elem("html", htmlAttrs, before + [body] + after)]);
    PublishedHas(before, ByTag("body"));
    PublishedHas(after, ByTag("body"));
    BodyParts(body);
  }

  lemma PublishedPlain(htmlAttrs: map<Name, string>, before: seq<Node>, body: Tag, after: seq<Node>)
    requires Unkeyed(before) && Unkeyed(after) && Key(Elem("html", htmlAttrs, [])) == None
    requires FramedPage(PublishedParts(htmlAttrs, before, body, after))
    ensures ValidPage(PublishedParts(htmlAttrs, before, body, after))
  {
    CookedPlain(before, false);
    MergePlain(Cooked(before, false));
    CookedPlain(after, false);
    MergePlain(Cooked(after, false));
    CleanKeys(htmlAttrs);
  }

  function PublishedParts(htmlAttrs: map<Name, string>, before: seq<Node>, body: Tag, after: seq<Node>): Page {
    Page(CleanAttrs(htmlAttrs), Merge(Cooked(before, false)), PublishedBody(body), Merge(Cooked(after, false)))
  }

  lemma PublishedNames(htmlAttrs: map<Name, string>, before: seq<Node>, body: Tag, after: seq<Node>, x: string)
    requires FrameNamed(PublishedParts(htmlAttrs, before, body, after), x)
    ensures FrameNamed(Page(htmlAttrs, before, body, after), x)
  {
    CleanKeys(htmlAttrs);
    PublishedHas(before, D(x));
    PublishedHas(before, I(x));
    PublishedHas(after, D(x));
    PublishedHas(after, I(x));
  }

  /** Two ordinary documents with the same frame, which uses none of the bodies' names,
      publish to comparable pages. */
  lemma PublishedComparable(
    htmlAttrs: map<Name, string>, before: seq<Node>, ob: Tag, nb: Tag, after: seq<Node>) returns (o: Page, n: Page)
    requires Ordinary(htmlAttrs, before, ob, after) && Ordinary(htmlAttrs, before, nb, after)
    requires forall x :: x != "" && (Under("dom", x) || x == "body" || x == Attr(ob, ID) || x == Attr(nb, ID)) ==>
      !FrameNamed(Page(htmlAttrs, before, ob, after), x)
    requires Key(Elem("html", htmlAttrs, [])).Some? ==> Attr(ob, ID) == Attr(nb, ID)
    ensures Published([Elem("html", htmlAttrs, before + [ob] + after)]) == Soup(o)
    ensures Published([Elem("html", htmlAttrs, before + [nb] + after)]) == Soup(n)
    ensures Comparable(o, n)
  {
    o := PublishedPage(htmlAttrs, before, ob, after);
    n := PublishedPage(htmlAttrs, before, nb, after);
    CleanKeys(htmlAttrs);
    assert !FrameNamed(o, "body");
    forall x | Own(o, n, x) ensures !FrameNamed(o, x) {
      assert !FrameNamed(Page(htmlAttrs, before, ob, after), x);
    }
    SameFrame(o, n);
  }

  lemma SameFrame(o: Page, n: Page)
    requires FramedPage(o) && FramedPage(n) && n == o.(body := n.body)
    requires (forall x :: Own(o, n, x) ==> !FrameNamed(o, x)) && !FrameNamed(o, "body")
    requires Key(Root(o)).Some? ==> BodyKey(o) == BodyKey(n)
    ensures Comparable(o, n)
  {
    assert forall x :: FrameNamed(n, x) <==> FrameNamed(o, x);
  }

  lemma BodyParts(body: Tag)
    requires DOM_ID !in body.attrs
    ensures Labelled(PublishedBody(body).kids, "dom", 0) && DOM_ID !in PublishedBody(body).attrs
    ensures Attr(PublishedBody(body), ID) == Attr(body, ID)
  {
    CleanKeys(body.attrs);
    LabelLabelled(Cooked(body.kids, false), "dom", 0);
    MergeLabelled(Label(Cooked(body.kids, false), "dom", 0), "dom", 0);
  }
}
