/** Where operations land: the fallback of the differ, those that nothing answers, and those
    that set a value. */
module Fallback {
  import opened Strings
  import opened Dom
  import opened Differ
  import opened Replay
  import opened Flat
  import opened Patch
  import opened Frame
  import opened PageContract

  /** The first element is replaced. */
  function Supplanted(f: seq<Node>, e: Node): seq<Node> {
    if f == [] then [] else if f[0].Elem? then [e] + f[1..] else [f[0]] + Supplanted(f[1..], e)
  }

  lemma {:induction false} FirstLabelled(f: seq<Node>, p: string, j: nat, e: Tag)
    requires Labelled(f, p, j) && Elems(f) != []
    ensures Has(f, D(Sub(p, j)))
    ensures EditFirst(f, D(Sub(p, j)), ReplaceOp(Sub(p, j), [e])) == Supplanted(f, e)
  {
    if f[0].Elem? {
      assert LabelledNode(f[0], Sub(p, j));
      assert [e][1..] == [];
    } else {
      FirstLabelled(f[1..], p, j, e);
    }
  }

  lemma {:induction false} NoElems(f: seq<Node>, q: Query)
    requires Elems(f) == []
    ensures !Has(f, q)
  {
    if f != [] { NoElems(f[1..], q); }
  }

  /** One operation whose target is found in the body, and not in front of it. */
  lemma InBody(o: Page, q: Query, op: Op)
    requires !Hit(Soup(o)[0], q) && !Has(o.before, q) && Has([o.body], q)
    ensures Has(Soup(o), q)
    ensures EditFirst(Soup(o), q, op)
         == [Soup(o)[0].(kids := o.before + EditFirst([o.body], q, op) + o.after)]
  {
    HasAppend(o.before + [o.body], o.after, q);
    HasAppend(o.before, [o.body], q);
    HasOne(Soup(o)[0], q);
    assert Soup(o)[1..] == [];
    EditFrame(o.before, [o.body], o.after, q, op);
  }

  lemma InChild(body: Tag, op: Op, e: Tag)
    requires DOM_ID !in body.attrs && Labelled(body.kids, "dom", 0) && Elems(body.kids) != []
    requires op == ReplaceOp(Sub("dom", 0), [e])
    ensures Has([body], D(Sub("dom", 0)))
    ensures EditFirst([body], D(Sub("dom", 0)), op) == [body.(kids := Supplanted(body.kids, e))]
  {
    FirstLabelled(body.kids, "dom", 0, e);
    assert [body][1..] == [];
    assert EditFirst([body], D(Sub("dom", 0)), op) == [body.(kids := Supplanted(body.kids, e))] + [];
  }

  lemma OntoChild(o: Page, n: Page)
    requires Comparable(o, n) && Elems(o.body.kids) != []
    ensures var op := ReplaceOp("dom_0", Soup(n));
            ApplyOp(Soup(o), op) == Soup(o.(body := o.body.(kids := Supplanted(o.body.kids, Soup(n)[0]))))
  {
    DomZeroIff(o, n);
    var op := ReplaceOp("dom_0", Soup(n));
    assert Soup(n) == [Soup(n)[0]] && !FrameNamed(o, "dom_0");
    InChild(o.body, op, Soup(n)[0]);
    InBody(o, D("dom_0"), op);
  }

  lemma OntoBody(o: Page, n: Page, q: Query, x: string)
    requires FramedPage(o) && Hit(o.body, q) && !Hit(Soup(o)[0], q) && !Has(o.before, q)
    ensures Has(Soup(o), q)
    ensures EditFirst(Soup(o), q, ReplaceOp(x, Soup(n)))
         == [Soup(o)[0].(kids := o.before + [Soup(n)[0]] + o.after)]
  {
    var op := ReplaceOp(x, Soup(n));
    HasOne(o.body, q);
    InBody(o, q, op);
    assert [Soup(n)[0]][1..] == [] && Edit(op, o.body) == [Soup(n)[0]];
    assert EditFirst([o.body], q, op) == [Soup(n)[0]] + [] == [Soup(n)[0]];
  }

  lemma Nameless(o: Page, x: string)
    requires Elems(o.body.kids) == [] && !FrameNamed(o, x)
    ensures Has(Soup(o), D(x)) <==> Hit(o.body, D(x))
    ensures Has(Soup(o), I(x)) <==> Hit(o.body, I(x))
  {
    NamelessBy(o, D(x));
    NamelessBy(o, I(x));
  }

  lemma NamelessBy(o: Page, q: Query)
    requires Elems(o.body.kids) == [] && !Hit(Root(o), q) && !Has(o.before, q) && !Has(o.after, q)
    ensures Has(Soup(o), q) <==> Hit(o.body, q)
  {
    NoElems(o.body.kids, q);
    HasOne(o.body, q);
    HasAppend(o.before + [o.body], o.after, q);
    HasAppend(o.before, [o.body], q);
    HasOne(Soup(o)[0], q);
  }

  /** A diff that found nothing replaces the first element child of the old body by the root of
      the new page; if the body has none, and no other tag goes by the name "body", it
      replaces the body itself. */
  lemma FallbackLands(o: Page, n: Page)
    requires Comparable(o, n)
    ensures var found := ApplyOp(Soup(o), ReplaceOp(FallbackTarget(Soup(o)), Soup(n)));
            if Elems(o.body.kids) != []
            then found == Soup(o.(body := o.body.(kids := Supplanted(o.body.kids, Soup(n)[0]))))
            else !FrameNamed(o, "body") ==> found == [Soup(o)[0].(kids := o.before + [Soup(n)[0]] + o.after)]
  {
    DomZeroIff(o, n);
    BodyFound(o);
    if Elems(o.body.kids) != [] {
      FirstLabelled(o.body.kids, "dom", 0, Soup(n)[0]);
      OntoChild(o, n);
    } else {
      NoElems(o.body.kids, D("dom_0"));
      var x := if BodyKey(o) != "" then BodyKey(o) else "body";
      assert FallbackTarget(Soup(o)) == x;
      if !FrameNamed(o, x) {
        Nameless(o, x);
        OntoBody(o, n, if BodyKey(o) != "" then I(x) else ByTag("body"), x);
      }
    }
  }

  // ---- other operations ----------------------------------------------------------------------------

  predicate Answered(f: seq<Node>, x: string) {
    Has(f, D(x)) || Has(f, I(x)) || (x == "body" && Has(f, ByTag("body")))
  }

  /** Operations that nothing answers are skipped. */
  lemma {:induction false} Unanswered(f: seq<Node>, ops: seq<Op>)
    requires forall op :: op in ops ==> !Answered(f, op.selector)
    ensures ApplyOps(f, ops) == f
    decreases ops
  {
    if ops != [] {
      assert ops[0] in ops;
      Unanswered(f, ops[1..]);
    }
  }

  lemma {:induction false} SameEdit(f: seq<Node>, q: Query, a: Op, b: Op)
    requires Has(f, q) && forall e: Tag :: Edit(a, e) == Edit(b, e)
    ensures EditFirst(f, q, a) == EditFirst(f, q, b)
  {
    if Hit(f[0], q) {
      var e: Tag := f[0];
      assert Edit(a, e) == Edit(b, e);
    } else if f[0].Elem? && Has(f[0].kids, q) {
      SameEdit(f[0].kids, q, a, b);
    } else {
      SameEdit(f[1..], q, a, b);
    }
  }

  /** Setting a value is setting the attribute, unless the value is empty, which an attribute
      operation takes for a removal. */
  lemma ValueSets(f: seq<Node>, x: string, v: string)
    ensures v != "" ==> ApplyOp(f, ValueOp(x, v)) == ApplyOp(f, AttributeOp(x, "value", v))
    ensures forall e: Tag ::
      Edit(ValueOp(x, ""), e) == [e.(attrs := e.attrs["value" := ""])]
      && Edit(AttributeOp(x, "value", ""), e) == [e.(attrs := e.attrs - {"value"})]
  {
    var a, b := ValueOp(x, v), AttributeOp(x, "value", v);
    if v != "" {
      if Has(f, D(x)) { SameEdit(f, D(x), a, b); }
      else if Has(f, I(x)) { SameEdit(f, I(x), a, b); }
      else if x == "body" && Has(f, ByTag("body")) { SameEdit(f, ByTag("body"), a, b); }
    }
  }
}
