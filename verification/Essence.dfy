/** What publishing keeps: the elements that are not stripped, in order and nesting, with
    their harmless attributes, and the letters of their text, with a gap wherever whitespace
    separates them (under a preserving tag, every character). */
module Essence {
  import opened Strings
  import opened Dom
  import opened Pipeline
  import Publish

  datatype Part = Letter(c: char) | Gap | Element(tag: string, attrs: map<Name, string>, kids: seq<Part>)

  /** Outside preserving tags, how much whitespace there is makes no difference. */
  function Letters(s: string, pre: bool): seq<Part> {
    if s == "" then [] else [if pre || !IsSpace(s[0]) then Letter(s[0]) else Gap] + Letters(s[1..], pre)
  }

  /** Of gaps side by side, one counts. */
  function Tight(ps: seq<Part>): seq<Part> {
    if |ps| < 2 then ps
    else if ps[0] == Gap && ps[1] == Gap then Tight(ps[1..])
    else [ps[0]] + Tight(ps[1..])
  }

  function Harmless(attrs: map<Name, string>): map<Name, string> {
    map k | k in attrs && k != DOM_ID && !EventHandler(k) :: if ScriptUrl(k, attrs[k]) then "#" else attrs[k]
  }

  function NodeParts(n: Node, pre: bool): seq<Part>
    decreases n
  {
    match n
    case Text(s) => Letters(s, pre)
    case Comment(_) => []
    case Elem(t, attrs, kids) =>
      if t in STRIPPED then [] else [Element(t, Harmless(attrs), Tight(Parts(kids, pre || t in PRESERVE)))]
  }

  function Parts(f: seq<Node>, pre: bool): seq<Part>
    decreases f
  {
    if f == [] then [] else NodeParts(f[0], pre) + Parts(f[1..], pre)
  }

  function Essence(f: seq<Node>, pre: bool): seq<Part> {
    Tight(Parts(f, pre))
  }

  // ---- gaps ------------------------------------------------------------------------------------

  lemma TightCons(x: Part, ps: seq<Part>)
    ensures Tight([x] + ps) == if ps != [] && x == Gap && ps[0] == Gap then Tight(ps) else [x] + Tight(ps)
  {
    assert ([x] + ps)[1..] == ps;
  }

  lemma {:induction false} TightHead(ps: seq<Part>)
    ensures Tight(ps) == [] <==> ps == []
    ensures ps != [] ==> Tight(ps)[0] == ps[0]
  {
    if |ps| >= 2 && ps[0] == Gap && ps[1] == Gap { TightHead(ps[1..]); }
  }

  /** Tightening what comes after makes no difference; */
  lemma {:induction false} TightAfter(a: seq<Part>, b: seq<Part>)
    ensures Tight(a + b) == Tight(a + Tight(b))
  {
    if a == [] {
      Unit(b);
      Unit(Tight(b));
      TightTwice(b);
    } else {
      var rest := a[1..];
      TightAfter(rest, b);
      assert a == [a[0]] + rest;
      Associate([a[0]], rest, b);
      Associate([a[0]], rest, Tight(b));
      TightCons(a[0], rest + b);
      TightCons(a[0], rest + Tight(b));
      TightHead(b);
    }
  }

  lemma {:induction false} TightTwice(ps: seq<Part>)
    ensures Tight(Tight(ps)) == Tight(ps)
  {
    if |ps| >= 2 {
      TightTwice(ps[1..]);
      TightHead(ps[1..]);
      TightCons(ps[0], Tight(ps[1..]));
    }
  }

  /** nor does tightening what comes before. */
  lemma {:induction false} TightBefore(a: seq<Part>, b: seq<Part>)
    ensures Tight(a + b) == Tight(Tight(a) + b)
  {
    if |a| >= 2 {
      var rest := a[1..];
      TightBefore(rest, b);
      TightHead(rest);
      assert a == [a[0]] + rest;
      Associate([a[0]], rest, b);
      Associate([a[0]], Tight(rest), b);
      TightCons(a[0], rest);
      TightCons(a[0], rest + b);
      TightCons(a[0], Tight(rest) + b);
    }
  }

  lemma TightJoin(a: seq<Part>, a': seq<Part>, b: seq<Part>, b': seq<Part>)
    requires Tight(a) == Tight(a') && Tight(b) == Tight(b')
    ensures Tight(a + b) == Tight(a' + b')
  {
    TightBefore(a, b);
    TightBefore(a', b);
    TightAfter(a', b);
    TightAfter(a', b');
  }

  lemma {:induction false} LettersAppend(a: string, b: string, pre: bool)
    ensures Letters(a + b, pre) == Letters(a, pre) + Letters(b, pre)
  {
    if a == "" { assert a + b == b; }
    else {
      assert (a + b)[0] == a[0] && (a + b)[1..] == a[1..] + b;
      LettersAppend(a[1..], b, pre);
      var head := [if pre || !IsSpace(a[0]) then Letter(a[0]) else Gap];
      Associate(head, Letters(a[1..], pre), Letters(b, pre));
    }
  }

  function GapIf(b: bool): seq<Part> {
    if b then [Gap] else []
  }

  /** Squeezing keeps every letter, and keeps apart exactly those that were apart. */
  lemma {:induction false} LettersSqueeze(s: string, inRun: bool)
    ensures Tight(GapIf(inRun) + Letters(Squeeze(s, inRun), false)) == Tight(GapIf(inRun) + Letters(s, false))
  {
    if s != "" {
      LettersSqueeze(s[1..], IsSpace(s[0]));
      if !IsSpace(s[0]) { LetterSqueezed(s, inRun); } else { SpaceSqueezed(s, inRun); }
    }
  }

  lemma LetterSqueezed(s: string, inRun: bool)
    requires s != "" && !IsSpace(s[0])
    requires Tight([] + Letters(Squeeze(s[1..], false), false)) == Tight([] + Letters(s[1..], false))
    ensures Tight(GapIf(inRun) + Letters(Squeeze(s, inRun), false)) == Tight(GapIf(inRun) + Letters(s, false))
  {
    var gap, c := GapIf(inRun), [Letter(s[0])];
    var rest, rest' := Letters(s[1..], false), Letters(Squeeze(s[1..], false), false);
    LetterFirst(s[0], Squeeze(s[1..], false));
    Unit(rest);
    Unit(rest');
    Associate(gap, c, rest);
    Associate(gap, c, rest');
    TightJoin(gap + c, gap + c, rest', rest);
  }

  lemma SpaceSqueezed(s: string, inRun: bool)
    requires s != "" && IsSpace(s[0])
    requires Tight([Gap] + Letters(Squeeze(s[1..], true), false)) == Tight([Gap] + Letters(s[1..], false))
    ensures Tight(GapIf(inRun) + Letters(Squeeze(s, inRun), false)) == Tight(GapIf(inRun) + Letters(s, false))
  {
    var rest, rest' := Letters(s[1..], false), Letters(Squeeze(s[1..], true), false);
    if inRun {
      TightCons(Gap, [Gap] + rest);
    } else {
      LetterFirst(' ', Squeeze(s[1..], true));
      Unit([Gap] + rest);
      Unit([Gap] + rest');
    }
  }

  lemma LetterFirst(c: char, s: string)
    ensures Letters([c] + s, false) == [if IsSpace(c) then Gap else Letter(c)] + Letters(s, false)
  {
    assert ([c] + s)[1..] == s;
  }

  lemma {:induction false} PartsAppend(a: seq<Node>, b: seq<Node>, pre: bool)
    ensures Parts(a + b, pre) == Parts(a, pre) + Parts(b, pre)
  {
    if a == [] { assert a + b == b; }
    else {
      assert (a + b)[0] == a[0] && (a + b)[1..] == a[1..] + b;
      PartsAppend(a[1..], b, pre);
      Associate(NodeParts(a[0], pre), Parts(a[1..], pre), Parts(b, pre));
    }
  }

  lemma HarmlessClean(attrs: map<Name, string>)
    ensures Harmless(CleanAttrs(attrs)) == Harmless(attrs)
  {
    assert Strip("#") == "#" && Lower("#") == "#";
  }

  lemma OnePart(n: Node, pre: bool)
    ensures Parts([n], pre) == NodeParts(n, pre)
  {
    assert [n][1..] == [];
    Unit(NodeParts(n, pre));
  }

  lemma CookedOne(n: Node, pre: bool)
    requires n.Elem? && n.tag !in STRIPPED ==>
      var pre' := pre || n.tag in PRESERVE; Essence(Publish.Cooked(n.kids, pre'), pre') == Essence(n.kids, pre')
    ensures Essence(Publish.Cooked([n], pre), pre) == Essence([n], pre)
  {
    OnePart(n, pre);
    match n
    case Comment(_) => Publish.CookedComment(n, pre);
    case Text(s) =>
      Publish.CookedText(n, pre);
      OnePart(Publish.Cooked([n], pre)[0], pre);
      if !pre {
        LettersSqueeze(s, false);
        Unit(Letters(s, false));
        Unit(Letters(Squeeze(s, false), false));
      }
    case Elem(_, attrs, _) =>
      if n.tag in STRIPPED { Publish.CookedStripped(n, pre); }
      else {
        Publish.CookedElem(n, pre);
        HarmlessClean(attrs);
        OnePart(Publish.Cooked([n], pre)[0], pre);
      }
  }

  lemma {:induction false} CookedEssence(f: seq<Node>, pre: bool)
    ensures Essence(Publish.Cooked(f, pre), pre) == Essence(f, pre)
  {
    if f != [] {
      Publish.CookedHead(f, pre);
      CookedEssence(f[1..], pre);
      if f[0].Elem? { CookedEssence(f[0].kids, pre || f[0].tag in PRESERVE); }
      CookedOne(f[0], pre);
      PartsAppend(Publish.Cooked([f[0]], pre), Publish.Cooked(f[1..], pre), pre);
      assert f == [f[0]] + f[1..];
      PartsAppend([f[0]], f[1..], pre);
      TightJoin(Parts(Publish.Cooked([f[0]], pre), pre), Parts([f[0]], pre),
                Parts(Publish.Cooked(f[1..], pre), pre), Parts(f[1..], pre));
    }
  }

  lemma HarmlessLabel(attrs: map<Name, string>, key: string)
    ensures Harmless(attrs[DOM_ID := key]) == Harmless(attrs)
  {
  }

  lemma {:induction false} LabelEssence(f: seq<Node>, p: string, j: nat, pre: bool)
    ensures Parts(Label(f, p, j), pre) == Parts(f, pre)
  {
    if f != [] {
      LabelEssence(f[1..], p, if f[0].Elem? then j + 1 else j, pre);
      assert Label(f, p, j)[1..] == Label(f[1..], p, if f[0].Elem? then j + 1 else j);
      if f[0].Elem? {
        LabelEssence(f[0].kids, Sub(p, j), 0, pre || f[0].tag in PRESERVE);
        HarmlessLabel(f[0].attrs, Sub(p, j));
      }
    }
  }

  lemma {:induction false} LabelBodyEssence(f: seq<Node>, pre: bool)
    requires Has(f, ByTag("body"))
    ensures Parts(LabelBody(f), pre) == Parts(f, pre)
  {
    var pre' := if f[0].Elem? then pre || f[0].tag in PRESERVE else pre;
    if Hit(f[0], ByTag("body")) { LabelEssence(f[0].kids, "dom", 0, pre'); }
    else if f[0].Elem? && Has(f[0].kids, ByTag("body")) { LabelBodyEssence(f[0].kids, pre'); }
    else { LabelBodyEssence(f[1..], pre); }
  }

  lemma GlueEssence(s: string, r: seq<Node>, pre: bool)
    ensures Parts(Glue(s, r), pre) == Letters(s, pre) + Parts(r, pre)
  {
    if r != [] && r[0].Text? {
      LettersAppend(s, r[0].text, pre);
      assert Glue(s, r)[1..] == r[1..];
    } else {
      assert Glue(s, r)[1..] == r;
    }
  }

  lemma {:induction false} MergeEssence(f: seq<Node>, pre: bool)
    ensures Parts(Merge(f), pre) == Parts(f, pre)
  {
    if f != [] {
      MergeEssence(f[1..], pre);
      match f[0]
      case Text(s) => GlueEssence(s, Merge(f[1..]), pre);
      case Comment(_) => assert Merge(f)[1..] == Merge(f[1..]);
      case Elem(t, _, kids) =>
        MergeEssence(kids, pre || t in PRESERVE);
        assert Merge(f)[1..] == Merge(f[1..]);
    }
  }

  /** Nothing but texts, and nothing but whitespace in them. */
  predicate Gaps(ps: seq<Part>) {
    forall p :: p in ps ==> p == Gap
  }

  lemma {:induction false} GapsTight(ps: seq<Part>)
    requires Gaps(ps)
    ensures Gaps(Tight(ps)) && |Tight(ps)| <= 1
  {
    if |ps| >= 2 {
      assert ps[0] in ps && ps[1] in ps && forall p :: p in ps[1..] ==> p in ps;
      GapsTight(ps[1..]);
    }
  }

  lemma {:induction false} SpaceLetters(s: string)
    requires AllSpace(s)
    ensures Gaps(Letters(s, false))
  {
    if s != "" { SpaceLetters(s[1..]); }
  }

  lemma {:induction false} BlankParts(f: seq<Node>)
    requires Blank(f)
    ensures Gaps(Parts(f, false))
  {
    if f != [] {
      assert f[0] in f;
      assert Blank(f[1..]);
      SpaceLetters(f[0].text);
      BlankParts(f[1..]);
    }
  }

  lemma CookedPublished(f: seq<Node>)
    requires !Blank(f)
    ensures Essence(Published(f), false) == Essence(f, false)
  {
    var g := Publish.Cooked(f, false);
    CookedEssence(f, false);
    if Has(g, ByTag("body")) { LabelBodyEssence(g, false); } else { LabelEssence(g, "dom", 0, false); }
    MergeEssence(LabelSoup(g), false);
  }

  /** Publishing loses nothing else, adds nothing, reorders nothing, and neither joins words
      nor parts them; only a document of nothing but whitespace becomes an empty one. */
  lemma PublishedEssence(f: seq<Node>)
    ensures if forall n :: n in f ==> n.Text? && AllSpace(n.text)
            then Published(f) == [] && |Essence(f, false)| <= 1 && Gaps(Essence(f, false))
            else Essence(Published(f), false) == Essence(f, false)
  {
    if Blank(f) {
      BlankParts(f);
      GapsTight(Parts(f, false));
    } else {
      CookedPublished(f);
    }
  }

  /** An event handler is an attribute whose name begins with these two letters, in either case. */
  lemma HandlerIff(name: string)
    ensures EventHandler(name) <==> |name| >= 2 && name[0] in {'o', 'O'} && name[1] in {'n', 'N'}
  {
    if |name| > 0 { LowerAt(name, 0); }
    if |name| > 1 { LowerAt(name, 1); }
    assert EventHandler(name) <==> |Lower(name)| >= 2 && Lower(name)[0] == 'o' && Lower(name)[1] == 'n';
  }
}
