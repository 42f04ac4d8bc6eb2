/** The HTML normaliser of worker/dom_pipeline.py, on trees. Rendering and parsing
    again is `Merge`: it loses the boundary between neighbouring text nodes. */
module Pipeline {
  import opened Strings
  import opened Dom

  const STRIP_SCRIPTS := {"script", "noscript"}
  const STRIP_IFRAMES := {"iframe", "embed", "object"}
  const STRIPPED := STRIP_SCRIPTS + STRIP_IFRAMES
  const PRESERVE := {"pre", "code", "textarea"}
  const URL_ATTRS := {"href", "src", "action"}

  // ---- specification of the steps ----------------------------------------------

  function StripComments(f: seq<Node>): seq<Node> {
    if f == [] then []
    else (match f[0]
          case Comment(_) => []
          case Text(_) => [f[0]]
          case Elem(_, _, kids) => [f[0].(kids := StripComments(kids))]) + StripComments(f[1..])
  }

  function StripTags(f: seq<Node>, tags: set<string>): seq<Node> {
    if f == [] then []
    else if !f[0].Elem? then [f[0]] + StripTags(f[1..], tags)
    else if f[0].tag in tags then StripTags(f[1..], tags)
    else [f[0].(kids := StripTags(f[0].kids, tags))] + StripTags(f[1..], tags)
  }

  predicate EventHandler(name: string) {
    "on" <= Lower(name)
  }

  predicate ScriptUrl(name: string, val: string) {
    Lower(name) in URL_ATTRS && "javascript:" <= Lower(Strip(val))
  }

  function CleanAttrs(attrs: map<Name, string>): map<Name, string> {
    map k | k in attrs && !EventHandler(k) :: if ScriptUrl(k, attrs[k]) then "#" else attrs[k]
  }

  function CleanAll(f: seq<Node>): seq<Node> {
    if f == [] then []
    else [if f[0].Elem? then Elem(f[0].tag, CleanAttrs(f[0].attrs), CleanAll(f[0].kids)) else f[0]] + CleanAll(f[1..])
  }

  /** `pre` says that some ancestor preserves whitespace. */
  function Collapse(f: seq<Node>, pre: bool): seq<Node> {
    if f == [] then []
    else [match f[0]
          case Text(s) => if pre then f[0] else Text(Squeeze(s))
          case Comment(_) => f[0]
          case Elem(t, _, kids) => f[0].(kids := Collapse(kids, pre || t in PRESERVE))] + Collapse(f[1..], pre)
  }

  function Label(f: seq<Node>, p: string, j: nat): seq<Node> {
    if f == [] then []
    else if !f[0].Elem? then [f[0]] + Label(f[1..], p, j)
    else [Elem(f[0].tag, f[0].attrs[DOM_ID := Sub(p, j)], Label(f[0].kids, Sub(p, j), 0))] + Label(f[1..], p, j + 1)
  }

  /** Labels the children of the first body in document order. */
  function LabelBody(f: seq<Node>): seq<Node>
    requires Has(f, ByTag("body"))
  {
    if Hit(f[0], ByTag("body")) then [f[0].(kids := Label(f[0].kids, "dom", 0))] + f[1..]
    else if f[0].Elem? && Has(f[0].kids, ByTag("body")) then [f[0].(kids := LabelBody(f[0].kids))] + f[1..]
    else [f[0]] + LabelBody(f[1..])
  }

  function LabelSoup(f: seq<Node>): seq<Node> {
    if Has(f, ByTag("body")) then LabelBody(f) else Label(f, "dom", 0)
  }

  /** The text is empty or nothing but whitespace. */
  predicate Blank(f: seq<Node>) {
    forall n :: n in f ==> n.Text? && AllSpace(n.text)
  }

  function Stripped(f: seq<Node>): seq<Node> {
    StripTags(StripComments(f), STRIPPED)
  }

  function Normalized(f: seq<Node>, assignIds: bool): seq<Node> {
    if Blank(f) then []
    else
      var g := Collapse(CleanAll(Stripped(f)), false);
      if assignIds then LabelSoup(g) else g
  }

  // ---- rendering and parsing again -----------------------------------------------

  function Glue(s: string, r: seq<Node>): seq<Node> {
    if r != [] && r[0].Text? then [Text(s + r[0].text)] + r[1..] else [Text(s)] + r
  }

  function Merge(f: seq<Node>): seq<Node> {
    if f == [] then []
    else match f[0]
      case Text(s) => if s == "" then Merge(f[1..]) else Glue(s, Merge(f[1..]))
      case Comment(_) => [f[0]] + Merge(f[1..])
      case Elem(_, _, kids) => [f[0].(kids := Merge(kids))] + Merge(f[1..])
  }

  /** What a parser returns: no empty text, no two texts side by side. */
  predicate Parsed(f: seq<Node>) {
    f != [] ==>
    && (f[0].Text? ==> f[0].text != "" && !(|f| > 1 && f[1].Text?))
    && (f[0].Elem? ==> Parsed(f[0].kids))
    && Parsed(f[1..])
  }

  // ---- the normal form -----------------------------------------------------------

  predicate CleanTag(attrs: map<Name, string>) {
    forall k :: k in attrs ==> !EventHandler(k) && !ScriptUrl(k, attrs[k])
  }

  /** No comment, stripped tag, event handler or javascript: link at any depth. */
  predicate Tidy(f: seq<Node>) {
    f != [] ==>
    && !f[0].Comment?
    && (f[0].Elem? ==> f[0].tag !in STRIPPED && CleanTag(f[0].attrs) && Tidy(f[0].kids))
    && Tidy(f[1..])
  }

  /** Whitespace is squeezed in every text outside the preserving tags. */
  predicate Collapsed(f: seq<Node>, pre: bool) {
    f != [] ==>
    && (f[0].Text? ==> pre || Squeezed(f[0].text))
    && (f[0].Elem? ==> Collapsed(f[0].kids, pre || f[0].tag in PRESERVE))
    && Collapsed(f[1..], pre)
  }

  /** No text that ends in whitespace is followed directly by one that starts with it. */
  predicate NoSeams(f: seq<Node>, pre: bool) {
    f != [] ==>
    && (f[0].Text? && |f| > 1 && f[1].Text? ==> pre || !(EndsSpace(f[0].text) && StartsSpace(f[1].text)))
    && (f[0].Elem? ==> NoSeams(f[0].kids, pre || f[0].tag in PRESERVE))
    && NoSeams(f[1..], pre)
  }

  predicate NoEmptyText(f: seq<Node>) {
    f != [] ==>
    && (f[0].Text? ==> f[0].text != "")
    && (f[0].Elem? ==> NoEmptyText(f[0].kids))
    && NoEmptyText(f[1..])
  }

  /** The body's children, or failing a body the top level, carry the path labels. */
  predicate SoupLabelled(f: seq<Node>) {
    if Has(f, ByTag("body")) then Labelled(Find(f, ByTag("body")).kids, "dom", 0) else Labelled(f, "dom", 0)
  }

  // ---- the methods ----------------------------------------------------------------

  method CleanTagAttributes(attrs: map<Name, string>) returns (cleaned: map<Name, string>)
    ensures cleaned == CleanAttrs(attrs)
  {
    cleaned := map[];
    var todo := attrs.Keys;
    ghost var result := CleanAttrs(attrs);
    while todo != {}
      invariant todo <= attrs.Keys
      invariant forall k :: k in cleaned <==> k in result && k !in todo
      invariant forall k :: k in cleaned ==> cleaned[k] == result[k]
    {
      var k :| k in todo;
      todo := todo - {k};
      if !EventHandler(k) {
        cleaned := cleaned[k := if ScriptUrl(k, attrs[k]) then "#" else attrs[k]];
      }
    }
  }

  /** The tag names are visited in whatever order the set yields them. */
  method RemoveTags(f: seq<Node>, tags: set<string>) returns (g: seq<Node>)
    ensures g == StripTags(f, tags)
  {
    g := f;
    var todo := tags;
    StripNone(f);
    assert tags - todo == {};
    while todo != {}
      invariant todo <= tags && g == StripTags(f, tags - todo)
    {
      var t :| t in todo;
      StripTwice(f, tags - todo, {t});
      assert tags - todo + {t} == tags - (todo - {t});
      g := StripTags(g, {t});
      todo := todo - {t};
    }
    assert tags - todo == tags;
  }

  method AssignStructuralDomIds(f: seq<Node>, prefix: string) returns (g: seq<Node>)
    ensures g == Label(f, prefix, 0)
  {
    g := [];
    var counter := 0;
    for i := 0 to |f|
      invariant counter >= 0 && g + Label(f[i..], prefix, counter) == Label(f, prefix, 0)
    {
      assert f[i..][0] == f[i] && f[i..][1..] == f[i + 1..];
      if f[i].Elem? {
        var childId := Sub(prefix, counter);
        var kids := AssignStructuralDomIds(f[i].kids, childId);
        g := g + [Elem(f[i].tag, f[i].attrs[DOM_ID := childId], kids)];
        counter := counter + 1;
      } else {
        g := g + [f[i]];
      }
    }
    assert f[|f|..] == [];
  }

  method CleanTags(f: seq<Node>) returns (g: seq<Node>)
    ensures g == CleanAll(f)
  {
    g := [];
    for i := 0 to |f|
      invariant g + CleanAll(f[i..]) == CleanAll(f)
    {
      assert f[i..][0] == f[i] && f[i..][1..] == f[i + 1..];
      if f[i].Elem? {
        var cleaned := CleanTagAttributes(f[i].attrs);
        var kids := CleanTags(f[i].kids);
        g := g + [Elem(f[i].tag, cleaned, kids)];
      } else {
        g := g + [f[i]];
      }
    }
    assert f[|f|..] == [];
  }

  method NormalizeTextNodes(f: seq<Node>, pre: bool) returns (g: seq<Node>)
    ensures g == Collapse(f, pre)
  {
    g := [];
    for i := 0 to |f|
      invariant g + Collapse(f[i..], pre) == Collapse(f, pre)
    {
      DropHead(f, i);
      CollapseHead(f[i..], pre);
      var n := f[i];
      match n {
      case Elem(t, _, kids) =>
        var collapsed := NormalizeTextNodes(kids, pre || t in PRESERVE);
        n := n.(kids := collapsed);
      case Text(s) => if !pre { n := Text(Squeeze(s)); }
      case Comment(_) =>
      }
      Associate(g, [n], Collapse(f[i + 1..], pre));
      g := g + [n];
    }
    Unit(g);
  }

  lemma CollapseHead(f: seq<Node>, pre: bool)
    requires f != []
    ensures Collapse(f, pre) == [Collapse(f, pre)[0]] + Collapse(f[1..], pre)
    ensures match f[0]
            case Text(s) => Collapse(f, pre)[0] == if pre then f[0] else Text(Squeeze(s))
            case Comment(_) => Collapse(f, pre)[0] == f[0]
            case Elem(t, _, kids) => Collapse(f, pre)[0] == f[0].(kids := Collapse(kids, pre || t in PRESERVE))
  {
  }

  lemma NormalizeHead(f: seq<Node>, pre: bool)
    requires f != []
    ensures Collapse(CleanAll(f), pre) == [
              match f[0]
              case Text(s) => if pre then f[0] else Text(Squeeze(s))
              case Comment(_) => f[0]
              case Elem(t, attrs, kids) => Elem(t, CleanAttrs(attrs), Collapse(CleanAll(kids), pre || t in PRESERVE))
            ] + Collapse(CleanAll(f[1..]), pre)
  {
    var c := CleanAll(f);
    assert c[1..] == CleanAll(f[1..]);
  }

  method Normalize(f: seq<Node>, assignIds: bool) returns (g: seq<Node>)
    ensures g == Normalized(f, assignIds)
  {
    if Blank(f) { return []; }
    g := RemoveTags(StripComments(f), STRIP_SCRIPTS + STRIP_IFRAMES);
    g := CleanTags(g);
    g := NormalizeTextNodes(g, false);
    if assignIds { g := LabelSoup(g); }
  }

  // ---- order of removal -------------------------------------------------------------

  lemma {:induction false} StripNone(f: seq<Node>)
    ensures StripTags(f, {}) == f
  {
    if f != [] {
      StripNone(f[1..]);
      if f[0].Elem? { StripNone(f[0].kids); }
    }
  }

  /** Removing tags one name at a time, in any order, removes exactly their union. */
  lemma {:induction false} StripTwice(f: seq<Node>, a: set<string>, b: set<string>)
    ensures StripTags(StripTags(f, a), b) == StripTags(f, a + b)
  {
    if f != [] {
      StripTwice(f[1..], a, b);
      if f[0].Elem? { StripTwice(f[0].kids, a, b); }
    }
  }

  // ---- the output is in normal form -------------------------------------------------

  lemma {:induction false} StripCommentsShape(f: seq<Node>)
    ensures NoEmptyText(f) ==> NoEmptyText(StripComments(f))
  {
    if f != [] {
      StripCommentsShape(f[1..]);
      match f[0] {
        case Comment(_) => assert StripComments(f) == StripComments(f[1..]);
        case Text(_) => assert StripComments(f)[1..] == StripComments(f[1..]);
        case Elem(_, _, kids) =>
          assert StripComments(f)[1..] == StripComments(f[1..]);
          StripCommentsShape(kids);
      }
    }
  }

  lemma CleanAttrsClean(attrs: map<Name, string>)
    ensures CleanTag(CleanAttrs(attrs))
    ensures CleanTag(attrs) ==> CleanAttrs(attrs) == attrs
  {
    forall k | k in CleanAttrs(attrs) ensures !EventHandler(k) && !ScriptUrl(k, CleanAttrs(attrs)[k]) {
      if ScriptUrl(k, attrs[k]) {
        assert Strip("#") == "#" && Lower("#") == "#";
      }
    }
  }

  lemma {:induction false} PipelineTidy(f: seq<Node>, pre: bool)
    ensures Tidy(Collapse(CleanAll(Stripped(f)), pre))
  {
    if f != [] {
      PipelineTidy(f[1..], pre);
      match f[0] {
        case Comment(_) => assert StripComments(f) == StripComments(f[1..]);
        case Text(_) =>
          assert StripComments(f)[1..] == StripComments(f[1..]);
          NormalizeHead(Stripped(f), pre);
          assert Stripped(f)[1..] == Stripped(f[1..]);
        case Elem(t, attrs, kids) =>
          assert StripComments(f)[1..] == StripComments(f[1..]);
          if t !in STRIPPED {
            NormalizeHead(Stripped(f), pre);
            assert Stripped(f)[1..] == Stripped(f[1..]);
            PipelineTidy(kids, pre || t in PRESERVE);
            CleanAttrsClean(attrs);
          }
      }
    }
  }

  lemma {:induction false} CollapseCollapsed(f: seq<Node>, pre: bool)
    ensures Collapsed(Collapse(f, pre), pre)
    ensures Collapsed(f, pre) ==> Collapse(f, pre) == f
  {
    if f != [] {
      CollapseCollapsed(f[1..], pre);
      match f[0] {
        case Text(s) =>
          SqueezeShape(s, false);
          if Squeezed(s) { SqueezeId(s, false); }
        case Comment(_) =>
        case Elem(t, _, kids) => CollapseCollapsed(kids, pre || t in PRESERVE);
      }
    }
  }

  lemma {:induction false} LabelLabelled(f: seq<Node>, p: string, j: nat)
    ensures Labelled(Label(f, p, j), p, j)
    ensures Labelled(f, p, j) ==> Label(f, p, j) == f
  {
    if f != [] {
      if f[0].Elem? {
        LabelLabelled(f[0].kids, Sub(p, j), 0);
        LabelLabelled(f[1..], p, j + 1);
        if Labelled(f, p, j) {
          assert LabelledNode(f[0], Sub(p, j)) && Hit(f[0], D(Sub(p, j)));
          assert f[0].attrs[DOM_ID := Sub(p, j)] == f[0].attrs;
          assert Label(f, p, j) == [f[0]] + f[1..];
        }
      } else {
        LabelLabelled(f[1..], p, j);
      }
    }
  }

  /** Labelling changes attributes only; `Bare` erases them. */
  function Bare(f: seq<Node>): seq<Node> {
    if f == [] then []
    else [if f[0].Elem? then Elem(f[0].tag, map[], Bare(f[0].kids)) else f[0]] + Bare(f[1..])
  }

  lemma {:induction false} BareSteps(f: seq<Node>, p: string, j: nat)
    ensures Bare(CleanAll(f)) == Bare(f)
    ensures Bare(Label(f, p, j)) == Bare(f)
    ensures Has(f, ByTag("body")) ==> Bare(LabelBody(f)) == Bare(f)
  {
    if f != [] {
      BareSteps(f[1..], p, if f[0].Elem? then j + 1 else j);
      if f[0].Elem? {
        BareSteps(f[0].kids, Sub(p, j), 0);
        BareSteps(f[0].kids, "dom", 0);
      }
    }
  }

  lemma {:induction false} BareViews(f: seq<Node>, pre: bool, q: string)
    ensures Bare(Collapse(f, pre)) == Collapse(Bare(f), pre)
    ensures Collapsed(f, pre) <==> Collapsed(Bare(f), pre)
    ensures NoSeams(f, pre) <==> NoSeams(Bare(f), pre)
    ensures NoEmptyText(f) <==> NoEmptyText(Bare(f))
    ensures Parsed(f) <==> Parsed(Bare(f))
    ensures Has(f, ByTag(q)) <==> Has(Bare(f), ByTag(q))
  {
    if f != [] {
      BareViews(f[1..], pre, q);
      assert Bare(f)[1..] == Bare(f[1..]);
      if |f| > 1 { assert Bare(f)[1] == Bare(f[1..])[0]; }
      if f[0].Elem? { BareViews(f[0].kids, pre || f[0].tag in PRESERVE, q); }
    }
  }

  lemma {:induction false} BareMerge(f: seq<Node>)
    ensures Bare(Merge(f)) == Merge(Bare(f))
  {
    if f != [] {
      BareMerge(f[1..]);
      if f[0].Elem? { BareMerge(f[0].kids); }
    }
  }

  lemma {:induction false} LabelBodyViews(f: seq<Node>)
    requires Has(f, ByTag("body"))
    ensures Has(LabelBody(f), ByTag("body"))
    ensures Find(LabelBody(f), ByTag("body")).kids == Label(Find(f, ByTag("body")).kids, "dom", 0)
    ensures Labelled(Find(f, ByTag("body")).kids, "dom", 0) ==> LabelBody(f) == f
  {
    if Hit(f[0], ByTag("body")) {
      LabelLabelled(f[0].kids, "dom", 0);
    } else if f[0].Elem? && Has(f[0].kids, ByTag("body")) {
      LabelBodyViews(f[0].kids);
    } else {
      LabelBodyViews(f[1..]);
    }
  }

  lemma DomIdClean(attrs: map<Name, string>, v: string)
    requires CleanTag(attrs)
    ensures CleanTag(attrs[DOM_ID := v])
  {
    assert Lower(DOM_ID)[0] == 'd';
  }

  lemma {:induction false} LabelTidy(f: seq<Node>, p: string, j: nat)
    requires Tidy(f)
    ensures Tidy(Label(f, p, j))
  {
    if f != [] {
      LabelTidy(f[1..], p, if f[0].Elem? then j + 1 else j);
      assert Label(f, p, j)[1..] == Label(f[1..], p, if f[0].Elem? then j + 1 else j);
      if f[0].Elem? {
        LabelTidy(f[0].kids, Sub(p, j), 0);
        DomIdClean(f[0].attrs, Sub(p, j));
      }
    }
  }

  lemma {:induction false} LabelBodyTidy(f: seq<Node>)
    requires Tidy(f) && Has(f, ByTag("body"))
    ensures Tidy(LabelBody(f))
  {
    if Hit(f[0], ByTag("body")) {
      LabelTidy(f[0].kids, "dom", 0);
    } else if f[0].Elem? && Has(f[0].kids, ByTag("body")) {
      LabelBodyTidy(f[0].kids);
    } else {
      LabelBodyTidy(f[1..]);
    }
  }

  lemma LabelSoupViews(f: seq<Node>)
    ensures SoupLabelled(LabelSoup(f))
    ensures SoupLabelled(f) ==> LabelSoup(f) == f
    ensures Bare(LabelSoup(f)) == Bare(f)
    ensures Tidy(f) ==> Tidy(LabelSoup(f))
  {
    BareSteps(f, "dom", 0);
    if Tidy(f) { LabelTidy(f, "dom", 0); }
    if Has(f, ByTag("body")) {
      if Tidy(f) { LabelBodyTidy(f); }
      LabelBodyViews(f);
      LabelLabelled(Find(f, ByTag("body")).kids, "dom", 0);
    } else {
      LabelLabelled(f, "dom", 0);
      BareViews(f, false, "body");
      BareViews(LabelSoup(f), false, "body");
    }
  }

  /** Everything the normaliser promises about one output: it is tidy, its whitespace
      is collapsed outside the preserving tags, and its body is labelled by path. */
  lemma NormalForm(f: seq<Node>)
    ensures Tidy(Normalized(f, true)) && Collapsed(Normalized(f, true), false) && SoupLabelled(Normalized(f, true))
    ensures Tidy(Normalized(f, false)) && Collapsed(Normalized(f, false), false)
  {
    if !Blank(f) {
      var g := Collapse(CleanAll(Stripped(f)), false);
      PipelineTidy(f, false);
      CollapseCollapsed(CleanAll(Stripped(f)), false);
      LabelSoupViews(g);
      BareViews(g, false, "body");
      BareViews(LabelSoup(g), false, "body");
    }
  }

  // ---- a second pass ------------------------------------------------------------------

  lemma {:induction false} TidyFixed(f: seq<Node>)
    requires Tidy(f)
    ensures StripComments(f) == f && StripTags(f, STRIPPED) == f && CleanAll(f) == f
  {
    if f != [] {
      TidyFixed(f[1..]);
      if f[0].Elem? {
        TidyFixed(f[0].kids);
        CleanAttrsClean(f[0].attrs);
      }
    }
  }

  lemma {:induction false} MergeParsed(f: seq<Node>)
    ensures Parsed(Merge(f))
    ensures Parsed(f) ==> Merge(f) == f
  {
    if f != [] {
      MergeParsed(f[1..]);
      var r := Merge(f[1..]);
      if f[0].Elem? { MergeParsed(f[0].kids); }
      if f[0].Text? && f[0].text != "" && r != [] && r[0].Text? { assert Merge(f)[1..] == r[1..]; }
      else if f[0] != Text("") { assert Merge(f)[1..] == r; }
    }
  }

  lemma {:induction false} MergeTidy(f: seq<Node>)
    requires Tidy(f)
    ensures Tidy(Merge(f))
  {
    if f != [] {
      MergeTidy(f[1..]);
      var r := Merge(f[1..]);
      if f[0].Elem? { MergeTidy(f[0].kids); }
      if f[0].Text? && f[0].text != "" && r != [] && r[0].Text? { assert Merge(f)[1..] == r[1..]; }
      else if f[0] != Text("") { assert Merge(f)[1..] == r; }
    }
  }

  lemma {:induction false} MergeLabelled(f: seq<Node>, p: string, j: nat)
    requires Labelled(f, p, j)
    ensures Labelled(Merge(f), p, j)
  {
    if f != [] {
      MergeLabelled(f[1..], p, if f[0].Elem? then j + 1 else j);
      var r := Merge(f[1..]);
      if f[0].Elem? {
        assert LabelledNode(f[0], Sub(p, j));
        MergeLabelled(f[0].kids, Sub(p, j), 0);
        assert LabelledNode(f[0].(kids := Merge(f[0].kids)), Sub(p, j));
      }
      if f[0].Text? && f[0].text != "" && r != [] && r[0].Text? { assert Merge(f)[1..] == r[1..]; }
      else if f[0] != Text("") { assert Merge(f)[1..] == r; }
    }
  }

  lemma {:induction false} MergeBody(f: seq<Node>)
    ensures Has(Merge(f), ByTag("body")) <==> Has(f, ByTag("body"))
    ensures Has(f, ByTag("body")) ==> Find(Merge(f), ByTag("body")).kids == Merge(Find(f, ByTag("body")).kids)
  {
    if f != [] {
      MergeBody(f[1..]);
      var r := Merge(f[1..]);
      if f[0].Elem? { MergeBody(f[0].kids); }
      if f[0].Text? && f[0].text != "" && r != [] && r[0].Text? { assert Merge(f)[1..] == r[1..]; }
      else if f[0] != Text("") { assert Merge(f)[1..] == r; }
    }
  }

  lemma {:induction false} CollapseParsed(f: seq<Node>, pre: bool)
    requires Parsed(f)
    ensures Parsed(Collapse(f, pre))
  {
    if f != [] {
      CollapseParsed(f[1..], pre);
      match f[0] {
        case Text(s) => SqueezeShape(s, false);
        case Comment(_) =>
        case Elem(t, _, kids) => CollapseParsed(kids, pre || t in PRESERVE);
      }
    }
  }

  /** Collapsing each text and gluing neighbours stays collapsed exactly when there is no seam. */
  lemma {:induction false} MergeSeams(f: seq<Node>, pre: bool)
    requires NoEmptyText(f)
    ensures Collapsed(Merge(Collapse(f, pre)), pre) <==> NoSeams(f, pre)
    ensures f != [] && f[0].Text? ==>
      && Merge(Collapse(f, pre)) != [] && Merge(Collapse(f, pre))[0].Text?
      && StartsSpace(Merge(Collapse(f, pre))[0].text) == StartsSpace(f[0].text)
    ensures f == [] || !f[0].Text? ==> Merge(Collapse(f, pre)) == [] || !Merge(Collapse(f, pre))[0].Text?
  {
    if f != [] {
      MergeSeams(f[1..], pre);
      match f[0] {
        case Text(s) =>
          SqueezeShape(s, false);
          var t := if pre then s else Squeeze(s);
          var r := Merge(Collapse(f[1..], pre));
          assert Collapse(f, pre)[1..] == Collapse(f[1..], pre);
          assert Merge(Collapse(f, pre)) == Glue(t, r);
          if r != [] && r[0].Text? {
            assert Glue(t, r)[1..] == r[1..];
            if !pre {
              if Squeezed(r[0].text) { SeamSqueezed(t, r[0].text); }
              else if Squeezed(t + r[0].text) { SqueezedSuffix(t, r[0].text); }
            }
          }
        case Comment(_) =>
        case Elem(t, _, kids) => MergeSeams(kids, pre || t in PRESERVE);
      }
    }
  }

  lemma SqueezedSuffix(a: string, b: string)
    requires Squeezed(a + b)
    ensures Squeezed(b)
  {
    forall i | 0 <= i < |b| && IsSpace(b[i]) ensures b[i] == ' ' && (i > 0 ==> !IsSpace(b[i - 1])) {
      assert (a + b)[|a| + i] == b[i];
      if i > 0 { assert (a + b)[|a| + i - 1] == b[i - 1]; }
    }
  }

  /** The document as every reader of the rendered text gets it. */
  function Published(f: seq<Node>): seq<Node> {
    Merge(Normalized(f, true))
  }

  lemma PublishedShape(f: seq<Node>)
    ensures Parsed(Published(f)) && Tidy(Published(f)) && SoupLabelled(Published(f))
  {
    var n := Normalized(f, true);
    NormalForm(f);
    MergeParsed(n);
    MergeTidy(n);
    MergeBody(n);
    if Has(n, ByTag("body")) { MergeLabelled(Find(n, ByTag("body")).kids, "dom", 0); }
    else { MergeLabelled(n, "dom", 0); }
  }

  lemma {:induction false} StrippedNoEmpty(f: seq<Node>)
    requires NoEmptyText(f)
    ensures NoEmptyText(StripTags(f, STRIPPED))
  {
    if f != [] {
      StrippedNoEmpty(f[1..]);
      if f[0].Elem? { StrippedNoEmpty(f[0].kids); }
    }
  }

  lemma {:induction false} ParsedNoEmpty(f: seq<Node>)
    requires Parsed(f)
    ensures NoEmptyText(f)
  {
    if f != [] {
      ParsedNoEmpty(f[1..]);
      if f[0].Elem? { ParsedNoEmpty(f[0].kids); }
    }
  }

  /** Whether a published document is collapsed is decided by the seams that removing
      comments and tags opens in the raw page. */
  lemma PublishedCollapsed(f: seq<Node>)
    requires Parsed(f) && !Blank(f)
    ensures Collapsed(Published(f), false) <==> NoSeams(Stripped(f), false)
  {
    var s := Stripped(f);
    ParsedNoEmpty(f);
    StripCommentsShape(f);
    StrippedNoEmpty(StripComments(f));
    var c := CleanAll(s);
    BareSteps(s, "dom", 0);
    BareViews(s, false, "body");
    BareViews(c, false, "body");
    var g := Collapse(c, false);
    LabelSoupViews(g);
    BareMerge(LabelSoup(g));
    MergeSeams(Bare(s), false);
    BareViews(Published(f), false, "body");
    assert Bare(Published(f)) == Merge(Collapse(Bare(s), false));
  }

  // ---- blank documents -----------------------------------------------------------------------

  lemma BlankStep(f: seq<Node>)
    requires f != []
    ensures Blank(f) <==> f[0].Text? && AllSpace(f[0].text) && Blank(f[1..])
  {
    assert f == [f[0]] + f[1..];
  }

  lemma SpaceAppend(a: string, b: string)
    ensures AllSpace(a + b) <==> AllSpace(a) && AllSpace(b)
  {
    if AllSpace(a + b) {
      forall i | 0 <= i < |a| ensures IsSpace(a[i]) { assert (a + b)[i] == a[i]; }
      forall i | 0 <= i < |b| ensures IsSpace(b[i]) { assert (a + b)[|a| + i] == b[i]; }
    }
  }

  lemma {:induction false} SqueezeSpace(s: string, inRun: bool)
    ensures AllSpace(Squeeze(s, inRun)) <==> AllSpace(s)
  {
    if s != "" {
      SqueezeSpace(s[1..], IsSpace(s[0]));
      assert s == [s[0]] + s[1..];
      SpaceAppend([s[0]], s[1..]);
      var head := if !IsSpace(s[0]) then [s[0]] else if inRun then "" else " ";
      SpaceAppend(head, Squeeze(s[1..], IsSpace(s[0])));
      assert Squeeze(s, inRun) == head + Squeeze(s[1..], IsSpace(s[0]));
      assert AllSpace(head) <==> IsSpace(s[0]) by { assert IsSpace(' ') && [s[0]][0] == s[0]; }
      assert AllSpace([s[0]]) <==> IsSpace(s[0]) by { assert [s[0]][0] == s[0]; }
    }
  }

  lemma {:induction false} BlankClean(f: seq<Node>)
    ensures Blank(CleanAll(f)) <==> Blank(f)
  {
    if f != [] {
      BlankStep(f);
      BlankStep(CleanAll(f));
      BlankClean(f[1..]);
    }
  }

  lemma {:induction false} BlankCollapse(f: seq<Node>)
    ensures Blank(Collapse(f, false)) <==> Blank(f)
  {
    if f != [] {
      BlankStep(f);
      BlankStep(Collapse(f, false));
      if f[0].Text? { SqueezeSpace(f[0].text, false); }
      BlankCollapse(f[1..]);
    }
  }

  lemma {:induction false} BlankLabel(f: seq<Node>, p: string, j: nat)
    ensures Blank(Label(f, p, j)) <==> Blank(f)
    ensures Blank(f) ==> Label(f, p, j) == f
  {
    if f != [] {
      BlankStep(f);
      BlankStep(Label(f, p, j));
      BlankLabel(f[1..], p, if f[0].Elem? then j + 1 else j);
    }
  }

  lemma {:induction false} BlankLabelBody(f: seq<Node>)
    requires Has(f, ByTag("body"))
    ensures !Blank(LabelBody(f)) && !Blank(f)
  {
    BlankStep(f);
    BlankStep(LabelBody(f));
    if f[0].Elem? {
    } else {
      BlankLabelBody(f[1..]);
      assert LabelBody(f)[1..] == LabelBody(f[1..]);
    }
  }

  lemma {:induction false} BlankMerge(f: seq<Node>)
    ensures Blank(Merge(f)) <==> Blank(f)
  {
    if f != [] {
      BlankStep(f);
      BlankMerge(f[1..]);
      var r := Merge(f[1..]);
      match f[0]
      case Text(s) => if s != "" { BlankGlue(s, r); }
      case _ => BlankStep(Merge(f));
    }
  }

  lemma BlankGlue(s: string, r: seq<Node>)
    ensures Blank(Glue(s, r)) <==> AllSpace(s) && Blank(r)
  {
    BlankStep(Glue(s, r));
    if r != [] && r[0].Text? {
      BlankStep(r);
      SpaceAppend(s, r[0].text);
      assert Glue(s, r)[1..] == r[1..];
    }
  }

  /** Whether anything but whitespace, or anything at all, is published depends on what
      removing comments and tags leaves. */
  lemma BlankPublished(f: seq<Node>)
    requires Parsed(f) && !Blank(f)
    ensures Blank(Published(f)) <==> Blank(Stripped(f))
    ensures Published(f) == [] <==> Stripped(f) == []
  {
    var s := Stripped(f);
    var g := Collapse(CleanAll(s), false);
    BlankClean(s);
    BlankCollapse(CleanAll(s));
    if Has(g, ByTag("body")) { BlankLabelBody(g); } else { BlankLabel(g, "dom", 0); }
    BlankMerge(LabelSoup(g));
    if s != [] {
      BlankStep(s);
      ParsedNoEmpty(f);
      StripCommentsShape(f);
      StrippedNoEmpty(StripComments(f));
      NormalizeHead(s, false);
      if s[0].Text? { SqueezeShape(s[0].text, false); }
    }
  }

  /** Normalising what was published changes nothing exactly when removing comments and
      tags left no seam, and did not leave a non-empty document of whitespace only. */
  lemma SecondPass(f: seq<Node>)
    requires Parsed(f)
    ensures Published(Published(f)) == Published(f) <==>
      Blank(f) || Stripped(f) == [] || (NoSeams(Stripped(f), false) && !Blank(Stripped(f)))
  {
    var m := Published(f);
    if !Blank(f) {
      BlankPublished(f);
      if !Blank(m) { SecondPassSolid(f); }
    }
  }

  lemma SecondPassSolid(f: seq<Node>)
    requires Parsed(f) && !Blank(f) && !Blank(Published(f))
    ensures Published(Published(f)) == Published(f) <==> NoSeams(Stripped(f), false)
  {
    var m := Published(f);
    PublishedShape(f);
    PublishedCollapsed(f);
    TidyFixed(m);
    CollapseCollapsed(m, false);
    var g := Collapse(m, false);
    CollapseParsed(m, false);
    assert Published(m) == Merge(LabelSoup(g));
    LabelSoupViews(g);
    LabelSoupViews(m);
    BareViews(g, false, "body");
    BareViews(LabelSoup(g), false, "body");
    MergeParsed(LabelSoup(g));
  }

  /** The failing family is not empty: a comment between two blanks opens a seam. */
  lemma SeamExample() returns (f: seq<Node>)
    ensures Parsed(f) && Published(Published(f)) != Published(f)
  {
    var a, b, c := Text("a "), Text(" b"), Comment("c");
    var kids := [a, c, b];
    f := [Elem("body", map[], kids)];
    assert kids[1..] == [c, b] && [c, b][1..] == [b] && [b][1..] == [] && f[1..] == [];
    assert Parsed([b]) && Parsed([c, b]) && Parsed(kids);
    SeamStripped(a, c, b);
    var g := [Elem("body", map[], [a, b])];
    assert StripComments(f) == [f[0].(kids := StripComments(kids))] + StripComments(f[1..]);
    assert g[1..] == [] && StripTags(g, STRIPPED) == [g[0].(kids := StripTags([a, b], STRIPPED))]
        + StripTags(g[1..], STRIPPED);
    assert [a, b][1..] == [b] && EndsSpace("a ") && StartsSpace(" b") && !NoSeams([a, b], false) && !NoSeams(g, false);
    assert g[0] in Stripped(f) && !Blank(Stripped(f)) && f[0] in f && !Blank(f);
    SecondPass(f);
  }

  lemma SeamStripped(a: Node, c: Node, b: Node)
    requires a.Text? && b.Text? && c.Comment?
    ensures StripComments([a, c, b]) == [a, b] && StripTags([a, b], STRIPPED) == [a, b]
  {
    assert [a, c, b][1..] == [c, b] && [c, b][1..] == [b] && [b][1..] == [] && [a, b][1..] == [b];
    assert StripComments([b]) == [b] && StripTags([b], STRIPPED) == [b];
    assert StripComments([c, b]) == [] + StripComments([c, b][1..]);
    assert StripComments([a, c, b]) == [a] + StripComments([a, c, b][1..]);
  }
}
