/** shared/dom_differ.py: the flat, key-addressed diff between two parsed documents
    and its replay, one operation at a time. */
module Differ {
  import opened Strings
  import opened Dom
  import opened Pipeline

  /** The optional fields of DOMDiffOp read None like the empty value. `html` is the
      fragment the serialised field parses to. */
  datatype Op =
    | TextOp(selector: string, text: string)
    | AttributeOp(selector: string, attr: string, val: string)
    | ValueOp(selector: string, val: string)
    | RemoveOp(selector: string)
    | AddOp(selector: string, html: seq<Node>)
    | ReplaceOp(selector: string, html: seq<Node>)

  // ---- replay --------------------------------------------------------------------

  /** What the operation leaves in place of the element it addresses. */
  function Edit(op: Op, e: Tag): seq<Node> {
    match op
    case TextOp(_, t) => [e.(kids := [Text(t)])]
    case AttributeOp(_, a, v) =>
      if a == "" then [e]
      else if v == "" then [e.(attrs := e.attrs - {a})]
      else [e.(attrs := e.attrs[a := v])]
    case ValueOp(_, v) => [e.(attrs := e.attrs["value" := v])]
    case RemoveOp(_) => []
    case AddOp(_, html) => [e.(kids := e.kids + html)]
    case ReplaceOp(_, html) => if html == [] then [e] else if Elems(html) != [] then [Elems(html)[0]] else html
  }

  function EditFirst(f: seq<Node>, q: Query, op: Op): seq<Node>
    requires Has(f, q)
  {
    if Hit(f[0], q) then Edit(op, f[0]) + f[1..]
    else if f[0].Elem? && Has(f[0].kids, q) then [f[0].(kids := EditFirst(f[0].kids, q, op))] + f[1..]
    else [f[0]] + EditFirst(f[1..], q, op)
  }

  /** The element a selector addresses: by data-dom-id, else by id, else the body for
      the literal selector "body". An operation without a target is skipped. */
  function ApplyOp(f: seq<Node>, op: Op): seq<Node> {
    if Has(f, D(op.selector)) then EditFirst(f, D(op.selector), op)
    else if Has(f, I(op.selector)) then EditFirst(f, I(op.selector), op)
    else if op.selector == "body" && Has(f, ByTag("body")) then EditFirst(f, ByTag("body"), op)
    else f
  }

  function ApplyOps(f: seq<Node>, ops: seq<Op>): seq<Node>
    decreases ops
  {
    if ops == [] then f else ApplyOps(ApplyOp(f, ops[0]), ops[1..])
  }

  function Applied(base: seq<Node>, ops: seq<Op>): seq<Node> {
    if ops == [] then base else Merge(Normalized(Merge(ApplyOps(base, ops)), false))
  }

  // ---- the node map --------------------------------------------------------------

  /** The key of a tag: data-dom-id, or else id, if not empty. */
  function Key(n: Node): Option<string> {
    if Attr(n, DOM_ID) != "" then Some(Attr(n, DOM_ID))
    else if Attr(n, ID) != "" then Some(Attr(n, ID))
    else None
  }

  datatype Entry = Entry(key: string, node: Tag, parent: Option<string>)

  /** The keyed tags in document order, each with its parent's key. */
  function Walk(f: seq<Node>, parent: Option<string>): seq<Entry> {
    if f == [] then []
    else if !f[0].Elem? then Walk(f[1..], parent)
    else
      (if Key(f[0]).Some? then [Entry(Key(f[0]).value, f[0], parent)] else [])
      + Walk(f[0].kids, Key(f[0])) + Walk(f[1..], parent)
  }

  /** A Python dictionary: a key keeps its first position and its last value. */
  datatype NodeMap = NodeMap(order: seq<string>, entries: map<string, Entry>)

  function Insert(m: NodeMap, e: Entry): NodeMap {
    NodeMap(if e.key in m.entries then m.order else m.order + [e.key], m.entries[e.key := e])
  }

  function InsertAll(m: NodeMap, es: seq<Entry>): NodeMap
    decreases es
  {
    if es == [] then m else InsertAll(Insert(m, es[0]), es[1..])
  }

  function MapOf(f: seq<Node>): NodeMap {
    InsertAll(NodeMap([], map[]), Walk(f, None))
  }

  // ---- the diff --------------------------------------------------------------------

  function RawText(f: seq<Node>): string {
    if f == [] then "" else (if f[0].Text? then f[0].text else "") + RawText(f[1..])
  }

  function DirectText(n: Tag): string {
    Strip(RawText(n.kids))
  }

  function Removal(e: Entry, kept: set<string>): seq<Op> {
    if e.key !in kept && (e.parent.None? || e.parent.value in kept) then [RemoveOp(e.key)] else []
  }

  function Removals(es: seq<Entry>, kept: set<string>): seq<Op> {
    if es == [] then [] else Removal(es[0], kept) + Removals(es[1..], kept)
  }

  function SetAttrOps(k: string, oa: map<Name, string>, na: map<Name, string>, names: seq<Name>): seq<Op>
    requires forall a :: a in names ==> a in na
  {
    if names == [] then []
    else
      var a := names[0];
      assert a in names;
      (if a !in oa || oa[a] != na[a] then [AttributeOp(k, a, na[a])] else []) + SetAttrOps(k, oa, na, names[1..])
  }

  function DelAttrOps(k: string, na: map<Name, string>, names: seq<Name>): seq<Op> {
    if names == [] then []
    else (if names[0] !in na then [AttributeOp(k, names[0], "")] else []) + DelAttrOps(k, na, names[1..])
  }

  predicate TextChanged(o: Tag, n: Tag) {
    DirectText(o) != DirectText(n) && (Elems(o.kids) == [] || Elems(n.kids) == [])
  }

  /** The operations one tag's own attributes and text give rise to. */
  function SelfOps(k: string, o: Tag, n: Tag): seq<Op> {
    SetAttrOps(k, o.attrs, n.attrs, Names(n.attrs))
    + DelAttrOps(k, n.attrs, Names(o.attrs))
    + (if TextChanged(o, n) then [TextOp(k, DirectText(n))] else [])
  }

  function TagOps(k: string, o: Tag, n: Tag): seq<Op> {
    if o.tag != n.tag then [ReplaceOp(k, [n])] else SelfOps(k, o, n)
  }

  function Change(e: Entry, prev: map<string, Entry>): seq<Op> {
    if e.key !in prev then
      if e.parent.Some? && e.parent.value in prev then [AddOp(e.parent.value, [e.node])] else []
    else TagOps(e.key, prev[e.key].node, e.node)
  }

  function Changes(es: seq<Entry>, prev: map<string, Entry>): seq<Op> {
    if es == [] then [] else Change(es[0], prev) + Changes(es[1..], prev)
  }

  function Listed(m: NodeMap, order: seq<string>): seq<Entry>
    requires forall k :: k in order ==> k in m.entries
  {
    if order == [] then [] else assert order[0] in order; [m.entries[order[0]]] + Listed(m, order[1..])
  }

  lemma {:induction false} InsertAllKeys(m: NodeMap, es: seq<Entry>)
    requires forall k :: k in m.order <==> k in m.entries
    ensures forall k :: k in InsertAll(m, es).order <==> k in InsertAll(m, es).entries
    decreases es
  {
    if es != [] { InsertAllKeys(Insert(m, es[0]), es[1..]); }
  }

  function MainOps(prev: seq<Node>, next: seq<Node>): seq<Op> {
    InsertAllKeys(NodeMap([], map[]), Walk(prev, None));
    InsertAllKeys(NodeMap([], map[]), Walk(next, None));
    var om, nm := MapOf(prev), MapOf(next);
    Removals(Listed(om, om.order), nm.entries.Keys) + Changes(Listed(nm, nm.order), om.entries)
  }

  /** When the main passes find nothing, the whole new document is sent as the
      replacement of one element of the old one. */
  function FallbackTarget(prev: seq<Node>): string {
    if "dom_0" in MapOf(prev).entries then "dom_0"
    else if Has(prev, ByTag("body")) && Attr(Find(prev, ByTag("body")), ID) != "" then
      Attr(Find(prev, ByTag("body")), ID)
    else "body"
  }

  function Diff(prev: seq<Node>, next: seq<Node>): seq<Op> {
    if prev == next then []
    else if MainOps(prev, next) != [] then MainOps(prev, next)
    else [ReplaceOp(FallbackTarget(prev), next)]
  }

  // ---- the methods -----------------------------------------------------------------

  method BuildNodeMap(f: seq<Node>) returns (m: NodeMap)
    ensures m == MapOf(f)
    ensures forall k :: k in m.order <==> k in m.entries
  {
    m := NodeMap([], map[]);
    var tags := Walk(f, None);
    InsertAllKeys(m, tags);
    for i := 0 to |tags|
      invariant InsertAll(m, tags[i..]) == MapOf(f)
    {
      DropHead(tags, i);
      m := Insert(m, tags[i]);
    }
  }

  method ChangedAttributes(k: string, oa: map<Name, string>, na: map<Name, string>, names: seq<Name>)
    returns (ops: seq<Op>)
    requires forall a :: a in names ==> a in na
    ensures ops == SetAttrOps(k, oa, na, names)
  {
    ops := [];
    for i := 0 to |names|
      invariant ops + SetAttrOps(k, oa, na, names[i..]) == SetAttrOps(k, oa, na, names)
    {
      DropHead(names, i);
      var a := names[i];
      ghost var rest := SetAttrOps(k, oa, na, names[i + 1..]);
      var found := if a !in oa || oa[a] != na[a] then [AttributeOp(k, a, na[a])] else [];
      SetAttrHead(k, oa, na, names[i..]);
      Associate(ops, found, rest);
      ops := ops + found;
    }
    Unit(ops);
  }

  lemma SetAttrHead(k: string, oa: map<Name, string>, na: map<Name, string>, names: seq<Name>)
    requires names != [] && forall a :: a in names ==> a in na
    ensures var a := names[0];
            SetAttrOps(k, oa, na, names)
            == (if a !in oa || oa[a] != na[a] then [AttributeOp(k, a, na[a])] else [])
               + SetAttrOps(k, oa, na, names[1..])
  {
  }

  method RemovedAttributes(k: string, na: map<Name, string>, names: seq<Name>) returns (ops: seq<Op>)
    ensures ops == DelAttrOps(k, na, names)
  {
    ops := [];
    for i := 0 to |names|
      invariant ops + DelAttrOps(k, na, names[i..]) == DelAttrOps(k, na, names)
    {
      DropHead(names, i);
      var found := if names[i] !in na then [AttributeOp(k, names[i], "")] else [];
      Associate(ops, found, DelAttrOps(k, na, names[i + 1..]));
      ops := ops + found;
    }
    Unit(ops);
  }

  method RemovedNodes(om: NodeMap, nm: NodeMap) returns (ops: seq<Op>)
    requires forall k :: k in om.order ==> k in om.entries
    ensures ops == Removals(Listed(om, om.order), nm.entries.Keys)
  {
    ops := [];
    ghost var total := Removals(Listed(om, om.order), nm.entries.Keys);
    for i := 0 to |om.order|
      invariant ops + Removals(Listed(om, om.order[i..]), nm.entries.Keys) == total
    {
      DropHead(om.order, i);
      var e := om.entries[om.order[i]];
      ghost var rest := Listed(om, om.order[i + 1..]);
      assert Listed(om, om.order[i..]) == [e] + rest;
      AppendRemoval(e, rest, nm.entries.Keys);
      var found := [];
      if e.key !in nm.entries && (e.parent.None? || e.parent.value in nm.entries) {
        found := [RemoveOp(e.key)];
      }
      Associate(ops, found, Removals(rest, nm.entries.Keys));
      ops := ops + found;
    }
  }

  lemma AppendRemoval(e: Entry, es: seq<Entry>, kept: set<string>)
    ensures Removals([e] + es, kept) == Removal(e, kept) + Removals(es, kept)
  {
  }

  lemma AppendChange(e: Entry, es: seq<Entry>, prev: map<string, Entry>)
    ensures Changes([e] + es, prev) == Change(e, prev) + Changes(es, prev)
  {
  }

  method ChangedNode(e: Entry, prev: map<string, Entry>) returns (ops: seq<Op>)
    ensures ops == Change(e, prev)
  {
    if e.key !in prev {
      if e.parent.Some? && e.parent.value in prev {
        return [AddOp(e.parent.value, [e.node])];
      }
      return [];
    }
    var o := prev[e.key].node;
    if o.tag != e.node.tag {
      return [ReplaceOp(e.key, [e.node])];
    }
    ops := ChangedAttributes(e.key, o.attrs, e.node.attrs, Names(e.node.attrs));
    var deleted := RemovedAttributes(e.key, e.node.attrs, Names(o.attrs));
    ops := ops + deleted;
    if TextChanged(o, e.node) { ops := ops + [TextOp(e.key, DirectText(e.node))]; }
  }

  method ChangedNodes(om: NodeMap, nm: NodeMap) returns (ops: seq<Op>)
    requires forall k :: k in nm.order ==> k in nm.entries
    ensures ops == Changes(Listed(nm, nm.order), om.entries)
  {
    ops := [];
    ghost var total := Changes(Listed(nm, nm.order), om.entries);
    for i := 0 to |nm.order|
      invariant ops + Changes(Listed(nm, nm.order[i..]), om.entries) == total
    {
      DropHead(nm.order, i);
      var e := nm.entries[nm.order[i]];
      ghost var rest := Listed(nm, nm.order[i + 1..]);
      assert Listed(nm, nm.order[i..]) == [e] + rest;
      AppendChange(e, rest, om.entries);
      var found := ChangedNode(e, om.entries);
      Associate(ops, found, Changes(rest, om.entries));
      ops := ops + found;
    }
  }

  method ComputeDiff(prev: seq<Node>, next: seq<Node>) returns (ops: seq<Op>)
    ensures ops == Diff(prev, next)
  {
    if prev == next { return []; }
    var om := BuildNodeMap(prev);
    var nm := BuildNodeMap(next);
    ops := RemovedNodes(om, nm);
    var changes := ChangedNodes(om, nm);
    ops := ops + changes;
    if ops == [] { ops := [ReplaceOp(FallbackTarget(prev), next)]; }
  }

  method ApplyDiff(base: seq<Node>, ops: seq<Op>) returns (html: seq<Node>)
    ensures html == Applied(base, ops)
  {
    if ops == [] { return base; }
    var soup := base;
    for i := 0 to |ops|
      invariant ApplyOps(soup, ops[i..]) == ApplyOps(base, ops)
    {
      DropHead(ops, i);
      soup := ApplyOp(soup, ops[i]);
    }
    html := Normalize(Merge(soup), false);
    html := Merge(html);
  }
}
