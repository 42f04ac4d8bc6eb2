/** What the guarantees of LossySync and Exactness rest on: runs that break them. */
module SyncRaces {
  import opened Strings
  import opened Dom
  import opened Pipeline
  import opened Differ
  import R = Replay
  import opened Patch
  import opened PageContract
  import opened Fragment
  import Publish
  import opened StateManager
  import opened WorkerSync
  import opened SyncProof
  import Exactness
  import LossySync
  import Frame

  // ---- three pages ----------------------------------------------------------------------------------

  /** A valid, collapsed page is published as it is. */
  lemma FixedPage(p: Page)
    requires ValidPage(p) && Collapsed(Soup(p), false)
    ensures Published(Soup(p)) == Soup(p)
  {
    var f := Soup(p);
    TidyFixed(f);
    CollapseCollapsed(f, false);
    Publish.LabelRoot(f[0], p.before, p.body, p.after);
    LabelLabelled(p.body.kids, "dom", 0);
    MergeParsed(f);
    assert f[0] in f && !Blank(f);
  }

  const HEAD: Tag := Elem("head", map[], [])
  const WITH_HEAD := Page(map[], [HEAD], Elem("body", map[], []), [])
  const WITH_DIV := SmallPage([DIV])
  const BARE := SmallPage([])

  lemma ThreePages()
    ensures ValidPage(WITH_HEAD) && ValidPage(WITH_DIV) && ValidPage(BARE)
    ensures Collapsed(Soup(WITH_HEAD), false) && Collapsed(Soup(WITH_DIV), false) && Collapsed(Soup(BARE), false)
    ensures Published(Soup(WITH_HEAD)) == Soup(WITH_HEAD)
    ensures Published(Soup(WITH_DIV)) == Soup(WITH_DIV) && Published(Soup(BARE)) == Soup(BARE)
  {
    DivLabelled();
    DivTidy();
    SmallValid([]);
    SmallValid([DIV]);
    HeadValid();
    SmallCollapsed();
    FixedPage(WITH_HEAD);
    FixedPage(WITH_DIV);
    FixedPage(BARE);
  }

  lemma SmallCollapsed()
    ensures Collapsed(Soup(WITH_HEAD), false) && Collapsed(Soup(WITH_DIV), false) && Collapsed(Soup(BARE), false)
  {
    HeadKids();
    assert [WITH_HEAD.body][1..] == [] && Collapsed([WITH_HEAD.body], false);
    assert Collapsed([HEAD, WITH_HEAD.body], false);
    assert [DIV][1..] == [] && Collapsed([DIV], false) && [WITH_DIV.body][1..] == []
        && Collapsed([WITH_DIV.body], false);
    assert [BARE.body][1..] == [] && Collapsed([BARE.body], false);
    assert [] + [WITH_DIV.body] + [] == [WITH_DIV.body] && [] + [BARE.body] + [] == [BARE.body];
    assert Soup(WITH_HEAD)[1..] == [] && Soup(WITH_DIV)[1..] == [] && Soup(BARE)[1..] == [];
  }

  lemma HeadKids()
    ensures Soup(WITH_HEAD) == [Elem("html", map[], [HEAD, WITH_HEAD.body])]
    ensures [HEAD, WITH_HEAD.body][1..] == [WITH_HEAD.body]
  {
    assert [HEAD] + [WITH_HEAD.body] + [] == [HEAD, WITH_HEAD.body];
  }

  lemma HeadValid()
    ensures ValidPage(WITH_HEAD)
  {
    var p := WITH_HEAD;
    HeadKids();
    assert [p.body][1..] == [] && [HEAD][1..] == [] && Soup(p)[1..] == [];
    assert Tidy([p.body]) && Tidy([HEAD, p.body]);
    assert Parsed([p.body]) && Parsed([HEAD, p.body]);
    assert BodyKey(p) == "";
  }

  const GONE := RemoveOp("dom_0")

  lemma GoneDiff()
    requires ValidPage(WITH_DIV) && ValidPage(BARE)
    ensures Diff(Soup(WITH_DIV), Soup(BARE)) == [GONE]
  {
    assert Dec(0) == "0" && Sub("dom", 0) == "dom_0";
    assert Elems([DIV]) == [DIV] && [DIV][1..] == [] && BodyKey(WITH_DIV) == "";
    PageDiff(WITH_DIV, BARE);
    assert R.KidRemovals([DIV], [], "dom", 0) == [RemoveOp("dom_0")] + R.KidRemovals([DIV][1..], [], "dom", 1);
    assert PageOps(WITH_DIV, BARE) == [GONE];
    assert Soup(WITH_DIV)[0].kids[0] == WITH_DIV.body && Soup(BARE)[0].kids[0] == BARE.body;
  }

  lemma GoneFromDiv()
    ensures ApplyOp(Soup(WITH_DIV), GONE) == Soup(BARE)
  {
    var q, d := WITH_DIV, D("dom_0");
    assert [] + [q.body] + [] == [q.body] && [q.body][1..] == [] && [DIV][1..] == [] && Soup(q)[1..] == [];
    assert Hit(DIV, d) && Has([DIV], d) && Has([q.body], d) && Has(Soup(q), d);
    assert EditFirst([DIV], d, GONE) == [];
    assert EditFirst([q.body], d, GONE) == [BARE.body];
    assert [] + [BARE.body] + [] == [BARE.body];
  }

  lemma GoneFromHead()
    ensures ApplyOp(Soup(WITH_HEAD), GONE) == Soup(WITH_HEAD)
  {
    var kids := [HEAD, WITH_HEAD.body];
    HeadKids();
    assert [WITH_HEAD.body][1..] == [] && Soup(WITH_HEAD)[1..] == [];
    forall q | q in {D("dom_0"), I("dom_0")} ensures !Has(Soup(WITH_HEAD), q) {
      assert !Has([WITH_HEAD.body], q) && !Has(kids, q);
    }
  }

  lemma Closed(p: Page)
    requires ValidPage(p) && Collapsed(Soup(p), false)
    ensures Merge(Normalized(Merge(Soup(p)), false)) == Soup(p)
  {
    CollapsedPage(p);
    Closing(Soup(p)[0]);
    MergeParsed(Soup(p));
  }

  /** Three published pages and a diff that is right on one and does nothing to the other:
      the element it removes is not there. */
  lemma ThreeSoups() returns (a: seq<Node>, b: seq<Node>, c: seq<Node>, ops: seq<Op>)
    ensures b == Soup(WITH_DIV)
    ensures Published(a) == a && Published(b) == b && Published(c) == c && ops != []
    ensures Diff(b, c) == ops && Applied(b, ops) == c && Applied(a, ops) == a != c && a != b
  {
    a, b, c, ops := Soup(WITH_HEAD), Soup(WITH_DIV), Soup(BARE), [GONE];
    ThreePages();
    GoneDiff();
    GoneFromDiv();
    GoneFromHead();
    OneOp(a, GONE);
    OneOp(b, GONE);
    Closed(WITH_HEAD);
    Closed(BARE);
    HeadKids();
    assert c[0].kids[0] == BARE.body;
  }

  lemma OneOp(f: seq<Node>, op: Op)
    ensures ApplyOps(f, [op]) == ApplyOp(f, op)
  {
    assert [op][1..] == [];
  }

  // ---- a lost snapshot --------------------------------------------------------------------------------

  function Look(page: seq<Node>): View {
    View(page, "u", "t", "tab", 0)
  }

  /** A turn that only finds mutations of the focused tab. */
  function Glance(page: seq<Node>): Action {
    Turn(Observation(false, 1, true, false, true, true, Look(page), [], Look(page), Look(page)))
  }

  function Shot(page: seq<Node>): Msg {
    Snapshot("tab", 1, "u", "t", page)
  }

  lemma OneSnapshot(a: seq<Node>) returns (w: WState)
    requires Published(a) == a
    ensures w == Run([Connect(Look(a), true, true)]) && Legal([Connect(Look(a), true, true)])
    ensures w.ready && w.connected && w.faithful && w.version == 1 && w.url == "u" && w.focus == "tab"
    ensures w.log == [Status(CONNECTED), Shot(a)] && w.baseline == a
  {
    assert Init([Connect(Look(a), true, true)]) == [];
    w := Connected(Sent(INIT, Status(CONNECTED)), Look(a), true, true);
  }

  lemma SecondSnapshot(w: WState, b: seq<Node>)
    requires Published(b) == b && w.connected
    ensures Snapped(w, Look(b)) == Sent(w.(baseline := b, url := "u", focus := "tab", faithful := true),
                                        Snapshot("tab", w.version, "u", "t", b))
  {
  }

  /** A faithful worker after a diff that is exact. */
  function Advanced(w: WState, c: seq<Node>, ops: seq<Op>): WState {
    Noted(w.faithful, w.baseline, w.(baseline := c, version := w.version + 1),
          Update("tab", w.version, w.version + 1, ops))
  }

  lemma DiffTurn(w: WState, c: seq<Node>, ops: seq<Op>)
    requires Published(c) == c && Diff(w.baseline, c) == ops != [] && Applied(w.baseline, ops) == c
    requires w.ready && w.connected && w.faithful && w.url == "u"
    ensures Step(w, Glance(c)) == Advanced(w, c, ops)
  {
    GlanceDiffs(w, c);
    DiffSends(w, c, ops);
  }

  lemma GlanceDiffs(w: WState, c: seq<Node>)
    requires w.ready && w.connected && w.url == "u"
    ensures Step(w, Glance(c)) == DiffSent(w, "tab", Published(c))
  {
    var ob := Glance(c).ob;
    assert !Idle(w, ob) && !UrlChanged(w, ob.view) && TabsFollowed(w, ob) == (w, false);
  }

  lemma DiffSends(w: WState, c: seq<Node>, ops: seq<Op>)
    requires Diff(w.baseline, c) == ops != [] && Applied(w.baseline, ops) == c && w.faithful
    ensures DiffSent(w, "tab", c) == Advanced(w, c, ops)
  {
    assert DiffSent(w, "tab", c) == DiffLogged(w, "tab", c, ops);
    DiffLogs(w, c, ops, w.faithful && Applied(w.baseline, ops) == c);
  }

  lemma DiffLogs(w: WState, c: seq<Node>, ops: seq<Op>, still: bool)
    requires ops != [] && still == w.faithful == (w.faithful && Applied(w.baseline, ops) == c)
    ensures DiffLogged(w, "tab", c, ops) == Advanced(w, c, ops)
  {
    assert w.(baseline := c, version := w.version + 1, faithful := still)
        == w.(baseline := c, version := w.version + 1);
  }

  lemma LateUpdate(s: Slot, a: Msg, m: Msg)
    requires a.Snapshot? && m.Update? && m.tab == a.tab && m.base == a.version
    ensures var c := Received(Received(s, a), m);
            Fresh(c, m.tab) && c.tabs[m.tab].version == m.version && c.tabs[m.tab].html == Applied(a.html, m.ops)
  {
  }

  lemma TwoActions(a: seq<Node>, b: seq<Node>) returns (acts: seq<Action>, w: WState)
    requires Published(a) == a && Published(b) == b
    ensures Legal(acts) && w == Run(acts)
    ensures w.ready && w.connected && w.faithful && w.version == 1 && w.url == "u" && w.focus == "tab"
    ensures w.log == [Status(CONNECTED), Shot(a), Shot(b)] && w.baseline == b
  {
    var w1 := OneSnapshot(a);
    SecondSnapshot(w1, b);
    RunAppend([Connect(Look(a), true, true)], Resync(Look(b)));
    acts := [Connect(Look(a), true, true)] + [Resync(Look(b))];
    w := Snapped(w1, Look(b));
  }

  lemma ThreeActions(a: seq<Node>, b: seq<Node>, c: seq<Node>, ops: seq<Op>) returns (acts: seq<Action>, w: WState)
    requires Published(a) == a && Published(b) == b && Published(c) == c
    requires Diff(b, c) == ops != [] && Applied(b, ops) == c
    ensures Legal(acts) && w == Run(acts)
    ensures w.ready && w.faithful && w.version == 2 && w.focus == "tab" && w.baseline == c
    ensures w.log == MissedLog(a, b, ops)
  {
    var two, w2 := TwoActions(a, b);
    DiffTurn(w2, c, ops);
    RunAppend(two, Glance(c));
    acts := two + [Glance(c)];
    w := Step(w2, Glance(c));
  }

  /** Snapshots do not bump the version, so losing one is not noticed: there is a run after
      which a controller that missed the second snapshot has accepted the diff computed from
      it, holds the tab for fresh at the worker's version, and shows a page that is not the
      worker's. A controller that missed nothing shows the right one. */
  lemma LostSnapshot() returns (acts: seq<Action>, w: WState)
    ensures Legal(acts) && w == Run(acts) && w.ready && |w.log| == 4 && w.log[2].Snapshot?
    ensures var c := Received(Received(Received(NEW_SLOT, w.log[0]), w.log[1]), w.log[3]);
            && Fresh(c, w.focus) && c.tabs[w.focus].version == w.version && c.tabs[w.focus].html != w.baseline
    ensures Fresh(Built(w.log), w.focus) && Built(w.log).tabs[w.focus].html == w.baseline
  {
    var a, b, c, ops := ThreeSoups();
    acts, w := ThreeActions(a, b, c, ops);
    LateUpdate(Received(NEW_SLOT, w.log[0]), w.log[1], w.log[3]);
    RunSound(acts);
  }

  // ---- a baseline nobody was told about ------------------------------------------------------------

  /** A navigating command overwrites the baseline before its snapshot. If a turn of the
      polling loop came between the two, its diff would be accepted on the page before:
      fresh, at the worker's version, and wrong. This is why they are one action. */
  lemma UnannouncedBaseline() returns (acts: seq<Action>, captured: seq<Node>, turn: Action, w: WState)
    ensures Legal(acts) && w == Run(acts).(baseline := Published(captured)) && Possible(w, turn) && turn.Turn?
    ensures var w1 := Step(w, turn);
            && Fresh(Built(w1.log), w1.focus)
            && Built(w1.log).tabs[w1.focus].version == w1.version
            && Built(w1.log).tabs[w1.focus].html != w1.baseline
  {
    var a, b, c, ops := ThreeSoups();
    acts, captured, turn := [Connect(Look(a), true, true)], b, Glance(c);
    var w0 := OneSnapshot(a);
    w := w0.(baseline := b);
    DiffTurn(w, c, ops);
    var m := Update("tab", 1, 2, ops);
    assert Init(w0.log + [m]) == w0.log && Init(w0.log) == [w0.log[0]] && Init([w0.log[0]]) == [];
    LateUpdate(Received(NEW_SLOT, w0.log[0]), w0.log[1], m);
  }

  // ---- nothing lost, and still wrong ---------------------------------------------------------------

  /** A run without any loss: the bare page is published, then its body gains an element. The
      mirror is fresh, at the worker's version, and not the worker's page. */
  lemma LosslessFails() returns (acts: seq<Action>, w: WState)
    ensures Legal(acts) && w == Run(acts) && w.ready && |w.log| == 3
    ensures Fresh(Built(w.log), w.focus) && Built(w.log).tabs[w.focus].version == w.version
    ensures Mirrored(w) != w.baseline
  {
    var a, c := Soup(BARE), Soup(WITH_DIV);
    ThreePages();
    var w0 := OneSnapshot(a);
    RunSound([Connect(Look(a), true, true)]);
    GainedTurn(w0);
    RunAppend([Connect(Look(a), true, true)], Glance(c));
    acts := [Connect(Look(a), true, true)] + [Glance(c)];
    w := Step(w0, Glance(c));
  }

  lemma GainedTurn(w: WState)
    requires Inv(w) && w.ready && w.url == "u" && w.focus == "tab" && w.log == [Status(CONNECTED), Shot(Soup(BARE))]
    requires w.baseline == Soup(BARE) && ValidPage(BARE) && ValidPage(WITH_DIV)
    requires Published(Soup(WITH_DIV)) == Soup(WITH_DIV)
    ensures var w1 := Step(w, Glance(Soup(WITH_DIV)));
            && Possible(w, Glance(Soup(WITH_DIV))) && w1.ready && |w1.log| == 3
            && Fresh(Built(w1.log), w1.focus) && Built(w1.log).tabs[w1.focus].version == w1.version
            && Mirrored(w1) != w1.baseline
  {
    Frame.PlainComparable(BARE, WITH_DIV);
    GainLost();
    ShotBuilt(w, Soup(BARE));
    GlanceReaches(w, Soup(WITH_DIV));
    GlanceDiffs(w, Soup(WITH_DIV));
    Exactness.TurnIff(w, Glance(Soup(WITH_DIV)).ob, BARE, WITH_DIV);
  }

  lemma GlanceReaches(w: WState, c: seq<Node>)
    requires w.ready && w.connected && w.url == "u"
    ensures Diffing(w, Glance(c).ob)
  {
    var ob := Glance(c).ob;
    assert UrlAnnounced(w, ob.view) == w && TabsFollowed(w, ob) == (w, false);
  }

  lemma ShotBuilt(w: WState, a: seq<Node>)
    requires w.log == [Status(CONNECTED), Shot(a)]
    ensures Fresh(Built(w.log), "tab") && Built(w.log).tabs["tab"].html == a
  {
    assert Init(w.log) == [Status(CONNECTED)];
  }

  lemma GainLost()
    requires Frame.Comparable(BARE, WITH_DIV)
    ensures BARE != WITH_DIV && !Patchable(BARE, WITH_DIV) && Diff(Soup(BARE), Soup(WITH_DIV)) != []
  {
    assert BARE.body.kids == [] && WITH_DIV.body.kids == [DIV];
    assert Elems(BARE.body.kids) == [] && |Elems([DIV])| == 1 && BodyKey(BARE) == "";
    BodyGainLost(BARE, WITH_DIV);
    PatchContract(BARE, WITH_DIV);
    SoupInjective(BARE, WITH_DIV);
  }

  // ---- a window that does not survive ----------------------------------------------------------------

  function MissedLog(a: seq<Node>, b: seq<Node>, ops: seq<Op>): seq<Msg> {
    [Status(CONNECTED), Shot(a), Shot(b), Update("tab", 1, 2, ops)]
  }

  function FirstHeld(a: seq<Node>): LossySync.Mirror {
    LossySync.Mirror(Received(Received(NEW_SLOT, Status(CONNECTED)), Shot(a)), 2)
  }

  const TWICE := [LossySync.Deliver, LossySync.Deliver]

  /** Why a window must survive: there is a run in which a controller takes a snapshot, misses
      the next one while it is unsubscribed, and keeps its tab, fresh, at the worker's version,
      with another page. The update after that is accepted, and leaves a fresh tab that the
      worker never published. */
  lemma WindowBreaks() returns (acts: seq<Action>, w: WState, m: LossySync.Mirror)
    ensures Legal(acts) && w == Run(acts) && |w.log| == |w.notes| == 4
    ensures m == LossySync.Watch(w.log, LossySync.Mirror(NEW_SLOT, 0), TWICE) && m.at == 2
    ensures Fresh(m.slot, w.focus) && Fresh(LossySync.Replica(w.log, 3), w.focus)
    ensures m.slot.tabs[w.focus].version == LossySync.Replica(w.log, 3).tabs[w.focus].version
    ensures !LossySync.Survives(w.log, m, 1)
    ensures var c := LossySync.After(w.log, m.(at := 3), LossySync.Deliver).slot;
            Fresh(c, w.focus) && !LossySync.Genuine(w.log, w.notes, 4, w.focus, c.tabs[w.focus])
  {
    var a, b, c, ops := ThreeSoups();
    acts, w := ThreeActions(a, b, c, ops);
    RunSound(acts);
    m := FirstMirror(a, b, ops);
    Replicas(a, b, ops);
    LateUpdate(LossySync.Replica(w.log, 2), Shot(a), Update("tab", 1, 2, ops));
    NotPublished(w.log, w.notes, a, b, c, ops);
  }

  lemma FirstMirror(a: seq<Node>, b: seq<Node>, ops: seq<Op>) returns (m: LossySync.Mirror)
    ensures m == LossySync.Watch(MissedLog(a, b, ops), LossySync.Mirror(NEW_SLOT, 0), TWICE)
    ensures m == FirstHeld(a)
    ensures Fresh(m.slot, "tab") && m.slot.tabs["tab"].version == 1 && m.slot.tabs["tab"].html == a
  {
    var log := MissedLog(a, b, ops);
    assert TWICE[1..] == [LossySync.Deliver] && [LossySync.Deliver][1..] == [];
    m := LossySync.After(log, LossySync.Mirror(NEW_SLOT, 0), LossySync.Deliver);
    m := LossySync.After(log, m, LossySync.Deliver);
    assert LossySync.Watch(log, m, []) == m;
  }

  lemma Replicas(a: seq<Node>, b: seq<Node>, ops: seq<Op>)
    ensures var log := MissedLog(a, b, ops); var r, r1 := LossySync.Replica(log, 3), LossySync.Replica(log, 4);
            && Fresh(r, "tab") && r.tabs["tab"].version == 1 && r.tabs["tab"].html == b
            && Fresh(r1, "tab") && r1.tabs["tab"].html == Applied(b, ops)
    ensures a != b ==> !LossySync.Survives(MissedLog(a, b, ops), FirstHeld(a), 1)
  {
    var log := MissedLog(a, b, ops);
    LossySync.ReplicaStep(log, 2);
    LossySync.ReplicaStep(log, 3);
    assert log[2] == Shot(b);
  }

  lemma NotPublished(log: seq<Msg>, notes: seq<Note>, a: seq<Node>, b: seq<Node>, c: seq<Node>, ops: seq<Op>)
    requires log == MissedLog(a, b, ops) && |notes| == 4 && Applied(b, ops) == c != a
    ensures forall tab: Tab :: tab.version == 2 && tab.html == a ==> !LossySync.Genuine(log, notes, 4, "tab", tab)
  {
    Replicas(a, b, ops);
    forall tab: Tab, k: nat | tab.version == 2 && tab.html == a && k < 4
      ensures !LossySync.PublishedAt(log, notes, k, "tab", tab)
    {
      if k == 3 { assert LossySync.Replica(log, 4).tabs["tab"].html == c; }
      else { assert log[k].Status? || log[k].version == 1; }
    }
  }

  /** The page of WITH_DIV, with a word in its element. */
  const WORDED_DIV: Tag := Elem("div", map[DOM_ID := "dom_0"], [Text("x")])
  const WORDED := SmallPage([WORDED_DIV])

  const WORD := [Text("x")]

  lemma WordTidy()
    ensures Tidy(WORD) && Parsed(WORD) && Collapsed(WORD, false) && Elems(WORD) == []
    ensures SimpleKids(WORD) && Strip("x") == "x"
  {
    assert WORD[1..] == [];
  }

  lemma FilledLabelled(d: Tag, kids: seq<Node>)
    requires Labelled([d], "dom", 0) && Elems(kids) == []
    ensures Labelled([d.(kids := kids)], "dom", 0)
  {
    var k := Sub("dom", 0);
    assert LabelledNode([d][0], k) && Hit(d.(kids := kids), D(k));
    R.LabelledTexts(kids, k, 0);
    assert LabelledNode(d.(kids := kids), k) && [d.(kids := kids)][1..] == [];
  }

  lemma FilledTidy(d: Tag, kids: seq<Node>)
    requires Tidy([d]) && Tidy(kids) && Parsed(kids) && Collapsed(kids, false) && d.tag !in PRESERVE
    ensures var f := [d.(kids := kids)]; Tidy(f) && Parsed(f) && Collapsed(f, false)
  {
    assert [d.(kids := kids)][1..] == [];
  }

  lemma WordedDiv()
    ensures Labelled([WORDED_DIV], "dom", 0) && Tidy([WORDED_DIV]) && Parsed([WORDED_DIV])
    ensures Collapsed([WORDED_DIV], false)
  {
    DivLabelled();
    DivTidy();
    WordTidy();
    FilledLabelled(DIV, WORD);
    FilledTidy(DIV, WORD);
    assert WORDED_DIV == DIV.(kids := WORD);
  }

  lemma WordedSimple()
    ensures Simple(WORDED_DIV) && Simple(DIV) && Agreeing(WORDED_DIV, DIV, false)
  {
    WordTidy();
    assert WORDED_DIV.kids == WORD;
  }

  lemma SmallFixed(d: Tag)
    requires Labelled([d], "dom", 0) && Tidy([d]) && Parsed([d]) && Collapsed([d], false)
    ensures var p := SmallPage([d]); ValidPage(p) && Collapsed(Soup(p), false) && Published(Soup(p)) == Soup(p)
  {
    SmallValid([d]);
    SmallTight([d]);
    FixedPage(SmallPage([d]));
  }

  lemma SmallTight(kids: seq<Node>)
    requires Collapsed(kids, false)
    ensures Collapsed(Soup(SmallPage(kids)), false)
  {
    var p := SmallPage(kids);
    assert [p.body][1..] == [] && [] + [p.body] + [] == [p.body] && Soup(p)[1..] == [];
  }

  lemma SmallSimple(a: Tag, b: Tag)
    requires Simple(a) && Simple(b) && Agreeing(a, b, false)
    ensures var o, n := SmallPage([a]).body, SmallPage([b]).body;
            && Simple(o) && Simple(n) && Agreeing(o, n, false)
            && |Elems(n.kids)| == |Elems(o.kids)| && !TextChanged(o, n)
  {
    assert [a][1..] == [] && [b][1..] == [];
    assert Elems([a]) == [a] && Elems([b]) == [b];
    assert forall k :: k in [a] ==> k == a;
    assert forall k :: k in [b] ==> k == b;
  }

  lemma SmallContract(a: Tag, b: Tag)
    requires ValidPage(SmallPage([a])) && Collapsed(Soup(SmallPage([a])), false)
    requires ValidPage(SmallPage([b])) && Collapsed(Soup(SmallPage([b])), false)
    requires Simple(a) && Simple(b) && Agreeing(a, b, false) && a != b
    ensures var f, g := Soup(SmallPage([a])), Soup(SmallPage([b])); f != g && Applied(f, Diff(f, g)) == g
  {
    var o, n := SmallPage([a]), SmallPage([b]);
    Frame.PlainComparable(o, n);
    SmallSimple(a, b);
    assert BodyKey(o) == "" && BodyKey(n) == "";
    SimpleContract(o, n);
    SoupInjective(o, n);
    assert o.body.kids[0] == a && n.body.kids[0] == b;
  }

  /** Taking the word away is a diff that is replayed exactly. */
  lemma WordGone()
    ensures Published(Soup(WORDED)) == Soup(WORDED)
    ensures Diff(Soup(WORDED), Soup(WITH_DIV)) != []
    ensures Applied(Soup(WORDED), Diff(Soup(WORDED), Soup(WITH_DIV))) == Soup(WITH_DIV)
  {
    WordedDiv();
    SmallFixed(WORDED_DIV);
    ThreePages();
    WordedSimple();
    SmallContract(WORDED_DIV, DIV);
  }

  // ---- and one that leaves the tab newer than the worker's ---------------------------------------

  function CrashedLog(a: seq<Node>, p: seq<Node>, ops: seq<Op>, ops': seq<Op>): seq<Msg> {
    [Status(CONNECTED), Shot(a), Status(CRASHED), Status(CONNECTED), Snapshot("tab", 0, "u", "t", p),
     Update("tab", 0, 1, ops), Update("tab", 1, 2, ops')]
  }

  lemma CrashActions(a: seq<Node>, p: seq<Node>) returns (acts: seq<Action>, w: WState)
    requires Published(a) == a && Published(p) == p
    ensures Legal(acts) && w == Run(acts)
    ensures w.ready && w.connected && w.faithful && w.version == 0 && w.url == "u" && w.focus == "tab"
    ensures w.log == CrashedLog(a, p, [], [])[..5] && w.baseline == p
  {
    var w1 := OneSnapshot(a);
    RunAppend([Connect(Look(a), true, true)], Crash(Look(p)));
    acts := [Connect(Look(a), true, true)] + [Crash(Look(p))];
    w := Recovered(w1, Look(p));
    var w2 := Sent(Sent(w1, Status(CRASHED)).(version := 0), Status(CONNECTED));
    SecondSnapshot(w2, p);
    assert w == Snapped(w2, Look(p));
  }

  lemma CrashThenDiff(a: seq<Node>, p: seq<Node>, b: seq<Node>, ops: seq<Op>) returns (acts: seq<Action>, w: WState)
    requires Published(a) == a && Published(p) == p && Published(b) == b
    requires Diff(p, b) == ops != [] && Applied(p, ops) == b
    ensures Legal(acts) && w == Run(acts)
    ensures w.ready && w.connected && w.faithful && w.version == 1 && w.url == "u" && w.focus == "tab"
    ensures w.log == CrashedLog(a, p, ops, [])[..6] && w.baseline == b
  {
    var two, w2 := CrashActions(a, p);
    GlanceMore(two, w2, b, ops);
    acts, w := two + [Glance(b)], Advanced(w2, b, ops);
  }

  lemma CrashedActions(a: seq<Node>, p: seq<Node>, b: seq<Node>, c: seq<Node>, ops: seq<Op>, ops': seq<Op>)
    returns (acts: seq<Action>, w: WState)
    requires Published(a) == a && Published(p) == p && Published(b) == b && Published(c) == c
    requires Diff(p, b) == ops != [] && Applied(p, ops) == b
    requires Diff(b, c) == ops' != [] && Applied(b, ops') == c
    ensures Legal(acts) && w == Run(acts) && w.focus == "tab" && w.log == CrashedLog(a, p, ops, ops')
  {
    var three, w3 := CrashThenDiff(a, p, b, ops);
    GlanceMore(three, w3, c, ops');
    acts, w := three + [Glance(c)], Advanced(w3, c, ops');
  }

  lemma GlanceMore(acts: seq<Action>, w: WState, c: seq<Node>, ops: seq<Op>)
    requires Legal(acts) && w == Run(acts) && w.ready && w.connected && w.faithful && w.url == "u" && w.focus == "tab"
    requires Published(c) == c && Diff(w.baseline, c) == ops != [] && Applied(w.baseline, ops) == c
    ensures Legal(acts + [Glance(c)]) && Run(acts + [Glance(c)]) == Advanced(w, c, ops)
  {
    DiffTurn(w, c, ops);
    RunAppend(acts, Glance(c));
  }

  /** Nor may a tab be newer than what the worker now has. After a crash the versions start
      over; a controller that misses the snapshot and an update is at the very version the
      next update starts from, accepts it, and holds a tab that was never published. */
  lemma WindowNewer() returns (acts: seq<Action>, w: WState, m: LossySync.Mirror)
    ensures Legal(acts) && w == Run(acts) && |w.log| == |w.notes| == 7
    ensures m == LossySync.Watch(w.log, LossySync.Mirror(NEW_SLOT, 0), TWICE) && m.at == 2
    ensures Fresh(m.slot, w.focus) && Fresh(LossySync.Replica(w.log, 5), w.focus)
    ensures m.slot.tabs[w.focus].version > LossySync.Replica(w.log, 5).tabs[w.focus].version
    ensures !LossySync.Survives(w.log, m, 3)
    ensures var c := LossySync.Watch(w.log, m.(at := 5), [LossySync.Lose, LossySync.Deliver]).slot;
            Fresh(c, w.focus) && !LossySync.Genuine(w.log, w.notes, 7, w.focus, c.tabs[w.focus])
  {
    var a, b, c, ops' := ThreeSoups();
    var p := Soup(WORDED);
    var ops := Diff(p, Soup(WITH_DIV));
    WordGone();
    acts, w := CrashedActions(a, p, b, c, ops, ops');
    RunSound(acts);
    m := CrashMirror(a, p, ops, ops');
    CrashReplicas(a, p, ops, ops');
    LateMirror(a, p, ops, ops');
    NeverPublished(w.log, w.notes, a, p, b, c, ops, ops');
  }

  lemma CrashMirror(a: seq<Node>, p: seq<Node>, ops: seq<Op>, ops': seq<Op>) returns (m: LossySync.Mirror)
    ensures m == LossySync.Watch(CrashedLog(a, p, ops, ops'), LossySync.Mirror(NEW_SLOT, 0), TWICE)
    ensures m == FirstHeld(a)
  {
    var log := CrashedLog(a, p, ops, ops');
    assert TWICE[1..] == [LossySync.Deliver] && [LossySync.Deliver][1..] == [];
    m := LossySync.After(log, LossySync.Mirror(NEW_SLOT, 0), LossySync.Deliver);
    m := LossySync.After(log, m, LossySync.Deliver);
    assert LossySync.Watch(log, m, []) == m;
  }

  lemma CrashReplicas(a: seq<Node>, p: seq<Node>, ops: seq<Op>, ops': seq<Op>)
    ensures var log := CrashedLog(a, p, ops, ops'); var r, r' := LossySync.Replica(log, 5), LossySync.Replica(log, 7);
            && Fresh(r, "tab") && r.tabs["tab"].version == 0
            && Fresh(r', "tab") && r'.tabs["tab"].html == Applied(Applied(p, ops), ops')
            && !LossySync.Survives(log, FirstHeld(a), 3)
  {
    var log := CrashedLog(a, p, ops, ops');
    LossySync.ReplicaStep(log, 4);
    LossySync.ReplicaStep(log, 5);
    LossySync.ReplicaStep(log, 6);
    assert log[4].Snapshot? && log[4].tab == "tab";
  }

  lemma LateMirror(a: seq<Node>, p: seq<Node>, ops: seq<Op>, ops': seq<Op>)
    ensures var log := CrashedLog(a, p, ops, ops');
            var c := LossySync.Watch(log, FirstHeld(a).(at := 5), [LossySync.Lose, LossySync.Deliver]).slot;
            Fresh(c, "tab") && c.tabs["tab"].version == 2 && c.tabs["tab"].html == Applied(a, ops')
  {
    var log, es := CrashedLog(a, p, ops, ops'), [LossySync.Lose, LossySync.Deliver];
    assert es[1..] == [LossySync.Deliver] && [LossySync.Deliver][1..] == [];
    var m := LossySync.After(log, FirstHeld(a).(at := 5), LossySync.Lose);
    assert m == FirstHeld(a).(at := 6);
    assert LossySync.Watch(log, m, [LossySync.Deliver]) == LossySync.After(log, m, LossySync.Deliver);
    LateUpdate(Received(NEW_SLOT, Status(CONNECTED)), Shot(a), log[6]);
  }

  lemma NeverPublished(log: seq<Msg>, notes: seq<Note>, a: seq<Node>, p: seq<Node>, b: seq<Node>, c: seq<Node>,
                       ops: seq<Op>, ops': seq<Op>)
    requires log == CrashedLog(a, p, ops, ops') && |notes| == 7 && Applied(p, ops) == b && Applied(b, ops') == c != a
    ensures forall tab: Tab :: tab.version == 2 && tab.html == a ==> !LossySync.Genuine(log, notes, 7, "tab", tab)
  {
    CrashReplicas(a, p, ops, ops');
    forall tab: Tab, k: nat | tab.version == 2 && tab.html == a && k < 7
      ensures !LossySync.PublishedAt(log, notes, k, "tab", tab)
    {
      if k == 6 { assert LossySync.Replica(log, 7).tabs["tab"].html == c; } else { EarlyVersion(a, p, ops, ops', k); }
    }
  }

  lemma EarlyVersion(a: seq<Node>, p: seq<Node>, ops: seq<Op>, ops': seq<Op>, k: nat)
    requires k < 6
    ensures var m := CrashedLog(a, p, ops, ops')[k]; m.Status? || ((m.Snapshot? || m.Update?) && m.version < 2)
  {
  }
}
