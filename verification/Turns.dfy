/** What the worker's actions leave in a mirror that misses nothing: after which of them it
    is the browser's page, whatever it was before, and which of them do nothing at all. */
module Turns {
  import opened Strings
  import opened Dom
  import opened Pipeline
  import opened Differ
  import opened StateManager
  import opened WorkerSync
  import opened SyncProof

  // ---- snapshots -----------------------------------------------------------------------------------

  /** The last message is a snapshot of the view, and the mirror's active tab is just that. */
  predicate Shows(w: WState, v: View) {
    && w.log != [] && Last(w.log) == Snapshot(v.tab, w.version, v.url, v.title, Published(v.page))
    && v.tab in Built(w.log).tabs
    && Built(w.log).tabs[v.tab] == Tab(v.url, v.title, Published(v.page), w.version, false)
    && Built(w.log).active == v.tab
    && w.baseline == Published(v.page) && w.url == v.url && w.focus == v.tab
  }

  lemma {:induction false} SnappedShows(w: WState, v: View)
    requires Sound(w.log, w.notes) && w.connected
    ensures var w1 := Snapped(w, v);
            && Shows(w1, v) && w1.version == (if v.dead > 0 then 0 else w.version)
            && w1.connected && w1.ready == w.ready && w1.known == w.known
    decreases v.dead, 0
  {
    if v.dead > 0 {
      RecoveredShows(w, v.(dead := v.dead - 1));
    } else {
      var w1 := w.(baseline := Published(v.page), url := v.url, focus := v.tab, faithful := true);
      SentReplay(w1, Snapshot(v.tab, w.version, v.url, v.title, Published(v.page)));
    }
  }

  lemma {:induction false} RecoveredShows(w: WState, v: View)
    requires Sound(w.log, w.notes) && w.connected
    ensures var w1 := Recovered(w, v);
            && Shows(w1, v) && w1.version == 0
            && w1.connected && w1.ready == w.ready && w1.known == w.known
    decreases v.dead, 1
  {
    var w1 := Sent(w, Status(CRASHED));
    QuietSent(w, Status(CRASHED));
    QuietSent(w1.(version := 0), Status(CONNECTED));
    SnappedShows(Sent(w1.(version := 0), Status(CONNECTED)), v);
  }

  /** A browser that is found dead so many times is reported so many times. */
  function Alarms(n: nat): seq<Msg> {
    if n == 0 then [] else [Status("crashed"), Status("connected")] + Alarms(n - 1)
  }

  function SnapshotOf(v: View, version: nat): Msg {
    Snapshot(v.tab, version, v.url, v.title, Published(v.page))
  }

  lemma {:induction false} SnappedLog(w: WState, v: View)
    requires w.connected
    ensures Snapped(w, v).log == w.log + Alarms(v.dead) + [SnapshotOf(v, if v.dead > 0 then 0 else w.version)]
    decreases v.dead, 0
  {
    if v.dead > 0 { RecoveredLog(w, v.(dead := v.dead - 1)); }
  }

  /** A recovery says that the browser has crashed and is back, once for every time it was
      found dead, and then sends the page, at version 0. */
  lemma {:induction false} RecoveredLog(w: WState, v: View)
    requires w.connected
    ensures Recovered(w, v).log == w.log + Alarms(v.dead + 1) + [SnapshotOf(v, 0)]
    decreases v.dead, 1
  {
    var w3 := Sent(Sent(w, Status(CRASHED)).(version := 0), Status(CONNECTED));
    SnappedLog(w3, v);
    assert w3.log == w.log + [Status("crashed"), Status("connected")];
    Associate(w.log, [Status("crashed"), Status("connected")], Alarms(v.dead));
  }

  /** While nobody is listening, nothing is sent, and only the version starts again. */
  lemma {:induction false} UnheardRecovery(w: WState, v: View)
    requires !w.connected
    ensures Recovered(w, v) == w.(version := 0)
    ensures Snapped(w, v) == w.(version := if v.dead > 0 then 0 else w.version)
    decreases v.dead
  {
    if v.dead > 0 {
      UnheardRecovery(w, v.(dead := v.dead - 1));
      UnheardRecovery(w.(version := 0), v.(dead := v.dead - 1));
    }
  }

  /** The view an action has to answer with a snapshot, if any. */
  function Owed(w: WState, a: Action): Option<View> {
    match a
    case Connect(v, looked, _) => if looked then Some(v) else None
    case Crash(v) => if w.connected then Some(v) else None
    case Navigation(_, v) => if w.connected then Some(v) else None
    case Resync(v) => if w.connected then Some(v) else None
    case Turn(ob) =>
      if Waits(w, ob) then None
      else if Reloads(w, ob) then Some(ob.reload)
      else if Follows(w, ob) then Some(ob.follow)
      else None
    case _ => None
  }

  /** The polling loop goes round again without asking the browser for its page. */
  predicate Waits(w: WState, ob: Observation) {
    !(!ob.busy && ob.observers > 0 && w.connected && w.ready && ob.alive && !ob.navigating)
  }

  /** The browser is at another address, and the tracker has not survived the change. */
  predicate Reloads(w: WState, ob: Observation) {
    w.url != "" && ob.view.url != "" && ob.view.url != w.url && !ob.injected
  }

  /** There is a tab that was not there before, and this is not the first look. */
  predicate Follows(w: WState, ob: Observation) {
    w.known != {} && exists h :: h in ob.handles && h !in w.known
  }

  lemma FollowedShows(w: WState, now: set<string>, tab: string, v: View)
    requires Sound(w.log, w.notes) && w.connected
    ensures Shows(Followed(w, now, tab, v), v) && Followed(w, now, tab, v).known == now
    ensures Followed(w, now, tab, v).version == if v.dead > 0 then 0 else w.version
  {
    QuietSent(w.(known := now), TabOpened(tab, v.title));
    SnappedShows(Sent(w.(known := now), TabOpened(tab, v.title)).(url := v.url), v);
  }

  lemma TurnShows(w: WState, ob: Observation)
    requires Inv(w) && Possible(w, Turn(ob)) && Owed(w, Turn(ob)).Some?
    ensures Shows(Polled(w, ob), Owed(w, Turn(ob)).value)
    ensures Polled(w, ob).version == if Owed(w, Turn(ob)).value.dead > 0 then 0 else w.version
  {
    if Reloads(w, ob) {
      SnappedShows(w.(url := ob.view.url), ob.reload);
    } else {
      UrlSyncs(w, ob.view);
      var w1, now := UrlAnnounced(w, ob.view), HandleSet(ob);
      var h :| h in ob.handles && h !in w.known;
      assert h in now - w.known;
      ClosingSyncs(w1, now);
      LoggedFields(w1, ClosedMsgs(Sorted(w1.known - now)));
      FollowedShows(ClosedAnnounced(w1, now), now, ob.handles[|ob.handles| - 1], ob.follow);
    }
  }

  /** Whenever a snapshot is owed it is sent, and afterwards the mirror's active tab is exactly
      the view: its page, address and title, fresh, at the worker's version, whatever the
      mirror showed before, and whether or not anything else has changed. The version is 0
      after a crash, and else what it was. */
  lemma SnapshotsSent(w: WState, a: Action)
    requires Inv(w) && Possible(w, a) && Owed(w, a).Some?
    ensures Shows(Step(w, a), Owed(w, a).value)
    ensures Step(w, a).version == if a.Crash? || Owed(w, a).value.dead > 0 then 0 else w.version
    ensures a.Connect? ==> Step(w, a).connected && Step(w, a).ready == (w.ready || a.drained)
  {
    match a
    case Connect(v, _, _) =>
      QuietSent(w, Status(CONNECTED));
      SnappedShows(Sent(w, Status(CONNECTED)).(connected := true), v);
    case Crash(v) => RecoveredShows(w, v);
    case Navigation(captured, v) =>
      SnappedShows(if captured.None? then w else w.(baseline := Published(captured.value), faithful := false), v);
    case Resync(v) => SnappedShows(w, v);
    case Turn(ob) => TurnShows(w, ob);
  }

  // ---- turns without a snapshot ------------------------------------------------------------------------

  lemma {:induction false} LoggedLog(w: WState, ms: seq<Msg>)
    ensures Logged(w, ms).log == w.log + ms
    decreases |ms|
  {
    if ms != [] {
      LoggedLog(Sent(w, ms[0]), ms[1..]);
      assert w.log + ms == (w.log + [ms[0]]) + ms[1..];
    }
  }

  lemma {:induction false} ClosedIn(hs: seq<string>, m: Msg)
    ensures m in ClosedMsgs(hs) <==> m.TabClosed? && m.tab in hs
    ensures |ClosedMsgs(hs)| == |hs|
  {
    if hs != [] { ClosedIn(hs[1..], m); }
  }

  lemma {:induction false} OpenedIn(hs: seq<string>, title: string, m: Msg)
    ensures m in OpenedMsgs(hs, title) <==> m.TabOpened? && m.tab in hs && m.title == title
    ensures |OpenedMsgs(hs, title)| == |hs|
  {
    if hs != [] { OpenedIn(hs[1..], title, m); }
  }

  /** What a turn says before its diff, if it owes no snapshot: a new address in the same
      document, then the tabs that are gone, then the tabs that are new. */
  function Said(w: WState, ob: Observation): seq<Msg> {
    var now := HandleSet(ob);
    NewAddress(w, ob)
    + if ob.handles == [] then []
      else ClosedMsgs(Sorted(w.known - now)) + OpenedMsgs(Sorted(now - w.known), ob.follow.title)
  }

  /** The state a turn that owes no snapshot is in before its diff. */
  function Announced(w: WState, ob: Observation): WState {
    var now := HandleSet(ob);
    var w1 := UrlAnnounced(w, ob.view);
    if ob.handles == [] then w1
    else OpenedAnnounced(ClosedAnnounced(w1, now), now - w.known, now, ob.follow.title)
  }

  lemma TurnAnnounces(w: WState, ob: Observation)
    requires Owed(w, Turn(ob)).None? && !Waits(w, ob)
    ensures TabsFollowed(UrlAnnounced(w, ob.view), ob) == (Announced(w, ob), false)
    ensures Polled(w, ob)
         == if ob.mutations then DiffSent(Announced(w, ob), ob.view.tab, Published(ob.view.page)) else Announced(w, ob)
  {
    var w1, now := UrlAnnounced(w, ob.view), HandleSet(ob);
    if ob.handles != [] {
      LoggedFields(w1, ClosedMsgs(Sorted(w.known - now)));
      if h :| h in now - w.known { assert h in ob.handles && h !in w.known; }
    }
  }

  lemma JoinFour<T>(a: seq<T>, b: seq<T>, c: seq<T>, d: seq<T>)
    ensures ((a + b) + c) + d == a + (b + (c + d))
  {
  }

  function NewAddress(w: WState, ob: Observation): seq<Msg> {
    if UrlChanged(w, ob.view) then [Update(ob.view.tab, w.version, w.version, [])] else []
  }

  lemma AddressAnnounced(w: WState, ob: Observation)
    ensures UrlAnnounced(w, ob.view).log == w.log + NewAddress(w, ob)
  {
    Unit(w.log);
  }

  lemma AnnouncedLog(w: WState, ob: Observation)
    ensures Announced(w, ob).log == w.log + Said(w, ob)
  {
    var w1, now := UrlAnnounced(w, ob.view), HandleSet(ob);
    AddressAnnounced(w, ob);
    if ob.handles == [] {
      Unit(NewAddress(w, ob));
    } else {
      var gone, come := ClosedMsgs(Sorted(w.known - now)), OpenedMsgs(Sorted(now - w.known), ob.follow.title);
      LoggedFields(w1, gone);
      LoggedLog(w1, gone);
      LoggedLog(Logged(w1, gone), come);
      JoinFour(w.log, NewAddress(w, ob), gone, come);
    }
  }

  lemma AnnouncedState(w: WState, ob: Observation)
    ensures var r := Announced(w, ob);
            && r.connected == w.connected && r.ready == w.ready
            && r.known == (if ob.handles == [] then w.known else HandleSet(ob))
            && r.baseline == w.baseline && r.version == w.version && r.focus == w.focus
            && r.url == (if UrlChanged(w, ob.view) then ob.view.url else w.url)
  {
    var w1, now := UrlAnnounced(w, ob.view), HandleSet(ob);
    var gone, come := ClosedMsgs(Sorted(w.known - now)), OpenedMsgs(Sorted(now - w.known), ob.follow.title);
    LoggedFields(w1, gone);
    LoggedFields(Logged(w1, gone), come);
  }

  lemma SaidIn(w: WState, ob: Observation, m: Msg)
    ensures m in Said(w, ob) <==>
      || (UrlChanged(w, ob.view) && m == Update(ob.view.tab, w.version, w.version, []))
      || (m.TabClosed? && ob.handles != [] && m.tab in w.known && m.tab !in ob.handles)
      || (m.TabOpened? && m.tab in ob.handles && m.tab !in w.known && m.title == ob.follow.title)
  {
    var now := HandleSet(ob);
    ClosedIn(Sorted(w.known - now), m);
    OpenedIn(Sorted(now - w.known), ob.follow.title, m);
  }

  lemma SaidNothing(w: WState, ob: Observation)
    ensures Said(w, ob) == [] <==> !UrlChanged(w, ob.view) && (ob.handles == [] || w.known == HandleSet(ob))
  {
    var now := HandleSet(ob);
    if ob.handles != [] {
      ClosedIn(Sorted(w.known - now), Status(""));
      OpenedIn(Sorted(now - w.known), ob.follow.title, Status(""));
      SortedEmpty(w.known - now);
      SortedEmpty(now - w.known);
    }
  }

  lemma SortedEmpty(s: set<string>)
    ensures |Sorted(s)| == 0 <==> s == {}
  {
    if x :| x in s { assert x in Sorted(s); }
  }

  lemma DiffEmpty(was: seq<Node>, now: seq<Node>)
    ensures Diff(was, now) == [] <==> was == now
  {
  }

  lemma OpsSent(w: WState, tab: string, html: seq<Node>, ops: seq<Op>)
    requires ops == [] <==> w.baseline == html
    ensures var w1 := DiffLogged(w, tab, html, ops);
            && w1.known == w.known && w1.url == w.url && w1.focus == w.focus && w1.baseline == html
            && if ops == [] then w1 == w
               else w1.version == w.version + 1 && w1.log == w.log + [Update(tab, w.version, w.version + 1, ops)]
  {
  }

  lemma DiffSends(w: WState, tab: string, html: seq<Node>)
    ensures var w1 := DiffSent(w, tab, html);
            && w1.known == w.known && w1.url == w.url && w1.focus == w.focus && w1.baseline == html
            && if html == w.baseline then w1 == w
               else w1.version == w.version + 1
                    && w1.log == w.log + [Update(tab, w.version, w.version + 1, Diff(w.baseline, html))]
  {
    DiffEmpty(w.baseline, html);
    OpsSent(w, tab, html, Diff(w.baseline, html));
  }

  /** A turn that waits does nothing. Any other that owes no snapshot says what has become of
      the address and the tabs, and then, if there were mutations and the page is another, is
      the one to send a diff; the worker remembers the new tabs and address. */
  lemma TurnSends(w: WState, ob: Observation)
    requires Owed(w, Turn(ob)).None?
    ensures var w1 := Polled(w, ob);
            var html := if ob.mutations then Published(ob.view.page) else w.baseline;
            if Waits(w, ob) then w1 == w
            else
              && w1.known == (if ob.handles == [] then w.known else HandleSet(ob))
              && w1.url == (if UrlChanged(w, ob.view) then ob.view.url else w.url)
              && w1.focus == w.focus && w1.baseline == html
              && w1.version == (if html == w.baseline then w.version else w.version + 1)
              && w1.log == w.log + Said(w, ob)
                           + if html == w.baseline then []
                             else [Update(ob.view.tab, w.version, w.version + 1, Diff(w.baseline, html))]
  {
    if !Waits(w, ob) {
      var r := Announced(w, ob);
      TurnAnnounces(w, ob);
      AnnouncedState(w, ob);
      AnnouncedLog(w, ob);
      DiffSends(r, ob.view.tab, Published(ob.view.page));
      Unit(r.log);
    }
  }

  // ---- and the mirror after them ---------------------------------------------------------------------

  lemma DiffMirrors(w: WState, html: seq<Node>)
    requires Good(w)
    ensures var w1 := DiffSent(w, w.focus, html);
            && Fresh(Built(w1.log), w.focus) && Built(w1.log).tabs[w.focus].version == w1.version
            && Built(w1.log).tabs.Keys == Built(w.log).tabs.Keys && w1.focus == w.focus
            && Mirrored(w1) == if html == w.baseline then Mirrored(w) else Applied(Mirrored(w), Diff(w.baseline, html))
  {
    var ops := Diff(w.baseline, html);
    DiffEmpty(w.baseline, html);
    if ops != [] {
      var w1 := w.(baseline := html, version := w.version + 1,
                   faithful := w.faithful && Applied(w.baseline, ops) == html);
      NotedReplay(w.faithful, w.baseline, w1, Update(w.focus, w.version, w.version + 1, ops));
    }
  }

  lemma {:induction false} ClosedGone(w: WState, hs: seq<string>)
    requires |w.log| == |w.notes|
    ensures Built(Logged(w, ClosedMsgs(hs)).log).tabs.Keys == Built(w.log).tabs.Keys - set h | h in hs
    ensures |Logged(w, ClosedMsgs(hs)).log| == |Logged(w, ClosedMsgs(hs)).notes|
    decreases |hs|
  {
    if hs != [] {
      var m := TabClosed(hs[0]);
      assert ClosedMsgs(hs)[0] == m && ClosedMsgs(hs)[1..] == ClosedMsgs(hs[1..]);
      Appended(w.log, w.notes, m, Note(w.faithful, w.baseline, w.baseline, w.faithful));
      ClosedGone(Sent(w, m), hs[1..]);
      assert (set h | h in hs) == {hs[0]} + set h | h in hs[1..];
    }
  }

  lemma {:induction false} OpenedThere(w: WState, hs: seq<string>, title: string)
    requires |w.log| == |w.notes|
    ensures Built(Logged(w, OpenedMsgs(hs, title)).log).tabs.Keys == Built(w.log).tabs.Keys + set h | h in hs
    decreases |hs|
  {
    if hs != [] {
      var m := TabOpened(hs[0], title);
      assert OpenedMsgs(hs, title)[0] == m && OpenedMsgs(hs, title)[1..] == OpenedMsgs(hs[1..], title);
      Appended(w.log, w.notes, m, Note(w.faithful, w.baseline, w.baseline, w.faithful));
      OpenedThere(Sent(w, m), hs[1..], title);
      assert (set h | h in hs) == {hs[0]} + set h | h in hs[1..];
    }
  }

  lemma AnnouncedTabs(w: WState, ob: Observation)
    requires Inv(w) && w.ready && ob.view.tab == w.focus && (ob.handles != [] ==> w.focus in ob.handles)
    ensures Built(Announced(w, ob).log).tabs.Keys
         == if ob.handles == [] then Built(w.log).tabs.Keys
            else Built(w.log).tabs.Keys - (w.known - HandleSet(ob)) + (HandleSet(ob) - w.known)
  {
    UrlSyncs(w, ob.view);
    var w1, now := UrlAnnounced(w, ob.view), HandleSet(ob);
    SameTabs(w, ob.view);
    if ob.handles != [] {
      ClosedGone(w1, Sorted(w.known - now));
      LoggedFields(w1, ClosedMsgs(Sorted(w.known - now)));
      OpenedThere(ClosedAnnounced(w1, now), Sorted(now - w.known), ob.follow.title);
      assert (set h | h in Sorted(w.known - now)) == w.known - now;
      assert (set h | h in Sorted(now - w.known)) == now - w.known;
    }
  }

  lemma SameTabs(w: WState, v: View)
    requires Good(w) && v.tab == w.focus
    ensures Built(UrlAnnounced(w, v).log).tabs.Keys == Built(w.log).tabs.Keys
  {
    if UrlChanged(w, v) { SentReplay(w.(url := v.url), Update(v.tab, w.version, w.version, [])); }
  }

  /** What a turn that owes no snapshot leaves in the mirror: the tabs the browser has, and of
      the focused one the same page as before, or that page with the diff applied to it. */
  lemma TurnMirrors(w: WState, ob: Observation)
    requires Inv(w) && Possible(w, Turn(ob)) && Owed(w, Turn(ob)).None? && !Waits(w, ob)
    ensures var w1 := Polled(w, ob);
            var html := if ob.mutations then Published(ob.view.page) else w.baseline;
            && Fresh(Built(w1.log), w1.focus) && w1.focus == w.focus
            && Built(w1.log).tabs[w1.focus].version == w1.version
            && Built(w1.log).tabs.Keys
               == (if ob.handles == [] then Built(w.log).tabs.Keys
                   else Built(w.log).tabs.Keys - (w.known - HandleSet(ob)) + (HandleSet(ob) - w.known))
            && Mirrored(w1) == if html == w.baseline then Mirrored(w) else Applied(Mirrored(w), Diff(w.baseline, html))
  {
    TurnAnnounces(w, ob);
    UrlSyncs(w, ob.view);
    TabsSync(UrlAnnounced(w, ob.view), ob);
    AnnouncedTabs(w, ob);
    if ob.mutations { DiffMirrors(Announced(w, ob), Published(ob.view.page)); }
  }

  // ---- turns that do nothing ---------------------------------------------------------------------------

  lemma {:induction false} SnappedLonger(w: WState, v: View)
    requires w.connected
    ensures |Snapped(w, v).log| > |w.log| && |Recovered(w, v).log| > |w.log|
    decreases v.dead
  {
    var w1 := Sent(Sent(w, Status(CRASHED)).(version := 0), Status(CONNECTED));
    if v.dead > 0 {
      SnappedLonger(w, v.(dead := v.dead - 1));
      SnappedLonger(w1, v.(dead := v.dead - 1));
    }
  }

  lemma LongerAfterSnapshot(w: WState, ob: Observation)
    requires Owed(w, Turn(ob)).Some?
    ensures |Polled(w, ob).log| > |w.log|
    ensures UrlChanged(w, ob.view) || (ob.handles != [] && w.known != HandleSet(ob))
  {
    if Reloads(w, ob) {
      SnappedLonger(w.(url := ob.view.url), ob.reload);
    } else {
      var w1, now := UrlAnnounced(w, ob.view), HandleSet(ob);
      var h :| h in ob.handles && h !in w.known;
      assert h in now - w.known;
      var w2, tab := ClosedAnnounced(w1, now), ob.handles[|ob.handles| - 1];
      LoggedFields(w1, ClosedMsgs(Sorted(w1.known - now)));
      LoggedLog(w1, ClosedMsgs(Sorted(w1.known - now)));
      SnappedLonger(Sent(w2.(known := now), TabOpened(tab, ob.follow.title)).(url := ob.follow.url), ob.follow);
      assert Polled(w, ob) == Followed(w2, now, tab, ob.follow);
    }
  }

  lemma SilentTurn(w: WState, ob: Observation)
    requires Owed(w, Turn(ob)).None? && !Waits(w, ob)
    ensures Polled(w, ob).log == w.log <==>
      Said(w, ob) == [] && (!ob.mutations || Published(ob.view.page) == w.baseline)
    ensures Said(w, ob) == [] <==> !UrlChanged(w, ob.view) && (ob.handles == [] || w.known == HandleSet(ob))
    ensures Polled(w, ob).log == w.log ==> Polled(w, ob) == w
  {
    TurnSends(w, ob);
    SaidNothing(w, ob);
    if Said(w, ob) == [] && (!ob.mutations || Published(ob.view.page) == w.baseline) { QuietTurn(w, ob); }
  }

  /** Nothing new. */
  lemma QuietTurn(w: WState, ob: Observation)
    requires Owed(w, Turn(ob)).None? && !Waits(w, ob) && !UrlChanged(w, ob.view)
    requires ob.handles == [] || w.known == HandleSet(ob)
    requires !ob.mutations || Published(ob.view.page) == w.baseline
    ensures Polled(w, ob) == w
  {
    if ob.handles != [] {
      SortedEmpty(w.known - HandleSet(ob));
      SortedEmpty(HandleSet(ob) - w.known);
    }
  }

  /** Exactly the turns that send nothing: those that wait, and those that find the same
      address, the same tabs and no other page; and they change nothing either. */
  lemma SilentIff(w: WState, ob: Observation)
    requires Inv(w) && Possible(w, Turn(ob))
    ensures Polled(w, ob).log == w.log <==>
      || Waits(w, ob)
      || (!UrlChanged(w, ob.view) && (ob.handles == [] || w.known == HandleSet(ob))
          && (!ob.mutations || Published(ob.view.page) == w.baseline))
    ensures Polled(w, ob).log == w.log ==> Polled(w, ob) == w
  {
    if Owed(w, Turn(ob)).Some? {
      LongerAfterSnapshot(w, ob);
    } else {
      TurnSends(w, ob);
      if !Waits(w, ob) { SilentTurn(w, ob); }
    }
  }

  // ---- when the worker polls -----------------------------------------------------------------------

  predicate SameLink(w: WState, w1: WState) {
    w1.ready == w.ready && w1.connected == w.connected
  }

  lemma {:induction false} SnappedLink(w: WState, v: View)
    ensures SameLink(w, Snapped(w, v))
    decreases v.dead, 0
  {
    if v.dead > 0 { RecoveredLink(w, v.(dead := v.dead - 1)); }
  }

  lemma {:induction false} RecoveredLink(w: WState, v: View)
    ensures SameLink(w, Recovered(w, v))
    decreases v.dead, 1
  {
    var w1 := if w.connected then Sent(w, Status(CRASHED)) else w;
    var w2 := w1.(version := 0);
    SnappedLink(if w.connected then Sent(w2, Status(CONNECTED)) else w2, v);
  }

  lemma FollowedLink(w: WState, ob: Observation)
    ensures SameLink(w, TabsFollowed(w, ob).0)
  {
    if ob.handles != [] {
      var now := HandleSet(ob);
      var w1 := ClosedAnnounced(w, now);
      LoggedFields(w, ClosedMsgs(Sorted(w.known - now)));
      LoggedFields(w1, OpenedMsgs(Sorted(now - w.known), ob.follow.title));
      var tab := ob.handles[|ob.handles| - 1];
      SnappedLink(Sent(w1.(known := now), TabOpened(tab, ob.follow.title)).(url := ob.follow.url), ob.follow);
    }
  }

  lemma PolledLink(w: WState, ob: Observation)
    ensures SameLink(w, Polled(w, ob))
  {
    if UrlChanged(w, ob.view) && !ob.injected { SnappedLink(w.(url := ob.view.url), ob.reload); }
    FollowedLink(UrlAnnounced(w, ob.view), ob);
  }

  lemma StepLink(w: WState, a: Action)
    ensures var w1 := Step(w, a);
            && (w1.connected <==> a.Connect? || (w.connected && !a.Disconnect? && !a.Reboot?))
            && (w1.ready <==> (a.Connect? && a.looked && a.drained) || (w.ready && !a.Disconnect? && !a.Reboot?))
  {
    match a
    case Connect(v, _, _) => SnappedLink(Sent(w, Status(CONNECTED)).(connected := true), v);
    case Crash(v) => RecoveredLink(w, v);
    case Navigation(captured, v) =>
      SnappedLink(if captured.None? then w else w.(baseline := Published(captured.value), faithful := false), v);
    case Resync(v) => SnappedLink(w, v);
    case Turn(ob) => PolledLink(w, ob);
    case _ =>
  }

  /** The k-th action connected the worker, with `page` and a clear mutation buffer if those are
      asked for; and the connection lasts. */
  predicate LinkedAt(acts: seq<Action>, k: nat, page: bool) {
    && k < |acts| && acts[k].Connect? && (page ==> acts[k].looked && acts[k].drained)
    && forall j | k < j < |acts| :: !acts[j].Disconnect? && !acts[j].Reboot?
  }

  lemma LinkedStep(acts: seq<Action>, a: Action, page: bool)
    ensures (exists k: nat :: LinkedAt(acts + [a], k, page)) <==>
      || (a.Connect? && (page ==> a.looked && a.drained))
      || ((exists k: nat :: LinkedAt(acts, k, page)) && !a.Disconnect? && !a.Reboot?)
  {
    var more := acts + [a];
    if a.Connect? && (page ==> a.looked && a.drained) { assert LinkedAt(more, |acts|, page); }
    if k: nat :| LinkedAt(acts, k, page) {
      if !a.Disconnect? && !a.Reboot? { assert LinkedAt(more, k, page); }
    }
    if k: nat :| LinkedAt(more, k, page) {
      if k < |acts| {
        assert more[|acts|] == a && forall j | 0 <= j < |acts| :: more[j] == acts[j];
        assert LinkedAt(acts, k, page);
      }
    }
  }

  /** The worker is connected exactly if it has connected and not lost the connection since, and
      polls only if in between a connection sent the page and left the mutation buffer clear. */
  lemma {:induction false} ReadyIff(acts: seq<Action>)
    ensures Run(acts).connected <==> exists k: nat :: LinkedAt(acts, k, false)
    ensures Run(acts).ready <==> exists k: nat :: LinkedAt(acts, k, true)
  {
    if acts != [] {
      ReadyIff(Init(acts));
      StepLink(Run(Init(acts)), Last(acts));
      LinkedStep(Init(acts), Last(acts), false);
      LinkedStep(Init(acts), Last(acts), true);
      assert Init(acts) + [Last(acts)] == acts;
    }
  }
}
