/** worker/worker.py: the synchronising half of a worker. What Selenium observes is a
    parameter; what the worker sends is appended to `log`. Sending a snapshot together
    with the capture it carries, and one poll from capture to send, are atomic. */
module WorkerSync {
  import opened Strings
  import opened Dom
  import opened Pipeline
  import opened Differ
  import opened StateManager

  /** One look at the browser's focused tab, and how often, before it, the browser was found
      dead and restarted. */
  datatype View = View(page: seq<Node>, url: string, title: string, tab: string, dead: nat)

  /** Everything one turn of the polling loop observes. `reload` is the view of a
      snapshot after a full navigation, `follow` the view after switching to a new tab. */
  datatype Observation = Observation(
    busy: bool, observers: nat, alive: bool, navigating: bool, injected: bool, mutations: bool,
    view: View, handles: seq<string>, reload: View, follow: View)

  /** What the model notes beside a message: the worker's baseline before and after it, and
      whether, before and after it, the worker was faithful. */
  datatype Note = Note(exact: bool, was: seq<Node>, now: seq<Node>, still: bool)

  /** `focus`, `faithful` and `notes` are bookkeeping of the model. `focus` is the tab the
      last snapshot showed. `faithful`: since that snapshot, replaying each diff sent gave
      the page it was computed for. `notes` runs parallel to `log`. */
  datatype WState = WState(
    version: nat, baseline: seq<Node>, url: string, known: set<string>, connected: bool, ready: bool,
    focus: string, faithful: bool, notes: seq<Note>, log: seq<Msg>)

  const INIT := WState(1, [], "", {}, false, false, "", false, [], [])

  // ---- specification of the actions -------------------------------------------------------

  /** The message is sent from `w`, by a worker that was at `was` before. */
  function Noted(exact: bool, was: seq<Node>, w: WState, m: Msg): WState {
    w.(log := w.log + [m], notes := w.notes + [Note(exact, was, w.baseline, w.faithful)])
  }

  function Sent(w: WState, m: Msg): WState {
    Noted(w.faithful, w.baseline, w, m)
  }

  function Logged(w: WState, ms: seq<Msg>): WState
    decreases |ms|
  {
    if ms == [] then w else Logged(Sent(w, ms[0]), ms[1..])
  }

  /** A snapshot does not bump the version. Offline, sending raises and nothing changes. That
      the baseline is stored after a send, and here before it, makes no difference. */
  function Snapped(w: WState, v: View): WState
    decreases v.dead, 0
  {
    if v.dead > 0 then Recovered(w, v.(dead := v.dead - 1))
    else if !w.connected then w
    else Sent(w.(baseline := Published(v.page), url := v.url, focus := v.tab, faithful := true),
              Snapshot(v.tab, w.version, v.url, v.title, Published(v.page)))
  }

  function Recovered(w: WState, v: View): WState
    decreases v.dead, 1
  {
    var w1 := if w.connected then Sent(w, Status(CRASHED)) else w;
    var w2 := w1.(version := 0);
    var w3 := if w.connected then Sent(w2, Status(CONNECTED)) else w2;
    Snapped(w3, v)
  }

  /** Without a snapshot, or if clearing the mutation buffer after it fails, the worker does
      not get ready. */
  function Connected(w: WState, v: View, looked: bool, drained: bool): WState {
    var w1 := w.(connected := true);
    if !looked then w1
    else
      var w2 := Snapped(w1, v);
      w2.(ready := w2.ready || drained)
  }

  function Disconnected(w: WState): WState {
    w.(connected := false, ready := false)
  }

  /** After a navigating command: the baseline is overwritten before the snapshot, unless the
      browser is dead. */
  function Navigated(w: WState, captured: Option<seq<Node>>, v: View): WState {
    Snapped(if captured.None? then w else w.(baseline := Published(captured.value), faithful := false), v)
  }

  function UrlChanged(w: WState, v: View): bool {
    v.url != "" && w.url != "" && v.url != w.url
  }

  function HandleSet(ob: Observation): set<string> {
    set h | h in ob.handles
  }

  function ClosedMsgs(hs: seq<string>): seq<Msg> {
    if hs == [] then [] else [TabClosed(hs[0])] + ClosedMsgs(hs[1..])
  }

  function OpenedMsgs(hs: seq<string>, title: string): seq<Msg> {
    if hs == [] then [] else [TabOpened(hs[0], title)] + OpenedMsgs(hs[1..], title)
  }

  function DiffLogged(w: WState, tab: string, html: seq<Node>, ops: seq<Op>): WState {
    if ops == [] then w
    else Noted(w.faithful, w.baseline,
               w.(baseline := html, version := w.version + 1,
                  faithful := w.faithful && Applied(w.baseline, ops) == html),
               Update(tab, w.version, w.version + 1, ops))
  }

  function DiffSent(w: WState, tab: string, html: seq<Node>): WState {
    DiffLogged(w, tab, html, Diff(w.baseline, html))
  }

  /** A changed URL in the same document is announced by an update without operations. */
  function UrlAnnounced(w: WState, v: View): WState {
    if UrlChanged(w, v) then Sent(w.(url := v.url), Update(v.tab, w.version, w.version, [])) else w
  }

  function ClosedAnnounced(w: WState, now: set<string>): WState {
    Logged(w, ClosedMsgs(Sorted(w.known - now)))
  }

  function OpenedAnnounced(w: WState, arrived: set<string>, now: set<string>, title: string): WState {
    Logged(w, OpenedMsgs(Sorted(arrived), title)).(known := now)
  }

  function Followed(w: WState, now: set<string>, tab: string, v: View): WState {
    Snapped(Sent(w.(known := now), TabOpened(tab, v.title)).(url := v.url), v)
  }

  /** Tabs that went away are announced; a new tab is followed, with a snapshot. */
  function TabsFollowed(w: WState, ob: Observation): (WState, bool) {
    if ob.handles == [] then (w, false)
    else
      var now := HandleSet(ob);
      var w1 := ClosedAnnounced(w, now);
      if w.known != {} && now - w.known != {} then (Followed(w1, now, ob.handles[|ob.handles| - 1], ob.follow), true)
      else (OpenedAnnounced(w1, now - w.known, now, ob.follow.title), false)
  }

  /** The turn gets as far as computing a diff. */
  predicate Diffing(w: WState, ob: Observation) {
    && !Idle(w, ob) && !(UrlChanged(w, ob.view) && !ob.injected) && ob.mutations
    && !TabsFollowed(UrlAnnounced(w, ob.view), ob).1
  }

  predicate Idle(w: WState, ob: Observation) {
    ob.busy || ob.observers == 0 || !w.connected || !w.ready || !ob.alive || ob.navigating
  }

  function Polled(w: WState, ob: Observation): WState {
    if Idle(w, ob) then w
    else if UrlChanged(w, ob.view) && !ob.injected then Snapped(w.(url := ob.view.url), ob.reload)
    else
      var (w1, followed) := TabsFollowed(UrlAnnounced(w, ob.view), ob);
      if followed || !ob.mutations then w1 else DiffSent(w1, ob.view.tab, Published(ob.view.page))
  }

  // ---- the worker -----------------------------------------------------------------------------

  class Worker {
    var domVersion: nat
    var lastSnapshotHtml: seq<Node>
    var lastSnapshotUrl: string
    var knownWindowHandles: set<string>
    var isConnected: bool
    var snapshotReady: bool
    var log: seq<Msg>
    ghost var focus: string
    ghost var faithful: bool
    ghost var notes: seq<Note>

    ghost function State(): WState
      reads this
    {
      WState(domVersion, lastSnapshotHtml, lastSnapshotUrl, knownWindowHandles, isConnected, snapshotReady, focus,
             faithful, notes, log)
    }

    constructor ()
      ensures State() == INIT
    {
      domVersion, lastSnapshotHtml, lastSnapshotUrl, knownWindowHandles := 1, [], "", {};
      isConnected, snapshotReady, log, focus, faithful, notes := false, false, [], "", false, [];
    }

    method SendMessage(m: Msg)
      modifies this`log, this`notes
      ensures State() == Sent(old(State()), m)
    {
      notes := notes + [Note(faithful, lastSnapshotHtml, lastSnapshotHtml, faithful)];
      log := log + [m];
    }

    method SendFullSnapshot(v: View) returns (sent: bool)
      modifies this
      ensures sent == old(isConnected) && State() == Snapped(old(State()), v)
      ensures isConnected == old(isConnected)
      decreases v.dead, 0
    {
      if v.dead > 0 {
        RecoverFromBrowserCrash(v.(dead := v.dead - 1));
        return isConnected;
      }
      var html := Normalize(v.page, true);
      html := Merge(html);
      if !isConnected { return false; }
      lastSnapshotHtml, lastSnapshotUrl := html, v.url;
      focus, faithful := v.tab, true;
      SendMessage(Snapshot(v.tab, domVersion, v.url, v.title, html));
      sent := true;
    }

    method OnServerConnected(v: View, looked: bool, drained: bool)
      modifies this
      ensures State() == Connected(old(State()), v, looked, drained)
    {
      isConnected := true;
      if !looked { return; }
      var sent := SendFullSnapshot(v);
      if drained { snapshotReady := true; }
    }

    method OnServerDisconnected()
      modifies this
      ensures State() == Disconnected(old(State()))
    {
      isConnected, snapshotReady := false, false;
    }

    /** Also the path of a browser configuration change and of the restart command. */
    method RecoverFromBrowserCrash(v: View)
      modifies this
      ensures State() == Recovered(old(State()), v)
      ensures isConnected == old(isConnected)
      decreases v.dead, 1
    {
      if isConnected { SendMessage(Status(CRASHED)); }
      domVersion := 0;
      if isConnected { SendMessage(Status(CONNECTED)); }
      var sent := SendFullSnapshot(v);
    }

    method AfterNavigatingCommand(captured: Option<seq<Node>>, v: View)
      modifies this
      ensures State() == Navigated(old(State()), captured, v)
    {
      if captured.Some? {
        var html := Normalize(captured.value, true);
        lastSnapshotHtml := Merge(html);
        faithful := false;
      }
      var sent := SendFullSnapshot(v);
    }

    method AnnounceClosed(closed: seq<string>)
      modifies this`log, this`notes
      ensures State() == Logged(old(State()), ClosedMsgs(closed))
    {
      for i := 0 to |closed|
        invariant Logged(State(), ClosedMsgs(closed[i..])) == Logged(old(State()), ClosedMsgs(closed))
      {
        ghost var rest := closed[i..];
        assert rest[0] == closed[i] && rest[1..] == closed[i + 1..];
        assert ClosedMsgs(rest)[0] == TabClosed(closed[i]) && ClosedMsgs(rest)[1..] == ClosedMsgs(closed[i + 1..]);
        SendMessage(TabClosed(closed[i]));
      }
      assert closed[|closed|..] == [];
    }

    method AnnounceOpened(handles: seq<string>, title: string)
      modifies this`log, this`notes
      ensures State() == Logged(old(State()), OpenedMsgs(handles, title))
    {
      for i := 0 to |handles|
        invariant Logged(State(), OpenedMsgs(handles[i..], title)) == Logged(old(State()), OpenedMsgs(handles, title))
      {
        ghost var rest := handles[i..];
        assert rest[0] == handles[i] && rest[1..] == handles[i + 1..];
        assert OpenedMsgs(rest, title)[0] == TabOpened(handles[i], title);
        assert OpenedMsgs(rest, title)[1..] == OpenedMsgs(handles[i + 1..], title);
        SendMessage(TabOpened(handles[i], title));
      }
      assert handles[|handles|..] == [];
    }

    method PollTabs(ob: Observation) returns (followed: bool)
      modifies this
      ensures (State(), followed) == TabsFollowed(old(State()), ob)
    {
      if ob.handles == [] { return false; }
      var now := set h | h in ob.handles;
      assert now == HandleSet(ob);
      AnnounceClosed(Sorted(knownWindowHandles - now));
      if knownWindowHandles != {} && now - knownWindowHandles != {} {
        knownWindowHandles := now;
        SendMessage(TabOpened(ob.handles[|ob.handles| - 1], ob.follow.title));
        lastSnapshotUrl := ob.follow.url;
        var sent := SendFullSnapshot(ob.follow);
        return true;
      }
      AnnounceOpened(Sorted(now - knownWindowHandles), ob.follow.title);
      knownWindowHandles := now;
      followed := false;
    }

    method SendDiff(tab: string, page: seq<Node>)
      modifies this
      ensures State() == DiffSent(old(State()), tab, Published(page))
    {
      var html := Normalize(page, true);
      html := Merge(html);
      SendDiffTo(tab, html);
    }

    method SendDiffTo(tab: string, html: seq<Node>)
      modifies this
      ensures State() == DiffSent(old(State()), tab, html)
    {
      var ops := ComputeDiff(lastSnapshotHtml, html);
      SendOps(tab, html, ops);
    }

    method SendOps(tab: string, html: seq<Node>, ops: seq<Op>)
      modifies this
      ensures State() == DiffLogged(old(State()), tab, html, ops)
    {
      if ops == [] { return; }
      ghost var still := faithful && Applied(lastSnapshotHtml, ops) == html;
      notes := notes + [Note(faithful, lastSnapshotHtml, html, still)];
      log := log + [Update(tab, domVersion, domVersion + 1, ops)];
      lastSnapshotHtml, domVersion, faithful := html, domVersion + 1, still;
    }

    /** One turn of the mutation polling loop. */
    method Poll(ob: Observation)
      modifies this
      ensures State() == Polled(old(State()), ob)
    {
      if ob.busy || ob.observers == 0 { return; }
      if !isConnected || !snapshotReady { return; }
      if !ob.alive || ob.navigating { return; }
      if ob.view.url != "" && lastSnapshotUrl != "" && ob.view.url != lastSnapshotUrl {
        lastSnapshotUrl := ob.view.url;
        if ob.injected {
          SendMessage(Update(ob.view.tab, domVersion, domVersion, []));
        } else {
          var sent := SendFullSnapshot(ob.reload);
          return;
        }
      }
      assert State() == UrlAnnounced(old(State()), ob.view);
      var followed := PollTabs(ob);
      if followed || !ob.mutations { return; }
      SendDiff(ob.view.tab, ob.view.page);
    }
  }
}
