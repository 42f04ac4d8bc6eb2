/** The synchronisation protocol over whole runs of a worker. Channels are FIFO, so what a
    controller has received at any time is a prefix of the worker's log; the relay adds
    its own status lines to it when the worker's socket comes and goes. */
module SyncProof {
  import opened Strings
  import opened Dom
  import opened Pipeline
  import opened Differ
  import opened StateManager
  import opened WorkerSync

  // ---- the lossless replica -------------------------------------------------------------------

  function Init<T>(s: seq<T>): seq<T>
    requires s != []
  {
    s[..|s| - 1]
  }

  function Last<T>(s: seq<T>): T
    requires s != []
  {
    s[|s| - 1]
  }

  /** What a controller holds that has received every message of the log. */
  function Built(log: seq<Msg>): Slot {
    if log == [] then NEW_SLOT else Received(Built(Init(log)), Last(log))
  }

  predicate Fresh(s: Slot, t: string) {
    t in s.tabs && !s.tabs[t].stale
  }

  predicate Carries(m: Msg, t: string) {
    (m.Snapshot? || m.Update?) && m.tab == t
  }

  predicate Carrying(m: Msg) {
    m.Snapshot? || m.Update?
  }

  /** The message suits the replica that all messages before it built. A snapshot brings
      the page it was taken of. An update is accepted, bumps the version unless it is
      empty, and is the diff between two pages of the worker's; if the replica was exact
      before, it shows the first of them, and it stays exact exactly if the replay gives the
      second. */
  predicate Suits(s: Slot, m: Msg, note: Note) {
    match m
    case Snapshot(_, _, _, _, html) => note.still && note.now == html
    case Update(t, base, version, ops) =>
      && Accepts(s, m)
      && (version == base + 1 || (version == base && ops == []))
      && ops == Diff(note.was, note.now)
      && (note.exact ==> s.tabs[t].html == note.was)
      && (note.still <==> note.exact && Applied(note.was, ops) == note.now)
    case _ => true
  }

  /** The replica was exact after the last message that carried a page. */
  predicate Still(log: seq<Msg>, notes: seq<Note>)
    requires |log| == |notes|
  {
    log != [] && if Carrying(Last(log)) then Last(notes).still else Still(Init(log), Init(notes))
  }

  predicate Fits(log: seq<Msg>, notes: seq<Note>, m: Msg, note: Note)
    requires |log| == |notes|
  {
    Suits(Built(log), m, note) && (m.Update? ==> (note.exact <==> Still(log, notes)))
  }

  predicate Sound(log: seq<Msg>, notes: seq<Note>) {
    && |log| == |notes|
    && (log != [] ==> Sound(Init(log), Init(notes)) && Fits(Init(log), Init(notes), Last(log), Last(notes)))
  }

  // ---- runs ---------------------------------------------------------------------------------------

  /** `Reboot` starts a new worker process under the same name. */
  datatype Action =
    | Connect(v: View, looked: bool, drained: bool) | Disconnect | Crash(v: View)
    | Navigation(captured: Option<seq<Node>>, v: View)
    | Resync(v: View) | Turn(ob: Observation) | Reboot

  function Step(w: WState, a: Action): WState {
    match a
    case Connect(v, looked, drained) => Connected(Sent(w, Status(CONNECTED)), v, looked, drained)
    case Disconnect => Sent(Disconnected(w), Status(DISCONNECTED))
    case Crash(v) => Recovered(w, v)
    case Navigation(captured, v) => Navigated(w, captured, v)
    case Resync(v) => Snapped(w, v)
    case Turn(ob) => Polled(w, ob)
    case Reboot => INIT.(log := w.log, notes := w.notes)
  }

  /** Between two snapshots the browser does not change focus by itself, and the focused
      tab is one of the open ones. */
  predicate Possible(w: WState, a: Action) {
    a.Turn? && !Idle(w, a.ob) ==> a.ob.view.tab == w.focus && (a.ob.handles != [] ==> w.focus in a.ob.handles)
  }

  function Run(acts: seq<Action>): WState {
    if acts == [] then INIT else Step(Run(Init(acts)), Last(acts))
  }

  predicate Legal(acts: seq<Action>) {
    acts != [] ==> Legal(Init(acts)) && Possible(Run(Init(acts)), Last(acts))
  }

  lemma RunAppend(acts: seq<Action>, a: Action)
    ensures Run(acts + [a]) == Step(Run(acts), a)
    ensures Legal(acts + [a]) <==> Legal(acts) && Possible(Run(acts), a)
  {
    assert Init(acts + [a]) == acts;
  }

  /** The replica shows the focused tab exactly as the worker remembers sending it. */
  predicate Synced(w: WState)
    requires |w.log| == |w.notes|
  {
    && Fresh(Built(w.log), w.focus)
    && Built(w.log).tabs[w.focus].version == w.version
    && (w.focus != "" ==> Built(w.log).active == w.focus)
    && (w.faithful ==> Built(w.log).tabs[w.focus].html == w.baseline)
    && (w.faithful <==> Still(w.log, w.notes))
  }

  /** The page the replica shows of the focused tab. */
  function Mirrored(w: WState): seq<Node>
    requires Fresh(Built(w.log), w.focus)
  {
    Built(w.log).tabs[w.focus].html
  }

  predicate Inv(w: WState) {
    Sound(w.log, w.notes) && (w.ready ==> w.connected && Synced(w))
  }

  // ---- one message at a time ---------------------------------------------------------------------

  lemma Appended(log: seq<Msg>, notes: seq<Note>, m: Msg, note: Note)
    requires |log| == |notes|
    ensures Built(log + [m]) == Received(Built(log), m)
    ensures Still(log + [m], notes + [note]) <==> if Carrying(m) then note.still else Still(log, notes)
    ensures Sound(log + [m], notes + [note]) <==> Sound(log, notes) && Fits(log, notes, m, note)
  {
    assert Init(log + [m]) == log && Init(notes + [note]) == notes;
  }

  lemma NotedReplay(exact: bool, was: seq<Node>, w: WState, m: Msg)
    requires Sound(w.log, w.notes)
    ensures var w1 := Noted(exact, was, w, m);
            && Built(w1.log) == Received(Built(w.log), m) && |w1.log| == |w1.notes|
            && (Fits(w.log, w.notes, m, Note(exact, was, w.baseline, w.faithful)) ==> Sound(w1.log, w1.notes))
            && (Still(w1.log, w1.notes) <==> if Carrying(m) then w.faithful else Still(w.log, w.notes))
  {
    Appended(w.log, w.notes, m, Note(exact, was, w.baseline, w.faithful));
  }

  lemma SentReplay(w: WState, m: Msg)
    requires Sound(w.log, w.notes)
    ensures var w1 := Sent(w, m);
            && Built(w1.log) == Received(Built(w.log), m) && |w1.log| == |w1.notes|
            && (Fits(w.log, w.notes, m, Note(w.faithful, w.baseline, w.baseline, w.faithful))
                ==> Sound(w1.log, w1.notes))
            && (Still(w1.log, w1.notes) <==> if Carrying(m) then w.faithful else Still(w.log, w.notes))
  {
    NotedReplay(w.faithful, w.baseline, w, m);
  }

  predicate Quiet(m: Msg, focus: string) {
    match m
    case TabOpened(_, _) => true
    case TabClosed(t) => t != focus
    case Status(s) => s != DISCONNECTED
    case _ => false
  }

  lemma QuietSent(w: WState, m: Msg)
    requires Sound(w.log, w.notes) && Quiet(m, w.focus)
    ensures Sound(Sent(w, m).log, Sent(w, m).notes)
    ensures Synced(w) ==> Synced(Sent(w, m)) && Mirrored(Sent(w, m)) == Mirrored(w)
  {
    SentReplay(w, m);
  }

  lemma {:induction false} LoggedFields(w: WState, ms: seq<Msg>)
    ensures Logged(w, ms) == w.(log := Logged(w, ms).log, notes := Logged(w, ms).notes)
    decreases |ms|
  {
    if ms != [] { LoggedFields(Sent(w, ms[0]), ms[1..]); }
  }

  predicate AllQuiet(ms: seq<Msg>, focus: string) {
    forall m :: m in ms ==> Quiet(m, focus)
  }

  lemma {:induction false} QuietLogged(w: WState, ms: seq<Msg>)
    requires Sound(w.log, w.notes) && AllQuiet(ms, w.focus)
    ensures Sound(Logged(w, ms).log, Logged(w, ms).notes)
    ensures Synced(w) ==> Synced(Logged(w, ms)) && Mirrored(Logged(w, ms)) == Mirrored(w)
    decreases |ms|
  {
    if ms != [] {
      assert ms[0] in ms && AllQuiet(ms[1..], w.focus);
      QuietSent(w, ms[0]);
      QuietLogged(Sent(w, ms[0]), ms[1..]);
    }
  }

  lemma SnapshotSent(w: WState, v: View)
    requires Sound(w.log, w.notes) && v.dead == 0 && w.connected
    ensures Sound(Snapped(w, v).log, Snapped(w, v).notes) && Synced(Snapped(w, v))
    ensures Snapped(w, v).connected && Snapped(w, v).ready == w.ready
  {
    var w1 := w.(baseline := Published(v.page), url := v.url, focus := v.tab, faithful := true);
    SentReplay(w1, Snapshot(v.tab, w.version, v.url, v.title, Published(v.page)));
  }

  lemma {:induction false} Offline(w: WState, v: View)
    requires !w.connected
    ensures Snapped(w, v) == w.(version := Snapped(w, v).version)
    ensures Recovered(w, v) == w.(version := Recovered(w, v).version)
    decreases v.dead
  {
    if v.dead > 0 { Offline(w, v.(dead := v.dead - 1)); Offline(w.(version := 0), v.(dead := v.dead - 1)); }
  }

  /** A snapshot syncs, whatever was before; and so does one that had to wait for the browser
      to be restarted. */
  lemma {:induction false} SnapshotSyncs(w: WState, v: View)
    requires Sound(w.log, w.notes)
    ensures Sound(Snapped(w, v).log, Snapped(w, v).notes)
    ensures w.connected ==> Synced(Snapped(w, v))
    ensures Snapped(w, v).connected == w.connected && Snapped(w, v).ready == w.ready
    ensures !w.connected ==> Snapped(w, v).log == w.log && Snapped(w, v).baseline == w.baseline
    decreases v.dead, 0
  {
    if !w.connected { Offline(w, v); }
    else if v.dead > 0 { RecoverySyncs(w, v.(dead := v.dead - 1)); }
    else { SnapshotSent(w, v); }
  }

  lemma {:induction false} RecoverySyncs(w: WState, v: View)
    requires Sound(w.log, w.notes)
    ensures Sound(Recovered(w, v).log, Recovered(w, v).notes)
    ensures w.connected ==> Synced(Recovered(w, v))
    ensures Recovered(w, v).connected == w.connected && Recovered(w, v).ready == w.ready
    ensures !w.connected ==> Recovered(w, v).log == w.log && Recovered(w, v).baseline == w.baseline
    decreases v.dead, 1
  {
    if w.connected {
      var w1 := Sent(w, Status(CRASHED));
      QuietSent(w, Status(CRASHED));
      QuietSent(w1.(version := 0), Status(CONNECTED));
      SnapshotSyncs(Sent(w1.(version := 0), Status(CONNECTED)), v);
    } else {
      Offline(w, v);
    }
  }

  lemma UpdateSyncs(w: WState, html: seq<Node>, ops: seq<Op>)
    requires Sound(w.log, w.notes) && Synced(w) && ops == Diff(w.baseline, html)
    ensures var w1 := DiffLogged(w, w.focus, html, ops); Sound(w1.log, w1.notes) && Synced(w1)
  {
    if ops != [] {
      var w1 := w.(baseline := html, version := w.version + 1,
                   faithful := w.faithful && Applied(w.baseline, ops) == html);
      NotedReplay(w.faithful, w.baseline, w1, Update(w.focus, w.version, w.version + 1, ops));
    }
  }

  lemma UrlSyncs(w: WState, v: View)
    requires Sound(w.log, w.notes) && Synced(w) && v.tab == w.focus
    ensures var w1 := UrlAnnounced(w, v); Sound(w1.log, w1.notes) && Synced(w1)
    ensures Mirrored(UrlAnnounced(w, v)) == Mirrored(w)
  {
    if UrlChanged(w, v) {
      SentReplay(w.(url := v.url), Update(v.tab, w.version, w.version, []));
      assert Applied(w.baseline, []) == w.baseline;
      assert Applied(Built(w.log).tabs[w.focus].html, []) == Built(w.log).tabs[w.focus].html;
    }
  }

  // ---- one action at a time -----------------------------------------------------------------------

  lemma {:induction false} ClosedQuiet(hs: seq<string>, focus: string)
    requires focus !in hs
    ensures AllQuiet(ClosedMsgs(hs), focus)
  {
    if hs != [] { ClosedQuiet(hs[1..], focus); }
  }

  lemma {:induction false} OpenedQuiet(hs: seq<string>, title: string, focus: string)
    ensures AllQuiet(OpenedMsgs(hs, title), focus)
  {
    if hs != [] { OpenedQuiet(hs[1..], title, focus); }
  }

  predicate Good(w: WState) {
    Sound(w.log, w.notes) && Synced(w)
  }

  lemma FollowSyncs(w: WState, now: set<string>, tab: string, v: View)
    requires Good(w) && w.connected
    ensures Good(Followed(w, now, tab, v)) && Followed(w, now, tab, v).connected
      && Followed(w, now, tab, v).ready == w.ready
  {
    QuietSent(w.(known := now), TabOpened(tab, v.title));
    SnapshotSyncs(Sent(w.(known := now), TabOpened(tab, v.title)).(url := v.url), v);
  }

  lemma ClosingSyncs(w: WState, now: set<string>)
    requires Good(w) && w.focus in now
    ensures var w1 := ClosedAnnounced(w, now);
            && Good(w1) && w1.focus == w.focus && w1.connected == w.connected && w1.ready == w.ready
            && w1.baseline == w.baseline && w1.faithful == w.faithful && Mirrored(w1) == Mirrored(w)
  {
    ClosedQuiet(Sorted(w.known - now), w.focus);
    LoggedFields(w, ClosedMsgs(Sorted(w.known - now)));
    QuietLogged(w, ClosedMsgs(Sorted(w.known - now)));
  }

  lemma OpeningSyncs(w: WState, arrived: set<string>, now: set<string>, title: string)
    requires Good(w)
    ensures var w1 := OpenedAnnounced(w, arrived, now, title);
            && Good(w1) && w1.focus == w.focus && w1.connected == w.connected && w1.ready == w.ready
            && w1.baseline == w.baseline && w1.faithful == w.faithful && Mirrored(w1) == Mirrored(w)
  {
    OpenedQuiet(Sorted(arrived), title, w.focus);
    LoggedFields(w, OpenedMsgs(Sorted(arrived), title));
    QuietLogged(w, OpenedMsgs(Sorted(arrived), title));
  }

  /** What looking at the tabs keeps, with or without following one. */
  predicate TabsKept(w: WState, w1: WState, followed: bool)
    requires Good(w)
  {
    && Good(w1) && w1.connected && w1.ready == w.ready
    && (!followed ==> w1.focus == w.focus && w1.baseline == w.baseline && w1.faithful == w.faithful)
    && (!followed ==> Mirrored(w1) == Mirrored(w))
  }

  lemma TabsSync(w: WState, ob: Observation)
    requires Good(w) && w.connected
    requires ob.handles != [] ==> w.focus in ob.handles
    ensures TabsKept(w, TabsFollowed(w, ob).0, TabsFollowed(w, ob).1)
  {
    if ob.handles != [] {
      var now := HandleSet(ob);
      ClosingSyncs(w, now);
      if w.known != {} && now - w.known != {} { FollowedTabsSync(w, ob); } else { StayingTabsSync(w, ob); }
    }
  }

  lemma FollowedTabsSync(w: WState, ob: Observation)
    requires Good(w) && w.connected && ob.handles != [] && w.focus in ob.handles
    requires w.known != {} && HandleSet(ob) - w.known != {}
    ensures TabsKept(w, TabsFollowed(w, ob).0, true) && TabsFollowed(w, ob).1
  {
    var now := HandleSet(ob);
    ClosingSyncs(w, now);
    FollowSyncs(ClosedAnnounced(w, now), now, ob.handles[|ob.handles| - 1], ob.follow);
  }

  lemma StayingTabsSync(w: WState, ob: Observation)
    requires Good(w) && w.connected && ob.handles != [] && w.focus in ob.handles
    requires !(w.known != {} && HandleSet(ob) - w.known != {})
    ensures TabsKept(w, TabsFollowed(w, ob).0, false) && !TabsFollowed(w, ob).1
  {
    var now := HandleSet(ob);
    ClosingSyncs(w, now);
    OpeningSyncs(ClosedAnnounced(w, now), now - w.known, now, ob.follow.title);
  }

  lemma TurnKeeps(w: WState, ob: Observation)
    requires Inv(w) && Possible(w, Turn(ob))
    ensures Inv(Polled(w, ob))
  {
    if !Idle(w, ob) {
      if UrlChanged(w, ob.view) && !ob.injected {
        SnapshotSyncs(w.(url := ob.view.url), ob.reload);
      } else {
        UrlSyncs(w, ob.view);
        var w1 := UrlAnnounced(w, ob.view);
        TabsSync(w1, ob);
        var (w2, followed) := TabsFollowed(w1, ob);
        if !followed && ob.mutations {
          var html := Published(ob.view.page);
          UpdateSyncs(w2, html, Diff(w2.baseline, html));
        }
      }
    }
  }

  lemma StepKeeps(w: WState, a: Action)
    requires Inv(w) && Possible(w, a)
    ensures Inv(Step(w, a))
  {
    match a
    case Connect(v, looked, drained) =>
      QuietSent(w, Status(CONNECTED));
      if looked { SnapshotSyncs(Sent(w, Status(CONNECTED)).(connected := true), v); }
    case Disconnect => SentReplay(Disconnected(w), Status(DISCONNECTED));
    case Crash(v) => RecoverySyncs(w, v);
    case Navigation(captured, v) =>
      SnapshotSyncs(if captured.None? then w else w.(baseline := Published(captured.value), faithful := false), v);
    case Resync(v) => SnapshotSyncs(w, v);
    case Turn(ob) => TurnKeeps(w, ob);
    case Reboot =>
  }

  /** In every reachable state every logged update fits the replica built by the messages
      before it, and a ready worker's focused tab is mirrored at its current version. */
  lemma {:induction false} RunSound(acts: seq<Action>)
    requires Legal(acts)
    ensures Inv(Run(acts))
  {
    if acts != [] {
      RunSound(Init(acts));
      StepKeeps(Run(Init(acts)), Last(acts));
    }
  }
}
