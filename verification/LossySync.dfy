/** A controller that misses messages. It reads the worker's log from the front; when it
    has read `at` messages, the rest is still in transit or not sent yet. */
module LossySync {
  import opened Strings
  import opened Dom
  import opened Pipeline
  import opened Differ
  import opened StateManager
  import opened WorkerSync
  import opened SyncProof
  import opened Exactness

  datatype Mirror = Mirror(slot: Slot, at: nat)

  /** `Lose` drops any one message but a snapshot. `Outage` is a lost connection of the
      controller: it misses whatever is sent, and on reconnection marks all it has stale.
      `Window`: it unsubscribes, and when it subscribes again it keeps its tabs as they are.
      `Relay` is a status the relay sends to this controller alone. */
  datatype Event = Deliver | Lose | Outage(missed: nat) | Window(missed: nat) | Forget | Relay(status: string)

  /** A window that misses snapshots must leave every tab they are of stale, of an older
      version than the worker now has, or the very same. */
  predicate Enabled(log: seq<Msg>, m: Mirror, e: Event) {
    match e
    case Deliver => m.at < |log|
    case Lose => m.at < |log| && !log[m.at].Snapshot?
    case Outage(missed) => m.at + missed <= |log|
    case Window(missed) => m.at + missed <= |log| && Survives(log, m, missed)
    case _ => true
  }

  predicate Survives(log: seq<Msg>, m: Mirror, missed: nat)
    requires m.at + missed <= |log|
  {
    forall k :: m.at <= k < m.at + missed && log[k].Snapshot? ==>
      Agrees(m.slot, Replica(log, m.at + missed), log[k].tab)
  }

  function After(log: seq<Msg>, m: Mirror, e: Event): Mirror {
    if !Enabled(log, m, e) then m
    else match e
      case Deliver => Mirror(Received(m.slot, log[m.at]), m.at + 1)
      case Lose => m.(at := m.at + 1)
      case Outage(missed) => Mirror(m.slot.(tabs := Staled(m.slot.tabs)), m.at + missed)
      case Window(missed) => m.(at := m.at + missed)
      case Forget => m.(slot := NEW_SLOT)
      case Relay(status) => m.(slot := Received(m.slot, Status(status)))
  }

  function Watch(log: seq<Msg>, m: Mirror, events: seq<Event>): Mirror
    decreases |events|
  {
    if events == [] then m else Watch(log, After(log, m, events[0]), events[1..])
  }

  function Replica(log: seq<Msg>, n: nat): Slot
    requires n <= |log|
  {
    Built(log[..n])
  }

  predicate Same(c: Slot, r: Slot, t: string) {
    Fresh(c, t) && Fresh(r, t) && c.tabs[t].version == r.tabs[t].version && c.tabs[t].html == r.tabs[t].html
  }

  predicate Behind(c: Slot, r: Slot, t: string) {
    Fresh(c, t) && Fresh(r, t) ==> c.tabs[t].version < r.tabs[t].version
  }

  predicate Agrees(c: Slot, r: Slot, t: string) {
    Same(c, r, t) || Behind(c, r, t)
  }

  /** The worker sent message `k` about `t`; `tab` has its version and the page. */
  predicate PublishedAt(log: seq<Msg>, notes: seq<Note>, k: nat, t: string, tab: Tab)
    requires k < |log| == |notes|
  {
    && Carries(log[k], t) && log[k].version == tab.version
    && Fresh(Replica(log, k + 1), t)
    && Replica(log, k + 1).tabs[t].version == tab.version && Replica(log, k + 1).tabs[t].html == tab.html
    && (notes[k].still ==> notes[k].now == tab.html)
  }

  predicate Genuine(log: seq<Msg>, notes: seq<Note>, n: nat, t: string, tab: Tab)
    requires n <= |log| == |notes|
  {
    exists k | 0 <= k < n :: PublishedAt(log, notes, k, t, tab)
  }

  ghost predicate Safe(log: seq<Msg>, notes: seq<Note>, m: Mirror) {
    && m.at <= |log| == |notes|
    && (forall t :: Agrees(m.slot, Replica(log, m.at), t))
    && (forall t :: Fresh(m.slot, t) ==> Genuine(log, notes, m.at, t, m.slot.tabs[t]))
  }

  // ---- single messages -------------------------------------------------------------------------

  lemma ReplicaStep(log: seq<Msg>, n: nat)
    requires n < |log|
    ensures Replica(log, n + 1) == Received(Replica(log, n), log[n])
  {
    assert Init(log[..n + 1]) == log[..n];
  }

  lemma {:induction false} SoundAt(log: seq<Msg>, notes: seq<Note>, n: nat)
    requires Sound(log, notes) && n < |log|
    ensures Suits(Replica(log, n), log[n], notes[n])
    ensures log[n].Update? ==> (notes[n].exact <==> Still(log[..n], notes[..n]))
    ensures Sound(log[..n], notes[..n]) && Sound(log[..n + 1], notes[..n + 1])
  {
    assert Init(log) == log[..|log| - 1] && Init(notes) == notes[..|log| - 1];
    if n < |log| - 1 {
      SoundAt(Init(log), Init(notes), n);
      assert Init(log)[..n] == log[..n] && Init(notes)[..n] == notes[..n];
      assert Init(log)[..n + 1] == log[..n + 1] && Init(notes)[..n + 1] == notes[..n + 1];
    } else {
      assert log[..n + 1] == log && notes[..n + 1] == notes;
    }
  }

  /** Tab soundness: an update is accepted only on exactly the html a replica shows that has
      missed nothing. The update is the diff between two pages of the worker's; as long as
      that replica has been exact, the html is the first of them, and the replay gives the
      second exactly if the replica stays exact. */
  lemma TabSoundness(log: seq<Msg>, notes: seq<Note>, m: Mirror, t: string)
    requires Sound(log, notes) && Safe(log, notes, m) && m.at < |log|
    requires log[m.at].Update? && Accepts(m.slot, log[m.at]) && log[m.at].tab == t
    ensures var note, html := notes[m.at], m.slot.tabs[t].html;
            && Same(m.slot, Replica(log, m.at), t)
            && log[m.at].ops == Diff(note.was, note.now)
            && (note.exact <==> Still(log[..m.at], notes[..m.at]))
            && (note.exact ==> html == note.was)
            && Received(m.slot, log[m.at]).tabs[t].html == Applied(html, log[m.at].ops)
            && (note.still <==> note.exact && Applied(html, log[m.at].ops) == note.now)
  {
    SoundAt(log, notes, m.at);
    assert Agrees(m.slot, Replica(log, m.at), t);
  }

  lemma BothReceive(c: Slot, r: Slot, msg: Msg, note: Note, t: string)
    requires Suits(r, msg, note) && Agrees(c, r, t)
    ensures Agrees(Received(c, msg), Received(r, msg), t)
  {
    if msg.Update? && msg.tab == t {
      if Fresh(c, t) && !Accepts(c, msg) { assert !Fresh(Received(c, msg), t); }
    } else if !Carries(msg, t) {
      OtherTab(c, msg, t);
      OtherTab(r, msg, t);
    }
  }

  /** A message about something else at most removes a fresh tab or marks it stale. */
  lemma OtherTab(c: Slot, msg: Msg, t: string)
    requires !Carries(msg, t)
    ensures Fresh(Received(c, msg), t) ==> Fresh(c, t) && Received(c, msg).tabs[t] == c.tabs[t]
  {
  }

  lemma OneMisses(c: Slot, r: Slot, msg: Msg, note: Note, t: string)
    requires Suits(r, msg, note) && Agrees(c, r, t) && !msg.Snapshot?
    ensures Agrees(c, Received(r, msg), t)
    ensures msg.Update? && msg.tab == t && msg.ops != [] ==> Behind(c, Received(r, msg), t)
  {
    if msg.Update? && msg.tab == t {
      assert Applied(r.tabs[t].html, []) == r.tabs[t].html;
    } else {
      OtherTab(r, msg, t);
    }
  }

  lemma DeliverAgrees(log: seq<Msg>, notes: seq<Note>, m: Mirror, t: string)
    requires Sound(log, notes) && m.at < |log| && Agrees(m.slot, Replica(log, m.at), t)
    ensures Agrees(After(log, m, Deliver).slot, Replica(log, m.at + 1), t)
  {
    ReplicaStep(log, m.at);
    SoundAt(log, notes, m.at);
    BothReceive(m.slot, Replica(log, m.at), log[m.at], notes[m.at], t);
  }

  lemma CarriedGenuine(log: seq<Msg>, notes: seq<Note>, m: Mirror, t: string)
    requires Sound(log, notes) && m.at < |log| && Agrees(m.slot, Replica(log, m.at), t)
    requires Carries(log[m.at], t) && Fresh(Received(m.slot, log[m.at]), t)
    ensures PublishedAt(log, notes, m.at, t, Received(m.slot, log[m.at]).tabs[t])
  {
    ReplicaStep(log, m.at);
    SoundAt(log, notes, m.at);
  }

  lemma DeliverGenuine(log: seq<Msg>, notes: seq<Note>, m: Mirror, t: string)
    requires Sound(log, notes) && Safe(log, notes, m) && m.at < |log|
    requires Fresh(After(log, m, Deliver).slot, t)
    ensures Genuine(log, notes, m.at + 1, t, After(log, m, Deliver).slot.tabs[t])
  {
    assert Agrees(m.slot, Replica(log, m.at), t);
    if Carries(log[m.at], t) {
      CarriedGenuine(log, notes, m, t);
    } else {
      OtherTab(m.slot, log[m.at], t);
      GenuineGrows(log, notes, m.at, m.at + 1, t, m.slot.tabs[t]);
    }
  }

  lemma LoseAgrees(log: seq<Msg>, notes: seq<Note>, m: Mirror, t: string)
    requires Sound(log, notes) && m.at < |log| && Agrees(m.slot, Replica(log, m.at), t) && !log[m.at].Snapshot?
    ensures Agrees(m.slot, Replica(log, m.at + 1), t)
    ensures log[m.at].Update? && log[m.at].tab == t && log[m.at].ops != [] ==> Behind(m.slot, Replica(log, m.at + 1), t)
  {
    ReplicaStep(log, m.at);
    SoundAt(log, notes, m.at);
    OneMisses(m.slot, Replica(log, m.at), log[m.at], notes[m.at], t);
  }

  lemma GenuineGrows(log: seq<Msg>, notes: seq<Note>, n: nat, n': nat, t: string, tab: Tab)
    requires n <= n' <= |log| == |notes| && Genuine(log, notes, n, t, tab)
    ensures Genuine(log, notes, n', t, tab)
  {
    var k :| 0 <= k < n && PublishedAt(log, notes, k, t, tab);
  }

  lemma EventAgrees(log: seq<Msg>, notes: seq<Note>, m: Mirror, e: Event, t: string)
    requires Sound(log, notes) && m.at <= |log| && Agrees(m.slot, Replica(log, m.at), t) && Enabled(log, m, e)
    ensures var m1 := After(log, m, e); m1.at <= |log| && Agrees(m1.slot, Replica(log, m1.at), t)
  {
    match e
    case Deliver => DeliverAgrees(log, notes, m, t);
    case Lose => LoseAgrees(log, notes, m, t);
    case Window(missed) => WindowAgrees(log, notes, m, missed, t);
    case Relay(status) => OtherTab(m.slot, Msg.Status(status), t);
    case _ =>
  }

  predicate SnapshotMissed(log: seq<Msg>, a: nat, b: nat, t: string)
    requires a <= b <= |log|
  {
    exists k :: a <= k < b && log[k].Snapshot? && log[k].tab == t
  }

  lemma WindowAgrees(log: seq<Msg>, notes: seq<Note>, m: Mirror, missed: nat, t: string)
    requires Sound(log, notes) && m.at + missed <= |log| && Survives(log, m, missed)
    requires Agrees(m.slot, Replica(log, m.at), t)
    ensures Agrees(m.slot, Replica(log, m.at + missed), t)
  {
    if !SnapshotMissed(log, m.at, m.at + missed, t) { UnwatchedAgrees(log, notes, m.slot, m.at, m.at + missed, t); }
  }

  lemma {:induction false} UnwatchedAgrees(log: seq<Msg>, notes: seq<Note>, c: Slot, a: nat, b: nat, t: string)
    requires Sound(log, notes) && a <= b <= |log| && !SnapshotMissed(log, a, b, t)
    requires Agrees(c, Replica(log, a), t)
    ensures Agrees(c, Replica(log, b), t)
    ensures Behind(c, Replica(log, a), t) ==> Behind(c, Replica(log, b), t)
    decreases b
  {
    if a < b {
      UnwatchedAgrees(log, notes, c, a, b - 1, t);
      ReplicaStep(log, b - 1);
      SoundAt(log, notes, b - 1);
      OneUnwatched(c, Replica(log, b - 1), log[b - 1], notes[b - 1], t);
    }
  }

  lemma OneUnwatched(c: Slot, r: Slot, msg: Msg, note: Note, t: string)
    requires Suits(r, msg, note) && Agrees(c, r, t) && !(msg.Snapshot? && msg.tab == t)
    ensures Agrees(c, Received(r, msg), t) && (Behind(c, r, t) ==> Behind(c, Received(r, msg), t))
  {
    if Carries(msg, t) { OneMisses(c, r, msg, note, t); } else { OtherTab(r, msg, t); }
  }

  lemma EventGenuine(log: seq<Msg>, notes: seq<Note>, m: Mirror, e: Event, t: string)
    requires Sound(log, notes) && Safe(log, notes, m) && Enabled(log, m, e) && Fresh(After(log, m, e).slot, t)
    ensures After(log, m, e).at <= |log| == |notes|
    ensures Genuine(log, notes, After(log, m, e).at, t, After(log, m, e).slot.tabs[t])
  {
    if e.Deliver? {
      DeliverGenuine(log, notes, m, t);
    } else {
      if e.Relay? { OtherTab(m.slot, Msg.Status(e.status), t); }
      GenuineGrows(log, notes, m.at, After(log, m, e).at, t, m.slot.tabs[t]);
    }
  }

  lemma EventKeeps(log: seq<Msg>, notes: seq<Note>, m: Mirror, e: Event)
    requires Sound(log, notes) && Safe(log, notes, m)
    ensures Safe(log, notes, After(log, m, e))
  {
    if Enabled(log, m, e) {
      forall t ensures Agrees(After(log, m, e).slot, Replica(log, After(log, m, e).at), t) {
        assert Agrees(m.slot, Replica(log, m.at), t);
        EventAgrees(log, notes, m, e, t);
      }
      forall t | Fresh(After(log, m, e).slot, t)
        ensures Genuine(log, notes, After(log, m, e).at, t, After(log, m, e).slot.tabs[t])
      {
        EventGenuine(log, notes, m, e, t);
      }
    }
  }

  // ---- gap safety --------------------------------------------------------------------------------

  lemma {:induction false} WatchSafe(log: seq<Msg>, notes: seq<Note>, m: Mirror, events: seq<Event>)
    requires Sound(log, notes) && Safe(log, notes, m)
    ensures Safe(log, notes, Watch(log, m, events))
    decreases |events|
  {
    if events != [] {
      EventKeeps(log, notes, m, events[0]);
      WatchSafe(log, notes, After(log, m, events[0]), events[1..]);
    }
  }

  /** Whatever a controller misses, as long as no snapshot gets lost on a live
      connection: every tab it holds for fresh is one the worker published, at that
      version, at some point of its run. */
  lemma GapSafety(acts: seq<Action>, events: seq<Event>, t: string)
    requires Legal(acts)
    ensures var log, notes := Run(acts).log, Run(acts).notes;
            var m := Watch(log, Mirror(NEW_SLOT, 0), events);
            && m.at <= |log| == |notes|
            && (Fresh(m.slot, t) ==> Genuine(log, notes, m.at, t, m.slot.tabs[t]))
  {
    RunSound(acts);
    var log, notes := Run(acts).log, Run(acts).notes;
    assert Safe(log, notes, Mirror(NEW_SLOT, 0));
    WatchSafe(log, notes, Mirror(NEW_SLOT, 0), events);
  }

  predicate Renews(log: seq<Msg>, m: Mirror, e: Event, t: string) {
    || (e.Deliver? && m.at < |log| && log[m.at].Snapshot? && log[m.at].tab == t)
    || (e.Window? && m.at + e.missed <= |log| && SnapshotMissed(log, m.at, m.at + e.missed, t))
  }

  /** From `m` on, no snapshot of `t` arrives, or is sent while the controller does not watch. */
  predicate NotRenewed(log: seq<Msg>, m: Mirror, events: seq<Event>, t: string)
    decreases |events|
  {
    events != [] ==> !Renews(log, m, events[0], t) && NotRenewed(log, After(log, m, events[0]), events[1..], t)
  }

  /** From `m` on, every update of `t` that arrives is turned down, and leaves the tab stale if there is one. */
  predicate TurnedDown(log: seq<Msg>, m: Mirror, events: seq<Event>, t: string)
    decreases |events|
  {
    events != [] ==>
      && (events[0].Deliver? && m.at < |log| && log[m.at].Update? && log[m.at].tab == t ==>
            !Accepts(m.slot, log[m.at]) && !Fresh(After(log, m, Deliver).slot, t))
      && TurnedDown(log, After(log, m, events[0]), events[1..], t)
  }

  lemma BehindReceives(c: Slot, r: Slot, msg: Msg, note: Note, t: string)
    requires Suits(r, msg, note) && Behind(c, r, t) && !(msg.Snapshot? && msg.tab == t)
    ensures Behind(Received(c, msg), Received(r, msg), t)
    ensures Fresh(Received(c, msg), t) ==> Fresh(c, t)
    ensures msg.Update? && msg.tab == t ==> !Accepts(c, msg) && !Fresh(Received(c, msg), t)
  {
    if !(msg.Update? && msg.tab == t) {
      OtherTab(c, msg, t);
      OtherTab(r, msg, t);
    }
  }

  lemma BehindStep(log: seq<Msg>, notes: seq<Note>, m: Mirror, e: Event, t: string)
    requires Sound(log, notes) && m.at <= |log| && Behind(m.slot, Replica(log, m.at), t) && !Renews(log, m, e, t)
    ensures var m1 := After(log, m, e); m1.at <= |log| && Behind(m1.slot, Replica(log, m1.at), t)
    ensures Fresh(After(log, m, e).slot, t) ==> Fresh(m.slot, t)
    ensures e.Deliver? && m.at < |log| && log[m.at].Update? && log[m.at].tab == t ==>
      !Accepts(m.slot, log[m.at]) && !Fresh(After(log, m, e).slot, t)
  {
    if e.Deliver? && m.at < |log| {
      BehindDelivered(log, notes, m, t);
    } else {
      BehindElse(log, notes, m, e, t);
    }
  }

  lemma BehindElse(log: seq<Msg>, notes: seq<Note>, m: Mirror, e: Event, t: string)
    requires Sound(log, notes) && m.at <= |log| && Behind(m.slot, Replica(log, m.at), t) && !Renews(log, m, e, t)
    requires !(e.Deliver? && m.at < |log|)
    ensures var m1 := After(log, m, e); m1.at <= |log| && Behind(m1.slot, Replica(log, m1.at), t)
    ensures Fresh(After(log, m, e).slot, t) ==> Fresh(m.slot, t)
  {
    if !Enabled(log, m, e) {}
    else if e.Lose? { BehindLoses(log, notes, m, t); }
    else if e.Window? { UnwatchedAgrees(log, notes, m.slot, m.at, m.at + e.missed, t); }
    else { NothingFresher(log, m, e, t); }
  }

  /** What is no message of the worker makes no tab fresh. */
  lemma NothingFresher(log: seq<Msg>, m: Mirror, e: Event, t: string)
    requires e.Outage? || e.Forget? || e.Relay?
    ensures Fresh(After(log, m, e).slot, t) ==> Fresh(m.slot, t) && After(log, m, e).slot.tabs[t] == m.slot.tabs[t]
    ensures e.Outage? && Enabled(log, m, e) ==> !Fresh(After(log, m, e).slot, t)
    ensures !e.Outage? ==> After(log, m, e).at == m.at
  {
    if e.Relay? { OtherTab(m.slot, Msg.Status(e.status), t); }
  }

  lemma BehindDelivered(log: seq<Msg>, notes: seq<Note>, m: Mirror, t: string)
    requires Sound(log, notes) && m.at < |log| && Behind(m.slot, Replica(log, m.at), t)
    requires !(log[m.at].Snapshot? && log[m.at].tab == t)
    ensures Behind(Received(m.slot, log[m.at]), Replica(log, m.at + 1), t)
    ensures Fresh(Received(m.slot, log[m.at]), t) ==> Fresh(m.slot, t)
    ensures log[m.at].Update? && log[m.at].tab == t ==>
      !Accepts(m.slot, log[m.at]) && !Fresh(Received(m.slot, log[m.at]), t)
  {
    ReplicaStep(log, m.at);
    SoundAt(log, notes, m.at);
    BehindReceives(m.slot, Replica(log, m.at), log[m.at], notes[m.at], t);
  }

  lemma BehindLoses(log: seq<Msg>, notes: seq<Note>, m: Mirror, t: string)
    requires Sound(log, notes) && m.at < |log| && Behind(m.slot, Replica(log, m.at), t) && !log[m.at].Snapshot?
    ensures Behind(m.slot, Replica(log, m.at + 1), t)
  {
    ReplicaStep(log, m.at);
    SoundAt(log, notes, m.at);
    if !Carries(log[m.at], t) { OtherTab(Replica(log, m.at), log[m.at], t); }
  }

  lemma {:induction false} BehindStays(log: seq<Msg>, notes: seq<Note>, m: Mirror, events: seq<Event>, t: string)
    requires Sound(log, notes) && m.at <= |log| && Behind(m.slot, Replica(log, m.at), t)
      && NotRenewed(log, m, events, t)
    ensures TurnedDown(log, m, events, t)
    ensures !Fresh(m.slot, t) ==> !Fresh(Watch(log, m, events).slot, t)
    decreases |events|
  {
    if events != [] {
      BehindStep(log, notes, m, events[0], t);
      BehindStays(log, notes, After(log, m, events[0]), events[1..], t);
    }
  }

  /** Once an update with operations is missed, every later update of the tab is turned
      down until its next snapshot arrives, in whatever way the versions run on or are
      reset; and a stale tab stays stale until then. */
  lemma MissedUpdate(log: seq<Msg>, notes: seq<Note>, m: Mirror, events: seq<Event>, t: string)
    requires Sound(log, notes) && Safe(log, notes, m)
    requires m.at < |log| && log[m.at].Update? && log[m.at].tab == t && log[m.at].ops != []
    requires NotRenewed(log, After(log, m, Lose), events, t)
    ensures TurnedDown(log, After(log, m, Lose), events, t)
    ensures !Fresh(m.slot, t) ==> !Fresh(Watch(log, After(log, m, Lose), events).slot, t)
  {
    assert Agrees(m.slot, Replica(log, m.at), t);
    LoseAgrees(log, notes, m, t);
    BehindStays(log, notes, After(log, m, Lose), events, t);
  }

  // ---- a worker that is gone -------------------------------------------------------------------------

  /** The controller learns that the worker is gone, from the worker's log or from the relay,
      or loses its own connection. */
  predicate Down(log: seq<Msg>, m: Mirror, e: Event) {
    || (e.Deliver? && m.at < |log| && log[m.at] == Status(DISCONNECTED))
    || e == Event.Relay(DISCONNECTED)
    || (e.Outage? && m.at + e.missed <= |log|)
  }

  /** From `m` on, no snapshot of `t` is delivered. */
  predicate NoSnapshot(log: seq<Msg>, m: Mirror, events: seq<Event>, t: string)
    decreases |events|
  {
    events != [] ==>
      && !(events[0].Deliver? && m.at < |log| && log[m.at].Snapshot? && log[m.at].tab == t)
      && NoSnapshot(log, After(log, m, events[0]), events[1..], t)
  }

  predicate NeverFresh(log: seq<Msg>, m: Mirror, events: seq<Event>, t: string)
    decreases |events|
  {
    !Fresh(m.slot, t) && (events != [] ==> NeverFresh(log, After(log, m, events[0]), events[1..], t))
  }

  lemma DownStales(log: seq<Msg>, m: Mirror, e: Event, t: string)
    requires Down(log, m, e)
    ensures !Fresh(After(log, m, e).slot, t)
  {
  }

  lemma {:induction false} StaleStays(log: seq<Msg>, m: Mirror, events: seq<Event>, t: string)
    requires !Fresh(m.slot, t) && NoSnapshot(log, m, events, t)
    ensures NeverFresh(log, m, events, t) && TurnedDown(log, m, events, t)
    decreases |events|
  {
    if events != [] {
      if events[0].Relay? { OtherTab(m.slot, Msg.Status(events[0].status), t); }
      StaleStays(log, After(log, m, events[0]), events[1..], t);
    }
  }

  /** Once a controller has learned that the worker is gone, no tab is fresh, and none is again
      until a snapshot of it is delivered; no update of it is accepted in between. */
  lemma DisconnectStales(log: seq<Msg>, m: Mirror, e: Event, events: seq<Event>, t: string)
    requires Down(log, m, e) && NoSnapshot(log, After(log, m, e), events, t)
    ensures NeverFresh(log, After(log, m, e), events, t) && TurnedDown(log, After(log, m, e), events, t)
  {
    DownStales(log, m, e, t);
    StaleStays(log, After(log, m, e), events, t);
  }

  // ---- nothing lost ---------------------------------------------------------------------------------

  /** Delivers all that is in transit. */
  function CatchUp(log: seq<Msg>, m: Mirror): Mirror
    decreases |log| - m.at
  {
    if m.at >= |log| then m else CatchUp(log, After(log, m, Deliver))
  }

  predicate InStep(log: seq<Msg>, m: Mirror, t: string) {
    m.at <= |log| && (Fresh(Replica(log, m.at), t) ==> Same(m.slot, Replica(log, m.at), t))
  }

  /** Taking a snapshot puts a controller in step, whatever it held before. */
  lemma SnapshotJoins(log: seq<Msg>, m: Mirror, t: string)
    requires m.at < |log| && log[m.at].Snapshot? && log[m.at].tab == t
    ensures InStep(log, After(log, m, Deliver), t)
  {
    ReplicaStep(log, m.at);
  }

  /** A controller in step accepts every update: it is never falsely marked stale. */
  lemma StaysInStep(log: seq<Msg>, notes: seq<Note>, m: Mirror, t: string)
    requires Sound(log, notes) && InStep(log, m, t) && m.at < |log|
    ensures InStep(log, After(log, m, Deliver), t)
    ensures log[m.at].Update? && log[m.at].tab == t ==> Accepts(m.slot, log[m.at])
  {
    ReplicaStep(log, m.at);
    SoundAt(log, notes, m.at);
    SameReceives(m.slot, Replica(log, m.at), log[m.at], notes[m.at], t);
  }

  lemma SameReceives(c: Slot, r: Slot, msg: Msg, note: Note, t: string)
    requires Suits(r, msg, note) && (Fresh(r, t) ==> Same(c, r, t))
    ensures Fresh(Received(r, msg), t) ==> Same(Received(c, msg), Received(r, msg), t)
    ensures msg.Update? && msg.tab == t ==> Accepts(c, msg)
  {
    if !Carries(msg, t) { OtherTab(r, msg, t); }
  }

  lemma {:induction false} CatchUpInStep(log: seq<Msg>, notes: seq<Note>, m: Mirror, t: string)
    requires Sound(log, notes) && InStep(log, m, t)
    ensures InStep(log, CatchUp(log, m), t) && CatchUp(log, m).at == |log|
    decreases |log| - m.at
  {
    if m.at < |log| {
      StaysInStep(log, notes, m, t);
      CatchUpInStep(log, notes, After(log, m, Deliver), t);
    }
  }

  /** In every reachable state of a ready worker, delivering what is in transit to a
      controller in step leaves the worker's tab fresh at the worker's very version and
      baseline. */
  lemma ReplayPending(acts: seq<Action>, m: Mirror)
    requires Legal(acts) && Run(acts).ready && InStep(Run(acts).log, m, Run(acts).focus)
    ensures var w := Run(acts);
            var c := CatchUp(w.log, m).slot;
            && Fresh(c, w.focus) && c.tabs[w.focus].version == w.version
            && (w.faithful ==> c.tabs[w.focus].html == w.baseline)
  {
    RunSound(acts);
    var w := Run(acts);
    CatchUpInStep(w.log, w.notes, m, w.focus);
    assert w.log[..|w.log|] == w.log;
  }

  /** End to end, lossy: every tab the controller holds for fresh shows what some message of
      the worker left; and that replica, which has missed nothing, was exact from the
      preceding snapshot to that message if and only if every diff in between was between
      equal or patchable pages. If so, the tab shows the page the worker was looking at. */
  lemma GapIff(acts: seq<Action>, events: seq<Event>, t: string) returns (k: nat)
    requires Legal(acts) && Fresh(Watch(Run(acts).log, Mirror(NEW_SLOT, 0), events).slot, t)
    ensures var log, notes := Run(acts).log, Run(acts).notes;
            var tab := Watch(log, Mirror(NEW_SLOT, 0), events).slot.tabs[t];
            && k < |log| == |notes| && Carries(log[k], t) && log[k].version == tab.version
            && Fresh(Replica(log, k + 1), t) && Replica(log, k + 1).tabs[t].html == tab.html
            && (KnownSince(log[..k + 1], notes[..k + 1]) ==>
                (ExactSince(log[..k + 1], notes[..k + 1]) <==> PatchedSince(log[..k + 1], notes[..k + 1])))
            && (ExactSince(log[..k + 1], notes[..k + 1]) ==> tab.html == notes[k].now)
  {
    var log, notes := Run(acts).log, Run(acts).notes;
    GapSafety(acts, events, t);
    RunSound(acts);
    var m := Watch(log, Mirror(NEW_SLOT, 0), events);
    k :| 0 <= k < m.at && PublishedAt(log, notes, k, t, m.slot.tabs[t]);
    ExactAt(log, notes, k);
  }

  lemma ExactAt(log: seq<Msg>, notes: seq<Note>, k: nat)
    requires Sound(log, notes) && k < |log| && Carrying(log[k])
    ensures KnownSince(log[..k + 1], notes[..k + 1]) ==>
      (ExactSince(log[..k + 1], notes[..k + 1]) <==> PatchedSince(log[..k + 1], notes[..k + 1]))
    ensures ExactSince(log[..k + 1], notes[..k + 1]) ==>
      Fresh(Replica(log, k + 1), log[k].tab) && Replica(log, k + 1).tabs[log[k].tab].html == notes[k].now
  {
    SoundAt(log, notes, k);
    if KnownSince(log[..k + 1], notes[..k + 1]) { LogIff(log[..k + 1], notes[..k + 1]); }
    assert Last(log[..k + 1]) == log[k] && Last(notes[..k + 1]) == notes[k];
  }
}
