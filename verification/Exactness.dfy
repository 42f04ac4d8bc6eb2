/** When the mirror is the page. Replaying a diff is not always exact; a replica that misses
    nothing shows the worker's page from one snapshot to the next exactly as long as the
    diffs in between are ones the differ can patch. */
module Exactness {
  import opened Strings
  import opened Dom
  import opened Pipeline
  import opened Differ
  import opened Patch
  import opened Frame
  import opened PageContract
  import opened StateManager
  import opened WorkerSync
  import opened SyncProof

  /** Two pages the contract of the differ is about. */
  ghost predicate Known(was: seq<Node>, now: seq<Node>) {
    exists o, n | Comparable(o, n) :: was == Soup(o) && now == Soup(n)
  }

  /** Two equal pages, or two that can be patched. */
  ghost predicate Patches(was: seq<Node>, now: seq<Node>) {
    was == now || exists o, n | Comparable(o, n) :: was == Soup(o) && now == Soup(n) && Patchable(o, n)
  }

  lemma PatchesIff(was: seq<Node>, now: seq<Node>)
    requires Known(was, now)
    ensures Applied(was, Diff(was, now)) == now <==> Patches(was, now)
  {
    var o, n :| Comparable(o, n) && was == Soup(o) && now == Soup(n);
    PatchContract(o, n);
    forall o', n' | Comparable(o', n') && was == Soup(o') && now == Soup(n') ensures o' == o && n' == n {
      SoupInjective(o, o');
      SoupInjective(n, n');
    }
  }

  // ---- since the last snapshot -----------------------------------------------------------------------

  /** All diffs since the last snapshot were between comparable pages. */
  ghost predicate KnownSince(log: seq<Msg>, notes: seq<Note>) {
    && |log| == |notes|
    && (log != [] && !Last(log).Snapshot? ==>
        (Last(log).Update? ==> Known(Last(notes).was, Last(notes).now)) && KnownSince(Init(log), Init(notes)))
  }

  /** There was a snapshot, and all diffs since were between equal or patchable pages. */
  ghost predicate PatchedSince(log: seq<Msg>, notes: seq<Note>) {
    && |log| == |notes| && log != []
    && (!Last(log).Snapshot? ==>
        (Last(log).Update? ==> Patches(Last(notes).was, Last(notes).now)) && PatchedSince(Init(log), Init(notes)))
  }

  /** After the last message, the replica shows the worker's page. */
  predicate ExactNow(log: seq<Msg>, notes: seq<Note>)
    requires |log| == |notes| && log != [] && Carrying(Last(log))
  {
    Fresh(Built(log), Last(log).tab) && Built(log).tabs[Last(log).tab].html == Last(notes).now
  }

  /** After every message since the last snapshot that carried a page, it did. */
  predicate ExactSince(log: seq<Msg>, notes: seq<Note>) {
    && |log| == |notes| && log != []
    && (Carrying(Last(log)) ==> ExactNow(log, notes))
    && (!Last(log).Snapshot? ==> ExactSince(Init(log), Init(notes)))
  }

  lemma UpdateIff(log: seq<Msg>, notes: seq<Note>)
    requires Sound(log, notes) && log != [] && Last(log).Update? && Last(notes).exact
    requires Known(Last(notes).was, Last(notes).now)
    ensures ExactNow(log, notes) <==> Patches(Last(notes).was, Last(notes).now)
    ensures Last(notes).still <==> Patches(Last(notes).was, Last(notes).now)
  {
    PatchesIff(Last(notes).was, Last(notes).now);
  }

  /** Message for message: the mirror was exact since the last snapshot if and only if every
      diff since then was between equal or patchable pages. */
  lemma {:induction false} LogIff(log: seq<Msg>, notes: seq<Note>)
    requires Sound(log, notes) && KnownSince(log, notes)
    ensures ExactSince(log, notes) <==> PatchedSince(log, notes)
    ensures Still(log, notes) <==> PatchedSince(log, notes)
  {
    if log != [] && !Last(log).Snapshot? {
      LogIff(Init(log), Init(notes));
      if Last(log).Update? && Last(notes).exact { UpdateIff(log, notes); }
    }
  }

  // ---- whole runs ------------------------------------------------------------------------------------

  /** End to end, lossless: the mirror of a ready worker's tab has been the worker's page ever
      since the last snapshot if and only if every diff since then was between equal or
      patchable pages; and if so, it is the page the worker last published. */
  lemma MirrorIff(acts: seq<Action>)
    requires Legal(acts) && Run(acts).ready && KnownSince(Run(acts).log, Run(acts).notes)
    ensures var w := Run(acts);
            && (ExactSince(w.log, w.notes) <==> PatchedSince(w.log, w.notes))
            && Fresh(Built(w.log), w.focus) && Built(w.log).tabs[w.focus].version == w.version
            && (PatchedSince(w.log, w.notes) ==> Mirrored(w) == w.baseline)
  {
    RunSound(acts);
    LogIff(Run(acts).log, Run(acts).notes);
  }

  lemma DiffMirrored(w: WState, html: seq<Node>)
    requires Good(w) && Mirrored(w) == w.baseline
    ensures var w1 := DiffSent(w, w.focus, html);
            && Fresh(Built(w1.log), w.focus) && Mirrored(w1) == Applied(w.baseline, Diff(w.baseline, html))
            && w1.baseline == html && w1.focus == w.focus && Built(w1.log).tabs[w.focus].version == w1.version
  {
    var ops := Diff(w.baseline, html);
    if ops != [] {
      var w1 := w.(baseline := html, version := w.version + 1,
                   faithful := w.faithful && Applied(w.baseline, ops) == html);
      NotedReplay(w.faithful, w.baseline, w1, Update(w.focus, w.version, w.version + 1, ops));
    }
  }

  lemma TurnMirrored(w: WState, ob: Observation)
    requires Inv(w) && Possible(w, Turn(ob)) && Diffing(w, ob) && Mirrored(w) == w.baseline
    ensures var w1 := Polled(w, ob); var html := Published(ob.view.page);
            && Fresh(Built(w1.log), w1.focus) && Mirrored(w1) == Applied(w.baseline, Diff(w.baseline, html))
            && w1.baseline == html && w1.focus == w.focus && Built(w1.log).tabs[w.focus].version == w1.version
  {
    UrlSyncs(w, ob.view);
    var w1 := UrlAnnounced(w, ob.view);
    TabsSync(w1, ob);
    DiffMirrored(TabsFollowed(w1, ob).0, Published(ob.view.page));
  }

  /** One turn, in any state that runs can reach: on an exact mirror, a turn that gets as far
      as the diff leaves the tab fresh, at the worker's version, and exact if and only if the
      two pages are equal or patchable. */
  lemma TurnIff(w: WState, ob: Observation, o: Page, n: Page)
    requires Inv(w) && Possible(w, Turn(ob)) && Diffing(w, ob) && Comparable(o, n)
    requires Mirrored(w) == w.baseline == Soup(o) && Published(ob.view.page) == Soup(n)
    ensures var w1 := Polled(w, ob);
            && Fresh(Built(w1.log), w1.focus) && Built(w1.log).tabs[w1.focus].version == w1.version
            && w1.baseline == Soup(n)
            && (Mirrored(w1) == w1.baseline <==> o == n || Patchable(o, n))
  {
    TurnMirrored(w, ob);
    PatchContract(o, n);
  }
}
