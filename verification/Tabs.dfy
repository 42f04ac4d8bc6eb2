/** What a controller's slot holds after any messages, tab by tab: when a tab is open, when
    it is fresh and what it then shows, and which one is active. */
module Tabs {
  import opened Strings
  import opened Dom
  import opened Differ
  import opened StateManager
  import opened SyncProof

  /** The slot after the messages; `Built` of SyncProof. */
  lemma BuiltAppend(ms: seq<Msg>, m: Msg)
    ensures Built(ms + [m]) == Received(Built(ms), m)
  {
    assert Init(ms + [m]) == ms;
  }

  // ---- open tabs -----------------------------------------------------------------------------------

  predicate Opens(m: Msg, t: string) {
    (m.Snapshot? || m.TabOpened?) && m.tab == t
  }

  /** The k-th message opened the tab, and none after it closed it. */
  predicate OpenSince(ms: seq<Msg>, k: nat, t: string) {
    k < |ms| && Opens(ms[k], t) && forall j | k < j < |ms| :: ms[j] != TabClosed(t)
  }

  lemma OpenStep(ms: seq<Msg>, m: Msg, t: string)
    ensures (exists k: nat :: OpenSince(ms + [m], k, t)) <==>
      Opens(m, t) || (m != TabClosed(t) && exists k: nat :: OpenSince(ms, k, t))
  {
    if Opens(m, t) {
      assert OpenSince(ms + [m], |ms|, t);
    } else {
      if k: nat :| OpenSince(ms, k, t) {
        if m != TabClosed(t) { assert OpenSince(ms + [m], k, t); }
      }
      if k: nat :| OpenSince(ms + [m], k, t) {
        assert k < |ms| && (ms + [m])[|ms|] == m;
        assert forall j :: k < j < |ms| ==> (ms + [m])[j] == ms[j];
        assert OpenSince(ms, k, t);
      }
    }
  }

  /** A tab is open exactly if it has been opened, by an announcement or by a snapshot, and not
      been closed since. */
  lemma {:induction false} OpenIff(ms: seq<Msg>, t: string)
    ensures t in Built(ms).tabs <==> exists k: nat :: OpenSince(ms, k, t)
  {
    if ms != [] {
      OpenIff(Init(ms), t);
      OpenStep(Init(ms), Last(ms), t);
      assert Init(ms) + [Last(ms)] == ms;
      ReceivedOpen(Built(Init(ms)), Last(ms), t);
    }
  }

  lemma ReceivedOpen(s: Slot, m: Msg, t: string)
    ensures t in Received(s, m).tabs <==> Opens(m, t) || (t in s.tabs && m != TabClosed(t))
  {
  }

  // ---- fresh tabs ------------------------------------------------------------------------------------

  /** What is known of the tab's page, if anything is: a snapshot brings it, an update from
      just that version changes it, any other update loses it, and so does closing the tab or
      losing the worker. */
  function Page(ms: seq<Msg>, t: string): Option<Tab> {
    if ms == [] then None
    else
      var known := Page(Init(ms), t);
      match Last(ms)
      case Snapshot(tab, v, url, title, html) => if tab == t then Some(Tab(url, title, html, v, false)) else known
      case Update(tab, base, v, ops) =>
        if tab != t || known.None? then known
        else if known.value.version == base
             then Some(known.value.(version := v, html := Applied(known.value.html, ops)))
        else None
      case TabClosed(tab) => if tab == t then None else known
      case TabOpened(_, _) => known
      case Status(status) => if status == "disconnected" then None else known
  }

  /** A tab is fresh exactly when its page is known, and then shows that. */
  lemma {:induction false} FreshIff(ms: seq<Msg>, t: string)
    ensures Fresh(Built(ms), t) <==> Page(ms, t).Some?
    ensures Page(ms, t).Some? ==> Built(ms).tabs[t] == Page(ms, t).value
  {
    if ms != [] { FreshIff(Init(ms), t); }
  }

  // ---- the active tab ---------------------------------------------------------------------------------

  predicate NoRepeats(ts: seq<string>) {
    forall i, j :: 0 <= i < j < |ts| ==> ts[i] != ts[j]
  }

  /** The order lists every open tab once; and if a tab is open, the active tab is open. */
  predicate Orderly(s: Slot) {
    && NoRepeats(s.order) && (forall t :: t in s.order ==> t in s.tabs) && (forall t :: t in s.tabs ==> t in s.order)
    && if s.order == [] then s.active == "" else s.active in s.tabs
  }

  lemma NoRepeatsCons(x: string, ts: seq<string>)
    requires NoRepeats(ts) && x !in ts
    ensures NoRepeats([x] + ts)
  {
  }

  lemma NoRepeatsRest(ts: seq<string>)
    requires ts != [] && NoRepeats(ts)
    ensures NoRepeats(ts[1..]) && ts[0] !in ts[1..]
  {
    assert forall i :: 0 <= i < |ts[1..]| ==> ts[1..][i] == ts[i + 1];
  }

  lemma {:induction false} WithoutKeeps(ts: seq<string>, t: string)
    requires NoRepeats(ts)
    ensures NoRepeats(Without(ts, t)) && forall x :: x in Without(ts, t) <==> x in ts && x != t
  {
    if ts != [] {
      NoRepeatsRest(ts);
      WithoutKeeps(ts[1..], t);
      if ts[0] == t { Unit(Without(ts[1..], t)); } else { NoRepeatsCons(ts[0], Without(ts[1..], t)); }
    }
  }

  /** In the order of their opening, `x` comes before `y`. */
  predicate Earlier(ts: seq<string>, x: string, y: string) {
    ts != [] && ((ts[0] == x && y in ts[1..]) || Earlier(ts[1..], x, y))
  }

  /** What is left comes in the same order. */
  lemma {:induction false} WithoutOrder(ts: seq<string>, t: string, x: string, y: string)
    requires NoRepeats(ts) && Earlier(Without(ts, t), x, y)
    ensures Earlier(ts, x, y)
  {
    var rest := Without(ts[1..], t);
    NoRepeatsRest(ts);
    WithoutKeeps(ts[1..], t);
    if ts[0] == t { Unit(rest); } else { assert ([ts[0]] + rest)[1..] == rest; }
    if Earlier(rest, x, y) { WithoutOrder(ts[1..], t, x, y); }
  }

  lemma ReceivedOrderly(s: Slot, m: Msg)
    requires Orderly(s)
    ensures Orderly(Received(s, m))
  {
    if m.TabClosed? { WithoutKeeps(s.order, m.tab); }
  }

  /** After any messages: the active tab is open, if any tab is. */
  lemma {:induction false} ActiveOpen(ms: seq<Msg>)
    ensures Orderly(Built(ms))
  {
    if ms != [] {
      ActiveOpen(Init(ms));
      ReceivedOrderly(Built(Init(ms)), Last(ms));
    }
  }

  /** A snapshot activates its tab, which stays active until another tab's snapshot comes or it
      is closed. */
  lemma {:induction false} ActiveStays(ms: seq<Msg>, t: string, more: seq<Msg>)
    requires t != "" && ms != [] && Last(ms).Snapshot? && Last(ms).tab == t
    requires forall m :: m in more ==> !(m.Snapshot? && m.tab != t) && m != TabClosed(t)
    ensures Built(ms + more).active == t
    decreases |more|
  {
    if more == [] {
      assert ms + more == ms;
    } else {
      assert ms + more == (ms + Init(more)) + [Last(more)];
      BuiltAppend(ms + Init(more), Last(more));
      ActiveStays(ms, t, Init(more));
    }
  }

  lemma FirstLeft(ts: seq<string>, t: string)
    requires NoRepeats(ts) && |ts| > 1
    ensures var rest := Without(ts, t);
            && rest != [] && rest[0] in ts && rest[0] != t
            && forall u :: u in ts && u != t && u != rest[0] ==> Earlier(ts, rest[0], u)
  {
    var rest := Without(ts, t);
    WithoutKeeps(ts, t);
    var other := if ts[0] == t then ts[1] else ts[0];
    assert other in ts && other != t && other in rest;
    forall u | u in ts && u != t && u != rest[0] ensures Earlier(ts, rest[0], u) {
      assert u in rest && u in rest[1..] && Earlier(rest, rest[0], u);
      WithoutOrder(ts, t, rest[0], u);
    }
  }

  /** When the active tab is closed, the one opened first of those still open becomes active. */
  lemma ActiveCloses(ms: seq<Msg>, t: string)
    requires Built(ms).active == t && |Built(ms).order| > 1
    ensures var s, s1 := Built(ms), Built(ms + [TabClosed(t)]);
            && s1.active in s.tabs && s1.active != t
            && forall u :: u in s.tabs && u != t && u != s1.active ==> Earlier(s.order, s1.active, u)
  {
    ActiveOpen(ms);
    BuiltAppend(ms, TabClosed(t));
    FirstLeft(Built(ms).order, t);
  }

  /** A tab that is opened comes last in that order. */
  lemma OpenedLast(ms: seq<Msg>, m: Msg)
    requires (m.Snapshot? || m.TabOpened?) && m.tab !in Built(ms).tabs
    ensures Built(ms + [m]).order == Built(ms).order + [m.tab]
  {
    BuiltAppend(ms, m);
  }

  /** The status of the slot is the last one reported. */
  lemma {:induction false} StatusLast(ms: seq<Msg>, k: nat)
    requires k < |ms| && ms[k].Status? && forall j :: k < j < |ms| ==> !ms[j].Status?
    ensures Built(ms).status == ms[k].status
  {
    if k < |ms| - 1 {
      assert Init(ms)[k] == ms[k] && forall j :: k < j < |Init(ms)| ==> Init(ms)[j] == ms[j];
      StatusLast(Init(ms), k);
    }
  }

  function Snapshots(ms: seq<Msg>): nat {
    if ms == [] then 0 else (if ms[0].Snapshot? then 1 else 0) + Snapshots(ms[1..])
  }

  lemma {:induction false} SnapshotsAppend(ms: seq<Msg>, m: Msg)
    ensures Snapshots(ms + [m]) == Snapshots(ms) + if m.Snapshot? then 1 else 0
  {
    if ms == [] { assert ms + [m] == [m] && [m][1..] == []; }
    else {
      assert (ms + [m])[1..] == ms[1..] + [m];
      SnapshotsAppend(ms[1..], m);
    }
  }

  /** An update of a known page, from just its version. */
  predicate Continues(ms: seq<Msg>, m: Msg) {
    m.Update? && Page(ms, m.tab).Some? && Page(ms, m.tab).value.version == m.base
  }

  lemma {:induction false} SnapshotsCounted(ms: seq<Msg>)
    ensures Built(ms).snapshots == Snapshots(ms)
  {
    if ms != [] {
      SnapshotsCounted(Init(ms));
      SnapshotsAppend(Init(ms), Last(ms));
      assert Init(ms) + [Last(ms)] == ms;
    }
  }

  /** Every snapshot is counted, and every update that is applied. */
  lemma Counted(ms: seq<Msg>, m: Msg)
    ensures Built(ms).snapshots == Snapshots(ms)
    ensures Built(ms + [m]).diffs == Built(ms).diffs + if Continues(ms, m) then 1 else 0
  {
    SnapshotsCounted(ms);
    BuiltAppend(ms, m);
    if m.Update? { FreshIff(ms, m.tab); }
  }
}
