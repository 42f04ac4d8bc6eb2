/** What the history says of a command, followed back to the worker that executed it. */
module Answers {
  import opened Strings
  import opened CommandQueue
  import opened QueueProof
  import opened Attribution

  // ---- the worker's own replies --------------------------------------------------------------------

  /** The reply the worker gives at an event: to the command it executes, or at once to a
      restart that arrives. */
  function Replies(n: Net, e: Event): Option<Reply> {
    match e
    case Execute(r) => if n.running == [] then None else Some(Reply(n.running[0], r))
    case Arrive => if n.down == [] || n.down[0].command != RESTART then None else Some(Reply(n.down[0], RESTARTED))
    case _ => None
  }

  /** The worker replied to this command with `r` at the k-th event. */
  predicate RepliedAt(w: string, es: seq<Event>, k: nat, t: Ticket, r: Result) {
    && k < |es|
    && var reply := Replies(After(w, es[..k]), es[k]);
       reply.Some? && TicketOf(reply.value.of) == t && reply.value.r == r
  }

  ghost predicate Replied(w: string, es: seq<Event>, t: Ticket, r: Result) {
    exists k: nat :: RepliedAt(w, es, k, t, r)
  }

  lemma RepliedStays(w: string, es: seq<Event>, e: Event, t: Ticket, r: Result)
    requires Replied(w, es, t, r)
    ensures Replied(w, es + [e], t, r)
  {
    var k: nat :| RepliedAt(w, es, k, t, r);
    assert (es + [e])[..k] == es[..k];
    assert RepliedAt(w, es + [e], k, t, r);
  }

  lemma RepliedNow(w: string, es: seq<Event>, e: Event)
    ensures var reply := Replies(After(w, es), e);
            reply.Some? ==> Replied(w, es + [e], TicketOf(reply.value.of), reply.value.r)
  {
    var reply := Replies(After(w, es), e);
    assert (es + [e])[..|es|] == es;
    if reply.Some? { assert RepliedAt(w, es + [e], |es|, TicketOf(reply.value.of), reply.value.r); }
  }

  /** Results under way and results taken are replies of the worker. */
  ghost predicate Genuine(w: string, es: seq<Event>, n: Net) {
    && (forall u :: u in n.up ==> Replied(w, es, TicketOf(u.of), u.r))
    && (forall c :: c in n.credits ==> Replied(w, es, c.of, c.r))
  }

  /** Nothing is under way upwards but replies, and nothing is credited but what was. */
  lemma UpGrows(n: Net, w: string, e: Event)
    requires Canonical(w)
    ensures forall u :: u in React(n, w, e).up ==> u in n.up || Replies(n, e) == Some(u)
    ensures forall c :: c in React(n, w, e).credits ==>
      c in n.credits || exists u :: u in n.up && c == Credit(TicketOf(u.of), c.to, u.r)
  {
    if e.Report? && n.up != [] { assert n.up[0] in n.up; }
  }

  lemma {:induction false} AllGenuine(w: string, es: seq<Event>)
    requires Canonical(w)
    ensures Genuine(w, es, After(w, es))
  {
    if |es| > 0 {
      var before, e := es[..|es| - 1], es[|es| - 1];
      assert es == before + [e];
      AllGenuine(w, before);
      var n := After(w, before);
      UpGrows(n, w, e);
      RepliedNow(w, before, e);
      forall u | u in After(w, es).up ensures Replied(w, es, TicketOf(u.of), u.r) {
        if u in n.up { RepliedStays(w, before, e, TicketOf(u.of), u.r); }
      }
      forall c | c in After(w, es).credits ensures Replied(w, es, c.of, c.r) {
        if c in n.credits { RepliedStays(w, before, e, c.of, c.r); }
        else {
          var u :| u in n.up && c == Credit(TicketOf(u.of), c.to, u.r);
          RepliedStays(w, before, e, c.of, c.r);
        }
      }
    }
  }

  // ---- the history and the credits -------------------------------------------------------------------

  /** Without timeouts: the history is what was credited last, one entry a credit. */
  predicate Matching(history: seq<Item>, credits: seq<Credit>) {
    && |history| <= |credits|
    && forall k :: 0 <= k < |history| ==> Records(history[k], credits[|credits| - |history| + k])
  }

  predicate Records(i: Item, c: Credit) {
    TicketOf(i) == c.to && Answered(i, c.r)
  }

  lemma MatchingGrows(history: seq<Item>, credits: seq<Credit>, i: Item, c: Credit)
    requires Matching(history, credits) && Records(i, c)
    ensures Matching(history + [i], credits + [c])
  {
  }

  lemma ReportMatches(n: Net, w: string, send: Sender)
    requires Canonical(w) && Flowing(Get(n.s, w)) && n.up != []
    requires Matching(Get(n.s, w).history, n.credits)
    ensures var n1 := React(n, w, Report(send)); Matching(Get(n1.s, w).history, n1.credits)
    ensures var n1 := React(n, w, Report(send));
            |n1.credits| - |Get(n1.s, w).history| == |n.credits| - |Get(n.s, w).history|
  {
    var step := Step(send, GotResult(w, n.up[0].r));
    ClosesIff(n.s, step);
    var was, now := Get(n.s, w).history, Get(Apply(n.s, step), w).history;
    if Get(n.s, w).inFlight.Some? {
      var credit := Credit(TicketOf(n.up[0].of), TicketOf(Get(n.s, w).inFlight.value), n.up[0].r);
      assert now == was + [now[|was|]];
      MatchingGrows(was, n.credits, now[|was|], credit);
    }
  }

  lemma EventMatches(n: Net, w: string, e: Event)
    requires Canonical(w) && AllFlow(n.s) && !e.Expire?
    requires Matching(Get(n.s, w).history, n.credits)
    ensures var n1 := React(n, w, e); AllFlow(n1.s) && Matching(Get(n1.s, w).history, n1.credits)
    ensures var n1 := React(n, w, e);
            !e.ClearHistory? ==> |n1.credits| - |Get(n1.s, w).history| == |n.credits| - |Get(n.s, w).history|
  {
    assert Flowing(Get(n.s, w));
    match e
    case Submit(send, id, command, payload) =>
      var step := Step(send, Enqueue(w, id, command, payload));
      CallKeeps(n.s, step, w);
      ClosesIff(n.s, step);
    case Report(send) =>
      if n.up != [] {
        CallKeeps(n.s, Step(send, GotResult(w, n.up[0].r)), w);
        ReportMatches(n, w, send);
      }
    case ClearHistory => CallKeeps(n.s, Step(None, QueueProof.Call.Clear(w)), w);
    case _ =>
  }

  lemma {:induction false} AllMatch(w: string, es: seq<Event>)
    requires Canonical(w) && forall e :: e in es ==> !e.Expire?
    ensures var n := After(w, es);
            && AllFlow(n.s) && Matching(Get(n.s, w).history, n.credits)
            && (ClearHistory !in es ==> |Get(n.s, w).history| == |n.credits|)
  {
    if |es| == 0 {
      Conservation([], w);
      assert Get(START, w) == EMPTY;
    } else {
      var before := es[..|es| - 1];
      assert forall e :: e in before ==> e in es;
      assert es[|es| - 1] in es;
      AllMatch(w, before);
      EventMatches(After(w, before), w, es[|es| - 1]);
    }
  }

  // ---- one reply a command -----------------------------------------------------------------------------

  /** What the worker has not replied to. */
  function Coming(n: Net): seq<Item> {
    n.running + n.down
  }

  predicate Unique(items: seq<Item>) {
    forall i, j :: 0 <= i < j < |items| ==> items[i].serial != items[j].serial
  }

  /** It has been dispatched before. */
  predicate Known(n: Net, w: string, c: nat) {
    (Get(n.s, w).inFlight.Some? && Get(n.s, w).inFlight.value.serial == c) || c in n.closed
  }

  lemma KnownStays(n: Net, w: string, e: Event, c: nat)
    requires Canonical(w) && Known(n, w, c)
    ensures Known(React(n, w, e), w, c)
  {
  }

  lemma KnownBefore(n: Net, w: string, c: nat)
    requires Kept(n, w) && Known(n, w, c)
    ensures c < Mark(n.s, w)
  {
  }

  lemma ComingKnown(n: Net, w: string)
    requires Kept(n, w)
    ensures forall i :: i in Coming(n) ==> Known(n, w, i.serial)
  {
    forall i | i in Coming(n) ensures Known(n, w, i.serial) {
      assert i in Outstanding(n);
      assert Accounted(n, w, i);
    }
  }

  lemma CalledComing(n: Net, w: string, step: QueueProof.Step)
    requires step.call.w == w && Advances(n.s, Apply(n.s, step), w)
    ensures Coming(Called(n, step)) == Coming(n) + Posted(n.s, Apply(n.s, step)) && |Posted(n.s, Apply(n.s, step))| <= 1
    ensures forall i :: i in Posted(n.s, Apply(n.s, step)) ==> Mark(n.s, w) <= i.serial
  {
    assert n.running + (n.down + Posted(n.s, Apply(n.s, step))) == Coming(n) + Posted(n.s, Apply(n.s, step));
  }

  lemma Keeps(items: seq<Item>)
    ensures Removed(items, |items|) == items && items + [] == items
  {
  }

  lemma CutFirst(items: seq<Item>)
    requires items != []
    ensures Removed(items, 0) == items[1..]
  {
  }

  /** An event removes at most one command from what is coming, and puts at most one at its
      end, which is new. */
  lemma ComingStep(n: Net, w: string, e: Event) returns (k: nat, posted: seq<Item>)
    requires Canonical(w) && Kept(n, w)
    ensures Coming(React(n, w, e)) == Removed(Coming(n), k) + posted && |posted| <= 1
    ensures forall i :: i in posted ==> Mark(n.s, w) <= i.serial
  {
    k, posted := |Coming(n)|, [];
    Keeps(Coming(n));
    match e
    case Submit(send, id, command, payload) =>
      var step := Step(send, Enqueue(w, id, command, payload));
      EnqueuedAdvances(send, n.s, w, id, command, payload);
      CalledComing(n, w, step);
      posted := Posted(n.s, Apply(n.s, step));
    case Report(send) =>
      if n.up != [] {
        var step := Step(send, GotResult(w, n.up[0].r));
        AnswerAdvances(n.s, step);
        CalledComing(n.(up := n.up[1..]), w, step);
        posted := Posted(n.s, Apply(n.s, step));
      }
    case Expire(send, id) =>
      var step := Step(send, TimeUp(w, id));
      AnswerAdvances(n.s, step);
      CalledComing(n, w, step);
      posted := Posted(n.s, Apply(n.s, step));
    case ClearHistory =>
      ClearAdvances(n.s, w);
      CalledComing(n, w, Step(None, QueueProof.Call.Clear(w)));
    case Arrive =>
      if n.down != [] {
        assert n.down == [n.down[0]] + n.down[1..];
        assert n.running + ([n.down[0]] + n.down[1..]) == n.running + [n.down[0]] + n.down[1..];
        if n.down[0].command == RESTART {
          k := |n.running|;
          RemovedIn(n.running, n.down, k);
          CutFirst(n.down);
        }
        Keeps(Coming(React(n, w, e)));
      }
    case Execute(_) =>
      if n.running != [] {
        k := 0;
        RemovedIn(n.running, n.down, 0);
        CutFirst(n.running);
        Keeps(Coming(React(n, w, e)));
      }
    case LoseCommand(i) => k := |n.running| + i; RemovedIn(n.running, n.down, k); Keeps(Coming(React(n, w, e)));
    case LoseRunning(i) =>
      if i < |n.running| { k := i; RemovedIn(n.running, n.down, k); }
      Keeps(Coming(React(n, w, e)));
    case LoseReply(_) =>
  }

  lemma UniqueStep(items: seq<Item>, k: nat, posted: seq<Item>, mark: nat)
    requires Unique(items) && |posted| <= 1 && forall i :: i in posted ==> mark <= i.serial
    requires forall i :: i in items ==> i.serial < mark
    ensures Unique(Removed(items, k) + posted)
    ensures forall i :: i in Removed(items, k) + posted ==> i in items || mark <= i.serial
  {
  }

  lemma ComingBefore(n: Net, w: string)
    requires Kept(n, w)
    ensures forall i :: i in Coming(n) ==> i.serial < Mark(n.s, w)
  {
    ComingKnown(n, w);
    forall i | i in Coming(n) ensures i.serial < Mark(n.s, w) { KnownBefore(n, w, i.serial); }
  }

  lemma {:induction false} AlwaysUnique(w: string, es: seq<Event>)
    requires Canonical(w)
    ensures Unique(Coming(After(w, es)))
  {
    if |es| > 0 {
      var n := After(w, es[..|es| - 1]);
      AlwaysUnique(w, es[..|es| - 1]);
      AlwaysKept(w, es[..|es| - 1]);
      var k, posted := ComingStep(n, w, es[|es| - 1]);
      ComingBefore(n, w);
      UniqueStep(Coming(n), k, posted, Mark(n.s, w));
    }
  }

  /** Dispatched before, and the worker will not reply to it any more. */
  predicate Spent(n: Net, w: string, c: nat) {
    Known(n, w, c) && forall i :: i in Coming(n) ==> i.serial != c
  }

  lemma SpentStays(n: Net, w: string, e: Event, c: nat)
    requires Canonical(w) && Kept(n, w) && Unique(Coming(n)) && Spent(n, w, c)
    ensures Spent(React(n, w, e), w, c)
  {
    KnownStays(n, w, e, c);
    KnownBefore(n, w, c);
    var k, posted := ComingStep(n, w, e);
    ComingBefore(n, w);
    UniqueStep(Coming(n), k, posted, Mark(n.s, w));
  }

  /** A reply takes its command out of what is coming. */
  lemma RepliesSpend(n: Net, w: string, e: Event)
    requires Canonical(w) && Kept(n, w) && Unique(Coming(n)) && Replies(n, e).Some?
    ensures Replies(n, e).value.of in Coming(n) && Spent(React(n, w, e), w, Replies(n, e).value.of.serial)
  {
    var x := Replies(n, e).value.of;
    var at := if e.Execute? then 0 else |n.running|;
    assert Coming(n)[at] == x;
    ComingKnown(n, w);
    KnownStays(n, w, e, x.serial);
    var rest := Coming(React(n, w, e));
    forall i | i in rest ensures i.serial != x.serial {
      var j :| 0 <= j < |rest| && rest[j] == i;
      assert Coming(n)[if j < at then j else j + 1] == i;
    }
  }

  lemma {:induction false} SpentForever(w: string, es: seq<Event>, k: nat, c: nat)
    requires Canonical(w) && k <= |es| && Spent(After(w, es[..k]), w, c)
    ensures Spent(After(w, es), w, c)
  {
    if k == |es| {
      assert es[..k] == es;
    } else {
      var before := es[..|es| - 1];
      assert before[..k] == es[..k];
      SpentForever(w, before, k, c);
      AlwaysKept(w, before);
      AlwaysUnique(w, before);
      SpentStays(After(w, before), w, es[|es| - 1], c);
    }
  }

  lemma NotTwice(w: string, es: seq<Event>, j: nat, k: nat, t: Ticket, r: Result, r': Result)
    requires Canonical(w) && RepliedAt(w, es, j, t, r) && RepliedAt(w, es, k, t, r')
    ensures j >= k
  {
    if j < k {
      var n, m := After(w, es[..j]), After(w, es[..k]);
      AlwaysKept(w, es[..j]);
      AlwaysUnique(w, es[..j]);
      RepliesSpend(n, w, es[j]);
      assert es[..j + 1][..j] == es[..j] && es[..k][..j + 1] == es[..j + 1];
      SpentForever(w, es[..k], j + 1, t.serial);
      AlwaysKept(w, es[..k]);
      AlwaysUnique(w, es[..k]);
      RepliesSpend(m, w, es[k]);
      assert false;
    }
  }

  /** Even with timeouts and losses, the worker replies to a command at most once. */
  lemma RepliesOnce(w: string, es: seq<Event>, j: nat, k: nat, t: Ticket, r: Result, r': Result)
    requires Canonical(w) && RepliedAt(w, es, j, t, r) && RepliedAt(w, es, k, t, r')
    ensures j == k && r == r'
  {
    NotTwice(w, es, j, k, t, r, r');
    NotTwice(w, es, k, j, t, r', r);
  }

  lemma SameReply(w: string, es: seq<Event>, t: Ticket, r: Result, r': Result)
    requires Canonical(w) && Replied(w, es, t, r) && Replied(w, es, t, r')
    ensures r == r'
  {
    var a: nat :| RepliedAt(w, es, a, t, r);
    var b: nat :| RepliedAt(w, es, b, t, r');
    RepliesOnce(w, es, a, b, t, r, r');
  }

  lemma MatchAt(history: seq<Item>, credits: seq<Credit>, i: Item) returns (c: Credit)
    requires Matching(history, credits) && i in history
    ensures c in credits && Records(i, c)
  {
    var k :| 0 <= k < |history| && history[k] == i;
    c := credits[|credits| - |history| + k];
    assert Records(history[k], c);
  }

  lemma EntryReplied(w: string, es: seq<Event>, i: Item) returns (r: Result)
    requires Canonical(w) && forall e :: e in es ==> !e.Expire?
    requires i in Get(After(w, es).s, w).history
    ensures Replied(w, es, TicketOf(i), r) && Answered(i, r)
  {
    AllMatch(w, es);
    Credited(w, es);
    AllGenuine(w, es);
    var c := MatchAt(Get(After(w, es).s, w).history, After(w, es).credits, i);
    r := c.r;
  }

  /** Without timeouts, whatever gets lost: the worker replied to each command of the history,
      and the entry records just that reply. It is Success if and only if that reply
      succeeded, and it carries the reply's payload and error. */
  lemma OwnReply(w: string, es: seq<Event>, i: Item)
    requires Canonical(w) && forall e :: e in es ==> !e.Expire?
    requires i in Get(After(w, es).s, w).history
    ensures exists r :: Replied(w, es, TicketOf(i), r)
    ensures forall r :: Replied(w, es, TicketOf(i), r) ==> Answered(i, r)
  {
    var own := EntryReplied(w, es, i);
    forall r | Replied(w, es, TicketOf(i), r) ensures Answered(i, r) { SameReply(w, es, TicketOf(i), r, own); }
  }
}
