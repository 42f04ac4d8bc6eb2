/** One controller's queue for one worker, the channels to it and back, and the worker. A
    result carries no command id; the queue credits it to whatever is in flight. */
module Attribution {
  import opened Strings
  import opened CommandQueue
  import opened QueueProof

  datatype Reply = Reply(of: Item, r: Result)

  /** A result that was taken: the command that produced it, the command it was credited to. */
  datatype Credit = Credit(of: Ticket, to: Ticket, r: Result)

  /** `closed` and `credits` are bookkeeping of the model: the serial numbers of the commands
      that timed out or were credited with a result, and a credit for every result taken. */
  datatype Net = Net(s: Queues, down: seq<Item>, running: seq<Item>, up: seq<Reply>,
                     closed: set<nat>, credits: seq<Credit>)

  /** Commands arrive in order and are executed one at a time, in order, but for one kind,
      which is answered as soon as it arrives. Anything may get lost. */
  datatype Event =
    | Submit(send: Sender, id: string, command: string, payload: string)
    | Arrive
    | Execute(r: Result)
    | Report(send: Sender)
    | Expire(send: Sender, id: string)
    | ClearHistory
    | LoseCommand(i: nat)
    | LoseRunning(i: nat)
    | LoseReply(i: nat)

  const IDLE := Net(START, [], [], [], {}, [])
  const RESTART := "restart_worker"
  const RESTARTED := Result(true, None, Some("restarted"))

  function Removed<T>(s: seq<T>, i: nat): seq<T> {
    if i < |s| then s[..i] + s[i + 1..] else s
  }

  function Posted(before: Queues, after: Queues): seq<Item> {
    if |before.outbox| <= |after.outbox| then after.outbox[|before.outbox|..] else []
  }

  /** The command in flight, if the call ended that. */
  function Ended(s: Queues, s': Queues, w: string): set<nat> {
    var flying := Get(s, w).inFlight;
    if flying.Some? && Get(s', w).inFlight != flying then {flying.value.serial} else {}
  }

  function Called(n: Net, step: QueueProof.Step): Net {
    var s := Apply(n.s, step);
    n.(s := s, down := n.down + Posted(n.s, s), closed := n.closed + Ended(n.s, s, step.call.w))
  }

  function Arrived(n: Net): Net {
    if n.down == [] then n
    else if n.down[0].command == RESTART then n.(down := n.down[1..], up := n.up + [Reply(n.down[0], RESTARTED)])
    else n.(down := n.down[1..], running := n.running + [n.down[0]])
  }

  function Executed(n: Net, r: Result): Net {
    if n.running == [] then n else n.(running := n.running[1..], up := n.up + [Reply(n.running[0], r)])
  }

  /** A result names its worker without surrounding blanks. */
  function Reported(n: Net, w: string, send: Sender): Net {
    if n.up == [] then n
    else
      var v := Strip(w);
      var n1 := Called(n.(up := n.up[1..]), Step(send, GotResult(v, n.up[0].r)));
      if Get(n.s, v).inFlight.None? then n1
      else
        var credit := Credit(TicketOf(n.up[0].of), TicketOf(Get(n.s, v).inFlight.value), n.up[0].r);
        n1.(credits := n.credits + [credit])
  }

  function React(n: Net, w: string, e: Event): Net {
    match e
    case Submit(send, id, command, payload) => Called(n, Step(send, Enqueue(w, id, command, payload)))
    case Arrive => Arrived(n)
    case Execute(r) => Executed(n, r)
    case Report(send) => Reported(n, w, send)
    case Expire(send, id) => Called(n, Step(send, TimeUp(w, id)))
    case ClearHistory => Called(n, Step(None, QueueProof.Call.Clear(w)))
    case LoseCommand(i) => n.(down := Removed(n.down, i))
    case LoseRunning(i) => n.(running := Removed(n.running, i))
    case LoseReply(i) => n.(up := Removed(n.up, i))
  }

  function After(w: string, es: seq<Event>): Net {
    if |es| == 0 then IDLE else React(After(w, es[..|es| - 1]), w, es[|es| - 1])
  }

  // ---- what is under way ------------------------------------------------------------------------

  function Origins(up: seq<Reply>): (r: seq<Item>)
    ensures |r| == |up| && forall i :: 0 <= i < |up| ==> r[i] == up[i].of
  {
    if up == [] then [] else [up[0].of] + Origins(up[1..])
  }

  /** In the order in which they would be reported, but for overtaking. */
  function Outstanding(n: Net): seq<Item> {
    Origins(n.up) + n.running + n.down
  }

  /** Serial numbers grow, from `lo` on and below `hi`. */
  predicate Chain(items: seq<Item>, lo: nat, hi: nat) {
    if items == [] then lo <= hi else lo <= items[0].serial < hi && Chain(items[1..], items[0].serial + 1, hi)
  }

  /** All that comes after `a` was dispatched after it, unless `a` overtakes. */
  predicate Follows(a: Item, items: seq<Item>) {
    a.command == RESTART || forall i :: i in items ==> a.serial < i.serial
  }

  predicate Lane(items: seq<Item>) {
    items != [] ==> Follows(items[0], items[1..]) && Lane(items[1..])
  }

  /** Everything dispatched so far has a smaller serial number; what is queued has not. */
  function Mark(s: Queues, w: string): nat {
    var q := Get(s, w);
    if q.inFlight.Some? then q.inFlight.value.serial + 1 else if q.queue == [] then s.created else q.queue[0].serial
  }

  /** Everything closed so far has a smaller serial number. */
  function Front(s: Queues, w: string): nat {
    if Get(s, w).inFlight.Some? then Get(s, w).inFlight.value.serial else Mark(s, w)
  }

  predicate Ordered(s: Queues, w: string) {
    Chain(Get(s, w).queue, Mark(s, w), s.created)
  }

  predicate Accounted(n: Net, w: string, i: Item) {
    Get(n.s, w).inFlight == Some(i) || i.serial in n.closed
  }

  predicate Kept(n: Net, w: string) {
    && Ordered(n.s, w) && Lane(Outstanding(n))
    && (forall c :: c in n.closed ==> c < Front(n.s, w))
    && (forall i :: i in Outstanding(n) ==> Accounted(n, w, i))
  }

  /** Nothing but the item in flight is under way. */
  predicate Single(n: Net, w: string) {
    Outstanding(n) == [] || (Get(n.s, w).inFlight.Some? && Outstanding(n) == [Get(n.s, w).inFlight.value])
  }

  // ---- chains and lanes -----------------------------------------------------------------------------

  lemma {:induction false} ChainAppends(items: seq<Item>, lo: nat, mid: nat, i: Item, hi: nat)
    requires Chain(items, lo, mid) && mid <= i.serial < hi
    ensures Chain(items + [i], lo, hi)
  {
    if items == [] {
      assert items + [i] == [i] && [i][1..] == [];
    } else {
      assert (items + [i])[1..] == items[1..] + [i];
      ChainAppends(items[1..], items[0].serial + 1, mid, i, hi);
    }
  }

  lemma {:induction false} ChainWidens(items: seq<Item>, lo: nat, hi: nat, lo': nat, hi': nat)
    requires Chain(items, lo, hi) && lo' <= lo && hi <= hi'
    ensures Chain(items, lo', hi') && lo <= hi
  {
    if items != [] { ChainWidens(items[1..], items[0].serial + 1, hi, items[0].serial + 1, hi'); }
  }

  lemma {:induction false} ChainBounds(items: seq<Item>, lo: nat, hi: nat)
    requires Chain(items, lo, hi)
    ensures lo <= hi && forall i :: i in items ==> lo <= i.serial < hi
  {
    if items != [] { ChainBounds(items[1..], items[0].serial + 1, hi); }
  }

  lemma {:induction false} LaneAppends(items: seq<Item>, x: Item)
    requires Lane(items) && forall i :: i in items ==> i.serial < x.serial
    ensures Lane(items + [x])
  {
    if items == [] {
      assert items + [x] == [x] && [x][1..] == [];
    } else {
      assert (items + [x])[1..] == items[1..] + [x];
      LaneAppends(items[1..], x);
    }
  }

  lemma {:induction false} LaneRemoves(items: seq<Item>, k: nat)
    requires Lane(items)
    ensures Lane(Removed(items, k)) && forall i :: i in Removed(items, k) ==> i in items
  {
    if k < |items| {
      if k == 0 {
        assert Removed(items, 0) == items[1..];
      } else {
        LaneRemoves(items[1..], k - 1);
        assert Removed(items, k)[1..] == Removed(items[1..], k - 1);
      }
    }
  }

  /** An overtaking item may move to the front of others. */
  lemma {:induction false} LaneOvertakes(a: seq<Item>, b: seq<Item>, x: Item, c: seq<Item>)
    requires Lane(a + b + [x] + c) && x.command == RESTART
    ensures Lane(a + [x] + b + c)
  {
    var was, now := a + b + [x] + c, a + [x] + b + c;
    if a == [] {
      LaneRemoves(was, |b|);
      assert now[1..] == Removed(was, |b|);
    } else {
      assert was[1..] == a[1..] + b + [x] + c && now[1..] == a[1..] + [x] + b + c;
      LaneOvertakes(a[1..], b, x, c);
      assert forall i :: i in now[1..] ==> i in was[1..];
    }
  }

  // ---- one call -----------------------------------------------------------------------------------

  /** A call posts at most the item it put in flight, and that had not been dispatched
      before; and an item that is no longer in flight is behind the front. */
  ghost predicate Advances(s: Queues, s': Queues, w: string) {
    && s.outbox <= s'.outbox && Ordered(s', w)
    && (Posted(s, s') == []
        || (Get(s', w).inFlight.Some? && Posted(s, s') == [Get(s', w).inFlight.value]
            && Mark(s, w) <= Get(s', w).inFlight.value.serial))
    && (Get(s', w).inFlight == Get(s, w).inFlight || Mark(s, w) <= Front(s', w))
    && Front(s, w) <= Front(s', w)
  }

  lemma NextAdvances(send: Sender, s: Queues, w: string)
    requires Ordered(s, w)
    ensures Advances(s, Next(send, s, w).0, w) && Mark(s, w) <= Mark(Next(send, s, w).0, w)
    ensures Get(s, w).inFlight.Some? ==> Get(Next(send, s, w).0, w) == Get(s, w) && Posted(s, Next(send, s, w).0) == []
  {
    var q := Get(s, w);
    if q.inFlight.None? && q.queue != [] {
      assert Get(Next(send, s, w).0, w) == WorkerQueue(q.queue[1..], Some(Started(q.queue[0])), q.history);
    }
  }

  lemma FreedAdvances(send: Sender, s: Queues, w: string, closed: Item)
    requires Ordered(s, w) && Get(s, w).inFlight.Some?
    ensures Advances(s, Next(send, Freed(s, w, closed), w).0, w)
    ensures Get(Next(send, Freed(s, w, closed), w).0, w).inFlight != Get(s, w).inFlight
  {
    var q, s0 := Get(s, w), Freed(s, w, closed);
    ChainBounds(q.queue, Mark(s, w), s.created);
    if q.queue != [] { ChainWidens(q.queue[1..], q.queue[0].serial + 1, s.created, q.queue[0].serial + 1, s.created); }
    NextAdvances(send, s0, w);
  }

  lemma EnqueuedAdvances(send: Sender, s: Queues, w: string, id: string, command: string, payload: string)
    requires Ordered(s, w)
    ensures var s1 := Enqueued(send, s, w, id, command, payload).0;
            && Advances(s, s1, w)
            && (Get(s, w).inFlight.Some? ==> Get(s1, w).inFlight == Get(s, w).inFlight && Posted(s, s1) == [])
  {
    var q, s0 := Get(s, w), Entered(s, w, id, command, payload);
    var item := Item(s.created, id, w, command, payload, Queued, None, None);
    assert Get(s0, w).queue == q.queue + [item];
    ChainBounds(q.queue, Mark(s, w), s.created);
    ChainAppends(q.queue, Mark(s, w), s.created, item, s0.created);
    NextAdvances(send, s0, w);
  }

  lemma AnswerAdvances(s: Queues, step: QueueProof.Step)
    requires Ordered(s, step.call.w) && (step.call.GotResult? || step.call.TimeUp?)
    ensures Advances(s, Apply(s, step), step.call.w)
    ensures step.call.GotResult? && Get(s, step.call.w).inFlight.Some? ==>
      Get(Apply(s, step), step.call.w).inFlight != Get(s, step.call.w).inFlight
  {
    var w := step.call.w;
    var q := Get(s, w);
    if q.inFlight.None? || (step.call.TimeUp? && q.inFlight.value.id != step.call.id) {
      assert Apply(s, step) == Touched(s, w) && Get(Touched(s, w), w) == q;
    } else {
      var closed := if step.call.TimeUp? then Expired(q.inFlight.value) else Closed(q.inFlight.value, step.call.r);
      FreedAdvances(step.send, s, w, closed);
      assert Apply(s, step) == Next(step.send, Freed(s, w, closed), w).0;
    }
  }

  lemma ClearAdvances(s: Queues, w: string)
    requires Ordered(s, w)
    ensures var s1 := Apply(s, Step(None, QueueProof.Call.Clear(w)));
            && Advances(s, s1, w) && Posted(s, s1) == [] && s1.outbox == s.outbox
            && Get(s1, w) == Get(s, w).(history := [])
  {
  }

  // ---- one event ------------------------------------------------------------------------------------

  lemma Associates(a: seq<Item>, b: seq<Item>, c: seq<Item>, d: seq<Item>)
    ensures a + b + (c + d) == (a + b + c) + d && a + b + c + [] == a + b + c
  {
  }

  /** All that is accounted for was dispatched before. */
  lemma AccountedBefore(n: Net, w: string, i: Item)
    requires Kept(n, w) && Accounted(n, w, i)
    ensures i.serial < Mark(n.s, w)
  {
  }

  lemma JoinKeeps(n: Net, s1: Queues, w: string)
    requires Kept(n, w) && Advances(n.s, s1, w)
    ensures Lane(Outstanding(n) + Posted(n.s, s1))
  {
    var o, posted := Outstanding(n), Posted(n.s, s1);
    if posted == [] {
      assert o + posted == o;
    } else {
      forall i | i in o ensures i.serial < posted[0].serial { AccountedBefore(n, w, i); }
      LaneAppends(o, posted[0]);
    }
  }

  lemma CalledKeeps(n: Net, step: QueueProof.Step, w: string)
    requires Kept(n, w) && step.call.w == w && Advances(n.s, Apply(n.s, step), w)
    ensures Kept(Called(n, step), w)
    ensures Outstanding(Called(n, step)) == Outstanding(n) + Posted(n.s, Apply(n.s, step))
  {
    var s1 := Apply(n.s, step);
    Associates(Origins(n.up), n.running, n.down, Posted(n.s, s1));
    JoinKeeps(n, s1, w);
    var n1 := Called(n, step);
    forall i | i in Outstanding(n1) ensures Accounted(n1, w, i) {
      if i in Outstanding(n) { assert Accounted(n, w, i); }
    }
    forall c | c in n1.closed ensures c < Front(s1, w) {
      if c in n.closed { assert c < Front(n.s, w); }
    }
  }

  lemma RemovedKeeps(n: Net, n1: Net, w: string, k: nat)
    requires Kept(n, w) && n1.s == n.s && n1.closed == n.closed && Outstanding(n1) == Removed(Outstanding(n), k)
    ensures Kept(n1, w)
  {
    LaneRemoves(Outstanding(n), k);
    forall i | i in Outstanding(n1) ensures Accounted(n1, w, i) { assert Accounted(n, w, i); }
  }

  lemma {:induction false} OriginsAppend(a: seq<Reply>, b: Reply)
    ensures Origins(a + [b]) == Origins(a) + [b.of]
  {
  }

  lemma ExecuteKeeps(n: Net, r: Result)
    ensures Outstanding(Executed(n, r)) == Outstanding(n)
    ensures Executed(n, r).s == n.s && Executed(n, r).closed == n.closed
  {
    if n.running != [] { OriginsAppend(n.up, Reply(n.running[0], r)); }
  }

  lemma ArriveKeeps(n: Net, w: string)
    requires Kept(n, w)
    ensures Kept(Arrived(n), w) && |Outstanding(Arrived(n))| == |Outstanding(n)|
    ensures forall i :: i in Outstanding(Arrived(n)) <==> i in Outstanding(n)
  {
    if n.down != [] {
      var up, x, rest := Origins(n.up), n.down[0], n.down[1..];
      assert Outstanding(n) == up + n.running + [x] + rest;
      if x.command == RESTART {
        OriginsAppend(n.up, Reply(x, RESTARTED));
        LaneOvertakes(up, n.running, x, rest);
      } else {
        assert Outstanding(Arrived(n)) == up + (n.running + [x]) + rest;
        assert Outstanding(Arrived(n)) == Outstanding(n);
      }
      forall i | i in Outstanding(Arrived(n)) ensures Accounted(Arrived(n), w, i) { assert Accounted(n, w, i); }
    }
  }

  lemma ReportKeeps(n: Net, w: string, send: Sender)
    requires Canonical(w) && Kept(n, w) && n.up != []
    ensures var n1, step := Reported(n, w, send), Step(send, GotResult(w, n.up[0].r));
            Kept(n1, w) && n1.s == Apply(n.s, step) && Outstanding(n1) == Outstanding(n)[1..] + Posted(n.s, n1.s)
  {
    var n0 := n.(up := n.up[1..]);
    assert Outstanding(n0) == Outstanding(n)[1..];
    assert Outstanding(n0) == Removed(Outstanding(n), 0);
    RemovedKeeps(n, n0, w, 0);
    var step := Step(send, GotResult(w, n.up[0].r));
    AnswerAdvances(n.s, step);
    CalledKeeps(n0, step, w);
    var n1 := Reported(n, w, send);
    assert n1 == Called(n0, step).(credits := n1.credits);
  }

  lemma RemovedIn(a: seq<Item>, b: seq<Item>, i: nat)
    ensures i < |a| ==> Removed(a, i) + b == Removed(a + b, i)
    ensures i >= |a| ==> a + Removed(b, i - |a|) == Removed(a + b, i)
  {
  }

  lemma {:induction false} RemovedOrigin(up: seq<Reply>, i: nat)
    ensures Origins(Removed(up, i)) == Removed(Origins(up), i)
  {
  }

  lemma ReplyLost(n: Net, i: nat)
    requires i < |n.up|
    ensures Origins(Removed(n.up, i)) + n.running + n.down == Removed(Outstanding(n), i)
  {
    RemovedOrigin(n.up, i);
    RemovedIn(Origins(n.up), n.running, i);
    RemovedIn(Origins(n.up) + n.running, n.down, i);
  }

  lemma RunningLost(n: Net, i: nat)
    requires i < |n.running|
    ensures Origins(n.up) + Removed(n.running, i) + n.down == Removed(Outstanding(n), |n.up| + i)
  {
    RemovedIn(Origins(n.up), n.running, |n.up| + i);
    RemovedIn(Origins(n.up) + n.running, n.down, |n.up| + i);
  }

  lemma LossKeeps(n: Net, w: string, e: Event)
    requires e.LoseCommand? || e.LoseRunning? || e.LoseReply?
    ensures exists k: nat :: Outstanding(React(n, w, e)) == Removed(Outstanding(n), k)
    ensures React(n, w, e).s == n.s && React(n, w, e).closed == n.closed && React(n, w, e).credits == n.credits
  {
    var up, running, down := Origins(n.up), n.running, n.down;
    assert Removed(Outstanding(n), |up + running + down|) == Outstanding(n);
    if e.LoseReply? {
      if e.i < |up| { ReplyLost(n, e.i); }
    } else if e.LoseRunning? {
      if e.i < |running| { RunningLost(n, e.i); }
    } else {
      RemovedIn(up + running, down, |up + running| + e.i);
    }
  }

  lemma ReactKeeps(n: Net, w: string, e: Event)
    requires Canonical(w) && Kept(n, w)
    ensures Kept(React(n, w, e), w)
  {
    if e.Submit? {
      EnqueuedAdvances(e.send, n.s, w, e.id, e.command, e.payload);
      CalledKeeps(n, Step(e.send, Enqueue(w, e.id, e.command, e.payload)), w);
    } else if e.Arrive? {
      ArriveKeeps(n, w);
    } else if e.Execute? {
      ExecuteKeeps(n, e.r);
    } else if e.Report? {
      if n.up != [] { ReportKeeps(n, w, e.send); }
    } else if e.Expire? {
      AnswerAdvances(n.s, Step(e.send, TimeUp(w, e.id)));
      CalledKeeps(n, Step(e.send, TimeUp(w, e.id)), w);
    } else if e.ClearHistory? {
      ClearAdvances(n.s, w);
      CalledKeeps(n, Step(None, QueueProof.Call.Clear(w)), w);
    } else {
      LossKeeps(n, w, e);
      var k: nat :| Outstanding(React(n, w, e)) == Removed(Outstanding(n), k);
      RemovedKeeps(n, React(n, w, e), w, k);
    }
  }

  lemma {:induction false} AlwaysKept(w: string, es: seq<Event>)
    requires Canonical(w)
    ensures Kept(After(w, es), w)
  {
    if |es| == 0 {
      assert Get(START, w) == EMPTY && Outstanding(IDLE) == [];
    } else {
      AlwaysKept(w, es[..|es| - 1]);
      ReactKeeps(After(w, es[..|es| - 1]), w, es[|es| - 1]);
    }
  }

  // ---- when a result is credited to its own command ------------------------------------------------

  /** With timeouts, losses, overtaking, failing sends and a history that may be cleared: the
      next result is credited to the command that produced it exactly when that command has
      neither timed out nor been credited with a result before. */
  lemma CreditIff(w: string, es: seq<Event>)
    requires Canonical(w) && After(w, es).up != [] && Get(After(w, es).s, w).inFlight.Some?
    ensures var n := After(w, es);
            n.up[0].of == Get(n.s, w).inFlight.value <==> n.up[0].of.serial !in n.closed
  {
    AlwaysKept(w, es);
    HeadCredit(After(w, es), w);
  }

  lemma HeadCredit(n: Net, w: string)
    requires Kept(n, w) && n.up != [] && Get(n.s, w).inFlight.Some?
    ensures n.up[0].of == Get(n.s, w).inFlight.value <==> n.up[0].of.serial !in n.closed
  {
    assert Outstanding(n)[0] == n.up[0].of && n.up[0].of in Outstanding(n);
    assert Accounted(n, w, n.up[0].of);
  }

  /** The commands of the history are closed; and only they, unless it has been cleared. */
  lemma {:induction false} ClosedHistory(w: string, es: seq<Event>, c: nat)
    requires Canonical(w)
    ensures var n := After(w, es);
            && (InHistory(n.s, w, c) ==> c in n.closed)
            && (c in n.closed && ClearHistory !in es ==> InHistory(n.s, w, c))
  {
    if |es| > 0 {
      var before := es[..|es| - 1];
      assert ClearHistory in before ==> ClearHistory in es;
      ClosedHistory(w, before, c);
      AlwaysKept(w, before);
      HistoryStep(After(w, before), w, es[|es| - 1], c);
      assert es[|es| - 1] in es;
    }
  }

  predicate InHistory(s: Queues, w: string, c: nat) {
    exists i :: i in Get(s, w).history && i.serial == c
  }

  lemma FreedHistory(send: Sender, s: Queues, w: string, closed: Item, c: nat)
    requires Get(s, w).inFlight.Some? && closed.serial == Get(s, w).inFlight.value.serial
    ensures InHistory(Next(send, Freed(s, w, closed), w).0, w, c) <==> InHistory(s, w, c) || c == closed.serial
  {
    NextHistory(send, Freed(s, w, closed), w);
    assert Get(Freed(s, w, closed), w).history == Get(s, w).history + [closed];
    assert closed in Get(s, w).history + [closed];
  }

  /** A call adds to the history exactly the command whose flight it ends. */
  lemma CallHistory(s: Queues, step: QueueProof.Step, c: nat)
    requires Ordered(s, step.call.w) && !step.call.Clear?
    ensures var w, s1 := step.call.w, Apply(s, step);
            InHistory(s1, w, c) <==> InHistory(s, w, c) || c in Ended(s, s1, w)
  {
    var w := step.call.w;
    var q := Get(s, w);
    if step.call.Enqueue? {
      NextHistory(step.send, Entered(s, w, step.call.id, step.call.command, step.call.payload), w);
      EnqueuedAdvances(step.send, s, w, step.call.id, step.call.command, step.call.payload);
    } else if q.inFlight.None? || (step.call.TimeUp? && q.inFlight.value.id != step.call.id) {
      assert Apply(s, step) == Touched(s, w) && Get(Touched(s, w), w) == q;
    } else {
      var closed := if step.call.TimeUp? then Expired(q.inFlight.value) else Closed(q.inFlight.value, step.call.r);
      FreedAdvances(step.send, s, w, closed);
      FreedHistory(step.send, s, w, closed, c);
      assert Apply(s, step) == Next(step.send, Freed(s, w, closed), w).0;
    }
  }

  lemma HistoryCalled(n: Net, w: string, step: QueueProof.Step, c: nat)
    requires Ordered(n.s, w) && step.call.w == w && !step.call.Clear? && (InHistory(n.s, w, c) ==> c in n.closed)
    ensures var n1 := Called(n, step);
            && (InHistory(n1.s, w, c) ==> c in n1.closed)
            && (c in n1.closed ==> c in n.closed || InHistory(n1.s, w, c))
            && (InHistory(n.s, w, c) ==> InHistory(n1.s, w, c))
  {
    CallHistory(n.s, step, c);
  }

  /** What one event does to the history and to the closed commands. */
  lemma HistoryStep(n: Net, w: string, e: Event, c: nat)
    requires Canonical(w) && Ordered(n.s, w) && (InHistory(n.s, w, c) ==> c in n.closed)
    ensures var n1 := React(n, w, e);
            && (InHistory(n1.s, w, c) ==> c in n1.closed)
            && (c in n1.closed && !e.ClearHistory? ==> c in n.closed || InHistory(n1.s, w, c))
            && (InHistory(n.s, w, c) && !e.ClearHistory? ==> InHistory(n1.s, w, c))
  {
    match e
    case Submit(send, id, command, payload) => HistoryCalled(n, w, Step(send, Enqueue(w, id, command, payload)), c);
    case Report(send) =>
      if n.up != [] { HistoryCalled(n.(up := n.up[1..]), w, Step(send, GotResult(w, n.up[0].r)), c); }
    case Expire(send, id) => HistoryCalled(n, w, Step(send, TimeUp(w, id)), c);
    case ClearHistory => ClearAdvances(n.s, w);
    case _ =>
  }

  /** If the command in flight does not overtake, that is: exactly when nothing that was
      dispatched before it is still under way. */
  lemma CreditOldest(w: string, es: seq<Event>)
    requires Canonical(w) && After(w, es).up != [] && Get(After(w, es).s, w).inFlight.Some?
    requires Get(After(w, es).s, w).inFlight.value.command != RESTART
    ensures var n := After(w, es);
            var flying := Get(n.s, w).inFlight.value;
            n.up[0].of == flying <==> forall i :: i in Outstanding(n) ==> i.serial >= flying.serial
  {
    AlwaysKept(w, es);
    HeadOldest(After(w, es), w);
  }

  lemma LaneFirst(items: seq<Item>)
    requires Lane(items)
    ensures |items| > 1 && items[0].command != RESTART ==> items[0].serial < items[1].serial && items[1] in items
  {
    if |items| > 1 { assert items[1] in items[1..]; }
  }

  lemma HeadOldest(n: Net, w: string)
    requires Kept(n, w) && n.up != [] && Get(n.s, w).inFlight.Some? && Get(n.s, w).inFlight.value.command != RESTART
    ensures var flying := Get(n.s, w).inFlight.value;
            && (n.up[0].of == flying <==> forall i :: i in Outstanding(n) ==> i.serial >= flying.serial)
            && (n.up[0].of == flying ==> |Outstanding(n)| == 1)
  {
    var o, flying := Outstanding(n), Get(n.s, w).inFlight.value;
    assert o[0] == n.up[0].of && o[0] in o;
    forall i | i in o ensures i.serial <= flying.serial { AccountedBefore(n, w, i); }
    LaneFirst(o);
    assert Accounted(n, w, o[0]);
  }

  // ---- when every command that is in flight is also under way ----------------------------------------

  /** Nothing gets lost, what is enqueued can be sent, and sending does not raise. */
  ghost predicate Works(send: Sender) {
    send.Some? && forall n :: send.value(n)
  }

  ghost predicate Sound(e: Event) {
    match e
    case Submit(send, _, command, _) => Works(send) && command in ALLOWLIST
    case Report(send) => Works(send)
    case Expire(send, _) => Works(send)
    case ClearHistory => true
    case Arrive => true
    case Execute(_) => true
    case _ => false
  }

  predicate Sendable(q: WorkerQueue) {
    forall i :: i in q.queue ==> i.command in ALLOWLIST
  }

  /** The command in flight is under way. */
  predicate Out(n: Net, w: string) {
    Sendable(Get(n.s, w)) && (Get(n.s, w).inFlight.Some? ==> Get(n.s, w).inFlight.value in Outstanding(n))
  }

  /** What is put in flight has been posted. */
  predicate Launches(s: Queues, s': Queues, w: string) {
    Sendable(Get(s', w)) && (Get(s', w).inFlight.Some? ==> Posted(s, s') == [Get(s', w).inFlight.value])
  }

  lemma NextLaunches(send: Sender, s: Queues, w: string)
    requires Canonical(w) && w != "" && Works(send) && Sendable(Get(s, w)) && Get(s, w).inFlight.None?
    ensures Launches(s, Next(send, s, w).0, w)
  {
    var q := Get(s, w);
    if q.queue != [] { assert q.queue[0] in q.queue; }
  }

  lemma AnswerLaunches(s: Queues, step: QueueProof.Step)
    requires Canonical(step.call.w) && step.call.w != "" && Works(step.send) && Sendable(Get(s, step.call.w))
    requires step.call.GotResult? || step.call.TimeUp?
    ensures var w, s1 := step.call.w, Apply(s, step);
            || Launches(s, s1, w)
            || (Get(s1, w) == Get(s, w) && Posted(s, s1) == [] && !(step.call.GotResult? && Get(s, w).inFlight.Some?))
  {
    var w := step.call.w;
    var q := Get(s, w);
    if q.inFlight.None? || (step.call.TimeUp? && q.inFlight.value.id != step.call.id) {
      assert Apply(s, step) == Touched(s, w) && Get(Touched(s, w), w) == q;
    } else {
      var closed := if step.call.TimeUp? then Expired(q.inFlight.value) else Closed(q.inFlight.value, step.call.r);
      NextLaunches(step.send, Freed(s, w, closed), w);
      assert Apply(s, step) == Next(step.send, Freed(s, w, closed), w).0;
    }
  }

  lemma SubmitOut(n: Net, w: string, e: Event)
    requires Canonical(w) && w != "" && Kept(n, w) && Out(n, w) && e.Submit? && Sound(e)
    ensures Out(React(n, w, e), w)
  {
    var step := Step(e.send, Enqueue(w, e.id, e.command, e.payload));
    var s0 := Entered(n.s, w, e.id, e.command, e.payload);
    EnqueuedAdvances(e.send, n.s, w, e.id, e.command, e.payload);
    CalledKeeps(n, step, w);
    if Get(n.s, w).inFlight.None? { NextLaunches(e.send, s0, w); }
  }

  lemma ReportOut(n: Net, w: string, send: Sender)
    requires Canonical(w) && w != "" && Kept(n, w) && Out(n, w) && Works(send) && n.up != []
    ensures Out(Reported(n, w, send), w)
  {
    ReportKeeps(n, w, send);
    AnswerLaunches(n.s, Step(send, GotResult(w, n.up[0].r)));
  }

  lemma ExpireOut(n: Net, w: string, send: Sender, id: string)
    requires Canonical(w) && w != "" && Kept(n, w) && Out(n, w) && Works(send)
    ensures Out(React(n, w, Expire(send, id)), w)
  {
    AnswerOut(n, w, Step(send, TimeUp(w, id)));
  }

  lemma AnswerOut(n: Net, w: string, step: QueueProof.Step)
    requires Canonical(w) && w != "" && Kept(n, w) && Out(n, w) && Works(step.send)
    requires step.call.TimeUp? && step.call.w == w
    ensures Out(Called(n, step), w)
  {
    AnswerAdvances(n.s, step);
    AnswerLaunches(n.s, step);
    CalledKeeps(n, step, w);
    OutJoins(Outstanding(n), n.s, Apply(n.s, step), w);
  }

  lemma OutJoins(o: seq<Item>, s: Queues, s1: Queues, w: string)
    requires Launches(s, s1, w) || Get(s1, w) == Get(s, w)
    requires Get(s, w).inFlight.Some? ==> Get(s, w).inFlight.value in o
    ensures Get(s1, w).inFlight.Some? ==> Get(s1, w).inFlight.value in o + Posted(s, s1)
  {
  }

  lemma ReactOut(n: Net, w: string, e: Event)
    requires Canonical(w) && w != "" && Kept(n, w) && Out(n, w) && Sound(e)
    ensures Out(React(n, w, e), w)
  {
    if e.Submit? { SubmitOut(n, w, e); }
    else if e.Arrive? { ArriveKeeps(n, w); }
    else if e.Execute? { ExecuteKeeps(n, e.r); }
    else if e.Expire? { ExpireOut(n, w, e.send, e.id); }
    else if e.ClearHistory? { ClearAdvances(n.s, w); CalledKeeps(n, Step(None, QueueProof.Call.Clear(w)), w); }
    else if n.up != [] { ReportOut(n, w, e.send); }
  }

  lemma {:induction false} AlwaysOut(w: string, es: seq<Event>)
    requires Canonical(w) && w != "" && forall e :: e in es ==> Sound(e)
    ensures Out(After(w, es), w)
  {
    if |es| == 0 {
      assert Get(START, w) == EMPTY;
    } else {
      var before := es[..|es| - 1];
      assert forall e :: e in before ==> e in es;
      assert es[|es| - 1] in es;
      AlwaysOut(w, before);
      AlwaysKept(w, before);
      ReactOut(After(w, before), w, es[|es| - 1]);
    }
  }

  /** When nothing gets lost and sends work, timeouts allowed: exactly when one single
      command is under way. */
  lemma CreditCount(w: string, es: seq<Event>)
    requires Canonical(w) && w != "" && forall e :: e in es ==> Sound(e)
    requires After(w, es).up != [] && Get(After(w, es).s, w).inFlight.Some?
    requires Get(After(w, es).s, w).inFlight.value.command != RESTART
    ensures var n := After(w, es); n.up[0].of == Get(n.s, w).inFlight.value <==> |Outstanding(n)| == 1
  {
    AlwaysKept(w, es);
    AlwaysOut(w, es);
    var n := After(w, es);
    HeadOldest(n, w);
    assert Outstanding(n)[0] == n.up[0].of;
  }

  // ---- without timeouts -----------------------------------------------------------------------------

  lemma SubmitSingle(n: Net, w: string, e: Event)
    requires Kept(n, w) && Single(n, w) && e.Submit?
    ensures Single(React(n, w, e), w)
  {
    EnqueuedAdvances(e.send, n.s, w, e.id, e.command, e.payload);
    CalledKeeps(n, Step(e.send, Enqueue(w, e.id, e.command, e.payload)), w);
  }

  lemma ReportSingle(n: Net, w: string, send: Sender)
    requires Canonical(w) && Kept(n, w) && Single(n, w) && n.up != []
    ensures Single(Reported(n, w, send), w)
    ensures Get(n.s, w).inFlight == Some(n.up[0].of)
  {
    assert Outstanding(n)[0] == n.up[0].of && Outstanding(n)[1..] == [];
    ReportKeeps(n, w, send);
    AnswerAdvances(n.s, Step(send, GotResult(w, n.up[0].r)));
  }

  lemma ReactSingle(n: Net, w: string, e: Event)
    requires Canonical(w) && Kept(n, w) && Single(n, w) && !e.Expire?
    ensures Single(React(n, w, e), w)
  {
    if e.Submit? { SubmitSingle(n, w, e); }
    else if e.Arrive? {
      ArriveKeeps(n, w);
      var o, o1 := Outstanding(n), Outstanding(Arrived(n));
      if o1 != [] { assert o1[0] in o && o1 == [o1[0]]; }
    }
    else if e.Execute? { ExecuteKeeps(n, e.r); }
    else if e.Report? { if n.up != [] { ReportSingle(n, w, e.send); } }
    else if e.ClearHistory? { ClearAdvances(n.s, w); CalledKeeps(n, Step(None, QueueProof.Call.Clear(w)), w); }
    else { LossKeeps(n, w, e); }
  }

  lemma ReactCredits(n: Net, w: string, e: Event)
    requires Canonical(w) && Kept(n, w) && Single(n, w)
    ensures forall c :: c in React(n, w, e).credits ==> c in n.credits || c.of == c.to
  {
    if e.Report? && n.up != [] { ReportSingle(n, w, e.send); }
  }

  /** As long as no command times out, even if commands and results get lost and sends
      raise: never more than one command is under way, and every result is credited to the
      command that produced it. */
  lemma {:induction false} Credited(w: string, es: seq<Event>)
    requires Canonical(w) && forall e :: e in es ==> !e.Expire?
    ensures Single(After(w, es), w)
    ensures forall c :: c in After(w, es).credits ==> c.of == c.to
  {
    if |es| == 0 {
      assert Get(START, w) == EMPTY && Outstanding(IDLE) == [];
    } else {
      var before := es[..|es| - 1];
      assert forall e :: e in before ==> e in es;
      assert es[|es| - 1] in es;
      Credited(w, before);
      AlwaysKept(w, before);
      ReactSingle(After(w, before), w, es[|es| - 1]);
      ReactCredits(After(w, before), w, es[|es| - 1]);
    }
  }

  /** An item is in flight and nothing of it is left anywhere. */
  predicate Stuck(n: Net, w: string) {
    Get(n.s, w).inFlight.Some? && Outstanding(n) == []
  }

  lemma StuckStep(n: Net, w: string, e: Event)
    requires Stuck(n, w) && !e.Expire?
    ensures var n1 := React(n, w, e);
            Stuck(n1, w) && Get(n1.s, w).inFlight == Get(n.s, w).inFlight && n1.s.outbox == n.s.outbox
                && n1.credits == n.credits
  {
    assert n.up == [] && n.running == [] && n.down == [];
  }

  /** Without timeouts, a worker whose item in flight was never sent, or got lost, or whose
      result got lost, is never sent anything again, whatever is submitted. */
  lemma {:induction false} StuckForever(w: string, es: seq<Event>, more: seq<Event>)
    requires Stuck(After(w, es), w) && forall e :: e in more ==> !e.Expire?
    ensures var n, n1 := After(w, es), After(w, es + more);
            Stuck(n1, w) && Get(n1.s, w).inFlight == Get(n.s, w).inFlight && n1.s.outbox == n.s.outbox
                && n1.credits == n.credits
    decreases |more|
  {
    if more == [] {
      assert es + more == es;
    } else {
      var before := more[..|more| - 1];
      assert forall e :: e in before ==> e in more;
      assert (es + more)[..|es + more| - 1] == es + before && (es + more)[|es + more| - 1] in more;
      StuckForever(w, es, before);
      StuckStep(After(w, es + before), w, more[|more| - 1]);
    }
  }

  // ---- examples ---------------------------------------------------------------------------------------

  const ALWAYS: Sender := Some((n: nat) => true)

  lemma IdleSubmit(n: Net, w: string, id: string, command: string)
    requires Canonical(w) && w != "" && command in ALLOWLIST && Get(n.s, w).inFlight.None? && Get(n.s, w).queue == []
    ensures var item := Item(n.s.created, id, w, command, "", InFlight, None, None);
            var n1 := React(n, w, Submit(ALWAYS, id, command, ""));
            && Get(n1.s, w).inFlight == Some(item) && Get(n1.s, w).queue == [] && n1.s.created == n.s.created + 1
            && n1 == n.(s := n1.s, down := n.down + [item])
  {
  }

  lemma ExpireIdle(n: Net, w: string, id: string)
    requires Get(n.s, w).inFlight.Some? && Get(n.s, w).inFlight.value.id == id && Get(n.s, w).queue == []
    ensures var n1 := React(n, w, Expire(ALWAYS, id));
            && Get(n1.s, w).inFlight.None? && Get(n1.s, w).queue == [] && n1.s.created == n.s.created
            && n1 == n.(s := n1.s, closed := n1.closed)
  {
    assert React(n, w, Expire(ALWAYS, id)).s == Touched(Freed(n.s, w, Expired(Get(n.s, w).inFlight.value)), w);
  }

  /** `first` arrives and times out while it is running; then `second` is submitted. */
  function TimedOut(first: string, second: string): seq<Event> {
    [Submit(ALWAYS, "a", first, ""), Arrive, Expire(ALWAYS, "a"), Submit(ALWAYS, "b", second, "")]
  }

  function Nth(k: nat, command: string): Item {
    Item(k, if k == 0 then "a" else "b", "w", command, "", InFlight, None, None)
  }

  lemma FirstRuns(first: string) returns (n: Net)
    requires first in ALLOWLIST && first != RESTART
    ensures n == After("w", TimedOut(first, "")[..3])
    ensures n == IDLE.(s := n.s, running := [Nth(0, first)], closed := n.closed)
    ensures Get(n.s, "w").inFlight.None? && Get(n.s, "w").queue == [] && n.s.created == 1
  {
    var es := TimedOut(first, "");
    assert Strip("w") == "w";
    IdleSubmit(IDLE, "w", "a", first);
    AfterOne("w", es[..0], es[0], es[..1]);
    AfterOne("w", es[..1], es[1], es[..2]);
    ExpireIdle(After("w", es[..2]), "w", "a");
    AfterOne("w", es[..2], es[2], es[..3]);
    n := After("w", es[..3]);
  }

  lemma SecondSubmitted(n: Net, second: string) returns (n1: Net)
    requires second in ALLOWLIST && Get(n.s, "w").inFlight.None? && Get(n.s, "w").queue == [] && n.s.created == 1
    ensures n1 == React(n, "w", Submit(ALWAYS, "b", second, ""))
    ensures n1 == n.(s := n1.s, down := n.down + [Nth(1, second)]) && Get(n1.s, "w").inFlight == Some(Nth(1, second))
  {
    assert Strip("w") == "w";
    IdleSubmit(n, "w", "b", second);
    n1 := React(n, "w", Submit(ALWAYS, "b", second, ""));
  }

  lemma TimedOutNet(first: string, second: string) returns (n: Net)
    requires first in ALLOWLIST && second in ALLOWLIST && first != RESTART
    ensures n == After("w", TimedOut(first, second))
    ensures n == IDLE.(s := n.s, running := [Nth(0, first)], down := [Nth(1, second)], closed := n.closed)
    ensures Get(n.s, "w").inFlight == Some(Nth(1, second))
  {
    var n0 := FirstRuns(first);
    n := SecondSubmitted(n0, second);
    assert TimedOut(first, "")[..3] == TimedOut(first, second)[..3];
    AfterOne("w", TimedOut(first, second)[..3], TimedOut(first, second)[3], TimedOut(first, second));
  }

  lemma AfterOne(w: string, es: seq<Event>, e: Event, es': seq<Event>)
    requires es' == es + [e]
    ensures After(w, es') == React(After(w, es), w, e)
  {
    assert es'[..|es|] == es;
  }

  lemma ClickAnswered(r: Result) returns (n: Net)
    ensures n == After("w", TimedOut("click", "type") + [Execute(r)])
    ensures n.up == [Reply(Nth(0, "click"), r)] && n.credits == [] && Get(n.s, "w").inFlight == Some(Nth(1, "type"))
  {
    var n0 := TimedOutNet("click", "type");
    AfterOne("w", TimedOut("click", "type"), Execute(r), TimedOut("click", "type") + [Execute(r)]);
    n := Executed(n0, r);
  }

  /** Timeouts break attribution: a click times out, a type command is dispatched, and the
      late answer to the click closes the type command. */
  lemma LateResult(r: Result)
    ensures var es := TimedOut("click", "type") + [Execute(r), Report(ALWAYS)];
            After("w", es).credits == [Credit(TicketOf(Nth(0, "click")), TicketOf(Nth(1, "type")), r)]
  {
    var es := TimedOut("click", "type") + [Execute(r)];
    var n := ClickAnswered(r);
    assert Strip("w") == "w";
    AfterOne("w", es, Report(ALWAYS), TimedOut("click", "type") + [Execute(r), Report(ALWAYS)]);
  }

  /** A restart overtakes: its answer is credited to it while the navigation that timed out
      before is still running, so neither an older command nor a second one under way means
      that the next result goes wrong. */
  lemma Overtaking()
    ensures var n := After("w", TimedOut("navigate", RESTART) + [Arrive]);
            && n.up != [] && Get(n.s, "w").inFlight == Some(n.up[0].of)
            && Outstanding(n) == [Nth(1, RESTART), Nth(0, "navigate")]
  {
    var n := TimedOutNet("navigate", RESTART);
    AfterOne("w", TimedOut("navigate", RESTART), Arrive, TimedOut("navigate", RESTART) + [Arrive]);
    OriginsAppend([], Reply(Nth(1, RESTART), RESTARTED));
  }
}
