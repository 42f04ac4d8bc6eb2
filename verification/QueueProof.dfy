/** The command queue over whole runs: nothing gets lost, duplicated or overtaken. */
module QueueProof {
  import opened Strings
  import opened CommandQueue

  // ---- runs -------------------------------------------------------------------------------------

  datatype Call =
    | Enqueue(w: string, id: string, command: string, payload: string)
    | GotResult(w: string, r: Result)
    | TimeUp(w: string, id: string)
    | Clear(w: string)

  /** The send callback may be replaced between calls. */
  datatype Step = Step(send: Sender, call: Call)

  const START := Queues(map[], 0, 0, [])

  function Apply(s: Queues, step: Step): Queues {
    match step.call
    case Enqueue(w, id, command, payload) => Enqueued(step.send, s, w, id, command, payload).0
    case GotResult(w, r) => Resulted(step.send, s, w, r).0
    case TimeUp(w, id) => TimedOutBy(step.send, s, w, id).0
    case Clear(w) => Cleared(s, w)
  }

  function Run(steps: seq<Step>): Queues {
    if |steps| == 0 then START else Apply(Run(steps[..|steps| - 1]), steps[|steps| - 1])
  }

  // ---- what a queue holds ------------------------------------------------------------------------

  /** What stays the same during an item's life. */
  datatype Ticket = Ticket(serial: nat, id: string, worker: string, command: string, payload: string)

  function TicketOf(i: Item): Ticket {
    Ticket(i.serial, i.id, i.worker, i.command, i.payload)
  }

  function Tickets(items: seq<Item>): (r: seq<Ticket>)
    ensures |r| == |items|
  {
    if items == [] then [] else [TicketOf(items[0])] + Tickets(items[1..])
  }

  function Flight(q: WorkerQueue): seq<Item> {
    if q.inFlight.None? then [] else [q.inFlight.value]
  }

  function Line(q: WorkerQueue): seq<Ticket> {
    Tickets(q.history) + Tickets(Flight(q)) + Tickets(q.queue)
  }

  predicate Terminal(i: Item) {
    i.state == Success || i.state == Failed || i.state == TimedOut
  }

  /** Nothing has been answered yet. */
  predicate Open(i: Item) {
    i.error.None? && i.result.None?
  }

  predicate Proper(q: WorkerQueue) {
    && (forall i :: i in q.history ==> Terminal(i))
    && (forall i :: i in Flight(q) ==> i.state == InFlight && Open(i))
    && (forall i :: i in q.queue ==> i.state == Queued && Open(i))
  }

  /** States match positions, and an idle worker has nothing queued. */
  predicate Flowing(q: WorkerQueue) {
    Proper(q) && (q.inFlight.None? ==> q.queue == [])
  }

  /** Items only move on, in order; those that are terminal do not change. */
  predicate Moved(q: WorkerQueue, q': WorkerQueue) {
    Line(q') == Line(q) && q.history <= q'.history && (Proper(q) ==> Proper(q'))
  }

  lemma {:induction false} TicketsAppend(a: seq<Item>, b: seq<Item>)
    ensures Tickets(a + b) == Tickets(a) + Tickets(b)
  {
    if a == [] { assert a + b == b; }
    else {
      assert (a + b)[0] == a[0] && (a + b)[1..] == a[1..] + b;
      TicketsAppend(a[1..], b);
    }
  }

  lemma TicketsOne(i: Item)
    ensures Tickets([i]) == [TicketOf(i)]
  {
    assert [i][1..] == [];
  }

  // ---- one dispatch -------------------------------------------------------------------------------

  lemma StartMoves(q: WorkerQueue)
    requires q.inFlight.None? && q.queue != [] && Proper(q)
    ensures var q1 := WorkerQueue(q.queue[1..], Some(Started(q.queue[0])), q.history); Moved(q, q1) && Flowing(q1)
  {
    var q1 := WorkerQueue(q.queue[1..], Some(Started(q.queue[0])), q.history);
    TicketsOne(Started(q.queue[0]));
    Regroup(Tickets(q.history), [TicketOf(q.queue[0])], Tickets(q.queue[1..]));
    assert forall i :: i in q1.queue ==> i in q.queue;
  }

  lemma Regroup(a: seq<Ticket>, b: seq<Ticket>, c: seq<Ticket>)
    ensures a + [] + (b + c) == a + b + c
  {
  }

  lemma FinishMoves(q: WorkerQueue, closed: Item)
    requires q.inFlight.Some? && TicketOf(closed) == TicketOf(q.inFlight.value) && Terminal(closed)
    ensures Moved(q, q.(inFlight := None, history := q.history + [closed]))
  {
    TicketsAppend(q.history, [closed]);
    TicketsOne(closed);
    TicketsOne(q.inFlight.value);
  }

  ghost predicate AllFlow(s: Queues) {
    forall v :: Flowing(Get(s, v))
  }

  /** Between two states: every queue only moved, and the queues but `w` not at all. */
  ghost predicate Progress(s: Queues, s': Queues, w: string) {
    s'.created == s.created && Moved(Get(s, w), Get(s', w)) && forall v :: v != w ==> Get(s', v) == Get(s, v)
  }

  lemma NextMoves(send: Sender, s: Queues, w: string)
    requires Proper(Get(s, w)) && forall v :: v != w ==> Flowing(Get(s, v))
    ensures AllFlow(Next(send, s, w).0) && Progress(s, Next(send, s, w).0, w)
  {
    NextSelf(send, s, w);
    NextOthers(send, s, w);
    forall v ensures Flowing(Get(Next(send, s, w).0, v)) {
      if v != w { assert Get(Next(send, s, w).0, v) == Get(s, v); }
    }
  }

  lemma NextSelf(send: Sender, s: Queues, w: string)
    requires Proper(Get(s, w))
    ensures Moved(Get(s, w), Get(Next(send, s, w).0, w)) && Flowing(Get(Next(send, s, w).0, w))
  {
    if Get(s, w).inFlight.None? && Get(s, w).queue != [] { StartMoves(Get(s, w)); }
  }

  lemma NextOthers(send: Sender, s: Queues, w: string)
    ensures Next(send, s, w).0.created == s.created && forall v :: v != w ==> Get(Next(send, s, w).0, v) == Get(s, v)
  {
  }

  // ---- one call --------------------------------------------------------------------------------------

  /** Both a result and a timeout close the item in flight and go on. */
  lemma CloseMoves(send: Sender, s: Queues, w: string, closed: Item)
    requires AllFlow(s) && Get(s, w).inFlight.Some?
    requires TicketOf(closed) == TicketOf(Get(s, w).inFlight.value) && Terminal(closed)
    ensures var s1 := Next(send, Freed(s, w, closed), w).0; AllFlow(s1) && Progress(s, s1, w)
    ensures Get(s, w).history + [closed] <= Get(Next(send, Freed(s, w, closed), w).0, w).history
  {
    var s0 := Freed(s, w, closed);
    assert Flowing(Get(s, w));
    FinishMoves(Get(s, w), closed);
    forall v | v != w ensures Flowing(Get(s0, v)) { assert Get(s0, v) == Get(s, v) && Flowing(Get(s, v)); }
    NextMoves(send, s0, w);
  }

  /** A call for one worker: its line loses what is cleared in front and gets what is
      enqueued at its end. All other workers' queues stay as they are, and outside of
      clearing no terminal item changes. */
  lemma CallKeeps(s: Queues, step: Step, v: string)
    requires AllFlow(s)
    ensures AllFlow(Apply(s, step))
    ensures v != step.call.w ==> Get(Apply(s, step), v) == Get(s, v)
    ensures !(step.call.Clear? && step.call.w == v) ==> Get(s, v).history <= Get(Apply(s, step), v).history
    ensures Line(Get(Apply(s, step), v)) == Line(Get(s, v))[Leaving(s, step, v)..] + Entering(s, step, v)
    ensures Apply(s, step).created == s.created + if step.call.Enqueue? then 1 else 0
  {
    var line := Line(Get(s, v));
    assert line[0..] == line && line + [] == line;
    if step.call.Enqueue? { EnqueueKeeps(s, step, v); }
    else if step.call.Clear? { ClearKeeps(s, step, v); }
    else { AnswerKeeps(s, step); }
  }

  lemma ClearedLine(q: WorkerQueue)
    ensures Line(q)[|q.history|..] == Line(q.(history := []))
  {
    DropFront(Tickets(q.history), Tickets(Flight(q)), Tickets(q.queue));
    assert Tickets([]) == [];
  }

  lemma DropFront(a: seq<Ticket>, b: seq<Ticket>, c: seq<Ticket>)
    ensures (a + b + c)[|a|..] == [] + b + c
  {
  }

  lemma ClearKeeps(s: Queues, step: Step, v: string)
    requires AllFlow(s) && step.call.Clear?
    ensures AllFlow(Apply(s, step))
    ensures v != step.call.w ==> Get(Apply(s, step), v) == Get(s, v)
    ensures Line(Get(Apply(s, step), v)) == Line(Get(s, v))[Leaving(s, step, v)..]
  {
    var w := step.call.w;
    var q := Get(s, w);
    ClearedLine(q);
    assert Line(Get(s, v))[0..] == Line(Get(s, v));
    forall u ensures Flowing(Get(Apply(s, step), u)) { assert Flowing(Get(s, u)); }
  }

  /** Results and timeouts. */
  lemma AnswerKeeps(s: Queues, step: Step)
    requires AllFlow(s) && (step.call.GotResult? || step.call.TimeUp?)
    ensures AllFlow(Apply(s, step)) && Progress(s, Apply(s, step), step.call.w)
  {
    var w := step.call.w;
    var q := Get(s, w);
    if q.inFlight.None? || (step.call.TimeUp? && q.inFlight.value.id != step.call.id) {
      assert Apply(s, step) == Touched(s, w);
      forall v ensures Get(Touched(s, w), v) == Get(s, v) && Flowing(Get(Touched(s, w), v)) {
        assert Flowing(Get(s, v));
      }
    } else {
      var closed := if step.call.TimeUp? then Expired(q.inFlight.value) else Closed(q.inFlight.value, step.call.r);
      CloseMoves(step.send, s, w, closed);
      assert Apply(s, step) == Next(step.send, Freed(s, w, closed), w).0;
    }
  }

  function Leaving(s: Queues, step: Step, v: string): (n: nat)
    ensures n <= |Line(Get(s, v))|
  {
    if step.call.Clear? && step.call.w == v then |Get(s, v).history| else 0
  }

  function Entering(s: Queues, step: Step, v: string): seq<Ticket> {
    match step.call
    case Enqueue(w, id, command, payload) => if w == v then [Ticket(s.created, id, w, command, payload)] else []
    case _ => []
  }

  /** Before the dispatch: the new ticket is last in the line. */
  lemma EnteredLine(s: Queues, w: string, id: string, command: string, payload: string)
    requires Flowing(Get(s, w))
    ensures var s0 := Entered(s, w, id, command, payload);
            && Proper(Get(s0, w)) && Get(s0, w).history == Get(s, w).history
            && Line(Get(s0, w)) == Line(Get(s, w)) + [Ticket(s.created, id, w, command, payload)]
            && forall v :: v != w ==> Get(s0, v) == Get(s, v)
  {
    var q := Get(s, w);
    var item := Item(s.created, id, w, command, payload, Queued, None, None);
    TicketsAppend(q.queue, [item]);
    TicketsOne(item);
  }

  lemma EnqueueKeeps(s: Queues, step: Step, v: string)
    requires AllFlow(s) && step.call.Enqueue?
    ensures AllFlow(Apply(s, step))
    ensures v != step.call.w ==> Get(Apply(s, step), v) == Get(s, v)
    ensures Get(s, v).history <= Get(Apply(s, step), v).history
    ensures Line(Get(Apply(s, step), v)) == Line(Get(s, v)) + Entering(s, step, v)
    ensures Apply(s, step).created == s.created + 1
  {
    var w := step.call.w;
    assert Flowing(Get(s, w)) && Flowing(Get(s, v));
    EnteredLine(s, w, step.call.id, step.call.command, step.call.payload);
    var s0 := Entered(s, w, step.call.id, step.call.command, step.call.payload);
    forall u | u != w ensures Flowing(Get(s0, u)) { assert Flowing(Get(s, u)); }
    NextMoves(step.send, s0, w);
    assert Line(Get(s, v)) + [] == Line(Get(s, v));
  }

  // ---- whole runs ---------------------------------------------------------------------------------------

  /** All that was ever enqueued for a worker, in order. */
  function Log(steps: seq<Step>, w: string): seq<Ticket> {
    if |steps| == 0 then []
    else Log(steps[..|steps| - 1], w) + Entering(Run(steps[..|steps| - 1]), steps[|steps| - 1], w)
  }

  /** All that was cleared from its history. */
  function Archive(steps: seq<Step>, w: string): seq<Ticket> {
    if |steps| == 0 then []
    else
      var s := Run(steps[..|steps| - 1]);
      Archive(steps[..|steps| - 1], w) + Line(Get(s, w))[..Leaving(s, steps[|steps| - 1], w)]
  }

  lemma ConserveStep(archive: seq<Ticket>, line: seq<Ticket>, k: nat, entering: seq<Ticket>)
    requires k <= |line|
    ensures (archive + line[..k]) + (line[k..] + entering) == (archive + line) + entering
  {
  }

  /** Conservation: archived, history, in flight and queued, in this order, are exactly
      what was enqueued; states match positions; and an idle worker's queue is empty. */
  lemma {:induction false} Conservation(steps: seq<Step>, w: string)
    ensures Archive(steps, w) + Line(Get(Run(steps), w)) == Log(steps, w)
    ensures AllFlow(Run(steps))
  {
    if |steps| == 0 {
      assert Get(START, w) == EMPTY;
    } else {
      var before, step := steps[..|steps| - 1], steps[|steps| - 1];
      Conservation(before, w);
      CallKeeps(Run(before), step, w);
      ConserveStep(Archive(before, w), Line(Get(Run(before), w)), Leaving(Run(before), step, w),
                   Entering(Run(before), step, w));
    }
  }

  /** Serial numbers grow along the log, so the order of the line is the order of entry
      and no item is in it twice. */
  lemma {:induction false} LogAscends(steps: seq<Step>, w: string, i: nat, j: nat)
    requires i < |Log(steps, w)|
    ensures Log(steps, w)[i].serial < Run(steps).created && Log(steps, w)[i].worker == w
    ensures i < j < |Log(steps, w)| ==> Log(steps, w)[i].serial < Log(steps, w)[j].serial
  {
    if |steps| > 0 {
      var before, step := steps[..|steps| - 1], steps[|steps| - 1];
      Conservation(before, w);
      CallKeeps(Run(before), step, w);
      if i < |Log(before, w)| { LogAscends(before, w, i, j); }
    }
  }

  // ---- how a command ended --------------------------------------------------------------------------

  /** The item records this result: its payload, and Success, or Failed with a message. */
  predicate Answered(i: Item, r: Result) {
    && i.result == r.payload
    && (if r.success then i.state == Success && i.error == None
        else i.state == Failed && i.error == if r.error == Some("") then Some("Unknown error")
                                             else if r.error.Some? then r.error else Some("Unknown error"))
  }

  /** The call concerns the item in flight and ends its flight. */
  predicate Ends(call: Call, flying: Item) {
    call.GotResult? || (call.TimeUp? && flying.id == call.id)
  }

  /** What is left of the item in flight records the call that closed it. */
  predicate ClosedBy(i: Item, flying: Item, call: Call) {
    && TicketOf(i) == TicketOf(flying) && Ends(call, flying)
    && (if call.GotResult? then Answered(i, call.r)
        else i.state == TimedOut && i.result == None && i.error == Some("Command timed out"))
  }

  /** A call adds to the history exactly if it ends a flight, and then one item, which
      records it; for a result, that item is also the one handed back. */
  lemma ClosesIff(s: Queues, step: Step)
    requires Flowing(Get(s, step.call.w)) && !step.call.Clear?
    ensures var w, now := step.call.w, Get(Apply(s, step), step.call.w).history;
            var q := Get(s, w);
            if q.inFlight.Some? && Ends(step.call, q.inFlight.value)
            then
              && |now| == |q.history| + 1 && now[..|q.history|] == q.history
              && ClosedBy(now[|q.history|], q.inFlight.value, step.call)
              && (step.call.GotResult? ==> Resulted(step.send, s, w, step.call.r).1 == Some(now[|q.history|]))
            else now == q.history && (step.call.GotResult? ==> Resulted(step.send, s, w, step.call.r).1 == None)
  {
    var w := step.call.w;
    var q := Get(s, w);
    if q.inFlight.Some? {
      assert q.inFlight.value in Flight(q);
      if Ends(step.call, q.inFlight.value) {
        var closed := if step.call.TimeUp? then Expired(q.inFlight.value) else Closed(q.inFlight.value, step.call.r);
        NextHistory(step.send, Freed(s, w, closed), w);
        assert Get(Freed(s, w, closed), w).history == q.history + [closed];
      }
    }
    if step.call.Enqueue? {
      NextHistory(step.send, Entered(s, w, step.call.id, step.call.command, step.call.payload), w);
    }
  }

  lemma NextHistory(send: Sender, s: Queues, w: string)
    ensures Get(Next(send, s, w).0, w).history == Get(s, w).history
  {
  }

  /** Over all runs: whatever is in the history was in flight when one particular call of the
      run closed it, and it records that call: Success, Failed or TimedOut, error, payload. */
  lemma {:induction false} HistoryAnswered(steps: seq<Step>, w: string, i: Item) returns (k: nat)
    requires i in Get(Run(steps), w).history
    ensures k < |steps| && steps[k].call.w == w && Get(Run(steps[..k]), w).inFlight.Some?
    ensures ClosedBy(i, Get(Run(steps[..k]), w).inFlight.value, steps[k].call)
  {
    k := 0;
    if |steps| > 0 {
      k := |steps| - 1;
      var before, step := steps[..k], steps[k];
      if i in Get(Run(before), w).history {
        k := HistoryAnswered(before, w, i);
        assert before[..k] == steps[..k];
      } else {
        Conservation(before, w);
        NewlyClosed(Run(before), step, w, i);
      }
    }
  }

  lemma NewlyClosed(s: Queues, step: Step, w: string, i: Item)
    requires AllFlow(s) && i in Get(Apply(s, step), w).history && i !in Get(s, w).history
    ensures step.call.w == w && Get(s, w).inFlight.Some? && ClosedBy(i, Get(s, w).inFlight.value, step.call)
  {
    CallKeeps(s, step, w);
    assert Flowing(Get(s, w));
    if step.call.w == w && !step.call.Clear? {
      ClosesIff(s, step);
      var was, now := Get(s, w).history, Get(Apply(s, step), w).history;
      assert |now| == |was| + 1 ==> now == was + [now[|was|]];
    }
  }

  // ---- failed dispatch -----------------------------------------------------------------------------

  /** An exception leaves the call. */
  predicate Raises(s: Queues, step: Step) {
    match step.call
    case Enqueue(w, id, command, payload) => Enqueued(step.send, s, w, id, command, payload).1
    case GotResult(w, r) => Resulted(step.send, s, w, r).2
    case TimeUp(w, id) => TimedOutBy(step.send, s, w, id).1
    case Clear(_) => false
  }

  /** Building the item's message or sending it raises. */
  predicate Fails(send: Sender, s: Queues, w: string, item: Item)
    requires send.Some?
  {
    Strip(w) == "" || item.command !in ALLOWLIST || !send.value(s.attempts)
  }

  /** The call put an item in flight. */
  predicate Dispatches(s: Queues, step: Step) {
    var now := Get(Apply(s, step), step.call.w).inFlight;
    now.Some? && now != Get(s, step.call.w).inFlight
  }

  /** A failed dispatch is neither closed nor followed by the next one. Whatever call puts an
      item in flight, an enqueue, a result or a timeout: the item stays there; it is unsent if
      and only if no send function is set or building or sending its message raises, and in
      the latter case, and no other, an exception leaves the call. */
  lemma StuckIff(s: Queues, step: Step)
    requires Dispatches(s, step)
    ensures var s1, item := Apply(s, step), Get(Apply(s, step), step.call.w).inFlight.value;
            && item.state == InFlight
            && (s1.outbox == s.outbox <==> step.send.None? || Fails(step.send, s, step.call.w, item))
            && (s1.outbox == s.outbox || s1.outbox == s.outbox + [item])
            && (Raises(s, step) <==> step.send.Some? && Fails(step.send, s, step.call.w, item))
  {
    var w := step.call.w;
    match step.call
    case Enqueue(_, id, command, payload) => NextDispatches(step.send, Entered(s, w, id, command, payload), w);
    case GotResult(_, r) =>
      if Get(s, w).inFlight.Some? {
        NextDispatches(step.send, Freed(s, w, Closed(Get(s, w).inFlight.value, r)), w);
      }
    case TimeUp(_, id) =>
      if Get(s, w).inFlight.Some? {
        NextDispatches(step.send, Freed(s, w, Expired(Get(s, w).inFlight.value)), w);
      }
    case Clear(_) =>
  }

  lemma NextDispatches(send: Sender, s: Queues, w: string)
    ensures var (s1, raised) := Next(send, s, w);
            if Get(s, w).inFlight.Some? || Get(s, w).queue == []
            then s1.outbox == s.outbox && Get(s1, w) == Get(s, w) && !raised
            else
              && Get(s1, w).inFlight == Some(Started(Get(s, w).queue[0]))
              && (s1.outbox == s.outbox <==> send.None? || Fails(send, s, w, Get(s, w).queue[0]))
              && (s1.outbox == s.outbox || s1.outbox == s.outbox + [Started(Get(s, w).queue[0])])
              && (raised <==> send.Some? && Fails(send, s, w, Get(s, w).queue[0]))
  {
  }

  lemma IdleQueue(steps: seq<Step>, w: string)
    requires Get(Run(steps), w).inFlight.None?
    ensures Get(Run(steps), w).queue == []
  {
    Conservation(steps, w);
    assert Flowing(Get(Run(steps), w));
  }

  lemma EmptyDispatches(s: Queues, step: Step)
    requires step.call.Enqueue? && Get(s, step.call.w).inFlight.None? && Get(s, step.call.w).queue == []
    ensures Dispatches(s, step) && Get(Apply(s, step), step.call.w).inFlight.value.serial == s.created
  {
    var w, c := step.call.w, step.call;
    var s0 := Entered(s, w, c.id, c.command, c.payload);
    NextDispatches(step.send, s0, w);
    assert Get(s0, w).queue[0].serial == s.created;
  }

  /** After any run, what is enqueued on an idle worker is put in flight at once. */
  lemma IdleDispatches(steps: seq<Step>, step: Step)
    requires step.call.Enqueue? && Get(Run(steps), step.call.w).inFlight.None?
    ensures Dispatches(Run(steps), step)
    ensures Get(Apply(Run(steps), step), step.call.w).inFlight.value.serial == Run(steps).created
  {
    IdleQueue(steps, step.call.w);
    EmptyDispatches(Run(steps), step);
  }

  /** One such input: the first click of an idle controller whose socket is down. */
  lemma StuckExample()
    ensures var (s, raised) := Enqueued(Some((n: nat) => false), START, "w", "a", "click", "");
            && raised && s.outbox == []
            && Get(s, "w") == WorkerQueue([], Some(Item(0, "a", "w", "click", "", InFlight, None, None)), [])
  {
    assert Get(START, "w") == EMPTY;
  }
}
