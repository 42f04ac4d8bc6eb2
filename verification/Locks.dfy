/** The two locks of the worker (worker/worker.py). Whatever its tasks do between taking
    and leaving a lock, and wherever one of them is interrupted by an exception: no task
    ever holds both, no lock is held twice, and the tasks cannot block each other for good. */
module Locks {

  datatype Lock = Selenium | State

  /** `Touch` is an awaited call between taking and leaving a lock, `Work` any other one
      that takes no lock. */
  datatype Act = Take(lock: Lock) | Leave(lock: Lock) | Touch(lock: Lock) | Work

  /** A running task: the locks it holds and what it has yet to do. */
  datatype Task = Task(held: set<Lock>, rest: seq<Act>)

  type Tasks = seq<Task>

  // ---- the worker's tasks ----------------------------------------------------------------------

  function Works(n: nat): seq<Act> {
    if n == 0 then [] else [Work] + Works(n - 1)
  }

  function Touches(l: Lock, n: nat): seq<Act> {
    if n == 0 then [] else [Touch(l)] + Touches(l, n - 1)
  }

  function Section(l: Lock, calls: nat): seq<Act> {
    [Take(l)] + Touches(l, calls) + [Leave(l)]
  }

  /** send_full_snapshot, which finds the browser dead `dead` times. */
  function Snapshot(dead: nat): seq<Act>
    decreases dead, 0
  {
    if dead > 0 then [Work] + Recovery(dead - 1)
    else [Work] + Section(Selenium, 5) + Works(2) + Section(State, 1)
  }

  /** _recover_from_browser_crash, and likewise a new browser configuration. */
  function Recovery(dead: nat): seq<Act>
    decreases dead, 1
  {
    [Work] + Section(Selenium, 2) + Section(State, 0) + [Work] + Snapshot(dead)
  }

  function Connecting(dead: nat, alive: bool): seq<Act> {
    Snapshot(dead) + Section(Selenium, if alive then 2 else 1)
  }

  function IdleCleanup(): seq<Act> {
    [Work] + Section(Selenium, 1)
  }

  /** _process_command; `sends` counts its messages. A navigating command ends by capturing
      the page, if the browser is alive, and a snapshot. */
  function Command(sends: nat, navigating: bool, alive: bool, dead: nat): seq<Act> {
    Section(Selenium, 1) + Works(sends)
    + if !navigating then []
      else Section(Selenium, if alive then 3 else 1)
           + (if alive then [Work] + Section(State, 0) else []) + Snapshot(dead)
  }

  /** The ways one turn of the polling loop can go; `calls` are those without a lock. */
  datatype Way =
    | Waiting(calls: nat)
    | Lost
    | Discarding
    | Cut(calls: nat)
    | Reloading(dead: nat)
    | Following(calls: nat, dead: nat)
    | Still(calls: nat)
    | Diffing(calls: nat, sends: nat)

  function Turn(way: Way): seq<Act> {
    var asked, captured := [Work] + Section(Selenium, 1), Section(Selenium, 6);
    match way
    case Waiting(calls) => Works(calls)
    case Lost => asked
    case Discarding => asked + Section(Selenium, 1)
    case Cut(calls) => asked + Section(Selenium, calls)
    case Reloading(dead) => asked + captured + Snapshot(dead)
    case Following(calls, dead) => asked + captured + Works(calls) + Snapshot(dead)
    case Still(calls) => asked + captured + Works(calls)
    case Diffing(calls, sends) => asked + captured + Works(calls) + [Work] + Section(State, 1 + sends)
  }

  /** A lock is taken only by a task that holds none, and left before the end; what belongs
      under it is done in between. */
  predicate Flat(held: set<Lock>, acts: seq<Act>)
    decreases acts
  {
    if acts == [] then held == {}
    else match acts[0]
      case Take(l) => held == {} && Flat({l}, acts[1..])
      case Leave(l) => held == {l} && Flat({}, acts[1..])
      case Touch(l) => held == {l} && Flat(held, acts[1..])
      case Work => Flat(held, acts[1..])
  }

  lemma {:induction false} FlatAppend(held: set<Lock>, a: seq<Act>, b: seq<Act>)
    requires Flat(held, a) && Flat({}, b)
    ensures Flat(held, a + b)
    decreases a
  {
    if a == [] {
      assert a + b == b;
    } else {
      assert (a + b)[0] == a[0] && (a + b)[1..] == a[1..] + b;
      FlatAppend(if a[0].Take? then {a[0].lock} else if a[0].Leave? then {} else held, a[1..], b);
    }
  }

  lemma {:induction false} FlatWorks(held: set<Lock>, n: nat, tail: seq<Act>)
    requires Flat(held, tail)
    ensures Flat(held, Works(n) + tail)
  {
    if n == 0 {
      assert Works(0) + tail == tail;
    } else {
      assert (Works(n) + tail)[0] == Work && (Works(n) + tail)[1..] == Works(n - 1) + tail;
      FlatWorks(held, n - 1, tail);
    }
  }

  lemma {:induction false} FlatTouches(l: Lock, n: nat, tail: seq<Act>)
    requires Flat({l}, tail)
    ensures Flat({l}, Touches(l, n) + tail)
  {
    if n == 0 {
      assert Touches(l, 0) + tail == tail;
    } else {
      assert (Touches(l, n) + tail)[0] == Touch(l) && (Touches(l, n) + tail)[1..] == Touches(l, n - 1) + tail;
      FlatTouches(l, n - 1, tail);
    }
  }

  lemma FlatSection(l: Lock, calls: nat)
    ensures Flat({}, Section(l, calls))
  {
    assert [Leave(l)][1..] == [];
    FlatTouches(l, calls, [Leave(l)]);
    assert Section(l, calls) == [Take(l)] + (Touches(l, calls) + [Leave(l)]);
    assert Section(l, calls)[1..] == Touches(l, calls) + [Leave(l)];
  }

  lemma FlatCalls(n: nat)
    ensures Flat({}, Works(n)) && Flat({}, [Work])
  {
    FlatWorks({}, n, []);
    assert Works(n) + [] == Works(n) && [Work][1..] == [];
  }

  lemma {:induction false} FlatSnapshot(dead: nat)
    ensures Flat({}, Snapshot(dead))
    decreases dead, 0
  {
    FlatCalls(2);
    if dead > 0 {
      FlatRecovery(dead - 1);
      FlatAppend({}, [Work], Recovery(dead - 1));
    } else {
      FlatSection(Selenium, 5);
      FlatSection(State, 1);
      FlatAppend({}, [Work], Section(Selenium, 5));
      FlatAppend({}, [Work] + Section(Selenium, 5), Works(2));
      FlatAppend({}, [Work] + Section(Selenium, 5) + Works(2), Section(State, 1));
    }
  }

  lemma {:induction false} FlatRecovery(dead: nat)
    ensures Flat({}, Recovery(dead))
    decreases dead, 1
  {
    FlatCalls(1);
    FlatSection(Selenium, 2);
    FlatSection(State, 0);
    FlatSnapshot(dead);
    FlatAppend({}, [Work], Section(Selenium, 2));
    FlatAppend({}, [Work] + Section(Selenium, 2), Section(State, 0));
    FlatAppend({}, [Work] + Section(Selenium, 2) + Section(State, 0), [Work]);
    FlatAppend({}, [Work] + Section(Selenium, 2) + Section(State, 0) + [Work], Snapshot(dead));
  }

  lemma FlatCommand(sends: nat, navigating: bool, alive: bool, dead: nat)
    ensures Flat({}, Command(sends, navigating, alive, dead))
  {
    var own := Section(Selenium, 1) + Works(sends);
    FlatCalls(sends);
    FlatSection(Selenium, 1);
    FlatAppend({}, Section(Selenium, 1), Works(sends));
    if navigating {
      var look := Section(Selenium, if alive then 3 else 1);
      var keep := if alive then [Work] + Section(State, 0) else [];
      FlatSection(Selenium, if alive then 3 else 1);
      FlatSection(State, 0);
      FlatAppend({}, [Work], Section(State, 0));
      FlatSnapshot(dead);
      FlatAppend({}, look, keep);
      FlatAppend({}, look + keep, Snapshot(dead));
      FlatAppend({}, own, look + keep + Snapshot(dead));
    } else {
      assert own + [] == own;
    }
  }

  lemma FlatTurn(way: Way)
    ensures Flat({}, Turn(way))
  {
    var asked, captured := [Work] + Section(Selenium, 1), Section(Selenium, 6);
    FlatCalls(if way.Following? || way.Still? || way.Diffing? || way.Waiting? then way.calls else 0);
    FlatSection(Selenium, 1);
    FlatSection(Selenium, 6);
    FlatAppend({}, [Work], Section(Selenium, 1));
    FlatAppend({}, asked, captured);
    match way
    case Waiting(_) =>
    case Lost =>
    case Discarding => FlatAppend({}, asked, Section(Selenium, 1));
    case Cut(calls) => FlatSection(Selenium, calls); FlatAppend({}, asked, Section(Selenium, calls));
    case Reloading(dead) => FlatSnapshot(dead); FlatAppend({}, asked + captured, Snapshot(dead));
    case Following(calls, dead) =>
      FlatSnapshot(dead);
      FlatAppend({}, asked + captured, Works(calls));
      FlatAppend({}, asked + captured + Works(calls), Snapshot(dead));
    case Still(calls) => FlatAppend({}, asked + captured, Works(calls));
    case Diffing(calls, sends) =>
      FlatSection(State, 1 + sends);
      FlatAppend({}, asked + captured, Works(calls));
      FlatAppend({}, asked + captured + Works(calls), [Work]);
      FlatAppend({}, asked + captured + Works(calls) + [Work], Section(State, 1 + sends));
  }

  /** What the worker starts tasks with. Turns of the polling loop follow one another. */
  datatype Job =
    | Connection(dead: nat, alive: bool)
    | Resync(dead: nat)
    | Restart(dead: nat)
    | Configuration(dead: nat)
    | Executing(sends: nat, navigating: bool, alive: bool, dead: nat)
    | Unobserved
    | Polling(ways: seq<Way>)

  function Turns(ways: seq<Way>): seq<Act> {
    if ways == [] then [] else Turn(ways[0]) + Turns(ways[1..])
  }

  function Script(job: Job): seq<Act> {
    match job
    case Connection(dead, alive) => Connecting(dead, alive)
    case Resync(dead) => Snapshot(dead)
    case Restart(dead) => [Work] + Recovery(dead)
    case Configuration(dead) => Recovery(dead)
    case Executing(sends, navigating, alive, dead) => Command(sends, navigating, alive, dead)
    case Unobserved => IdleCleanup()
    case Polling(ways) => Turns(ways)
  }

  lemma {:induction false} FlatTurns(ways: seq<Way>)
    ensures Flat({}, Turns(ways))
  {
    if ways != [] {
      FlatTurn(ways[0]);
      FlatTurns(ways[1..]);
      FlatAppend({}, Turn(ways[0]), Turns(ways[1..]));
    }
  }

  /** None of the worker's jobs takes a lock inside a critical section. */
  lemma JobsFlat(job: Job)
    ensures Flat({}, Script(job))
  {
    FlatCalls(1);
    match job
    case Connection(dead, alive) =>
      FlatSnapshot(dead);
      FlatSection(Selenium, if alive then 2 else 1);
      FlatAppend({}, Snapshot(dead), Section(Selenium, if alive then 2 else 1));
    case Resync(dead) => FlatSnapshot(dead);
    case Restart(dead) => FlatRecovery(dead); FlatAppend({}, [Work], Recovery(dead));
    case Configuration(dead) => FlatRecovery(dead);
    case Executing(sends, navigating, alive, dead) => FlatCommand(sends, navigating, alive, dead);
    case Unobserved => FlatSection(Selenium, 1); FlatAppend({}, [Work], Section(Selenium, 1));
    case Polling(ways) => FlatTurns(ways);
  }

  // ---- runs ----------------------------------------------------------------------------------------

  /** `Throw(i, k, calls)`: an exception leaves the locks of task `i`; its handler, outside
      of any lock, makes some calls, and the task goes on `k` acts further down, or ends. */
  datatype Event = Start(job: Job) | Go(i: nat) | Throw(i: nat, k: nat, calls: nat)

  predicate Free(s: Tasks, l: Lock) {
    forall i :: 0 <= i < |s| ==> l !in s[i].held
  }

  predicate CanGo(s: Tasks, i: nat) {
    i < |s| && s[i].rest != [] && (s[i].rest[0].Take? ==> Free(s, s[i].rest[0].lock))
  }

  predicate Legal(s: Tasks, e: Event) {
    match e
    case Start(_) => true
    case Go(i) => CanGo(s, i)
    case Throw(i, k, _) => i < |s| && 0 < k <= |s[i].rest| && Flat({}, s[i].rest[k..])
  }

  function Advanced(t: Task): Task
    requires t.rest != []
  {
    match t.rest[0]
    case Take(l) => Task(t.held + {l}, t.rest[1..])
    case Leave(l) => Task(t.held - {l}, t.rest[1..])
    case _ => Task(t.held, t.rest[1..])
  }

  function Next(s: Tasks, e: Event): Tasks
    requires Legal(s, e)
  {
    match e
    case Start(job) => s + [Task({}, Script(job))]
    case Go(i) => s[i := Advanced(s[i])]
    case Throw(i, k, calls) => s[i := Task({}, Works(calls) + s[i].rest[k..])]
  }

  predicate LegalRun(s: Tasks, es: seq<Event>)
    decreases es
  {
    es != [] ==> Legal(s, es[0]) && LegalRun(Next(s, es[0]), es[1..])
  }

  function Run(s: Tasks, es: seq<Event>): Tasks
    requires LegalRun(s, es)
    decreases es
  {
    if es == [] then s else Run(Next(s, es[0]), es[1..])
  }

  predicate Good(s: Tasks) {
    && (forall i :: 0 <= i < |s| ==> Flat(s[i].held, s[i].rest))
    && (forall i, j :: 0 <= i < j < |s| ==> s[i].held !! s[j].held)
  }

  lemma AdvancedFlat(t: Task)
    requires Flat(t.held, t.rest) && t.rest != []
    ensures Flat(Advanced(t).held, Advanced(t).rest)
  {
    match t.rest[0]
    case Take(l) => assert t.held + {l} == {l};
    case Leave(l) => assert t.held - {l} == {};
    case _ =>
  }

  lemma GoKeeps(s: Tasks, i: nat)
    requires Good(s) && CanGo(s, i)
    ensures Good(Next(s, Go(i)))
  {
    var s' := Next(s, Go(i));
    AdvancedFlat(s[i]);
    forall a, b | 0 <= a < b < |s'| ensures s'[a].held !! s'[b].held {
      assert s[a].held !! s[b].held;
      if s[i].rest[0].Take? { assert s[i].rest[0].lock !in s[a].held && s[i].rest[0].lock !in s[b].held; }
    }
  }

  lemma NextKeeps(s: Tasks, e: Event)
    requires Good(s) && Legal(s, e)
    ensures Good(Next(s, e))
  {
    match e
    case Start(job) => JobsFlat(job);
    case Go(i) => GoKeeps(s, i);
    case Throw(i, k, calls) => FlatWorks({}, calls, s[i].rest[k..]);
  }

  lemma {:induction false} RunKeeps(s: Tasks, es: seq<Event>)
    requires Good(s) && LegalRun(s, es)
    ensures Good(Run(s, es))
    decreases es
  {
    if es != [] {
      NextKeeps(s, es[0]);
      RunKeeps(Next(s, es[0]), es[1..]);
    }
  }

  lemma {:induction false} HeldOne(held: set<Lock>, acts: seq<Act>)
    requires Flat(held, acts)
    ensures held == {} || (acts != [] && !acts[0].Take? && (held == {Selenium} || held == {State}))
    decreases acts
  {
    if acts != [] {
      match acts[0]
      case Take(_) =>
      case Leave(l) => assert l == Selenium || l == State;
      case Touch(l) => assert l == Selenium || l == State;
      case Work => HeldOne(held, acts[1..]);
    }
  }

  // ---- what holds in every run -----------------------------------------------------------------------

  /** However the tasks interleave and wherever exceptions strike, no task holds both locks,
      and no two tasks hold the same one. */
  lemma Exclusive(es: seq<Event>, l: Lock, i: nat, j: nat)
    requires LegalRun([], es) && i < |Run([], es)| && j < |Run([], es)|
    ensures var s := Run([], es);
            && !(Selenium in s[i].held && State in s[i].held)
            && (l in s[i].held && l in s[j].held ==> i == j)
  {
    RunKeeps([], es);
    var s := Run([], es);
    HeldOne(s[i].held, s[i].rest);
    assert i < j ==> s[i].held !! s[j].held;
    assert j < i ==> s[j].held !! s[i].held;
  }

  /** About to do this. */
  predicate At(t: Task, a: Act) {
    t.rest != [] && t.rest[0] == a
  }

  /** What is done under a lock is never interrupted by what others do under it: whoever is
      about to make such a call holds the lock, nobody else is about to make one, and whoever
      wants the lock has to wait. */
  lemma Alone(es: seq<Event>, l: Lock, i: nat, j: nat)
    requires LegalRun([], es) && i < |Run([], es)| && j < |Run([], es)| && i != j && At(Run([], es)[i], Touch(l))
    ensures var s := Run([], es);
            l in s[i].held && !At(s[j], Touch(l)) && !At(s[j], Leave(l)) && (At(s[j], Take(l)) ==> !CanGo(s, j))
  {
    RunKeeps([], es);
    var s := Run([], es);
    assert Flat(s[i].held, s[i].rest) && Flat(s[j].held, s[j].rest);
    Exclusive(es, l, i, j);
  }

  predicate Finished(s: Tasks) {
    forall i :: 0 <= i < |s| ==> s[i].rest == []
  }

  lemma SomeoneGoes(s: Tasks) returns (i: nat)
    requires Good(s) && !Finished(s)
    ensures CanGo(s, i)
  {
    if l :| !Free(s, l) {
      i :| 0 <= i < |s| && l in s[i].held;
      HeldOne(s[i].held, s[i].rest);
    } else {
      i :| 0 <= i < |s| && s[i].rest != [];
    }
  }

  /** Nobody waits for good: in every reachable state with an unfinished task, some task
      can take its next step. */
  lemma NoDeadlock(es: seq<Event>) returns (i: nat)
    requires LegalRun([], es) && !Finished(Run([], es))
    ensures CanGo(Run([], es), i)
  {
    RunKeeps([], es);
    i := SomeoneGoes(Run([], es));
  }

  function Left(s: Tasks): nat {
    if s == [] then 0 else |s[0].rest| + Left(s[1..])
  }

  lemma {:induction false} LeftChanges(s: Tasks, i: nat, t: Task)
    requires i < |s|
    ensures Left(s[i := t]) == Left(s) - |s[i].rest| + |t.rest|
  {
    if i == 0 {
      assert s[i := t][1..] == s[1..];
    } else {
      assert s[i := t][1..] == s[1..][i - 1 := t];
      LeftChanges(s[1..], i - 1, t);
    }
  }

  /** The calls made by exception handlers. */
  function Handling(es: seq<Event>): nat {
    if es == [] then 0 else (if es[0].Throw? then es[0].calls else 0) + Handling(es[1..])
  }

  lemma {:induction false} WorksLen(n: nat)
    ensures |Works(n)| == n
  {
    if n > 0 { WorksLen(n - 1); }
  }

  /** Once no task is started any more, every run ends, */
  lemma {:induction false} RunEnds(s: Tasks, es: seq<Event>)
    requires LegalRun(s, es) && forall e :: e in es ==> !e.Start?
    ensures |es| <= Left(s) + Handling(es)
    decreases es
  {
    if es != [] {
      var e := es[0];
      assert e in es;
      if e.Go? { LeftChanges(s, e.i, Advanced(s[e.i])); }
      else {
        WorksLen(e.calls);
        LeftChanges(s, e.i, Task({}, Works(e.calls) + s[e.i].rest[e.k..]));
      }
      RunEnds(Next(s, e), es[1..]);
    }
  }

  /** and it ends nowhere but with all tasks finished. */
  lemma {:induction false} RunFinishes(s: Tasks) returns (es: seq<Event>)
    requires Good(s)
    ensures LegalRun(s, es) && Finished(Run(s, es)) && forall e :: e in es ==> e.Go?
    decreases Left(s)
  {
    if Finished(s) {
      es := [];
    } else {
      var i := SomeoneGoes(s);
      LeftChanges(s, i, Advanced(s[i]));
      NextKeeps(s, Go(i));
      var rest := RunFinishes(Next(s, Go(i)));
      es := [Go(i)] + rest;
      assert es[1..] == rest;
    }
  }

  /** What flatness is for: a task that goes for a lock it already holds waits for itself.
      No other task's progress ever helps it; only an exception would. */
  lemma {:induction false} SelfBlocked(s: Tasks, es: seq<Event>, i: nat)
    requires LegalRun(s, es) && i < |s| && s[i].rest != [] && s[i].rest[0].Take? && s[i].rest[0].lock in s[i].held
    requires forall e :: e in es ==> !(e.Throw? && e.i == i)
    ensures i < |Run(s, es)| && Run(s, es)[i] == s[i]
    decreases es
  {
    if es != [] {
      assert es[0] in es;
      assert es[0].Go? ==> es[0].i != i;
      SelfBlocked(Next(s, es[0]), es[1..], i);
    }
  }
}
