/** controller/command_queue.py: one command queue per worker, at most one command of a
    worker in flight. */
module CommandQueue {
  import opened Strings

  const ALLOWLIST := {
    "navigate", "click", "type", "clear", "keypress", "scroll", "back", "forward", "refresh", "screenshot",
    "highlight", "page_source", "select", "accept_alert", "dismiss_alert", "send_alert_text", "switch_tab",
    "new_tab", "close_tab", "restart_worker"}

  datatype State = Queued | InFlight | Success | Failed | TimedOut

  /** `serial` stands for the identity of the item: the number of items created before. */
  datatype Item = Item(serial: nat, id: string, worker: string, command: string, payload: string,
                       state: State, error: Option<string>, result: Option<string>)

  datatype WorkerQueue = WorkerQueue(queue: seq<Item>, inFlight: Option<Item>, history: seq<Item>)

  /** The fields of a result that the queue looks at. It carries no command id. */
  datatype Result = Result(success: bool, error: Option<string>, payload: Option<string>)

  /** `outbox` is what was handed to the socket without an exception; `attempts` counts
      the calls of the send function, `created` the items. */
  datatype Queues = Queues(of: map<string, WorkerQueue>, created: nat, attempts: nat, outbox: seq<Item>)

  /** The send callback, if one is set: whether its n-th call returns or raises. */
  type Sender = Option<nat -> bool>

  const EMPTY := WorkerQueue([], None, [])

  function Get(s: Queues, w: string): WorkerQueue {
    if w in s.of then s.of[w] else EMPTY
  }

  function Set(s: Queues, w: string, q: WorkerQueue): Queues {
    s.(of := s.of[w := q])
  }

  function Closed(item: Item, r: Result): Item {
    if r.success then item.(state := Success, result := r.payload)
    else
      var error := if r.error.None? || r.error == Some("") then Some("Unknown error") else r.error;
      item.(state := Failed, error := error, result := r.payload)
  }

  function Expired(item: Item): Item {
    item.(state := TimedOut, error := Some("Command timed out"))
  }

  function Started(item: Item): Item {
    item.(state := InFlight)
  }

  // ---- specification: what one call does -----------------------------------------------------------

  /** What dispatching comes to. `Unsendable`: building the command message raises, outside
      any handler. `Breaks`: the send function raises; the handler then builds a result
      message without its required type, which raises again. Both exceptions leave the
      queue, and no result is ever handled. */
  datatype Outcome = Silent | Unsendable | Breaks | Goes

  function Try(send: Sender, w: string, item: Item, n: nat): Outcome {
    if send.None? then Silent
    else if Strip(w) == "" || item.command !in ALLOWLIST then Unsendable
    else if send.value(n) then Goes
    else Breaks
  }

  function Touched(s: Queues, w: string): Queues {
    Set(s, w, Get(s, w))
  }

  /** A worker id that no message constructor would change. */
  predicate Canonical(w: string) {
    Strip(w) == w
  }

  /** The first item is put in flight before it is sent; and whether an exception escapes. */
  function Launched(send: Sender, s: Queues, w: string): (Queues, bool)
    requires Get(s, w).queue != []
  {
    var q := Get(s, w);
    var s1 := Set(s, w, WorkerQueue(q.queue[1..], Some(Started(q.queue[0])), q.history));
    match Try(send, w, q.queue[0], s.attempts)
    case Silent => (s1, false)
    case Unsendable => (s1, true)
    case Breaks => (s1.(attempts := s.attempts + 1), true)
    case Goes => (s1.(attempts := s.attempts + 1, outbox := s.outbox + [Started(q.queue[0])]), false)
  }

  function Next(send: Sender, s: Queues, w: string): (Queues, bool) {
    if Get(s, w).inFlight.Some? || Get(s, w).queue == [] then (Touched(s, w), false) else Launched(send, s, w)
  }

  /** The item in flight, closed, goes to the history. */
  function Freed(s: Queues, w: string, closed: Item): Queues {
    Set(s, w, Get(s, w).(inFlight := None, history := Get(s, w).history + [closed]))
  }

  function Resulted(send: Sender, s: Queues, w: string, r: Result): (Queues, Option<Item>, bool) {
    if Get(s, w).inFlight.None? then (Touched(s, w), None, false)
    else
      var closed := Closed(Get(s, w).inFlight.value, r);
      var (s1, raised) := Next(send, Freed(s, w, closed), w);
      (s1, Some(closed), raised)
  }

  function Entered(s: Queues, w: string, id: string, command: string, payload: string): Queues {
    var item := Item(s.created, id, w, command, payload, Queued, None, None);
    Set(s, w, Get(s, w).(queue := Get(s, w).queue + [item])).(created := s.created + 1)
  }

  function Enqueued(send: Sender, s: Queues, w: string, id: string, command: string, payload: string): (Queues, bool) {
    Next(send, Entered(s, w, id, command, payload), w)
  }

  function TimedOutBy(send: Sender, s: Queues, w: string, id: string): (Queues, bool) {
    var q := Get(s, w);
    if q.inFlight.None? || q.inFlight.value.id != id then (Touched(s, w), false)
    else Next(send, Freed(s, w, Expired(q.inFlight.value)), w)
  }

  function Cleared(s: Queues, w: string): Queues {
    Set(s, w, Get(s, w).(history := []))
  }

  // ---- the queue ------------------------------------------------------------------------------------

  lemma SetTwice(s: Queues, w: string, a: WorkerQueue, b: WorkerQueue)
    ensures Set(Set(s, w, a), w, b) == Set(s, w, b) && Get(Set(s, w, a), w) == a
  {
  }

  class ControllerCommandQueue {
    var workerQueues: map<string, WorkerQueue>
    var sendMessageFn: Sender
    var created: nat
    var attempts: nat
    var outbox: seq<Item>

    ghost function Contents(): Queues
      reads this
    {
      Queues(workerQueues, created, attempts, outbox)
    }

    constructor (send: Sender)
      ensures Contents() == Queues(map[], 0, 0, []) && sendMessageFn == send
    {
      workerQueues, sendMessageFn, created, attempts, outbox := map[], send, 0, 0, [];
    }

    method GetOrCreateQueue(w: string) returns (q: WorkerQueue)
      modifies this`workerQueues
      ensures q == Get(old(Contents()), w) && Contents() == Touched(old(Contents()), w)
    {
      if w !in workerQueues { workerQueues := workerQueues[w := EMPTY]; }
      q := workerQueues[w];
      assert workerQueues[w := q] == workerQueues;
    }

    method EnqueueCommand(w: string, id: string, command: string, payload: string) returns (item: Item, raised: bool)
      modifies this`workerQueues, this`created, this`attempts, this`outbox
      ensures item == Item(old(created), id, w, command, payload, Queued, None, None)
      ensures (Contents(), raised) == Enqueued(sendMessageFn, old(Contents()), w, id, command, payload)
    {
      item := Item(created, id, w, command, payload, Queued, None, None);
      created := created + 1;
      var q := GetOrCreateQueue(w);
      workerQueues := workerQueues[w := q.(queue := q.queue + [item])];
      assert Contents() == Entered(old(Contents()), w, id, command, payload);
      raised := ProcessNext(w);
    }

    method HandleCommandResult(w: string, r: Result) returns (done: Option<Item>, raised: bool)
      modifies this`workerQueues, this`attempts, this`outbox
      ensures (Contents(), done, raised) == Resulted(sendMessageFn, old(Contents()), w, r)
    {
      var q := GetOrCreateQueue(w);
      if q.inFlight.None? { return None, false; }
      var closed := Closed(q.inFlight.value, r);
      q := q.(history := q.history + [closed]);
      q := q.(inFlight := None);
      workerQueues := workerQueues[w := q];
      SetTwice(old(Contents()), w, Get(old(Contents()), w), q);
      raised := ProcessNext(w);
      done := Some(closed);
    }

    method HandleTimeout(w: string, id: string) returns (raised: bool)
      modifies this`workerQueues, this`attempts, this`outbox
      ensures (Contents(), raised) == TimedOutBy(sendMessageFn, old(Contents()), w, id)
    {
      var q := GetOrCreateQueue(w);
      raised := false;
      if q.inFlight.Some? && q.inFlight.value.id == id {
        q := WorkerQueue(q.queue, None, q.history + [Expired(q.inFlight.value)]);
        workerQueues := workerQueues[w := q];
        SetTwice(old(Contents()), w, Get(old(Contents()), w), q);
        raised := ProcessNext(w);
      }
    }

    method ProcessNext(w: string) returns (raised: bool)
      modifies this`workerQueues, this`attempts, this`outbox
      ensures (Contents(), raised) == Next(sendMessageFn, old(Contents()), w)
    {
      var q := GetOrCreateQueue(w);
      if q.inFlight.Some? { return false; }
      if q.queue == [] { return false; }
      var item := Started(q.queue[0]);
      q := WorkerQueue(q.queue[1..], Some(item), q.history);
      workerQueues := workerQueues[w := q];
      SetTwice(old(Contents()), w, Get(old(Contents()), w), q);
      if sendMessageFn.None? { return false; }
      if Strip(w) == "" || item.command !in ALLOWLIST { return true; }
      var sent := sendMessageFn.value(attempts);
      attempts := attempts + 1;
      if sent { outbox := outbox + [item]; }
      raised := !sent;
    }

    method ClearHistory(w: string)
      modifies this`workerQueues
      ensures Contents() == Cleared(old(Contents()), w)
    {
      var q := GetOrCreateQueue(w);
      workerQueues := workerQueues[w := q.(history := [])];
      SetTwice(old(Contents()), w, Get(old(Contents()), w), q.(history := []));
    }
  }
}
