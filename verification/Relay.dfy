/** The relay (server/): worker connections and subscriber sets, controller sessions, and
    the routing of messages between them. A socket is known by a name; `sent` is what was
    handed to the sockets, in order. Sets are walked in ascending order. */
module Relay {
  import opened Strings

  type Ws = string

  const CONNECTED := "connected"
  const DISCONNECTED := "disconnected"

  datatype WorkerState = WorkerState(socket: Ws, status: string, domVersion: nat)

  /** `authorized` None means every worker. */
  datatype Session = Session(authorized: Option<set<string>>, subscribed: set<string>)

  /** What a worker says: a snapshot or an update, a status, or anything else that names a
      worker and is passed on (results, tabs, alerts); an error, which need not name one;
      and what is answered or ignored right here. */
  datatype Message =
    | Versioned(version: nat, body: string)
    | Status(status: string, domVersion: Option<nat>)
    | Other(body: string)
    | Fault(body: string)
    | Ping(payload: string)
    | Ignored
    | Garbled(code: string)

  /** What a controller sends to a worker. */
  datatype Kind = Command | Resync | Throttle | Config

  /** `Closed` stands for closing the socket. */
  datatype Wire =
    | FromWorker(worker: string, via: Ws, m: Message)
    | StatusOf(worker: string, status: string, domVersion: Option<nat>)
    | Forward(kind: Kind, worker: string, via: Ws, body: string)
    | ObserverCount(worker: string, count: nat)
    | Error(code: string, worker: string)
    | Pong(payload: string)
    | Closed

  datatype Packet = Packet(to: Ws, wire: Wire)

  /** `due`: the workers that have yet to be told how many observers they have, once for
      every task that is to do so. */
  datatype Registry = Registry(conns: map<string, Ws>, states: map<string, WorkerState>,
                               subs: map<string, set<Ws>>, due: multiset<string>)

  datatype State = State(reg: Registry, sessions: map<Ws, Session>, sent: seq<Packet>)

  const NOBODY := State(Registry(map[], map[], map[], multiset{}), map[], [])

  // ---- specification: server/worker_manager.py ----------------------------------------------------

  function Subscribers(g: Registry, w: string): set<Ws> {
    if w in g.subs then g.subs[w] else {}
  }

  function ToEach(cs: seq<Ws>, wire: Wire): (r: seq<Packet>)
    ensures |r| == |cs| && forall p :: p in r ==> p.to in cs && p.wire == wire
  {
    if cs == [] then [] else [Packet(cs[0], wire)] + ToEach(cs[1..], wire)
  }

  function ToSubscribers(g: Registry, w: string, wire: Wire): seq<Packet> {
    ToEach(Sorted(Subscribers(g, w)), wire)
  }

  function Registered(g: Registry, w: string, ws: Ws): Registry {
    g.(conns := g.conns[w := ws], states := g.states[w := WorkerState(ws, CONNECTED, 0)],
       subs := g.subs[w := Subscribers(g, w)])
  }

  /** The registration is undone only by the socket that holds it. */
  predicate Holds(g: Registry, w: string, ws: Option<Ws>) {
    ws.None? || (w in g.conns && g.conns[w] == ws.value)
  }

  function WithStatus(g: Registry, w: string, status: string, version: Option<nat>): Registry {
    if w !in g.states then g
    else
      var s := g.states[w];
      var v := if version.Some? then version.value else s.domVersion;
      g.(states := g.states[w := s.(status := status, domVersion := v)])
  }

  function Unregistered(g: Registry, w: string, ws: Option<Ws>): Registry {
    if !Holds(g, w, ws) then g else WithStatus(g.(conns := g.conns - {w}), w, DISCONNECTED, None)
  }

  function Forgotten(g: Registry, w: string): Registry {
    if w in g.conns then g else g.(states := g.states - {w}, subs := g.subs - {w})
  }

  function Added(g: Registry, w: string, c: Ws): Registry {
    g.(subs := g.subs[w := Subscribers(g, w) + {c}], due := g.due + multiset{w})
  }

  function Removed(g: Registry, w: string, c: Ws): Registry {
    if w in g.subs then g.(subs := g.subs[w := g.subs[w] - {c}], due := g.due + multiset{w}) else g
  }

  function RemovedEach(g: Registry, ws: seq<string>, c: Ws): Registry
    decreases |ws|
  {
    if ws == [] then g else RemovedEach(if c in Subscribers(g, ws[0]) then Removed(g, ws[0], c) else g, ws[1..], c)
  }

  function RemovedFromAll(g: Registry, c: Ws): Registry {
    RemovedEach(g, Sorted(g.subs.Keys), c)
  }

  function AddedAll(g: Registry, ws: seq<string>, c: Ws): Registry
    decreases |ws|
  {
    if ws == [] then g else AddedAll(Added(g, ws[0], c), ws[1..], c)
  }

  function RemovedAll(g: Registry, ws: seq<string>, c: Ws): Registry
    decreases |ws|
  {
    if ws == [] then g else RemovedAll(Removed(g, ws[0], c), ws[1..], c)
  }

  // ---- specification: server/session.py, server/controller_manager.py ----------------------------

  function Authorized(sessions: map<Ws, Session>, c: Ws, w: string): bool {
    c in sessions && (sessions[c].authorized.None? || w in sessions[c].authorized.value)
  }

  function Subscribed(sessions: map<Ws, Session>, c: Ws): set<string> {
    if c in sessions then sessions[c].subscribed else {}
  }

  function Chosen(sessions: map<Ws, Session>, c: Ws, wanted: set<string>): map<Ws, Session> {
    if c !in sessions then sessions
    else sessions[c := sessions[c].(subscribed := set w | w in wanted && Authorized(sessions, c, w))]
  }

  // ---- specification: server/message_router.py, server/websocket_manager.py ---------------------

  function StatusFor(g: Registry, w: string): Wire {
    if w in g.states then StatusOf(w, g.states[w].status, Some(g.states[w].domVersion))
    else StatusOf(w, DISCONNECTED, None)
  }

  function Statuses(g: Registry, ws: seq<string>, c: Ws): seq<Packet> {
    if ws == [] then [] else [Packet(c, StatusFor(g, ws[0]))] + Statuses(g, ws[1..], c)
  }

  /** The connected workers the controller may see, but for those in `but`. */
  function Visible(g: Registry, sessions: map<Ws, Session>, c: Ws, but: set<string>): set<string> {
    set w | w in g.states && w in g.conns && w !in but && Authorized(sessions, c, w)
  }

  /** First the new subscriptions, then everything else. */
  function Greeting(g: Registry, sessions: map<Ws, Session>, c: Ws, arrived: set<string>): seq<Packet> {
    Statuses(g, Sorted(arrived), c) + Statuses(g, Sorted(Visible(g, sessions, c, arrived)), c)
  }

  /** A socket that is replaced is closed. */
  function Replacing(g: Registry, w: string, ws: Ws): seq<Packet> {
    if w in g.conns && g.conns[w] != ws then [Packet(g.conns[w], Closed)] else []
  }

  function WorkerJoined(s: State, w: string, ws: Ws): State {
    var g := Registered(s.reg, w, ws);
    s.(reg := g, sent := s.sent + Replacing(s.reg, w, ws) + ToSubscribers(g, w, StatusOf(w, CONNECTED, None)))
  }

  /** One of the tasks that are due runs: it tells the worker's current socket how many
      controllers are subscribed now. */
  function Noticed(s: State, w: string): State {
    if w !in s.reg.due then s
    else
      var count := if w in s.reg.conns then [Packet(s.reg.conns[w], ObserverCount(w, |Subscribers(s.reg, w)|))] else [];
      s.(reg := s.reg.(due := s.reg.due - multiset{w}), sent := s.sent + count)
  }

  function WorkerLeft(s: State, w: string, ws: Option<Ws>): State {
    var g := Unregistered(s.reg, w, ws);
    if !Holds(s.reg, w, ws) then s
    else s.(reg := g, sent := s.sent + ToSubscribers(g, w, StatusOf(w, DISCONNECTED, None)))
  }

  /** A new controller connection, with an optional worker in its address. */
  function ControllerJoined(s: State, c: Ws, first: Option<string>, authorized: Option<set<string>>): State {
    var wanted := if first.Some? then {first.value} else {};
    var sessions := Chosen(s.sessions[c := Session(authorized, {})], c, wanted);
    var others := Statuses(s.reg, Sorted(Visible(s.reg, sessions, c, wanted)), c);
    if first.None? then State(s.reg, sessions, s.sent + others)
    else
      var g := Added(s.reg, first.value, c);
      State(g, sessions, s.sent + others + [Packet(c, StatusFor(g, first.value))])
  }

  function Requested(s: State, c: Ws, wanted: set<string>): State {
    var before := Subscribed(s.sessions, c);
    var sessions := Chosen(s.sessions, c, wanted);
    var g := AddedAll(RemovedAll(s.reg, Sorted(before - wanted), c), Sorted(wanted - before), c);
    State(g, sessions, s.sent + Greeting(g, sessions, c, wanted - before))
  }

  function ControllerLeft(s: State, c: Ws): State {
    s.(reg := RemovedFromAll(s.reg, c), sessions := s.sessions - {c})
  }

  /** What a request to forget raises ends the connection it came through. */
  function ForgottenBy(s: State, c: Ws, w: string): State {
    if w in s.reg.conns then s else ControllerLeft(s.(reg := Forgotten(s.reg, w)), c)
  }

  /** `sent`: handing the message to the worker's socket does not raise. Only for a command
      is the controller told that it does, and not at all when a throttle profile finds no
      worker. */
  function Forwards(s: State, c: Ws, w: string, kind: Kind, body: string, sent: bool): seq<Packet> {
    if !Authorized(s.sessions, c, w) then [Packet(c, Error("UNAUTHORIZED", w))]
    else if w !in s.reg.conns then
      if kind == Throttle then [] else [Packet(c, Error("WORKER_NOT_CONNECTED", w))]
    else if sent then [Packet(s.reg.conns[w], Forward(kind, w, c, body))]
    else if kind == Command then [Packet(c, Error("FORWARD_FAILED", w))]
    else []
  }

  function Forwarded(s: State, c: Ws, w: string, kind: Kind, body: string, sent: bool): State {
    s.(sent := s.sent + Forwards(s, c, w, kind, body, sent))
  }

  /** What else a controller says: pings, and what cannot be parsed. */
  function Spoken(s: State, c: Ws, m: Message): State {
    match m
    case Ping(payload) => s.(sent := s.sent + [Packet(c, Pong(payload))])
    case Garbled(code) => s.(sent := s.sent + [Packet(c, Error(code, ""))])
    case _ => s
  }

  /** The message has to name the worker it comes from. */
  predicate Scoped(m: Message) {
    m.Versioned? || m.Status? || m.Other?
  }

  /** A message on a socket registered for `bound` that names `claimed`, if it names any. */
  function Said(s: State, ws: Ws, bound: string, claimed: string, m: Message): State {
    if Scoped(m) && claimed != bound then s.(sent := s.sent + [Packet(ws, Error("IDENTITY_MISMATCH", bound))])
    else
      match m
      case Status(status, v) =>
        s.(reg := WithStatus(s.reg, bound, status, v),
           sent := s.sent + ToSubscribers(s.reg, bound, StatusOf(bound, status, v)))
      case Versioned(v, _) =>
        var status := if bound in s.reg.states then s.reg.states[bound].status else "";
        s.(reg := WithStatus(s.reg, bound, status, Some(v)),
           sent := s.sent + ToSubscribers(s.reg, bound, FromWorker(bound, ws, m)))
      case Other(_) => s.(sent := s.sent + ToSubscribers(s.reg, bound, FromWorker(bound, ws, m)))
      case Fault(_) => s.(sent := s.sent + ToSubscribers(s.reg, bound, FromWorker(bound, ws, m)))
      case Ping(payload) => s.(sent := s.sent + [Packet(ws, Pong(payload))])
      case Ignored => s
      case Garbled(code) => s.(sent := s.sent + [Packet(ws, Error(code, bound))])
  }

  // ---- the classes --------------------------------------------------------------------------------

  class Network {
    var sent: seq<Packet>

    constructor ()
      ensures sent == []
    {
      sent := [];
    }

    method Send(to: Ws, wire: Wire)
      modifies this
      ensures sent == old(sent) + [Packet(to, wire)]
    {
      sent := sent + [Packet(to, wire)];
    }

    method SendEach(cs: seq<Ws>, wire: Wire)
      modifies this
      ensures sent == old(sent) + ToEach(cs, wire)
    {
      for i := 0 to |cs|
        invariant sent + ToEach(cs[i..], wire) == old(sent) + ToEach(cs, wire)
      {
        ghost var rest := ToEach(cs[i + 1..], wire);
        var p := Packet(cs[i], wire);
        assert cs[i..][0] == cs[i] && cs[i..][1..] == cs[i + 1..];
        assert ToEach(cs[i..], wire) == [p] + rest;
        assert sent + ([p] + rest) == (sent + [p]) + rest;
        Send(cs[i], wire);
      }
      assert cs[|cs|..] == [];
    }
  }

  class WorkerManager {
    const net: Network
    var workerConnections: map<string, Ws>
    var workerStates: map<string, WorkerState>
    var workerSubscribers: map<string, set<Ws>>
    var notices: multiset<string>

    ghost function Reg(): Registry
      reads this
    {
      Registry(workerConnections, workerStates, workerSubscribers, notices)
    }

    constructor (n: Network)
      ensures net == n && Reg() == NOBODY.reg
    {
      net, workerConnections, workerStates, workerSubscribers, notices := n, map[], map[], map[], multiset{};
    }

    method RegisterWorker(w: string, ws: Ws)
      modifies this, net
      ensures Reg() == Registered(old(Reg()), w, ws)
      ensures net.sent
           == old(net.sent) + Replacing(old(Reg()), w, ws) + ToSubscribers(Reg(), w, StatusOf(w, CONNECTED, None))
    {
      if w in workerConnections && workerConnections[w] != ws { net.Send(workerConnections[w], Closed); }
      workerConnections := workerConnections[w := ws];
      workerStates := workerStates[w := WorkerState(ws, CONNECTED, 0)];
      if w !in workerSubscribers { workerSubscribers := workerSubscribers[w := {}]; }
      assert workerSubscribers == old(workerSubscribers)[w := Subscribers(old(Reg()), w)];
      NotifySubscribersStatus(w, CONNECTED, None);
    }

    method UnregisterWorker(w: string, ws: Option<Ws>)
      modifies this, net
      ensures Reg() == Unregistered(old(Reg()), w, ws)
      ensures net.sent == old(net.sent) +
        if Holds(old(Reg()), w, ws) then ToSubscribers(Reg(), w, StatusOf(w, DISCONNECTED, None)) else []
    {
      if ws.None? || (w in workerConnections && workerConnections[w] == ws.value) {
        workerConnections := workerConnections - {w};
        if w in workerStates { workerStates := workerStates[w := workerStates[w].(status := DISCONNECTED)]; }
        NotifySubscribersStatus(w, DISCONNECTED, None);
      }
    }

    /** After the deletions a field is read that no worker manager has. */
    method ForgetWorker(w: string) returns (raised: bool)
      modifies this
      ensures Reg() == Forgotten(old(Reg()), w) && raised == (w !in old(workerConnections))
    {
      if w in workerConnections { return false; }
      if w in workerStates { workerStates := workerStates - {w}; }
      if w in workerSubscribers { workerSubscribers := workerSubscribers - {w}; }
      assert workerStates == old(workerStates) - {w} && workerSubscribers == old(workerSubscribers) - {w};
      raised := true;
    }

    method AddSubscriber(w: string, c: Ws)
      modifies this`workerSubscribers, this`notices
      ensures Reg() == Added(old(Reg()), w, c)
    {
      if w !in workerSubscribers { workerSubscribers := workerSubscribers[w := {}]; }
      workerSubscribers := workerSubscribers[w := workerSubscribers[w] + {c}];
      assert workerSubscribers == old(workerSubscribers)[w := Subscribers(old(Reg()), w) + {c}];
      notices := notices + multiset{w};
    }

    method RemoveSubscriber(w: string, c: Ws)
      modifies this`workerSubscribers, this`notices
      ensures Reg() == Removed(old(Reg()), w, c)
    {
      if w in workerSubscribers {
        workerSubscribers := workerSubscribers[w := workerSubscribers[w] - {c}];
        notices := notices + multiset{w};
      }
    }

    method RemoveSubscriberFromAll(c: Ws)
      modifies this`workerSubscribers, this`notices
      ensures Reg() == RemovedFromAll(old(Reg()), c)
    {
      var ws := Sorted(workerSubscribers.Keys);
      for i := 0 to |ws|
        invariant RemovedEach(Reg(), ws[i..], c) == RemovedFromAll(old(Reg()), c)
        invariant workerSubscribers.Keys == old(workerSubscribers).Keys
      {
        DropHead(ws, i);
        if c in workerSubscribers[ws[i]] { RemoveSubscriber(ws[i], c); }
      }
      assert ws[|ws|..] == [];
    }

    method NotifyWorkerObserverCount(w: string)
      requires w in notices
      modifies this`notices, net
      ensures Reg() == old(Reg()).(due := old(Reg()).due - multiset{w})
      ensures net.sent == old(net.sent) + if w !in workerConnections then []
        else [Packet(workerConnections[w], ObserverCount(w, |Subscribers(old(Reg()), w)|))]
    {
      notices := notices - multiset{w};
      if w !in workerConnections { return; }
      var count := if w in workerSubscribers then |workerSubscribers[w]| else 0;
      net.Send(workerConnections[w], ObserverCount(w, count));
    }

    method UpdateDomVersion(w: string, version: nat)
      modifies this`workerStates
      ensures Reg()
           == WithStatus(old(Reg()), w, if w in old(workerStates) then old(workerStates)[w].status else "",
                         Some(version))
    {
      if w in workerStates { workerStates := workerStates[w := workerStates[w].(domVersion := version)]; }
    }

    method UpdateStatus(w: string, status: string, version: Option<nat>)
      modifies this`workerStates, net
      ensures Reg() == WithStatus(old(Reg()), w, status, version)
      ensures net.sent == old(net.sent) + ToSubscribers(old(Reg()), w, StatusOf(w, status, version))
    {
      if w in workerStates {
        var s := workerStates[w].(status := status);
        if version.Some? { s := s.(domVersion := version.value); }
        workerStates := workerStates[w := s];
      }
      NotifySubscribersStatus(w, status, version);
    }

    method NotifySubscribersStatus(w: string, status: string, version: Option<nat>)
      modifies net
      ensures net.sent == old(net.sent) + ToSubscribers(Reg(), w, StatusOf(w, status, version))
    {
      if w in workerSubscribers { net.SendEach(Sorted(workerSubscribers[w]), StatusOf(w, status, version)); }
      else { assert Sorted({}) == []; }
    }
  }

  class SessionManager {
    var sessions: map<Ws, Session>

    constructor ()
      ensures sessions == map[]
    {
      sessions := map[];
    }

    method CreateSession(c: Ws, authorized: Option<set<string>>)
      modifies this
      ensures sessions == old(sessions)[c := Session(authorized, {})]
    {
      sessions := sessions[c := Session(authorized, {})];
    }

    method DestroySession(c: Ws)
      modifies this
      ensures sessions == old(sessions) - {c}
    {
      sessions := sessions - {c};
    }

    method IsAuthorized(c: Ws, w: string) returns (ok: bool)
      ensures ok == Authorized(sessions, c, w)
    {
      if c !in sessions { return false; }
      if sessions[c].authorized.None? { return true; }
      ok := w in sessions[c].authorized.value;
    }
  }

  class ControllerManager {
    const sessionMgr: SessionManager

    constructor (s: SessionManager)
      ensures sessionMgr == s
    {
      sessionMgr := s;
    }

    method RegisterController(c: Ws, wanted: set<string>, authorized: Option<set<string>>)
      modifies sessionMgr
      ensures sessionMgr.sessions == Chosen(old(sessionMgr.sessions)[c := Session(authorized, {})], c, wanted)
    {
      sessionMgr.CreateSession(c, authorized);
      if wanted != {} { var before := SetSubscriptions(c, wanted); }
      else {
        assert (set w | w in wanted && Authorized(sessionMgr.sessions, c, w)) == {};
        assert Chosen(sessionMgr.sessions, c, wanted) == sessionMgr.sessions;
      }
    }

    method SetSubscriptions(c: Ws, wanted: set<string>) returns (before: set<string>)
      modifies sessionMgr
      ensures before == Subscribed(old(sessionMgr.sessions), c)
      ensures sessionMgr.sessions == Chosen(old(sessionMgr.sessions), c, wanted)
    {
      if c !in sessionMgr.sessions { return {}; }
      before := sessionMgr.sessions[c].subscribed;
      var valid: set<string> := {};
      var todo := wanted;
      while todo != {}
        invariant todo <= wanted && unchanged(sessionMgr)
        invariant valid == set w | w in wanted - todo && Authorized(sessionMgr.sessions, c, w)
      {
        var w :| w in todo;
        var ok := sessionMgr.IsAuthorized(c, w);
        if ok { valid := valid + {w}; }
        todo := todo - {w};
      }
      assert valid == set w | w in wanted && Authorized(sessionMgr.sessions, c, w);
      sessionMgr.sessions := sessionMgr.sessions[c := sessionMgr.sessions[c].(subscribed := valid)];
    }

    method UnregisterController(c: Ws)
      modifies sessionMgr
      ensures sessionMgr.sessions == old(sessionMgr.sessions) - {c}
    {
      sessionMgr.DestroySession(c);
    }
  }

  class MessageRouter {
    const net: Network
    const workerMgr: WorkerManager
    const sessionMgr: SessionManager
    const controllerMgr: ControllerManager

    ghost predicate Valid() {
      workerMgr.net == net && controllerMgr.sessionMgr == sessionMgr
    }

    ghost function Now(): State
      reads workerMgr, sessionMgr, net
    {
      State(workerMgr.Reg(), sessionMgr.sessions, net.sent)
    }

    constructor (n: Network, w: WorkerManager, s: SessionManager, c: ControllerManager)
      requires w.net == n && c.sessionMgr == s
      ensures Valid() && net == n && workerMgr == w && sessionMgr == s && controllerMgr == c
    {
      net, workerMgr, sessionMgr, controllerMgr := n, w, s, c;
    }

    method SendStatuses(ws: seq<string>, c: Ws)
      requires Valid()
      modifies net
      ensures net.sent == old(net.sent) + Statuses(workerMgr.Reg(), ws, c)
    {
      var g := Registry(workerMgr.workerConnections, workerMgr.workerStates, workerMgr.workerSubscribers,
                        workerMgr.notices);
      for i := 0 to |ws|
        invariant net.sent + Statuses(g, ws[i..], c) == old(net.sent) + Statuses(g, ws, c)
      {
        var p := Packet(c, StatusFor(g, ws[i]));
        assert ws[i..][0] == ws[i] && ws[i..][1..] == ws[i + 1..];
        assert net.sent + ([p] + Statuses(g, ws[i + 1..], c)) == (net.sent + [p]) + Statuses(g, ws[i + 1..], c);
        net.Send(c, StatusFor(g, ws[i]));
      }
      assert ws[|ws|..] == [];
    }

    method SendVisible(c: Ws, but: set<string>)
      requires Valid()
      modifies net
      ensures net.sent
           == old(net.sent)
              + Statuses(workerMgr.Reg(), Sorted(Visible(workerMgr.Reg(), sessionMgr.sessions, c, but)), c)
    {
      var seen := set w | w in workerMgr.workerStates && w in workerMgr.workerConnections && w !in but
          && Authorized(sessionMgr.sessions, c, w);
      assert seen == Visible(workerMgr.Reg(), sessionMgr.sessions, c, but);
      SendStatuses(Sorted(seen), c);
    }

    method HandleRegister(c: Ws, wanted: set<string>)
      requires Valid()
      modifies net, workerMgr, sessionMgr
      ensures Now() == Requested(old(Now()), c, wanted)
    {
      var before := controllerMgr.SetSubscriptions(c, wanted);
      RemoveEach(Sorted(before - wanted), c);
      AddEach(Sorted(wanted - before), c);
      SendGreeting(c, wanted - before);
    }

    method SendGreeting(c: Ws, arrived: set<string>)
      requires Valid()
      modifies net
      ensures net.sent == old(net.sent) + Greeting(workerMgr.Reg(), sessionMgr.sessions, c, arrived)
    {
      SendStatuses(Sorted(arrived), c);
      SendVisible(c, arrived);
    }

    method RemoveEach(ws: seq<string>, c: Ws)
      modifies workerMgr
      ensures workerMgr.Reg() == RemovedAll(old(workerMgr.Reg()), ws, c)
    {
      for i := 0 to |ws|
        invariant RemovedAll(workerMgr.Reg(), ws[i..], c) == RemovedAll(old(workerMgr.Reg()), ws, c)
      {
        assert ws[i..][0] == ws[i] && ws[i..][1..] == ws[i + 1..];
        workerMgr.RemoveSubscriber(ws[i], c);
      }
      assert ws[|ws|..] == [];
    }

    method AddEach(ws: seq<string>, c: Ws)
      modifies workerMgr
      ensures workerMgr.Reg() == AddedAll(old(workerMgr.Reg()), ws, c)
    {
      for i := 0 to |ws|
        invariant AddedAll(workerMgr.Reg(), ws[i..], c) == AddedAll(old(workerMgr.Reg()), ws, c)
      {
        assert ws[i..][0] == ws[i] && ws[i..][1..] == ws[i + 1..];
        workerMgr.AddSubscriber(ws[i], c);
      }
      assert ws[|ws|..] == [];
    }

    method HandleForget(c: Ws, w: string)
      requires Valid()
      modifies workerMgr, sessionMgr
      ensures Now() == ForgottenBy(old(Now()), c, w)
    {
      var raised := workerMgr.ForgetWorker(w);
      if raised { ControllerDisconnected(c); }
    }

    method Refuse(c: Ws, w: string) returns (ok: bool)
      requires Valid()
      modifies net
      ensures ok == Authorized(sessionMgr.sessions, c, w)
      ensures net.sent == old(net.sent) + if ok then [] else [Packet(c, Error("UNAUTHORIZED", w))]
    {
      ok := sessionMgr.IsAuthorized(c, w);
      if !ok { net.Send(c, Error("UNAUTHORIZED", w)); }
    }

    method HandleCommand(c: Ws, w: string, body: string, sent: bool)
      requires Valid()
      modifies net
      ensures Now() == Forwarded(old(Now()), c, w, Command, body, sent)
    {
      var ok := Refuse(c, w);
      if !ok { return; }
      if w !in workerMgr.workerConnections {
        net.Send(c, Error("WORKER_NOT_CONNECTED", w));
        return;
      }
      if sent { net.Send(workerMgr.workerConnections[w], Forward(Command, w, c, body)); }
      else { net.Send(c, Error("FORWARD_FAILED", w)); }
    }

    /** Resync requests, throttle profiles and browser configurations. */
    method HandleRequest(c: Ws, w: string, kind: Kind, body: string, sent: bool)
      requires Valid() && kind != Command
      modifies net
      ensures Now() == Forwarded(old(Now()), c, w, kind, body, sent)
    {
      var ok := Refuse(c, w);
      if !ok { return; }
      if w !in workerMgr.workerConnections {
        if kind != Throttle { net.Send(c, Error("WORKER_NOT_CONNECTED", w)); }
      } else if sent {
        net.Send(workerMgr.workerConnections[w], Forward(kind, w, c, body));
      }
    }

    method HandleOther(c: Ws, m: Message)
      requires Valid()
      modifies net
      ensures Now() == Spoken(old(Now()), c, m)
    {
      match m {
      case Ping(payload) => net.Send(c, Pong(payload));
      case Garbled(code) => net.Send(c, Error(code, ""));
      case _ =>
      }
    }

    method HandleWorkerMessage(ws: Ws, bound: string, claimed: string, m: Message)
      requires Valid()
      modifies net, workerMgr
      ensures Now() == Said(old(Now()), ws, bound, claimed, m)
    {
      if m.Garbled? {
        net.Send(ws, Error(m.code, bound));
        return;
      }
      if Scoped(m) && claimed != bound {
        net.Send(ws, Error("IDENTITY_MISMATCH", bound));
        return;
      }
      match m {
      case Status(status, v) => workerMgr.UpdateStatus(bound, status, v);
      case Versioned(v, _) =>
        workerMgr.UpdateDomVersion(bound, v);
        BroadcastToSubscribers(bound, FromWorker(bound, ws, m));
      case Other(_) => BroadcastToSubscribers(bound, FromWorker(bound, ws, m));
      case Fault(_) => BroadcastToSubscribers(bound, FromWorker(bound, ws, m));
      case Ping(payload) => net.Send(ws, Pong(payload));
      case Ignored =>
      }
    }

    method BroadcastToSubscribers(w: string, wire: Wire)
      requires Valid()
      modifies net
      ensures net.sent == old(net.sent) + ToSubscribers(workerMgr.Reg(), w, wire)
    {
      if w in workerMgr.workerSubscribers { net.SendEach(Sorted(workerMgr.workerSubscribers[w]), wire); }
      else { assert Sorted({}) == []; }
    }

    /** From connection to the message loop (server/websocket_manager.py), as one action. */
    method ControllerConnected(c: Ws, first: Option<string>, authorized: Option<set<string>>)
      requires Valid()
      modifies net, workerMgr, sessionMgr
      ensures Now() == ControllerJoined(old(Now()), c, first, authorized)
    {
      var wanted := if first.Some? then {first.value} else {};
      controllerMgr.RegisterController(c, wanted, authorized);
      SendVisible(c, wanted);
      if first.Some? {
        workerMgr.AddSubscriber(first.value, c);
        var g := Registry(workerMgr.workerConnections, workerMgr.workerStates, workerMgr.workerSubscribers,
                          workerMgr.notices);
        net.Send(c, StatusFor(g, first.value));
      }
    }

    method ControllerDisconnected(c: Ws)
      requires Valid()
      modifies workerMgr, sessionMgr
      ensures Now() == ControllerLeft(old(Now()), c)
    {
      controllerMgr.UnregisterController(c);
      workerMgr.RemoveSubscriberFromAll(c);
    }
  }
}
