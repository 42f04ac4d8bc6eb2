/** The relay over whole histories: who is connected, who gets what, and whether the
    three maps agree. */
module RelayProof {
  import opened Strings
  import opened Relay

  datatype Event =
    | Join(w: string, ws: Ws)
    | Leave(w: string, ws: Ws)
    | Forget(c: Ws, w: string)
    | Open(c: Ws, first: Option<string>, authorized: Option<set<string>>)
    | Ask(c: Ws, wanted: set<string>)
    | Close(c: Ws)
    | Order(c: Ws, w: string, kind: Kind, body: string, sent: bool)
    | Speak(c: Ws, said: Message)
    | Notice(w: string)
    | Say(ws: Ws, claimed: string, m: Message)

  /** The worker a socket was registered for; its connection handler remembers it. */
  function Bound(h: seq<Event>): map<Ws, string> {
    if h == [] then map[]
    else
      var b := Bound(h[..|h| - 1]);
      var e := h[|h| - 1];
      if e.Join? then b[e.ws := e.w] else b
  }

  function Step(s: State, bound: map<Ws, string>, e: Event): State {
    match e
    case Join(w, ws) => WorkerJoined(s, w, ws)
    case Leave(w, ws) => WorkerLeft(s, w, Some(ws))
    case Forget(c, w) => ForgottenBy(s, c, w)
    case Open(c, first, authorized) => ControllerJoined(s, c, first, authorized)
    case Ask(c, wanted) => Requested(s, c, wanted)
    case Close(c) => ControllerLeft(s, c)
    case Order(c, w, kind, body, sent) => Forwarded(s, c, w, kind, body, sent)
    case Speak(c, m) => Spoken(s, c, m)
    case Notice(w) => Noticed(s, w)
    case Say(ws, claimed, m) => if ws in bound then Said(s, ws, bound[ws], claimed, m) else s
  }

  function Run(h: seq<Event>): State {
    if h == [] then NOBODY else Step(Run(h[..|h| - 1]), Bound(h[..|h| - 1]), h[|h| - 1])
  }

  // ---- who is connected -------------------------------------------------------------------------

  predicate Ends(e: Event, w: string, ws: Ws) {
    (e.Join? && e.w == w) || e == Leave(w, ws)
  }

  /** The k-th event registered `ws` for `w`; since then `w` was not registered again, and
      `ws` itself was not unregistered. */
  predicate Holding(h: seq<Event>, w: string, ws: Ws, k: nat) {
    k < |h| && h[k] == Join(w, ws) && forall j | k < j < |h| :: !Ends(h[j], w, ws)
  }

  predicate Current(s: State, w: string, ws: Ws) {
    w in s.reg.conns && s.reg.conns[w] == ws
  }

  lemma {:induction false} AddedAllConns(g: Registry, ws: seq<string>, c: Ws)
    ensures AddedAll(g, ws, c).conns == g.conns && AddedAll(g, ws, c).states == g.states
    ensures RemovedAll(g, ws, c).conns == g.conns && RemovedAll(g, ws, c).states == g.states
    decreases |ws|
  {
    if ws != [] {
      AddedAllConns(Added(g, ws[0], c), ws[1..], c);
      AddedAllConns(Removed(g, ws[0], c), ws[1..], c);
    }
  }

  lemma {:induction false} RemovedEachConns(g: Registry, ws: seq<string>, c: Ws)
    ensures RemovedEach(g, ws, c).conns == g.conns && RemovedEach(g, ws, c).states == g.states
    decreases |ws|
  {
    if ws != [] { RemovedEachConns(if c in Subscribers(g, ws[0]) then Removed(g, ws[0], c) else g, ws[1..], c); }
  }

  lemma LeftConns(g: Registry, c: Ws)
    ensures RemovedFromAll(g, c).conns == g.conns && RemovedFromAll(g, c).states == g.states
  {
    RemovedEachConns(g, Sorted(g.subs.Keys), c);
  }

  lemma AskConns(s: State, c: Ws, wanted: set<string>)
    ensures Requested(s, c, wanted).reg.conns == s.reg.conns && Requested(s, c, wanted).reg.states == s.reg.states
  {
    var before := Subscribed(s.sessions, c);
    AddedAllConns(s.reg, Sorted(before - wanted), c);
    AddedAllConns(RemovedAll(s.reg, Sorted(before - wanted), c), Sorted(wanted - before), c);
  }

  lemma StepCurrent(s: State, bound: map<Ws, string>, e: Event, w: string, ws: Ws)
    ensures Current(Step(s, bound, e), w, ws) <==> e == Join(w, ws) || (Current(s, w, ws) && !Ends(e, w, ws))
  {
    if e.Ask? {
      AskConns(s, e.c, e.wanted);
    } else if e.Close? {
      LeftConns(s.reg, e.c);
    } else if e.Forget? {
      LeftConns(Forgotten(s.reg, e.w), e.c);
    }
  }

  lemma HoldingStep(h: seq<Event>, e: Event, w: string, ws: Ws)
    ensures (exists k: nat :: Holding(h + [e], w, ws, k)) <==>
      e == Join(w, ws) || (!Ends(e, w, ws) && exists k: nat :: Holding(h, w, ws, k))
  {
    if e == Join(w, ws) {
      assert Holding(h + [e], w, ws, |h|);
    } else if k: nat :| Holding(h, w, ws, k) {
      if !Ends(e, w, ws) { assert Holding(h + [e], w, ws, k); }
    }
    if k: nat :| Holding(h + [e], w, ws, k) {
      if k < |h| {
        assert (h + [e])[|h|] == e;
        forall j | k < j < |h| ensures !Ends(h[j], w, ws) { assert (h + [e])[j] == h[j]; }
        assert Holding(h, w, ws, k);
      }
    }
  }

  /** A worker is connected through a socket exactly when that is its latest registered
      socket and it has not itself been unregistered: the late cleanup of a replaced
      socket, and whatever happens to other workers, makes no difference. */
  lemma {:induction false} Registration(h: seq<Event>, w: string, ws: Ws)
    ensures Current(Run(h), w, ws) <==> exists k: nat :: Holding(h, w, ws, k)
  {
    if h != [] {
      var h0, e := h[..|h| - 1], h[|h| - 1];
      Registration(h0, w, ws);
      StepCurrent(Run(h0), Bound(h0), e, w, ws);
      HoldingStep(h0, e, w, ws);
      assert h == h0 + [e];
    }
  }

  // ---- the subscriber sets and the sessions --------------------------------------------------------

  /** Requests stay inside what the session may see, and come from live sessions; a socket
      is opened once and registered for one worker only. */
  predicate Fair(s: State, bound: map<Ws, string>, e: Event) {
    match e
    case Join(w, ws) => ws in bound ==> bound[ws] == w
    case Open(c, first, authorized) =>
      c !in s.sessions && (first.Some? && authorized.Some? ==> first.value in authorized.value)
    case Ask(c, wanted) => c in s.sessions && forall w :: w in wanted ==> Authorized(s.sessions, c, w)
    case _ => true
  }

  predicate FairRun(h: seq<Event>) {
    h != [] ==> FairRun(h[..|h| - 1]) && Fair(Run(h[..|h| - 1]), Bound(h[..|h| - 1]), h[|h| - 1])
  }

  predicate Listed(s: State, c: Ws, w: string) {
    c in Subscribers(s.reg, w)
  }

  predicate Wants(s: State, c: Ws, w: string) {
    w in Subscribed(s.sessions, c)
  }

  ghost predicate Forward(s: State) {
    forall c, w :: Listed(s, c, w) ==> Wants(s, c, w)
  }

  ghost predicate Agreement(s: State) {
    forall c, w :: Listed(s, c, w) <==> Wants(s, c, w)
  }

  ghost predicate Entitled(s: State) {
    forall c, w :: Wants(s, c, w) ==> Authorized(s.sessions, c, w)
  }

  predicate In(g: Registry, c: Ws, w: string) {
    c in Subscribers(g, w)
  }

  lemma {:induction false} AddedAllIn(g: Registry, ws: seq<string>, c: Ws, c': Ws, w: string)
    ensures In(AddedAll(g, ws, c), c', w) <==> In(g, c', w) || (c' == c && w in ws)
    decreases |ws|
  {
    if ws != [] { AddedAllIn(Added(g, ws[0], c), ws[1..], c, c', w); }
  }

  lemma {:induction false} RemovedAllIn(g: Registry, ws: seq<string>, c: Ws, c': Ws, w: string)
    ensures In(RemovedAll(g, ws, c), c', w) <==> In(g, c', w) && !(c' == c && w in ws)
    decreases |ws|
  {
    if ws != [] { RemovedAllIn(Removed(g, ws[0], c), ws[1..], c, c', w); }
  }

  lemma {:induction false} RemovedEachIn(g: Registry, ws: seq<string>, c: Ws, c': Ws, w: string)
    ensures In(RemovedEach(g, ws, c), c', w) <==> In(g, c', w) && !(c' == c && w in ws)
    decreases |ws|
  {
    if ws != [] {
      RemovedEachIn(if c in Subscribers(g, ws[0]) then Removed(g, ws[0], c) else g, ws[1..], c, c', w);
    }
  }

  /** A controller that leaves is in no subscriber set any more. */
  lemma LeftIn(g: Registry, c: Ws, c': Ws, w: string)
    ensures In(RemovedFromAll(g, c), c', w) <==> In(g, c', w) && c' != c
  {
    RemovedEachIn(g, Sorted(g.subs.Keys), c, c', w);
  }

  /** What one event does to the two sides of one pair. */
  lemma AskPair(s: State, c: Ws, wanted: set<string>, c': Ws, w: string)
    ensures var s1 := Requested(s, c, wanted);
            && (c' != c ==> (Listed(s1, c', w) <==> Listed(s, c', w)) && (Wants(s1, c', w) <==> Wants(s, c', w)))
            && (Listed(s1, c, w) <==>
                (Listed(s, c, w) && !(Wants(s, c, w) && w !in wanted)) || (w in wanted && !Wants(s, c, w)))
            && (Wants(s1, c, w) <==> w in wanted && Authorized(s.sessions, c, w))
  {
    var before := Subscribed(s.sessions, c);
    var g := RemovedAll(s.reg, Sorted(before - wanted), c);
    RemovedAllIn(s.reg, Sorted(before - wanted), c, c', w);
    AddedAllIn(g, Sorted(wanted - before), c, c', w);
    RemovedAllIn(s.reg, Sorted(before - wanted), c, c, w);
    AddedAllIn(g, Sorted(wanted - before), c, c, w);
  }

  lemma OpenPair(s: State, e: Event, c': Ws, w: string)
    requires e.Open?
    ensures var s1 := ControllerJoined(s, e.c, e.first, e.authorized);
            && (c' != e.c ==> (Listed(s1, c', w) <==> Listed(s, c', w)) && (Wants(s1, c', w) <==> Wants(s, c', w)))
            && (Listed(s1, e.c, w) <==> Listed(s, e.c, w) || e.first == Some(w))
            && (Wants(s1, e.c, w) <==> e.first == Some(w) && (e.authorized.Some? ==> w in e.authorized.value))
  {
  }

  predicate Leaves(s: State, e: Event, c: Ws) {
    (e.Close? && e.c == c) || (e.Forget? && e.c == c && e.w !in s.reg.conns)
  }

  predicate Parting(e: Event) {
    e.Close? || e.Forget?
  }

  lemma PartPair(s: State, e: Event, c: Ws, w: string)
    requires Parting(e)
    ensures var s1 := Step(s, map[], e);
            && (Wants(s1, c, w) <==> Wants(s, c, w) && !Leaves(s, e, c))
            && (Listed(s1, c, w) <==>
                Listed(s, c, w) && !Leaves(s, e, c) && !(e.Forget? && e.w == w && w !in s.reg.conns))
  {
    LeftIn(if e.Close? then s.reg else Forgotten(s.reg, e.w), e.c, c, w);
  }

  lemma StillPair(s: State, bound: map<Ws, string>, e: Event, w: string)
    requires !e.Ask? && !e.Open? && !Parting(e)
    ensures var s1 := Step(s, bound, e);
            s1.sessions == s.sessions && Subscribers(s1.reg, w) == Subscribers(s.reg, w)
    ensures e != Notice(w) ==> (w in s.reg.due <==> w in Step(s, bound, e).reg.due)
  {
  }

  lemma QuietPair(s: State, bound: map<Ws, string>, e: Event, c: Ws, w: string)
    requires !e.Ask? && !e.Open?
    ensures var s1 := Step(s, bound, e);
            && (Wants(s1, c, w) <==> Wants(s, c, w) && !Leaves(s, e, c))
            && (Listed(s1, c, w) <==>
                Listed(s, c, w) && !Leaves(s, e, c) && !(e.Forget? && e.w == w && w !in s.reg.conns))
  {
    if Parting(e) {
      PartPair(s, e, c, w);
      assert Step(s, bound, e) == Step(s, map[], e);
    } else {
      StillPair(s, bound, e, w);
    }
  }

  lemma EntitledStep(s: State, bound: map<Ws, string>, e: Event)
    requires Entitled(s)
    ensures Entitled(Step(s, bound, e))
  {
    var s1 := Step(s, bound, e);
    forall c, w | Wants(s1, c, w) ensures Authorized(s1.sessions, c, w) {
      if e.Ask? { AskPair(s, e.c, e.wanted, c, w); }
      else if e.Open? { OpenPair(s, e, c, w); }
      else { QuietPair(s, bound, e, c, w); }
    }
  }

  lemma ForwardStep(s: State, bound: map<Ws, string>, e: Event)
    requires Forward(s) && Fair(s, bound, e)
    ensures Forward(Step(s, bound, e))
  {
    forall c, w | Listed(Step(s, bound, e), c, w) ensures Wants(Step(s, bound, e), c, w) {
      assert Listed(s, c, w) ==> Wants(s, c, w);
      if e.Ask? { AskPair(s, e.c, e.wanted, c, w); }
      else if e.Open? { OpenPair(s, e, c, w); }
      else { QuietPair(s, bound, e, c, w); }
    }
  }

  lemma AgreementStep(s: State, bound: map<Ws, string>, e: Event)
    requires Agreement(s) && Fair(s, bound, e) && !e.Forget?
    ensures Agreement(Step(s, bound, e))
  {
    forall c, w ensures Listed(Step(s, bound, e), c, w) <==> Wants(Step(s, bound, e), c, w) {
      assert Listed(s, c, w) <==> Wants(s, c, w);
      if e.Ask? { AskPair(s, e.c, e.wanted, c, w); }
      else if e.Open? { OpenPair(s, e, c, w); }
      else { QuietPair(s, bound, e, c, w); }
    }
  }

  /** In every reachable state, forgetting included, whoever is in a subscriber set has a
      live session that asked for that worker and may see it. */
  lemma {:induction false} ForwardAlways(h: seq<Event>)
    requires FairRun(h)
    ensures Forward(Run(h)) && Entitled(Run(h))
  {
    if h != [] {
      var h0, e := h[..|h| - 1], h[|h| - 1];
      ForwardAlways(h0);
      ForwardStep(Run(h0), Bound(h0), e);
      EntitledStep(Run(h0), Bound(h0), e);
    }
  }

  /** As long as no worker is forgotten, the subscriber sets and the sessions agree. */
  lemma {:induction false} AgreementAlways(h: seq<Event>)
    requires FairRun(h) && forall e :: e in h ==> !e.Forget?
    ensures Agreement(Run(h))
  {
    if h != [] {
      var h0, e := h[..|h| - 1], h[|h| - 1];
      assert e in h && forall e' :: e' in h0 ==> e' in h;
      AgreementAlways(h0);
      AgreementStep(Run(h0), Bound(h0), e);
    }
  }

  // ---- exactly when they agree -------------------------------------------------------------------

  /** A request keeps the agreement if and only if all of it is authorised. */
  lemma AskIff(s: State, c: Ws, wanted: set<string>)
    requires Agreement(s) && Entitled(s)
    ensures Agreement(Requested(s, c, wanted)) <==> forall w :: w in wanted ==> Authorized(s.sessions, c, w)
  {
    var s1 := Requested(s, c, wanted);
    if w :| w in wanted && !Authorized(s.sessions, c, w) {
      assert !Wants(s, c, w);
      AskPair(s, c, wanted, c, w);
      assert Listed(s1, c, w) && !Wants(s1, c, w);
    } else {
      forall c', w ensures Listed(s1, c', w) <==> Wants(s1, c', w) {
        assert Listed(s, c', w) <==> Wants(s, c', w);
        AskPair(s, c, wanted, c', w);
      }
    }
  }

  /** So does a new connection, if and only if the worker in its address is authorised. */
  lemma OpenIff(s: State, c: Ws, first: Option<string>, authorized: Option<set<string>>)
    requires Agreement(s) && c !in s.sessions
    ensures Agreement(ControllerJoined(s, c, first, authorized)) <==>
      (first.Some? && authorized.Some? ==> first.value in authorized.value)
  {
    var s1, e := ControllerJoined(s, c, first, authorized), Open(c, first, authorized);
    if first.Some? && authorized.Some? && first.value !in authorized.value {
      OpenPair(s, e, c, first.value);
      assert Listed(s1, c, first.value) && !Wants(s1, c, first.value);
    } else {
      forall c', w ensures Listed(s1, c', w) <==> Wants(s1, c', w) {
        assert Listed(s, c', w) <==> Wants(s, c', w);
        OpenPair(s, e, c', w);
      }
    }
  }

  /** Forgetting a worker keeps it if and only if the worker is still connected, when
      nothing happens, or has no subscriber but the one that asks, whose connection ends. */
  lemma ForgetIff(s: State, c: Ws, w: string)
    requires Agreement(s)
    ensures Agreement(ForgottenBy(s, c, w)) <==> w in s.reg.conns || Subscribers(s.reg, w) <= {c}
  {
    var s1, e := ForgottenBy(s, c, w), Forget(c, w);
    forall c', v ensures
      && (Wants(s1, c', v) <==> Wants(s, c', v) && !Leaves(s, e, c'))
      && (Listed(s1, c', v) <==> Listed(s, c', v) && !Leaves(s, e, c') && !(v == w && w !in s.reg.conns))
    {
      QuietPair(s, map[], e, c', v);
    }
    if w !in s.reg.conns && !(Subscribers(s.reg, w) <= {c}) {
      var c' :| c' in Subscribers(s.reg, w) && c' != c;
      assert Listed(s, c', w) && Wants(s1, c', w) && !Listed(s1, c', w);
    }
  }

  /** And a session that lost its place that way does not get it back by asking again. */
  lemma AskingAgain(s: State, c: Ws, wanted: set<string>, w: string)
    requires Wants(s, c, w) && !Listed(s, c, w) && w in wanted
    ensures !Listed(Requested(s, c, wanted), c, w)
  {
    AskPair(s, c, wanted, c, w);
  }

  // ---- who gets what ---------------------------------------------------------------------------------

  ghost predicate SocketsBound(s: State, bound: map<Ws, string>) {
    forall w :: w in s.reg.conns ==> s.reg.conns[w] in bound && bound[s.reg.conns[w]] == w
  }

  /** The order is refused with this code. */
  predicate Refused(s: State, e: Event, code: string)
    requires e.Order?
  {
    var may, there := Authorized(s.sessions, e.c, e.w), e.w in s.reg.conns;
    || (code == "UNAUTHORIZED" && !may)
    || (code == "WORKER_NOT_CONNECTED" && may && !there && e.kind != Throttle)
    || (code == "FORWARD_FAILED" && may && there && !e.sent && e.kind == Command)
  }

  /** Why a packet was sent, in terms of the state before the event and the event. */
  predicate Justified(s: State, bound: map<Ws, string>, e: Event, p: Packet) {
    match p.wire
    case FromWorker(w, via, m) =>
      && e.Say? && e.ws == via && e.m == m && (Scoped(m) ==> e.claimed == w)
      && via in bound && bound[via] == w && Wants(s, p.to, w)
    case Forward(kind, w, via, body) =>
      && e == Order(via, w, kind, body, true) && Authorized(s.sessions, via, w)
      && Current(s, w, p.to) && p.to in bound && bound[p.to] == w
    case StatusOf(w, _, _) => Authorized(Step(s, bound, e).sessions, p.to, w)
    case ObserverCount(w, count) =>
      && e == Notice(w) && count == |Subscribers(s.reg, w)| && Current(s, w, p.to)
      && p.to in bound && bound[p.to] == w
    case Closed => e.Join? && Current(s, e.w, p.to) && p.to != e.ws
    case Pong(payload) => (e.Say? && e.ws == p.to && e.m == Ping(payload)) || e == Speak(p.to, Ping(payload))
    case Error(code, w) =>
      || (e.Order? && e.c == p.to && e.w == w && Refused(s, e, code))
      || (e.Say? && e.ws == p.to && p.to in bound && bound[p.to] == w
          && (e.m == Garbled(code) || (code == "IDENTITY_MISMATCH" && Scoped(e.m) && e.claimed != w)))
      || (e == Speak(p.to, Garbled(code)) && w == "")
  }

  function Sends(s: State, bound: map<Ws, string>, e: Event): seq<Packet> {
    var s1 := Step(s, bound, e);
    if |s.sent| <= |s1.sent| then s1.sent[|s.sent|..] else []
  }

  lemma {:induction false} StatusesOnly(g: Registry, ws: seq<string>, c: Ws)
    ensures forall p :: p in Statuses(g, ws, c) ==> p.to == c && p.wire.StatusOf? && p.wire.worker in ws
  {
    if ws != [] { StatusesOnly(g, ws[1..], c); }
  }

  lemma Subscribing(s: State, w: string)
    requires Forward(s) && Entitled(s)
    ensures forall c :: c in Sorted(Subscribers(s.reg, w)) ==> Wants(s, c, w) && Authorized(s.sessions, c, w)
  {
    forall c | c in Subscribers(s.reg, w) ensures Wants(s, c, w) && Authorized(s.sessions, c, w) {
      assert Listed(s, c, w);
    }
  }

  /** What a new connection is sent. */
  lemma OpenSends(
    s: State, c: Ws, first: Option<string>, authorized: Option<set<string>>)
    returns (sessions: map<Ws, Session>, seen: seq<string>)
    ensures sessions == ControllerJoined(s, c, first, authorized).sessions
    ensures forall i, j :: 0 <= i < j < |seen| ==> seen[i] != seen[j]
    ensures forall w :: w in seen <==>
      w in s.reg.states && w in s.reg.conns && first != Some(w) && Authorized(sessions, c, w)
    ensures forall w :: Authorized(sessions, c, w) <==> authorized.None? || w in authorized.value
    ensures ControllerJoined(s, c, first, authorized).sent == s.sent + (Statuses(s.reg, seen, c) +
      if first.None? then [] else [Packet(c, StatusFor(Added(s.reg, first.value, c), first.value))])
  {
    var wanted := if first.Some? then {first.value} else {};
    sessions := Chosen(s.sessions[c := Session(authorized, {})], c, wanted);
    seen := Sorted(Visible(s.reg, sessions, c, wanted));
    SortedApart(Visible(s.reg, sessions, c, wanted));
    var others := Statuses(s.reg, seen, c);
    if first.None? { assert others + [] == others; }
    else { assert s.sent + others + [Packet(c, StatusFor(Added(s.reg, first.value, c), first.value))]
             == s.sent + (others + [Packet(c, StatusFor(Added(s.reg, first.value, c), first.value))]); }
  }

  lemma OpenPackets(
    s: State, c: Ws, first: Option<string>, authorized: Option<set<string>>) returns (greeting: seq<Packet>)
    requires first.Some? && authorized.Some? ==> first.value in authorized.value
    ensures var s1 := ControllerJoined(s, c, first, authorized);
            && s1.sent == s.sent + greeting
            && forall p :: p in greeting ==> p.to == c && p.wire.StatusOf? && Authorized(s1.sessions, c, p.wire.worker)
  {
    var sessions, seen := OpenSends(s, c, first, authorized);
    StatusesOnly(s.reg, seen, c);
    var last := if first.None? then [] else [Packet(c, StatusFor(Added(s.reg, first.value, c), first.value))];
    greeting := Statuses(s.reg, seen, c) + last;
  }

  lemma OpenJustified(s: State, bound: map<Ws, string>, e: Event)
    requires e.Open? && Fair(s, bound, e)
    ensures s.sent <= Step(s, bound, e).sent
    ensures forall p :: p in Sends(s, bound, e) ==> Justified(s, bound, e, p)
  {
    var s1 := ControllerJoined(s, e.c, e.first, e.authorized);
    var greeting := OpenPackets(s, e.c, e.first, e.authorized);
    assert Step(s, bound, e) == s1;
    assert s1.sent[|s.sent|..] == greeting;
    assert Sends(s, bound, e) == greeting;
  }

  lemma AskJustified(s: State, bound: map<Ws, string>, e: Event)
    requires e.Ask? && Fair(s, bound, e)
    ensures s.sent <= Step(s, bound, e).sent
    ensures forall p :: p in Sends(s, bound, e) ==> Justified(s, bound, e, p)
  {
    var before := Subscribed(s.sessions, e.c);
    var s1 := Requested(s, e.c, e.wanted);
    var seen := Sorted(Visible(s1.reg, s1.sessions, e.c, e.wanted - before));
    StatusesOnly(s1.reg, Sorted(e.wanted - before), e.c);
    StatusesOnly(s1.reg, seen, e.c);
    assert Sends(s, bound, e) == Statuses(s1.reg, Sorted(e.wanted - before), e.c) + Statuses(s1.reg, seen, e.c);
  }

  lemma SayJustified(s: State, bound: map<Ws, string>, e: Event)
    requires e.Say? && Forward(s) && Entitled(s)
    ensures s.sent <= Step(s, bound, e).sent
    ensures forall p :: p in Sends(s, bound, e) ==> Justified(s, bound, e, p)
  {
    if e.ws in bound { Subscribing(s, bound[e.ws]); }
  }

  lemma JoinJustified(s: State, bound: map<Ws, string>, e: Event)
    requires (e.Join? || e.Leave?) && Forward(s) && Entitled(s)
    ensures s.sent <= Step(s, bound, e).sent
    ensures forall p :: p in Sends(s, bound, e) ==> Justified(s, bound, e, p)
  {
    Subscribing(s, e.w);
    if e.Join? {
      var g := Registered(s.reg, e.w, e.ws);
      assert Subscribers(g, e.w) == Subscribers(s.reg, e.w);
      assert Sends(s, bound, e)
          == Replacing(s.reg, e.w, e.ws) + ToSubscribers(g, e.w, StatusOf(e.w, CONNECTED, None));
    }
  }

  lemma OrderJustified(s: State, bound: map<Ws, string>, e: Event)
    requires (e.Order? || e.Speak? || e.Notice?) && SocketsBound(s, bound)
    ensures s.sent <= Step(s, bound, e).sent
    ensures forall p :: p in Sends(s, bound, e) ==> Justified(s, bound, e, p)
  {
    if e.Order? { assert Sends(s, bound, e) == Forwards(s, e.c, e.w, e.kind, e.body, e.sent); }
  }

  lemma EventJustified(s: State, bound: map<Ws, string>, e: Event)
    requires Forward(s) && Entitled(s) && SocketsBound(s, bound) && Fair(s, bound, e)
    ensures s.sent <= Step(s, bound, e).sent
    ensures forall p :: p in Sends(s, bound, e) ==> Justified(s, bound, e, p)
  {
    match e
    case Join(_, _) => JoinJustified(s, bound, e);
    case Leave(_, _) => JoinJustified(s, bound, e);
    case Open(_, _, _) => OpenJustified(s, bound, e);
    case Ask(_, _) => AskJustified(s, bound, e);
    case Say(_, _, _) => SayJustified(s, bound, e);
    case Order(_, _, _, _, _) => OrderJustified(s, bound, e);
    case Speak(_, _) => OrderJustified(s, bound, e);
    case Notice(_) => OrderJustified(s, bound, e);
    case _ =>
  }

  lemma {:induction false} BoundAlways(h: seq<Event>)
    requires FairRun(h)
    ensures SocketsBound(Run(h), Bound(h))
  {
    if h != [] {
      var h0, e := h[..|h| - 1], h[|h| - 1];
      BoundAlways(h0);
      forall w | w in Run(h).reg.conns
        ensures Run(h).reg.conns[w] in Bound(h) && Bound(h)[Run(h).reg.conns[w]] == w
      {
        StepCurrent(Run(h0), Bound(h0), e, w, Run(h).reg.conns[w]);
      }
    }
  }

  /** Routing isolation over whole histories: every packet ever sent was justified by the
      event that sent it. A page, an update or a result reaches only controllers
      subscribed to that worker at that time, from a socket registered for that worker; a
      command reaches only the current socket of the worker it names. */
  lemma {:induction false} Isolation(h: seq<Event>, p: Packet) returns (k: nat)
    requires FairRun(h) && p in Run(h).sent
    ensures k < |h| && Justified(Run(h[..k]), Bound(h[..k]), h[k], p)
  {
    var h0, e := h[..|h| - 1], h[|h| - 1];
    ForwardAlways(h0);
    BoundAlways(h0);
    EventJustified(Run(h0), Bound(h0), e);
    if p in Run(h0).sent {
      k := Isolation(h0, p);
      assert h0[..k] == h[..k];
    } else {
      k := |h| - 1;
      var s, s1 := Run(h0), Run(h);
      assert s1.sent == s.sent + s1.sent[|s.sent|..];
    }
  }

  lemma {:induction false} ToEachAll(cs: seq<Ws>, wire: Wire, c: Ws)
    ensures Packet(c, wire) in ToEach(cs, wire) <==> c in cs
  {
    if cs != [] { ToEachAll(cs[1..], wire, c); }
  }

  /** And nobody is left out: while the maps agree, what a registered worker says, other
      than a status, goes to exactly the controllers that want it. */
  lemma Delivery(s: State, bound: map<Ws, string>, ws: Ws, m: Message, c: Ws)
    requires Agreement(s) && ws in bound && (m.Versioned? || m.Other? || m.Fault?)
    ensures Packet(c, FromWorker(bound[ws], ws, m)) in Sends(s, bound, Say(ws, bound[ws], m))
      <==> Wants(s, c, bound[ws])
  {
    var w := bound[ws];
    ToEachAll(Sorted(Subscribers(s.reg, w)), FromWorker(w, ws, m), c);
    assert Listed(s, c, w) <==> Wants(s, c, w);
    assert Sends(s, bound, Say(ws, w, m)) == ToSubscribers(s.reg, w, FromWorker(w, ws, m));
  }

  // ---- how many are watching ---------------------------------------------------------------------------

  /** The number of observers a worker was last told on its present registration. */
  function Told(h: seq<Event>, w: string): Option<nat> {
    if h == [] then None
    else
      var h0, e := h[..|h| - 1], h[|h| - 1];
      var s := Run(h0);
      if e.Join? && e.w == w then None
      else if e == Notice(w) && w in s.reg.due && w in s.reg.conns then Some(|Subscribers(s.reg, w)|)
      else Told(h0, w)
  }

  /** The subscribers of `w` are the same, or a task is due that tells it. */
  predicate Tells(g: Registry, g': Registry, w: string) {
    (w in g.due ==> w in g'.due) && (Subscribers(g', w) == Subscribers(g, w) || w in g'.due)
  }

  lemma {:induction false} AddedAllTells(g: Registry, ws: seq<string>, c: Ws, w: string)
    ensures Tells(g, AddedAll(g, ws, c), w) && Tells(g, RemovedAll(g, ws, c), w)
    decreases |ws|
  {
    if ws != [] {
      AddedAllTells(Added(g, ws[0], c), ws[1..], c, w);
      AddedAllTells(Removed(g, ws[0], c), ws[1..], c, w);
    }
  }

  lemma {:induction false} RemovedEachTells(g: Registry, ws: seq<string>, c: Ws, w: string)
    ensures Tells(g, RemovedEach(g, ws, c), w)
    decreases |ws|
  {
    if ws != [] { RemovedEachTells(if c in Subscribers(g, ws[0]) then Removed(g, ws[0], c) else g, ws[1..], c, w); }
  }

  lemma AskTells(s: State, c: Ws, wanted: set<string>, w: string)
    ensures Tells(s.reg, Requested(s, c, wanted).reg, w)
  {
    var before := Subscribed(s.sessions, c);
    AddedAllTells(s.reg, Sorted(before - wanted), c, w);
    AddedAllTells(RemovedAll(s.reg, Sorted(before - wanted), c), Sorted(wanted - before), c, w);
  }

  lemma LeftTells(s: State, e: Event, w: string)
    requires (e.Close? || e.Forget?) && w in s.reg.conns
    ensures Tells(s.reg, Step(s, map[], e).reg, w)
  {
    if e.Close? {
      RemovedEachTells(s.reg, Sorted(s.reg.subs.Keys), e.c, w);
    } else {
      var g := Forgotten(s.reg, e.w);
      RemovedEachTells(g, Sorted(g.subs.Keys), e.c, w);
    }
  }

  lemma StepTells(s: State, bound: map<Ws, string>, e: Event, w: string)
    requires w in s.reg.conns && e != Notice(w) && !(e.Join? && e.w == w)
    ensures Tells(s.reg, Step(s, bound, e).reg, w)
  {
    if e.Ask? { AskTells(s, e.c, e.wanted, w); }
    else if Parting(e) { LeftTells(s, e, w); assert Step(s, bound, e) == Step(s, map[], e); }
    else if !e.Open? { StillPair(s, bound, e, w); }
  }

  /** Observer counts settle: once no task is due, what a connected worker was last told, if
      anything, is the number of controllers subscribed to it. */
  lemma {:induction false} CountSettles(h: seq<Event>, w: string)
    requires w in Run(h).reg.conns && Told(h, w).Some? && w !in Run(h).reg.due
    ensures Told(h, w).value == |Subscribers(Run(h).reg, w)|
  {
    var h0, e := h[..|h| - 1], h[|h| - 1];
    var s := Run(h0);
    if e != Notice(w) {
      StepCurrent(s, Bound(h0), e, w, Run(h).reg.conns[w]);
      StepTells(s, Bound(h0), e, w);
      CountSettles(h0, w);
    } else if w !in s.reg.due {
      CountSettles(h0, w);
    }
  }

  /** A worker that registers when controllers are subscribed already is not told. */
  lemma JoinUntold(h: seq<Event>, w: string, ws: Ws)
    ensures Told(h + [Join(w, ws)], w) == None && Run(h + [Join(w, ws)]).reg.due == Run(h).reg.due
    ensures Subscribers(Run(h + [Join(w, ws)]).reg, w) == Subscribers(Run(h).reg, w)
  {
    assert (h + [Join(w, ws)])[..|h|] == h;
  }
}
