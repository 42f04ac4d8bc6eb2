/** Exactly what each event makes the relay send, and who is entitled to it, told from the
    events alone. */
module Routing {
  import opened Strings
  import opened Relay
  import opened RelayProof

  // ---- who may, and who asked ----------------------------------------------------------------------

  /** The session of `c` starts or ends. */
  predicate Turnover(s: State, e: Event, c: Ws) {
    (e.Open? && e.c == c) || Leaves(s, e, c)
  }

  /** The k-th event opened a connection that may see `w`, and it lasts. */
  predicate Admitted(h: seq<Event>, c: Ws, w: string, k: nat) {
    && k < |h| && h[k].Open? && h[k].c == c
    && (h[k].authorized.None? || w in h[k].authorized.value)
    && forall j | k < j < |h| :: !Turnover(Run(h[..j]), h[j], c)
  }

  lemma SessionStep(s: State, bound: map<Ws, string>, e: Event, c: Ws, w: string)
    ensures Authorized(Step(s, bound, e).sessions, c, w) <==>
      if e.Open? && e.c == c then e.authorized.None? || w in e.authorized.value
      else Authorized(s.sessions, c, w) && !Leaves(s, e, c)
  {
  }

  lemma AdmittedStep(h: seq<Event>, e: Event, c: Ws, w: string, k: nat)
    requires k < |h|
    ensures Admitted(h + [e], c, w, k) <==> Admitted(h, c, w, k) && !Turnover(Run(h), e, c)
  {
    var h1 := h + [e];
    assert h1[..|h|] == h && h1[|h|] == e;
    forall j | k < j < |h| ensures h1[j] == h[j] && Run(h1[..j]) == Run(h[..j]) { assert h1[..j] == h[..j]; }
  }

  /** A controller is authorised for a worker exactly when its present connection was opened
      with that worker among the authorised, or without any such list. */
  lemma {:induction false} AuthorizedIff(h: seq<Event>, c: Ws, w: string)
    ensures Authorized(Run(h).sessions, c, w) <==> exists k: nat :: Admitted(h, c, w, k)
  {
    if h != [] {
      var h0, e := h[..|h| - 1], h[|h| - 1];
      assert h == h0 + [e];
      AuthorizedIff(h0, c, w);
      SessionStep(Run(h0), Bound(h0), e, c, w);
      if k: nat :| Admitted(h0, c, w, k) { AdmittedStep(h0, e, c, w, k); }
      if k: nat :| Admitted(h, c, w, k) {
        if k < |h0| { AdmittedStep(h0, e, c, w, k); }
      }
      if e.Open? && e.c == c && (e.authorized.None? || w in e.authorized.value) { assert Admitted(h, c, w, |h0|); }
    }
  }

  /** The session of `c` starts or ends, or says what it wants. */
  predicate Rewish(s: State, e: Event, c: Ws) {
    Turnover(s, e, c) || (e.Ask? && e.c == c)
  }

  /** The k-th event asked for `w`, and nothing else has been asked for since. */
  predicate Asking(h: seq<Event>, c: Ws, w: string, k: nat) {
    && k < |h| && (h[k].Open? || h[k].Ask?) && h[k].c == c
    && (if h[k].Open? then h[k].first == Some(w) else w in h[k].wanted)
    && forall j | k < j < |h| :: !Rewish(Run(h[..j]), h[j], c)
  }

  lemma WishStep(s: State, bound: map<Ws, string>, e: Event, c: Ws, w: string)
    requires Fair(s, bound, e)
    ensures Wants(Step(s, bound, e), c, w) <==>
      if e.Open? && e.c == c then e.first == Some(w)
      else if e.Ask? && e.c == c then w in e.wanted
      else Wants(s, c, w) && !Leaves(s, e, c)
  {
    if e.Ask? { AskPair(s, e.c, e.wanted, c, w); }
    else if e.Open? { OpenPair(s, e, c, w); }
    else { QuietPair(s, bound, e, c, w); }
  }

  lemma AskingStep(h: seq<Event>, e: Event, c: Ws, w: string, k: nat)
    requires k < |h|
    ensures Asking(h + [e], c, w, k) <==> Asking(h, c, w, k) && !Rewish(Run(h), e, c)
  {
    var h1 := h + [e];
    assert h1[..|h|] == h && h1[|h|] == e;
    forall j | k < j < |h| ensures h1[j] == h[j] && Run(h1[..j]) == Run(h[..j]) { assert h1[..j] == h[..j]; }
  }

  lemma {:induction false} WantsIff(h: seq<Event>, c: Ws, w: string)
    requires FairRun(h)
    ensures Wants(Run(h), c, w) <==> exists k: nat :: Asking(h, c, w, k)
  {
    if h != [] {
      var h0, e := h[..|h| - 1], h[|h| - 1];
      assert h == h0 + [e];
      WantsIff(h0, c, w);
      WishStep(Run(h0), Bound(h0), e, c, w);
      if k: nat :| Asking(h0, c, w, k) { AskingStep(h0, e, c, w, k); }
      if k: nat :| Asking(h, c, w, k) {
        if k < |h0| { AskingStep(h0, e, c, w, k); }
      }
      if Wants(Run(h), c, w) && Rewish(Run(h0), e, c) { assert Asking(h, c, w, |h0|); }
    }
  }

  /** In fair runs without forgetting, a controller is subscribed to a worker exactly when
      that worker is among those it asked for last, on the connection it has. */
  lemma SubscribedIff(h: seq<Event>, c: Ws, w: string)
    requires FairRun(h) && forall e :: e in h ==> !e.Forget?
    ensures Listed(Run(h), c, w) <==> exists k: nat :: Asking(h, c, w, k)
  {
    AgreementAlways(h);
    WantsIff(h, c, w);
    assert Listed(Run(h), c, w) <==> Wants(Run(h), c, w);
  }

  // ---- what every event sends ---------------------------------------------------------------------------

  /** The status of its worker as the registry has it. */
  predicate Present(s: State, wire: Wire) {
    && wire.StatusOf?
    && (if wire.worker in s.reg.states
        then wire.status == s.reg.states[wire.worker].status
             && wire.domVersion == Some(s.reg.states[wire.worker].domVersion)
        else wire.status == DISCONNECTED && wire.domVersion == None)
  }

  predicate Online(s: State, w: string) {
    w in s.reg.conns && w in s.reg.states
  }

  /** What one message of a worker makes the relay send. */
  predicate Passed(s: State, w: string, e: Event, p: Packet)
    requires e.Say?
  {
    if Scoped(e.m) && e.claimed != w then p == Packet(e.ws, Error("IDENTITY_MISMATCH", w))
    else match e.m
      case Status(status, v) => Listed(s, p.to, w) && p.wire == StatusOf(w, status, v)
      case Ping(payload) => p == Packet(e.ws, Pong(payload))
      case Garbled(code) => p == Packet(e.ws, Error(code, w))
      case Ignored => false
      case _ => Listed(s, p.to, w) && p.wire == FromWorker(w, e.ws, e.m)
  }

  /** What the relay owes for an event. */
  predicate Owed(s: State, bound: map<Ws, string>, e: Event, p: Packet) {
    match e
    case Join(w, ws) =>
      || (p.wire == Closed && Current(s, w, p.to) && p.to != ws)
      || (p.wire == StatusOf(w, CONNECTED, None) && Listed(s, p.to, w))
    case Leave(w, ws) => Current(s, w, ws) && p.wire == StatusOf(w, DISCONNECTED, None) && Listed(s, p.to, w)
    case Open(c, first, authorized) =>
      && p.to == c && Present(s, p.wire)
      && (first == Some(p.wire.worker)
          || (Online(s, p.wire.worker) && (authorized.None? || p.wire.worker in authorized.value)))
    case Ask(c, wanted) =>
      && p.to == c && Present(s, p.wire)
      && ((p.wire.worker in wanted && !Wants(s, c, p.wire.worker))
          || (Online(s, p.wire.worker) && Authorized(s.sessions, c, p.wire.worker)))
    case Order(c, w, kind, body, sent) =>
      || (p.wire == Forward(kind, w, c, body) && Current(s, w, p.to) && Authorized(s.sessions, c, w) && sent)
      || (p.to == c && p.wire.Error? && p.wire.worker == w && Refused(s, e, p.wire.code))
    case Speak(c, m) =>
      p.to == c && ((p.wire.Pong? && m == Ping(p.wire.payload))
                    || (p.wire.Error? && m == Garbled(p.wire.code) && p.wire.worker == ""))
    case Notice(w) => w in s.reg.due && Current(s, w, p.to) && p.wire == ObserverCount(w, |Subscribers(s.reg, w)|)
    case Say(ws, _, _) => ws in bound && Passed(s, bound[ws], e, p)
    case _ => false
  }

  lemma ToEachIff(cs: seq<Ws>, wire: Wire, p: Packet)
    ensures p in ToEach(cs, wire) <==> p.wire == wire && p.to in cs
  {
    ToEachAll(cs, wire, p.to);
  }

  lemma {:induction false} StatusesIff(g: Registry, ws: seq<string>, c: Ws, p: Packet)
    ensures p in Statuses(g, ws, c) <==>
      p.to == c && p.wire.StatusOf? && p.wire.worker in ws && p.wire == StatusFor(g, p.wire.worker)
  {
    if ws != [] { StatusesIff(g, ws[1..], c, p); }
  }

  lemma JoinIff(s: State, bound: map<Ws, string>, e: Event, p: Packet)
    requires e.Join? || e.Leave?
    ensures p in Sends(s, bound, e) <==> Owed(s, bound, e, p)
  {
    if e.Join? {
      var g := Registered(s.reg, e.w, e.ws);
      assert Subscribers(g, e.w) == Subscribers(s.reg, e.w);
      ToEachIff(Sorted(Subscribers(g, e.w)), StatusOf(e.w, CONNECTED, None), p);
      assert Sends(s, bound, e)
          == Replacing(s.reg, e.w, e.ws) + ToSubscribers(g, e.w, StatusOf(e.w, CONNECTED, None));
    } else if Holds(s.reg, e.w, Some(e.ws)) {
      var g := Unregistered(s.reg, e.w, Some(e.ws));
      assert Subscribers(g, e.w) == Subscribers(s.reg, e.w);
      ToEachIff(Sorted(Subscribers(g, e.w)), StatusOf(e.w, DISCONNECTED, None), p);
      assert Sends(s, bound, e) == ToSubscribers(g, e.w, StatusOf(e.w, DISCONNECTED, None));
    }
  }

  lemma OpenWords(s: State, bound: map<Ws, string>, e: Event) returns (seen: seq<string>, last: seq<Packet>)
    requires e.Open?
    ensures Sends(s, bound, e) == Statuses(s.reg, seen, e.c) + last
    ensures last == if e.first.None? then [] else [Packet(e.c, StatusFor(s.reg, e.first.value))]
    ensures forall w :: w in seen <==>
      Online(s, w) && e.first != Some(w) && (e.authorized.None? || w in e.authorized.value)
    ensures forall i, j :: 0 <= i < j < |seen| ==> seen[i] != seen[j]
  {
    var sessions;
    sessions, seen := OpenSends(s, e.c, e.first, e.authorized);
    last := if e.first.None? then [] else [Packet(e.c, StatusFor(s.reg, e.first.value))];
  }

  lemma GreetIff(s: State, bound: map<Ws, string>, e: Event, p: Packet)
    requires e.Open?
    ensures p in Sends(s, bound, e) <==> Owed(s, bound, e, p)
  {
    var seen, last := OpenWords(s, bound, e);
    StatusesIff(s.reg, seen, e.c, p);
    StatusPresent(s, p.wire);
    if p.to == e.c && Present(s, p.wire) {
      assert p in last <==> e.first == Some(p.wire.worker);
    } else {
      assert p !in Statuses(s.reg, seen, e.c);
      assert e.first.Some? ==> StatusFor(s.reg, e.first.value).worker == e.first.value;
      assert p !in last;
    }
  }

  lemma StatusPresent(s: State, wire: Wire)
    ensures Present(s, wire) <==> wire.StatusOf? && wire == StatusFor(s.reg, wire.worker)
  {
  }

  lemma AskedIff(s: State, bound: map<Ws, string>, e: Event, p: Packet)
    requires e.Ask?
    ensures p in Sends(s, bound, e) <==> Owed(s, bound, e, p)
  {
    var before := Subscribed(s.sessions, e.c);
    var s1 := Requested(s, e.c, e.wanted);
    var arrived := e.wanted - before;
    var seen := Visible(s1.reg, s1.sessions, e.c, arrived);
    StatusesIff(s1.reg, Sorted(arrived), e.c, p);
    StatusesIff(s1.reg, Sorted(seen), e.c, p);
    assert Sends(s, bound, e) == Statuses(s1.reg, Sorted(arrived), e.c) + Statuses(s1.reg, Sorted(seen), e.c);
    AskConns(s, e.c, e.wanted);
  }

  /** An order reaches the worker's socket exactly if the controller is authorised, the
      worker connected and the send works, and otherwise the controller gets exactly the
      error of its case; nothing else is sent. */
  lemma OrderIff(s: State, bound: map<Ws, string>, e: Event, p: Packet)
    requires e.Order?
    ensures p in Sends(s, bound, e) <==> Owed(s, bound, e, p)
    ensures |Sends(s, bound, e)| <= 1
  {
    assert Sends(s, bound, e) == Forwards(s, e.c, e.w, e.kind, e.body, e.sent);
  }

  lemma SpeakIff(s: State, bound: map<Ws, string>, e: Event, p: Packet)
    requires e.Speak? || e.Notice? || e.Forget? || e.Close?
    ensures p in Sends(s, bound, e) <==> Owed(s, bound, e, p)
  {
  }

  lemma SayIff(s: State, bound: map<Ws, string>, e: Event, p: Packet)
    requires e.Say?
    ensures p in Sends(s, bound, e) <==> Owed(s, bound, e, p)
  {
    if e.ws in bound {
      var w := bound[e.ws];
      var cs := Sorted(Subscribers(s.reg, w));
      ToEachIff(cs, FromWorker(w, e.ws, e.m), p);
      if e.m.Status? { ToEachIff(cs, StatusOf(w, e.m.status, e.m.domVersion), p); }
    }
  }

  /** Every event sends what it owes and nothing else. */
  lemma SendsIff(s: State, bound: map<Ws, string>, e: Event, p: Packet)
    ensures p in Sends(s, bound, e) <==> Owed(s, bound, e, p)
  {
    match e
    case Join(_, _) => JoinIff(s, bound, e, p);
    case Leave(_, _) => JoinIff(s, bound, e, p);
    case Open(_, _, _) => GreetIff(s, bound, e, p);
    case Ask(_, _) => AskedIff(s, bound, e, p);
    case Order(_, _, _, _, _) => OrderIff(s, bound, e, p);
    case Say(_, _, _) => SayIff(s, bound, e, p);
    case _ => SpeakIff(s, bound, e, p);
  }

  // ---- nothing twice -------------------------------------------------------------------------------------

  predicate Apart<T(==)>(items: seq<T>) {
    forall i, j :: 0 <= i < j < |items| ==> items[i] != items[j]
  }

  lemma {:induction false} ToEachApart(cs: seq<Ws>, wire: Wire)
    requires Apart(cs)
    ensures Apart(ToEach(cs, wire))
  {
    if cs != [] {
      var rest := cs[1..];
      assert Apart(rest);
      ToEachApart(rest, wire);
      ToEachIff(rest, wire, Packet(cs[0], wire));
      ApartJoins([Packet(cs[0], wire)], ToEach(rest, wire));
    }
  }

  lemma {:induction false} StatusesApart(g: Registry, ws: seq<string>, c: Ws)
    requires Apart(ws)
    ensures Apart(Statuses(g, ws, c))
  {
    if ws != [] {
      var rest := ws[1..];
      assert Apart(rest);
      StatusesApart(g, rest, c);
      StatusesIff(g, rest, c, Packet(c, StatusFor(g, ws[0])));
      ApartJoins([Packet(c, StatusFor(g, ws[0]))], Statuses(g, rest, c));
    }
  }

  lemma ApartJoins<T>(a: seq<T>, b: seq<T>)
    requires Apart(a) && Apart(b) && forall x :: x in a ==> x !in b
    ensures Apart(a + b)
  {
    forall i, j | 0 <= i < j < |a + b| ensures (a + b)[i] != (a + b)[j] {
      if i < |a| <= j { assert a[i] in a && b[j - |a|] in b; }
    }
  }

  lemma SubscribersOnce(g: Registry, w: string, wire: Wire)
    ensures Apart(ToSubscribers(g, w, wire))
  {
    SortedApart(Subscribers(g, w));
    ToEachApart(Sorted(Subscribers(g, w)), wire);
  }

  lemma OpenOnce(s: State, bound: map<Ws, string>, e: Event)
    requires e.Open?
    ensures Apart(Sends(s, bound, e))
  {
    var seen, last := OpenWords(s, bound, e);
    StatusesApart(s.reg, seen, e.c);
    forall p | p in Statuses(s.reg, seen, e.c) ensures p !in last {
      StatusesIff(s.reg, seen, e.c, p);
      assert e.first.Some? ==> StatusFor(s.reg, e.first.value).worker == e.first.value;
    }
    ApartJoins(Statuses(s.reg, seen, e.c), last);
  }

  lemma AskOnce(s: State, bound: map<Ws, string>, e: Event)
    requires e.Ask?
    ensures Apart(Sends(s, bound, e))
  {
    var s1 := Requested(s, e.c, e.wanted);
    var arrived := e.wanted - Subscribed(s.sessions, e.c);
    var seen := Visible(s1.reg, s1.sessions, e.c, arrived);
    var news, others := Statuses(s1.reg, Sorted(arrived), e.c), Statuses(s1.reg, Sorted(seen), e.c);
    assert Sends(s, bound, e) == news + others;
    SortedApart(arrived);
    SortedApart(seen);
    StatusesApart(s1.reg, Sorted(arrived), e.c);
    StatusesApart(s1.reg, Sorted(seen), e.c);
    forall p | p in news ensures p !in others {
      StatusesIff(s1.reg, Sorted(arrived), e.c, p);
      StatusesIff(s1.reg, Sorted(seen), e.c, p);
    }
    ApartJoins(news, others);
  }

  lemma JoinOnce(s: State, bound: map<Ws, string>, e: Event)
    requires e.Join? || e.Leave?
    ensures Apart(Sends(s, bound, e))
  {
    if e.Join? {
      var g, wire := Registered(s.reg, e.w, e.ws), StatusOf(e.w, CONNECTED, None);
      SubscribersOnce(g, e.w, wire);
      assert Sends(s, bound, e) == Replacing(s.reg, e.w, e.ws) + ToSubscribers(g, e.w, wire);
      ApartJoins(Replacing(s.reg, e.w, e.ws), ToSubscribers(g, e.w, wire));
    } else if Holds(s.reg, e.w, Some(e.ws)) {
      var g, wire := Unregistered(s.reg, e.w, Some(e.ws)), StatusOf(e.w, DISCONNECTED, None);
      SubscribersOnce(g, e.w, wire);
      assert Sends(s, bound, e) == ToSubscribers(g, e.w, wire);
    }
  }

  lemma SayOnce(s: State, bound: map<Ws, string>, e: Event)
    requires e.Say?
    ensures Apart(Sends(s, bound, e))
  {
    if e.ws in bound {
      SubscribersOnce(s.reg, bound[e.ws], FromWorker(bound[e.ws], e.ws, e.m));
      if e.m.Status? { SubscribersOnce(s.reg, bound[e.ws], StatusOf(bound[e.ws], e.m.status, e.m.domVersion)); }
    }
  }

  /** No event sends a packet twice. */
  lemma SendsOnce(s: State, bound: map<Ws, string>, e: Event)
    ensures Apart(Sends(s, bound, e))
  {
    match e
    case Join(_, _) => JoinOnce(s, bound, e);
    case Leave(_, _) => JoinOnce(s, bound, e);
    case Open(_, _, _) => OpenOnce(s, bound, e);
    case Ask(_, _) => AskOnce(s, bound, e);
    case Say(_, _, _) => SayOnce(s, bound, e);
    case Order(_, _, _, _, _) => OrderIff(s, bound, e, Packet(e.c, Closed));
    case _ =>
  }

  // ---- what a subscriber knows of its worker --------------------------------------------------------------

  function StatusNow(g: Registry, w: string): string {
    if w in g.states then g.states[w].status else DISCONNECTED
  }

  /** The packet tells `c` a status of `w`. */
  predicate TellsStatus(p: Packet, c: Ws, w: string) {
    p.to == c && p.wire.StatusOf? && p.wire.worker == w
  }

  /** The status of `w` that `c` was told last. */
  function LastStatus(sent: seq<Packet>, c: Ws, w: string): Option<string> {
    if sent == [] then None
    else
      var p := sent[|sent| - 1];
      if TellsStatus(p, c, w) then Some(p.wire.status) else LastStatus(sent[..|sent| - 1], c, w)
  }

  lemma {:induction false} LastOfMore(a: seq<Packet>, b: seq<Packet>, c: Ws, w: string, status: string)
    requires forall p :: p in b && TellsStatus(p, c, w) ==> p.wire.status == status
    ensures LastStatus(a + b, c, w) == if exists p :: p in b && TellsStatus(p, c, w) then Some(status)
                                       else LastStatus(a, c, w)
    decreases |b|
  {
    if b == [] {
      assert a + b == a;
    } else {
      var b0, p := b[..|b| - 1], b[|b| - 1];
      assert (a + b)[..|a + b| - 1] == a + b0 && (a + b)[|a + b| - 1] == p && b == b0 + [p];
      assert p in b;
      LastOfMore(a, b0, c, w, status);
    }
  }

  /** Every socket that was registered belongs to a known worker. */
  ghost predicate Known(s: State, bound: map<Ws, string>) {
    forall ws :: ws in bound ==> bound[ws] in s.reg.states
  }

  lemma KnownStep(s: State, bound: map<Ws, string>, e: Event)
    requires Known(s, bound) && !e.Forget?
    ensures Known(Step(s, bound, e), if e.Join? then bound[e.ws := e.w] else bound)
  {
    if e.Ask? {
      AskConns(s, e.c, e.wanted);
    } else if e.Close? {
      LeftConns(s.reg, e.c);
    }
  }

  /** What a controller is told at an event is the status after it. */
  lemma TellsPresent(s: State, bound: map<Ws, string>, e: Event, p: Packet, w: string)
    requires Known(s, bound) && !e.Forget? && Owed(s, bound, e, p) && TellsStatus(p, p.to, w)
    ensures p.wire.status == StatusNow(Step(s, bound, e).reg, w)
  {
    if e.Ask? {
      AskConns(s, e.c, e.wanted);
    }
  }

  /** The packet that tells a subscriber of a change; other events have none. */
  function News(s: State, bound: map<Ws, string>, e: Event, c: Ws, w: string): Packet {
    match e
    case Join(_, _) => Packet(c, StatusOf(w, CONNECTED, None))
    case Leave(_, _) => Packet(c, StatusOf(w, DISCONNECTED, None))
    case Say(_, _, m) => Packet(c, if m.Status? then StatusOf(w, m.status, m.domVersion) else Closed)
    case _ => Packet(c, StatusFor(s.reg, w))
  }

  /** A controller that is subscribed after an event, and was not told by it, was subscribed
      before, and nothing has changed. */
  lemma ToldOfChange(s: State, bound: map<Ws, string>, e: Event, c: Ws, w: string)
    requires !e.Forget? && Listed(Step(s, bound, e), c, w) && !Owed(s, bound, e, News(s, bound, e, c, w))
    ensures Listed(s, c, w) && StatusNow(Step(s, bound, e).reg, w) == StatusNow(s.reg, w)
  {
    if e.Ask? { ToldOfAsking(s, bound, e, c, w); }
    else if e.Open? { OpenPair(s, e, c, w); }
    else if e.Close? { QuietPair(s, bound, e, c, w); LeftConns(s.reg, e.c); }
    else { ToldOfWorker(s, bound, e, c, w); }
  }

  lemma ToldOfAsking(s: State, bound: map<Ws, string>, e: Event, c: Ws, w: string)
    requires e.Ask? && Listed(Step(s, bound, e), c, w) && !Owed(s, bound, e, Packet(c, StatusFor(s.reg, w)))
    ensures Listed(s, c, w) && Step(s, bound, e).reg.states == s.reg.states
  {
    AskPair(s, e.c, e.wanted, c, w);
    StatusPresent(s, StatusFor(s.reg, w));
    AskConns(s, e.c, e.wanted);
  }

  lemma ToldOfWorker(s: State, bound: map<Ws, string>, e: Event, c: Ws, w: string)
    requires !e.Ask? && !e.Open? && !Parting(e) && Listed(Step(s, bound, e), c, w)
    requires !Owed(s, bound, e, News(s, bound, e, c, w))
    ensures Listed(s, c, w) && StatusNow(Step(s, bound, e).reg, w) == StatusNow(s.reg, w)
  {
    StillPair(s, bound, e, w);
  }

  lemma StatusStep(s: State, bound: map<Ws, string>, e: Event, c: Ws, w: string)
    requires Known(s, bound) && !e.Forget? && Listed(Step(s, bound, e), c, w)
    requires Listed(s, c, w) ==> LastStatus(s.sent, c, w) == Some(StatusNow(s.reg, w))
    requires s.sent <= Step(s, bound, e).sent
    ensures LastStatus(Step(s, bound, e).sent, c, w) == Some(StatusNow(Step(s, bound, e).reg, w))
  {
    var s1, sends, news := Step(s, bound, e), Sends(s, bound, e), News(s, bound, e, c, w);
    assert s1.sent == s.sent + sends;
    forall p | p in sends && TellsStatus(p, c, w) ensures p.wire.status == StatusNow(s1.reg, w) {
      SendsIff(s, bound, e, p);
      TellsPresent(s, bound, e, p, w);
    }
    LastOfMore(s.sent, sends, c, w, StatusNow(s1.reg, w));
    SendsIff(s, bound, e, news);
    if news in sends && TellsStatus(news, c, w) {
    } else {
      ToldOfChange(s, bound, e, c, w);
    }
  }

  /** In fair runs without forgetting, a subscribed controller always knows: the status it was
      told last is the one in the registry. */
  lemma {:induction false} StatusTold(h: seq<Event>, c: Ws, w: string)
    requires FairRun(h) && forall e :: e in h ==> !e.Forget?
    ensures Known(Run(h), Bound(h))
    ensures Listed(Run(h), c, w) ==> LastStatus(Run(h).sent, c, w) == Some(StatusNow(Run(h).reg, w))
  {
    if h != [] {
      var h0, e := h[..|h| - 1], h[|h| - 1];
      assert e in h && forall e' :: e' in h0 ==> e' in h;
      StatusTold(h0, c, w);
      KnownStep(Run(h0), Bound(h0), e);
      ForwardAlways(h0);
      BoundAlways(h0);
      EventJustified(Run(h0), Bound(h0), e);
      if Listed(Run(h), c, w) { StatusStep(Run(h0), Bound(h0), e, c, w); }
    }
  }

  // ---- what the registry knows of a worker ------------------------------------------------------------------

  predicate Forgets(s: State, e: Event, w: string) {
    e.Forget? && e.w == w && w !in s.reg.conns
  }

  /** The k-th event registered the worker, and it has not been forgotten since. */
  predicate Remembered(h: seq<Event>, w: string, k: nat) {
    k < |h| && h[k].Join? && h[k].w == w && forall j | k < j < |h| :: !Forgets(Run(h[..j]), h[j], w)
  }

  /** The page version a message on a worker's own socket, or its registration, mentions. */
  function Mentions(bound: map<Ws, string>, e: Event, w: string): Option<nat> {
    if e.Join? && e.w == w then Some(0)
    else if e.Say? && e.ws in bound && bound[e.ws] == w && e.claimed == w then
      match e.m
      case Versioned(v, _) => Some(v)
      case Status(_, v) => v
      case _ => None
    else None
  }

  /** Nothing but registering and forgetting makes a worker known or unknown. */
  lemma KnownStays(s: State, bound: map<Ws, string>, e: Event, w: string)
    ensures w in Step(s, bound, e).reg.states <==> (e.Join? && e.w == w) || (w in s.reg.states && !Forgets(s, e, w))
  {
    if e.Ask? { AskConns(s, e.c, e.wanted); }
    else if e.Close? { LeftConns(s.reg, e.c); }
    else if e.Forget? { LeftConns(Forgotten(s.reg, e.w), e.c); }
  }

  function Version(s: State, w: string): Option<nat> {
    if w in s.reg.states then Some(s.reg.states[w].domVersion) else None
  }

  lemma VersionStep(s: State, bound: map<Ws, string>, e: Event, w: string)
    requires w in Step(s, bound, e).reg.states
    ensures Version(Step(s, bound, e), w) == if Mentions(bound, e, w).Some? then Mentions(bound, e, w)
                                             else Version(s, w)
  {
    if e.Say? { SayVersion(s, bound, e, w); }
    else if e.Join? || e.Leave? { JoinVersion(s, bound, e, w); }
    else if e.Ask? { AskConns(s, e.c, e.wanted); }
    else if e.Close? { LeftConns(s.reg, e.c); }
    else if e.Forget? { LeftConns(Forgotten(s.reg, e.w), e.c); }
  }

  lemma SayVersion(s: State, bound: map<Ws, string>, e: Event, w: string)
    requires e.Say? && w in s.reg.states
    ensures Version(Step(s, bound, e), w) == if Mentions(bound, e, w).Some? then Mentions(bound, e, w)
                                             else Version(s, w)
  {
  }

  lemma JoinVersion(s: State, bound: map<Ws, string>, e: Event, w: string)
    requires (e.Join? || e.Leave?) && w in Step(s, bound, e).reg.states
    ensures Version(Step(s, bound, e), w) == if e.Join? && e.w == w then Some(0) else Version(s, w)
  {
  }

  lemma RememberedStep(h: seq<Event>, e: Event, w: string, k: nat)
    requires k < |h|
    ensures Remembered(h + [e], w, k) <==> Remembered(h, w, k) && !Forgets(Run(h), e, w)
  {
    var h1 := h + [e];
    assert h1[..|h|] == h && h1[|h|] == e;
    forall j | k < j < |h| ensures h1[j] == h[j] && Run(h1[..j]) == Run(h[..j]) { assert h1[..j] == h[..j]; }
  }

  /** The relay knows a worker exactly if it was registered and not forgotten since. */
  lemma {:induction false} KnownIff(h: seq<Event>, w: string)
    ensures w in Run(h).reg.states <==> exists k: nat :: Remembered(h, w, k)
  {
    if h != [] {
      var h0, e := h[..|h| - 1], h[|h| - 1];
      assert h == h0 + [e];
      KnownIff(h0, w);
      KnownStays(Run(h0), Bound(h0), e, w);
      if k: nat :| Remembered(h0, w, k) { RememberedStep(h0, e, w, k); }
      if k: nat :| Remembered(h, w, k) {
        if k < |h0| { RememberedStep(h0, e, w, k); }
      }
      if e.Join? && e.w == w { assert Remembered(h, w, |h0|); }
    }
  }

  /** The k-th event mentions this version, and no later one mentions any. */
  predicate LastMention(h: seq<Event>, w: string, k: nat, v: nat) {
    && k < |h| && Mentions(Bound(h[..k]), h[k], w) == Some(v)
    && forall j | k < j < |h| :: Mentions(Bound(h[..j]), h[j], w) == None
  }

  lemma MentionStays(h: seq<Event>, e: Event, w: string, k: nat, v: nat)
    requires LastMention(h, w, k, v) && Mentions(Bound(h), e, w) == None
    ensures LastMention(h + [e], w, k, v)
  {
    var h1 := h + [e];
    assert h1[..|h|] == h && h1[|h|] == e;
    forall j | k <= j < |h| ensures h1[j] == h[j] && h1[..j] == h[..j] {}
  }

  /** The page version it has for a worker is the one that was mentioned last. */
  lemma {:induction false} LastVersion(h: seq<Event>, w: string) returns (k: nat)
    requires w in Run(h).reg.states
    ensures LastMention(h, w, k, Run(h).reg.states[w].domVersion)
  {
    var h0, e := h[..|h| - 1], h[|h| - 1];
    assert h == h0 + [e];
    VersionStep(Run(h0), Bound(h0), e, w);
    if Mentions(Bound(h0), e, w).Some? {
      k := |h| - 1;
    } else {
      k := LastVersion(h0, w);
      MentionStays(h0, e, w, k, Run(h0).reg.states[w].domVersion);
    }
  }
}
