/** shared/messages.py and shared/models.py: messages, the dictionaries they are sent as, and
    the parser in between. What a type's branch of the parser reads, and how, is a table. */
module Messages {
  import opened Strings
  import CommandQueue

  /** JSON, without fractional numbers. */
  datatype Json =
    | Null
    | Bool(b: bool)
    | Num(n: int)
    | Str(s: string)
    | List(items: seq<Json>)
    | Dict(fields: map<string, Json>)

  type Data = map<string, Json>

  /** Python's str() and int() where they are not the identity, and the clock. */
  datatype Python = Python(str_: Json -> string, int_: string -> Option<int>, now: string)

  /** `Escapes` is a KeyError, which parse_message does not catch. */
  datatype Error = Invalid | UnknownType | VersionMismatch | MissingWorkerId | InvalidCommand | Escapes

  datatype Result<+T> = Ok(value: T) | Err(error: Error)

  /** How a field is read: as it is, through str(), int() or bool(), as a list of diff
      operations, or not at all. */
  datatype How = AsIs | AsText | AsInt | AsBool | AsOps | Unread

  datatype Field = Field(name: string, how: How, otherwise: Json)

  datatype Kind =
    | Hello | Auth | WorkerRegister | ControllerRegister | WorkerStatus | Command | CommandResult | FullSnapshot
    | DomUpdate | ResyncRequest | ErrorNotice | Ping | Pong | ThrottleConfig | BrowserConfig | AlertOpened
    | TabOpened | TabClosed | ForgetWorker | ObserverCount

  /** The value of a message's type field. */
  function Wire(k: Kind): string {
    match k
    case Hello => "hello"
    case Auth => "auth"
    case WorkerRegister => "worker_register"
    case ControllerRegister => "controller_register"
    case WorkerStatus => "worker_status"
    case Command => "command"
    case CommandResult => "command_result"
    case FullSnapshot => "full_snapshot"
    case DomUpdate => "dom_update"
    case ResyncRequest => "resync_request"
    case ErrorNotice => "error"
    case Ping => "ping"
    case Pong => "pong"
    case ThrottleConfig => "throttle_config"
    case BrowserConfig => "browser_config"
    case AlertOpened => "alert_opened"
    case TabOpened => "tab_opened"
    case TabClosed => "tab_closed"
    case ForgetWorker => "forget_worker"
    case ObserverCount => "observer_count"
  }

  function Schema(k: Kind): seq<Field> {
    match k
    case Hello => [Field("role", AsIs, Str(""))]
    case Auth => [Field("token", AsIs, Str(""))]
    case WorkerRegister => [Field("capabilities", AsIs, Dict(map[]))]
    case ControllerRegister =>
      [Field("client_id", AsIs, Null), Field("subscribed_worker_id", AsIs, Null),
       Field("subscribed_worker_ids", AsIs, Null)]
    case WorkerStatus => [Field("status", AsIs, Str("")), Field("dom_version", AsIs, Null)]
    case Command => [Field("command", AsIs, Str("")), Field("payload", AsIs, Dict(map[]))]
    case CommandResult =>
      [Field("command", AsIs, Str("")), Field("success", AsBool, Bool(true)), Field("error", AsIs, Null),
       Field("payload", AsIs, Null)]
    case FullSnapshot =>
      [Field("version", AsInt, Num(0)), Field("url", AsText, Str("")), Field("title", AsText, Str("")),
       Field("html", AsText, Str("")), Field("compressed", AsBool, Bool(false)), Field("tab_handle", AsText, Str(""))]
    case DomUpdate =>
      [Field("ops", AsOps, List([])), Field("base_version", AsInt, Num(0)), Field("version", AsInt, Num(0)),
       Field("compressed", AsBool, Bool(false)), Field("tab_handle", AsText, Str("")), Field("url", Unread, Str(""))]
    case ResyncRequest => [Field("reason", AsText, Str(""))]
    case ErrorNotice =>
      [Field("code", AsText, Str("")), Field("detail", AsText, Str("")), Field("worker_id", AsIs, Null)]
    case Ping => [Field("payload", AsIs, Null)]
    case Pong => [Field("payload", AsIs, Null)]
    case ThrottleConfig =>
      [Field("profile_name", AsIs, Str("balanced")), Field("compression_level", AsIs, Num(3)),
       Field("compression_threshold", AsIs, Num(1024)), Field("max_snapshot_bytes", AsIs, Num(0)),
       Field("min_snapshot_interval_ms", AsIs, Num(500))]
    case BrowserConfig => [Field("headless", AsIs, Bool(true)), Field("proxy_url", AsIs, Null)]
    case AlertOpened => [Field("alert_text", AsIs, Str(""))]
    case TabOpened => [Field("tab_handle", AsText, Str("")), Field("tab_title", AsText, Str(""))]
    case TabClosed => [Field("tab_handle", AsIs, Str(""))]
    case ForgetWorker => []
    case ObserverCount => [Field("count", AsInt, Num(0))]
  }

  predicate Distinct(fields: seq<Field>) {
    forall i, j :: 0 <= i < j < |fields| ==> fields[i].name != fields[j].name
  }

  lemma SchemaDistinct(k: Kind)
    ensures Distinct(Schema(k))
  {
  }

  /** The types that have a worker's name. */
  predicate Scoped(k: Kind) {
    !(k == Hello || k == Auth || k == ControllerRegister || k == ErrorNotice || k == Ping || k == Pong)
  }

  /** WORKER_SCOPED_TYPES, which leaves two of them out. */
  predicate Mandatory(k: Kind) {
    Scoped(k) && k != ForgetWorker && k != ObserverCount
  }

  predicate Without(fields: seq<Field>, name: string) {
    forall i :: 0 <= i < |fields| ==> fields[i].name != name
  }

  /** No field is named like one of the envelope. */
  lemma SchemaApart(k: Kind)
    ensures Without(Schema(k), "type") && Without(Schema(k), "message_id")
    ensures Without(Schema(k), "timestamp") && Without(Schema(k), "protocol_version")
    ensures Scoped(k) ==> Without(Schema(k), "worker_id")
  {
    NoTypeField(k);
    NoIdField(k);
    NoTimeField(k);
    NoProtocolField(k);
    NoWorkerField(k);
  }

  lemma NoTypeField(k: Kind)
    ensures Without(Schema(k), "type")
  {
  }

  lemma NoIdField(k: Kind)
    ensures Without(Schema(k), "message_id")
  {
  }

  lemma NoTimeField(k: Kind)
    ensures Without(Schema(k), "timestamp")
  {
  }

  lemma NoProtocolField(k: Kind)
    ensures Without(Schema(k), "protocol_version")
  {
  }

  lemma NoWorkerField(k: Kind)
    ensures Scoped(k) ==> Without(Schema(k), "worker_id")
  {
  }

  lemma WireInjective(a: Kind, b: Kind)
    requires Wire(a) == Wire(b)
    ensures a == b
  {
    var x, y := Wire(a), Wire(b);
    assert |x| == |y| && x[0] == y[0] && x[1] == y[1] && x[|x| - 1] == y[|y| - 1] && x[4 % |x|] == y[4 % |y|];
  }

  // ---- messages --------------------------------------------------------------------------------

  /** The fields of a message in the order of its schema. `worker` is empty for the types that
      do not have a worker's name; an ops field holds a list of dictionaries. */
  datatype Message = Message(kind: Kind, id: string, time: string, protocol: Json, worker: string, fields: seq<Json>)

  predicate Truthy(j: Json) {
    match j
    case Null => false
    case Bool(b) => b
    case Num(n) => n != 0
    case Str(s) => s != ""
    case List(items) => items != []
    case Dict(fields) => fields != map[]
  }

  predicate IsText(j: Json) {
    j.Str? && j.s != ""
  }

  /** Python takes True for 1. */
  predicate IsOne(j: Json) {
    j == Num(1) || j == Bool(true)
  }

  /** A non-blank string. */
  predicate NamesWorker(j: Json) {
    j.Str? && Strip(j.s) != ""
  }

  const OP_KEYS := {"op", "selector", "html", "text", "attr", "value", "position"}

  predicate IsDiffOp(s: string) {
    s in {"add", "remove", "replace", "text", "attribute", "value"}
  }

  /** What DOMDiffOp.to_dict gives: no key it does not know, and no None. */
  predicate ValidOp(d: Data) {
    && d.Keys <= OP_KEYS && (forall k :: k in d ==> d[k] != Null)
    && "op" in d && d["op"].Str? && IsDiffOp(d["op"].s) && "selector" in d && IsText(d["selector"])
  }

  predicate ValidOps(items: seq<Json>) {
    forall j :: j in items ==> j.Dict? && ValidOp(j.fields)
  }

  predicate Fits(how: How, j: Json) {
    match how
    case AsIs => true
    case AsText => j.Str?
    case AsInt => j.Num?
    case AsBool => j.Bool?
    case AsOps => j.List? && ValidOps(j.items)
    case Unread => j.Str?
  }

  predicate FitAll(fields: seq<Field>, values: seq<Json>) {
    |values| == |fields| && forall i :: 0 <= i < |fields| ==> Fits(fields[i].how, values[i])
  }

  predicate IsRole(j: Json) {
    j.Str? && j.s in {"worker", "controller"}
  }

  predicate IsStatus(j: Json) {
    j.Str? && j.s in {"connected", "disconnected", "crashed", "idle", "busy", "alert_blocking"}
  }

  predicate IsLevel(j: Json) {
    j == Bool(true) || (j.Num? && 1 <= j.n <= 9)
  }

  /** What __post_init__ checks besides the envelope. */
  predicate Checks(k: Kind, values: seq<Json>)
    requires |values| == |Schema(k)|
  {
    match k
    case Hello => IsRole(values[0])
    case Auth => IsText(values[0])
    case WorkerStatus => IsStatus(values[0])
    case Command => IsText(values[0])
    case CommandResult => Truthy(values[0])
    case ErrorNotice => Truthy(values[0])
    case ThrottleConfig => IsLevel(values[1])
    case _ => true
  }

  /** A message that can be constructed; its worker's name is stripped then. */
  predicate Valid(m: Message) {
    && m.id != "" && IsOne(m.protocol) && FitAll(Schema(m.kind), m.fields) && Checks(m.kind, m.fields)
    && (if Scoped(m.kind) then m.worker != "" && Strip(m.worker) == m.worker else m.worker == "")
  }

  // ---- to_dict -----------------------------------------------------------------------------------

  function FieldDict(fields: seq<Field>, values: seq<Json>): Data
    requires |values| == |fields|
  {
    if fields == [] then map[] else FieldDict(fields[1..], values[1..])[fields[0].name := values[0]]
  }

  function Envelope(m: Message): Data {
    map["type" := Str(Wire(m.kind)), "message_id" := Str(m.id), "timestamp" := Str(m.time),
        "protocol_version" := m.protocol]
  }

  function WorkerDict(m: Message): Data {
    if Scoped(m.kind) then map["worker_id" := Str(m.worker)] else map[]
  }

  function ToDict(m: Message): Data
    requires |m.fields| == |Schema(m.kind)|
  {
    FieldDict(Schema(m.kind), m.fields) + WorkerDict(m) + Envelope(m)
  }

  // ---- parse_message -------------------------------------------------------------------------------

  function Get(d: Data, k: string, otherwise: Json): Json {
    if k in d then d[k] else otherwise
  }

  /** One dictionary of the list; a missing key is not caught. */
  function ReadOp(d: Data): Result<Json> {
    if "op" !in d || "selector" !in d then Err(Escapes)
    else
      var known := map k | k in OP_KEYS && k in d && d[k] != Null :: d[k];
      if ValidOp(known) then Ok(Dict(known)) else Err(Invalid)
  }

  /** What is no dictionary is noticed only after all dictionaries have been read. */
  function ReadOps(items: seq<Json>): Result<seq<Json>> {
    if items == [] then Ok([])
    else
      var first := if items[0].Dict? then ReadOp(items[0].fields) else Err(Invalid);
      var rest := ReadOps(items[1..]);
      if items[0].Dict? && first.Err? then Err(first.error)
      else if rest.Err? then rest
      else if first.Err? then Err(first.error)
      else Ok([first.value] + rest.value)
  }

  /** An empty string or dictionary is as good as an empty list. */
  function ReadList(j: Json): Result<Json> {
    match j
    case List(items) =>
      var r := ReadOps(items);
      if r.Ok? then Ok(List(r.value)) else Err(r.error)
    case Str(s) => if s == "" then Ok(List([])) else Err(Invalid)
    case Dict(fields) => if fields == map[] then Ok(List([])) else Err(Invalid)
    case _ => Err(Invalid)
  }

  function ReadInt(py: Python, j: Json): Result<Json> {
    match j
    case Num(n) => Ok(j)
    case Bool(b) => Ok(Num(if b then 1 else 0))
    case Str(s) => if py.int_(s).Some? then Ok(Num(py.int_(s).value)) else Err(Invalid)
    case _ => Err(Invalid)
  }

  function Read(py: Python, d: Data, f: Field): Result<Json> {
    var j := Get(d, f.name, f.otherwise);
    match f.how
    case AsIs => Ok(j)
    case AsText => Ok(if j.Str? then j else Str(py.str_(j)))
    case AsInt => ReadInt(py, j)
    case AsBool => Ok(Bool(Truthy(j)))
    case AsOps => ReadList(j)
    case Unread => Ok(Str(""))
  }

  function ReadAll(py: Python, d: Data, fields: seq<Field>): Result<seq<Json>> {
    if fields == [] then Ok([])
    else
      var first := Read(py, d, fields[0]);
      if first.Err? then Err(first.error)
      else
        var rest := ReadAll(py, d, fields[1..]);
        if rest.Err? then rest else Ok([first.value] + rest.value)
  }

  /** The type a field names, if any. */
  function KindOf(t: string): (r: Option<Kind>)
    ensures r.Some? <==> exists k :: Wire(k) == t
    ensures r.Some? ==> Wire(r.value) == t
  {
    if k :| Wire(k) == t then
      assert forall k, k' :: Wire(k) == t && Wire(k') == t ==> k == k' by {
        forall k, k' | Wire(k) == t && Wire(k') == t ensures k == k' { WireInjective(k, k'); }
      }
      Some(k)
    else None
  }

  /** The branch of one type. A command off the allowlist is told from one that is no name. */
  function ParseFields(py: Python, k: Kind, d: Data): Result<seq<Json>> {
    var command := Get(d, "command", Str(""));
    if k == AlertOpened then Err(UnknownType)
    else if k == Command && (command.List? || command.Dict?) then Err(Invalid)
    else if k == Command && !(command.Str? && command.s in CommandQueue.ALLOWLIST) then Err(InvalidCommand)
    else ReadAll(py, d, Schema(k))
  }

  /** The clock stands in for the time stamp of a tab_closed. */
  function ParseKind(py: Python, k: Kind, id: string, time: string, protocol: Json, w: Json, d: Data): Result<Message> {
    var fields := ParseFields(py, k, d);
    if Mandatory(k) && !NamesWorker(w) then Err(MissingWorkerId)
    else if fields.Err? then Err(fields.error)
    else if |fields.value| != |Schema(k)| || !Checks(k, fields.value) then Err(Invalid)
    else if Scoped(k) && !NamesWorker(w) then Err(Invalid)
    else Ok(Message(k, id, if k == TabClosed then py.now else time, protocol, if Scoped(k) then Strip(w.s) else "",
                    fields.value))
  }

  function Parse(py: Python, d: Data): Result<Message> {
    var t, v := Get(d, "type", Null), Get(d, "protocol_version", Null);
    var id, time := Get(d, "message_id", Null), Get(d, "timestamp", Null);
    if !IsText(t) then Err(Invalid)
    else if KindOf(t.s).None? then Err(UnknownType)
    else if v == Null then Err(Invalid)
    else if !IsOne(v) then Err(VersionMismatch)
    else if !IsText(id) || !IsText(time) then Err(Invalid)
    else ParseKind(py, KindOf(t.s).value, id.s, time.s, v, Get(d, "worker_id", Null), d)
  }

  // ---- the round trip --------------------------------------------------------------------------------

  lemma OpRound(d: Data)
    requires ValidOp(d)
    ensures ReadOp(d) == Ok(Dict(d))
  {
    assert d == map k | k in OP_KEYS && k in d && d[k] != Null :: d[k];
  }

  lemma {:induction false} OpsRound(items: seq<Json>)
    requires ValidOps(items)
    ensures ReadOps(items) == Ok(items)
  {
    if items != [] {
      assert items[0] in items;
      OpRound(items[0].fields);
      OpsRound(items[1..]);
      assert [Dict(items[0].fields)] + items[1..] == items;
    }
  }

  /** What comes back of a value. */
  function Back(how: How, j: Json): Json {
    if how == Unread then Str("") else j
  }

  lemma ReadRound(py: Python, d: Data, f: Field, j: Json)
    requires Fits(f.how, j) && f.name in d && d[f.name] == j
    ensures Read(py, d, f) == Ok(Back(f.how, j))
  {
    if f.how == AsOps { OpsRound(j.items); }
  }

  lemma {:induction false} FieldDictAt(fields: seq<Field>, values: seq<Json>, i: nat)
    requires |values| == |fields| && Distinct(fields) && i < |fields|
    ensures fields[i].name in FieldDict(fields, values) && FieldDict(fields, values)[fields[i].name] == values[i]
  {
    if i > 0 { FieldDictAt(fields[1..], values[1..], i - 1); }
  }

  predicate Holds(d: Data, fields: seq<Field>, values: seq<Json>)
    requires |values| == |fields|
  {
    forall i :: 0 <= i < |fields| ==> fields[i].name in d && d[fields[i].name] == values[i]
  }

  lemma {:induction false} ReadAllRound(py: Python, d: Data, fields: seq<Field>, values: seq<Json>)
    requires FitAll(fields, values) && Holds(d, fields, values)
    ensures var r := ReadAll(py, d, fields);
            && r.Ok? && |r.value| == |values|
            && forall i :: 0 <= i < |values| ==> r.value[i] == Back(fields[i].how, values[i])
  {
    if fields != [] {
      ReadRound(py, d, fields[0], values[0]);
      ReadAllRound(py, d, fields[1..], values[1..]);
    }
  }

  lemma WholeRound(py: Python, m: Message)
    requires FitAll(Schema(m.kind), m.fields)
    ensures var r := ReadAll(py, ToDict(m), Schema(m.kind));
            && r.Ok? && |r.value| == |m.fields|
            && forall i :: 0 <= i < |m.fields| ==> r.value[i] == Back(Schema(m.kind)[i].how, m.fields[i])
  {
    var fields := Schema(m.kind);
    SchemaDistinct(m.kind);
    SchemaApart(m.kind);
    forall i | 0 <= i < |fields|
      ensures fields[i].name in ToDict(m) && ToDict(m)[fields[i].name] == m.fields[i]
    {
      FieldDictAt(fields, m.fields, i);
      EnvelopeApart(m, fields[i].name);
    }
    ReadAllRound(py, ToDict(m), fields, m.fields);
  }

  lemma EnvelopeApart(m: Message, name: string)
    requires name != "type" && name != "message_id" && name != "timestamp" && name != "protocol_version"
    requires Scoped(m.kind) ==> name != "worker_id"
    ensures name !in Envelope(m) && name !in WorkerDict(m)
  {
  }

  lemma EnvelopeRead(m: Message)
    requires |m.fields| == |Schema(m.kind)|
    ensures var d := ToDict(m);
            && Get(d, "type", Null) == Str(Wire(m.kind)) && Get(d, "protocol_version", Null) == m.protocol
            && Get(d, "message_id", Null) == Str(m.id) && Get(d, "timestamp", Null) == Str(m.time)
            && (Scoped(m.kind) ==> Get(d, "worker_id", Null) == Str(m.worker))
  {
    assert "worker_id" !in Envelope(m);
  }

  /** What the wire carries: every valid message but an alert notice, which the parser does
      not know, a command off the allowlist, an update's URL, the time stamp of a tab_closed,
      and an empty time stamp. */
  predicate Carried(py: Python, m: Message)
    requires |m.fields| == |Schema(m.kind)|
  {
    && m.time != "" && m.kind != AlertOpened
    && (m.kind == Command ==> m.fields[0].Str? && m.fields[0].s in CommandQueue.ALLOWLIST)
    && (m.kind == DomUpdate ==> m.fields[5] == Str(""))
    && (m.kind == TabClosed ==> m.time == py.now)
  }

  lemma UnreadOnly(k: Kind, i: nat)
    requires i < |Schema(k)|
    ensures Schema(k)[i].how == Unread <==> k == DomUpdate && i == 5
  {
  }

  /** All fields come back but the URL of an update. */
  lemma FieldsRound(py: Python, m: Message)
    requires FitAll(Schema(m.kind), m.fields)
    ensures var r := ReadAll(py, ToDict(m), Schema(m.kind));
            && r.Ok? && |r.value| == |m.fields|
            && (m.kind != DomUpdate ==> r.value == m.fields)
            && (r.value == m.fields <==> (m.kind == DomUpdate ==> m.fields[5] == Str("")))
  {
    WholeRound(py, m);
    var r := ReadAll(py, ToDict(m), Schema(m.kind)).value;
    forall i | 0 <= i < |m.fields| ensures r[i] == if m.kind == DomUpdate && i == 5 then Str("") else m.fields[i] {
      UnreadOnly(m.kind, i);
    }
  }

  lemma CommandRead(m: Message)
    requires m.kind == Command && |m.fields| == 2
    ensures Get(ToDict(m), "command", Str("")) == m.fields[0]
  {
    SchemaDistinct(Command);
    SchemaApart(Command);
    assert Schema(Command)[0].name == "command";
    FieldDictAt(Schema(Command), m.fields, 0);
    EnvelopeApart(m, Schema(Command)[0].name);
  }

  lemma KindRound(k: Kind)
    ensures IsText(Str(Wire(k))) && KindOf(Wire(k)) == Some(k)
  {
    WireInjective(k, KindOf(Wire(k)).value);
  }

  lemma ParsedFields(py: Python, m: Message)
    requires Valid(m)
    ensures var r := ParseFields(py, m.kind, ToDict(m));
            var known := m.kind != AlertOpened
              && (m.kind == Command ==> m.fields[0].Str? && m.fields[0].s in CommandQueue.ALLOWLIST);
            && (r.Ok? <==> known)
            && (r.Ok? ==> |r.value| == |m.fields| && Checks(m.kind, r.value))
            && (r.Ok? ==> (r.value == m.fields <==> (m.kind == DomUpdate ==> m.fields[5] == Str(""))))
  {
    FieldsRound(py, m);
    if m.kind == Command { CommandRead(m); }
  }

  lemma ParsedEnvelope(py: Python, m: Message)
    requires Valid(m)
    ensures Parse(py, ToDict(m))
         == if m.time == "" then Err(Invalid)
            else ParseKind(py, m.kind, m.id, m.time, m.protocol, Get(ToDict(m), "worker_id", Null), ToDict(m))
  {
    EnvelopeRead(m);
    KindRound(m.kind);
  }

  lemma ParsedKind(py: Python, m: Message, w: Json)
    requires Valid(m) && m.time != "" && (Scoped(m.kind) ==> w == Str(m.worker))
    ensures ParseKind(py, m.kind, m.id, m.time, m.protocol, w, ToDict(m)) == Ok(m) <==> Carried(py, m)
  {
    ParsedFields(py, m);
  }

  /** Parsing the dictionary of a valid message gives the message back if and only if it is
      carried. */
  lemma RoundTripIff(py: Python, m: Message)
    requires Valid(m)
    ensures Parse(py, ToDict(m)) == Ok(m) <==> Carried(py, m)
  {
    ParsedEnvelope(py, m);
    if m.time != "" {
      EnvelopeRead(m);
      ParsedKind(py, m, Get(ToDict(m), "worker_id", Null));
    }
  }

  // ---- what the parser lets through --------------------------------------------------------------------

  lemma {:induction false} ReadOpsValid(items: seq<Json>)
    requires ReadOps(items).Ok?
    ensures ValidOps(ReadOps(items).value)
  {
    if items != [] { ReadOpsValid(items[1..]); }
  }

  lemma ReadFits(py: Python, d: Data, f: Field)
    requires Read(py, d, f).Ok?
    ensures Fits(f.how, Read(py, d, f).value) && (f.how == Unread ==> Read(py, d, f).value == Str(""))
  {
    var j := Get(d, f.name, f.otherwise);
    if f.how == AsOps && j.List? { ReadOpsValid(j.items); }
  }

  lemma {:induction false} ReadAllFits(py: Python, d: Data, fields: seq<Field>)
    requires ReadAll(py, d, fields).Ok?
    ensures var r := ReadAll(py, d, fields).value;
            FitAll(fields, r) && forall i :: 0 <= i < |fields| && fields[i].how == Unread ==> r[i] == Str("")
  {
    if fields != [] {
      ReadFits(py, d, fields[0]);
      ReadAllFits(py, d, fields[1..]);
    }
  }

  lemma KindValid(py: Python, k: Kind, id: string, time: string, protocol: Json, w: Json, d: Data)
    requires ParseKind(py, k, id, time, protocol, w, d).Ok? && id != "" && time != "" && IsOne(protocol) && py.now != ""
    ensures var m := ParseKind(py, k, id, time, protocol, w, d).value;
            && Valid(m) && (Scoped(m.kind) ==> Strip(m.worker) != "")
            && Carried(Python(py.str_, py.int_, m.time), m)
  {
    ReadAllFits(py, d, Schema(k));
    if Scoped(k) { StripIdem(w.s); }
    if k == DomUpdate { UnreadOnly(DomUpdate, 5); }
  }

  /** Whatever the parser accepts is a message that could have been constructed; its worker's
      name is not blank; and the relay may parse it and send it on without changing it: it is
      parsed as the same message again, but for the time stamp of a tab_closed. */
  lemma ParsedValid(py: Python, d: Data, py': Python)
    requires Parse(py, d).Ok? && py.now != ""
    ensures var m := Parse(py, d).value;
            && Valid(m) && (Scoped(m.kind) ==> Strip(m.worker) != "")
            && (m.kind != TabClosed || m.time == py'.now ==> Parse(py', ToDict(m)) == Ok(m))
  {
    var m := Parse(py, d).value;
    KindValid(py, m.kind, m.id, Get(d, "timestamp", Null).s, m.protocol, Get(d, "worker_id", Null), d);
    RoundTripIff(py', m);
  }
}
