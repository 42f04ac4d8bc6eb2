/** What the parser refuses, and why, and what it puts where a key is missing. */
module Parsing {
  import opened Strings
  import opened Messages
  import CommandQueue

  // ---- refusals --------------------------------------------------------------------------------

  predicate Types(d: Data, k: Kind) {
    Get(d, "type", Null) == Str(Wire(k))
  }

  /** The rest of the envelope is in order. */
  predicate Sealed(d: Data) {
    && IsOne(Get(d, "protocol_version", Null))
    && IsText(Get(d, "message_id", Null)) && IsText(Get(d, "timestamp", Null))
  }

  predicate Addressed(d: Data) {
    NamesWorker(Get(d, "worker_id", Null))
  }

  predicate Torn(op: Json) {
    op.Dict? && ("op" !in op.fields || "selector" !in op.fields)
  }

  /** A dictionary of the list lacks a key, and all dictionaries before it are operations. */
  predicate TornAt(items: seq<Json>, i: nat) {
    i < |items| && Torn(items[i]) && forall j | 0 <= j < i :: items[j].Dict? ==> ReadOp(items[j].fields).Ok?
  }

  lemma OpEscapes(d: Data)
    ensures ReadOp(d) == Err(Escapes) <==> Torn(Dict(d))
    ensures ReadOp(d).Err? ==> ReadOp(d).error == Escapes || ReadOp(d).error == Invalid
  {
  }

  lemma {:induction false} OpsEscape(items: seq<Json>)
    ensures ReadOps(items) == Err(Escapes) <==> exists i: nat :: TornAt(items, i)
    ensures ReadOps(items).Err? ==> ReadOps(items).error == Escapes || ReadOps(items).error == Invalid
  {
    if items != [] {
      var rest := items[1..];
      OpsEscape(rest);
      if items[0].Dict? { OpEscapes(items[0].fields); }
      if Torn(items[0]) { assert TornAt(items, 0); }
      if i: nat :| TornAt(rest, i) {
        assert forall j | 0 <= j < |rest| :: rest[j] == items[j + 1];
        if items[0].Dict? && ReadOp(items[0].fields).Err? {} else { assert TornAt(items, i + 1); }
      }
      if i: nat :| TornAt(items, i) {
        if i > 0 { assert TornAt(rest, i - 1); }
      }
    }
  }

  lemma ReadEscapes(py: Python, d: Data, f: Field)
    ensures var r, j := Read(py, d, f), Get(d, f.name, f.otherwise);
            && (r == Err(Escapes) <==> f.how == AsOps && j.List? && exists i: nat :: TornAt(j.items, i))
            && (r.Err? ==> r.error == Escapes || r.error == Invalid)
  {
    var j := Get(d, f.name, f.otherwise);
    if f.how == AsOps && j.List? { OpsEscape(j.items); }
  }

  lemma {:induction false} AllEscapes(py: Python, d: Data, fields: seq<Field>)
    requires forall i :: 1 <= i < |fields| ==> fields[i].how != AsOps
    ensures var r := ReadAll(py, d, fields);
            && (r == Err(Escapes) <==> fields != [] && Read(py, d, fields[0]) == Err(Escapes))
            && (r.Err? ==> r.error == Escapes || r.error == Invalid)
  {
    if fields != [] {
      ReadEscapes(py, d, fields[0]);
      AllEscapes(py, d, fields[1..]);
      if |fields| > 1 { ReadEscapes(py, d, fields[1]); }
    }
  }

  lemma OpsFirst(k: Kind, i: nat)
    requires i < |Schema(k)|
    ensures Schema(k)[i].how == AsOps <==> k == DomUpdate && i == 0
  {
  }

  /** The operations of an update, as the dictionary has them. */
  function Ops(d: Data): seq<Json> {
    var j := Get(d, "ops", List([]));
    if j.List? then j.items else []
  }

  lemma SchemaEscapes(py: Python, k: Kind, d: Data)
    ensures var r := ReadAll(py, d, Schema(k));
            && (r == Err(Escapes) <==> k == DomUpdate && exists i: nat :: TornAt(Ops(d), i))
            && (r.Err? ==> r.error == Escapes || r.error == Invalid)
  {
    var fields := Schema(k);
    forall i | 0 <= i < |fields| ensures fields[i].how == AsOps <==> k == DomUpdate && i == 0 { OpsFirst(k, i); }
    AllEscapes(py, d, fields);
    if fields != [] { ReadEscapes(py, d, fields[0]); }
    if k == DomUpdate {
      assert fields[0] == Field("ops", AsOps, List([]));
      var j := Get(d, "ops", List([]));
      if j.List? { assert Ops(d) == j.items; } else { assert forall i: nat :: !TornAt(Ops(d), i); }
    }
  }

  /** A command that is a name off the allowlist, or at least could be looked up in it. */
  predicate OffList(d: Data) {
    var c := Get(d, "command", Str(""));
    !c.List? && !c.Dict? && !(c.Str? && c.s in CommandQueue.ALLOWLIST)
  }

  lemma FieldsRefused(py: Python, k: Kind, d: Data)
    ensures var r := ParseFields(py, k, d);
            && (r == Err(UnknownType) <==> k == AlertOpened)
            && (r == Err(InvalidCommand) <==> k == Command && OffList(d))
            && (r == Err(Escapes) <==> k == DomUpdate && exists i: nat :: TornAt(Ops(d), i))
            && r != Err(VersionMismatch) && r != Err(MissingWorkerId)
  {
    SchemaEscapes(py, k, d);
  }

  lemma KindRefused(py: Python, k: Kind, id: string, time: string, protocol: Json, w: Json, d: Data)
    ensures var r, to := ParseKind(py, k, id, time, protocol, w, d), NamesWorker(w);
            && (r == Err(MissingWorkerId) <==> Mandatory(k) && !to)
            && (r == Err(UnknownType) <==> k == AlertOpened && to)
            && (r == Err(InvalidCommand) <==> k == Command && to && OffList(d))
            && (r == Err(Escapes) <==> k == DomUpdate && to && exists i: nat :: TornAt(Ops(d), i))
            && r != Err(VersionMismatch)
  {
    FieldsRefused(py, k, d);
  }

  /** When a dictionary of a known type is refused, and with which error. In all other cases
      it is accepted or refused as invalid. */
  lemma RefusedIff(py: Python, d: Data, k: Kind)
    requires Types(d, k)
    ensures var r, v := Parse(py, d), Get(d, "protocol_version", Null);
            && (r == Err(VersionMismatch) <==> v != Null && !IsOne(v))
            && (r == Err(MissingWorkerId) <==> Sealed(d) && Mandatory(k) && !Addressed(d))
            && (r == Err(UnknownType) <==> Sealed(d) && Addressed(d) && k == AlertOpened)
            && (r == Err(InvalidCommand) <==> Sealed(d) && Addressed(d) && k == Command && OffList(d))
            && (r == Err(Escapes) <==>
                Sealed(d) && Addressed(d) && k == DomUpdate && exists i: nat :: TornAt(Ops(d), i))
  {
    KindRound(k);
    if Sealed(d) {
      KindRefused(py, k, Get(d, "message_id", Null).s, Get(d, "timestamp", Null).s, Get(d, "protocol_version", Null),
                  Get(d, "worker_id", Null), d);
    }
  }

  /** A dictionary without a known type is refused whatever else it holds. */
  lemma Untyped(py: Python, d: Data)
    requires forall k :: !Types(d, k)
    ensures Parse(py, d) == Err(if IsText(Get(d, "type", Null)) then UnknownType else Invalid)
  {
    var t := Get(d, "type", Null);
    if IsText(t) && KindOf(t.s).Some? { assert Types(d, KindOf(t.s).value); }
  }

  // ---- missing keys --------------------------------------------------------------------------------

  function Blank(f: Field): Json {
    if f.how == Unread then Str("") else f.otherwise
  }

  lemma ReadAbsent(py: Python, d: Data, f: Field)
    requires f.name !in d && Fits(f.how, f.otherwise)
    ensures Read(py, d, f) == Ok(Blank(f))
  {
    if f.how == AsOps { OpsRound(f.otherwise.items); }
  }

  lemma {:induction false} AbsentAll(py: Python, d: Data, fields: seq<Field>)
    requires forall i :: 0 <= i < |fields| ==> fields[i].name !in d && Fits(fields[i].how, fields[i].otherwise)
    ensures var r := ReadAll(py, d, fields);
            r.Ok? && |r.value| == |fields| && forall i :: 0 <= i < |fields| ==> r.value[i] == Blank(fields[i])
  {
    if fields != [] {
      ReadAbsent(py, d, fields[0]);
      AbsentAll(py, d, fields[1..]);
    }
  }

  lemma DefaultsFit(k: Kind, i: nat)
    requires i < |Schema(k)|
    ensures Fits(Schema(k)[i].how, Schema(k)[i].otherwise)
  {
  }

  /** What stands where every field is missing: empty texts, lists and dictionaries, zeroes
      and nothings, but for a result, which counts as a success, a browser, which has no
      window, and the throttle's middle setting. */
  function Bare(k: Kind): seq<Json> {
    var none, empty, zero := Null, Str(""), Num(0);
    match k
    case Hello => [empty]
    case Auth => [empty]
    case WorkerRegister => [Dict(map[])]
    case ControllerRegister => [none, none, none]
    case WorkerStatus => [empty, none]
    case Command => [empty, Dict(map[])]
    case CommandResult => [empty, Bool(true), none, none]
    case FullSnapshot => [zero, empty, empty, empty, Bool(false), empty]
    case DomUpdate => [List([]), zero, zero, Bool(false), empty, empty]
    case ResyncRequest => [empty]
    case ErrorNotice => [empty, empty, none]
    case Ping => [none]
    case Pong => [none]
    case ThrottleConfig => [Str("balanced"), Num(3), Num(1024), zero, Num(500)]
    case BrowserConfig => [Bool(true), none]
    case AlertOpened => [empty]
    case TabOpened => [empty, empty]
    case TabClosed => [empty]
    case ForgetWorker => []
    case ObserverCount => [zero]
  }

  lemma BareDefaults(k: Kind, i: nat)
    requires i < |Schema(k)|
    ensures |Bare(k)| == |Schema(k)| && Bare(k)[i] == Blank(Schema(k)[i])
  {
  }

  /** Only an envelope. */
  predicate Empty(k: Kind, d: Data) {
    && d.Keys <= {"type", "message_id", "timestamp", "protocol_version", "worker_id"}
    && (Scoped(k) || "worker_id" !in d)
  }

  lemma BareLength(k: Kind)
    ensures |Bare(k)| == |Schema(k)|
  {
  }

  lemma Absent(k: Kind, d: Data, i: nat)
    requires i < |Schema(k)| && Empty(k, d)
    ensures Schema(k)[i].name !in d
  {
    SchemaApart(k);
  }

  lemma BareFields(py: Python, k: Kind, d: Data)
    requires Empty(k, d)
    ensures ReadAll(py, d, Schema(k)) == Ok(Bare(k))
  {
    var fields := Schema(k);
    BareLength(k);
    forall i | 0 <= i < |fields|
      ensures fields[i].name !in d && Fits(fields[i].how, fields[i].otherwise) && Bare(k)[i] == Blank(fields[i])
    {
      Absent(k, d, i);
      DefaultsFit(k, i);
      BareDefaults(k, i);
    }
    AbsentAll(py, d, fields);
    var r := ReadAll(py, d, fields).value;
    assert r == Bare(k) by { assert forall i :: 0 <= i < |r| ==> r[i] == Bare(k)[i]; }
  }

  /** The types that need no more than an envelope. */
  predicate Spare(k: Kind) {
    !(k == Hello || k == Auth || k == WorkerStatus || k == Command || k == CommandResult || k == ErrorNotice
      || k == AlertOpened)
  }

  lemma BareChecks(k: Kind)
    requires k != Command && k != AlertOpened
    ensures |Bare(k)| == |Schema(k)| && (Checks(k, Bare(k)) <==> Spare(k))
  {
  }

  /** An envelope alone is accepted exactly for these types, with the values that stand for
      missing keys. */
  lemma BareIff(py: Python, k: Kind, d: Data)
    requires Types(d, k) && Sealed(d) && Empty(k, d) && (Scoped(k) ==> Addressed(d))
    ensures Parse(py, d).Ok? <==> Spare(k)
    ensures Spare(k) ==> Parse(py, d).value.kind == k && Parse(py, d).value.fields == Bare(k)
  {
    KindRound(k);
    if k != Command && k != AlertOpened {
      BareFields(py, k, d);
      BareChecks(k);
    } else if k == Command {
      BareCommand(d);
    }
  }

  lemma BareCommand(d: Data)
    requires Empty(Command, d)
    ensures OffList(d)
  {
    Absent(Command, d, 0);
    assert Schema(Command)[0].name == "command";
  }
}
