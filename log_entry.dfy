/**
 * The entry model: one immutable record per observed operation, and the
 * shape it takes in `operation.json` (field names, enum names, absent
 * optional fields omitted, as Gson writes them by default).
 */
module LogModel {
  import opened Wrappers

  /** `LogType`: exactly five kinds of operation. */
  datatype LogType = Command | FileCreate | FileDelete | FileDiff | FileContent

  /** `LogEntry`: `timestamp` and `type` are mandatory, the other four are
      optional (`null` unless supplied). Equality is structural. */
  datatype LogEntry = LogEntry(
    timestamp: int,
    logType: LogType,
    path: Option<string>,
    command: Option<string>,
    output: Option<string>,
    data: Option<string>)

  /** The name each enum constant serialises under. */
  function TypeName(t: LogType): string {
    match t
    case Command => "COMMAND"
    case FileCreate => "FILE_CREATE"
    case FileDelete => "FILE_DELETE"
    case FileDiff => "FILE_DIFF"
    case FileContent => "FILE_CONTENT"
  }

  /** Reading an enum constant back from its serialised name. */
  function TypeFromName(name: string): (r: Option<LogType>)
    ensures r.Some? ==> TypeName(r.value) == name
  {
    if name == "COMMAND" then Some(Command)
    else if name == "FILE_CREATE" then Some(FileCreate)
    else if name == "FILE_DELETE" then Some(FileDelete)
    else if name == "FILE_DIFF" then Some(FileDiff)
    else if name == "FILE_CONTENT" then Some(FileContent)
    else None
  }

  lemma TypeNameRoundTrip(t: LogType)
    ensures TypeFromName(TypeName(t)) == Some(t)
  {
  }

  /** The five names are pairwise different, so the serialised type identifies the kind. */
  lemma TypeNameInjective(t: LogType, u: LogType)
    requires TypeName(t) == TypeName(u)
    ensures t == u
  {
    TypeNameRoundTrip(t);
    TypeNameRoundTrip(u);
  }

  // ---------------------------------------------------------------------
  // JSON shape of an entry

  datatype JsonValue = JNumber(n: int) | JString(s: string)

  /** A JSON object as its ordered list of members. */
  type JsonObject = seq<(string, JsonValue)>

  function OptionalMember(name: string, v: Option<string>): (r: JsonObject)
    ensures forall i :: 0 <= i < |r| ==> r[i].0 == name
  {
    match v
    case Some(s) => [(name, JString(s))]
    case None => []
  }

  /** Gson's object for an entry: members in declaration order, each under its
      own name, `type` as the constant's name, `null` members omitted. */
  function ToJson(e: LogEntry): JsonObject {
    [("timestamp", JNumber(e.timestamp)), ("type", JString(TypeName(e.logType)))]
      + OptionalMember("path", e.path)
      + OptionalMember("command", e.command)
      + OptionalMember("output", e.output)
      + OptionalMember("data", e.data)
  }

  /** The value of the first member called `name`. */
  function Lookup(o: JsonObject, name: string): Option<JsonValue> {
    if o == [] then None
    else if o[0].0 == name then Some(o[0].1)
    else Lookup(o[1..], name)
  }

  function LookupString(o: JsonObject, name: string): Option<string> {
    match Lookup(o, name)
    case Some(JString(s)) => Some(s)
    case _ => None
  }

  /** Reading an entry back from its JSON object. */
  function FromJson(o: JsonObject): Option<LogEntry> {
    match (Lookup(o, "timestamp"), LookupString(o, "type"))
    case (Some(JNumber(ts)), Some(name)) =>
      (match TypeFromName(name)
       case Some(t) =>
         Some(LogEntry(ts, t, LookupString(o, "path"), LookupString(o, "command"),
                       LookupString(o, "output"), LookupString(o, "data")))
       case None => None)
    case _ => None
  }

  /** Looking a name up past a prefix that does not mention it. */
  lemma {:induction false} LookupSkip(p: JsonObject, q: JsonObject, name: string)
    requires forall i :: 0 <= i < |p| ==> p[i].0 != name
    ensures Lookup(p + q, name) == Lookup(q, name)
  {
    if p != [] {
      assert (p + q)[1..] == p[1..] + q;
      LookupSkip(p[1..], q, name);
    } else {
      assert p + q == q;
    }
  }

  predicate Avoids(o: JsonObject, name: string) {
    forall i :: 0 <= i < |o| ==> o[i].0 != name
  }

  /** An optional member placed between members with other names is found
      exactly when it is present. */
  lemma LookupOptional(pre: JsonObject, name: string, v: Option<string>, post: JsonObject)
    requires Avoids(pre, name) && Avoids(post, name)
    ensures LookupString(pre + OptionalMember(name, v) + post, name) == v
    ensures Lookup(pre + OptionalMember(name, v) + post, name).Some? <==> v.Some?
  {
    var m := OptionalMember(name, v);
    assert pre + m + post == pre + (m + post);
    LookupSkip(pre, m + post, name);
    if v.None? {
      assert m + post == post + [];
      LookupSkip(post, [], name);
    }
  }

  /** Serialising an entry and reading it back gives the same entry. */
  lemma JsonRoundTrip(e: LogEntry)
    ensures FromJson(ToJson(e)) == Some(e)
    ensures LookupString(ToJson(e), "path") == e.path
    ensures LookupString(ToJson(e), "command") == e.command
    ensures LookupString(ToJson(e), "output") == e.output
    ensures LookupString(ToJson(e), "data") == e.data
    ensures Lookup(ToJson(e), "path").Some? <==> e.path.Some?
    ensures Lookup(ToJson(e), "command").Some? <==> e.command.Some?
    ensures Lookup(ToJson(e), "output").Some? <==> e.output.Some?
    ensures Lookup(ToJson(e), "data").Some? <==> e.data.Some?
  {
    var head: JsonObject := [("timestamp", JNumber(e.timestamp)), ("type", JString(TypeName(e.logType)))];
    var p := OptionalMember("path", e.path);
    var c := OptionalMember("command", e.command);
    var out := OptionalMember("output", e.output);
    var d := OptionalMember("data", e.data);
    var o := ToJson(e);
    assert o == head + p + c + out + d;
    assert o == head + p + (c + out + d);
    LookupOptional(head, "path", e.path, c + out + d);
    assert o == (head + p) + c + (out + d);
    LookupOptional(head + p, "command", e.command, out + d);
    assert o == (head + p + c) + out + d;
    LookupOptional(head + p + c, "output", e.output, d);
    assert o == (head + p + c + out) + d + [];
    LookupOptional(head + p + c + out, "data", e.data, []);
    assert Lookup(o, "timestamp") == Some(JNumber(e.timestamp));
    assert o[0].0 != "type" by { assert |o[0].0| != |"type"|; }
    assert o[1..][0] == ("type", JString(TypeName(e.logType)));
    assert Lookup(o, "type") == Lookup(o[1..], "type");
    assert LookupString(o, "type") == Some(TypeName(e.logType));
    TypeNameRoundTrip(e.logType);
  }

  /** `operation.json`: a JSON array of the entries in insertion order. */
  function Serialize(log: seq<LogEntry>): (doc: seq<JsonObject>)
    ensures |doc| == |log|
    ensures forall i :: 0 <= i < |log| ==> doc[i] == ToJson(log[i])
  {
    seq(|log|, i requires 0 <= i < |log| => ToJson(log[i]))
  }

  /** An entry with only the mandatory fields, as the Kotlin default
      arguments give; every builder starts from one. Gson writes it as the
      two members `timestamp` and `type` alone, since it omits `null` fields. */
  function Bare(timestamp: int, t: LogType): (e: LogEntry)
    ensures ToJson(e) == [("timestamp", JNumber(timestamp)), ("type", JString(TypeName(t)))]
  {
    LogEntry(timestamp, t, None, None, None, None)
  }

  /** The whole document reads back as the log, entry for entry, in order. */
  lemma SerializeRoundTrip(log: seq<LogEntry>)
    ensures forall i :: 0 <= i < |log| ==> FromJson(Serialize(log)[i]) == Some(log[i])
  {
    forall i | 0 <= i < |log| ensures FromJson(Serialize(log)[i]) == Some(log[i]) {
      JsonRoundTrip(log[i]);
    }
  }

  /** Which optional fields each kind carries (command entries: `command` and
      `output`; file entries: `path` and `data`). */
  predicate WellShaped(e: LogEntry) {
    match e.logType
    case Command => e.command.Some? && e.output.Some? && e.path.None? && e.data.None?
    case _ => e.path.Some? && e.data.Some? && e.command.None? && e.output.None?
  }
}
