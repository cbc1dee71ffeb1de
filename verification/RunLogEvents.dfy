/** What a sidecar event leaves in the run log, told from the fields of the event itself. */
module RunLogEvents {
  import opened Text
  import opened RunLog

  type Fields = map<string, Json>

  // ---------- which row an event is ----------

  /** The field has this value; one that is missing counts as the default. */
  predicate Says(fields: Fields, key: string, default: Json, value: Json) {
    if key in fields then fields[key] == value else value == default
  }

  predicate OfType(fields: Fields, kind: string) {
    "type" in fields && fields["type"] == JStr(kind)
  }

  predicate OfItem(inner: Fields, kind: string) {
    OfType(inner, "timeline") && "item" in inner && inner["item"].JObj? && OfType(inner["item"].fields, kind)
  }

  /** A count that can be added up: a number, a truth value, or anything that counts as false. */
  predicate Countable(fields: Fields, key: string) {
    key in fields ==> fields[key].JNum? || fields[key].JBool? || !Truthy(fields[key])
  }

  predicate Addable(usage: Json) {
    !Truthy(usage)
    || (usage.JObj? && Countable(usage.fields, "inputTokens") && Countable(usage.fields, "outputTokens")
        && Countable(usage.fields, "totalCostUsd"))
  }

  /** The event proper is the field `event`, or the whole of it. */
  function Inner(raw: Fields): Json {
    if "event" in raw then raw["event"] else JObj(raw)
  }

  /** The field under its first name, or else its second. */
  predicate EitherSays(fields: Fields, key: string, other: string, default: Json, value: Json) {
    if key in fields then fields[key] == value else Says(fields, other, default, value)
  }

  predicate EndOf(py: Python, text: Json, tail: string) {
    tail == if Truthy(text) then Tail(py.Str(text), 2000) else ""
  }

  /** The event is written as this row. */
  ghost predicate Describes(py: Python, inner: Fields, e: Entry) {
    match e
    case ToolCall(name, args, status, result, error, command) =>
      && OfItem(inner, "tool_call") && command.None?
      && var item := inner["item"].fields;
         && Says(item, "name", JStr(""), name) && Says(item, "args", JStr(""), args)
         && Says(item, "status", JStr(""), status) && Says(item, "result", JStr(""), result)
         && Says(item, "error", JStr(""), error)
    case Message(text) => OfItem(inner, "assistant_message") && Says(inner["item"].fields, "text", JStr(""), text)
    case Reasoning(text) => OfItem(inner, "reasoning") && Says(inner["item"].fields, "text", JStr(""), text)
    case ErrorItem(message) => OfItem(inner, "error") && Says(inner["item"].fields, "message", JStr(""), message)
    case UserMessage(text) => OfItem(inner, "user_message") && Says(inner["item"].fields, "text", JStr(""), text)
    case TurnStarted(turn) => OfType(inner, "turn_started") && Says(inner, "turnId", JStr(""), turn)
    case TurnCompleted(turn, usage) =>
      && OfType(inner, "turn_completed") && Says(inner, "turnId", JStr(""), turn)
      && Says(inner, "usage", JObj(map[]), usage) && Addable(usage)
    case TurnFailed(turn, error, code, tail) =>
      && OfType(inner, "turn_failed") && Says(inner, "turnId", JStr(""), turn) && Says(inner, "error", JStr(""), error)
      && EitherSays(inner, "exitCode", "exit_code", JNull, code)
      && exists text :: EitherSays(inner, "stderrTail", "stderr_tail", JStr(""), text) && EndOf(py, text, tail)
    case StatusChanged(status) => OfType(inner, "status_changed") && Says(inner, "status", JStr(""), status)
    case SessionStarted(session, provider) =>
      && OfType(inner, "session_started") && Says(inner, "sessionId", JStr(""), session)
      && Says(inner, "provider", JStr(""), provider)
    case SessionClosed => OfType(inner, "session_closed")
    case _ => false
  }

  ghost predicate IsRow(py: Python, raw: Fields, e: Entry) {
    Inner(raw).JObj? && Describes(py, Inner(raw).fields, e)
  }

  /** Reading the event raises: it or its item is no object, or its usage cannot be added up. */
  predicate Malformed(raw: Fields) {
    !Inner(raw).JObj?
    || var inner := Inner(raw).fields;
       (OfType(inner, "timeline") && "item" in inner && !inner["item"].JObj?)
       || (OfType(inner, "turn_completed") && "usage" in inner && !Addable(inner["usage"]))
  }

  lemma AddableMeans(turn: Json, usage: Json)
    ensures Addable(usage) <==> !BadUsage(TurnCompleted(turn, usage))
  {
  }

  lemma ItemIsRow(py: Python, item: Fields, inner: Fields, e: Entry)
    requires OfType(inner, "timeline") && "item" in inner && inner["item"] == JObj(item)
    ensures ReadItem(item) == Writes(e) <==> Describes(py, inner, e)
    ensures !ReadItem(item).Raises?
  {
    hide EndOf, Addable;
  }

  lemma FailedIsRow(py: Python, inner: Fields, e: Entry)
    requires OfType(inner, "turn_failed")
    ensures Read(py, map["event" := JObj(inner)]) == Writes(e) <==> Describes(py, inner, e)
  {
    hide Addable, Tail;
    var err := Get(inner, "stderrTail", Get(inner, "stderr_tail", EMPTY));
    assert EitherSays(inner, "stderrTail", "stderr_tail", JStr(""), err);
  }

  lemma ReadInner(py: Python, raw: Fields)
    requires Inner(raw).JObj?
    ensures Read(py, raw) == Read(py, map["event" := Inner(raw)])
  {
  }

  lemma CompletedIsRow(py: Python, inner: Fields, e: Entry)
    requires OfType(inner, "turn_completed")
    ensures Read(py, map["event" := JObj(inner)]) == Writes(e) <==> Describes(py, inner, e)
    ensures Read(py, map["event" := JObj(inner)]).Raises? <==> "usage" in inner && !Addable(inner["usage"])
  {
    hide Addable, BadUsage, EndOf, ReadItem;
    var turn := Get(inner, "turnId", EMPTY);
    AddableMeans(turn, Get(inner, "usage", JObj(map[])));
    AddableMeans(turn, JObj(map[]));
    if e.TurnCompleted? { AddableMeans(e.turnId, e.usage); }
    NothingIsAddable();
  }

  lemma OtherIsRow(py: Python, inner: Fields, e: Entry)
    requires !OfType(inner, "turn_failed") && !OfType(inner, "timeline") && !OfType(inner, "turn_completed")
    ensures Read(py, map["event" := JObj(inner)]) == Writes(e) <==> Describes(py, inner, e)
    ensures !Read(py, map["event" := JObj(inner)]).Raises?
  {
    hide Addable, BadUsage, EndOf, ReadItem;
  }

  lemma NothingIsAddable()
    ensures Addable(JObj(map[]))
  {
  }

  /** An event is written as a row exactly when its fields say so; no other type of event or item writes
      anything, and it raises exactly when it is malformed. */
  lemma ReadExactly(py: Python, raw: Fields, e: Entry)
    ensures Read(py, raw) == Writes(e) <==> IsRow(py, raw, e)
    ensures Read(py, raw).Raises? <==> Malformed(raw)
  {
    hide Addable, BadUsage, EndOf, Describes, ReadItem;
    if Inner(raw).JObj? {
      var inner := Inner(raw).fields;
      ReadInner(py, raw);
      hide Read;
      if OfType(inner, "timeline") {
        TimelineIsRow(py, inner, e);
      } else if OfType(inner, "turn_failed") {
        FailedIsRow(py, inner, e);
        FailedNeverRaises(py, inner);
      } else if OfType(inner, "turn_completed") {
        CompletedIsRow(py, inner, e);
      } else {
        OtherIsRow(py, inner, e);
      }
    }
  }

  lemma FailedNeverRaises(py: Python, inner: Fields)
    requires OfType(inner, "turn_failed")
    ensures !Read(py, map["event" := JObj(inner)]).Raises?
  {
  }

  lemma TimelineIsRow(py: Python, inner: Fields, e: Entry)
    requires OfType(inner, "timeline")
    ensures Read(py, map["event" := JObj(inner)]) == Writes(e) <==> Describes(py, inner, e)
    ensures Read(py, map["event" := JObj(inner)]).Raises? <==> "item" in inner && !inner["item"].JObj?
  {
    hide Addable, BadUsage, EndOf;
    if "item" in inner && inner["item"].JObj? {
      ItemIsRow(py, inner["item"].fields, inner, e);
    }
  }

  // ---------- writing an event and reading it ----------

  function TimelineOf(item: Fields): Fields {
    map["type" := JStr("timeline"), "item" := JObj(item)]
  }

  /** The sidecar's event for a row. */
  function EventOf(e: Entry): Fields {
    match e
    case ToolCall(name, args, status, result, error, _) =>
      TimelineOf(map["type" := JStr("tool_call"), "name" := name, "args" := args, "status" := status,
                     "result" := result, "error" := error])
    case Message(text) => TimelineOf(map["type" := JStr("assistant_message"), "text" := text])
    case Reasoning(text) => TimelineOf(map["type" := JStr("reasoning"), "text" := text])
    case ErrorItem(message) => TimelineOf(map["type" := JStr("error"), "message" := message])
    case UserMessage(text) => TimelineOf(map["type" := JStr("user_message"), "text" := text])
    case TurnStarted(turn) => map["type" := JStr("turn_started"), "turnId" := turn]
    case TurnCompleted(turn, usage) => map["type" := JStr("turn_completed"), "turnId" := turn, "usage" := usage]
    case TurnFailed(turn, error, code, tail) =>
      map["type" := JStr("turn_failed"), "turnId" := turn, "error" := error, "exitCode" := code,
          "stderrTail" := JStr(tail)]
    case StatusChanged(status) => map["type" := JStr("status_changed"), "status" := status]
    case SessionStarted(session, provider) =>
      map["type" := JStr("session_started"), "sessionId" := session, "provider" := provider]
    case SessionClosed => map["type" := JStr("session_closed")]
    case _ => map[]
  }

  /** A row that the sidecar can cause. */
  predicate Sendable(e: Entry) {
    match e
    case ToolCall(_, _, _, _, _, command) => command.None?
    case TurnCompleted(_, usage) => Addable(usage)
    case TurnFailed(_, _, _, tail) => |tail| <= 2000
    case Header(_, _, _) => false
    case Subprocess(_, _, _, _, _) => false
    case LifecycleError(_, _, _, _, _) => false
    case Prompt(_, _) => false
    case _ => true
  }

  lemma EventDescribes(py: Python, e: Entry)
    requires Sendable(e) && !e.TurnFailed?
    ensures Describes(py, EventOf(e), e)
  {
    hide Addable, EndOf;
  }

  lemma FailureDescribes(py: Python, e: Entry)
    requires Sendable(e) && e.TurnFailed?
    ensures Describes(py, EventOf(e), e)
  {
    hide Tail;
    TailSize(e.stderrTail, 2000);
    assert EndOf(py, JStr(e.stderrTail), e.stderrTail);
    assert EitherSays(EventOf(e), "stderrTail", "stderr_tail", JStr(""), JStr(e.stderrTail));
  }

  lemma BareOrWrapped(e: Entry, timestamp: Json)
    ensures Inner(EventOf(e)) == JObj(EventOf(e))
    ensures Inner(map["timestamp" := timestamp, "event" := JObj(EventOf(e))]) == JObj(EventOf(e))
  {
  }

  /** The event of a row describes this row, wrapped with a timestamp or bare. */
  lemma EventIsRow(py: Python, e: Entry, timestamp: Json)
    requires Sendable(e)
    ensures IsRow(py, EventOf(e), e) && IsRow(py, map["timestamp" := timestamp, "event" := JObj(EventOf(e))], e)
  {
    hide EventOf, Describes, Inner;
    BareOrWrapped(e, timestamp);
    if e.TurnFailed? { FailureDescribes(py, e); } else { EventDescribes(py, e); }
  }

  // ---------- what a row does to the indexes ----------

  /** The first of these fields that counts as true. */
  function FirstOf(fields: Fields, keys: seq<string>): Option<Json> {
    if keys == [] then None
    else if keys[0] in fields && Truthy(fields[keys[0]]) then Some(fields[keys[0]])
    else FirstOf(fields, keys[1..])
  }

  /** The arguments of a call: an object, or a text that decodes to one. */
  function Arguments(py: Python, args: Json): Fields {
    match args
    case JObj(fields) => fields
    case JStr(text) => (match py.loads(text) case Some(JObj(fields)) => fields case _ => map[])
    case _ => map[]
  }

  function Count(fields: Fields, key: string): real {
    if key !in fields then 0.0
    else
      match fields[key]
      case JNum(n) => n
      case JBool(b) => if b then 1.0 else 0.0
      case _ => 0.0
  }

  function Counted(usage: Option<Totals>, fields: Fields): Totals {
    var before := if usage.Some? then usage.value else Totals(0.0, 0.0, 0.0);
    Totals(before.input + Count(fields, "inputTokens"), before.output + Count(fields, "outputTokens"),
           before.cost + Count(fields, "totalCostUsd"))
  }

  predicate FileTool(name: Json) {
    name.JStr? && name.s in {"Edit", "Write", "Read", "edit_file", "create_file", "write_file", "read_file"}
  }

  predicate ShellTool(name: Json) {
    name.JStr? && name.s in {"Bash", "execute_command"}
  }

  /** A file tool whose path is a list or an object, which no set can hold. */
  predicate Unstorable(py: Python, e: Entry) {
    e.ToolCall? && FileTool(e.name)
    && match FirstOf(Arguments(py, e.args), ["file_path", "path", "file"])
       case Some(path) => path.JArr? || path.JObj?
       case None => false
  }

  lemma PoisonMeans(py: Python, e: Entry)
    ensures Poisoned(py, e) <==> Unstorable(py, e)
  {
    hide PathOf, IsFileTool, FileTool, FirstOf, Arguments;
    if e.ToolCall? {
      PathIsFirst(py, e.args);
      ToolNames(e.name);
    }
  }

  /** A call enters the tool list, and the error list if it failed; a file tool adds its path, unless that
      cannot be stored, which ends the recording; a shell tool carries its command. */
  function AfterCall(py: Python, was: Indexes, r: Logged): Indexes
    requires r.entry.ToolCall?
  {
    var e := r.entry;
    var fields := Arguments(py, e.args);
    var path := if FileTool(e.name) then FirstOf(fields, ["file_path", "path", "file"]) else None;
    var command := if ShellTool(e.name) then FirstOf(fields, ["command", "cmd"]) else None;
    var shown := if command.Some? then r.(entry := e.(command := command)) else r;
    var failed := e.status == JStr("failed") || Truthy(e.error);
    var now := was.(entryCount := was.entryCount + 1, toolCalls := was.toolCalls + [shown]);
    if Unstorable(py, e) then now
    else
      now.(filesTouched := if path.Some? then was.filesTouched + {path.value} else was.filesTouched,
           errors := if failed then was.errors + [shown] else was.errors,
           lastFailing := if failed && ShellTool(e.name) then Some(shown) else was.lastFailing)
  }

  /** The indexes after a row that a sidecar event caused. */
  function AfterRow(py: Python, was: Indexes, r: Logged): Indexes {
    var now := was.(entryCount := was.entryCount + 1);
    match r.entry
    case ToolCall(_, _, _, _, _, _) => AfterCall(py, was, r)
    case Message(text) => if Truthy(text) then now.(lastMessage := text) else now
    case ErrorItem(_) => now.(errors := was.errors + [r])
    case TurnCompleted(_, usage) =>
      if usage.JObj? && usage.fields != map[] then now.(usage := Some(Counted(was.usage, usage.fields))) else now
    case TurnFailed(_, _, code, tail) =>
      now.(errors := was.errors + [r], lastFailing := Some(r), status := JStr("failed"),
           lastExit := if code != JNull then code else was.lastExit,
           stderrTail := if tail != "" then tail else was.stderrTail)
    case StatusChanged(status) =>
      now.(status := if status == JStr("error") then JStr("failed") else status)
    case _ => now
  }

  lemma FirstOfMore(fields: Fields, key: string, keys: seq<string>)
    ensures FirstOf(fields, []) == None
    ensures FirstOf(fields, [key] + keys)
            == if key in fields && Truthy(fields[key]) then Some(fields[key]) else FirstOf(fields, keys)
  {
    assert ([key] + keys)[1..] == keys;
  }

  lemma PathIsFirst(py: Python, args: Json)
    ensures PathOf(py, args) == FirstOf(Arguments(py, args), ["file_path", "path", "file"])
  {
    hide FirstOf;
    var fields := Arguments(py, args);
    FirstOfMore(fields, "file", []);
    FirstOfMore(fields, "path", ["file"]);
    FirstOfMore(fields, "file_path", ["path", "file"]);
    assert ["file"] + [] == ["file"] && ["path"] + ["file"] == ["path", "file"];
    assert ["file_path"] + ["path", "file"] == ["file_path", "path", "file"];
  }

  lemma CommandIsFirst(py: Python, args: Json)
    ensures CommandOf(py, args) == FirstOf(Arguments(py, args), ["command", "cmd"])
  {
    hide FirstOf;
    var fields := Arguments(py, args);
    FirstOfMore(fields, "cmd", []);
    FirstOfMore(fields, "command", ["cmd"]);
    assert ["cmd"] + [] == ["cmd"] && ["command"] + ["cmd"] == ["command", "cmd"];
  }

  lemma ToolNames(name: Json)
    ensures (IsFileTool(name) <==> FileTool(name)) && (IsShellTool(name) <==> ShellTool(name))
  {
  }

  lemma CallEffect(py: Python, was: Indexes, r: Logged)
    requires r.entry.ToolCall? && Sendable(r.entry)
    ensures Next(py, Live, was, r, "") == AfterCall(py, was, r)
  {
    hide PathOf, CommandOf, IsFileTool, IsShellTool, FileTool, ShellTool, FirstOf, Arguments, Truthy;
    PathIsFirst(py, r.entry.args);
    CommandIsFirst(py, r.entry.args);
    PoisonMeans(py, r.entry);
    ToolNames(r.entry.name);
    ToolsAreOneKind(r.entry.name);
  }

  lemma UsageEffect(sum: Option<Totals>, usage: Json)
    requires Addable(usage)
    ensures if usage.JObj? && usage.fields != map[]
            then TotalsOf(usage).Some? && Truthy(usage)
                 && AddTotals(sum, TotalsOf(usage).value) == Some(Counted(sum, usage.fields))
            else TotalsOf(usage).None? || !Truthy(usage)
  {
  }

  /** Every row of a sidecar event changes the indexes as `AfterRow` tells. */
  lemma RowEffect(py: Python, was: Indexes, r: Logged)
    requires Sendable(r.entry)
    ensures Next(py, Live, was, r, "") == AfterRow(py, was, r)
  {
    hide PathOf, CommandOf, IsFileTool, IsShellTool, AfterCall, Addable, TotalsOf, AddTotals, Counted, Tail;
    if r.entry.ToolCall? {
      CallEffect(py, was, r);
    } else if r.entry.TurnCompleted? {
      UsageEffect(was.usage, r.entry.usage);
    } else if r.entry.TurnFailed? {
      TailSize(r.entry.stderrTail, STDERR_KEPT);
    }
  }

  lemma RowIsSendable(py: Python, inner: Fields, e: Entry)
    requires Describes(py, inner, e)
    ensures Sendable(e)
  {
    if e.TurnFailed? {
      var text :| EitherSays(inner, "stderrTail", "stderr_tail", JStr(""), text) && EndOf(py, text, e.stderrTail);
      TailSize(py.Str(text), 2000);
    }
  }

  /** A sidecar event, from its fields to the indexes: the row it describes is appended and changes the
      indexes as told; an event that describes none changes nothing. */
  method Record(log: Log, raw: Fields) returns (raised: bool)
    requires log.Valid()
    modifies log
    ensures log.Valid()
    ensures forall e :: IsRow(log.py, raw, e) ==>
              && log.file == old(log.file) + [Logged(old(|log.file|), e)]
              && log.View() == AfterRow(log.py, old(log.View()), Logged(old(|log.file|), e))
              && (raised <==> Unstorable(log.py, e))
    ensures (forall e :: !IsRow(log.py, raw, e)) ==>
              && log.file == old(log.file) && log.View() == old(log.View())
              && (raised <==> Malformed(raw))
  {
    ghost var rows, outs, was, py := log.file, log.outs, log.View(), log.py;
    hide IndexesOf, WrittenLive, AfterRow, Describes, Poisoned, Unstorable, Sendable;
    raised := log.RecordEvent(raw);
    forall e ensures Read(py, raw) == Writes(e) <==> IsRow(py, raw, e) { ReadExactly(py, raw, e); }
    ReadExactly(py, raw, SessionClosed);
    hide Read, Malformed, IsRow;
    if e :| IsRow(py, raw, e) {
      RowIsSendable(py, Inner(raw).fields, e);
      PoisonMeans(py, e);
      RowEffect(py, was, Logged(|rows|, e));
      IndexesSnoc(py, Live, rows, Logged(|rows|, e), outs, "");
    }
  }

  /** The round trip: the event of any row the sidecar can cause appends exactly that row. */
  method RecordSent(log: Log, e: Entry, timestamp: Json, wrapped: bool) returns (raised: bool)
    requires log.Valid() && Sendable(e)
    modifies log
    ensures log.Valid()
    ensures log.file == old(log.file) + [Logged(old(|log.file|), e)]
    ensures log.View() == AfterRow(log.py, old(log.View()), Logged(old(|log.file|), e))
  {
    hide IsRow, AfterRow, Describes, Sendable;
    EventIsRow(log.py, e, timestamp);
    raised := Record(log, if wrapped then map["timestamp" := timestamp, "event" := JObj(EventOf(e))] else EventOf(e));
  }

  /** The row of a subprocess keeps the ends of its outputs, that of a lifecycle failure the end of its
      error output. */
  lemma CutRows(command: string, exitCode: Option<int>, stdout: string, stderr: string, code: string, detail: Json)
    ensures var exit := match exitCode case Some(n) => JNum(n as real) case None => JNull;
            && SubprocessRow(command, exitCode, stdout, stderr)
               == Subprocess(command, exit, Tail(stdout, 5000), Tail(stderr, 2000), Tail(stderr, 2000))
            && LifecycleRow(command, code, exitCode, stderr, detail)
               == LifecycleError(command, code, exit, Tail(stderr, 2000), detail)
  {
  }

  /** The text of an assistant message, if the event is one and has a text. */
  function MessageText(raw: Fields): Option<Json> {
    if Inner(raw).JObj? && OfItem(Inner(raw).fields, "assistant_message") then
      var item := Inner(raw).fields["item"].fields;
      if "text" in item && Truthy(item["text"]) then Some(item["text"]) else None
    else None
  }

  lemma MessageEffect(py: Python, raw: Fields, was: Indexes, r: Logged)
    requires IsRow(py, raw, r.entry)
    ensures AfterRow(py, was, r).lastMessage
            == match MessageText(raw) case Some(text) => text case None => was.lastMessage
  {
    hide FirstOf, Arguments, FileTool, ShellTool, Counted, Addable, EndOf;
  }

  lemma MessageIsRow(py: Python, raw: Fields)
    requires MessageText(raw).Some?
    ensures IsRow(py, raw, Message(MessageText(raw).value))
  {
  }

  /** An assistant message with a text becomes the last message; no other sidecar event changes it. */
  method RecordMessage(log: Log, raw: Fields) returns (raised: bool)
    requires log.Valid()
    modifies log
    ensures log.Valid()
    ensures log.lastMessage == match MessageText(raw) case Some(text) => text case None => old(log.lastMessage)
  {
    hide IsRow, AfterRow, MessageText, Malformed, Log.Valid;
    ghost var py, was, n := log.py, log.View(), |log.file|;
    raised := Record(log, raw);
    if MessageText(raw).Some? { MessageIsRow(py, raw); }
    if e :| IsRow(py, raw, e) { MessageEffect(py, raw, was, Logged(n, e)); }
  }
}
