/** The per-agent run log: a live object that appends JSONL rows while it maintains about ten
    derived indexes, and the loader that rebuilds the same indexes from the file.
    Each index has one definition, a function of the rows in the file; both the live methods
    and the loader are proved against it. */
module RunLog {
  import opened Text

  // ---------- JSON values as Python sees them ----------

  datatype Json =
    | JNull
    | JBool(b: bool)
    | JNum(n: real)
    | JStr(s: string)
    | JArr(items: seq<Json>)
    | JObj(fields: map<string, Json>)

  predicate Truthy(j: Json) {
    match j
    case JNull => false
    case JBool(b) => b
    case JNum(n) => n != 0.0
    case JStr(s) => s != ""
    case JArr(items) => items != []
    case JObj(fields) => fields != map[]
  }

  predicate Hashable(j: Json) {
    !j.JArr? && !j.JObj?
  }

  function Get(fields: map<string, Json>, key: string, default: Json): Json {
    if key in fields then fields[key] else default
  }

  const EMPTY: Json := JStr("")

  /** The library calls the log relies on: a total JSON decoder, and `str` of a value that is
      not a string, which is never empty and so comes as a first character and the rest. */
  datatype Python = Python(loads: string -> Option<Json>, render: Json -> (char, string))
  {
    function Str(j: Json): string {
      if j.JStr? then j.s else [render(j).0] + render(j).1
    }

    /** `json.loads(x) if isinstance(x, str) else x`, kept when it is a dict. */
    function ArgFields(args: Json): Option<map<string, Json>> {
      var value := if args.JStr? then loads(args.s) else Some(args);
      match value
      case Some(JObj(fields)) => Some(fields)
      case _ => None
    }
  }

  // ---------- rows ----------

  /** One log row. An absent `exit_code` reads back like null (JNull), an absent `stderr_tail`
      like the empty string. The `command` field is only ever added in memory. */
  datatype Entry =
    | Header(title: string, agentType: string, cwd: string)
    | ToolCall(name: Json, args: Json, status: Json, result: Json, error: Json, command: Option<Json>)
    | Message(text: Json)
    | Reasoning(text: Json)
    | ErrorItem(message: Json)
    | UserMessage(text: Json)
    | TurnStarted(turnId: Json)
    | TurnCompleted(turnId: Json, usage: Json)
    | TurnFailed(turnId: Json, error: Json, exitCode: Json, stderrTail: string)
    | StatusChanged(status: Json)
    | SessionStarted(sessionId: Json, provider: Json)
    | SessionClosed
    | Subprocess(shell: string, exitCode: Json, stdout: string, stderr: string, stderrTail: string)
    | LifecycleError(reason: string, code: string, exitCode: Json, stderrTail: string, detail: Json)
    | Prompt(prompt: string, length: nat)

  datatype Logged = Logged(seqNo: nat, entry: Entry)

  /** A line of the file: a row, or text the decoder rejects. */
  datatype Line = Garbled | Row(row: Logged)

  function Rows(file: seq<Line>): seq<Logged> {
    if file == [] then []
    else
      var n := |file| - 1;
      if file[n].Row? then Rows(file[..n]) + [file[n].row] else Rows(file[..n])
  }

  const STDOUT_KEPT := 5000
  const STDERR_KEPT := 2000

  predicate IsFileTool(name: Json) {
    name in [JStr("Edit"), JStr("Write"), JStr("Read"), JStr("edit_file"), JStr("create_file"),
             JStr("write_file"), JStr("read_file")]
  }

  predicate IsShellTool(name: Json) {
    name in [JStr("Bash"), JStr("execute_command")]
  }

  lemma ToolsAreOneKind(name: Json)
    ensures !(IsFileTool(name) && IsShellTool(name))
  {
  }

  function FirstTruthy(a: Json, b: Json): Json {
    if Truthy(a) then a else b
  }

  /** The path a file tool names, if its arguments decode to a dict holding one. */
  function PathOf(py: Python, args: Json): Option<Json> {
    match py.ArgFields(args)
    case None => None
    case Some(f) =>
      var p := FirstTruthy(Get(f, "file_path", JNull),
                           FirstTruthy(Get(f, "path", JNull), FirstTruthy(Get(f, "file", JNull), EMPTY)));
      if Truthy(p) then Some(p) else None
  }

  function CommandOf(py: Python, args: Json): Option<Json> {
    match py.ArgFields(args)
    case None => None
    case Some(f) =>
      var c := FirstTruthy(Get(f, "command", JNull), FirstTruthy(Get(f, "cmd", JNull), EMPTY));
      if Truthy(c) then Some(c) else None
  }

  /** A file tool whose path cannot be put in a set: adding it raises. */
  predicate Poisoned(py: Python, e: Entry) {
    e.ToolCall? && IsFileTool(e.name) && PathOf(py, e.args).Some? && !Hashable(PathOf(py, e.args).value)
  }

  // ---------- token usage ----------

  datatype Totals = Totals(input: real, output: real, cost: real)

  /** `x or 0`, when it can be added to a number. */
  function Amount(j: Json): Option<real> {
    if !Truthy(j) then Some(0.0)
    else
      match j
      case JNum(n) => Some(n)
      case JBool(_) => Some(1.0)
      case _ => None
  }

  function TotalsOf(usage: Json): Option<Totals> {
    match usage
    case JObj(f) =>
      var i := Amount(Get(f, "inputTokens", JNull));
      var o := Amount(Get(f, "outputTokens", JNull));
      var c := Amount(Get(f, "totalCostUsd", JNull));
      if i.Some? && o.Some? && c.Some? then Some(Totals(i.value, o.value, c.value)) else None
    case _ => None
  }

  function AddTotals(sum: Option<Totals>, t: Totals): Option<Totals> {
    match sum
    case None => Some(t)
    case Some(s) => Some(Totals(s.input + t.input, s.output + t.output, s.cost + t.cost))
  }

  /** A usage report that cannot be added up: adding it raises. */
  predicate BadUsage(e: Entry) {
    e.TurnCompleted? && Truthy(e.usage) && TotalsOf(e.usage).None?
  }

  // ---------- what each index is, given the rows ----------

  /** The live object and the replayed one differ in three places only, marked by the side. */
  datatype Side = Live | Disk

  /** In memory a shell call also carries its command. */
  function Shown(py: Python, side: Side, r: Logged): Logged {
    if side.Live? && r.entry.ToolCall? && IsShellTool(r.entry.name) && CommandOf(py, r.entry.args).Some?
    then r.(entry := r.entry.(command := CommandOf(py, r.entry.args)))
    else r
  }

  predicate FailedCall(e: Entry) {
    e.ToolCall? && (e.status == JStr("failed") || Truthy(e.error))
  }

  predicate PyZero(j: Json) {
    j == JNum(0.0) || j == JBool(false)
  }

  predicate IsError(e: Entry) {
    FailedCall(e) || e.ErrorItem? || e.TurnFailed? || e.LifecycleError? || (e.Subprocess? && !PyZero(e.exitCode))
  }

  predicate IsFailingCommand(e: Entry) {
    (FailedCall(e) && IsShellTool(e.name)) || e.TurnFailed? || e.LifecycleError?
    || (e.Subprocess? && !PyZero(e.exitCode))
  }

  function ToolCalls(py: Python, side: Side, rows: seq<Logged>): seq<Logged> {
    if rows == [] then []
    else
      var n := |rows| - 1;
      ToolCalls(py, side, rows[..n]) + (if rows[n].entry.ToolCall? then [Shown(py, side, rows[n])] else [])
  }

  /** The live object never gets to record a failed call whose path raised. */
  function Errors(py: Python, side: Side, rows: seq<Logged>): seq<Logged> {
    if rows == [] then []
    else
      var n := |rows| - 1;
      Errors(py, side, rows[..n])
      + (if IsError(rows[n].entry) && !(side.Live? && Poisoned(py, rows[n].entry))
         then [Shown(py, side, rows[n])] else [])
  }

  function LastFailing(py: Python, side: Side, rows: seq<Logged>): Option<Logged> {
    if rows == [] then None
    else
      var n := |rows| - 1;
      if IsFailingCommand(rows[n].entry) then Some(Shown(py, side, rows[n])) else LastFailing(py, side, rows[..n])
  }

  function FilesTouched(py: Python, rows: seq<Logged>): set<Json> {
    if rows == [] then {}
    else
      var n := |rows| - 1;
      var e := rows[n].entry;
      FilesTouched(py, rows[..n])
      + (if e.ToolCall? && IsFileTool(e.name) && !Poisoned(py, e) && PathOf(py, e.args).Some?
         then {PathOf(py, e.args).value} else {})
  }

  function Usage(rows: seq<Logged>): Option<Totals> {
    if rows == [] then None
    else
      var n := |rows| - 1;
      var e := rows[n].entry;
      if e.TurnCompleted? && TotalsOf(e.usage).Some? && Truthy(e.usage)
      then AddTotals(Usage(rows[..n]), TotalsOf(e.usage).value)
      else Usage(rows[..n])
  }

  predicate SetsStatus(e: Entry) {
    e.TurnFailed? || e.LifecycleError? || e.StatusChanged? || e.Subprocess?
  }

  function StatusSet(e: Entry): Json
    requires SetsStatus(e)
  {
    match e
    case StatusChanged(s) => if s == JStr("error") then JStr("failed") else s
    case Subprocess(_, code, _, _, _) => if PyZero(code) then JStr("completed") else JStr("failed")
    case _ => JStr("failed")
  }

  function Status(side: Side, rows: seq<Logged>): Json {
    if rows == [] then (if side.Live? then JStr("initializing") else JStr("unknown"))
    else
      var n := |rows| - 1;
      if SetsStatus(rows[n].entry) then StatusSet(rows[n].entry) else Status(side, rows[..n])
  }

  function LastExit(rows: seq<Logged>): Json {
    if rows == [] then JNull
    else
      var n := |rows| - 1;
      var e := rows[n].entry;
      if e.Subprocess? || ((e.TurnFailed? || e.LifecycleError?) && e.exitCode != JNull)
      then e.exitCode else LastExit(rows[..n])
  }

  function StderrOf(e: Entry): string {
    match e
    case TurnFailed(_, _, _, tail) => tail
    case LifecycleError(_, _, _, tail, _) => tail
    case Subprocess(_, _, _, err, tail) => if tail != "" then tail else err
    case _ => ""
  }

  function StderrTail(rows: seq<Logged>): string {
    if rows == [] then ""
    else
      var n := |rows| - 1;
      if StderrOf(rows[n].entry) != "" then Tail(StderrOf(rows[n].entry), STDERR_KEPT)
      else StderrTail(rows[..n])
  }

  /** `outs` is the stdout each row was recorded with; the file keeps only its tail. */
  function LastMessage(side: Side, rows: seq<Logged>, outs: seq<string>): Json
    requires |outs| == |rows|
  {
    if rows == [] then EMPTY
    else
      var n := |rows| - 1;
      var e := rows[n].entry;
      if e.Message? && Truthy(e.text) then e.text
      else if e.Subprocess? && e.stdout != "" then JStr(Trim(if side.Live? then outs[n] else e.stdout, PySpace))
      else LastMessage(side, rows[..n], outs[..n])
  }

  datatype Indexes = Indexes(
    entryCount: nat, toolCalls: seq<Logged>, errors: seq<Logged>, filesTouched: set<Json>,
    lastFailing: Option<Logged>, lastMessage: Json, usage: Option<Totals>, status: Json,
    lastExit: Json, stderrTail: string)

  function IndexesOf(py: Python, side: Side, rows: seq<Logged>, outs: seq<string>): Indexes
    requires |outs| == |rows|
  {
    Indexes(|rows|, ToolCalls(py, side, rows), Errors(py, side, rows), FilesTouched(py, rows),
            LastFailing(py, side, rows), LastMessage(side, rows, outs), Usage(rows), Status(side, rows),
            LastExit(rows), StderrTail(rows))
  }

  /** The indexes after one more row, from the indexes before it. */
  function Next(py: Python, side: Side, ix: Indexes, r: Logged, out: string): Indexes {
    var e := r.entry;
    var shown := Shown(py, side, r);
    Indexes(
      ix.entryCount + 1,
      if e.ToolCall? then ix.toolCalls + [shown] else ix.toolCalls,
      if IsError(e) && !(side.Live? && Poisoned(py, e)) then ix.errors + [shown] else ix.errors,
      if e.ToolCall? && IsFileTool(e.name) && !Poisoned(py, e) && PathOf(py, e.args).Some?
      then ix.filesTouched + {PathOf(py, e.args).value} else ix.filesTouched,
      if IsFailingCommand(e) then Some(shown) else ix.lastFailing,
      if e.Message? && Truthy(e.text) then e.text
      else if e.Subprocess? && e.stdout != "" then JStr(Trim(if side.Live? then out else e.stdout, PySpace))
      else ix.lastMessage,
      if e.TurnCompleted? && TotalsOf(e.usage).Some? && Truthy(e.usage)
      then AddTotals(ix.usage, TotalsOf(e.usage).value) else ix.usage,
      if SetsStatus(e) then StatusSet(e) else ix.status,
      if e.Subprocess? || ((e.TurnFailed? || e.LifecycleError?) && e.exitCode != JNull)
      then e.exitCode else ix.lastExit,
      if StderrOf(e) != "" then Tail(StderrOf(e), STDERR_KEPT) else ix.stderrTail)
  }

  lemma IndexesSnoc(py: Python, side: Side, rows: seq<Logged>, r: Logged, outs: seq<string>, out: string)
    requires |outs| == |rows|
    ensures IndexesOf(py, side, rows + [r], outs + [out])
            == Next(py, side, IndexesOf(py, side, rows, outs), r, out)
  {
    var n := |rows|;
    assert (rows + [r])[..n] == rows && (outs + [out])[..n] == outs && (rows + [r])[n] == r;
    assert ToolCalls(py, side, rows) + [] == ToolCalls(py, side, rows);
    assert Errors(py, side, rows) + [] == Errors(py, side, rows);
    assert FilesTouched(py, rows) + {} == FilesTouched(py, rows);
  }

  /** Rows as the live object writes them. */
  predicate WrittenLive(py: Python, rows: seq<Logged>, outs: seq<string>) {
    && |outs| == |rows|
    && (forall i :: 0 <= i < |rows| ==> rows[i].seqNo == i)
    && (forall i :: 0 <= i < |rows| ==> Writable(rows[i].entry, outs[i]))
  }

  predicate Writable(e: Entry, out: string) {
    && !BadUsage(e)
    && (e.ToolCall? ==> e.command.None?)
    && (e.Subprocess? ==> e.stdout == Tail(out, STDOUT_KEPT))
  }

  function SubprocessRow(command: string, exitCode: Option<int>, stdout: string, stderr: string): Entry {
    Subprocess(command, ExitJson(exitCode), Tail(stdout, STDOUT_KEPT), Tail(stderr, STDERR_KEPT),
               Tail(stderr, STDERR_KEPT))
  }

  function LifecycleRow(message: string, code: string, exitCode: Option<int>, tail: string, detail: Json): Entry {
    LifecycleError(message, code, ExitJson(exitCode), Tail(tail, STDERR_KEPT), detail)
  }

  function ExitJson(code: Option<int>): (j: Json)
    ensures PyZero(j) <==> code == Some(0)
    ensures j == JNull <==> code.None?
  {
    if code.Some? then JNum(code.value as real) else JNull
  }

  /** A failed turn and a lifecycle failure change the same indexes. */
  lemma NextFailure(py: Python, ix: Indexes, r: Logged)
    requires r.entry.TurnFailed? || r.entry.LifecycleError?
    requires |r.entry.stderrTail| <= STDERR_KEPT
    ensures Writable(r.entry, "")
    ensures Next(py, Live, ix, r, "") == ix.(
              entryCount := ix.entryCount + 1, errors := ix.errors + [r], lastFailing := Some(r),
              status := JStr("failed"),
              lastExit := if r.entry.exitCode != JNull then r.entry.exitCode else ix.lastExit,
              stderrTail := if r.entry.stderrTail != "" then r.entry.stderrTail else ix.stderrTail)
  {
  }

  lemma NextLifecycle(py: Python, ix: Indexes, seqNo: nat, message: string, code: string, exitCode: Option<int>,
                      tail: string, detail: Json)
    ensures var r := Logged(seqNo, LifecycleRow(message, code, exitCode, tail, detail));
            && Writable(r.entry, "")
            && Next(py, Live, ix, r, "") == ix.(
              entryCount := ix.entryCount + 1, errors := ix.errors + [r], lastFailing := Some(r),
              status := JStr("failed"),
              lastExit := if exitCode.Some? then ExitJson(exitCode) else ix.lastExit,
              stderrTail := if tail != "" then Tail(tail, STDERR_KEPT) else ix.stderrTail)
  {
  }

  lemma NextSubprocess(py: Python, ix: Indexes, seqNo: nat, command: string, exitCode: Option<int>,
                       stdout: string, stderr: string)
    ensures var r := Logged(seqNo, SubprocessRow(command, exitCode, stdout, stderr));
            var failed := exitCode != Some(0);
            && Writable(r.entry, stdout)
            && Next(py, Live, ix, r, stdout) == ix.(
              entryCount := ix.entryCount + 1, lastExit := ExitJson(exitCode),
              errors := if failed then ix.errors + [r] else ix.errors,
              lastFailing := if failed then Some(r) else ix.lastFailing,
              status := if failed then JStr("failed") else JStr("completed"),
              stderrTail := if stderr != "" then Tail(stderr, STDERR_KEPT) else ix.stderrTail,
              lastMessage := if stdout != "" then JStr(Trim(stdout, PySpace)) else ix.lastMessage)
  {
    hide Tail, Trim, ExitJson;
    TailSize(stdout, STDOUT_KEPT);
    TailSize(stderr, STDERR_KEPT);
    TailSize(Tail(stderr, STDERR_KEPT), STDERR_KEPT);
  }

  // ---------- events ----------

  /** What an event can be written as. */
  predicate FromEvent(e: Entry) {
    match e
    case ToolCall(_, _, _, _, _, command) => command.None?
    case TurnCompleted(_, _) => !BadUsage(e)
    case TurnFailed(_, _, _, tail) => |tail| <= STDERR_KEPT
    case Header(_, _, _) => false
    case Subprocess(_, _, _, _, _) => false
    case LifecycleError(_, _, _, _, _) => false
    case Prompt(_, _) => false
    case _ => true
  }

  datatype Reading = Ignored | Raises | Writes(entry: Entry)

  /** The row a sidecar event is written as. A field access on something that is not a dict,
      and a usage report that cannot be added up, raise before anything is written. */
  function Read(py: Python, raw: map<string, Json>): (r: Reading)
    ensures r.Writes? ==> FromEvent(r.entry)
  {
    match Get(raw, "event", JObj(raw))
    case JObj(inner) =>
      var kind := Get(inner, "type", EMPTY);
      var turn := Get(inner, "turnId", EMPTY);
      if kind == JStr("timeline") then
        match Get(inner, "item", JObj(map[]))
        case JObj(item) => ReadItem(item)
        case _ => Raises
      else if kind == JStr("turn_started") then Writes(TurnStarted(turn))
      else if kind == JStr("turn_completed") then
        var usage := Get(inner, "usage", JObj(map[]));
        if BadUsage(TurnCompleted(turn, usage)) then Raises else Writes(TurnCompleted(turn, usage))
      else if kind == JStr("turn_failed") then
        var code := Get(inner, "exitCode", Get(inner, "exit_code", JNull));
        var err := Get(inner, "stderrTail", Get(inner, "stderr_tail", EMPTY));
        Writes(TurnFailed(turn, Get(inner, "error", EMPTY), code,
                          if Truthy(err) then Tail(py.Str(err), STDERR_KEPT) else ""))
      else if kind == JStr("status_changed") then Writes(StatusChanged(Get(inner, "status", EMPTY)))
      else if kind == JStr("session_started") then
        Writes(SessionStarted(Get(inner, "sessionId", EMPTY), Get(inner, "provider", EMPTY)))
      else if kind == JStr("session_closed") then Writes(SessionClosed)
      else Ignored
    case _ => Raises
  }

  function ReadItem(item: map<string, Json>): (r: Reading)
    ensures r.Writes? ==> FromEvent(r.entry)
  {
    var kind := Get(item, "type", EMPTY);
    if kind == JStr("tool_call") then
      Writes(ToolCall(Get(item, "name", EMPTY), Get(item, "args", EMPTY), Get(item, "status", EMPTY),
                      Get(item, "result", EMPTY), Get(item, "error", EMPTY), None))
    else if kind == JStr("assistant_message") then Writes(Message(Get(item, "text", EMPTY)))
    else if kind == JStr("reasoning") then Writes(Reasoning(Get(item, "text", EMPTY)))
    else if kind == JStr("error") then Writes(ErrorItem(Get(item, "message", EMPTY)))
    else if kind == JStr("user_message") then Writes(UserMessage(Get(item, "text", EMPTY)))
    else Ignored
  }

  // ---------- the live object ----------

  class Log {
    const py: Python
    var entryCount: nat
    var toolCalls: seq<Logged>
    var errors: seq<Logged>
    var filesTouched: set<Json>
    var lastFailing: Option<Logged>
    var lastMessage: Json
    var usage: Option<Totals>
    var status: Json
    var lastExit: Json
    var stderrTail: string
    /** The lines a file by this name held already: rows are appended behind them. */
    const existing: seq<Line>
    /** The rows written, one line each. */
    var file: seq<Logged>
    /** The stdout each row was recorded with. */
    ghost var outs: seq<string>

    ghost function View(): Indexes
      reads this
    {
      Indexes(entryCount, toolCalls, errors, filesTouched, lastFailing, lastMessage, usage, status, lastExit,
              stderrTail)
    }

    /** All lines of the file. */
    function Lines(): seq<Line>
      reads this
    {
      existing + AsLines(file)
    }

    /** Every index is the one its definition gives for the rows in the file. */
    ghost predicate Valid()
      reads this
    {
      && WrittenLive(py, file, outs)
      && entryCount == |file|
      && View() == IndexesOf(py, Live, file, outs)
    }

    /** A new log counts from its header on, whatever the file holds. */
    constructor (py: Python, title: string, agentType: string, cwd: string, existing: seq<Line>)
      ensures Valid() && file == [Logged(0, Header(title, agentType, cwd))] && this.py == py
              && this.existing == existing
    {
      this.py, this.existing := py, existing;
      entryCount, toolCalls, errors, filesTouched, lastFailing := 0, [], [], {}, None;
      lastMessage, usage, status, lastExit, stderrTail := EMPTY, None, JStr("initializing"), JNull, "";
      file, outs := [], [];
      new;
      hide IndexesOf, WrittenLive;
      var row := Append(Header(title, agentType, cwd), "");
      Extended([], [], row, "");
    }

    /** One row later: indexes that grew by the step of their definitions are valid again. */
    lemma Extended(rows: seq<Logged>, before: seq<string>, row: Logged, out: string)
      requires WrittenLive(py, rows, before)
      requires file == rows + [row] && outs == before + [out] && row.seqNo == |rows|
      requires Writable(row.entry, out)
      requires View() == Next(py, Live, IndexesOf(py, Live, rows, before), row, out)
      ensures Valid()
    {
      IndexesSnoc(py, Live, rows, row, before, out);
    }

    /** The row reaches the file and is counted; the other indexes are untouched. */
    method Append(e: Entry, ghost out: string) returns (row: Logged)
      modifies this`file, this`entryCount, this`outs
      ensures row == Logged(old(entryCount), e) && entryCount == old(entryCount) + 1
      ensures file == old(file) + [row] && outs == old(outs) + [out]
    {
      row := Logged(entryCount, e);
      entryCount := entryCount + 1;
      file := file + [row];
      outs := outs + [out];
    }

    /** The row of a failure is the last error. */
    method Fail(row: Logged)
      modifies this`status, this`errors, this`lastFailing
      ensures View() == old(View()).(status := JStr("failed"), errors := old(errors) + [row], lastFailing := Some(row))
    {
      status := JStr("failed");
      errors := errors + [row];
      lastFailing := Some(row);
    }

    /** A sidecar event. Exactly the row of `Read` is written; the event is reported as raising
        exactly when it could not be read or names a path that cannot be stored. */
    method RecordEvent(raw: map<string, Json>) returns (raised: bool)
      requires Valid()
      modifies this
      ensures Valid()
      ensures match Read(py, raw)
              case Writes(e) =>
                file == old(file) + [Logged(old(|file|), e)] && raised == Poisoned(py, e)
              case r => file == old(file) && raised == r.Raises?
      ensures outs == if Read(py, raw).Writes? then old(outs) + [""] else old(outs)
    {
      hide IndexesOf, WrittenLive, PathOf, CommandOf, TotalsOf, IsFileTool, IsShellTool, Truthy, Tail, Trim, PyZero;
      ghost var rows, before := file, outs;
      match Read(py, raw)
      case Ignored => return false;
      case Raises => return true;
      case Writes(e) =>
        raised := false;
        if e.ToolCall? {
          raised := RecordToolCall(e);
        } else if e.TurnFailed? {
          RecordTurnFailed(e);
        } else {
          RecordPlain(e);
        }
    }

    /** Events that touch at most one index. */
    method RecordPlain(e: Entry)
      requires Valid() && FromEvent(e) && !e.ToolCall? && !e.TurnFailed?
      modifies this
      ensures Valid() && outs == old(outs) + [""]
      ensures file == old(file) + [Logged(old(|file|), e)]
    {
      hide IndexesOf, WrittenLive, TotalsOf, Truthy, IsFileTool, IsShellTool, PathOf, CommandOf, PyZero;
      ghost var rows, before := file, outs;
      if e.TurnCompleted? && Truthy(e.usage) { usage := AddTotals(usage, TotalsOf(e.usage).value); }
      var row := Append(e, "");
      match e {
        case Message(text) => if Truthy(text) { lastMessage := text; }
        case ErrorItem(_) => errors := errors + [row];
        case StatusChanged(s) => status := if s == JStr("error") then JStr("failed") else s;
        case _ =>
      }
      Extended(rows, before, row, "");
    }

    method RecordTurnFailed(e: Entry)
      requires Valid() && FromEvent(e) && e.TurnFailed?
      modifies this
      ensures Valid() && outs == old(outs) + [""]
      ensures file == old(file) + [Logged(old(|file|), e)]
    {
      hide Next, IndexesOf, WrittenLive, IsFileTool, IsShellTool, PathOf, CommandOf, Tail;
      ghost var rows, before, was := file, outs, View();
      if e.exitCode != JNull { lastExit := e.exitCode; }
      if e.stderrTail != "" { stderrTail := e.stderrTail; }
      var row := Append(e, "");
      Fail(row);
      NextFailure(py, was, row);
      Extended(rows, before, row, "");
    }

    method RecordToolCall(e: Entry) returns (raised: bool)
      requires Valid() && FromEvent(e) && e.ToolCall?
      modifies this
      ensures Valid() && raised == Poisoned(py, e) && outs == old(outs) + [""]
      ensures file == old(file) + [Logged(old(|file|), e)]
    {
      hide IndexesOf, WrittenLive, PathOf, CommandOf, TotalsOf, IsFileTool, IsShellTool, Truthy, Tail, Trim, PyZero;
      ghost var rows, before := file, outs;
      var row := Append(e, "");
      ghost var written := row;
      ToolsAreOneKind(e.name);
      toolCalls := toolCalls + [row];
      if IsFileTool(e.name) {
        var path := PathOf(py, e.args);
        if path.Some? {
          if !Hashable(path.value) {
            Extended(rows, before, written, "");
            return true;
          }
          filesTouched := filesTouched + {path.value};
        }
      }
      if IsShellTool(e.name) {
        var command := CommandOf(py, e.args);
        if command.Some? {
          // the entry in the list is the same object
          row := row.(entry := e.(command := command));
          toolCalls := toolCalls[|toolCalls| - 1 := row];
        }
      }
      if e.status == JStr("failed") || Truthy(e.error) {
        errors := errors + [row];
        if IsShellTool(e.name) { lastFailing := Some(row); }
      }
      Extended(rows, before, written, "");
      return false;
    }

    /** A subprocess that did not exit with zero failed. */
    method Settle(row: Logged, exitCode: Option<int>)
      modifies this`status, this`errors, this`lastFailing
      ensures exitCode == Some(0) ==> View() == old(View()).(status := JStr("completed"))
      ensures exitCode != Some(0) ==>
                View() == old(View()).(status := JStr("failed"), errors := old(errors) + [row],
                                        lastFailing := Some(row))
    {
      if exitCode == None || exitCode.value != 0 {
        Fail(row);
      } else {
        status := JStr("completed");
      }
    }

    method RecordSubprocess(command: string, exitCode: Option<int>, stdout: string, stderr: string)
      requires Valid()
      modifies this
      ensures Valid() && outs == old(outs) + [stdout]
      ensures file == old(file) + [Logged(old(|file|), SubprocessRow(command, exitCode, stdout, stderr))]
    {
      hide Next, IndexesOf, WrittenLive, Writable, SubprocessRow, Tail, Trim, ExitJson;
      ghost var rows, before, was := file, outs, View();
      var row := Append(SubprocessRow(command, exitCode, stdout, stderr), stdout);
      lastExit := ExitJson(exitCode);
      if stderr != "" { stderrTail := Tail(stderr, STDERR_KEPT); }
      Settle(row, exitCode);
      if stdout != "" { lastMessage := JStr(Trim(stdout, PySpace)); }
      NextSubprocess(py, was, row.seqNo, command, exitCode, stdout, stderr);
      Extended(rows, before, row, stdout);
    }

    method RecordLifecycleError(message: string, code: string, exitCode: Option<int>, tail: string, detail: Json)
      requires Valid()
      modifies this
      ensures Valid()
      ensures file == old(file) + [Logged(old(|file|), LifecycleRow(message, code, exitCode, tail, detail))]
    {
      hide Next, IndexesOf, WrittenLive, Writable, LifecycleRow, Tail, ExitJson;
      ghost var rows, before, was := file, outs, View();
      var row := Append(LifecycleRow(message, code, exitCode, tail, detail), "");
      Fail(row);
      if exitCode.Some? { lastExit := ExitJson(exitCode); }
      if tail != "" { stderrTail := Tail(tail, STDERR_KEPT); }
      NextLifecycle(py, was, row.seqNo, message, code, exitCode, tail, detail);
      Extended(rows, before, row, "");
    }

    method RecordPrompt(prompt: string)
      requires Valid()
      modifies this
      ensures Valid()
      ensures file == old(file) + [Logged(old(|file|), Prompt(prompt, |prompt|))]
    {
      hide IndexesOf, WrittenLive, PathOf, CommandOf, TotalsOf, IsFileTool, IsShellTool, Truthy, Tail, Trim, PyZero;
      ghost var rows, before := file, outs;
      var row := Append(Prompt(prompt, |prompt|), "");
      Extended(rows, before, row, "");
    }
  }

  // ---------- the loader ----------

  /** No row stops the loader. */
  predicate Loads(py: Python, rows: seq<Logged>) {
    forall r <- rows :: !Poisoned(py, r.entry) && !BadUsage(r.entry)
  }

  function KeptOut(e: Entry): string {
    if e.Subprocess? then e.stdout else ""
  }

  function KeptOuts(rows: seq<Logged>): (outs: seq<string>)
    ensures |outs| == |rows|
  {
    seq(|rows|, i requires 0 <= i < |rows| => KeptOut(rows[i].entry))
  }

  function Replayed(py: Python, rows: seq<Logged>): Indexes {
    IndexesOf(py, Disk, rows, KeptOuts(rows))
  }

  lemma {:induction false} RowsOfFile(file: seq<Line>, k: nat)
    requires k < |file| && file[k].Row?
    ensures file[k].row in Rows(file)
    decreases |file|
  {
    var n := |file| - 1;
    if k < n {
      RowsOfFile(file[..n], k);
    }
  }

  /** Replaying a file: undecodable lines are skipped, and one raising row abandons the load. */
  method LoadLogFromDisk(py: Python, file: seq<Line>) returns (r: Option<Indexes>)
    ensures r.Some? <==> Loads(py, Rows(file))
    ensures r.Some? ==> r.value == Replayed(py, Rows(file))
  {
    var log := Indexes(0, [], [], {}, None, EMPTY, None, JStr("unknown"), JNull, "");
    for k := 0 to |file|
      invariant Loads(py, Rows(file[..k]))
      invariant log == Replayed(py, Rows(file[..k]))
    {
      assert file[..k + 1][..k] == file[..k];
      if file[k].Garbled? { continue; }
      var row := file[k].row;
      ghost var before := Rows(file[..k]);
      assert Rows(file[..k + 1]) == before + [row];
      RowsOfFile(file, k);
      var step := ReplayRow(py, log, row);
      if step.None? { return None; }
      assert KeptOuts(before + [row]) == KeptOuts(before) + [KeptOut(row.entry)];
      IndexesSnoc(py, Disk, before, row, KeptOuts(before), KeptOut(row.entry));
      log := step.value;
    }
    assert file[..|file|] == file;
    r := Some(log);
  }

  method ReplayRow(py: Python, log: Indexes, row: Logged) returns (r: Option<Indexes>)
    ensures r.Some? <==> !Poisoned(py, row.entry) && !BadUsage(row.entry)
    ensures r.Some? ==> r.value == Next(py, Disk, log, row, KeptOut(row.entry))
  {
    hide PathOf, CommandOf, TotalsOf, IsFileTool, IsShellTool, Truthy, Hashable, Tail, Trim;
    var next := log.(entryCount := log.entryCount + 1);
    match row.entry {
      case ToolCall(name, args, callStatus, _, error, _) =>
        next := next.(toolCalls := next.toolCalls + [row]);
        if callStatus == JStr("failed") || Truthy(error) {
          next := next.(errors := next.errors + [row]);
          if IsShellTool(name) { next := next.(lastFailing := Some(row)); }
        }
        if IsFileTool(name) {
          var path := PathOf(py, args);
          if path.Some? {
            if !Hashable(path.value) { return None; }
            next := next.(filesTouched := next.filesTouched + {path.value});
          }
        }
      case Message(text) =>
        if Truthy(text) { next := next.(lastMessage := text); }
      case ErrorItem(_) =>
        next := next.(errors := next.errors + [row]);
      case TurnFailed(_, _, code, tail) =>
        next := next.(errors := next.errors + [row], status := JStr("failed"), lastFailing := Some(row));
        if code != JNull { next := next.(lastExit := code); }
        if tail != "" { next := next.(stderrTail := Tail(tail, STDERR_KEPT)); }
      case LifecycleError(_, _, code, tail, _) =>
        next := next.(errors := next.errors + [row], status := JStr("failed"), lastFailing := Some(row));
        if code != JNull { next := next.(lastExit := code); }
        if tail != "" { next := next.(stderrTail := Tail(tail, STDERR_KEPT)); }
      case StatusChanged(s) =>
        next := next.(status := if s == JStr("error") then JStr("failed") else s);
      case TurnCompleted(_, report) =>
        if Truthy(report) {
          var t := TotalsOf(report);
          if t.None? { return None; }
          next := next.(usage := AddTotals(next.usage, t.value));
        }
      case Subprocess(_, code, stdout, stderr, tail) =>
        next := next.(lastExit := code);
        if !PyZero(code) {
          next := next.(status := JStr("failed"), errors := next.errors + [row], lastFailing := Some(row));
        } else {
          next := next.(status := JStr("completed"));
        }
        var err := if tail != "" then tail else stderr;
        if err != "" { next := next.(stderrTail := Tail(err, STDERR_KEPT)); }
        if stdout != "" { next := next.(lastMessage := JStr(Trim(stdout, PySpace))); }
      case _ =>
    }
    r := Some(next);
  }

  // ---------- the replayed log against the live one ----------

  /** The rows as they look in memory. */
  function WithCommands(py: Python, rows: seq<Logged>): (r: seq<Logged>)
    ensures |r| == |rows|
  {
    seq(|rows|, i requires 0 <= i < |rows| => Shown(py, Live, rows[i]))
  }

  lemma {:induction false} ListsAgree(py: Python, rows: seq<Logged>)
    requires forall r <- rows :: !Poisoned(py, r.entry)
    ensures ToolCalls(py, Live, rows) == WithCommands(py, ToolCalls(py, Disk, rows))
    ensures Errors(py, Live, rows) == WithCommands(py, Errors(py, Disk, rows))
    ensures match LastFailing(py, Disk, rows)
            case None => LastFailing(py, Live, rows).None?
            case Some(r) => LastFailing(py, Live, rows) == Some(Shown(py, Live, r))
  {
    hide PathOf, CommandOf, IsFileTool, IsShellTool, Truthy;
    if rows != [] {
      var n := |rows| - 1;
      assert rows[n] in rows;
      ListsAgree(py, rows[..n]);
    }
  }

  lemma {:induction false} StatusAgrees(rows: seq<Logged>)
    ensures Status(Live, rows) == Status(Disk, rows) <==> exists r <- rows :: SetsStatus(r.entry)
  {
    if rows != [] {
      var n := |rows| - 1;
      StatusAgrees(rows[..n]);
      assert rows[n] in rows;
      assert forall r <- rows :: r in rows[..n] || r == rows[n];
    }
  }

  /** The stdout the last message was taken from, if a subprocess set it. */
  function LastOutput(rows: seq<Logged>, outs: seq<string>): Option<string>
    requires |outs| == |rows|
  {
    if rows == [] then None
    else
      var n := |rows| - 1;
      var e := rows[n].entry;
      if e.Message? && Truthy(e.text) then None
      else if e.Subprocess? && e.stdout != "" then Some(outs[n])
      else LastOutput(rows[..n], outs[..n])
  }

  lemma {:induction false} MessageAgrees(py: Python, rows: seq<Logged>, outs: seq<string>)
    requires WrittenLive(py, rows, outs)
    ensures var live := LastMessage(Live, rows, outs); var disk := LastMessage(Disk, rows, KeptOuts(rows));
            match LastOutput(rows, outs)
            case None => live == disk
            case Some(out) => live == JStr(Trim(out, PySpace))
                              && disk == JStr(Trim(Tail(out, STDOUT_KEPT), PySpace))
  {
    hide Trim, Tail, Truthy, BadUsage;
    if rows != [] {
      var n := |rows| - 1;
      assert Writable(rows[n].entry, outs[n]);
      assert KeptOuts(rows)[..n] == KeptOuts(rows[..n]);
      MessageAgrees(py, rows[..n], outs[..n]);
    }
  }

  /** The message a summary shows: a tail of the last one, when it can be cut. */
  function SummaryMessage(m: Json): Option<Json> {
    if !Truthy(m) then Some(EMPTY)
    else
      match m
      case JStr(s) => Some(JStr(Tail(s, STDOUT_KEPT)))
      case JArr(items) => Some(JArr(if |items| <= STDOUT_KEPT then items else items[|items| - STDOUT_KEPT..]))
      case _ => None
  }

  /** The kept tail of an output still shows what the summary shows of the whole output: there
      is no text at all, or all of it is in the tail, or the tail starts and ends with text. */
  predicate TailKeepsMessage(out: string) {
    var text := Trim(out, PySpace);
    var blanks := |out| - |TrimEnd(out, PySpace)|;
    || text == ""
    || |text| + blanks <= STDOUT_KEPT
    || (blanks == 0 && |out| >= STDOUT_KEPT && !PySpace(out[|out| - STDOUT_KEPT]))
  }

  /** The kept tail lies inside the trailing blanks, keeps all the text, or cuts the text. */
  lemma TailParts(left: string, text: string, right: string)
    requires AllSpace(left, PySpace) && AllSpace(right, PySpace)
    requires text != "" && Trimmed(text, PySpace)
    ensures var n := STDOUT_KEPT;
            Trim(Tail(left + text + right, n), PySpace)
            == if |right| >= n then ""
               else if |text| + |right| <= n then text
               else TrimStart(text[|text| + |right| - n..], PySpace)
  {
    hide TrimStart, TrimEnd, Trim, PySpace;
    var n := STDOUT_KEPT;
    var out := left + text + right;
    var kept := Tail(out, n);
    if |right| >= n {
      assert kept == right[|right| - n..];
      assert kept == kept + "" + "";
      TrimIs(kept, kept, "", "", PySpace);
    } else if |text| + |right| <= n {
      var front := left[|left| - (|kept| - |text| - |right|)..];
      assert kept == front + text + right;
      TrimIs(kept, front, text, right, PySpace);
    } else {
      var w := text[|text| + |right| - n..];
      assert kept == w + right;
      TrimWithin(w, right);
    }
  }

  lemma TrimWithin(w: string, right: string)
    requires w != "" && !PySpace(w[|w| - 1]) && AllSpace(right, PySpace)
    ensures Trim(w + right, PySpace) == TrimStart(w, PySpace)
  {
    KeepsLast(w, right);
    TrimEndDrops(TrimStart(w, PySpace), right, PySpace);
  }

  lemma KeepsLast(w: string, right: string)
    requires w != "" && !PySpace(w[|w| - 1])
    ensures var t := TrimStart(w, PySpace);
            t != "" && t[|t| - 1] == w[|w| - 1] && TrimStart(w + right, PySpace) == t + right
  {
    if PySpace(w[0]) {
      assert (w + right)[1..] == w[1..] + right;
      KeepsLast(w[1..], right);
    }
  }

  lemma AllBlankTail(out: string)
    requires Trim(out, PySpace) == ""
    ensures Trim(Tail(out, STDOUT_KEPT), PySpace) == ""
  {
    var left, right := TrimSplits(out, PySpace);
    assert AllSpace(out, PySpace);
    var kept := Tail(out, STDOUT_KEPT);
    TrimIs(kept, kept, "", "", PySpace);
  }

  lemma SuffixEnds(x: string)
    ensures IsSuffix("", x) && IsSuffix(x, x)
  {
  }

  lemma DropsAgree(text: string, q: nat, p: nat)
    requires q <= p <= |text|
    ensures IsSuffix(text[p..], text[q..]) && (text[p..] == text[q..] <==> p == q)
  {
  }

  /** A text cut in its middle and trimmed there is an end of its tail, and all of the tail only
      if the cut was made exactly there and at a character that is not blank. */
  lemma CutText(text: string, k: nat)
    requires 0 < k < |text| && |text| - k <= STDOUT_KEPT
    ensures var t := TrimStart(text[k..], PySpace);
            && IsSuffix(t, Tail(text, STDOUT_KEPT)) && |t| <= STDOUT_KEPT
            && (t == Tail(text, STDOUT_KEPT) <==> |text| - k == STDOUT_KEPT && !PySpace(text[k]))
  {
    var t := TrimStart(text[k..], PySpace);
    var p := |text| - |t|;
    var q := if |text| <= STDOUT_KEPT then 0 else |text| - STDOUT_KEPT;
    assert t == text[p..];
    assert Tail(text, STDOUT_KEPT) == text[q..];
    DropsAgree(text, q, p);
  }

  /** What the replayed summary shows is always the end of what the live one shows, and all of
      it exactly when the kept tail keeps the message. */
  lemma TrimmedTail(out: string)
    ensures var live := Tail(Trim(out, PySpace), STDOUT_KEPT);
            var disk := Tail(Trim(Tail(out, STDOUT_KEPT), PySpace), STDOUT_KEPT);
            IsSuffix(disk, live) && (disk == live <==> TailKeepsMessage(out))
  {
    hide TrimStart, IsSuffix, Tail;
    var text := Trim(out, PySpace);
    var left, right := TrimSplits(out, PySpace);
    var n := STDOUT_KEPT;
    if text == "" {
      AllBlankTail(out);
      SuffixEnds("");
      TailSize("", n);
    } else {
      TailParts(left, text, right);
      TrimEndDrops(left + text, right, PySpace);
      TailSize(Trim(Tail(out, n), PySpace), n);
      TailSize(text, n);
      SuffixEnds(Tail(text, n));
      if |text| + |right| > n && |right| < n {
        var k := |text| + |right| - n;
        CutText(text, k);
        assert right == "" ==> out[|out| - n] == text[k];
      }
    }
  }

  /** The replayed indexes are the live ones, up to the commands kept in memory, the status before any
      row sets one, and the cut of the last message. */
  predicate Agrees(py: Python, live: Indexes, disk: Indexes) {
    live == disk.(toolCalls := WithCommands(py, disk.toolCalls),
                  errors := WithCommands(py, disk.errors),
                  lastFailing := if disk.lastFailing.Some? then Some(Shown(py, Live, disk.lastFailing.value)) else None,
                  status := live.status, lastMessage := live.lastMessage)
  }

  /** The replayed log agrees with the live one on every index, with the shell commands that
      were only ever kept in memory filled in; on the status exactly when some row set it; and
      on the summary's last message exactly when that message survived the cut of its output. */
  lemma ReplayRefinesLive(py: Python, rows: seq<Logged>, outs: seq<string>)
    requires WrittenLive(py, rows, outs) && Loads(py, rows)
    ensures var live := IndexesOf(py, Live, rows, outs);
            var disk := Replayed(py, rows);
            && Agrees(py, live, disk)
            && (live.status == disk.status <==> exists r <- rows :: SetsStatus(r.entry))
            && (SummaryMessage(live.lastMessage) == SummaryMessage(disk.lastMessage)
                <==> (LastOutput(rows, outs).Some? ==> TailKeepsMessage(LastOutput(rows, outs).value)))
  {
    hide Trim, Tail, TailKeepsMessage, Shown;
    ListsAgree(py, rows);
    StatusAgrees(rows);
    MessageAgrees(py, rows, outs);
    match LastOutput(rows, outs)
    case None =>
    case Some(out) =>
      TrimmedTail(out);
      TailSize(Trim(out, PySpace), STDOUT_KEPT);
      TailSize(Trim(Tail(out, STDOUT_KEPT), PySpace), STDOUT_KEPT);
  }

  function AsLines(rows: seq<Logged>): seq<Line> {
    seq(|rows|, i requires 0 <= i < |rows| => Row(rows[i]))
  }

  lemma {:induction false} RowsOfLines(was: seq<Line>, rows: seq<Logged>)
    ensures Rows(was + AsLines(rows)) == Rows(was) + rows
  {
    if rows == [] {
      assert was + AsLines(rows) == was && Rows(was) + rows == Rows(was);
    } else {
      var n := |rows| - 1;
      assert (was + AsLines(rows))[..|was| + n] == was + AsLines(rows[..n]);
      RowsOfLines(was, rows[..n]);
      assert Rows(was) + rows == (Rows(was) + rows[..n]) + [rows[n]];
    }
  }

  // ---------- a log opened over an old file ----------

  predicate SetsExit(e: Entry) {
    e.Subprocess? || ((e.TurnFailed? || e.LifecycleError?) && e.exitCode != JNull)
  }

  predicate SetsMessage(e: Entry) {
    (e.Message? && Truthy(e.text)) || (e.Subprocess? && e.stdout != "")
  }

  function BothUsed(a: Option<Totals>, b: Option<Totals>): Option<Totals> {
    match b case None => a case Some(t) => AddTotals(a, t)
  }

  /** Which of its single-valued indexes the newer rows set themselves. */
  datatype Settings = Settings(status: bool, exit: bool, message: bool)

  function SetBy(rows: seq<Logged>): Settings {
    if rows == [] then Settings(false, false, false)
    else
      var before, e := SetBy(rows[..|rows| - 1]), rows[|rows| - 1].entry;
      Settings(before.status || SetsStatus(e), before.exit || SetsExit(e), before.message || SetsMessage(e))
  }

  /** The indexes of older rows continued by those of newer ones: lists and counts add up, and of the
      rest the newer rows keep what they do not set. */
  function Over(older: Indexes, newer: Indexes, own: Settings): Indexes {
    Indexes(older.entryCount + newer.entryCount, older.toolCalls + newer.toolCalls, older.errors + newer.errors,
            older.filesTouched + newer.filesTouched,
            if newer.lastFailing.Some? then newer.lastFailing else older.lastFailing,
            if own.message then newer.lastMessage else older.lastMessage,
            BothUsed(older.usage, newer.usage),
            if own.status then newer.status else older.status,
            if own.exit then newer.lastExit else older.lastExit,
            if newer.stderrTail != "" then newer.stderrTail else older.stderrTail)
  }

  lemma OverNext(py: Python, older: Indexes, newer: Indexes, own: Settings, r: Logged, out: string)
    ensures var next := Settings(own.status || SetsStatus(r.entry), own.exit || SetsExit(r.entry),
                                 own.message || SetsMessage(r.entry));
            Next(py, Disk, Over(older, newer, own), r, out) == Over(older, Next(py, Disk, newer, r, out), next)
  {
    hide PathOf, IsFileTool, IsShellTool, Truthy, TotalsOf, Trim, Tail, Poisoned, IsError, StatusSet, StderrOf;
    TailSize(StderrOf(r.entry), STDERR_KEPT);
    Assoc(older.toolCalls, newer.toolCalls, [r]);
    Assoc(older.errors, newer.errors, [r]);
  }

  /** Replaying old and new rows together continues the replay of the old ones. */
  lemma {:induction false} ReplayOverOld(py: Python, was: seq<Logged>, rows: seq<Logged>)
    ensures Replayed(py, was + rows) == Over(Replayed(py, was), Replayed(py, rows), SetBy(rows))
  {
    hide IndexesOf, Next;
    if rows == [] {
      assert was + rows == was;
      NothingOver(py, was);
    } else {
      var n := |rows| - 1;
      var r := rows[n];
      ReplayOverOld(py, was, rows[..n]);
      assert was + rows == (was + rows[..n]) + [r] && rows == rows[..n] + [r];
      ReplayedNext(py, was + rows[..n], r);
      ReplayedNext(py, rows[..n], r);
      OverNext(py, Replayed(py, was), Replayed(py, rows[..n]), SetBy(rows[..n]), r, KeptOut(r.entry));
    }
  }

  lemma NothingOver(py: Python, was: seq<Logged>)
    ensures Over(Replayed(py, was), Replayed(py, []), SetBy([])) == Replayed(py, was)
  {
    hide IndexesOf;
    NothingReplayed(py);
    var all := Replayed(py, was);
    assert all.toolCalls + [] == all.toolCalls && all.errors + [] == all.errors
           && all.filesTouched + {} == all.filesTouched;
  }

  lemma NothingReplayed(py: Python)
    ensures Replayed(py, []) == Indexes(0, [], [], {}, None, EMPTY, None, JStr("unknown"), JNull, "")
  {
  }

  lemma ReplayedNext(py: Python, rows: seq<Logged>, r: Logged)
    ensures Replayed(py, rows + [r]) == Next(py, Disk, Replayed(py, rows), r, KeptOut(r.entry))
  {
    hide IndexesOf, Next;
    assert KeptOuts(rows + [r]) == KeptOuts(rows) + [KeptOut(r.entry)];
    IndexesSnoc(py, Disk, rows, r, KeptOuts(rows), KeptOut(r.entry));
  }

  /** A log agrees with the replay of its file exactly when the file held no row before: the older rows
      are replayed as well, and counted, while the new log never saw them. */
  lemma OnlyFreshAgrees(py: Python, was: seq<Logged>, rows: seq<Logged>, outs: seq<string>)
    requires WrittenLive(py, rows, outs) && Loads(py, rows)
    ensures Agrees(py, IndexesOf(py, Live, rows, outs), Replayed(py, was + rows)) <==> was == []
  {
    hide Trim, Tail, TailKeepsMessage, Shown;
    ReplayOverOld(py, was, rows);
    if was == [] {
      assert was + rows == rows;
      ReplayRefinesLive(py, rows, outs);
    }
  }

  lemma LoadsBoth(py: Python, was: seq<Logged>, rows: seq<Logged>)
    ensures Loads(py, was + rows) <==> Loads(py, was) && Loads(py, rows)
  {
    hide Poisoned, BadUsage;
    assert forall r <- was :: r in was + rows;
    assert forall r <- rows :: r in was + rows;
  }

  /** Reading a log's file: it fails exactly when some old row stops the loader or some row written
      names a path that cannot be stored, and otherwise agrees with the log exactly when the file held
      no row before. */
  method Reload(log: Log) returns (r: Option<Indexes>)
    requires log.Valid()
    ensures r.Some? <==> Loads(log.py, Rows(log.existing)) && forall row <- log.file :: !Poisoned(log.py, row.entry)
    ensures r.Some? ==> r.value == Replayed(log.py, Rows(log.existing) + log.file)
    ensures r.Some? ==> (Agrees(log.py, log.View(), r.value) <==> Rows(log.existing) == [])
  {
    hide Poisoned, Shown, IndexesOf, Agrees, BadUsage;
    RowsOfLines(log.existing, log.file);
    r := LoadLogFromDisk(log.py, log.Lines());
    LoadsBoth(log.py, Rows(log.existing), log.file);
    assert forall i :: 0 <= i < |log.file| ==> Writable(log.file[i].entry, log.outs[i]);
    if r.Some? {
      OnlyFreshAgrees(log.py, Rows(log.existing), log.file, log.outs);
    }
  }

  /** A single tool call whose arguments name a list as path makes the whole file unreadable. */
  lemma OnePathStopsTheLoad(py: Python)
    requires py.loads("{\"file_path\":[\"a\"]}") == Some(JObj(map["file_path" := JArr([JStr("a")])]))
    ensures var raw := map["type" := JStr("timeline"), "item" := JObj(map["type" := JStr("tool_call"),
                         "name" := JStr("Read"), "args" := JStr("{\"file_path\":[\"a\"]}")])];
            Read(py, raw).Writes? && Poisoned(py, Read(py, raw).entry)
  {
  }

  /** `get_full_log`: rows from line `offset` on, at most `limit` of them. Undecodable lines
      count for the offset but not for the limit. */
  method GetFullLog(file: seq<Line>, limit: int, offset: int) returns (entries: seq<Logged>)
    ensures var start := if offset < 0 then 0 else if offset > |file| then |file| else offset;
            var rows := Rows(file[start..]);
            entries == if limit <= 0 then [] else if limit < |rows| then rows[..limit] else rows
  {
    entries := [];
    ghost var start := if offset < 0 then 0 else if offset > |file| then |file| else offset;
    for i := 0 to |file|
      invariant i <= start ==> entries == []
      invariant start <= i ==> entries == Rows(file[start..i])
      invariant entries == [] || |entries| <= limit
    {
      if i < offset { continue; }
      assert file[start..i + 1][..i - start] == file[start..i];
      if |entries| >= limit {
        RowsPrefix(file[start..], i - start);
        assert file[start..][..i - start] == file[start..i];
        return;
      }
      if file[i].Row? {
        entries := entries + [file[i].row];
      }
    }
    assert file[start..|file|] == file[start..];
  }

  lemma {:induction false} RowsPrefix(file: seq<Line>, k: nat)
    requires k <= |file|
    ensures Rows(file[..k]) <= Rows(file)
    decreases |file|
  {
    var n := |file| - 1;
    if k <= n {
      RowsPrefix(file[..n], k);
      assert file[..n][..k] == file[..k];
    } else {
      assert file[..k] == file;
    }
  }
}
