/** The agent-to-agent task server: a bounded store of tasks, and executors that queue on one
    lock. Request handlers run without awaiting, so a run is a sequence of the atomic pieces
    between awaits. The states are those of section 6.3 (TaskState Enum) of the A2A Protocol
    specification v0.3, restricted to the server's dialect. */
module TaskServer {
  import opened Text

  datatype TaskState = Submitted | Working | Completed | Failed | Canceled

  predicate Terminal(s: TaskState) {
    s.Completed? || s.Failed? || s.Canceled?
  }

  datatype Artifact = Artifact(name: string, text: string)

  datatype Task = Task(contextId: string, message: string, state: TaskState, artifacts: seq<Artifact>)

  datatype Phase = Waiting | Holding

  /** A coroutine that has not ended: it waits for the lock or holds it. */
  datatype Executor = Executor(task: string, phase: Phase, cancelled: bool)

  datatype Server = Server(
    tasks: map<string, Task>, order: seq<string>, running: map<string, nat>,
    executors: map<nat, Executor>, lock: Option<nat>, next: nat)

  /** How the agent call of a lock holder ends. After a cancel request any end is possible:
      the agent code may answer the cancellation in its own way. */
  datatype Outcome = Answered(text: string) | TimedOut(text: string) | Crashed(text: string) | Stopped

  datatype Event =
    | Send(id: string, contextId: string, text: string, invalid: Option<string>)
    | Cancel(id: string)
    | Start(executor: nat, workspace: bool)
    | Drop(executor: nat)
    | Finish(executor: nat, outcome: Outcome)

  const EMPTY := Server(map[], [], map[], map[], None, 0)

  // ---------- the steps ----------

  /** An executor that may still act on its task. */
  predicate Live(e: Executor) {
    e.phase.Holding? || !e.cancelled
  }

  /** An executor that waits for the lock and has not been cancelled. */
  predicate Waits(s: Server, e: nat) {
    e in s.executors && s.executors[e].phase.Waiting? && !s.executors[e].cancelled
  }

  /** Executors are numbered as they are created, and the lock serves them in that order. */
  predicate FirstInLine(s: Server, e: nat) {
    forall f <- s.executors :: f < e ==> !Waits(s, f)
  }

  predicate Enabled(s: Server, ev: Event) {
    match ev
    case Send(_, _, _, _) => true
    case Cancel(_) => true
    case Start(e, _) => Waits(s, e) && s.lock.None? && FirstInLine(s, e)
    case Drop(e) => e in s.executors && s.executors[e].phase.Waiting? && s.executors[e].cancelled
    case Finish(e, _) => e in s.executors && s.executors[e].phase.Holding? && s.lock == Some(e)
  }

  function Arrivals(s: Server, id: string): seq<string> {
    if id in s.tasks then s.order else s.order + [id]
  }

  /** The last `max` of the arrivals stay. */
  function Kept(order: seq<string>, max: nat): seq<string> {
    if |order| <= max then order else order[|order| - max..]
  }

  function Evicted(order: seq<string>, max: nat): set<string> {
    if |order| <= max then {} else set i | 0 <= i < |order| - max :: order[i]
  }

  function Stored(s: Server, max: nat, id: string, task: Task): Server {
    var order := Arrivals(s, id);
    s.(order := Kept(order, max), tasks := s.tasks[id := task] - Evicted(order, max),
       running := s.running - Evicted(order, max))
  }

  function Finished(tasks: map<string, Task>, id: string, state: TaskState, artifact: Artifact): map<string, Task> {
    if id in tasks && !Terminal(tasks[id].state)
    then tasks[id := tasks[id].(state := state, artifacts := [artifact])]
    else tasks
  }

  function OutcomeState(o: Outcome): TaskState {
    match o
    case Answered(_) => Completed
    case Stopped => Canceled
    case _ => Failed
  }

  function OutcomeArtifact(o: Outcome): Artifact {
    match o
    case Answered(text) => Artifact("coder-result", text)
    case Stopped => Artifact("coder-result", "task canceled")
    case TimedOut(text) => Artifact("agent-error", text)
    case Crashed(text) => Artifact("agent-error", text)
  }

  function InvalidInput(why: string): Artifact {
    Artifact("agent-error", "invalid task input: " + why)
  }

  function Sent(s: Server, max: nat, ev: Event): Server
    requires ev.Send?
  {
    var stored := Stored(s, max, ev.id, Task(ev.contextId, ev.text, Submitted, []));
    match ev.invalid
    case Some(why) =>
      stored.(tasks := Finished(stored.tasks, ev.id, Failed, InvalidInput(why)))
    case None =>
      stored.(running := stored.running[ev.id := s.next],
              executors := stored.executors[s.next := Executor(ev.id, Waiting, false)],
              next := s.next + 1)
  }

  function Step(s: Server, max: nat, ev: Event): Server
    requires Enabled(s, ev)
  {
    match ev
    case Send(_, _, _, _) => Sent(s, max, ev)
    case Cancel(id) =>
      if id !in s.tasks then s
      else
        var t := s.tasks[id];
        var stopped := if id in s.running && s.running[id] in s.executors
                       then s.executors[s.running[id] := s.executors[s.running[id]].(cancelled := true)]
                       else s.executors;
        s.(running := s.running - {id}, executors := stopped,
           tasks := if Terminal(t.state) then s.tasks else s.tasks[id := t.(state := Canceled)])
    case Start(e, workspace) =>
      var id := s.executors[e].task;
      if id !in s.tasks || s.tasks[id].state.Canceled? then s.(executors := s.executors - {e})
      else
        var started := s.(tasks := s.tasks[id := s.tasks[id].(state := Working)]);
        if workspace
        then started.(executors := s.executors[e := s.executors[e].(phase := Holding)], lock := Some(e))
        else started.(executors := s.executors - {e})
    case Drop(e) => s.(executors := s.executors - {e})
    case Finish(e, o) =>
      var id := s.executors[e].task;
      s.(tasks := Finished(s.tasks, id, OutcomeState(o), OutcomeArtifact(o)), running := s.running - {id},
         executors := s.executors - {e}, lock := None)
  }

  // ---------- the server object ----------

  class TaskStore {
    const maxTasks: nat
    var tasks: map<string, Task>
    var order: seq<string>
    var running: map<string, nat>
    var executors: map<nat, Executor>
    var lock: Option<nat>
    var next: nat

    ghost function View(): Server
      reads this
    {
      Server(tasks, order, running, executors, lock, next)
    }

    constructor (maxTasks: nat)
      ensures View() == EMPTY && this.maxTasks == maxTasks
    {
      this.maxTasks := maxTasks;
      tasks, order, running, executors, lock, next := map[], [], map[], map[], None, 0;
    }

    method StoreTask(id: string, task: Task)
      modifies this
      ensures View() == Stored(old(View()), maxTasks, id, task)
    {
      if id !in tasks { order := order + [id]; }
      tasks := tasks[id := task];
      ghost var all, stored, entries := order, tasks, running;
      ghost var gone: set<string> := {};
      ghost var k := 0;
      while |order| > maxTasks
        invariant 0 <= k <= |all| && order == all[k..] && (k > 0 ==> |order| >= maxTasks)
        invariant gone == set i | 0 <= i < k :: all[i]
        invariant tasks == stored - gone && running == entries - gone
        invariant executors == old(executors) && lock == old(lock) && next == old(next)
        decreases |order|
      {
        var expired := order[0];
        order := order[1..];
        tasks := tasks - {expired};
        running := running - {expired};
        gone := gone + {expired};
        k := k + 1;
      }
      assert order == Kept(all, maxTasks);
      assert gone == Evicted(all, maxTasks);
    }

    method FinishTask(id: string, state: TaskState, text: string, artifactName: string)
      modifies this`tasks
      ensures tasks == Finished(old(tasks), id, state, Artifact(artifactName, text))
    {
      if id !in tasks || Terminal(tasks[id].state) { return; }
      tasks := tasks[id := tasks[id].(state := state)];
      tasks := tasks[id := tasks[id].(artifacts := [Artifact(artifactName, text)])];
    }

    /** `message/send`. A message without text is refused and changes nothing. */
    method MessageSend(id: string, contextId: string, text: string, invalid: Option<string>) returns (accepted: bool)
      modifies this
      ensures accepted <==> text != ""
      ensures View() == if accepted then Step(old(View()), maxTasks, Send(id, contextId, text, invalid))
                        else old(View())
    {
      if text == "" { return false; }
      StoreTask(id, Task(contextId, text, Submitted, []));
      if invalid.Some? {
        FinishTask(id, Failed, "invalid task input: " + invalid.value, "agent-error");
        return true;
      }
      executors := executors[next := Executor(id, Waiting, false)];
      running := running[id := next];
      next := next + 1;
      return true;
    }

    /** `tasks/cancel`. */
    method TasksCancel(id: string) returns (found: bool)
      modifies this
      ensures found <==> id in old(tasks)
      ensures View() == Step(old(View()), maxTasks, Cancel(id))
    {
      if id !in tasks { return false; }
      if id in running {
        var e := running[id];
        running := running - {id};
        if e in executors { executors := executors[e := executors[e].(cancelled := true)]; }
      }
      if !Terminal(tasks[id].state) {
        tasks := tasks[id := tasks[id].(state := Canceled)];
      }
      return true;
    }

    /** An executor gets the lock and runs up to its agent call. */
    method ExecutorStart(e: nat, workspace: bool)
      requires Enabled(View(), Start(e, workspace))
      modifies this
      ensures View() == Step(old(View()), maxTasks, Start(e, workspace))
    {
      var id := executors[e].task;
      if id !in tasks || tasks[id].state.Canceled? {
        executors := executors - {e};
        return;
      }
      tasks := tasks[id := tasks[id].(state := Working)];
      if workspace {
        lock := Some(e);
        executors := executors[e := executors[e].(phase := Holding)];
      } else {
        executors := executors - {e};
      }
    }

    /** The agent call of the lock holder ends. */
    method ExecutorFinish(e: nat, outcome: Outcome)
      requires Enabled(View(), Finish(e, outcome))
      modifies this
      ensures View() == Step(old(View()), maxTasks, Finish(e, outcome))
    {
      var id := executors[e].task;
      match outcome {
        case Answered(text) => FinishTask(id, Completed, text, "coder-result");
        case Stopped => FinishTask(id, Canceled, "task canceled", "coder-result");
        case TimedOut(text) => FinishTask(id, Failed, text, "agent-error");
        case Crashed(text) => FinishTask(id, Failed, text, "agent-error");
      }
      running := running - {id};
      lock := None;
      executors := executors - {e};
    }
  }

  // ---------- the bounded store, for every run ----------

  predicate NoDuplicates(order: seq<string>) {
    forall i, j :: 0 <= i < j < |order| ==> order[i] != order[j]
  }

  /** What every run keeps, re-sent ids and failing workspaces included. */
  ghost predicate Bounded(s: Server, max: nat) {
    && NoDuplicates(s.order)
    && (forall id :: id in s.order <==> id in s.tasks)
    && |s.order| <= max
    && s.running.Keys <= s.tasks.Keys
    && (forall e <- s.executors :: e < s.next)
    && (forall e <- s.executors :: s.executors[e].phase.Holding? <==> s.lock == Some(e))
    && (s.lock.Some? ==> s.lock.value in s.executors)
  }

  lemma ArrivalsInOrder(s: Server, max: nat, id: string)
    requires Bounded(s, max)
    ensures var order := Arrivals(s, id);
            NoDuplicates(order) && (forall x :: x in order <==> x in s.order || x == id)
            && (id !in s.tasks ==> order != [] && order[|order| - 1] == id) && (id in s.tasks ==> |order| <= max)
  {
  }

  /** Cutting a list without duplicates to its last entries evicts exactly the others. */
  lemma KeptOrEvicted(order: seq<string>, max: nat)
    requires NoDuplicates(order)
    ensures var kept := Kept(order, max);
            |kept| <= max && NoDuplicates(kept) && (forall x :: x in kept <==> x in order && x !in Evicted(order, max))
  {
    var kept := Kept(order, max);
    var cut := |order| - |kept|;
    assert kept == order[cut..];
    forall x | x in order ensures x in kept <==> x !in Evicted(order, max) {
      var i :| 0 <= i < |order| && order[i] == x;
      if i >= cut { assert kept[i - cut] == x; }
    }
  }

  /** The new order of the store: its old ids in order, then the new one, cut to the last `max`. */
  lemma StoredOrder(s: Server, max: nat, id: string)
    requires max >= 1 && Bounded(s, max)
    ensures var order := Arrivals(s, id); var kept := Kept(order, max);
            && |kept| <= max && NoDuplicates(kept) && id in kept && id !in Evicted(order, max)
            && (forall x :: x in kept <==> (x in s.order || x == id) && x !in Evicted(order, max))
  {
    hide Bounded, NoDuplicates, Arrivals;
    var order := Arrivals(s, id);
    ArrivalsInOrder(s, max, id);
    KeptOrEvicted(order, max);
    if id !in s.tasks {
      assert Kept(order, max)[|Kept(order, max)| - 1] == id;
    }
  }

  /** Storing a task keeps its own id, and keeps or evicts every other entry whole. */
  lemma StoredFrame(s: Server, max: nat, id: string, task: Task)
    requires max >= 1 && Bounded(s, max)
    ensures var t := Stored(s, max, id, task);
            && id in t.tasks && t.tasks[id] == task
            && (forall x <- t.tasks :: x != id ==> x in s.tasks && t.tasks[x] == s.tasks[x])
            && (forall x <- t.tasks :: x in t.running <==> x in s.running)
            && (forall x <- t.running :: t.running[x] == s.running[x])
            && (if id in s.tasks then t.tasks.Keys == s.tasks.Keys else id !in t.running)
            && t.executors == s.executors && t.lock == s.lock && t.next == s.next && s.next !in s.executors
  {
  }

  lemma StoredBounded(s: Server, max: nat, id: string, task: Task)
    requires max >= 1 && Bounded(s, max)
    ensures Bounded(Stored(s, max, id, task), max)
  {
    StoredOrder(s, max, id);
    hide Kept, NoDuplicates, Arrivals, Evicted;
  }

  lemma SentBounded(s: Server, max: nat, ev: Event)
    requires max >= 1 && Bounded(s, max) && ev.Send?
    ensures Bounded(Sent(s, max, ev), max)
  {
    hide Stored, NoDuplicates, InvalidInput, Terminal;
    var task := Task(ev.contextId, ev.text, Submitted, []);
    var t := Stored(s, max, ev.id, task);
    StoredBounded(s, max, ev.id, task);
    StoredFrame(s, max, ev.id, task);
    assert Finished(t.tasks, ev.id, Failed, InvalidInput(if ev.invalid.Some? then ev.invalid.value else "")).Keys
           == t.tasks.Keys;
  }

  lemma StepBounded(s: Server, max: nat, ev: Event)
    requires max >= 1 && Bounded(s, max) && Enabled(s, ev)
    ensures Bounded(Step(s, max, ev), max)
  {
    hide Sent, NoDuplicates, Stored;
    if ev.Send? {
      SentBounded(s, max, ev);
    }
  }

  // ---------- runs ----------

  predicate Legal(s: Server, max: nat, evs: seq<Event>)
    decreases |evs|
  {
    evs == [] || (Enabled(s, evs[0]) && Legal(Step(s, max, evs[0]), max, evs[1..]))
  }

  function Run(s: Server, max: nat, evs: seq<Event>): Server
    requires Legal(s, max, evs)
    decreases |evs|
  {
    if evs == [] then s else Run(Step(s, max, evs[0]), max, evs[1..])
  }

  /** The ids in the order they entered the store; a re-sent id that is still stored does not
      enter again. */
  function Entered(s: Server, max: nat, evs: seq<Event>): seq<string>
    requires Legal(s, max, evs)
    decreases |evs|
  {
    if evs == [] then []
    else
      Entry(s, evs[0]) + Entered(Step(s, max, evs[0]), max, evs[1..])
  }

  function Entry(s: Server, ev: Event): seq<string> {
    if ev.Send? && ev.id !in s.tasks then [ev.id] else []
  }

  lemma KeptAgain(before: seq<string>, more: seq<string>, max: nat)
    ensures Kept(Kept(before, max) + more, max) == Kept(before + more, max)
  {
  }

  lemma StepOrder(s: Server, max: nat, ev: Event)
    requires Enabled(s, ev) && |s.order| <= max
    ensures Step(s, max, ev).order == Kept(s.order + Entry(s, ev), max)
  {
  }

  /** For every run the store holds exactly the last `max` ids that entered it, in order. */
  lemma {:induction false} StoreIsLastEntered(s: Server, max: nat, evs: seq<Event>, before: seq<string>)
    requires max >= 1 && Bounded(s, max) && Legal(s, max, evs)
    requires s.order == Kept(before, max)
    ensures Bounded(Run(s, max, evs), max)
    ensures Run(s, max, evs).order == Kept(before + Entered(s, max, evs), max)
    decreases |evs|
  {
    hide Step, Bounded, Kept;
    if evs == [] {
      assert before + [] == before;
    } else {
      var s1 := Step(s, max, evs[0]);
      var entry := Entry(s, evs[0]);
      StepBounded(s, max, evs[0]);
      BoundedOrder(s, max);
      StepOrder(s, max, evs[0]);
      KeptAgain(before, entry, max);
      StoreIsLastEntered(s1, max, evs[1..], before + entry);
      Assoc(before, entry, Entered(s1, max, evs[1..]));
    }
  }

  lemma BoundedOrder(s: Server, max: nat)
    requires Bounded(s, max)
    ensures |s.order| <= max
  {
  }

  // ---------- the life cycle ----------

  function Rank(s: TaskState): nat {
    if s.Submitted? then 0 else if s.Working? then 1 else 2
  }

  /** A task stays what it is or moves forward; it never changes once it is over. */
  predicate Moves(a: Task, b: Task) {
    a == b || (a.contextId == b.contextId && a.message == b.message && Rank(a.state) < Rank(b.state))
  }

  predicate Lifecycle(s: Server, t: Server) {
    forall id :: id in s.tasks && id in t.tasks ==> Moves(s.tasks[id], t.tasks[id])
  }

  /** Every step of the run moves every stored task forward. */
  predicate KeepsLifecycle(s: Server, max: nat, evs: seq<Event>)
    requires Legal(s, max, evs)
    decreases |evs|
  {
    evs == [] || (Lifecycle(s, Step(s, max, evs[0])) && KeepsLifecycle(Step(s, max, evs[0]), max, evs[1..]))
  }

  /** The task stays in the store from the first state to the last. */
  predicate StaysStored(s: Server, max: nat, evs: seq<Event>, id: string)
    requires Legal(s, max, evs)
    decreases |evs|
  {
    id in s.tasks && (evs == [] || StaysStored(Step(s, max, evs[0]), max, evs[1..], id))
  }

  // ---------- which sends are safe ----------

  /** No stored task and no executor that can still act goes by this id. */
  predicate Clean(s: Server, id: string) {
    id !in s.tasks && forall e <- s.executors :: s.executors[e].task == id ==> !Live(s.executors[e])
  }

  /** The stored task of a send whose text does not parse. */
  function Refused(send: Event): Task
    requires send.Send? && send.invalid.Some?
  {
    Task(send.contextId, send.text, Failed, [InvalidInput(send.invalid.value)])
  }

  /** A send that is accepted needs a clean id. One whose text does not parse starts no executor: it
      needs only a stored task that may move to the refusal, and nobody waiting to work on it. */
  predicate SafeSend(s: Server, send: Event)
    requires send.Send?
  {
    if send.invalid.None? then Clean(s, send.id)
    else (send.id in s.tasks ==> Moves(s.tasks[send.id], Refused(send)))
         && forall e <- s.executors :: Waits(s, e) ==> s.executors[e].task != send.id
  }

  predicate SafeStep(s: Server, ev: Event) {
    Enabled(s, ev) && (ev.Send? ==> SafeSend(s, ev))
  }

  /** A run in which every send is safe; workspaces may be lost at any time. */
  predicate SafeRun(s: Server, max: nat, evs: seq<Event>)
    decreases |evs|
  {
    evs == [] || (SafeStep(s, evs[0]) && SafeRun(Step(s, max, evs[0]), max, evs[1..]))
  }

  // ---------- what every run with safe sends keeps ----------

  predicate Rivals(s: Server, e: nat, f: nat) {
    e in s.executors && f in s.executors && Live(s.executors[e]) && Live(s.executors[f])
    && s.executors[e].task == s.executors[f].task
  }

  /** A waiting executor finds its task canceled, or submitted and nobody else's. */
  predicate WaiterSafe(s: Server, e: nat) {
    Waits(s, e) && s.executors[e].task in s.tasks ==>
      var t := s.tasks[s.executors[e].task].state;
      t.Canceled? || (t.Submitted? && forall f: nat :: f in s.executors && Rivals(s, e, f) ==> e == f)
  }

  /** All that the life cycle needs while no more sends come. */
  ghost predicate WaitersSafe(s: Server) {
    forall e: nat :: WaiterSafe(s, e)
  }

  /** A stored task that is not over is in the registry: while submitted under an executor that waits
      for it, and while worked on under the lock holder. */
  predicate Registered(s: Server, id: string) {
    id in s.tasks && !Terminal(s.tasks[id].state) ==>
      && id in s.running
      && (s.tasks[id].state.Submitted? ==> Waits(s, s.running[id]))
      && (s.tasks[id].state.Working? && Held(s, id) ==> s.lock == Some(s.running[id]))
  }

  /** The lock holder works on this task. */
  predicate Held(s: Server, id: string) {
    s.lock.Some? && s.lock.value in s.executors && s.executors[s.lock.value].task == id
  }

  /** A registry entry names an executor of its own task, or one that is gone. */
  predicate OwnEntry(s: Server, id: string) {
    id in s.running ==>
      s.running[id] < s.next && (s.running[id] in s.executors ==> s.executors[s.running[id]].task == id)
  }

  ghost predicate Sound(s: Server, max: nat) {
    && Bounded(s, max)
    && WaitersSafe(s)
    && (forall id :: Registered(s, id) && OwnEntry(s, id))
    && (forall e: nat, f: nat :: Rivals(s, e, f) ==> e == f)
  }

  lemma EmptyIsSound(max: nat)
    ensures Sound(EMPTY, max) && Attended(EMPTY) && Tidy(EMPTY)
  {
  }

  /** What a send leaves: its task, the others or nothing, the registry of the others, and the
      executors and the lock as they were but for a new one that can start. */
  lemma AfterSend(s: Server, max: nat, send: Event)
    requires max >= 1 && Bounded(s, max) && send.Send?
    ensures var t := Step(s, max, send); var id := send.id;
            && id in t.tasks && t.lock == s.lock && s.next !in s.executors
            && t.tasks[id] == (if send.invalid.Some? then Refused(send)
                               else Task(send.contextId, send.text, Submitted, []))
            && (forall x <- t.tasks :: x != id ==>
                  x in s.tasks && t.tasks[x] == s.tasks[x] && (x in t.running <==> x in s.running))
            && (forall x <- t.running :: x != id || send.invalid.Some? ==>
                  x in s.running && t.running[x] == s.running[x])
            && t.executors == (if send.invalid.Some? then s.executors
                               else s.executors[s.next := Executor(id, Waiting, false)])
            && (send.invalid.None? ==> id in t.running && t.running[id] == s.next && t.next == s.next + 1)
            && (send.invalid.Some? ==> t.next == s.next)
  {
    hide Bounded, Stored, NoDuplicates, InvalidInput;
    StoredFrame(s, max, send.id, Task(send.contextId, send.text, Submitted, []));
    RunningKept(s, max, send.id, Task(send.contextId, send.text, Submitted, []));
  }

  lemma RunningKept(s: Server, max: nat, id: string, task: Task)
    ensures forall x <- Stored(s, max, id, task).running :: x in s.running
  {
    hide Kept, Evicted, Arrivals;
  }

  lemma SendWaiters(s: Server, max: nat, send: Event)
    requires max >= 1 && Sound(s, max) && send.Send? && SafeSend(s, send)
    ensures var t := Step(s, max, send);
            WaitersSafe(t) && Lifecycle(s, t) && forall e: nat, f: nat :: Rivals(t, e, f) ==> e == f
  {
    hide Bounded, Step, Refused, InvalidInput;
    AfterSend(s, max, send);
    var t := Step(s, max, send);
    forall e: nat, f: nat ensures Rivals(t, e, f) ==> e == f { assert Rivals(s, e, f) ==> e == f; }
    forall e: nat ensures WaiterSafe(t, e) { assert WaiterSafe(s, e); }
  }

  lemma SendRegistry(s: Server, max: nat, send: Event, id: string)
    requires max >= 1 && Sound(s, max) && send.Send? && SafeSend(s, send)
    ensures Registered(Step(s, max, send), id) && OwnEntry(Step(s, max, send), id)
  {
    hide Step, WaitersSafe, InvalidInput, Moves;
    AfterSend(s, max, send);
    assert Registered(s, id) && OwnEntry(s, id);
  }

  lemma CancelSound(s: Server, max: nat, ev: Event)
    requires max >= 1 && Sound(s, max) && ev.Cancel?
    ensures Sound(Step(s, max, ev), max)
  {
    hide Bounded, OutcomeArtifact;
    StepBounded(s, max, ev);
    var t := Step(s, max, ev);
    assert OwnEntry(s, ev.id);
    forall id ensures Registered(t, id) && OwnEntry(t, id) { assert Registered(s, id) && OwnEntry(s, id); }
    forall e: nat, f: nat ensures Rivals(t, e, f) ==> e == f { assert Rivals(s, e, f) ==> e == f; }
    forall e: nat ensures WaiterSafe(t, e) { assert WaiterSafe(s, e); }
  }

  lemma LoopSound(s: Server, max: nat, ev: Event)
    requires max >= 1 && Sound(s, max) && Enabled(s, ev) && !ev.Send? && !ev.Cancel?
    ensures Sound(Step(s, max, ev), max)
  {
    hide Bounded, OutcomeArtifact, FirstInLine;
    StepBounded(s, max, ev);
    QuietStepSafe(s, max, ev);
    hide WaitersSafe;
    var t := Step(s, max, ev);
    forall id ensures Registered(t, id) && OwnEntry(t, id) { LoopRegistry(s, max, ev, id); }
    forall e: nat, f: nat ensures Rivals(t, e, f) ==> e == f { assert Rivals(s, e, f) ==> e == f; }
  }

  lemma LoopRegistry(s: Server, max: nat, ev: Event, id: string)
    requires Sound(s, max) && Enabled(s, ev) && !ev.Send? && !ev.Cancel?
    ensures Registered(Step(s, max, ev), id) && OwnEntry(Step(s, max, ev), id)
  {
    hide Bounded, OutcomeArtifact, FirstInLine, WaitersSafe;
    BoundedLock(s, max);
    var e := ev.executor;
    var t := Step(s, max, ev);
    assert Registered(s, id) && OwnEntry(s, id);
    assert ev.Start? ==> WaiterSafe(s, e) by { SafeWaiter(s, e); }
    if id in s.tasks && s.tasks[id].state.Submitted? {
      assert Rivals(s, s.running[id], e) ==> s.running[id] == e;
      assert s.executors[e].task != id ==> s.running[id] != e;
      assert s.executors[e].task != id ==> Waits(t, t.running[id]);
    }
  }

  lemma SafeWaiter(s: Server, e: nat)
    requires WaitersSafe(s)
    ensures WaiterSafe(s, e)
  {
  }

  /** Without further sends every step moves every stored task forward and leaves the waiters safe,
      whether or not a workspace can be created. */
  lemma QuietStepSafe(s: Server, max: nat, ev: Event)
    requires WaitersSafe(s) && Enabled(s, ev) && !ev.Send?
    ensures WaitersSafe(Step(s, max, ev)) && Lifecycle(s, Step(s, max, ev))
  {
    hide OutcomeArtifact, FirstInLine;
    var t := Step(s, max, ev);
    if ev.Start? { assert WaiterSafe(s, ev.executor); }
    forall e: nat ensures WaiterSafe(t, e) {
      assert WaiterSafe(s, e);
      assert ev.Start? || ev.Finish? ==> (Rivals(s, ev.executor, e) <==> Rivals(s, e, ev.executor));
      forall f: nat | f in t.executors && Rivals(t, e, f) ensures Rivals(s, e, f) {}
    }
  }

  /** Every step with safe sends keeps the server sound and moves every stored task forward. */
  lemma StepSound(s: Server, max: nat, ev: Event)
    requires max >= 1 && Sound(s, max) && SafeStep(s, ev)
    ensures Sound(Step(s, max, ev), max) && Lifecycle(s, Step(s, max, ev))
  {
    hide Step, SafeSend, Lifecycle, WaitersSafe, Bounded;
    if ev.Send? {
      StepBounded(s, max, ev);
      SendWaiters(s, max, ev);
      forall id ensures Registered(Step(s, max, ev), id) && OwnEntry(Step(s, max, ev), id) {
        SendRegistry(s, max, ev, id);
      }
    } else {
      QuietStepSafe(s, max, ev);
      if ev.Cancel? { CancelSound(s, max, ev); } else { LoopSound(s, max, ev); }
    }
  }

  /** Over every run with safe sends the server stays sound and tasks only move forward. */
  lemma {:induction false} SafeRunsAreSound(s: Server, max: nat, evs: seq<Event>)
    requires max >= 1 && Sound(s, max) && SafeRun(s, max, evs)
    ensures Legal(s, max, evs) && KeepsLifecycle(s, max, evs) && Sound(Run(s, max, evs), max)
    decreases |evs|
  {
    hide Sound, Step, SafeSend, Lifecycle;
    if evs != [] {
      StepSound(s, max, evs[0]);
      SafeRunsAreSound(Step(s, max, evs[0]), max, evs[1..]);
    }
  }

  /** Over any such run a stored task only moves forward: submitted, working, over. A task that
      is over, in particular a canceled one, is the same task with the same artifacts ever
      after, whatever its executor does. */
  lemma {:induction false} TasksOnlyMoveForward(s: Server, max: nat, evs: seq<Event>, id: string)
    requires max >= 1 && Sound(s, max) && SafeRun(s, max, evs)
    requires Legal(s, max, evs) && StaysStored(s, max, evs, id)
    ensures id in Run(s, max, evs).tasks && Moves(s.tasks[id], Run(s, max, evs).tasks[id])
    ensures Terminal(s.tasks[id].state) ==> Run(s, max, evs).tasks[id] == s.tasks[id]
    decreases |evs|
  {
    hide Sound, Step, SafeStep;
    if evs != [] {
      StepSound(s, max, evs[0]);
      TasksOnlyMoveForward(Step(s, max, evs[0]), max, evs[1..], id);
    }
  }

  // ---------- the worker and the registry ----------

  /** A working task that no executor will ever end. */
  predicate Abandoned(s: Server, id: string) {
    id in s.tasks && s.tasks[id].state.Working?
    && forall e <- s.executors :: s.executors[e].task == id ==> !Live(s.executors[e])
  }

  /** At most one working task is the lock holder's; every other one is abandoned. */
  lemma WorkerOrAbandoned(s: Server, max: nat, id: string)
    requires Bounded(s, max) && WaitersSafe(s) && id in s.tasks && s.tasks[id].state.Working?
    ensures Abandoned(s, id) <==> !Held(s, id)
  {
    if !Held(s, id) {
      forall e <- s.executors | s.executors[e].task == id ensures !Live(s.executors[e]) { assert WaiterSafe(s, e); }
    }
  }

  /** A step abandons the task it starts exactly when the task is still wanted and its workspace cannot
      be created. */
  lemma LostWorkspaceAbandons(s: Server, max: nat, e: nat, workspace: bool)
    requires Bounded(s, max) && WaitersSafe(s) && Enabled(s, Start(e, workspace)) && s.executors[e].task in s.tasks
    ensures var id := s.executors[e].task;
            Abandoned(Step(s, max, Start(e, workspace)), id) <==> !workspace && !s.tasks[id].state.Canceled?
  {
    hide Bounded, FirstInLine;
    assert WaiterSafe(s, e);
    var id := s.executors[e].task;
    var t := Step(s, max, Start(e, workspace));
    if s.tasks[id].state.Submitted? {
      if workspace {
        assert t.executors[e].task == id && Live(t.executors[e]);
      } else {
        forall f <- t.executors | t.executors[f].task == id ensures !Live(t.executors[f]) {
          assert Rivals(s, e, f) ==> e == f;
        }
      }
    }
  }

  /** No task is abandoned: every working task is the lock holder's. */
  predicate Attended(s: Server) {
    forall id <- s.tasks :: s.tasks[id].state.Working? ==> Held(s, id)
  }

  /** The registry names only stored tasks that are not over. */
  predicate Tidy(s: Server) {
    forall id <- s.running :: id in s.tasks && !Terminal(s.tasks[id].state)
  }

  /** While workspaces can be created no task is abandoned, and while refused texts come under new ids
      too the registry names nothing that is over. */
  lemma StepAttended(s: Server, max: nat, ev: Event)
    requires max >= 1 && Sound(s, max) && SafeStep(s, ev)
    ensures Attended(s) && (ev.Start? ==> ev.workspace) ==> Attended(Step(s, max, ev))
    ensures Tidy(s) && (ev.Send? ==> Clean(s, ev.id)) ==> Tidy(Step(s, max, ev))
  {
    hide Sound, Step, SafeSend, Clean, Attended, Tidy;
    if ev.Send? { SendAttended(s, max, ev); } else { QuietAttended(s, max, ev); }
  }

  lemma SendAttended(s: Server, max: nat, send: Event)
    requires max >= 1 && Sound(s, max) && send.Send? && SafeSend(s, send)
    ensures Attended(s) ==> Attended(Step(s, max, send))
    ensures Tidy(s) && Clean(s, send.id) ==> Tidy(Step(s, max, send))
  {
    hide Bounded, WaitersSafe, Step, Moves, Refused, InvalidInput, Registered, OwnEntry;
    AfterSend(s, max, send);
    RefusedFailed(send);
    StepBounded(s, max, send);
    BoundedLock(s, max);
    BoundedLock(Step(s, max, send), max);
  }

  lemma RefusedFailed(send: Event)
    ensures send.Send? && send.invalid.Some? ==> Refused(send).state.Failed?
  {
  }

  lemma QuietAttended(s: Server, max: nat, ev: Event)
    requires Sound(s, max) && Enabled(s, ev) && !ev.Send?
    ensures Attended(s) && (ev.Start? ==> ev.workspace) ==> Attended(Step(s, max, ev))
    ensures Tidy(s) ==> Tidy(Step(s, max, ev))
  {
    hide Bounded, WaitersSafe, FirstInLine, OutcomeArtifact, Registered, OwnEntry;
    BoundedLock(s, max);
    if ev.Start? { SafeWaiter(s, ev.executor); }
    if ev.Cancel? { CancelFrame(s, max, ev); }
  }

  lemma CancelFrame(s: Server, max: nat, ev: Event)
    requires ev.Cancel?
    ensures var t := Step(s, max, ev);
            t.lock == s.lock && t.executors.Keys == s.executors.Keys
            && forall e <- s.executors :: t.executors[e].task == s.executors[e].task
  {
  }

  lemma BoundedLock(s: Server, max: nat)
    requires Bounded(s, max)
    ensures forall e <- s.executors :: s.executors[e].phase.Holding? <==> s.lock == Some(e)
    ensures s.running.Keys <= s.tasks.Keys
  {
  }

  /** A run in which, besides, no workspace is lost and every id is new. */
  predicate CleanRun(s: Server, max: nat, evs: seq<Event>)
    decreases |evs|
  {
    evs == [] || (SafeStep(s, evs[0]) && (evs[0].Start? ==> evs[0].workspace) && (evs[0].Send? ==> Clean(s, evs[0].id))
                  && CleanRun(Step(s, max, evs[0]), max, evs[1..]))
  }

  lemma {:induction false} CleanRunsAreTidy(s: Server, max: nat, evs: seq<Event>)
    requires max >= 1 && Sound(s, max) && Attended(s) && Tidy(s) && CleanRun(s, max, evs)
    ensures Legal(s, max, evs) && Sound(Run(s, max, evs), max) && Attended(Run(s, max, evs)) && Tidy(Run(s, max, evs))
    decreases |evs|
  {
    hide Sound, Step, SafeSend, Attended, Tidy, Clean;
    if evs != [] {
      StepSound(s, max, evs[0]);
      StepAttended(s, max, evs[0]);
      CleanRunsAreTidy(Step(s, max, evs[0]), max, evs[1..]);
    }
  }

  /** At most one stored task is working unless one is abandoned, and it is the lock holder's. */
  lemma OneWorker(s: Server, max: nat, a: string, b: string)
    requires Sound(s, max) && a in s.tasks && s.tasks[a].state.Working? && b in s.tasks && s.tasks[b].state.Working?
    ensures a == b || Abandoned(s, a) || Abandoned(s, b)
    ensures Attended(s) ==> Held(s, a) && a == b
  {
    hide Bounded, WaitersSafe;
    WorkerOrAbandoned(s, max, a);
    WorkerOrAbandoned(s, max, b);
  }

  /** The registry entry of the task names an executor of this task that may still act on it. */
  predicate EntryLives(s: Server, id: string) {
    id in s.running && s.running[id] in s.executors
    && s.executors[s.running[id]].task == id && Live(s.executors[s.running[id]])
  }

  /** The registry always names the stored tasks that are not over, each by the live executor that acts
      or will act on it unless the task is abandoned, so a cancel request reaches that executor. After
      clean runs the registry names nothing else, and it is empty when no executor is left. */
  lemma RegistryIsLive(s: Server, max: nat)
    requires Sound(s, max)
    ensures forall id <- s.tasks :: !Terminal(s.tasks[id].state) ==>
              id in s.running && (EntryLives(s, id) <==> !Abandoned(s, id))
              && (Held(s, id) ==> s.lock == Some(s.running[id]))
    ensures Tidy(s) ==> s.running.Keys == set id | id in s.tasks && !Terminal(s.tasks[id].state)
    ensures Tidy(s) && Attended(s) ==> forall id <- s.running :: EntryLives(s, id)
    ensures Tidy(s) && s.executors == map[] ==> forall id <- s.running :: Abandoned(s, id)
    ensures Tidy(s) && Attended(s) && s.executors == map[] ==> s.running == map[]
  {
    hide Bounded, WaitersSafe, EntryLives, Abandoned, Held, Registered, OwnEntry;
    BoundedLock(s, max);
    forall id | id in s.tasks && !Terminal(s.tasks[id].state)
      ensures id in s.running && (EntryLives(s, id) <==> !Abandoned(s, id))
              && (Held(s, id) ==> s.lock == Some(s.running[id]))
    {
      EntryOfLiving(s, max, id);
    }
    if Attended(s) { NoneAbandoned(s, max); }
    if s.executors == map[] { NoEntryLives(s); }
  }

  lemma NoneAbandoned(s: Server, max: nat)
    requires Bounded(s, max) && Attended(s)
    ensures forall id :: !Abandoned(s, id)
  {
    BoundedLock(s, max);
  }

  lemma NoEntryLives(s: Server)
    requires s.executors == map[]
    ensures forall id :: !EntryLives(s, id)
  {
  }

  lemma EntryOfLiving(s: Server, max: nat, id: string)
    requires Sound(s, max) && id in s.tasks && !Terminal(s.tasks[id].state)
    ensures id in s.running && (EntryLives(s, id) <==> !Abandoned(s, id))
    ensures Held(s, id) ==> s.lock == Some(s.running[id])
  {
    hide Bounded, WaitersSafe;
    BoundedLock(s, max);
    assert Registered(s, id) && OwnEntry(s, id);
    assert s.lock.Some? && Rivals(s, s.lock.value, s.running[id]) ==> s.lock == Some(s.running[id]);
    if s.tasks[id].state.Working? {
      WorkerOrAbandoned(s, max, id);
    }
  }

  /** So canceling a stored task that is not over cancels every executor that may still act on it. */
  lemma CancelReaches(s: Server, max: nat, id: string)
    requires Sound(s, max) && id in s.tasks && !Terminal(s.tasks[id].state)
    ensures var t := Step(s, max, Cancel(id));
            && t.tasks[id].state.Canceled? && id !in t.running
            && forall e <- t.executors :: t.executors[e].task == id ==>
                 t.executors[e].cancelled || !Live(t.executors[e])
  {
    hide Bounded, WaitersSafe;
    EntryOfLiving(s, max, id);
    forall e <- s.executors | s.executors[e].task == id && Live(s.executors[e])
      ensures s.running[id] == e
    {
      assert Rivals(s, e, s.running[id]);
    }
  }

  // ---------- how a task ends ----------

  /** The end of the agent call decides the end of a task that is not over, by the way the call ended. */
  lemma FinishByOutcome(s: Server, max: nat, e: nat, o: Outcome)
    requires Enabled(s, Finish(e, o)) && s.executors[e].task in s.tasks
    requires !Terminal(s.tasks[s.executors[e].task].state)
    ensures var id := s.executors[e].task; var task := s.tasks[id]; var t := Step(s, max, Finish(e, o));
            && t.lock.None? && id !in t.running && t.executors == s.executors - {e}
            && t.tasks == s.tasks[id :=
                 match o
                 case Answered(text) => task.(state := Completed, artifacts := [Artifact("coder-result", text)])
                 case TimedOut(text) => task.(state := Failed, artifacts := [Artifact("agent-error", text)])
                 case Crashed(text) => task.(state := Failed, artifacts := [Artifact("agent-error", text)])
                 case Stopped => task.(state := Canceled, artifacts := [Artifact("coder-result", "task canceled")])]
  {
  }

  datatype Ending = ByAgent(outcome: Outcome) | ByCancel | ByRefusal(why: string)

  /** What has ended task `id` since it was last sent: the first end of an agent call for it or the first
      cancel request, or the refusal of its text. */
  function NextEnding(s: Server, ev: Event, id: string, end: Option<Ending>): Option<Ending>
    requires Enabled(s, ev)
  {
    if ev.Send? && ev.id == id then (if ev.invalid.Some? then Some(ByRefusal(ev.invalid.value)) else None)
    else if end.Some? then end
    else if ev.Cancel? && ev.id == id then Some(ByCancel)
    else if ev.Finish? && s.executors[ev.executor].task == id then Some(ByAgent(ev.outcome))
    else None
  }

  function EndOf(s: Server, max: nat, evs: seq<Event>, id: string, end: Option<Ending>): Option<Ending>
    requires Legal(s, max, evs)
    decreases |evs|
  {
    if evs == [] then end
    else EndOf(Step(s, max, evs[0]), max, evs[1..], id, NextEnding(s, evs[0], id, end))
  }

  /** The state and the artifacts that belong to an ending. */
  predicate EndedBy(task: Task, end: Option<Ending>) {
    match end
    case None => (task.state.Submitted? || task.state.Working?) && task.artifacts == []
    case Some(ByCancel) => task.state.Canceled? && task.artifacts == []
    case Some(ByRefusal(why)) =>
      task.state.Failed? && task.artifacts == [Artifact("agent-error", "invalid task input: " + why)]
    case Some(ByAgent(Answered(text))) => task.state.Completed? && task.artifacts == [Artifact("coder-result", text)]
    case Some(ByAgent(TimedOut(text))) => task.state.Failed? && task.artifacts == [Artifact("agent-error", text)]
    case Some(ByAgent(Crashed(text))) => task.state.Failed? && task.artifacts == [Artifact("agent-error", text)]
    case Some(ByAgent(Stopped)) =>
      task.state.Canceled? && task.artifacts == [Artifact("coder-result", "task canceled")]
  }

  lemma SendEnding(s: Server, max: nat, send: Event, id: string, end: Option<Ending>)
    requires max >= 1 && Bounded(s, max) && send.Send? && (id in s.tasks ==> EndedBy(s.tasks[id], end))
    ensures var t := Step(s, max, send); id in t.tasks ==> EndedBy(t.tasks[id], NextEnding(s, send, id, end))
  {
    hide Bounded, Step;
    AfterSend(s, max, send);
  }

  lemma QuietEnding(s: Server, max: nat, ev: Event, id: string, end: Option<Ending>)
    requires WaitersSafe(s) && Enabled(s, ev) && !ev.Send? && (id in s.tasks ==> EndedBy(s.tasks[id], end))
    ensures var t := Step(s, max, ev); id in t.tasks ==> EndedBy(t.tasks[id], NextEnding(s, ev, id, end))
  {
    hide FirstInLine, WaitersSafe;
    if ev.Start? { SafeWaiter(s, ev.executor); }
  }

  lemma {:induction false} RunEnding(s: Server, max: nat, evs: seq<Event>, id: string, end: Option<Ending>)
    requires max >= 1 && Sound(s, max) && SafeRun(s, max, evs) && (id in s.tasks ==> EndedBy(s.tasks[id], end))
    ensures Legal(s, max, evs)
    ensures id in Run(s, max, evs).tasks ==> EndedBy(Run(s, max, evs).tasks[id], EndOf(s, max, evs, id, end))
    decreases |evs|
  {
    hide Bounded, WaitersSafe, Step, SafeSend, EndedBy, NextEnding, Lifecycle, Registered, OwnEntry;
    if evs != [] {
      StepSound(s, max, evs[0]);
      if evs[0].Send? { SendEnding(s, max, evs[0], id, end); } else { QuietEnding(s, max, evs[0], id, end); }
      RunEnding(Step(s, max, evs[0]), max, evs[1..], id, NextEnding(s, evs[0], id, end));
    }
  }

  /** Over every run with safe sends from the start: a stored task is completed exactly when an executor of
      its own ended with an answer before anything else ended it, and the answer is its artifact; it is
      failed exactly when its call timed out or crashed or its text was refused, canceled exactly when it
      was canceled or its call stopped, and otherwise not over. */
  lemma TasksEndAsCalled(max: nat, evs: seq<Event>, id: string)
    requires max >= 1 && SafeRun(EMPTY, max, evs)
    ensures Legal(EMPTY, max, evs)
    ensures id in Run(EMPTY, max, evs).tasks ==>
              var task := Run(EMPTY, max, evs).tasks[id]; var end := EndOf(EMPTY, max, evs, id, None);
              && (forall text :: end == Some(ByAgent(Answered(text)))
                                 <==> task.state.Completed? && task.artifacts == [Artifact("coder-result", text)])
              && (task.state.Completed? <==> end.Some? && end.value.ByAgent? && end.value.outcome.Answered?)
              && (task.state.Failed? <==>
                  end.Some? && (end.value.ByRefusal?
                                || (end.value.ByAgent? && (end.value.outcome.TimedOut? || end.value.outcome.Crashed?))))
              && (task.state.Canceled? <==>
                  end.Some? && (end.value.ByCancel? || (end.value.ByAgent? && end.value.outcome.Stopped?)))
              && (end.None? <==> task.state.Submitted? || task.state.Working?)
              && EndedBy(task, end)
  {
    hide Sound, SafeRun, Legal, Run, EndOf;
    EmptyIsSound(max);
    RunEnding(EMPTY, max, evs, id, None);
  }

  // ---------- reusing an id too early ----------

  /** No more sends. */
  predicate Quiet(evs: seq<Event>) {
    forall ev <- evs :: !ev.Send?
  }

  /** A legal continuation that moves some stored task backwards. */
  ghost predicate Breaks(s: Server, max: nat, evs: seq<Event>) {
    Quiet(evs) && Legal(s, max, evs) && !KeepsLifecycle(s, max, evs)
  }

  lemma BreaksLater(s: Server, max: nat, ev: Event, evs: seq<Event>)
    requires Enabled(s, ev) && Quiet([ev]) && Breaks(Step(s, max, ev), max, evs)
    ensures Breaks(s, max, [ev] + evs)
  {
  }

  lemma BreaksNow(s: Server, max: nat, ev: Event, id: string)
    requires Enabled(s, ev) && Quiet([ev])
    requires id in s.tasks && id in Step(s, max, ev).tasks && !Moves(s.tasks[id], Step(s, max, ev).tasks[id])
    ensures Breaks(s, max, [ev])
  {
  }

  predicate CanStart(s: Server, e: nat, id: string) {
    e in s.executors && s.executors[e] == Executor(id, Waiting, false)
  }

  /** The executors the lock serves before `e`. */
  function Ahead(s: Server, e: nat): set<nat> {
    set f | f in s.executors && f < e && Waits(s, f)
  }

  /** No executor served before `e`, except perhaps `but`, goes by this id. */
  predicate OthersAhead(s: Server, e: nat, but: nat, id: string) {
    forall f :: f in s.executors && f < e && f != but && Waits(s, f) ==> s.executors[f].task != id
  }

  lemma Least(s: Server, e: nat) returns (f: nat)
    requires Ahead(s, e) != {}
    ensures f in Ahead(s, e) && FirstInLine(s, f)
  {
    f :| f in Ahead(s, e);
    while !FirstInLine(s, f)
      invariant f in Ahead(s, e)
      decreases f
    {
      var g :| g in s.executors && g < f && Waits(s, g);
      f := g;
    }
  }

  /** The state once executor `f` has come and gone: its own task aside, nothing else changed. */
  predicate Gone(s: Server, t: Server, f: nat, id: string) {
    t.lock.None? && t.executors == s.executors - {f}
    && (id in s.tasks <==> id in t.tasks) && (id in s.tasks ==> t.tasks[id] == s.tasks[id])
  }

  /** The executor first in line starts, if its task is still wanted, and fails. */
  lemma LetThrough(s: Server, max: nat, f: nat, id: string) returns (t: Server, pre: seq<Event>)
    requires s.lock.None? && Waits(s, f) && FirstInLine(s, f) && s.executors[f].task != id
    ensures Gone(s, t, f, id)
    ensures forall later: seq<Event> :: Breaks(t, max, later) ==> Breaks(s, max, pre + later)
  {
    hide Breaks, FirstInLine;
    var start := Start(f, true);
    t := Step(s, max, start);
    pre := [start];
    if t.lock.None? {
      forall later: seq<Event> | Breaks(t, max, later) ensures Breaks(s, max, pre + later) {
        BreaksLater(s, max, start, later);
      }
    } else {
      var u := t;
      var end := Finish(f, Crashed(""));
      t := Step(u, max, end);
      pre := [start, end];
      assert t.executors == s.executors - {f};
      forall later: seq<Event> | Breaks(t, max, later) ensures Breaks(s, max, pre + later) {
        BreaksLater(u, max, end, later);
        BreaksLater(s, max, start, [end] + later);
        assert pre + later == [start] + ([end] + later);
      }
    }
  }

  lemma AheadLess(s: Server, t: Server, e: nat, f: nat, id: string)
    requires f in Ahead(s, e) && Gone(s, t, f, id)
    ensures |Ahead(t, e)| < |Ahead(s, e)|
  {
    assert Ahead(t, e) == Ahead(s, e) - {f};
  }

  /** An executor in line restarts a task that is over. */
  lemma {:induction false} RestartBreaks(s: Server, max: nat, id: string, e: nat) returns (evs: seq<Event>)
    requires CanStart(s, e, id) && s.lock.None? && OthersAhead(s, e, e, id)
    requires id in s.tasks && (s.tasks[id].state.Completed? || s.tasks[id].state.Failed?)
    ensures Breaks(s, max, evs)
    decreases |Ahead(s, e)|
  {
    hide Breaks;
    if Ahead(s, e) == {} {
      assert forall f <- s.executors :: f < e && Waits(s, f) ==> f in Ahead(s, e);
      evs := [Start(e, true)];
      BreaksNow(s, max, Start(e, true), id);
    } else {
      hide FirstInLine;
      var f := Least(s, e);
      var t, pre := LetThrough(s, max, f, id);
      AheadLess(s, t, e, f, id);
      var later := RestartBreaks(t, max, id, e);
      evs := pre + later;
    }
  }

  lemma FinishThenRestartBreaks(s: Server, max: nat, id: string, holder: nat, e: nat) returns (evs: seq<Event>)
    requires Enabled(s, Finish(holder, Crashed(""))) && s.executors[holder].task == id && holder != e
    requires CanStart(s, e, id) && id in s.tasks && !Terminal(s.tasks[id].state) && OthersAhead(s, e, holder, id)
    ensures Breaks(s, max, evs)
  {
    hide Breaks;
    var end := Finish(holder, Crashed(""));
    var later := RestartBreaks(Step(s, max, end), max, id, e);
    BreaksLater(s, max, end, later);
    evs := [end] + later;
  }

  /** Two executors in line for one task: the second restarts it when the first has failed. */
  lemma {:induction false} TwoStartsBreak(s: Server, max: nat, id: string, e: nat, g: nat) returns (evs: seq<Event>)
    requires CanStart(s, e, id) && CanStart(s, g, id) && e < g && s.lock.None? && OthersAhead(s, g, e, id)
    requires id in s.tasks && s.tasks[id].state.Submitted?
    ensures Breaks(s, max, evs)
    decreases |Ahead(s, e)|
  {
    hide Breaks;
    if Ahead(s, e) == {} {
      assert forall f <- s.executors :: f < e && Waits(s, f) ==> f in Ahead(s, e);
      var start := Start(e, true);
      var later := FinishThenRestartBreaks(Step(s, max, start), max, id, e, g);
      BreaksLater(s, max, start, later);
      evs := [start] + later;
    } else {
      hide FirstInLine;
      var f := Least(s, e);
      var t, pre := LetThrough(s, max, f, id);
      AheadLess(s, t, e, f, id);
      var later := TwoStartsBreak(t, max, id, e, g);
      evs := pre + later;
    }
  }

  /** The lock holder, if it works on something else, fails first. */
  lemma FreeLock(s: Server, max: nat, id: string) returns (t: Server, pre: seq<Event>)
    requires s.lock.Some? ==> Enabled(s, Finish(s.lock.value, Crashed(""))) && s.executors[s.lock.value].task != id
    ensures t.lock.None? && t.executors == (if s.lock.Some? then s.executors - {s.lock.value} else s.executors)
    ensures (id in s.tasks <==> id in t.tasks) && (id in s.tasks ==> t.tasks[id] == s.tasks[id])
    ensures forall later: seq<Event> :: Breaks(t, max, later) ==> Breaks(s, max, pre + later)
  {
    hide Breaks;
    if s.lock.None? {
      t, pre := s, [];
      assert forall later: seq<Event> :: pre + later == later;
    } else {
      var end := Finish(s.lock.value, Crashed(""));
      t, pre := Step(s, max, end), [end];
      forall later: seq<Event> | Breaks(t, max, later) ensures Breaks(s, max, pre + later) {
        BreaksLater(s, max, end, later);
      }
    }
  }

  // ---------- which sends keep the life cycle ----------

  /** The executor by a reused id, if it is not stored as over or working. */
  lemma OtherExecutor(s: Server, max: nat, id: string) returns (e: nat)
    requires Sound(s, max) && !Clean(s, id) && (id in s.tasks ==> s.tasks[id].state.Submitted?)
    ensures e in s.executors && s.executors[e].task == id && Live(s.executors[e])
    ensures id in s.tasks ==> s.executors[e].phase.Waiting?
    ensures forall f: nat :: Rivals(s, e, f) ==> e == f
  {
    hide Bounded, WaitersSafe;
    assert Registered(s, id) && OwnEntry(s, id);
    if id in s.tasks {
      e := s.running[id];
    } else {
      e :| e in s.executors && s.executors[e].task == id && Live(s.executors[e]);
    }
  }

  /** What a bounded state says about the lock. */
  lemma HolderRuns(s: Server, max: nat)
    requires Bounded(s, max)
    ensures s.lock.Some? ==> Enabled(s, Finish(s.lock.value, Crashed(""))) && Live(s.executors[s.lock.value])
    ensures forall e <- s.executors :: s.executors[e].phase.Holding? <==> s.lock == Some(e)
    ensures s.next !in s.executors && forall e <- s.executors :: e < s.next
  {
  }

  lemma NoRivalsAhead(s: Server, t: Server, e: nat, g: nat, id: string)
    requires e in s.executors && Live(s.executors[e]) && s.executors[e].task == id
    requires forall f: nat :: Rivals(s, e, f) ==> e == f
    requires forall f <- t.executors :: f < g ==> f in s.executors && t.executors[f] == s.executors[f]
    ensures OthersAhead(t, g, e, id)
  {
    forall f | f in t.executors && f < g && f != e && Waits(t, f) ensures t.executors[f].task != id {
      assert Rivals(s, e, f) ==> e == f;
    }
  }

  /** After an accepted send with an id still in use, some continuation throws its task back. */
  lemma ReuseBreaks(s: Server, max: nat, send: Event) returns (evs: seq<Event>)
    requires max >= 1 && Sound(s, max) && send.Send? && send.invalid.None? && !Clean(s, send.id)
    requires send.id in s.tasks ==> s.tasks[send.id].state.Submitted?
    ensures Breaks(Step(s, max, send), max, evs)
  {
    hide Bounded, Breaks, Step, Clean, FirstInLine, Registered, OwnEntry, WaitersSafe, OthersAhead;
    var id, g := send.id, s.next;
    var t := Step(s, max, send);
    AfterSend(s, max, send);
    var e := OtherExecutor(s, max, id);
    HolderRuns(s, max);
    NoRivalsAhead(s, t, e, g, id);
    if s.executors[e].phase.Holding? {
      evs := FinishThenRestartBreaks(t, max, id, e, g);
    } else {
      assert s.lock.Some? ==> !Rivals(s, e, s.lock.value);
      var free, pre := FreeLock(t, max, id);
      NoRivalsAhead(s, free, e, g, id);
      var later := TwoStartsBreak(free, max, id, e, g);
      evs := pre + later;
    }
  }

  /** After a refused send somebody waiting to work on its task restarts it. */
  lemma RefusalBreaks(s: Server, max: nat, send: Event, e: nat) returns (evs: seq<Event>)
    requires max >= 1 && Sound(s, max) && send.Send? && send.invalid.Some?
    requires Waits(s, e) && s.executors[e].task == send.id
    ensures Breaks(Step(s, max, send), max, evs)
  {
    hide Bounded, Breaks, Step, FirstInLine, Registered, OwnEntry, WaitersSafe, OthersAhead;
    var id := send.id;
    var t := Step(s, max, send);
    AfterSend(s, max, send);
    HolderRuns(s, max);
    assert forall f: nat :: Rivals(s, e, f) ==> e == f;
    assert s.lock.Some? ==> !Rivals(s, e, s.lock.value);
    var free, pre := FreeLock(t, max, id);
    NoRivalsAhead(s, free, e, e, id);
    var later := RestartBreaks(free, max, id, e);
    evs := pre + later;
  }

  /** After a send that is not safe, either the send itself throws a task back, or some continuation
      does. */
  lemma UnsafeSendBreaks(s: Server, max: nat, send: Event) returns (evs: seq<Event>)
    requires max >= 1 && Sound(s, max) && send.Send? && !SafeSend(s, send)
    ensures Quiet(evs) && Legal(s, max, [send] + evs) && !KeepsLifecycle(s, max, [send] + evs)
  {
    hide Bounded, Breaks, Step, Clean, Quiet, Rivals, Registered, OwnEntry, WaitersSafe;
    var id := send.id;
    var t := Step(s, max, send);
    AfterSend(s, max, send);
    if id in s.tasks && !Moves(s.tasks[id], t.tasks[id]) {
      evs := [];
      assert [send] + evs == [send] && [send][1..] == [];
      NothingIsQuiet();
    } else {
      if send.invalid.None? {
        SubmittedAgain(s, max, send);
        evs := ReuseBreaks(s, max, send);
      } else {
        var e :| e in s.executors && Waits(s, e) && s.executors[e].task == id;
        evs := RefusalBreaks(s, max, send, e);
      }
      BreaksMeans(t, max, evs);
      assert ([send] + evs)[1..] == evs && ([send] + evs)[0] == send;
    }
  }

  lemma SubmittedAgain(s: Server, max: nat, send: Event)
    requires send.Send?
    requires send.id in s.tasks ==> Moves(s.tasks[send.id], Task(send.contextId, send.text, Submitted, []))
    ensures send.id in s.tasks ==> s.tasks[send.id].state.Submitted?
  {
  }

  lemma NothingIsQuiet()
    ensures Quiet([])
  {
  }

  lemma BreaksMeans(s: Server, max: nat, evs: seq<Event>)
    requires Breaks(s, max, evs)
    ensures Quiet(evs) && Legal(s, max, evs) && !KeepsLifecycle(s, max, evs)
  {
  }

  lemma {:induction false} QuietRunKeeps(s: Server, max: nat, evs: seq<Event>)
    requires WaitersSafe(s) && Quiet(evs) && Legal(s, max, evs)
    ensures KeepsLifecycle(s, max, evs)
    decreases |evs|
  {
    hide WaitersSafe, Step, Enabled, Lifecycle;
    if evs != [] {
      assert evs[0] in evs;
      QuietStepSafe(s, max, evs[0]);
      assert Quiet(evs[1..]) by { forall ev | ev in evs[1..] ensures ev in evs {} }
      QuietRunKeeps(Step(s, max, evs[0]), max, evs[1..]);
    }
  }

  /** A send keeps the life cycle, whatever happens to the tasks afterwards, lost workspaces included,
      exactly when it is safe. An accepted one is safe when its id is clean: not stored, and no executor
      that can still act goes by it. */
  lemma CleanIsExact(s: Server, max: nat, send: Event)
    requires max >= 1 && Sound(s, max) && send.Send?
    ensures SafeSend(s, send) <==>
            forall evs :: Quiet(evs) && Legal(s, max, [send] + evs) ==> KeepsLifecycle(s, max, [send] + evs)
  {
    hide Sound, SafeSend, Step, Quiet, WaitersSafe, Lifecycle;
    if SafeSend(s, send) {
      SendWaiters(s, max, send);
      forall evs | Quiet(evs) && Legal(s, max, [send] + evs) ensures KeepsLifecycle(s, max, [send] + evs) {
        assert ([send] + evs)[1..] == evs && ([send] + evs)[0] == send;
        QuietRunKeeps(Step(s, max, send), max, evs);
      }
    } else {
      var evs := UnsafeSendBreaks(s, max, send);
    }
  }

  // ---------- a workspace that cannot be created ----------

  /** An abandoned task stays working, while other tasks come and go, until it is canceled,
      replaced or evicted. */
  lemma {:induction false} AbandonedStays(s: Server, max: nat, evs: seq<Event>, id: string)
    requires Abandoned(s, id) && Legal(s, max, evs) && StaysStored(s, max, evs, id)
    requires forall e <- s.executors :: e < s.next
    requires forall ev <- evs :: (ev.Send? || ev.Cancel?) ==> ev.id != id
    ensures Abandoned(Run(s, max, evs), id)
    decreases |evs|
  {
    if evs != [] {
      var t := Step(s, max, evs[0]);
      assert evs[0] in evs;
      AbandonedStep(s, max, evs[0], id);
      AbandonedStays(t, max, evs[1..], id);
    }
  }

  lemma AbandonedStep(s: Server, max: nat, ev: Event, id: string)
    requires Abandoned(s, id) && Enabled(s, ev) && id in Step(s, max, ev).tasks
    requires forall e <- s.executors :: e < s.next
    requires (ev.Send? || ev.Cancel?) ==> ev.id != id
    ensures Abandoned(Step(s, max, ev), id)
    ensures forall e <- Step(s, max, ev).executors :: e < Step(s, max, ev).next
  {
    hide Kept, Evicted, Arrivals, InvalidInput, OutcomeArtifact;
  }
}
