/** The background retry queue. One loop polls the due operations into a batch and tries them one
    after the other; callers enqueue and cancel while a try is being awaited. Operations are
    objects that a batch refers to, so they are numbered here in the order they were enqueued. */
module RetryQueue {
  import opened Text

  const MAX_BACKOFF: real := 30.0

  datatype Op = Op(id: string, maxRetries: int, attempt: nat, backoff: real, nextRetryAt: real, createdAt: real)

  /** How an operation left the queue. A lost one was deleted by the end of another. */
  datatype Fate = Pending | Succeeded | Exhausted | Cancelled | Replaced | Lost

  datatype Result = Done | Fails(retryable: bool)

  datatype State = State(
    queue: map<string, nat>, ops: seq<Op>, ready: seq<nat>, inFlight: Option<nat>,
    totalEnqueued: nat, totalSucceeded: nat, totalExhausted: nat,
    crashed: bool,             // the loop ended on a missing key
    clock: real,               // the latest clock reading
    initial: seq<real>,        // the first backoff each operation was enqueued with
    fates: seq<Fate>, cancels: nat, replacements: nat,
    deaths: nat,               // how often the loop ended on a missing key
    stopped: seq<nat>)         // how many tries of each operation a stop cut off

  datatype Event =
    | Enqueue(id: string, maxRetries: int, initial: real, now: real)
    | Cancel(id: string)
    | Poll(batch: seq<nat>, now: real)
    | Try(now: real)
    | End(result: Result, now: real)
    | Restart(now: real)       // the loop is stopped, wherever it is, and started again

  const EMPTY := State(map[], [], [], None, 0, 0, 0, false, 0.0, [], [], 0, 0, 0, [])

  // ---------- the steps ----------

  predicate NoDuplicates(batch: seq<nat>) {
    forall i, j :: 0 <= i < j < |batch| ==> batch[i] != batch[j]
  }

  /** The due operations, each once, in any order. */
  predicate IsBatch(s: State, batch: seq<nat>, now: real) {
    && NoDuplicates(batch)
    && (forall u <- batch :: u < |s.ops|)
    && (forall u <- batch :: s.ops[u].id in s.queue && s.queue[s.ops[u].id] == u && s.ops[u].nextRetryAt <= now)
    && (forall id <- s.queue :: s.queue[id] < |s.ops| && s.ops[s.queue[id]].nextRetryAt <= now ==> s.queue[id] in batch)
  }

  predicate Enabled(s: State, ev: Event) {
    match ev
    case Enqueue(_, _, _, now) => s.clock <= now
    case Cancel(_) => true
    case Poll(batch, now) =>
      s.clock <= now && !s.crashed && s.ready == [] && s.inFlight.None? && IsBatch(s, batch, now)
    case Try(now) =>
      s.clock <= now && !s.crashed && s.ready != [] && s.inFlight.None? && s.ready[0] < |s.ops|
    case End(_, now) =>
      s.clock <= now && !s.crashed && s.inFlight.Some? && s.inFlight.value < |s.ops|
    case Restart(now) => s.clock <= now
  }

  function SetFate(fates: seq<Fate>, u: nat, f: Fate): seq<Fate> {
    if u < |fates| then fates[u := f] else fates
  }

  /** The operation in flight is over: whatever the queue now holds under its id is deleted. */
  function Leave(s: State, u: nat, f: Fate): State
    requires u < |s.ops|
  {
    var id := s.ops[u].id;
    if id !in s.queue
    then s.(crashed := true, deaths := s.deaths + 1, ready := [], inFlight := None, fates := SetFate(s.fates, u, f))
    else s.(queue := s.queue - {id}, inFlight := None,
            fates := SetFate(if s.queue[id] == u then s.fates else SetFate(s.fates, s.queue[id], Lost), u, f))
  }

  predicate GivesUp(op: Op, r: Result) {
    r.Fails? && (!r.retryable || op.attempt >= op.maxRetries)
  }

  function CutOff(stopped: seq<nat>, inFlight: Option<nat>): seq<nat> {
    match inFlight
    case Some(u) => if u < |stopped| then stopped[u := stopped[u] + 1] else stopped
    case None => stopped
  }

  function Min(a: real, b: real): real {
    if a <= b then a else b
  }

  function Enter(s: State, id: string, maxRetries: int, initial: real, now: real): State {
    var replaced := id in s.queue;
    s.(queue := s.queue[id := |s.ops|],
       ops := s.ops + [Op(id, maxRetries, 0, initial, now + initial, now)],
       initial := s.initial + [initial], stopped := s.stopped + [0], clock := now,
       fates := (if replaced then SetFate(s.fates, s.queue[id], Replaced) else s.fates) + [Pending],
       replacements := if replaced then s.replacements + 1 else s.replacements,
       totalEnqueued := s.totalEnqueued + 1)
  }

  function Step(s: State, ev: Event): State
    requires Enabled(s, ev)
  {
    match ev
    case Enqueue(id, maxRetries, initial, now) => Enter(s, id, maxRetries, initial, now)
    case Cancel(id) =>
      if id in s.queue
      then s.(queue := s.queue - {id}, fates := SetFate(s.fates, s.queue[id], Cancelled), cancels := s.cancels + 1)
      else s
    case Poll(batch, now) => s.(ready := batch, clock := now)
    case Try(now) =>
      var u := s.ready[0];
      s.(ready := s.ready[1..], inFlight := Some(u), clock := now,
         ops := s.ops[u := s.ops[u].(attempt := s.ops[u].attempt + 1)])
    case End(r, now) =>
      var u := s.inFlight.value;
      var op := s.ops[u];
      var t := s.(clock := now);
      if r.Done? then Leave(t.(totalSucceeded := t.totalSucceeded + 1), u, Succeeded)
      else if GivesUp(op, r) then Leave(t.(totalExhausted := t.totalExhausted + 1), u, Exhausted)
      else
        var backoff := Min(op.backoff * 2.0, MAX_BACKOFF);
        t.(inFlight := None, ops := t.ops[u := op.(backoff := backoff, nextRetryAt := now + backoff)])
    case Restart(now) =>
      s.(ready := [], inFlight := None, crashed := false, clock := now, stopped := CutOff(s.stopped, s.inFlight))
  }

  lemma EnterIsStep(s: State, id: string, maxRetries: int, first: real, now: real)
    requires s.clock <= now
    ensures Step(s, Enqueue(id, maxRetries, first, now)) == Enter(s, id, maxRetries, first, now)
  {
    hide Enter, Leave;
  }

  // ---------- the queue object ----------

  class RetryQueue {
    var queue: map<string, nat>
    var ops: seq<Op>
    var ready: seq<nat>
    var inFlight: Option<nat>
    var totalEnqueued: nat
    var totalSucceeded: nat
    var totalExhausted: nat
    var crashed: bool
    ghost var past: State      // what is recorded of the run, beside the fields above

    ghost function View(): State
      reads this
    {
      past.(queue := queue, ops := ops, ready := ready, inFlight := inFlight, crashed := crashed,
            totalEnqueued := totalEnqueued, totalSucceeded := totalSucceeded, totalExhausted := totalExhausted)
    }

    constructor ()
      ensures View() == EMPTY
    {
      queue, ops, ready, inFlight := map[], [], [], None;
      totalEnqueued, totalSucceeded, totalExhausted, crashed := 0, 0, 0, false;
      past := EMPTY;
    }

    method EnqueueOp(id: string, maxRetries: int, first: real, now: real)
      requires past.clock <= now
      modifies this
      ensures View() == Step(old(View()), Enqueue(id, maxRetries, first, now))
    {
      hide SetFate, Step;
      EnterIsStep(View(), id, maxRetries, first, now);
      past := Step(View(), Enqueue(id, maxRetries, first, now));
      queue := queue[id := |ops|];
      ops := ops + [Op(id, maxRetries, 0, first, now + first, now)];
      totalEnqueued := totalEnqueued + 1;
    }

    method CancelOp(id: string) returns (found: bool)
      modifies this
      ensures found <==> id in old(queue)
      ensures View() == Step(old(View()), Cancel(id))
    {
      past := Step(View(), Cancel(id));
      if id !in queue { return false; }
      queue := queue - {id};
      return true;
    }

    /** One round of the loop collects the due operations. */
    method CollectReady(now: real) returns (batch: seq<nat>)
      requires past.clock <= now && !crashed && ready == [] && inFlight.None?
      requires forall id <- queue :: queue[id] < |ops| && ops[queue[id]].id == id
      modifies this`ready, this`past
      ensures Enabled(old(View()), Poll(batch, now)) && View() == Step(old(View()), Poll(batch, now))
      ensures NoDuplicates(batch)
      ensures forall u: nat :: u in batch <==> u < |ops| && ops[u].id in queue && queue[ops[u].id] == u
                                               && ops[u].nextRetryAt <= now
    {
      batch := [];
      var ids := queue.Keys;
      while ids != {}
        invariant ids <= queue.Keys
        invariant forall u <- batch :: u < |ops| && ops[u].id in queue && ops[u].id !in ids
                                       && queue[ops[u].id] == u && ops[u].nextRetryAt <= now
        invariant NoDuplicates(batch)
        invariant forall id <- queue :: id !in ids && ops[queue[id]].nextRetryAt <= now ==> queue[id] in batch
        decreases |ids|
      {
        var id :| id in ids;
        ids := ids - {id};
        if ops[queue[id]].nextRetryAt <= now {
          assert queue[id] !in batch;
          batch := batch + [queue[id]];
        }
      }
      past := Step(View(), Poll(batch, now));
      ready := batch;
    }

    /** The next operation of the batch is tried: its attempt is counted and its call started. */
    method StartTry(now: real)
      requires Enabled(View(), Try(now))
      modifies this
      ensures View() == Step(old(View()), Try(now))
    {
      past := Step(View(), Try(now));
      var u := ready[0];
      ready := ready[1..];
      ops := ops[u := ops[u].(attempt := ops[u].attempt + 1)];
      inFlight := Some(u);
    }

    /** The awaited call returned. */
    method FinishTry(result: Result, now: real)
      requires Enabled(View(), End(result, now))
      modifies this
      ensures View() == Step(old(View()), End(result, now))
    {
      hide Min, IsBatch, SetFate;
      var u := inFlight.value;
      past := Step(View(), End(result, now));
      inFlight := None;
      if result.Done? {
        totalSucceeded := totalSucceeded + 1;
        Delete(u);
        return;
      }
      if !result.retryable || ops[u].attempt >= ops[u].maxRetries {
        totalExhausted := totalExhausted + 1;
        Delete(u);
        return;
      }
      ops := ops[u := ops[u].(backoff := Min(ops[u].backoff * 2.0, MAX_BACKOFF))];
      ops := ops[u := ops[u].(nextRetryAt := now + ops[u].backoff)];
    }

    /** Stopping cancels the loop, in the middle of an awaited call if there is one; the queue stays as
        it is, with that call's attempt counted. Starting begins a new round, also after the loop has
        died. */
    method StopAndStart(now: real)
      requires past.clock <= now
      modifies this`ready, this`inFlight, this`crashed, this`past
      ensures View() == Step(old(View()), Restart(now))
    {
      past := Step(View(), Restart(now));
      ready, inFlight := [], None;
      crashed := false;
    }

    /** Deletion is by id; without such an id the exception ends the loop and its batch. */
    method Delete(u: nat)
      requires u < |ops|
      modifies this`queue, this`crashed, this`ready
      ensures if ops[u].id in old(queue)
              then queue == old(queue) - {ops[u].id} && crashed == old(crashed) && ready == old(ready)
              else queue == old(queue) && crashed && ready == []
    {
      var id := ops[u].id;
      if id in queue {
        queue := queue - {id};
      } else {
        crashed := true;
        ready := [];
      }
    }
  }

  // ---------- conservation ----------

  function Count(fates: seq<Fate>, f: Fate): nat {
    if fates == [] then 0
    else Count(fates[..|fates| - 1], f) + (if fates[|fates| - 1] == f then 1 else 0)
  }

  predicate InQueue(s: State, u: nat) {
    u < |s.ops| && s.ops[u].id in s.queue && s.queue[s.ops[u].id] == u
  }

  predicate KeyRight(s: State, id: string) {
    id in s.queue ==> s.queue[id] < |s.ops| && s.ops[s.queue[id]].id == id
  }

  predicate FateRight(s: State, u: nat) {
    u < |s.fates| ==> (s.fates[u].Pending? <==> InQueue(s, u))
  }

  /** The totals are the numbers of operations with each fate. */
  predicate Totals(s: State) {
    && Count(s.fates, Succeeded) == s.totalSucceeded
    && Count(s.fates, Exhausted) == s.totalExhausted
    && Count(s.fates, Cancelled) == s.cancels
    && Count(s.fates, Replaced) == s.replacements
    && Count(s.fates, Lost) == 0
    && Count(s.fates, Pending) == |s.queue|
  }

  /** Every operation ever enqueued is either in the queue, under its own id, or went out in one of
      the four ways the totals count; none was lost and the loop is alive. */
  ghost predicate Accounted(s: State) {
    && !s.crashed
    && |s.ops| == |s.fates| == |s.initial| == s.totalEnqueued
    && Totals(s)
    && (forall id :: KeyRight(s, id))
    && (forall u: nat :: FateRight(s, u))
  }

  lemma {:induction false} FatesAddUp(fates: seq<Fate>)
    ensures |fates| == Count(fates, Pending) + Count(fates, Succeeded) + Count(fates, Exhausted)
                       + Count(fates, Cancelled) + Count(fates, Replaced) + Count(fates, Lost)
  {
    if fates != [] {
      FatesAddUp(fates[..|fates| - 1]);
    }
  }

  /** Enqueued operations are conserved. */
  lemma Conservation(s: State)
    requires Accounted(s)
    ensures s.totalEnqueued
            == s.totalSucceeded + s.totalExhausted + s.cancels + s.replacements + |s.queue|
  {
    FatesAddUp(s.fates);
  }

  /** The batch and the operation in flight are still in the queue. */
  ghost predicate BatchInQueue(s: State) {
    && NoDuplicates(s.ready)
    && (forall u <- s.ready :: InQueue(s, u))
    && (s.inFlight.Some? ==> InQueue(s, s.inFlight.value) && s.inFlight.value !in s.ready)
  }

  /** Callers leave the ids of the batch alone while it is processed. */
  predicate Considerate(s: State, ev: Event) {
    (ev.Enqueue? || ev.Cancel?) ==>
      && (forall u <- s.ready :: u < |s.ops| ==> s.ops[u].id != ev.id)
      && (s.inFlight.Some? && s.inFlight.value < |s.ops| ==> s.ops[s.inFlight.value].id != ev.id)
  }

  lemma AddFate(fates: seq<Fate>, f: Fate, g: Fate)
    ensures Count(fates + [f], g) == Count(fates, g) + (if f == g then 1 else 0)
  {
    assert (fates + [f])[..|fates|] == fates;
  }

  lemma {:induction false} ChangeFate(fates: seq<Fate>, u: nat, f: Fate, g: Fate)
    requires u < |fates|
    ensures Count(SetFate(fates, u, f), g)
            == Count(fates, g) - (if fates[u] == g then 1 else 0) + (if f == g then 1 else 0)
  {
    var n := |fates| - 1;
    if u == n {
      assert fates[u := f][..n] == fates[..n];
    } else {
      assert fates[u := f][..n] == fates[..n][u := f];
      ChangeFate(fates[..n], u, f, g);
    }
  }

  lemma EnqueueAccounted(s: State, ev: Event)
    requires Accounted(s) && Enabled(s, ev) && ev.Enqueue?
    ensures Accounted(Step(s, ev))
  {
    hide Count;
    var t := Step(s, ev);
    assert KeyRight(s, ev.id);
    if ev.id in s.queue {
      var v := s.queue[ev.id];
      assert FateRight(s, v);
      forall g: Fate
        ensures Count(t.fates, g) == Count(s.fates, g) - (if Pending == g then 1 else 0)
                                     + (if Replaced == g then 1 else 0) + (if Pending == g then 1 else 0)
      {
        ChangeFate(s.fates, v, Replaced, g);
        AddFate(SetFate(s.fates, v, Replaced), Pending, g);
      }
      assert t.queue.Keys == s.queue.Keys;
    } else {
      forall g: Fate { AddFate(s.fates, Pending, g); }
      assert t.queue.Keys == s.queue.Keys + {ev.id};
    }
    forall id ensures KeyRight(t, id) { assert KeyRight(s, id); }
    forall u: nat ensures FateRight(t, u) { assert FateRight(s, u); }
  }

  lemma CancelAccounted(s: State, ev: Event)
    requires Accounted(s) && ev.Cancel?
    ensures Accounted(Step(s, ev))
  {
    hide Count;
    var t := Step(s, ev);
    assert KeyRight(s, ev.id);
    if ev.id in s.queue {
      assert FateRight(s, s.queue[ev.id]);
      forall g: Fate { ChangeFate(s.fates, s.queue[ev.id], Cancelled, g); }
      assert t.queue.Keys == s.queue.Keys - {ev.id};
      forall id ensures KeyRight(t, id) { assert KeyRight(s, id); }
      forall u: nat ensures FateRight(t, u) { assert FateRight(s, u); }
    }
  }

  predicate Ends(s: State, ev: Event)
    requires Enabled(s, ev)
  {
    ev.End? && (ev.result.Done? || GivesUp(s.ops[s.inFlight.value], ev.result))
  }

  /** An ending step is one more success or exhaustion, and a leave. */
  lemma EndsLeave(s: State, ev: Event) returns (t: State, f: Fate)
    requires Enabled(s, ev) && Ends(s, ev)
    ensures t == s.(clock := ev.now, totalSucceeded := t.totalSucceeded, totalExhausted := t.totalExhausted)
    ensures t.totalSucceeded + t.totalExhausted == s.totalSucceeded + s.totalExhausted + 1
    ensures f == (if ev.result.Done? then Succeeded else Exhausted) && Step(s, ev) == Leave(t, s.inFlight.value, f)
  {
    hide Leave;
    t := s.(clock := ev.now);
    if ev.result.Done? {
      t, f := t.(totalSucceeded := t.totalSucceeded + 1), Succeeded;
    } else {
      t, f := t.(totalExhausted := t.totalExhausted + 1), Exhausted;
    }
  }

  lemma EndAccounted(s: State, ev: Event)
    requires Accounted(s) && Enabled(s, ev) && Ends(s, ev) && s.fates[s.inFlight.value].Pending?
    ensures Accounted(Step(s, ev))
  {
    hide Count;
    var u := s.inFlight.value;
    var f := if ev.result.Done? then Succeeded else Exhausted;
    var t := Step(s, ev);
    assert FateRight(s, u);
    forall g: Fate { ChangeFate(s.fates, u, f, g); }
    assert t.queue.Keys == s.queue.Keys - {s.ops[u].id};
    forall id ensures KeyRight(t, id) { assert KeyRight(s, id); }
    forall v: nat ensures FateRight(t, v) { assert FateRight(s, v); }
  }

  lemma {:induction false} NoneWith(fates: seq<Fate>, f: Fate, u: nat)
    requires Count(fates, f) == 0 && u < |fates|
    ensures fates[u] != f
  {
    if u < |fates| - 1 {
      NoneWith(fates[..|fates| - 1], f, u);
    }
  }

  lemma LeaveBreaksTheBooks(s: State, u: nat, f: Fate)
    requires Accounted(s) && u < |s.ops| && !InQueue(s, u) && (f.Succeeded? || f.Exhausted?)
    ensures Leave(s, u, f).crashed || Count(Leave(s, u, f).fates, Lost) > 0
  {
    hide Count;
    assert FateRight(s, u);
    var id := s.ops[u].id;
    if id in s.queue {
      assert KeyRight(s, id);
      var v := s.queue[id];
      assert FateRight(s, v);
      NoneWith(s.fates, Lost, u);
      NoneWith(s.fates, Lost, v);
      ChangeFate(s.fates, v, Lost, Lost);
      ChangeFate(SetFate(s.fates, v, Lost), u, f, Lost);
    }
  }

  /** An ending operation keeps the books exactly when it is itself still in the queue: not cancelled
      and not replaced while it was awaited. */
  lemma EndKeepsTheBooks(s: State, ev: Event)
    requires Accounted(s) && Enabled(s, ev) && Ends(s, ev)
    ensures Accounted(Step(s, ev)) <==> InQueue(s, s.inFlight.value)
  {
    hide Count;
    var u := s.inFlight.value;
    assert FateRight(s, u);
    if InQueue(s, u) {
      EndAccounted(s, ev);
    } else {
      LeaveBreaksTheBooks(s, u, if ev.result.Done? then Succeeded else Exhausted);
    }
  }

  lemma TotalsTogether(s: State, t: State)
    requires Totals(s)
    requires t.fates == s.fates && t.queue == s.queue && t.totalSucceeded == s.totalSucceeded
             && t.totalExhausted == s.totalExhausted && t.cancels == s.cancels && t.replacements == s.replacements
    ensures Totals(t)
  {
  }

  lemma QuietAccounted(s: State, ev: Event)
    requires Accounted(s) && Enabled(s, ev)
    requires ev.Poll? || ev.Try? || ev.Restart? || (ev.End? && !Ends(s, ev))
    ensures Accounted(Step(s, ev))
  {
    hide Totals;
    var t := Step(s, ev);
    TotalsTogether(s, t);
    forall id ensures KeyRight(t, id) { assert KeyRight(s, id); }
    forall u: nat ensures FateRight(t, u) { assert FateRight(s, u); }
  }

  lemma StepBatch(s: State, ev: Event)
    requires BatchInQueue(s) && Enabled(s, ev) && Considerate(s, ev)
    ensures BatchInQueue(Step(s, ev))
  {
    hide SetFate;
    var t := Step(s, ev);
    if ev.Try? { assert s.ready[0] in s.ready; }
    forall u <- t.ready ensures InQueue(t, u) && t.inFlight != Some(u) {
      assert ev.Poll? || u in s.ready;
    }
  }

  lemma StepAccounted(s: State, ev: Event)
    requires Accounted(s) && BatchInQueue(s) && Enabled(s, ev) && Considerate(s, ev)
    ensures Accounted(Step(s, ev)) && BatchInQueue(Step(s, ev))
  {
    StepBatch(s, ev);
    if ev.End? {
      assert FateRight(s, s.inFlight.value);
      assert s.fates[s.inFlight.value].Pending?;
    }
    hide Step, Totals, KeyRight, FateRight;
    if ev.Enqueue? {
      EnqueueAccounted(s, ev);
    } else if ev.Cancel? {
      CancelAccounted(s, ev);
    } else if Ends(s, ev) {
      EndKeepsTheBooks(s, ev);
    } else {
      QuietAccounted(s, ev);
    }
  }

  // ---------- backoff and timing ----------

  function Pow2(k: nat): real {
    if k == 0 then 1.0 else 2.0 * Pow2(k - 1)
  }

  /** The backoff after `k` retryable failures. */
  function Backoff(initial: real, k: nat): real {
    if k == 0 then initial else Min(Scaled(initial, k), MAX_BACKOFF)
  }

  function Scaled(initial: real, k: nat): real {
    initial * Pow2(k)
  }

  lemma Product(x: real, p: real, q: real)
    requires q == 2.0 * p
    ensures x * q == x * p * 2.0
  {
  }

  lemma ScaledDoubles(initial: real, k: nat)
    ensures Scaled(initial, k + 1) == Scaled(initial, k) * 2.0 && Scaled(initial, 0) == initial
  {
    Product(initial, Pow2(k), Pow2(k + 1));
  }

  lemma MinDoubles(x: real)
    ensures Min(Min(x, MAX_BACKOFF) * 2.0, MAX_BACKOFF) == Min(x * 2.0, MAX_BACKOFF)
  {
  }

  lemma BackoffDoubles(initial: real, k: nat)
    ensures Min(Backoff(initial, k) * 2.0, MAX_BACKOFF) == Backoff(initial, k + 1)
  {
    hide Min, Scaled;
    ScaledDoubles(initial, k);
    MinDoubles(Scaled(initial, k));
  }

  function Delays(initial: real, k: nat): real {
    if k == 0 then 0.0 else Delays(initial, k - 1) + Backoff(initial, k)
  }

  /** Attempt `j` cannot start before this. */
  function Earliest(op: Op, initial: real, j: nat): real
    requires j >= 1
  {
    op.createdAt + initial + Delays(initial, j - 1)
  }

  function Limit(op: Op): nat {
    if op.maxRetries < 1 then 1 else op.maxRetries
  }

  /** What every operation keeps, in every run. A try that a stop cut off counts as an attempt but not
      as a failure, so each one allows one attempt more and puts no new delay before it. */
  predicate OnSchedule(s: State, u: nat) {
    u < |s.ops| && u < |s.initial| && u < |s.stopped| ==>
      var op := s.ops[u];
      var j := op.attempt - s.stopped[u];
      if s.inFlight == Some(u)
      then 1 <= j <= Limit(op) && op.nextRetryAt >= Earliest(op, s.initial[u], j)
           && op.backoff == Backoff(s.initial[u], j - 1)
      else 0 <= j <= Limit(op) && (Expected(s, u) ==>
             j < Limit(op) && op.nextRetryAt >= Earliest(op, s.initial[u], j + 1)
             && op.backoff == Backoff(s.initial[u], j))
  }

  /** The operation may still be tried. */
  predicate Expected(s: State, u: nat) {
    InQueue(s, u) || u in s.ready
  }

  ghost predicate Timely(s: State) {
    && InHand(s)
    && (forall u: nat :: OnSchedule(s, u))
    && (forall id :: KeyRight(s, id))
  }

  /** A leave moves no operation and no clock. */
  lemma LeaveFrame(s: State, u: nat, f: Fate)
    requires u < |s.ops|
    ensures var t := Leave(s, u, f);
            t.ops == s.ops && t.initial == s.initial && t.stopped == s.stopped && t.clock == s.clock && t.inFlight.None?
            && (t.ready == s.ready || t.ready == []) && forall v: nat :: InQueue(t, v) ==> InQueue(s, v) && v != u
  {
    hide SetFate;
  }

  /** What an end changes for the schedule: the operation in flight is over or has a new time. */
  lemma EndFrame(s: State, ev: Event)
    requires Enabled(s, ev) && ev.End?
    ensures var t := Step(s, ev); var u := s.inFlight.value; var op := s.ops[u];
            var backoff := Min(op.backoff * 2.0, MAX_BACKOFF);
            && t.inFlight.None? && t.clock == ev.now && t.initial == s.initial && t.stopped == s.stopped
            && (t.ready == s.ready || t.ready == [])
            && t.ops == (if Ends(s, ev) then s.ops
                         else s.ops[u := op.(backoff := backoff, nextRetryAt := ev.now + backoff)])
            && (forall v: nat :: InQueue(t, v) ==> InQueue(s, v) && (Ends(s, ev) ==> v != u))
  {
    hide Leave, SetFate, Min;
    if Ends(s, ev) {
      var t, f := EndsLeave(s, ev);
      LeaveFrame(t, s.inFlight.value, f);
      assert forall v: nat :: InQueue(t, v) ==> InQueue(s, v);
    }
  }

  lemma OthersOnSchedule(s: State, ev: Event, u: nat)
    requires Timely(s) && Enabled(s, ev) && ev.End? && s.inFlight != Some(u)
    ensures OnSchedule(Step(s, ev), u)
  {
    hide Step, Backoff, Earliest, Timely, Min;
    OnScheduleOf(s, u);
    EndFrame(s, ev);
  }

  lemma OnScheduleOf(s: State, u: nat)
    requires Timely(s)
    ensures OnSchedule(s, u) && |s.ops| == |s.initial| == |s.stopped|
    ensures s.inFlight == Some(u) ==> u !in s.ready && u < |s.ops| && s.ops[u].nextRetryAt <= s.clock
  {
  }

  lemma LeaverOnSchedule(s: State, ev: Event)
    requires Timely(s) && Enabled(s, ev) && Ends(s, ev)
    ensures OnSchedule(Step(s, ev), s.inFlight.value)
  {
    hide Step, Backoff, Earliest, Timely, Min;
    OnScheduleOf(s, s.inFlight.value);
    EndFrame(s, ev);
  }

  lemma RetriedOnSchedule(s: State, ev: Event)
    requires Timely(s) && Enabled(s, ev) && ev.End? && !Ends(s, ev)
    ensures OnSchedule(Step(s, ev), s.inFlight.value)
  {
    hide Step, Backoff, Earliest, Timely, Min;
    var u := s.inFlight.value;
    OnScheduleOf(s, u);
    var k := s.ops[u].attempt - s.stopped[u];
    EndFrame(s, ev);
    BackoffDoubles(s.initial[u], k - 1);
    EarliestNext(s.ops[u], s.initial[u], k);
    SameStart(s.ops[u], Step(s, ev).ops[u], s.initial[u], k + 1);
  }

  lemma EndOnSchedule(s: State, ev: Event, u: nat)
    requires Timely(s) && Enabled(s, ev) && ev.End?
    ensures OnSchedule(Step(s, ev), u)
  {
    hide Step, OnSchedule, Timely;
    if s.inFlight != Some(u) {
      OthersOnSchedule(s, ev, u);
    } else if Ends(s, ev) {
      LeaverOnSchedule(s, ev);
    } else {
      RetriedOnSchedule(s, ev);
    }
  }

  lemma TryOnSchedule(s: State, ev: Event, u: nat)
    requires Timely(s) && Enabled(s, ev) && ev.Try?
    ensures OnSchedule(Step(s, ev), u)
  {
    hide SetFate, Backoff, Earliest;
    assert OnSchedule(s, u);
    assert s.ready[0] in s.ready;
    if u == s.ready[0] {
      SameStart(s.ops[u], Step(s, ev).ops[u], s.initial[u], s.ops[u].attempt - s.stopped[u] + 1);
    }
  }

  lemma StepOnSchedule(s: State, ev: Event, u: nat)
    requires Timely(s) && Enabled(s, ev) && !ev.End? && !ev.Try?
    ensures OnSchedule(Step(s, ev), u)
  {
    hide SetFate, Backoff, Earliest;
    assert OnSchedule(s, u);
    if ev.Enqueue? && u == |s.ops| {
      FirstTry(Step(s, ev).ops[u], ev.initial);
    }
  }

  lemma SameStart(op: Op, later: Op, initial: real, j: nat)
    requires j >= 1 && op.createdAt == later.createdAt
    ensures Earliest(op, initial, j) == Earliest(later, initial, j)
  {
  }

  lemma EarliestNext(op: Op, initial: real, j: nat)
    requires j >= 1
    ensures Earliest(op, initial, j + 1) == Earliest(op, initial, j) + Backoff(initial, j)
  {
  }

  lemma FirstTry(op: Op, initial: real)
    ensures Earliest(op, initial, 1) == op.createdAt + initial && Backoff(initial, 0) == initial
  {
  }

  lemma StepKeys(s: State, ev: Event, id: string)
    requires Timely(s) && Enabled(s, ev)
    ensures KeyRight(Step(s, ev), id)
  {
    hide OnSchedule, SetFate;
    assert KeyRight(s, id);
  }

  /** The part of the invariant about the batch and the operation in flight. */
  predicate InHand(s: State) {
    && |s.ops| == |s.initial| == |s.stopped|
    && NoDuplicates(s.ready)
    && (forall u <- s.ready :: u < |s.ops| && s.ops[u].nextRetryAt <= s.clock && s.inFlight != Some(u))
    && (s.inFlight.Some? ==> s.inFlight.value < |s.ops| && s.ops[s.inFlight.value].nextRetryAt <= s.clock)
  }

  lemma CallerInHand(s: State, ev: Event)
    requires InHand(s) && Enabled(s, ev) && (ev.Enqueue? || ev.Cancel? || ev.Restart?)
    ensures InHand(Step(s, ev))
  {
    hide SetFate;
    forall u <- Step(s, ev).ready ensures Step(s, ev).ops[u] == s.ops[u] { assert u in s.ready; }
  }

  lemma LoopInHand(s: State, ev: Event)
    requires InHand(s) && Enabled(s, ev) && (ev.Poll? || ev.Try?)
    ensures InHand(Step(s, ev))
  {
    if ev.Try? {
      assert s.ready[0] in s.ready;
      forall u <- s.ready[1..] ensures u in s.ready && u != s.ready[0] {}
    }
  }

  lemma EndInHand(s: State, ev: Event)
    requires InHand(s) && Enabled(s, ev) && ev.End?
    ensures InHand(Step(s, ev))
  {
    hide Step;
    EndFrame(s, ev);
  }

  lemma StepInHand(s: State, ev: Event)
    requires InHand(s) && Enabled(s, ev)
    ensures InHand(Step(s, ev))
  {
    hide InHand, Step, Enabled;
    if ev.End? {
      EndInHand(s, ev);
    } else if ev.Poll? || ev.Try? {
      LoopInHand(s, ev);
    } else {
      CallerInHand(s, ev);
    }
  }

  lemma StepTimely(s: State, ev: Event)
    requires Timely(s) && Enabled(s, ev)
    ensures Timely(Step(s, ev))
  {
    hide Step, Enabled, OnSchedule, KeyRight, InHand;
    forall id ensures KeyRight(Step(s, ev), id) { StepKeys(s, ev, id); }
    StepInHand(s, ev);
    forall u: nat ensures OnSchedule(Step(s, ev), u) {
      if ev.End? {
        EndOnSchedule(s, ev, u);
      } else if ev.Try? {
        TryOnSchedule(s, ev, u);
      } else {
        StepOnSchedule(s, ev, u);
      }
    }
  }

  // ---------- runs ----------

  predicate Legal(s: State, evs: seq<Event>)
    decreases |evs|
  {
    evs == [] || (Enabled(s, evs[0]) && Legal(Step(s, evs[0]), evs[1..]))
  }

  function Run(s: State, evs: seq<Event>): State
    requires Legal(s, evs)
    decreases |evs|
  {
    if evs == [] then s else Run(Step(s, evs[0]), evs[1..])
  }

  predicate AllConsiderate(s: State, evs: seq<Event>)
    requires Legal(s, evs)
    decreases |evs|
  {
    evs == [] || (Considerate(s, evs[0]) && AllConsiderate(Step(s, evs[0]), evs[1..]))
  }

  /** Over any run in which nobody touches the ids of the batch being processed, no operation is lost
      or counted twice, and the batch stays queued. */
  lemma {:induction false} ConsiderateRunsLoseNothing(s: State, evs: seq<Event>)
    requires Accounted(s) && BatchInQueue(s) && Legal(s, evs) && AllConsiderate(s, evs)
    ensures Accounted(Run(s, evs)) && BatchInQueue(Run(s, evs))
    decreases |evs|
  {
    if evs != [] {
      StepAccounted(s, evs[0]);
      ConsiderateRunsLoseNothing(Step(s, evs[0]), evs[1..]);
    }
  }

  // ---------- the totals, for every run ----------

  /** An operation that ended the loop is counted as over but was not in the queue to leave it. */
  predicate Balanced(s: State) {
    s.totalSucceeded + s.totalExhausted + s.cancels + s.replacements + |s.queue| == s.totalEnqueued + s.deaths
  }

  lemma LeaveBalanced(s: State, u: nat, f: Fate)
    requires u < |s.ops| && Balanced(s.(totalEnqueued := s.totalEnqueued + 1))
    ensures Balanced(Leave(s, u, f))
  {
    hide SetFate;
    var id := s.ops[u].id;
    if id in s.queue { assert (s.queue - {id}).Keys == s.queue.Keys - {id}; }
  }

  lemma CallerBalanced(s: State, ev: Event)
    requires Balanced(s) && Enabled(s, ev) && (ev.Enqueue? || ev.Cancel?)
    ensures Balanced(Step(s, ev))
  {
    hide SetFate;
    if ev.Enqueue? {
      assert s.queue[ev.id := |s.ops|].Keys == s.queue.Keys + {ev.id};
    } else {
      assert (s.queue - {ev.id}).Keys == s.queue.Keys - {ev.id};
    }
  }

  lemma StepBalanced(s: State, ev: Event)
    requires Balanced(s) && Enabled(s, ev)
    ensures Balanced(Step(s, ev))
  {
    hide SetFate, Leave, Min, IsBatch;
    if ev.Enqueue? || ev.Cancel? {
      CallerBalanced(s, ev);
    } else if ev.End? && Ends(s, ev) {
      var t, f := EndsLeave(s, ev);
      LeaveBalanced(t, s.inFlight.value, f);
    }
  }

  /** Some ending step of the run finds nothing in the queue under its operation's id. */
  predicate EndsOnMissingId(s: State, evs: seq<Event>)
    requires Legal(s, evs)
    decreases |evs|
  {
    evs != []
    && ((Ends(s, evs[0]) && s.ops[s.inFlight.value].id !in s.queue) || EndsOnMissingId(Step(s, evs[0]), evs[1..]))
  }

  /** A step ends the loop exactly when it is an ending step whose operation's id is gone. */
  lemma StepDies(s: State, ev: Event)
    requires Enabled(s, ev)
    ensures Step(s, ev).deaths
            == s.deaths + if Ends(s, ev) && s.ops[s.inFlight.value].id !in s.queue then 1 else 0
  {
    hide SetFate, IsBatch;
  }

  lemma {:induction false} RunsBalance(s: State, evs: seq<Event>)
    requires Balanced(s) && Legal(s, evs)
    ensures Balanced(Run(s, evs)) && Run(s, evs).deaths >= s.deaths
            && (Run(s, evs).deaths == s.deaths <==> !EndsOnMissingId(s, evs))
    decreases |evs|
  {
    hide Balanced, Step, Enabled, Ends;
    if evs != [] {
      StepBalanced(s, evs[0]);
      StepDies(s, evs[0]);
      RunsBalance(Step(s, evs[0]), evs[1..]);
    }
  }

  /** Over every run whatsoever, restarts included, the totals add up exactly while the loop has never
      died, that is, unless some ending step found its operation's id gone. */
  lemma RunsConserve(evs: seq<Event>)
    requires Legal(EMPTY, evs)
    ensures var t := Run(EMPTY, evs);
            && (t.totalEnqueued == t.totalSucceeded + t.totalExhausted + t.cancels + t.replacements + |t.queue|
                <==> t.deaths == 0)
            && (t.deaths == 0 <==> !EndsOnMissingId(EMPTY, evs))
  {
    hide Legal, Run, EndsOnMissingId;
    RunsBalance(EMPTY, evs);
  }

  // ---------- what touching an operation in flight costs ----------

  /** What holds in every run: the queue and the fates agree on what is pending. */
  ghost predicate Tracked(s: State) {
    && |s.ops| == |s.fates|
    && (s.inFlight.Some? ==> s.inFlight.value < |s.ops|)
    && (forall u <- s.ready :: u < |s.ops|)
    && (forall id :: KeyRight(s, id))
    && (forall u: nat :: FateRight(s, u))
  }

  lemma EndTracked(s: State, u: nat, f: Fate)
    requires Tracked(s) && u < |s.ops| && !f.Pending?
    ensures Tracked(Leave(s, u, f))
  {
    var t := Leave(s, u, f);
    assert FateRight(s, u);
    forall id ensures KeyRight(t, id) { assert KeyRight(s, id); }
    assert KeyRight(s, s.ops[u].id);
    forall v: nat ensures FateRight(t, v) { assert FateRight(s, v); }
  }

  lemma CallerTracked(s: State, ev: Event)
    requires Tracked(s) && Enabled(s, ev) && (ev.Enqueue? || ev.Cancel?)
    ensures Tracked(Step(s, ev))
  {
    var t := Step(s, ev);
    assert KeyRight(s, ev.id);
    if ev.id in s.queue { assert FateRight(s, s.queue[ev.id]); }
    forall id ensures KeyRight(t, id) { assert KeyRight(s, id); }
    forall u: nat ensures FateRight(t, u) { assert FateRight(s, u); }
  }

  lemma LoopTracked(s: State, ev: Event)
    requires Tracked(s) && Enabled(s, ev) && !ev.Enqueue? && !ev.Cancel? && !Ends(s, ev)
    ensures Tracked(Step(s, ev))
  {
    hide Min, Leave, SetFate;
    var t := Step(s, ev);
    if ev.Try? { assert s.ready[0] in s.ready; }
    forall u <- t.ready ensures u < |t.ops| { assert ev.Poll? || u in s.ready; }
    forall id ensures KeyRight(t, id) { assert KeyRight(s, id); }
    forall u: nat ensures FateRight(t, u) { assert FateRight(s, u); }
  }

  lemma SameTracked(s: State, t: State)
    requires Tracked(s) && t.ops == s.ops && t.fates == s.fates && t.queue == s.queue
    requires t.inFlight == s.inFlight && t.ready == s.ready
    ensures Tracked(t)
  {
    forall id ensures KeyRight(t, id) { assert KeyRight(s, id); }
    forall u: nat ensures FateRight(t, u) { assert FateRight(s, u); }
  }

  lemma StepTracked(s: State, ev: Event)
    requires Tracked(s) && Enabled(s, ev)
    ensures Tracked(Step(s, ev))
  {
    hide Step, Leave, IsBatch;
    if ev.Enqueue? || ev.Cancel? {
      CallerTracked(s, ev);
    } else if Ends(s, ev) {
      var t, f := EndsLeave(s, ev);
      SameTracked(s, t);
      EndTracked(t, s.inFlight.value, f);
    } else {
      LoopTracked(s, ev);
    }
  }

  lemma {:induction false} RunsAreTracked(s: State, evs: seq<Event>)
    requires Tracked(s) && Legal(s, evs)
    ensures Tracked(Run(s, evs))
    decreases |evs|
  {
    hide Step, Enabled, Tracked;
    if evs != [] {
      StepTracked(s, evs[0]);
      RunsAreTracked(Step(s, evs[0]), evs[1..]);
    }
  }

  /** Operation `v` is taken out of the queue by the end of another one. */
  predicate LostTo(s: State, t: State, v: nat) {
    v < |s.fates| && v < |t.fates| && InQueue(s, v) && !InQueue(t, v) && t.fates[v].Lost?
  }

  /** An ending step takes another operation with it exactly when the id of its own is in the queue
      under another number; with the id gone it ends the loop instead. */
  lemma EndLosesAnother(s: State, ev: Event)
    requires Tracked(s) && Enabled(s, ev) && Ends(s, ev)
    ensures var u := s.inFlight.value; var id := s.ops[u].id; var t := Step(s, ev);
            && ((exists v: nat :: LostTo(s, t, v)) <==> id in s.queue && s.queue[id] != u)
            && (t.crashed <==> id !in s.queue)
  {
    var u := s.inFlight.value;
    var id := s.ops[u].id;
    var t := Step(s, ev);
    assert KeyRight(s, id);
    if id in s.queue && s.queue[id] != u { assert LostTo(s, t, s.queue[id]); }
  }

  /** Cancelling an operation while it is awaited ends the loop as soon as the operation ends. */
  lemma CancelThenEnd(s: State, end: Event)
    requires Accounted(s) && s.inFlight.Some? && InQueue(s, s.inFlight.value)
    requires var t := Step(s, Cancel(s.ops[s.inFlight.value].id)); Enabled(t, end) && Ends(t, end)
    ensures Step(Step(s, Cancel(s.ops[s.inFlight.value].id)), end).crashed
  {
    hide SetFate, Totals;
  }

  /** Replacing it takes the replacement out of the queue when the old operation ends: the new one is
      never tried, although the loop lives and the totals still add up. */
  lemma ReplaceThenEnd(s: State, again: Event, end: Event)
    requires Accounted(s) && s.inFlight.Some? && InQueue(s, s.inFlight.value)
    requires again.Enqueue? && again.id == s.ops[s.inFlight.value].id && Enabled(s, again)
    requires Enabled(Step(s, again), end) && Ends(Step(s, again), end)
    ensures var t := Step(s, again); var after := Step(t, end); var v := |s.ops|;
            && InQueue(t, v) && LostTo(t, after, v) && again.id !in after.queue
            && !after.crashed && (s.deaths == 0 ==> Balanced(after))
  {
    hide Count;
    var t := Step(s, again);
    EnqueueAccounted(s, again);
    Conservation(s);
    if s.deaths == 0 {
      StepBalanced(s, again);
      StepBalanced(t, end);
    }
    assert KeyRight(s, again.id);
  }

  /** Over any run whatsoever: an attempt starts no earlier than its schedule and is at most the last
      one allowed, and the backoff has its closed form. The tries of the operation that a stop cut off
      are left out of the count: without any, attempt, schedule and limit are the ones configured. */
  lemma {:induction false} RunsAreTimely(s: State, evs: seq<Event>, now: real)
    requires Timely(s) && Legal(s, evs)
    ensures Timely(Run(s, evs))
    ensures Enabled(Run(s, evs), Try(now)) ==>
              var t := Run(s, evs); var u := t.ready[0]; var op := t.ops[u]; var j := op.attempt - t.stopped[u];
              && 0 <= j < Limit(op)
              && now >= Earliest(op, t.initial[u], j + 1)
              && op.backoff == Backoff(t.initial[u], j)
    decreases |evs|
  {
    hide Step, Earliest, Backoff, Limit;
    if evs == [] {
      if Enabled(s, Try(now)) {
        assert s.ready[0] in s.ready;
        OnScheduleOf(s, s.ready[0]);
      }
    } else {
      StepTimely(s, evs[0]);
      RunsAreTimely(Step(s, evs[0]), evs[1..], now);
    }
  }

  /** The due operations under some of the ids, each once. */
  predicate DueUnder(s: State, ids: set<string>, batch: seq<nat>, now: real) {
    && NoDuplicates(batch)
    && (forall u <- batch :: InQueue(s, u) && s.ops[u].id in ids && s.ops[u].nextRetryAt <= now)
    && (forall id <- ids :: id in s.queue && s.queue[id] < |s.ops| && s.ops[s.queue[id]].nextRetryAt <= now
                            ==> s.queue[id] in batch)
  }

  lemma CollectUnder(s: State, ids: set<string>, now: real) returns (batch: seq<nat>)
    requires forall id :: KeyRight(s, id)
    ensures DueUnder(s, ids, batch, now)
  {
    if ids == {} { return []; }
    var id :| id in ids;
    var rest := CollectUnder(s, ids - {id}, now);
    assert KeyRight(s, id);
    if id in s.queue && s.ops[s.queue[id]].nextRetryAt <= now {
      batch := [s.queue[id]] + rest;
    } else {
      batch := rest;
    }
  }

  /** A round may begin with any due operation. */
  lemma DueFirst(s: State, u: nat, now: real) returns (batch: seq<nat>)
    requires (forall id :: KeyRight(s, id)) && InQueue(s, u) && s.ops[u].nextRetryAt <= now
    ensures IsBatch(s, batch, now) && batch != [] && batch[0] == u
  {
    var rest := CollectUnder(s, s.queue.Keys - {s.ops[u].id}, now);
    batch := [u] + rest;
  }

  /** The price of a stop: an operation whose awaited try is cut off while it is queued is due again at
      the moment of the start, with the attempt already counted and one attempt more allowed it. */
  lemma CutOffIsDueAtOnce(s: State, now: real) returns (batch: seq<nat>)
    requires Timely(s) && s.inFlight.Some? && InQueue(s, s.inFlight.value) && s.clock <= now
    ensures var u := s.inFlight.value; var t := Step(s, Restart(now));
            && Enabled(t, Poll(batch, now)) && batch != [] && batch[0] == u
            && Enabled(Step(t, Poll(batch, now)), Try(now))
            && var after := Step(Step(t, Poll(batch, now)), Try(now));
               && after.ops[u].attempt == s.ops[u].attempt + 1
               && (after.ops[u].attempt > Limit(s.ops[u]) <==> s.ops[u].attempt >= Limit(s.ops[u]))
  {
    var u := s.inFlight.value;
    batch := DueFirst(s, u, now);
  }

  /** The last attempt allowed always takes the operation out of the queue. */
  lemma LastAttemptLeaves(s: State, ev: Event)
    requires Timely(s) && Enabled(s, ev) && ev.End? && s.ops[s.inFlight.value].attempt >= Limit(s.ops[s.inFlight.value])
    ensures s.ops[s.inFlight.value].id !in Step(s, ev).queue
  {
  }

  lemma EmptyQueue()
    ensures Accounted(EMPTY) && BatchInQueue(EMPTY) && Timely(EMPTY)
  {
  }

  // ---------- which results are retried ----------

  /** What the end of a try does, by its result. A failure that is not retryable is the end at any
      attempt; a retryable one is when the attempts are used up, and otherwise the operation stays, due
      again after the doubled backoff. */
  lemma EndByResult(s: State, result: Result, now: real)
    requires Enabled(s, End(result, now)) && InQueue(s, s.inFlight.value)
    ensures var t := Step(s, End(result, now)); var u := s.inFlight.value; var op := s.ops[u];
            && t.inFlight.None? && t.clock == now && t.totalEnqueued == s.totalEnqueued
            && match result
               case Done =>
                 && t.queue == s.queue - {op.id} && t.ops == s.ops && t.fates == SetFate(s.fates, u, Succeeded)
                 && t.totalSucceeded == s.totalSucceeded + 1 && t.totalExhausted == s.totalExhausted
               case Fails(retryable) =>
                 && t.totalSucceeded == s.totalSucceeded
                 && if retryable && op.attempt < op.maxRetries
                    then
                      var backoff := if op.backoff * 2.0 <= 30.0 then op.backoff * 2.0 else 30.0;
                      && t.queue == s.queue && t.fates == s.fates && t.totalExhausted == s.totalExhausted
                      && t.ops == s.ops[u := op.(backoff := backoff, nextRetryAt := now + backoff)]
                    else
                      && t.queue == s.queue - {op.id} && t.ops == s.ops && t.fates == SetFate(s.fates, u, Exhausted)
                      && t.totalExhausted == s.totalExhausted + 1
  {
    hide SetFate;
  }

  /** Operation `u` is queued and nothing in hand shares its id; it has a try left, or is in its last. */
  ghost predicate Alone(s: State, u: nat) {
    && InQueue(s, u) && u < |s.fates|
    && NoDuplicates(s.ready)
    && (forall v <- s.ready :: v < |s.ops| && (v != u ==> s.ops[v].id != s.ops[u].id))
    && (s.inFlight.Some? ==> s.inFlight.value < |s.ops| && s.inFlight.value !in s.ready
                             && (s.inFlight.value != u ==> s.ops[s.inFlight.value].id != s.ops[u].id))
    && var limit := if s.ops[u].maxRetries < 1 then 1 else s.ops[u].maxRetries;
       if s.inFlight == Some(u) then 1 <= s.ops[u].attempt <= limit else s.ops[u].attempt < limit
  }

  /** It is out of the queue for good, exhausted. */
  predicate Gone(s: State, u: nat) {
    u < |s.ops| && u < |s.fates| && s.fates[u].Exhausted? && !InQueue(s, u) && u !in s.ready && s.inFlight != Some(u)
  }

  predicate TryOf(s: State, ev: Event, u: nat)
    requires Enabled(s, ev)
  {
    ev.Try? && s.ready[0] == u
  }

  /** While the operation is queued its id is left alone, no stop cuts it off, and its tries fail in a
      way that may be retried. */
  predicate Undisturbed(s: State, ev: Event, u: nat) {
    InQueue(s, u) ==>
      && (ev.Enqueue? || ev.Cancel? ==> ev.id != s.ops[u].id)
      && (ev.Restart? ==> s.inFlight != Some(u))
      && (ev.End? && s.inFlight == Some(u) ==> ev.result == Fails(true))
  }

  predicate AllUndisturbed(s: State, evs: seq<Event>, u: nat)
    requires Legal(s, evs)
    decreases |evs|
  {
    evs == [] || (Undisturbed(s, evs[0], u) && AllUndisturbed(Step(s, evs[0]), evs[1..], u))
  }

  function Tries(s: State, evs: seq<Event>, u: nat): nat
    requires Legal(s, evs)
    decreases |evs|
  {
    if evs == [] then 0 else (if TryOf(s, evs[0], u) then 1 else 0) + Tries(Step(s, evs[0]), evs[1..], u)
  }

  lemma OthersEnd(s: State, ev: Event, u: nat)
    requires Tracked(s) && Alone(s, u) && Enabled(s, ev) && ev.End? && s.inFlight != Some(u)
    ensures Alone(Step(s, ev), u) && Step(s, ev).ops[u] == s.ops[u]
  {
    hide Min, IsBatch;
  }

  lemma OwnEnd(s: State, ev: Event, u: nat)
    requires Tracked(s) && Alone(s, u) && Enabled(s, ev) && ev.End? && s.inFlight == Some(u) && Undisturbed(s, ev, u)
    ensures var t := Step(s, ev);
            && t.ops[u] == s.ops[u].(backoff := t.ops[u].backoff, nextRetryAt := t.ops[u].nextRetryAt)
            && if s.ops[u].attempt == (if s.ops[u].maxRetries < 1 then 1 else s.ops[u].maxRetries)
               then Gone(t, u) else Alone(t, u)
  {
    hide Min, IsBatch, NoDuplicates;
    EndByResult(s, ev.result, ev.now);
  }

  lemma CallerAlone(s: State, ev: Event, u: nat)
    requires Tracked(s) && Alone(s, u) && Enabled(s, ev) && Undisturbed(s, ev, u)
    requires ev.Enqueue? || ev.Cancel? || ev.Restart?
    ensures Alone(Step(s, ev), u) && Step(s, ev).ops[u] == s.ops[u]
  {
    var t := Step(s, ev);
    forall v | v in t.ready ensures v in s.ready && t.ops[v] == s.ops[v] {}
  }

  lemma LoopAlone(s: State, ev: Event, u: nat)
    requires Tracked(s) && Alone(s, u) && Enabled(s, ev) && (ev.Poll? || ev.Try?)
    ensures var t := Step(s, ev);
            Alone(t, u) && t.ops[u] == s.ops[u].(attempt := s.ops[u].attempt + if TryOf(s, ev, u) then 1 else 0)
  {
    if ev.Try? {
      assert s.ready[0] in s.ready;
      forall v | v in s.ready[1..] ensures v in s.ready && v != s.ready[0] {}
    }
  }

  lemma GoneStays(s: State, ev: Event, u: nat)
    requires Tracked(s) && Gone(s, u) && Enabled(s, ev)
    ensures Gone(Step(s, ev), u) && !TryOf(s, ev, u) && Step(s, ev).ops[u] == s.ops[u]
  {
    hide Min;
    var t := Step(s, ev);
    if ev.Try? { assert s.ready[0] in s.ready; }
    if ev.Enqueue? || ev.Cancel? { assert KeyRight(s, ev.id); }
    if ev.End? { assert KeyRight(s, s.ops[s.inFlight.value].id); }
  }

  lemma {:induction false} GoneForGood(s: State, evs: seq<Event>, u: nat)
    requires Tracked(s) && Gone(s, u) && Legal(s, evs)
    ensures Gone(Run(s, evs), u) && Tries(s, evs, u) == 0
    decreases |evs|
  {
    hide Step, Enabled, Tracked, Gone, TryOf;
    if evs != [] {
      StepTracked(s, evs[0]);
      GoneStays(s, evs[0], u);
      GoneForGood(Step(s, evs[0]), evs[1..], u);
    }
  }

  /** The operation stays queued through its tries until the last one allowed ends, and with that it is out. */
  ghost predicate AfterTries(t: State, u: nat, n: nat, limit: nat) {
    && n <= limit && u < |t.fates|
    && (t.fates[u].Exhausted? <==> n == limit && t.inFlight != Some(u))
    && (t.fates[u].Exhausted? <==> !InQueue(t, u))
  }

  lemma AloneMeans(s: State, u: nat)
    requires Tracked(s) && Alone(s, u)
    ensures AfterTries(s, u, s.ops[u].attempt, if s.ops[u].maxRetries < 1 then 1 else s.ops[u].maxRetries)
  {
    assert FateRight(s, u);
  }

  lemma AloneStep(s: State, ev: Event, u: nat)
    requires Tracked(s) && Alone(s, u) && Enabled(s, ev) && Undisturbed(s, ev, u)
    ensures var t := Step(s, ev); var limit := if s.ops[u].maxRetries < 1 then 1 else s.ops[u].maxRetries;
            && u < |t.ops| && t.ops[u].maxRetries == s.ops[u].maxRetries
            && t.ops[u].attempt == s.ops[u].attempt + (if TryOf(s, ev, u) then 1 else 0)
            && (Alone(t, u) || (Gone(t, u) && t.ops[u].attempt == limit))
  {
    hide Step, Tracked, Alone, Gone, Enabled, Undisturbed;
    AloneInQueue(s, u);
    if ev.Poll? || ev.Try? {
      LoopAlone(s, ev, u);
    } else if ev.End? {
      if s.inFlight == Some(u) { OwnEnd(s, ev, u); } else { OthersEnd(s, ev, u); }
    } else {
      CallerAlone(s, ev, u);
    }
    if Alone(Step(s, ev), u) { AloneInQueue(Step(s, ev), u); } else { GoneKnown(Step(s, ev), u); }
  }

  lemma AloneInQueue(s: State, u: nat)
    requires Alone(s, u)
    ensures InQueue(s, u)
  {
  }

  lemma GoneKnown(s: State, u: nat)
    requires Gone(s, u)
    ensures u < |s.ops| && u < |s.fates| && s.fates[u].Exhausted? && !InQueue(s, u) && s.inFlight != Some(u)
  {
  }

  /** Over every run: an operation that is left alone, not cut off by a stop, and whose tries all fail in a
      retryable way is out as exhausted exactly when its tries have come to max(1, maxRetries) and the
      last one is over, and until then it is queued. */
  lemma {:induction false} RetriedToTheEnd(s: State, evs: seq<Event>, u: nat)
    requires Tracked(s) && Alone(s, u) && Legal(s, evs) && AllUndisturbed(s, evs, u)
    ensures AfterTries(Run(s, evs), u, s.ops[u].attempt + Tries(s, evs, u),
                       if s.ops[u].maxRetries < 1 then 1 else s.ops[u].maxRetries)
    decreases |evs|
  {
    hide Step, Enabled, Tracked, Alone, Gone, Undisturbed, AfterTries, TryOf;
    if evs == [] {
      AloneMeans(s, u);
    } else {
      var t := Step(s, evs[0]);
      StepTracked(s, evs[0]);
      AloneStep(s, evs[0], u);
      if Alone(t, u) {
        RetriedToTheEnd(t, evs[1..], u);
      } else {
        GoneForGood(t, evs[1..], u);
        GoneIsAfterTries(Run(t, evs[1..]), u, t.ops[u].attempt);
      }
    }
  }

  lemma GoneIsAfterTries(t: State, u: nat, limit: nat)
    requires Gone(t, u)
    ensures AfterTries(t, u, limit, limit)
  {
  }

  /** So it is for an operation from the moment it is enqueued, unless an older one by its id is in hand. */
  lemma EnqueuedIsAlone(s: State, ev: Event)
    requires Tracked(s) && Enabled(s, ev) && ev.Enqueue? && NoDuplicates(s.ready)
    requires forall v <- s.ready :: s.ops[v].id != ev.id
    requires s.inFlight.Some? ==> s.inFlight.value !in s.ready && s.ops[s.inFlight.value].id != ev.id
    ensures Alone(Step(s, ev), |s.ops|) && Step(s, ev).ops[|s.ops|].attempt == 0
  {
    var t := Step(s, ev);
    forall v | v in t.ready ensures t.ops[v] == s.ops[v] {}
  }
}
