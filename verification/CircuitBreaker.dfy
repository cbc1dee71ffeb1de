/** The circuit breaker in front of the sidecar, and the client calls that drive it.
    The breaker keeps four fields; its whole behaviour is stated over the history of calls. */
module CircuitBreaker {
  import opened Text

  /** How a call to the sidecar ends: answered well; with 200 and a body that decodes to nothing, such as
      `{}` or `null`, or does not decode; with another status; with an exception; cancelled while it is
      awaited; or given up before anything is sent. */
  datatype Reply = Good | Hollow | Rejected | Garbled | Raised | Cancelled | Unsent

  /** A call on the breaker, with the clock reading it takes. */
  datatype Event = Allow(at: real) | Success | Failure(at: real) | Reset

  // ---------- what a history of calls means ----------

  /** Failures since the last success or reset. */
  function Trailing(h: seq<Event>): nat {
    if h == [] then 0
    else
      match h[|h| - 1]
      case Failure(_) => Trailing(h[..|h| - 1]) + 1
      case Allow(_) => Trailing(h[..|h| - 1])
      case _ => 0
  }

  function LastFailure(h: seq<Event>): real {
    if h == [] then 0.0
    else if h[|h| - 1].Failure? then h[|h| - 1].at
    else LastFailure(h[..|h| - 1])
  }

  /** Some request since the last failure came a recovery timeout after it: the probe. */
  predicate Probed(h: seq<Event>, recovery: real) {
    h != [] && !h[|h| - 1].Failure?
    && (Probed(h[..|h| - 1], recovery)
        || (h[|h| - 1].Allow? && h[|h| - 1].at - LastFailure(h) >= recovery))
  }

  function Needed(threshold: int): nat {
    if threshold < 1 then 1 else threshold
  }

  predicate Tripped(h: seq<Event>, threshold: int) {
    Trailing(h) >= Needed(threshold)
  }

  /** A request is let through unless enough failures are trailing; then only the first one that
      comes a recovery timeout after the last failure is. */
  predicate Admits(h: seq<Event>, threshold: int, recovery: real, at: real) {
    Tripped(h, threshold) ==> at - LastFailure(h) >= recovery && !Probed(h, recovery)
  }

  // ---------- the same by positions of the history ----------

  /** The failures that no success and no reset has made up for. */
  function Outstanding(h: seq<Event>): set<nat> {
    set i: nat | i < |h| && h[i].Failure? && forall j :: i < j < |h| ==> !h[j].Success? && !h[j].Reset?
  }

  /** There are enough of them for the configured threshold; one always is needed. */
  predicate EnoughFailures(h: seq<Event>, threshold: int) {
    |Outstanding(h)| >= 1 && |Outstanding(h)| >= threshold
  }

  predicate LastFailureAt(h: seq<Event>, i: nat) {
    i < |h| && h[i].Failure? && forall j :: i < j < |h| ==> !h[j].Failure?
  }

  /** A request at `at` may go through: too few failures are outstanding, or it comes a recovery timeout
      after the last failure and no request before it did. */
  predicate LetsThrough(h: seq<Event>, threshold: int, recovery: real, at: real) {
    !EnoughFailures(h, threshold)
    || exists i: nat :: i < |h| && LastFailureAt(h, i) && at - h[i].at >= recovery
                        && forall j :: i < j < |h| && h[j].Allow? ==> h[j].at - h[i].at < recovery
  }

  lemma {:induction false} TrailingCounts(h: seq<Event>)
    ensures |Outstanding(h)| == Trailing(h)
  {
    if h != [] {
      var n := |h| - 1;
      var front := h[..n];
      TrailingCounts(front);
      match h[n]
      case Failure(_) => assert Outstanding(h) == Outstanding(front) + {n};
      case Allow(_) => assert Outstanding(h) == Outstanding(front);
      case _ => assert Outstanding(h) == {};
    }
  }

  lemma {:induction false} LastFailureMeans(h: seq<Event>, i: nat, recovery: real)
    requires LastFailureAt(h, i)
    ensures LastFailure(h) == h[i].at
    ensures Probed(h, recovery) <==> exists j :: i < j < |h| && h[j].Allow? && h[j].at - h[i].at >= recovery
  {
    var n := |h| - 1;
    if i < n {
      var front := h[..n];
      assert LastFailureAt(front, i);
      LastFailureMeans(front, i, recovery);
      assert forall j :: i < j < n ==> front[j] == h[j];
    }
  }

  lemma {:induction false} SomeFailureIsLast(h: seq<Event>, k: nat) returns (i: nat)
    requires k < |h| && h[k].Failure?
    ensures LastFailureAt(h, i)
    decreases |h| - k
  {
    if j: nat :| k < j < |h| && h[j].Failure? { i := SomeFailureIsLast(h, j); } else { i := k; }
  }

  /** Over every history, tripping and letting through by what is trailing is that by positions. */
  lemma TrippedMeans(h: seq<Event>, threshold: int)
    ensures Tripped(h, threshold) <==> EnoughFailures(h, threshold)
  {
    TrailingCounts(h);
  }

  lemma AdmitsMeans(h: seq<Event>, threshold: int, recovery: real, at: real)
    ensures Admits(h, threshold, recovery, at) <==> LetsThrough(h, threshold, recovery, at)
  {
    hide Tripped, Probed, LastFailure;
    TrippedMeans(h, threshold);
    if Tripped(h, threshold) {
      var k: nat :| k in Outstanding(h);
      var i := SomeFailureIsLast(h, k);
      LastFailureMeans(h, i, recovery);
      assert forall j: nat :: LastFailureAt(h, j) ==> j == i;
    }
  }

  /** Before a recovery timeout has passed since the last failure, a request is refused exactly when enough
      failures are outstanding. */
  lemma TooSoon(h: seq<Event>, threshold: int, recovery: real, at: real, i: nat)
    requires LastFailureAt(h, i) && at - h[i].at < recovery
    ensures Admits(h, threshold, recovery, at) <==> !EnoughFailures(h, threshold)
  {
    hide Admits;
    AdmitsMeans(h, threshold, recovery, at);
    assert forall j: nat :: LastFailureAt(h, j) ==> j == i;
  }

  // ---------- the breaker ----------

  class CircuitBreaker {
    const threshold: int
    const recovery: real
    var open: bool
    var failures: nat
    var openedAt: real
    var probing: bool
    ghost var history: seq<Event>

    /** The stored state is a function of the history. The probe flag is looked at only while
        open, and only then need it be right: a reset leaves a raised flag behind, but the
        failures that trip the breaker again have lowered it. */
    ghost predicate Valid()
      reads this
    {
      && failures == Trailing(history)
      && (open <==> Tripped(history, threshold))
      && (open ==> openedAt == LastFailure(history) && (probing <==> Probed(history, recovery)))
    }

    constructor (threshold: int, recovery: real)
      ensures Valid() && history == [] && this.threshold == threshold && this.recovery == recovery
    {
      this.threshold, this.recovery := threshold, recovery;
      open, failures, openedAt, probing, history := false, 0, 0.0, false, [];
    }

    /** Half open is never stored: it is an open breaker looked at a recovery timeout later. */
    predicate HalfOpen(now: real)
      reads this
    {
      open && now - openedAt >= recovery
    }

    method AllowRequest(now: real) returns (allowed: bool)
      requires Valid()
      modifies this
      ensures Valid() && history == old(history) + [Allow(now)]
      ensures allowed <==> Admits(old(history), threshold, recovery, now)
      ensures allowed <==> LetsThrough(old(history), threshold, recovery, now)
    {
      AdmitsMeans(history, threshold, recovery, now);
      hide LetsThrough;
      assert (history + [Allow(now)])[..|history|] == history;
      history := history + [Allow(now)];
      if !open { return true; }
      if !HalfOpen(now) { return false; }
      if probing { return false; }
      probing := true;
      return true;
    }

    method RecordSuccess()
      requires Valid()
      modifies this
      ensures Valid() && history == old(history) + [Success]
    {
      assert (history + [Success])[..|history|] == history;
      history := history + [Success];
      open, failures, probing := false, 0, false;
    }

    method RecordFailure(now: real)
      requires Valid()
      modifies this
      ensures Valid() && history == old(history) + [Failure(now)]
      ensures open <==> EnoughFailures(history, threshold)
    {
      TrippedMeans(history + [Failure(now)], threshold);
      hide EnoughFailures;
      assert (history + [Failure(now)])[..|history|] == history;
      history := history + [Failure(now)];
      failures := failures + 1;
      probing := false;
      if failures >= threshold {
        open := true;
        openedAt := now;
      }
    }

    method Reset()
      requires Valid()
      modifies this
      ensures Valid() && history == old(history) + [Event.Reset]
    {
      assert (history + [Event.Reset])[..|history|] == history;
      history := history + [Event.Reset];
      open, failures := false, 0;
    }
  }

  // ---------- how often a tripped breaker lets a request through ----------

  /** No reading of the clock is earlier than the one before. */
  predicate Monotone(h: seq<Event>, from: real) {
    h == [] || (if h[0].Allow? || h[0].Failure? then from <= h[0].at && Monotone(h[1..], h[0].at)
                else Monotone(h[1..], from))
  }

  predicate NoRecovery(h: seq<Event>) {
    forall e <- h :: e.Allow? || e.Failure?
  }

  /** The times of the requests let through in `more`, after the history `h`. */
  function Admitted(h: seq<Event>, more: seq<Event>, threshold: int, recovery: real): seq<real>
    decreases |more|
  {
    if more == [] then []
    else
      (if more[0].Allow? && Admits(h, threshold, recovery, more[0].at) then [more[0].at] else [])
      + Admitted(h + [more[0]], more[1..], threshold, recovery)
  }

  /** Each time is at least `gap` after the one before it, and the first after `from`. */
  predicate Spaced(times: seq<real>, from: real, gap: real) {
    times == [] || (times[0] - from >= gap && Spaced(times[1..], times[0], gap))
  }

  /** While a tripped breaker sees no success and no reset, the requests it lets through are at
      least a recovery timeout after the last failure and at least that far apart, however late
      the failures of older requests come in. */
  lemma {:induction false} ProbesAreSpaced(h: seq<Event>, more: seq<Event>, threshold: int, recovery: real,
                                           now: real, last: real)
    requires recovery >= 0.0 && Tripped(h, threshold) && NoRecovery(more) && Monotone(more, now)
    // `last` is the last probe, or the trip; a failure came at or after it unless the probe is out
    requires last <= now
    requires !Probed(h, recovery) ==> last <= LastFailure(h) <= now
    ensures Spaced(Admitted(h, more, threshold, recovery), last, recovery)
    decreases |more|
  {
    if more != [] {
      var e := more[0];
      var h1 := h + [e];
      assert h1[..|h|] == h && e in more;
      assert Tripped(h1, threshold);
      var admitted := e.Allow? && Admits(h, threshold, recovery, e.at);
      if admitted {
        assert Probed(h1, recovery);
        ProbesAreSpaced(h1, more[1..], threshold, recovery, e.at, e.at);
        var rest := Admitted(h1, more[1..], threshold, recovery);
        assert ([e.at] + rest)[1..] == rest;
      } else {
        ProbesAreSpaced(h1, more[1..], threshold, recovery, e.at, last);
        assert [] + Admitted(h1, more[1..], threshold, recovery) == Admitted(h1, more[1..], threshold, recovery);
      }
    }
  }

  lemma Scale(a: real, b: real, gap: real)
    requires gap > 0.0 && a > b
    ensures a * gap > b * gap
  {
    assert (a - b) * gap > 0.0;
  }

  lemma Quotient(n: nat, gap: real, within: real)
    requires gap > 0.0 && n as real * gap <= within
    ensures n <= (within / gap).Floor
  {
    var q := within / gap;
    assert q * gap == within;
    if n as real > q {
      Scale(n as real, q, gap);
    }
  }

  lemma {:induction false} SpacedCount(times: seq<real>, from: real, gap: real, within: real)
    requires gap > 0.0 && within >= 0.0 && Spaced(times, from, gap)
    requires forall t <- times :: t <= from + within
    ensures |times| as real * gap <= within
    decreases |times|
  {
    if times != [] {
      assert times[0] in times;
      forall t <- times[1..] ensures t <= times[0] + (from + within - times[0]) { assert t in times; }
      SpacedCount(times[1..], times[0], gap, from + within - times[0]);
      assert |times| as real * gap == |times[1..]| as real * gap + gap;
    }
  }

  /** So at most `within / recovery` requests go through in the time `within` after the trip. */
  lemma ProbeRate(h: seq<Event>, trip: real, more: seq<Event>, threshold: int, recovery: real, within: real)
    requires recovery > 0.0 && within >= 0.0
    requires Tripped(h + [Failure(trip)], threshold) && NoRecovery(more) && Monotone(more, trip)
    ensures var probes := Admitted(h + [Failure(trip)], more, threshold, recovery);
            Spaced(probes, trip, recovery)
            && ((forall t <- probes :: t <= trip + within) ==> |probes| <= (within / recovery).Floor)
  {
    hide Admitted, Monotone, Spaced;
    var h1 := h + [Failure(trip)];
    assert h1[|h|] == Failure(trip);
    ProbesAreSpaced(h1, more, threshold, recovery, trip, trip);
    var probes := Admitted(h1, more, threshold, recovery);
    if forall t <- probes :: t <= trip + within {
      SpacedCount(probes, trip, recovery, within);
      Quotient(|probes|, recovery, within);
    }
  }

  // ---------- a probe whose outcome is never recorded ----------

  /** Once the probe is out, every later request is refused, at any time, as long as nothing but
      requests happens. */
  lemma {:induction false} UnansweredProbeLocksOut(h: seq<Event>, more: seq<Event>, threshold: int, recovery: real)
    requires Tripped(h, threshold) && Probed(h, recovery)
    requires forall e <- more :: e.Allow?
    ensures Admitted(h, more, threshold, recovery) == []
    ensures Tripped(h + more, threshold) && Probed(h + more, recovery)
    decreases |more|
  {
    if more == [] {
      assert h + more == h;
    } else {
      var h1 := h + [more[0]];
      assert h1[..|h|] == h && more[0] in more;
      UnansweredProbeLocksOut(h1, more[1..], threshold, recovery);
      assert h1 + more[1..] == h + more;
    }
  }

  // ---------- the client ----------

  /** What the end of a call leaves in the history: an undecodable answer is counted as a success, then
      as a failure. */
  function Recorded(reply: Reply, after: real): seq<Event> {
    match reply
    case Good => [Success]
    case Hollow => [Success]
    case Garbled => [Success, Failure(after)]
    case Raised => [Failure(after)]
    case _ => []
  }

  /** The call ends without recording an outcome: with an error status, cancelled, or never sent. */
  predicate Silent(reply: Reply) {
    reply.Rejected? || reply.Cancelled? || reply.Unsent?
  }

  /** The answer has status 200 and a body that decodes. A health check that gets an empty one is a
      success for the breaker and still not healthy. */
  predicate Welcome(reply: Reply) {
    reply.Good? || reply.Hollow?
  }

  /** The attempt ends in an exception that is caught. */
  predicate Fails(reply: Reply) {
    reply.Raised? || reply.Garbled?
  }

  /** How two attempts end together: the second is made when the first fails, and a failure is counted
      once, whatever its kind. */
  function Attempts(first: Reply, second: Reply): Reply {
    var last := if Fails(first) then second else first;
    if Fails(last) then Raised else last
  }

  /** A call as the history sees it: a gated one, or an outcome recorded without asking the breaker,
      by a health check or by a request that was let through earlier. */
  datatype Call = Gated(at: real, reply: Reply, after: real) | Ungated(reply: Reply, after: real)

  function Events(h: seq<Event>, call: Call, threshold: int, recovery: real): seq<Event> {
    match call
    case Ungated(reply, after) => Recorded(reply, after)
    case Gated(at, reply, after) =>
      [Allow(at)] + (if Admits(h, threshold, recovery, at) then Recorded(reply, after) else [])
  }

  function After(h: seq<Event>, calls: seq<Call>, threshold: int, recovery: real): seq<Event>
    decreases |calls|
  {
    if calls == [] then h
    else
      var before := After(h, calls[..|calls| - 1], threshold, recovery);
      before + Events(before, calls[|calls| - 1], threshold, recovery)
  }

  lemma AfterNext(h: seq<Event>, calls: seq<Call>, c: Call, threshold: int, recovery: real)
    ensures After(h, [], threshold, recovery) == h
    ensures var before := After(h, calls, threshold, recovery);
            After(h, calls + [c], threshold, recovery) == before + Events(before, c, threshold, recovery)
  {
    assert (calls + [c])[..|calls|] == calls;
  }

  /** How making sure that the sidecar runs ends. */
  datatype Ensured = Up | Down | Stopped

  /** The health checks made: all, or those up to the first that is answered well or is cancelled. */
  function Checks(checks: seq<Call>): seq<Call> {
    if checks == [] then []
    else if checks[0].reply.Good? || checks[0].reply.Cancelled? then [checks[0]]
    else [checks[0]] + Checks(checks[1..])
  }

  /** What they find; `running` says whether the sidecar is taken to run when none finds out. */
  function EnsuredBy(checks: seq<Call>, running: bool): Ensured {
    if checks == [] then (if running then Up else Down)
    else if checks[0].reply.Good? then Up
    else if checks[0].reply.Cancelled? then Stopped
    else EnsuredBy(checks[1..], running)
  }

  /** Whether the sidecar counts as available after those checks. */
  function Available(was: bool, checks: seq<Call>): bool
    decreases |checks|
  {
    if checks == [] then was
    else
      var now := if Silent(checks[0].reply) then was else Welcome(checks[0].reply);
      if checks[0].reply.Good? || checks[0].reply.Cancelled? then now else Available(now, checks[1..])
  }

  /** Creating an agent, as a sequence of calls: the gate, the health checks, and the attempts if the
      sidecar runs. */
  function CreateCalls(now: real, checks: seq<Call>, running: bool, first: Reply, second: Reply,
                       after: real): seq<Call> {
    [Gated(now, Unsent, after)] + Checks(checks)
    + if EnsuredBy(checks, running).Up? then [Ungated(Attempts(first, second), after)] else []
  }

  /** Check `k` is the first that decides: it is answered well or it is cancelled. */
  predicate Decides(checks: seq<Call>, k: nat) {
    k < |checks| && (checks[k].reply.Good? || checks[k].reply.Cancelled?)
    && forall j :: 0 <= j < k ==> !checks[j].reply.Good? && !checks[j].reply.Cancelled?
  }

  /** The checks made are those up to the first that decides, and it says how they end; without one all
      are made. */
  lemma {:induction false} EnsuredMeans(checks: seq<Call>, running: bool, k: nat)
    requires k == |checks| || Decides(checks, k)
    requires forall j :: 0 <= j < k ==> !checks[j].reply.Good? && !checks[j].reply.Cancelled?
    ensures k < |checks| ==>
              Checks(checks) == checks[..k + 1]
              && EnsuredBy(checks, running) == if checks[k].reply.Good? then Up else Stopped
    ensures k == |checks| ==> Checks(checks) == checks && EnsuredBy(checks, running) == if running then Up else Down
    decreases |checks|
  {
    if checks != [] && k > 0 {
      assert k < |checks| ==> Decides(checks[1..], k - 1);
      EnsuredMeans(checks[1..], running, k - 1);
      assert checks == [checks[0]] + checks[1..];
    }
  }

  /** The last check made that found anything out says whether the sidecar counts as available. */
  lemma {:induction false} AvailableMeans(was: bool, checks: seq<Call>, k: nat, i: int)
    requires k < |checks| && (Decides(checks, k) || k + 1 == |checks|)
    requires forall j :: 0 <= j < k ==> !checks[j].reply.Good? && !checks[j].reply.Cancelled?
    requires -1 <= i <= k
    requires forall j :: i < j <= k ==>
               checks[j].reply.Rejected? || checks[j].reply.Cancelled? || checks[j].reply.Unsent?
    requires i >= 0 ==> !checks[i].reply.Rejected? && !checks[i].reply.Cancelled? && !checks[i].reply.Unsent?
    ensures Available(was, checks) == if i < 0 then was else checks[i].reply.Good? || checks[i].reply.Hollow?
    decreases |checks|
  {
    if k > 0 {
      var now := if Silent(checks[0].reply) then was else Welcome(checks[0].reply);
      assert Decides(checks, k) ==> Decides(checks[1..], k - 1);
      AvailableMeans(now, checks[1..], k - 1, if i > 0 then i - 1 else -1);
    }
  }

  /** Creating an agent when check `k` finds the sidecar well: the gate, which records nothing, the checks up
      to that one, and the outcome of the attempts. */
  lemma CreateMeans(now: real, checks: seq<Call>, running: bool, first: Reply, second: Reply, after: real, k: nat)
    requires Decides(checks, k)
    ensures var calls := CreateCalls(now, checks, running, first, second, after);
            if checks[k].reply.Cancelled? then calls == [Gated(now, Unsent, after)] + checks[..k + 1]
            else calls == [Gated(now, Unsent, after)] + checks[..k + 1] + [Ungated(Attempts(first, second), after)]
  {
    EnsuredMeans(checks, running, k);
  }

  class Client {
    const breaker: CircuitBreaker
    var available: bool

    ghost predicate Valid()
      reads this, breaker
    {
      breaker.Valid()
    }

    constructor (threshold: int, recovery: real)
      ensures Valid() && fresh(breaker) && breaker.history == []
      ensures breaker.threshold == threshold && breaker.recovery == recovery
    {
      breaker := new CircuitBreaker(threshold, recovery);
      available := false;
    }

    /** A gated call: it records nothing when the sidecar answers with anything but 200, or when it is
        cancelled. */
    method GetAgent(now: real, reply: Reply, after: real) returns (reached: bool)
      requires Valid()
      modifies breaker
      ensures Valid()
      ensures reached <==> Admits(old(breaker.history), breaker.threshold, breaker.recovery, now)
      ensures breaker.history == old(breaker.history)
                + Events(old(breaker.history), Gated(now, reply, after), breaker.threshold, breaker.recovery)
    {
      reached := breaker.AllowRequest(now);
      if !reached { return; }
      if Welcome(reply) || reply.Garbled? {
        breaker.RecordSuccess();
      }
      if reply.Garbled? || reply.Raised? {
        breaker.RecordFailure(after);
      }
    }

    /** Two attempts; only the second one's exception counts as a failure. The body is decoded before
        the status is looked at. */
    method TryTwice(first: Reply, second: Reply, after: real)
      requires Valid()
      modifies breaker
      ensures Valid() && breaker.history == old(breaker.history) + Recorded(Attempts(first, second), after)
      ensures breaker.history
              == match (if first.Raised? || first.Garbled? then second else first)
                 case Good => old(breaker.history) + [Success]
                 case Hollow => old(breaker.history) + [Success]
                 case Raised => old(breaker.history) + [Failure(after)]
                 case Garbled => old(breaker.history) + [Failure(after)]
                 case _ => old(breaker.history)
    {
      hide EnoughFailures, Outstanding, Tripped, Probed;
      var attempt := 0;
      while attempt < 2
        invariant 0 <= attempt <= 2
        invariant breaker.Valid()
        invariant attempt < 2 ==> breaker.history == old(breaker.history)
        invariant attempt > 0 ==> Fails(first)
        invariant attempt == 2 ==> Fails(second) && breaker.history == old(breaker.history) + [Failure(after)]
      {
        var reply := if attempt == 0 then first else second;
        if Fails(reply) {
          if attempt == 1 { breaker.RecordFailure(after); }
        } else {
          if Welcome(reply) { breaker.RecordSuccess(); }
          return;
        }
        attempt := attempt + 1;
      }
    }

    method SendQuery(now: real, first: Reply, second: Reply, after: real) returns (reached: bool)
      requires Valid()
      modifies breaker
      ensures Valid()
      ensures reached <==> Admits(old(breaker.history), breaker.threshold, breaker.recovery, now)
      ensures breaker.history == old(breaker.history)
                + Events(old(breaker.history), Gated(now, Attempts(first, second), after),
                         breaker.threshold, breaker.recovery)
    {
      reached := breaker.AllowRequest(now);
      if !reached { return; }
      TryTwice(first, second, after);
    }

    /** The health check does not ask the breaker, but reports to it unless it is cancelled. */
    method Health(reply: Reply, after: real) returns (healthy: bool)
      requires Valid()
      modifies this, breaker
      ensures Valid()
      ensures healthy <==> reply.Good?
      ensures breaker.history == old(breaker.history) + Recorded(reply, after)
      ensures breaker.history
              == match reply
                 case Good => old(breaker.history) + [Success]
                 case Hollow => old(breaker.history) + [Success]
                 case Garbled => old(breaker.history) + [Success, Failure(after)]
                 case Raised => old(breaker.history) + [Failure(after)]
                 case _ => old(breaker.history)
      ensures available == match reply
                           case Good => true
                           case Hollow => true
                           case Garbled => false
                           case Raised => false
                           case _ => old(available)
    {
      hide EnoughFailures, Outstanding, Tripped, Probed;
      healthy := false;
      if Welcome(reply) || reply.Garbled? {
        available := true;
        breaker.RecordSuccess();
        healthy := reply.Good?;
      }
      if reply.Garbled? || reply.Raised? {
        available := false;
        breaker.RecordFailure(after);
      }
    }

    /** Health checks until the sidecar answers well. */
    method EnsureRunning(checks: seq<Call>, running: bool) returns (r: Ensured)
      requires Valid() && forall c <- checks :: c.Ungated?
      modifies this, breaker
      ensures Valid() && r == EnsuredBy(checks, running)
      ensures breaker.history == After(old(breaker.history), Checks(checks), breaker.threshold, breaker.recovery)
      ensures available == Available(old(available), checks)
    {
      hide EnoughFailures, Outstanding, LetsThrough, Admits, Tripped, Probed, CircuitBreaker.Valid;
      ghost var done: seq<Call> := [];
      var rest := checks;
      assert [] + Checks(checks) == Checks(checks);
      while rest != []
        invariant Valid() && forall c <- rest :: c.Ungated?
        invariant Available(available, rest) == Available(old(available), checks)
        invariant done + Checks(rest) == Checks(checks) && EnsuredBy(rest, running) == EnsuredBy(checks, running)
        invariant breaker.history == After(old(breaker.history), done, breaker.threshold, breaker.recovery)
        decreases |rest|
      {
        var c := rest[0];
        assert c in rest;
        var healthy := Health(c.reply, c.after);
        AfterNext(old(breaker.history), done, c, breaker.threshold, breaker.recovery);
        if healthy || c.reply.Cancelled? {
          return if healthy then Up else Stopped;
        }
        Assoc(done, [c], Checks(rest[1..]));
        done := done + [c];
        rest := rest[1..];
      }
      assert done + [] == done;
      return if running then Up else Down;
    }

    /** Creating an agent asks the breaker first and may then return without having sent anything, the
        probe being out. */
    method CreateAgent(now: real, checks: seq<Call>, running: bool, first: Reply, second: Reply, after: real)
      returns (reached: bool)
      requires Valid() && forall c <- checks :: c.Ungated?
      modifies this, breaker
      ensures Valid()
      ensures reached <==> Admits(old(breaker.history), breaker.threshold, breaker.recovery, now)
      ensures breaker.history
              == After(old(breaker.history),
                       if reached then CreateCalls(now, checks, running, first, second, after)
                       else [Gated(now, Unsent, after)],
                       breaker.threshold, breaker.recovery)
      ensures available == if reached then Available(old(available), checks) else old(available)
    {
      ghost var h, t, w := breaker.history, breaker.threshold, breaker.recovery;
      ghost var gate := Gated(now, Unsent, after);
      AfterNext(h, [], gate, t, w);
      assert [] + [gate] == [gate];
      reached := breaker.AllowRequest(now);
      if !reached { return; }
      assert breaker.history == After(h, [gate], t, w);
      var ensured := EnsureRunning(checks, running);
      AfterAppend(h, [gate], Checks(checks), t, w);
      if ensured.Up? {
        ghost var last := Ungated(Attempts(first, second), after);
        AfterNext(h, [gate] + Checks(checks), last, t, w);
        TryTwice(first, second, after);
      } else {
        assert [gate] + Checks(checks) + [] == [gate] + Checks(checks);
      }
    }
  }

  lemma {:induction false} AfterAppend(h: seq<Event>, calls: seq<Call>, more: seq<Call>, threshold: int, recovery: real)
    ensures After(h, calls + more, threshold, recovery)
            == After(After(h, calls, threshold, recovery), more, threshold, recovery)
    decreases |more|
  {
    if more == [] {
      assert calls + [] == calls;
    } else {
      var n := |more| - 1;
      assert calls + more == (calls + more[..n]) + [more[n]];
      AfterAppend(h, calls, more[..n], threshold, recovery);
      AfterNext(h, calls + more[..n], more[n], threshold, recovery);
    }
  }

  /** The next request is let through at some time. */
  ghost predicate CanAdmit(h: seq<Event>, threshold: int, recovery: real) {
    exists at: real :: Admits(h, threshold, recovery, at)
  }

  /** A request is refused at all times exactly while the probe is out. */
  lemma RefusesForever(h: seq<Event>, threshold: int, recovery: real)
    ensures CanAdmit(h, threshold, recovery) <==> !(Tripped(h, threshold) && Probed(h, recovery))
  {
    if !(Tripped(h, threshold) && Probed(h, recovery)) {
      assert Admits(h, threshold, recovery, LastFailure(h) + recovery);
    }
  }

  /** Whatever outcome is recorded lets a request through again. */
  lemma OutcomeUnlocks(h: seq<Event>, reply: Reply, after: real, threshold: int, recovery: real)
    ensures Silent(reply) ==> h + Recorded(reply, after) == h
    ensures !Silent(reply) ==> CanAdmit(h + Recorded(reply, after), threshold, recovery)
  {
    hide CanAdmit;
    var later := h + Recorded(reply, after);
    RefusesForever(later, threshold, recovery);
    if reply.Garbled? {
      assert later[..|later| - 1] == h + [Success];
    }
  }

  /** Once enough failures are trailing, a request let through as the probe leaves a way back exactly
      when it records an outcome: not when it ends with an error status, is cancelled, or is never sent. */
  lemma ProbeUnlocks(h: seq<Event>, at: real, reply: Reply, after: real, threshold: int, recovery: real)
    requires Tripped(h, threshold) && Admits(h, threshold, recovery, at)
    ensures CanAdmit(h + Events(h, Gated(at, reply, after), threshold, recovery), threshold, recovery)
            <==> !Silent(reply)
  {
    hide CanAdmit;
    var h1 := h + [Allow(at)];
    assert h1[..|h|] == h;
    OutcomeUnlocks(h1, reply, after, threshold, recovery);
    RefusesForever(h1, threshold, recovery);
    assert h + Events(h, Gated(at, reply, after), threshold, recovery) == h1 + Recorded(reply, after);
  }

  /** With the probe out, an ungated outcome leaves a way back exactly when it is recorded. */
  lemma CheckUnlocks(h: seq<Event>, reply: Reply, after: real, threshold: int, recovery: real)
    requires Tripped(h, threshold) && Probed(h, recovery)
    ensures CanAdmit(h + Events(h, Ungated(reply, after), threshold, recovery), threshold, recovery)
            <==> !Silent(reply)
  {
    hide CanAdmit;
    OutcomeUnlocks(h, reply, after, threshold, recovery);
    RefusesForever(h, threshold, recovery);
  }

  /** How soon: at once after a success, an empty answer included, and after a failure only a recovery
      timeout later unless that one failure is too few to trip the breaker. */
  lemma HealthUnlocks(h: seq<Event>, threshold: int, recovery: real, after: real, at: real)
    requires Tripped(h, threshold)
    ensures Admits(h + Recorded(Good, after), threshold, recovery, at)
    ensures Admits(h + Recorded(Hollow, after), threshold, recovery, at)
    ensures Admits(h + Recorded(Raised, after), threshold, recovery, at) <==> at - after >= recovery
    ensures Admits(h + Recorded(Garbled, after), threshold, recovery, at)
            <==> threshold > 1 || at - after >= recovery
  {
    assert (h + [Success])[..|h|] == h && (h + [Failure(after)])[..|h|] == h;
    var g := h + Recorded(Garbled, after);
    assert g[..|g| - 1] == h + [Success] && g[|g| - 1] == Failure(after);
    assert Trailing(h + [Success]) == 0 && Trailing(g) == 1;
  }

  /** The last call leaves the probe out: it is the probe and records nothing, or the probe was out
      before it and it is refused or records nothing. */
  predicate LeftOut(h: seq<Event>, calls: seq<Call>, threshold: int, recovery: real) {
    if calls == [] then Tripped(h, threshold) && Probed(h, recovery)
    else
      var front := calls[..|calls| - 1];
      var before := After(h, front, threshold, recovery);
      match calls[|calls| - 1]
      case Ungated(reply, _) => Silent(reply) && LeftOut(h, front, threshold, recovery)
      case Gated(at, reply, _) =>
        LeftOut(h, front, threshold, recovery)
        || (Silent(reply) && Tripped(before, threshold) && Admits(before, threshold, recovery, at))
  }

  /** For every sequence of calls: requests are refused for ever exactly when some probe that recorded
      nothing has not been followed by an ungated outcome. */
  lemma {:induction false} LockedOutExactly(h: seq<Event>, calls: seq<Call>, threshold: int, recovery: real)
    ensures CanAdmit(After(h, calls, threshold, recovery), threshold, recovery)
            <==> !LeftOut(h, calls, threshold, recovery)
    decreases |calls|
  {
    hide CanAdmit, Tripped, Probed;
    RefusesForever(h, threshold, recovery);
    if calls != [] {
      var front, c := calls[..|calls| - 1], calls[|calls| - 1];
      LockedOutExactly(h, front, threshold, recovery);
      LastCall(After(h, front, threshold, recovery), c, threshold, recovery);
    }
  }

  lemma LastCall(h: seq<Event>, c: Call, threshold: int, recovery: real)
    ensures var later := h + Events(h, c, threshold, recovery);
            CanAdmit(later, threshold, recovery)
            <==> match c
                 case Ungated(reply, _) => CanAdmit(h, threshold, recovery) || !Silent(reply)
                 case Gated(at, reply, _) =>
                   CanAdmit(h, threshold, recovery)
                   && !(Silent(reply) && Tripped(h, threshold) && Admits(h, threshold, recovery, at))
  {
    hide CanAdmit;
    RefusesForever(h, threshold, recovery);
    match c
    case Ungated(reply, after) => OutcomeUnlocks(h, reply, after, threshold, recovery);
    case Gated(at, reply, after) =>
      if Tripped(h, threshold) && Admits(h, threshold, recovery, at) {
        ProbeUnlocks(h, at, reply, after, threshold, recovery);
      } else {
        QuietCall(h, at, reply, after, threshold, recovery);
      }
  }

  /** A request that is refused, or let through by a closed breaker, never sends a probe out. */
  lemma QuietCall(h: seq<Event>, at: real, reply: Reply, after: real, threshold: int, recovery: real)
    requires !Tripped(h, threshold) || !Admits(h, threshold, recovery, at)
    ensures var later := h + Events(h, Gated(at, reply, after), threshold, recovery);
            CanAdmit(later, threshold, recovery) <==> CanAdmit(h, threshold, recovery)
  {
    hide CanAdmit;
    var h1 := h + [Allow(at)];
    assert h1[..|h|] == h;
    RefusesForever(h, threshold, recovery);
    RefusesForever(h1, threshold, recovery);
    OutcomeUnlocks(h1, reply, after, threshold, recovery);
    if Admits(h, threshold, recovery, at) {
      assert h + Events(h, Gated(at, reply, after), threshold, recovery) == h1 + Recorded(reply, after);
    } else {
      assert h + Events(h, Gated(at, reply, after), threshold, recovery) == h1;
    }
  }

  /** Some ungated call of the sequence records an outcome. */
  predicate Answered(calls: seq<Call>) {
    exists c <- calls :: c.Ungated? && !Silent(c.reply)
  }

  /** With the probe out, a gated call can be let through at some point of the sequence exactly when an
      ungated call records an outcome: gated calls alone never get out. */
  lemma OnlyHealthUnlocks(h: seq<Event>, calls: seq<Call>, threshold: int, recovery: real)
    requires Tripped(h, threshold) && Probed(h, recovery)
    ensures (exists k: nat :: k <= |calls| && CanAdmit(After(h, calls[..k], threshold, recovery), threshold, recovery))
            <==> Answered(calls)
  {
    hide CanAdmit, Tripped, Probed, LeftOut, After;
    if k: nat :| k <= |calls| && CanAdmit(After(h, calls[..k], threshold, recovery), threshold, recovery) {
      LockedOutExactly(h, calls[..k], threshold, recovery);
      StaysOut(h, calls[..k], threshold, recovery);
      assert forall c <- calls[..k] :: c in calls;
    }
    if i: nat :| i < |calls| && calls[i].Ungated? && !Silent(calls[i].reply) {
      LockedOutExactly(h, calls[..i + 1], threshold, recovery);
      EndsAnswered(h, calls[..i + 1], threshold, recovery);
    }
  }

  lemma {:induction false} StaysOut(h: seq<Event>, calls: seq<Call>, threshold: int, recovery: real)
    requires Tripped(h, threshold) && Probed(h, recovery)
    ensures !LeftOut(h, calls, threshold, recovery) ==> Answered(calls)
    decreases |calls|
  {
    hide Tripped, Probed, Admits, After;
    if calls != [] {
      StaysOut(h, calls[..|calls| - 1], threshold, recovery);
      assert calls[|calls| - 1] in calls;
      assert forall c <- calls[..|calls| - 1] :: c in calls;
    }
  }

  lemma EndsAnswered(h: seq<Event>, calls: seq<Call>, threshold: int, recovery: real)
    requires calls != [] && calls[|calls| - 1].Ungated? && !Silent(calls[|calls| - 1].reply)
    ensures !LeftOut(h, calls, threshold, recovery)
  {
  }
}
