/** The event consumer's buffers: the latest events of each agent, filled from one global stream or
    from the agent's own, and asked for by position. */
module EventBuffers {
  import opened Text

  datatype Event = Event(agent: string, payload: string)

  /** What happens to the buffers. */
  datatype Call =
    | Receive(e: Event)                    // from the global stream
    | ReceiveOwn(agent: string, e: Event)  // from the agent's own stream
    | Subscribe(agent: string)
    | Unsubscribe(agent: string)
    | Cleanup(active: set<string>)

  const MAX_BUFFER: nat := 200

  predicate Survives(a: string, active: set<string>) {
    a == "_global" || a in active
  }

  // ---------- what a history of calls means ----------

  /** The agent has a buffer. */
  predicate Buffered(h: seq<Call>, a: string) {
    h != [] &&
    var front := h[..|h| - 1];
    match h[|h| - 1]
    case Receive(e) => (e.agent == a && a != "") || Buffered(front, a)
    case ReceiveOwn(_, _) => Buffered(front, a)
    case Subscribe(b) => a == b || Buffered(front, a)
    case Unsubscribe(b) => a != b && Buffered(front, a)
    case Cleanup(active) => Survives(a, active) && Buffered(front, a)
  }

  /** Every event of the agent since its buffer was set up. */
  function Collected(h: seq<Call>, a: string): seq<Event> {
    if h == [] then []
    else
      var before := Collected(h[..|h| - 1], a);
      match h[|h| - 1]
      case Receive(e) => if e.agent == a && a != "" then before + [e] else before
      case ReceiveOwn(b, e) => if a == b && Buffered(h[..|h| - 1], a) then before + [e] else before
      case Subscribe(_) => before
      case Unsubscribe(b) => if a == b then [] else before
      case Cleanup(active) => if Survives(a, active) then before else []
  }

  lemma {:induction false} NothingUnbuffered(h: seq<Call>, a: string)
    ensures !Buffered(h, a) ==> Collected(h, a) == []
  {
    if h != [] { NothingUnbuffered(h[..|h| - 1], a); }
  }

  lemma TailNext<T>(s: seq<T>, e: T, n: nat)
    ensures Tail(Tail(s, n) + [e], n) == Tail(s + [e], n)
  {
  }

  // ---------- the consumer ----------

  class EventConsumer {
    var buffers: map<string, seq<Event>>
    ghost var history: seq<Call>

    ghost predicate BufferRight(a: string)
      reads this
    {
      (a in buffers <==> Buffered(history, a))
      && (a in buffers ==> buffers[a] == Tail(Collected(history, a), MAX_BUFFER))
    }

    /** Each buffer is the end of what its agent sent since it was set up. */
    ghost predicate Valid()
      reads this
    {
      forall a :: BufferRight(a)
    }

    constructor ()
      ensures Valid() && history == []
    {
      buffers, history := map[], [];
    }

    /** The event goes to the end of the buffer, and the oldest ones go. */
    method Push(a: string, e: Event)
      requires a in buffers
      modifies `buffers
      ensures buffers == old(buffers)[a := Tail(old(buffers)[a] + [e], MAX_BUFFER)]
    {
      var buf := buffers[a] + [e];
      if |buf| > MAX_BUFFER { buf := buf[|buf| - MAX_BUFFER..]; }
      buffers := buffers[a := buf];
    }

    method OnGlobalEvent(e: Event)
      requires Valid()
      modifies this
      ensures Valid() && history == old(history) + [Receive(e)]
    {
      hide Tail;
      var a := e.agent;
      assert BufferRight(a);
      NothingUnbuffered(history, a);
      ghost var was := history;
      history := history + [Receive(e)];
      assert history[..|was|] == was;
      if a != "" {
        TailNext(Collected(was, a), e, MAX_BUFFER);
        if a !in buffers {
          EmptyTail();
          buffers := buffers[a := []];
        }
        Push(a, e);
      }
      forall b ensures BufferRight(b) { assert old(BufferRight(b)); }
    }

    method OnOwnEvent(a: string, e: Event)
      requires Valid()
      modifies this
      ensures Valid() && history == old(history) + [ReceiveOwn(a, e)]
    {
      hide Tail;
      assert BufferRight(a);
      ghost var was := history;
      history := history + [ReceiveOwn(a, e)];
      assert history[..|was|] == was;
      if a in buffers {
        TailNext(Collected(was, a), e, MAX_BUFFER);
        Push(a, e);
      }
      forall b ensures BufferRight(b) { assert old(BufferRight(b)); }
    }

    method Register(a: string)
      requires Valid()
      modifies this
      ensures Valid() && history == old(history) + [Subscribe(a)]
    {
      hide Tail;
      assert BufferRight(a);
      NothingUnbuffered(history, a);
      EmptyTail();
      ghost var was := history;
      history := history + [Subscribe(a)];
      assert history[..|was|] == was;
      if a !in buffers { buffers := buffers[a := []]; }
      forall b ensures BufferRight(b) { assert old(BufferRight(b)); }
    }

    method Forget(a: string)
      requires Valid()
      modifies this
      ensures Valid() && history == old(history) + [Unsubscribe(a)]
    {
      hide Tail;
      ghost var was := history;
      history := history + [Unsubscribe(a)];
      assert history[..|was|] == was;
      buffers := buffers - {a};
      forall b ensures BufferRight(b) { assert old(BufferRight(b)); }
    }

    /** Buffers of agents that are no longer active go. */
    method CleanupFinished(active: set<string>) returns (removed: nat)
      requires Valid()
      modifies this
      ensures Valid() && history == old(history) + [Cleanup(active)]
      ensures removed == |old(buffers)| - |buffers|
    {
      hide Tail;
      ghost var was := history;
      history := history + [Cleanup(active)];
      assert history[..|was|] == was;
      var stale := set a | a in buffers && !Survives(a, active);
      removed := |stale|;
      Removed(buffers, stale);
      buffers := buffers - stale;
      forall b ensures BufferRight(b) { assert old(BufferRight(b)); }
    }

    /** The events from position `since` of the buffer on. */
    method GetEvents(a: string, since: int) returns (events: seq<Event>)
      requires Valid()
      ensures events == Polled(Collected(history, a), since)
    {
      assert BufferRight(a);
      NothingUnbuffered(history, a);
      events := if a in buffers then buffers[a] else [];
      if since > 0 { events := if since <= |events| then events[since..] else []; }
    }
  }

  lemma EmptyTail()
    ensures Tail<Event>([], MAX_BUFFER) == []
  {
  }

  lemma Removed(m: map<string, seq<Event>>, gone: set<string>)
    requires gone <= m.Keys
    ensures |m - gone| == |m| - |gone|
  {
    assert (m - gone).Keys == m.Keys - gone;
  }

  // ---------- asking for what is new ----------

  /** What a poll from position `since` gives once `all` has been sent. */
  function Polled(all: seq<Event>, since: int): seq<Event> {
    var buffer := Tail(all, MAX_BUFFER);
    if since <= 0 then buffer else if since <= |buffer| then buffer[since..] else []
  }

  /** A poller that asks from the number of events it has seen is given exactly the new ones if and
      only if none has been dropped, or there is nothing new. */
  lemma PollIsExact(all: seq<Event>, seen: nat)
    requires seen <= |all|
    ensures Polled(all, seen) == all[seen..] <==> |all| <= MAX_BUFFER || seen == |all|
  {
    var buffer := Tail(all, MAX_BUFFER);
    if |all| > MAX_BUFFER && seen < |all| {
      assert |Polled(all, seen)| == if seen <= MAX_BUFFER then MAX_BUFFER - seen else 0;
    }
  }

  /** Having seen a full buffer it is never given anything again. */
  lemma PollStalls(all: seq<Event>, more: seq<Event>, seen: nat)
    requires seen >= MAX_BUFFER
    ensures Polled(all + more, seen) == []
  {
  }

  /** What has been sent when a number of batches have come, one between any two polls. */
  function Sent(batches: seq<seq<Event>>): seq<Event> {
    if batches == [] then [] else Sent(batches[..|batches| - 1]) + batches[|batches| - 1]
  }

  /** What a poller has been given that asks after every batch from the number of events it has. */
  function Given(batches: seq<seq<Event>>): seq<Event> {
    if batches == [] then []
    else
      var had := Given(batches[..|batches| - 1]);
      had + Polled(Sent(batches), |had|)
  }

  function Least(a: nat, b: nat): nat {
    if a <= b then a else b
  }

  /** In however many polls, it is given as many events as were sent, but no more than a buffer holds,
      and it has them all exactly while no more were sent than that. */
  lemma {:induction false} PollerIsGiven(batches: seq<seq<Event>>)
    ensures |Given(batches)| == Least(|Sent(batches)|, MAX_BUFFER)
    ensures Given(batches) == Sent(batches) <==> |Sent(batches)| <= MAX_BUFFER
  {
    if batches != [] {
      var n := |batches| - 1;
      PollerIsGiven(batches[..n]);
      var all, had := Sent(batches), Given(batches[..n]);
      if |all| <= MAX_BUFFER {
        assert all[..|had|] == had;
      }
    }
  }

  /** From then on it is given nothing, whatever is sent. */
  lemma {:induction false} PollerIsDeaf(batches: seq<seq<Event>>, more: seq<seq<Event>>)
    requires |Sent(batches)| >= MAX_BUFFER
    ensures Given(batches + more) == Given(batches) && |Sent(batches + more)| >= MAX_BUFFER
  {
    hide Tail, Polled;
    PollerIsGiven(batches);
    if more == [] {
      assert batches + more == batches;
    } else {
      var n := |more| - 1;
      var all := batches + more;
      assert all[..|batches| + n] == batches + more[..n];
      PollerIsDeaf(batches, more[..n]);
      assert |all| - 1 == |batches| + n;
      PollStalls(Sent(all), [], |Given(batches)|);
      assert Sent(all) + [] == Sent(all);
    }
  }

  // ---------- buffers by positions of the history ----------

  /** The call drops the agent's buffer: it leaves, or is not among the active ones at a clean-up. */
  predicate Drops(c: Call, a: string) {
    (c.Unsubscribe? && c.agent == a) || (c.Cleanup? && a !in c.active && a != "_global")
  }

  /** The call sets the buffer up if there is none: a subscription, or an event from the global stream. */
  predicate Opens(c: Call, a: string) {
    (c.Subscribe? && c.agent == a) || (c.Receive? && c.e.agent == a && a != "")
  }

  /** Call `i` puts an event into the agent's buffer: one from the global stream, or one from the agent's
      own stream after something has set the buffer up. */
  predicate Fills(h: seq<Call>, from: nat, i: nat, a: string)
    requires from <= i < |h|
  {
    (h[i].Receive? && h[i].e.agent == a && a != "")
    || (h[i].ReceiveOwn? && h[i].agent == a && exists j :: from <= j < i && Opens(h[j], a))
  }

  function Filled(h: seq<Call>, from: nat, n: nat, a: string): seq<Event>
    requires from <= n <= |h|
  {
    if n == from then []
    else if Fills(h, from, n - 1, a) then Filled(h, from, n - 1, a) + [h[n - 1].e]
    else Filled(h, from, n - 1, a)
  }

  /** Nothing has dropped the agent's buffer since position `from`, where something did or all began. */
  predicate Since(h: seq<Call>, from: nat, n: nat, a: string) {
    from <= n <= |h| && (from > 0 ==> Drops(h[from - 1], a)) && forall i :: from <= i < n ==> !Drops(h[i], a)
  }

  lemma Dropped(h: seq<Call>, a: string)
    requires h != [] && Drops(h[|h| - 1], a)
    ensures !Buffered(h, a) && Collected(h, a) == []
  {
  }

  /** Over every history: the agent has a buffer exactly when something has set it up since it was last
      dropped, and it has collected exactly the events put into it since then. */
  lemma {:induction false} CollectedMeans(h: seq<Call>, from: nat, n: nat, a: string)
    requires Since(h, from, n, a)
    ensures Buffered(h[..n], a) <==> exists j :: from <= j < n && Opens(h[j], a)
    ensures Collected(h[..n], a) == Filled(h, from, n, a)
    decreases n
  {
    if n == from {
      if n > 0 { Dropped(h[..n], a); } else { assert h[..n] == []; }
    } else {
      assert h[..n][..n - 1] == h[..n - 1] && h[..n][n - 1] == h[n - 1];
      CollectedMeans(h, from, n - 1, a);
      assert !Drops(h[n - 1], a);
    }
  }

  /** There always is such a position. */
  lemma {:induction false} SinceSome(h: seq<Call>, n: nat, a: string) returns (from: nat)
    requires n <= |h|
    ensures Since(h, from, n, a)
  {
    if n == 0 || Drops(h[n - 1], a) { from := n; } else { from := SinceSome(h, n - 1, a); }
  }
}
